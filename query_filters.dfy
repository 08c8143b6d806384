/**
 * The phone-pair filters of the distance queries: two phones pass when
 * their operators differ (query 2b), or when the cities of their users
 * differ (query 2c). A phone without the parent the filter looks up makes
 * the filter throw, which is a Failure here.
 */
module QueryFilters {

  import opened Wrappers
  import opened Graph
  import opened GraphUtils

  /** The city of the user of a phone, looked up in that order. */
  function UserCity(vs: map<VId, Vertex>, es: seq<Edge>, phone: VId): (r: Result<VId, LookupError>)
    ensures r.Success? ==> User(vs, es, phone).Success? && City(vs, es, User(vs, es, phone).value) == r
    ensures r.Failure? <==> User(vs, es, phone).Failure? || City(vs, es, User(vs, es, phone).value).Failure?
  {
    match User(vs, es, phone)
    case Failure(e) => Failure(e)
    case Success(u) => City(vs, es, u)
  }

  /** query2_b_filter: the operators of the two phones are different vertices. */
  function Query2b(vs: map<VId, Vertex>, es: seq<Edge>, phone1: VId, phone2: VId): (r: Result<bool, LookupError>)
    ensures r.Success? <==> Operator(vs, es, phone1).Success? && Operator(vs, es, phone2).Success?
    ensures r.Success? ==> (r.value <==> Operator(vs, es, phone1).value != Operator(vs, es, phone2).value)
    ensures r.Failure? && Operator(vs, es, phone1).Failure? ==> r.error == NoParent(phone1, "operator")
    ensures r.Failure? && Operator(vs, es, phone1).Success? ==> r.error == NoParent(phone2, "operator")
  {
    match Operator(vs, es, phone1)
    case Failure(e) => Failure(e)
    case Success(o1) =>
      match Operator(vs, es, phone2)
      case Failure(e) => Failure(e)
      case Success(o2) => Success(o1 != o2)
  }

  /** query2_c_filter: the cities of the users of the two phones are different vertices. */
  function Query2c(vs: map<VId, Vertex>, es: seq<Edge>, phone1: VId, phone2: VId): (r: Result<bool, LookupError>)
    ensures r.Success? <==> UserCity(vs, es, phone1).Success? && UserCity(vs, es, phone2).Success?
    ensures r.Success? ==> (r.value <==> UserCity(vs, es, phone1).value != UserCity(vs, es, phone2).value)
    ensures r.Failure? && UserCity(vs, es, phone1).Failure? ==> r == Failure(UserCity(vs, es, phone1).error)
    ensures r.Failure? && UserCity(vs, es, phone1).Success? ==> r == Failure(UserCity(vs, es, phone2).error)
  {
    match UserCity(vs, es, phone1)
    case Failure(e) => Failure(e)
    case Success(c1) =>
      match UserCity(vs, es, phone2)
      case Failure(e) => Failure(e)
      case Success(c2) => Success(c1 != c2)
  }

  /** The filters a distance query may apply to the two end phones of a path. */
  datatype PhoneFilter = OperatorsDiffer | CitiesDiffer

  /** The filter applied to two phones; no filter lets every pair through. */
  function ApplyFilter(vs: map<VId, Vertex>, es: seq<Edge>, f: Option<PhoneFilter>, p1: VId, p2: VId): (r: Result<bool, LookupError>)
    ensures f.None? ==> r == Success(true)
    ensures f.Some? && r.Success? && r.value ==> p1 != p2
    ensures f.Some? && r.Failure? ==> r.error.NoParent?
    ensures f == Some(OperatorsDiffer) && r.Failure? ==> r.error == NoParent(p1, "operator") || r.error == NoParent(p2, "operator")
  {
    FiltersSymmetric(vs, es, p1, p1);
    match f
    case None => Success(true)
    case Some(OperatorsDiffer) => Query2b(vs, es, p1, p2)
    case Some(CitiesDiffer) => Query2c(vs, es, p1, p2)
  }

  /**
   * Both filters are symmetric whenever they decide, and neither lets a phone
   * pass with itself.
   */
  lemma FiltersSymmetric(vs: map<VId, Vertex>, es: seq<Edge>, p: VId, q: VId)
    ensures Query2b(vs, es, p, q).Success? <==> Query2b(vs, es, q, p).Success?
    ensures Query2b(vs, es, p, q).Success? ==> Query2b(vs, es, p, q).value == Query2b(vs, es, q, p).value
    ensures Query2c(vs, es, p, q).Success? <==> Query2c(vs, es, q, p).Success?
    ensures Query2c(vs, es, p, q).Success? ==> Query2c(vs, es, p, q).value == Query2c(vs, es, q, p).value
    ensures Query2b(vs, es, p, p).Success? ==> !Query2b(vs, es, p, p).value
    ensures Query2c(vs, es, p, p).Success? ==> !Query2c(vs, es, p, p).value
  {
  }

  /** Two phones of one user are never in different cities. */
  lemma SameUserSameCity(vs: map<VId, Vertex>, es: seq<Edge>, p: VId, q: VId)
    requires User(vs, es, p).Success? && User(vs, es, p) == User(vs, es, q)
    ensures Query2c(vs, es, p, q).Success? ==> !Query2c(vs, es, p, q).value
  {
  }

  /**
   * With one operator parent per phone (as ingestion builds the graph), query
   * 2b passes exactly the phones whose operator edges lead to different
   * operator vertices.
   */
  lemma Query2bOnEdges(vs: map<VId, Vertex>, es: seq<Edge>, p: VId, q: VId, i: nat, j: nat)
    requires i < |es| && ParentEdge(vs, es[i], p, "operator") && j < |es| && ParentEdge(vs, es[j], q, "operator")
    requires forall k :: 0 <= k < |es| && ParentEdge(vs, es[k], p, "operator") ==> es[k].dst == es[i].dst
    requires forall k :: 0 <= k < |es| && ParentEdge(vs, es[k], q, "operator") ==> es[k].dst == es[j].dst
    ensures Query2b(vs, es, p, q) == Success(es[i].dst != es[j].dst)
  {
    UniqueParent(vs, es, p, "operator", i);
    UniqueParent(vs, es, q, "operator", j);
  }
}
