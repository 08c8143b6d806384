/**
 * Lookups shared by the queries: the parent of a vertex in a dimension
 * hierarchy, the vertex at a position of a phone-to-phone path, the phones
 * reached through a common call, and the per-user cache of phone identities.
 */
module GraphUtils {

  import opened Wrappers
  import opened Graph

  /**
   * The exceptions a lookup can throw: NoSuchElementException for a missing
   * parent or a position outside a path, and a NullPointerException for a
   * phone that was never given a dense index.
   */
  datatype LookupError =
    | NoParent(v: VId, kind: string)
    | OutOfPath(size: int, index: int)
    | Unindexed(v: VId)

  /** An extendsFrom edge from `v` to a vertex of the given kind. */
  predicate ParentEdge(vs: map<VId, Vertex>, e: Edge, v: VId, kind: string)
  {
    e.src == v && e.rel == ExtendsFrom && HasKind(vs, e.dst, kind)
  }

  /**
   * getParent: the target of an extendsFrom out-edge of `v` whose target has
   * the given kind; no such edge is a NoSuchElementException. The edge
   * stream is parallel and not known to be ordered, so findFirst may return
   * any qualifying edge; the model fixes one admissible choice, the first in
   * storage order. Where the result does not depend on that choice is what
   * UniqueParent states: with one parent of the kind, every choice is it.
   */
  function Parent(vs: map<VId, Vertex>, es: seq<Edge>, v: VId, kind: string): (r: Result<VId, LookupError>)
    ensures r.Success? ==> HasKind(vs, r.value, kind) && Edge(v, ExtendsFrom, r.value) in es
    ensures r.Failure? ==> r.error == NoParent(v, kind)
  {
    if es == [] then Failure(NoParent(v, kind))
    else if ParentEdge(vs, es[0], v, kind) then Success(es[0].dst)
    else
      var r := Parent(vs, es[1..], v, kind);
      assert r.Success? ==> Edge(v, ExtendsFrom, r.value) in es[1..];
      r
  }

  /** The index of the first parent edge, when there is one. */
  lemma {:induction false} ParentFirst(vs: map<VId, Vertex>, es: seq<Edge>, v: VId, kind: string)
    returns (i: nat)
    requires Parent(vs, es, v, kind).Success?
    ensures i < |es| && ParentEdge(vs, es[i], v, kind) && es[i].dst == Parent(vs, es, v, kind).value
    ensures forall j :: 0 <= j < i ==> !ParentEdge(vs, es[j], v, kind)
  {
    if ParentEdge(vs, es[0], v, kind) {
      i := 0;
    } else {
      var k := ParentFirst(vs, es[1..], v, kind);
      i := k + 1;
    }
  }

  /** getParent fails exactly when `v` has no extendsFrom edge to a vertex of the kind. */
  lemma {:induction false} ParentFails(vs: map<VId, Vertex>, es: seq<Edge>, v: VId, kind: string)
    ensures Parent(vs, es, v, kind).Failure? <==> forall i :: 0 <= i < |es| ==> !ParentEdge(vs, es[i], v, kind)
    ensures Parent(vs, es, v, kind).Failure? ==> Parent(vs, es, v, kind).error == NoParent(v, kind)
  {
    if es != [] && !ParentEdge(vs, es[0], v, kind) {
      ParentFails(vs, es[1..], v, kind);
      if Parent(vs, es, v, kind).Success? {
        var j := ParentFirst(vs, es, v, kind);
      } else {
        forall i | 0 <= i < |es| ensures !ParentEdge(vs, es[i], v, kind) {
          if i > 0 {
            assert es[i] == es[1..][i - 1];
          }
        }
      }
    }
  }

  /** In a graph where `v` has a single parent of the kind, getParent finds exactly that one. */
  lemma UniqueParent(vs: map<VId, Vertex>, es: seq<Edge>, v: VId, kind: string, i: nat)
    requires i < |es| && ParentEdge(vs, es[i], v, kind)
    requires forall j :: 0 <= j < |es| && ParentEdge(vs, es[j], v, kind) ==> es[j].dst == es[i].dst
    ensures Parent(vs, es, v, kind) == Success(es[i].dst)
  {
    ParentFails(vs, es, v, kind);
    var k := ParentFirst(vs, es, v, kind);
  }

  /** getOperator: the operator a phone extends from. */
  function Operator(vs: map<VId, Vertex>, es: seq<Edge>, phone: VId): Result<VId, LookupError>
  {
    Parent(vs, es, phone, "operator")
  }

  /** getUser: the user a phone extends from. */
  function User(vs: map<VId, Vertex>, es: seq<Edge>, phone: VId): Result<VId, LookupError>
  {
    Parent(vs, es, phone, "user")
  }

  /** getCity: the city a user extends from. */
  function City(vs: map<VId, Vertex>, es: seq<Edge>, user: VId): Result<VId, LookupError>
  {
    Parent(vs, es, user, "city")
  }

  /**
   * The position getPathVertex reads: every fourth element counting from
   * the front (user, phone, call, phone, user, ...), and for a negative
   * index the same stride counted back from the last element.
   */
  function PathIndex(size: int, index: int): (r: int)
    ensures index == 0 ==> r == 0
    ensures index == -1 ==> r == size - 1
    ensures (size - 1) % 4 == 0 ==> r % 4 == 0
  {
    if index < 0 then size - 1 + 4 * (index + 1) else 4 * index
  }

  /** getPathVertex: the element at PathIndex, or NoSuchElementException outside the path. */
  function PathVertex<T>(path: seq<T>, index: int): (r: Result<T, LookupError>)
    ensures r.Failure? <==> !(0 <= PathIndex(|path|, index) < |path|)
    ensures r.Failure? ==> r.error == OutOfPath(|path|, PathIndex(|path|, index))
  {
    var k := PathIndex(|path|, index);
    if k < 0 || k >= |path| then Failure(OutOfPath(|path|, k)) else Success(path[k])
  }

  /** Index 0 is the first element and index -1 the last one of any non-empty path. */
  lemma PathEnds<T>(path: seq<T>)
    requires |path| > 0
    ensures PathVertex(path, 0) == Success(path[0])
    ensures PathVertex(path, -1) == Success(path[|path| - 1])
  {
  }

  /**
   * On a path of m + 1 users joined by m four-element hops, counting j
   * users back from the end reaches the same element as counting m + 1 - j
   * from the front.
   */
  lemma PathFromBothEnds<T>(path: seq<T>, m: nat, j: int)
    requires |path| == 4 * m + 1 && 1 <= j <= m + 1
    ensures PathVertex(path, -j) == PathVertex(path, m + 1 - j)
    ensures PathVertex(path, -j) == Success(path[4 * (m + 1 - j)])
  {
  }

  /** Every non-negative index that reaches past the path fails, and so does every negative one beyond its start. */
  lemma PathOutside<T>(path: seq<T>, index: int)
    requires (index >= 0 && 4 * index >= |path|) || (index < 0 && |path| + 4 * index + 3 < 0)
    ensures PathVertex(path, index).Failure?
  {
  }

  /**
   * userPhoneIdsCache's value for a user: the sources of extendsFrom edges
   * into user vertices with that value.
   */
  function PhonesOf(vs: map<VId, Vertex>, es: seq<Edge>, user: string): set<VId>
  {
    set i | 0 <= i < |es| && es[i].rel == ExtendsFrom && HasKind(vs, es[i].dst, "user")
                           && vs[es[i].dst].value == user :: es[i].src
  }

  /** The phone vertices. */
  function Phones(vs: map<VId, Vertex>): set<VId>
  {
    set v | v in vs && vs[v].kind == "phone"
  }

  /** The names of all user vertices. */
  function UserNames(vs: map<VId, Vertex>): set<string>
  {
    set v | v in vs && vs[v].kind == "user" :: vs[v].value
  }

  /** The users whose self distance is forced to zero: every user, or only the source user. */
  function SelfUsers(vs: map<VId, Vertex>, user: Option<string>): set<string>
  {
    if user.None? then UserNames(vs) else {user.value}
  }

  /** A phone is among its user's phones, and every phone listed for a user has that user as a parent. */
  lemma PhonesOfUser(vs: map<VId, Vertex>, es: seq<Edge>, phone: VId, user: string)
    ensures User(vs, es, phone).Success? && vs[User(vs, es, phone).value].value == user
            ==> phone in PhonesOf(vs, es, user)
    ensures phone in PhonesOf(vs, es, user) ==> User(vs, es, phone).Success?
  {
    var r := User(vs, es, phone);
    if r.Success? {
      var i := ParentFirst(vs, es, phone, "user");
    }
    if phone in PhonesOf(vs, es, user) {
      var i :| 0 <= i < |es| && es[i].rel == ExtendsFrom && HasKind(vs, es[i].dst, "user")
                && vs[es[i].dst].value == user && es[i].src == phone;
      ParentFails(vs, es, phone, "user");
      assert ParentEdge(vs, es[i], phone, "user");
    }
  }

  /** in("integratedBy").out("integratedBy"): the phones that share a call with `phone`. */
  function NeighborPhones(es: seq<Edge>, phone: VId): set<VId>
  {
    set i, j | 0 <= i < |es| && 0 <= j < |es| && es[i].rel == IntegratedBy && es[i].dst == phone
               && es[j].rel == IntegratedBy && es[j].src == es[i].src :: es[j].dst
  }

  /** Sharing a call is symmetric. */
  lemma NeighborsSymmetric(es: seq<Edge>, p: VId, q: VId)
    ensures q in NeighborPhones(es, p) <==> p in NeighborPhones(es, q)
  {
    if q in NeighborPhones(es, p) {
      var i, j :| 0 <= i < |es| && 0 <= j < |es| && es[i].rel == IntegratedBy && es[i].dst == p
                  && es[j].rel == IntegratedBy && es[j].src == es[i].src && es[j].dst == q;
      assert p in NeighborPhones(es, q) by {
        assert es[j].rel == IntegratedBy && es[j].dst == q && es[i].rel == IntegratedBy && es[i].src == es[j].src;
      }
    }
    if p in NeighborPhones(es, q) {
      var i, j :| 0 <= i < |es| && 0 <= j < |es| && es[i].rel == IntegratedBy && es[i].dst == q
                  && es[j].rel == IntegratedBy && es[j].src == es[i].src && es[j].dst == p;
      assert q in NeighborPhones(es, p) by {
        assert es[j].rel == IntegratedBy && es[j].dst == p && es[i].rel == IntegratedBy && es[i].src == es[j].src;
      }
    }
  }

  /** A phone that took part in some call is its own neighbour; one that took part in none has no neighbours. */
  lemma NeighborsOfSelf(es: seq<Edge>, p: VId)
    ensures p in NeighborPhones(es, p) <==> exists i :: 0 <= i < |es| && es[i].rel == IntegratedBy && es[i].dst == p
    ensures NeighborPhones(es, p) == {} <==> !exists i :: 0 <= i < |es| && es[i].rel == IntegratedBy && es[i].dst == p
  {
    if exists i :: 0 <= i < |es| && es[i].rel == IntegratedBy && es[i].dst == p {
      var i :| 0 <= i < |es| && es[i].rel == IntegratedBy && es[i].dst == p;
      assert p in NeighborPhones(es, p) by {
        assert es[i].rel == IntegratedBy && es[i].dst == p && es[i].src == es[i].src;
      }
    }
  }

  /** out(rel) from `v`: the targets of its out-edges with that label, in storage order. */
  function Targets(es: seq<Edge>, v: VId, rel: EdgeLabel): (r: seq<VId>)
    ensures forall x :: x in r <==> exists i :: 0 <= i < |es| && es[i].src == v && es[i].rel == rel && es[i].dst == x
  {
    if es == [] then []
    else
      var init, last := es[..|es| - 1], es[|es| - 1];
      var r := Targets(init, v, rel) + (if last.src == v && last.rel == rel then [last.dst] else []);
      assert forall i :: 0 <= i < |init| ==> init[i] == es[i];
      r
  }

  /** in(rel) into `v`: the sources of its in-edges with that label, in storage order. */
  function Sources(es: seq<Edge>, v: VId, rel: EdgeLabel): (r: seq<VId>)
    ensures forall x :: x in r <==> exists i :: 0 <= i < |es| && es[i].dst == v && es[i].rel == rel && es[i].src == x
  {
    if es == [] then []
    else
      var init, last := es[..|es| - 1], es[|es| - 1];
      var r := Sources(init, v, rel) + (if last.dst == v && last.rel == rel then [last.src] else []);
      assert forall i :: 0 <= i < |init| ==> init[i] == es[i];
      r
  }

  /** The integratedBy targets of each call of `calls` in turn. */
  function TargetsOfAll(es: seq<Edge>, calls: seq<VId>): (r: seq<VId>)
    ensures forall x :: x in r <==> exists c :: c in calls && x in Targets(es, c, IntegratedBy)
  {
    if calls == [] then []
    else
      var init, last := calls[..|calls| - 1], calls[|calls| - 1];
      var r := TargetsOfAll(es, init) + Targets(es, last, IntegratedBy);
      assert calls == init + [last];
      assert forall x :: x in r ==> exists c :: c in calls && x in Targets(es, c, IntegratedBy) by {
        forall x | x in r ensures exists c :: c in calls && x in Targets(es, c, IntegratedBy) {
          if x !in Targets(es, last, IntegratedBy) {
            var c :| c in init && x in Targets(es, c, IntegratedBy);
            assert c in calls;
          }
        }
      }
      r
  }

  /**
   * getNeighborPhones as the stream the traversal produces, with a phone
   * once per path to it; it holds exactly the neighbour phones.
   */
  function NeighborList(es: seq<Edge>, phone: VId): (r: seq<VId>)
    ensures forall x :: x in r <==> x in NeighborPhones(es, phone)
  {
    var r := TargetsOfAll(es, Sources(es, phone, IntegratedBy));
    assert forall x :: x in r <==> x in NeighborPhones(es, phone) by {
      forall x ensures x in r <==> x in NeighborPhones(es, phone) {
        if x in r {
          var c :| c in Sources(es, phone, IntegratedBy) && x in Targets(es, c, IntegratedBy);
          var i :| 0 <= i < |es| && es[i].dst == phone && es[i].rel == IntegratedBy && es[i].src == c;
          var j :| 0 <= j < |es| && es[j].src == c && es[j].rel == IntegratedBy && es[j].dst == x;
          assert x in NeighborPhones(es, phone);
        }
        if x in NeighborPhones(es, phone) {
          var i, j :| 0 <= i < |es| && 0 <= j < |es| && es[i].rel == IntegratedBy && es[i].dst == phone
                      && es[j].rel == IntegratedBy && es[j].src == es[i].src && es[j].dst == x;
          assert es[i].src in Sources(es, phone, IntegratedBy);
          assert x in Targets(es, es[i].src, IntegratedBy);
        }
      }
    }
    r
  }

  /**
   * userPhoneIdsCache: the phone identities of each user name, computed on
   * first request and then returned as stored. The cache is never
   * invalidated, so it stays Consistent only while the graph is unchanged.
   */
  class PhoneIdCache {
    var cache: map<string, set<VId>>

    /** Every stored entry is what the traversal would compute on the given graph. */
    ghost predicate Consistent(vs: map<VId, Vertex>, es: seq<Edge>)
      reads this
    {
      forall u :: u in cache ==> cache[u] == PhonesOf(vs, es, u)
    }

    constructor ()
      ensures cache == map[]
    {
      cache := map[];
    }

    /** phoneIdsOf: computeIfAbsent on the user name. */
    method PhoneIdsOf(g: PropertyGraph, user: string) returns (ids: set<VId>)
      modifies this
      ensures user in old(cache) ==> ids == old(cache)[user] && cache == old(cache)
      ensures user !in old(cache) ==> ids == PhonesOf(g.vertices, g.edges, user) && cache == old(cache)[user := ids]
      ensures old(Consistent(g.vertices, g.edges)) ==> ids == PhonesOf(g.vertices, g.edges, user) && Consistent(g.vertices, g.edges)
    {
      if user in cache {
        ids := cache[user];
      } else {
        ids := PhonesOf(g.vertices, g.edges, user);
        cache := cache[user := ids];
      }
    }
  }
}
