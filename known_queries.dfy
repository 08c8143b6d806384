/**
 * The two shortestDistanceBetweenUsers entry points of the known-algorithm
 * queries: Floyd–Warshall over every pair of phones with a phone filter,
 * and the bounded Dijkstra search from the phones of one user, each
 * projected onto user names by getDistancesMap.
 */
module KnownQueries {

  import opened Wrappers
  import opened Graph
  import opened GraphUtils
  import opened QueryFilters
  import opened DistanceTables
  import opened FloydWarshall
  import opened PhoneData
  import opened Projection
  import opened Dijkstra
  import opened KnownAlgorithms

  /**
   * Every entry of the table is a self distance of 0 or the distance of an
   * entry of the map whose phones belong to the two users and pass the filter.
   */
  ghost predicate FromEntries(vs: map<VId, Vertex>, es: seq<Edge>, ids: Ids, f: Option<PhoneFilter>, dist: Dist, t: Table)
    requires Closed(ids, dist)
  {
    forall u1, u2 :: u1 in t && u2 in t[u1] ==>
      (u1 == u2 && t[u1][u2] == 0)
      || exists d1, d2 :: d1 in dist && d2 in dist[d1] && t[u1][u2] == dist[d1][d2]
                          && UserNameOf(vs, es, ids, d1) == Success(u1) && UserNameOf(vs, es, ids, d2) == Success(u2)
                          && ApplyFilter(vs, es, f, ids.phoneOf[d1], ids.phoneOf[d2]) == Success(true)
  }

  /** The table getDistancesMap builds reports only self distances and entries of the map. */
  lemma TableFromEntries(vs: map<VId, Vertex>, es: seq<Edge>, ids: Ids, f: Option<PhoneFilter>, user: Option<string>,
                         dist: Dist, t: Table)
    requires Closed(ids, dist)
    requires MinTable(t, Names(vs, es, ids, user, dist, dist.Keys), Samples(vs, es, ids, f, user, dist, dist.Keys) + Zeros(SelfUsers(vs, user)))
    ensures FromEntries(vs, es, ids, f, dist, t)
  {
    forall u1, u2 | u1 in t && u2 in t[u1] && !(u1 == u2 && t[u1][u2] == 0)
      ensures exists d1, d2 :: d1 in dist && d2 in dist[d1] && t[u1][u2] == dist[d1][d2]
                               && UserNameOf(vs, es, ids, d1) == Success(u1) && UserNameOf(vs, es, ids, d2) == Success(u2)
                               && ApplyFilter(vs, es, f, ids.phoneOf[d1], ids.phoneOf[d2]) == Success(true)
    {
      var x := Sample(u1, u2, t[u1][u2]);
      assert x !in Zeros(SelfUsers(vs, user));
      var d1, d2 := SampleOrigin(vs, es, ids, f, user, dist, dist.Keys, x);
    }
  }

  /** With a user given, the table has exactly that user's row, which holds 0 to the user itself. */
  lemma TableOfUser(vs: map<VId, Vertex>, es: seq<Edge>, ids: Ids, f: Option<PhoneFilter>, user: string, dist: Dist, t: Table)
    requires Closed(ids, dist) && NoNegative(dist)
    requires MinTable(t, Names(vs, es, ids, Some(user), dist, dist.Keys),
                      Samples(vs, es, ids, f, Some(user), dist, dist.Keys) + Zeros(SelfUsers(vs, Some(user))))
    ensures t.Keys == {user} && user in t[user] && t[user][user] == 0
  {
    var samples := Samples(vs, es, ids, f, Some(user), dist, dist.Keys);
    NamesOfUser(vs, es, ids, user, dist, dist.Keys);
    SamplesOfUser(vs, es, ids, f, user, dist);
    SamplesNonNegative(vs, es, ids, f, Some(user), dist, dist.Keys);
    ZerosOne(user);
    SingleRow(t, Names(vs, es, ids, Some(user), dist, dist.Keys), samples + {Sample(user, user, 0)}, user);
  }

  /** With a user given, the rows projected are that user's. */
  lemma NamesOfUser(vs: map<VId, Vertex>, es: seq<Edge>, ids: Ids, user: string, dist: Dist, ds: set<nat>)
    requires Closed(ids, dist)
    ensures Names(vs, es, ids, Some(user), dist, ds) <= {user}
  {
    forall x | x in Names(vs, es, ids, Some(user), dist, ds) ensures x == user {
      var d1 :| d1 in ds && d1 in dist && x in RowName(vs, es, ids, Some(user), d1);
    }
  }

  /** With a user given, every sample reported starts at that user. */
  lemma SamplesOfUser(vs: map<VId, Vertex>, es: seq<Edge>, ids: Ids, f: Option<PhoneFilter>, user: string, dist: Dist)
    requires Closed(ids, dist)
    ensures forall x :: x in Samples(vs, es, ids, f, Some(user), dist, dist.Keys) ==> x.from == user
  {
    forall x | x in Samples(vs, es, ids, f, Some(user), dist, dist.Keys) ensures x.from == user {
      var d1, d2 := SampleOrigin(vs, es, ids, f, Some(user), dist, dist.Keys, x);
    }
  }

  /** A map whose entries are all below b > 0 gives a table whose entries are all below b. */
  lemma TableBounded(vs: map<VId, Vertex>, es: seq<Edge>, ids: Ids, f: Option<PhoneFilter>, user: Option<string>,
                     dist: Dist, t: Table, b: int)
    requires Closed(ids, dist) && Bounded(dist, b) && b > 0
    requires MinTable(t, Names(vs, es, ids, user, dist, dist.Keys), Samples(vs, es, ids, f, user, dist, dist.Keys) + Zeros(SelfUsers(vs, user)))
    ensures forall u1, u2 :: u1 in t && u2 in t[u1] ==> t[u1][u2] < b
  {
    TableFromEntries(vs, es, ids, f, user, dist, t);
  }

  /**
   * Floyd–Warshall is optimal on user pairs: for any walk of the initial map
   * from a phone of u1 to a phone of u2 that passes the filter, the table
   * holds a distance between u1 and u2 no larger than the walk's cost.
   */
  lemma TableShortest(vs: map<VId, Vertex>, es: seq<Edge>, ids: Ids, f: Option<PhoneFilter>, m0: Dist, n: nat, t: Table,
                      w: seq<nat>, u1: string, u2: string)
    requires Initial(m0, n) && Closed(ids, Rounds(m0, n, n))
    requires MinTable(t, Names(vs, es, ids, None, Rounds(m0, n, n), Rounds(m0, n, n).Keys),
                      Samples(vs, es, ids, f, None, Rounds(m0, n, n), Rounds(m0, n, n).Keys) + Zeros(SelfUsers(vs, None)))
    requires IsWalk(m0, w) && Cost(m0, w) < MaxInt && w[0] in Rounds(m0, n, n)
    requires w[0] in ids.phoneOf && w[|w| - 1] in ids.phoneOf
    requires UserNameOf(vs, es, ids, w[0]) == Success(u1) && UserNameOf(vs, es, ids, w[|w| - 1]) == Success(u2)
    requires ApplyFilter(vs, es, f, ids.phoneOf[w[0]], ids.phoneOf[w[|w| - 1]]) == Success(true)
    ensures u1 in t && u2 in t[u1] && t[u1][u2] <= Cost(m0, w)
  {
    var dist := Rounds(m0, n, n);
    var d1, d2 := w[0], w[|w| - 1];
    RoundsShortest(m0, n, w);
    assert d2 in dist[d1];
    EntryReported(vs, es, ids, f, None, dist, dist.Keys, d1, d2, u1, u2);
  }

  /**
   * The bounded search is optimal on user pairs: for any walk of the
   * initial map from a searched phone of the user, within the threshold, to
   * a phone of u2, the table holds a distance from the user to u2 no larger
   * than the walk's cost.
   */
  lemma TableShortestFrom(vs: map<VId, Vertex>, es: seq<Edge>, ids: Ids, user: string, m0: Dist, dist: Dist, t: Table,
                          threshold: int, w: seq<nat>, u2: string)
    requires Closed(ids, dist)
    requires MinTable(t, Names(vs, es, ids, Some(user), dist, dist.Keys),
                      Samples(vs, es, ids, None, Some(user), dist, dist.Keys) + Zeros(SelfUsers(vs, Some(user))))
    requires IsWalk(m0, w) && RowShortest(m0, dist, w[0], threshold) && (threshold < 0 || Cost(m0, w) < threshold)
    requires w[0] in ids.phoneOf && w[|w| - 1] in ids.phoneOf
    requires UserNameOf(vs, es, ids, w[0]) == Success(user) && UserNameOf(vs, es, ids, w[|w| - 1]) == Success(u2)
    ensures user in t && u2 in t[user] && t[user][u2] <= Cost(m0, w)
  {
    var d1, d2 := w[0], w[|w| - 1];
    EntryReported(vs, es, ids, None, Some(user), dist, dist.Keys, d1, d2, user, u2);
  }

  /**
   * For every walk of the initial map within the threshold from a phone of
   * the user to a phone of u2, the table holds a distance from the user to
   * u2 no larger than the walk's cost.
   */
  ghost predicate ShortestFrom(vs: map<VId, Vertex>, es: seq<Edge>, ids: Ids, user: string, m0: Dist, threshold: int, t: Table)
  {
    forall w {:trigger IsWalk(m0, w)} ::
      IsWalk(m0, w) && (threshold < 0 || Cost(m0, w) < threshold)
      && w[0] in ids.phoneOf && w[|w| - 1] in ids.phoneOf
      && UserNameOf(vs, es, ids, w[0]) == Success(user) && UserNameOf(vs, es, ids, w[|w| - 1]).Success?
      ==> var u2 := UserNameOf(vs, es, ids, w[|w| - 1]).value;
          user in t && u2 in t[user] && t[user][u2] <= Cost(m0, w)
  }

  /** Searching every phone of the user makes the projected table shortest from the user. */
  lemma UserTableShortest(vs: map<VId, Vertex>, es: seq<Edge>, ids: Ids, user: string, m0: Dist, dist: Dist, t: Table,
                          threshold: int, searched: set<nat>)
    requires Dense(ids) && Closed(ids, dist)
    requires MinTable(t, Names(vs, es, ids, Some(user), dist, dist.Keys),
                      Samples(vs, es, ids, None, Some(user), dist, dist.Keys) + Zeros(SelfUsers(vs, Some(user))))
    requires forall d :: d in searched <==> exists v :: v in PhonesOf(vs, es, user) && v in ids.index && ids.index[v] == d
    requires forall d :: d in searched ==> RowShortest(m0, dist, d, threshold)
    ensures ShortestFrom(vs, es, ids, user, m0, threshold, t)
  {
    forall w | IsWalk(m0, w) && (threshold < 0 || Cost(m0, w) < threshold)
               && w[0] in ids.phoneOf && w[|w| - 1] in ids.phoneOf
               && UserNameOf(vs, es, ids, w[0]) == Success(user) && UserNameOf(vs, es, ids, w[|w| - 1]).Success?
      ensures var u2 := UserNameOf(vs, es, ids, w[|w| - 1]).value;
              user in t && u2 in t[user] && t[user][u2] <= Cost(m0, w)
    {
      var u2 := UserNameOf(vs, es, ids, w[|w| - 1]).value;
      SearchedPhone(vs, es, ids, user, searched, w[0]);
      TableShortestFrom(vs, es, ids, user, m0, dist, t, threshold, w, u2);
    }
  }

  /** A phone whose user is called `user` is among the phones searched for that user. */
  lemma SearchedPhone(vs: map<VId, Vertex>, es: seq<Edge>, ids: Ids, user: string, searched: set<nat>, d: nat)
    requires Dense(ids) && d in ids.phoneOf && UserNameOf(vs, es, ids, d) == Success(user)
    requires forall d :: d in searched <==> exists v :: v in PhonesOf(vs, es, user) && v in ids.index && ids.index[v] == d
    ensures d in searched
  {
    var phone := ids.phoneOf[d];
    PhonesOfUser(vs, es, phone, user);
    assert phone in PhonesOf(vs, es, user) && phone in ids.index && ids.index[phone] == d;
  }

  /**
   * shortestDistanceBetweenUsers(graph, filter): Floyd–Warshall on a new
   * Data object, then getDistancesMap(filter, null). `phones` is the order
   * in which the traversal lists the phone vertices.
   */
  method ShortestDistanceBetweenUsers(g: PropertyGraph, phones: seq<VId>, f: Option<PhoneFilter>)
    returns (r: Result<Table, LookupError>, data: Data)
    requires forall v :: v in phones <==> v in Phones(g.vertices)
    requires forall e :: e in g.edges && e.rel == IntegratedBy ==> e.dst in Phones(g.vertices)
    ensures fresh(data) && data.graph == g && data.Valid()
    ensures data.dist == Rounds(data.initial, data.ids.size, data.ids.size)
    ensures r.Success? <==> RowsOk(g.vertices, g.edges, data.ids, f, None, data.dist, data.dist.Keys)
    ensures r.Success? ==>
              MinTable(r.value, Names(g.vertices, g.edges, data.ids, None, data.dist, data.dist.Keys),
                       Samples(g.vertices, g.edges, data.ids, f, None, data.dist, data.dist.Keys) + Zeros(UserNames(g.vertices)))
    ensures r.Success? ==> FromEntries(g.vertices, g.edges, data.ids, f, data.dist, r.value)
  {
    data := new Data(g, phones);
    data.AllPairs();
    r := data.GetDistancesMap(f, None);
    if r.Success? {
      data.ValidClosed();
      TableFromEntries(g.vertices, g.edges, data.ids, f, None, data.dist, r.value);
    }
  }

  /**
   * The loop of shortestDistanceBetweenUsers over the phones of the user, in
   * any order: the bounded search from each leaves its row shortest within
   * the threshold and bounded by it, and changes no row searched before.
   */
  method SearchPhones(data: Data, phoneIds: set<nat>, threshold: int)
    modifies data
    requires data.Valid() && data.dist == data.initial && forall d :: d in phoneIds ==> d < data.ids.size
    requires threshold < 0 || Bounded(data.dist, threshold)
    ensures data.Valid() && data.userDistances == old(data.userDistances)
    ensures threshold < 0 || Bounded(data.dist, threshold)
    ensures forall d :: d in phoneIds ==> RowShortest(data.initial, data.dist, d, threshold)
  {
    var left := phoneIds;
    ghost var done: set<nat> := {};
    while left != {}
      invariant data.Valid() && data.userDistances == old(data.userDistances)
      invariant threshold < 0 || Bounded(data.dist, threshold)
      invariant done + left == phoneIds
      invariant forall d :: d in left ==> d in data.dist && data.dist[d] == data.initial[d]
      invariant forall d :: d in done ==> RowShortest(data.initial, data.dist, d, threshold)
      decreases left
    {
      var phoneId :| phoneId in left;
      SearchPhone(data, phoneId, threshold, done);
      done, left := done + {phoneId}, left - {phoneId};
    }
  }

  /**
   * One iteration of that loop: the bounded search from a phone whose row
   * is still the initial one makes that row shortest and bounded, and
   * changes no other row.
   */
  method SearchPhone(data: Data, s: nat, threshold: int, ghost done: set<nat>)
    modifies data
    requires data.Valid() && s < data.ids.size && s in data.dist && data.dist[s] == data.initial[s]
    requires threshold < 0 || Bounded(data.dist, threshold)
    requires forall d :: d in done ==> RowShortest(data.initial, data.dist, d, threshold)
    ensures data.Valid() && data.userDistances == old(data.userDistances)
    ensures threshold < 0 || Bounded(data.dist, threshold)
    ensures forall d :: d in done + {s} ==> RowShortest(data.initial, data.dist, d, threshold)
    ensures forall d :: d in old(data.dist) && d != s ==> d in data.dist && data.dist[d] == old(data.dist)[d]
  {
    ghost var before := data.dist;
    ghost var order, depthOf := data.Search(s, threshold);
    if threshold >= 0 {
      RowOnlyBounded(data.dist, before, s, depthOf, threshold);
    }
    SearchedRows(data.initial, data.ids.size, before, data.dist, s, threshold, depthOf, done);
  }

  /**
   * shortestDistanceBetweenUsers(graph, user, threshold): the base cases for
   * thresholds 0 and 1, otherwise the bounded search from each phone of the
   * user, in any order, then getDistancesMap(null, user). A negative
   * threshold does not bound the search.
   */
  method ShortestDistanceFromUser(g: PropertyGraph, cache: PhoneIdCache, phones: seq<VId>, user: string, threshold: int)
    returns (r: Result<Table, LookupError>, data: Data?)
    modifies cache
    requires forall v :: v in phones <==> v in Phones(g.vertices)
    requires forall e :: e in g.edges && e.rel == IntegratedBy ==> e.dst in Phones(g.vertices)
    requires cache.Consistent(g.vertices, g.edges)
    ensures cache.Consistent(g.vertices, g.edges)
    ensures threshold == 0 ==> r == Success(map[])
    ensures threshold == 1 ==> r == Success(map[user := map[user := 0]])
    ensures r.Success? && threshold != 0 ==> r.value.Keys == {user} && user in r.value[user] && r.value[user][user] == 0
    ensures r.Success? ==> forall u1, u2 :: u1 in r.value && u2 in r.value[u1] ==> threshold < 0 || r.value[u1][u2] < threshold
    ensures r.Success? && (threshold < 0 || threshold >= 2) ==>
              data != null && data.graph == g && data.Valid() && FromEntries(g.vertices, g.edges, data.ids, None, data.dist, r.value)
              && ShortestFrom(g.vertices, g.edges, data.ids, user, data.initial, threshold, r.value)
  {
    if threshold == 0 {
      return Success(map[]), null;
    } else if threshold == 1 {
      return Success(map[user := map[user := 0]]), null;
    }
    data := new Data(g, phones);
    var phoneIds := data.PhoneDataIdsOf(cache, user);
    if phoneIds.Failure? {
      return Failure(phoneIds.error), data;
    }
    SearchPhones(data, phoneIds.value, threshold);
    r := data.GetDistancesMap(None, Some(user));
    if r.Success? {
      data.ValidClosed();
      TableOfUser(g.vertices, g.edges, data.ids, None, user, data.dist, r.value);
      TableFromEntries(g.vertices, g.edges, data.ids, None, Some(user), data.dist, r.value);
      if threshold >= 0 {
        TableBounded(g.vertices, g.edges, data.ids, None, Some(user), data.dist, r.value, threshold);
      }
      UserTableShortest(g.vertices, g.edges, data.ids, user, data.initial, data.dist, r.value, threshold, phoneIds.value);
    }
  }
}
