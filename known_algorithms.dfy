/**
 * The known-algorithm distance queries: Floyd–Warshall over every pair of
 * phones and a bounded Dijkstra search from the phones of one user, both on
 * the phone distance map of a Data object, whose getDistancesMap then
 * projects the phone distances onto user names.
 */
module KnownAlgorithms {

  import opened Wrappers
  import opened Graph
  import opened GraphUtils
  import opened QueryFilters
  import opened DistanceTables
  import opened FloydWarshall
  import opened PhoneData
  import opened Projection
  import opened PqNodes
  import opened PrintUtils
  import opened Dijkstra

  /**
   * Data: the dense ids of the phones, the phone distance map and the
   * memoised user distance map, over the graph it was built from. `initial`
   * is the distance map as the constructor left it.
   */
  class Data {
    const graph: PropertyGraph
    const ids: Ids
    ghost const initial: Dist
    var dist: Dist
    var userDistances: Table

    /**
     * The ids are dense; the initial map holds 0 on its diagonal and 1
     * elsewhere; there is a row per id and every column is an id; no entry
     * is negative; every entry is the cost of a walk of the initial map;
     * and every initial entry is kept, at no larger a value.
     */
    ghost predicate Valid()
      reads this
    {
      && Dense(ids) && Initial(initial, ids.size) && Unit(initial)
      && Walks(initial, dist, ids.size) && Dominates(dist, initial)
    }

    lemma ValidClosed()
      requires Valid()
      ensures Closed(ids, dist)
    {
    }

    /**
     * new Data(graph): every phone of `phones` (the order in which the
     * traversal lists the phone vertices) gets an id, and its row holds 0
     * to itself and 1 to the phones it shares a call with.
     */
    constructor (g: PropertyGraph, phones: seq<VId>)
      requires forall v :: v in phones <==> v in Phones(g.vertices)
      requires forall e :: e in g.edges && e.rel == IntegratedBy ==> e.dst in Phones(g.vertices)
      ensures graph == g && Valid() && dist == initial && userDistances == map[] && Bounded(dist, 2)
      ensures ids.index.Keys == Phones(g.vertices)
      ensures forall p :: p in ids.index ==> InitialRow(dist[ids.index[p]], p, g.edges, ids)
    {
      graph := g;
      var ids', dist' := Index(g.vertices, g.edges, phones);
      RowsInitial(g.edges, ids', dist');
      InitialSound(dist', ids'.size);
      ids := ids';
      initial := dist';
      dist := dist';
      userDistances := map[];
    }

    /**
     * The triple loop of shortestDistanceBetweenUsers, updating the rows in
     * place: it leaves the map of the n rounds of Floyd–Warshall.
     */
    method AllPairs()
      modifies this
      requires Valid() && dist == initial
      ensures Valid() && dist == Rounds(initial, ids.size, ids.size)
      ensures userDistances == old(userDistances)
    {
      var k: nat := 0;
      while k < ids.size
        invariant k <= ids.size && dist == Rounds(initial, k, ids.size) && userDistances == old(userDistances)
      {
        RelaxThrough(k);
        k := k + 1;
      }
      RoundsInside(initial, ids.size, ids.size);
      RoundsNoNegative(initial, ids.size);
      RoundsSound(initial, ids.size);
      RoundsDominate(initial, ids.size);
    }

    /** One pass of the middle loop: every row relaxed through k. */
    method RelaxThrough(k: nat)
      modifies this
      requires Initial(initial, ids.size) && k < ids.size && dist == Rounds(initial, k, ids.size)
      ensures dist == Rounds(initial, k + 1, ids.size) && userDistances == old(userDistances)
    {
      ghost var m := dist;
      RoundsAgree(initial, ids.size, k, k, k);
      DiagonalStaysZero(initial, ids.size, k, k);
      var i: nat := 0;
      while i < ids.size
        invariant i <= ids.size && RoundPrefix(dist, m, k, ids.size, i) && userDistances == old(userDistances)
      {
        RelaxRow(m, k, i);
        i := i + 1;
      }
      RoundPrefixFull(dist, m, k, ids.size);
    }

    /** One pass of the innermost loop: row i relaxed through k, column by column. */
    method RelaxRow(ghost m: Dist, k: nat, i: nat)
      modifies this
      requires i in m && k in m && i < ids.size && k < ids.size && Get(m, k, k) >= 0
      requires RoundPrefix(dist, m, k, ids.size, i)
      ensures RoundPrefix(dist, m, k, ids.size, i + 1) && userDistances == old(userDistances)
    {
      ghost var d0 := dist;
      RowUpToZero(m, k, i);
      assert dist == d0[i := RowUpTo(m, k, i, 0)];
      var j: nat := 0;
      while j < ids.size
        invariant j <= ids.size && dist == d0[i := RowUpTo(m, k, i, j)] && userDistances == old(userDistances)
      {
        var distIJ := Get(dist, i, j);
        var distIK := Get(dist, i, k);
        var distKJ := Get(dist, k, j);
        ReadsAgree(d0, m, k, ids.size, i, j);
        RowUpToStep(m, k, i, j);
        if distIK < MaxInt && distKJ < MaxInt && distIJ > distIK + distKJ {
          var row: map<nat, int> := dist[i][j := distIK + distKJ];
          dist := dist[i := row];
        }
        j := j + 1;
      }
      RoundPrefixNext(d0, m, k, ids.size, i);
    }

    /**
     * phoneDataIdsOf: the ids of the phones of a user, through the shared
     * cache; a phone without an id is the NullPointerException the search
     * would throw on it.
     */
    method PhoneDataIdsOf(cache: PhoneIdCache, user: string) returns (r: Result<set<nat>, LookupError>)
      modifies cache
      requires Valid() && cache.Consistent(graph.vertices, graph.edges)
      ensures cache.Consistent(graph.vertices, graph.edges)
      ensures r.Success? ==> forall d :: d in r.value ==> d < ids.size
      ensures r.Success? <==> PhonesOf(graph.vertices, graph.edges, user) <= ids.index.Keys
      ensures r.Success? ==> forall d :: d in r.value <==> exists v :: v in PhonesOf(graph.vertices, graph.edges, user) && ids.index[v] == d
      ensures r.Failure? ==> r.error.Unindexed? && r.error.v in PhonesOf(graph.vertices, graph.edges, user) && r.error.v !in ids.index
    {
      var phones := cache.PhoneIdsOf(graph, user);
      if v :| v in phones && v !in ids.index {
        return Failure(Unindexed(v));
      }
      r := Success(set v | v in phones :: ids.index[v]);
    }

    /**
     * The bounded Dijkstra search from s: it polls nodes in (depth, id)
     * order while the least depth is below the threshold, records each
     * phone the first time it is polled, with putIfAbsent into the row of
     * s, and offers the unreached phones of that phone's row. `order` lists
     * the phones in the order they were reached and `depthOf` the depth at
     * which each was reached, which is the cost of a walk from s (Found)
     * and no more than any walk from s within the threshold costs (Nearest).
     */
    method Search(s: nat, threshold: int) returns (ghost order: seq<nat>, ghost depthOf: map<nat, int>)
      modifies this
      requires Valid() && s < ids.size
      ensures Valid() && userDistances == old(userDistances)
      ensures s in old(dist) && RowOnly(dist, old(dist), s, depthOf)
      ensures Reached(order, depthOf, threshold) && Found(depthOf, initial, s, ids.size)
      ensures threshold != 0 ==> Started(order, depthOf, s)
      ensures Nearest(initial, s, threshold, depthOf)
    {
      ghost var others := dist;
      var pq := multiset{PqNode(s, 0)};
      var reached: set<nat> := {};
      order, depthOf := [], map[];
      ghost var last := 0;
      SearchStart(initial, ids.size, dist, s, threshold);
      while pq != multiset{}
        invariant Searching(initial, ids.size, dist, s, threshold, others, pq, reached, order, depthOf, last)
        invariant Dense(ids) && Initial(initial, ids.size) && userDistances == old(userDistances)
        invariant order == [] ==> pq == multiset{PqNode(s, 0)} && reached == {}
        invariant order != [] ==> Started(order, depthOf, s)
        decreases Below(ids.size) - reached, |pq|
      {
        var curr := Peek(pq);
        if threshold >= 0 && curr.depth >= threshold {
          LeastDepth(curr, pq);
          break;
        }
        pq, reached, order, depthOf, last := Poll(s, threshold, others, curr, pq, reached, order, depthOf, last);
      }
      Exhausted(initial, ids.size, s, threshold, depthOf, pq);
    }

    /** One iteration of the search loop that does not stop it: poll the least node and settle it unless reached. */
    method Poll(s: nat, threshold: int, ghost others: Dist, curr: PqNode, pq0: multiset<PqNode>, reached0: set<nat>,
                ghost order0: seq<nat>, ghost depthOf0: map<nat, int>, ghost last0: int)
      returns (pq: multiset<PqNode>, reached: set<nat>, ghost order: seq<nat>, ghost depthOf: map<nat, int>, ghost last: int)
      modifies this
      requires Searching(initial, ids.size, dist, s, threshold, others, pq0, reached0, order0, depthOf0, last0)
      requires IsLeast(curr, pq0) && (threshold < 0 || curr.depth < threshold)
      requires order0 == [] ==> pq0 == multiset{PqNode(s, 0)} && reached0 == {}
      requires order0 != [] ==> Started(order0, depthOf0, s)
      ensures Searching(initial, ids.size, dist, s, threshold, others, pq, reached, order, depthOf, last)
      ensures userDistances == old(userDistances)
      ensures order != [] && Started(order, depthOf, s)
      ensures Below(ids.size) - reached < Below(ids.size) - reached0 || (reached == reached0 && |pq| < |pq0|)
    {
      pq := pq0 - multiset{curr};
      assert pq0 == pq + multiset{curr};
      if curr.id in reached0 {
        SkipStep(initial, ids.size, dist, s, threshold, others, pq, reached0, order0, depthOf0, last0, curr);
        reached, order, depthOf, last := reached0, order0, depthOf0, last0;
      } else {
        pq, reached := Settle(s, threshold, others, curr, pq, reached0, order0, depthOf0, last0);
        order, depthOf, last := order0 + [curr.id], depthOf0[curr.id := curr.depth], curr.depth;
        assert curr.id < ids.size;
        assert Below(ids.size) - reached < Below(ids.size) - reached0;
      }
    }

    /**
     * A polled node not reached yet: putIfAbsent of its depth into the row
     * of s, and an offer of every unreached phone of its own row.
     */
    method Settle(s: nat, threshold: int, ghost others: Dist, curr: PqNode, pq0: multiset<PqNode>, reached0: set<nat>,
                  ghost order0: seq<nat>, ghost depthOf0: map<nat, int>, ghost last0: int)
      returns (pq: multiset<PqNode>, reached: set<nat>)
      modifies this
      requires Searching(initial, ids.size, dist, s, threshold, others, pq0 + multiset{curr}, reached0, order0, depthOf0, last0)
      requires IsLeast(curr, pq0 + multiset{curr}) && curr.id !in reached0 && (threshold < 0 || curr.depth < threshold)
      ensures reached == reached0 + {curr.id} && userDistances == old(userDistances)
      ensures Searching(initial, ids.size, dist, s, threshold, others, pq, reached, order0 + [curr.id], depthOf0[curr.id := curr.depth], curr.depth)
    {
      ghost var d0 := dist;
      reached := reached0 + {curr.id};
      if curr.id !in dist[s] {
        var row: map<nat, int> := dist[s][curr.id := curr.depth];
        dist := dist[s := row];
      }
      assert dist == PutIfAbsent(d0, s, curr.id, curr.depth);
      pq := Offer(pq0, dist[curr.id], reached, curr.depth);
      SettleStep(initial, ids.size, d0, s, threshold, others, pq0, reached0, order0, depthOf0, last0, curr, dist, pq);
    }

    /** pq.peek(): the least node of a non-empty queue. */
    method Peek(pq: multiset<PqNode>) returns (x: PqNode)
      requires pq != multiset{}
      ensures IsLeast(x, pq)
    {
      ghost var y := LeastExists(pq);
      x :| IsLeast(x, pq);
    }

    /**
     * getDistancesMap(filter, user): the memoised table when there is one;
     * otherwise the least distance over the entries of the projected rows
     * that pass the filter, with a zero self distance for every user (or the
     * given user), unless a lookup throws.
     */
    method GetDistancesMap(f: Option<PhoneFilter>, user: Option<string>) returns (r: Result<Table, LookupError>)
      modifies this
      requires Valid()
      ensures Valid() && dist == old(dist)
      ensures old(userDistances) != map[] ==> r == Success(old(userDistances)) && userDistances == old(userDistances)
      ensures old(userDistances) == map[] ==>
                (r.Success? <==> RowsOk(graph.vertices, graph.edges, ids, f, user, dist, dist.Keys))
      ensures old(userDistances) == map[] && r.Success? ==>
                r.value == userDistances
                && MinTable(r.value, Names(graph.vertices, graph.edges, ids, user, dist, dist.Keys),
                            Samples(graph.vertices, graph.edges, ids, f, user, dist, dist.Keys) + Zeros(SelfUsers(graph.vertices, user)))
      ensures r.Failure? ==> userDistances == old(userDistances)
    {
      if userDistances != map[] {
        return Success(userDistances);
      }
      ValidClosed();
      var rows := ProjectRows(graph.vertices, graph.edges, ids, f, user, dist);
      if rows.Failure? {
        return rows;
      }
      SamplesNonNegative(graph.vertices, graph.edges, ids, f, user, dist, dist.Keys);
      var t := SetSelves(rows.value, Names(graph.vertices, graph.edges, ids, user, dist, dist.Keys),
                         Samples(graph.vertices, graph.edges, ids, f, user, dist, dist.Keys), SelfUsers(graph.vertices, user));
      userDistances := t;
      r := Success(t);
    }
  }
}
