/**
 * The state of the bounded Dijkstra search that fills the row of one phone
 * of the distance map: the queue of offered nodes, the phones reached so
 * far with the depth at which each was reached, and the row itself, which
 * receives each reached phone with putIfAbsent.
 */
module Dijkstra {

  import opened FloydWarshall
  import opened PqNodes
  import opened PrintUtils

  /** The dense ids below n. */
  function Below(n: nat): (r: set<nat>)
    ensures forall i: nat :: i in r <==> i < n
  {
    if n == 0 then {} else Below(n - 1) + {n - 1}
  }

  /** putIfAbsent of every entry of `put`: the entries already in the row stay. */
  function PutAllAbsent(row: map<nat, int>, put: map<nat, int>): (r: map<nat, int>)
    ensures r.Keys == row.Keys + put.Keys
    ensures forall j :: j in row ==> r[j] == row[j]
    ensures forall j :: j in put && j !in row ==> r[j] == put[j]
  {
    map j | j in row.Keys + put.Keys :: if j in row then row[j] else put[j]
  }

  /** distances.get(s).putIfAbsent(j, depth) on the whole map. */
  function PutIfAbsent(d: Dist, s: nat, j: nat, depth: int): (r: Dist)
    requires s in d
    ensures r.Keys == d.Keys && forall i :: i in d && i != s ==> r[i] == d[i]
    ensures r[s] == PutAllAbsent(d[s], map[j := depth])
  {
    if j in d[s] then d else var row: map<nat, int> := d[s][j := depth]; d[s := row]
  }

  /** The nodes the inner loop of the search offers from the entries among `keys` of a row. */
  function Offers(row: map<nat, int>, reached: set<nat>, depth: int, keys: set<nat>): (r: set<PqNode>)
    ensures forall x :: x in r <==> x.id in keys && x.id in row && x.id !in reached && x.depth == depth + row[x.id]
  {
    set n | n in keys && n in row && n !in reached :: PqNode(n, depth + row[n])
  }

  /** pq.offer for each entry of the row whose phone is not reached yet, in any order. */
  method Offer(pq0: multiset<PqNode>, row: map<nat, int>, reached: set<nat>, depth: int) returns (pq: multiset<PqNode>)
    ensures pq == pq0 + multiset(Offers(row, reached, depth, row.Keys))
  {
    pq := pq0;
    ghost var done: set<nat> := {};
    var left := row.Keys;
    while left != {}
      invariant done + left == row.Keys && done !! left
      invariant pq == pq0 + multiset(Offers(row, reached, depth, done))
      decreases left
    {
      var n :| n in left;
      OffersGrow(row, reached, depth, done, n);
      if n !in reached {
        pq := pq + multiset{PqNode(n, depth + row[n])};
      }
      done, left := done + {n}, left - {n};
    }
    assert done == row.Keys;
  }

  lemma OffersGrow(row: map<nat, int>, reached: set<nat>, depth: int, done: set<nat>, n: nat)
    requires n in row && n !in done
    ensures multiset(Offers(row, reached, depth, done + {n}))
            == multiset(Offers(row, reached, depth, done)) + (if n in reached then multiset{} else multiset{PqNode(n, depth + row[n])})
  {
    var a, b := Offers(row, reached, depth, done + {n}), Offers(row, reached, depth, done);
    if n !in reached {
      assert a == b + {PqNode(n, depth + row[n])};
      assert PqNode(n, depth + row[n]) !in b;
    } else {
      assert a == b;
    }
  }

  /**
   * A distance map over the ids below n: a row per id, columns below n, no
   * negative entry, and every entry the cost of a walk of m0.
   */
  ghost predicate Walks(m0: Dist, d: Dist, n: nat)
  {
    (forall i: nat :: i in d <==> i < n) && Inside(d, n) && NoNegative(d) && Sound(m0, d)
  }

  /**
   * The phones are reached in the order `order`, each once, at nondecreasing
   * depths, each below the threshold when it is not negative.
   */
  ghost predicate Reached(order: seq<nat>, depthOf: map<nat, int>, threshold: int)
  {
    && (forall j :: j in depthOf <==> j in order) && Distinct(order)
    && (forall a, b :: 0 <= a < b < |order| ==> order[a] in depthOf && order[b] in depthOf && depthOf[order[a]] <= depthOf[order[b]])
    && (forall j :: j in depthOf ==> threshold < 0 || depthOf[j] < threshold)
  }

  /** The search reached s first, at depth 0. */
  ghost predicate Started(order: seq<nat>, depthOf: map<nat, int>, s: nat)
  {
    |order| > 0 && order[0] == s && s in depthOf && depthOf[s] == 0
  }

  /** The phones reached so far, none deeper than the last node polled. */
  ghost predicate Ordered(order: seq<nat>, depthOf: map<nat, int>, reached: set<nat>, last: int, threshold: int)
  {
    reached == depthOf.Keys && Reached(order, depthOf, threshold) && (forall j :: j in depthOf ==> depthOf[j] <= last)
  }

  /** Every queued node is a phone below n, no shallower than `last`, at the cost of a walk from s. */
  ghost predicate Queued(pq: multiset<PqNode>, m0: Dist, s: nat, n: nat, last: int)
  {
    forall x :: x in pq ==> x.id < n && last <= x.depth && (x.depth < MaxInt ==> Reachable(m0, s, x.id, x.depth))
  }

  /** The invariant of the search loop from s, which only changes the row of s. */
  ghost predicate Searching(m0: Dist, n: nat, d: Dist, s: nat, threshold: int, others: Dist, pq: multiset<PqNode>,
                            reached: set<nat>, order: seq<nat>, depthOf: map<nat, int>, last: int)
  {
    && Walks(m0, d, n) && s < n && s in others
    && RowOnly(d, others, s, depthOf)
    && Ordered(order, depthOf, reached, last, threshold)
    && Queued(pq, m0, s, n, last) && 0 <= last
    && Found(depthOf, m0, s, n)
    && Dominates(d, m0) && Relaxed(m0, depthOf, pq)
  }

  /** Phone j is reached no deeper than c, or a node for j no deeper than c is queued. */
  ghost predicate Covered(depthOf: map<nat, int>, pq: multiset<PqNode>, j: nat, c: int)
  {
    (j in depthOf && depthOf[j] <= c) || exists x :: x in pq && x.id == j && x.depth <= c
  }

  /**
   * Every entry (u, j) of the initial map from a reached phone u has been
   * relaxed: j is covered at the depth of u plus the entry.
   */
  ghost predicate Relaxed(m0: Dist, depthOf: map<nat, int>, pq: multiset<PqNode>)
  {
    forall u, j :: u in depthOf && u in m0 && j in m0[u] ==> Covered(depthOf, pq, j, depthOf[u] + m0[u][j])
  }

  /**
   * Every walk of the initial map from s within the threshold ends at a
   * reached phone, reached no deeper than the walk costs.
   */
  ghost predicate Nearest(m0: Dist, s: nat, threshold: int, depthOf: map<nat, int>)
  {
    forall w {:trigger IsWalk(m0, w)} :: IsWalk(m0, w) && w[0] == s && (threshold < 0 || Cost(m0, w) < threshold)
                ==> w[|w| - 1] in depthOf && depthOf[w[|w| - 1]] <= Cost(m0, w)
  }

  /** The row of s holds, for every walk from s within the threshold, an entry no larger than its cost. */
  ghost predicate RowShortest(m0: Dist, d: Dist, s: nat, threshold: int)
  {
    s in d && forall w {:trigger IsWalk(m0, w)} :: IsWalk(m0, w) && w[0] == s && (threshold < 0 || Cost(m0, w) < threshold)
                          ==> w[|w| - 1] in d[s] && d[s][w[|w| - 1]] <= Cost(m0, w)
  }

  /** Before the first poll: only s is queued, at depth 0, and nothing is reached. */
  lemma SearchStart(m0: Dist, n: nat, d: Dist, s: nat, threshold: int)
    requires Walks(m0, d, n) && Dominates(d, m0) && s < n && s in m0
    ensures Searching(m0, n, d, s, threshold, d, multiset{PqNode(s, 0)}, {}, [], map[], 0)
  {
    ReachableSelf(m0, s);
    assert PutAllAbsent(d[s], map[]) == d[s];
  }

  /**
   * A search from s that starts from the initial row of s leaves that row
   * shortest and changes no other row, so the rows made shortest before
   * stay so.
   */
  lemma SearchedRows(m0: Dist, n: nat, before: Dist, after: Dist, s: nat, threshold: int, depthOf: map<nat, int>,
                     done: set<nat>)
    requires Initial(m0, n) && Unit(m0) && s in m0 && s in before && before[s] == m0[s]
    requires s in after && RowOnly(after, before, s, depthOf) && Nearest(m0, s, threshold, depthOf)
    requires forall d :: d in done ==> RowShortest(m0, before, d, threshold)
    ensures forall d :: d in done + {s} ==> RowShortest(m0, after, d, threshold)
  {
    SearchedRow(m0, n, after, s, threshold, depthOf);
    forall d | d in done && d != s ensures RowShortest(m0, after, d, threshold) {
      assert RowShortest(m0, before, d, threshold) && after[d] == before[d];
    }
  }

  /** The search changes only the row of s, where it puts the reached phones if absent. */
  ghost predicate RowOnly(d: Dist, others: Dist, s: nat, depthOf: map<nat, int>)
    requires s in d && s in others
  {
    d.Keys == others.Keys && (forall i :: i in d && i != s ==> d[i] == others[i])
    && d[s] == PutAllAbsent(others[s], depthOf)
  }

  /** Every reached phone is below n, at the cost of a walk from s. */
  ghost predicate Found(depthOf: map<nat, int>, m0: Dist, s: nat, n: nat)
  {
    forall j :: j in depthOf ==> j < n && (depthOf[j] < MaxInt ==> Reachable(m0, s, j, depthOf[j]))
  }

  /** A search whose depths are all below b keeps every entry of the map below b. */
  lemma RowOnlyBounded(d: Dist, others: Dist, s: nat, depthOf: map<nat, int>, b: int)
    requires s in d && s in others && RowOnly(d, others, s, depthOf) && Bounded(others, b)
    requires forall j :: j in depthOf ==> depthOf[j] < b
    ensures Bounded(d, b)
  {
    forall i, j | i in d && j in d[i] ensures d[i][j] < b {
      if i != s {
        assert d[i] == others[i];
      }
    }
  }

  lemma FoundStep(depthOf: map<nat, int>, m0: Dist, s: nat, n: nat, j: nat, depth: int)
    requires Found(depthOf, m0, s, n) && j < n && (depth < MaxInt ==> Reachable(m0, s, j, depth))
    ensures Found(depthOf[j := depth], m0, s, n)
  {
  }

  lemma RowOnlyStep(d: Dist, others: Dist, s: nat, depthOf: map<nat, int>, j: nat, depth: int)
    requires s in d && s in others && RowOnly(d, others, s, depthOf) && j !in depthOf
    ensures RowOnly(PutIfAbsent(d, s, j, depth), others, s, depthOf[j := depth])
  {
    PutAllAbsentStep(others[s], depthOf, j, depth);
  }

  /** Reaching a new phone at a depth no smaller than the last keeps the order. */
  lemma OrderedStep(order: seq<nat>, depthOf: map<nat, int>, reached: set<nat>, last: int, threshold: int, j: nat, depth: int)
    requires Ordered(order, depthOf, reached, last, threshold)
    requires j !in reached && last <= depth && (threshold < 0 || depth < threshold)
    ensures Ordered(order + [j], depthOf[j := depth], reached + {j}, depth, threshold)
  {
    var order', depthOf' := order + [j], depthOf[j := depth];
    forall a, b | 0 <= a < b < |order'|
      ensures order'[a] != order'[b]
      ensures order'[a] in depthOf' && order'[b] in depthOf' && depthOf'[order'[a]] <= depthOf'[order'[b]]
    {
      assert order'[a] == order[a] && order[a] in depthOf;
      if b < |order| {
        assert order'[b] == order[b];
      }
    }
  }

  /** putIfAbsent of a walk cost keeps the map a map of walk costs. */
  lemma RecordWalks(m0: Dist, d: Dist, n: nat, s: nat, j: nat, depth: int)
    requires Walks(m0, d, n) && s < n && j < n && 0 <= depth
    requires depth < MaxInt ==> Reachable(m0, s, j, depth)
    ensures Walks(m0, PutIfAbsent(d, s, j, depth), n)
  {
    var r := PutIfAbsent(d, s, j, depth);
    forall i, k | i in r && k in r[i] && r[i][k] < MaxInt
      ensures Reachable(m0, i, k, r[i][k])
    {
      if !(i == s && k == j) || j in d[s] {
        assert k in d[i] && r[i][k] == d[i][k];
      }
    }
  }

  /** The nodes offered from the row of a reached phone keep the queue's invariant. */
  lemma OffersQueued(m0: Dist, d: Dist, n: nat, s: nat, curr: PqNode, reached: set<nat>, pq: multiset<PqNode>)
    requires Walks(m0, d, n) && curr.id in d && 0 <= curr.depth
    requires curr.depth < MaxInt ==> Reachable(m0, s, curr.id, curr.depth)
    requires Queued(pq, m0, s, n, curr.depth)
    ensures Queued(pq + multiset(Offers(d[curr.id], reached, curr.depth, d[curr.id].Keys)), m0, s, n, curr.depth)
  {
    var row := d[curr.id];
    forall x | x in Offers(row, reached, curr.depth, row.Keys)
      ensures x.id < n && curr.depth <= x.depth && (x.depth < MaxInt ==> Reachable(m0, s, x.id, x.depth))
    {
      if x.depth < MaxInt {
        assert Reachable(m0, curr.id, x.id, row[x.id]);
        ReachableJoin(m0, s, curr.id, x.id, curr.depth, row[x.id]);
      }
    }
  }

  /**
   * One settled node: the least node of the queue, not reached yet and
   * below the threshold, is recorded with putIfAbsent in the row of s and
   * its row's unreached phones are offered; the loop invariant holds again.
   */
  lemma SettleStep(m0: Dist, n: nat, d: Dist, s: nat, threshold: int, others: Dist, pq: multiset<PqNode>,
                   reached: set<nat>, order: seq<nat>, depthOf: map<nat, int>, last: int, curr: PqNode,
                   d': Dist, pq': multiset<PqNode>)
    requires Searching(m0, n, d, s, threshold, others, pq + multiset{curr}, reached, order, depthOf, last)
    requires IsLeast(curr, pq + multiset{curr}) && curr.id !in reached && (threshold < 0 || curr.depth < threshold)
    requires d' == PutIfAbsent(d, s, curr.id, curr.depth)
    requires pq' == pq + multiset(Offers(d'[curr.id], reached + {curr.id}, curr.depth, d'[curr.id].Keys))
    ensures Searching(m0, n, d', s, threshold, others, pq', reached + {curr.id}, order + [curr.id], depthOf[curr.id := curr.depth], curr.depth)
  {
    LeastDepth(curr, pq + multiset{curr});
    assert curr.id < n && curr.depth >= 0 && (curr.depth < MaxInt ==> Reachable(m0, s, curr.id, curr.depth));
    OrderedStep(order, depthOf, reached, last, threshold, curr.id, curr.depth);
    RecordWalks(m0, d, n, s, curr.id, curr.depth);
    RowOnlyStep(d, others, s, depthOf, curr.id, curr.depth);
    FoundStep(depthOf, m0, s, n, curr.id, curr.depth);
    assert Queued(pq, m0, s, n, curr.depth);
    OffersQueued(m0, d', n, s, curr, reached + {curr.id}, pq);
    DominatesPut(m0, d, s, curr.id, curr.depth);
    RelaxedSettle(m0, d', depthOf, pq, curr, pq');
  }

  /** A polled node already reached is dropped: the invariant holds of the rest of the queue. */
  lemma SkipStep(m0: Dist, n: nat, d: Dist, s: nat, threshold: int, others: Dist, pq: multiset<PqNode>,
                 reached: set<nat>, order: seq<nat>, depthOf: map<nat, int>, last: int, curr: PqNode)
    requires Searching(m0, n, d, s, threshold, others, pq + multiset{curr}, reached, order, depthOf, last)
    requires curr.id in reached
    ensures Searching(m0, n, d, s, threshold, others, pq, reached, order, depthOf, last)
  {
    RelaxedSkip(m0, depthOf, pq, curr);
  }

  /** Dropping a node for a phone reached no deeper keeps every entry relaxed. */
  lemma RelaxedSkip(m0: Dist, depthOf: map<nat, int>, pq: multiset<PqNode>, curr: PqNode)
    requires Relaxed(m0, depthOf, pq + multiset{curr}) && curr.id in depthOf && depthOf[curr.id] <= curr.depth
    ensures Relaxed(m0, depthOf, pq)
  {
    forall u, j | u in depthOf && u in m0 && j in m0[u] ensures Covered(depthOf, pq, j, depthOf[u] + m0[u][j]) {
      var c := depthOf[u] + m0[u][j];
      if !(j in depthOf && depthOf[j] <= c) {
        var x :| x in pq + multiset{curr} && x.id == j && x.depth <= c;
        assert x != curr && x in pq;
      }
    }
  }

  /**
   * Settling the least node c at depth cd, with the offers from its row,
   * keeps every entry relaxed: the entries from c are covered by c itself,
   * by a phone reached before, or by their offer.
   */
  lemma RelaxedSettle(m0: Dist, d: Dist, depthOf: map<nat, int>, pq: multiset<PqNode>, curr: PqNode, pq': multiset<PqNode>)
    requires Relaxed(m0, depthOf, pq + multiset{curr}) && curr.id !in depthOf
    requires forall k :: k in depthOf ==> depthOf[k] <= curr.depth
    requires Dominates(d, m0) && NoNegative(d) && curr.id in d
    requires pq' == pq + multiset(Offers(d[curr.id], depthOf.Keys + {curr.id}, curr.depth, d[curr.id].Keys))
    ensures Relaxed(m0, depthOf[curr.id := curr.depth], pq')
  {
    var c, cd := curr.id, curr.depth;
    var depthOf' := depthOf[c := cd];
    forall u, j | u in depthOf' && u in m0 && j in m0[u] ensures Covered(depthOf', pq', j, depthOf'[u] + m0[u][j]) {
      if u == c {
        assert j in d[c] && 0 <= d[c][j] <= m0[c][j];
        if j !in depthOf' {
          var x := PqNode(j, cd + d[c][j]);
          assert x in Offers(d[c], depthOf.Keys + {c}, cd, d[c].Keys);
        }
      } else {
        var b := depthOf[u] + m0[u][j];
        if !(j in depthOf && depthOf[j] <= b) {
          var x :| x in pq + multiset{curr} && x.id == j && x.depth <= b;
          if x != curr {
            assert x in pq';
          }
        }
      }
    }
  }

  /** putIfAbsent keeps every entry of the initial map. */
  lemma DominatesPut(m0: Dist, d: Dist, s: nat, j: nat, depth: int)
    requires Dominates(d, m0) && s in d
    ensures Dominates(PutIfAbsent(d, s, j, depth), m0)
  {
  }

  /**
   * Once no queued node is within the threshold, every walk of the initial
   * map from s within the threshold ends at a reached phone, reached no
   * deeper than the walk costs.
   */
  lemma {:induction false} WalksFound(m0: Dist, n: nat, s: nat, threshold: int, depthOf: map<nat, int>,
                                      pq: multiset<PqNode>, w: seq<nat>)
    requires Initial(m0, n) && Relaxed(m0, depthOf, pq) && s in depthOf && depthOf[s] == 0
    requires forall x :: x in pq ==> 0 <= threshold <= x.depth
    requires IsWalk(m0, w) && w[0] == s && (threshold < 0 || Cost(m0, w) < threshold)
    ensures w[|w| - 1] in depthOf && depthOf[w[|w| - 1]] <= Cost(m0, w)
    decreases |w|
  {
    if |w| > 1 {
      var w', u, j := w[..|w| - 1], w[|w| - 2], w[|w| - 1];
      CostAppend(m0, w', [u, j]);
      assert w' + [u, j][1..] == w;
      assert Cost(m0, [u, j]) == m0[u][j] by {
        assert [u, j][1..] == [j];
      }
      WalksFound(m0, n, s, threshold, depthOf, pq, w');
      assert Covered(depthOf, pq, j, depthOf[u] + m0[u][j]);
    }
  }

  /** No queued node is within the threshold when the search stops. */
  lemma Exhausted(m0: Dist, n: nat, s: nat, threshold: int, depthOf: map<nat, int>, pq: multiset<PqNode>)
    requires Initial(m0, n) && Relaxed(m0, depthOf, pq) && (threshold == 0 || (s in depthOf && depthOf[s] == 0))
    requires forall x :: x in pq ==> 0 <= threshold <= x.depth
    ensures Nearest(m0, s, threshold, depthOf)
  {
    forall w | IsWalk(m0, w) && w[0] == s && (threshold < 0 || Cost(m0, w) < threshold)
      ensures w[|w| - 1] in depthOf && depthOf[w[|w| - 1]] <= Cost(m0, w)
    {
      CostNonNegative(m0, n, w);
      WalksFound(m0, n, s, threshold, depthOf, pq, w);
    }
  }

  /**
   * The row of s after its search, starting from its initial row: an entry
   * of the initial row is 0 to s itself and 1 to a neighbour, no more than
   * any walk to it costs; every other phone within the threshold gets the
   * depth at which it was reached.
   */
  lemma SearchedRow(m0: Dist, n: nat, d: Dist, s: nat, threshold: int, depthOf: map<nat, int>)
    requires Initial(m0, n) && Unit(m0) && s in m0 && s in d && d[s] == PutAllAbsent(m0[s], depthOf)
    requires Nearest(m0, s, threshold, depthOf)
    ensures RowShortest(m0, d, s, threshold)
  {
    forall w | IsWalk(m0, w) && w[0] == s && (threshold < 0 || Cost(m0, w) < threshold)
      ensures w[|w| - 1] in d[s] && d[s][w[|w| - 1]] <= Cost(m0, w)
    {
      var e := w[|w| - 1];
      if e in m0[s] {
        if e == s {
          CostNonNegative(m0, n, w);
        } else {
          UnitCost(m0, n, w);
        }
      }
    }
  }

  /** Recording one more reached phone in the row is recording it in the map of reached phones. */
  lemma PutAllAbsentStep(row0: map<nat, int>, depthOf: map<nat, int>, j: nat, depth: int)
    requires j !in depthOf
    ensures PutAllAbsent(PutAllAbsent(row0, depthOf), map[j := depth]) == PutAllAbsent(row0, depthOf[j := depth])
  {
  }
}
