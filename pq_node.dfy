/**
 * The entries of the Dijkstra priority queue: a dense phone id and the
 * depth at which it was offered, ordered by depth and then by id. The queue
 * itself is a multiset; polling it takes its least entry.
 */
module PqNodes {

  datatype PqNode = PqNode(id: nat, depth: int)

  /** compareTo: the difference of the depths, or of the ids when the depths are equal. */
  function Compare(a: PqNode, b: PqNode): (r: int)
    ensures r < 0 <==> a.depth < b.depth || (a.depth == b.depth && a.id < b.id)
    ensures r == 0 <==> a == b
  {
    if a.depth == b.depth then a.id - b.id else a.depth - b.depth
  }

  /** The order compareTo induces is total, antisymmetric and transitive. */
  lemma CompareOrder(a: PqNode, b: PqNode, c: PqNode)
    ensures Compare(a, b) <= 0 || Compare(b, a) <= 0
    ensures Compare(a, b) <= 0 && Compare(b, a) <= 0 ==> a == b
    ensures Compare(a, b) <= 0 && Compare(b, c) <= 0 ==> Compare(a, c) <= 0
  {
  }

  /** `x` is what peek and poll return: an entry of the queue that no other entry comes before. */
  predicate IsLeast(x: PqNode, pq: multiset<PqNode>)
  {
    x in pq && forall y :: y in pq ==> Compare(x, y) <= 0
  }

  /** A non-empty queue has a least entry. */
  lemma {:induction false} LeastExists(pq: multiset<PqNode>) returns (x: PqNode)
    requires |pq| > 0
    ensures IsLeast(x, pq)
    decreases |pq|
  {
    var a :| a in pq;
    var rest := pq - multiset{a};
    if |rest| == 0 {
      x := a;
      assert pq == multiset{a};
    } else {
      var b := LeastExists(rest);
      x := if Compare(a, b) <= 0 then a else b;
      forall y | y in pq ensures Compare(x, y) <= 0 {
        CompareOrder(x, b, y);
        CompareOrder(a, b, y);
        if y != a {
          assert y in rest;
        }
      }
    }
  }

  /** There is only one least entry, so polling is deterministic. */
  lemma LeastUnique(x: PqNode, y: PqNode, pq: multiset<PqNode>)
    requires IsLeast(x, pq) && IsLeast(y, pq)
    ensures x == y
  {
    CompareOrder(x, y, x);
  }

  /** The least entry has the least depth. */
  lemma LeastDepth(x: PqNode, pq: multiset<PqNode>)
    requires IsLeast(x, pq)
    ensures forall y :: y in pq ==> x.depth <= y.depth
  {
  }
}
