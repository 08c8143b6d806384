/**
 * Operations.diceEquals, Operations.diceNotEquals and Operations.removeIns:
 * a dice keeps only the facts related to the chosen members of a level. It
 * picks the members to purge, then removes them and, transitively, every
 * vertex with an edge into a removed vertex (a call pointing at a purged
 * phone, the phones of a purged user, and so on).
 */
module Dice {

  import opened Graph

  /** diceEquals (lines 196-203): the `kind` vertices whose value differs from `value`, in listing order. */
  function PurgeEquals(vs: map<VId, Vertex>, order: seq<VId>, kind: string, value: string): (r: seq<VId>)
    ensures forall v :: v in r <==> v in order && HasKind(vs, v, kind) && vs[v].value != value
  {
    if order == [] then []
    else
      var v := order[|order| - 1];
      PurgeEquals(vs, order[..|order| - 1], kind, value)
      + (if HasKind(vs, v, kind) && vs[v].value != value then [v] else [])
  }

  /** diceNotEquals (lines 208-215): the `kind` vertices whose value is `value`, in listing order. */
  function PurgeNotEquals(vs: map<VId, Vertex>, order: seq<VId>, kind: string, value: string): (r: seq<VId>)
    ensures forall v :: v in r <==> v in order && HasKind(vs, v, kind) && vs[v].value == value
  {
    if order == [] then []
    else
      var v := order[|order| - 1];
      PurgeNotEquals(vs, order[..|order| - 1], kind, value)
      + (if HasKind(vs, v, kind) && vs[v].value == value then [v] else [])
  }

  /** The two dice split the `kind` vertices between them: each one purges exactly what the other keeps. */
  lemma PurgesSplitLevel(vs: map<VId, Vertex>, order: seq<VId>, kind: string, value: string, v: VId)
    requires v in order && HasKind(vs, v, kind)
    ensures v in PurgeEquals(vs, order, kind, value) <==> v !in PurgeNotEquals(vs, order, kind, value)
  {
  }

  /** Some edge of `es` goes from `u` into `v`. */
  ghost predicate Linked(es: seq<Edge>, u: VId, v: VId)
  {
    exists i :: 0 <= i < |es| && es[i].src == u && es[i].dst == v
  }

  /** `p` walks edges of `es` backwards to a root: each vertex has an edge into the next, the last is a root. */
  ghost predicate Chain(es: seq<Edge>, roots: seq<VId>, p: seq<VId>)
  {
    |p| > 0 && p[|p| - 1] in roots && forall k :: 0 <= k < |p| - 1 ==> Linked(es, p[k], p[k + 1])
  }

  /** `v` is a root or reaches one along edges of `es`: it lies in the in-closure of the roots. */
  ghost predicate InClosure(es: seq<Edge>, roots: seq<VId>, v: VId)
  {
    exists p :: Chain(es, roots, p) && p[0] == v
  }

  /** The outcome of removeIns(roots) on the graph (vs0, es0): the in-closure is gone, the rest untouched. */
  ghost predicate Purged(vs0: map<VId, Vertex>, es0: seq<Edge>, roots: seq<VId>, removed: seq<VId>,
                         vs: map<VId, Vertex>, es: seq<Edge>)
  {
    (forall v :: v in removed <==> v in vs0 && InClosure(es0, roots, v))
    && (forall v :: v in vs <==> v in vs0 && v !in removed)
    && (forall v :: v in vs ==> vs[v] == vs0[v])
    && es == DetachAll(es0, removed)
  }

  /** The sources of the edges `es`. */
  function Sources(es: seq<Edge>): (r: seq<VId>)
    ensures |r| == |es| && forall i :: 0 <= i < |es| ==> r[i] == es[i].src
  {
    if es == [] then [] else Sources(es[..|es| - 1]) + [es[|es| - 1].src]
  }

  /**
   * The state of removeIns while `work` is pending: the removed vertices are
   * in the in-closure and gone with their edges, everything else untouched,
   * and every root or in-neighbour of a removed vertex is removed or pending.
   */
  ghost predicate Pending(vs0: map<VId, Vertex>, es0: seq<Edge>, roots: seq<VId>, removed: seq<VId>, work: seq<VId>,
                          vs: map<VId, Vertex>, es: seq<Edge>)
  {
    Wellformed(vs0, es0) && LiveAfter(vs0, removed, vs) && es == DetachAll(es0, removed)
    && Derived(vs0, es0, roots, removed, work) && Covered(vs0, es0, roots, removed, work)
  }

  /** The vertices left are the original ones not removed, unchanged. */
  ghost predicate LiveAfter(vs0: map<VId, Vertex>, removed: seq<VId>, vs: map<VId, Vertex>)
  {
    (forall v :: v in vs <==> v in vs0 && v !in removed) && (forall v :: v in vs ==> vs[v] == vs0[v])
  }

  /** Everything removed or pending lies in the in-closure of the roots. */
  ghost predicate Derived(vs0: map<VId, Vertex>, es0: seq<Edge>, roots: seq<VId>, removed: seq<VId>, work: seq<VId>)
  {
    (forall v :: v in removed ==> v in vs0 && InClosure(es0, roots, v))
    && (forall v :: v in work ==> InClosure(es0, roots, v))
  }

  /** Every live root, and every source of an edge into a removed vertex, is removed or pending. */
  ghost predicate Covered(vs0: map<VId, Vertex>, es0: seq<Edge>, roots: seq<VId>, removed: seq<VId>, work: seq<VId>)
  {
    (forall v :: v in roots && v in vs0 ==> v in removed || v in work)
    && (forall i :: 0 <= i < |es0| && es0[i].dst in removed ==> es0[i].src in removed || es0[i].src in work)
  }

  /**
   * removeIns (lines 220-237). Each pending vertex still present has its
   * in-neighbours collected, is removed, and the in-neighbours become
   * pending in turn; a vertex removed earlier is skipped, as the catch of
   * IllegalStateException does.
   */
  method RemoveIns(g: PropertyGraph, roots: seq<VId>) returns (ghost removed: seq<VId>)
    requires g.Valid()
    modifies g
    ensures g.Valid()
    ensures Purged(old(g.vertices), old(g.edges), roots, removed, g.vertices, g.edges)
  {
    ghost var vs0, es0 := g.vertices, g.edges;
    var work := roots;
    removed := [];
    forall r | r in roots ensures InClosure(es0, roots, r) {
      assert Chain(es0, roots, [r]);
    }
    while work != []
      invariant g.Valid()
      invariant Pending(vs0, es0, roots, removed, work, g.vertices, g.edges)
      decreases |g.vertices|, |work|
    {
      var v := work[|work| - 1];
      if v in g.vertices {
        var ins := Sources(InEdges(g.edges, v));
        RemoveStep(vs0, es0, roots, removed, work, g.vertices, g.edges, ins);
        ghost var before := g.vertices;
        g.RemoveVertex(v);
        assert |g.vertices| < |before| by {
          assert g.vertices.Keys == before.Keys - {v};
        }
        removed := removed + [v];
        work := work[..|work| - 1] + ins;
      } else {
        SkipStep(vs0, es0, roots, removed, work, g.vertices, g.edges);
        work := work[..|work| - 1];
      }
    }
    ClosedIsClosure(vs0, es0, roots, removed);
  }

  /** A pending vertex removed earlier is dropped: the catch at line 234. */
  lemma SkipStep(vs0: map<VId, Vertex>, es0: seq<Edge>, roots: seq<VId>, removed: seq<VId>, work: seq<VId>,
                 vs: map<VId, Vertex>, es: seq<Edge>)
    requires Pending(vs0, es0, roots, removed, work, vs, es)
    requires work != [] && work[|work| - 1] !in vs
    ensures Pending(vs0, es0, roots, removed, work[..|work| - 1], vs, es)
  {
    var v := work[|work| - 1];
    assert v !in vs0 || v in removed;
    SkipDerived(vs0, es0, roots, removed, work);
    SkipCovered(vs0, es0, roots, removed, work, v);
  }

  lemma SkipDerived(vs0: map<VId, Vertex>, es0: seq<Edge>, roots: seq<VId>, removed: seq<VId>, work: seq<VId>)
    requires Derived(vs0, es0, roots, removed, work) && work != []
    ensures Derived(vs0, es0, roots, removed, work[..|work| - 1])
  {
    forall u | u in work[..|work| - 1] ensures InClosure(es0, roots, u) {
      assert u in work;
    }
  }

  lemma SkipCovered(vs0: map<VId, Vertex>, es0: seq<Edge>, roots: seq<VId>, removed: seq<VId>, work: seq<VId>, v: VId)
    requires Wellformed(vs0, es0) && Covered(vs0, es0, roots, removed, work)
    requires work != [] && v == work[|work| - 1] && (v !in vs0 || v in removed)
    ensures Covered(vs0, es0, roots, removed, work[..|work| - 1])
  {
    var rest := work[..|work| - 1];
    assert work == rest + [v];
    forall u | u in roots && u in vs0 ensures u in removed || u in rest {
      assert u in removed || u in work;
    }
    forall i | 0 <= i < |es0| && es0[i].dst in removed ensures es0[i].src in removed || es0[i].src in rest {
      assert es0[i].src in removed || es0[i].src in work;
    }
  }

  /** A pending vertex still present is removed and its in-neighbours become pending: lines 228-232. */
  lemma RemoveStep(vs0: map<VId, Vertex>, es0: seq<Edge>, roots: seq<VId>, removed: seq<VId>, work: seq<VId>,
                   vs: map<VId, Vertex>, es: seq<Edge>, ins: seq<VId>)
    requires Pending(vs0, es0, roots, removed, work, vs, es)
    requires work != [] && work[|work| - 1] in vs
    requires |ins| == |InEdges(es, work[|work| - 1])|
    requires forall i :: 0 <= i < |ins| ==> ins[i] == InEdges(es, work[|work| - 1])[i].src
    ensures Pending(vs0, es0, roots, removed + [work[|work| - 1]], work[..|work| - 1] + ins,
                    vs - {work[|work| - 1]}, Detach(es, work[|work| - 1]))
  {
    var v := work[|work| - 1];
    RemoveLive(vs0, removed, vs, v);
    assert (removed + [v])[..|removed|] == removed;
    RemoveDerived(vs0, es0, roots, removed, work, es, ins);
    RemoveCovered(vs0, es0, roots, removed, work, es, ins);
  }

  lemma RemoveLive(vs0: map<VId, Vertex>, removed: seq<VId>, vs: map<VId, Vertex>, v: VId)
    requires LiveAfter(vs0, removed, vs)
    ensures LiveAfter(vs0, removed + [v], vs - {v})
  {
  }

  lemma RemoveDerived(vs0: map<VId, Vertex>, es0: seq<Edge>, roots: seq<VId>, removed: seq<VId>, work: seq<VId>,
                      es: seq<Edge>, ins: seq<VId>)
    requires Derived(vs0, es0, roots, removed, work) && es == DetachAll(es0, removed)
    requires work != [] && work[|work| - 1] in vs0
    requires |ins| == |InEdges(es, work[|work| - 1])|
    requires forall i :: 0 <= i < |ins| ==> ins[i] == InEdges(es, work[|work| - 1])[i].src
    ensures Derived(vs0, es0, roots, removed + [work[|work| - 1]], work[..|work| - 1] + ins)
  {
    var v, rest := work[|work| - 1], work[..|work| - 1];
    assert v in work;
    InNeighboursInClosure(es0, roots, removed, es, v, ins);
    forall u | u in removed + [v] ensures u in vs0 && InClosure(es0, roots, u) {
      if u != v {
        assert u in removed;
      }
    }
    forall u | u in rest + ins ensures InClosure(es0, roots, u) {
      if u in rest {
        assert u in work;
      }
    }
  }

  lemma RemoveCovered(vs0: map<VId, Vertex>, es0: seq<Edge>, roots: seq<VId>, removed: seq<VId>, work: seq<VId>,
                      es: seq<Edge>, ins: seq<VId>)
    requires Wellformed(vs0, es0) && Covered(vs0, es0, roots, removed, work) && es == DetachAll(es0, removed)
    requires work != [] && work[|work| - 1] !in removed
    requires |ins| == |InEdges(es, work[|work| - 1])|
    requires forall i :: 0 <= i < |ins| ==> ins[i] == InEdges(es, work[|work| - 1])[i].src
    ensures Covered(vs0, es0, roots, removed + [work[|work| - 1]], work[..|work| - 1] + ins)
  {
    var v := work[|work| - 1];
    assert work == work[..|work| - 1] + [v];
    PendingAfterRemoval(vs0, es0, removed, es, v, ins);
  }

  /** The in-neighbours of a vertex in the in-closure are in it too. */
  lemma InNeighboursInClosure(es0: seq<Edge>, roots: seq<VId>, removed: seq<VId>, es: seq<Edge>, v: VId, ins: seq<VId>)
    requires es == DetachAll(es0, removed) && InClosure(es0, roots, v)
    requires |ins| == |InEdges(es, v)| && forall i :: 0 <= i < |ins| ==> ins[i] == InEdges(es, v)[i].src
    ensures forall u :: u in ins ==> InClosure(es0, roots, u)
  {
    forall u | u in ins ensures InClosure(es0, roots, u) {
      var i :| 0 <= i < |ins| && ins[i] == u;
      var e := InEdges(es, v)[i];
      assert e in InEdges(es, v);
      var j :| 0 <= j < |es0| && es0[j] == e;
      ClosureBackStep(es0, roots, j);
    }
  }

  /** Removing `v` leaves every edge into it with a source already removed or now pending. */
  lemma PendingAfterRemoval(vs0: map<VId, Vertex>, es0: seq<Edge>, removed: seq<VId>, es: seq<Edge>, v: VId, ins: seq<VId>)
    requires Wellformed(vs0, es0) && es == DetachAll(es0, removed) && v !in removed
    requires |ins| == |InEdges(es, v)| && forall i :: 0 <= i < |ins| ==> ins[i] == InEdges(es, v)[i].src
    ensures forall i :: 0 <= i < |es0| && es0[i].dst == v ==> es0[i].src in removed || es0[i].src in ins
  {
    var inEs := InEdges(es, v);
    forall i | 0 <= i < |es0| && es0[i].dst == v && es0[i].src !in removed ensures es0[i].src in ins {
      assert es0[i] in es;
      assert es0[i] in inEs;
      var k :| 0 <= k < |inEs| && inEs[k] == es0[i];
      assert ins[k] == es0[i].src;
    }
  }

  /** Once nothing is pending, the removed vertices are exactly the live part of the in-closure. */
  lemma ClosedIsClosure(vs0: map<VId, Vertex>, es0: seq<Edge>, roots: seq<VId>, removed: seq<VId>)
    requires Wellformed(vs0, es0)
    requires forall v :: v in removed ==> v in vs0 && InClosure(es0, roots, v)
    requires forall v :: v in roots && v in vs0 ==> v in removed
    requires forall i :: 0 <= i < |es0| && es0[i].dst in removed ==> es0[i].src in removed
    ensures forall v :: v in removed <==> v in vs0 && InClosure(es0, roots, v)
  {
    forall v | v in vs0 && InClosure(es0, roots, v) ensures v in removed {
      var p :| Chain(es0, roots, p) && p[0] == v;
      ChainRemoved(vs0, es0, roots, removed, p, 0);
    }
  }

  /** Every vertex of a chain that starts at a live vertex was removed: by induction from the root end. */
  lemma {:induction false} ChainRemoved(vs0: map<VId, Vertex>, es0: seq<Edge>, roots: seq<VId>, removed: seq<VId>, p: seq<VId>, k: nat)
    requires Wellformed(vs0, es0)
    requires forall v :: v in roots && v in vs0 ==> v in removed
    requires forall i :: 0 <= i < |es0| && es0[i].dst in removed ==> es0[i].src in removed
    requires Chain(es0, roots, p) && k < |p| && p[0] in vs0
    ensures p[k] in removed
    decreases |p| - k
  {
    if k == |p| - 1 {
      if k > 0 {
        assert Linked(es0, p[k - 1], p[k]);
      }
    } else {
      ChainRemoved(vs0, es0, roots, removed, p, k + 1);
      assert Linked(es0, p[k], p[k + 1]);
    }
  }

  /** The in-closure is the least set holding the roots and the source of every edge into it. */
  lemma {:induction false} ClosureLeast(es: seq<Edge>, roots: seq<VId>, s: set<VId>, p: seq<VId>, k: nat)
    requires forall r :: r in roots ==> r in s
    requires forall i :: 0 <= i < |es| && es[i].dst in s ==> es[i].src in s
    requires Chain(es, roots, p) && k < |p|
    ensures p[k] in s
    decreases |p| - k
  {
    if k < |p| - 1 {
      ClosureLeast(es, roots, s, p, k + 1);
      assert Linked(es, p[k], p[k + 1]);
    }
  }

  /** diceEquals(kind, value): purges the `kind` vertices with another value and what depends on them. */
  method DiceEquals(g: PropertyGraph, order: seq<VId>, kind: string, value: string) returns (ghost removed: seq<VId>)
    requires g.Valid() && forall v :: v in order <==> v in g.vertices
    modifies g
    ensures g.Valid()
    ensures Purged(old(g.vertices), old(g.edges), PurgeEquals(old(g.vertices), order, kind, value), removed, g.vertices, g.edges)
  {
    var roots := PurgeEquals(g.vertices, order, kind, value);
    removed := RemoveIns(g, roots);
  }

  /** diceNotEquals(kind, value): purges the `kind` vertices with that value and what depends on them. */
  method DiceNotEquals(g: PropertyGraph, order: seq<VId>, kind: string, value: string) returns (ghost removed: seq<VId>)
    requires g.Valid() && forall v :: v in order <==> v in g.vertices
    modifies g
    ensures g.Valid()
    ensures Purged(old(g.vertices), old(g.edges), PurgeNotEquals(old(g.vertices), order, kind, value), removed, g.vertices, g.edges)
  {
    var roots := PurgeNotEquals(g.vertices, order, kind, value);
    removed := RemoveIns(g, roots);
  }

  /** After diceEquals every `kind` vertex left has the chosen value. */
  lemma DiceEqualsKeeps(vs0: map<VId, Vertex>, es0: seq<Edge>, order: seq<VId>, kind: string, value: string,
                        removed: seq<VId>, vs: map<VId, Vertex>, es: seq<Edge>, v: VId)
    requires forall x :: x in order <==> x in vs0
    requires Purged(vs0, es0, PurgeEquals(vs0, order, kind, value), removed, vs, es)
    requires HasKind(vs, v, kind)
    ensures vs[v].value == value
  {
    var roots := PurgeEquals(vs0, order, kind, value);
    if vs[v].value != value {
      assert v in roots && Chain(es0, roots, [v]);
    }
  }

  /** After diceNotEquals no `kind` vertex left has the excluded value. */
  lemma DiceNotEqualsKeeps(vs0: map<VId, Vertex>, es0: seq<Edge>, order: seq<VId>, kind: string, value: string,
                           removed: seq<VId>, vs: map<VId, Vertex>, es: seq<Edge>, v: VId)
    requires forall x :: x in order <==> x in vs0
    requires Purged(vs0, es0, PurgeNotEquals(vs0, order, kind, value), removed, vs, es)
    requires HasKind(vs, v, kind)
    ensures vs[v].value != value
  {
    var roots := PurgeNotEquals(vs0, order, kind, value);
    if vs[v].value == value {
      assert v in roots && Chain(es0, roots, [v]);
    }
  }

  /** What is left after a purge has no edge into a removed vertex: every fact kept is whole. */
  lemma PurgedClosed(vs0: map<VId, Vertex>, es0: seq<Edge>, roots: seq<VId>, removed: seq<VId>,
                     vs: map<VId, Vertex>, es: seq<Edge>, i: nat)
    requires Wellformed(vs0, es0) && Purged(vs0, es0, roots, removed, vs, es)
    requires i < |es0| && es0[i].src in vs
    ensures es0[i].dst in vs && es0[i] in es
  {
    ClosureBackStep(es0, roots, i);
  }

  /** The source of an edge into the in-closure is in the in-closure. */
  lemma ClosureBackStep(es: seq<Edge>, roots: seq<VId>, i: nat)
    requires i < |es|
    ensures InClosure(es, roots, es[i].dst) ==> InClosure(es, roots, es[i].src)
  {
    if InClosure(es, roots, es[i].dst) {
      var p :| Chain(es, roots, p) && p[0] == es[i].dst;
      var q := [es[i].src] + p;
      assert q[1..] == p;
      assert Linked(es, q[0], q[1]);
      assert Chain(es, roots, q);
    }
  }
}
