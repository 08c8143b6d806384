/**
 * climb(bottom, top): every vertex of kind `bottom` is replaced by its
 * ancestor of kind `top`. The search follows extendsFrom edges one hop at a
 * time from all bottom vertices together and stops at the first hop count at
 * which some walk reaches a top vertex. Every walk of that length that ends
 * at a top vertex is then rewritten: the in-edges of its first vertex are
 * redirected to its last vertex, and the walk's non-final vertices that are
 * left without in-edges are removed.
 *
 * The hierarchy is acyclic in every graph the loader builds; the model takes
 * that as a ghost `rank` that extendsFrom edges strictly increase, which is
 * what makes the search terminate.
 */
module Climb {
  import opened Wrappers
  import opened Graph

  datatype ClimbError = TopNotFound(bottom: string, top: string)

  /** extendsFrom edges strictly increase `rank`. */
  ghost predicate Ranked(vs: map<VId, Vertex>, es: seq<Edge>, rank: map<VId, nat>)
  {
    vs.Keys <= rank.Keys &&
    forall i :: 0 <= i < |es| && es[i].rel == ExtendsFrom ==>
      es[i].src in rank && es[i].dst in rank && rank[es[i].src] < rank[es[i].dst]
  }

  /** The largest rank of a set of vertices. */
  ghost function MaxRank(keys: set<VId>, rank: map<VId, nat>): (r: nat)
    requires keys <= rank.Keys
    ensures forall v :: v in keys ==> rank[v] <= r
    decreases keys
  {
    if keys == {} then 0
    else
      var v :| v in keys;
      var m := MaxRank(keys - {v}, rank);
      if rank[v] < m then m else rank[v]
  }

  /** The walks of zero hops: one per bottom vertex. */
  function Starts(vs: map<VId, Vertex>, bottom: string): (r: set<seq<VId>>)
    ensures forall p :: p in r <==> |p| == 1 && HasKind(vs, p[0], bottom)
  {
    var r := set v | v in vs && vs[v].kind == bottom :: [v];
    assert forall p :: |p| == 1 && HasKind(vs, p[0], bottom) ==> p == [p[0]];
    r
  }

  /** One more extendsFrom hop: the traversal step out("extendsFrom") with its path. */
  function Advance(es: seq<Edge>, frontier: set<seq<VId>>): set<seq<VId>>
  {
    set p, i | p in frontier && |p| > 0 && 0 <= i < |es| && es[i].rel == ExtendsFrom && es[i].src == p[|p| - 1]
      :: p + [es[i].dst]
  }

  /** Whether some walk of the frontier ends at a vertex of kind `top`. */
  predicate TopReached(vs: map<VId, Vertex>, frontier: set<seq<VId>>, top: string)
  {
    exists p :: p in frontier && |p| > 0 && HasKind(vs, p[|p| - 1], top)
  }

  /** The walks of the frontier that end at a vertex of kind `top`. */
  function TopWalks(vs: map<VId, Vertex>, frontier: set<seq<VId>>, top: string): (r: set<seq<VId>>)
    ensures forall p :: p in r <==> p in frontier && |p| > 0 && HasKind(vs, p[|p| - 1], top)
  {
    set p | p in frontier && |p| > 0 && HasKind(vs, p[|p| - 1], top)
  }

  /** The walks of `k` hops the traversal holds after `k` out("extendsFrom") steps. */
  ghost function Walks(vs: map<VId, Vertex>, es: seq<Edge>, bottom: string, k: nat): set<seq<VId>>
  {
    if k == 0 then Starts(vs, bottom) else Advance(es, Walks(vs, es, bottom, k - 1))
  }

  /** A chain of extendsFrom edges that starts at a bottom vertex. */
  ghost predicate ClimbWalk(vs: map<VId, Vertex>, es: seq<Edge>, bottom: string, p: seq<VId>)
  {
    |p| > 0 && HasKind(vs, p[0], bottom) &&
    (forall i :: 0 <= i < |p| ==> p[i] in vs) &&
    forall i :: 0 <= i < |p| - 1 ==> Edge(p[i], ExtendsFrom, p[i + 1]) in es
  }

  /** Every walk the traversal holds after `k` hops is a climb walk of `k` hops. */
  lemma {:induction false} WalksAreClimbWalks(vs: map<VId, Vertex>, es: seq<Edge>, bottom: string, k: nat, p: seq<VId>)
    requires Wellformed(vs, es) && p in Walks(vs, es, bottom, k)
    ensures |p| == k + 1 && ClimbWalk(vs, es, bottom, p)
  {
    if k > 0 {
      var w := Walks(vs, es, bottom, k - 1);
      var q, i :| q in w && |q| > 0 && 0 <= i < |es| && es[i].rel == ExtendsFrom && es[i].src == q[|q| - 1]
        && p == q + [es[i].dst];
      WalksAreClimbWalks(vs, es, bottom, k - 1, q);
      ExtendClimbWalk(vs, es, bottom, q, i);
    }
  }

  /** A climb walk followed by one more extendsFrom edge is a climb walk. */
  lemma ExtendClimbWalk(vs: map<VId, Vertex>, es: seq<Edge>, bottom: string, q: seq<VId>, i: nat)
    requires Wellformed(vs, es) && ClimbWalk(vs, es, bottom, q)
    requires i < |es| && es[i].rel == ExtendsFrom && es[i].src == q[|q| - 1]
    ensures ClimbWalk(vs, es, bottom, q + [es[i].dst])
  {
    var p := q + [es[i].dst];
    assert es[i] == Edge(p[|q| - 1], ExtendsFrom, p[|q|]);
    assert es[i].dst in vs;
    forall j | 0 <= j < |p| - 1 ensures Edge(p[j], ExtendsFrom, p[j + 1]) in es {
      if j < |q| - 1 {
        assert p[j] == q[j] && p[j + 1] == q[j + 1];
      }
    }
  }

  /** Every climb walk of `k` hops is held by the traversal after `k` hops. */
  lemma {:induction false} ClimbWalksAreWalks(vs: map<VId, Vertex>, es: seq<Edge>, bottom: string, k: nat, p: seq<VId>)
    requires |p| == k + 1 && ClimbWalk(vs, es, bottom, p)
    ensures p in Walks(vs, es, bottom, k)
  {
    if k > 0 {
      var q := p[..k];
      assert ClimbWalk(vs, es, bottom, q);
      ClimbWalksAreWalks(vs, es, bottom, k - 1, q);
      var w := Walks(vs, es, bottom, k - 1);
      assert Edge(p[k - 1], ExtendsFrom, p[k]) in es;
      var i :| 0 <= i < |es| && es[i] == Edge(p[k - 1], ExtendsFrom, p[k]);
      assert p == q + [es[i].dst];
      assert p in Advance(es, w);
    }
  }

  /** Along a climb walk the rank grows by at least one per hop. */
  lemma {:induction false} WalkRankBound(vs: map<VId, Vertex>, es: seq<Edge>, bottom: string,
                                         rank: map<VId, nat>, p: seq<VId>)
    requires Ranked(vs, es, rank) && ClimbWalk(vs, es, bottom, p)
    ensures rank[p[0]] + |p| - 1 <= rank[p[|p| - 1]]
  {
    if |p| > 1 {
      var q := p[..|p| - 1];
      assert ClimbWalk(vs, es, bottom, q);
      WalkRankBound(vs, es, bottom, rank, q);
      var e := Edge(p[|p| - 2], ExtendsFrom, p[|p| - 1]);
      assert e in es;
      var i :| 0 <= i < |es| && es[i] == e;
    }
  }

  /** A nonempty frontier after `k` hops means the hierarchy is at least `k` high. */
  lemma WalksBounded(vs: map<VId, Vertex>, es: seq<Edge>, bottom: string, rank: map<VId, nat>, k: nat)
    requires Wellformed(vs, es) && Ranked(vs, es, rank)
    requires Walks(vs, es, bottom, k) != {}
    ensures k <= MaxRank(vs.Keys, rank)
  {
    var p :| p in Walks(vs, es, bottom, k);
    WalksAreClimbWalks(vs, es, bottom, k, p);
    WalkRankBound(vs, es, bottom, rank, p);
    assert p[|p| - 1] in vs;
  }

  /** Whether a top vertex is reached after `k` hops. */
  ghost predicate ReachedAt(vs: map<VId, Vertex>, es: seq<Edge>, bottom: string, top: string, k: nat)
  {
    TopReached(vs, Walks(vs, es, bottom, k), top)
  }

  /** Whether no walk is left after `k` hops. */
  ghost predicate EmptyAt(vs: map<VId, Vertex>, es: seq<Edge>, bottom: string, k: nat)
  {
    Walks(vs, es, bottom, k) == {}
  }

  /** The search's tests as functions of the hop count. */
  ghost function ReachTest(vs: map<VId, Vertex>, es: seq<Edge>, bottom: string, top: string): nat -> bool
  {
    (k: nat) => ReachedAt(vs, es, bottom, top, k)
  }

  ghost function EmptyTest(vs: map<VId, Vertex>, es: seq<Edge>, bottom: string): nat -> bool
  {
    (k: nat) => EmptyAt(vs, es, bottom, k)
  }

  /**
   * The search loop of climb, from hop count `k` on, over any pair of tests:
   * Some(n) for the first n at which `reached` holds, None when `empty`
   * holds of the next hop count first. `bound` bounds the nonempty hops.
   */
  ghost function FirstFrom(reached: nat -> bool, empty: nat -> bool, bound: nat, k: nat): Option<nat>
    requires forall i: nat :: !empty(i) ==> i <= bound
    decreases bound + 1 - k
  {
    if reached(k) then Some(k)
    else if empty(k + 1) then None
    else FirstFrom(reached, empty, bound, k + 1)
  }

  lemma {:induction false} FirstFromSome(reached: nat -> bool, empty: nat -> bool, bound: nat, j: nat, n: nat)
    requires forall i: nat :: !empty(i) ==> i <= bound
    requires FirstFrom(reached, empty, bound, j) == Some(n)
    ensures j <= n && reached(n)
    ensures forall i :: j <= i < n ==> !reached(i)
    decreases bound + 1 - j
  {
    if !reached(j) {
      FirstFromSome(reached, empty, bound, j + 1, n);
    }
  }

  lemma {:induction false} FirstFromNone(reached: nat -> bool, empty: nat -> bool, bound: nat, j: nat)
    returns (m: nat)
    requires forall i: nat :: !empty(i) ==> i <= bound
    requires FirstFrom(reached, empty, bound, j) == None
    ensures j <= m && empty(m + 1)
    ensures forall i :: j <= i <= m ==> !reached(i)
    decreases bound + 1 - j
  {
    if empty(j + 1) {
      m := j;
    } else {
      m := FirstFromNone(reached, empty, bound, j + 1);
    }
  }

  lemma AllWalksBounded(vs: map<VId, Vertex>, es: seq<Edge>, bottom: string, rank: map<VId, nat>)
    requires Wellformed(vs, es) && Ranked(vs, es, rank)
    ensures forall i: nat :: !EmptyTest(vs, es, bottom)(i) ==> i <= MaxRank(vs.Keys, rank)
  {
    forall i: nat | !EmptyAt(vs, es, bottom, i) ensures i <= MaxRank(vs.Keys, rank) {
      WalksBounded(vs, es, bottom, rank, i);
    }
  }

  /** The hop count at which climb's search loop stops, None for its exception. */
  ghost function Level(vs: map<VId, Vertex>, es: seq<Edge>, bottom: string, top: string,
                       rank: map<VId, nat>): Option<nat>
    requires Wellformed(vs, es) && Ranked(vs, es, rank)
  {
    AllWalksBounded(vs, es, bottom, rank);
    FirstFrom(ReachTest(vs, es, bottom, top), EmptyTest(vs, es, bottom), MaxRank(vs.Keys, rank), 0)
  }

  /** When the search stops after `n` hops, some bottom vertex has a top ancestor `n` hops up. */
  lemma LevelReachesTop(vs: map<VId, Vertex>, es: seq<Edge>, bottom: string, top: string,
                        rank: map<VId, nat>, n: nat)
    requires Wellformed(vs, es) && Ranked(vs, es, rank)
    requires Level(vs, es, bottom, top, rank) == Some(n)
    ensures exists p :: |p| == n + 1 && ClimbWalk(vs, es, bottom, p) && HasKind(vs, p[n], top)
  {
    var reach := ReachTest(vs, es, bottom, top);
    AllWalksBounded(vs, es, bottom, rank);
    FirstFromSome(reach, EmptyTest(vs, es, bottom), MaxRank(vs.Keys, rank), 0, n);
    assert reach(n);
    var p :| p in Walks(vs, es, bottom, n) && |p| > 0 && HasKind(vs, p[|p| - 1], top);
    WalksAreClimbWalks(vs, es, bottom, n, p);
  }

  /** When the search stops after `n` hops, no bottom vertex has a top ancestor fewer hops up. */
  lemma LevelIsFirst(vs: map<VId, Vertex>, es: seq<Edge>, bottom: string, top: string,
                     rank: map<VId, nat>, n: nat)
    requires Wellformed(vs, es) && Ranked(vs, es, rank)
    requires Level(vs, es, bottom, top, rank) == Some(n)
    ensures forall p :: ClimbWalk(vs, es, bottom, p) && |p| <= n ==> !HasKind(vs, p[|p| - 1], top)
  {
    var reach := ReachTest(vs, es, bottom, top);
    AllWalksBounded(vs, es, bottom, rank);
    FirstFromSome(reach, EmptyTest(vs, es, bottom), MaxRank(vs.Keys, rank), 0, n);
    forall q | ClimbWalk(vs, es, bottom, q) && |q| <= n ensures !HasKind(vs, q[|q| - 1], top) {
      assert !reach(|q| - 1);
      PrefixNotTop(vs, es, bottom, top, q, |q| - 1);
    }
  }

  /** When the search fails, no bottom vertex has a top ancestor. */
  lemma LevelNoneMeaning(vs: map<VId, Vertex>, es: seq<Edge>, bottom: string, top: string, rank: map<VId, nat>)
    requires Wellformed(vs, es) && Ranked(vs, es, rank)
    requires Level(vs, es, bottom, top, rank).None?
    ensures forall p :: ClimbWalk(vs, es, bottom, p) ==> !HasKind(vs, p[|p| - 1], top)
  {
    var reach := ReachTest(vs, es, bottom, top);
    AllWalksBounded(vs, es, bottom, rank);
    var m := FirstFromNone(reach, EmptyTest(vs, es, bottom), MaxRank(vs.Keys, rank), 0);
    assert EmptyAt(vs, es, bottom, m + 1);
    forall i | 0 <= i <= m ensures !ReachedAt(vs, es, bottom, top, i) {
      assert !reach(i);
    }
    forall q | ClimbWalk(vs, es, bottom, q) ensures !HasKind(vs, q[|q| - 1], top) {
      ExhaustedNotTop(vs, es, bottom, top, m, q);
    }
  }

  /** Once the walks run out after `m + 1` hops, with no top reached before, no climb walk ends at a top. */
  lemma ExhaustedNotTop(vs: map<VId, Vertex>, es: seq<Edge>, bottom: string, top: string, m: nat, q: seq<VId>)
    requires EmptyAt(vs, es, bottom, m + 1) && ClimbWalk(vs, es, bottom, q)
    requires forall i :: 0 <= i <= m ==> !ReachedAt(vs, es, bottom, top, i)
    ensures !HasKind(vs, q[|q| - 1], top)
  {
    if |q| <= m + 1 {
      PrefixNotTop(vs, es, bottom, top, q, |q| - 1);
    } else {
      var q' := q[..m + 2];
      assert ClimbWalk(vs, es, bottom, q');
      ClimbWalksAreWalks(vs, es, bottom, m + 1, q');
    }
  }

  /**
   * The search stops at the smallest hop count at which a bottom vertex
   * reaches a top vertex, and fails exactly when no bottom vertex has a top
   * ancestor.
   */
  lemma LevelMeaning(vs: map<VId, Vertex>, es: seq<Edge>, bottom: string, top: string, rank: map<VId, nat>)
    requires Wellformed(vs, es) && Ranked(vs, es, rank)
    ensures Level(vs, es, bottom, top, rank).None? <==>
      forall p :: ClimbWalk(vs, es, bottom, p) ==> !HasKind(vs, p[|p| - 1], top)
  {
    var lv := Level(vs, es, bottom, top, rank);
    if lv.Some? {
      LevelReachesTop(vs, es, bottom, top, rank, lv.value);
    } else {
      LevelNoneMeaning(vs, es, bottom, top, rank);
    }
  }

  /** On a rewritten walk only the last vertex is of kind `top`. */
  lemma InteriorNotTop(vs: map<VId, Vertex>, es: seq<Edge>, bottom: string, top: string,
                       rank: map<VId, nat>, n: nat, p: seq<VId>)
    requires Wellformed(vs, es) && Ranked(vs, es, rank)
    requires Level(vs, es, bottom, top, rank) == Some(n) && p in Walks(vs, es, bottom, n)
    ensures forall i :: 0 <= i < |p| - 1 ==> !HasKind(vs, p[i], top)
  {
    var reach := ReachTest(vs, es, bottom, top);
    AllWalksBounded(vs, es, bottom, rank);
    FirstFromSome(reach, EmptyTest(vs, es, bottom), MaxRank(vs.Keys, rank), 0, n);
    WalksAreClimbWalks(vs, es, bottom, n, p);
    forall i | 0 <= i < |p| - 1 ensures !HasKind(vs, p[i], top) {
      assert !reach(i);
      PrefixNotTop(vs, es, bottom, top, p, i);
    }
  }

  /** A vertex `i` hops up a climb walk is not of kind `top` if no top vertex is reached after `i` hops. */
  lemma PrefixNotTop(vs: map<VId, Vertex>, es: seq<Edge>, bottom: string, top: string, p: seq<VId>, i: nat)
    requires ClimbWalk(vs, es, bottom, p) && i < |p|
    requires !ReachedAt(vs, es, bottom, top, i)
    ensures !HasKind(vs, p[i], top)
  {
    var q := p[..i + 1];
    assert ClimbWalk(vs, es, bottom, q);
    ClimbWalksAreWalks(vs, es, bottom, i, q);
    assert q[|q| - 1] == p[i];
  }

  // ---------------------------------------------------------------------
  // The rewrite of one walk, as a function of the graph state.

  function Retarget(e: Edge, t: VId): Edge
  {
    e.(dst := t)
  }

  function RetargetAll(ins: seq<Edge>, t: VId): (r: seq<Edge>)
    ensures |r| == |ins|
    ensures forall i :: 0 <= i < |r| ==> r[i] == Retarget(ins[i], t)
  {
    if ins == [] then [] else RetargetAll(ins[..|ins| - 1], t) + [Retarget(ins[|ins| - 1], t)]
  }

  /** Each edge of `ins`, in order: add (src, rel, t), then remove the edge itself. */
  ghost function Redirect(es: seq<Edge>, ins: seq<Edge>, t: VId): seq<Edge>
  {
    if ins == [] then es else RedirectStep(Redirect(es, ins[..|ins| - 1], t), ins[|ins| - 1], t)
  }

  /** x.outVertex().addEdge(x.label(), t) followed by x.remove(). */
  ghost function RedirectStep(es: seq<Edge>, x: Edge, t: VId): seq<Edge>
  {
    RemoveFirst(es + [Retarget(x, t)], x)
  }

  /** Each edge of `ins` is replaced by one edge into `t` with the same source and label. */
  lemma {:induction false} RedirectMultiset(es: seq<Edge>, ins: seq<Edge>, t: VId)
    requires multiset(ins) <= multiset(es)
    ensures multiset(Redirect(es, ins, t)) == multiset(es) - multiset(ins) + multiset(RetargetAll(ins, t))
    ensures |Redirect(es, ins, t)| == |es|
  {
    if ins != [] {
      var a, x := ins[..|ins| - 1], ins[|ins| - 1];
      assert ins == a + [x];
      RedirectMultiset(es, a, t);
      var mid := Redirect(es, a, t);
      assert x in multiset(es) - multiset(a);
      RedirectStepMultiset(mid, x, t);
      assert RetargetAll(ins, t) == RetargetAll(a, t) + [Retarget(x, t)];
      SwapOne(multiset(es), multiset(a), multiset(RetargetAll(a, t)), x, Retarget(x, t));
    }
  }

  /** Taking out one more `x` and putting in one more `y`, in either order. */
  lemma SwapOne(e: multiset<Edge>, a: multiset<Edge>, r: multiset<Edge>, x: Edge, y: Edge)
    requires a + multiset{x} <= e
    ensures (e - a + r) - multiset{x} + multiset{y} == e - (a + multiset{x}) + (r + multiset{y})
  {
  }

  /** One step of the redirect swaps one copy of `x` for its twin into `t`. */
  lemma RedirectStepMultiset(es: seq<Edge>, x: Edge, t: VId)
    requires x in multiset(es)
    ensures multiset(RedirectStep(es, x, t)) == multiset(es) - multiset{x} + multiset{Retarget(x, t)}
    ensures |RedirectStep(es, x, t)| == |es|
  {
    assert x in es + [Retarget(x, t)];
  }

  /** Once redirected elsewhere, the first vertex of a walk has no in-edges left. */
  lemma RedirectClearsIn(es: seq<Edge>, s: VId, t: VId)
    requires s != t
    ensures !HasIn(Redirect(es, InEdges(es, s), t), s)
  {
    var ins := InEdges(es, s);
    InEdgesSubset(es, s);
    RedirectMultiset(es, ins, t);
    var r := Redirect(es, ins, t);
    forall i | 0 <= i < |r| ensures r[i].dst != s {
      var e := r[i];
      assert e in multiset(r);
      if e.dst == s {
        InEdgesCount(es, s, e);
      }
    }
  }

  /**
   * The pruning loop over the walk's non-final vertices, in order: a vertex
   * still present and without in-edges is removed with its edges.
   */
  ghost function Prune(st: GraphState, q: seq<VId>): GraphState
  {
    if q == [] then st else PruneStep(Prune(st, q[..|q| - 1]), q[|q| - 1])
  }

  ghost function PruneStep(s: GraphState, v: VId): GraphState
  {
    if v in s.vertices && !HasIn(s.edges, v) then GraphState(s.vertices - {v}, Detach(s.edges, v)) else s
  }

  /** Pruning only removes vertices of `q`, and only removes edges. */
  lemma {:induction false} PruneShrinks(st: GraphState, q: seq<VId>)
    ensures Prune(st, q).vertices.Keys <= st.vertices.Keys
    ensures forall v :: v in Prune(st, q).vertices ==> Prune(st, q).vertices[v] == st.vertices[v]
    ensures forall v :: v in st.vertices && v !in q ==> v in Prune(st, q).vertices
    ensures multiset(Prune(st, q).edges) <= multiset(st.edges)
  {
    if q != [] {
      PruneShrinks(st, q[..|q| - 1]);
    }
  }

  /** A first vertex that has no in-edges when pruning starts does not survive it. */
  lemma {:induction false} PruneRemovesFirst(st: GraphState, q: seq<VId>)
    requires |q| > 0 && !HasIn(st.edges, q[0])
    ensures q[0] !in Prune(st, q).vertices
  {
    if |q| > 1 {
      PruneRemovesFirst(st, q[..|q| - 1]);
    } else {
      assert q[..0] == [];
    }
  }

  ghost function RewritePath(st: GraphState, p: seq<VId>): GraphState
    requires |p| > 0
  {
    var redirected := GraphState(st.vertices, Redirect(st.edges, InEdges(st.edges, p[0]), p[|p| - 1]));
    Prune(redirected, p[..|p| - 1])
  }

  ghost function RewriteAll(st: GraphState, order: seq<seq<VId>>): GraphState
    requires forall j :: 0 <= j < |order| ==> |order[j]| > 0
  {
    if order == [] then st else RewritePath(RewriteAll(st, order[..|order| - 1]), order[|order| - 1])
  }

  /** Dropping vertices and edges keeps the hierarchy ranked. */
  lemma RankedSubgraph(vs: map<VId, Vertex>, es: seq<Edge>, vs': map<VId, Vertex>, es': seq<Edge>, rank: map<VId, nat>)
    requires Ranked(vs, es, rank) && vs'.Keys <= vs.Keys && multiset(es') <= multiset(es)
    ensures Ranked(vs', es', rank)
  {
    forall i | 0 <= i < |es'| && es'[i].rel == ExtendsFrom
      ensures es'[i].src in rank && es'[i].dst in rank && rank[es'[i].src] < rank[es'[i].dst]
    {
      assert es'[i] in multiset(es');
      assert es'[i] in multiset(es);
      var k :| 0 <= k < |es| && es[k] == es'[i];
    }
  }

  /** Redirecting the in-edges of `s` to a vertex of no lower rank keeps the hierarchy ranked. */
  lemma RedirectRanked(vs: map<VId, Vertex>, es: seq<Edge>, s: VId, t: VId, rank: map<VId, nat>)
    requires Ranked(vs, es, rank) && s in rank && t in rank && rank[s] <= rank[t]
    ensures Ranked(vs, Redirect(es, InEdges(es, s), t), rank)
  {
    var red := Redirect(es, InEdges(es, s), t);
    forall i | 0 <= i < |red| && red[i].rel == ExtendsFrom
      ensures red[i].src in rank && red[i].dst in rank && rank[red[i].src] < rank[red[i].dst]
    {
      var k := RedirectedFrom(es, s, t, red[i]);
    }
  }

  /** An edge left by the redirect is an old edge, or the twin into `t` of an old in-edge of `s`. */
  lemma RedirectedFrom(es: seq<Edge>, s: VId, t: VId, e: Edge) returns (k: nat)
    requires e in Redirect(es, InEdges(es, s), t)
    ensures k < |es|
    ensures es[k] == e || (es[k] == Edge(e.src, e.rel, s) && e.dst == t)
  {
    var ins := InEdges(es, s);
    InEdgesSubset(es, s);
    RedirectMultiset(es, ins, t);
    var red := Redirect(es, ins, t);
    assert e in multiset(red);
    if e in multiset(es) {
      k :| 0 <= k < |es| && es[k] == e;
    } else {
      var rs := RetargetAll(ins, t);
      assert e in rs;
      var j :| 0 <= j < |rs| && rs[j] == e;
      assert ins[j] in ins;
      k :| 0 <= k < |es| && es[k] == ins[j];
    }
  }

  /** What rewriting one walk does to the graph. */
  lemma RewritePathFacts(st: GraphState, p: seq<VId>, rank: map<VId, nat>)
    requires |p| > 0 && Ranked(st.vertices, st.edges, rank)
    requires p[0] in rank && p[|p| - 1] in rank && rank[p[0]] <= rank[p[|p| - 1]]
    ensures Ranked(RewritePath(st, p).vertices, RewritePath(st, p).edges, rank)
    ensures RewritePath(st, p).vertices.Keys <= st.vertices.Keys
    ensures forall v :: v in RewritePath(st, p).vertices ==> RewritePath(st, p).vertices[v] == st.vertices[v]
    ensures forall v :: v in st.vertices && v !in p[..|p| - 1] ==> v in RewritePath(st, p).vertices
    ensures p[0] != p[|p| - 1] ==> p[0] !in RewritePath(st, p).vertices
  {
    var s, t := p[0], p[|p| - 1];
    var mid := GraphState(st.vertices, Redirect(st.edges, InEdges(st.edges, s), t));
    RedirectRanked(st.vertices, st.edges, s, t, rank);
    PruneShrinks(mid, p[..|p| - 1]);
    var res := Prune(mid, p[..|p| - 1]);
    RankedSubgraph(mid.vertices, mid.edges, res.vertices, res.edges, rank);
    if s != t {
      RedirectClearsIn(st.edges, s, t);
      PruneRemovesFirst(mid, p[..|p| - 1]);
    }
  }

  /** Rewriting a walk of zero hops leaves the vertices and the multiset of edges as they were. */
  lemma RewriteSingleton(st: GraphState, v: VId)
    ensures RewritePath(st, [v]).vertices == st.vertices
    ensures multiset(RewritePath(st, [v]).edges) == multiset(st.edges)
  {
    var ins := InEdges(st.edges, v);
    InEdgesSubset(st.edges, v);
    RedirectMultiset(st.edges, ins, v);
    RetargetSame(ins, v);
    var mid := GraphState(st.vertices, Redirect(st.edges, ins, v));
    PruneNothing(mid, [v]);
  }

  /** Retargeting edges to the vertex they already enter changes nothing. */
  lemma RetargetSame(ins: seq<Edge>, v: VId)
    requires forall e :: e in ins ==> e.dst == v
    ensures RetargetAll(ins, v) == ins
  {
  }

  lemma PruneNothing(st: GraphState, p: seq<VId>)
    requires |p| == 1
    ensures Prune(st, p[..|p| - 1]) == st
  {
    assert p[..0] == [];
  }

  /** One step of the redirect: adds the twin of `x` into `t`, then removes `x`. */
  method MoveEdge(g: PropertyGraph, x: Edge, t: VId)
    requires g.Valid() && x.src in g.vertices && t in g.vertices
    modifies g
    ensures g.Valid() && g.vertices == old(g.vertices)
    ensures g.edges == RedirectStep(old(g.edges), x, t)
  {
    g.AddEdge(x.src, x.rel, t);
    g.RemoveEdge(x);
  }

  /** Moves every in-edge of `s` to `t`: each (r, s) gets a twin (r, t) and is then removed. */
  method RedirectIns(g: PropertyGraph, s: VId, t: VId)
    requires g.Valid() && t in g.vertices
    modifies g
    ensures g.Valid() && g.vertices == old(g.vertices)
    ensures g.edges == Redirect(old(g.edges), InEdges(old(g.edges), s), t)
  {
    var ins := InEdges(g.edges, s);
    ghost var es0 := g.edges;
    var j := 0;
    while j < |ins|
      invariant 0 <= j <= |ins|
      invariant g.Valid() && g.vertices == old(g.vertices)
      invariant g.edges == Redirect(es0, ins[..j], t)
    {
      var x := ins[j];
      assert ins[..j + 1][..j] == ins[..j];
      assert x in es0;
      MoveEdge(g, x, t);
      j := j + 1;
    }
    assert ins[..j] == ins;
  }

  /** Removes, in order, each vertex of `q` that is still present and has no in-edges. */
  method PruneWalk(g: PropertyGraph, q: seq<VId>)
    requires g.Valid()
    modifies g
    ensures g.Valid() && g.State() == Prune(old(g.State()), q)
  {
    ghost var st := g.State();
    var i := 0;
    while i < |q|
      invariant 0 <= i <= |q|
      invariant g.Valid() && g.State() == Prune(st, q[..i])
    {
      PrunePrefix(st, q, i);
      PruneVertex(g, q[i]);
      i := i + 1;
    }
    assert q[..i] == q;
  }

  lemma PrunePrefix(st: GraphState, q: seq<VId>, i: nat)
    requires i < |q|
    ensures Prune(st, q[..i + 1]) == PruneStep(Prune(st, q[..i]), q[i])
  {
    assert q[..i + 1][..i] == q[..i];
  }

  /** One step of the pruning loop: removes `v` when it is present and has no in-edges. */
  method PruneVertex(g: PropertyGraph, v: VId)
    requires g.Valid()
    modifies g
    ensures g.Valid() && g.State() == PruneStep(old(g.State()), v)
  {
    if v in g.vertices && !HasIn(g.edges, v) {
      g.RemoveVertex(v);
    }
  }

  /** Rewrites one walk p: redirect the in-edges of p[0] to its last vertex, then prune. */
  method RewriteWalk(g: PropertyGraph, p: seq<VId>)
    requires g.Valid() && |p| > 0 && p[|p| - 1] in g.vertices
    modifies g
    ensures g.Valid()
    ensures g.State() == RewritePath(old(g.State()), p)
  {
    RedirectIns(g, p[0], p[|p| - 1]);
    PruneWalk(g, p[..|p| - 1]);
  }

  /**
   * The search loop of climb: advances the walks from the bottom vertices one
   * extendsFrom hop at a time until one ends at a top vertex, and yields the
   * walks of that length that do; None when the walks run out first.
   */
  method FindTopWalks(g: PropertyGraph, bottom: string, top: string, ghost rank: map<VId, nat>)
    returns (found: Option<set<seq<VId>>>, ghost n: nat)
    requires g.Valid() && Ranked(g.vertices, g.edges, rank)
    ensures found.None? <==> Level(g.vertices, g.edges, bottom, top, rank).None?
    ensures found.Some? ==> Level(g.vertices, g.edges, bottom, top, rank) == Some(n)
    ensures found.Some? ==> found.value == TopWalks(g.vertices, Walks(g.vertices, g.edges, bottom, n), top)
  {
    var vs, es := g.vertices, g.edges;
    var frontier := Starts(vs, bottom);
    var k := 0;
    SearchStart(vs, es, bottom, top, rank);
    while !TopReached(vs, frontier, top)
      invariant frontier == Walks(vs, es, bottom, k)
      invariant Searching(vs, es, bottom, top, rank, k)
      decreases MaxRank(vs.Keys, rank) - k
    {
      var exhausted;
      frontier, exhausted := SearchHop(vs, es, bottom, top, rank, frontier, k);
      k := k + 1;
      if exhausted {
        return None, k;
      }
    }
    SearchStop(vs, es, bottom, top, rank, k);
    return Some(TopWalks(vs, frontier, top)), k;
  }

  /** One iteration of the search loop: one more hop, and whether the walks ran out. */
  method SearchHop(vs: map<VId, Vertex>, es: seq<Edge>, bottom: string, top: string, ghost rank: map<VId, nat>,
                   frontier: set<seq<VId>>, k: nat)
    returns (next: set<seq<VId>>, exhausted: bool)
    requires frontier == Walks(vs, es, bottom, k) && !TopReached(vs, frontier, top)
    requires Searching(vs, es, bottom, top, rank, k)
    ensures next == Walks(vs, es, bottom, k + 1)
    ensures exhausted <==> next == {}
    ensures exhausted ==> Level(vs, es, bottom, top, rank).None?
    ensures !exhausted ==> Searching(vs, es, bottom, top, rank, k + 1)
  {
    SearchStep(vs, es, bottom, top, rank, k);
    next := Advance(es, frontier);
    exhausted := next == {};
  }

  /** The search loop's invariant after `k` hops: the level is what the loop finds from `k` on. */
  ghost predicate Searching(vs: map<VId, Vertex>, es: seq<Edge>, bottom: string, top: string,
                            rank: map<VId, nat>, k: nat)
  {
    Wellformed(vs, es) && Ranked(vs, es, rank) && k <= MaxRank(vs.Keys, rank) &&
    (AllWalksBounded(vs, es, bottom, rank);
     Level(vs, es, bottom, top, rank) ==
       FirstFrom(ReachTest(vs, es, bottom, top), EmptyTest(vs, es, bottom), MaxRank(vs.Keys, rank), k))
  }

  lemma SearchStart(vs: map<VId, Vertex>, es: seq<Edge>, bottom: string, top: string, rank: map<VId, nat>)
    requires Wellformed(vs, es) && Ranked(vs, es, rank)
    ensures Starts(vs, bottom) == Walks(vs, es, bottom, 0)
    ensures Searching(vs, es, bottom, top, rank, 0)
  {
  }

  /** One hop with no top reached: the walks run out and the level is None, or the search goes on. */
  lemma SearchStep(vs: map<VId, Vertex>, es: seq<Edge>, bottom: string, top: string, rank: map<VId, nat>, k: nat)
    requires Searching(vs, es, bottom, top, rank, k) && !ReachedAt(vs, es, bottom, top, k)
    ensures Advance(es, Walks(vs, es, bottom, k)) == Walks(vs, es, bottom, k + 1)
    ensures EmptyAt(vs, es, bottom, k + 1) ==> Level(vs, es, bottom, top, rank).None?
    ensures !EmptyAt(vs, es, bottom, k + 1) ==> Searching(vs, es, bottom, top, rank, k + 1)
  {
    AllWalksBounded(vs, es, bottom, rank);
    var reach, empty := ReachTest(vs, es, bottom, top), EmptyTest(vs, es, bottom);
    assert !reach(k);
    if !EmptyAt(vs, es, bottom, k + 1) {
      assert !empty(k + 1);
    } else {
      assert empty(k + 1);
    }
  }

  /** A top reached after `k` hops: the level is `k`. */
  lemma SearchStop(vs: map<VId, Vertex>, es: seq<Edge>, bottom: string, top: string, rank: map<VId, nat>, k: nat)
    requires Searching(vs, es, bottom, top, rank, k) && ReachedAt(vs, es, bottom, top, k)
    ensures Level(vs, es, bottom, top, rank) == Some(k)
  {
    AllWalksBounded(vs, es, bottom, rank);
    assert ReachTest(vs, es, bottom, top)(k);
  }

  /** Whether `v` is a non-final vertex of some walk of `order`. */
  ghost predicate Interior(order: seq<seq<VId>>, v: VId)
  {
    exists j, i :: 0 <= j < |order| && 0 <= i < |order[j]| - 1 && order[j][i] == v
  }

  /** A walk the rewrite may take: it ends at the only top vertex on it, and does not descend in rank. */
  ghost predicate Rewritable(vs: map<VId, Vertex>, rank: map<VId, nat>, top: string, p: seq<VId>)
  {
    |p| > 0 && p[0] in rank && p[|p| - 1] in rank && rank[p[0]] <= rank[p[|p| - 1]] &&
    HasKind(vs, p[|p| - 1], top) &&
    forall i :: 0 <= i < |p| - 1 ==> !HasKind(vs, p[i], top)
  }

  /** Every walk climb rewrites is one it may take. */
  lemma TopWalkRewritable(vs: map<VId, Vertex>, es: seq<Edge>, bottom: string, top: string,
                          rank: map<VId, nat>, n: nat, p: seq<VId>)
    requires Wellformed(vs, es) && Ranked(vs, es, rank)
    requires Level(vs, es, bottom, top, rank) == Some(n)
    requires p in TopWalks(vs, Walks(vs, es, bottom, n), top)
    ensures Rewritable(vs, rank, top, p)
    ensures |p| == n + 1 && HasKind(vs, p[0], bottom)
  {
    InteriorNotTop(vs, es, bottom, top, rank, n, p);
    WalksAreClimbWalks(vs, es, bottom, n, p);
    WalkRankBound(vs, es, bottom, rank, p);
  }

  /**
   * Rewriting a sequence of walks keeps the hierarchy ranked, removes only
   * non-final vertices of the walks and changes no surviving vertex.
   */
  lemma {:induction false} RewriteAllShrinks(st: GraphState, order: seq<seq<VId>>, rank: map<VId, nat>, top: string)
    requires Ranked(st.vertices, st.edges, rank)
    requires forall j :: 0 <= j < |order| ==> |order[j]| > 0 && Rewritable(st.vertices, rank, top, order[j])
    ensures Ranked(RewriteAll(st, order).vertices, RewriteAll(st, order).edges, rank)
    ensures RewriteAll(st, order).vertices.Keys <= st.vertices.Keys
    ensures forall v :: v in RewriteAll(st, order).vertices ==> RewriteAll(st, order).vertices[v] == st.vertices[v]
    ensures forall v :: v in st.vertices && !Interior(order, v) ==> v in RewriteAll(st, order).vertices
  {
    if order != [] {
      var prefix, p := order[..|order| - 1], order[|order| - 1];
      RewriteAllShrinks(st, prefix, rank, top);
      var before := RewriteAll(st, prefix);
      RewritePathFacts(before, p, rank);
    }
  }

  /** Every edge left after rewriting one walk was there before, or ends at the walk's last vertex. */
  lemma RewritePathEdge(st: GraphState, p: seq<VId>, e: Edge)
    requires |p| > 0 && e in RewritePath(st, p).edges
    ensures e in st.edges || e.dst == p[|p| - 1]
  {
    var mid := GraphState(st.vertices, Redirect(st.edges, InEdges(st.edges, p[0]), p[|p| - 1]));
    PruneShrinks(mid, p[..|p| - 1]);
    assert e in multiset(Prune(mid, p[..|p| - 1]).edges);
    assert e in mid.edges;
    var k := RedirectedFrom(st.edges, p[0], p[|p| - 1], e);
  }

  /** Every edge left after the rewrite was there before, or ends at a vertex of kind `top`. */
  lemma {:induction false} RewriteAllEdges(st: GraphState, order: seq<seq<VId>>, rank: map<VId, nat>, top: string)
    requires forall j :: 0 <= j < |order| ==> |order[j]| > 0 && Rewritable(st.vertices, rank, top, order[j])
    ensures forall e :: e in RewriteAll(st, order).edges ==> e in st.edges || HasKind(st.vertices, e.dst, top)
  {
    if order != [] {
      var prefix, p := order[..|order| - 1], order[|order| - 1];
      RewriteAllEdges(st, prefix, rank, top);
      var before := RewriteAll(st, prefix);
      forall e | e in RewriteAll(st, order).edges ensures e in st.edges || HasKind(st.vertices, e.dst, top) {
        RewritePathEdge(before, p, e);
      }
    }
  }

  /** Every vertex of kind `top` survives the rewrite. */
  lemma TopsSurvive(st: GraphState, order: seq<seq<VId>>, rank: map<VId, nat>, top: string)
    requires Ranked(st.vertices, st.edges, rank)
    requires forall j :: 0 <= j < |order| ==> |order[j]| > 0 && Rewritable(st.vertices, rank, top, order[j])
    ensures forall v :: HasKind(st.vertices, v, top) ==> v in RewriteAll(st, order).vertices
  {
    RewriteAllShrinks(st, order, rank, top);
  }

  /** The first vertex of every walk of at least one hop is removed. */
  lemma {:induction false} StartsRemoved(st: GraphState, order: seq<seq<VId>>, rank: map<VId, nat>, top: string)
    requires Ranked(st.vertices, st.edges, rank)
    requires forall j :: 0 <= j < |order| ==> |order[j]| > 1 && Rewritable(st.vertices, rank, top, order[j])
    ensures forall j :: 0 <= j < |order| ==> order[j][0] !in RewriteAll(st, order).vertices
  {
    if order != [] {
      var prefix, p := order[..|order| - 1], order[|order| - 1];
      StartsRemoved(st, prefix, rank, top);
      RewriteAllShrinks(st, prefix, rank, top);
      var before := RewriteAll(st, prefix);
      RewritePathFacts(before, p, rank);
      assert Rewritable(st.vertices, rank, top, p);
      assert p[0] != p[|p| - 1];
      forall j | 0 <= j < |order| - 1 ensures order[j][0] !in RewriteAll(st, order).vertices {
        assert order[j] == prefix[j];
      }
    }
  }

  /** Rewriting walks of zero hops leaves the vertices and the multiset of edges as they were. */
  lemma {:induction false} SingletonsKeep(st: GraphState, order: seq<seq<VId>>)
    requires forall j :: 0 <= j < |order| ==> |order[j]| == 1
    ensures RewriteAll(st, order).vertices == st.vertices
    ensures multiset(RewriteAll(st, order).edges) == multiset(st.edges)
  {
    if order != [] {
      var prefix, p := order[..|order| - 1], order[|order| - 1];
      SingletonsKeep(st, prefix);
      assert p == [p[0]];
      RewriteSingleton(RewriteAll(st, prefix), p[0]);
    }
  }

  /** The rewrite loop of climb: rewrites each walk of `paths` once, in some order. */
  method RewriteWalks(g: PropertyGraph, paths: set<seq<VId>>, ghost rank: map<VId, nat>, ghost top: string, ghost n: nat)
    returns (ghost order: seq<seq<VId>>)
    requires g.Valid() && Ranked(g.vertices, g.edges, rank)
    requires forall p :: p in paths ==> |p| == n + 1 && Rewritable(g.vertices, rank, top, p)
    modifies g
    ensures g.Valid()
    ensures forall p :: p in order <==> p in paths
    ensures forall j, i :: 0 <= j < i < |order| ==> order[j] != order[i]
    ensures forall j :: 0 <= j < |order| ==> |order[j]| == n + 1 && Rewritable(old(g.vertices), rank, top, order[j])
    ensures g.State() == RewriteAll(old(g.State()), order)
  {
    ghost var st0 := g.State();
    order := [];
    var remaining := paths;
    while remaining != {}
      invariant remaining <= paths
      invariant forall p :: p in order <==> p in paths && p !in remaining
      invariant forall j, i :: 0 <= j < i < |order| ==> order[j] != order[i]
      invariant AllRewritable(st0.vertices, rank, top, n, order)
      invariant g.Valid() && g.State() == RewriteAll(st0, order)
    {
      var p :| p in remaining;
      RewriteNext(g, st0, order, p, rank, top, n);
      order := order + [p];
      remaining := remaining - {p};
    }
  }

  /** One iteration of the rewrite loop: the walks of `order` are rewritten, and now `p` is. */
  method RewriteNext(g: PropertyGraph, ghost st0: GraphState, ghost order: seq<seq<VId>>, p: seq<VId>,
                     ghost rank: map<VId, nat>, ghost top: string, ghost n: nat)
    requires Ranked(st0.vertices, st0.edges, rank) && AllRewritable(st0.vertices, rank, top, n, order)
    requires |p| == n + 1 && Rewritable(st0.vertices, rank, top, p)
    requires g.Valid() && g.State() == RewriteAll(st0, order)
    modifies g
    ensures g.Valid() && g.State() == RewriteAll(st0, order + [p])
    ensures AllRewritable(st0.vertices, rank, top, n, order + [p])
  {
    TopsSurvive(st0, order, rank, top);
    RewriteAllAppend(st0, order, p);
    AppendRewritable(st0.vertices, rank, top, n, order, p);
    RewriteWalk(g, p);
  }

  lemma RewriteAllAppend(st: GraphState, order: seq<seq<VId>>, p: seq<VId>)
    requires |p| > 0 && forall j :: 0 <= j < |order| ==> |order[j]| > 0
    ensures RewriteAll(st, order + [p]) == RewritePath(RewriteAll(st, order), p)
  {
    assert (order + [p])[..|order|] == order;
  }

  /** Every walk of `order` has `n` hops and may be rewritten. */
  ghost predicate AllRewritable(vs: map<VId, Vertex>, rank: map<VId, nat>, top: string, n: nat, order: seq<seq<VId>>)
  {
    forall j :: 0 <= j < |order| ==> |order[j]| == n + 1 && Rewritable(vs, rank, top, order[j])
  }

  lemma AppendRewritable(vs: map<VId, Vertex>, rank: map<VId, nat>, top: string, n: nat,
                         order: seq<seq<VId>>, p: seq<VId>)
    requires AllRewritable(vs, rank, top, n, order)
    requires |p| == n + 1 && Rewritable(vs, rank, top, p)
    ensures AllRewritable(vs, rank, top, n, order + [p])
  {
    forall j | 0 <= j < |order| + 1 ensures |(order + [p])[j]| == n + 1 && Rewritable(vs, rank, top, (order + [p])[j]) {
      if j < |order| {
        assert (order + [p])[j] == order[j];
      }
    }
  }

  /**
   * climb(bottom, top). `n` is the hop count the search stops at and `order`
   * the order in which the walks are rewritten (the source's stream order,
   * which the model leaves open).
   */
  method Climb(g: PropertyGraph, bottom: string, top: string, ghost rank: map<VId, nat>)
    returns (r: Outcome<ClimbError>, ghost n: nat, ghost order: seq<seq<VId>>)
    requires g.Valid() && Ranked(g.vertices, g.edges, rank)
    modifies g
    ensures g.Valid() && Ranked(g.vertices, g.edges, rank)
    // The search: the failure is the source's IllegalArgumentException.
    ensures r.Fail? <==> Level(old(g.vertices), old(g.edges), bottom, top, rank).None?
    ensures r.Fail? ==> r.error == TopNotFound(bottom, top) && g.State() == old(g.State()) && order == []
    // The rewrite: each top-ending walk of the stopping length, once.
    ensures r.Pass? ==> Level(old(g.vertices), old(g.edges), bottom, top, rank) == Some(n)
    ensures forall j :: 0 <= j < |order| ==> |order[j]| > 0
    ensures forall p ::
      p in order <==> r.Pass? && p in TopWalks(old(g.vertices), Walks(old(g.vertices), old(g.edges), bottom, n), top)
    ensures forall j, k :: 0 <= j < k < |order| ==> order[j] != order[k]
    ensures g.State() == RewriteAll(old(g.State()), order)
    // What the rewrite keeps and removes.
    ensures g.vertices.Keys <= old(g.vertices).Keys
    ensures forall v :: v in g.vertices ==> g.vertices[v] == old(g.vertices)[v]
    ensures forall v :: HasKind(old(g.vertices), v, top) ==> v in g.vertices
    ensures forall v :: v in old(g.vertices) && !Interior(order, v) ==> v in g.vertices
    ensures r.Pass? && n > 0 ==> forall j :: 0 <= j < |order| ==> order[j][0] !in g.vertices
    ensures bottom == top ==> g.vertices == old(g.vertices) && multiset(g.edges) == multiset(old(g.edges))
  {
    ghost var vs0, es0, st0 := g.vertices, g.edges, g.State();
    order := [];
    var found;
    found, n := FindTopWalks(g, bottom, top, rank);
    if found.None? {
      return Fail(TopNotFound(bottom, top)), n, order;
    }
    var paths := found.value;
    forall p | p in paths ensures |p| == n + 1 && Rewritable(vs0, rank, top, p) {
      TopWalkRewritable(vs0, es0, bottom, top, rank, n, p);
    }
    order := RewriteWalks(g, paths, rank, top, n);
    RewriteAllShrinks(st0, order, rank, top);
    TopsSurvive(st0, order, rank, top);
    if n > 0 {
      StartsRemoved(st0, order, rank, top);
    }
    if bottom == top {
      if n > 0 && order != [] {
        TopWalkRewritable(vs0, es0, bottom, top, rank, n, order[0]);
      }
      SingletonsKeep(st0, order);
    }
    r := Pass;
  }
}
