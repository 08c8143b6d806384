/**
 * Operations.minimize: merges call facts that happened at the same time
 * with the same caller and the same participants into one call whose
 * duration list holds the durations of all of them.
 */
module Minimize {

  import opened Wrappers
  import opened Graph

  predicate IsCall(vs: map<VId, Vertex>, v: VId)
  {
    HasKind(vs, v, "call")
  }

  /** Calls are the facts of the cube: no edge ends at a call, as ingestion builds them. */
  ghost predicate CallsAreSources(vs: map<VId, Vertex>, es: seq<Edge>)
  {
    forall i :: 0 <= i < |es| ==> !IsCall(vs, es[i].dst)
  }

  /** What minimize compares of an out-edge: its label and the `value` of its target. */
  datatype Key = Key(rel: EdgeLabel, target: string)

  function KeyOf(vs: map<VId, Vertex>, e: Edge): Key
  {
    Key(e.rel, Value(vs, e.dst))
  }

  /** The keys of the edges `es`, one per edge. */
  function KeyBag(vs: map<VId, Vertex>, es: seq<Edge>): (r: multiset<Key>)
    ensures |r| == |es|
  {
    if es == [] then multiset{} else KeyBag(vs, es[..|es| - 1]) + multiset{KeyOf(vs, es[|es| - 1])}
  }

  /** The key of edge `i` occurs more often in all of `es` than in the edges before it. */
  lemma PrefixCountLess(vs: map<VId, Vertex>, es: seq<Edge>, i: nat)
    requires i < |es|
    ensures KeyBag(vs, es[..i])[KeyOf(vs, es[i])] < KeyBag(vs, es)[KeyOf(vs, es[i])]
  {
    KeyBagPrefix(vs, es, i + 1);
    assert es[..i + 1][..i] == es[..i];
  }

  /** A prefix of `es` contributes a sub-multiset of its keys. */
  lemma {:induction false} KeyBagPrefix(vs: map<VId, Vertex>, es: seq<Edge>, n: nat)
    requires n <= |es|
    ensures KeyBag(vs, es[..n]) <= KeyBag(vs, es)
    decreases |es| - n
  {
    if n == |es| {
      assert es[..n] == es;
    } else {
      KeyBagPrefix(vs, es, n + 1);
      assert es[..n + 1][..n] == es[..n];
    }
  }

  /** Edges whose keys agree under `vs` and `vs'` have the same key multiset under both. */
  lemma {:induction false} KeyBagSame(vs: map<VId, Vertex>, vs': map<VId, Vertex>, es: seq<Edge>)
    requires forall i :: 0 <= i < |es| ==> KeyOf(vs, es[i]) == KeyOf(vs', es[i])
    ensures KeyBag(vs, es) == KeyBag(vs', es)
  {
    if es != [] {
      KeyBagSame(vs, vs', es[..|es| - 1]);
    }
  }

  /** The out-edges of `v` as a multiset of keys: two calls are duplicates when these agree. */
  function Sig(vs: map<VId, Vertex>, es: seq<Edge>, v: VId): multiset<Key>
  {
    KeyBag(vs, OutEdges(es, v))
  }

  /** The keys of the edges among the first `n` of `ds` whose index is not in `used`. */
  function Unused(vs: map<VId, Vertex>, ds: seq<Edge>, used: set<nat>, n: nat): multiset<Key>
    requires n <= |ds|
  {
    if n == 0 then multiset{}
    else Unused(vs, ds, used, n - 1) + (if n - 1 in used then multiset{} else multiset{KeyOf(vs, ds[n - 1])})
  }

  lemma {:induction false} UnusedNone(vs: map<VId, Vertex>, ds: seq<Edge>, n: nat)
    requires n <= |ds|
    ensures Unused(vs, ds, {}, n) == KeyBag(vs, ds[..n])
  {
    if n > 0 {
      UnusedNone(vs, ds, n - 1);
      assert ds[..n][..n - 1] == ds[..n - 1];
    }
  }

  lemma {:induction false} UnusedSame(vs: map<VId, Vertex>, ds: seq<Edge>, used: set<nat>, used': set<nat>, n: nat)
    requires n <= |ds|
    requires forall j :: 0 <= j < n ==> (j in used <==> j in used')
    ensures Unused(vs, ds, used, n) == Unused(vs, ds, used', n)
  {
    if n > 0 {
      UnusedSame(vs, ds, used, used', n - 1);
    }
  }

  /** Marking an unused edge as used takes exactly its key out of the unused keys. */
  lemma {:induction false} UnusedMark(vs: map<VId, Vertex>, ds: seq<Edge>, used: set<nat>, n: nat, j: nat)
    requires j < n <= |ds| && j !in used
    ensures Unused(vs, ds, used, n) == Unused(vs, ds, used + {j}, n) + multiset{KeyOf(vs, ds[j])}
  {
    var marked := used + {j};
    if j == n - 1 {
      UnusedMarkLast(vs, ds, used, n);
    } else {
      UnusedMark(vs, ds, used, n - 1, j);
      UnusedStep(vs, ds, used, marked, n);
      MultisetAddCommutes(Unused(vs, ds, used, n - 1), Unused(vs, ds, marked, n - 1),
        Unused(vs, ds, used, n) - Unused(vs, ds, used, n - 1), KeyOf(vs, ds[j]));
    }
  }

  lemma UnusedMarkLast(vs: map<VId, Vertex>, ds: seq<Edge>, used: set<nat>, n: nat)
    requires 0 < n <= |ds| && n - 1 !in used
    ensures Unused(vs, ds, used, n) == Unused(vs, ds, used + {n - 1}, n) + multiset{KeyOf(vs, ds[n - 1])}
  {
    UnusedSame(vs, ds, used, used + {n - 1}, n - 1);
  }

  /** Two marking sets that agree on index `n - 1` add the same keys at that step. */
  lemma UnusedStep(vs: map<VId, Vertex>, ds: seq<Edge>, used: set<nat>, used': set<nat>, n: nat)
    requires 0 < n <= |ds| && (n - 1 in used <==> n - 1 in used')
    ensures Unused(vs, ds, used, n) == Unused(vs, ds, used, n - 1) + (Unused(vs, ds, used, n) - Unused(vs, ds, used, n - 1))
    ensures Unused(vs, ds, used', n) == Unused(vs, ds, used', n - 1) + (Unused(vs, ds, used, n) - Unused(vs, ds, used, n - 1))
  {
  }

  lemma MultisetAddCommutes(a: multiset<Key>, b: multiset<Key>, t: multiset<Key>, k: Key)
    requires a == b + multiset{k}
    ensures a + t == (b + t) + multiset{k}
  {
  }

  /** A key no unused edge carries is not among the unused keys. */
  lemma {:induction false} UnusedLacks(vs: map<VId, Vertex>, ds: seq<Edge>, used: set<nat>, n: nat, k: Key)
    requires n <= |ds|
    requires forall j :: 0 <= j < n && j !in used ==> KeyOf(vs, ds[j]) != k
    ensures k !in Unused(vs, ds, used, n)
  {
    if n > 0 {
      UnusedLacks(vs, ds, used, n - 1, k);
    }
  }

  /**
   * The search for an unused out-edge of `d` matching `e`: the first edge
   * with the same label, not yet used, whose target has the same value.
   */
  method FindMatch(vs: map<VId, Vertex>, ds: seq<Edge>, used: set<nat>, e: Edge) returns (found: bool, j: nat)
    ensures found ==> j < |ds| && j !in used && KeyOf(vs, ds[j]) == KeyOf(vs, e)
    ensures !found ==> forall i :: 0 <= i < |ds| && i !in used ==> KeyOf(vs, ds[i]) != KeyOf(vs, e)
  {
    found, j := false, 0;
    var i := 0;
    while i < |ds| && !found
      invariant 0 <= i <= |ds|
      invariant found ==> j < |ds| && j !in used && KeyOf(vs, ds[j]) == KeyOf(vs, e)
      invariant !found ==> forall i' :: 0 <= i' < i && i' !in used ==> KeyOf(vs, ds[i']) != KeyOf(vs, e)
    {
      var neigh := ds[i];
      if neigh.rel == e.rel && i !in used {
        found := Value(vs, neigh.dst) == Value(vs, e.dst);
        if found {
          j := i;
        }
      }
      i := i + 1;
    }
  }

  /**
   * The matching of lines 104-126: every out-edge of `c` takes a distinct
   * unused out-edge of `d` with the same label and target value, and `d`
   * has no edge left over. It succeeds exactly when the two calls have the
   * same multiset of (label, target value) pairs.
   */
  method MatchOutEdges(vs: map<VId, Vertex>, es: seq<Edge>, c: VId, d: VId) returns (m: bool)
    ensures m <==> Sig(vs, es, c) == Sig(vs, es, d)
  {
    var cs := OutEdges(es, c);
    var ds := OutEdges(es, d);
    var used: set<nat> := {};
    var hasMatch := true;
    var i := 0;
    UnusedNone(vs, ds, |ds|);
    assert ds[..|ds|] == ds;
    while i < |cs| && hasMatch
      invariant 0 <= i <= |cs|
      invariant forall j :: j in used ==> j < |ds|
      invariant hasMatch ==> |used| == i
      invariant hasMatch ==> Unused(vs, ds, used, |ds|) + KeyBag(vs, cs[..i]) == KeyBag(vs, ds)
      invariant !hasMatch ==> Sig(vs, es, c) != Sig(vs, es, d)
    {
      hasMatch, used := MatchNext(vs, cs, ds, used, i);
      i := i + 1;
    }
    var count := |ds|;
    if hasMatch {
      assert cs[..i] == cs;
      MatchComplete(Unused(vs, ds, used, |ds|), KeyBag(vs, cs), KeyBag(vs, ds));
    }
    m := hasMatch && count == |used|;
  }

  /** Once every edge of `c` is matched, the signatures agree exactly when no edge of `d` is left over. */
  lemma MatchComplete(rest: multiset<Key>, cs: multiset<Key>, ds: multiset<Key>)
    requires rest + cs == ds
    ensures cs == ds <==> |cs| == |ds|
  {
    if |cs| == |ds| {
      assert |rest| == 0;
      assert rest == multiset{};
    }
  }

  /** Lines 106-123 for the `i`-th out-edge of `c`: it takes an unused edge of `d` with its key, or the matching fails. */
  method MatchNext(vs: map<VId, Vertex>, cs: seq<Edge>, ds: seq<Edge>, used: set<nat>, i: nat) returns (found: bool, used': set<nat>)
    requires i < |cs| && (forall j :: j in used ==> j < |ds|) && |used| == i
    requires Unused(vs, ds, used, |ds|) + KeyBag(vs, cs[..i]) == KeyBag(vs, ds)
    ensures forall j :: j in used' ==> j < |ds|
    ensures found ==> |used'| == i + 1 && Unused(vs, ds, used', |ds|) + KeyBag(vs, cs[..i + 1]) == KeyBag(vs, ds)
    ensures !found ==> KeyBag(vs, cs) != KeyBag(vs, ds)
  {
    var j;
    found, j := FindMatch(vs, ds, used, cs[i]);
    used' := used;
    if found {
      MatchedEdge(vs, cs, ds, used, i, j);
      used' := used + {j};
    } else {
      UnmatchedEdge(vs, cs, ds, used, i);
    }
  }

  /** Lines 118-120: the matched edge moves from the unused keys to the matched prefix. */
  lemma MatchedEdge(vs: map<VId, Vertex>, cs: seq<Edge>, ds: seq<Edge>, used: set<nat>, i: nat, j: nat)
    requires i < |cs| && j < |ds| && j !in used && KeyOf(vs, ds[j]) == KeyOf(vs, cs[i])
    requires Unused(vs, ds, used, |ds|) + KeyBag(vs, cs[..i]) == KeyBag(vs, ds)
    ensures Unused(vs, ds, used + {j}, |ds|) + KeyBag(vs, cs[..i + 1]) == KeyBag(vs, ds)
  {
    var k := KeyOf(vs, cs[i]);
    assert cs[..i + 1][..i] == cs[..i];
    UnusedMark(vs, ds, used, |ds|, j);
  }

  /** Lines 107-123 ending with no match: `d` has fewer edges with this key than `c`. */
  lemma UnmatchedEdge(vs: map<VId, Vertex>, cs: seq<Edge>, ds: seq<Edge>, used: set<nat>, i: nat)
    requires i < |cs|
    requires forall j :: 0 <= j < |ds| && j !in used ==> KeyOf(vs, ds[j]) != KeyOf(vs, cs[i])
    requires Unused(vs, ds, used, |ds|) + KeyBag(vs, cs[..i]) == KeyBag(vs, ds)
    ensures KeyBag(vs, cs) != KeyBag(vs, ds)
  {
    var k := KeyOf(vs, cs[i]);
    UnusedLacks(vs, ds, used, |ds|, k);
    PrefixCountLess(vs, cs, i);
    assert KeyBag(vs, ds)[k] == Unused(vs, ds, used, |ds|)[k] + KeyBag(vs, cs[..i])[k];
  }

  /** The durations of the calls `ds`, one list after the other. */
  function Flatten(vs: map<VId, Vertex>, ds: seq<VId>): (r: seq<real>)
  {
    if ds == [] then [] else Flatten(vs, ds[..|ds| - 1]) + (if ds[|ds| - 1] in vs then vs[ds[|ds| - 1]].duration else [])
  }

  lemma {:induction false} FlattenSame(vs: map<VId, Vertex>, vs': map<VId, Vertex>, ds: seq<VId>)
    requires forall d :: d in ds ==> d in vs && d in vs' && vs[d].duration == vs'[d].duration
    ensures Flatten(vs, ds) == Flatten(vs', ds)
  {
    if ds != [] {
      FlattenSame(vs, vs', ds[..|ds| - 1]);
    }
  }

  /** The calls with an edge among `ins`, in edge order. */
  function CallSources(vs: map<VId, Vertex>, ins: seq<Edge>): (r: seq<VId>)
    ensures forall d :: d in r <==> IsCall(vs, d) && exists e :: e in ins && e.src == d
  {
    if ins == [] then []
    else
      var last := ins[|ins| - 1];
      assert ins == ins[..|ins| - 1] + [last];
      CallSources(vs, ins[..|ins| - 1]) + (if IsCall(vs, last.src) then [last.src] else [])
  }

  /** For each atTime edge among `outs`, the calls with an edge into its target. */
  function CallsAtTimes(vs: map<VId, Vertex>, es: seq<Edge>, outs: seq<Edge>): (r: seq<VId>)
    ensures forall d :: d in r <==>
      IsCall(vs, d) && exists a, b :: a in outs && a.rel == AtTime && b in es && b.dst == a.dst && b.src == d
  {
    if outs == [] then []
    else
      var last := outs[|outs| - 1];
      assert outs == outs[..|outs| - 1] + [last];
      CallsAtTimes(vs, es, outs[..|outs| - 1]) + (if last.rel == AtTime then CallSources(vs, InEdges(es, last.dst)) else [])
  }

  /**
   * `c` has an atTime edge to some vertex `d` has an edge into: the calls
   * out("atTime").in() reaches from `c`.
   */
  ghost predicate ShareTime(es: seq<Edge>, c: VId, d: VId)
  {
    exists a, b :: a in es && b in es && a.src == c && a.rel == AtTime && b.src == d && b.dst == a.dst
  }

  /** `c` and `d` have atTime edges to the same vertex. */
  ghost predicate SameTime(es: seq<Edge>, c: VId, d: VId)
  {
    exists a, b :: a in es && b in es && a.src == c && a.rel == AtTime && b.src == d && b.rel == AtTime && b.dst == a.dst
  }

  /** V(c).out("atTime").in().has("type", "call"): the calls minimize compares `c` with. */
  function Candidates(vs: map<VId, Vertex>, es: seq<Edge>, c: VId): (r: seq<VId>)
    ensures forall d :: d in r <==> IsCall(vs, d) && ShareTime(es, c, d)
  {
    CallsAtTimes(vs, es, OutEdges(es, c))
  }

  lemma SameTimeShared(es: seq<Edge>, c: VId, d: VId)
    requires SameTime(es, c, d)
    ensures ShareTime(es, c, d) && ShareTime(es, d, c)
  {
    var a, b :| a in es && b in es && a.src == c && a.rel == AtTime && b.src == d && b.rel == AtTime && b.dst == a.dst;
    assert ShareTime(es, d, c) by {
      assert b in es && a in es && b.src == d && b.rel == AtTime && a.src == c && a.dst == b.dst;
    }
  }

  /** `d` is a duplicate of `c` that minimize may merge into it. */
  ghost predicate Duplicate(vs: map<VId, Vertex>, es: seq<Edge>, c: VId, d: VId)
  {
    IsCall(vs, c) && IsCall(vs, d) && c != d && ShareTime(es, c, d) && Sig(vs, es, c) == Sig(vs, es, d)
  }

  /** The signatures of the calls that remain are those of the graph before any removal. */
  lemma SigStable(vs0: map<VId, Vertex>, es0: seq<Edge>, gone: seq<VId>, vs: map<VId, Vertex>, v: VId)
    requires Wellformed(vs0, es0) && CallsAreSources(vs0, es0)
    requires forall x :: x in gone ==> IsCall(vs0, x)
    requires v !in gone
    requires forall x :: x in vs0 && x !in gone ==> x in vs && vs[x].value == vs0[x].value
    ensures OutEdges(DetachAll(es0, gone), v) == OutEdges(es0, v)
    ensures Sig(vs, DetachAll(es0, gone), v) == Sig(vs0, es0, v)
  {
    OutEdgesDetachAll(vs0, es0, gone, v);
    var outs := OutEdges(es0, v);
    forall i | 0 <= i < |outs| ensures KeyOf(vs, outs[i]) == KeyOf(vs0, outs[i]) {
      assert outs[i] in es0;
      var k :| 0 <= k < |es0| && es0[k] == outs[i];
      assert !IsCall(vs0, es0[k].dst);
    }
    KeyBagSame(vs, vs0, outs);
  }

  lemma {:induction false} OutEdgesDetachAll(vs0: map<VId, Vertex>, es0: seq<Edge>, gone: seq<VId>, v: VId)
    requires CallsAreSources(vs0, es0)
    requires forall x :: x in gone ==> IsCall(vs0, x)
    requires v !in gone
    ensures OutEdges(DetachAll(es0, gone), v) == OutEdges(es0, v)
  {
    if gone != [] {
      var init, x := gone[..|gone| - 1], gone[|gone| - 1];
      assert forall y :: y in init ==> y in gone;
      OutEdgesDetachAll(vs0, es0, init, v);
      var es := DetachAll(es0, init);
      forall i | 0 <= i < |es| && es[i].src == v ensures es[i].dst != x {
        assert es[i] in es0;
        var k :| 0 <= k < |es0| && es0[k] == es[i];
      }
      OutEdgesDetach(es, x, v);
    }
  }

  /** The vertices once `c` has absorbed the calls `absorbed`: lines 129-130 for each of them. */
  ghost function AfterAbsorb(vs: map<VId, Vertex>, c: VId, absorbed: seq<VId>): map<VId, Vertex>
  {
    map v | v in vs ::
      if v == c then vs[c].(duration := vs[c].duration + Flatten(vs, absorbed))
      else if v in absorbed then vs[v].(visited := Some(true))
      else vs[v]
  }

  /**
   * Lines 97-132: every candidate not yet visited whose out-edges match
   * those of `c` is marked visited and its durations are appended to those
   * of `c`. `c` itself is already visited, so it never absorbs itself.
   */
  method AbsorbDuplicates(g: PropertyGraph, c: VId, cands: seq<VId>) returns (ghost absorbed: seq<VId>)
    requires g.Valid() && c in g.vertices && g.vertices[c].visited == Some(true)
    requires forall d :: d in cands ==> d in g.vertices
    modifies g
    ensures g.Valid() && g.edges == old(g.edges)
    ensures g.vertices == AfterAbsorb(old(g.vertices), c, absorbed)
    ensures forall d :: d in absorbed <==>
      d in cands && old(g.vertices)[d].visited != Some(true) && Sig(old(g.vertices), g.edges, c) == Sig(old(g.vertices), g.edges, d)
    ensures forall a, b :: 0 <= a < b < |absorbed| ==> absorbed[a] != absorbed[b]
  {
    ghost var vs0 := g.vertices;
    absorbed := [];
    assert vs0[c].duration + Flatten(vs0, []) == vs0[c].duration;
    assert AfterAbsorb(vs0, c, []) == vs0;
    var k := 0;
    while k < |cands|
      invariant 0 <= k <= |cands|
      invariant g.Valid() && g.edges == old(g.edges)
      invariant g.vertices == AfterAbsorb(vs0, c, absorbed)
      invariant forall d :: d in absorbed <==>
        d in cands[..k] && vs0[d].visited != Some(true) && Sig(vs0, g.edges, c) == Sig(vs0, g.edges, d)
      invariant forall a, b :: 0 <= a < b < |absorbed| ==> absorbed[a] != absorbed[b]
    {
      var d := cands[k];
      assert cands[..k + 1] == cands[..k] + [d];
      absorbed := ConsiderCandidate(g, c, d, vs0, absorbed);
      k := k + 1;
    }
    assert cands[..k] == cands;
  }

  /** Lines 98-131 for one candidate `d`. */
  method ConsiderCandidate(g: PropertyGraph, c: VId, d: VId, ghost vs0: map<VId, Vertex>, ghost absorbed: seq<VId>)
    returns (ghost absorbed': seq<VId>)
    requires g.Valid() && c in vs0 && d in vs0 && vs0[c].visited == Some(true)
    requires g.vertices == AfterAbsorb(vs0, c, absorbed)
    requires forall a, b :: 0 <= a < b < |absorbed| ==> absorbed[a] != absorbed[b]
    modifies g
    ensures g.Valid() && g.edges == old(g.edges)
    ensures g.vertices == AfterAbsorb(vs0, c, absorbed')
    ensures forall a, b :: 0 <= a < b < |absorbed'| ==> absorbed'[a] != absorbed'[b]
    ensures forall x :: x in absorbed' <==>
      x in absorbed || (x == d && vs0[d].visited != Some(true) && Sig(vs0, g.edges, c) == Sig(vs0, g.edges, d))
  {
    absorbed' := absorbed;
    if g.vertices[d].visited != Some(true) {
      assert d != c && d !in absorbed;
      SigSameValues(vs0, g.vertices, g.edges, c);
      SigSameValues(vs0, g.vertices, g.edges, d);
      var m := MatchOutEdges(g.vertices, g.edges, c, d);
      if m {
        AbsorbStep(vs0, c, absorbed, d);
        g.SetProperties(d, g.vertices[d].duration, Some(true));
        g.SetProperties(c, g.vertices[c].duration + g.vertices[d].duration, Some(true));
        absorbed' := absorbed + [d];
      }
    }
  }

  /** One merge of lines 129-130 in terms of AfterAbsorb. */
  lemma AbsorbStep(vs0: map<VId, Vertex>, c: VId, absorbed: seq<VId>, d: VId)
    requires c in vs0 && d in vs0 && d != c && d !in absorbed && vs0[c].visited == Some(true)
    ensures
      var cur := AfterAbsorb(vs0, c, absorbed);
      var cur1 := cur[d := cur[d].(duration := cur[d].duration, visited := Some(true))];
      cur1[c := cur1[c].(duration := cur1[c].duration + cur1[d].duration, visited := Some(true))]
        == AfterAbsorb(vs0, c, absorbed + [d])
  {
    FlattenSnoc(vs0, absorbed, d);
    var cur := AfterAbsorb(vs0, c, absorbed);
    var cur1 := cur[d := cur[d].(duration := cur[d].duration, visited := Some(true))];
    var cur2 := cur1[c := cur1[c].(duration := cur1[c].duration + cur1[d].duration, visited := Some(true))];
    var next := AfterAbsorb(vs0, c, absorbed + [d]);
    assert cur2.Keys == next.Keys;
    forall v | v in next ensures cur2[v] == next[v] {
      if v == c {
        assert cur2[c].duration == vs0[c].duration + Flatten(vs0, absorbed) + vs0[d].duration;
      }
    }
  }

  lemma FlattenSnoc(vs: map<VId, Vertex>, ds: seq<VId>, d: VId)
    requires d in vs
    ensures Flatten(vs, ds + [d]) == Flatten(vs, ds) + vs[d].duration
  {
    assert (ds + [d])[..|ds|] == ds;
  }

  /** Setting properties other than `value` leaves every signature as it was. */
  lemma SigSameValues(vs: map<VId, Vertex>, vs': map<VId, Vertex>, es: seq<Edge>, v: VId)
    requires vs.Keys == vs'.Keys && forall x :: x in vs ==> vs[x].value == vs'[x].value
    ensures Sig(vs, es, v) == Sig(vs', es, v)
  {
    var outs := OutEdges(es, v);
    forall i | 0 <= i < |outs| ensures KeyOf(vs, outs[i]) == KeyOf(vs', outs[i]) {
    }
    KeyBagSame(vs, vs', outs);
  }

  predicate Distinct(ds: seq<VId>)
  {
    forall a, b :: 0 <= a < b < |ds| ==> ds[a] != ds[b]
  }

  /** What the graph must satisfy for minimize: calls are sources and none is marked visited. */
  ghost predicate Ready(vs0: map<VId, Vertex>, es0: seq<Edge>, order: seq<VId>)
  {
    Wellformed(vs0, es0) && CallsAreSources(vs0, es0) && Distinct(order)
    && (forall v :: v in order <==> IsCall(vs0, v))
    && (forall v :: IsCall(vs0, v) ==> vs0[v].visited != Some(true))
  }

  /** The vertex at `v` once the first `i` calls of `order` have been visited. */
  ghost function Expected(vs0: map<VId, Vertex>, order: seq<VId>, i: nat, owner: map<VId, VId>, merged: map<VId, seq<VId>>, v: VId): Vertex
    requires v in vs0 && i <= |order|
  {
    if !IsCall(vs0, v) then vs0[v]
    else
      vs0[v].(duration := vs0[v].duration + Flatten(vs0, if v in merged then merged[v] else []),
              visited := if v in order[..i] || v in owner then Some(true) else vs0[v].visited)
  }

  /** Exactly the absorbed calls already reached by the loop are gone. */
  ghost predicate LiveOk(vs0: map<VId, Vertex>, order: seq<VId>, i: nat, owner: map<VId, VId>, gone: seq<VId>, vs: map<VId, Vertex>)
    requires i <= |order|
  {
    (forall v :: v in vs <==> v in vs0 && v !in gone)
    && (forall v :: v in gone <==> v in owner && v in order[..i])
  }

  /** Every vertex still present holds what minimize has written to it so far. */
  ghost predicate PropsOk(vs0: map<VId, Vertex>, order: seq<VId>, i: nat, owner: map<VId, VId>, merged: map<VId, seq<VId>>, vs: map<VId, Vertex>)
    requires i <= |order|
  {
    forall v :: v in vs ==> v in vs0 && vs[v] == Expected(vs0, order, i, owner, merged, v)
  }

  /** Each absorbed call is a duplicate of the visited call whose merge list holds it. */
  ghost predicate OwnerOk(vs0: map<VId, Vertex>, es0: seq<Edge>, owner: map<VId, VId>, merged: map<VId, seq<VId>>)
  {
    forall d {:trigger owner[d]} :: d in owner ==> Duplicate(vs0, es0, owner[d], d) && owner[d] in merged && d in merged[owner[d]]
  }

  /** The merge lists belong to the visited calls that were not absorbed, and list what they absorbed once each. */
  ghost predicate MergedOk(order: seq<VId>, i: nat, owner: map<VId, VId>, merged: map<VId, seq<VId>>)
    requires i <= |order|
  {
    (forall c :: c in merged <==> c in order[..i] && c !in owner) && Absorbed(owner, merged)
  }

  /** Each merge list holds calls absorbed by its owner, once each. */
  ghost predicate Absorbed(owner: map<VId, VId>, merged: map<VId, seq<VId>>)
  {
    (forall c, d :: c in merged && d in merged[c] ==> d in owner && owner[d] == c)
    && (forall c :: c in merged ==> Distinct(merged[c]))
  }

  /** A visited call that survived has absorbed, or seen absorbed, every later duplicate. */
  ghost predicate MaxOk(vs0: map<VId, Vertex>, es0: seq<Edge>, order: seq<VId>, i: nat, owner: map<VId, VId>)
    requires i <= |order|
  {
    forall a, b :: 0 <= a < i && a < b < |order| && order[a] !in owner && Duplicate(vs0, es0, order[a], order[b])
      ==> order[b] in owner
  }

  /**
   * The state after the first `i` calls of `order`: `owner` maps each
   * absorbed call to the call that absorbed it, `merged` each visited
   * survivor to the calls it absorbed, and `gone` lists the absorbed calls
   * already removed.
   */
  ghost predicate Progress(vs0: map<VId, Vertex>, es0: seq<Edge>, order: seq<VId>, i: nat,
                           owner: map<VId, VId>, merged: map<VId, seq<VId>>, gone: seq<VId>,
                           vs: map<VId, Vertex>, es: seq<Edge>)
  {
    i <= |order| && LiveOk(vs0, order, i, owner, gone, vs) && es == DetachAll(es0, gone)
    && PropsOk(vs0, order, i, owner, merged, vs) && OwnerOk(vs0, es0, owner, merged)
    && MergedOk(order, i, owner, merged) && MaxOk(vs0, es0, order, i, owner)
  }

  lemma ProgressStart(vs0: map<VId, Vertex>, es0: seq<Edge>, order: seq<VId>)
    requires Ready(vs0, es0, order)
    ensures Progress(vs0, es0, order, 0, map[], map[], [], vs0, es0)
  {
    forall v | v in vs0 ensures vs0[v] == Expected(vs0, order, 0, map[], map[], v) {
      assert Flatten(vs0, []) == [];
      assert vs0[v].duration + [] == vs0[v].duration;
    }
  }

  /** Lines 90-92: a call already absorbed by an earlier one is removed when the loop reaches it. */
  method RemoveAbsorbed(g: PropertyGraph, i: nat, ghost vs0: map<VId, Vertex>, ghost es0: seq<Edge>, order: seq<VId>,
                        ghost owner: map<VId, VId>, ghost merged: map<VId, seq<VId>>, ghost gone: seq<VId>)
    returns (ghost gone': seq<VId>)
    requires Ready(vs0, es0, order) && i < |order| && g.Valid()
    requires Progress(vs0, es0, order, i, owner, merged, gone, g.vertices, g.edges)
    requires order[i] in owner
    modifies g
    ensures g.Valid()
    ensures Progress(vs0, es0, order, i + 1, owner, merged, gone', g.vertices, g.edges)
  {
    var c := order[i];
    RemoveProgress(vs0, es0, order, i, owner, merged, gone, g.vertices, g.edges);
    g.RemoveVertex(c);
    gone' := gone + [c];
  }

  lemma RemoveProgress(vs0: map<VId, Vertex>, es0: seq<Edge>, order: seq<VId>, i: nat,
                       owner: map<VId, VId>, merged: map<VId, seq<VId>>, gone: seq<VId>, vs: map<VId, Vertex>, es: seq<Edge>)
    requires Ready(vs0, es0, order) && i < |order|
    requires Progress(vs0, es0, order, i, owner, merged, gone, vs, es)
    requires order[i] in owner
    ensures Progress(vs0, es0, order, i + 1, owner, merged, gone + [order[i]], vs - {order[i]}, Detach(es, order[i]))
  {
    RemoveLive(vs0, order, i, owner, gone, vs);
    RemoveEdges(es0, gone, es, order[i]);
    RemoveProps(vs0, order, i, owner, merged, vs);
    RemoveMerged(order, i, owner, merged);
    RemoveMax(vs0, es0, order, i, owner);
  }

  lemma RemoveEdges(es0: seq<Edge>, gone: seq<VId>, es: seq<Edge>, c: VId)
    requires es == DetachAll(es0, gone)
    ensures Detach(es, c) == DetachAll(es0, gone + [c])
  {
    assert (gone + [c])[..|gone|] == gone;
  }

  lemma RemoveMax(vs0: map<VId, Vertex>, es0: seq<Edge>, order: seq<VId>, i: nat, owner: map<VId, VId>)
    requires i < |order| && order[i] in owner && MaxOk(vs0, es0, order, i, owner)
    ensures MaxOk(vs0, es0, order, i + 1, owner)
  {
  }

  lemma RemoveLive(vs0: map<VId, Vertex>, order: seq<VId>, i: nat, owner: map<VId, VId>, gone: seq<VId>, vs: map<VId, Vertex>)
    requires i < |order| && order[i] in owner && LiveOk(vs0, order, i, owner, gone, vs)
    ensures LiveOk(vs0, order, i + 1, owner, gone + [order[i]], vs - {order[i]})
  {
    assert order[..i + 1] == order[..i] + [order[i]];
  }

  lemma RemoveProps(vs0: map<VId, Vertex>, order: seq<VId>, i: nat, owner: map<VId, VId>, merged: map<VId, seq<VId>>, vs: map<VId, Vertex>)
    requires i < |order| && order[i] in owner && PropsOk(vs0, order, i, owner, merged, vs)
    ensures PropsOk(vs0, order, i + 1, owner, merged, vs - {order[i]})
  {
    assert order[..i + 1] == order[..i] + [order[i]];
    forall v | v in vs - {order[i]} ensures Expected(vs0, order, i + 1, owner, merged, v) == Expected(vs0, order, i, owner, merged, v) {
    }
  }

  lemma RemoveMerged(order: seq<VId>, i: nat, owner: map<VId, VId>, merged: map<VId, seq<VId>>)
    requires i < |order| && order[i] in owner && MergedOk(order, i, owner, merged)
    ensures MergedOk(order, i + 1, owner, merged)
  {
    assert order[..i + 1] == order[..i] + [order[i]];
  }

  /**
   * Lines 94-132: an unvisited call is marked visited and absorbs the
   * unvisited candidates whose out-edges match its own.
   */
  method VisitFresh(g: PropertyGraph, i: nat, ghost vs0: map<VId, Vertex>, ghost es0: seq<Edge>, order: seq<VId>,
                    ghost owner: map<VId, VId>, ghost merged: map<VId, seq<VId>>, ghost gone: seq<VId>)
    returns (ghost owner': map<VId, VId>, ghost merged': map<VId, seq<VId>>)
    requires Ready(vs0, es0, order) && i < |order| && g.Valid()
    requires Progress(vs0, es0, order, i, owner, merged, gone, g.vertices, g.edges)
    requires order[i] !in owner
    modifies g
    ensures g.Valid()
    ensures Progress(vs0, es0, order, i + 1, owner', merged', gone, g.vertices, g.edges)
  {
    var c := order[i];
    FreshStart(vs0, es0, order, i, owner, merged, gone, g.vertices);
    ghost var vs1 := g.vertices;
    g.SetProperties(c, g.vertices[c].duration, Some(true));
    ghost var vs2 := g.vertices;
    var cands := Candidates(g.vertices, g.edges, c);
    ghost var absorbed := AbsorbDuplicates(g, c, cands);
    FreshFacts(vs0, es0, order, i, owner, merged, gone, vs1, vs2, g.edges, cands, absorbed);
    owner' := owner + map d | d in absorbed :: c;
    merged' := merged[c := absorbed];
    FreshProgress(vs0, es0, order, i, owner, merged, gone, vs1, vs2, g.vertices, g.edges, cands, absorbed, owner', merged');
  }

  /** Every call absorbed, or left to be removed, is a call of the original graph. */
  lemma GoneAreCalls(vs0: map<VId, Vertex>, es0: seq<Edge>, order: seq<VId>, i: nat,
                     owner: map<VId, VId>, merged: map<VId, seq<VId>>, gone: seq<VId>, vs: map<VId, Vertex>)
    requires i <= |order| && LiveOk(vs0, order, i, owner, gone, vs) && OwnerOk(vs0, es0, owner, merged)
    requires PropsOk(vs0, order, i, owner, merged, vs)
    ensures forall x :: x in gone ==> IsCall(vs0, x)
    ensures forall x :: x in vs0 && x !in gone ==> x in vs && vs[x].value == vs0[x].value && vs[x].kind == vs0[x].kind
  {
    forall x | x in vs0 && x !in gone ensures x in vs && vs[x].value == vs0[x].value && vs[x].kind == vs0[x].kind {
      assert vs[x] == Expected(vs0, order, i, owner, merged, x);
    }
  }

  /** An edge of the original graph between two vertices still present is still there. */
  lemma EdgeKept(vs0: map<VId, Vertex>, es0: seq<Edge>, gone: seq<VId>, e: Edge)
    requires CallsAreSources(vs0, es0) && e in es0 && e.src !in gone
    requires forall x :: x in gone ==> IsCall(vs0, x)
    ensures e in DetachAll(es0, gone)
  {
    var k :| 0 <= k < |es0| && es0[k] == e;
    assert !IsCall(vs0, es0[k].dst);
  }

  /** What the loop state says of a call not yet visited nor absorbed. */
  lemma Untouched(vs0: map<VId, Vertex>, order: seq<VId>, i: nat, owner: map<VId, VId>, merged: map<VId, seq<VId>>,
                  vs: map<VId, Vertex>, d: VId)
    requires i <= |order| && PropsOk(vs0, order, i, owner, merged, vs) && MergedOk(order, i, owner, merged)
    requires d in vs && IsCall(vs0, d) && d !in order[..i] && d !in owner
    ensures vs[d] == vs0[d]
  {
    assert vs[d] == Expected(vs0, order, i, owner, merged, d);
    assert vs0[d].duration + Flatten(vs0, []) == vs0[d].duration;
  }

  /** A call `order[i]` absorbs is one of its duplicates, neither visited nor absorbed before. */
  lemma AbsorbedDuplicate(vs0: map<VId, Vertex>, es0: seq<Edge>, order: seq<VId>, i: nat,
                          owner: map<VId, VId>, merged: map<VId, seq<VId>>, gone: seq<VId>,
                          vs1: map<VId, Vertex>, vs2: map<VId, Vertex>, es: seq<Edge>, cands: seq<VId>, absorbed: seq<VId>, d: VId)
    requires Ready(vs0, es0, order) && i < |order|
    requires LiveOk(vs0, order, i, owner, gone, vs1) && es == DetachAll(es0, gone)
    requires PropsOk(vs0, order, i, owner, merged, vs1) && MergedOk(order, i, owner, merged) && OwnerOk(vs0, es0, owner, merged)
    requires order[i] !in owner && order[i] in vs1
    requires vs2 == vs1[order[i] := vs1[order[i]].(duration := vs1[order[i]].duration, visited := Some(true))]
    requires cands == Candidates(vs2, es, order[i])
    requires forall d :: d in absorbed <==>
      d in cands && vs2[d].visited != Some(true) && Sig(vs2, es, order[i]) == Sig(vs2, es, d)
    requires d in absorbed
    ensures Duplicate(vs0, es0, order[i], d) && d !in owner && d !in order[..i + 1] && d in vs1 && vs1[d] == vs0[d]
  {
    assert d in cands && vs2[d].visited != Some(true);
    AbsorbedFacts(vs0, es0, order, i, owner, merged, gone, vs1, vs2, es, d);
  }

  lemma AbsorbedFacts(vs0: map<VId, Vertex>, es0: seq<Edge>, order: seq<VId>, i: nat,
                      owner: map<VId, VId>, merged: map<VId, seq<VId>>, gone: seq<VId>,
                      vs1: map<VId, Vertex>, vs2: map<VId, Vertex>, es: seq<Edge>, d: VId)
    requires Ready(vs0, es0, order) && i < |order|
    requires LiveOk(vs0, order, i, owner, gone, vs1) && es == DetachAll(es0, gone)
    requires PropsOk(vs0, order, i, owner, merged, vs1) && MergedOk(order, i, owner, merged) && OwnerOk(vs0, es0, owner, merged)
    requires order[i] !in owner && order[i] in vs1
    requires vs2 == vs1[order[i] := vs1[order[i]].(duration := vs1[order[i]].duration, visited := Some(true))]
    requires IsCall(vs2, d) && ShareTime(es, order[i], d) && vs2[d].visited != Some(true)
    requires Sig(vs2, es, order[i]) == Sig(vs2, es, d)
    ensures Duplicate(vs0, es0, order[i], d) && d !in owner && d !in order[..i + 1] && d in vs1 && vs1[d] == vs0[d]
  {
    var c := order[i];
    AbsorbedUntouched(vs0, order, i, owner, merged, gone, vs1, vs2, d);
    GoneAreCalls(vs0, es0, order, i, owner, merged, gone, vs1);
    assert c !in gone && d !in gone;
    assert forall x :: x in vs0 && x !in gone ==> x in vs2 && vs2[x].value == vs0[x].value;
    AbsorbedIsDuplicate(vs0, es0, gone, vs2, es, c, d);
  }

  /** A candidate still unvisited when `order[i]` is visited was neither visited nor absorbed before. */
  lemma AbsorbedUntouched(vs0: map<VId, Vertex>, order: seq<VId>, i: nat,
                          owner: map<VId, VId>, merged: map<VId, seq<VId>>, gone: seq<VId>,
                          vs1: map<VId, Vertex>, vs2: map<VId, Vertex>, d: VId)
    requires i < |order| && (forall v :: v in order <==> IsCall(vs0, v))
    requires LiveOk(vs0, order, i, owner, gone, vs1)
    requires PropsOk(vs0, order, i, owner, merged, vs1) && MergedOk(order, i, owner, merged)
    requires order[i] !in owner && order[i] in vs1
    requires vs2 == vs1[order[i] := vs1[order[i]].(duration := vs1[order[i]].duration, visited := Some(true))]
    requires IsCall(vs2, d) && vs2[d].visited != Some(true)
    ensures IsCall(vs0, d) && d != order[i] && d !in owner && d !in order[..i + 1] && d in vs1 && vs1[d] == vs0[d]
  {
    var c := order[i];
    assert d in vs1 && d != c;
    assert vs1[d] == Expected(vs0, order, i, owner, merged, d);
    assert IsCall(vs0, d);
    assert d !in order[..i] && d !in owner;
    Untouched(vs0, order, i, owner, merged, vs1, d);
    assert order[..i + 1] == order[..i] + [c];
  }

  /** Two calls that share a time and a signature after the removals were duplicates before them. */
  lemma AbsorbedIsDuplicate(vs0: map<VId, Vertex>, es0: seq<Edge>, gone: seq<VId>, vs: map<VId, Vertex>, es: seq<Edge>, c: VId, d: VId)
    requires Wellformed(vs0, es0) && CallsAreSources(vs0, es0) && es == DetachAll(es0, gone)
    requires forall x :: x in gone ==> IsCall(vs0, x)
    requires forall x :: x in vs0 && x !in gone ==> x in vs && vs[x].value == vs0[x].value
    requires IsCall(vs0, c) && IsCall(vs0, d) && c != d && c !in gone && d !in gone
    requires ShareTime(es, c, d) && Sig(vs, es, c) == Sig(vs, es, d)
    ensures Duplicate(vs0, es0, c, d)
  {
    SigStable(vs0, es0, gone, vs, c);
    SigStable(vs0, es0, gone, vs, d);
    var a, b :| a in es && b in es && a.src == c && a.rel == AtTime && b.src == d && b.dst == a.dst;
    assert ShareTime(es0, c, d);
  }

  /** A later duplicate of `order[i]` nobody absorbed yet is among the calls it absorbs. */
  lemma LaterDuplicateFound(vs0: map<VId, Vertex>, es0: seq<Edge>, order: seq<VId>, i: nat,
                            owner: map<VId, VId>, merged: map<VId, seq<VId>>, gone: seq<VId>,
                            vs1: map<VId, Vertex>, vs2: map<VId, Vertex>, es: seq<Edge>, cands: seq<VId>, absorbed: seq<VId>, b: nat)
    requires Ready(vs0, es0, order) && i < |order|
    requires LiveOk(vs0, order, i, owner, gone, vs1) && es == DetachAll(es0, gone)
    requires PropsOk(vs0, order, i, owner, merged, vs1) && MergedOk(order, i, owner, merged) && OwnerOk(vs0, es0, owner, merged)
    requires order[i] !in owner && order[i] in vs1
    requires vs2 == vs1[order[i] := vs1[order[i]].(duration := vs1[order[i]].duration, visited := Some(true))]
    requires cands == Candidates(vs2, es, order[i])
    requires forall d :: d in absorbed <==>
      d in cands && vs2[d].visited != Some(true) && Sig(vs2, es, order[i]) == Sig(vs2, es, d)
    requires i < b < |order| && order[b] !in owner && Duplicate(vs0, es0, order[i], order[b])
    ensures order[b] in absorbed
  {
    LaterFacts(vs0, es0, order, i, owner, merged, gone, vs1, vs2, es, b);
  }

  lemma LaterFacts(vs0: map<VId, Vertex>, es0: seq<Edge>, order: seq<VId>, i: nat,
                   owner: map<VId, VId>, merged: map<VId, seq<VId>>, gone: seq<VId>,
                   vs1: map<VId, Vertex>, vs2: map<VId, Vertex>, es: seq<Edge>, b: nat)
    requires Ready(vs0, es0, order) && i < |order|
    requires LiveOk(vs0, order, i, owner, gone, vs1) && es == DetachAll(es0, gone)
    requires PropsOk(vs0, order, i, owner, merged, vs1) && MergedOk(order, i, owner, merged) && OwnerOk(vs0, es0, owner, merged)
    requires order[i] !in owner && order[i] in vs1
    requires vs2 == vs1[order[i] := vs1[order[i]].(duration := vs1[order[i]].duration, visited := Some(true))]
    requires i < b < |order| && order[b] !in owner && Duplicate(vs0, es0, order[i], order[b])
    ensures IsCall(vs2, order[b]) && ShareTime(es, order[i], order[b]) && vs2[order[b]].visited != Some(true)
    ensures Sig(vs2, es, order[i]) == Sig(vs2, es, order[b])
  {
    var c, d := order[i], order[b];
    GoneAreCalls(vs0, es0, order, i, owner, merged, gone, vs1);
    LaterUntouched(vs0, order, i, owner, merged, gone, vs1, b);
    assert c !in gone;
    assert vs2[d] == vs0[d];
    assert forall x :: x in vs0 && x !in gone ==> x in vs2 && vs2[x].value == vs0[x].value;
    LaterIsCandidate(vs0, es0, gone, vs2, es, c, d);
  }

  /** A call after `order[i]` that nobody absorbed is still as the graph first held it. */
  lemma LaterUntouched(vs0: map<VId, Vertex>, order: seq<VId>, i: nat,
                       owner: map<VId, VId>, merged: map<VId, seq<VId>>, gone: seq<VId>, vs1: map<VId, Vertex>, b: nat)
    requires Distinct(order) && (forall v :: v in order <==> IsCall(vs0, v)) && i < b < |order| && order[b] !in owner
    requires LiveOk(vs0, order, i, owner, gone, vs1)
    requires PropsOk(vs0, order, i, owner, merged, vs1) && MergedOk(order, i, owner, merged)
    ensures order[b] !in gone && order[b] in vs1 && vs1[order[b]] == vs0[order[b]]
  {
    var d := order[b];
    assert d in order;
    assert d !in order[..i];
    Untouched(vs0, order, i, owner, merged, vs1, d);
  }

  /** A duplicate of `c` that was not removed is at the same time as `c` and has its signature after the removals. */
  lemma LaterIsCandidate(vs0: map<VId, Vertex>, es0: seq<Edge>, gone: seq<VId>, vs: map<VId, Vertex>, es: seq<Edge>, c: VId, d: VId)
    requires Wellformed(vs0, es0) && CallsAreSources(vs0, es0) && es == DetachAll(es0, gone)
    requires forall x :: x in gone ==> IsCall(vs0, x)
    requires forall x :: x in vs0 && x !in gone ==> x in vs && vs[x].value == vs0[x].value
    requires c !in gone && d !in gone && Duplicate(vs0, es0, c, d)
    ensures ShareTime(es, c, d) && Sig(vs, es, c) == Sig(vs, es, d)
  {
    var ea, eb :| ea in es0 && eb in es0 && ea.src == c && ea.rel == AtTime && eb.src == d && eb.dst == ea.dst;
    EdgeKept(vs0, es0, gone, ea);
    EdgeKept(vs0, es0, gone, eb);
    SigStable(vs0, es0, gone, vs, c);
    SigStable(vs0, es0, gone, vs, d);
  }

  lemma FreshStart(vs0: map<VId, Vertex>, es0: seq<Edge>, order: seq<VId>, i: nat,
                   owner: map<VId, VId>, merged: map<VId, seq<VId>>, gone: seq<VId>, vs: map<VId, Vertex>)
    requires Ready(vs0, es0, order) && i < |order| && order[i] !in owner
    requires LiveOk(vs0, order, i, owner, gone, vs)
    ensures order[i] in vs
  {
    assert order[i] in order;
  }

  /** The calls `order[i]` absorbs are exactly its duplicates nobody absorbed before. */
  lemma FreshFacts(vs0: map<VId, Vertex>, es0: seq<Edge>, order: seq<VId>, i: nat,
                   owner: map<VId, VId>, merged: map<VId, seq<VId>>, gone: seq<VId>,
                   vs1: map<VId, Vertex>, vs2: map<VId, Vertex>, es: seq<Edge>, cands: seq<VId>, absorbed: seq<VId>)
    requires Ready(vs0, es0, order) && i < |order|
    requires LiveOk(vs0, order, i, owner, gone, vs1) && es == DetachAll(es0, gone)
    requires PropsOk(vs0, order, i, owner, merged, vs1) && MergedOk(order, i, owner, merged) && OwnerOk(vs0, es0, owner, merged)
    requires order[i] !in owner && order[i] in vs1
    requires vs2 == vs1[order[i] := vs1[order[i]].(duration := vs1[order[i]].duration, visited := Some(true))]
    requires cands == Candidates(vs2, es, order[i])
    requires forall d :: d in absorbed <==>
      d in cands && vs2[d].visited != Some(true) && Sig(vs2, es, order[i]) == Sig(vs2, es, d)
    ensures forall d :: d in absorbed ==>
      Duplicate(vs0, es0, order[i], d) && d !in owner && d !in order[..i + 1] && d in vs1 && vs1[d] == vs0[d]
    ensures forall b :: i < b < |order| && order[b] !in owner && Duplicate(vs0, es0, order[i], order[b]) ==> order[b] in absorbed
  {
    FreshAbsorbed(vs0, es0, order, i, owner, merged, gone, vs1, vs2, es, cands, absorbed);
    FreshTakesLater(vs0, es0, order, i, owner, merged, gone, vs1, vs2, es, cands, absorbed);
  }

  lemma FreshAbsorbed(vs0: map<VId, Vertex>, es0: seq<Edge>, order: seq<VId>, i: nat,
                   owner: map<VId, VId>, merged: map<VId, seq<VId>>, gone: seq<VId>,
                   vs1: map<VId, Vertex>, vs2: map<VId, Vertex>, es: seq<Edge>, cands: seq<VId>, absorbed: seq<VId>)
    requires Ready(vs0, es0, order) && i < |order|
    requires LiveOk(vs0, order, i, owner, gone, vs1) && es == DetachAll(es0, gone)
    requires PropsOk(vs0, order, i, owner, merged, vs1) && MergedOk(order, i, owner, merged) && OwnerOk(vs0, es0, owner, merged)
    requires order[i] !in owner && order[i] in vs1
    requires vs2 == vs1[order[i] := vs1[order[i]].(duration := vs1[order[i]].duration, visited := Some(true))]
    requires cands == Candidates(vs2, es, order[i])
    requires forall d :: d in absorbed <==>
      d in cands && vs2[d].visited != Some(true) && Sig(vs2, es, order[i]) == Sig(vs2, es, d)
    ensures forall d :: d in absorbed ==>
      Duplicate(vs0, es0, order[i], d) && d !in owner && d !in order[..i + 1] && d in vs1 && vs1[d] == vs0[d]
  {
    forall d | d in absorbed
      ensures Duplicate(vs0, es0, order[i], d) && d !in owner && d !in order[..i + 1] && d in vs1 && vs1[d] == vs0[d]
    {
      AbsorbedDuplicate(vs0, es0, order, i, owner, merged, gone, vs1, vs2, es, cands, absorbed, d);
    }
  }

  lemma FreshTakesLater(vs0: map<VId, Vertex>, es0: seq<Edge>, order: seq<VId>, i: nat,
                   owner: map<VId, VId>, merged: map<VId, seq<VId>>, gone: seq<VId>,
                   vs1: map<VId, Vertex>, vs2: map<VId, Vertex>, es: seq<Edge>, cands: seq<VId>, absorbed: seq<VId>)
    requires Ready(vs0, es0, order) && i < |order|
    requires LiveOk(vs0, order, i, owner, gone, vs1) && es == DetachAll(es0, gone)
    requires PropsOk(vs0, order, i, owner, merged, vs1) && MergedOk(order, i, owner, merged) && OwnerOk(vs0, es0, owner, merged)
    requires order[i] !in owner && order[i] in vs1
    requires vs2 == vs1[order[i] := vs1[order[i]].(duration := vs1[order[i]].duration, visited := Some(true))]
    requires cands == Candidates(vs2, es, order[i])
    requires forall d :: d in absorbed <==>
      d in cands && vs2[d].visited != Some(true) && Sig(vs2, es, order[i]) == Sig(vs2, es, d)
    ensures forall b :: i < b < |order| && order[b] !in owner && Duplicate(vs0, es0, order[i], order[b]) ==> order[b] in absorbed
  {
    forall b | i < b < |order| && order[b] !in owner && Duplicate(vs0, es0, order[i], order[b])
      ensures order[b] in absorbed
    {
      LaterDuplicateFound(vs0, es0, order, i, owner, merged, gone, vs1, vs2, es, cands, absorbed, b);
    }
  }

  /** Visiting a fresh call keeps the bookkeeping of Progress, one call further. */
  lemma FreshProgress(vs0: map<VId, Vertex>, es0: seq<Edge>, order: seq<VId>, i: nat,
                      owner: map<VId, VId>, merged: map<VId, seq<VId>>, gone: seq<VId>,
                      vs1: map<VId, Vertex>, vs2: map<VId, Vertex>, vs3: map<VId, Vertex>, es: seq<Edge>,
                      cands: seq<VId>, absorbed: seq<VId>, owner': map<VId, VId>, merged': map<VId, seq<VId>>)
    requires Ready(vs0, es0, order) && i < |order|
    requires Progress(vs0, es0, order, i, owner, merged, gone, vs1, es)
    requires order[i] !in owner && order[i] in vs1
    requires vs2 == vs1[order[i] := vs1[order[i]].(duration := vs1[order[i]].duration, visited := Some(true))]
    requires vs3 == AfterAbsorb(vs2, order[i], absorbed) && Distinct(absorbed)
    requires forall d :: d in absorbed ==>
      Duplicate(vs0, es0, order[i], d) && d !in owner && d !in order[..i + 1] && d in vs1 && vs1[d] == vs0[d]
    requires forall b :: i < b < |order| && order[b] !in owner && Duplicate(vs0, es0, order[i], order[b]) ==> order[b] in absorbed
    requires owner' == owner + map d | d in absorbed :: order[i]
    requires merged' == merged[order[i] := absorbed]
    ensures Progress(vs0, es0, order, i + 1, owner', merged', gone, vs3, es)
  {
    FreshLive(vs0, order, i, owner, gone, vs1, vs3, absorbed, owner');
    FreshProps(vs0, order, i, owner, merged, vs1, vs2, vs3, absorbed, owner', merged');
    FreshOwner(vs0, es0, order, i, owner, merged, absorbed, owner', merged');
    FreshMerged(order, i, owner, merged, absorbed, owner', merged');
    FreshMax(vs0, es0, order, i, owner, absorbed, owner');
  }

  lemma FreshLive(vs0: map<VId, Vertex>, order: seq<VId>, i: nat, owner: map<VId, VId>, gone: seq<VId>,
                  vs1: map<VId, Vertex>, vs3: map<VId, Vertex>, absorbed: seq<VId>, owner': map<VId, VId>)
    requires i < |order| && LiveOk(vs0, order, i, owner, gone, vs1)
    requires order[i] !in owner && order[i] in vs1 && vs3.Keys == vs1.Keys
    requires forall d :: d in absorbed ==> d !in order[..i + 1]
    requires owner' == owner + map d | d in absorbed :: order[i]
    ensures LiveOk(vs0, order, i + 1, owner', gone, vs3)
  {
    assert order[..i + 1] == order[..i] + [order[i]];
  }

  lemma FreshProps(vs0: map<VId, Vertex>, order: seq<VId>, i: nat, owner: map<VId, VId>, merged: map<VId, seq<VId>>,
                   vs1: map<VId, Vertex>, vs2: map<VId, Vertex>, vs3: map<VId, Vertex>,
                   absorbed: seq<VId>, owner': map<VId, VId>, merged': map<VId, seq<VId>>)
    requires i < |order| && PropsOk(vs0, order, i, owner, merged, vs1) && MergedOk(order, i, owner, merged)
    requires IsCall(vs0, order[i]) && order[i] !in order[..i]
    requires order[i] !in owner && order[i] in vs1
    requires vs2 == vs1[order[i] := vs1[order[i]].(duration := vs1[order[i]].duration, visited := Some(true))]
    requires vs3 == AfterAbsorb(vs2, order[i], absorbed)
    requires forall d :: d in absorbed ==> IsCall(vs0, d) && d !in owner && d !in order[..i + 1] && d in vs1 && vs1[d] == vs0[d]
    requires owner' == owner + map d | d in absorbed :: order[i]
    requires merged' == merged[order[i] := absorbed]
    ensures PropsOk(vs0, order, i + 1, owner', merged', vs3)
  {
    assert order[..i + 1] == order[..i] + [order[i]];
    FlattenSame(vs2, vs0, absorbed);
    FreshPropsAll(vs0, order, i, owner, merged, vs1, vs2, vs3, absorbed, owner', merged');
  }

  lemma FreshPropsAll(vs0: map<VId, Vertex>, order: seq<VId>, i: nat, owner: map<VId, VId>, merged: map<VId, seq<VId>>,
                      vs1: map<VId, Vertex>, vs2: map<VId, Vertex>, vs3: map<VId, Vertex>,
                      absorbed: seq<VId>, owner': map<VId, VId>, merged': map<VId, seq<VId>>)
    requires FreshState(vs0, order, i, owner, merged, vs1, vs2, vs3, absorbed, owner', merged')
    ensures PropsOk(vs0, order, i + 1, owner', merged', vs3)
  {
    forall v | v in vs3 ensures v in vs0 && vs3[v] == Expected(vs0, order, i + 1, owner', merged', v) {
      FreshPropsAt(vs0, order, i, owner, merged, vs1, vs2, vs3, absorbed, owner', merged', v);
    }
  }

  /** The states around the visit of the fresh call `order[i]`, as FreshProps receives them. */
  ghost predicate FreshState(vs0: map<VId, Vertex>, order: seq<VId>, i: nat, owner: map<VId, VId>, merged: map<VId, seq<VId>>,
                     vs1: map<VId, Vertex>, vs2: map<VId, Vertex>, vs3: map<VId, Vertex>,
                     absorbed: seq<VId>, owner': map<VId, VId>, merged': map<VId, seq<VId>>)
  {
    i < |order| && PropsOk(vs0, order, i, owner, merged, vs1) && MergedOk(order, i, owner, merged)
    && IsCall(vs0, order[i]) && order[i] !in order[..i] && order[..i + 1] == order[..i] + [order[i]]
    && order[i] !in owner && order[i] in vs1
    && vs2 == vs1[order[i] := vs1[order[i]].(duration := vs1[order[i]].duration, visited := Some(true))]
    && vs3 == AfterAbsorb(vs2, order[i], absorbed)
    && (forall d :: d in absorbed ==> IsCall(vs0, d) && d !in owner && d !in order[..i + 1] && d in vs1 && vs1[d] == vs0[d])
    && owner' == owner + (map d | d in absorbed :: order[i])
    && merged' == merged[order[i] := absorbed]
    && Flatten(vs2, absorbed) == Flatten(vs0, absorbed)
  }

  /** FreshProps at one vertex: the visited call, one it absorbed, or any other. */
  lemma FreshPropsAt(vs0: map<VId, Vertex>, order: seq<VId>, i: nat, owner: map<VId, VId>, merged: map<VId, seq<VId>>,
                     vs1: map<VId, Vertex>, vs2: map<VId, Vertex>, vs3: map<VId, Vertex>,
                     absorbed: seq<VId>, owner': map<VId, VId>, merged': map<VId, seq<VId>>, v: VId)
    requires FreshState(vs0, order, i, owner, merged, vs1, vs2, vs3, absorbed, owner', merged') && v in vs3
    ensures v in vs0 && vs3[v] == Expected(vs0, order, i + 1, owner', merged', v)
  {
    if v == order[i] {
      FreshPropsCurrent(vs0, order, i, owner, merged, vs1, vs2, vs3, absorbed, owner', merged');
    } else if v in absorbed {
      FreshPropsAbsorbed(vs0, order, i, owner, merged, vs1, vs2, vs3, absorbed, owner', merged', v);
    } else {
      FreshPropsOther(vs0, order, i, owner, merged, vs1, vs2, vs3, absorbed, owner', merged', v);
    }
  }

  lemma FreshPropsCurrent(vs0: map<VId, Vertex>, order: seq<VId>, i: nat, owner: map<VId, VId>, merged: map<VId, seq<VId>>,
                     vs1: map<VId, Vertex>, vs2: map<VId, Vertex>, vs3: map<VId, Vertex>,
                     absorbed: seq<VId>, owner': map<VId, VId>, merged': map<VId, seq<VId>>)
    requires FreshState(vs0, order, i, owner, merged, vs1, vs2, vs3, absorbed, owner', merged')
    ensures order[i] in vs0 && order[i] in vs3 && vs3[order[i]] == Expected(vs0, order, i + 1, owner', merged', order[i])
  {
    var c := order[i];
    assert c !in merged && c !in absorbed;
    assert vs1[c] == Expected(vs0, order, i, owner, merged, c);
    assert vs0[c].duration + Flatten(vs0, []) == vs0[c].duration;
    assert vs1[c] == vs0[c];
    assert vs3[c] == vs0[c].(duration := vs0[c].duration + Flatten(vs0, absorbed), visited := Some(true));
  }

  lemma FreshPropsAbsorbed(vs0: map<VId, Vertex>, order: seq<VId>, i: nat, owner: map<VId, VId>, merged: map<VId, seq<VId>>,
                     vs1: map<VId, Vertex>, vs2: map<VId, Vertex>, vs3: map<VId, Vertex>,
                     absorbed: seq<VId>, owner': map<VId, VId>, merged': map<VId, seq<VId>>, v: VId)
    requires FreshState(vs0, order, i, owner, merged, vs1, vs2, vs3, absorbed, owner', merged') && v in vs3 && v != order[i] && v in absorbed
    ensures v in vs0 && vs3[v] == Expected(vs0, order, i + 1, owner', merged', v)
  {
    assert v !in merged;
    assert vs0[v].duration + Flatten(vs0, []) == vs0[v].duration;
    assert vs3[v] == vs0[v].(visited := Some(true));
  }

  lemma FreshPropsOther(vs0: map<VId, Vertex>, order: seq<VId>, i: nat, owner: map<VId, VId>, merged: map<VId, seq<VId>>,
                     vs1: map<VId, Vertex>, vs2: map<VId, Vertex>, vs3: map<VId, Vertex>,
                     absorbed: seq<VId>, owner': map<VId, VId>, merged': map<VId, seq<VId>>, v: VId)
    requires FreshState(vs0, order, i, owner, merged, vs1, vs2, vs3, absorbed, owner', merged') && v in vs3 && v != order[i] && v !in absorbed
    ensures v in vs0 && vs3[v] == Expected(vs0, order, i + 1, owner', merged', v)
  {
    assert v in owner' <==> v in owner;
    assert v in order[..i + 1] <==> v in order[..i];
    assert vs3[v] == vs1[v] == Expected(vs0, order, i, owner, merged, v);
  }

  lemma FreshOwner(vs0: map<VId, Vertex>, es0: seq<Edge>, order: seq<VId>, i: nat, owner: map<VId, VId>, merged: map<VId, seq<VId>>,
                   absorbed: seq<VId>, owner': map<VId, VId>, merged': map<VId, seq<VId>>)
    requires i < |order| && OwnerOk(vs0, es0, owner, merged) && MergedOk(order, i, owner, merged)
    requires order[i] !in order[..i]
    requires forall d :: d in absorbed ==> Duplicate(vs0, es0, order[i], d) && d !in owner
    requires owner' == owner + map d | d in absorbed :: order[i]
    requires merged' == merged[order[i] := absorbed]
    ensures OwnerOk(vs0, es0, owner', merged')
  {
    forall d | d in owner'
      ensures Duplicate(vs0, es0, owner'[d], d) && owner'[d] in merged' && d in merged'[owner'[d]]
    {
      if d !in absorbed {
        assert owner[d] in merged && owner[d] != order[i];
      }
    }
  }

  lemma FreshMerged(order: seq<VId>, i: nat, owner: map<VId, VId>, merged: map<VId, seq<VId>>,
                    absorbed: seq<VId>, owner': map<VId, VId>, merged': map<VId, seq<VId>>)
    requires i < |order| && MergedOk(order, i, owner, merged) && Distinct(absorbed)
    requires order[i] !in order[..i] && order[i] !in owner
    requires forall d :: d in absorbed ==> d !in owner && d !in order[..i + 1]
    requires owner' == owner + map d | d in absorbed :: order[i]
    requires merged' == merged[order[i] := absorbed]
    ensures MergedOk(order, i + 1, owner', merged')
  {
    assert order[..i + 1] == order[..i] + [order[i]];
  }

  lemma FreshMax(vs0: map<VId, Vertex>, es0: seq<Edge>, order: seq<VId>, i: nat, owner: map<VId, VId>,
                 absorbed: seq<VId>, owner': map<VId, VId>)
    requires i < |order| && MaxOk(vs0, es0, order, i, owner)
    requires forall b :: i < b < |order| && order[b] !in owner && Duplicate(vs0, es0, order[i], order[b]) ==> order[b] in absorbed
    requires owner' == owner + map d | d in absorbed :: order[i]
    ensures MaxOk(vs0, es0, order, i + 1, owner')
  {
    forall a, b | 0 <= a < i + 1 && a < b < |order| && order[a] !in owner' && Duplicate(vs0, es0, order[a], order[b])
      ensures order[b] in owner'
    {
      if a < i {
        assert order[a] !in owner;
      }
    }
  }

  /** The call the loop reaches is present, and marked visited exactly when an earlier call absorbed it. */
  lemma CurrentCall(vs0: map<VId, Vertex>, es0: seq<Edge>, order: seq<VId>, i: nat,
                    owner: map<VId, VId>, merged: map<VId, seq<VId>>, gone: seq<VId>, vs: map<VId, Vertex>, es: seq<Edge>)
    requires Ready(vs0, es0, order) && i < |order|
    requires Progress(vs0, es0, order, i, owner, merged, gone, vs, es)
    ensures order[i] in vs && (vs[order[i]].visited == Some(true) <==> order[i] in owner)
  {
    var c := order[i];
    assert c in order && c !in order[..i];
    assert vs[c] == Expected(vs0, order, i, owner, merged, c);
  }

  /** A call as minimize leaves it: its own durations, then those of the calls it absorbed, and not visited. */
  ghost function Minimized(vs0: map<VId, Vertex>, merged: map<VId, seq<VId>>, v: VId): Vertex
    requires v in vs0
  {
    if v in merged then vs0[v].(duration := vs0[v].duration + Flatten(vs0, merged[v]), visited := Some(false))
    else vs0[v]
  }

  /** No two calls at the same time have the same out-edges: there is nothing left to merge. */
  ghost predicate NoDuplicates(vs: map<VId, Vertex>, es: seq<Edge>)
  {
    forall c1, c2 :: IsCall(vs, c1) && IsCall(vs, c2) && c1 != c2 && SameTime(es, c1, c2) ==> Sig(vs, es, c1) != Sig(vs, es, c2)
  }

  /** Every vertex left is as minimize leaves it. */
  ghost predicate AllMinimized(vs0: map<VId, Vertex>, merged: map<VId, seq<VId>>, vs: map<VId, Vertex>)
  {
    forall v :: v in vs ==> v in vs0 && vs[v] == Minimized(vs0, merged, v)
  }

  /**
   * What minimize leaves of the graph (vs0, es0): `owner` maps each absorbed
   * call to the call that absorbed it, `merged` each surviving call to the
   * calls it absorbed, and `gone` lists the removed calls. The absorbed calls
   * are gone with their edges; every survivor holds its own durations
   * followed by those of the calls it absorbed; every other vertex is as it
   * was.
   */
  ghost predicate Merged(vs0: map<VId, Vertex>, es0: seq<Edge>, owner: map<VId, VId>, merged: map<VId, seq<VId>>,
                         gone: seq<VId>, vs: map<VId, Vertex>, es: seq<Edge>)
  {
    Survivors(vs0, owner, vs) && es == DetachAll(es0, gone) && RemovedAre(gone, owner)
    && AllMinimized(vs0, merged, vs) && MergeLists(vs0, owner, merged) && Absorbed(owner, merged)
  }

  /** The vertices left are those not absorbed. */
  ghost predicate Survivors(vs0: map<VId, Vertex>, owner: map<VId, VId>, vs: map<VId, Vertex>)
  {
    forall v :: v in vs <==> v in vs0 && v !in owner
  }

  /** The removed vertices are the absorbed calls. */
  ghost predicate RemovedAre(gone: seq<VId>, owner: map<VId, VId>)
  {
    forall v :: v in gone <==> v in owner
  }

  /** Every call not absorbed has a merge list. */
  ghost predicate MergeLists(vs0: map<VId, Vertex>, owner: map<VId, VId>, merged: map<VId, seq<VId>>)
  {
    forall c :: c in merged <==> IsCall(vs0, c) && c !in owner
  }

  /**
   * Operations.minimize over the calls in the order the storage lists them
   * (`order`). Each call absorbed by an earlier one is removed with its
   * edges; each remaining call holds its durations followed by those of the
   * calls it absorbed, and is no longer marked visited; no duplicates remain.
   */
  method Minimize(g: PropertyGraph, order: seq<VId>) returns (ghost owner: map<VId, VId>, ghost merged: map<VId, seq<VId>>, ghost gone: seq<VId>)
    requires g.Valid() && Ready(g.vertices, g.edges, order)
    modifies g
    ensures g.Valid()
    ensures Merged(old(g.vertices), old(g.edges), owner, merged, gone, g.vertices, g.edges)
    ensures OwnerOk(old(g.vertices), old(g.edges), owner, merged)
    ensures NoDuplicates(g.vertices, g.edges)
  {
    ghost var vs0, es0 := g.vertices, g.edges;
    owner, merged, gone := VisitAll(g, order);
    ghost var vs1 := g.vertices;
    ClearVisited(g, order);
    Finish(vs0, es0, order, owner, merged, gone, vs1, g.vertices, g.edges);
  }

  /** The state after both loops is the one Minimize promises. */
  lemma Finish(vs0: map<VId, Vertex>, es0: seq<Edge>, order: seq<VId>,
               owner: map<VId, VId>, merged: map<VId, seq<VId>>, gone: seq<VId>,
               vs1: map<VId, Vertex>, vs: map<VId, Vertex>, es: seq<Edge>)
    requires Ready(vs0, es0, order)
    requires Progress(vs0, es0, order, |order|, owner, merged, gone, vs1, es)
    requires vs.Keys == vs1.Keys
    requires forall v :: v in vs ==> vs[v] == if v in order then vs1[v].(visited := Some(false)) else vs1[v]
    ensures Merged(vs0, es0, owner, merged, gone, vs, es)
    ensures OwnerOk(vs0, es0, owner, merged)
    ensures NoDuplicates(vs, es)
  {
    FinalMerged(vs0, es0, order, owner, merged, gone, vs1);
    FinalLive(vs0, order, owner, gone, vs1, vs);
    FinalVertices(vs0, order, owner, merged, vs1, vs);
    GoneAreCalls(vs0, es0, order, |order|, owner, merged, gone, vs1);
    FinalNoDuplicates(vs0, es0, order, owner, gone, vs1, vs, es);
  }

  /** Lines 88-133: the loop over the calls, each either removed as absorbed or visited. */
  method VisitAll(g: PropertyGraph, order: seq<VId>) returns (ghost owner: map<VId, VId>, ghost merged: map<VId, seq<VId>>, ghost gone: seq<VId>)
    requires g.Valid() && Ready(g.vertices, g.edges, order)
    modifies g
    ensures g.Valid()
    ensures Progress(old(g.vertices), old(g.edges), order, |order|, owner, merged, gone, g.vertices, g.edges)
  {
    ghost var vs0, es0 := g.vertices, g.edges;
    owner, merged, gone := map[], map[], [];
    ProgressStart(vs0, es0, order);
    var i := 0;
    while i < |order|
      invariant 0 <= i <= |order| && g.Valid()
      invariant Progress(vs0, es0, order, i, owner, merged, gone, g.vertices, g.edges)
    {
      owner, merged, gone := VisitCall(g, i, vs0, es0, order, owner, merged, gone);
      i := i + 1;
    }
  }

  /** Lines 89-132 for the call `order[i]`: removed if already absorbed, visited otherwise. */
  method VisitCall(g: PropertyGraph, i: nat, ghost vs0: map<VId, Vertex>, ghost es0: seq<Edge>, order: seq<VId>,
                   ghost owner: map<VId, VId>, ghost merged: map<VId, seq<VId>>, ghost gone: seq<VId>)
    returns (ghost owner': map<VId, VId>, ghost merged': map<VId, seq<VId>>, ghost gone': seq<VId>)
    requires Ready(vs0, es0, order) && i < |order| && g.Valid()
    requires Progress(vs0, es0, order, i, owner, merged, gone, g.vertices, g.edges)
    modifies g
    ensures g.Valid()
    ensures Progress(vs0, es0, order, i + 1, owner', merged', gone', g.vertices, g.edges)
  {
    CurrentCall(vs0, es0, order, i, owner, merged, gone, g.vertices, g.edges);
    owner', merged', gone' := owner, merged, gone;
    if g.vertices[order[i]].visited == Some(true) {
      gone' := RemoveAbsorbed(g, i, vs0, es0, order, owner, merged, gone);
    } else {
      owner', merged' := VisitFresh(g, i, vs0, es0, order, owner, merged, gone);
    }
  }

  /** Lines 136-137: every call still present gets visited = false. */
  method ClearVisited(g: PropertyGraph, order: seq<VId>)
    requires g.Valid()
    modifies g
    ensures g.Valid() && g.edges == old(g.edges) && g.vertices.Keys == old(g.vertices).Keys
    ensures forall v :: v in g.vertices ==>
      g.vertices[v] == if v in order then old(g.vertices)[v].(visited := Some(false)) else old(g.vertices)[v]
  {
    ghost var vs1 := g.vertices;
    var j := 0;
    while j < |order|
      invariant 0 <= j <= |order| && g.Valid() && g.edges == old(g.edges) && g.vertices.Keys == vs1.Keys
      invariant forall v :: v in g.vertices ==>
        g.vertices[v] == if v in order[..j] then vs1[v].(visited := Some(false)) else vs1[v]
    {
      var c := order[j];
      assert order[..j + 1] == order[..j] + [c];
      if c in g.vertices {
        g.SetProperties(c, g.vertices[c].duration, Some(false));
      }
      j := j + 1;
    }
    assert order[..j] == order;
  }

  lemma FinalLive(vs0: map<VId, Vertex>, order: seq<VId>, owner: map<VId, VId>, gone: seq<VId>,
                  vs1: map<VId, Vertex>, vs: map<VId, Vertex>)
    requires LiveOk(vs0, order, |order|, owner, gone, vs1) && vs.Keys == vs1.Keys
    requires forall v :: v in owner ==> v in order
    ensures Survivors(vs0, owner, vs) && RemovedAre(gone, owner)
  {
    assert order[..|order|] == order;
  }

  lemma FinalMerged(vs0: map<VId, Vertex>, es0: seq<Edge>, order: seq<VId>, owner: map<VId, VId>, merged: map<VId, seq<VId>>,
                    gone: seq<VId>, vs1: map<VId, Vertex>)
    requires Ready(vs0, es0, order)
    requires MergedOk(order, |order|, owner, merged) && OwnerOk(vs0, es0, owner, merged)
    ensures MergeLists(vs0, owner, merged)
    ensures forall v :: v in owner ==> v in order
  {
    assert order[..|order|] == order;
  }

  lemma FinalVertices(vs0: map<VId, Vertex>, order: seq<VId>, owner: map<VId, VId>, merged: map<VId, seq<VId>>,
                      vs1: map<VId, Vertex>, vs: map<VId, Vertex>)
    requires PropsOk(vs0, order, |order|, owner, merged, vs1) && vs.Keys == vs1.Keys
    requires forall v :: v in vs1 ==> v !in owner
    requires MergeLists(vs0, owner, merged)
    requires forall v :: v in order <==> IsCall(vs0, v)
    requires forall v :: v in vs ==> vs[v] == if v in order then vs1[v].(visited := Some(false)) else vs1[v]
    ensures AllMinimized(vs0, merged, vs)
  {
    assert order[..|order|] == order;
    forall v | v in vs ensures v in vs0 && vs[v] == Minimized(vs0, merged, v) {
      assert v in vs1 && vs1[v] == Expected(vs0, order, |order|, owner, merged, v);
      if !IsCall(vs0, v) {
        assert v !in order && v !in merged;
      }
    }
  }

  lemma FinalNoDuplicates(vs0: map<VId, Vertex>, es0: seq<Edge>, order: seq<VId>, owner: map<VId, VId>, gone: seq<VId>,
                          vs1: map<VId, Vertex>, vs: map<VId, Vertex>, es: seq<Edge>)
    requires Ready(vs0, es0, order)
    requires MaxOk(vs0, es0, order, |order|, owner) && es == DetachAll(es0, gone)
    requires forall x :: x in gone ==> IsCall(vs0, x)
    requires forall x :: x in vs0 && x !in gone ==> x in vs1 && vs1[x].value == vs0[x].value && vs1[x].kind == vs0[x].kind
    requires Survivors(vs0, owner, vs) && RemovedAre(gone, owner)
    requires forall v :: v in vs ==> vs[v].value == vs1[v].value && vs[v].kind == vs1[v].kind
    ensures NoDuplicates(vs, es)
  {
    forall c1, c2 | IsCall(vs, c1) && IsCall(vs, c2) && c1 != c2 && SameTime(es, c1, c2)
      ensures Sig(vs, es, c1) != Sig(vs, es, c2)
    {
      FinalPairDiffer(vs0, es0, order, owner, gone, vs1, vs, es, c1, c2);
    }
  }

  lemma FinalPairDiffer(vs0: map<VId, Vertex>, es0: seq<Edge>, order: seq<VId>, owner: map<VId, VId>, gone: seq<VId>,
                        vs1: map<VId, Vertex>, vs: map<VId, Vertex>, es: seq<Edge>, c1: VId, c2: VId)
    requires Ready(vs0, es0, order)
    requires MaxOk(vs0, es0, order, |order|, owner) && es == DetachAll(es0, gone)
    requires forall x :: x in gone ==> IsCall(vs0, x)
    requires forall x :: x in vs0 && x !in gone ==> x in vs1 && vs1[x].value == vs0[x].value && vs1[x].kind == vs0[x].kind
    requires Survivors(vs0, owner, vs) && RemovedAre(gone, owner)
    requires forall v :: v in vs ==> vs[v].value == vs1[v].value && vs[v].kind == vs1[v].kind
    requires IsCall(vs, c1) && IsCall(vs, c2) && c1 != c2 && SameTime(es, c1, c2)
    ensures Sig(vs, es, c1) != Sig(vs, es, c2)
  {
    SigStable(vs0, es0, gone, vs, c1);
    SigStable(vs0, es0, gone, vs, c2);
    SameTimeKept(es0, gone, c1, c2);
    SurvivorsDiffer(vs0, es0, order, owner, c1, c2);
  }

  /** Two calls at the same time after the removals were already at the same time before. */
  lemma SameTimeKept(es0: seq<Edge>, gone: seq<VId>, c1: VId, c2: VId)
    requires SameTime(DetachAll(es0, gone), c1, c2)
    ensures ShareTime(es0, c1, c2) && ShareTime(es0, c2, c1)
  {
    var es := DetachAll(es0, gone);
    var ea, eb :| ea in es && eb in es && ea.src == c1 && ea.rel == AtTime && eb.src == c2 && eb.rel == AtTime && eb.dst == ea.dst;
    assert SameTime(es0, c1, c2);
    SameTimeShared(es0, c1, c2);
  }

  /** The maximality invariant at the end: two surviving calls at the same time are not duplicates. */
  lemma SurvivorsDiffer(vs0: map<VId, Vertex>, es0: seq<Edge>, order: seq<VId>, owner: map<VId, VId>, c1: VId, c2: VId)
    requires Ready(vs0, es0, order) && MaxOk(vs0, es0, order, |order|, owner)
    requires IsCall(vs0, c1) && IsCall(vs0, c2) && c1 != c2 && c1 !in owner && c2 !in owner
    requires ShareTime(es0, c1, c2) && ShareTime(es0, c2, c1)
    ensures Sig(vs0, es0, c1) != Sig(vs0, es0, c2)
  {
    assert c1 in order && c2 in order;
    var a :| 0 <= a < |order| && order[a] == c1;
    var b :| 0 <= b < |order| && order[b] == c2;
    if a < b {
      assert !Duplicate(vs0, es0, c1, c2);
    } else {
      assert !Duplicate(vs0, es0, c2, c1);
    }
  }

  /**
   * What value() fails with: the vertex holds no value of the key ("property
   * does not exist"), or several values of a multi-valued key.
   */
  datatype PropertyError = NoSuchProperty(key: string) | MultipleProperties(key: string)

  /**
   * Lines 90 and 98 as written: `visited` is read with value(), which has
   * no value to give while the property was never written.
   */
  function VisitedAsWritten(vs: map<VId, Vertex>, c: VId): (r: Result<bool, PropertyError>)
    requires c in vs
    ensures r.Failure? <==> vs[c].visited.None?
    ensures r.Failure? ==> r.error == NoSuchProperty("visited")
    ensures r.Success? ==> (r.value <==> vs[c].visited == Some(true))
  {
    match vs[c].visited
    case None => Failure(NoSuchProperty("visited"))
    case Some(b) => Success(b)
  }

  /**
   * On a graph whose calls were loaded without a `visited` property, the
   * first read at line 90 already fails, so minimize as written cannot run.
   */
  lemma VisitedUnsetFails(vs0: map<VId, Vertex>, es0: seq<Edge>, order: seq<VId>)
    requires Ready(vs0, es0, order) && order != []
    requires forall v :: IsCall(vs0, v) ==> vs0[v].visited == None
    ensures order[0] in vs0 && VisitedAsWritten(vs0, order[0]) == Failure(NoSuchProperty("visited"))
  {
    assert order[0] in order;
  }

  /** A concrete graph of one call, loaded as DataReader.newCall leaves it. */
  lemma OneCallFails()
    ensures VisitedAsWritten(map[0 := Vertex("call", "", [12.0], None)], 0).Failure?
  {
  }

  /**
   * Line 130 as written: otherCall.value("duration") on the LIST-valued
   * duration key gives its one value, and fails when the call holds none or
   * several.
   */
  function DurationAsWritten(vs: map<VId, Vertex>, d: VId): (r: Result<real, PropertyError>)
    requires d in vs
    ensures r.Success? <==> |vs[d].duration| == 1
    ensures r.Success? ==> [r.value] == vs[d].duration
    ensures |vs[d].duration| == 0 ==> r == Failure(NoSuchProperty("duration"))
    ensures |vs[d].duration| > 1 ==> r == Failure(MultipleProperties("duration"))
  {
    if |vs[d].duration| == 0 then Failure(NoSuchProperty("duration"))
    else if |vs[d].duration| > 1 then Failure(MultipleProperties("duration"))
    else Success(vs[d].duration[0])
  }

  /** The durations of calls holding one duration each: one per call. */
  lemma {:induction false} FlattenSingles(vs: map<VId, Vertex>, ds: seq<VId>)
    requires forall d :: d in ds ==> d in vs && |vs[d].duration| == 1
    ensures |Flatten(vs, ds)| == |ds|
  {
    if ds != [] {
      FlattenSingles(vs, ds[..|ds| - 1]);
    }
  }

  /**
   * After a minimize of calls that each held one duration, reading a
   * survivor's duration as line 130 does succeeds exactly when it absorbed
   * nothing: a call that absorbed another holds several durations, so a
   * later minimize that offers it as a candidate throws there.
   */
  lemma MergedDurationFails(vs0: map<VId, Vertex>, es0: seq<Edge>, owner: map<VId, VId>, merged: map<VId, seq<VId>>,
                            gone: seq<VId>, vs: map<VId, Vertex>, es: seq<Edge>, c: VId)
    requires Merged(vs0, es0, owner, merged, gone, vs, es) && OwnerOk(vs0, es0, owner, merged)
    requires forall v :: IsCall(vs0, v) ==> |vs0[v].duration| == 1
    requires c in merged
    ensures c in vs && (DurationAsWritten(vs, c).Success? <==> merged[c] == [])
  {
    assert IsCall(vs0, c) && c !in owner;
    forall d | d in merged[c] ensures d in vs0 && |vs0[d].duration| == 1 {
      assert d in owner && owner[d] == c;
      assert Duplicate(vs0, es0, owner[d], d);
    }
    FlattenSingles(vs0, merged[c]);
    assert vs[c] == Minimized(vs0, merged, c);
  }

  /**
   * Two calls of 12 and 30 seconds, the second absorbed by the first: the
   * survivor holds both durations and the read at line 130 fails on it.
   */
  lemma MergedPairFails()
    ensures var vs0 := map[0 := Vertex("call", "", [12.0], None), 1 := Vertex("call", "", [30.0], None)];
            var survivor := Minimized(vs0, map[0 := [1]], 0);
            survivor.duration == [12.0, 30.0]
            && DurationAsWritten(map[0 := survivor], 0) == Failure(MultipleProperties("duration"))
  {
    var vs0 := map[0 := Vertex("call", "", [12.0], None), 1 := Vertex("call", "", [30.0], None)];
    assert Flatten(vs0, [1]) == Flatten(vs0, []) + [30.0];
  }
}
