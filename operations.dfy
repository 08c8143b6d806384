/**
 * Operations.aggregate and the two rollUp operations. A roll-up climbs the
 * dimension hierarchy (once per pair of levels, in list order), then merges
 * the duplicate calls that the climbs produced, and finally reduces each
 * call's duration list, unless the aggregation is ARRAY.
 */
module Operations {
  import opened Wrappers
  import opened Graph
  import opened Aggregations
  import Climb
  import Minimize

  /** The exception aggregate lets escape: agg failed on the durations of `call`. */
  datatype AggregateError = AggregateFailed(call: VId, error: AggError)

  /** The exceptions a roll-up lets escape, from climb or from aggregate. */
  datatype RollUpError = ClimbFailed(climb: Climb.ClimbError) | AggregationFailed(aggregate: AggregateError)

  // ---------------------------------------------------------------------
  // aggregate

  /** Whether agg succeeds on the durations of every call. */
  ghost predicate Reducible(vs: map<VId, Vertex>, a: Aggregation)
  {
    forall v :: Minimize.IsCall(vs, v) ==> Agg(vs[v].duration, a).Success?
  }

  /** Vertex `v` after aggregate: a call whose durations agg reduces holds that one value. */
  ghost function Aggregated(vs: map<VId, Vertex>, a: Aggregation, v: VId): Vertex
    requires v in vs
  {
    var r := Agg(vs[v].duration, a);
    if Minimize.IsCall(vs, v) && r.Success? then vs[v].(duration := [r.value]) else vs[v]
  }

  /** The vertices once the calls of `done` have been aggregated. */
  ghost predicate AggregatedUpTo(vs0: map<VId, Vertex>, a: Aggregation, done: seq<VId>, vs: map<VId, Vertex>)
  {
    vs.Keys == vs0.Keys && (forall v :: v in vs ==> vs[v] == if v in done then Aggregated(vs0, a, v) else vs0[v])
    && forall v :: v in done ==> v in vs0 && Agg(vs0[v].duration, a).Success?
  }

  /** `calls` lists every call of `vs0` once. */
  ghost predicate CallList(vs0: map<VId, Vertex>, calls: seq<VId>)
  {
    Minimize.Distinct(calls) && (forall v :: v in calls <==> Minimize.IsCall(vs0, v))
    && forall i :: 0 <= i < |calls| ==> calls[i] in vs0 && Minimize.IsCall(vs0, calls[i])
  }

  /**
   * The state aggregate leaves when agg fails on `e.call`: that call has lost
   * its durations, every other call is aggregated or untouched.
   */
  ghost predicate FailedAt(vs0: map<VId, Vertex>, a: Aggregation, e: AggregateError, vs: map<VId, Vertex>)
  {
    Minimize.IsCall(vs0, e.call) && Agg(vs0[e.call].duration, a) == Failure(e.error) &&
    vs.Keys == vs0.Keys && vs[e.call] == vs0[e.call].(duration := []) &&
    forall v :: v in vs && v != e.call ==> vs[v] == vs0[v] || vs[v] == Aggregated(vs0, a, v)
  }

  /** graph.traversal().V().has("type", "call"): every call once, in an order the model leaves open. */
  method ListCalls(g: PropertyGraph) returns (calls: seq<VId>)
    ensures Minimize.Distinct(calls)
    ensures forall v :: v in calls <==> Minimize.IsCall(g.vertices, v)
  {
    calls := [];
    var left := g.vertices.Keys;
    while left != {}
      invariant left <= g.vertices.Keys
      invariant Minimize.Distinct(calls)
      invariant forall v :: v in calls <==> Minimize.IsCall(g.vertices, v) && v !in left
      decreases left
    {
      var v :| v in left;
      if g.vertices[v].kind == "call" {
        assert v !in calls;
        calls := calls + [v];
      }
      left := left - {v};
    }
  }

  /**
   * aggregate(a): each call's duration list is replaced by agg of it. The
   * first call on which agg throws ends the operation with that exception.
   */
  method Aggregate(g: PropertyGraph, a: Aggregation) returns (r: Outcome<AggregateError>)
    requires g.Valid()
    modifies g
    ensures g.Valid() && g.edges == old(g.edges) && g.vertices.Keys == old(g.vertices).Keys
    ensures r.Pass? <==> Reducible(old(g.vertices), a)
    ensures r.Pass? ==> forall v :: v in g.vertices ==> g.vertices[v] == Aggregated(old(g.vertices), a, v)
    ensures r.Fail? ==> FailedAt(old(g.vertices), a, r.error, g.vertices)
  {
    ghost var vs0 := g.vertices;
    var calls := ListCalls(g);
    forall i | 0 <= i < |calls| ensures calls[i] in vs0 && Minimize.IsCall(vs0, calls[i]) {
      assert calls[i] in calls;
    }
    var j := 0;
    while j < |calls|
      invariant 0 <= j <= |calls|
      invariant g.Valid() && g.edges == old(g.edges)
      invariant CallList(vs0, calls) && AggregatedUpTo(vs0, a, calls[..j], g.vertices)
    {
      var failed;
      failed := AggregateCall(g, vs0, a, calls, j);
      if failed.Some? {
        return Fail(AggregateFailed(calls[j], failed.value));
      }
      j := j + 1;
    }
    AggregateDone(vs0, a, calls, g.vertices);
    return Pass;
  }

  /** One call of the aggregate loop: its durations are removed, then replaced by agg of them. */
  method AggregateCall(g: PropertyGraph, ghost vs0: map<VId, Vertex>, a: Aggregation, calls: seq<VId>, j: nat)
    returns (failed: Option<AggError>)
    requires g.Valid() && j < |calls| && CallList(vs0, calls)
    requires AggregatedUpTo(vs0, a, calls[..j], g.vertices)
    modifies g
    ensures g.Valid() && g.edges == old(g.edges)
    ensures failed.None? ==> AggregatedUpTo(vs0, a, calls[..j + 1], g.vertices)
    ensures failed.Some? ==> FailedAt(vs0, a, AggregateFailed(calls[j], failed.value), g.vertices)
  {
    var c := calls[j];
    AggregatePending(vs0, a, calls, j, g.vertices);
    var ds := g.vertices[c].duration;
    g.SetProperties(c, [], g.vertices[c].visited);
    var res := Agg(ds, a);
    if res.Failure? {
      AggregateStepFails(vs0, a, calls, j, old(g.vertices));
      return Some(res.error);
    }
    AggregateStepPasses(vs0, a, calls, j, old(g.vertices));
    g.SetProperties(c, [res.value], g.vertices[c].visited);
    return None;
  }

  /** The next call of the loop is still as it was. */
  lemma AggregatePending(vs0: map<VId, Vertex>, a: Aggregation, calls: seq<VId>, j: nat, vs: map<VId, Vertex>)
    requires j < |calls| && CallList(vs0, calls) && AggregatedUpTo(vs0, a, calls[..j], vs)
    ensures calls[j] in vs && vs[calls[j]] == vs0[calls[j]]
  {
    var c := calls[j];
    assert c !in calls[..j] by {
      forall i | 0 <= i < j ensures calls[i] != c { }
    }
  }

  lemma AggregateStepPasses(vs0: map<VId, Vertex>, a: Aggregation, calls: seq<VId>, j: nat, vs: map<VId, Vertex>)
    requires j < |calls| && CallList(vs0, calls) && AggregatedUpTo(vs0, a, calls[..j], vs)
    requires Agg(vs0[calls[j]].duration, a).Success?
    ensures AggregatedUpTo(vs0, a, calls[..j + 1],
                           vs[calls[j] := vs[calls[j]].(duration := [Agg(vs0[calls[j]].duration, a).value])])
  {
    AggregatePending(vs0, a, calls, j, vs);
    assert calls[..j + 1] == calls[..j] + [calls[j]];
  }

  lemma AggregateStepFails(vs0: map<VId, Vertex>, a: Aggregation, calls: seq<VId>, j: nat, vs: map<VId, Vertex>)
    requires j < |calls| && CallList(vs0, calls) && AggregatedUpTo(vs0, a, calls[..j], vs)
    requires Agg(vs0[calls[j]].duration, a).Failure?
    ensures FailedAt(vs0, a, AggregateFailed(calls[j], Agg(vs0[calls[j]].duration, a).error),
                     vs[calls[j] := vs[calls[j]].(duration := [])])
  {
    AggregatePending(vs0, a, calls, j, vs);
  }

  lemma AggregateDone(vs0: map<VId, Vertex>, a: Aggregation, calls: seq<VId>, vs: map<VId, Vertex>)
    requires CallList(vs0, calls) && AggregatedUpTo(vs0, a, calls[..|calls|], vs)
    ensures Reducible(vs0, a)
    ensures forall v :: v in vs ==> vs[v] == Aggregated(vs0, a, v)
  {
    assert calls[..|calls|] == calls;
  }

  /**
   * After a successful aggregate every call holds exactly one duration, agg
   * of its former list, and that value does not depend on the order of the list.
   */
  lemma AggregatedCall(vs: map<VId, Vertex>, a: Aggregation, v: VId, ds: seq<real>)
    requires Reducible(vs, a) && Minimize.IsCall(vs, v) && multiset(ds) == multiset(vs[v].duration)
    ensures |Aggregated(vs, a, v).duration| == 1
    ensures Success(Aggregated(vs, a, v).duration[0]) == Agg(ds, a)
    ensures Aggregated(vs, a, v).kind == vs[v].kind && Aggregated(vs, a, v).value == vs[v].value
  {
    AggPermutation(ds, vs[v].duration, a);
  }

  /** Aggregating an aggregated call again leaves it as it is, except that COUNT makes it 1. */
  lemma ReaggregateStable(vs: map<VId, Vertex>, a: Aggregation, v: VId)
    requires Reducible(vs, a) && Minimize.IsCall(vs, v)
    ensures Agg(Aggregated(vs, a, v).duration, a) == if a == Count then Success(1.0) else Agg(vs[v].duration, a)
  {
    var x := Agg(vs[v].duration, a).value;
    assert Aggregated(vs, a, v).duration == [x];
    TotalSingle(x);
  }

  // ---------------------------------------------------------------------
  // What a roll-up expects of the graph and what each step makes of it.

  /** Calls are sources and none is marked visited: what minimize expects, as ingestion and minimize leave it. */
  ghost predicate CallsReady(vs: map<VId, Vertex>, es: seq<Edge>)
  {
    Minimize.CallsAreSources(vs, es) && forall v :: Minimize.IsCall(vs, v) ==> vs[v].visited != Some(true)
  }

  /** The graph a climb with search level `n` and rewrite order `order` leaves. */
  ghost predicate ClimbStep(st: GraphState, bottom: string, top: string, rank: map<VId, nat>,
                            n: nat, order: seq<seq<VId>>, st': GraphState)
    requires Wellformed(st.vertices, st.edges) && Climb.Ranked(st.vertices, st.edges, rank)
  {
    Climb.Level(st.vertices, st.edges, bottom, top, rank) == Some(n) &&
    (forall j :: 0 <= j < |order| ==> |order[j]| > 0) &&
    (forall p :: p in order <==> p in Climb.TopWalks(st.vertices, Climb.Walks(st.vertices, st.edges, bottom, n), top)) &&
    (forall j, k :: 0 <= j < k < |order| ==> order[j] != order[k]) &&
    st' == Climb.RewriteAll(st, order)
  }

  /** A successful climb(bottom, top) leads from `st` to `st'`, in some rewrite order. */
  ghost predicate Climbed(st: GraphState, bottom: string, top: string, rank: map<VId, nat>, st': GraphState)
    requires Wellformed(st.vertices, st.edges) && Climb.Ranked(st.vertices, st.edges, rank)
  {
    exists n: nat, order: seq<seq<VId>> :: ClimbStep(st, bottom, top, rank, n, order, st')
  }

  /** minimize leads from `st` to `st'`, and leaves nothing to merge. */
  ghost predicate Minimized(st: GraphState, st': GraphState)
  {
    (exists owner: map<VId, VId>, merged: map<VId, seq<VId>>, gone: seq<VId> ::
      Minimize.Merged(st.vertices, st.edges, owner, merged, gone, st'.vertices, st'.edges)) &&
    Minimize.NoDuplicates(st'.vertices, st'.edges)
  }

  /** Dropping vertices and edges keeps the hierarchy ranked. */
  lemma RankedKept(vs: map<VId, Vertex>, es: seq<Edge>, vs': map<VId, Vertex>, es': seq<Edge>, rank: map<VId, nat>)
    requires Climb.Ranked(vs, es, rank) && vs'.Keys <= vs.Keys && forall e :: e in es' ==> e in es
    ensures Climb.Ranked(vs', es', rank)
  {
    forall i | 0 <= i < |es'| && es'[i].rel == ExtendsFrom
      ensures es'[i].src in rank && es'[i].dst in rank && rank[es'[i].src] < rank[es'[i].dst]
    {
      assert es'[i] in es;
      var k :| 0 <= k < |es| && es[k] == es'[i];
    }
  }

  /** A climb to a level other than "call" keeps the graph ready for minimize. */
  lemma ClimbKeepsReady(st: GraphState, order: seq<seq<VId>>, rank: map<VId, nat>, top: string)
    requires CallsReady(st.vertices, st.edges) && Climb.Ranked(st.vertices, st.edges, rank) && top != "call"
    requires forall j :: 0 <= j < |order| ==> |order[j]| > 0 && Climb.Rewritable(st.vertices, rank, top, order[j])
    ensures CallsReady(Climb.RewriteAll(st, order).vertices, Climb.RewriteAll(st, order).edges)
  {
    var st' := Climb.RewriteAll(st, order);
    Climb.RewriteAllShrinks(st, order, rank, top);
    Climb.RewriteAllEdges(st, order, rank, top);
    forall i | 0 <= i < |st'.edges| ensures !Minimize.IsCall(st'.vertices, st'.edges[i].dst) {
      var e := st'.edges[i];
      assert e in st'.edges;
      if e in st.edges {
        var k :| 0 <= k < |st.edges| && st.edges[k] == e;
      }
    }
  }

  /** The graph minimize leaves is ready for the next minimize and still ranked. */
  lemma MinimizeKeepsReady(st: GraphState, st': GraphState, rank: map<VId, nat>)
    requires CallsReady(st.vertices, st.edges) && Climb.Ranked(st.vertices, st.edges, rank)
    requires Minimized(st, st')
    ensures CallsReady(st'.vertices, st'.edges) && Climb.Ranked(st'.vertices, st'.edges, rank)
  {
    var owner, merged, gone :| Minimize.Merged(st.vertices, st.edges, owner, merged, gone, st'.vertices, st'.edges);
    RankedKept(st.vertices, st.edges, st'.vertices, st'.edges, rank);
    forall v | v in st'.vertices ensures v in st.vertices && st'.vertices[v].kind == st.vertices[v].kind {
      assert v in st.vertices;
    }
    forall i | 0 <= i < |st'.edges| ensures !Minimize.IsCall(st'.vertices, st'.edges[i].dst) {
      var e := st'.edges[i];
      assert e in st.edges;
      var k :| 0 <= k < |st.edges| && st.edges[k] == e;
    }
    forall v | Minimize.IsCall(st'.vertices, v) ensures st'.vertices[v].visited == Some(false) {
      assert v in merged;
    }
  }

  /** Aggregating keeps the graph ready for minimize and ranked: it changes durations only. */
  lemma AggregateKeepsReady(vs0: map<VId, Vertex>, es: seq<Edge>, vs: map<VId, Vertex>, a: Aggregation, rank: map<VId, nat>)
    requires CallsReady(vs0, es) && Climb.Ranked(vs0, es, rank) && vs.Keys == vs0.Keys
    requires forall v :: v in vs ==> vs[v].kind == vs0[v].kind && vs[v].visited == vs0[v].visited
    ensures CallsReady(vs, es) && Climb.Ranked(vs, es, rank)
  {
    forall i | 0 <= i < |es| ensures !Minimize.IsCall(vs, es[i].dst) {
      assert !Minimize.IsCall(vs0, es[i].dst);
    }
  }

  // ---------------------------------------------------------------------
  // rollUp

  /** climb(bottom, top), with the failure mapped to the roll-up's error and the result packaged for the callers. */
  method ClimbOnce(g: PropertyGraph, bottom: string, top: string, ghost rank: map<VId, nat>)
    returns (r: Outcome<RollUpError>)
    requires g.Valid() && Climb.Ranked(g.vertices, g.edges, rank) && CallsReady(g.vertices, g.edges) && top != "call"
    modifies g
    ensures g.Valid() && Climb.Ranked(g.vertices, g.edges, rank) && CallsReady(g.vertices, g.edges)
    ensures r.Fail? <==> Climb.Level(old(g.vertices), old(g.edges), bottom, top, rank).None?
    ensures r.Fail? ==> r.error == ClimbFailed(Climb.TopNotFound(bottom, top)) && g.State() == old(g.State())
    ensures r.Pass? ==> Climbed(old(g.State()), bottom, top, rank, g.State())
  {
    ghost var st0 := g.State();
    var c;
    ghost var n, order;
    c, n, order := Climb.Climb(g, bottom, top, rank);
    if c.Fail? {
      return Fail(ClimbFailed(c.error));
    }
    forall j | 0 <= j < |order| ensures |order[j]| > 0 && Climb.Rewritable(st0.vertices, rank, top, order[j]) {
      assert order[j] in order;
      Climb.TopWalkRewritable(st0.vertices, st0.edges, bottom, top, rank, n, order[j]);
    }
    ClimbKeepsReady(st0, order, rank, top);
    assert ClimbStep(st0, bottom, top, rank, n, order, g.State());
    return Pass;
  }

  /** minimize over the calls in the order the storage lists them. */
  method MinimizeAll(g: PropertyGraph, ghost rank: map<VId, nat>)
    requires g.Valid() && Climb.Ranked(g.vertices, g.edges, rank) && CallsReady(g.vertices, g.edges)
    modifies g
    ensures g.Valid() && Climb.Ranked(g.vertices, g.edges, rank) && CallsReady(g.vertices, g.edges)
    ensures Minimized(old(g.State()), g.State())
  {
    ghost var st0 := g.State();
    var calls := ListCalls(g);
    ghost var owner, merged, gone := Minimize.Minimize(g, calls);
    assert Minimize.Merged(st0.vertices, st0.edges, owner, merged, gone, g.vertices, g.edges);
    MinimizeKeepsReady(st0, g.State(), rank);
  }

  /** The aggregation step of a roll-up: none for ARRAY, aggregate(a) otherwise. */
  method Reduce(g: PropertyGraph, a: Aggregation, ghost rank: map<VId, nat>) returns (r: Outcome<RollUpError>)
    requires g.Valid() && Climb.Ranked(g.vertices, g.edges, rank) && CallsReady(g.vertices, g.edges)
    modifies g
    ensures g.Valid() && Climb.Ranked(g.vertices, g.edges, rank) && CallsReady(g.vertices, g.edges)
    ensures g.edges == old(g.edges) && g.vertices.Keys == old(g.vertices).Keys
    ensures Reduced(old(g.vertices), a, r, g.vertices)
  {
    if a == Array {
      return Pass;
    }
    ghost var vs0 := g.vertices;
    var res := Aggregate(g, a);
    AggregateKeepsReady(vs0, g.edges, g.vertices, a, rank);
    if res.Fail? {
      return Fail(AggregationFailed(res.error));
    }
    return Pass;
  }

  /**
   * The last step of a roll-up, from the minimized vertices `vs0` to `vs`:
   * nothing for ARRAY; otherwise aggregate, which passes exactly when agg
   * succeeds on every call.
   */
  ghost predicate Reduced(vs0: map<VId, Vertex>, a: Aggregation, r: Outcome<RollUpError>, vs: map<VId, Vertex>)
  {
    (a == Array ==> r.Pass? && vs == vs0) &&
    (a != Array ==> (r.Pass? <==> Reducible(vs0, a))) &&
    (a != Array && r.Pass? ==> forall v :: v in vs ==> v in vs0 && vs[v] == Aggregated(vs0, a, v)) &&
    (r.Fail? ==> r.error.AggregationFailed? && FailedAt(vs0, a, r.error.aggregate, vs))
  }

  /** minimize once, then the aggregation step: what both roll-ups do after their climbs. */
  method MinimizeAndReduce(g: PropertyGraph, a: Aggregation, ghost rank: map<VId, nat>)
    returns (r: Outcome<RollUpError>, ghost minimized: GraphState)
    requires g.Valid() && Climb.Ranked(g.vertices, g.edges, rank) && CallsReady(g.vertices, g.edges)
    modifies g
    ensures g.Valid() && Climb.Ranked(g.vertices, g.edges, rank) && CallsReady(g.vertices, g.edges)
    ensures Minimized(old(g.State()), minimized)
    ensures g.edges == minimized.edges && g.vertices.Keys == minimized.vertices.Keys
    ensures Reduced(minimized.vertices, a, r, g.vertices)
  {
    MinimizeAll(g, rank);
    minimized := g.State();
    r := Reduce(g, a, rank);
  }

  /**
   * rollUp(bottom, top, agg): climb, then minimize once, then aggregate
   * unless agg is ARRAY. `climbed` and `minimized` are the graphs after the
   * first two steps.
   */
  method RollUp(g: PropertyGraph, bottom: string, top: string, a: Aggregation, ghost rank: map<VId, nat>)
    returns (r: Outcome<RollUpError>, ghost climbed: GraphState, ghost minimized: GraphState)
    requires g.Valid() && Climb.Ranked(g.vertices, g.edges, rank) && CallsReady(g.vertices, g.edges) && top != "call"
    modifies g
    ensures g.Valid() && Climb.Ranked(g.vertices, g.edges, rank) && CallsReady(g.vertices, g.edges)
    ensures r == Fail(ClimbFailed(Climb.TopNotFound(bottom, top))) <==>
      Climb.Level(old(g.vertices), old(g.edges), bottom, top, rank).None?
    ensures r.Fail? && r.error.ClimbFailed? ==> r.error.climb == Climb.TopNotFound(bottom, top) && g.State() == old(g.State())
    ensures !(r.Fail? && r.error.ClimbFailed?) ==>
      Climbed(old(g.State()), bottom, top, rank, climbed) && Minimized(climbed, minimized) &&
      g.edges == minimized.edges && g.vertices.Keys == minimized.vertices.Keys &&
      Reduced(minimized.vertices, a, r, g.vertices)
  {
    climbed, minimized := g.State(), g.State();
    r := ClimbOnce(g, bottom, top, rank);
    if r.Fail? {
      return;
    }
    climbed := g.State();
    r, minimized := MinimizeAndReduce(g, a, rank);
  }

  /** The graphs after each climb of `pairs`, from `stages[0]` on, each step a successful climb. */
  ghost predicate ClimbChain(pairs: seq<(string, string)>, rank: map<VId, nat>, stages: seq<GraphState>)
  {
    |stages| <= |pairs| + 1 &&
    (forall i :: 0 <= i < |stages| ==>
      Wellformed(stages[i].vertices, stages[i].edges) && Climb.Ranked(stages[i].vertices, stages[i].edges, rank)) &&
    forall i :: 0 <= i < |stages| - 1 ==> Climbed(stages[i], pairs[i].0, pairs[i].1, rank, stages[i + 1])
  }

  /**
   * rollUp(bottomTops, agg): the climbs in list order, then minimize once,
   * then aggregate unless agg is ARRAY. The first climb that fails ends the
   * roll-up with the earlier climbs applied. `stages` are the graphs before
   * and after each climb that ran.
   */
  method RollUpAll(g: PropertyGraph, pairs: seq<(string, string)>, a: Aggregation, ghost rank: map<VId, nat>)
    returns (r: Outcome<RollUpError>, ghost stages: seq<GraphState>, ghost minimized: GraphState)
    requires g.Valid() && Climb.Ranked(g.vertices, g.edges, rank) && CallsReady(g.vertices, g.edges)
    requires forall i :: 0 <= i < |pairs| ==> pairs[i].1 != "call"
    modifies g
    ensures g.Valid() && Climb.Ranked(g.vertices, g.edges, rank) && CallsReady(g.vertices, g.edges)
    ensures |stages| > 0 && stages[0] == old(g.State()) && ClimbChain(pairs, rank, stages)
    ensures r.Fail? && r.error.ClimbFailed? ==>
      |stages| <= |pairs| && g.State() == stages[|stages| - 1] &&
      r.error.climb == Climb.TopNotFound(pairs[|stages| - 1].0, pairs[|stages| - 1].1) &&
      Climb.Level(g.vertices, g.edges, pairs[|stages| - 1].0, pairs[|stages| - 1].1, rank).None?
    ensures !(r.Fail? && r.error.ClimbFailed?) ==>
      |stages| == |pairs| + 1 && Minimized(stages[|pairs|], minimized) &&
      g.edges == minimized.edges && g.vertices.Keys == minimized.vertices.Keys &&
      Reduced(minimized.vertices, a, r, g.vertices)
  {
    stages := [g.State()];
    minimized := g.State();
    var i := 0;
    while i < |pairs|
      invariant 0 <= i <= |pairs| && |stages| == i + 1 && stages[0] == old(g.State())
      invariant g.Valid() && Climb.Ranked(g.vertices, g.edges, rank) && CallsReady(g.vertices, g.edges)
      invariant g.State() == stages[i] && ClimbChain(pairs, rank, stages)
    {
      r := ClimbOnce(g, pairs[i].0, pairs[i].1, rank);
      if r.Fail? {
        return;
      }
      stages := ExtendChain(pairs, rank, stages, g.State());
      i := i + 1;
    }
    r, minimized := MinimizeAndReduce(g, a, rank);
  }

  /** One more successful climb extends the chain of stages. */
  lemma ExtendChain(pairs: seq<(string, string)>, rank: map<VId, nat>, stages: seq<GraphState>, next: GraphState)
    returns (stages': seq<GraphState>)
    requires ClimbChain(pairs, rank, stages) && 0 < |stages| <= |pairs|
    requires Wellformed(next.vertices, next.edges) && Climb.Ranked(next.vertices, next.edges, rank)
    requires Climbed(stages[|stages| - 1], pairs[|stages| - 1].0, pairs[|stages| - 1].1, rank, next)
    ensures stages' == stages + [next] && ClimbChain(pairs, rank, stages')
  {
    stages' := stages + [next];
    forall i | 0 <= i < |stages'| - 1
      ensures Climbed(stages'[i], pairs[i].0, pairs[i].1, rank, stages'[i + 1])
    {
      if i < |stages| - 1 {
        assert stages'[i] == stages[i] && stages'[i + 1] == stages[i + 1];
      }
    }
  }
}
