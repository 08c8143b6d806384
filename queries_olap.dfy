/**
 * QueriesOlap: the call queries run as OLAP operations on the graph. Each
 * query first rolls the graph up (and, for the April queries, dices it),
 * then walks the paths (level vertex, call, level vertex) through each
 * call, files the calls under the values at the ends and emits the
 * canonical keys. The static `syso` flag is cleared by the first print, so
 * at most one row is ever printed.
 */
module QueriesOlap {

  import opened Wrappers
  import opened JavaStrings
  import opened Graph
  import opened Aggregations
  import opened Buckets
  import opened Emission
  import Climb
  import Operations
  import Dice
  import Minimize
  import opened CallReading
  import opened CallFiling
  import opened ReadingKeys
  import opened CallQueries

  /** The month query1_6 and query2_1 dice on. */
  const April: string := "4-2017"

  // ---------------------------------------------------------------------
  // The operations a query runs before its traversal.

  /**
   * What rollUp(bottom, top, ARRAY) makes of the graph `st`: it fails, and
   * leaves the graph as it was, exactly when no walk from `bottom` reaches
   * `top`; otherwise it climbs and minimizes, and aggregates nothing.
   */
  ghost predicate RolledUp(st: GraphState, bottom: string, top: string, rank: map<VId, nat>,
                           r: Outcome<Operations.RollUpError>, st': GraphState)
    requires Wellformed(st.vertices, st.edges) && Climb.Ranked(st.vertices, st.edges, rank)
  {
    (r.Fail? <==> Climb.Level(st.vertices, st.edges, bottom, top, rank).None?) &&
    (r.Fail? ==> r.error == Operations.ClimbFailed(Climb.TopNotFound(bottom, top)) && st' == st) &&
    (r.Pass? ==> exists climbed :: Operations.Climbed(st, bottom, top, rank, climbed) && Operations.Minimized(climbed, st'))
  }

  /** What the roll-up method promises, for ARRAY, is a RolledUp step. */
  lemma ArrayRolledUp(st: GraphState, bottom: string, top: string, rank: map<VId, nat>, r: Outcome<Operations.RollUpError>,
                      climbed: GraphState, minimized: GraphState, st': GraphState)
    requires Wellformed(st.vertices, st.edges) && Climb.Ranked(st.vertices, st.edges, rank)
    requires r == Fail(Operations.ClimbFailed(Climb.TopNotFound(bottom, top))) <==>
               Climb.Level(st.vertices, st.edges, bottom, top, rank).None?
    requires r.Fail? && r.error.ClimbFailed? ==> r.error.climb == Climb.TopNotFound(bottom, top) && st' == st
    requires !(r.Fail? && r.error.ClimbFailed?) ==>
               Operations.Climbed(st, bottom, top, rank, climbed) && Operations.Minimized(climbed, minimized) &&
               st'.edges == minimized.edges && st'.vertices.Keys == minimized.vertices.Keys &&
               Operations.Reduced(minimized.vertices, Array, r, st'.vertices)
    ensures r.Pass? ==> st' == minimized
    ensures RolledUp(st, bottom, top, rank, r, st')
  {
  }

  /** operations.rollUp(bottom, top, ARRAY), as the queries call it. */
  method RollUpArray(g: PropertyGraph, bottom: string, top: string, ghost rank: map<VId, nat>)
    returns (r: Outcome<Operations.RollUpError>)
    requires g.Valid() && Climb.Ranked(g.vertices, g.edges, rank) && Operations.CallsReady(g.vertices, g.edges) && top != "call"
    modifies g
    ensures g.Valid() && Climb.Ranked(g.vertices, g.edges, rank) && Operations.CallsReady(g.vertices, g.edges)
    ensures RolledUp(old(g.State()), bottom, top, rank, r, g.State())
  {
    ghost var st0 := g.State();
    ghost var climbed, minimized;
    r, climbed, minimized := Operations.RollUp(g, bottom, top, Array, rank);
    ArrayRolledUp(st0, bottom, top, rank, r, climbed, minimized, g.State());
  }

  /**
   * A dice keeps the graph ready for roll-ups: no edge ends at a call, no
   * call is marked visited and the hierarchy stays ranked.
   */
  lemma DiceKeepsReady(vs0: map<VId, Vertex>, es0: seq<Edge>, roots: seq<VId>, removed: seq<VId>,
                       vs: map<VId, Vertex>, es: seq<Edge>, rank: map<VId, nat>)
    requires Dice.Purged(vs0, es0, roots, removed, vs, es)
    requires Operations.CallsReady(vs0, es0) && Climb.Ranked(vs0, es0, rank)
    ensures Operations.CallsReady(vs, es) && Climb.Ranked(vs, es, rank)
  {
    forall i | 0 <= i < |es| ensures !Minimize.IsCall(vs, es[i].dst) {
      assert es[i] in es0;
      var k :| 0 <= k < |es0| && es0[k] == es[i];
      assert !Minimize.IsCall(vs0, es0[k].dst);
    }
    Operations.RankedKept(vs0, es0, vs, es, rank);
  }

  // ---------------------------------------------------------------------
  // query, getPaths and forEachPair.

  /** The labels getPaths follows into a call: calledBy when the caller must differ, otherwise both party labels. */
  function Ins(diffCaller: bool): (r: set<EdgeLabel>)
    ensures r <= Parties && (diffCaller <==> IntegratedBy !in r)
  {
    if diffCaller then {CalledBy} else Parties
  }

  /** The labels getPaths follows out of a call: integratedBy when the caller must differ, otherwise both party labels. */
  function Outs(diffCaller: bool): (r: set<EdgeLabel>)
    ensures r <= Parties && (diffCaller <==> CalledBy !in r)
  {
    if diffCaller then {IntegratedBy} else Parties
  }

  /** getPaths(bottom, diffCaller): the paths (bottom vertex, call, party) through each call. */
  function GetPaths(vs: map<VId, Vertex>, es: seq<Edge>, bottom: string, diffCaller: bool): (r: set<Source>)
    ensures forall src :: src in r ==> src.Path?
  {
    PathsOf(vs, es, bottom, Ins(diffCaller), Outs(diffCaller))
  }

  /**
   * query(top, agg, diffCaller): roll timestamps up to allTimes, roll
   * phones up to `top` unless it is "phone", then forEachPair over
   * getPaths(top, diffCaller). A failing roll-up ends the query. `st1` is
   * the graph after the first roll-up, `r1` and `r2` the roll-ups' outcomes.
   */
  method Query(g: PropertyGraph, top: string, a: Aggregation, diffCaller: bool, ghost rank: map<VId, nat>, console: Console)
    returns (r: Result<seq<Row>, QueryError>, ghost st1: GraphState,
             r1: Outcome<Operations.RollUpError>, r2: Outcome<Operations.RollUpError>,
             ghost filed: Result<Buckets, QueryError>, ghost emitted: Result<seq<Row>, AggError>, ghost shown: seq<Row>)
    requires g.Valid() && Climb.Ranked(g.vertices, g.edges, rank) && Operations.CallsReady(g.vertices, g.edges)
    requires top != "call"
    requires console.Valid() && console.clears
    modifies g, console
    ensures g.Valid() && Climb.Ranked(g.vertices, g.edges, rank) && Operations.CallsReady(g.vertices, g.edges)
    ensures console.Valid() && console.lines == old(console.lines) + Shown(old(console.syso), true, shown)
    ensures RolledUp(old(g.State()), "timestamp", "allTimes", rank, r1, st1)
    ensures Wellformed(st1.vertices, st1.edges) && Climb.Ranked(st1.vertices, st1.edges, rank)
    ensures r1.Fail? ==> r == Failure(RollUpFailed(r1.error)) && g.State() == st1 && shown == []
    ensures r1.Pass? && top == "phone" ==> r2 == Pass && g.State() == st1
    ensures r1.Pass? && top != "phone" ==> RolledUp(st1, "phone", top, rank, r2, g.State())
    ensures r1.Pass? && r2.Fail? ==> r == Failure(RollUpFailed(r2.error)) && shown == []
    ensures r1.Pass? && r2.Pass? ==>
              Ran(PathEnds, g.vertices, g.edges, GetPaths(g.vertices, g.edges, top, diffCaller), Increasing2, a, r, filed, emitted, shown)
  {
    r1 := RollUpArray(g, "timestamp", "allTimes", rank);
    st1 := g.State();
    filed, emitted, shown := Failure(NoSuchElement(0)), Success([]), [];
    if r1.Fail? {
      return Failure(RollUpFailed(r1.error)), st1, r1, r1, filed, emitted, shown;
    }
    r2 := Pass;
    if top != "phone" {
      r2 := RollUpArray(g, "phone", top, rank);
      if r2.Fail? {
        return Failure(RollUpFailed(r2.error)), st1, r1, r2, filed, emitted, shown;
      }
    }
    r, filed, emitted, shown := RunQuery(PathEnds, g.vertices, g.edges, GetPaths(g.vertices, g.edges, top, diffCaller),
                                         Increasing2, a, console);
  }

  /** query1_1: phones, both party labels, AVG of durations. */
  method Query1_1(g: PropertyGraph, ghost rank: map<VId, nat>, console: Console)
    returns (r: Result<seq<Row>, QueryError>, ghost st1: GraphState,
             r1: Outcome<Operations.RollUpError>, r2: Outcome<Operations.RollUpError>,
             ghost filed: Result<Buckets, QueryError>, ghost emitted: Result<seq<Row>, AggError>, ghost shown: seq<Row>)
    requires g.Valid() && Climb.Ranked(g.vertices, g.edges, rank) && Operations.CallsReady(g.vertices, g.edges)
    requires console.Valid() && console.clears
    modifies g, console
    ensures g.Valid() && console.Valid() && console.lines == old(console.lines) + Shown(old(console.syso), true, shown)
    ensures RolledUp(old(g.State()), "timestamp", "allTimes", rank, r1, st1)
    ensures r1.Fail? ==> r == Failure(RollUpFailed(r1.error)) && g.State() == st1 && shown == []
    ensures r1.Pass? ==> g.State() == st1
    ensures r1.Pass? ==>
              Ran(PathEnds, g.vertices, g.edges, GetPaths(g.vertices, g.edges, "phone", false), Increasing2, Avg, r, filed, emitted, shown)
  {
    r, st1, r1, r2, filed, emitted, shown := Query(g, "phone", Avg, false, rank, console);
  }

  /** query1_2: phones, caller to participant, AVG of durations. */
  method Query1_2(g: PropertyGraph, ghost rank: map<VId, nat>, console: Console)
    returns (r: Result<seq<Row>, QueryError>, ghost st1: GraphState,
             r1: Outcome<Operations.RollUpError>, r2: Outcome<Operations.RollUpError>,
             ghost filed: Result<Buckets, QueryError>, ghost emitted: Result<seq<Row>, AggError>, ghost shown: seq<Row>)
    requires g.Valid() && Climb.Ranked(g.vertices, g.edges, rank) && Operations.CallsReady(g.vertices, g.edges)
    requires console.Valid() && console.clears
    modifies g, console
    ensures g.Valid() && console.Valid() && console.lines == old(console.lines) + Shown(old(console.syso), true, shown)
    ensures RolledUp(old(g.State()), "timestamp", "allTimes", rank, r1, st1)
    ensures r1.Fail? ==> r == Failure(RollUpFailed(r1.error)) && g.State() == st1 && shown == []
    ensures r1.Pass? ==> g.State() == st1
    ensures r1.Pass? ==>
              Ran(PathEnds, g.vertices, g.edges, GetPaths(g.vertices, g.edges, "phone", true), Increasing2, Avg, r, filed, emitted, shown)
  {
    r, st1, r1, r2, filed, emitted, shown := Query(g, "phone", Avg, true, rank, console);
  }

  /** query1_3: phones rolled up to users, MAX of durations. */
  method Query1_3(g: PropertyGraph, ghost rank: map<VId, nat>, console: Console)
    returns (r: Result<seq<Row>, QueryError>, ghost st1: GraphState,
             r1: Outcome<Operations.RollUpError>, r2: Outcome<Operations.RollUpError>,
             ghost filed: Result<Buckets, QueryError>, ghost emitted: Result<seq<Row>, AggError>, ghost shown: seq<Row>)
    requires g.Valid() && Climb.Ranked(g.vertices, g.edges, rank) && Operations.CallsReady(g.vertices, g.edges)
    requires console.Valid() && console.clears
    modifies g, console
    ensures g.Valid() && console.Valid() && console.lines == old(console.lines) + Shown(old(console.syso), true, shown)
    ensures RolledUp(old(g.State()), "timestamp", "allTimes", rank, r1, st1)
    ensures Wellformed(st1.vertices, st1.edges) && Climb.Ranked(st1.vertices, st1.edges, rank)
    ensures r1.Fail? ==> r == Failure(RollUpFailed(r1.error)) && g.State() == st1 && shown == []
    ensures r1.Pass? ==> RolledUp(st1, "phone", "user", rank, r2, g.State())
    ensures r1.Pass? && r2.Fail? ==> r == Failure(RollUpFailed(r2.error)) && shown == []
    ensures r1.Pass? && r2.Pass? ==>
              Ran(PathEnds, g.vertices, g.edges, GetPaths(g.vertices, g.edges, "user", false), Increasing2, Max, r, filed, emitted, shown)
  {
    r, st1, r1, r2, filed, emitted, shown := Query(g, "user", Max, false, rank, console);
  }

  /** query1_4: phones rolled up to users, COUNT of durations. */
  method Query1_4(g: PropertyGraph, ghost rank: map<VId, nat>, console: Console)
    returns (r: Result<seq<Row>, QueryError>, ghost st1: GraphState,
             r1: Outcome<Operations.RollUpError>, r2: Outcome<Operations.RollUpError>,
             ghost filed: Result<Buckets, QueryError>, ghost emitted: Result<seq<Row>, AggError>, ghost shown: seq<Row>)
    requires g.Valid() && Climb.Ranked(g.vertices, g.edges, rank) && Operations.CallsReady(g.vertices, g.edges)
    requires console.Valid() && console.clears
    modifies g, console
    ensures g.Valid() && console.Valid() && console.lines == old(console.lines) + Shown(old(console.syso), true, shown)
    ensures RolledUp(old(g.State()), "timestamp", "allTimes", rank, r1, st1)
    ensures Wellformed(st1.vertices, st1.edges) && Climb.Ranked(st1.vertices, st1.edges, rank)
    ensures r1.Fail? ==> r == Failure(RollUpFailed(r1.error)) && g.State() == st1 && shown == []
    ensures r1.Pass? ==> RolledUp(st1, "phone", "user", rank, r2, g.State())
    ensures r1.Pass? && r2.Fail? ==> r == Failure(RollUpFailed(r2.error)) && shown == []
    ensures r1.Pass? && r2.Pass? ==>
              Ran(PathEnds, g.vertices, g.edges, GetPaths(g.vertices, g.edges, "user", false), Increasing2, Count, r, filed, emitted, shown)
  {
    r, st1, r1, r2, filed, emitted, shown := Query(g, "user", Count, false, rank, console);
  }

  /**
   * query1_6: dice on the April month, then query("user", COUNT). `order`
   * lists the vertices as the storage does; `diced` is the graph the dice
   * leaves.
   */
  method Query1_6(g: PropertyGraph, order: seq<VId>, ghost rank: map<VId, nat>, console: Console)
    returns (r: Result<seq<Row>, QueryError>, ghost diced: GraphState, ghost st1: GraphState,
             r1: Outcome<Operations.RollUpError>, r2: Outcome<Operations.RollUpError>,
             ghost filed: Result<Buckets, QueryError>, ghost emitted: Result<seq<Row>, AggError>, ghost shown: seq<Row>)
    requires g.Valid() && Climb.Ranked(g.vertices, g.edges, rank) && Operations.CallsReady(g.vertices, g.edges)
    requires forall v :: v in order <==> v in g.vertices
    requires console.Valid() && console.clears
    modifies g, console
    ensures g.Valid() && console.Valid() && console.lines == old(console.lines) + Shown(old(console.syso), true, shown)
    ensures exists removed :: Dice.Purged(old(g.vertices), old(g.edges), Dice.PurgeEquals(old(g.vertices), order, "month", April),
                                          removed, diced.vertices, diced.edges)
    ensures Wellformed(diced.vertices, diced.edges) && Climb.Ranked(diced.vertices, diced.edges, rank)
    ensures RolledUp(diced, "timestamp", "allTimes", rank, r1, st1)
    ensures Wellformed(st1.vertices, st1.edges) && Climb.Ranked(st1.vertices, st1.edges, rank)
    ensures r1.Fail? ==> r == Failure(RollUpFailed(r1.error)) && g.State() == st1 && shown == []
    ensures r1.Pass? ==> RolledUp(st1, "phone", "user", rank, r2, g.State())
    ensures r1.Pass? && r2.Fail? ==> r == Failure(RollUpFailed(r2.error)) && shown == []
    ensures r1.Pass? && r2.Pass? ==>
              Ran(PathEnds, g.vertices, g.edges, GetPaths(g.vertices, g.edges, "user", false), Increasing2, Count, r, filed, emitted, shown)
  {
    ghost var vs0, es0 := g.vertices, g.edges;
    ghost var removed := Dice.DiceEquals(g, order, "month", April);
    DiceKeepsReady(vs0, es0, Dice.PurgeEquals(vs0, order, "month", April), removed, g.vertices, g.edges, rank);
    diced := g.State();
    r, st1, r1, r2, filed, emitted, shown := Query(g, "user", Count, false, rank, console);
  }

  /**
   * query1_5: roll timestamps up to months and phones up to users, then
   * file each call under (first user, last user, month) of its paths and
   * emit the keys whose second user sorts before the first, COUNT of
   * durations.
   */
  method Query1_5(g: PropertyGraph, ghost rank: map<VId, nat>, console: Console)
    returns (r: Result<seq<Row>, QueryError>, ghost st1: GraphState,
             r1: Outcome<Operations.RollUpError>, r2: Outcome<Operations.RollUpError>,
             ghost filed: Result<Buckets, QueryError>, ghost emitted: Result<seq<Row>, AggError>, ghost shown: seq<Row>)
    requires g.Valid() && Climb.Ranked(g.vertices, g.edges, rank) && Operations.CallsReady(g.vertices, g.edges)
    requires console.Valid() && console.clears
    modifies g, console
    ensures g.Valid() && console.Valid() && console.lines == old(console.lines) + Shown(old(console.syso), true, shown)
    ensures RolledUp(old(g.State()), "timestamp", "month", rank, r1, st1)
    ensures Wellformed(st1.vertices, st1.edges) && Climb.Ranked(st1.vertices, st1.edges, rank)
    ensures r1.Fail? ==> r == Failure(RollUpFailed(r1.error)) && g.State() == st1 && shown == []
    ensures r1.Pass? ==> RolledUp(st1, "phone", "user", rank, r2, g.State())
    ensures r1.Pass? && r2.Fail? ==> r == Failure(RollUpFailed(r2.error)) && shown == []
    ensures r1.Pass? && r2.Pass? ==>
              Ran(PathEndsMonth, g.vertices, g.edges, PathsOf(g.vertices, g.edges, "user", Parties, Parties),
                  Decreasing2, Count, r, filed, emitted, shown)
  {
    r1 := RollUpArray(g, "timestamp", "month", rank);
    st1 := g.State();
    filed, emitted, shown := Failure(NoSuchElement(0)), Success([]), [];
    if r1.Fail? {
      return Failure(RollUpFailed(r1.error)), st1, r1, r1, filed, emitted, shown;
    }
    r2 := RollUpArray(g, "phone", "user", rank);
    if r2.Fail? {
      return Failure(RollUpFailed(r2.error)), st1, r1, r2, filed, emitted, shown;
    }
    r, filed, emitted, shown := RunQuery(PathEndsMonth, g.vertices, g.edges, PathsOf(g.vertices, g.edges, "user", Parties, Parties),
                                         Decreasing2, Count, console);
  }

  /**
   * query2_1: dice on the April month, roll phones up to users, then file
   * each call under (first user, last user, third user) of its paths and
   * emit the increasing triples, AVG of durations.
   */
  method Query2_1(g: PropertyGraph, order: seq<VId>, ghost rank: map<VId, nat>, console: Console)
    returns (r: Result<seq<Row>, QueryError>, ghost diced: GraphState, r1: Outcome<Operations.RollUpError>,
             ghost filed: Result<Buckets, QueryError>, ghost emitted: Result<seq<Row>, AggError>, ghost shown: seq<Row>)
    requires g.Valid() && Climb.Ranked(g.vertices, g.edges, rank) && Operations.CallsReady(g.vertices, g.edges)
    requires forall v :: v in order <==> v in g.vertices
    requires console.Valid() && console.clears
    modifies g, console
    ensures g.Valid() && console.Valid() && console.lines == old(console.lines) + Shown(old(console.syso), true, shown)
    ensures exists removed :: Dice.Purged(old(g.vertices), old(g.edges), Dice.PurgeEquals(old(g.vertices), order, "month", April),
                                          removed, diced.vertices, diced.edges)
    ensures Wellformed(diced.vertices, diced.edges) && Climb.Ranked(diced.vertices, diced.edges, rank)
    ensures RolledUp(diced, "phone", "user", rank, r1, g.State())
    ensures r1.Fail? ==> r == Failure(RollUpFailed(r1.error)) && shown == []
    ensures r1.Pass? ==>
              Ran(PathEndsThird, g.vertices, g.edges, PathsOf(g.vertices, g.edges, "user", Parties, Parties),
                  Increasing3, Avg, r, filed, emitted, shown)
  {
    ghost var vs0, es0 := g.vertices, g.edges;
    ghost var removed := Dice.DiceEquals(g, order, "month", April);
    DiceKeepsReady(vs0, es0, Dice.PurgeEquals(vs0, order, "month", April), removed, g.vertices, g.edges, rank);
    diced := g.State();
    r1 := RollUpArray(g, "phone", "user", rank);
    filed, emitted, shown := Failure(NoSuchElement(0)), Success([]), [];
    if r1.Fail? {
      return Failure(RollUpFailed(r1.error)), diced, r1, filed, emitted, shown;
    }
    r, filed, emitted, shown := RunQuery(PathEndsThird, g.vertices, g.edges, PathsOf(g.vertices, g.edges, "user", Parties, Parties),
                                         Increasing3, Avg, console);
  }

  // ---------------------------------------------------------------------
  // What the rows mean.

  /** Edges i and j leave the same call, i by an `ins` label into a `bottom` vertex, j by an `outs` label. */
  ghost predicate Link(vs: map<VId, Vertex>, es: seq<Edge>, bottom: string, ins: set<EdgeLabel>, outs: set<EdgeLabel>, i: int, j: int)
  {
    0 <= i < |es| && 0 <= j < |es| && es[i].src == es[j].src && es[i].rel in ins && es[j].rel in outs
    && HasKind(vs, es[i].dst, bottom)
  }

  /**
   * The calls with an `ins` edge into a `bottom` vertex valued x and an
   * `outs` edge into a vertex valued y.
   */
  ghost function CallsLinking(vs: map<VId, Vertex>, es: seq<Edge>, bottom: string, ins: set<EdgeLabel>, outs: set<EdgeLabel>,
                              x: string, y: string): set<VId>
  {
    set i, j | 0 <= i < |es| && 0 <= j < |es| && Link(vs, es, bottom, ins, outs, i, j) && Value(vs, es[i].dst) == x && Value(vs, es[j].dst) == y :: es[i].src
  }

  /** Each path of the traversal comes from a pair of linked edges. */
  lemma LinkOfPath(vs: map<VId, Vertex>, es: seq<Edge>, bottom: string, ins: set<EdgeLabel>, outs: set<EdgeLabel>, src: Source)
    returns (i: int, j: int)
    requires src in PathsOf(vs, es, bottom, ins, outs)
    ensures Link(vs, es, bottom, ins, outs, i, j) && src == Path(es[i].dst, es[i].src, es[j].dst)
  {
    i, j :| 0 <= i < |es| && 0 <= j < |es| && HasKind(vs, es[i].dst, bottom) && es[i].rel in ins
           && es[j].src == es[i].src && es[j].rel in outs && src == Path(es[i].dst, es[i].src, es[j].dst);
  }

  /** Each pair of linked edges gives a path of the traversal. */
  lemma PathOfLink(vs: map<VId, Vertex>, es: seq<Edge>, bottom: string, ins: set<EdgeLabel>, outs: set<EdgeLabel>, i: int, j: int)
    requires Link(vs, es, bottom, ins, outs, i, j)
    ensures Path(es[i].dst, es[i].src, es[j].dst) in PathsOf(vs, es, bottom, ins, outs)
  {
  }

  /** A call in CallsLinking comes from a pair of linked edges with those end values. */
  lemma LinkOfCall(vs: map<VId, Vertex>, es: seq<Edge>, bottom: string, ins: set<EdgeLabel>, outs: set<EdgeLabel>,
                   x: string, y: string, c: VId) returns (i: int, j: int)
    requires c in CallsLinking(vs, es, bottom, ins, outs, x, y)
    ensures Link(vs, es, bottom, ins, outs, i, j) && c == es[i].src && Value(vs, es[i].dst) == x && Value(vs, es[j].dst) == y
  {
    i, j :| Link(vs, es, bottom, ins, outs, i, j) && Value(vs, es[i].dst) == x && Value(vs, es[j].dst) == y && c == es[i].src;
  }

  /** The path (start, c, end) files c under the values of its two ends. */
  lemma PathEndsGives(vs: map<VId, Vertex>, es: seq<Edge>, src: Source, k: Key)
    requires src.Path?
    ensures Gives(PathEnds, vs, es, src, k) <==> k == [Value(vs, src.start), Value(vs, src.end)]
  {
  }

  /** forEachPair files under (x, y) exactly the calls linking an x end to a y end. */
  lemma PathEndsCalls(vs: map<VId, Vertex>, es: seq<Edge>, bottom: string, ins: set<EdgeLabel>, outs: set<EdgeLabel>,
                      x: string, y: string)
    ensures CallsGiving(PathEnds, vs, es, PathsOf(vs, es, bottom, ins, outs), [x, y]) == CallsLinking(vs, es, bottom, ins, outs, x, y)
  {
    var items := PathsOf(vs, es, bottom, ins, outs);
    var given := CallsGiving(PathEnds, vs, es, items, [x, y]);
    var linking := CallsLinking(vs, es, bottom, ins, outs, x, y);
    forall c | c in given ensures c in linking {
      var src :| src in items && Gives(PathEnds, vs, es, src, [x, y]) && src.call == c;
      var i, j := LinkOfPath(vs, es, bottom, ins, outs, src);
      PathEndsGives(vs, es, src, [x, y]);
    }
    forall c | c in linking ensures c in given {
      var i, j := LinkOfCall(vs, es, bottom, ins, outs, x, y, c);
      var src := Path(es[i].dst, es[i].src, es[j].dst);
      PathOfLink(vs, es, bottom, ins, outs, i, j);
      PathEndsGives(vs, es, src, [x, y]);
    }
  }

  /**
   * forEachPair over getPaths: a row (x, y) is emitted exactly when x sorts
   * before y and some call links an x end to a y end; its value aggregates
   * the durations of those calls; (y, x) is then never a row as well.
   */
  lemma QueryRows(vs: map<VId, Vertex>, es: seq<Edge>, bottom: string, diffCaller: bool, a: Aggregation,
                  r: Result<seq<Row>, QueryError>, filed: Result<Buckets, QueryError>,
                  emitted: Result<seq<Row>, AggError>, shown: seq<Row>, x: string, y: string)
    requires Ran(PathEnds, vs, es, GetPaths(vs, es, bottom, diffCaller), Increasing2, a, r, filed, emitted, shown) && r.Success?
    ensures HasRow(r.value, [x, y]) <==> Less(x, y) && CallsLinking(vs, es, bottom, Ins(diffCaller), Outs(diffCaller), x, y) != {}
    ensures forall i :: 0 <= i < |r.value| && r.value[i].key == [x, y] ==>
              BucketAgg(vs, CallsLinking(vs, es, bottom, Ins(diffCaller), Outs(diffCaller), x, y), a) == Success(r.value[i].value)
    ensures HasRow(r.value, [x, y]) ==> !HasRow(r.value, [y, x])
  {
    var items := GetPaths(vs, es, bottom, diffCaller);
    PathEndsCalls(vs, es, bottom, Ins(diffCaller), Outs(diffCaller), x, y);
    RowsMeaning(PathEnds, vs, es, items, Increasing2, a, r, filed, emitted, shown, [x, y]);
    RowsMeaning(PathEnds, vs, es, items, Increasing2, a, r, filed, emitted, shown, [y, x]);
    CmpAntisymmetric(y, x);
  }

  /** The calls query1_5 files under (x, y, m): those linking an x user to a y user whose first atTime target is valued m. */
  ghost function CallsInMonth(vs: map<VId, Vertex>, es: seq<Edge>, x: string, y: string, m: string): set<VId>
  {
    set c | c in CallsLinking(vs, es, "user", Parties, Parties, x, y)
              && NextTarget(es, c, AtTime).Success? && Value(vs, NextTarget(es, c, AtTime).value) == m
  }

  /** The path (start, c, end) files c under its end values and the value of c's atTime target, or fails without one. */
  lemma PathEndsMonthGives(vs: map<VId, Vertex>, es: seq<Edge>, src: Source, k: Key)
    requires src.Path?
    ensures Gives(PathEndsMonth, vs, es, src, k) <==>
              NextTarget(es, src.call, AtTime).Success? &&
              k == [Value(vs, src.start), Value(vs, src.end), Value(vs, NextTarget(es, src.call, AtTime).value)]
  {
  }

  /** The month reading files under (x, y, m) exactly the calls of CallsInMonth. */
  lemma PathEndsMonthCalls(vs: map<VId, Vertex>, es: seq<Edge>, x: string, y: string, m: string)
    ensures CallsGiving(PathEndsMonth, vs, es, PathsOf(vs, es, "user", Parties, Parties), [x, y, m]) == CallsInMonth(vs, es, x, y, m)
  {
    var items := PathsOf(vs, es, "user", Parties, Parties);
    var given := CallsGiving(PathEndsMonth, vs, es, items, [x, y, m]);
    var month := CallsInMonth(vs, es, x, y, m);
    forall c | c in given ensures c in month {
      var src :| src in items && Gives(PathEndsMonth, vs, es, src, [x, y, m]) && src.call == c;
      var i, j := LinkOfPath(vs, es, "user", Parties, Parties, src);
      PathEndsMonthGives(vs, es, src, [x, y, m]);
      assert c in CallsLinking(vs, es, "user", Parties, Parties, x, y);
    }
    forall c | c in month ensures c in given {
      var i, j := LinkOfCall(vs, es, "user", Parties, Parties, x, y, c);
      var src := Path(es[i].dst, es[i].src, es[j].dst);
      PathOfLink(vs, es, "user", Parties, Parties, i, j);
      PathEndsMonthGives(vs, es, src, [x, y, m]);
    }
  }

  /**
   * QueriesOlap.query1_5: a row (x, y, m) is emitted exactly when y sorts
   * before x and some call links an x user to a y user in month m; its
   * value counts the durations of those calls.
   */
  lemma Query1_5Rows(vs: map<VId, Vertex>, es: seq<Edge>, r: Result<seq<Row>, QueryError>, filed: Result<Buckets, QueryError>,
                     emitted: Result<seq<Row>, AggError>, shown: seq<Row>, x: string, y: string, m: string)
    requires Ran(PathEndsMonth, vs, es, PathsOf(vs, es, "user", Parties, Parties), Decreasing2, Count, r, filed, emitted, shown)
    requires r.Success?
    ensures HasRow(r.value, [x, y, m]) <==> Less(y, x) && CallsInMonth(vs, es, x, y, m) != {}
    ensures forall i :: 0 <= i < |r.value| && r.value[i].key == [x, y, m] ==>
              BucketAgg(vs, CallsInMonth(vs, es, x, y, m), Count) == Success(r.value[i].value)
  {
    PathEndsMonthCalls(vs, es, x, y, m);
    RowsMeaning(PathEndsMonth, vs, es, PathsOf(vs, es, "user", Parties, Parties), Decreasing2, Count, r, filed, emitted, shown, [x, y, m]);
  }

  /** The calls QueriesOlap.query2_1 files under (x, y, d): those linking two different users x and y that have a third party d. */
  ghost function CallsWithThird(vs: map<VId, Vertex>, es: seq<Edge>, x: string, y: string, d: string): set<VId>
  {
    set c | c in CallsLinking(vs, es, "user", Parties, Parties, x, y) && x != y
              && d in PhoneValues(vs, es, c) && d != x && d != y
  }

  /** The third-party reading files under (x, y, d) exactly the calls of CallsWithThird. */
  lemma PathEndsThirdCalls(vs: map<VId, Vertex>, es: seq<Edge>, x: string, y: string, d: string)
    ensures CallsGiving(PathEndsThird, vs, es, PathsOf(vs, es, "user", Parties, Parties), [x, y, d]) == CallsWithThird(vs, es, x, y, d)
  {
    var items := PathsOf(vs, es, "user", Parties, Parties);
    var given := CallsGiving(PathEndsThird, vs, es, items, [x, y, d]);
    var third := CallsWithThird(vs, es, x, y, d);
    forall c | c in given ensures c in third {
      var src :| src in items && Gives(PathEndsThird, vs, es, src, [x, y, d]) && src.call == c;
      var i, j := LinkOfPath(vs, es, "user", Parties, Parties, src);
      PathEndsThirdKeys(vs, es, src.start, c, src.end, [x, y, d]);
      assert c in CallsLinking(vs, es, "user", Parties, Parties, x, y);
    }
    forall c | c in third ensures c in given {
      var i, j := LinkOfCall(vs, es, "user", Parties, Parties, x, y, c);
      var src := Path(es[i].dst, es[i].src, es[j].dst);
      PathOfLink(vs, es, "user", Parties, Parties, i, j);
      PathEndsThirdKeys(vs, es, src.start, c, src.end, [x, y, d]);
    }
  }

  /**
   * QueriesOlap.query2_1: a row (x, y, d) is emitted exactly when x < y < d
   * and some call links an x user to a y user with d as a third party;
   * its value averages the durations of those calls.
   */
  lemma Query2_1Rows(vs: map<VId, Vertex>, es: seq<Edge>, r: Result<seq<Row>, QueryError>, filed: Result<Buckets, QueryError>,
                     emitted: Result<seq<Row>, AggError>, shown: seq<Row>, x: string, y: string, d: string)
    requires Ran(PathEndsThird, vs, es, PathsOf(vs, es, "user", Parties, Parties), Increasing3, Avg, r, filed, emitted, shown)
    requires r.Success?
    ensures HasRow(r.value, [x, y, d]) <==> Less(x, y) && Less(y, d) && CallsWithThird(vs, es, x, y, d) != {}
    ensures forall i :: 0 <= i < |r.value| && r.value[i].key == [x, y, d] ==>
              BucketAgg(vs, CallsWithThird(vs, es, x, y, d), Avg) == Success(r.value[i].value)
  {
    PathEndsThirdCalls(vs, es, x, y, d);
    RowsMeaning(PathEndsThird, vs, es, PathsOf(vs, es, "user", Parties, Parties), Increasing3, Avg, r, filed, emitted, shown, [x, y, d]);
    CmpAntisymmetric(y, x);
    CmpAntisymmetric(d, y);
    assert Emits(Increasing3, [x, y, d]) <==> Less(x, y) && Less(y, d);
  }
}
