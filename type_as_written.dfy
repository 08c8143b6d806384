/**
 * The `type` property as the source writes it. Every selection in the
 * source filters vertices with has("type", kind) or value("type"), while
 * the reader gives each vertex a label, a `value` and a `duration` and never
 * writes `type`. The rest of the model reads `type` as the vertex label
 * (`Vertex.kind`); this module keeps `type` apart, as the map `types` of
 * the vertices on which it is written, and relates the two readings.
 */
module TypeAsWritten {

  import opened Wrappers
  import opened Graph
  import Climb
  import CallFiling
  import GraphUtils

  /** The graph as has("type", …) sees it: the typed vertices, with their type as kind. */
  function Typed(vs: map<VId, Vertex>, types: map<VId, string>): (r: map<VId, Vertex>)
    ensures forall v :: v in r <==> v in vs && v in types
    ensures forall v :: v in r ==> r[v] == vs[v].(kind := types[v])
  {
    map v | v in vs && v in types :: vs[v].(kind := types[v])
  }

  /** Every vertex holds a `type` equal to its label. */
  predicate LabelsAsTypes(vs: map<VId, Vertex>, types: map<VId, string>)
  {
    forall v :: v in vs ==> v in types && types[v] == vs[v].kind
  }

  /** V().has("type", "call") as written: the vertices whose `type` is "call". */
  function CallsAsWritten(vs: map<VId, Vertex>, types: map<VId, string>): (r: set<CallFiling.Source>)
    ensures forall src :: src in r <==> src.Call? && src.call in vs && src.call in types && types[src.call] == "call"
  {
    CallFiling.CallsOf(Typed(vs, types))
  }

  /** A walk the as-written search holds is a chain of extendsFrom edges in the whole graph. */
  lemma {:induction false} TypedWalks(vs: map<VId, Vertex>, types: map<VId, string>, es: seq<Edge>,
                                      bottom: string, k: nat, p: seq<VId>)
    requires Wellformed(vs, es) && p in Climb.Walks(Typed(vs, types), es, bottom, k)
    ensures |p| == k + 1 && p[0] in vs && Climb.ClimbWalk(vs, es, vs[p[0]].kind, p)
  {
    var tvs := Typed(vs, types);
    if k > 0 {
      var w := Climb.Walks(tvs, es, bottom, k - 1);
      var q, i :| q in w && |q| > 0 && 0 <= i < |es| && es[i].rel == ExtendsFrom && es[i].src == q[|q| - 1]
        && p == q + [es[i].dst];
      TypedWalks(vs, types, es, bottom, k - 1, q);
      Climb.ExtendClimbWalk(vs, es, vs[q[0]].kind, q, i);
    }
  }

  /** The as-written search, like climb's, runs out of walks within the hierarchy's height. */
  lemma TypedWalksBounded(vs: map<VId, Vertex>, types: map<VId, string>, es: seq<Edge>, bottom: string,
                          rank: map<VId, nat>)
    requires Wellformed(vs, es) && Climb.Ranked(vs, es, rank)
    ensures forall i: nat :: !Climb.EmptyTest(Typed(vs, types), es, bottom)(i) ==> i <= Climb.MaxRank(vs.Keys, rank)
  {
    forall i: nat | !Climb.EmptyAt(Typed(vs, types), es, bottom, i) ensures i <= Climb.MaxRank(vs.Keys, rank) {
      var p :| p in Climb.Walks(Typed(vs, types), es, bottom, i);
      TypedWalks(vs, types, es, bottom, i, p);
      Climb.WalkRankBound(vs, es, vs[p[0]].kind, rank, p);
      assert p[|p| - 1] in vs;
    }
  }

  /**
   * The hop count at which climb's search loop (Operations.java:36-52)
   * stops when `type` is read as written; None is its IllegalArgumentException.
   */
  ghost function LevelAsWritten(vs: map<VId, Vertex>, es: seq<Edge>, types: map<VId, string>,
                                bottom: string, top: string, rank: map<VId, nat>): Option<nat>
    requires Wellformed(vs, es) && Climb.Ranked(vs, es, rank)
  {
    var tvs := Typed(vs, types);
    TypedWalksBounded(vs, types, es, bottom, rank);
    Climb.FirstFrom(Climb.ReachTest(tvs, es, bottom, top), Climb.EmptyTest(tvs, es, bottom), Climb.MaxRank(vs.Keys, rank), 0)
  }

  /**
   * On a graph where no vertex holds `type`, as the reader leaves it, the
   * climb search finds no bottom vertex and throws, no call is selected,
   * and getParent finds no parent.
   */
  lemma UntypedSelectsNothing(vs: map<VId, Vertex>, es: seq<Edge>, bottom: string, top: string,
                              rank: map<VId, nat>, v: VId, kind: string)
    requires Wellformed(vs, es) && Climb.Ranked(vs, es, rank)
    ensures LevelAsWritten(vs, es, map[], bottom, top, rank) == None
    ensures CallsAsWritten(vs, map[]) == {}
    ensures GraphUtils.Parent(Typed(vs, map[]), es, v, kind).Failure?
  {
    var tvs := Typed(vs, map[]);
    assert tvs == map[];
    assert Climb.Walks(tvs, es, bottom, 0) == {};
    assert !Climb.ReachTest(tvs, es, bottom, top)(0);
    assert Climb.Walks(tvs, es, bottom, 1) == Climb.Advance(es, {});
    assert Climb.EmptyTest(tvs, es, bottom)(1);
  }

  /**
   * When every vertex holds a `type` equal to its label, the as-written
   * readings are the ones the rest of the model uses: climb stops at
   * `Climb.Level`, the calls are `CallFiling.CallsOf`, and getParent is
   * `GraphUtils.Parent`.
   */
  lemma LabelTypesAgree(vs: map<VId, Vertex>, es: seq<Edge>, types: map<VId, string>, bottom: string, top: string,
                        rank: map<VId, nat>, v: VId, kind: string)
    requires Wellformed(vs, es) && Climb.Ranked(vs, es, rank) && LabelsAsTypes(vs, types)
    ensures LevelAsWritten(vs, es, types, bottom, top, rank) == Climb.Level(vs, es, bottom, top, rank)
    ensures CallsAsWritten(vs, types) == CallFiling.CallsOf(vs)
    ensures GraphUtils.Parent(Typed(vs, types), es, v, kind) == GraphUtils.Parent(vs, es, v, kind)
  {
    assert Typed(vs, types) == vs;
  }
}
