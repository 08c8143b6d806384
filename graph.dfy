/**
 * The property graph every component works on: an arena of vertices addressed
 * by integer identities and a sequence of directed, labelled edges. It stands
 * for the JanusGraph/TinkerPop storage: vertices carry a kind (their label, the `type` the
 * queries filter on), a `value`, the `duration` list of a call and the
 * `visited` flag used by minimize; removing a vertex removes every edge
 * incident to it, as Vertex.remove() does.
 */
module Graph {

  import opened Wrappers

  type VId = nat

  datatype EdgeLabel = ExtendsFrom | CalledBy | IntegratedBy | AtTime

  function LabelName(l: EdgeLabel): string
  {
    match l
    case ExtendsFrom => "extendsFrom"
    case CalledBy => "calledBy"
    case IntegratedBy => "integratedBy"
    case AtTime => "atTime"
  }

  /** A directed edge from `src` (TinkerPop's out-vertex) to `dst` (its in-vertex). */
  datatype Edge = Edge(src: VId, rel: EdgeLabel, dst: VId)

  /**
   * `visited` is None until minimize first writes it: ingestion never sets the
   * property, so reading it back finds no value.
   */
  datatype Vertex = Vertex(kind: string, value: string, duration: seq<real>, visited: Option<bool>)

  /** A snapshot of the whole graph. */
  datatype GraphState = GraphState(vertices: map<VId, Vertex>, edges: seq<Edge>)

  /** Every edge joins two live vertices. */
  ghost predicate Wellformed(vs: map<VId, Vertex>, es: seq<Edge>)
  {
    forall i :: 0 <= i < |es| ==> es[i].src in vs && es[i].dst in vs
  }

  /** The `value` of a vertex, or "" for a vertex that is not in the graph. */
  function Value(vs: map<VId, Vertex>, v: VId): string
  {
    if v in vs then vs[v].value else ""
  }

  predicate HasKind(vs: map<VId, Vertex>, v: VId, kind: string)
  {
    v in vs && vs[v].kind == kind
  }

  /** The out-edges of `v`, in storage order. */
  function OutEdges(es: seq<Edge>, v: VId): (r: seq<Edge>)
    ensures forall e :: e in r <==> e in es && e.src == v
    ensures |r| <= |es|
  {
    if es == [] then []
    else OutEdges(es[..|es| - 1], v) + (if es[|es| - 1].src == v then [es[|es| - 1]] else [])
  }

  /** The in-edges of `v`, in storage order. */
  function InEdges(es: seq<Edge>, v: VId): (r: seq<Edge>)
    ensures forall e :: e in r <==> e in es && e.dst == v
  {
    if es == [] then []
    else InEdges(es[..|es| - 1], v) + (if es[|es| - 1].dst == v then [es[|es| - 1]] else [])
  }

  predicate HasIn(es: seq<Edge>, v: VId)
  {
    exists i :: 0 <= i < |es| && es[i].dst == v
  }

  /** The edges left once `v` is removed. */
  function Detach(es: seq<Edge>, v: VId): (r: seq<Edge>)
    ensures forall e :: e in r <==> e in es && e.src != v && e.dst != v
    ensures multiset(r) <= multiset(es)
  {
    if es == [] then []
    else
      var last := es[|es| - 1];
      assert es == es[..|es| - 1] + [last];
      Detach(es[..|es| - 1], v) + (if last.src != v && last.dst != v then [last] else [])
  }

  /** The edges left once one edge equal to `e` is removed. */
  function RemoveFirst(es: seq<Edge>, e: Edge): (r: seq<Edge>)
    ensures multiset(r) == multiset(es) - multiset{e}
    ensures |r| == if e in es then |es| - 1 else |es|
  {
    if es == [] then []
    else if es[0] == e then
      assert es == [es[0]] + es[1..];
      es[1..]
    else
      assert es == [es[0]] + es[1..];
      [es[0]] + RemoveFirst(es[1..], e)
  }

  /** Every occurrence of an edge into `v` is one of the in-edges of `v`. */
  lemma {:induction false} InEdgesCount(es: seq<Edge>, v: VId, e: Edge)
    requires e.dst == v
    ensures multiset(InEdges(es, v))[e] == multiset(es)[e]
  {
    if es != [] {
      InEdgesCount(es[..|es| - 1], v, e);
      assert es == es[..|es| - 1] + [es[|es| - 1]];
    }
  }

  lemma {:induction false} InEdgesSubset(es: seq<Edge>, v: VId)
    ensures multiset(InEdges(es, v)) <= multiset(es)
  {
    if es != [] {
      InEdgesSubset(es[..|es| - 1], v);
      assert es == es[..|es| - 1] + [es[|es| - 1]];
    }
  }

  /** The edges left once every vertex of `gone` is removed, in that order. */
  function DetachAll(es: seq<Edge>, gone: seq<VId>): (r: seq<Edge>)
    ensures forall e :: e in r <==> e in es && e.src !in gone && e.dst !in gone
  {
    if gone == [] then es else Detach(DetachAll(es, gone[..|gone| - 1]), gone[|gone| - 1])
  }

  lemma {:induction false} OutEdgesAppend(xs: seq<Edge>, ys: seq<Edge>, v: VId)
    ensures OutEdges(xs + ys, v) == OutEdges(xs, v) + OutEdges(ys, v)
    decreases |ys|
  {
    if ys == [] {
      assert xs + ys == xs;
    } else {
      var zs, init, last := xs + ys, ys[..|ys| - 1], ys[|ys| - 1];
      var tail := if last.src == v then [last] else [];
      assert zs[..|zs| - 1] == xs + init && zs[|zs| - 1] == last;
      assert OutEdges(zs, v) == OutEdges(xs + init, v) + tail;
      assert OutEdges(ys, v) == OutEdges(init, v) + tail;
      OutEdgesAppend(xs, init, v);
    }
  }

  /** Removing a vertex `v` has no edge to leaves the out-edges of `v` as they were. */
  lemma {:induction false} OutEdgesDetach(es: seq<Edge>, x: VId, v: VId)
    requires v != x && forall i :: 0 <= i < |es| && es[i].src == v ==> es[i].dst != x
    ensures OutEdges(Detach(es, x), v) == OutEdges(es, v)
  {
    if es != [] {
      var init, last := es[..|es| - 1], es[|es| - 1];
      var tail := if last.src != x && last.dst != x then [last] else [];
      assert Detach(es, x) == Detach(init, x) + tail;
      OutEdgesDetach(init, x, v);
      OutEdgesAppend(Detach(init, x), tail, v);
      assert OutEdges(tail, v) == (if last.src == v then [last] else []) by {
        if tail != [] {
          assert tail[..0] == [];
        }
      }
    }
  }

  lemma DetachWellformed(vs: map<VId, Vertex>, es: seq<Edge>, v: VId)
    requires Wellformed(vs, es)
    ensures Wellformed(vs - {v}, Detach(es, v))
  {
    var r := Detach(es, v);
    forall i | 0 <= i < |r| ensures r[i].src in vs - {v} && r[i].dst in vs - {v} {
      assert r[i] in r;
      var j :| 0 <= j < |es| && es[j] == r[i];
    }
  }

  class PropertyGraph {
    var vertices: map<VId, Vertex>
    var edges: seq<Edge>
    var nextId: VId

    ghost predicate Valid()
      reads this
    {
      Wellformed(vertices, edges) && forall v :: v in vertices ==> v < nextId
    }

    function State(): GraphState
      reads this
    {
      GraphState(vertices, edges)
    }

    constructor ()
      ensures Valid() && vertices == map[] && edges == []
    {
      vertices, edges, nextId := map[], [], 0;
    }

    /** graph.addVertex(label) followed by the `value` and `duration` properties. */
    method AddVertex(kind: string, value: string, duration: seq<real>) returns (v: VId)
      requires Valid()
      modifies this
      ensures Valid() && v !in old(vertices)
      ensures vertices == old(vertices)[v := Vertex(kind, value, duration, None)]
      ensures edges == old(edges)
    {
      v := nextId;
      vertices := vertices[v := Vertex(kind, value, duration, None)];
      nextId := nextId + 1;
    }

    /** src.addEdge(rel, dst). */
    method AddEdge(src: VId, rel: EdgeLabel, dst: VId)
      requires Valid() && src in vertices && dst in vertices
      modifies this
      ensures Valid() && vertices == old(vertices)
      ensures edges == old(edges) + [Edge(src, rel, dst)]
    {
      edges := edges + [Edge(src, rel, dst)];
    }

    /** edge.remove(). */
    method RemoveEdge(e: Edge)
      requires Valid()
      modifies this
      ensures Valid() && vertices == old(vertices)
      ensures edges == RemoveFirst(old(edges), e)
    {
      edges := RemoveFirst(edges, e);
      forall i | 0 <= i < |edges| ensures edges[i].src in vertices && edges[i].dst in vertices {
        assert edges[i] in multiset(edges);
        assert edges[i] in multiset(old(edges));
        assert edges[i] in old(edges);
      }
    }

    /** vertex.remove(): the vertex and every edge incident to it. */
    method RemoveVertex(v: VId)
      requires Valid()
      modifies this
      ensures Valid()
      ensures vertices == old(vertices) - {v} && edges == Detach(old(edges), v)
    {
      DetachWellformed(vertices, edges, v);
      vertices := vertices - {v};
      edges := Detach(edges, v);
    }

    /** Replaces the properties of a live vertex, keeping its label and value. */
    method SetProperties(v: VId, duration: seq<real>, visited: Option<bool>)
      requires Valid() && v in vertices
      modifies this
      ensures Valid() && edges == old(edges)
      ensures vertices == old(vertices)[v := old(vertices)[v].(duration := duration, visited := visited)]
    {
      vertices := vertices[v := vertices[v].(duration := duration, visited := visited)];
    }
  }
}
