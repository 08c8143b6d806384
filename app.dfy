/**
 * App: the three call queries of the application class, which print only
 * the first row they produce (the static `syso` flag is cleared by the
 * first print), and the text formatters for vertices and edges.
 */
module App {

  import opened Wrappers
  import opened JavaStrings
  import opened Graph
  import opened Aggregations
  import opened Buckets
  import opened Emission
  import opened CallReading
  import opened CallFiling
  import opened CallQueries

  /** The month query2_1 looks at. */
  const April: string := "4-2017"

  /** query1_1_1: pairs of phone values of a call, AVG of durations; only the first row is printed. */
  method Query1_1_1(vs: map<VId, Vertex>, es: seq<Edge>, console: Console)
    returns (r: Result<seq<Row>, QueryError>, ghost filed: Result<Buckets, QueryError>,
             ghost emitted: Result<seq<Row>, AggError>, ghost shown: seq<Row>)
    requires console.Valid() && console.clears
    modifies console
    ensures console.Valid() && console.lines == old(console.lines) + Shown(old(console.syso), true, shown)
    ensures Ran(PartyValues, vs, es, CallsOf(vs), Increasing2, Avg, r, filed, emitted, shown)
  {
    r, filed, emitted, shown := RunQuery(PartyValues, vs, es, CallsOf(vs), Increasing2, Avg, console);
  }

  /** query1_1_2: (first, last) of each phone path through a call, AVG of durations; only the first row is printed. */
  method Query1_1_2(vs: map<VId, Vertex>, es: seq<Edge>, console: Console)
    returns (r: Result<seq<Row>, QueryError>, ghost filed: Result<Buckets, QueryError>,
             ghost emitted: Result<seq<Row>, AggError>, ghost shown: seq<Row>)
    requires console.Valid() && console.clears
    modifies console
    ensures console.Valid() && console.lines == old(console.lines) + Shown(old(console.syso), true, shown)
    ensures Ran(PathEnds, vs, es, PathsOf(vs, es, "phone", Parties, Parties), Increasing2, Avg, r, filed, emitted, shown)
  {
    r, filed, emitted, shown := RunQuery(PathEnds, vs, es, PathsOf(vs, es, "phone", Parties, Parties), Increasing2, Avg, console);
  }

  /** query2_1: triples of the last users of the phones of the April calls, AVG of durations; only the first row is printed. */
  method Query2_1(vs: map<VId, Vertex>, es: seq<Edge>, console: Console)
    returns (r: Result<seq<Row>, QueryError>, ghost filed: Result<Buckets, QueryError>,
             ghost emitted: Result<seq<Row>, AggError>, ghost shown: seq<Row>)
    requires console.Valid() && console.clears
    modifies console
    ensures console.Valid() && console.lines == old(console.lines) + Shown(old(console.syso), true, shown)
    ensures Ran(LastUsers3, vs, es, MonthCalls(vs, es, April), Increasing3, Avg, r, filed, emitted, shown)
  {
    r, filed, emitted, shown := RunQuery(LastUsers3, vs, es, MonthCalls(vs, es, April), Increasing3, Avg, console);
  }

  // ---------------------------------------------------------------------
  // Formatters.

  /** A vertex property as the loop meets it: its key and the text of its value. */
  datatype Property = Property(key: string, text: string)

  /** What toString(Vertex) reads of a vertex: its id, its label (the kind) and its properties in iteration order. */
  datatype VertexView = VertexView(id: VId, kind: string, props: seq<Property>)

  /** The properties printed: all of them when no key is listed, otherwise those with a listed key, in order. */
  function Kept(props: seq<Property>, keys: seq<string>): (r: seq<Property>)
    ensures |r| <= |props|
  {
    if props == [] then []
    else
      var last := props[|props| - 1];
      Kept(props[..|props| - 1], keys) + (if keys == [] || last.key in keys then [last] else [])
  }

  /** Each printed property value followed by ", ". */
  function Listing(props: seq<Property>): string
  {
    if props == [] then "" else Listing(props[..|props| - 1]) + props[|props| - 1].text + ", "
  }

  /** The text of toString(vertex, keys). */
  function VertexText(v: VertexView, keys: seq<string>): string
  {
    Head(v) + (if v.props == [] then "" else ": {" + Listing(Kept(v.props, keys)) + "}") + ")"
  }

  /** "(v[id] label": what is printed before the properties. */
  function Head(v: VertexView): string
  {
    "(v[" + NatToString(v.id) + "] " + v.kind
  }

  /**
   * toString(vertex, keys): the StringBuilder loop over the vertex
   * properties; `listed` is what the loop appends between the braces.
   */
  method VertexToString(v: VertexView, keys: seq<string>) returns (s: string)
    ensures s == VertexText(v, keys)
  {
    s := Head(v);
    if v.props != [] {
      var listed := "";
      var i := 0;
      while i < |v.props|
        invariant 0 <= i <= |v.props|
        invariant listed == Listing(Kept(v.props[..i], keys))
      {
        var p := v.props[i];
        ListingStep(v.props, keys, i);
        if keys == [] || p.key in keys {
          listed := listed + (p.text + ", ");
        }
        i := i + 1;
      }
      assert v.props[..i] == v.props;
      s := s + (": {" + listed + "}");
    }
    s := s + ")";
  }

  /** One more property read: its text and ", " are printed when its key is kept. */
  lemma ListingStep(props: seq<Property>, keys: seq<string>, i: nat)
    requires i < |props|
    ensures keys == [] || props[i].key in keys ==>
              Listing(Kept(props[..i + 1], keys)) == Listing(Kept(props[..i], keys)) + (props[i].text + ", ")
    ensures !(keys == [] || props[i].key in keys) ==> Listing(Kept(props[..i + 1], keys)) == Listing(Kept(props[..i], keys))
  {
    var pre := props[..i + 1];
    assert pre[..|pre| - 1] == props[..i] && pre[|pre| - 1] == props[i];
    var kept := Kept(props[..i], keys);
    if keys == [] || props[i].key in keys {
      assert Kept(pre, keys) == kept + [props[i]];
      assert (kept + [props[i]])[..|kept|] == kept;
    } else {
      assert Kept(pre, keys) == kept;
    }
  }

  /** A property is printed exactly when it is one of the vertex's and its key is listed, or none is. */
  lemma {:induction false} KeptMeaning(props: seq<Property>, keys: seq<string>, p: Property)
    ensures p in Kept(props, keys) <==> p in props && (keys == [] || p.key in keys)
  {
    if props != [] {
      var init := props[..|props| - 1];
      KeptMeaning(init, keys, p);
      assert props == init + [props[|props| - 1]];
    }
  }

  /** With no key listed every property is printed. */
  lemma {:induction false} KeptAll(props: seq<Property>)
    ensures Kept(props, []) == props
  {
    if props != [] {
      KeptAll(props[..|props| - 1]);
      assert props == props[..|props| - 1] + [props[|props| - 1]];
    }
  }

  /**
   * The text of a vertex opens with "(v[", the decimal id, which reads
   * back as the id, and "] " followed by the label, and closes with ")".
   */
  lemma VertexTextShape(v: VertexView, keys: seq<string>)
    ensures var s, n := VertexText(v, keys), |NatToString(v.id)|;
      |s| >= n + |v.kind| + 6 && s[..3] == "(v[" && s[n + 3..n + 5] == "] " && s[n + 5..n + 5 + |v.kind|] == v.kind &&
      s[|s| - 1] == ')' && (forall i :: 3 <= i < n + 3 ==> IsDigit(s[i])) && ParseDigits(s[3..n + 3]) == v.id
  {
    var s, d := VertexText(v, keys), NatToString(v.id);
    var rest := (if v.props == [] then "" else ": {" + Listing(Kept(v.props, keys)) + "}") + ")";
    assert s == "(v[" + d + "] " + v.kind + rest;
    assert s[3..|d| + 3] == d;
    assert s[|d| + 5..|d| + 5 + |v.kind|] == v.kind;
    ParseNatToString(v.id);
  }

  /** The text of toString(edge): its out-vertex, "- label -> ", its in-vertex, each vertex with its value and durations. */
  function EdgeText(out: VertexView, rel: EdgeLabel, into: VertexView): (s: string)
    ensures var o, i := VertexText(out, ["value", "duration"]), VertexText(into, ["value", "duration"]);
      |s| == |o| + |LabelName(rel)| + 6 + |i| && s[..|o|] == o && s[|s| - |i|..] == i &&
      s[|o|..|s| - |i|] == "- " + LabelName(rel) + " -> "
  {
    var o, i := VertexText(out, ["value", "duration"]), VertexText(into, ["value", "duration"]);
    var m := "- " + LabelName(rel) + " -> ";
    assert (o + m + i)[|o|..|o| + |m|] == m;
    o + m + i
  }
}
