/**
 * What the call queries do with a filled bucket map: for each entry whose
 * key is in canonical order, aggregate the flattened durations of the
 * bucket's calls and print the row. QueriesNotOlap prints every row while
 * its public `printTuples` flag is set; App and QueriesOlap print through a
 * static `syso` flag that the first printed row clears.
 */
module Emission {

  import opened Wrappers
  import opened Graph
  import opened Aggregations
  import opened JavaStrings
  import opened Buckets

  /** call.values("duration"): the duration list of a call. */
  function Durations(vs: map<VId, Vertex>, c: VId): seq<real>
  {
    if c in vs then vs[c].duration else []
  }

  /** The durations of a set of calls, flattened in some order: one copy of each call's list. */
  ghost function Flatten(vs: map<VId, Vertex>, calls: set<VId>): seq<real>
    decreases calls
  {
    if calls == {} then []
    else
      var c :| c in calls;
      Durations(vs, c) + Flatten(vs, calls - {c})
  }

  /** The multiset of a bucket's durations. */
  ghost function Bag(vs: map<VId, Vertex>, calls: set<VId>): multiset<real>
  {
    multiset(Flatten(vs, calls))
  }

  /** The bag does not depend on which call is taken first. */
  lemma {:induction false} BagRemove(vs: map<VId, Vertex>, calls: set<VId>, c: VId)
    requires c in calls
    ensures Bag(vs, calls) == multiset(Durations(vs, c)) + Bag(vs, calls - {c})
    decreases calls
  {
    var d :| d in calls && Flatten(vs, calls) == Durations(vs, d) + Flatten(vs, calls - {d});
    if d != c {
      BagRemove(vs, calls - {d}, c);
      BagRemove(vs, calls - {c}, d);
      assert calls - {d} - {c} == calls - {c} - {d};
    }
  }

  /** Flattening the durations of a bucket of calls, in the set's iteration order. */
  method CollectDurations(vs: map<VId, Vertex>, calls: set<VId>) returns (ds: seq<real>)
    ensures multiset(ds) == Bag(vs, calls)
  {
    ds := [];
    var left := calls;
    while left != {}
      invariant left <= calls
      invariant multiset(ds) + Bag(vs, left) == Bag(vs, calls)
      decreases left
    {
      var c :| c in left;
      BagRemove(vs, left, c);
      ds := ds + Durations(vs, c);
      left := left - {c};
    }
  }

  /** agg over the flattened durations of a bucket, in any order. */
  ghost function BucketAgg(vs: map<VId, Vertex>, calls: set<VId>, a: Aggregation): Result<real, AggError>
  {
    Agg(Flatten(vs, calls), a)
  }

  /** agg over any listing of a bucket's durations is the bucket's aggregate. */
  lemma AggOfBucket(vs: map<VId, Vertex>, calls: set<VId>, ds: seq<real>, a: Aggregation)
    requires multiset(ds) == Bag(vs, calls)
    ensures Agg(ds, a) == BucketAgg(vs, calls, a)
  {
    AggPermutation(ds, Flatten(vs, calls), a);
  }

  // ---------------------------------------------------------------------
  // Canonical emission.

  /**
   * The guards before aggregation: aggPairs, forEachPair and App's
   * queries emit when value1.compareTo(value0) > 0; aggTriplets and the
   * triple queries also need value2.compareTo(value1) > 0; the OLAP
   * query1_5 emits when value1.compareTo(value0) < 0.
   */
  datatype EmitRule = Increasing2 | Increasing3 | Decreasing2

  predicate Emits(rule: EmitRule, k: Key)
  {
    match rule
    case Increasing2 => |k| >= 2 && Cmp(k[1], k[0]) > 0
    case Increasing3 => |k| >= 3 && Cmp(k[1], k[0]) > 0 && Cmp(k[2], k[1]) > 0
    case Decreasing2 => |k| >= 2 && Cmp(k[1], k[0]) < 0
  }

  /** The key with its first two components exchanged. */
  function Swap(k: Key): (r: Key)
    requires |k| >= 2
    ensures |r| == |k| && r[0] == k[1] && r[1] == k[0] && r[2..] == k[2..]
  {
    [k[1], k[0]] + k[2..]
  }

  /**
   * A pair rule never emits (a, a, ...) and emits exactly one of
   * (a, b, ...) and (b, a, ...) for a != b.
   */
  lemma PairOrientation(rule: EmitRule, k: Key)
    requires rule != Increasing3 && |k| >= 2
    ensures k[0] == k[1] ==> !Emits(rule, k)
    ensures k[0] != k[1] ==> (Emits(rule, k) <==> !Emits(rule, Swap(k)))
  {
    CmpAntisymmetric(k[1], k[0]);
  }

  /** An emitted triple is strictly increasing, so its three values are distinct. */
  lemma EmittedTriple(k: Key)
    requires Emits(Increasing3, k)
    ensures Less(k[0], k[1]) && Less(k[1], k[2]) && Less(k[0], k[2])
    ensures k[0] != k[1] && k[1] != k[2] && k[0] != k[2]
  {
    CmpAntisymmetric(k[1], k[0]);
    CmpAntisymmetric(k[2], k[1]);
    LessTransitive(k[0], k[1], k[2]);
    LessTrichotomy(k[0], k[1]);
    LessTrichotomy(k[1], k[2]);
    LessTrichotomy(k[0], k[2]);
  }

  /** Of the six orders of three distinct values, aggTriplets emits exactly one. */
  lemma TripleCanonical(a: string, b: string, c: string)
    requires a != b && b != c && a != c
    ensures Emits(Increasing3, [a, b, c]) || Emits(Increasing3, [a, c, b]) || Emits(Increasing3, [b, a, c])
         || Emits(Increasing3, [b, c, a]) || Emits(Increasing3, [c, a, b]) || Emits(Increasing3, [c, b, a])
    ensures Emits(Increasing3, [a, b, c]) ==>
              !Emits(Increasing3, [a, c, b]) && !Emits(Increasing3, [b, a, c]) && !Emits(Increasing3, [b, c, a])
              && !Emits(Increasing3, [c, a, b]) && !Emits(Increasing3, [c, b, a])
  {
    CmpAntisymmetric(a, b);
    CmpAntisymmetric(b, c);
    CmpAntisymmetric(a, c);
    LessTrichotomy(a, b);
    LessTrichotomy(b, c);
    LessTrichotomy(a, c);
    if Less(a, b) && Less(b, c) {
      LessTransitive(a, b, c);
    }
    if Less(b, a) && Less(c, b) {
      LessTransitive(c, b, a);
    }
    if Less(a, b) && Less(c, a) {
      LessTransitive(c, a, b);
    }
    if Less(b, a) && Less(a, c) {
      LessTransitive(b, a, c);
    }
    if Less(a, c) && Less(c, b) {
      LessTransitive(a, c, b);
    }
    if Less(b, c) && Less(c, a) {
      LessTransitive(b, c, a);
    }
  }

  // ---------------------------------------------------------------------
  // The rows and their printing.

  /** One emitted row: the tuple and the aggregate of its bucket. */
  datatype Row = Row(key: Key, value: real)

  /**
   * The rows report the map under the rule: one row per emitted key and
   * no other, each holding agg over the durations of that key's bucket.
   */
  ghost predicate Reports(vs: map<VId, Vertex>, m: Buckets, rule: EmitRule, a: Aggregation, rows: seq<Row>)
  {
    (forall i :: 0 <= i < |rows| ==>
       rows[i].key in m && Emits(rule, rows[i].key) && BucketAgg(vs, m[rows[i].key], a) == Success(rows[i].value)) &&
    (forall k :: k in m && Emits(rule, k) ==> exists i :: 0 <= i < |rows| && rows[i].key == k) &&
    (forall i, j :: 0 <= i < j < |rows| ==> rows[i].key != rows[j].key)
  }

  /** The rows printed: all of them, the first only when printing clears the flag, none when it is off. */
  function Shown(on: bool, clears: bool, rows: seq<Row>): (r: seq<Row>)
    ensures !on ==> r == []
    ensures on && !clears ==> r == rows
    ensures |r| <= |rows|
    ensures clears ==> |r| <= 1 && (r != [] ==> r[0] == rows[0])
  {
    if !on then []
    else if !clears then rows
    else if rows == [] then []
    else [rows[0]]
  }

  /**
   * The console a query class prints to. `syso` is the flag checked before
   * printing; `clears` says whether printing clears it (App and
   * QueriesOlap) or leaves it (QueriesNotOlap.printTuples).
   */
  class Console {
    const clears: bool
    var syso: bool
    var lines: seq<Row>

    /** A flag that is cleared lets at most one row through. */
    ghost predicate Valid()
      reads this
    {
      clears ==> |lines| <= 1 && (syso ==> lines == [])
    }

    constructor (clears: bool, syso: bool)
      ensures Valid() && this.clears == clears && this.syso == syso && lines == []
    {
      this.clears, this.syso, lines := clears, syso, [];
    }

    /** `if (syso) { System.out.println(row); syso = false; }`, or without the clearing. */
    method Show(row: Row)
      requires Valid()
      modifies this
      ensures Valid()
      ensures lines == old(lines) + (if old(syso) then [row] else [])
      ensures syso == (old(syso) && !clears)
    {
      if syso {
        lines := lines + [row];
        if clears {
          syso := false;
        }
      }
    }
  }

  /** Each row is an emitted key already visited, with its bucket's aggregate. */
  ghost predicate RowsValid(vs: map<VId, Vertex>, m: Buckets, rule: EmitRule, a: Aggregation, left: set<Key>, rows: seq<Row>)
  {
    forall i :: 0 <= i < |rows| ==>
      rows[i].key in m && rows[i].key !in left && Emits(rule, rows[i].key)
      && BucketAgg(vs, m[rows[i].key], a) == Success(rows[i].value)
  }

  /** Each emitted key already visited has a row, and its aggregate succeeded. */
  ghost predicate RowsCover(vs: map<VId, Vertex>, m: Buckets, rule: EmitRule, a: Aggregation, left: set<Key>, rows: seq<Row>)
  {
    forall k :: k in m && k !in left && Emits(rule, k) ==>
      BucketAgg(vs, m[k], a).Success? && exists i :: 0 <= i < |rows| && rows[i].key == k
  }

  ghost predicate KeysDistinct(rows: seq<Row>)
  {
    forall i, j :: 0 <= i < j < |rows| ==> rows[i].key != rows[j].key
  }

  /** The loop's account of the keys already visited: `left` are the keys still to visit. */
  ghost predicate Partial(vs: map<VId, Vertex>, m: Buckets, rule: EmitRule, a: Aggregation, left: set<Key>, rows: seq<Row>)
  {
    RowsValid(vs, m, rule, a, left, rows) && RowsCover(vs, m, rule, a, left, rows) && KeysDistinct(rows)
  }

  /** Visiting one more key: a row for it when it is emitted. */
  lemma PartialStep(vs: map<VId, Vertex>, m: Buckets, rule: EmitRule, a: Aggregation, left: set<Key>, rows: seq<Row>,
                    k: Key, v: real)
    requires Partial(vs, m, rule, a, left, rows) && k in left && left <= m.Keys
    requires Emits(rule, k) ==> BucketAgg(vs, m[k], a) == Success(v)
    ensures Partial(vs, m, rule, a, left - {k}, rows + (if Emits(rule, k) then [Row(k, v)] else []))
  {
    var rows' := rows + (if Emits(rule, k) then [Row(k, v)] else []);
    assert RowsValid(vs, m, rule, a, left - {k}, rows');
    CoverStep(vs, m, rule, a, left, rows, k, v);
    assert KeysDistinct(rows');
  }

  lemma CoverStep(vs: map<VId, Vertex>, m: Buckets, rule: EmitRule, a: Aggregation, left: set<Key>, rows: seq<Row>,
                  k: Key, v: real)
    requires RowsCover(vs, m, rule, a, left, rows) && k in left && left <= m.Keys
    requires Emits(rule, k) ==> BucketAgg(vs, m[k], a) == Success(v)
    ensures RowsCover(vs, m, rule, a, left - {k}, rows + (if Emits(rule, k) then [Row(k, v)] else []))
  {
    var rows' := rows + (if Emits(rule, k) then [Row(k, v)] else []);
    forall k' | k' in m && k' !in left - {k} && Emits(rule, k')
      ensures exists i :: 0 <= i < |rows'| && rows'[i].key == k'
    {
      if k' == k {
        assert rows'[|rows|].key == k;
      } else {
        var i :| 0 <= i < |rows| && rows[i].key == k';
        assert rows'[i].key == k';
      }
    }
  }

  /** Once every key is visited, the rows report the map. */
  lemma PartialDone(vs: map<VId, Vertex>, m: Buckets, rule: EmitRule, a: Aggregation, rows: seq<Row>)
    requires Partial(vs, m, rule, a, {}, rows)
    ensures Reports(vs, m, rule, a, rows)
    ensures forall k :: k in m && Emits(rule, k) ==> BucketAgg(vs, m[k], a).Success?
  {
  }

  lemma ShownStep(on: bool, clears: bool, rows: seq<Row>, row: Row)
    ensures Shown(on, clears, rows + [row]) == Shown(on, clears, rows) + (if on && (!clears || rows == []) then [row] else [])
  {
  }

  /**
   * The outcome of the emission: it succeeds exactly when agg succeeds on
   * every emitted bucket, and then `done` reports the map; otherwise the
   * error is that of an emitted bucket, and `done`, the rows produced
   * before it, are emitted keys, each once, with their aggregates.
   */
  ghost predicate Emitted(vs: map<VId, Vertex>, m: Buckets, rule: EmitRule, a: Aggregation,
                          r: Result<seq<Row>, AggError>, done: seq<Row>)
  {
    (r.Success? ==> done == r.value && Reports(vs, m, rule, a, r.value)) &&
    (r.Success? <==> forall k :: k in m && Emits(rule, k) ==> BucketAgg(vs, m[k], a).Success?) &&
    (r.Failure? ==> exists k :: k in m && Emits(rule, k) && BucketAgg(vs, m[k], a) == Failure(r.error)) &&
    (r.Failure? ==> RowsValid(vs, m, rule, a, {}, done) && KeysDistinct(done))
  }

  /**
   * The emission loop over the map's entries, in the map's iteration
   * order. The first aggregation that throws ends it; `done` are the rows
   * produced before that.
   */
  method EmitRows(vs: map<VId, Vertex>, m: Buckets, rule: EmitRule, a: Aggregation)
    returns (r: Result<seq<Row>, AggError>, done: seq<Row>)
    ensures Emitted(vs, m, rule, a, r, done)
  {
    done := [];
    var left := m.Keys;
    while left != {}
      invariant left <= m.Keys
      invariant Partial(vs, m, rule, a, left, done)
      decreases left
    {
      var k :| k in left;
      if Emits(rule, k) {
        var ds := CollectDurations(vs, m[k]);
        var result := Agg(ds, a);
        AggOfBucket(vs, m[k], ds, a);
        if result.Failure? {
          return Failure(result.error), done;
        }
        PartialStep(vs, m, rule, a, left, done, k, result.value);
        done := done + [Row(k, result.value)];
      } else {
        PartialStep(vs, m, rule, a, left, done, k, 0.0);
      }
      left := left - {k};
    }
    PartialDone(vs, m, rule, a, done);
    return Success(done), done;
  }

  /** Offering rows to the console one by one, as each is produced. */
  method ShowAll(rows: seq<Row>, console: Console)
    requires console.Valid()
    modifies console
    ensures console.Valid()
    ensures console.lines == old(console.lines) + Shown(old(console.syso), console.clears, rows)
  {
    ghost var on, lines0 := console.syso, console.lines;
    var i := 0;
    while i < |rows|
      invariant 0 <= i <= |rows| && console.Valid()
      invariant console.lines == lines0 + Shown(on, console.clears, rows[..i])
      invariant console.syso == (on && (!console.clears || i == 0))
    {
      console.Show(rows[i]);
      ShownStep(on, console.clears, rows[..i], rows[i]);
      assert rows[..i + 1] == rows[..i] + [rows[i]];
      i := i + 1;
    }
    assert rows[..i] == rows;
  }

  /**
   * The emission with its printing: each row is offered to the console as
   * it is produced, so the rows produced before an aggregation throws are
   * the ones offered.
   */
  method Emit(vs: map<VId, Vertex>, m: Buckets, rule: EmitRule, a: Aggregation, console: Console)
    returns (r: Result<seq<Row>, AggError>, ghost shown: seq<Row>)
    requires console.Valid()
    modifies console
    ensures console.Valid()
    ensures console.lines == old(console.lines) + Shown(old(console.syso), console.clears, shown)
    ensures Emitted(vs, m, rule, a, r, shown)
  {
    var done;
    r, done := EmitRows(vs, m, rule, a);
    shown := done;
    ShowAll(done, console);
  }
}
