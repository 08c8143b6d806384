/**
 * QueriesNotOlap: the call queries run on the ingested graph as it is,
 * without roll-ups. Each walks the calls (or the phone paths) of a
 * traversal, files them in a map of buckets and emits the canonical keys;
 * rows are printed only while `printTuples` is set, which printing never
 * clears.
 */
module QueriesNotOlap {

  import opened Wrappers
  import opened JavaStrings
  import opened Graph
  import opened Aggregations
  import opened Buckets
  import opened Emission
  import opened CallReading
  import opened CallFiling
  import opened ReadingKeys
  import opened CallQueries

  /** The month query1_6 and query2_1 look at. */
  const April: string := "4-2017"

  /** query1_1_1: pairs of phone values of a call, AVG of durations. */
  method Query1_1_1(vs: map<VId, Vertex>, es: seq<Edge>, console: Console)
    returns (r: Result<seq<Row>, QueryError>, ghost filed: Result<Buckets, QueryError>,
             ghost emitted: Result<seq<Row>, AggError>, ghost shown: seq<Row>)
    requires console.Valid() && !console.clears
    modifies console
    ensures console.Valid() && console.lines == old(console.lines) + (if old(console.syso) then shown else [])
    ensures Ran(PartyValues, vs, es, CallsOf(vs), Increasing2, Avg, r, filed, emitted, shown)
  {
    r, filed, emitted, shown := RunQuery(PartyValues, vs, es, CallsOf(vs), Increasing2, Avg, console);
  }

  /** query1_1_2: (first, last) of each phone path through a call, AVG of durations. */
  method Query1_1_2(vs: map<VId, Vertex>, es: seq<Edge>, console: Console)
    returns (r: Result<seq<Row>, QueryError>, ghost filed: Result<Buckets, QueryError>,
             ghost emitted: Result<seq<Row>, AggError>, ghost shown: seq<Row>)
    requires console.Valid() && !console.clears
    modifies console
    ensures console.Valid() && console.lines == old(console.lines) + (if old(console.syso) then shown else [])
    ensures Ran(PathEnds, vs, es, PathsOf(vs, es, "phone", Parties, Parties), Increasing2, Avg, r, filed, emitted, shown)
  {
    r, filed, emitted, shown := RunQuery(PathEnds, vs, es, PathsOf(vs, es, "phone", Parties, Parties), Increasing2, Avg, console);
  }

  /** query1_2: caller x participant pairs of a call, AVG of durations. */
  method Query1_2(vs: map<VId, Vertex>, es: seq<Edge>, console: Console)
    returns (r: Result<seq<Row>, QueryError>, ghost filed: Result<Buckets, QueryError>,
             ghost emitted: Result<seq<Row>, AggError>, ghost shown: seq<Row>)
    requires console.Valid() && !console.clears
    modifies console
    ensures console.Valid() && console.lines == old(console.lines) + (if old(console.syso) then shown else [])
    ensures Ran(CallerParticipant, vs, es, CallsOf(vs), Increasing2, Avg, r, filed, emitted, shown)
  {
    r, filed, emitted, shown := RunQuery(CallerParticipant, vs, es, CallsOf(vs), Increasing2, Avg, console);
  }

  /** query1_3: the user pairs of getUserPairs, MAX of durations. */
  method Query1_3(vs: map<VId, Vertex>, es: seq<Edge>, console: Console)
    returns (r: Result<seq<Row>, QueryError>, ghost filed: Result<Buckets, QueryError>,
             ghost emitted: Result<seq<Row>, AggError>, ghost shown: seq<Row>)
    requires console.Valid() && !console.clears
    modifies console
    ensures console.Valid() && console.lines == old(console.lines) + (if old(console.syso) then shown else [])
    ensures Ran(PartyUsers, vs, es, CallsOf(vs), Increasing2, Max, r, filed, emitted, shown)
  {
    r, filed, emitted, shown := RunQuery(PartyUsers, vs, es, CallsOf(vs), Increasing2, Max, console);
  }

  /** query1_4: the user pairs of getUserPairs, COUNT of durations. */
  method Query1_4(vs: map<VId, Vertex>, es: seq<Edge>, console: Console)
    returns (r: Result<seq<Row>, QueryError>, ghost filed: Result<Buckets, QueryError>,
             ghost emitted: Result<seq<Row>, AggError>, ghost shown: seq<Row>)
    requires console.Valid() && !console.clears
    modifies console
    ensures console.Valid() && console.lines == old(console.lines) + (if old(console.syso) then shown else [])
    ensures Ran(PartyUsers, vs, es, CallsOf(vs), Increasing2, Count, r, filed, emitted, shown)
  {
    r, filed, emitted, shown := RunQuery(PartyUsers, vs, es, CallsOf(vs), Increasing2, Count, console);
  }

  /** query1_5: (user, user, month) of a call, emitted when the second user is greater, COUNT of durations. */
  method Query1_5(vs: map<VId, Vertex>, es: seq<Edge>, console: Console)
    returns (r: Result<seq<Row>, QueryError>, ghost filed: Result<Buckets, QueryError>,
             ghost emitted: Result<seq<Row>, AggError>, ghost shown: seq<Row>)
    requires console.Valid() && !console.clears
    modifies console
    ensures console.Valid() && console.lines == old(console.lines) + (if old(console.syso) then shown else [])
    ensures Ran(PartyUsersMonth, vs, es, CallsOf(vs), Increasing2, Count, r, filed, emitted, shown)
  {
    r, filed, emitted, shown := RunQuery(PartyUsersMonth, vs, es, CallsOf(vs), Increasing2, Count, console);
  }

  /** query1_6: pairs of the last users of the phones of the April calls, COUNT of durations. */
  method Query1_6(vs: map<VId, Vertex>, es: seq<Edge>, console: Console)
    returns (r: Result<seq<Row>, QueryError>, ghost filed: Result<Buckets, QueryError>,
             ghost emitted: Result<seq<Row>, AggError>, ghost shown: seq<Row>)
    requires console.Valid() && !console.clears
    modifies console
    ensures console.Valid() && console.lines == old(console.lines) + (if old(console.syso) then shown else [])
    ensures Ran(LastUsers2, vs, es, MonthCalls(vs, es, April), Increasing2, Count, r, filed, emitted, shown)
  {
    r, filed, emitted, shown := RunQuery(LastUsers2, vs, es, MonthCalls(vs, es, April), Increasing2, Count, console);
  }

  /** query2_1: triples of the last users of the phones of the April calls, AVG of durations. */
  method Query2_1(vs: map<VId, Vertex>, es: seq<Edge>, console: Console)
    returns (r: Result<seq<Row>, QueryError>, ghost filed: Result<Buckets, QueryError>,
             ghost emitted: Result<seq<Row>, AggError>, ghost shown: seq<Row>)
    requires console.Valid() && !console.clears
    modifies console
    ensures console.Valid() && console.lines == old(console.lines) + (if old(console.syso) then shown else [])
    ensures Ran(LastUsers3, vs, es, MonthCalls(vs, es, April), Increasing3, Avg, r, filed, emitted, shown)
  {
    r, filed, emitted, shown := RunQuery(LastUsers3, vs, es, MonthCalls(vs, es, April), Increasing3, Avg, console);
  }

  // ---------------------------------------------------------------------
  // What the rows say.

  /** The calls with two phones whose values are a and b. */
  ghost function CallsBetween(vs: map<VId, Vertex>, es: seq<Edge>, a: string, b: string): set<VId>
  {
    set c | c in vs && vs[c].kind == "call" && a in PhoneValues(vs, es, c) && b in PhoneValues(vs, es, c)
  }

  /** The calls query1_1_1 files under a pair are those between two different phone values. */
  lemma PartyValuesCalls(vs: map<VId, Vertex>, es: seq<Edge>, a: string, b: string)
    ensures CallsGiving(PartyValues, vs, es, CallsOf(vs), [a, b]) == (if a == b then {} else CallsBetween(vs, es, a, b))
  {
    var items := CallsOf(vs);
    forall c ensures c in CallsGiving(PartyValues, vs, es, items, [a, b]) <==> a != b && c in CallsBetween(vs, es, a, b) {
      PartyValuesKeys(vs, es, c, [a, b]);
      if a != b && c in CallsBetween(vs, es, a, b) {
        assert Call(c) in items && Gives(PartyValues, vs, es, Call(c), [a, b]);
      }
    }
  }

  /**
   * When query1_1_1 succeeds, it reports (a, b) exactly when a < b and some
   * call has phones with both values, and the row holds the average of the
   * durations of all such calls; no pair is reported twice, in either order.
   */
  lemma Query1_1_1Rows(vs: map<VId, Vertex>, es: seq<Edge>, r: Result<seq<Row>, QueryError>, filed: Result<Buckets, QueryError>,
                       emitted: Result<seq<Row>, AggError>, shown: seq<Row>, a: string, b: string)
    requires Ran(PartyValues, vs, es, CallsOf(vs), Increasing2, Avg, r, filed, emitted, shown) && r.Success?
    ensures HasRow(r.value, [a, b]) <==> Cmp(b, a) > 0 && CallsBetween(vs, es, a, b) != {}
    ensures forall i :: 0 <= i < |r.value| && r.value[i].key == [a, b] ==>
              BucketAgg(vs, CallsBetween(vs, es, a, b), Avg) == Success(r.value[i].value)
    ensures HasRow(r.value, [a, b]) ==> !HasRow(r.value, [b, a])
  {
    PartyValuesCalls(vs, es, a, b);
    RowsMeaning(PartyValues, vs, es, CallsOf(vs), Increasing2, Avg, r, filed, emitted, shown, [a, b]);
    if HasRow(r.value, [a, b]) && HasRow(r.value, [b, a]) {
      var i :| 0 <= i < |r.value| && r.value[i].key == [b, a];
      assert Emits(Increasing2, [b, a]);
      CmpAntisymmetric(b, a);
    }
  }

  /** The April calls whose phones have a, b and d among their last users, and none without a user. */
  ghost function AprilCallsOf(vs: map<VId, Vertex>, es: seq<Edge>, a: string, b: string, d: string): set<VId>
  {
    set src | src in MonthCalls(vs, es, April) && None !in LastUsers(vs, es, src.call)
                && Some(a) in LastUsers(vs, es, src.call) && Some(b) in LastUsers(vs, es, src.call)
                && Some(d) in LastUsers(vs, es, src.call) :: src.call
  }

  /** The calls query2_1 files under a triple of different users are the April calls with those three last users. */
  lemma LastUsersCalls(vs: map<VId, Vertex>, es: seq<Edge>, a: string, b: string, d: string)
    requires a != b && b != d && a != d
    ensures CallsGiving(LastUsers3, vs, es, MonthCalls(vs, es, April), [a, b, d]) == AprilCallsOf(vs, es, a, b, d)
  {
    var items := MonthCalls(vs, es, April);
    forall src | src in items ensures Gives(LastUsers3, vs, es, src, [a, b, d]) <==>
        None !in LastUsers(vs, es, src.call) && Some(a) in LastUsers(vs, es, src.call)
        && Some(b) in LastUsers(vs, es, src.call) && Some(d) in LastUsers(vs, es, src.call) {
      LastUsers3Keys(vs, es, src.call, [a, b, d]);
    }
  }

  /** aggTriplets emits (a, b, d) exactly when a < b < d; the three users then differ. */
  lemma EmitsIncreasing(a: string, b: string, d: string)
    ensures Emits(Increasing3, [a, b, d]) <==> Less(a, b) && Less(b, d)
    ensures Less(a, b) && Less(b, d) ==> a != b && b != d && a != d
  {
    CmpAntisymmetric(b, a);
    CmpAntisymmetric(d, b);
    if Less(a, b) && Less(b, d) {
      EmittedTriple([a, b, d]);
    }
  }

  /**
   * When query2_1 succeeds, it reports (a, b, d) exactly when a < b < d and
   * some April call has phones with those three last users and none
   * without one, and the row holds the average of the durations of all
   * such calls.
   */
  lemma Query2_1Rows(vs: map<VId, Vertex>, es: seq<Edge>, r: Result<seq<Row>, QueryError>, filed: Result<Buckets, QueryError>,
                     emitted: Result<seq<Row>, AggError>, shown: seq<Row>, a: string, b: string, d: string)
    requires Ran(LastUsers3, vs, es, MonthCalls(vs, es, April), Increasing3, Avg, r, filed, emitted, shown) && r.Success?
    ensures HasRow(r.value, [a, b, d]) <==> Less(a, b) && Less(b, d) && AprilCallsOf(vs, es, a, b, d) != {}
    ensures forall i :: 0 <= i < |r.value| && r.value[i].key == [a, b, d] ==>
              BucketAgg(vs, AprilCallsOf(vs, es, a, b, d), Avg) == Success(r.value[i].value)
  {
    RowsMeaning(LastUsers3, vs, es, MonthCalls(vs, es, April), Increasing3, Avg, r, filed, emitted, shown, [a, b, d]);
    EmitsIncreasing(a, b, d);
    if Less(a, b) && Less(b, d) {
      LastUsersCalls(vs, es, a, b, d);
    }
  }

  /** Of the six orders of three users, query2_1 reports at most one. */
  lemma Query2_1Once(vs: map<VId, Vertex>, es: seq<Edge>, r: Result<seq<Row>, QueryError>, filed: Result<Buckets, QueryError>,
                     emitted: Result<seq<Row>, AggError>, shown: seq<Row>, k: Key, p: Key)
    requires Ran(LastUsers3, vs, es, MonthCalls(vs, es, April), Increasing3, Avg, r, filed, emitted, shown) && r.Success?
    requires |k| == 3 && p in Orders(k) && HasRow(r.value, k) && HasRow(r.value, p)
    ensures p == k
  {
    TripleOnce(r.value, k, k, p);
  }
}
