/**
 * A call query from end to end: file every item of the traversal, then
 * emit the canonical entries of the map. Also the orientation facts the
 * queries rely on: the symmetric readings file a call under (a, b) and
 * (b, a) alike, so each unordered pair is reported once.
 */
module CallQueries {

  import opened Wrappers
  import opened Graph
  import opened Aggregations
  import opened Buckets
  import opened Emission
  import opened CallReading
  import opened CallFiling
  import opened ReadingKeys
  import opened JavaStrings

  /**
   * The outcome of a call query: the filing of `items`, and when it
   * succeeds, the emission of its map under `rule` with `a`. `shown` are the
   * rows offered to the console.
   */
  ghost predicate Ran(q: Reading, vs: map<VId, Vertex>, es: seq<Edge>, items: set<Source>, rule: EmitRule, a: Aggregation,
                      r: Result<seq<Row>, QueryError>, filed: Result<Buckets, QueryError>,
                      emitted: Result<seq<Row>, AggError>, shown: seq<Row>)
    requires forall src :: src in items ==> Fits(q, src)
  {
    FiledAll(q, vs, es, items, filed) &&
    (filed.Failure? ==> r == Failure(filed.error) && shown == []) &&
    (filed.Success? ==>
       Emitted(vs, filed.value, rule, a, emitted, shown) &&
       r == (if emitted.Success? then Success(emitted.value) else Failure(AggregationFailed(emitted.error))))
  }

  /** Fill the map over the traversal, then emit its entries to the console. */
  method RunQuery(q: Reading, vs: map<VId, Vertex>, es: seq<Edge>, items: set<Source>, rule: EmitRule, a: Aggregation,
                  console: Console)
    returns (r: Result<seq<Row>, QueryError>, ghost filed: Result<Buckets, QueryError>,
             ghost emitted: Result<seq<Row>, AggError>, ghost shown: seq<Row>)
    requires forall src :: src in items ==> Fits(q, src)
    requires console.Valid()
    modifies console
    ensures console.Valid()
    ensures console.lines == old(console.lines) + Shown(old(console.syso), console.clears, shown)
    ensures Ran(q, vs, es, items, rule, a, r, filed, emitted, shown)
  {
    var f := FileAll(q, vs, es, items);
    filed, emitted, shown := f, Success([]), [];
    if f.Failure? {
      return Failure(f.error), filed, emitted, shown;
    }
    var e;
    e, shown := Emit(vs, f.value, rule, a, console);
    emitted := e;
    if e.Failure? {
      r := Failure(AggregationFailed(e.error));
    } else {
      r := Success(e.value);
    }
  }

  // ---------------------------------------------------------------------
  // Orientation.

  /** Facts that file each call under a key and under that key with its first two values exchanged. */
  ghost predicate SwapClosed(facts: set<Fact>)
  {
    forall k, c :: (k, c) in facts && |k| >= 2 ==> (Swap(k), c) in facts
  }

  lemma SwapTwice(k: Key)
    requires |k| >= 2
    ensures Swap(Swap(k)) == k
  {
    assert Swap(Swap(k)) == [k[0], k[1]] + k[2..];
  }

  /** With swap-closed facts, a key and its swap have the same bucket. */
  lemma SwapBucket(m: Buckets, facts: set<Fact>, k: Key)
    requires Grouped(m, facts) && SwapClosed(facts) && k in m && |k| >= 2
    ensures Swap(k) in m && m[Swap(k)] == m[k]
  {
    SwapTwice(k);
    var c :| c in m[k];
    assert (Swap(k), c) in facts;
    forall x | x in m[k] ensures x in m[Swap(k)] {
      assert (Swap(k), x) in facts;
    }
    forall x | x in m[Swap(k)] ensures x in m[k] {
      assert (Swap(Swap(k)), x) in facts;
    }
  }

  /** Some row has key `k`. */
  ghost predicate HasRow(rows: seq<Row>, k: Key)
  {
    exists i :: 0 <= i < |rows| && rows[i].key == k
  }

  /**
   * Over swap-closed facts a pair rule reports a key of equal values never,
   * and of a key (a, b, ..) with a != b and its swap (b, a, ..) exactly one,
   * with the aggregate of their common bucket.
   */
  lemma ReportedOnce(vs: map<VId, Vertex>, m: Buckets, facts: set<Fact>, rule: EmitRule, a: Aggregation, rows: seq<Row>, k: Key)
    requires rule != Increasing3 && Grouped(m, facts) && SwapClosed(facts) && Reports(vs, m, rule, a, rows)
    requires k in m && |k| >= 2
    ensures k[0] == k[1] ==> !HasRow(rows, k)
    ensures k[0] != k[1] ==> (HasRow(rows, k) <==> !HasRow(rows, Swap(k)))
    ensures forall i :: 0 <= i < |rows| && (rows[i].key == k || rows[i].key == Swap(k)) ==>
              BucketAgg(vs, m[k], a) == Success(rows[i].value)
  {
    SwapBucket(m, facts, k);
    PairOrientation(rule, k);
    if HasRow(rows, k) {
      var i :| 0 <= i < |rows| && rows[i].key == k;
      assert Emits(rule, rows[i].key);
    }
    if k[0] != k[1] {
      if Emits(rule, k) {
        assert HasRow(rows, k);
      } else {
        assert HasRow(rows, Swap(k));
      }
    }
  }

  /** Swapping the two values of a pair key keeps it a pair of distinct values of the same set with the same suffix. */
  lemma PairsWithSwap(s: set<string>, suffix: Key, k: Key)
    requires k in PairsWith(s, suffix)
    ensures |k| >= 2 && Swap(k) in PairsWith(s, suffix)
  {
    PairsMeaning(s, suffix, k);
    PairsMeaning(s, suffix, Swap(k));
  }

  /** The readings that file a call under a pair key and its swap alike. */
  predicate SymmetricReading(q: Reading)
  {
    q.PartyValues? || q.PartyUsers? || q.PartyUsersMonth? || q.LastUsers2?
  }

  /** A symmetric reading gives the swap of every key it gives, from the same call. */
  lemma CallKeysSwap(q: Reading, vs: map<VId, Vertex>, es: seq<Edge>, c: VId, k: Key)
    requires SymmetricReading(q) && Gives(q, vs, es, Call(c), k)
    ensures |k| >= 2 && Gives(q, vs, es, Call(c), Swap(k))
  {
    var outs := OutEdges(es, c);
    match q
    case PartyValues =>
      PairsWithSwap(ValuesAlong(vs, outs, Labels(Parties)), [], k);
    case PartyUsers =>
      PairsWithSwap(UsersAlong(vs, es, outs), [], k);
    case PartyUsersMonth =>
      PairsWithSwap(UsersAlong(vs, es, outs), [MonthOf(vs, es, c).value], k);
    case LastUsers2 =>
      PairsWithSwap(Named(PhoneUsersAlong(vs, es, outs)), [], k);
  }

  /** The calls a symmetric reading walks are filed swap-closed. */
  lemma CallFactsSwapClosed(q: Reading, vs: map<VId, Vertex>, es: seq<Edge>, items: set<Source>)
    requires SymmetricReading(q) && forall src :: src in items ==> src.Call?
    ensures SwapClosed(Facts(q, vs, es, items))
  {
    forall k, c | (k, c) in Facts(q, vs, es, items) && |k| >= 2 ensures (Swap(k), c) in Facts(q, vs, es, items) {
      FactsMeaning(q, vs, es, items, k, c);
      var src :| src in items && src.call == c && Gives(q, vs, es, src, k);
      CallKeysSwap(q, vs, es, c, k);
      FactsMeaning(q, vs, es, items, Swap(k), c);
    }
  }

  /**
   * When both steps of the traversal follow the same labels and every edge
   * with those labels ends at a `bottom` vertex, the path reading (first,
   * last) is filed swap-closed: the path walked backwards is a path too.
   */
  lemma PathFactsSwapClosed(vs: map<VId, Vertex>, es: seq<Edge>, bottom: string, labels: set<EdgeLabel>)
    requires forall e :: e in es && e.rel in labels ==> HasKind(vs, e.dst, bottom)
    ensures SwapClosed(Facts(PathEnds, vs, es, PathsOf(vs, es, bottom, labels, labels)))
  {
    var items := PathsOf(vs, es, bottom, labels, labels);
    forall k, c | (k, c) in Facts(PathEnds, vs, es, items) && |k| >= 2 ensures (Swap(k), c) in Facts(PathEnds, vs, es, items) {
      FactsMeaning(PathEnds, vs, es, items, k, c);
      var src :| src in items && src.call == c && Gives(PathEnds, vs, es, src, k);
      var back := BackPath(vs, es, bottom, labels, src);
      PathEndsSwap(vs, es, src, back, k);
      FactsMeaning(PathEnds, vs, es, items, Swap(k), c);
    }
  }

  /** The path walked backwards: its two edges taken in the other order. */
  lemma BackPath(vs: map<VId, Vertex>, es: seq<Edge>, bottom: string, labels: set<EdgeLabel>, src: Source) returns (back: Source)
    requires forall e :: e in es && e.rel in labels ==> HasKind(vs, e.dst, bottom)
    requires src in PathsOf(vs, es, bottom, labels, labels)
    ensures src.Path? && back == Path(src.end, src.call, src.start) && back in PathsOf(vs, es, bottom, labels, labels)
  {
    var i, j :| 0 <= i < |es| && 0 <= j < |es| && HasKind(vs, es[i].dst, bottom) && es[i].rel in labels
                && es[j].src == es[i].src && es[j].rel in labels && src == Path(es[i].dst, es[i].src, es[j].dst);
    assert es[j] in es;
    back := Path(es[j].dst, es[j].src, es[i].dst);
  }

  /** A path and its reverse give swapped end keys. */
  lemma PathEndsSwap(vs: map<VId, Vertex>, es: seq<Edge>, src: Source, back: Source, k: Key)
    requires src.Path? && back == Path(src.end, src.call, src.start) && Gives(PathEnds, vs, es, src, k)
    ensures |k| == 2 && Gives(PathEnds, vs, es, back, Swap(k))
  {
    assert k == [Value(vs, src.start), Value(vs, src.end)];
    assert Swap(k) == [Value(vs, back.start), Value(vs, back.end)];
  }

  // ---------------------------------------------------------------------
  // What the rows mean.

  /** The calls of the items whose reading gives `k`: what a query files under `k`. */
  ghost function CallsGiving(q: Reading, vs: map<VId, Vertex>, es: seq<Edge>, items: set<Source>, k: Key): set<VId>
    requires forall src :: src in items ==> Fits(q, src)
  {
    set src | src in items && Gives(q, vs, es, src, k) :: src.call
  }

  /** The map a successful filing leaves holds, for each key, exactly the calls whose reading gives it. */
  lemma BucketOfKey(q: Reading, vs: map<VId, Vertex>, es: seq<Edge>, items: set<Source>, m: Buckets, k: Key)
    requires forall src :: src in items ==> Fits(q, src)
    requires Grouped(m, Facts(q, vs, es, items))
    ensures k in m <==> CallsGiving(q, vs, es, items, k) != {}
    ensures k in m ==> m[k] == CallsGiving(q, vs, es, items, k)
  {
    var calls := CallsGiving(q, vs, es, items, k);
    forall c ensures (k in m && c in m[k]) <==> c in calls {
      BucketMembers(m, Facts(q, vs, es, items), k, c);
      FactsMeaning(q, vs, es, items, k, c);
    }
    if k in m {
      var c :| c in m[k];
      assert c in calls;
    }
    if calls != {} {
      var c :| c in calls;
      assert k in m && c in m[k];
    }
  }

  /**
   * A query that succeeds reports a key exactly when the rule emits it and
   * some walked call is filed under it, with agg over the durations of
   * exactly those calls.
   */
  lemma RowsMeaning(q: Reading, vs: map<VId, Vertex>, es: seq<Edge>, items: set<Source>, rule: EmitRule, a: Aggregation,
                    r: Result<seq<Row>, QueryError>, filed: Result<Buckets, QueryError>,
                    emitted: Result<seq<Row>, AggError>, shown: seq<Row>, k: Key)
    requires forall src :: src in items ==> Fits(q, src)
    requires Ran(q, vs, es, items, rule, a, r, filed, emitted, shown) && r.Success?
    ensures HasRow(r.value, k) <==> Emits(rule, k) && CallsGiving(q, vs, es, items, k) != {}
    ensures forall i :: 0 <= i < |r.value| && r.value[i].key == k ==>
              BucketAgg(vs, CallsGiving(q, vs, es, items, k), a) == Success(r.value[i].value)
  {
    BucketOfKey(q, vs, es, items, filed.value, k);
  }

  // ---------------------------------------------------------------------
  // Triples.

  /** The six orders of the values of a triple. */
  function Orders(k: Key): (r: set<Key>)
    requires |k| == 3
    ensures k in r && forall p :: p in r ==> |p| == 3
  {
    assert k == [k[0], k[1], k[2]];
    {[k[0], k[1], k[2]], [k[0], k[2], k[1]], [k[1], k[0], k[2]], [k[1], k[2], k[0]], [k[2], k[0], k[1]], [k[2], k[1], k[0]]}
  }

  /** Facts that file each call under every order of each triple it is filed under. */
  ghost predicate OrderClosed(facts: set<Fact>)
  {
    forall k, c, p :: (k, c) in facts && |k| == 3 && p in Orders(k) ==> (p, c) in facts
  }

  /** Reordering a triple does not change its set of orders. */
  lemma OrdersOfOrder(k: Key, p: Key)
    requires |k| == 3 && p in Orders(k)
    ensures |p| == 3 && Orders(p) == Orders(k)
  {
  }

  /** With order-closed facts, all orders of a filed triple share its bucket. */
  lemma OrderBucket(m: Buckets, facts: set<Fact>, k: Key, p: Key)
    requires Grouped(m, facts) && OrderClosed(facts) && k in m && |k| == 3 && p in Orders(k)
    ensures p in m && m[p] == m[k]
  {
    OrdersOfOrder(k, p);
    var c :| c in m[k];
    assert (p, c) in facts;
    forall x | x in m[k] ensures x in m[p] {
      assert (p, x) in facts;
    }
    forall x | x in m[p] ensures x in m[k] {
      assert (p, x) in facts;
      assert k in Orders(p);
    }
  }

  /**
   * Over order-closed facts, aggTriplets reports a triple of equal values
   * never, and of the six orders of three different values exactly one.
   */
  lemma TripleReportedOnce(vs: map<VId, Vertex>, m: Buckets, facts: set<Fact>, a: Aggregation, rows: seq<Row>, k: Key)
    requires Grouped(m, facts) && OrderClosed(facts) && Reports(vs, m, Increasing3, a, rows)
    requires k in m && |k| == 3
    ensures k[0] == k[1] || k[1] == k[2] || k[0] == k[2] ==> !HasRow(rows, k)
    ensures k[0] != k[1] && k[1] != k[2] && k[0] != k[2] ==>
              (exists p :: p in Orders(k) && HasRow(rows, p)) &&
              forall p, p' :: p in Orders(k) && p' in Orders(k) && HasRow(rows, p) && HasRow(rows, p') ==> p == p'
  {
    if HasRow(rows, k) {
      var i :| 0 <= i < |rows| && rows[i].key == k;
      EmittedTriple(rows[i].key);
    }
    if k[0] != k[1] && k[1] != k[2] && k[0] != k[2] {
      TripleCanonical(k[0], k[1], k[2]);
      var p :| p in Orders(k) && Emits(Increasing3, p);
      OrderBucket(m, facts, k, p);
      assert HasRow(rows, p);
      forall p, p' | p in Orders(k) && p' in Orders(k) && HasRow(rows, p) && HasRow(rows, p') ensures p == p' {
        TripleOnce(rows, k, p, p');
      }
    }
  }

  /** Two reported orders of a triple are the same order. */
  lemma TripleOnce(rows: seq<Row>, k: Key, p: Key, p': Key)
    requires |k| == 3 && p in Orders(k) && p' in Orders(k) && HasRow(rows, p) && HasRow(rows, p')
    requires forall i :: 0 <= i < |rows| ==> Emits(Increasing3, rows[i].key)
    ensures p == p'
  {
    var i :| 0 <= i < |rows| && rows[i].key == p;
    var j :| 0 <= j < |rows| && rows[j].key == p';
    OrdersOfOrder(k, p);
    OnlyIncreasingOrder(p, p');
  }

  /** Of the orders of a triple, only one is increasing. */
  lemma OnlyIncreasingOrder(p: Key, q: Key)
    requires |p| == 3 && q in Orders(p) && Emits(Increasing3, p) && Emits(Increasing3, q)
    ensures p == q
  {
    EmittedTriple(p);
    EmittedTriple(q);
    var a, b, c := p[0], p[1], p[2];
    LessTrichotomy(a, b);
    LessTrichotomy(b, c);
    LessTrichotomy(a, c);
    assert p == [a, b, c];
  }

  /** The last-users triple reading files each call under every order of each of its triples. */
  lemma LastUsersOrderClosed(vs: map<VId, Vertex>, es: seq<Edge>, items: set<Source>)
    requires forall src :: src in items ==> src.Call?
    ensures OrderClosed(Facts(LastUsers3, vs, es, items))
  {
    forall k, c, p | (k, c) in Facts(LastUsers3, vs, es, items) && |k| == 3 && p in Orders(k)
      ensures (p, c) in Facts(LastUsers3, vs, es, items)
    {
      FactsMeaning(LastUsers3, vs, es, items, k, c);
      var src :| src in items && src.call == c && Gives(LastUsers3, vs, es, src, k);
      LastUsersReordered(vs, es, c, k, p);
      FactsMeaning(LastUsers3, vs, es, items, p, c);
    }
  }

  /** A call filed under a last-users triple is filed under each of its orders. */
  lemma LastUsersReordered(vs: map<VId, Vertex>, es: seq<Edge>, c: VId, k: Key, p: Key)
    requires Gives(LastUsers3, vs, es, Call(c), k) && |k| == 3 && p in Orders(k)
    ensures Gives(LastUsers3, vs, es, Call(c), p)
  {
    LastUsers3Keys(vs, es, c, k);
    LastUsers3Keys(vs, es, c, p);
  }
}
