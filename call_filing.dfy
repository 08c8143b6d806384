/**
 * How the call queries fill their bucket maps. A query walks either the
 * calls themselves or the phone–call–phone paths of a traversal, and files
 * each call under the keys its reading gives; a reading may fail the way
 * the Java code throws.
 */
module CallFiling {

  import opened Wrappers
  import opened Graph
  import opened Buckets
  import opened CallReading

  /** What a query walks: a call vertex, or a path start <- call -> end. */
  datatype Source = Call(call: VId) | Path(start: VId, call: VId, end: VId)

  /** The readings of the call queries. */
  datatype Reading =
    | PartyValues        // query1_1_1: pairs of the values of the call's phones
    | CallerParticipant  // query1_2: caller x participant pairs
    | PartyUsers         // getUserPairs: pairs of the users of the call's phones
    | PartyUsersMonth    // QueriesNotOlap.query1_5: (user, user, month) triples
    | LastUsers2         // QueriesNotOlap.query1_6: pairs of the last users of the phones
    | LastUsers3         // query2_1 (QueriesNotOlap, App): triples of the last users of the phones
    | PathEnds           // query1_1_2, forEachPair: (first, last) of each path
    | PathEndsMonth      // QueriesOlap.query1_5: (first, last, month) of each path
    | PathEndsThird      // QueriesOlap.query2_1: (first, last, third party) of each path

  predicate OnPaths(q: Reading)
  {
    q.PathEnds? || q.PathEndsMonth? || q.PathEndsThird?
  }

  /** A reading of calls walks calls, a reading of paths walks paths. */
  predicate Fits(q: Reading, src: Source)
  {
    src.Path? <==> OnPaths(q)
  }

  // ---------------------------------------------------------------------
  // What the traversals walk.

  /** V().has("type", "call"). */
  function CallsOf(vs: map<VId, Vertex>): (r: set<Source>)
    ensures forall src :: src in r ==> src.Call?
  {
    set v | v in vs && vs[v].kind == "call" :: Call(v)
  }

  /**
   * V().has("type", "month").has("value", month).in().in().in(): the vertices
   * three in-steps, along any labels, below a month vertex with that value.
   * A vertex the traversal meets twice is filed twice under the same keys,
   * which changes no bucket, so the set is what matters.
   */
  function MonthCalls(vs: map<VId, Vertex>, es: seq<Edge>, month: string): (r: set<Source>)
    ensures forall src :: src in r ==> src.Call?
  {
    set i, j, k | 0 <= i < |es| && 0 <= j < |es| && 0 <= k < |es|
                  && HasKind(vs, es[k].dst, "month") && vs[es[k].dst].value == month
                  && es[j].dst == es[k].src && es[i].dst == es[j].src :: Call(es[i].src)
  }

  /**
   * V().has("type", bottom).in(ins).out(outs).path(): a `bottom` vertex, a
   * vertex with an `ins` edge into it, and the target of an `outs` edge of
   * that vertex (the first vertex itself included).
   */
  function PathsOf(vs: map<VId, Vertex>, es: seq<Edge>, bottom: string, ins: set<EdgeLabel>, outs: set<EdgeLabel>): (r: set<Source>)
    ensures forall src :: src in r ==> src.Path?
  {
    set i, j | 0 <= i < |es| && 0 <= j < |es| && HasKind(vs, es[i].dst, bottom) && es[i].rel in ins
               && es[j].src == es[i].src && es[j].rel in outs :: Path(es[i].dst, es[i].src, es[j].dst)
  }

  // ---------------------------------------------------------------------
  // The keys of one call.

  /** The keys a call reading files call `c` under, or the error its loops throw. */
  ghost function CallKeys(q: Reading, vs: map<VId, Vertex>, es: seq<Edge>, c: VId): Result<set<Key>, QueryError>
    requires !OnPaths(q)
  {
    var outs := OutEdges(es, c);
    match q
    case PartyValues =>
      var s := ValuesAlong(vs, outs, Labels(Parties));
      Success(if |s| < 2 then {} else Pairs(s))
    case CallerParticipant =>
      Success(PairsFrom(ValuesAlong(vs, outs, Labels({CalledBy})), ValuesAlong(vs, outs, Labels({IntegratedBy})), []))
    case PartyUsers =>
      var s := UsersAlong(vs, es, outs);
      Success(if |s| < 2 then {} else Pairs(s))
    case PartyUsersMonth =>
      var month := MonthOf(vs, es, c);
      if month.Failure? then Failure(month.error)
      else
        var s := UsersAlong(vs, es, outs);
        Success(if |s| < 2 then {} else PairsWith(s, [month.value]))
    case LastUsers2 =>
      var us := PhoneUsersAlong(vs, es, outs);
      if |us| < 2 then Success({})
      else if None in us then Failure(NullUser(c))
      else Success(Pairs(Named(us)))
    case LastUsers3 =>
      var us := PhoneUsersAlong(vs, es, outs);
      if |us| < 3 then Success({})
      else if None in us then Failure(NullUser(c))
      else Success(Triples(Named(us)))
  }

  /** The keys a path reading files the path's call under, or the error it throws. */
  ghost function PathKeys(q: Reading, vs: map<VId, Vertex>, es: seq<Edge>, start: VId, c: VId, end: VId): Result<set<Key>, QueryError>
    requires OnPaths(q)
  {
    var u1, u2 := Value(vs, start), Value(vs, end);
    match q
    case PathEnds => Success({[u1, u2]})
    case PathEndsMonth =>
      var t := NextTarget(es, c, AtTime);
      if t.Failure? then Failure(t.error) else Success({[u1, u2, Value(vs, t.value)]})
    case PathEndsThird =>
      if u1 == u2 then Success({})
      else Success(Extensions([u1, u2], ValuesAlong(vs, OutEdges(es, c), Labels(Parties)), {u1, u2}, []))
  }

  ghost function KeysOf(q: Reading, vs: map<VId, Vertex>, es: seq<Edge>, src: Source): Result<set<Key>, QueryError>
    requires Fits(q, src)
  {
    if src.Call? then CallKeys(q, vs, es, src.call) else PathKeys(q, vs, es, src.start, src.call, src.end)
  }

  /** The keys of each item whose reading succeeds. */
  ghost function KeyTable(q: Reading, vs: map<VId, Vertex>, es: seq<Edge>, items: set<Source>): map<Source, set<Key>>
    requires forall src :: src in items ==> Fits(q, src)
  {
    map src | src in items && KeysOf(q, vs, es, src).Success? :: KeysOf(q, vs, es, src).value
  }

  /** The (key, call) facts of the items of `done` that `table` gives keys for. */
  ghost function FactsIn(table: map<Source, set<Key>>, done: set<Source>): set<Fact>
  {
    set src, k | src in done && src in table && k in table[src] :: (k, src.call)
  }

  /** Every (key, call) fact that walking `items` files. */
  ghost function Facts(q: Reading, vs: map<VId, Vertex>, es: seq<Edge>, items: set<Source>): set<Fact>
    requires forall src :: src in items ==> Fits(q, src)
  {
    FactsIn(KeyTable(q, vs, es, items), items)
  }

  /** The reading of `src` succeeds and gives key `k`. */
  ghost predicate Gives(q: Reading, vs: map<VId, Vertex>, es: seq<Edge>, src: Source, k: Key)
    requires Fits(q, src)
  {
    KeysOf(q, vs, es, src).Success? && k in KeysOf(q, vs, es, src).value
  }

  /** A fact is filed exactly when some item of that call gives its key. */
  lemma FactsMeaning(q: Reading, vs: map<VId, Vertex>, es: seq<Edge>, items: set<Source>, k: Key, c: VId)
    requires forall src :: src in items ==> Fits(q, src)
    ensures (k, c) in Facts(q, vs, es, items) <==> exists src :: src in items && src.call == c && Gives(q, vs, es, src, k)
  {
    var table := KeyTable(q, vs, es, items);
    if (k, c) in Facts(q, vs, es, items) {
      var src, k' :| src in items && src in table && k' in table[src] && (k, c) == (k', src.call);
      TableEntry(q, vs, es, items, src);
      assert Gives(q, vs, es, src, k);
    }
    if exists src :: src in items && src.call == c && Gives(q, vs, es, src, k) {
      var src :| src in items && src.call == c && Gives(q, vs, es, src, k);
      TableEntry(q, vs, es, items, src);
      assert (k, src.call) in FactsIn(table, items);
    }
  }

  /** Walking one more item adds the facts of its keys. */
  lemma FactsStep(table: map<Source, set<Key>>, done: set<Source>, src: Source)
    requires src in table
    ensures FactsIn(table, done + {src}) == FactsIn(table, done) + Tag(table[src], src.call)
  {
    var lhs := FactsIn(table, done + {src});
    var rhs := FactsIn(table, done) + Tag(table[src], src.call);
    forall f | f in lhs ensures f in rhs {
      var x, k :| x in done + {src} && x in table && k in table[x] && f == (k, x.call);
      if x != src {
        assert f in FactsIn(table, done);
      }
    }
    forall f | f in rhs ensures f in lhs {
      if f in FactsIn(table, done) {
        var x, k :| x in done && x in table && k in table[x] && f == (k, x.call);
        assert x in done + {src};
      } else {
        var k :| k in table[src] && f == (k, src.call);
        assert src in done + {src};
      }
    }
  }

  /** Walking nothing files nothing. */
  lemma FactsEmpty(table: map<Source, set<Key>>)
    ensures FactsIn(table, {}) == {}
  {
  }

  // ---------------------------------------------------------------------
  // Filing.

  /** What filing one item leaves: the map grouping the facts so far plus the item's, or the reading's error. */
  ghost predicate FiledOne(m: Buckets, facts: set<Fact>, q: Reading, vs: map<VId, Vertex>, es: seq<Edge>, src: Source,
                           r: Result<Buckets, QueryError>)
    requires Fits(q, src)
  {
    (r.Success? <==> KeysOf(q, vs, es, src).Success?) &&
    (r.Success? ==> Grouped(r.value, facts + Tag(KeysOf(q, vs, es, src).value, src.call))) &&
    (r.Failure? ==> r.error == KeysOf(q, vs, es, src).error)
  }

  /** The body of a call query's forEach over its calls: read the call, then the nested put loops. */
  method FileCall(m: Buckets, ghost facts: set<Fact>, q: Reading, vs: map<VId, Vertex>, es: seq<Edge>, c: VId)
    returns (r: Result<Buckets, QueryError>)
    requires Grouped(m, facts) && !OnPaths(q)
    ensures FiledOne(m, facts, q, vs, es, Call(c), r)
  {
    var outs := OutEdges(es, c);
    match q
    case PartyValues =>
      var s := CollectValues(vs, outs, Labels(Parties));
      if |s| < 2 {
        return Success(m);
      }
      var m' := PutPairs(m, facts, s, s, [], c);
      return Success(m');
    case CallerParticipant =>
      var callers := CollectValues(vs, outs, Labels({CalledBy}));
      var participants := CollectValues(vs, outs, Labels({IntegratedBy}));
      var m' := PutPairs(m, facts, callers, participants, [], c);
      return Success(m');
    case PartyUsers =>
      var s := CollectUsers(vs, es, outs);
      if |s| < 2 {
        return Success(m);
      }
      var m' := PutPairs(m, facts, s, s, [], c);
      return Success(m');
    case PartyUsersMonth =>
      var s := CollectUsers(vs, es, outs);
      var month := MonthOf(vs, es, c);
      if month.Failure? {
        return Failure(month.error);
      }
      if |s| < 2 {
        return Success(m);
      }
      var m' := PutPairs(m, facts, s, s, [month.value], c);
      return Success(m');
    case LastUsers2 =>
      var us := CollectPhoneUsers(vs, es, outs);
      if |us| < 2 {
        return Success(m);
      }
      if None in us {
        return Failure(NullUser(c));
      }
      var m' := PutPairs(m, facts, Named(us), Named(us), [], c);
      return Success(m');
    case LastUsers3 =>
      var us := CollectPhoneUsers(vs, es, outs);
      if |us| < 3 {
        return Success(m);
      }
      if None in us {
        return Failure(NullUser(c));
      }
      var m' := PutTriples(m, facts, Named(us), c);
      return Success(m');
  }

  /** The body of a path query's forEach over its paths. */
  method FilePath(m: Buckets, ghost facts: set<Fact>, q: Reading, vs: map<VId, Vertex>, es: seq<Edge>,
                  start: VId, c: VId, end: VId)
    returns (r: Result<Buckets, QueryError>)
    requires Grouped(m, facts) && OnPaths(q)
    ensures FiledOne(m, facts, q, vs, es, Path(start, c, end), r)
  {
    var u1, u2 := Value(vs, start), Value(vs, end);
    match q
    case PathEnds =>
      PutGrouped(m, facts, [u1, u2], c);
      assert Tag({[u1, u2]}, c) == {([u1, u2], c)};
      return Success(Put(m, [u1, u2], c));
    case PathEndsMonth =>
      var t := NextTarget(es, c, AtTime);
      if t.Failure? {
        return Failure(t.error);
      }
      var k := [u1, u2, Value(vs, t.value)];
      PutGrouped(m, facts, k, c);
      assert Tag({k}, c) == {(k, c)};
      return Success(Put(m, k, c));
    case PathEndsThird =>
      if u1 == u2 {
        return Success(m);
      }
      var s := CollectValues(vs, OutEdges(es, c), Labels(Parties));
      var m' := PutRow(m, facts, [u1, u2], s, {u1, u2}, [], c);
      return Success(m');
  }

  /** The body of the forEach, for an item of either kind. */
  method FileOne(m: Buckets, ghost facts: set<Fact>, q: Reading, vs: map<VId, Vertex>, es: seq<Edge>, src: Source)
    returns (r: Result<Buckets, QueryError>)
    requires Grouped(m, facts) && Fits(q, src)
    ensures FiledOne(m, facts, q, vs, es, src, r)
  {
    if src.Call? {
      r := FileCall(m, facts, q, vs, es, src.call);
    } else {
      r := FilePath(m, facts, q, vs, es, src.start, src.call, src.end);
    }
  }

  /** The table holds the keys of exactly the items whose reading succeeds. */
  lemma TableEntry(q: Reading, vs: map<VId, Vertex>, es: seq<Edge>, items: set<Source>, src: Source)
    requires forall x :: x in items ==> Fits(q, x)
    requires src in items
    ensures src in KeyTable(q, vs, es, items) <==> KeysOf(q, vs, es, src).Success?
    ensures src in KeyTable(q, vs, es, items) ==> KeyTable(q, vs, es, items)[src] == KeysOf(q, vs, es, src).value
  {
  }

  /** What filing every item leaves: all readings succeeded and the map groups their facts, or one of them failed. */
  ghost predicate FiledAll(q: Reading, vs: map<VId, Vertex>, es: seq<Edge>, items: set<Source>, r: Result<Buckets, QueryError>)
    requires forall src :: src in items ==> Fits(q, src)
  {
    (r.Success? <==> forall src :: src in items ==> KeysOf(q, vs, es, src).Success?) &&
    (r.Success? ==> Grouped(r.value, Facts(q, vs, es, items))) &&
    (r.Failure? ==> exists src :: src in items && KeysOf(q, vs, es, src) == Failure(r.error))
  }

  /**
   * The forEach over the traversal, in its iteration order, filling a new
   * HashMap. The first reading that throws ends it.
   */
  method FileAll(q: Reading, vs: map<VId, Vertex>, es: seq<Edge>, items: set<Source>) returns (r: Result<Buckets, QueryError>)
    requires forall src :: src in items ==> Fits(q, src)
    ensures FiledAll(q, vs, es, items, r)
  {
    var m: Buckets := map[];
    ghost var table := KeyTable(q, vs, es, items);
    EmptyGrouped();
    FactsEmpty(table);
    var left := items;
    while left != {}
      invariant left <= items
      invariant Grouped(m, FactsIn(table, items - left))
      invariant items - left <= table.Keys
      decreases left
    {
      var src :| src in left;
      ghost var done := items - left;
      var one := FileNext(m, q, vs, es, items, done, src);
      if one.Failure? {
        return Failure(one.error);
      }
      m := one.value;
      assert items - (left - {src}) == done + {src};
      left := left - {src};
    }
    assert items - left == items;
    FiledAllDone(q, vs, es, items, m);
    return Success(m);
  }

  /** One pass of the forEach: the item's facts join those of the items already walked. */
  method FileNext(m: Buckets, q: Reading, vs: map<VId, Vertex>, es: seq<Edge>, items: set<Source>, ghost done: set<Source>,
                  src: Source)
    returns (r: Result<Buckets, QueryError>)
    requires forall x :: x in items ==> Fits(q, x)
    requires src in items && Grouped(m, FactsIn(KeyTable(q, vs, es, items), done))
    ensures r.Success? ==> src in KeyTable(q, vs, es, items) && Grouped(r.value, FactsIn(KeyTable(q, vs, es, items), done + {src}))
    ensures r.Failure? ==> FiledAll(q, vs, es, items, r)
  {
    ghost var table := KeyTable(q, vs, es, items);
    r := FileOne(m, FactsIn(table, done), q, vs, es, src);
    TableEntry(q, vs, es, items, src);
    if r.Failure? {
      FiledAllFails(q, vs, es, items, src, r.error);
    } else {
      FactsStep(table, done, src);
    }
  }

  lemma FiledAllFails(q: Reading, vs: map<VId, Vertex>, es: seq<Edge>, items: set<Source>, src: Source, e: QueryError)
    requires forall x :: x in items ==> Fits(q, x)
    requires src in items && KeysOf(q, vs, es, src) == Failure(e)
    ensures FiledAll(q, vs, es, items, Failure(e))
  {
  }

  lemma FiledAllDone(q: Reading, vs: map<VId, Vertex>, es: seq<Edge>, items: set<Source>, m: Buckets)
    requires forall x :: x in items ==> Fits(q, x)
    requires Grouped(m, FactsIn(KeyTable(q, vs, es, items), items)) && items <= KeyTable(q, vs, es, items).Keys
    ensures FiledAll(q, vs, es, items, Success(m))
  {
    forall src | src in items ensures KeysOf(q, vs, es, src).Success? {
      TableEntry(q, vs, es, items, src);
    }
  }
}
