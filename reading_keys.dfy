/**
 * What each call reading files a call or path under, stated without the
 * loops: the keys are the ordered tuples of distinct values read around
 * the call, the size guards skip nothing that would have been filed, and a
 * reading fails exactly where the Java code throws.
 */
module ReadingKeys {

  import opened Wrappers
  import opened Graph
  import opened Buckets
  import opened CallReading
  import opened CallFiling

  /** The values of the phones a call's integratedBy and calledBy edges lead to. */
  function PhoneValues(vs: map<VId, Vertex>, es: seq<Edge>, c: VId): set<string>
  {
    ValuesAlong(vs, OutEdges(es, c), Labels(Parties))
  }

  /** The users of a call's phones. */
  function CallUsers(vs: map<VId, Vertex>, es: seq<Edge>, c: VId): set<string>
  {
    UsersAlong(vs, es, OutEdges(es, c))
  }

  /** The last user of each of a call's phones, null included. */
  function LastUsers(vs: map<VId, Vertex>, es: seq<Edge>, c: VId): set<Option<string>>
  {
    PhoneUsersAlong(vs, es, OutEdges(es, c))
  }

  /** A size guard `|s| < 2` in front of the pair loops drops no pair. */
  lemma GuardedPairs(s: set<string>, suffix: Key, k: Key)
    ensures k in (if |s| < 2 then {} else PairsWith(s, suffix)) <==>
              |k| == 2 + |suffix| && k[0] in s && k[1] in s && k[0] != k[1] && k[2..] == suffix
  {
    SmallSetsNoTuples(s, suffix);
    PairsMeaning(s, suffix, k);
  }

  /**
   * query1_1_1: a call is filed under (a, b) exactly when a and b are two
   * different values of its phones; the reading never fails.
   */
  lemma PartyValuesKeys(vs: map<VId, Vertex>, es: seq<Edge>, c: VId, k: Key)
    ensures KeysOf(PartyValues, vs, es, Call(c)).Success?
    ensures Gives(PartyValues, vs, es, Call(c), k) <==>
              |k| == 2 && k[0] != k[1] && k[0] in PhoneValues(vs, es, c) && k[1] in PhoneValues(vs, es, c)
  {
    GuardedPairs(PhoneValues(vs, es, c), [], k);
  }

  /**
   * query1_2: a call is filed under (a, b) exactly when a is the value of a
   * calledBy target and b a different value of an integratedBy target.
   */
  lemma CallerParticipantKeys(vs: map<VId, Vertex>, es: seq<Edge>, c: VId, k: Key)
    ensures KeysOf(CallerParticipant, vs, es, Call(c)).Success?
    ensures Gives(CallerParticipant, vs, es, Call(c), k) <==>
              |k| == 2 && k[0] != k[1] &&
              k[0] in ValuesAlong(vs, OutEdges(es, c), Labels({CalledBy})) &&
              k[1] in ValuesAlong(vs, OutEdges(es, c), Labels({IntegratedBy}))
  {
    var callers := ValuesAlong(vs, OutEdges(es, c), Labels({CalledBy}));
    var participants := ValuesAlong(vs, OutEdges(es, c), Labels({IntegratedBy}));
    if k in PairsFrom(callers, participants, []) {
      var p, q :| p in callers && q in participants && p != q && k == [p, q] + [];
    }
    if |k| == 2 && k[0] != k[1] && k[0] in callers && k[1] in participants {
      assert k == [k[0], k[1]] + [];
    }
  }

  /** getUserPairs: a call is filed under (a, b) exactly when a and b are two different users of its phones. */
  lemma PartyUsersKeys(vs: map<VId, Vertex>, es: seq<Edge>, c: VId, k: Key)
    ensures KeysOf(PartyUsers, vs, es, Call(c)).Success?
    ensures Gives(PartyUsers, vs, es, Call(c), k) <==>
              |k| == 2 && k[0] != k[1] && k[0] in CallUsers(vs, es, c) && k[1] in CallUsers(vs, es, c)
  {
    GuardedPairs(CallUsers(vs, es, c), [], k);
  }

  /**
   * QueriesNotOlap.query1_5: the reading fails exactly when the month chain
   * is broken, and otherwise files the call under (a, b, month) for two
   * different users a and b of its phones.
   */
  lemma PartyUsersMonthKeys(vs: map<VId, Vertex>, es: seq<Edge>, c: VId, k: Key)
    ensures KeysOf(PartyUsersMonth, vs, es, Call(c)).Failure? <==> MonthOf(vs, es, c).Failure?
    ensures Gives(PartyUsersMonth, vs, es, Call(c), k) <==>
              MonthOf(vs, es, c).Success? && |k| == 3 && k[0] != k[1] &&
              k[0] in CallUsers(vs, es, c) && k[1] in CallUsers(vs, es, c) && k[2] == MonthOf(vs, es, c).value
  {
    var month := MonthOf(vs, es, c);
    if month.Success? {
      GuardedPairs(CallUsers(vs, es, c), [month.value], k);
      if |k| == 3 && k[2] == month.value {
        assert k[2..] == [month.value];
      }
    }
  }

  /**
   * QueriesNotOlap.query1_6: with two or more last users, one of them null
   * makes the reading throw; otherwise a call is filed under (a, b) exactly
   * when a and b are the last users of two of its phones and differ.
   */
  lemma LastUsers2Keys(vs: map<VId, Vertex>, es: seq<Edge>, c: VId, k: Key)
    ensures KeysOf(LastUsers2, vs, es, Call(c)).Failure? <==> |LastUsers(vs, es, c)| >= 2 && None in LastUsers(vs, es, c)
    ensures Gives(LastUsers2, vs, es, Call(c), k) <==>
              None !in LastUsers(vs, es, c) && |k| == 2 && k[0] != k[1] &&
              Some(k[0]) in LastUsers(vs, es, c) && Some(k[1]) in LastUsers(vs, es, c)
  {
    var us := LastUsers(vs, es, c);
    if None !in us {
      NamedCard(us);
      GuardedPairs(Named(us), [], k);
      if |k| == 2 {
        assert k[0] in Named(us) <==> Some(k[0]) in us;
        assert k[1] in Named(us) <==> Some(k[1]) in us;
      }
    }
  }

  /**
   * query2_1 (QueriesNotOlap and App): with three or more last users, a null
   * one makes the reading throw; otherwise a call is filed under (a, b, d)
   * exactly when a, b and d are pairwise-different last users of its phones.
   */
  lemma LastUsers3Keys(vs: map<VId, Vertex>, es: seq<Edge>, c: VId, k: Key)
    ensures KeysOf(LastUsers3, vs, es, Call(c)).Failure? <==> |LastUsers(vs, es, c)| >= 3 && None in LastUsers(vs, es, c)
    ensures Gives(LastUsers3, vs, es, Call(c), k) <==>
              None !in LastUsers(vs, es, c) && |k| == 3 && k[0] != k[1] && k[2] != k[0] && k[2] != k[1] &&
              Some(k[0]) in LastUsers(vs, es, c) && Some(k[1]) in LastUsers(vs, es, c) && Some(k[2]) in LastUsers(vs, es, c)
  {
    var us := LastUsers(vs, es, c);
    if None !in us {
      var s := Named(us);
      NamedCard(us);
      SmallSetsNoTuples(s, []);
      TriplesMeaning(s, k);
      if |k| == 3 {
        assert k[0] in s <==> Some(k[0]) in us;
        assert k[1] in s <==> Some(k[1]) in us;
        assert k[2] in s <==> Some(k[2]) in us;
      }
    }
  }

  /**
   * QueriesOlap.query2_1: a path (start, call, end) with two different end
   * values files its call under (start, end, d) for each value d of the
   * call's phones other than those two, and under nothing otherwise.
   */
  lemma PathEndsThirdKeys(vs: map<VId, Vertex>, es: seq<Edge>, start: VId, c: VId, end: VId, k: Key)
    ensures KeysOf(PathEndsThird, vs, es, Path(start, c, end)).Success?
    ensures Gives(PathEndsThird, vs, es, Path(start, c, end), k) <==>
              |k| == 3 && k[0] == Value(vs, start) && k[1] == Value(vs, end) && k[0] != k[1] &&
              k[2] in PhoneValues(vs, es, c) && k[2] != k[0] && k[2] != k[1]
  {
    var u1, u2 := Value(vs, start), Value(vs, end);
    if u1 != u2 {
      var ext := Extensions([u1, u2], PhoneValues(vs, es, c), {u1, u2}, []);
      if k in ext {
        var d :| d in PhoneValues(vs, es, c) && d !in {u1, u2} && k == [u1, u2] + [d] + [];
      }
      if |k| == 3 && k[0] == u1 && k[1] == u2 && k[2] in PhoneValues(vs, es, c) && k[2] != u1 && k[2] != u2 {
        assert k == [u1, u2] + [k[2]] + [];
      }
    }
  }
}
