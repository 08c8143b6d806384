/**
 * The bucketing every call query shares: a HashMap from a Pair or Triplet
 * of values to the HashSet of calls filed under it (putIfAbsent followed by
 * add), the ordered tuples of distinct values a call is filed under, and
 * the flattened durations of a bucket of calls.
 */
module Buckets {

  import opened Graph

  /** A Pair or Triplet of values, as the sequence of its components. */
  type Key = seq<string>

  type Buckets = map<Key, set<VId>>

  /** A (key, call) fact: the call is filed under the key. */
  type Fact = (Key, VId)

  /**
   * The map files exactly the facts: each call is in the bucket of each of
   * its keys and nowhere else, and no bucket is empty (a bucket is only
   * created by the put that adds its first call).
   */
  ghost predicate Grouped(m: Buckets, facts: set<Fact>)
  {
    (forall k :: k in m ==> m[k] != {}) &&
    (forall k, c :: k in m && c in m[k] ==> (k, c) in facts) &&
    (forall f :: f in facts ==> f.0 in m && f.1 in m[f.0])
  }

  /** pairsMap.putIfAbsent(k, new HashSet()); pairsMap.get(k).add(c). */
  function Put(m: Buckets, k: Key, c: VId): Buckets
  {
    m[k := (if k in m then m[k] else {}) + {c}]
  }

  /** The facts filing one call under each of `keys`. */
  ghost function Tag(keys: set<Key>, c: VId): set<Fact>
  {
    set k | k in keys :: (k, c)
  }

  /** Putting one more fact keeps the map grouped. */
  lemma PutGrouped(m: Buckets, facts: set<Fact>, k: Key, c: VId)
    requires Grouped(m, facts)
    ensures Grouped(Put(m, k, c), facts + {(k, c)})
  {
    var m' := Put(m, k, c);
    forall f | f in facts + {(k, c)} ensures f.0 in m' && f.1 in m'[f.0] {
      if f != (k, c) {
        assert f.0 in m && f.1 in m[f.0];
      }
    }
  }

  /** An empty map groups no facts. */
  lemma EmptyGrouped()
    ensures Grouped(map[], {})
  {
  }

  /** The bucket of a key holds exactly the calls filed under it. */
  lemma BucketMembers(m: Buckets, facts: set<Fact>, k: Key, c: VId)
    requires Grouped(m, facts)
    ensures (k in m && c in m[k]) <==> (k, c) in facts
  {
  }

  // ---------------------------------------------------------------------
  // Ordered tuples of distinct values.

  /** prefix + [q] + suffix for each q of `s` outside `excluded`. */
  ghost function Extensions(prefix: Key, s: set<string>, excluded: set<string>, suffix: Key): set<Key>
  {
    set q | q in s && q !in excluded :: prefix + [q] + suffix
  }

  /** The keys [p, q] + suffix of distinct values p in `firsts` and q in `s`. */
  ghost function PairsFrom(firsts: set<string>, s: set<string>, suffix: Key): set<Key>
  {
    set p, q | p in firsts && q in s && p != q :: [p, q] + suffix
  }

  /** Every ordered pair of distinct values of `s`, followed by `suffix`. */
  ghost function PairsWith(s: set<string>, suffix: Key): set<Key>
  {
    PairsFrom(s, s, suffix)
  }

  /** Every ordered pair of distinct values of `s`. */
  ghost function Pairs(s: set<string>): set<Key>
  {
    PairsWith(s, [])
  }

  /** The ordered triples (p, q, r) of pairwise-distinct values with p in `firsts` and q in `seconds`. */
  ghost function TriplesFrom(firsts: set<string>, seconds: set<string>, s: set<string>): set<Key>
  {
    set p, q, r | p in firsts && q in seconds && r in s && p != q && r != p && r != q :: [p, q, r]
  }

  /** Every ordered triple of pairwise-distinct values of `s`. */
  ghost function Triples(s: set<string>): set<Key>
  {
    TriplesFrom(s, s, s)
  }

  /** A key of PairsWith(s, suffix) is two distinct values of `s` followed by the suffix. */
  lemma PairsMeaning(s: set<string>, suffix: Key, k: Key)
    ensures k in PairsWith(s, suffix) <==>
              |k| == 2 + |suffix| && k[0] in s && k[1] in s && k[0] != k[1] && k[2..] == suffix
  {
    if k in PairsWith(s, suffix) {
      var p, q :| p in s && q in s && p != q && k == [p, q] + suffix;
      assert k[2..] == suffix;
    }
    if |k| == 2 + |suffix| && k[0] in s && k[1] in s && k[0] != k[1] && k[2..] == suffix {
      assert k == [k[0], k[1]] + suffix;
    }
  }

  /** A key of Triples(s) is three pairwise-distinct values of `s`. */
  lemma TriplesMeaning(s: set<string>, k: Key)
    ensures k in Triples(s) <==> |k| == 3 && k[0] in s && k[1] in s && k[2] in s && k[0] != k[1] && k[2] != k[0] && k[2] != k[1]
  {
    if |k| == 3 && k[0] in s && k[1] in s && k[2] in s && k[0] != k[1] && k[2] != k[0] && k[2] != k[1] {
      assert k == [k[0], k[1], k[2]];
    }
  }

  /** Fewer than two values give no pair and fewer than three no triple: the size guards skip nothing that would be filed. */
  lemma SmallSetsNoTuples(s: set<string>, suffix: Key)
    ensures |s| < 2 ==> PairsWith(s, suffix) == {}
    ensures |s| < 3 ==> Triples(s) == {}
  {
    if |s| < 2 && PairsWith(s, suffix) != {} {
      var k :| k in PairsWith(s, suffix);
      PairsMeaning(s, suffix, k);
      assert {k[0], k[1]} <= s;
      assert |{k[0], k[1]}| == 2;
      SubsetCard({k[0], k[1]}, s);
    }
    if |s| < 3 && Triples(s) != {} {
      var k :| k in Triples(s);
      TriplesMeaning(s, k);
      assert {k[0], k[1], k[2]} <= s;
      assert |{k[0], k[1], k[2]}| == 3;
      SubsetCard({k[0], k[1], k[2]}, s);
    }
  }

  lemma SubsetCard(a: set<string>, b: set<string>)
    requires a <= b
    ensures |a| <= |b|
  {
    assert b == a + (b - a);
  }

  // ---------------------------------------------------------------------
  // The nested loops that file one call.

  /** Filing one more value of the innermost loop. */
  lemma ExtensionsStep(prefix: Key, done: set<string>, q: string, excluded: set<string>, suffix: Key, c: VId)
    ensures Tag(Extensions(prefix, done + {q}, excluded, suffix), c)
         == Tag(Extensions(prefix, done, excluded, suffix), c) + (if q in excluded then {} else {(prefix + [q] + suffix, c)})
  {
    var lhs := Tag(Extensions(prefix, done + {q}, excluded, suffix), c);
    var rhs := Tag(Extensions(prefix, done, excluded, suffix), c) + (if q in excluded then {} else {(prefix + [q] + suffix, c)});
    forall f | f in lhs ensures f in rhs {
      var k :| k in Extensions(prefix, done + {q}, excluded, suffix) && f == (k, c);
      var r :| r in done + {q} && r !in excluded && k == prefix + [r] + suffix;
      if r != q {
        assert k in Extensions(prefix, done, excluded, suffix);
      }
    }
    forall f | f in rhs ensures f in lhs {
      if f != (prefix + [q] + suffix, c) {
        var k :| k in Extensions(prefix, done, excluded, suffix) && f == (k, c);
        var r :| r in done && r !in excluded && k == prefix + [r] + suffix;
        assert k in Extensions(prefix, done + {q}, excluded, suffix);
      } else {
        assert prefix + [q] + suffix in Extensions(prefix, done + {q}, excluded, suffix);
      }
    }
  }

  /** The innermost loop: for each q of `s`, unless it is excluded, put (prefix + [q] + suffix, c). */
  method PutRow(m: Buckets, ghost facts: set<Fact>, prefix: Key, s: set<string>, excluded: set<string>, suffix: Key, c: VId)
    returns (m': Buckets)
    requires Grouped(m, facts)
    ensures Grouped(m', facts + Tag(Extensions(prefix, s, excluded, suffix), c))
  {
    m' := m;
    var left := s;
    while left != {}
      invariant left <= s
      invariant Grouped(m', facts + Tag(Extensions(prefix, s - left, excluded, suffix), c))
      decreases left
    {
      var q :| q in left;
      ghost var done := s - left;
      ExtensionsStep(prefix, done, q, excluded, suffix, c);
      assert s - (left - {q}) == done + {q};
      if q !in excluded {
        PutGrouped(m', facts + Tag(Extensions(prefix, done, excluded, suffix), c), prefix + [q] + suffix, c);
        m' := Put(m', prefix + [q] + suffix, c);
      }
      left := left - {q};
    }
    assert s - left == s;
  }

  /** The ordered pairs added by one pass of the outer loop. */
  lemma PairsStep(done: set<string>, s: set<string>, v: string, suffix: Key, c: VId)
    ensures Tag(PairsFrom(done + {v}, s, suffix), c)
         == Tag(PairsFrom(done, s, suffix), c) + Tag(Extensions([v], s, {v}, suffix), c)
  {
    var lhs := Tag(PairsFrom(done + {v}, s, suffix), c);
    var rhs := Tag(PairsFrom(done, s, suffix), c) + Tag(Extensions([v], s, {v}, suffix), c);
    forall f | f in lhs ensures f in rhs {
      var k :| k in PairsFrom(done + {v}, s, suffix) && f == (k, c);
      var p, q :| p in done + {v} && q in s && p != q && k == [p, q] + suffix;
      if p == v {
        assert k == [v] + [q] + suffix;
        assert k in Extensions([v], s, {v}, suffix);
      } else {
        assert k in PairsFrom(done, s, suffix);
      }
    }
    forall f | f in rhs ensures f in lhs {
      var k :| (k in PairsFrom(done, s, suffix) || k in Extensions([v], s, {v}, suffix)) && f == (k, c);
      if k in PairsFrom(done, s, suffix) {
        var p, q :| p in done && q in s && p != q && k == [p, q] + suffix;
        assert k in PairsFrom(done + {v}, s, suffix);
      } else {
        var q :| q in s && q !in {v} && k == [v] + [q] + suffix;
        assert k == [v, q] + suffix;
        assert k in PairsFrom(done + {v}, s, suffix);
      }
    }
  }

  /**
   * The two nested loops over the values of one call: for each p and each
   * q, skip when p = q, otherwise file the call under [p, q] + suffix.
   */
  method PutPairs(m: Buckets, ghost facts: set<Fact>, firsts: set<string>, s: set<string>, suffix: Key, c: VId)
    returns (m': Buckets)
    requires Grouped(m, facts)
    ensures Grouped(m', facts + Tag(PairsFrom(firsts, s, suffix), c))
  {
    m' := m;
    var left := firsts;
    while left != {}
      invariant left <= firsts
      invariant Grouped(m', facts + Tag(PairsFrom(firsts - left, s, suffix), c))
      decreases left
    {
      var p :| p in left;
      ghost var done := firsts - left;
      m' := PutRow(m', facts + Tag(PairsFrom(done, s, suffix), c), [p], s, {p}, suffix, c);
      PairsStep(done, s, p, suffix, c);
      assert firsts - (left - {p}) == done + {p};
      left := left - {p};
    }
    assert firsts - left == firsts;
  }

  /** The triples added by one pass of the middle loop. */
  lemma TriplesInnerStep(p: string, done: set<string>, s: set<string>, q: string, c: VId)
    ensures Tag(TriplesFrom({p}, done + {q}, s), c)
         == Tag(TriplesFrom({p}, done, s), c) + (if p == q then {} else Tag(Extensions([p, q], s, {p, q}, []), c))
  {
    var lhs := Tag(TriplesFrom({p}, done + {q}, s), c);
    var rhs := Tag(TriplesFrom({p}, done, s), c) + (if p == q then {} else Tag(Extensions([p, q], s, {p, q}, []), c));
    forall f | f in lhs ensures f in rhs {
      var k :| k in TriplesFrom({p}, done + {q}, s) && f == (k, c);
      var x, y, z :| x in {p} && y in done + {q} && z in s && x != y && z != x && z != y && k == [x, y, z];
      if y == q {
        assert k == [p, q] + [z] + [];
        assert k in Extensions([p, q], s, {p, q}, []);
      } else {
        assert k in TriplesFrom({p}, done, s);
      }
    }
    forall f | f in rhs ensures f in lhs {
      var k :| (k in TriplesFrom({p}, done, s) || (p != q && k in Extensions([p, q], s, {p, q}, []))) && f == (k, c);
      if k in TriplesFrom({p}, done, s) {
        var x, y, z :| x in {p} && y in done && z in s && x != y && z != x && z != y && k == [x, y, z];
        assert k in TriplesFrom({p}, done + {q}, s);
      } else {
        var z :| z in s && z !in {p, q} && k == [p, q] + [z] + [];
        assert k == [p, q, z];
        assert k in TriplesFrom({p}, done + {q}, s);
      }
    }
  }

  /**
   * The two inner loops for one first value p: for each second value q and
   * third value r, skip the triple when p = q, r = p or r = q.
   */
  method PutTriplesFrom(m: Buckets, ghost facts: set<Fact>, p: string, s: set<string>, c: VId) returns (m': Buckets)
    requires Grouped(m, facts)
    ensures Grouped(m', facts + Tag(TriplesFrom({p}, s, s), c))
  {
    m' := m;
    var left := s;
    while left != {}
      invariant left <= s
      invariant Grouped(m', facts + Tag(TriplesFrom({p}, s - left, s), c))
      decreases left
    {
      var q :| q in left;
      ghost var done := s - left;
      assert s - (left - {q}) == done + {q};
      TriplesInnerStep(p, done, s, q, c);
      if p != q {
        m' := PutRow(m', facts + Tag(TriplesFrom({p}, done, s), c), [p, q], s, {p, q}, [], c);
      }
      left := left - {q};
    }
    assert s - left == s;
  }

  lemma TriplesOuterStep(done: set<string>, s: set<string>, p: string, c: VId)
    ensures Tag(TriplesFrom(done + {p}, s, s), c) == Tag(TriplesFrom(done, s, s), c) + Tag(TriplesFrom({p}, s, s), c)
  {
    var lhs, rhs := Tag(TriplesFrom(done + {p}, s, s), c), Tag(TriplesFrom(done, s, s), c) + Tag(TriplesFrom({p}, s, s), c);
    forall f | f in lhs ensures f in rhs {
      var k :| k in TriplesFrom(done + {p}, s, s) && f == (k, c);
      var x, y, z :| x in done + {p} && y in s && z in s && x != y && z != x && z != y && k == [x, y, z];
      if x == p {
        assert k in TriplesFrom({p}, s, s);
      } else {
        assert k in TriplesFrom(done, s, s);
      }
    }
    forall f | f in rhs ensures f in lhs {
      var k :| (k in TriplesFrom(done, s, s) || k in TriplesFrom({p}, s, s)) && f == (k, c);
      var x, y, z :| x in done + {p} && y in s && z in s && x != y && z != x && z != y && k == [x, y, z];
      assert k in TriplesFrom(done + {p}, s, s);
    }
  }

  /** The three nested loops over the users of one call: every ordered triple of pairwise-distinct users gets the call. */
  method PutTriples(m: Buckets, ghost facts: set<Fact>, s: set<string>, c: VId) returns (m': Buckets)
    requires Grouped(m, facts)
    ensures Grouped(m', facts + Tag(Triples(s), c))
  {
    m' := m;
    var left := s;
    while left != {}
      invariant left <= s
      invariant Grouped(m', facts + Tag(TriplesFrom(s - left, s, s), c))
      decreases left
    {
      var p :| p in left;
      ghost var done := s - left;
      m' := PutTriplesFrom(m', facts + Tag(TriplesFrom(done, s, s), c), p, s, c);
      TriplesOuterStep(done, s, p, c);
      assert s - (left - {p}) == done + {p};
      left := left - {p};
    }
    assert s - left == s;
  }
}
