/**
 * The user-distance tables both distance queries build: a map from a user
 * name to a map from user name to the least distance seen between the two.
 * Every reported distance goes through computeIfAbsent followed by
 * compute(min), and the self distances are forced to zero at the end.
 */
module DistanceTables {

  type Table = map<string, map<string, int>>

  /** One distance reported between two users. */
  datatype Sample = Sample(from: string, to: string, distance: int)

  /** The row of `u`, empty when absent. */
  function Row(t: Table, u: string): map<string, int>
  {
    if u in t then t[u] else map[]
  }

  /**
   * computeIfAbsent(from, new TreeMap).compute(to, min): the new distance is
   * stored unless a smaller or equal one is there already.
   */
  function Relax(t: Table, s: Sample): Table
  {
    var row := Row(t, s.from);
    var d := if s.to in row && row[s.to] <= s.distance then row[s.to] else s.distance;
    t[s.from := row[s.to := d]]
  }

  /** computeIfAbsent(u, new TreeMap).put(u, 0). */
  function SetSelf(t: Table, u: string): Table
  {
    t[u := Row(t, u)[u := 0]]
  }

  /**
   * `t` has a row for each of `rows` and for each sampled source user, and
   * nothing else; it has an entry for exactly the sampled pairs, holding the
   * least distance sampled for that pair.
   */
  ghost predicate MinTable(t: Table, rows: set<string>, samples: set<Sample>)
  {
    && (forall u :: u in t <==> u in rows || exists s :: s in samples && s.from == u)
    && (forall s :: s in samples ==> s.from in t && s.to in t[s.from] && t[s.from][s.to] <= s.distance)
    && (forall u, v :: u in t && v in t[u] ==> Sample(u, v, t[u][v]) in samples)
  }

  /** The samples of a sequence, as a set. */
  function SampleSet(ss: seq<Sample>): set<Sample>
  {
    set i | 0 <= i < |ss| :: ss[i]
  }

  /** One reported distance keeps the table the minimum over one sample more. */
  lemma RelaxKeepsMin(t: Table, rows: set<string>, samples: set<Sample>, s: Sample)
    requires MinTable(t, rows, samples)
    ensures MinTable(Relax(t, s), rows, samples + {s})
  {
    var r := Relax(t, s);
    forall u ensures u in r <==> u in rows || exists x :: x in samples + {s} && x.from == u {
      if u in t && u !in rows {
        var x :| x in samples && x.from == u;
      }
    }
    forall x | x in samples + {s} ensures x.from in r && x.to in r[x.from] && r[x.from][x.to] <= x.distance {
      if x != s {
        assert x.from in t && x.to in t[x.from];
      }
    }
    forall u, v | u in r && v in r[u] ensures Sample(u, v, r[u][v]) in samples + {s} {
      if u == s.from && v == s.to {
        if s.to in Row(t, s.from) && Row(t, s.from)[s.to] <= s.distance {
          assert Sample(u, v, t[u][v]) in samples;
        }
      } else {
        assert u in t && v in t[u];
      }
    }
  }

  /** A table with an extra row for a user that keeps its existing row, if any. */
  lemma AddRowKeepsMin(t: Table, rows: set<string>, samples: set<Sample>, u: string)
    requires MinTable(t, rows, samples)
    ensures MinTable(t[u := Row(t, u)], rows + {u}, samples)
  {
    var r := t[u := Row(t, u)];
    forall x | x in samples ensures x.from in r && x.to in r[x.from] && r[x.from][x.to] <= x.distance {
      assert x.from in t && x.to in t[x.from];
    }
  }

  /** Forcing a zero self distance is one more sample of distance 0, as long as no distance is negative. */
  lemma SetSelfKeepsMin(t: Table, rows: set<string>, samples: set<Sample>, u: string)
    requires MinTable(t, rows, samples)
    requires forall s :: s in samples ==> s.distance >= 0
    ensures MinTable(SetSelf(t, u), rows, samples + {Sample(u, u, 0)})
  {
    var r := SetSelf(t, u);
    var z := Sample(u, u, 0);
    forall w ensures w in r <==> w in rows || exists x :: x in samples + {z} && x.from == w {
      if w in t && w !in rows {
        var x :| x in samples && x.from == w;
      }
    }
    forall x | x in samples + {z} ensures x.from in r && x.to in r[x.from] && r[x.from][x.to] <= x.distance {
      if x != z && !(x.from == u && x.to == u) {
        assert x.from in t && x.to in t[x.from];
      }
    }
    forall w, v | w in r && v in r[w] ensures Sample(w, v, r[w][v]) in samples + {z} {
      if !(w == u && v == u) {
        assert w in t && v in t[w];
      }
    }
  }

  /**
   * The table is determined by the rows and samples alone: the order in which
   * the distances were reported does not matter.
   */
  lemma MinTableUnique(t1: Table, t2: Table, rows: set<string>, samples: set<Sample>)
    requires MinTable(t1, rows, samples) && MinTable(t2, rows, samples)
    ensures t1 == t2
  {
    assert t1.Keys == t2.Keys;
    forall u | u in t1 ensures t1[u] == t2[u] {
      forall v | v in t1[u] ensures v in t2[u] && t2[u][v] == t1[u][v] {
        assert Sample(u, v, t1[u][v]) in samples;
        assert Sample(u, v, t2[u][v]) in samples;
      }
      forall v | v in t2[u] ensures v in t1[u] {
        assert Sample(u, v, t2[u][v]) in samples;
      }
    }
  }

  /** When every sample is the zero self distance of `u`, forcing that zero leaves a table of that one entry. */
  lemma SelfOnlyTable(t: Table, u: string, samples: set<Sample>)
    requires MinTable(t, {}, samples + Zeros({u}))
    requires samples <= {Sample(u, u, 0)}
    ensures t == map[u := map[u := 0]]
  {
    var all := samples + Zeros({u});
    assert all == {Sample(u, u, 0)} by {
      assert Sample(u, u, 0) in Zeros({u});
      forall x | x in Zeros({u}) ensures x == Sample(u, u, 0) {
      }
    }
    var expected := map[u := map[u := 0]];
    assert MinTable(expected, {}, all) by {
      assert Sample(u, u, 0).from == u;
    }
    MinTableUnique(t, expected, {}, all);
  }

  lemma SampleSetGrows(ss: seq<Sample>, i: nat)
    requires i < |ss|
    ensures SampleSet(ss[..i + 1]) == SampleSet(ss[..i]) + {ss[i]}
  {
    var a, b := ss[..i + 1], ss[..i];
    forall x | x in SampleSet(a) ensures x in SampleSet(b) + {ss[i]} {
      var k :| 0 <= k < |a| && a[k] == x;
      if k < i {
        assert b[k] == x;
      }
    }
    forall x | x in SampleSet(b) ensures x in SampleSet(a) {
      var k :| 0 <= k < |b| && b[k] == x;
      assert a[k] == x;
    }
    assert a[i] == ss[i];
  }

  /** Reports each distance of `ss` in turn. */
  method RelaxAll(t0: Table, ghost rows: set<string>, ghost samples0: set<Sample>, ss: seq<Sample>) returns (t: Table)
    requires MinTable(t0, rows, samples0)
    ensures MinTable(t, rows, samples0 + SampleSet(ss))
  {
    t := t0;
    var i := 0;
    while i < |ss|
      invariant 0 <= i <= |ss|
      invariant MinTable(t, rows, samples0 + SampleSet(ss[..i]))
    {
      RelaxKeepsMin(t, rows, samples0 + SampleSet(ss[..i]), ss[i]);
      SampleSetGrows(ss, i);
      t := Relax(t, ss[i]);
      i := i + 1;
    }
    assert ss[..i] == ss;
  }

  /** The zero self distances of a set of users. */
  function Zeros(users: set<string>): set<Sample>
  {
    set u | u in users :: Sample(u, u, 0)
  }

  /** Forces the self distance of every user of `users` to zero, in any order. */
  method SetSelves(t0: Table, ghost rows: set<string>, ghost samples: set<Sample>, users: set<string>) returns (t: Table)
    requires MinTable(t0, rows, samples)
    requires forall s :: s in samples ==> s.distance >= 0
    ensures MinTable(t, rows, samples + Zeros(users))
    ensures forall u :: u in users ==> u in t && u in t[u] && t[u][u] == 0
  {
    t := t0;
    var left := users;
    while left != {}
      invariant left <= users
      invariant MinTable(t, rows, samples + Zeros(users - left))
      decreases left
    {
      var u :| u in left;
      ZerosStep(samples, users, left, u);
      SetSelfKeepsMin(t, rows, samples + Zeros(users - left), u);
      t := SetSelf(t, u);
      left := left - {u};
    }
    assert users - left == users;
    ZerosHold(t, rows, samples, users);
  }

  lemma ZerosStep(samples: set<Sample>, users: set<string>, left: set<string>, u: string)
    requires u in left && left <= users
    requires forall s :: s in samples ==> s.distance >= 0
    ensures forall s :: s in samples + Zeros(users - left) ==> s.distance >= 0
    ensures samples + Zeros(users - (left - {u})) == samples + Zeros(users - left) + {Sample(u, u, 0)}
  {
    assert Zeros(users - (left - {u})) == Zeros(users - left) + {Sample(u, u, 0)};
  }

  /** Once the zeros are among the samples, every user's self distance is 0. */
  lemma ZerosHold(t: Table, rows: set<string>, samples: set<Sample>, users: set<string>)
    requires MinTable(t, rows, samples + Zeros(users))
    requires forall s :: s in samples ==> s.distance >= 0
    ensures forall u :: u in users ==> u in t && u in t[u] && t[u][u] == 0
  {
    forall u | u in users ensures u in t && u in t[u] && t[u][u] == 0 {
      assert Sample(u, u, 0) in samples + Zeros(users);
      assert Sample(u, u, t[u][u]) in samples + Zeros(users);
    }
  }

  /** One user's zero self distance. */
  lemma ZerosOne(u: string)
    ensures Zeros({u}) == {Sample(u, u, 0)}
  {
    assert Sample(u, u, 0) in Zeros({u});
  }

  /** Samples all from one user, including a zero to itself, make a table of that one row. */
  lemma SingleRow(t: Table, rows: set<string>, samples: set<Sample>, u: string)
    requires MinTable(t, rows, samples) && rows <= {u} && Sample(u, u, 0) in samples
    requires forall x :: x in samples ==> x.from == u && x.distance >= 0
    ensures t.Keys == {u} && u in t[u] && t[u][u] == 0
  {
    assert Sample(u, u, t[u][u]) in samples;
  }

  /** No row of the table holds a negative distance. */
  lemma MinTableNonNegative(t: Table, rows: set<string>, samples: set<Sample>)
    requires MinTable(t, rows, samples)
    requires forall s :: s in samples ==> s.distance >= 0
    ensures forall u, v :: u in t && v in t[u] ==> t[u][v] >= 0
  {
    forall u, v | u in t && v in t[u] ensures t[u][v] >= 0 {
      assert Sample(u, v, t[u][v]) in samples;
    }
  }
}
