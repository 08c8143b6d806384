/**
 * printDistances: one row "member1  member2  distance" per table entry whose
 * first member does not come after the second, then the row count.
 */
module PrintUtils {

  import opened JavaStrings
  import opened DistanceTables

  /** The entries printDistances counts: the ones with member1.compareTo(member2) <= 0. */
  function Counted(t: Table): set<(string, string)>
  {
    set u, v | u in t && v in t[u] && Cmp(u, v) <= 0 :: (u, v)
  }

  /**
   * The text of one row: the two members and the distance, two spaces
   * apart, ending the line; the distance field reads back as the distance.
   */
  function RowText(u: string, v: string, d: int): (r: string)
    ensures |r| > |u| + |v| + 5 && r[..|u|] == u && r[|u|..|u| + 2] == "  " && r[|r| - 1] == '\n'
    ensures r[|u| + 2..|u| + 2 + |v|] == v && r[|u| + 2 + |v|..|u| + 4 + |v|] == "  "
    ensures d < 0 ==> r[|u| + |v| + 4] == '-'
    ensures var field := r[|u| + |v| + 4..|r| - 1];
              d >= 0 ==> (forall i :: 0 <= i < |field| ==> IsDigit(field[i])) && ParseDigits(field) == d
  {
    var r := u + "  " + v + "  " + IntToString(d) + "\n";
    Fields(u, "  ", v, "  ", IntToString(d), "\n");
    if d >= 0 then ParseNatToString(d); r else r
  }

  /** Where each of six concatenated pieces sits in the concatenation. */
  lemma Fields<T>(a: seq<T>, b: seq<T>, c: seq<T>, d: seq<T>, e: seq<T>, f: seq<T>)
    ensures var r := a + b + c + d + e + f;
      var i, j, k, l := |a|, |a| + |b|, |a| + |b| + |c|, |a| + |b| + |c| + |d|;
      r[..i] == a && r[i..j] == b && r[j..k] == c && r[k..l] == d && r[l..l + |e|] == e && r[l + |e|..] == f
  {
  }

  /** The distance stored for a pair (0 for a pair that has none). */
  function Entry(t: Table, u: string, v: string): int
  {
    if u in t && v in t[u] then t[u][v] else 0
  }

  /** The concatenated renderings of `xs`, in order. */
  function Join<T>(xs: seq<T>, render: T -> string): string
  {
    if xs == [] then "" else Join(xs[..|xs| - 1], render) + render(xs[|xs| - 1])
  }

  lemma {:induction false} JoinAppend<T>(xs: seq<T>, ys: seq<T>, render: T -> string)
    ensures Join(xs + ys, render) == Join(xs, render) + Join(ys, render)
    decreases |ys|
  {
    if ys == [] {
      assert xs + ys == xs;
    } else {
      JoinAppend(xs, ys[..|ys| - 1], render);
      assert (xs + ys)[..|xs + ys| - 1] == xs + ys[..|ys| - 1];
    }
  }

  /** The rows of the listed entries, in order. */
  function Lines(t: Table, rows: seq<(string, string)>): string
  {
    Join(rows, (p: (string, string)) => RowText(p.0, p.1, Entry(t, p.0, p.1)))
  }

  predicate Distinct<T(==)>(xs: seq<T>)
  {
    forall i, j :: 0 <= i < j < |xs| ==> xs[i] != xs[j]
  }

  /** A sequence without repetitions has as many elements as the set of its elements. */
  lemma {:induction false} DistinctCard<T>(xs: seq<T>)
    requires Distinct(xs)
    ensures |set i | 0 <= i < |xs| :: xs[i]| == |xs|
  {
    if xs != [] {
      var init := xs[..|xs| - 1];
      DistinctCard(init);
      var a := set i | 0 <= i < |init| :: init[i];
      var b := set i | 0 <= i < |xs| :: xs[i];
      assert b == a + {xs[|xs| - 1]} by {
        forall x | x in b ensures x in a + {xs[|xs| - 1]} {
          var i :| 0 <= i < |xs| && xs[i] == x;
          if i < |init| {
            assert init[i] == x;
          }
        }
      }
      assert xs[|xs| - 1] !in a;
    }
  }

  /** The rows of one member's entries, visited in any order. */
  method PrintRow(t: Table, u: string, printTuples: bool) returns (text: string, n: nat, ghost done: seq<(string, string)>)
    requires u in t
    ensures Distinct(done) && n == |done|
    ensures forall p :: p in done <==> p.0 == u && p.1 in t[u] && Cmp(u, p.1) <= 0
    ensures text == if printTuples then Lines(t, done) else ""
  {
    var row := t[u];
    var left := row.Keys;
    text, n, done := "", 0, [];
    while left != {}
      invariant left <= row.Keys
      invariant Distinct(done) && n == |done|
      invariant forall p :: p in done <==> p.0 == u && p.1 in row.Keys - left && Cmp(u, p.1) <= 0
      invariant text == if printTuples then Lines(t, done) else ""
      decreases left
    {
      var v :| v in left;
      left := left - {v};
      if Cmp(u, v) > 0 {
        continue;
      }
      assert Lines(t, done + [(u, v)]) == Lines(t, done) + RowText(u, v, row[v]) by {
        assert (done + [(u, v)])[..|done|] == done;
      }
      if printTuples {
        text := text + RowText(u, v, row[v]);
      }
      assert (done + [(u, v)])[..|done|] == done;
      done := done + [(u, v)];
      n := n + 1;
    }
  }

  /**
   * printDistances: the printed text is the rows (only when printTuples is
   * set) followed by the number of counted entries and " rows.".
   */
  method PrintDistances(t: Table, printTuples: bool) returns (out: string, count: nat, ghost rows: seq<(string, string)>)
    ensures count == |Counted(t)|
    ensures Distinct(rows) && forall p :: p in rows <==> p in Counted(t)
    ensures out == (if printTuples then Lines(t, rows) else "") + NatToString(count) + " rows.\n"
  {
    var builder := "";
    count, rows := 0, [];
    var left := t.Keys;
    while left != {}
      invariant left <= t.Keys
      invariant Distinct(rows) && count == |rows|
      invariant forall p :: p in rows <==> p.0 in t.Keys - left && p.1 in t[p.0] && Cmp(p.0, p.1) <= 0
      invariant builder == if printTuples then Lines(t, rows) else ""
      decreases left
    {
      var u :| u in left;
      var text, n, done := PrintRow(t, u, printTuples);
      LinesAppend(t, rows, done);
      DistinctAppend(rows, done, u);
      builder := builder + text;
      rows := rows + done;
      count := count + n;
      left := left - {u};
    }
    forall p ensures p in rows <==> p in Counted(t) {
      if p in Counted(t) {
        var u, v :| u in t && v in t[u] && Cmp(u, v) <= 0 && p == (u, v);
      }
    }
    DistinctCard(rows);
    assert (set i | 0 <= i < |rows| :: rows[i]) == Counted(t);
    out := builder + NatToString(count) + " rows.\n";
  }

  lemma LinesAppend(t: Table, xs: seq<(string, string)>, ys: seq<(string, string)>)
    ensures Lines(t, xs + ys) == Lines(t, xs) + Lines(t, ys)
  {
    JoinAppend(xs, ys, (p: (string, string)) => RowText(p.0, p.1, Entry(t, p.0, p.1)));
  }

  lemma DistinctAppend(xs: seq<(string, string)>, ys: seq<(string, string)>, u: string)
    requires Distinct(xs) && Distinct(ys)
    requires forall p :: p in ys ==> p.0 == u
    requires forall p :: p in xs ==> p.0 != u
    ensures Distinct(xs + ys)
  {
    forall i, j | 0 <= i < j < |xs + ys| ensures (xs + ys)[i] != (xs + ys)[j] {
      if i < |xs| && j >= |xs| {
        assert (xs + ys)[i] in xs && (xs + ys)[j] in ys;
      }
    }
  }

  /**
   * In a symmetric table every pair of distinct members is counted once, in
   * the orientation whose first member is the smaller, and a member's
   * distance to itself is always counted.
   */
  lemma CountedOnce(t: Table, u: string, v: string)
    requires u in t && v in t[u] && v in t && u in t[v]
    ensures u != v ==> ((u, v) in Counted(t) <==> (v, u) !in Counted(t))
    ensures u != v ==> ((u, v) in Counted(t) <==> Less(u, v))
    ensures u == v ==> (u, u) in Counted(t)
  {
    CmpAntisymmetric(u, v);
    if Cmp(u, v) <= 0 {
      assert (u, v) in Counted(t);
    }
    if Cmp(v, u) <= 0 {
      assert (v, u) in Counted(t);
    }
  }
}
