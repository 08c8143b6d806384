/**
 * Floyd–Warshall over the phone distance map, in which a missing entry
 * stands for Integer.MAX_VALUE, that is, for no known walk. Rounds(m0, k, n)
 * is the map after the first k rounds of the outer loop over the dense ids
 * 0..n-1; the lemmas show that each entry it holds is the least cost of a
 * walk of the initial map whose inner vertices are all below k, so that
 * after n rounds every entry is a shortest distance.
 */
module FloydWarshall {

  /** Distances between dense ids: row i, column j. */
  type Dist = map<nat, map<nat, int>>

  /** Integer.MAX_VALUE, what a missing entry reads as. */
  const MaxInt: int := 0x7fff_ffff

  /** getOrDefault(j, Integer.MAX_VALUE) on row i. */
  function Get(m: Dist, i: nat, j: nat): int
  {
    if i in m && j in m[i] then m[i][j] else MaxInt
  }

  /** The guard of the innermost loop: both legs are known and together shorter. */
  predicate Shorter(m: Dist, k: nat, i: nat, j: nat)
  {
    Get(m, i, k) < MaxInt && Get(m, k, j) < MaxInt && Get(m, i, j) > Get(m, i, k) + Get(m, k, j)
  }

  /** Row i once round k has relaxed its columns below `upto`. */
  function RowUpTo(m: Dist, k: nat, i: nat, upto: nat): map<nat, int>
    requires i in m
  {
    map j | j in m[i].Keys + (set c | 0 <= c < upto && Shorter(m, k, i, c)) ::
      if j < upto && Shorter(m, k, i, j) then Get(m, i, k) + Get(m, k, j) else m[i][j]
  }

  /** Round k of the outer loop: every row below n relaxed through k. */
  function Round(m: Dist, k: nat, n: nat): Dist
  {
    map i | i in m :: if i < n then RowUpTo(m, k, i, n) else m[i]
  }

  /** The first k rounds; every round keeps the rows of the map it starts from. */
  function Rounds(m0: Dist, k: nat, n: nat): (r: Dist)
    ensures r.Keys == m0.Keys
  {
    if k == 0 then m0 else Round(Rounds(m0, k - 1, n), k - 1, n)
  }

  /** What a round leaves in one cell: the sum of the two legs when it is shorter, else the old entry. */
  lemma RoundGet(m: Dist, k: nat, n: nat, i: nat, j: nat)
    ensures Get(Round(m, k, n), i, j)
            == if i in m && i < n && j < n && Shorter(m, k, i, j) then Get(m, i, k) + Get(m, k, j) else Get(m, i, j)
  {
  }

  /**
   * The entry (i, j) after k rounds as getOrDefault reads it, defined on
   * entries alone: round k - 1 replaces it by the sum through k - 1 when both
   * legs are known and the sum is smaller.
   */
  function D(m0: Dist, k: nat, n: nat, i: nat, j: nat): int
  {
    if k == 0 then Get(m0, i, j)
    else
      var x := k - 1;
      var ij, ix, xj := D(m0, x, n, i, j), D(m0, x, n, i, x), D(m0, x, n, x, j);
      if i in m0 && i < n && j < n && ix < MaxInt && xj < MaxInt && ij > ix + xj then ix + xj else ij
  }

  /** The rounds of the loop compute D. */
  lemma {:induction false} RoundsAgree(m0: Dist, n: nat, k: nat, i: nat, j: nat)
    ensures Get(Rounds(m0, k, n), i, j) == D(m0, k, n, i, j)
  {
    if k > 0 {
      var x := k - 1;
      var m := Rounds(m0, x, n);
      assert Rounds(m0, k, n) == Round(m, x, n);
      RoundsAgree(m0, n, x, i, j);
      RoundsAgree(m0, n, x, i, x);
      RoundsAgree(m0, n, x, x, j);
      RoundGet(m, x, n, i, j);
      assert i in m <==> i in m0;
    }
  }

  /** The map Data builds: a row per id below n, a zero diagonal, no negative entry, no column outside the ids. */
  ghost predicate Initial(m0: Dist, n: nat)
  {
    && (forall i: nat :: i in m0 <==> i < n)
    && (forall i, j :: i in m0 && j in m0[i] ==> j < n && m0[i][j] >= 0)
    && (forall i :: i in m0 ==> i in m0[i] && m0[i][i] == 0)
  }

  /** A walk of the initial map: every vertex has a row and consecutive vertices are joined by an entry. */
  ghost predicate IsWalk(m0: Dist, w: seq<nat>)
  {
    && |w| > 0
    && (forall t :: 0 <= t < |w| ==> w[t] in m0)
    && (forall t :: 0 <= t < |w| - 1 ==> w[t + 1] in m0[w[t]])
  }

  /** The inner vertices of the walk (all but its two ends) are below k. */
  ghost predicate Inner(w: seq<nat>, k: nat)
  {
    forall t :: 0 < t < |w| - 1 ==> w[t] < k
  }

  /** The sum of the entries along the walk. */
  function Cost(m0: Dist, w: seq<nat>): int
  {
    if |w| <= 1 then 0 else Get(m0, w[0], w[1]) + Cost(m0, w[1..])
  }

  /** Costs add up when two walks are joined at a shared vertex. */
  lemma {:induction false} CostAppend(m0: Dist, a: seq<nat>, b: seq<nat>)
    requires |a| > 0 && |b| > 0 && a[|a| - 1] == b[0]
    ensures Cost(m0, a + b[1..]) == Cost(m0, a) + Cost(m0, b)
  {
    if |a| == 1 {
      assert a + b[1..] == b;
    } else {
      CostAppend(m0, a[1..], b);
      assert (a + b[1..])[1..] == a[1..] + b[1..];
    }
  }

  /** A walk costs its prefix up to position `p` plus its suffix from there. */
  lemma CostSplit(m0: Dist, w: seq<nat>, p: nat)
    requires p < |w|
    ensures Cost(m0, w) == Cost(m0, w[..p + 1]) + Cost(m0, w[p..])
  {
    CostAppend(m0, w[..p + 1], w[p..]);
    assert w[..p + 1] + w[p..][1..] == w;
  }

  /** No walk of the initial map has a negative cost. */
  lemma {:induction false} CostNonNegative(m0: Dist, n: nat, w: seq<nat>)
    requires Initial(m0, n)
    ensures Cost(m0, w) >= 0
  {
    if |w| > 1 {
      CostNonNegative(m0, n, w[1..]);
    }
  }

  /** No round makes an entry negative. */
  lemma {:induction false} NonNegative(m0: Dist, n: nat, k: nat, i: nat, j: nat)
    requires Initial(m0, n)
    ensures D(m0, k, n, i, j) >= 0
  {
    if k > 0 {
      NonNegative(m0, n, k - 1, i, j);
      NonNegative(m0, n, k - 1, i, k - 1);
      NonNegative(m0, n, k - 1, k - 1, j);
    }
  }

  /** Entries never increase from one round to the next. */
  lemma NeverIncreases(m0: Dist, n: nat, k: nat, i: nat, j: nat)
    ensures D(m0, k + 1, n, i, j) <= D(m0, k, n, i, j)
  {
  }

  /** The first position of `x` at or after `s`. */
  function IndexFrom(w: seq<nat>, x: nat, s: nat): (a: nat)
    requires s <= |w| && x in w[s..]
    ensures s <= a < |w| && w[a] == x && forall r :: s <= r < a ==> w[r] != x
    decreases |w| - s
  {
    if w[s] == x then s
    else
      assert w[s..] == [w[s]] + w[s + 1..];
      IndexFrom(w, x, s + 1)
  }

  /** The last position of `x` before `e`. */
  function IndexBelow(w: seq<nat>, x: nat, e: nat): (b: nat)
    requires e <= |w| && x in w[..e]
    ensures b < e && w[b] == x && forall r :: b < r < e ==> w[r] != x
  {
    if w[e - 1] == x then e - 1
    else
      assert w[..e] == w[..e - 1] + [w[e - 1]];
      IndexBelow(w, x, e - 1)
  }

  /**
   * Soundness: an entry known after k rounds is the cost of a walk between
   * its two ids whose inner vertices are below k.
   */
  lemma {:induction false} Realised(m0: Dist, n: nat, k: nat, i: nat, j: nat) returns (w: seq<nat>)
    requires Initial(m0, n) && D(m0, k, n, i, j) < MaxInt
    ensures IsWalk(m0, w) && w[0] == i && w[|w| - 1] == j && Inner(w, k)
    ensures Cost(m0, w) == D(m0, k, n, i, j)
  {
    if k == 0 {
      w := [i, j];
    } else {
      var x := k - 1;
      var ij, ix, xj := D(m0, x, n, i, j), D(m0, x, n, i, x), D(m0, x, n, x, j);
      if i in m0 && i < n && j < n && ix < MaxInt && xj < MaxInt && ij > ix + xj {
        var w1 := Realised(m0, n, x, i, x);
        var w2 := Realised(m0, n, x, x, j);
        CostAppend(m0, w1, w2);
        w := w1 + w2[1..];
        JoinedWalk(m0, w1, w2, x);
      } else {
        w := Realised(m0, n, x, i, j);
      }
    }
  }

  /** Two walks through x with inner vertices below x join into one with inner vertices below x + 1. */
  lemma JoinedWalk(m0: Dist, w1: seq<nat>, w2: seq<nat>, x: nat)
    requires IsWalk(m0, w1) && IsWalk(m0, w2) && w1[|w1| - 1] == x && w2[0] == x && Inner(w1, x) && Inner(w2, x)
    ensures IsWalk(m0, w1 + w2[1..]) && Inner(w1 + w2[1..], x + 1)
    ensures (w1 + w2[1..])[0] == w1[0] && (w1 + w2[1..])[|w1| + |w2| - 2] == w2[|w2| - 1]
  {
    var w: seq<nat> := w1 + w2[1..];
    forall t | 0 <= t < |w| ensures w[t] in m0 && (0 < t < |w| - 1 ==> w[t] < x + 1) {
      if t >= |w1| {
        assert w[t] == w2[t - |w1| + 1];
      }
    }
    forall t | 0 <= t < |w| - 1 ensures w[t + 1] in m0[w[t]] {
      if t >= |w1| - 1 {
        assert w[t] == w2[t - |w1| + 1] && w[t + 1] == w2[t - |w1| + 2];
      }
    }
  }

  /**
   * Optimality: after k rounds the entry between the two ends of any walk
   * whose inner vertices are below k is at most the walk's cost.
   */
  lemma {:induction false} Least(m0: Dist, n: nat, k: nat, w: seq<nat>)
    requires Initial(m0, n) && IsWalk(m0, w) && Inner(w, k) && Cost(m0, w) < MaxInt
    ensures D(m0, k, n, w[0], w[|w| - 1]) <= Cost(m0, w)
  {
    var i, j := w[0], w[|w| - 1];
    if k == 0 {
      if |w| == 2 {
        assert Cost(m0, w) == Get(m0, i, j);
      }
    } else {
      var x := k - 1;
      if t :| 0 < t < |w| - 1 && w[t] == x {
        var p, q := ThroughX(m0, n, w, x, t);
        Least(m0, n, x, p);
        Least(m0, n, x, q);
      } else {
        Least(m0, n, x, w);
      }
    }
  }

  /**
   * A walk through x splits into a walk up to the first x and a walk from
   * the last x, with inner vertices below x and costing no more together.
   */
  lemma ThroughX(m0: Dist, n: nat, w: seq<nat>, x: nat, t: nat) returns (p: seq<nat>, q: seq<nat>)
    requires Initial(m0, n) && IsWalk(m0, w) && Inner(w, x + 1) && Cost(m0, w) < MaxInt
    requires 0 < t < |w| - 1 && w[t] == x
    ensures IsWalk(m0, p) && IsWalk(m0, q) && Inner(p, x) && Inner(q, x)
    ensures p[0] == w[0] && p[|p| - 1] == x && q[0] == x && q[|q| - 1] == w[|w| - 1]
    ensures Cost(m0, p) + Cost(m0, q) <= Cost(m0, w) && Cost(m0, p) >= 0 && Cost(m0, q) >= 0
  {
    assert w[t] in w[0..] && w[t] in w[..|w|];
    var a := IndexFrom(w, x, 0);
    var b := IndexBelow(w, x, |w|);
    assert a <= t <= b;
    p, q := w[..a + 1], w[b..];
    SubWalk(m0, w, 0, a);
    SubWalk(m0, w, b, |w| - 1);
    assert w[0..a + 1] == p && w[b..|w|] == q;
    CostOfEnds(m0, n, w, a, b);
    forall s | 0 < s < |p| - 1 ensures p[s] < x {
      assert p[s] == w[s];
    }
    forall s | 0 < s < |q| - 1 ensures q[s] < x {
      assert q[s] == w[b + s];
    }
  }

  /** A stretch of a walk is a walk. */
  lemma SubWalk(m0: Dist, w: seq<nat>, a: nat, b: nat)
    requires IsWalk(m0, w) && a <= b < |w|
    ensures IsWalk(m0, w[a..b + 1])
  {
    var v := w[a..b + 1];
    assert forall t :: 0 <= t < |v| ==> v[t] == w[a + t];
  }

  /** Dropping the middle stretch of a walk does not raise its cost. */
  lemma CostOfEnds(m0: Dist, n: nat, w: seq<nat>, a: nat, b: nat)
    requires Initial(m0, n) && a <= b < |w|
    ensures Cost(m0, w[..a + 1]) + Cost(m0, w[b..]) <= Cost(m0, w)
    ensures Cost(m0, w[..a + 1]) >= 0 && Cost(m0, w[b..]) >= 0
  {
    CostSplit(m0, w, a);
    CostSplit(m0, w[a..], b - a);
    assert w[a..][..b - a + 1] == w[a..b + 1] && w[a..][b - a..] == w[b..];
    CostNonNegative(m0, n, w[a..b + 1]);
    CostNonNegative(m0, n, w[..a + 1]);
    CostNonNegative(m0, n, w[b..]);
  }

  /** The diagonal stays zero through every round. */
  lemma DiagonalStaysZero(m0: Dist, n: nat, k: nat, i: nat)
    requires Initial(m0, n) && i < n
    ensures D(m0, k, n, i, i) == 0
  {
    Least(m0, n, k, [i]);
    NonNegative(m0, n, k, i, i);
  }

  /**
   * After n rounds an entry is known exactly when some walk joins its two
   * ids, and it is then the least cost of such a walk (walks costing
   * Integer.MAX_VALUE or more aside).
   */
  lemma Shortest(m0: Dist, n: nat, w: seq<nat>)
    requires Initial(m0, n) && IsWalk(m0, w) && Cost(m0, w) < MaxInt
    ensures D(m0, n, n, w[0], w[|w| - 1]) <= Cost(m0, w)
  {
    Least(m0, n, n, w);
  }

  /** The entries of a partly relaxed row: the columns below `upto` that the guard lets through hold the sum through k. */
  lemma RowUpToEntry(m: Dist, k: nat, i: nat, upto: nat, c: nat)
    requires i in m
    ensures c in RowUpTo(m, k, i, upto) <==> c in m[i] || (c < upto && Shorter(m, k, i, c))
    ensures c in RowUpTo(m, k, i, upto) ==>
              RowUpTo(m, k, i, upto)[c] == if c < upto && Shorter(m, k, i, c) then Get(m, i, k) + Get(m, k, c) else m[i][c]
  {
  }

  /** Before its first column a row is as the round found it. */
  lemma RowUpToZero(m: Dist, k: nat, i: nat)
    requires i in m
    ensures RowUpTo(m, k, i, 0) == m[i]
  {
    forall c ensures c in RowUpTo(m, k, i, 0) <==> c in m[i] {
      RowUpToEntry(m, k, i, 0, c);
    }
  }

  /** One more column of the innermost loop: put the sum through k exactly when the guard holds. */
  lemma RowUpToStep(m: Dist, k: nat, i: nat, j: nat)
    requires i in m
    ensures RowUpTo(m, k, i, j + 1)
            == if Shorter(m, k, i, j) then RowUpTo(m, k, i, j)[j := Get(m, i, k) + Get(m, k, j)] else RowUpTo(m, k, i, j)
  {
    var a, b := RowUpTo(m, k, i, j + 1), RowUpTo(m, k, i, j);
    var e := if Shorter(m, k, i, j) then b[j := Get(m, i, k) + Get(m, k, j)] else b;
    forall c ensures c in a <==> c in e {
      RowUpToEntry(m, k, i, j + 1, c);
      RowUpToEntry(m, k, i, j, c);
    }
    forall c | c in a ensures a[c] == e[c] {
      RowUpToEntry(m, k, i, j + 1, c);
      RowUpToEntry(m, k, i, j, c);
    }
  }

  /**
   * With a non-negative entry from k to itself, round k never changes row k
   * or column k, so the loop may read them while it updates the map in place.
   */
  lemma PivotFixed(m: Dist, k: nat, i: nat)
    requires Get(m, k, k) >= 0
    ensures !Shorter(m, k, i, k)
    ensures forall c :: !Shorter(m, k, k, c)
  {
  }

  /** Round k part done: the rows below `rows` are relaxed, the others are still those of m. */
  ghost predicate RoundPrefix(d: Dist, m: Dist, k: nat, n: nat, rows: nat)
  {
    d.Keys == m.Keys && forall r :: r in m ==> d[r] == if r < rows && r < n then RowUpTo(m, k, r, n) else m[r]
  }

  /** Once every row has been visited the partly done round is the whole round. */
  lemma RoundPrefixFull(d: Dist, m: Dist, k: nat, n: nat)
    requires RoundPrefix(d, m, k, n, n)
    ensures d == Round(m, k, n)
  {
  }

  /** Finishing row i moves the boundary of the partly done round by one. */
  lemma RoundPrefixNext(d: Dist, m: Dist, k: nat, n: nat, i: nat)
    requires RoundPrefix(d, m, k, n, i) && i in m && i < n
    ensures RoundPrefix(d[i := RowUpTo(m, k, i, n)], m, k, n, i + 1)
  {
  }

  /**
   * The three cells the innermost loop reads at column j of row i, while
   * row i is relaxed below j and the rows above it are done, are still those
   * of the map the round started from.
   */
  lemma ReadsAgree(d: Dist, m: Dist, k: nat, n: nat, i: nat, j: nat)
    requires RoundPrefix(d, m, k, n, i) && i in m && k in m && i < n && k < n && Get(m, k, k) >= 0
    ensures var e := d[i := RowUpTo(m, k, i, j)];
            Get(e, i, j) == Get(m, i, j) && Get(e, i, k) == Get(m, i, k) && Get(e, k, j) == Get(m, k, j)
  {
    PivotFixed(m, k, i);
    RowUpToEntry(m, k, i, j, j);
    RowUpToEntry(m, k, i, j, k);
    RowUpToEntry(m, k, k, n, j);
    RowUpToEntry(m, k, k, j, j);
  }

  /** No column outside the ids. */
  ghost predicate Inside(m: Dist, n: nat)
  {
    forall i, j :: i in m && j in m[i] ==> j < n
  }

  /** A relaxed row only gains columns below n. */
  lemma RowInside(m: Dist, k: nat, i: nat, n: nat)
    requires Inside(m, n) && i in m
    ensures forall c :: c in RowUpTo(m, k, i, n) ==> c < n
  {
    forall c | c in RowUpTo(m, k, i, n) ensures c < n {
      RowUpToEntry(m, k, i, n, c);
    }
  }

  /** A round keeps the columns inside the ids. */
  lemma RoundInside(m: Dist, k: nat, n: nat)
    requires Inside(m, n)
    ensures Inside(Round(m, k, n), n)
  {
    var r := Round(m, k, n);
    forall i | i in r ensures forall c :: c in r[i] ==> c < n {
      if i < n {
        RowInside(m, k, i, n);
      }
    }
  }

  /** The rounds keep the columns inside the ids. */
  lemma {:induction false} RoundsInside(m0: Dist, n: nat, k: nat)
    requires Inside(m0, n)
    ensures Inside(Rounds(m0, k, n), n)
  {
    if k > 0 {
      RoundsInside(m0, n, k - 1);
      RoundsInsideStep(m0, n, k);
    }
  }

  lemma RoundsInsideStep(m0: Dist, n: nat, k: nat)
    requires k > 0 && Inside(Rounds(m0, k - 1, n), n)
    ensures Inside(Rounds(m0, k, n), n)
  {
    RoundInside(Rounds(m0, k - 1, n), k - 1, n);
  }



  /** Some walk of the initial map leads from i to j at cost c. */
  ghost predicate Reachable(m0: Dist, i: nat, j: nat, c: int)
  {
    exists w :: IsWalk(m0, w) && w[0] == i && w[|w| - 1] == j && Cost(m0, w) == c
  }

  /**
   * Every entry of `m` below Integer.MAX_VALUE is the cost of a walk of the
   * initial map from its row to its column.
   */
  ghost predicate Sound(m0: Dist, m: Dist)
  {
    forall i, j :: i in m && j in m[i] && m[i][j] < MaxInt ==> Reachable(m0, i, j, m[i][j])
  }

  /** The one-vertex walk costs nothing. */
  lemma ReachableSelf(m0: Dist, i: nat)
    requires i in m0
    ensures Reachable(m0, i, i, 0)
  {
    assert IsWalk(m0, [i]) && Cost(m0, [i]) == 0;
  }

  /** Walks from i to x and from x to j join into a walk from i to j costing the sum. */
  lemma ReachableJoin(m0: Dist, i: nat, x: nat, j: nat, c1: int, c2: int)
    requires Reachable(m0, i, x, c1) && Reachable(m0, x, j, c2)
    ensures Reachable(m0, i, j, c1 + c2)
  {
    var w1 :| IsWalk(m0, w1) && w1[0] == i && w1[|w1| - 1] == x && Cost(m0, w1) == c1;
    var w2 :| IsWalk(m0, w2) && w2[0] == x && w2[|w2| - 1] == j && Cost(m0, w2) == c2;
    CostAppend(m0, w1, w2);
    var w: seq<nat> := w1 + w2[1..];
    forall t | 0 <= t < |w| ensures w[t] in m0 {
      if t >= |w1| {
        assert w[t] == w2[t - |w1| + 1];
      }
    }
    forall t | 0 <= t < |w| - 1 ensures w[t + 1] in m0[w[t]] {
      if t >= |w1| - 1 {
        assert w[t] == w2[t - |w1| + 1] && w[t + 1] == w2[t - |w1| + 2];
      }
    }
    assert w[|w| - 1] == w2[|w2| - 1];
  }

  /** Each entry of the initial map is a one-step walk. */
  lemma InitialSound(m0: Dist, n: nat)
    requires Initial(m0, n)
    ensures Sound(m0, m0)
  {
    forall i, j | i in m0 && j in m0[i] && m0[i][j] < MaxInt ensures Reachable(m0, i, j, m0[i][j]) {
      var w: seq<nat> := [i, j];
      assert IsWalk(m0, w) && Cost(m0, w) == m0[i][j] + Cost(m0, [j]);
    }
  }

  /** Every entry Floyd–Warshall leaves is the cost of a walk. */
  lemma RoundsSound(m0: Dist, n: nat)
    requires Initial(m0, n)
    ensures Sound(m0, Rounds(m0, n, n))
  {
    var m := Rounds(m0, n, n);
    forall i, j | i in m && j in m[i] && m[i][j] < MaxInt ensures Reachable(m0, i, j, m[i][j]) {
      RoundsAgree(m0, n, n, i, j);
      var w := Realised(m0, n, n, i, j);
    }
  }

  /** No entry is negative. */
  ghost predicate NoNegative(m: Dist)
  {
    forall i, j :: i in m && j in m[i] ==> m[i][j] >= 0
  }

  /** After the n rounds of the loop no walk of the initial map costs less than the entry between its ends. */
  lemma RoundsShortest(m0: Dist, n: nat, w: seq<nat>)
    requires Initial(m0, n) && IsWalk(m0, w) && Cost(m0, w) < MaxInt
    ensures Get(Rounds(m0, n, n), w[0], w[|w| - 1]) <= Cost(m0, w)
  {
    RoundsAgree(m0, n, n, w[0], w[|w| - 1]);
    Shortest(m0, n, w);
  }

  /** Every entry of `m` is below b. */
  ghost predicate Bounded(m: Dist, b: int)
  {
    forall i, j :: i in m && j in m[i] ==> m[i][j] < b
  }

  /** Floyd–Warshall leaves no negative entry. */
  lemma RoundsNoNegative(m0: Dist, n: nat)
    requires Initial(m0, n)
    ensures NoNegative(Rounds(m0, n, n))
  {
    var m := Rounds(m0, n, n);
    forall i, j | i in m && j in m[i] ensures m[i][j] >= 0 {
      RoundsAgree(m0, n, n, i, j);
      NonNegative(m0, n, n, i, j);
    }
  }

  /** Every entry of `m` is at most the entry of the initial map it replaces, which it keeps. */
  ghost predicate Dominates(m: Dist, m0: Dist)
  {
    forall i, j :: i in m0 && j in m0[i] ==> i in m && j in m[i] && m[i][j] <= m0[i][j]
  }

  /** Every entry between two different ids of the initial map is 1, one shared call. */
  ghost predicate Unit(m0: Dist)
  {
    forall i, j :: i in m0 && j in m0[i] && j != i ==> m0[i][j] == 1
  }

  /** With unit entries, a walk between two different ids costs at least 1. */
  lemma {:induction false} UnitCost(m0: Dist, n: nat, w: seq<nat>)
    requires Initial(m0, n) && Unit(m0) && IsWalk(m0, w) && w[0] != w[|w| - 1]
    ensures Cost(m0, w) >= 1
  {
    var w' := w[1..];
    assert IsWalk(m0, w') by {
      assert forall t :: 0 <= t < |w'| ==> w'[t] == w[t + 1];
    }
    CostNonNegative(m0, n, w');
    if w[1] == w[0] {
      UnitCost(m0, n, w');
    }
  }

  /** No round raises an entry above the initial one. */
  lemma {:induction false} BelowInitial(m0: Dist, n: nat, k: nat, i: nat, j: nat)
    ensures D(m0, k, n, i, j) <= Get(m0, i, j)
  {
    if k > 0 {
      BelowInitial(m0, n, k - 1, i, j);
      NeverIncreases(m0, n, k - 1, i, j);
    }
  }

  /** Floyd–Warshall keeps every entry of an initial map with unit entries, at no larger a value. */
  lemma RoundsDominate(m0: Dist, n: nat)
    requires Initial(m0, n) && Unit(m0)
    ensures Dominates(Rounds(m0, n, n), m0)
  {
    var m := Rounds(m0, n, n);
    forall i, j | i in m0 && j in m0[i] ensures i in m && j in m[i] && m[i][j] <= m0[i][j] {
      RoundsAgree(m0, n, n, i, j);
      BelowInitial(m0, n, n, i, j);
    }
  }
}
