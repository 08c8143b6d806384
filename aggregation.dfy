/**
 * Operations.agg: the reduction of a stream of call durations under one of
 * the Aggregation constants. Durations are exact reals here; the stream is
 * a parallel one in the Java code, so every result below is shown to depend
 * only on the multiset of durations, never on their order.
 */
module Aggregations {

  import opened Wrappers

  /** Operations.Aggregation, in declaration order. */
  datatype Aggregation = Array | Sum | Avg | Max | Min | Count

  /** Enum.name() of each constant. */
  function Name(a: Aggregation): (s: string)
    ensures |s| > 0
  {
    match a
    case Array => "ARRAY"
    case Sum => "SUM"
    case Avg => "AVG"
    case Max => "MAX"
    case Min => "MIN"
    case Count => "COUNT"
  }

  /**
   * NoValue is the NoSuchElementException of getAsDouble() on an empty
   * stream; UnknownAggregation the IllegalArgumentException of the default
   * branch, carrying its message.
   */
  datatype AggError = NoValue | UnknownAggregation(message: string)

  /** The sum of a duration list. */
  function Total(ds: seq<real>): real
  {
    if ds == [] then 0.0 else Total(ds[..|ds| - 1]) + ds[|ds| - 1]
  }

  /** The largest element of a non-empty list. */
  function Largest(ds: seq<real>): (m: real)
    requires |ds| > 0
    ensures m in ds && forall i :: 0 <= i < |ds| ==> ds[i] <= m
  {
    if |ds| == 1 then ds[0]
    else
      var init := ds[..|ds| - 1];
      var m := Largest(init);
      assert forall i :: 0 <= i < |ds| - 1 ==> ds[i] == init[i];
      if ds[|ds| - 1] > m then ds[|ds| - 1] else m
  }

  /** The smallest element of a non-empty list. */
  function Smallest(ds: seq<real>): (m: real)
    requires |ds| > 0
    ensures m in ds && forall i :: 0 <= i < |ds| ==> m <= ds[i]
  {
    if |ds| == 1 then ds[0]
    else
      var init := ds[..|ds| - 1];
      var m := Smallest(init);
      assert forall i :: 0 <= i < |ds| - 1 ==> ds[i] == init[i];
      if ds[|ds| - 1] < m then ds[|ds| - 1] else m
  }

  predicate NeedsValue(a: Aggregation)
  {
    a == Avg || a == Max || a == Min
  }

  /** Operations.agg(stream, a) over the durations `ds`. */
  function Agg(ds: seq<real>, a: Aggregation): (r: Result<real, AggError>)
    ensures r.Failure? <==> a == Array || (ds == [] && NeedsValue(a))
    ensures a == Array ==> r == Failure(UnknownAggregation("Unknown aggregation: ARRAY"))
    ensures ds == [] && NeedsValue(a) ==> r == Failure(NoValue)
    ensures a == Count ==> r == Success(|ds| as real)
    ensures a == Sum ==> r == Success(Total(ds))
    ensures a == Max && r.Success? ==> r.value in ds && forall i :: 0 <= i < |ds| ==> ds[i] <= r.value
    ensures a == Min && r.Success? ==> r.value in ds && forall i :: 0 <= i < |ds| ==> r.value <= ds[i]
    ensures a == Avg && r.Success? ==> r.value * (|ds| as real) == Total(ds)
  {
    match a
    case Avg => if ds == [] then Failure(NoValue) else Success(Total(ds) / (|ds| as real))
    case Count => Success(|ds| as real)
    case Max => if ds == [] then Failure(NoValue) else Success(Largest(ds))
    case Min => if ds == [] then Failure(NoValue) else Success(Smallest(ds))
    case Sum => Success(Total(ds))
    case Array => Failure(UnknownAggregation("Unknown aggregation: ARRAY"))
  }

  lemma {:induction false} TotalAppend(xs: seq<real>, ys: seq<real>)
    ensures Total(xs + ys) == Total(xs) + Total(ys)
    decreases |ys|
  {
    if ys != [] {
      var zs := xs + ys;
      assert zs[..|zs| - 1] == xs + ys[..|ys| - 1];
      TotalAppend(xs, ys[..|ys| - 1]);
    } else {
      assert xs + ys == xs;
    }
  }

  /** Removing one element from anywhere takes exactly that element off the sum. */
  lemma TotalRemove(ds: seq<real>, k: nat)
    requires k < |ds|
    ensures Total(ds) == Total(ds[..k] + ds[k + 1..]) + ds[k]
  {
    var a, x, b := ds[..k], ds[k], ds[k + 1..];
    assert ds == (a + [x]) + b;
    TotalAppend(a + [x], b);
    TotalAppend(a, [x]);
    TotalAppend(a, b);
    TotalSingle(x);
  }

  lemma TotalSingle(x: real)
    ensures Total([x]) == x
  {
    assert [x][..0] == [];
  }

  lemma MultisetRemove(ds: seq<real>, k: nat)
    requires k < |ds|
    ensures multiset(ds[..k] + ds[k + 1..]) == multiset(ds) - multiset{ds[k]}
  {
    assert ds == ds[..k] + [ds[k]] + ds[k + 1..];
  }

  /** The sum depends only on the multiset of durations. */
  lemma {:induction false} TotalPermutation(xs: seq<real>, ys: seq<real>)
    requires multiset(xs) == multiset(ys)
    ensures Total(xs) == Total(ys)
    decreases |xs|
  {
    if xs != [] {
      var n := |xs| - 1;
      var x := xs[n];
      assert x in multiset(ys);
      var k :| 0 <= k < |ys| && ys[k] == x;
      MultisetRemove(xs, n);
      MultisetRemove(ys, k);
      assert xs[..n] + xs[n + 1..] == xs[..n];
      TotalPermutation(xs[..n], ys[..k] + ys[k + 1..]);
      TotalRemove(ys, k);
    } else {
      assert |ys| == |multiset(ys)| == 0;
    }
  }

  /** The parallel stream's order is irrelevant: agg depends only on the multiset of durations. */
  lemma AggPermutation(xs: seq<real>, ys: seq<real>, a: Aggregation)
    requires multiset(xs) == multiset(ys)
    ensures Agg(xs, a) == Agg(ys, a)
  {
    assert |xs| == |multiset(xs)| == |ys|;
    TotalPermutation(xs, ys);
    var rx, ry := Agg(xs, a), Agg(ys, a);
    if (a == Max || a == Min) && rx.Success? {
      assert rx.value in multiset(ys) && ry.value in multiset(xs);
      assert rx.value in ys && ry.value in xs;
      var i :| 0 <= i < |ys| && ys[i] == rx.value;
      var j :| 0 <= j < |xs| && xs[j] == ry.value;
      assert rx.value == ry.value;
    }
  }

  /** SUM and COUNT over a concatenation, as the queries do when they flatten a bucket of calls. */
  lemma AggConcat(xs: seq<real>, ys: seq<real>)
    ensures Agg(xs + ys, Sum).value == Agg(xs, Sum).value + Agg(ys, Sum).value
    ensures Agg(xs + ys, Count).value == Agg(xs, Count).value + Agg(ys, Count).value
  {
    TotalAppend(xs, ys);
  }
}
