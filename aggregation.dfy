/**
 * The four aggregation kinds a rollup or drilldown may ask for, and the
 * exact (real-valued) mean, sum, maximum and minimum behind them and behind
 * the statistics rows of slice and dice.
 */
module Aggregation {
  import opened Wrappers

  datatype AggKind = Avg | Sum | Max | Min

  /** The `agg_func` names the cube recognises; any other name is unknown. */
  function ParseAggFunc(name: string): (k: Option<AggKind>)
    ensures k == Some(Avg) <==> name == "avg"
    ensures k == Some(Sum) <==> name == "sum"
    ensures k == Some(Max) <==> name == "max"
    ensures k == Some(Min) <==> name == "min"
  {
    if name == "avg" then Some(Avg)
    else if name == "sum" then Some(Sum)
    else if name == "max" then Some(Max)
    else if name == "min" then Some(Min)
    else None
  }

  /** Python's `sum`, computed exactly; its bounds are `TotalBounds`. */
  function Total(vs: seq<real>): real
  {
    if |vs| == 0 then 0.0 else Total(vs[..|vs| - 1]) + vs[|vs| - 1]
  }

  /** `statistics.mean`: the arithmetic mean; its properties are `MeanTimesCount` and `MeanWithinBounds`. */
  function Mean(vs: seq<real>): real
    requires |vs| > 0
  {
    Total(vs) / |vs| as real
  }

  /** Python's `max` on a non-empty list. */
  function Maximum(vs: seq<real>): (m: real)
    requires |vs| > 0
    ensures m in vs
    ensures forall v :: v in vs ==> v <= m
  {
    if |vs| == 1 then vs[0]
    else
      var init, last := vs[..|vs| - 1], vs[|vs| - 1];
      assert vs == init + [last];
      var m := Maximum(init);
      if last > m then last else m
  }

  /** Python's `min` on a non-empty list. */
  function Minimum(vs: seq<real>): (m: real)
    requires |vs| > 0
    ensures m in vs
    ensures forall v :: v in vs ==> m <= v
  {
    if |vs| == 1 then vs[0]
    else
      var init, last := vs[..|vs| - 1], vs[|vs| - 1];
      assert vs == init + [last];
      var m := Minimum(init);
      if last < m then last else m
  }

  /**
   * The value an aggregation kind gives a non-empty group: avg, max and min
   * lie between the group's minimum and maximum (the bounds on sum are
   * `TotalBounds`).
   */
  function Aggregate(kind: AggKind, vs: seq<real>): (a: real)
    requires |vs| > 0
    ensures kind != Sum ==> Minimum(vs) <= a <= Maximum(vs)
  {
    MeanWithinBounds(vs);
    match kind
    case Avg => Mean(vs)
    case Sum => Total(vs)
    case Max => Maximum(vs)
    case Min => Minimum(vs)
  }

  /** A sum of values lying in [lo, hi] lies between |vs|*lo and |vs|*hi. */
  lemma {:induction false} TotalBounds(vs: seq<real>, lo: real, hi: real)
    requires forall v :: v in vs ==> lo <= v <= hi
    ensures |vs| as real * lo <= Total(vs) <= |vs| as real * hi
    decreases |vs|
  {
    if |vs| > 0 {
      var init, last := vs[..|vs| - 1], vs[|vs| - 1];
      assert vs == init + [last];
      assert forall v :: v in init ==> v in vs;
      TotalBounds(init, lo, hi);
      var n := |init| as real;
      assert Total(vs) == Total(init) + last;
      assert n * lo <= Total(init) <= n * hi;
      assert last in vs;
      assert |vs| as real == n + 1.0;
      calc {
        |vs| as real * lo;
        (n + 1.0) * lo;
        n * lo + lo;
      }
      calc {
        |vs| as real * hi;
        (n + 1.0) * hi;
        n * hi + hi;
      }
    }
  }

  /** Dividing a bound on n*x by a positive n. */
  lemma DivideBounds(t: real, n: real, lo: real, hi: real)
    requires n > 0.0
    requires n * lo <= t <= n * hi
    ensures lo <= t / n <= hi
  {
    assert t / n * n == t;
  }

  /** The mean of values lying in [lo, hi] lies in [lo, hi]. */
  lemma MeanBounds(vs: seq<real>, lo: real, hi: real)
    requires |vs| > 0
    requires forall v :: v in vs ==> lo <= v <= hi
    ensures lo <= Mean(vs) <= hi
  {
    TotalBounds(vs, lo, hi);
    DivideBounds(Total(vs), |vs| as real, lo, hi);
  }

  /** min <= avg <= max on every non-empty group. */
  lemma MeanWithinBounds(vs: seq<real>)
    requires |vs| > 0
    ensures Minimum(vs) <= Mean(vs) <= Maximum(vs)
  {
    MeanBounds(vs, Minimum(vs), Maximum(vs));
  }

  /** The mean times the group size gives back the sum. */
  lemma MeanTimesCount(vs: seq<real>)
    requires |vs| > 0
    ensures Mean(vs) * |vs| as real == Total(vs)
  {
  }

  /** The worked example of avg and sum on [10, 20, 30]. */
  lemma AggregateExample()
    ensures Aggregate(Avg, [10.0, 20.0, 30.0]) == 20.0
    ensures Aggregate(Sum, [10.0, 20.0, 30.0]) == 60.0
    ensures Aggregate(Max, [10.0, 20.0, 30.0]) == 30.0
    ensures Aggregate(Min, [10.0, 20.0, 30.0]) == 10.0
  {
    var vs := [10.0, 20.0, 30.0];
    assert vs[..2] == [10.0, 20.0] && vs[..2][..1] == [10.0];
    assert Total([10.0]) == 10.0;
    assert Total([10.0, 20.0]) == 30.0;
    assert Total(vs) == 60.0;
  }
}
