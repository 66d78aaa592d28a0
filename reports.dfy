/**
 * The result tables of slice and dice: per-measure statistics over the
 * matched records, the sample rows slice shows, and the quality
 * distribution of dice.
 */
module Reports {
  import opened Records
  import opened Aggregation
  import opened Grouping
  import opened Counting
  import opened Ordering

  /** One statistics row: measure, Count, Average, Min, Max, Sum. */
  datatype StatRow = StatRow(measure: Measure, count: nat, average: real, minimum: real, maximum: real, total: real)

  /**
   * The statistics row of measure `m` over the non-empty `rs`: it counts every
   * record, and its min and max bound every record's value (the average is
   * related to them by `StatsConsistent`).
   */
  function Stats(rs: seq<Record>, m: Measure): (row: StatRow)
    requires |rs| > 0
    ensures row.measure == m && row.count == |rs|
    ensures forall i :: 0 <= i < |rs| ==> row.minimum <= MeasureOf(rs[i], m) <= row.maximum
  {
    var vs := Project(rs, m);
    assert forall i :: 0 <= i < |rs| ==> vs[i] in vs;
    StatRow(m, |vs|, Mean(vs), Minimum(vs), Maximum(vs), Total(vs))
  }

  /**
   * A statistics row counts every record, its minimum and maximum are values
   * some record has and bound all the others, min <= avg <= max, and
   * avg * count == sum.
   */
  lemma StatsConsistent(rs: seq<Record>, m: Measure)
    requires |rs| > 0
    ensures Stats(rs, m).measure == m && Stats(rs, m).count == |rs|
    ensures exists i :: 0 <= i < |rs| && MeasureOf(rs[i], m) == Stats(rs, m).minimum
    ensures exists i :: 0 <= i < |rs| && MeasureOf(rs[i], m) == Stats(rs, m).maximum
    ensures forall i :: 0 <= i < |rs| ==> Stats(rs, m).minimum <= MeasureOf(rs[i], m) <= Stats(rs, m).maximum
    ensures Stats(rs, m).minimum <= Stats(rs, m).average <= Stats(rs, m).maximum
    ensures Stats(rs, m).average * |rs| as real == Stats(rs, m).total
  {
    var vs := Project(rs, m);
    StatsTotal(rs, m);
    MeanWithinBounds(vs);
    ValueAt(rs, m, Minimum(vs));
    ValueAt(rs, m, Maximum(vs));
    forall i | 0 <= i < |rs| ensures Minimum(vs) <= MeasureOf(rs[i], m) <= Maximum(vs) {
      assert vs[i] in vs;
    }
  }

  lemma StatsTotal(rs: seq<Record>, m: Measure)
    requires |rs| > 0
    ensures Stats(rs, m).average * |rs| as real == Stats(rs, m).total
  {
    var vs := Project(rs, m);
    var n := |rs| as real;
    MeanTimesCount(vs);
    assert |vs| as real == n;
    assert Stats(rs, m).average == Mean(vs) && Stats(rs, m).total == Total(vs);
  }

  lemma ValueAt(rs: seq<Record>, m: Measure, v: real)
    requires v in Project(rs, m)
    ensures exists i :: 0 <= i < |rs| && MeasureOf(rs[i], m) == v
  {
    var i :| 0 <= i < |rs| && Project(rs, m)[i] == v;
  }

  /** A sample row: Quality, Alcohol, pH, Fixed Acidity, Volatile Acidity. */
  datatype SampleRow = SampleRow(quality: int, alcohol: real, pH: real, fixedAcidity: real, volatileAcidity: real)

  function SampleOf(r: Record): SampleRow
  {
    SampleRow(r.sample.quality, r.sample.alcohol, r.sample.pH, r.sample.fixedAcidity, r.sample.volatileAcidity)
  }

  /** How many sample rows slice shows. */
  const SampleSize: nat := 5

  /** One distribution row: quality, number of matched records with it, their share in percent. */
  datatype DistRow = DistRow(quality: int, count: nat, percentage: real)

  /** The quality of each record, in order. */
  function Qualities(rs: seq<Record>): (qs: seq<int>)
    ensures |qs| == |rs|
    ensures forall i :: 0 <= i < |rs| ==> qs[i] == rs[i].sample.quality
  {
    if |rs| == 0 then [] else Qualities(rs[..|rs| - 1]) + [rs[|rs| - 1].sample.quality]
  }

  lemma QualitiesSnoc(rs: seq<Record>, r: Record)
    ensures Qualities(rs + [r]) == Qualities(rs) + [r.sample.quality]
  {
    assert (rs + [r])[..|rs|] == rs;
  }

  function DistQualities(rows: seq<DistRow>): (qs: seq<int>)
    ensures |qs| == |rows|
    ensures forall i :: 0 <= i < |rows| ==> qs[i] == rows[i].quality
  {
    if |rows| == 0 then [] else DistQualities(rows[..|rows| - 1]) + [rows[|rows| - 1].quality]
  }

  function DistCount(rows: seq<DistRow>): nat
  {
    if |rows| == 0 then 0 else DistCount(rows[..|rows| - 1]) + rows[|rows| - 1].count
  }

  function DistPercentage(rows: seq<DistRow>): real
  {
    if |rows| == 0 then 0.0 else DistPercentage(rows[..|rows| - 1]) + rows[|rows| - 1].percentage
  }

  function IntLess(a: int, b: int): bool
  {
    a < b
  }

  lemma IntOrder()
    ensures StrictTotalOrder(IntLess)
  {
  }

  /**
   * `rows` is the quality distribution of the matched records `rs`: one row
   * per quality present, ascending, each with its count and exact percentage.
   */
  ghost predicate IsDistribution(rows: seq<DistRow>, rs: seq<Record>)
  {
    && StrictlySorted(DistQualities(rows), IntLess)
    && (forall q :: q in DistQualities(rows) <==> q in Qualities(rs))
    && (forall i :: 0 <= i < |rows| ==>
          && rows[i].count == Count(Qualities(rs), rows[i].quality)
          && |rs| > 0
          && rows[i].percentage == Percentage(rows[i].count, |rs|))
  }

  /** The rows built from the sorted qualities and the tally form the distribution. */
  lemma DistributionFromTally(rows: seq<DistRow>, qualities: seq<int>, rs: seq<Record>)
    requires StrictlySorted(qualities, IntLess)
    requires forall q :: q in qualities <==> q in Qualities(rs)
    requires |rows| == |qualities|
    requires forall t :: 0 <= t < |rows| ==>
      && qualities[t] in Tally(Qualities(rs))
      && |rs| > 0
      && rows[t] == DistRow(qualities[t], Tally(Qualities(rs))[qualities[t]],
                            Percentage(Tally(Qualities(rs))[qualities[t]], |rs|))
    ensures IsDistribution(rows, rs)
  {
    TallyContents(Qualities(rs));
    assert DistQualities(rows) == qualities;
  }

  lemma {:induction false} DistCountIsSumCounts(rows: seq<DistRow>, qs: seq<int>)
    requires forall i :: 0 <= i < |rows| ==> rows[i].count == Count(qs, rows[i].quality)
    ensures DistCount(rows) == SumCounts(qs, DistQualities(rows))
    decreases |rows|
  {
    if |rows| > 0 {
      var init := rows[..|rows| - 1];
      DistCountIsSumCounts(init, qs);
      assert DistQualities(rows)[..|rows| - 1] == DistQualities(init);
    }
  }

  /** The distribution's counts add up to the number of matched records. */
  lemma DistributionCountsSum(rows: seq<DistRow>, rs: seq<Record>)
    requires IsDistribution(rows, rs)
    ensures DistCount(rows) == |rs|
  {
    IntOrder();
    SortedDistinct(DistQualities(rows), IntLess);
    DistCountIsSumCounts(rows, Qualities(rs));
    CountsPartition(Qualities(rs), DistQualities(rows));
  }

  /**
   * The share of `count` in `total`, in percent, exactly (the display rounding
   * is not modelled): p * total == count * 100, a part of the total lies in
   * [0, 100], and the whole total is 100.
   */
  function Percentage(count: nat, total: nat): (p: real)
    requires total > 0
    ensures p * total as real == count as real * 100.0
    ensures 0.0 <= p && (count <= total ==> p <= 100.0)
    ensures count == total ==> p == 100.0
  {
    count as real / total as real * 100.0
  }

  lemma PercentageAdd(a: nat, b: nat, total: nat)
    requires total > 0
    ensures Percentage(a + b, total) == Percentage(a, total) + Percentage(b, total)
  {
  }

  lemma {:induction false} PercentagesScale(rows: seq<DistRow>, total: nat)
    requires total > 0
    requires forall i :: 0 <= i < |rows| ==> rows[i].percentage == Percentage(rows[i].count, total)
    ensures DistPercentage(rows) == Percentage(DistCount(rows), total)
    decreases |rows|
  {
    if |rows| > 0 {
      var init, last := rows[..|rows| - 1], rows[|rows| - 1];
      PercentagesScale(init, total);
      PercentageAdd(DistCount(init), last.count, total);
    }
  }

  /** The exact percentages of a non-empty match add up to 100. */
  lemma DistributionPercentagesSum(rows: seq<DistRow>, rs: seq<Record>)
    requires |rs| > 0
    requires IsDistribution(rows, rs)
    ensures DistPercentage(rows) == 100.0
  {
    DistributionCountsSum(rows, rs);
    PercentagesScale(rows, |rs|);
  }
}
