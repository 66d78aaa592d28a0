/**
 * The OLAP cube: a read-only store of labelled wine records and the four
 * operations over it. Each operation returns its result tables instead of
 * printing them.
 */
module Cube {
  import opened Wrappers
  import opened Records
  import opened Aggregation
  import opened Counting
  import opened Ordering
  import opened Grouping
  import opened Filters
  import opened Reports
  import opened Classifiers

  /** The ways a cube operation raises. */
  datatype CubeError =
    | UnboundAggValue      // an unknown agg_func leaves agg_value unassigned at the first group
    | ComparisonTypeError  // a dice range compares a number with a string

  /** Slice's output: the statistics table and the first records of the slice. */
  datatype SliceReport = SliceReport(stats: seq<StatRow>, sample: seq<SampleRow>)

  /** Dice's output: how many records matched, the statistics table and the quality distribution. */
  datatype DiceReport = DiceReport(matched: nat, stats: seq<StatRow>, distribution: seq<DistRow>)

  /** The measures slice and dice report on when the caller names none. */
  const DefaultReportMeasures: seq<Measure> := [FixedAcidity, VolatileAcidity, Alcohol]

  function MeasuresOrDefault(measures: Option<seq<Measure>>): seq<Measure>
  {
    match measures
    case None => DefaultReportMeasures
    case Some(ms) => ms
  }

  /** How many of `n` records the sample shows: at most `SampleSize`. */
  function SampleLength(n: nat): nat
  {
    if n < SampleSize then n else SampleSize
  }

  /** One statistics row per measure, in the order given. */
  method StatsTable(rs: seq<Record>, measures: seq<Measure>) returns (rows: seq<StatRow>)
    requires |rs| > 0
    ensures |rows| == |measures|
    ensures forall i :: 0 <= i < |measures| ==> rows[i] == Stats(rs, measures[i])
  {
    rows := [];
    for i := 0 to |measures|
      invariant |rows| == i
      invariant forall j :: 0 <= j < i ==> rows[j] == Stats(rs, measures[j])
    {
      var values := Project(rs, measures[i]);
      var row := StatRow(measures[i], |values|, Mean(values), Minimum(values), Maximum(values), Total(values));
      assert row == Stats(rs, measures[i]);
      StatsSnoc(rows, row, rs, measures);
      rows := rows + [row];
    }
  }

  lemma StatsSnoc(rows: seq<StatRow>, row: StatRow, rs: seq<Record>, measures: seq<Measure>)
    requires |rs| > 0
    requires |rows| < |measures|
    requires forall j :: 0 <= j < |rows| ==> rows[j] == Stats(rs, measures[j])
    requires row == Stats(rs, measures[|rows|])
    ensures forall j :: 0 <= j < |rows| + 1 ==> (rows + [row])[j] == Stats(rs, measures[j])
  {
  }

  /** The sample rows of the first `SampleSize` records. */
  method SampleRows(rs: seq<Record>) returns (rows: seq<SampleRow>)
    ensures |rows| == SampleLength(|rs|)
    ensures forall i :: 0 <= i < |rows| ==> rows[i] == SampleOf(rs[i])
  {
    var head := rs[..SampleLength(|rs|)];
    rows := [];
    for i := 0 to |head|
      invariant |rows| == i
      invariant forall j :: 0 <= j < i ==> rows[j] == SampleOf(rs[j])
    {
      var r := head[i];
      rows := rows + [SampleRow(r.sample.quality, r.sample.alcohol, r.sample.pH, r.sample.fixedAcidity, r.sample.volatileAcidity)];
    }
  }

  /** One row per quality, in the given order, with its count and its share of `total`. */
  method DistributionRows(qualities: seq<int>, dist: map<int, nat>, total: nat) returns (rows: seq<DistRow>)
    requires forall t :: 0 <= t < |qualities| ==> qualities[t] in dist
    requires |qualities| == 0 || total > 0
    ensures |rows| == |qualities|
    ensures forall t :: 0 <= t < |rows| ==>
      && total > 0
      && rows[t] == DistRow(qualities[t], dist[qualities[t]], Percentage(dist[qualities[t]], total))
  {
    rows := [];
    for j := 0 to |qualities|
      invariant |rows| == j
      invariant forall t :: 0 <= t < j ==>
        && total > 0
        && rows[t] == DistRow(qualities[t], dist[qualities[t]], Percentage(dist[qualities[t]], total))
    {
      var quality := qualities[j];
      var count := dist[quality];
      rows := rows + [DistRow(quality, count, Percentage(count, total))];
    }
  }

  /**
   * Counts the records per quality, one record at a time: how often each
   * quality occurs, and the qualities met.
   */
  method TallyQualities(rs: seq<Record>) returns (dist: map<int, nat>, order: seq<int>)
    ensures dist == Tally(Qualities(rs))
    ensures forall q :: q in order <==> q in dist
  {
    dist, order := map[], [];
    for i := 0 to |rs|
      invariant dist == Tally(Qualities(rs[..i]))
      invariant forall q :: q in order <==> q in dist
    {
      var q := rs[i].sample.quality;
      assert rs[..i + 1] == rs[..i] + [rs[i]];
      QualitiesSnoc(rs[..i], rs[i]);
      TallySnoc(Qualities(rs[..i]), q);
      var current := if q in dist then dist[q] else 0;
      if q !in dist {
        order := order + [q];
      }
      dist := dist[q := current + 1];
    }
    assert rs[..|rs|] == rs;
  }

  /** Counts the records per quality and lists the counts by ascending quality. */
  method QualityDistribution(rs: seq<Record>) returns (rows: seq<DistRow>)
    ensures IsDistribution(rows, rs)
  {
    var dist, order := TallyQualities(rs);
    TallyContents(Qualities(rs));
    IntOrder();
    var qualities := Sort(order, IntLess);
    if |qualities| > 0 {
      assert qualities[0] in order;
      assert qualities[0] in Qualities(rs);
    }
    rows := DistributionRows(qualities, dist, |rs|);
    DistributionFromTally(rows, qualities, rs);
  }

  /**
   * The loop over the sorted keys of a groups dictionary: one row per key
   * with the aggregate of its values. With an unknown aggregation the first
   * row raises.
   */
  method LevelRows(keys: seq<Key>, groups: map<Key, seq<real>>, kind: Option<AggKind>)
    returns (res: Result<seq<Row>, CubeError>)
    requires forall k :: k in keys ==> k in groups && |groups[k]| > 0
    ensures kind.Some? ==> res == Ok(TableRows(keys, groups, kind.value))
    ensures kind.None? ==> res == if |keys| == 0 then Ok([]) else Err(UnboundAggValue)
  {
    var rows: seq<Row> := [];
    for j := 0 to |keys|
      invariant kind.None? ==> j == 0 && rows == []
      invariant forall k :: k in keys[..j] ==> k in groups && |groups[k]| > 0
      invariant kind.Some? ==> rows == TableRows(keys[..j], groups, kind.value)
    {
      var key := keys[j];
      var values := groups[key];
      match kind {
        case None =>
          return Err(UnboundAggValue);
        case Some(k) =>
          TableRowsSnoc(keys, j, groups, k);
          rows := rows + [Row(key, Aggregate(k, values), |values|)];
      }
    }
    assert keys[..|keys|] == keys;
    return Ok(rows);
  }

  /**
   * The conditions of a dice tested on one record, in dictionary order,
   * stopping at the first that fails; None when a range comparison raises.
   */
  method MatchRecord(record: Record, conds: seq<Clause>) returns (m: Option<bool>)
    ensures m == Matches(record, conds)
  {
    var j := 0;
    while j < |conds|
      invariant 0 <= j <= |conds|
      invariant Matches(record, conds) == Matches(record, conds[j..])
      decreases |conds| - j
    {
      var c := conds[j];
      var v := ValueOf(record, c.dim);
      assert conds[j..][0] == c && conds[j..][1..] == conds[j + 1..];
      if c.condition.Sequence? && |c.condition.items| == 2 {
        var lo, hi := c.condition.items[0], c.condition.items[1];
        var low := AtMost(lo, v);
        if low.None? {
          return None;
        }
        var within := low.value;
        if within {
          var high := AtMost(v, hi);
          if high.None? {
            return None;
          }
          within := high.value;
        }
        if !within {
          return Some(false);
        }
      } else if !(c.condition.Exact? && c.condition.value == v) {
        return Some(false);
      }
      j := j + 1;
    }
    return Some(true);
  }

  class OLAPCube {
    /** The record store; built once by the constructor and never changed. */
    const data: seq<Record>

    /** Every record carries the labels its classifiers give it. */
    ghost predicate Valid()
    {
      forall i :: 0 <= i < |data| ==> Labelled(data[i])
    }

    /** Builds the store from parsed samples, attaching the three range labels to each. */
    constructor (samples: seq<Sample>)
      ensures Valid()
      ensures |data| == |samples|
      ensures forall i :: 0 <= i < |samples| ==> data[i].sample == samples[i]
    {
      var records: seq<Record> := [];
      for i := 0 to |samples|
        invariant |records| == i
        invariant forall j :: 0 <= j < i ==> records[j] == Annotate(samples[j])
      {
        records := records + [Annotate(samples[i])];
      }
      data := records;
    }

    /**
     * On a store built by the constructor, the slice on the medium alcohol
     * label keeps exactly the records with 9.5 <= alcohol < 11.5.
     */
    lemma SliceMediumAlcohol()
      requires Valid()
      ensures forall r :: r in SliceFilter(data, AlcoholRange, Text(AlcoholMedium)) <==>
        r in data && 9.5 <= r.sample.alcohol < 11.5
    {
      forall r | r in data ensures ValueOf(r, AlcoholRange) == Text(AlcoholMedium) <==> 9.5 <= r.sample.alcohol < 11.5 {
        var i :| 0 <= i < |data| && data[i] == r;
        assert Labelled(data[i]);
      }
    }

    /**
     * Appends each record's measure value to the list of its key: the
     * measure values of every group, and the keys met.
     */
    method GroupBy(dims: seq<Dim>, m: Measure) returns (groups: map<Key, seq<real>>, order: seq<Key>)
      ensures forall k :: k in groups <==> k in KeysOf(data, dims)
      ensures forall k :: k in order <==> k in groups
      ensures forall k :: k in groups ==> groups[k] == Project(Group(data, dims, k), m)
    {
      groups, order := map[], [];
      for i := 0 to |data|
        invariant groups == GroupMap(data[..i], dims, m)
        invariant forall k :: k in order <==> k in groups
      {
        var record := data[i];
        var key := KeyOf(record, dims);
        assert data[..i + 1] == data[..i] + [record];
        GroupMapSnoc(data[..i], record, dims, m);
        var current := if key in groups then groups[key] else [];
        if key !in groups {
          order := order + [key];
        }
        groups := groups[key := current + [MeasureOf(record, m)]];
      }
      assert data[..|data|] == data;
      GroupMapContents(data, dims, m);
    }

    /**
     * One level of rollup or drilldown: the store grouped by `dims`, one row
     * per key in ascending key order. With an unknown aggregation the first
     * row raises, so only an empty store gets through.
     */
    method AggregateLevel(dims: seq<Dim>, m: Measure, kind: Option<AggKind>) returns (res: Result<seq<Row>, CubeError>)
      ensures kind.Some? ==> res.Ok?
      ensures kind.None? ==> res == if |data| == 0 then Ok([]) else Err(UnboundAggValue)
      ensures res.Ok? ==> LevelOutcome(res.value, data, dims, m, kind)
    {
      var groups, order := GroupBy(dims, m);
      var keys := SortKeys(order);
      if |data| > 0 {
        assert KeysOf(data, dims)[0] in keys;
      }
      if |keys| > 0 {
        assert keys[0] in KeysOf(data, dims);
      }
      forall k | k in keys ensures k in groups && |groups[k]| > 0 && groups[k] == Project(Group(data, dims, k), m) {
        assert k in order;
      }
      res := LevelRows(keys, groups, kind);
      if kind.Some? {
        TableIsLevel(keys, groups, data, dims, m, kind.value);
        LevelCountsSum(res.value, data, dims, m, kind.value);
      }
    }

    /**
     * Rollup: level i groups the whole store by the single dimension
     * `hierarchy[i]`, independently of the other levels.
     */
    method Rollup(hierarchy: seq<Dim>, m: Measure := FixedAcidity, aggFunc: string := "avg")
      returns (res: Result<seq<seq<Row>>, CubeError>)
      ensures ParseAggFunc(aggFunc).Some? ==> res.Ok?
      ensures ParseAggFunc(aggFunc).None? ==> (res.Err? <==> |data| > 0 && |hierarchy| > 0)
      ensures res.Err? ==> res.error == UnboundAggValue
      ensures res.Ok? ==>
        && |res.value| == |hierarchy|
        && forall i :: 0 <= i < |hierarchy| ==>
             LevelOutcome(res.value[i], data, [hierarchy[i]], m, ParseAggFunc(aggFunc))
    {
      res := RollupLevels(hierarchy, m, ParseAggFunc(aggFunc));
    }

    /** The loop of Rollup, once the aggregation name is resolved to `kind`. */
    method RollupLevels(hierarchy: seq<Dim>, m: Measure, kind: Option<AggKind>)
      returns (res: Result<seq<seq<Row>>, CubeError>)
      ensures kind.Some? ==> res.Ok?
      ensures kind.None? ==> (res.Err? <==> |data| > 0 && |hierarchy| > 0)
      ensures res.Err? ==> res.error == UnboundAggValue
      ensures res.Ok? ==>
        && |res.value| == |hierarchy|
        && forall i :: 0 <= i < |hierarchy| ==> LevelOutcome(res.value[i], data, [hierarchy[i]], m, kind)
    {
      var levels: seq<seq<Row>> := [];
      for i := 0 to |hierarchy|
        invariant |levels| == i
        invariant kind.None? ==> i == 0 || |data| == 0
        invariant forall j :: 0 <= j < i ==> LevelOutcome(levels[j], data, [hierarchy[j]], m, kind)
      {
        var level := AggregateLevel([hierarchy[i]], m, kind);
        if level.Err? {
          return Err(level.error);
        }
        RollupPrefixSnoc(levels, level.value, data, hierarchy, m, kind);
        levels := levels + [level.value];
      }
      return Ok(levels);
    }

    /**
     * Drilldown: level k (from 1) groups the whole store by the first k
     * dimensions of `[start] + drill`, so each level refines the one before.
     */
    method Drilldown(start: Dim, drill: seq<Dim>, m: Measure := FixedAcidity, aggFunc: string := "avg")
      returns (res: Result<seq<seq<Row>>, CubeError>)
      ensures ParseAggFunc(aggFunc).Some? ==> res.Ok?
      ensures ParseAggFunc(aggFunc).None? ==> (res.Err? <==> |data| > 0)
      ensures res.Err? ==> res.error == UnboundAggValue
      ensures res.Ok? ==>
        && |res.value| == 1 + |drill|
        && (forall k :: 0 <= k < 1 + |drill| ==>
              LevelOutcome(res.value[k], data, ([start] + drill)[..k + 1], m, ParseAggFunc(aggFunc)))
        && (forall k :: 0 < k < 1 + |drill| ==> |res.value[k - 1]| <= |res.value[k]|)
    {
      res := DrilldownLevels([start] + drill, m, ParseAggFunc(aggFunc));
    }

    /** The loop of Drilldown over the growing prefixes of `allDims`. */
    method DrilldownLevels(allDims: seq<Dim>, m: Measure, kind: Option<AggKind>)
      returns (res: Result<seq<seq<Row>>, CubeError>)
      requires |allDims| > 0
      ensures kind.Some? ==> res.Ok?
      ensures kind.None? ==> (res.Err? <==> |data| > 0)
      ensures res.Err? ==> res.error == UnboundAggValue
      ensures res.Ok? ==>
        && |res.value| == |allDims|
        && (forall k :: 0 <= k < |allDims| ==> LevelOutcome(res.value[k], data, allDims[..k + 1], m, kind))
        && (forall k :: 0 < k < |allDims| ==> |res.value[k - 1]| <= |res.value[k]|)
    {
      var levels: seq<seq<Row>> := [];
      for level := 1 to |allDims| + 1
        invariant |levels| == level - 1
        invariant kind.None? ==> level == 1 || |data| == 0
        invariant DrilldownPrefix(levels, data, allDims, m, kind)
      {
        var rows := AggregateLevel(allDims[..level], m, kind);
        if rows.Err? {
          return Err(rows.error);
        }
        DrilldownPrefixSnoc(levels, rows.value, data, allDims, m, kind);
        levels := levels + [rows.value];
      }
      return Ok(levels);
    }

    /**
     * Slice: the records whose field `dim` equals `value`, in store order. No
     * match gives None ("no data"); otherwise the statistics of each measure
     * and the sample rows of the first five records.
     */
    method Slice(dim: Dim, value: Value, measures: Option<seq<Measure>> := None) returns (res: Option<SliceReport>)
      ensures res.None? <==> |SliceFilter(data, dim, value)| == 0
      ensures res.Some? ==>
        var kept, ms := SliceFilter(data, dim, value), MeasuresOrDefault(measures);
        && |res.value.stats| == |ms|
        && (forall i :: 0 <= i < |ms| ==> res.value.stats[i] == Stats(kept, ms[i]))
        && |res.value.sample| == SampleLength(|kept|)
        && (forall i :: 0 <= i < |res.value.sample| ==> res.value.sample[i] == SampleOf(kept[i]))
    {
      var ms := MeasuresOrDefault(measures);
      var kept := SliceFilter(data, dim, value);
      if |kept| == 0 {
        return None;
      }
      var stats := StatsTable(kept, ms);
      var sample := SampleRows(kept);
      return Some(SliceReport(stats, sample));
    }

    /**
     * Dice: the records meeting every condition, tested in order with an
     * early exit on the first that fails. A range comparing a number with a
     * string raises; no match gives Ok(None) ("no data"); otherwise the
     * statistics of each measure and the quality distribution.
     */
    method Dice(conds: seq<Clause>, measures: Option<seq<Measure>> := None)
      returns (res: Result<Option<DiceReport>, CubeError>)
      ensures res.Err? <==> DiceFilter(data, conds).None?
      ensures res.Err? ==> res.error == ComparisonTypeError
      ensures res.Ok? ==> (res.value.None? <==> |DiceFilter(data, conds).value| == 0)
      ensures res.Ok? && res.value.Some? ==>
        var kept, ms, report := DiceFilter(data, conds).value, MeasuresOrDefault(measures), res.value.value;
        && report.matched == |kept|
        && |report.stats| == |ms|
        && (forall i :: 0 <= i < |ms| ==> report.stats[i] == Stats(kept, ms[i]))
        && IsDistribution(report.distribution, kept)
    {
      var ms := MeasuresOrDefault(measures);
      var kept: seq<Record> := [];
      for i := 0 to |data|
        invariant DiceFilter(data[..i], conds) == Some(kept)
      {
        var matched := MatchRecord(data[i], conds);
        if matched.None? {
          DiceFilterRaises(data, i, conds);
          return Err(ComparisonTypeError);
        }
        assert data[..i + 1] == data[..i] + [data[i]];
        DiceFilterSnoc(data[..i], data[i], conds);
        if matched.value {
          kept := kept + [data[i]];
        }
      }
      assert data[..|data|] == data;
      if |kept| == 0 {
        return Ok(None);
      }
      var stats := StatsTable(kept, ms);
      var distribution := QualityDistribution(kept);
      return Ok(Some(DiceReport(|kept|, stats, distribution)));
    }
  }
}
