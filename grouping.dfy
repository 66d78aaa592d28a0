/**
 * The grouping engine and what a level of rollup or drilldown is: one row per
 * distinct key, sorted by key, each with its group's aggregate and size.
 * The lemmas are the partition and refinement properties of such levels.
 */
module Grouping {
  import opened Wrappers
  import opened Records
  import opened Aggregation
  import opened Counting
  import opened Ordering

  /** The key of every record, in store order. */
  function KeysOf(data: seq<Record>, dims: seq<Dim>): (ks: seq<Key>)
    ensures |ks| == |data|
    ensures forall i :: 0 <= i < |data| ==> ks[i] == KeyOf(data[i], dims)
  {
    if |data| == 0 then []
    else KeysOf(data[..|data| - 1], dims) + [KeyOf(data[|data| - 1], dims)]
  }

  /** The records whose key is `k`, in store order. */
  function Group(data: seq<Record>, dims: seq<Dim>, k: Key): (g: seq<Record>)
    ensures |g| == Count(KeysOf(data, dims), k)
    ensures forall r :: r in g <==> r in data && KeyOf(r, dims) == k
  {
    if |data| == 0 then []
    else
      var init, last := data[..|data| - 1], data[|data| - 1];
      assert data == init + [last];
      Group(init, dims, k) + (if KeyOf(last, dims) == k then [last] else [])
  }

  /** The values of measure `m` of the records, in order. */
  function Project(rs: seq<Record>, m: Measure): (vs: seq<real>)
    ensures |vs| == |rs|
    ensures forall i :: 0 <= i < |rs| ==> vs[i] == MeasureOf(rs[i], m)
  {
    if |rs| == 0 then []
    else Project(rs[..|rs| - 1], m) + [MeasureOf(rs[|rs| - 1], m)]
  }

  lemma KeysOfSnoc(data: seq<Record>, r: Record, dims: seq<Dim>)
    ensures KeysOf(data + [r], dims) == KeysOf(data, dims) + [KeyOf(r, dims)]
  {
    assert (data + [r])[..|data|] == data;
  }

  lemma GroupSnoc(data: seq<Record>, r: Record, dims: seq<Dim>, k: Key)
    ensures Group(data + [r], dims, k) == Group(data, dims, k) + (if KeyOf(r, dims) == k then [r] else [])
  {
    assert (data + [r])[..|data|] == data;
  }

  lemma ProjectSnoc(rs: seq<Record>, r: Record, m: Measure)
    ensures Project(rs + [r], m) == Project(rs, m) + [MeasureOf(r, m)]
  {
    assert (rs + [r])[..|rs|] == rs;
  }

  /** The finished `groups` dictionary: each key met in `data`, mapped to its group's measure values. */
  ghost function GroupMap(data: seq<Record>, dims: seq<Dim>, m: Measure): map<Key, seq<real>>
  {
    map k | k in KeysOf(data, dims) :: Project(Group(data, dims, k), m)
  }

  /** The dictionary has exactly the keys met, each with its group's values. */
  lemma GroupMapContents(data: seq<Record>, dims: seq<Dim>, m: Measure)
    ensures forall k :: k in GroupMap(data, dims, m) <==> k in KeysOf(data, dims)
    ensures forall k :: k in GroupMap(data, dims, m) ==> GroupMap(data, dims, m)[k] == Project(Group(data, dims, k), m)
  {
  }

  /** Appending a record extends its own key's list and leaves every other key alone. */
  lemma GroupMapSnoc(data: seq<Record>, r: Record, dims: seq<Dim>, m: Measure)
    ensures var groups, key := GroupMap(data, dims, m), KeyOf(r, dims);
      GroupMap(data + [r], dims, m)
        == groups[key := (if key in groups then groups[key] else []) + [MeasureOf(r, m)]]
  {
    var groups, key := GroupMap(data, dims, m), KeyOf(r, dims);
    var updated := groups[key := (if key in groups then groups[key] else []) + [MeasureOf(r, m)]];
    var grown := GroupMap(data + [r], dims, m);
    forall k ensures (k in grown <==> k in updated) && (k in grown ==> grown[k] == updated[k]) {
      if k == key {
        GroupMapSnocOwn(data, r, dims, m);
      } else {
        GroupMapSnocOther(data, r, dims, m, k);
      }
    }
    MapsAgree(grown, updated);
  }

  lemma GroupMapSnocOwn(data: seq<Record>, r: Record, dims: seq<Dim>, m: Measure)
    ensures var groups, key := GroupMap(data, dims, m), KeyOf(r, dims);
      && key in GroupMap(data + [r], dims, m)
      && GroupMap(data + [r], dims, m)[key] == (if key in groups then groups[key] else []) + [MeasureOf(r, m)]
  {
    var key := KeyOf(r, dims);
    KeysOfSnoc(data, r, dims);
    GroupSnoc(data, r, dims, key);
    ProjectSnoc(Group(data, dims, key), r, m);
    if key !in KeysOf(data, dims) {
      assert Count(KeysOf(data, dims), key) == 0;
    }
  }

  lemma GroupMapSnocOther(data: seq<Record>, r: Record, dims: seq<Dim>, m: Measure, k: Key)
    requires k != KeyOf(r, dims)
    ensures k in GroupMap(data + [r], dims, m) <==> k in GroupMap(data, dims, m)
    ensures k in GroupMap(data, dims, m) ==> GroupMap(data + [r], dims, m)[k] == GroupMap(data, dims, m)[k]
  {
    KeysOfSnoc(data, r, dims);
    GroupSnoc(data, r, dims, k);
    assert Group(data, dims, k) + [] == Group(data, dims, k);
  }

  lemma MapsAgree<K, V>(a: map<K, V>, b: map<K, V>)
    requires forall k :: k in a <==> k in b
    requires forall k :: k in a ==> a[k] == b[k]
    ensures a == b
  {
  }

  /** The keys in strictly ascending order, as Python's sorting of dictionary keys gives them. */
  function SortKeys(ks: seq<Key>): (r: seq<Key>)
    ensures StrictlySorted(r, KeyLess)
    ensures forall k :: k in r <==> k in ks
  {
    KeyOrder();
    Sort(ks, KeyLess)
  }

  /** One result row: the group key, the aggregated measure and the group size. */
  datatype Row = Row(key: Key, value: real, count: nat)

  function RowKeys(rows: seq<Row>): (ks: seq<Key>)
    ensures |ks| == |rows|
    ensures forall i :: 0 <= i < |rows| ==> ks[i] == rows[i].key
  {
    if |rows| == 0 then []
    else RowKeys(rows[..|rows| - 1]) + [rows[|rows| - 1].key]
  }

  lemma RowKeysSnoc(rows: seq<Row>, row: Row)
    ensures RowKeys(rows + [row]) == RowKeys(rows) + [row.key]
  {
    assert (rows + [row])[..|rows|] == rows;
  }

  /** Sum of the Count column. */
  function TotalCount(rows: seq<Row>): nat
  {
    if |rows| == 0 then 0
    else TotalCount(rows[..|rows| - 1]) + rows[|rows| - 1].count
  }

  /** The row for a group: non-empty, its aggregate of `m`, its size. */
  ghost predicate RowDescribes(row: Row, data: seq<Record>, dims: seq<Dim>, m: Measure, kind: AggKind)
  {
    var g := Group(data, dims, row.key);
    && |g| > 0
    && row.value == Aggregate(kind, Project(g, m))
    && row.count == |g|
  }

  /**
   * `rows` is the table of one level grouping `data` by `dims`: sorted strictly
   * ascending by key, one row for each key some record has, and each row
   * describing its group.
   */
  ghost predicate IsLevel(rows: seq<Row>, data: seq<Record>, dims: seq<Dim>, m: Measure, kind: AggKind)
  {
    && StrictlySorted(RowKeys(rows), KeyLess)
    && (forall k :: k in RowKeys(rows) <==> k in KeysOf(data, dims))
    && (forall i :: 0 <= i < |rows| ==> RowDescribes(rows[i], data, dims, m, kind))
  }

  /** The row of one key of the groups dictionary: its aggregate and its number of values. */
  function DictRow(key: Key, values: seq<real>, kind: AggKind): Row
    requires |values| > 0
  {
    Row(key, Aggregate(kind, values), |values|)
  }

  /** The rows of `keys`, in that order, each made from that key's list of values in `groups`. */
  function TableRows(keys: seq<Key>, groups: map<Key, seq<real>>, kind: AggKind): seq<Row>
    requires forall k :: k in keys ==> k in groups && |groups[k]| > 0
    decreases |keys|
  {
    if |keys| == 0 then []
    else
      var init, key := keys[..|keys| - 1], keys[|keys| - 1];
      assert forall k :: k in init ==> k in keys;
      TableRows(init, groups, kind) + [DictRow(key, groups[key], kind)]
  }

  lemma {:induction false} TableRowsAt(keys: seq<Key>, groups: map<Key, seq<real>>, kind: AggKind)
    requires forall k :: k in keys ==> k in groups && |groups[k]| > 0
    ensures |TableRows(keys, groups, kind)| == |keys|
    ensures forall t :: 0 <= t < |keys| ==> TableRows(keys, groups, kind)[t] == DictRow(keys[t], groups[keys[t]], kind)
    decreases |keys|
  {
    if |keys| > 0 {
      var init := keys[..|keys| - 1];
      assert forall k :: k in init ==> k in keys;
      TableRowsAt(init, groups, kind);
      forall t | 0 <= t < |keys| ensures TableRows(keys, groups, kind)[t] == DictRow(keys[t], groups[keys[t]], kind) {
        if t < |init| {
          assert init[t] == keys[t];
        }
      }
    }
  }

  /** Building the table key by key: one more key appends its row. */
  lemma TableRowsSnoc(keys: seq<Key>, j: nat, groups: map<Key, seq<real>>, kind: AggKind)
    requires j < |keys|
    requires forall k :: k in keys ==> k in groups && |groups[k]| > 0
    ensures forall k :: k in keys[..j] ==> k in groups && |groups[k]| > 0
    ensures forall k :: k in keys[..j + 1] ==> k in groups && |groups[k]| > 0
    ensures TableRows(keys[..j + 1], groups, kind) == TableRows(keys[..j], groups, kind) + [DictRow(keys[j], groups[keys[j]], kind)]
  {
    assert forall k :: k in keys[..j] ==> k in keys;
    assert forall k :: k in keys[..j + 1] ==> k in keys;
    assert keys[..j + 1][..j] == keys[..j];
  }

  /**
   * The table built from the groups dictionary of `data`, over its keys in
   * ascending order, is the level of `data` grouped by `dims`.
   */
  lemma TableIsLevel(keys: seq<Key>, groups: map<Key, seq<real>>, data: seq<Record>, dims: seq<Dim>, m: Measure, kind: AggKind)
    requires StrictlySorted(keys, KeyLess)
    requires forall k :: k in keys <==> k in KeysOf(data, dims)
    requires forall k :: k in keys ==> k in groups && |groups[k]| > 0 && groups[k] == Project(Group(data, dims, k), m)
    ensures IsLevel(TableRows(keys, groups, kind), data, dims, m, kind)
  {
    var rows := TableRows(keys, groups, kind);
    TableRowsAt(keys, groups, kind);
    forall t | 0 <= t < |keys| ensures rows[t].key == keys[t] && RowDescribes(rows[t], data, dims, m, kind) {
      RowOfGroup(data, dims, m, kind, keys[t], groups[keys[t]]);
    }
    assert RowKeys(rows) == keys;
  }

  /** The row built from a key's list of values describes that key's group. */
  lemma RowOfGroup(data: seq<Record>, dims: seq<Dim>, m: Measure, kind: AggKind, key: Key, values: seq<real>)
    requires key in KeysOf(data, dims)
    requires values == Project(Group(data, dims, key), m)
    ensures |values| > 0
    ensures RowDescribes(DictRow(key, values, kind), data, dims, m, kind)
  {
  }

  /**
   * What one level of rollup or drilldown returns when it returns: the level
   * table for a known aggregation, nothing for an unknown one (possible only
   * over an empty store), and in both cases counts adding up to the store size.
   */
  ghost predicate LevelOutcome(rows: seq<Row>, data: seq<Record>, dims: seq<Dim>, m: Measure, kind: Option<AggKind>)
  {
    && (kind.Some? ==> IsLevel(rows, data, dims, m, kind.value))
    && (kind.None? ==> rows == [])
    && TotalCount(rows) == |data|
  }

  lemma {:induction false} TotalCountIsSumCounts(rows: seq<Row>, ks: seq<Key>)
    requires forall i :: 0 <= i < |rows| ==> rows[i].count == Count(ks, rows[i].key)
    ensures TotalCount(rows) == SumCounts(ks, RowKeys(rows))
    decreases |rows|
  {
    if |rows| > 0 {
      var init := rows[..|rows| - 1];
      TotalCountIsSumCounts(init, ks);
      assert RowKeys(rows)[..|rows| - 1] == RowKeys(init);
    }
  }

  /**
   * Partition completeness: the Count column of a level adds up to the number
   * of records, so no record is dropped or counted twice.
   */
  lemma LevelCountsSum(rows: seq<Row>, data: seq<Record>, dims: seq<Dim>, m: Measure, kind: AggKind)
    requires IsLevel(rows, data, dims, m, kind)
    ensures TotalCount(rows) == |data|
  {
    var ks := KeysOf(data, dims);
    KeyOrder();
    SortedDistinct(RowKeys(rows), KeyLess);
    LevelRowCounts(rows, data, dims, m, kind);
    TotalCountIsSumCounts(rows, ks);
    CountsPartition(ks, RowKeys(rows));
  }

  /** Every record's key is the key of exactly one row. */
  lemma LevelRowPerRecord(rows: seq<Row>, data: seq<Record>, dims: seq<Dim>, m: Measure, kind: AggKind)
    requires IsLevel(rows, data, dims, m, kind)
    ensures forall i :: 0 <= i < |data| ==> Count(RowKeys(rows), KeyOf(data[i], dims)) == 1
  {
    KeyOrder();
    SortedDistinct(RowKeys(rows), KeyLess);
    forall i | 0 <= i < |data| ensures Count(RowKeys(rows), KeyOf(data[i], dims)) == 1 {
      assert KeysOf(data, dims)[i] == KeyOf(data[i], dims);
      CountDistinct(RowKeys(rows), KeyOf(data[i], dims));
    }
  }

  /** A level has as many rows as there are distinct key values in the data. */
  lemma LevelRowCount(rows: seq<Row>, data: seq<Record>, dims: seq<Dim>, m: Measure, kind: AggKind)
    requires IsLevel(rows, data, dims, m, kind)
    ensures |rows| == |set k | k in KeysOf(data, dims)|
  {
    SortedKeysCount(RowKeys(rows), data, dims);
  }

  /** Sorted keys that are exactly those of the data are as many as its distinct keys. */
  lemma SortedKeysCount(keys: seq<Key>, data: seq<Record>, dims: seq<Dim>)
    requires StrictlySorted(keys, KeyLess)
    requires forall k :: k in keys <==> k in KeysOf(data, dims)
    ensures |keys| == |set k | k in KeysOf(data, dims)|
  {
    KeyOrder();
    SortedDistinct(keys, KeyLess);
    DistinctCardinality(keys);
    assert (set k | k in keys) == (set k | k in KeysOf(data, dims));
  }

  /** A level is determined by the data, the dimensions, the measure and the kind. */
  lemma LevelUnique(rows: seq<Row>, other: seq<Row>, data: seq<Record>, dims: seq<Dim>, m: Measure, kind: AggKind)
    requires IsLevel(rows, data, dims, m, kind)
    requires IsLevel(other, data, dims, m, kind)
    ensures rows == other
  {
    KeyOrder();
    SortedUnique(RowKeys(rows), RowKeys(other), KeyLess);
    forall i | 0 <= i < |rows| ensures rows[i] == other[i] {
      assert RowKeys(rows)[i] == RowKeys(other)[i];
      assert RowDescribes(rows[i], data, dims, m, kind);
      assert RowDescribes(other[i], data, dims, m, kind);
    }
  }

  /**
   * A rollup by quality over five records of qualities 5, 5, 6, 7, 7 has
   * exactly three rows, keyed 5, 6 and 7 in that order, with counts 2, 1, 2.
   */
  lemma QualityLevelExample(rows: seq<Row>, data: seq<Record>, m: Measure, kind: AggKind)
    requires |data| == 5
    requires data[0].sample.quality == 5 && data[1].sample.quality == 5 && data[2].sample.quality == 6
    requires data[3].sample.quality == 7 && data[4].sample.quality == 7
    requires IsLevel(rows, data, [Col(Quality)], m, kind)
    ensures RowKeys(rows) == [[Num(5.0)], [Num(6.0)], [Num(7.0)]]
    ensures rows[0].count == 2 && rows[1].count == 1 && rows[2].count == 2
  {
    var ks := QualityKeys(data);
    LevelRowCounts(rows, data, [Col(Quality)], m, kind);
    QualityKeyOrder(RowKeys(rows), ks);
    QualityCounts(ks);
    assert rows[0].key == [Num(5.0)] && rows[1].key == [Num(6.0)] && rows[2].key == [Num(7.0)];
  }

  /** Each row of a level counts the occurrences of its key among the records' keys. */
  lemma LevelRowCounts(rows: seq<Row>, data: seq<Record>, dims: seq<Dim>, m: Measure, kind: AggKind)
    requires IsLevel(rows, data, dims, m, kind)
    ensures forall i :: 0 <= i < |rows| ==> rows[i].count == Count(KeysOf(data, dims), rows[i].key)
  {
    forall i | 0 <= i < |rows| ensures rows[i].count == Count(KeysOf(data, dims), rows[i].key) {
      assert RowDescribes(rows[i], data, dims, m, kind);
    }
  }

  /** The only strictly sorted arrangement of the keys 5, 5, 6, 7, 7 without repeats is 5, 6, 7. */
  lemma QualityKeyOrder(keys: seq<Key>, ks: seq<Key>)
    requires ks == [[Num(5.0)], [Num(5.0)], [Num(6.0)], [Num(7.0)], [Num(7.0)]]
    requires StrictlySorted(keys, KeyLess)
    requires forall k :: k in keys <==> k in ks
    ensures keys == [[Num(5.0)], [Num(6.0)], [Num(7.0)]]
  {
    var expected := [[Num(5.0)], [Num(6.0)], [Num(7.0)]];
    KeyOrder();
    assert StrictlySorted(expected, KeyLess);
    SortedUnique(keys, expected, KeyLess);
  }

  /** The keys of five records of qualities 5, 5, 6, 7, 7 grouped by quality. */
  lemma QualityKeys(data: seq<Record>) returns (ks: seq<Key>)
    requires |data| == 5
    requires data[0].sample.quality == 5 && data[1].sample.quality == 5 && data[2].sample.quality == 6
    requires data[3].sample.quality == 7 && data[4].sample.quality == 7
    ensures ks == KeysOf(data, [Col(Quality)])
    ensures ks == [[Num(5.0)], [Num(5.0)], [Num(6.0)], [Num(7.0)], [Num(7.0)]]
  {
    ks := KeysOf(data, [Col(Quality)]);
    forall i | 0 <= i < 5 ensures ks[i] == [Num(data[i].sample.quality as real)] {
      assert KeyOf(data[i], [Col(Quality)]) == [Num(data[i].sample.quality as real)];
    }
  }

  lemma QualityCounts(ks: seq<Key>)
    requires ks == [[Num(5.0)], [Num(5.0)], [Num(6.0)], [Num(7.0)], [Num(7.0)]]
    ensures Count(ks, [Num(5.0)]) == 2 && Count(ks, [Num(6.0)]) == 1 && Count(ks, [Num(7.0)]) == 2
  {
    assert ks == [ks[0], ks[1]] + [ks[2]] + [ks[3], ks[4]];
    CountAppend([ks[0], ks[1]] + [ks[2]], [ks[3], ks[4]], [Num(5.0)]);
    CountAppend([ks[0], ks[1]] + [ks[2]], [ks[3], ks[4]], [Num(6.0)]);
    CountAppend([ks[0], ks[1]] + [ks[2]], [ks[3], ks[4]], [Num(7.0)]);
    CountAppend([ks[0], ks[1]], [ks[2]], [Num(5.0)]);
    CountAppend([ks[0], ks[1]], [ks[2]], [Num(6.0)]);
    CountAppend([ks[0], ks[1]], [ks[2]], [Num(7.0)]);
  }

  /** Truncates a key to its first `n` values. */
  function Prefix(k: Key, n: nat): Key
  {
    if n <= |k| then k[..n] else k
  }

  /**
   * Grouping by a longer dimension list refines the grouping by its prefix:
   * every finer group lies inside the coarser group its key truncates to.
   */
  lemma GroupRefines(data: seq<Record>, dims: seq<Dim>, finer: seq<Dim>, k: Key)
    requires |dims| <= |finer| && finer[..|dims|] == dims
    ensures forall r :: r in Group(data, finer, k) ==> r in Group(data, dims, Prefix(k, |dims|))
  {
    forall r | r in Group(data, finer, k) ensures r in Group(data, dims, Prefix(k, |dims|)) {
      KeyOfPrefix(r, dims, finer);
    }
  }

  /** The coarse key of record `i` is the truncation of its finer key. */
  lemma CoarseKeyIsTruncation(data: seq<Record>, dims: seq<Dim>, finer: seq<Dim>, i: nat)
    requires |dims| <= |finer| && finer[..|dims|] == dims
    requires i < |data|
    ensures KeysOf(data, finer)[i] in KeysOf(data, finer)
    ensures KeysOf(data, dims)[i] == Prefix(KeysOf(data, finer)[i], |dims|)
  {
    KeyOfPrefix(data[i], dims, finer);
  }

  /** Every key of the coarse grouping is the truncation of some key of the finer one. */
  lemma CoarseKeysAreTruncations(data: seq<Record>, dims: seq<Dim>, finer: seq<Dim>, fineKeys: seq<Key>)
    requires |dims| <= |finer| && finer[..|dims|] == dims
    requires forall k :: k in KeysOf(data, finer) ==> k in fineKeys
    ensures forall x :: x in KeysOf(data, dims) ==>
      x in seq(|fineKeys|, i requires 0 <= i < |fineKeys| => Prefix(fineKeys[i], |dims|))
  {
    var coarseKeys := KeysOf(data, dims);
    var truncated := seq(|fineKeys|, i requires 0 <= i < |fineKeys| => Prefix(fineKeys[i], |dims|));
    forall x | x in coarseKeys ensures x in truncated {
      var i :| 0 <= i < |coarseKeys| && coarseKeys[i] == x;
      CoarseKeyIsTruncation(data, dims, finer, i);
      var j :| 0 <= j < |fineKeys| && fineKeys[j] == KeysOf(data, finer)[i];
      assert truncated[j] == x;
    }
  }

  /** So a finer level never has fewer rows than a coarser one. */
  lemma LevelRefines(coarse: seq<Row>, fine: seq<Row>, data: seq<Record>, dims: seq<Dim>, finer: seq<Dim>,
                     m: Measure, kind: AggKind, m': Measure, kind': AggKind)
    requires |dims| <= |finer| && finer[..|dims|] == dims
    requires IsLevel(coarse, data, dims, m, kind)
    requires IsLevel(fine, data, finer, m', kind')
    ensures |coarse| <= |fine|
  {
    SortedKeysRefine(RowKeys(coarse), RowKeys(fine), data, dims, finer);
  }

  /** The sorted keys of a grouping are at most as many as those of a finer grouping. */
  lemma SortedKeysRefine(ks1: seq<Key>, ks2: seq<Key>, data: seq<Record>, dims: seq<Dim>, finer: seq<Dim>)
    requires |dims| <= |finer| && finer[..|dims|] == dims
    requires StrictlySorted(ks1, KeyLess)
    requires forall k :: k in ks1 <==> k in KeysOf(data, dims)
    requires forall k :: k in ks2 <==> k in KeysOf(data, finer)
    ensures |ks1| <= |ks2|
  {
    CoarseKeysAreTruncations(data, dims, finer, ks2);
    var truncated := seq(|ks2|, i requires 0 <= i < |ks2| => Prefix(ks2[i], |dims|));
    assert forall x :: x in ks1 ==> x in truncated;
    KeyOrder();
    SortedDistinct(ks1, KeyLess);
    DistinctWithin(ks1, truncated);
  }

  /** LevelRefines for the outcome of two levels computed with the same aggregation. */
  lemma OutcomeRefines(coarse: seq<Row>, fine: seq<Row>, data: seq<Record>, dims: seq<Dim>, finer: seq<Dim>,
                       m: Measure, kind: Option<AggKind>)
    requires |dims| <= |finer| && finer[..|dims|] == dims
    requires LevelOutcome(coarse, data, dims, m, kind)
    requires LevelOutcome(fine, data, finer, m, kind)
    ensures |coarse| <= |fine|
  {
    if kind.Some? {
      LevelRefines(coarse, fine, data, dims, finer, m, kind.value, m, kind.value);
    }
  }

  lemma RollupPrefixSnoc(levels: seq<seq<Row>>, rows: seq<Row>, data: seq<Record>, hierarchy: seq<Dim>,
                         m: Measure, kind: Option<AggKind>)
    requires |levels| < |hierarchy|
    requires forall j :: 0 <= j < |levels| ==> LevelOutcome(levels[j], data, [hierarchy[j]], m, kind)
    requires LevelOutcome(rows, data, [hierarchy[|levels|]], m, kind)
    ensures forall j :: 0 <= j < |levels| + 1 ==> LevelOutcome((levels + [rows])[j], data, [hierarchy[j]], m, kind)
  {
    forall j | 0 <= j < |levels| + 1 ensures LevelOutcome((levels + [rows])[j], data, [hierarchy[j]], m, kind) {
      if j < |levels| {
        assert (levels + [rows])[j] == levels[j];
      }
    }
  }

  /**
   * `levels` are the first levels of a drilldown over `allDims`: level j
   * groups by the first j + 1 dimensions, and no level has fewer rows than
   * the one before it.
   */
  ghost predicate DrilldownPrefix(levels: seq<seq<Row>>, data: seq<Record>, allDims: seq<Dim>, m: Measure, kind: Option<AggKind>)
  {
    && |levels| <= |allDims|
    && (forall j :: 0 <= j < |levels| ==> LevelOutcome(levels[j], data, allDims[..j + 1], m, kind))
    && (forall j :: 0 < j < |levels| ==> |levels[j - 1]| <= |levels[j]|)
  }

  /** Adding the next level keeps a drilldown prefix one. */
  lemma DrilldownPrefixSnoc(levels: seq<seq<Row>>, rows: seq<Row>, data: seq<Record>, allDims: seq<Dim>,
                            m: Measure, kind: Option<AggKind>)
    requires DrilldownPrefix(levels, data, allDims, m, kind)
    requires |levels| < |allDims|
    requires LevelOutcome(rows, data, allDims[..|levels| + 1], m, kind)
    ensures DrilldownPrefix(levels + [rows], data, allDims, m, kind)
  {
    var n := |levels|;
    if n > 0 {
      assert allDims[..n + 1][..n] == allDims[..n];
      OutcomeRefines(levels[n - 1], rows, data, allDims[..n], allDims[..n + 1], m, kind);
    }
    OutcomesSnoc(levels, rows, data, allDims, m, kind);
    SizesSnoc(levels, rows);
  }

  lemma OutcomesSnoc(levels: seq<seq<Row>>, rows: seq<Row>, data: seq<Record>, allDims: seq<Dim>,
                     m: Measure, kind: Option<AggKind>)
    requires |levels| < |allDims|
    requires forall j :: 0 <= j < |levels| ==> LevelOutcome(levels[j], data, allDims[..j + 1], m, kind)
    requires LevelOutcome(rows, data, allDims[..|levels| + 1], m, kind)
    ensures forall j :: 0 <= j < |levels| + 1 ==> LevelOutcome((levels + [rows])[j], data, allDims[..j + 1], m, kind)
  {
    forall j | 0 <= j < |levels| + 1 ensures LevelOutcome((levels + [rows])[j], data, allDims[..j + 1], m, kind) {
      if j < |levels| {
        assert (levels + [rows])[j] == levels[j];
      }
    }
  }

  lemma SizesSnoc(levels: seq<seq<Row>>, rows: seq<Row>)
    requires forall j :: 0 < j < |levels| ==> |levels[j - 1]| <= |levels[j]|
    requires |levels| > 0 ==> |levels[|levels| - 1]| <= |rows|
    ensures forall j :: 0 < j < |levels| + 1 ==> |(levels + [rows])[j - 1]| <= |(levels + [rows])[j]|
  {
  }
}
