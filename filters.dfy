/**
 * The two filters of the cube: slice (one dimension equal to a value) and
 * dice (every condition of a dictionary holds, a condition being an exact
 * value or a two-element inclusive range).
 */
module Filters {
  import opened Wrappers
  import opened Records
  import opened Grouping
  import opened Counting

  /** The records whose field `dim` equals `value`, in store order. */
  function SliceFilter(data: seq<Record>, dim: Dim, value: Value): (kept: seq<Record>)
    ensures |kept| <= |data|
    ensures forall r :: r in kept <==> r in data && ValueOf(r, dim) == value
  {
    if |data| == 0 then []
    else
      var init, last := data[..|data| - 1], data[|data| - 1];
      assert data == init + [last];
      SliceFilter(init, dim, value) + (if ValueOf(last, dim) == value then [last] else [])
  }

  lemma SliceFilterSnoc(data: seq<Record>, r: Record, dim: Dim, value: Value)
    ensures SliceFilter(data + [r], dim, value)
      == SliceFilter(data, dim, value) + (if ValueOf(r, dim) == value then [r] else [])
  {
    assert (data + [r])[..|data|] == data;
  }

  /** Slicing distributes over concatenation: the kept records stay in store order. */
  lemma {:induction false} SliceFilterAppend(a: seq<Record>, b: seq<Record>, dim: Dim, value: Value)
    ensures SliceFilter(a + b, dim, value) == SliceFilter(a, dim, value) + SliceFilter(b, dim, value)
    decreases |b|
  {
    if |b| == 0 {
      assert a + b == a;
    } else {
      var init, last := b[..|b| - 1], b[|b| - 1];
      var extra := if ValueOf(last, dim) == value then [last] else [];
      var sa, si := SliceFilter(a, dim, value), SliceFilter(init, dim, value);
      calc {
        SliceFilter(a + b, dim, value);
        { assert a + b == (a + init) + [last]; }
        SliceFilter((a + init) + [last], dim, value);
        { SliceFilterSnoc(a + init, last, dim, value); }
        SliceFilter(a + init, dim, value) + extra;
        { SliceFilterAppend(a, init, dim, value); }
        (sa + si) + extra;
        sa + (si + extra);
        { assert b == init + [last]; SliceFilterSnoc(init, last, dim, value); }
        sa + SliceFilter(b, dim, value);
      }
    }
  }

  /** A slice is the group of its value in the grouping by its one dimension. */
  lemma {:induction false} SliceIsGroup(data: seq<Record>, dim: Dim, value: Value)
    ensures SliceFilter(data, dim, value) == Group(data, [dim], [value])
    decreases |data|
  {
    if |data| > 0 {
      var last := data[|data| - 1];
      SliceIsGroup(data[..|data| - 1], dim, value);
      assert KeyOf(last, [dim]) == [ValueOf(last, dim)];
      assert KeyOf(last, [dim]) == [value] <==> ValueOf(last, dim) == value;
    }
  }

  /**
   * A dice condition as the caller passes it: a scalar, or a list or tuple of
   * values. Only a two-element list or tuple is a range.
   */
  datatype Condition = Exact(value: Value) | Sequence(items: seq<Value>)

  /** One entry `dim: condition` of the conditions dictionary. */
  datatype Clause = Clause(dim: Dim, condition: Condition)

  /**
   * Whether a record meets one condition; None when the range comparison
   * raises a TypeError (a number compared with a string). The chained
   * comparison `lo <= v <= hi` does not evaluate `v <= hi` once `lo <= v` fails.
   */
  function Holds(r: Record, c: Clause): (h: Option<bool>)
    ensures h.None? <==>
      && c.condition.Sequence? && |c.condition.items| == 2
      && var lo, v, hi := c.condition.items[0], ValueOf(r, c.dim), c.condition.items[1];
         lo.Num? != v.Num? || (AtMost(lo, v) == Some(true) && v.Num? != hi.Num?)
  {
    var v := ValueOf(r, c.dim);
    match c.condition
    case Exact(x) => Some(v == x)
    case Sequence(items) =>
      if |items| == 2 then
        match AtMost(items[0], v)
        case None => None
        case Some(false) => Some(false)
        case Some(true) => AtMost(v, items[1])
      else
        // a list of any other length is compared with `!=` and never equals a field value
        Some(false)
  }

  /** On values of one kind, a range condition is the inclusive interval test. */
  lemma RangeHolds(r: Record, dim: Dim, lo: Value, hi: Value)
    requires lo.Num? == ValueOf(r, dim).Num? == hi.Num?
    ensures var v := ValueOf(r, dim);
      Holds(r, Clause(dim, Sequence([lo, hi])))
        == Some((lo == v || ValueLess(lo, v)) && (v == hi || ValueLess(v, hi)))
  {
    AtMostIsLessOrEqual(lo, ValueOf(r, dim));
    AtMostIsLessOrEqual(ValueOf(r, dim), hi);
  }

  /**
   * The conditions tested in dictionary order, stopping at the first one that
   * fails (or raises).
   */
  function Matches(r: Record, conds: seq<Clause>): (m: Option<bool>)
    ensures m == Some(true) <==> forall i :: 0 <= i < |conds| ==> Holds(r, conds[i]) == Some(true)
  {
    if |conds| == 0 then Some(true)
    else
      match Holds(r, conds[0])
      case None => None
      case Some(false) => Some(false)
      case Some(true) =>
        var m := Matches(r, conds[1..]);
        assert forall i :: 1 <= i < |conds| ==> conds[i] == conds[1..][i - 1];
        m
  }

  /**
   * The first condition that does not hold decides: the record is rejected, or
   * the dice raises, whatever the later conditions would do.
   */
  lemma {:induction false} FirstFailureDecides(r: Record, conds: seq<Clause>, i: nat)
    requires i < |conds|
    requires forall j :: 0 <= j < i ==> Holds(r, conds[j]) == Some(true)
    requires Holds(r, conds[i]) != Some(true)
    ensures Matches(r, conds) == Holds(r, conds[i])
    decreases i
  {
    if i > 0 {
      FirstFailureDecides(r, conds[1..], i - 1);
    }
  }

  /**
   * The records of `data` meeting every condition, in store order; None when
   * testing some record raises.
   */
  function DiceFilter(data: seq<Record>, conds: seq<Clause>): (res: Option<seq<Record>>)
    ensures res.None? <==> exists i :: 0 <= i < |data| && Matches(data[i], conds).None?
    ensures res.Some? ==> |res.value| <= |data|
    ensures res.Some? ==> forall r :: r in res.value <==> r in data && Matches(r, conds) == Some(true)
  {
    if |data| == 0 then Some([])
    else
      var init, last := data[..|data| - 1], data[|data| - 1];
      assert data == init + [last];
      assert forall i :: 0 <= i < |init| ==> init[i] == data[i];
      match DiceFilter(init, conds)
      case None => None
      case Some(kept) =>
        match Matches(last, conds)
        case None => None
        case Some(b) => Some(if b then kept + [last] else kept)
  }

  /** A matching record is kept as many times as the store holds it (duplicates included); any other, never. */
  lemma {:induction false} DiceFilterCount(data: seq<Record>, conds: seq<Clause>, r: Record)
    requires DiceFilter(data, conds).Some?
    ensures Count(DiceFilter(data, conds).value, r) == (if Matches(r, conds) == Some(true) then Count(data, r) else 0)
    decreases |data|
  {
    if |data| > 0 {
      var init, last := data[..|data| - 1], data[|data| - 1];
      DiceFilterCount(init, conds, r);
      var kept := DiceFilter(init, conds).value;
      CountAppend(kept, [last], r);
      CountAppend(init, [last], r);
      assert data == init + [last];
    }
  }

  /**
   * Dicing distributes over concatenation: the kept records of `a + b` are
   * those of `a` followed by those of `b`, so dice keeps store order; and it
   * raises iff either part raises.
   */
  lemma {:induction false} DiceFilterAppend(a: seq<Record>, b: seq<Record>, conds: seq<Clause>)
    ensures DiceFilter(a + b, conds)
      == if DiceFilter(a, conds).Some? && DiceFilter(b, conds).Some?
         then Some(DiceFilter(a, conds).value + DiceFilter(b, conds).value)
         else None
    decreases |b|
  {
    if |b| == 0 {
      assert a + b == a;
      assert DiceFilter(b, conds) == Some([]);
      if DiceFilter(a, conds).Some? {
        assert DiceFilter(a, conds).value + [] == DiceFilter(a, conds).value;
      }
    } else {
      var init, last := b[..|b| - 1], b[|b| - 1];
      assert b == init + [last];
      assert a + b == (a + init) + [last];
      DiceFilterAppend(a, init, conds);
      DiceFilterSnoc(a + init, last, conds);
      DiceFilterSnoc(init, last, conds);
      var fa, fi, ml := DiceFilter(a, conds), DiceFilter(init, conds), Matches(last, conds);
      if fa.Some? && fi.Some? && ml.Some? {
        var extra := if ml.value then [last] else [];
        assert (if ml.value then fi.value + [last] else fi.value) == fi.value + extra;
        assert (if ml.value then (fa.value + fi.value) + [last] else fa.value + fi.value) == (fa.value + fi.value) + extra;
        assert (fa.value + fi.value) + extra == fa.value + (fi.value + extra);
      }
    }
  }

  /** Dicing one more record at the end: it is appended exactly when it matches. */
  lemma DiceFilterSnoc(d: seq<Record>, x: Record, conds: seq<Clause>)
    ensures DiceFilter(d + [x], conds)
      == match DiceFilter(d, conds)
         case None => None
         case Some(kept) =>
           match Matches(x, conds)
           case None => None
           case Some(b) => Some(if b then kept + [x] else kept)
  {
    assert (d + [x])[..|d|] == d;
  }

  /** A record whose test raises makes the whole dice raise. */
  lemma DiceFilterRaises(data: seq<Record>, i: nat, conds: seq<Clause>)
    requires i < |data|
    requires Matches(data[i], conds).None?
    ensures DiceFilter(data, conds).None?
  {
  }

  /** A dice with the single exact condition `{dim: value}` is the slice on `dim`. */
  lemma {:induction false} SliceIsDice(data: seq<Record>, dim: Dim, value: Value)
    ensures DiceFilter(data, [Clause(dim, Exact(value))]) == Some(SliceFilter(data, dim, value))
    decreases |data|
  {
    if |data| > 0 {
      var c := Clause(dim, Exact(value));
      var init, last := data[..|data| - 1], data[|data| - 1];
      SliceIsDice(init, dim, value);
      assert [c][1..] == [];
      assert Matches(last, [c]) == Some(ValueOf(last, dim) == value);
      var kept := SliceFilter(init, dim, value);
      assert kept + [] == kept;
      assert SliceFilter(data, dim, value) == kept + (if ValueOf(last, dim) == value then [last] else []);
    }
  }

  /** The range [6, 8] on quality admits quality 7 and rejects quality 9. */
  lemma QualityRangeExample(r: Record)
    ensures var c := Clause(Col(Quality), Sequence([Num(6.0), Num(8.0)]));
      (r.sample.quality == 7 ==> Holds(r, c) == Some(true))
      && (r.sample.quality == 9 ==> Holds(r, c) == Some(false))
  {
  }
}
