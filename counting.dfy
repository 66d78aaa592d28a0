/**
 * Occurrence counts of keys in a sequence, and the fact that the counts over a
 * list of distinct keys covering the sequence add up to its length: the
 * arithmetic behind "every record falls in exactly one group".
 */
module Counting {

  /** Elements pairwise different. */
  ghost predicate Distinct<T>(xs: seq<T>)
  {
    forall i, j :: 0 <= i < j < |xs| ==> xs[i] != xs[j]
  }

  /** Number of positions of `xs` holding `x`. */
  function Count<T(==)>(xs: seq<T>, x: T): (n: nat)
    ensures n <= |xs|
    ensures n > 0 <==> x in xs
  {
    if |xs| == 0 then 0
    else Count(xs[..|xs| - 1], x) + (if xs[|xs| - 1] == x then 1 else 0)
  }

  /** Sum, over the keys `ks`, of how often each occurs in `xs`. */
  function SumCounts<T(==)>(xs: seq<T>, ks: seq<T>): nat
  {
    if |ks| == 0 then 0
    else SumCounts(xs, ks[..|ks| - 1]) + Count(xs, ks[|ks| - 1])
  }

  lemma {:induction false} CountAppend<T>(xs: seq<T>, ys: seq<T>, x: T)
    ensures Count(xs + ys, x) == Count(xs, x) + Count(ys, x)
    decreases |ys|
  {
    if |ys| == 0 {
      assert xs + ys == xs;
    } else {
      assert (xs + ys)[..|xs + ys| - 1] == xs + ys[..|ys| - 1];
      CountAppend(xs, ys[..|ys| - 1], x);
    }
  }

  /** A key that occurs in a sequence of distinct keys occurs exactly once. */
  lemma {:induction false} CountDistinct<T>(ks: seq<T>, x: T)
    requires Distinct(ks)
    ensures Count(ks, x) == (if x in ks then 1 else 0)
    decreases |ks|
  {
    if |ks| > 0 {
      var init := ks[..|ks| - 1];
      assert ks == init + [ks[|ks| - 1]];
      assert Distinct(init);
      CountDistinct(init, x);
      if ks[|ks| - 1] == x {
        assert x !in init;
      }
    }
  }

  lemma {:induction false} SumCountsOfEmpty<T>(ks: seq<T>)
    ensures SumCounts([], ks) == 0
    decreases |ks|
  {
    if |ks| > 0 {
      SumCountsOfEmpty(ks[..|ks| - 1]);
    }
  }

  /** Appending one element to `xs` adds, to the sum of counts, how often it is among the keys. */
  lemma {:induction false} SumCountsSnoc<T>(xs: seq<T>, x: T, ks: seq<T>)
    ensures SumCounts(xs + [x], ks) == SumCounts(xs, ks) + Count(ks, x)
    decreases |ks|
  {
    if |ks| > 0 {
      var init := ks[..|ks| - 1];
      SumCountsSnoc(xs, x, init);
      CountAppend(xs, [x], ks[|ks| - 1]);
      assert (xs + [x])[..|xs + [x]| - 1] == xs;
    }
  }

  /**
   * Partition completeness: when the keys `ks` are distinct and every element
   * of `xs` is one of them, the counts of the keys add up to |xs|.
   */
  lemma {:induction false} CountsPartition<T>(xs: seq<T>, ks: seq<T>)
    requires Distinct(ks)
    requires forall x :: x in xs ==> x in ks
    ensures SumCounts(xs, ks) == |xs|
    decreases |xs|
  {
    if |xs| == 0 {
      SumCountsOfEmpty(ks);
    } else {
      var init, last := xs[..|xs| - 1], xs[|xs| - 1];
      assert xs == init + [last];
      forall x | x in init ensures x in ks {
        assert x in xs;
      }
      CountsPartition(init, ks);
      SumCountsSnoc(init, last, ks);
      CountDistinct(ks, last);
    }
  }

  /** A sequence of distinct elements has as many elements as its set. */
  lemma {:induction false} DistinctCardinality<T>(xs: seq<T>)
    requires Distinct(xs)
    ensures |set x | x in xs| == |xs|
    decreases |xs|
  {
    if |xs| > 0 {
      var init, last := xs[..|xs| - 1], xs[|xs| - 1];
      assert Distinct(init);
      DistinctCardinality(init);
      assert (set x | x in xs) == (set x | x in init) + {last} by {
        assert xs == init + [last];
      }
      assert last !in init;
    }
  }

  /** Any sequence has at least as many positions as distinct elements. */
  lemma {:induction false} SetCardinalityAtMostLength<T>(xs: seq<T>)
    ensures |set x | x in xs| <= |xs|
    decreases |xs|
  {
    if |xs| > 0 {
      var init, last := xs[..|xs| - 1], xs[|xs| - 1];
      SetCardinalityAtMostLength(init);
      assert (set x | x in xs) == (set x | x in init) + {last} by {
        assert xs == init + [last];
      }
    }
  }

  lemma SubsetCardinality<T>(s: set<T>, t: set<T>)
    requires s <= t
    ensures |s| <= |t|
  {
    assert t == s + (t - s);
  }

  /** Distinct elements all drawn from `ys` cannot outnumber `ys`. */
  lemma DistinctWithin<T>(xs: seq<T>, ys: seq<T>)
    requires Distinct(xs)
    requires forall x :: x in xs ==> x in ys
    ensures |xs| <= |ys|
  {
    DistinctCardinality(xs);
    SetCardinalityAtMostLength(ys);
    SubsetCardinality(set x | x in xs, set y | y in ys);
  }

  /** Each element of `xs` mapped to how often it occurs. */
  ghost function Tally<T>(xs: seq<T>): map<T, nat>
  {
    if |xs| == 0 then map[]
    else
      var before, x := Tally(xs[..|xs| - 1]), xs[|xs| - 1];
      before[x := (if x in before then before[x] else 0) + 1]
  }

  lemma {:induction false} TallyContents<T>(xs: seq<T>)
    ensures forall x :: x in Tally(xs) <==> x in xs
    ensures forall x :: x in Tally(xs) ==> Tally(xs)[x] == Count(xs, x)
    decreases |xs|
  {
    if |xs| > 0 {
      var init := xs[..|xs| - 1];
      TallyContents(init);
      assert xs == init + [xs[|xs| - 1]];
    }
  }

  /** Counting one more element increments its own entry (from 0 if absent) and no other. */
  lemma TallySnoc<T>(xs: seq<T>, x: T)
    ensures Tally(xs + [x]) == Tally(xs)[x := (if x in Tally(xs) then Tally(xs)[x] else 0) + 1]
  {
    assert (xs + [x])[..|xs|] == xs;
  }

  /** Taking one more element of a sequence appends that element. */
  lemma TakeSnoc<T>(s: seq<T>, j: nat)
    requires j < |s|
    ensures s[..j + 1] == s[..j] + [s[j]]
  {
  }
}
