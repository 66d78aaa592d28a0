/**
 * Strict total orders, the lexicographic order they induce on sequences (how
 * Python compares strings and tuples), and sorting of group keys.
 */
module Ordering {
  import opened Counting

  /** `less` is irreflexive, transitive and total. */
  ghost predicate StrictTotalOrder<T(!new)>(less: (T, T) -> bool)
  {
    && (forall x :: !less(x, x))
    && (forall x, y, z :: less(x, y) && less(y, z) ==> less(x, z))
    && (forall x, y :: x != y ==> less(x, y) || less(y, x))
  }

  /** Every element is `less` than every later one. */
  ghost predicate StrictlySorted<T(!new)>(xs: seq<T>, less: (T, T) -> bool)
  {
    forall i, j :: 0 <= i < j < |xs| ==> less(xs[i], xs[j])
  }

  /**
   * Lexicographic comparison: the first position where the sequences differ
   * decides, and a proper prefix comes first.
   */
  function LexLess<T(!new)>(a: seq<T>, b: seq<T>, less: (T, T) -> bool): bool
    decreases |a|
  {
    if |b| == 0 then false
    else if |a| == 0 then true
    else if less(a[0], b[0]) then true
    else if less(b[0], a[0]) then false
    else LexLess(a[1..], b[1..], less)
  }

  lemma {:induction false} LexIrreflexive<T(!new)>(a: seq<T>, less: (T, T) -> bool)
    requires StrictTotalOrder(less)
    ensures !LexLess(a, a, less)
    decreases |a|
  {
    if |a| > 0 {
      LexIrreflexive(a[1..], less);
    }
  }

  lemma {:induction false} LexTransitive<T(!new)>(a: seq<T>, b: seq<T>, c: seq<T>, less: (T, T) -> bool)
    requires StrictTotalOrder(less)
    requires LexLess(a, b, less) && LexLess(b, c, less)
    ensures LexLess(a, c, less)
    decreases |a|
  {
    if |a| > 0 && !less(a[0], b[0]) && !less(b[0], c[0]) {
      assert a[0] == b[0] && b[0] == c[0];
      LexTransitive(a[1..], b[1..], c[1..], less);
    }
  }

  lemma {:induction false} LexTotal<T(!new)>(a: seq<T>, b: seq<T>, less: (T, T) -> bool)
    requires StrictTotalOrder(less)
    requires a != b
    ensures LexLess(a, b, less) || LexLess(b, a, less)
    decreases |a|
  {
    if |a| > 0 && |b| > 0 && a[0] == b[0] {
      assert a == [a[0]] + a[1..] && b == [b[0]] + b[1..];
      LexTotal(a[1..], b[1..], less);
    }
  }

  /** The lexicographic extension of a strict total order is one too. */
  lemma LexOrder<T(!new)>(less: (T, T) -> bool)
    requires StrictTotalOrder(less)
    ensures forall a :: !LexLess(a, a, less)
    ensures forall a, b, c :: LexLess(a, b, less) && LexLess(b, c, less) ==> LexLess(a, c, less)
    ensures forall a, b :: a != b ==> LexLess(a, b, less) || LexLess(b, a, less)
  {
    forall a ensures !LexLess(a, a, less) {
      LexIrreflexive(a, less);
    }
    forall a, b, c | LexLess(a, b, less) && LexLess(b, c, less) ensures LexLess(a, c, less) {
      LexTransitive(a, b, c, less);
    }
    forall a, b | a != b ensures LexLess(a, b, less) || LexLess(b, a, less) {
      LexTotal(a, b, less);
    }
  }

  /** A strictly sorted sequence has no repeated element. */
  lemma SortedDistinct<T(!new)>(xs: seq<T>, less: (T, T) -> bool)
    requires StrictTotalOrder(less)
    requires StrictlySorted(xs, less)
    ensures Distinct(xs)
  {
  }

  /** Puts `x` at its place in the strictly sorted `xs` (unless it is already there). */
  function Insert<T(!new)>(xs: seq<T>, x: T, less: (T, T) -> bool): (r: seq<T>)
    requires StrictTotalOrder(less)
    requires StrictlySorted(xs, less)
    ensures StrictlySorted(r, less)
    ensures forall y :: y in r <==> y in xs || y == x
    decreases |xs|
  {
    if |xs| == 0 then [x]
    else if less(x, xs[0]) then
      assert forall j :: 0 < j < |xs| ==> less(xs[0], xs[j]);
      [x] + xs
    else if less(xs[0], x) then
      var rest := Insert(xs[1..], x, less);
      assert forall y :: y in rest ==> less(xs[0], y) by {
        forall y | y in rest ensures less(xs[0], y) {
          if y != x {
            var j :| 0 <= j < |xs[1..]| && xs[1..][j] == y;
            assert xs[j + 1] == y;
          }
        }
      }
      [xs[0]] + rest
    else
      assert x == xs[0];
      xs
  }

  /** Sorts into strictly ascending order, keeping exactly the elements of `xs`. */
  function Sort<T(!new)>(xs: seq<T>, less: (T, T) -> bool): (r: seq<T>)
    requires StrictTotalOrder(less)
    ensures StrictlySorted(r, less)
    ensures forall y :: y in r <==> y in xs
    decreases |xs|
  {
    if |xs| == 0 then []
    else
      var init := xs[..|xs| - 1];
      assert xs == init + [xs[|xs| - 1]];
      Insert(Sort(init, less), xs[|xs| - 1], less)
  }

  /**
   * A set of keys has only one strictly sorted arrangement, so a sorted result
   * does not depend on the order in which its keys were found.
   */
  lemma {:induction false} SortedUnique<T(!new)>(a: seq<T>, b: seq<T>, less: (T, T) -> bool)
    requires StrictTotalOrder(less)
    requires StrictlySorted(a, less) && StrictlySorted(b, less)
    requires forall y :: y in a <==> y in b
    ensures a == b
    decreases |a|
  {
    if |a| > 0 {
      assert a[0] in b;
      assert b[0] in a;
      assert a[0] == b[0];
      forall y ensures y in a[1..] <==> y in b[1..] {
        if y in a[1..] {
          var i :| 0 <= i < |a[1..]| && a[1..][i] == y;
          assert less(a[0], a[i + 1]);
          assert y in b;
        }
        if y in b[1..] {
          var j :| 0 <= j < |b[1..]| && b[1..][j] == y;
          assert less(b[0], b[j + 1]);
          assert y in a;
        }
      }
      SortedUnique(a[1..], b[1..], less);
      assert a == [a[0]] + a[1..] && b == [b[0]] + b[1..];
    }
  }
}
