/**
 * The two orders the catalog folds put their groups in: first-seen order
 * (indexes) and byte-wise sorted order (foreign keys, through
 * `sort.Strings`).
 */
module Grouping {

  predicate NoDuplicates(xs: seq<string>) {
    forall i, j :: 0 <= i < j < |xs| ==> xs[i] != xs[j]
  }

  /** The distinct elements of `xs`, each where it first appears. */
  function DistinctInOrder(xs: seq<string>): (r: seq<string>)
    ensures NoDuplicates(r)
    ensures forall x :: x in r <==> x in xs
    ensures |r| <= |xs|
  {
    if xs == [] then [] else
      var prefix, last := xs[..|xs| - 1], xs[|xs| - 1];
      assert xs == prefix + [last];
      var d := DistinctInOrder(prefix);
      if last in d then d else d + [last]
  }

  /** Where `x` first occurs in `xs`. */
  function FirstIndex(xs: seq<string>, x: string): (i: nat)
    requires x in xs
    ensures i < |xs| && xs[i] == x && x !in xs[..i]
  {
    if xs[0] == x then 0 else 1 + FirstIndex(xs[1..], x)
  }

  lemma FirstIndexPrefix(xs: seq<string>, y: string, x: string)
    requires x in xs
    ensures x in xs + [y] && FirstIndex(xs + [y], x) == FirstIndex(xs, x)
  {
    var i := FirstIndex(xs, x);
    var j := FirstIndex(xs + [y], x);
    assert (xs + [y])[i] == x;
    assert (xs + [y])[..j] == xs[..j] by {
      assert j <= i;
    }
  }

  /** The groups come in the order of their first appearance in `xs`. */
  lemma {:induction false} DistinctInOrderFirstSeen(xs: seq<string>)
    ensures forall i, j :: 0 <= i < j < |DistinctInOrder(xs)| ==>
              FirstIndex(xs, DistinctInOrder(xs)[i]) < FirstIndex(xs, DistinctInOrder(xs)[j])
  {
    if xs != [] {
      var prefix, last := xs[..|xs| - 1], xs[|xs| - 1];
      assert xs == prefix + [last];
      DistinctInOrderFirstSeen(prefix);
      var d, r := DistinctInOrder(prefix), DistinctInOrder(xs);
      forall x | x in prefix ensures FirstIndex(xs, x) == FirstIndex(prefix, x) {
        FirstIndexPrefix(prefix, last, x);
      }
      if last !in d {
        assert FirstIndex(xs, last) == |prefix| by {
          assert last !in prefix;
          assert xs[..|prefix|] == prefix;
        }
        forall i | 0 <= i < |d| ensures FirstIndex(xs, r[i]) < FirstIndex(xs, r[|d|]) {
          assert r[i] == d[i] && d[i] in prefix;
        }
      }
    }
  }

  /** Appending one element: it opens a new group at the end unless it was seen before. */
  lemma DistinctInOrderSnoc(xs: seq<string>, x: string)
    ensures DistinctInOrder(xs + [x]) == if x in xs then DistinctInOrder(xs) else DistinctInOrder(xs) + [x]
  {
    assert (xs + [x])[..|xs|] == xs;
  }

  /** Byte-wise lexicographic order on strings, the order `sort.Strings` uses. */
  predicate LessEq(a: string, b: string) {
    a == [] || (b != [] && (a[0] < b[0] || (a[0] == b[0] && LessEq(a[1..], b[1..]))))
  }

  lemma LessEqTotal(a: string, b: string)
    ensures LessEq(a, b) || LessEq(b, a)
  {
  }

  lemma {:induction false} LessEqAntisymmetric(a: string, b: string)
    requires LessEq(a, b) && LessEq(b, a)
    ensures a == b
  {
    if a != [] && b != [] {
      LessEqAntisymmetric(a[1..], b[1..]);
      assert a == [a[0]] + a[1..] && b == [b[0]] + b[1..];
    }
  }

  lemma {:induction false} LessEqTransitive(a: string, b: string, c: string)
    requires LessEq(a, b) && LessEq(b, c)
    ensures LessEq(a, c)
  {
    if a != [] && b != [] && c != [] && a[0] == b[0] == c[0] {
      LessEqTransitive(a[1..], b[1..], c[1..]);
    }
  }

  predicate Sorted(s: seq<string>) {
    forall i, j :: 0 <= i < j < |s| ==> LessEq(s[i], s[j])
  }

  /** Inserts `x` into a sorted list before the first element it does not follow. */
  function Insert(x: string, s: seq<string>): (r: seq<string>)
    requires Sorted(s)
    ensures Sorted(r)
    ensures multiset(r) == multiset(s) + multiset{x}
  {
    if s == [] then [x]
    else if LessEq(x, s[0]) then
      forall j | 0 <= j < |s| ensures LessEq(x, s[j]) {
        if j > 0 { LessEqTransitive(x, s[0], s[j]); }
      }
      [x] + s
    else
      var rest := Insert(x, s[1..]);
      assert s == [s[0]] + s[1..];
      LessEqTotal(x, s[0]);
      forall y | y in rest ensures LessEq(s[0], y) {
        assert y in multiset(rest);
        if y != x {
          assert y in multiset(s[1..]);
          assert y in s[1..];
        }
      }
      [s[0]] + rest
  }

  /** `sort.Strings`: a sorted permutation of its input. */
  function SortStrings(xs: seq<string>): (r: seq<string>)
    ensures Sorted(r)
    ensures multiset(r) == multiset(xs)
  {
    if xs == [] then []
    else
      assert xs == [xs[0]] + xs[1..];
      Insert(xs[0], SortStrings(xs[1..]))
  }

  /** A list without repeats has every element at most once in its multiset. */
  lemma {:induction false} NoDuplicatesCounts(xs: seq<string>)
    requires NoDuplicates(xs)
    ensures forall x :: multiset(xs)[x] <= 1
  {
    if xs != [] {
      var prefix, last := xs[..|xs| - 1], xs[|xs| - 1];
      assert xs == prefix + [last];
      NoDuplicatesCounts(prefix);
      assert last !in prefix;
    }
  }

  /** An element occurring twice is counted twice. */
  lemma CountsNoDuplicates(xs: seq<string>)
    requires forall x :: multiset(xs)[x] <= 1
    ensures NoDuplicates(xs)
  {
    forall i, j | 0 <= i < j < |xs| ensures xs[i] != xs[j] {
      var x := xs[j];
      assert xs == xs[..j] + [x] + xs[j + 1..];
      assert multiset(xs)[x] == multiset(xs[..j])[x] + 1 + multiset(xs[j + 1..])[x];
      assert x !in multiset(xs[..j]);
      assert xs[i] in xs[..j];
    }
  }

  /**
   * Sorting a list without repeats: the result is strictly increasing and
   * holds exactly the same elements.
   */
  lemma SortDistinct(xs: seq<string>)
    requires NoDuplicates(xs)
    ensures var r := SortStrings(xs);
            && |r| == |xs|
            && (forall x :: x in r <==> x in xs)
            && forall i, j :: 0 <= i < j < |r| ==> LessEq(r[i], r[j]) && r[i] != r[j]
  {
    var r := SortStrings(xs);
    assert |r| == |multiset(r)| == |multiset(xs)| == |xs|;
    forall x ensures x in r <==> x in xs {
      assert x in r <==> x in multiset(r);
      assert x in xs <==> x in multiset(xs);
    }
    NoDuplicatesCounts(xs);
    CountsNoDuplicates(r);
  }
}
