/** Generic list transformations the store and the views are built from:
    `filter`, `map`, `reduce` with `+`, and the insertion-ordered `new Set(...)`. */
module Seqs {

  /** The elements of `s` that satisfy `keep`, in their original order (`Array.prototype.filter`). */
  function Filter<T(==)>(s: seq<T>, keep: T -> bool): (r: seq<T>)
    ensures |r| <= |s|
    ensures forall x :: x in r ==> x in s && keep(x)
    ensures forall x :: x in s && keep(x) ==> x in r
  {
    if s == [] then [] else (if keep(s[0]) then [s[0]] else []) + Filter(s[1..], keep)
  }

  /** Filtering distributes over concatenation: the kept elements keep their relative order. */
  lemma {:induction false} FilterConcat<T>(a: seq<T>, b: seq<T>, keep: T -> bool)
    ensures Filter(a + b, keep) == Filter(a, keep) + Filter(b, keep)
  {
    if a == [] {
      assert a + b == b;
    } else {
      assert (a + b)[1..] == a[1..] + b;
      FilterConcat(a[1..], b, keep);
    }
  }

  /** A filter that rejects nothing is the identity. */
  lemma {:induction false} FilterKeepsAll<T>(s: seq<T>, keep: T -> bool)
    requires forall x :: x in s ==> keep(x)
    ensures Filter(s, keep) == s
  {
    if s != [] {
      assert s[0] in s;
      assert forall x :: x in s[1..] ==> x in s;
      FilterKeepsAll(s[1..], keep);
    }
  }

  /** Filtering twice with the same condition is filtering once. */
  lemma FilterIdempotent<T>(s: seq<T>, keep: T -> bool)
    ensures Filter(Filter(s, keep), keep) == Filter(s, keep)
  {
    FilterKeepsAll(Filter(s, keep), keep);
  }

  /** The number of elements of `s` that satisfy `keep`. */
  function Count<T>(s: seq<T>, keep: T -> bool): nat
  {
    if s == [] then 0 else (if keep(s[0]) then 1 else 0) + Count(s[1..], keep)
  }

  /** The length of a filtered list is the number of elements that pass the filter. */
  lemma {:induction false} FilterLength<T>(s: seq<T>, keep: T -> bool)
    ensures |Filter(s, keep)| == Count(s, keep)
  {
    if s != [] {
      FilterLength(s[1..], keep);
    }
  }

  /** `f` applied to every element, in order (`Array.prototype.map`). */
  function Map<T(==), U(==)>(s: seq<T>, f: T -> U): (r: seq<U>)
    ensures |r| == |s|
    ensures forall i :: 0 <= i < |s| ==> r[i] == f(s[i])
    ensures forall x :: x in s ==> f(x) in r
  {
    if s == [] then [] else [f(s[0])] + Map(s[1..], f)
  }

  /** Every element of a mapped list is the image of some input element. */
  lemma MapImage<T, U>(s: seq<T>, f: T -> U, y: U)
    requires y in Map(s, f)
    ensures exists x :: x in s && f(x) == y
  {
    var i :| 0 <= i < |s| && Map(s, f)[i] == y;
    assert s[i] in s;
  }

  /** The sum of `f` over `s`. */
  function SumOf<T>(s: seq<T>, f: T -> int): int
  {
    if s == [] then 0 else f(s[0]) + SumOf(s[1..], f)
  }

  /** `s.reduce((sum, x) => sum + f(x), acc)`: a left-to-right running sum from `acc`. */
  function FoldSum<T>(s: seq<T>, acc: int, f: T -> int): int
  {
    if s == [] then acc else FoldSum(s[1..], acc + f(s[0]), f)
  }

  /** The running sum of `reduce` ends at the starting value plus the sum of the terms. */
  lemma {:induction false} FoldSumIsSum<T>(s: seq<T>, acc: int, f: T -> int)
    ensures FoldSum(s, acc, f) == acc + SumOf(s, f)
  {
    if s != [] {
      FoldSumIsSum(s[1..], acc + f(s[0]), f);
    }
  }

  /** A sum over a concatenation is the sum of the two sums. */
  lemma {:induction false} SumOfConcat<T>(a: seq<T>, b: seq<T>, f: T -> int)
    ensures SumOf(a + b, f) == SumOf(a, f) + SumOf(b, f)
  {
    if a == [] {
      assert a + b == b;
    } else {
      assert (a + b)[1..] == a[1..] + b;
      SumOfConcat(a[1..], b, f);
    }
  }

  /** The sum over a one-element list is that element's term. */
  lemma SumOfSingleton<T>(x: T, f: T -> int)
    ensures SumOf([x], f) == f(x)
  {
    assert [x][1..] == [];
  }

  /** The sum around one element of a list. */
  lemma SumOfSplit<T>(a: seq<T>, x: T, b: seq<T>, f: T -> int)
    ensures SumOf(a + [x] + b, f) == SumOf(a, f) + f(x) + SumOf(b, f)
  {
    SumOfConcat(a + [x], b, f);
    SumOfConcat(a, [x], f);
    SumOfSingleton(x, f);
  }

  /** The sum of a list, split at index `k`. */
  lemma SumOfAt<T>(s: seq<T>, k: int, f: T -> int)
    requires 0 <= k < |s|
    ensures SumOf(s, f) == SumOf(s[..k], f) + f(s[k]) + SumOf(s[k + 1..], f)
  {
    assert s == s[..k] + [s[k]] + s[k + 1..];
    SumOfSplit(s[..k], s[k], s[k + 1..], f);
  }

  /** Filtering around one element of a list. */
  lemma FilterSplit<T>(a: seq<T>, x: T, b: seq<T>, keep: T -> bool)
    ensures Filter(a + [x] + b, keep) == Filter(a, keep) + (if keep(x) then [x] else []) + Filter(b, keep)
  {
    assert Filter([x], keep) == if keep(x) then [x] else [] by {
      assert [x][1..] == [];
      assert Filter([x][1..], keep) == [];
    }
    FilterConcat(a + [x], b, keep);
    FilterConcat(a, [x], keep);
  }

  /** No value occurs twice. */
  predicate NoDuplicates<T(==)>(s: seq<T>)
  {
    forall i, j :: 0 <= i < j < |s| ==> s[i] != s[j]
  }

  /** `[...new Set(s)]`: each distinct value once, in order of first occurrence. */
  function Dedup<T(==)>(s: seq<T>): (r: seq<T>)
    ensures NoDuplicates(r)
    ensures forall x :: x in r ==> x in s
    ensures forall x :: x in s ==> x in r
    ensures |r| <= |s|
  {
    if s == [] then []
    else
      var r := Dedup(s[..|s| - 1]);
      assert s == s[..|s| - 1] + [s[|s| - 1]];
      if s[|s| - 1] in r then r else r + [s[|s| - 1]]
  }

  /** One more element joins the set's list at the end when it is new, and adds nothing
      when it is already there. */
  lemma DedupAppend<T>(s: seq<T>, x: T)
    ensures Dedup(s + [x]) == Dedup(s) + (if x in s then [] else [x])
  {
    var t := s + [x];
    assert t[..|t| - 1] == s;
  }

  /** Mapping distributes over appending one element. */
  lemma MapAppend<T, U>(s: seq<T>, x: T, f: T -> U)
    ensures Map(s + [x], f) == Map(s, f) + [f(x)]
  {
    var m := Map(s + [x], f);
    assert m[..|s|] == Map(s, f);
    assert m == m[..|s|] + [f(x)];
  }
}
