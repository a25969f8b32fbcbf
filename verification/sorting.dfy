/**
  `Array.prototype.sort(cmp)`: since the 2019 edition, ECMA-262 requires the
  sort to be stable (section 23.1.3.30 of the 2023 edition), so for a
  consistent comparator the result is the stable sorted permutation. It is
  modelled here by an insertion sort that keeps `x` before `y` unless
  `cmp(x, y) > 0`, which is exactly what a stable sort does.
*/
module Sorting {
  import opened Seqs
  import Text

  /** `cmp(a, b) <= 0` is a total preorder: the comparators the pages pass are all of this kind. */
  ghost predicate Consistent<T(!new)>(cmp: (T, T) -> int) {
    && (forall a, b :: cmp(a, b) <= 0 || cmp(b, a) <= 0)
    && (forall a, b, c :: cmp(a, b) <= 0 && cmp(b, c) <= 0 ==> cmp(a, c) <= 0)
  }

  /** Every element is at most every later one. */
  ghost predicate SortedBy<T>(s: seq<T>, cmp: (T, T) -> int) {
    forall i, j :: 0 <= i < j < |s| ==> cmp(s[i], s[j]) <= 0
  }

  /** Puts `x` in front of `t`, after the leading elements that must precede it. */
  function InsertFront<T>(x: T, t: seq<T>, cmp: (T, T) -> int): (r: seq<T>)
    ensures |r| == |t| + 1
    ensures multiset(r) == multiset(t) + multiset{x}
  {
    if t == [] || cmp(x, t[0]) <= 0 then [x] + t
    else
      assert t == [t[0]] + t[1..];
      [t[0]] + InsertFront(x, t[1..], cmp)
  }

  /** The stable sort of `s` under `cmp`. */
  function StableSort<T>(s: seq<T>, cmp: (T, T) -> int): (r: seq<T>)
    ensures |r| == |s|
    ensures multiset(r) == multiset(s)
  {
    if s == [] then []
    else
      assert s == [s[0]] + s[1..];
      InsertFront(s[0], StableSort(s[1..], cmp), cmp)
  }

  /** An element at most every element of an ordered sequence can be put in front of it. */
  lemma SortedCons<T>(y: T, s: seq<T>, cmp: (T, T) -> int)
    requires SortedBy(s, cmp)
    requires forall k :: 0 <= k < |s| ==> cmp(y, s[k]) <= 0
    ensures SortedBy([y] + s, cmp)
  {
    var r := [y] + s;
    forall i, j | 0 <= i < j < |r| ensures cmp(r[i], r[j]) <= 0 {
      if i == 0 {
        assert r[j] == s[j - 1];
      } else {
        assert r[i] == s[i - 1] && r[j] == s[j - 1];
      }
    }
  }

  lemma {:induction false} InsertFrontSorted<T(!new)>(x: T, t: seq<T>, cmp: (T, T) -> int)
    requires Consistent(cmp) && SortedBy(t, cmp)
    ensures SortedBy(InsertFront(x, t, cmp), cmp)
  {
    if t == [] || cmp(x, t[0]) <= 0 {
      forall k | 0 <= k < |t| ensures cmp(x, t[k]) <= 0 {
        if k > 0 {
          assert cmp(t[0], t[k]) <= 0;
        }
      }
      SortedCons(x, t, cmp);
    } else {
      var y, rest := t[0], t[1..];
      assert SortedBy(rest, cmp);
      var tail := InsertFront(x, rest, cmp);
      InsertFrontSorted(x, rest, cmp);
      forall k | 0 <= k < |tail| ensures cmp(y, tail[k]) <= 0 {
        assert tail[k] in multiset(tail);
        if tail[k] != x {
          assert tail[k] in multiset(rest);
          var m :| 0 <= m < |rest| && rest[m] == tail[k];
          assert t[m + 1] == rest[m];
        }
      }
      SortedCons(y, tail, cmp);
    }
  }

  /** The stable sort orders its result. */
  lemma {:induction false} SortSorted<T(!new)>(s: seq<T>, cmp: (T, T) -> int)
    requires Consistent(cmp)
    ensures SortedBy(StableSort(s, cmp), cmp)
  {
    if s != [] {
      SortSorted(s[1..], cmp);
      InsertFrontSorted(s[0], StableSort(s[1..], cmp), cmp);
    }
  }

  lemma {:induction false} InsertFrontStable<T(!new)>(x: T, t: seq<T>, cmp: (T, T) -> int, p: T -> bool)
    requires forall a, b :: p(a) && p(b) ==> cmp(a, b) <= 0
    ensures Filter(InsertFront(x, t, cmp), p) == Filter([x] + t, p)
  {
    if t != [] && cmp(x, t[0]) > 0 {
      var y, rest := t[0], t[1..];
      assert t == [y] + rest;
      InsertFrontStable(x, rest, cmp, p);
      FilterAppend([y], InsertFront(x, rest, cmp), p);
      FilterAppend([x], rest, p);
      FilterAppend([x], t, p);
      FilterAppend([y], rest, p);
      assert !(p(x) && p(y));
      if p(x) {
        assert Filter([y], p) == [];
      } else {
        assert Filter([x], p) == [];
      }
    }
  }

  /**
    Stability: the elements that `p` picks out, all of them tied under
    `cmp`, come out of the sort in their original relative order.
  */
  lemma {:induction false} SortStable<T(!new)>(s: seq<T>, cmp: (T, T) -> int, p: T -> bool)
    requires forall a, b :: p(a) && p(b) ==> cmp(a, b) <= 0
    ensures Filter(StableSort(s, cmp), p) == Filter(s, p)
  {
    if s != [] {
      SortStable(s[1..], cmp, p);
      InsertFrontStable(s[0], StableSort(s[1..], cmp), cmp, p);
      assert ([s[0]] + StableSort(s[1..], cmp))[1..] == StableSort(s[1..], cmp);
    }
  }

  /** An already ordered sequence is left as it is; in particular a comparator that always answers 0 changes nothing. */
  lemma {:induction false} SortOfSorted<T>(s: seq<T>, cmp: (T, T) -> int)
    requires SortedBy(s, cmp)
    ensures StableSort(s, cmp) == s
  {
    if s != [] {
      assert SortedBy(s[1..], cmp) by {
        forall i, j | 0 <= i < j < |s[1..]| ensures cmp(s[1..][i], s[1..][j]) <= 0 {
          assert s[1..][i] == s[i + 1] && s[1..][j] == s[j + 1];
        }
      }
      SortOfSorted(s[1..], cmp);
      assert s == [s[0]] + s[1..];
    }
  }

  lemma {:induction false} InsertFrontNoDup<T>(x: T, t: seq<T>, cmp: (T, T) -> int)
    requires NoDup(t) && x !in t
    ensures NoDup(InsertFront(x, t, cmp))
  {
    var r := InsertFront(x, t, cmp);
    if t == [] || cmp(x, t[0]) <= 0 {
      assert forall j :: 1 <= j < |r| ==> r[j] == t[j - 1];
    } else {
      var tail := InsertFront(x, t[1..], cmp);
      assert t[0] !in t[1..] by {
        forall k | 0 <= k < |t[1..]| ensures t[1..][k] != t[0] {
          assert t[1..][k] == t[k + 1];
        }
      }
      assert NoDup(t[1..]) by {
        forall i, j | 0 <= i < j < |t[1..]| ensures t[1..][i] != t[1..][j] {
          assert t[1..][i] == t[i + 1] && t[1..][j] == t[j + 1];
        }
      }
      InsertFrontNoDup(x, t[1..], cmp);
      assert t[0] !in multiset(tail);
      assert forall j :: 1 <= j < |r| ==> r[j] == tail[j - 1];
    }
  }

  /** Sorting a sequence without repetitions gives one without repetitions. */
  lemma {:induction false} SortNoDup<T>(s: seq<T>, cmp: (T, T) -> int)
    requires NoDup(s)
    ensures NoDup(StableSort(s, cmp))
  {
    if s != [] {
      assert NoDup(s[1..]) by {
        forall i, j | 0 <= i < j < |s[1..]| ensures s[1..][i] != s[1..][j] {
          assert s[1..][i] == s[i + 1] && s[1..][j] == s[j + 1];
        }
      }
      SortNoDup(s[1..], cmp);
      assert s[0] !in s[1..] by {
        forall k | 0 <= k < |s[1..]| ensures s[1..][k] != s[0] {
          assert s[1..][k] == s[k + 1];
        }
      }
      assert s[0] !in multiset(StableSort(s[1..], cmp));
      InsertFrontNoDup(s[0], StableSort(s[1..], cmp), cmp);
    }
  }

  /** The string comparator used by `sort()` and `localeCompare` is consistent. */
  lemma StringOrderConsistent()
    ensures Consistent(Text.CompareStrings)
  {
    forall a, b ensures Text.CompareStrings(a, b) <= 0 || Text.CompareStrings(b, a) <= 0 {
      Text.CompareFlip(a, b);
    }
    forall a, b, c | Text.CompareStrings(a, b) <= 0 && Text.CompareStrings(b, c) <= 0
      ensures Text.CompareStrings(a, c) <= 0
    {
      Text.CompareTrans(a, b, c);
    }
  }

  /**
    `[...new Set(xs)].sort()`: the distinct strings of `xs` in strictly
    increasing order.
  */
  function SortedUnique(xs: seq<string>): (r: seq<string>)
    ensures forall x :: x in r <==> x in xs
    ensures SortedStrictly(r)
  {
    var d := Dedup(xs);
    SortDistinctStrings(d);
    StableSort(d, Text.CompareStrings)
  }

  /** Strictly increasing under the string order. */
  predicate SortedStrictly(r: seq<string>) {
    forall i, j :: 0 <= i < j < |r| ==> Text.CompareStrings(r[i], r[j]) < 0
  }

  lemma SortDistinctStrings(d: seq<string>)
    requires NoDup(d)
    ensures forall x :: x in StableSort(d, Text.CompareStrings) <==> x in d
    ensures SortedStrictly(StableSort(d, Text.CompareStrings))
  {
    var r := StableSort(d, Text.CompareStrings);
    StringOrderConsistent();
    SortSorted(d, Text.CompareStrings);
    SortNoDup(d, Text.CompareStrings);
    assert forall x :: x in r <==> x in multiset(d);
    forall i, j | 0 <= i < j < |r| ensures Text.CompareStrings(r[i], r[j]) < 0 {
      Text.CompareZero(r[i], r[j]);
    }
    assert SortedStrictly(r);
  }
}
