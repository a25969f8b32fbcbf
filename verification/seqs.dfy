/**
  Sequence operations that the JavaScript code gets from `Array.prototype`:
  `filter`, `find`, `some`, `flatMap` and de-duplication through a `Set`.
*/
module Seqs {
  import opened Wrappers

  /** `s.filter(p)`: the elements of `s` that satisfy `p`, in their order. */
  function Filter<T(!new)>(s: seq<T>, p: T -> bool): (r: seq<T>)
    ensures |r| <= |s|
    ensures forall x :: x in r <==> x in s && p(x)
    ensures forall i :: 0 <= i < |r| ==> p(r[i])
  {
    KeptMembers(s, p);
    Kept(s, p)
  }

  /** The recursion behind `Filter`, kept apart from the facts stated about it. */
  function Kept<T>(s: seq<T>, p: T -> bool): (r: seq<T>)
    ensures |r| <= |s|
  {
    if s == [] then []
    else if p(s[0]) then [s[0]] + Kept(s[1..], p) else Kept(s[1..], p)
  }

  lemma {:induction false} KeptMembers<T(!new)>(s: seq<T>, p: T -> bool)
    ensures forall x :: x in Kept(s, p) <==> x in s && p(x)
    ensures forall i :: 0 <= i < |Kept(s, p)| ==> p(Kept(s, p)[i])
  {
    if s != [] {
      KeptMembers(s[1..], p);
      assert s == [s[0]] + s[1..];
    }
  }

  /** `r` is obtained from `s` by deleting some elements and keeping the order of the rest. */
  ghost predicate IsSubsequence<T>(r: seq<T>, s: seq<T>)
    decreases |s|
  {
    if s == [] then r == []
    else IsSubsequence(r, s[1..]) || (r != [] && r[0] == s[0] && IsSubsequence(r[1..], s[1..]))
  }

  /** Filtering keeps the relative order of the kept elements. */
  lemma {:induction false} FilterIsSubsequence<T(!new)>(s: seq<T>, p: T -> bool)
    ensures IsSubsequence(Filter(s, p), s)
  {
    if s != [] {
      FilterIsSubsequence(s[1..], p);
    }
  }

  /** Filtering distributes over concatenation: what `filter` keeps of `a + b` is what it keeps of `a`, then of `b`. */
  lemma {:induction false} FilterAppend<T(!new)>(a: seq<T>, b: seq<T>, p: T -> bool)
    ensures Filter(a + b, p) == Filter(a, p) + Filter(b, p)
  {
    KeptAppend(a, b, p);
  }

  lemma {:induction false} KeptAppend<T>(a: seq<T>, b: seq<T>, p: T -> bool)
    ensures Kept(a + b, p) == Kept(a, p) + Kept(b, p)
  {
    if a == [] {
      assert a + b == b;
    } else {
      assert (a + b)[0] == a[0] && (a + b)[1..] == a[1..] + b;
      KeptAppend(a[1..], b, p);
    }
  }

  /** A predicate that holds everywhere keeps the whole sequence, in order. */
  lemma {:induction false} FilterAll<T(!new)>(s: seq<T>, p: T -> bool)
    requires forall x :: x in s ==> p(x)
    ensures Filter(s, p) == s
  {
    if s != [] {
      FilterAll(s[1..], p);
    }
  }

  /** Two predicates that agree on the elements of `s` filter it alike. */
  lemma {:induction false} FilterExt<T(!new)>(s: seq<T>, p: T -> bool, q: T -> bool)
    requires forall x :: x in s ==> p(x) == q(x)
    ensures Filter(s, p) == Filter(s, q)
  {
    if s != [] {
      FilterExt(s[1..], p, q);
    }
  }

  /** `s.find(p)`: the first element that satisfies `p`. */
  function Find<T(!new)>(s: seq<T>, p: T -> bool): (r: Option<T>)
    ensures r.None? <==> forall x :: x in s ==> !p(x)
    ensures r.Some? ==> exists i :: 0 <= i < |s| && s[i] == r.value && p(s[i]) && forall j :: 0 <= j < i ==> !p(s[j])
  {
    if s == [] then None
    else if p(s[0]) then Some(s[0])
    else
      var r := Find(s[1..], p);
      assert r.Some? ==> exists i :: 1 <= i < |s| && s[i] == r.value && p(s[i]) && forall j :: 0 <= j < i ==> !p(s[j]) by {
        if r.Some? {
          var i :| 0 <= i < |s[1..]| && s[1..][i] == r.value && p(s[1..][i]) && forall j :: 0 <= j < i ==> !p(s[1..][j]);
          assert forall j :: 1 <= j < i + 1 ==> !p(s[j]) by {
            forall j | 1 <= j < i + 1 ensures !p(s[j]) { assert s[j] == s[1..][j - 1]; }
          }
        }
      }
      r
  }

  /** The elements of `s` without repetitions, each at the place it first occurs (`[...new Set(s)]`). */
  function Dedup<T(==,!new)>(s: seq<T>): (r: seq<T>)
    ensures NoDup(r)
    ensures forall x :: x in r <==> x in s
    ensures |r| <= |s|
  {
    if s == [] then []
    else
      var r := Dedup(s[..|s| - 1]);
      var x := s[|s| - 1];
      assert s == s[..|s| - 1] + [x];
      if x in r then r else r + [x]
  }

  ghost predicate NoDup<T>(s: seq<T>) {
    forall i, j :: 0 <= i < j < |s| ==> s[i] != s[j]
  }

  /** A sequence without repeats has as many distinct elements as positions. */
  lemma {:induction false} NoDupCard<T>(s: seq<T>)
    requires NoDup(s)
    ensures |(set x | x in s)| == |s|
  {
    if s != [] {
      var rest := s[1..];
      assert forall i :: 0 <= i < |rest| ==> rest[i] == s[i + 1];
      NoDupCard(rest);
      assert (set x | x in s) == {s[0]} + (set x | x in rest);
    }
  }

  /** De-duplication keeps the first-seen order: the result is a subsequence of the input. */
  lemma {:induction false} DedupIsSubsequence<T(!new)>(s: seq<T>)
    ensures IsSubsequence(Dedup(s), s)
  {
    if s != [] {
      var init, x := s[..|s| - 1], s[|s| - 1];
      assert s == init + [x];
      DedupIsSubsequence(init);
      if x !in Dedup(init) {
        SubsequenceAppend(Dedup(init), init, x);
      } else {
        SubsequenceExtend(Dedup(init), init, x);
      }
    }
  }

  /**
    First-seen order, exactly: every occurrence in `s` of an element of
    `Dedup(s)` comes after an occurrence of each element placed before it.
  */
  lemma {:induction false} DedupFirstSeen<T(!new)>(s: seq<T>)
    ensures forall i, j, k :: 0 <= i < j < |Dedup(s)| && 0 <= k < |s| && s[k] == Dedup(s)[j] ==> Dedup(s)[i] in s[..k]
  {
    if s != [] {
      var init, x := s[..|s| - 1], s[|s| - 1];
      assert s == init + [x];
      DedupFirstSeen(init);
      var d, r := Dedup(init), Dedup(s);
      forall i, j, k | 0 <= i < j < |r| && 0 <= k < |s| && s[k] == r[j] ensures r[i] in s[..k] {
        if j < |d| {
          assert r[i] == d[i] && r[j] == d[j];
          if k < |init| {
            assert init[k] == d[j];
            assert d[i] in init[..k];
            assert init[..k] == s[..k];
          } else {
            assert d[j] in init;
            var k' :| 0 <= k' < |init| && init[k'] == d[j];
            assert d[i] in init[..k'];
            assert init[..k'] == s[..k'] && k' < k;
            assert s[..k] == s[..k'] + s[k'..k];
          }
        } else {
          assert r[j] == x && x !in init;
          assert s[..k] == init;
          assert r[i] == d[i];
        }
      }
    }
  }

  lemma {:induction false} SubsequenceAppend<T>(r: seq<T>, s: seq<T>, x: T)
    requires IsSubsequence(r, s)
    ensures IsSubsequence(r + [x], s + [x])
    decreases |s|
  {
    if s == [] {
      assert r + [x] == [x] && s + [x] == [x];
      assert IsSubsequence([x][1..], [x][1..]);
    } else {
      assert (s + [x])[1..] == s[1..] + [x];
      if IsSubsequence(r, s[1..]) {
        SubsequenceAppend(r, s[1..], x);
      } else {
        assert (r + [x])[1..] == r[1..] + [x];
        SubsequenceAppend(r[1..], s[1..], x);
      }
    }
  }

  lemma {:induction false} SubsequenceExtend<T>(r: seq<T>, s: seq<T>, x: T)
    requires IsSubsequence(r, s)
    ensures IsSubsequence(r, s + [x])
    decreases |s|
  {
    if s == [] {
      assert r == [] && (s + [x])[1..] == [];
    } else {
      assert (s + [x])[1..] == s[1..] + [x];
      if IsSubsequence(r, s[1..]) {
        SubsequenceExtend(r, s[1..], x);
      } else {
        SubsequenceExtend(r[1..], s[1..], x);
      }
    }
  }

  /** `s.flatMap(f)`. */
  function FlatMap<T(!new), U(!new)>(s: seq<T>, f: T -> seq<U>): (r: seq<U>)
    ensures forall y :: y in r <==> exists x :: x in s && y in f(x)
  {
    if s == [] then []
    else
      var rest := FlatMap(s[1..], f);
      assert forall x :: x in s <==> x == s[0] || x in s[1..];
      f(s[0]) + rest
  }
}
