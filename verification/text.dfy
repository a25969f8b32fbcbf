/**
  The string operations the pages use: `includes`, `join`, `split`, and
  the string order of `sort()` without a comparator. `toLowerCase` and
  `localeCompare` follow Unicode and locale rules and are parameters of the
  modules that use them.
*/
module Text {

  /** `t` occurs in `s` starting at index `i`. */
  ghost predicate OccursAt(s: string, t: string, i: int) {
    0 <= i && i + |t| <= |s| && s[i..i + |t|] == t
  }

  /** `s.indexOf(t)`: the first index at which `t` occurs in `s`, or -1. */
  function IndexOf(s: string, t: string): (r: int)
    ensures -1 <= r <= |s|
    ensures r >= 0 ==> OccursAt(s, t, r)
    ensures r >= 0 ==> forall j :: 0 <= j < r ==> !OccursAt(s, t, j)
    ensures r == -1 ==> forall j :: !OccursAt(s, t, j)
    decreases |s|
  {
    if |s| < |t| then -1
    else if s[..|t|] == t then 0
    else
      var j := IndexOf(s[1..], t);
      assert forall k :: 1 <= k ==> (OccursAt(s, t, k) <==> OccursAt(s[1..], t, k - 1)) by {
        forall k | 1 <= k ensures OccursAt(s, t, k) <==> OccursAt(s[1..], t, k - 1) {
          if k + |t| <= |s| {
            var here, there := s[k..k + |t|], s[1..][k - 1..k - 1 + |t|];
            forall m | 0 <= m < |t| ensures here[m] == there[m] {}
            assert here == there;
          }
        }
      }
      if j < 0 then -1 else j + 1
  }

  /** `s.includes(t)`. */
  predicate Includes(s: string, t: string) {
    IndexOf(s, t) >= 0
  }

  /** The empty string occurs in every string, so an empty search term matches everything. */
  lemma IncludesEmpty(s: string)
    ensures Includes(s, "")
  {
    assert s[0..0] == "";
  }

  /** `xs.join(sep)`. */
  function Join(xs: seq<string>, sep: string): (r: string)
    ensures xs == [] ==> r == ""
  {
    if xs == [] then ""
    else if |xs| == 1 then xs[0]
    else xs[0] + sep + Join(xs[1..], sep)
  }

  /** `s.split(sep)` for a non-empty separator: the pieces between the occurrences of `sep`, left to right. */
  function Split(s: string, sep: string): (r: seq<string>)
    requires sep != ""
    ensures |r| >= 1
    decreases |s|
  {
    var i := IndexOf(s, sep);
    if i < 0 then [s] else [s[..i]] + Split(s[i + |sep|..], sep)
  }

  /**
    With a two-character separator whose characters differ (such as ", "),
    splitting a join gives the pieces back, provided no piece contains the
    separator.
  */
  lemma {:induction false} SplitJoin(xs: seq<string>, sep: string)
    requires |sep| == 2 && sep[0] != sep[1]
    requires xs != []
    requires forall k :: 0 <= k < |xs| ==> !Includes(xs[k], sep)
    ensures Split(Join(xs, sep), sep) == xs
  {
    if |xs| == 1 {
    } else {
      var x, rest := xs[0], Join(xs[1..], sep);
      var s := x + sep + rest;
      assert Join(xs, sep) == s;
      FirstOccurrenceAfterPiece(x, sep, rest);
      assert s[|x| + |sep|..] == rest;
      assert s[..|x|] == x;
      assert Split(s, sep) == [x] + Split(rest, sep);
      SplitJoin(xs[1..], sep);
      assert xs == [x] + xs[1..];
    }
  }

  /** In `x + sep + rest`, the first occurrence of `sep` is the one right after `x`. */
  lemma FirstOccurrenceAfterPiece(x: string, sep: string, rest: string)
    requires |sep| == 2 && sep[0] != sep[1]
    requires !Includes(x, sep)
    ensures IndexOf(x + sep + rest, sep) == |x|
  {
    var s := x + sep + rest;
    assert OccursAt(s, sep, |x|) by { assert s[|x|..|x| + 2] == sep; }
    forall j | 0 <= j < |x| ensures !OccursAt(s, sep, j) {
      if j + 2 <= |x| {
        assert s[j..j + 2] == x[j..j + 2];
        assert !OccursAt(x, sep, j);
      } else {
        assert s[j + 1] == sep[0];
      }
    }
  }

  /**
    Lexicographic order on character codes, as -1, 0 or 1: the order of
    `Array.prototype.sort()` without a comparator.
  */
  function CompareStrings(a: string, b: string): (r: int)
    ensures -1 <= r <= 1
  {
    if a == [] then (if b == [] then 0 else -1)
    else if b == [] then 1
    else if a[0] < b[0] then -1
    else if a[0] > b[0] then 1
    else CompareStrings(a[1..], b[1..])
  }

  /** The comparator is antisymmetric: swapping the arguments flips the sign. */
  lemma {:induction false} CompareFlip(a: string, b: string)
    ensures CompareStrings(b, a) == -CompareStrings(a, b)
  {
    if a != [] && b != [] && a[0] == b[0] {
      CompareFlip(a[1..], b[1..]);
    }
  }

  /** Only equal strings compare equal. */
  lemma {:induction false} CompareZero(a: string, b: string)
    ensures CompareStrings(a, b) == 0 <==> a == b
  {
    if a != [] && b != [] && a[0] == b[0] {
      CompareZero(a[1..], b[1..]);
      assert a == [a[0]] + a[1..] && b == [b[0]] + b[1..];
    }
  }

  /** "At most" under the comparator is transitive. */
  lemma {:induction false} CompareTrans(a: string, b: string, c: string)
    requires CompareStrings(a, b) <= 0 && CompareStrings(b, c) <= 0
    ensures CompareStrings(a, c) <= 0
  {
    if a != [] && b != [] && c != [] && a[0] == b[0] == c[0] {
      CompareTrans(a[1..], b[1..], c[1..]);
    }
  }
}
