/**
 * The Python string operations the normalizers are built from, on `string`
 * (a sequence of Unicode scalar values): `str.replace` with one-character
 * arguments, and `str.strip()` with no argument.
 */
module Text {

  /** Number of occurrences of `c` in `s`. */
  function Count(s: string, c: char): nat
  {
    if s == [] then 0 else (if s[0] == c then 1 else 0) + Count(s[1..], c)
  }

  /** `t` can be obtained from `s` by deleting characters, keeping the order of the rest. */
  ghost predicate IsSubsequence(t: string, s: string)
    decreases |s|
  {
    if t == [] then true
    else if s == [] then false
    else (t[0] == s[0] && IsSubsequence(t[1..], s[1..])) || IsSubsequence(t, s[1..])
  }

  /** `s.replace(c, d)` for one-character strings `c` and `d`. */
  function ReplaceChar(s: string, c: char, d: char): (r: string)
    ensures |r| == |s|
    ensures forall k :: 0 <= k < |s| ==> r[k] == (if s[k] == c then d else s[k])
  {
    if s == [] then [] else [if s[0] == c then d else s[0]] + ReplaceChar(s[1..], c, d)
  }

  /** `s.replace(c, '')` for a one-character string `c`: every `c` deleted, nothing else touched. */
  function RemoveChar(s: string, c: char): (r: string)
    ensures c !in r
    ensures IsSubsequence(r, s)
    ensures |r| == |s| - Count(s, c)
    ensures forall d :: d != c ==> Count(r, d) == Count(s, d)
  {
    if s == [] then []
    else if s[0] == c then RemoveChar(s[1..], c)
    else [s[0]] + RemoveChar(s[1..], c)
  }

  /** A subsequence of `s` that avoids `c` is at most as long as `s` without its `c`s. */
  lemma {:induction false} AvoidingSubsequenceBound(t: string, s: string, c: char)
    requires c !in t && IsSubsequence(t, s)
    ensures |t| <= |s| - Count(s, c)
    decreases |s|
  {
    if t != [] {
      if t[0] == s[0] && IsSubsequence(t[1..], s[1..]) {
        AvoidingSubsequenceBound(t[1..], s[1..], c);
      } else {
        AvoidingSubsequenceBound(t, s[1..], c);
      }
    } else if s != [] {
      CountBound(s, c);
    }
  }

  lemma {:induction false} CountBound(s: string, c: char)
    ensures Count(s, c) <= |s|
  {
    if s != [] { CountBound(s[1..], c); }
  }

  /**
   * Deleting every `c` is the only way to get a `c`-free subsequence of `s`
   * of length `|s| - Count(s, c)`: the contract of RemoveChar pins its result down.
   */
  lemma {:induction false} RemoveCharUnique(t: string, s: string, c: char)
    requires c !in t && IsSubsequence(t, s) && |t| == |s| - Count(s, c)
    ensures t == RemoveChar(s, c)
    decreases |s|
  {
    if t == [] {
      assert |RemoveChar(s, c)| == 0;
    } else if s[0] == c {
      assert !(t[0] == s[0]);
      RemoveCharUnique(t, s[1..], c);
    } else if t[0] == s[0] && IsSubsequence(t[1..], s[1..]) {
      RemoveCharUnique(t[1..], s[1..], c);
      assert t == [t[0]] + t[1..];
    } else {
      AvoidingSubsequenceBound(t, s[1..], c);
      assert false;
    }
  }

  /** Deletion works piecewise: deleting from a concatenation deletes from each part. */
  lemma {:induction false} RemoveCharConcat(a: string, b: string, c: char)
    ensures RemoveChar(a + b, c) == RemoveChar(a, c) + RemoveChar(b, c)
  {
    if a != [] {
      assert (a + b)[1..] == a[1..] + b;
      RemoveCharConcat(a[1..], b, c);
    } else {
      assert a + b == b;
    }
  }

  /** A subsequence of `s` that avoids `c` is also one of `s` with its `c`s deleted. */
  lemma {:induction false} AvoidingSubsequenceOfRemoved(t: string, s: string, c: char)
    requires c !in t && IsSubsequence(t, s)
    ensures IsSubsequence(t, RemoveChar(s, c))
    decreases |s|
  {
    if t != [] {
      var rest := RemoveChar(s[1..], c);
      if s[0] == c {
        AvoidingSubsequenceOfRemoved(t, s[1..], c);
      } else {
        assert ([s[0]] + rest)[1..] == rest;
        if t[0] == s[0] && IsSubsequence(t[1..], s[1..]) {
          assert c !in t[1..];
          AvoidingSubsequenceOfRemoved(t[1..], s[1..], c);
        } else {
          AvoidingSubsequenceOfRemoved(t, s[1..], c);
        }
      }
    }
  }

  /** Removing a character that does not occur changes nothing. */
  lemma {:induction false} RemoveAbsentChar(s: string, c: char)
    requires c !in s
    ensures RemoveChar(s, c) == s
  {
    if s != [] {
      assert c !in s[1..];
      RemoveAbsentChar(s[1..], c);
      assert s == [s[0]] + s[1..];
    }
  }

  lemma {:induction false} SubsequenceTransitive(u: string, t: string, s: string)
    requires IsSubsequence(u, t) && IsSubsequence(t, s)
    ensures IsSubsequence(u, s)
    decreases |s|
  {
    if u != [] {
      if t[0] == s[0] && IsSubsequence(t[1..], s[1..]) {
        if u[0] == t[0] && IsSubsequence(u[1..], t[1..]) {
          SubsequenceTransitive(u[1..], t[1..], s[1..]);
        } else {
          SubsequenceTransitive(u, t[1..], s[1..]);
        }
      } else {
        SubsequenceTransitive(u, t, s[1..]);
      }
    }
  }

  /**
   * The characters Python's `str.isspace()` accepts, which are the ones
   * `str.strip()` with no argument removes: general category Zs, or
   * bidirectional class WS, B or S.
   */
  predicate IsSpace(c: char)
  {
    || ('\t' <= c <= '\r')
    || ('\U{1C}' <= c <= '\U{1F}')
    || c == ' '
    || c == '\U{85}'
    || c == '\U{A0}'
    || c == '\U{1680}'
    || ('\U{2000}' <= c <= '\U{200A}')
    || c == '\U{2028}'
    || c == '\U{2029}'
    || c == '\U{202F}'
    || c == '\U{205F}'
    || c == '\U{3000}'
  }

  ghost predicate AllSpace(s: string)
  {
    forall k :: 0 <= k < |s| ==> IsSpace(s[k])
  }

  /** Neither the first nor the last character is whitespace. */
  ghost predicate NoEdgeSpace(s: string)
  {
    s == [] || (!IsSpace(s[0]) && !IsSpace(s[|s| - 1]))
  }

  /** Length of the longest all-whitespace prefix of `s`. */
  function LeadingSpaces(s: string): (n: nat)
    ensures n <= |s| && AllSpace(s[..n])
    ensures n < |s| ==> !IsSpace(s[n])
  {
    if s != [] && IsSpace(s[0]) then 1 + LeadingSpaces(s[1..]) else 0
  }

  /** Length of the longest all-whitespace suffix of `s`. */
  function TrailingSpaces(s: string): (n: nat)
    ensures n <= |s| && AllSpace(s[|s| - n..])
    ensures n < |s| ==> !IsSpace(s[|s| - 1 - n])
  {
    if s != [] && IsSpace(s[|s| - 1]) then 1 + TrailingSpaces(s[..|s| - 1]) else 0
  }

  /**
   * `r` is `s` without its surrounding whitespace: `s` is some whitespace,
   * then `r`, then some whitespace, and `r` neither starts nor ends with
   * whitespace.
   */
  ghost predicate IsStripped(r: string, s: string)
  {
    var i := LeadingSpaces(s);
    && i + |r| <= |s|
    && r == s[i..i + |r|]
    && AllSpace(s[..i])
    && AllSpace(s[i + |r|..])
    && NoEdgeSpace(r)
  }

  /** `s.strip()` with no argument. */
  function Strip(s: string): (r: string)
    ensures IsStripped(r, s)
  {
    var i := LeadingSpaces(s);
    var n := TrailingSpaces(s[i..]);
    var j := |s| - n;
    assert s[i..][|s| - i - n..] == s[j..];
    assert i < j ==> s[j - 1] == s[i..][|s| - i - 1 - n];
    s[i..j]
  }

  /**
   * The contract of Strip pins its result down: any split of `s` into
   * whitespace, a core without edge whitespace, and whitespace has Strip(s)
   * as its core.
   */
  lemma StripUnique(a: string, t: string, b: string)
    requires AllSpace(a) && AllSpace(b) && NoEdgeSpace(t)
    ensures Strip(a + t + b) == t
  {
    var s := a + t + b;
    if t == [] {
      assert AllSpace(s);
      assert LeadingSpaces(s) == |s|;
    } else {
      assert s[|a|] == t[0];
      assert LeadingSpaces(s) == |a|;
      var r := Strip(s);
      assert IsStripped(r, s);
      assert s[|a| + |t| - 1] == t[|t| - 1];
      assert |r| == |t|;
      assert r == s[|a|..|a| + |t|];
    }
  }

  /** What Strip keeps is taken from its input, in order. */
  lemma StripIsSubsequence(s: string)
    ensures IsSubsequence(Strip(s), s)
    ensures forall c :: c !in s ==> c !in Strip(s)
  {
    var r := Strip(s);
    var i := LeadingSpaces(s);
    assert IsStripped(r, s);
    SliceIsSubsequence(s, i, i + |r|);
    assert forall k :: 0 <= k < |r| ==> r[k] == s[i + k];
  }

  /** Stripping text without edge whitespace changes nothing. */
  lemma StripClean(s: string)
    requires NoEdgeSpace(s)
    ensures Strip(s) == s
  {
    StripUnique([], s, []);
    assert [] + s + [] == s;
  }

  /** A contiguous slice is a subsequence. */
  lemma {:induction false} SliceIsSubsequence(t: string, i: nat, j: nat)
    requires i <= j <= |t|
    ensures IsSubsequence(t[i..j], t)
    decreases |t|
  {
    if i < j {
      if i == 0 {
        SliceIsSubsequence(t[1..], 0, j - 1);
        assert t[1..][0..j - 1] == t[0..j][1..];
      } else {
        SliceIsSubsequence(t[1..], i - 1, j - 1);
        assert t[1..][i - 1..j - 1] == t[i..j];
      }
    }
  }

  lemma {:induction false} SubsequenceLength(t: string, s: string)
    requires IsSubsequence(t, s)
    ensures |t| <= |s|
    decreases |s|
  {
    if t != [] {
      if t[0] == s[0] && IsSubsequence(t[1..], s[1..]) {
        SubsequenceLength(t[1..], s[1..]);
      } else {
        SubsequenceLength(t, s[1..]);
      }
    }
  }

  lemma {:induction false} AbsentCountZero(s: string, c: char)
    requires c !in s
    ensures Count(s, c) == 0
  {
    if s != [] {
      assert c !in s[1..];
      AbsentCountZero(s[1..], c);
    }
  }

  lemma {:induction false} NoCountNotIn(s: string, c: char)
    requires Count(s, c) == 0
    ensures c !in s
  {
    if s != [] {
      NoCountNotIn(s[1..], c);
      assert s == [s[0]] + s[1..];
    }
  }
}
