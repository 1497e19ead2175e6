/** The two Python string operations the core relies on: `str.strip()` with
    no argument and `str.replace(old, new)` (every occurrence, scanned left to
    right, non-overlapping). Strings are sequences of code points. */
module Strings {

  /** Python's `str.isspace` for one code point: the ASCII whitespace and
      separator controls, NEL, NBSP, the Unicode space separators and the
      line and paragraph separators. */
  predicate IsSpace(c: char) {
    || c == ' ' || c == '\t' || c == '\n' || c == '\r' || c == '\U{000B}' || c == '\U{000C}'
    || ('\U{001C}' <= c <= '\U{001F}')
    || c == '\U{0085}' || c == '\U{00A0}' || c == '\U{1680}'
    || ('\U{2000}' <= c <= '\U{200A}')
    || c == '\U{2028}' || c == '\U{2029}' || c == '\U{202F}' || c == '\U{205F}' || c == '\U{3000}'
  }

  /** Every code point of `s` is whitespace (true of the empty string). */
  predicate AllSpace(s: string) {
    forall k :: 0 <= k < |s| ==> IsSpace(s[k])
  }

  /** The first index at or after `i` that does not hold whitespace, or `|s|`. */
  function SkipSpace(s: string, i: nat): (j: nat)
    requires i <= |s|
    ensures i <= j <= |s|
    ensures forall k :: i <= k < j ==> IsSpace(s[k])
    ensures j < |s| ==> !IsSpace(s[j])
    decreases |s| - i
  {
    if i < |s| && IsSpace(s[i]) then SkipSpace(s, i + 1) else i
  }

  /** The smallest `j` in `lo..hi` such that `s[j..hi]` is all whitespace. */
  function SkipSpaceBack(s: string, lo: nat, hi: nat): (j: nat)
    requires lo <= hi <= |s|
    ensures lo <= j <= hi
    ensures forall k :: j <= k < hi ==> IsSpace(s[k])
    ensures j > lo ==> !IsSpace(s[j - 1])
    decreases hi
  {
    if hi > lo && IsSpace(s[hi - 1]) then SkipSpaceBack(s, lo, hi - 1) else hi
  }

  /** `r` is the part of `s` starting at `i`, and everything of `s` before
      and after it is whitespace. */
  predicate Between(s: string, r: string, i: int) {
    && 0 <= i <= |s| - |r| && r == s[i..i + |r|]
    && (forall k :: 0 <= k < i ==> IsSpace(s[k]))
    && (forall k :: i + |r| <= k < |s| ==> IsSpace(s[k]))
  }

  /** Python `s.strip()`: the part of `s` between a leading and a trailing run
      of whitespace, itself neither starting nor ending with whitespace. */
  function Strip(s: string): (r: string)
    ensures exists i :: Between(s, r, i)
    ensures |r| > 0 ==> !IsSpace(r[0]) && !IsSpace(r[|r| - 1])
    ensures r == [] <==> AllSpace(s)
  {
    var i := SkipSpace(s, 0);
    var j := SkipSpaceBack(s, i, |s|);
    assert Between(s, s[i..j], i);
    assert i < j ==> s[i..j][0] == s[i] && s[i..j][j - i - 1] == s[j - 1];
    assert i == j ==> AllSpace(s) by {
      if i == j {
        forall k | 0 <= k < |s| ensures IsSpace(s[k]) {
          if k < i {} else {}
        }
      }
    }
    s[i..j]
  }

  /** A string with no leading and no trailing whitespace is its own strip. */
  lemma StripUnchanged(s: string)
    requires |s| > 0 ==> !IsSpace(s[0]) && !IsSpace(s[|s| - 1])
    ensures Strip(s) == s
  {
  }

  /** Stripping twice is stripping once. */
  lemma StripIdempotent(s: string)
    ensures Strip(Strip(s)) == Strip(s)
  {
    StripUnchanged(Strip(s));
  }

  /** `pat` occurs in `s` at position `i`. */
  predicate OccursAt(s: string, pat: string, i: int) {
    0 <= i && i + |pat| <= |s| && s[i..i + |pat|] == pat
  }

  /** `pat` occurs somewhere in `s`. */
  predicate Occurs(s: string, pat: string) {
    exists i :: 0 <= i <= |s| && OccursAt(s, pat, i)
  }

  /** Python `s.replace(pat, rep)` for a non-empty `pat`: occurrences are
      found left to right and do not overlap. */
  function Replace(s: string, pat: string, rep: string): string
    requires |pat| > 0
    decreases |s|
  {
    if |s| < |pat| then s
    else if s[..|pat|] == pat then rep + Replace(s[|pat|..], pat, rep)
    else [s[0]] + Replace(s[1..], pat, rep)
  }

  /** Replacing a pattern that does not occur changes nothing. */
  lemma {:induction false} ReplaceAbsent(s: string, pat: string, rep: string)
    requires |pat| > 0
    requires !Occurs(s, pat)
    ensures Replace(s, pat, rep) == s
    decreases |s|
  {
    if |s| < |pat| {
    } else {
      assert !OccursAt(s, pat, 0);
      assert s[..|pat|] != pat;
      forall i | 0 <= i <= |s| - 1 ensures !OccursAt(s[1..], pat, i) {
        if i + |pat| <= |s| - 1 {
          assert s[1..][i..i + |pat|] == s[i + 1..i + 1 + |pat|];
          assert !OccursAt(s, pat, i + 1);
        }
      }
      ReplaceAbsent(s[1..], pat, rep);
    }
  }

  /** A prefix without the pattern's first code point is copied through. */
  lemma {:induction false} ReplaceSkip(a: string, t: string, pat: string, rep: string)
    requires |pat| > 0 && pat[0] !in a
    ensures Replace(a + t, pat, rep) == a + Replace(t, pat, rep)
    decreases |a|
  {
    if a == [] {
      assert a + t == t && a + Replace(t, pat, rep) == Replace(t, pat, rep);
    } else {
      var s := a + t;
      assert s[0] == a[0] != pat[0];
      if |s| < |pat| {
        assert Replace(s, pat, rep) == s;
        assert Replace(t, pat, rep) == t;
      } else {
        assert s[..|pat|] != pat by { assert s[..|pat|][0] == s[0]; }
        assert Replace(s, pat, rep) == [s[0]] + Replace(s[1..], pat, rep);
        assert s[1..] == a[1..] + t;
        ReplaceSkip(a[1..], t, pat, rep);
        assert [a[0]] + (a[1..] + Replace(t, pat, rep)) == a + Replace(t, pat, rep);
      }
    }
  }

  /** A leading match becomes the replacement, and the search goes on after
      it. */
  lemma ReplaceMatch(t: string, pat: string, rep: string)
    requires |pat| > 0
    ensures Replace(pat + t, pat, rep) == rep + Replace(t, pat, rep)
  {
    var s := pat + t;
    assert |s| >= |pat| && s[..|pat|] == pat && s[|pat|..] == t;
    assert Replace(s, pat, rep) == rep + Replace(s[|pat|..], pat, rep);
  }

  /** A code point that is in neither the input nor the replacement is not in
      the output. */
  lemma {:induction false} ReplaceKeepsOut(s: string, pat: string, rep: string, c: char)
    requires |pat| > 0
    requires c !in s && c !in rep
    ensures c !in Replace(s, pat, rep)
    decreases |s|
  {
    if |s| < |pat| {
    } else if s[..|pat|] == pat {
      assert forall k :: 0 <= k < |s[|pat|..]| ==> s[|pat|..][k] == s[|pat| + k];
      ReplaceKeepsOut(s[|pat|..], pat, rep, c);
    } else {
      assert forall k :: 0 <= k < |s[1..]| ==> s[1..][k] == s[1 + k];
      ReplaceKeepsOut(s[1..], pat, rep, c);
    }
  }

  /** Replacing a one-code-point pattern by a text that does not contain it
      removes it entirely. */
  lemma {:induction false} ReplaceRemovesChar(s: string, pat: string, rep: string)
    requires |pat| == 1 && pat[0] !in rep
    ensures pat[0] !in Replace(s, pat, rep)
    decreases |s|
  {
    if |s| < |pat| {
      assert s == [];
    } else if s[..1] == pat {
      ReplaceRemovesChar(s[1..], pat, rep);
    } else {
      assert s[0] != pat[0] by { assert s[..1] == [s[0]]; }
      ReplaceRemovesChar(s[1..], pat, rep);
    }
  }

  /** The first code point of a replacement result, when there is one: the
      replacement's first code point after a match, the input's otherwise. */
  lemma ReplaceHead(s: string, pat: string, rep: string)
    requires |pat| > 0 && |rep| > 0
    requires |s| > 0
    ensures |Replace(s, pat, rep)| > 0
    ensures Replace(s, pat, rep)[0] == (if |s| >= |pat| && s[..|pat|] == pat then rep[0] else s[0])
  {
  }

  /** Replacing a two-code-point pattern by a non-empty text that contains
      neither of its code points leaves no occurrence of it. */
  lemma {:induction false} ReplaceRemovesPair(s: string, pat: string, rep: string)
    requires |pat| == 2 && |rep| > 0
    requires pat[0] !in rep && pat[1] !in rep
    ensures !Occurs(Replace(s, pat, rep), pat)
    decreases |s|
  {
    var r := Replace(s, pat, rep);
    if |s| < |pat| {
      assert r == s;
      forall i | 0 <= i <= |r| ensures !OccursAt(r, pat, i) { }
    } else if s[..2] == pat {
      var t := Replace(s[2..], pat, rep);
      ReplaceRemovesPair(s[2..], pat, rep);
      assert r == rep + t;
      forall i | 0 <= i <= |r| ensures !OccursAt(r, pat, i) {
        if i + 2 > |r| {
        } else if i < |rep| {
          assert r[i] == rep[i] != pat[0];
        } else {
          assert r[i..i + 2] == t[i - |rep|..i - |rep| + 2];
          assert !OccursAt(t, pat, i - |rep|);
        }
      }
    } else {
      var t := Replace(s[1..], pat, rep);
      ReplaceRemovesPair(s[1..], pat, rep);
      assert r == [s[0]] + t;
      forall i | 0 <= i <= |r| ensures !OccursAt(r, pat, i) {
        if i + 2 > |r| {
        } else if i == 0 {
          ReplaceHead(s[1..], pat, rep);
          if s[0] == pat[0] {
            assert s[1] != pat[1] by { assert s[..2] == [s[0], s[1]]; }
            assert r[1] == t[0] != pat[1];
          } else {
            assert r[0] != pat[0];
          }
        } else {
          assert r[i..i + 2] == t[i - 1..i + 1];
          assert !OccursAt(t, pat, i - 1);
        }
      }
    }
  }
}
