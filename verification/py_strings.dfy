/** The `str` methods the core calls, on strings of Unicode code points. */
module PyStrings {

  /** `c.isspace()`: the characters Python's `str.strip()` removes. */
  predicate IsSpace(c: char) {
    || c == ' ' || ('\t' <= c <= '\r')
    || ('\U{1C}' <= c <= '\U{1F}')
    || c == '\U{85}' || c == '\U{A0}' || c == '\U{1680}'
    || ('\U{2000}' <= c <= '\U{200A}')
    || c == '\U{2028}' || c == '\U{2029}' || c == '\U{202F}' || c == '\U{205F}'
    || c == '\U{3000}'
  }

  /** `s.startswith(p)`. */
  predicate StartsWith(s: string, p: string) {
    |p| <= |s| && s[..|p|] == p
  }

  /** `s.endswith(p)`. */
  predicate EndsWith(s: string, p: string) {
    |p| <= |s| && s[|s| - |p|..] == p
  }

  /** A string ends with what was appended to it. */
  lemma EndsWithAppended(a: string, b: string)
    ensures EndsWith(a + b, b)
  {
    assert (a + b)[|a|..] == b;
  }

  /** `p` occurs in `s` starting at position `i`. */
  predicate OccursAt(s: string, p: string, i: int) {
    0 <= i <= |s| - |p| && s[i..i + |p|] == p
  }

  /** `p in s`: `p` occurs in `s` as a contiguous substring. */
  predicate Contains(s: string, p: string) {
    exists i | 0 <= i <= |s| - |p| :: OccursAt(s, p, i)
  }

  /** A prefix or a suffix is in particular a substring. */
  lemma PrefixOrSuffixIsSubstring(s: string, p: string)
    requires StartsWith(s, p) || EndsWith(s, p)
    ensures Contains(s, p)
  {
    if StartsWith(s, p) {
      assert OccursAt(s, p, 0);
    } else {
      assert OccursAt(s, p, |s| - |p|);
    }
  }

  /** A string occurs in any string built around it. */
  lemma ContainsMiddle(a: string, p: string, b: string)
    ensures Contains(a + p + b, p)
  {
    var s := a + p + b;
    assert s[|a|..|a| + |p|] == p;
    assert OccursAt(s, p, |a|);
  }

  /** `s.lstrip()`. */
  function LStrip(s: string): (r: string)
    ensures |r| <= |s| && r == s[|s| - |r|..]
    ensures forall k :: 0 <= k < |s| - |r| ==> IsSpace(s[k])
    ensures r == [] || !IsSpace(r[0])
  {
    if s != [] && IsSpace(s[0]) then LStrip(s[1..]) else s
  }

  /** `s.rstrip()`. */
  function RStrip(s: string): (r: string)
    ensures |r| <= |s| && r == s[..|r|]
    ensures forall k :: |r| <= k < |s| ==> IsSpace(s[k])
    ensures r == [] || !IsSpace(r[|r| - 1])
  {
    if s != [] && IsSpace(s[|s| - 1]) then RStrip(s[..|s| - 1]) else s
  }

  /** `s.strip()`: both ends' whitespace removed; what is left starts and
      ends with a non-space character. */
  function Strip(s: string): (r: string)
    ensures |r| <= |s|
    ensures r == [] || (!IsSpace(r[0]) && !IsSpace(r[|r| - 1]))
  {
    RStrip(LStrip(s))
  }

  /** The bounds of the stripped slice: `i` characters of whitespace
      before it and `|s| - j` after it. */
  lemma StripBounds(s: string) returns (i: nat, j: nat)
    ensures i <= j <= |s| && Strip(s) == s[i..j]
    ensures forall k :: 0 <= k < i ==> IsSpace(s[k])
    ensures forall k :: j <= k < |s| ==> IsSpace(s[k])
  {
    var t := LStrip(s);
    var n := |RStrip(t)|;
    i, j := |s| - |t|, |s| - |t| + n;
    SliceOfSuffix(s, i, n);
    SpaceTail(s, i, n);
  }

  /** A prefix of a suffix of `s` is a slice of `s`. */
  lemma SliceOfSuffix(s: string, i: nat, n: nat)
    requires i + n <= |s|
    ensures s[i..][..n] == s[i..i + n]
  {
  }

  /** Whitespace at the end of a suffix of `s` is whitespace at the end
      of `s`. */
  lemma SpaceTail(s: string, i: nat, n: nat)
    requires i + n <= |s|
    requires forall k :: n <= k < |s[i..]| ==> IsSpace(s[i..][k])
    ensures forall k :: i + n <= k < |s| ==> IsSpace(s[k])
  {
    forall k | i + n <= k < |s| ensures IsSpace(s[k]) {
      assert s[k] == s[i..][k - i];
    }
  }

  /** The stripped string is the slice of `s` between a run of whitespace
      at the front and one at the back. */
  lemma StripIsTrimmedSlice(s: string)
    ensures exists i, j :: 0 <= i <= j <= |s| && Strip(s) == s[i..j]
              && (forall k :: 0 <= k < i ==> IsSpace(s[k]))
              && (forall k :: j <= k < |s| ==> IsSpace(s[k]))
  {
    var i, j := StripBounds(s);
  }

  /** Whitespace in front of a string that does not start with whitespace
      is exactly what `lstrip` removes. */
  lemma {:induction false} LStripSpaces(a: string, u: string)
    requires forall k :: 0 <= k < |a| ==> IsSpace(a[k])
    requires u == [] || !IsSpace(u[0])
    ensures LStrip(a + u) == u
    decreases |a|
  {
    if a == [] {
      assert a + u == u;
    } else {
      assert (a + u)[0] == a[0];
      assert (a + u)[1..] == a[1..] + u;
      LStripSpaces(a[1..], u);
    }
  }

  /** Whitespace behind a string that does not end with whitespace is
      exactly what `rstrip` removes. */
  lemma {:induction false} RStripSpaces(u: string, t: string)
    requires forall k :: 0 <= k < |t| ==> IsSpace(t[k])
    requires u == [] || !IsSpace(u[|u| - 1])
    ensures RStrip(u + t) == u
    decreases |t|
  {
    if t == [] {
      assert u + t == u;
    } else {
      var n := |u + t|;
      assert (u + t)[n - 1] == t[|t| - 1];
      assert (u + t)[..n - 1] == u + t[..|t| - 1];
      RStripSpaces(u, t[..|t| - 1]);
    }
  }

  /** A line that starts with `#` still starts with `#` once stripped. */
  lemma CommentSurvivesStrip(line: string)
    requires StartsWith(line, "#")
    ensures StartsWith(Strip(line), "#")
  {
    assert line[0] == '#' && !IsSpace(line[0]);
    assert LStrip(line) == line;
    var r := RStrip(line);
    assert |r| >= 1;
    assert r[0] == line[0];
  }

  /** A line of whitespace only strips to the empty string. */
  lemma StripBlank(s: string)
    requires forall k :: 0 <= k < |s| ==> IsSpace(s[k])
    ensures Strip(s) == ""
  {
    StripIsTrimmedSlice(s);
  }

  /** `strip` of a word padded with whitespace on both sides is the word. */
  lemma StripPadded(a: string, w: string, t: string)
    requires forall k :: 0 <= k < |a| ==> IsSpace(a[k])
    requires forall k :: 0 <= k < |t| ==> IsSpace(t[k])
    requires w != [] && !IsSpace(w[0]) && !IsSpace(w[|w| - 1])
    ensures Strip(a + w + t) == w
  {
    assert (w + t)[0] == w[0];
    assert a + w + t == a + (w + t);
    LStripSpaces(a, w + t);
    RStripSpaces(w, t);
  }

  /** `c.lower()` on ASCII letters; every other character is unchanged. */
  function LowerChar(c: char): char {
    if 'A' <= c <= 'Z' then (c as int + 32) as char else c
  }

  /** `s.lower()`, for the ASCII letters. */
  function Lower(s: string): (r: string)
    ensures |r| == |s|
    ensures forall k :: 0 <= k < |s| ==> r[k] == LowerChar(s[k])
  {
    seq(|s|, k requires 0 <= k < |s| => LowerChar(s[k]))
  }

  /** A string without upper-case ASCII letters is its own lower case. */
  lemma LowerKeepsLower(s: string)
    requires forall k :: 0 <= k < |s| ==> !('A' <= s[k] <= 'Z')
    ensures Lower(s) == s
  {
  }
}
