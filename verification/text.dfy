/**
 Python string helpers used by the request handler: `str.strip()` with no
 argument and `str.endswith(suffix)`, on strings seen as sequences of code
 points.
 */
module PyText {

  /** Python's `str.isspace()` for one code point (CPython's whitespace table). */
  predicate IsSpace(c: char) {
    || ('\t' <= c <= '\r')
    || ('\U{1C}' <= c <= '\U{1F}')
    || c == ' '
    || c == '\U{85}'
    || c == '\U{A0}'
    || c == '\U{1680}'
    || ('\U{2000}' <= c <= '\U{200A}')
    || c == '\U{2028}'
    || c == '\U{2029}'
    || c == '\U{202F}'
    || c == '\U{205F}'
    || c == '\U{3000}'
  }

  /**
   `[lo, hi)` is the part of `s` that stripping keeps: only whitespace lies
   outside it, and it neither starts nor ends with whitespace.
   */
  ghost predicate StripBounds(s: string, lo: int, hi: int) {
    && 0 <= lo <= hi <= |s|
    && (forall k :: 0 <= k < lo ==> IsSpace(s[k]))
    && (forall k :: hi <= k < |s| ==> IsSpace(s[k]))
    && (lo < hi ==> !IsSpace(s[lo]) && !IsSpace(s[hi - 1]))
  }

  /** `r` is `s` with whitespace cut from both ends until none is left at either end. */
  ghost predicate IsStripOf(r: string, s: string) {
    exists lo, hi :: StripBounds(s, lo, hi) && r == s[lo..hi]
  }

  /** `t` neither starts nor ends with whitespace. */
  ghost predicate Stripped(t: string) {
    t == [] || (!IsSpace(t[0]) && !IsSpace(t[|t| - 1]))
  }

  /** The first position at or after `i` that is not whitespace (or the end of `s`). */
  function SkipForward(s: string, i: nat): (k: nat)
    requires i <= |s|
    ensures i <= k <= |s|
    ensures forall j :: i <= j < k ==> IsSpace(s[j])
    ensures k == |s| || !IsSpace(s[k])
    decreases |s| - i
  {
    if i < |s| && IsSpace(s[i]) then SkipForward(s, i + 1) else i
  }

  /** The position just after the last non-whitespace one in `s[lo..j]` (or `lo`). */
  function SkipBackward(s: string, lo: nat, j: nat): (k: nat)
    requires lo <= j <= |s|
    ensures lo <= k <= j
    ensures forall m :: k <= m < j ==> IsSpace(s[m])
    ensures k == lo || !IsSpace(s[k - 1])
    decreases j - lo
  {
    if lo < j && IsSpace(s[j - 1]) then SkipBackward(s, lo, j - 1) else j
  }

  /** `str.strip()`: drops the leading and the trailing whitespace of `s`. */
  function Strip(s: string): (r: string)
    ensures IsStripOf(r, s)
    ensures Stripped(r)
  {
    var lo := SkipForward(s, 0);
    var hi := SkipBackward(s, lo, |s|);
    assert StripBounds(s, lo, hi);
    s[lo..hi]
  }

  /** `str.rstrip()`: drops the trailing whitespace of `s`. */
  function StripEnd(s: string): (r: string)
    ensures |r| <= |s| && r == s[..|r|]
    ensures forall k :: |r| <= k < |s| ==> IsSpace(s[k])
    ensures r == [] || !IsSpace(r[|r| - 1])
  {
    s[..SkipBackward(s, 0, |s|)]
  }

  /** `s.endswith(suffix)`. */
  predicate EndsWith(s: string, suffix: string) {
    |suffix| <= |s| && s[|s| - |suffix|..] == suffix
  }

  /** Appending the same text to a string and to one of its suffixes keeps it a suffix. */
  lemma EndsWithAppend(s: string, suffix: string, tail: string)
    requires EndsWith(s, suffix)
    ensures EndsWith(s + tail, suffix + tail)
  {
    var e := s + tail;
    assert e[|e| - |suffix + tail|..] == s[|s| - |suffix|..] + tail;
  }

  /** Bounds that leave anything kept pin down what is kept: they are unique. */
  lemma StripBoundsUnique(s: string, lo: int, hi: int, lo': int, hi': int)
    requires StripBounds(s, lo, hi) && StripBounds(s, lo', hi')
    ensures s[lo..hi] == s[lo'..hi']
  {
    // Bounds that keep nothing make every position whitespace, so the other
    // bounds keep nothing either; bounds that keep something sit at the first
    // and the last non-whitespace positions.
    if lo < hi && lo' < hi' {
      assert lo == lo' && hi == hi';
    }
  }

  /**
   `Strip` is the only way to cut whitespace from both ends of `s` so that no
   whitespace is left at either end: any such cut equals `Strip(s)`.
   */
  lemma StripUnique(r: string, s: string)
    requires IsStripOf(r, s)
    ensures r == Strip(s)
  {
    var lo, hi :| StripBounds(s, lo, hi) && r == s[lo..hi];
    var lo', hi' :| StripBounds(s, lo', hi') && Strip(s) == s[lo'..hi'];
    StripBoundsUnique(s, lo, hi, lo', hi');
  }

  /** A string that already has no whitespace at either end is left as it is. */
  lemma StripOfStripped(s: string)
    requires Stripped(s)
    ensures Strip(s) == s
  {
    assert StripBounds(s, 0, |s|);
    assert s[0..|s|] == s;
    StripUnique(s, s);
  }

  /** Stripping twice is stripping once. */
  lemma StripIdempotent(s: string)
    ensures Strip(Strip(s)) == Strip(s)
  {
    StripOfStripped(Strip(s));
  }

  /** When the last code point is not whitespace, `strip` keeps it as its own last one. */
  lemma StripOfNonSpaceEnd(s: string)
    requires s != [] && !IsSpace(s[|s| - 1])
    ensures Strip(s) != [] && Strip(s)[|Strip(s)| - 1] == s[|s| - 1]
  {
    var r := Strip(s);
    var lo, hi :| StripBounds(s, lo, hi) && r == s[lo..hi];
    assert hi == |s|;
    assert lo < hi;
    assert r[|r| - 1] == s[|s| - 1];
  }

  /**
   Whitespace in front of position `lo` cannot complete a suffix whose first
   code point is not whitespace: `s[..hi]` ends with it exactly when
   `s[lo..hi]` does.
   */
  lemma EndsWithAfterSpace(s: string, lo: nat, hi: nat, suffix: string)
    requires lo <= hi <= |s|
    requires forall k :: 0 <= k < lo ==> IsSpace(s[k])
    requires suffix != [] && !IsSpace(suffix[0])
    ensures EndsWith(s[..hi], suffix) <==> EndsWith(s[lo..hi], suffix)
  {
    var e := s[..hi];
    var r := s[lo..hi];
    if EndsWith(r, suffix) {
      assert e[|e| - |suffix|..] == r[|r| - |suffix|..];
    }
    if EndsWith(e, suffix) {
      var j := |e| - |suffix|;
      assert e[j..][0] == e[j];
      assert j >= lo;
      assert e[j..] == r[j - lo..];
    }
  }

  /**
   For a suffix without whitespace at its start, testing `s.strip()` and
   testing `s.rstrip()` agree: leading whitespace never reaches the suffix.
   */
  lemma EndsWithStripIffStripEnd(s: string, suffix: string)
    requires suffix != [] && !IsSpace(suffix[0])
    ensures EndsWith(Strip(s), suffix) <==> EndsWith(StripEnd(s), suffix)
  {
    var lo := SkipForward(s, 0);
    var hi := SkipBackward(s, lo, |s|);
    var e := SkipBackward(s, 0, |s|);
    if lo < hi {
      assert e == hi;
      EndsWithAfterSpace(s, lo, hi, suffix);
    } else {
      assert e == 0;
    }
  }
}
