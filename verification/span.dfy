/**
 The JSON span search: `re.search(r'\{.*\}', text, re.DOTALL)`. The regular
 expression matches a '{', any code points (line breaks included), then a
 '}'. The search takes the leftmost start, and the greedy star takes the
 longest match there, so the span runs from the first '{' to the last '}'.
 */
module JsonSpan {
  import opened Results

  /** The position of the first `c` in `t`, if any. */
  function FirstIndexOf(t: string, c: char): (r: Option<nat>)
    ensures r.None? <==> forall k :: 0 <= k < |t| ==> t[k] != c
    ensures r.Some? ==> r.value < |t| && t[r.value] == c
    ensures r.Some? ==> forall k :: 0 <= k < r.value ==> t[k] != c
  {
    if t == [] then None
    else if t[0] == c then Some(0)
    else match FirstIndexOf(t[1..], c)
      case None => None
      case Some(i) => Some(i + 1)
  }

  /** The position of the last `c` in `t`, if any. */
  function LastIndexOf(t: string, c: char): (r: Option<nat>)
    ensures r.None? <==> forall k :: 0 <= k < |t| ==> t[k] != c
    ensures r.Some? ==> r.value < |t| && t[r.value] == c
    ensures r.Some? ==> forall k :: r.value < k < |t| ==> t[k] != c
  {
    if t == [] then None
    else if t[|t| - 1] == c then Some(|t| - 1)
    else LastIndexOf(t[..|t| - 1], c)
  }

  /** A `c` at `i` with none before it is the first one. */
  lemma FirstIndexAt(t: string, c: char, i: nat)
    requires i < |t| && t[i] == c
    requires forall k :: 0 <= k < i ==> t[k] != c
    ensures FirstIndexOf(t, c) == Some(i)
  {
    var r := FirstIndexOf(t, c);
    assert r.Some?;
    assert !(r.value < i) && !(i < r.value);
  }

  /** A `c` at `i` with none after it is the last one. */
  lemma LastIndexAt(t: string, c: char, i: nat)
    requires i < |t| && t[i] == c
    requires forall k :: i < k < |t| ==> t[k] != c
    ensures LastIndexOf(t, c) == Some(i)
  {
    var r := LastIndexOf(t, c);
    assert r.Some?;
    assert !(r.value < i) && !(i < r.value);
  }

  /** Text without a '{' has no span. */
  lemma NoSpanWithoutOpenBrace(t: string)
    requires '{' !in t
    ensures FindSpan(t).None?
  {
    assert forall k :: 0 <= k < |t| ==> t[k] != '{' by {
      forall k | 0 <= k < |t| ensures t[k] != '{' { assert t[k] in t; }
    }
  }

  /** The pattern matches `t[i..j]`: a '{', then anything, then a '}'. */
  ghost predicate MatchAt(t: string, i: int, j: int) {
    0 <= i && i + 2 <= j <= |t| && t[i] == '{' && t[j - 1] == '}'
  }

  /** `[lo, hi)` is what `re.search` reports: the leftmost match, and the longest one there. */
  ghost predicate SearchResult(t: string, lo: int, hi: int) {
    && MatchAt(t, lo, hi)
    && forall i, j :: MatchAt(t, i, j) ==> lo < i || (lo == i && j <= hi)
  }

  /**
   The bounds `[lo, hi)` of the matched span, if the pattern matches: the
   first '{' through the last '}', when that '}' comes after that '{'.
   */
  function FindSpan(t: string): (r: Option<(nat, nat)>)
    ensures r.Some? <==> exists i, j :: 0 <= i < j < |t| && t[i] == '{' && t[j] == '}'
    ensures r.Some? ==> var (lo, hi) := r.value;
      && lo + 2 <= hi <= |t|
      && t[lo] == '{' && t[hi - 1] == '}'
      && (forall k :: 0 <= k < lo ==> t[k] != '{')
      && (forall k :: hi <= k < |t| ==> t[k] != '}')
  {
    match FirstIndexOf(t, '{')
    case None => None
    case Some(lo) =>
      match LastIndexOf(t, '}')
      case None => None
      case Some(j) => if lo < j then Some((lo, j + 1)) else None
  }

  /** The matched text itself, `json_match.group(0)`. */
  function Span(t: string): (r: Option<string>)
    ensures r.Some? ==> FindSpan(t).Some? && r.value == t[FindSpan(t).value.0..FindSpan(t).value.1]
    ensures r.Some? ==> |r.value| >= 2 && r.value[0] == '{' && r.value[|r.value| - 1] == '}'
    ensures r.None? <==> FindSpan(t).None?
  {
    match FindSpan(t)
    case None => None
    case Some((lo, hi)) => Some(t[lo..hi])
  }

  /** `FindSpan` reports exactly the span `re.search` finds, and nothing when it finds none. */
  lemma FindSpanIsSearch(t: string, lo: int, hi: int)
    ensures FindSpan(t) == Some((lo, hi)) <==> SearchResult(t, lo, hi)
    ensures FindSpan(t).None? <==> forall i, j :: !MatchAt(t, i, j)
  {
    var r := FindSpan(t);
    if r.Some? {
      var (a, b) := r.value;
      assert MatchAt(t, a, b);
      forall i, j | MatchAt(t, i, j) ensures a < i || (a == i && j <= b) {
        assert t[i] == '{' && t[j - 1] == '}';
      }
      assert SearchResult(t, a, b);
      if SearchResult(t, lo, hi) {
        assert lo <= a && (lo == a ==> b <= hi);
        assert a <= lo && (a == lo ==> hi <= b);
      }
    }
  }
}
