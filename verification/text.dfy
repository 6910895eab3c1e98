/**
  String primitives the handler relies on: JavaScript's `String.prototype.trim`
  and the first/last occurrence of a character, stated over `seq<char>`
  (one `char` per Unicode scalar value; indices count code points).
 */
module Text {
  import opened Wrappers

  /** The WhiteSpace and LineTerminator code points that ECMAScript's `trim` strips. */
  predicate IsWhiteSpace(c: char): (b: bool)
    ensures c == '\n' || c == ' ' || c == '\t' || c == '\r' ==> b
    ensures c == '"' || c == '{' || c == '}' || ('0' <= c <= '9') || ('A' <= c <= 'Z') || ('a' <= c <= 'z') ==> !b
  {
    || c == '\t' || c == '\n' || c == '\U{0B}' || c == '\U{0C}' || c == '\r'
    || c == ' ' || c == '\U{A0}' || c == '\U{1680}'
    || ('\U{2000}' <= c <= '\U{200A}')
    || c == '\U{2028}' || c == '\U{2029}' || c == '\U{202F}' || c == '\U{205F}'
    || c == '\U{3000}' || c == '\U{FEFF}'
  }

  predicate AllWhiteSpace(s: string) {
    forall i :: 0 <= i < |s| ==> IsWhiteSpace(s[i])
  }

  /** True when `s` neither starts nor ends with white space. */
  predicate IsTrimmed(s: string) {
    s == [] || (!IsWhiteSpace(s[0]) && !IsWhiteSpace(s[|s| - 1]))
  }

  /** The length of the longest all-white-space prefix of `s`. */
  function LeadingWhiteSpace(s: string): (n: nat)
    ensures n <= |s|
    ensures AllWhiteSpace(s[..n])
    ensures n < |s| ==> !IsWhiteSpace(s[n])
  {
    if |s| > 0 && IsWhiteSpace(s[0]) then 1 + LeadingWhiteSpace(s[1..]) else 0
  }

  /** The length of the longest all-white-space suffix of `s`. */
  function TrailingWhiteSpace(s: string): (n: nat)
    ensures n <= |s|
    ensures AllWhiteSpace(s[|s| - n..])
    ensures n < |s| ==> !IsWhiteSpace(s[|s| - 1 - n])
  {
    if |s| > 0 && IsWhiteSpace(s[|s| - 1]) then 1 + TrailingWhiteSpace(s[..|s| - 1]) else 0
  }

  /** `String.prototype.trim`: drop leading, then trailing, white space. */
  function Trim(s: string): (r: string)
    ensures IsTrimmed(r)
    ensures |r| <= |s|
  {
    var t := s[LeadingWhiteSpace(s)..];
    t[..|t| - TrailingWhiteSpace(t)]
  }

  lemma {:induction false} LeadingOfPadded(w: string, t: string)
    requires AllWhiteSpace(w)
    requires t == [] || !IsWhiteSpace(t[0])
    ensures LeadingWhiteSpace(w + t) == |w|
  {
    if w != [] {
      assert (w + t)[0] == w[0];
      assert (w + t)[1..] == w[1..] + t;
      LeadingOfPadded(w[1..], t);
    } else {
      assert w + t == t;
    }
  }

  lemma {:induction false} TrailingOfPadded(t: string, w: string)
    requires AllWhiteSpace(w)
    requires t == [] || !IsWhiteSpace(t[|t| - 1])
    ensures TrailingWhiteSpace(t + w) == |w|
  {
    if w != [] {
      assert (t + w)[|t + w| - 1] == w[|w| - 1];
      assert (t + w)[..|t + w| - 1] == t + w[..|w| - 1];
      TrailingOfPadded(t, w[..|w| - 1]);
    } else {
      assert t + w == t;
    }
  }

  /**
    Trimming is exactly the removal of white-space padding: whatever
    white space surrounds a trimmed core, `Trim` gives back that core.
   */
  lemma TrimStripsPadding(w1: string, t: string, w2: string)
    requires AllWhiteSpace(w1) && AllWhiteSpace(w2)
    requires IsTrimmed(t)
    ensures Trim(w1 + t + w2) == t
  {
    var s := w1 + t + w2;
    if t == [] {
      assert s == w1 + w2;
      assert AllWhiteSpace(s);
      LeadingOfPadded(s, []);
      assert s + [] == s;
    } else {
      assert s == w1 + (t + w2);
      LeadingOfPadded(w1, t + w2);
      assert s[|w1|..] == t + w2;
      TrailingOfPadded(t, w2);
      assert (t + w2)[..|t|] == t;
    }
  }

  /** Trimming a string that is already trimmed changes nothing. */
  lemma TrimIdempotent(s: string)
    ensures Trim(Trim(s)) == Trim(s)
  {
    var t := Trim(s);
    TrimStripsPadding([], t, []);
    assert [] + t + [] == t;
  }

  /** The index of the first occurrence of `c` in `s`, if any. */
  function IndexOf(s: string, c: char): (r: Option<nat>)
    ensures r.None? <==> c !in s
    ensures r.Some? ==> r.value < |s| && s[r.value] == c
    ensures r.Some? ==> c !in s[..r.value]
    ensures r.Some? ==> forall k :: 0 <= k < r.value ==> s[k] != c
  {
    if |s| == 0 then None
    else if s[0] == c then Some(0)
    else
      match IndexOf(s[1..], c)
      case None => None
      case Some(i) =>
        assert s[..i + 1] == [s[0]] + s[1..][..i];
        Some(i + 1)
  }

  /** The index of the last occurrence of `c` in `s`, if any. */
  function LastIndexOf(s: string, c: char): (r: Option<nat>)
    ensures r.None? <==> c !in s
    ensures r.Some? ==> r.value < |s| && s[r.value] == c
    ensures r.Some? ==> c !in s[r.value + 1..]
    ensures r.Some? ==> forall k :: r.value < k < |s| ==> s[k] != c
  {
    if |s| == 0 then None
    else if s[|s| - 1] == c then Some(|s| - 1)
    else
      assert s == s[..|s| - 1] + [s[|s| - 1]];
      match LastIndexOf(s[..|s| - 1], c)
      case None => None
      case Some(i) =>
        assert s[i + 1..] == s[..|s| - 1][i + 1..] + [s[|s| - 1]];
        Some(i)
  }
}
