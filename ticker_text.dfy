/**
 * The two string built-ins the dashboard applies to a typed ticker before adding
 * it: `String.prototype.trim` and `String.prototype.toUpperCase`.
 * Trimming removes every ECMAScript white-space and line-terminator code point;
 * upper-casing is modelled for ASCII letters only.
 */
module TickerText {

  /** The code points `trim` strips: ECMAScript WhiteSpace and LineTerminator. */
  predicate IsTrimmable(c: char)
  {
    || c == ' ' || c == '\t' || c == '\n' || c == '\r' || c == '\U{B}' || c == '\U{C}'
    || c == '\U{A0}' || c == '\U{1680}' || ('\U{2000}' <= c <= '\U{200A}')
    || c == '\U{2028}' || c == '\U{2029}' || c == '\U{202F}' || c == '\U{205F}'
    || c == '\U{3000}' || c == '\U{FEFF}'
  }

  predicate IsLowerAscii(c: char)
  {
    'a' <= c <= 'z'
  }

  /** Upper-case mapping of one character (ASCII letters only). */
  function UpperChar(c: char): (u: char)
    ensures !IsLowerAscii(u)
    ensures IsTrimmable(u) <==> IsTrimmable(c)
    ensures !IsLowerAscii(c) ==> u == c
  {
    if IsLowerAscii(c) then (c as int - 32) as char else c
  }

  /** How many characters of white space `s` starts with. */
  function LeadingSpace(s: string): (n: nat)
    ensures n <= |s|
    ensures forall k :: 0 <= k < n ==> IsTrimmable(s[k])
    ensures n < |s| ==> !IsTrimmable(s[n])
  {
    if s != [] && IsTrimmable(s[0]) then 1 + LeadingSpace(s[1..]) else 0
  }

  /** How many characters of white space `s` ends with. */
  function TrailingSpace(s: string): (n: nat)
    ensures n <= |s|
    ensures forall k :: |s| - n <= k < |s| ==> IsTrimmable(s[k])
    ensures n < |s| ==> !IsTrimmable(s[|s| - 1 - n])
  {
    if s != [] && IsTrimmable(s[|s| - 1]) then 1 + TrailingSpace(s[..|s| - 1]) else 0
  }

  /** `s.trim()`: `s` without its leading and trailing white space. */
  function Trim(s: string): (r: string)
    ensures |r| <= |s|
  {
    var i := LeadingSpace(s);
    if i == |s| then [] else
      var j := |s| - TrailingSpace(s);
      assert i < j;
      s[i..j]
  }

  /** The trimmed text is the slice of `s` after its leading white space, with only white space after it. */
  lemma TrimIsSlice(s: string)
    ensures LeadingSpace(s) + |Trim(s)| <= |s|
    ensures Trim(s) == s[LeadingSpace(s)..LeadingSpace(s) + |Trim(s)|]
    ensures forall k :: LeadingSpace(s) + |Trim(s)| <= k < |s| ==> IsTrimmable(s[k])
  {
  }

  /** The trimmed text is empty exactly when `s` is all white space. */
  lemma TrimEmpty(s: string)
    ensures Trim(s) == [] <==> forall k :: 0 <= k < |s| ==> IsTrimmable(s[k])
  {
  }

  /** A non-empty trimmed text neither starts nor ends with white space. */
  lemma TrimEnds(s: string)
    ensures Trim(s) != [] ==> !IsTrimmable(Trim(s)[0]) && !IsTrimmable(Trim(s)[|Trim(s)| - 1])
  {
    var i := LeadingSpace(s);
    if i < |s| {
      var j := |s| - TrailingSpace(s);
      var r := s[i..j];
      assert Trim(s) == r;
      assert r[0] == s[i];
      assert r[j - i - 1] == s[j - 1];
    }
  }

  /** `s.toUpperCase()`: same length, every letter upper-cased, every other character kept. */
  function ToUpper(s: string): (r: string)
    ensures |r| == |s|
    ensures forall k :: 0 <= k < |s| ==> r[k] == UpperChar(s[k])
  {
    if s == [] then [] else [UpperChar(s[0])] + ToUpper(s[1..])
  }

  /** A ticker as the dashboard stores it: non-empty, trimmed, with no lower-case letter. */
  predicate IsNormalTicker(t: string)
  {
    && t != []
    && !IsTrimmable(t[0])
    && !IsTrimmable(t[|t| - 1])
    && forall k :: 0 <= k < |t| ==> !IsLowerAscii(t[k])
  }

  /** `raw.trim().toUpperCase()` (Dashboard.jsx, lines 81 and 93). */
  function NormalizeTicker(raw: string): (t: string)
    ensures t == [] <==> forall k :: 0 <= k < |raw| ==> IsTrimmable(raw[k])
    ensures t != [] ==> IsNormalTicker(t)
  {
    TrimEmpty(raw);
    TrimEnds(raw);
    ToUpper(Trim(raw))
  }

  /** A ticker that is already normal comes back unchanged. */
  lemma NormalTickerIsFixed(t: string)
    requires IsNormalTicker(t)
    ensures NormalizeTicker(t) == t
  {
    assert LeadingSpace(t) == 0;
    assert TrailingSpace(t) == 0;
    assert Trim(t) == t;
    assert ToUpper(t) == t;
  }

  /** Normalising twice is the same as normalising once. */
  lemma NormalizeIdempotent(raw: string)
    ensures NormalizeTicker(NormalizeTicker(raw)) == NormalizeTicker(raw)
  {
    var t := NormalizeTicker(raw);
    if t != [] {
      NormalTickerIsFixed(t);
    }
  }
}
