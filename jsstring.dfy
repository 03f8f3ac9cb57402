/**
 * The JavaScript string built-ins the core relies on (`indexOf`, `lastIndexOf`,
 * `trim`, `charAt(0).toUpperCase()`), over strings as sequences of characters.
 */
module JsString {

  /** `WhiteSpace` and `LineTerminator` of ECMAScript: what `String.prototype.trim` strips. */
  predicate IsSpace(c: char) {
    || c == '\t' || c == '\n' || c == '\U{B}' || c == '\U{C}' || c == '\r' || c == ' '
    || c == '\U{A0}' || c == '\U{1680}' || ('\U{2000}' <= c <= '\U{200A}')
    || c == '\U{2028}' || c == '\U{2029}' || c == '\U{202F}' || c == '\U{205F}'
    || c == '\U{3000}' || c == '\U{FEFF}'
  }

  predicate IsUpperAscii(c: char) { 'A' <= c <= 'Z' }

  predicate IsLowerAscii(c: char) { 'a' <= c <= 'z' }

  /** `toUpperCase` restricted to ASCII: other characters are left alone. */
  function ToUpperAscii(c: char): (u: char)
    ensures IsLowerAscii(c) ==> IsUpperAscii(u) && u as int == c as int - 32
    ensures !IsLowerAscii(c) ==> u == c
    ensures !IsLowerAscii(u)
  {
    if IsLowerAscii(c) then (c as int - 32) as char else c
  }

  /** `s.indexOf(c)`: the first position of `c`, or -1. */
  function IndexOf(s: string, c: char): (r: int)
    ensures -1 <= r < |s|
    ensures r == -1 <==> c !in s
    ensures r >= 0 ==> s[r] == c && c !in s[..r]
  {
    if |s| == 0 then -1
    else if s[0] == c then 0
    else
      var r := IndexOf(s[1..], c);
      assert s[1..][..if r < 0 then 0 else r] == s[1..1 + if r < 0 then 0 else r];
      if r < 0 then -1 else r + 1
  }

  /** `s.lastIndexOf(c)`: the last position of `c`, or -1. */
  function LastIndexOf(s: string, c: char): (r: int)
    ensures -1 <= r < |s|
    ensures r == -1 <==> c !in s
    ensures r >= 0 ==> s[r] == c && c !in s[r + 1..]
  {
    if |s| == 0 then -1
    else if s[|s| - 1] == c then |s| - 1
    else
      var r := LastIndexOf(s[..|s| - 1], c);
      assert s == s[..|s| - 1] + [s[|s| - 1]];
      r
  }

  /** The number of whitespace characters at the start of `s`. */
  function LeadingSpaces(s: string): (i: nat)
    ensures i <= |s|
    ensures forall k :: 0 <= k < i ==> IsSpace(s[k])
    ensures i < |s| ==> !IsSpace(s[i])
  {
    if |s| == 0 || !IsSpace(s[0]) then 0 else 1 + LeadingSpaces(s[1..])
  }

  /** The position after the last non-whitespace character of `s` (0 when there is none). */
  function ContentEnd(s: string): (j: nat)
    ensures j <= |s|
    ensures forall k :: j <= k < |s| ==> IsSpace(s[k])
    ensures j > 0 ==> !IsSpace(s[j - 1])
  {
    if |s| == 0 || !IsSpace(s[|s| - 1]) then |s| else ContentEnd(s[..|s| - 1])
  }

  /** `s.trim()`: `s` without its leading and trailing whitespace. */
  function Trim(s: string): string {
    var i, j := LeadingSpaces(s), ContentEnd(s);
    if j <= i then [] else s[i..j]
  }

  /**
   * The trim of `s` is the slice of `s` that starts at its first
   * non-whitespace character; everything outside the slice is whitespace, and
   * the slice neither starts nor ends with whitespace.
   */
  lemma TrimShape(s: string)
    ensures LeadingSpaces(s) + |Trim(s)| <= |s|
    ensures Trim(s) == s[LeadingSpaces(s)..LeadingSpaces(s) + |Trim(s)|]
    ensures forall k :: 0 <= k < |s| && (k < LeadingSpaces(s) || LeadingSpaces(s) + |Trim(s)| <= k) ==> IsSpace(s[k])
    ensures Trim(s) == [] || (!IsSpace(Trim(s)[0]) && !IsSpace(Trim(s)[|Trim(s)| - 1]))
  {
    var i, j := LeadingSpaces(s), ContentEnd(s);
    if j <= i {
      AllSpaces(s);
      assert Trim(s) == [];
    } else {
      var t := s[i..j];
      assert Trim(s) == t;
      assert t[0] == s[i] && t[|t| - 1] == s[j - 1];
    }
  }

  lemma AllSpaces(s: string)
    requires ContentEnd(s) <= LeadingSpaces(s)
    ensures forall k :: 0 <= k < |s| ==> IsSpace(s[k])
  {
    var i, j := LeadingSpaces(s), ContentEnd(s);
    forall k | 0 <= k < |s| ensures IsSpace(s[k]) {
      if k >= i { assert k >= j; }
    }
  }

  /** Trimming twice is trimming once. */
  lemma TrimIdempotent(s: string)
    ensures Trim(Trim(s)) == Trim(s)
  {
    TrimShape(s);
    var t := Trim(s);
    if t != [] {
      assert LeadingSpaces(t) == 0;
      ContentEndOfTrimmed(t);
    }
  }

  /** A string that neither starts nor ends with whitespace is its own trim. */
  lemma TrimUnpadded(s: string)
    requires s == [] || (!IsSpace(s[0]) && !IsSpace(s[|s| - 1]))
    ensures Trim(s) == s
  {
    if s != [] {
      ContentEndOfTrimmed(s);
    }
  }

  lemma ContentEndOfTrimmed(s: string)
    requires s != [] && !IsSpace(s[|s| - 1])
    ensures ContentEnd(s) == |s|
  {
  }

  /** A string that ends in non-whitespace loses only its leading whitespace to `trim`. */
  lemma TrimOfUnpaddedEnd(s: string, lead: nat)
    requires lead < |s| && !IsSpace(s[lead]) && !IsSpace(s[|s| - 1])
    requires forall k :: 0 <= k < lead ==> IsSpace(s[k])
    ensures Trim(s) == s[lead..]
  {
    ContentEndOfTrimmed(s);
    assert LeadingSpaces(s) == lead;
  }

  /** `s.charAt(0).toUpperCase() + s.slice(1)` for ASCII: only the first character changes. */
  function Capitalise(s: string): (r: string)
    ensures |r| == |s|
    ensures s != [] ==> r[0] == ToUpperAscii(s[0]) && r[1..] == s[1..]
  {
    if s == [] then [] else [ToUpperAscii(s[0])] + s[1..]
  }

  /** Capitalising a capitalised string changes nothing. */
  lemma CapitaliseIdempotent(s: string)
    ensures Capitalise(Capitalise(s)) == Capitalise(s)
  {
  }

  /** The decimal digits of `n`, as `String(n)` writes them. */
  function NatToString(n: nat): (r: string)
    ensures |r| >= 1
    ensures forall k :: 0 <= k < |r| ==> '0' <= r[k] <= '9'
    decreases n
  {
    var d := ['0' + (n % 10) as char];
    if n < 10 then d else NatToString(n / 10) + d
  }

  /** The number a run of decimal digits spells, read left to right. */
  function DigitsValue(s: string): nat
    requires forall k :: 0 <= k < |s| ==> '0' <= s[k] <= '9'
  {
    if s == [] then 0 else DigitsValue(s[..|s| - 1]) * 10 + (s[|s| - 1] - '0') as nat
  }

  /**
   * `NatToString(n)` spells `n` and is canonical: it has no leading zero except
   * for `n == 0` itself.
   */
  lemma {:induction false} NatToStringValue(n: nat)
    ensures DigitsValue(NatToString(n)) == n
    ensures n > 0 ==> NatToString(n)[0] != '0'
    ensures n == 0 ==> NatToString(n) == "0"
    decreases n
  {
    var d := ['0' + (n % 10) as char];
    if n >= 10 {
      var p := NatToString(n / 10);
      NatToStringValue(n / 10);
      var r := p + d;
      assert r == NatToString(n);
      assert r[..|r| - 1] == p;
      assert r[0] == p[0];
    }
  }

  /** Distinct numbers are written differently, so index keys never collide. */
  lemma NatToStringInjective(a: nat, b: nat)
    ensures NatToString(a) == NatToString(b) ==> a == b
  {
    NatToStringValue(a);
    NatToStringValue(b);
  }
}
