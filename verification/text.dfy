/**
 * The JavaScript string operations the components rely on, with the
 * semantics ECMAScript gives them: `toLowerCase`, `toUpperCase` of one
 * character, `includes`, `startsWith`, `replace(/\D/g, "")`,
 * `Number.parseInt` and integer-to-decimal conversion.
 * Case mapping is modelled for the ASCII and Latin-1 ranges only.
 */
module Text {
  import opened Optional
  import Seqs

  // ---------------------------------------------------------------- case

  /** Upper-case letters of ASCII and Latin-1 (U+00C0..U+00DE without the multiplication sign). */
  predicate IsUpperLatin(c: char) {
    ('A' <= c <= 'Z') || ('\U{C0}' <= c <= '\U{DE}' && c != '\U{D7}')
  }

  /** `toLowerCase` of one character: each upper-case letter moves to its lower-case form, 32 code points on. */
  function LowerChar(c: char): char {
    if IsUpperLatin(c) then (c as int + 32) as char else c
  }

  function Lower(s: string): string {
    seq(|s|, i requires 0 <= i < |s| => LowerChar(s[i]))
  }

  /** Lower-casing is idempotent, so comparing lower-cased strings is stable. */
  lemma LowerIdempotent(s: string)
    ensures Lower(Lower(s)) == Lower(s)
    ensures |Lower(s)| == |s|
  {
    forall i | 0 <= i < |s|
      ensures Lower(Lower(s))[i] == Lower(s)[i]
    {
      assert !IsUpperLatin(LowerChar(s[i]));
    }
  }

  /** Lower-case letters whose upper-case form is an upper-case Latin letter 32 code points back. */
  predicate IsLowerPaired(c: char) {
    'a' <= c <= 'z' || ('\U{E0}' <= c <= '\U{FE}' && c != '\U{F7}')
  }

  /**
   * `c.toUpperCase()`, which may yield more than one character: the German
   * sharp s becomes "SS", and y-diaeresis and the micro sign leave Latin-1.
   */
  function UpperOf(c: char): (r: string)
    ensures |r| > 0
    ensures IsLowerPaired(c) ==> |r| == 1 && IsUpperLatin(r[0]) && LowerChar(r[0]) == c
    ensures !IsLowerPaired(c) && c !in {'\U{DF}', '\U{FF}', '\U{B5}'} ==> r == [c]
  {
    if IsLowerPaired(c) then [(c as int - 32) as char]
    else if c == '\U{DF}' then "SS"
    else if c == '\U{FF}' then "\U{178}"
    else if c == '\U{B5}' then "\U{39C}"
    else [c]
  }

  // ---------------------------------------------------------- substrings

  /** `s.includes(sub)`: `sub` occurs in `s` at some position (the empty string occurs everywhere). */
  predicate Contains(s: string, sub: string)
    decreases |s|
  {
    sub <= s || (|s| > 0 && Contains(s[1..], sub))
  }

  /** A string contains whatever is spliced into it. */
  lemma {:induction false} ContainsInfix(a: string, b: string, c: string)
    ensures Contains(a + b + c, b)
  {
    if |a| == 0 {
      assert a + b + c == b + c;
    } else {
      assert (a + b + c)[1..] == a[1..] + b + c;
      ContainsInfix(a[1..], b, c);
    }
  }

  /** An occurrence is never longer than the string it occurs in. */
  lemma {:induction false} ContainsShorter(s: string, sub: string)
    requires Contains(s, sub)
    ensures |sub| <= |s|
  {
    if !(sub <= s) {
      ContainsShorter(s[1..], sub);
    }
  }

  /** `s.toLowerCase().includes(q.toLowerCase())`. */
  predicate IncludesIgnoringCase(s: string, q: string) {
    Contains(Lower(s), Lower(q))
  }

  /** The empty query matches every string; every string matches itself. */
  lemma IncludesIgnoringCaseBasics(s: string)
    ensures IncludesIgnoringCase(s, "")
    ensures IncludesIgnoringCase(s, s)
  {
    assert Lower("") == "";
  }

  // -------------------------------------------------------------- digits

  predicate IsDigit(c: char) {
    '0' <= c <= '9'
  }

  /** `s.replace(/\D/g, "")`: the decimal digits of `s`, in order. */
  function Digits(s: string): (r: string)
    ensures forall i :: 0 <= i < |r| ==> IsDigit(r[i])
    ensures forall c :: c in r <==> c in s && IsDigit(c)
    ensures Seqs.IsSubsequence(r, s)
  {
    Seqs.Filter(IsDigit, s)
  }

  /** Stripping non-digits from a string of digits changes nothing. */
  lemma DigitsOfDigits(s: string)
    requires forall i :: 0 <= i < |s| ==> IsDigit(s[i])
    ensures Digits(s) == s
  {
    Seqs.FilterKeepsAll(IsDigit, s);
  }

  lemma DigitsAppend(a: string, b: string)
    ensures Digits(a + b) == Digits(a) + Digits(b)
  {
    Seqs.FilterAppend(IsDigit, a, b);
  }

  /** Stripping non-digits from text without digits leaves nothing. */
  lemma {:induction false} DigitsOfNonDigits(s: string)
    requires forall i :: 0 <= i < |s| ==> !IsDigit(s[i])
    ensures Digits(s) == ""
  {
    if |s| > 0 {
      DigitsOfNonDigits(s[1..]);
    }
  }

  function DigitChar(d: int): (c: char)
    requires 0 <= d < 10
    ensures IsDigit(c)
  {
    ('0' as int + d) as char
  }

  /** The decimal representation of `n`, without leading zeros. */
  function NatToString(n: nat): (r: string)
    ensures |r| > 0
    ensures forall i :: 0 <= i < |r| ==> IsDigit(r[i])
  {
    if n < 10 then [DigitChar(n)] else NatToString(n / 10) + [DigitChar(n % 10)]
  }

  /** `String(i)` for an integer. */
  function IntToString(i: int): (r: string)
    ensures |r| > 0
  {
    if i < 0 then "-" + NatToString(-i) else NatToString(i)
  }

  // ------------------------------------------------------ Number.parseInt

  /** The characters `parseInt` skips at the start: white space and line terminators. */
  predicate IsJsSpace(c: char) {
    c == ' ' || c == '\t' || c == '\n' || c == '\r' || c == '\U{B}' || c == '\U{C}'
    || c == '\U{A0}' || c == '\U{FEFF}' || c == '\U{1680}' || ('\U{2000}' <= c <= '\U{200A}')
    || c == '\U{2028}' || c == '\U{2029}' || c == '\U{202F}' || c == '\U{205F}' || c == '\U{3000}'
  }

  function TrimStart(s: string): (r: string)
    ensures |r| <= |s| && r == s[|s| - |r|..]
    ensures |r| > 0 ==> !IsJsSpace(r[0])
    ensures forall i :: 0 <= i < |s| - |r| ==> IsJsSpace(s[i])
  {
    if |s| > 0 && IsJsSpace(s[0]) then TrimStart(s[1..]) else s
  }

  predicate IsHexDigit(c: char) {
    IsDigit(c) || 'a' <= c <= 'f' || 'A' <= c <= 'F'
  }

  function HexValue(c: char): (v: nat)
    requires IsHexDigit(c)
    ensures v < 16
    ensures IsDigit(c) ==> v < 10
  {
    if IsDigit(c) then c as int - '0' as int
    else if 'a' <= c <= 'f' then c as int - 'a' as int + 10
    else c as int - 'A' as int + 10
  }

  /** The length of the longest prefix of `s` whose characters all satisfy `p`. */
  function PrefixWhile(p: char -> bool, s: string): (k: nat)
    ensures k <= |s|
    ensures forall i :: 0 <= i < k ==> p(s[i])
    ensures k < |s| ==> !p(s[k])
  {
    if |s| > 0 && p(s[0]) then 1 + PrefixWhile(p, s[1..]) else 0
  }

  /** The value of a digit string in base `radix`, read most significant digit first. */
  function ValueOf(ds: string, radix: nat): nat
    requires forall i :: 0 <= i < |ds| ==> IsHexDigit(ds[i])
  {
    if |ds| == 0 then 0 else ValueOf(ds[..|ds| - 1], radix) * radix + HexValue(ds[|ds| - 1])
  }

  /** The digits after the sign: base 16 after a `0x`/`0X` prefix, base 10 otherwise, up to the first non-digit. */
  function ParseDigits(u: string): Option<nat> {
    if |u| >= 2 && u[0] == '0' && (u[1] == 'x' || u[1] == 'X') then
      var k := PrefixWhile(IsHexDigit, u[2..]);
      if k == 0 then None else Some(ValueOf(u[2..][..k], 16))
    else
      var k := PrefixWhile(IsDigit, u);
      if k == 0 then None else Some(ValueOf(u[..k], 10))
  }

  /** Splits an optional leading sign off: `(negative, rest)`. */
  function SplitSign(t: string): (r: (bool, string))
    ensures r.0 <==> |t| > 0 && t[0] == '-'
  {
    if |t| > 0 && (t[0] == '-' || t[0] == '+') then (t[0] == '-', t[1..]) else (false, t)
  }

  /**
   * `Number.parseInt(s)` with no radix: skip leading white space, take an
   * optional sign, read base 16 after a `0x`/`0X` prefix and base 10
   * otherwise, stop at the first character that is not a digit of the base,
   * and give NaN (here `None`) when no digit was read.
   */
  function ParseInt(s: string): Option<int> {
    var (negative, u) := SplitSign(TrimStart(s));
    match ParseDigits(u)
    case None => None
    case Some(v) => var n: int := if negative then -(v as int) else v as int; Some(n)
  }

  lemma {:induction false} PrefixWhileAll(p: char -> bool, s: string)
    requires forall i :: 0 <= i < |s| ==> p(s[i])
    ensures PrefixWhile(p, s) == |s|
  {
    if |s| > 0 {
      PrefixWhileAll(p, s[1..]);
    }
  }

  lemma {:induction false} ValueOfNatToString(n: nat)
    ensures ValueOf(NatToString(n), 10) == n
  {
    var ds := NatToString(n);
    if n >= 10 {
      assert ds[..|ds| - 1] == NatToString(n / 10);
      ValueOfNatToString(n / 10);
    }
  }

  lemma ParseDigitsOfNatToString(n: nat)
    ensures ParseDigits(NatToString(n)) == Some(n)
  {
    var ds := NatToString(n);
    assert !(|ds| >= 2 && (ds[1] == 'x' || ds[1] == 'X')) by {
      if |ds| >= 2 { assert IsDigit(ds[1]); }
    }
    PrefixWhileAll(IsDigit, ds);
    assert ds[..|ds|] == ds;
    ValueOfNatToString(n);
  }

  /** `parseInt` reads back exactly the integer that `String` printed, ignoring any non-digit tail. */
  lemma ParseIntOfIntToString(i: int, tail: string)
    requires |tail| == 0 || !IsDigit(tail[0])
    requires i == 0 ==> |tail| == 0 || (tail[0] != 'x' && tail[0] != 'X')
    ensures ParseInt(IntToString(i) + tail) == Some(i)
  {
    var n: nat := if i < 0 then -i else i;
    SignOfIntToString(i, tail);
    ParseDigitsWithTail(n, tail);
  }

  /** White space skipping and sign splitting leave the printed magnitude followed by the tail. */
  lemma SignOfIntToString(i: int, tail: string)
    ensures SplitSign(TrimStart(IntToString(i) + tail)) == (i < 0, NatToString(if i < 0 then -i else i) + tail)
  {
    var n: nat := if i < 0 then -i else i;
    var u := NatToString(n) + tail;
    var s := IntToString(i) + tail;
    assert IsDigit(u[0]);
    if i < 0 {
      assert s == "-" + u;
    } else {
      assert s == u;
    }
    assert !IsJsSpace(s[0]);
  }

  /** The decimal digits of `n` followed by a tail that neither continues the number nor forms a `0x` prefix parse to `n`. */
  lemma ParseDigitsWithTail(n: nat, tail: string)
    requires |tail| == 0 || !IsDigit(tail[0])
    requires n == 0 ==> |tail| == 0 || (tail[0] != 'x' && tail[0] != 'X')
    ensures ParseDigits(NatToString(n) + tail) == Some(n)
  {
    var ds := NatToString(n);
    var u := ds + tail;
    assert !(|u| >= 2 && u[0] == '0' && (u[1] == 'x' || u[1] == 'X')) by {
      if |ds| >= 2 {
        assert u[1] == ds[1] && IsDigit(ds[1]);
      } else if |u| >= 2 && u[0] == '0' {
        assert ds == [DigitChar(n)];
        assert n == 0 && u[1] == tail[0];
      }
    }
    PrefixWhileAll(IsDigit, ds);
    PrefixWhileStops(IsDigit, ds, tail);
    assert u[..|ds|] == ds;
    ValueOfNatToString(n);
  }

  lemma {:induction false} PrefixWhileStops(p: char -> bool, s: string, tail: string)
    requires PrefixWhile(p, s) == |s|
    requires |tail| == 0 || !p(tail[0])
    ensures PrefixWhile(p, s + tail) == |s|
  {
    if |s| == 0 {
      assert s + tail == tail;
    } else {
      assert (s + tail)[1..] == s[1..] + tail;
      PrefixWhileStops(p, s[1..], tail);
    }
  }

  /** After a `0x` prefix the digits are read in base 16. */
  lemma ParseIntHex(h: string)
    requires |h| > 0 && forall i :: 0 <= i < |h| ==> IsHexDigit(h[i])
    ensures ParseInt("0x" + h) == Some(ValueOf(h, 16))
  {
    var s := "0x" + h;
    assert s[0] == '0' && s[1] == 'x';
    assert TrimStart(s) == s;
    assert SplitSign(s) == (false, s);
    HexDigits(h);
  }

  lemma HexDigits(h: string)
    requires |h| > 0 && forall i :: 0 <= i < |h| ==> IsHexDigit(h[i])
    ensures ParseDigits("0x" + h) == Some(ValueOf(h, 16))
  {
    var s := "0x" + h;
    assert s[0] == '0' && s[1] == 'x';
    assert s[2..] == h;
    PrefixWhileAll(IsHexDigit, h);
    assert h[..|h|] == h;
  }

  /** Without a digit after the white space and the sign, `parseInt` gives NaN. */
  lemma ParseIntNeedsADigit(s: string)
    requires var u := SplitSign(TrimStart(s)).1; |u| == 0 || !IsDigit(u[0])
    ensures ParseInt(s) == None
  {
  }
}
