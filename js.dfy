/**
 * The JavaScript built-ins the handlers rely on, stated exactly enough for
 * the decisions the handlers make: `parseInt`, truthiness of request fields,
 * `String.prototype.replace` with a string pattern, `Array.prototype.findIndex`, `Array.prototype.map`
 * and an ASCII case-insensitive substring test.
 */
module Js {
  import opened Wrappers

  // ---------------------------------------------------------------------
  // Truthiness of request fields
  // ---------------------------------------------------------------------

  /** `!!s` for a string field that may be missing: absent and "" are falsy. */
  predicate StrTruthy(s: Option<string>) {
    s.Some? && s.value != ""
  }

  /** `!!n` for a numeric field that may be missing: absent and 0 are falsy. */
  predicate IntTruthy(n: Option<int>) {
    n.Some? && n.value != 0
  }

  // ---------------------------------------------------------------------
  // parseInt
  // ---------------------------------------------------------------------

  /** The characters `parseInt` skips before the number (white space and line terminators). */
  predicate IsWhitespace(c: char) {
    || c == ' ' || c == '\t' || c == '\n' || c == '\r'
    || c == '\U{0B}' || c == '\U{0C}' || c == '\U{A0}' || c == '\U{1680}'
    || ('\U{2000}' <= c <= '\U{200A}')
    || c == '\U{2028}' || c == '\U{2029}' || c == '\U{202F}' || c == '\U{205F}'
    || c == '\U{3000}' || c == '\U{FEFF}'
  }

  /** The value of `c` read as a digit in radices up to 36, if it is one. */
  function DigitValue(c: char): (d: Option<nat>)
    ensures d.Some? ==> d.value < 36
    ensures ('0' <= c <= '9') ==> d == Some((c - '0') as nat)
  {
    if '0' <= c <= '9' then Some((c - '0') as nat)
    else if 'a' <= c <= 'z' then Some((c - 'a') as nat + 10)
    else if 'A' <= c <= 'Z' then Some((c - 'A') as nat + 10)
    else None
  }

  predicate IsDigit(c: char, radix: nat) {
    DigitValue(c).Some? && DigitValue(c).value < radix
  }

  /** The input with its leading white space removed. */
  function TrimStart(s: string): (r: string)
    ensures |r| <= |s| && r == s[|s| - |r|..]
    ensures r != [] ==> !IsWhitespace(r[0])
    ensures forall i :: 0 <= i < |s| - |r| ==> IsWhitespace(s[i])
  {
    if s != [] && IsWhitespace(s[0]) then TrimStart(s[1..]) else s
  }

  /** Length of the longest prefix of `s` made of digits of `radix`. */
  function DigitPrefixLength(s: string, radix: nat): (n: nat)
    ensures n <= |s|
    ensures forall i :: 0 <= i < n ==> IsDigit(s[i], radix)
    ensures n < |s| ==> !IsDigit(s[n], radix)
  {
    if s != [] && IsDigit(s[0], radix) then 1 + DigitPrefixLength(s[1..], radix) else 0
  }

  /** The number a string of digits of `radix` denotes, most significant digit first. */
  function DigitsValue(s: string, radix: nat): nat
    requires forall i :: 0 <= i < |s| ==> IsDigit(s[i], radix)
  {
    if s == [] then 0
    else
      var init, last := s[..|s| - 1], s[|s| - 1];
      assert forall i :: 0 <= i < |init| ==> init[i] == s[i];
      assert IsDigit(last, radix);
      var v := DigitsValue(init, radix);
      MulNat(v, radix);
      v * radix + DigitValue(last).value
  }

  /** A product of two natural numbers is a natural number. */
  lemma MulNat(a: nat, b: nat)
    ensures a * b >= 0
  {
  }

  /** How `parseInt` is called: with radix 10, or with no radix (then a `0x` prefix selects 16). */
  datatype Radix = Unspecified | Decimal

  /**
   * `parseInt(s, radix)`: skip white space, read an optional sign, then the
   * magnitude. `None` is `NaN`.
   */
  function ParseInt(s: string, radix: Radix): (r: Option<int>)
    ensures radix == Decimal ==>
              (r.None? <==> var u := Unsigned(TrimStart(s)); u == [] || !IsDigit(u[0], 10))
    ensures radix == Unspecified ==>
              (r.None? <==> var u := Unsigned(TrimStart(s));
                            if HasHexPrefix(u) then |u| == 2 || !IsDigit(u[2], 16)
                            else u == [] || !IsDigit(u[0], 10))
    ensures r.Some? && r.value < 0 ==> TrimStart(s)[0] == '-'
  {
    var t := TrimStart(s);
    if t != [] && t[0] == '-' then
      match ParseMagnitude(t[1..], radix)
      case None => None
      case Some(m) => var v: int := m; Some(-v)
    else if t != [] && t[0] == '+' then ParseMagnitude(t[1..], radix)
    else ParseMagnitude(t, radix)
  }

  /** The text after an optional leading sign. */
  function Unsigned(t: string): string {
    if t != [] && (t[0] == '-' || t[0] == '+') then t[1..] else t
  }

  predicate HasHexPrefix(u: string) {
    |u| >= 2 && u[0] == '0' && (u[1] == 'x' || u[1] == 'X')
  }

  /** The unsigned part: with no radix a `0x`/`0X` prefix selects radix 16, otherwise 10. */
  function ParseMagnitude(u: string, radix: Radix): (r: Option<nat>)
    ensures r.None? <==> if radix == Unspecified && HasHexPrefix(u) then |u| == 2 || !IsDigit(u[2], 16)
                         else u == [] || !IsDigit(u[0], 10)
  {
    if radix == Unspecified && HasHexPrefix(u) then ParseDigits(u[2..], 16)
    else ParseDigits(u, 10)
  }

  /** The longest run of digits at the start of `b`; `None` when that run is empty. */
  function ParseDigits(b: string, base: nat): (r: Option<nat>)
    ensures r.None? <==> b == [] || !IsDigit(b[0], base)
  {
    var n := DigitPrefixLength(b, base);
    if n == 0 then None else Some(DigitsValue(b[..n], base))
  }

  /** The canonical decimal numeral of a natural number. */
  function NatNumeral(n: nat): (s: string)
    ensures s != [] && forall i :: 0 <= i < |s| ==> '0' <= s[i] <= '9'
    decreases n
  {
    var last := ['0' + (n % 10) as char];
    if n < 10 then last else NatNumeral(n / 10) + last
  }

  /** The decimal numeral of an integer, as `String(n)` writes it. */
  function IntNumeral(n: int): string {
    if n < 0 then "-" + NatNumeral(-n) else NatNumeral(n)
  }

  lemma {:induction false} NatNumeralValue(n: nat)
    ensures forall i :: 0 <= i < |NatNumeral(n)| ==> IsDigit(NatNumeral(n)[i], 10)
    ensures DigitsValue(NatNumeral(n), 10) == n
    decreases n
  {
    var s := NatNumeral(n);
    var last := ['0' + (n % 10) as char];
    if n >= 10 {
      NatNumeralValue(n / 10);
      assert s[..|s| - 1] == NatNumeral(n / 10);
    }
    assert DigitValue(s[|s| - 1]) == Some(n % 10);
  }

  /** Round trip: `parseInt(String(n), 10)` gives back `n`, for every integer. */
  lemma ParseIntNumeral(n: int)
    ensures ParseInt(IntNumeral(n), Decimal) == Some(n)
  {
    var m := if n < 0 then -n else n;
    var d := NatNumeral(m);
    NatNumeralMagnitude(m);
    if n < 0 {
      var t := "-" + d;
      assert t[0] == '-' && !IsWhitespace(t[0]);
      assert TrimStart(t) == t;
      assert t[1..] == d;
    } else {
      assert '0' <= d[0] <= '9';
      Unprefixed(d, Decimal);
    }
  }

  /** The magnitude of a decimal numeral is the number it was written from. */
  lemma NatNumeralMagnitude(m: nat)
    ensures ParseMagnitude(NatNumeral(m), Decimal) == Some(m)
  {
    var d := NatNumeral(m);
    NatNumeralValue(m);
    DigitPrefixAll(d, 10);
    assert d[..|d|] == d;
  }

  /** Every character is a digit, so the whole string is the digit prefix. */
  lemma {:induction false} DigitPrefixAll(s: string, radix: nat)
    requires forall i :: 0 <= i < |s| ==> IsDigit(s[i], radix)
    ensures DigitPrefixLength(s, radix) == |s|
  {
    if s != [] {
      DigitPrefixAll(s[1..], radix);
    }
  }

  /** With radix 10 a hexadecimal prefix is not honoured, so "0x1A" reads as 0. */
  lemma DecimalIgnoresHexPrefix()
    ensures ParseInt("0x1A", Decimal) == Some(0)
    ensures ParseInt("0x1A", Unspecified) == Some(26)
  {
    Unprefixed("0x1A", Decimal);
    Unprefixed("0x1A", Unspecified);
    DecimalStopsAtX();
    HexReadsDigitsAfterPrefix();
  }

  /** Text that starts with neither white space nor a sign is read as a magnitude. */
  lemma Unprefixed(s: string, radix: Radix)
    requires s != [] && !IsWhitespace(s[0]) && s[0] != '-' && s[0] != '+'
    ensures ParseInt(s, radix) == ParseMagnitude(s, radix)
  {
    assert TrimStart(s) == s;
  }

  /** Read in radix 10, "0x1A" stops at the `x`, after the single digit 0. */
  lemma DecimalStopsAtX()
    ensures ParseMagnitude("0x1A", Decimal) == Some(0)
  {
    assert DigitPrefixLength("x1A", 10) == 0;
    assert DigitPrefixLength("0x1A", 10) == 1;
    assert "0x1A"[..1] == "0";
    OneDigit('0', 10);
  }

  /** Read with no radix, "0x1A" is the hexadecimal number 1A. */
  lemma HexReadsDigitsAfterPrefix()
    ensures ParseMagnitude("0x1A", Unspecified) == Some(26)
  {
    assert "0x1A"[2..] == "1A";
    assert DigitPrefixLength("A", 16) == 1;
    assert DigitPrefixLength("1A", 16) == 2;
    assert "1A"[..2] == "1A" && "1A"[..1] == "1";
    OneDigit('1', 16);
    assert DigitsValue("1A", 16) == DigitsValue("1", 16) * 16 + 10;
  }

  /** A single digit denotes its own value. */
  lemma OneDigit(c: char, radix: nat)
    requires IsDigit(c, radix)
    ensures DigitsValue([c], radix) == DigitValue(c).value
  {
    assert [c][..0] == [];
  }

  // ---------------------------------------------------------------------
  // Searching
  // ---------------------------------------------------------------------

  /** `s.findIndex(p)`: the first position whose element satisfies `p`. */
  function FindIndex<T>(s: seq<T>, p: T -> bool): (r: Option<nat>)
    ensures r.None? <==> forall i :: 0 <= i < |s| ==> !p(s[i])
    ensures r.Some? ==> r.value < |s| && p(s[r.value])
    ensures r.Some? ==> forall i :: 0 <= i < r.value ==> !p(s[i])
  {
    if s == [] then None
    else if p(s[0]) then Some(0)
    else match FindIndex(s[1..], p)
      case None => None
      case Some(i) => Some(i + 1)
  }

  /** `s.map(f)`: each element of `s`, in order, transformed by `f`. */
  function Map<A, B>(s: seq<A>, f: A -> B): (r: seq<B>)
    ensures |r| == |s| && forall i :: 0 <= i < |s| ==> r[i] == f(s[i])
  {
    seq(|s|, i requires 0 <= i < |s| => f(s[i]))
  }

  /** `pat` occurs in `s` at position `i`. */
  predicate OccursAt(s: string, pat: string, i: nat) {
    i + |pat| <= |s| && s[i..i + |pat|] == pat
  }

  /** `s.indexOf(pat, from)`: the first position at or after `from` where `pat` occurs. */
  function IndexOf(s: string, pat: string, from: nat): (r: Option<nat>)
    ensures r.Some? ==> from <= r.value && OccursAt(s, pat, r.value)
    ensures r.Some? ==> forall i :: from <= i < r.value ==> !OccursAt(s, pat, i)
    ensures r.None? ==> forall i :: from <= i ==> !OccursAt(s, pat, i)
    decreases |s| - from
  {
    if from + |pat| > |s| then None
    else if s[from..from + |pat|] == pat then Some(from)
    else IndexOf(s, pat, from + 1)
  }

  /** `s.replace(pat, "")` with a string pattern: only the first occurrence goes. */
  function RemoveFirst(s: string, pat: string): (r: string)
    ensures IndexOf(s, pat, 0).None? ==> r == s
    ensures IndexOf(s, pat, 0).Some? ==>
              var i := IndexOf(s, pat, 0).value;
              |r| == |s| - |pat| && r[..i] == s[..i] && r[i..] == s[i + |pat|..]
  {
    match IndexOf(s, pat, 0)
    case None => s
    case Some(i) => s[..i] + s[i + |pat|..]
  }

  // ---------------------------------------------------------------------
  // Case-insensitive containment
  // ---------------------------------------------------------------------

  function LowerChar(c: char): char {
    if 'A' <= c <= 'Z' then c - 'A' + 'a' else c
  }

  function Lower(s: string): (r: string)
    ensures |r| == |s| && forall i :: 0 <= i < |s| ==> r[i] == LowerChar(s[i])
  {
    seq(|s|, i requires 0 <= i < |s| => LowerChar(s[i]))
  }

  /** `needle` occurs in `hay` when both are folded to ASCII lower case. */
  predicate ContainsInsensitive(hay: string, needle: string) {
    IndexOf(Lower(hay), Lower(needle), 0).Some?
  }

  /** From position `i` on, `hay` spells `needle` up to the case of each letter. */
  predicate FoldedMatchAt(hay: string, needle: string, i: nat) {
    i + |needle| <= |hay| && forall k :: 0 <= k < |needle| ==> LowerChar(hay[i + k]) == LowerChar(needle[k])
  }

  /**
   * Case-insensitive containment holds exactly when some position of `hay`
   * spells `needle`, each letter compared without regard to case.
   */
  lemma ContainsInsensitiveIff(hay: string, needle: string)
    ensures ContainsInsensitive(hay, needle) <==> exists i: nat :: FoldedMatchAt(hay, needle, i)
  {
    var h, n := Lower(hay), Lower(needle);
    match IndexOf(h, n, 0)
    case Some(i) =>
      assert h[i..i + |n|] == n;
      forall k | 0 <= k < |needle| ensures LowerChar(hay[i + k]) == LowerChar(needle[k]) {
        assert h[i..i + |n|][k] == n[k];
      }
      assert FoldedMatchAt(hay, needle, i);
    case None =>
      forall i: nat | FoldedMatchAt(hay, needle, i) ensures OccursAt(h, n, i) {
        assert h[i..i + |n|] == n;
      }
  }
}
