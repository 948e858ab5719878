// Character classes and string operations the source takes from JavaScript:
// `toLowerCase`, the regular-expression classes `\d`, `\s` and `\w`,
// `startsWith`, `includes`, and `Number.prototype.toString`; and the keys an
// object literal answers without holding them.
module Text {
  import opened Seqs

  /**
   * The properties every object literal inherits from `Object.prototype`, so
   * that `table[key]` finds them although the table does not list them. All
   * are functions except `__proto__`, which is the prototype object itself.
   */
  const ObjectPrototypeKeys: seq<string> := [
    "constructor", "__defineGetter__", "__defineSetter__", "__lookupGetter__", "__lookupSetter__",
    "hasOwnProperty", "isPrototypeOf", "propertyIsEnumerable", "toLocaleString", "toString", "valueOf", "__proto__"]

  predicate IsDigit(c: char) { '0' <= c <= '9' }

  predicate IsUpper(c: char) { 'A' <= c <= 'Z' }

  predicate IsLowerLetter(c: char) { 'a' <= c <= 'z' }

  /** The regular-expression class `\w`: `[A-Za-z0-9_]`. */
  predicate IsWordChar(c: char) { IsUpper(c) || IsLowerLetter(c) || IsDigit(c) || c == '_' }

  /** The regular-expression class `\s`: ECMAScript white space and line terminators. */
  predicate IsSpace(c: char) {
    c == '\t' || c == '\n' || c == '\U{000B}' || c == '\U{000C}' || c == '\r' || c == ' '
    || c == '\U{00A0}' || c == '\U{1680}' || ('\U{2000}' <= c <= '\U{200A}')
    || c == '\U{2028}' || c == '\U{2029}' || c == '\U{202F}' || c == '\U{205F}'
    || c == '\U{3000}' || c == '\U{FEFF}'
  }

  /** Lower-casing of one character, on the ASCII range. */
  function Lower(c: char): (r: char)
    ensures !IsUpper(r)
    ensures IsUpper(c) ==> IsLowerLetter(r)
    ensures !IsUpper(c) ==> r == c
  {
    if IsUpper(c) then (c as int + 32) as char else c
  }

  /** `s.toLowerCase()` on ASCII letters; every other character is kept. */
  function ToLower(s: string): (r: string)
    ensures |r| == |s|
    ensures forall i :: 0 <= i < |s| ==> r[i] == Lower(s[i]) && !IsUpper(r[i])
  {
    Map(s, Lower)
  }

  lemma ToLowerNoUpper(s: string)
    requires forall i :: 0 <= i < |s| ==> !IsUpper(s[i])
    ensures ToLower(s) == s
  {
  }

  /** Lower-casing twice is lower-casing once. */
  lemma ToLowerIdempotent(s: string)
    ensures ToLower(ToLower(s)) == ToLower(s)
  {
    ToLowerNoUpper(ToLower(s));
  }

  /** `s.replace(/\D/g, '')`: only the decimal digits of `s`, in order. */
  function DigitsOnly(s: string): (r: string)
    ensures forall i :: 0 <= i < |r| ==> IsDigit(r[i])
    ensures |r| <= |s|
  {
    Filter(s, IsDigit)
  }

  predicate StartsWith(s: string, prefix: string) {
    |prefix| <= |s| && s[..|prefix|] == prefix
  }

  /** `needle` occurs in `hay` starting at index `i`. */
  predicate OccursAt(hay: string, needle: string, i: int) {
    0 <= i <= |hay| - |needle| && hay[i..i + |needle|] == needle
  }

  /** `hay.includes(needle)`. */
  predicate Contains(hay: string, needle: string) {
    exists i | 0 <= i <= |hay| :: OccursAt(hay, needle, i)
  }

  /** Every string includes the empty string. */
  lemma ContainsEmpty(hay: string)
    ensures Contains(hay, "")
  {
    assert OccursAt(hay, "", 0);
  }

  function DigitChar(d: nat): (c: char)
    requires d < 10
    ensures IsDigit(c)
  {
    ('0' as int + d) as char
  }

  function DigitValue(c: char): (d: nat)
    requires IsDigit(c)
    ensures d < 10 && DigitChar(d) == c
  {
    c as int - '0' as int
  }

  /** The decimal numeral of `n`, as `String(n)` prints it. */
  function NatToString(n: nat): (r: string)
    ensures |r| >= 1
    ensures forall i :: 0 <= i < |r| ==> IsDigit(r[i])
  {
    if n < 10 then [DigitChar(n)] else NatToString(n / 10) + [DigitChar(n % 10)]
  }

  /** The value of a string of decimal digits. */
  function DigitsValue(s: string): nat
    requires forall i :: 0 <= i < |s| ==> IsDigit(s[i])
  {
    if s == [] then 0 else DigitsValue(s[..|s| - 1]) * 10 + DigitValue(s[|s| - 1])
  }

  /** Reading back a printed numeral gives the number. */
  lemma {:induction false} NatToStringRoundTrip(n: nat)
    ensures DigitsValue(NatToString(n)) == n
  {
    var r := NatToString(n);
    if n < 10 {
      assert r[..0] == [];
    } else {
      NatToStringRoundTrip(n / 10);
      assert r[..|r| - 1] == NatToString(n / 10);
    }
  }

  /** Distinct numbers print differently. */
  lemma NatToStringInjective(a: nat, b: nat)
    requires NatToString(a) == NatToString(b)
    ensures a == b
  {
    NatToStringRoundTrip(a);
    NatToStringRoundTrip(b);
  }

  /** `String(i)` for an integer: a minus sign, then the numeral of its magnitude. */
  function IntToString(i: int): (r: string)
    ensures |r| >= 1
    ensures i < 0 <==> r[0] == '-'
  {
    if i < 0 then "-" + NatToString(-i) else NatToString(i)
  }

  lemma IntToStringInjective(a: int, b: int)
    requires IntToString(a) == IntToString(b)
    ensures a == b
  {
    if a < 0 {
      assert IntToString(a)[1..] == NatToString(-a);
      assert IntToString(b)[1..] == NatToString(-b);
      NatToStringInjective(-a, -b);
    } else {
      NatToStringInjective(a, b);
    }
  }

  /** The numeral of `n` left-padded with zeros to at least `width` characters. */
  function ZeroPad(n: nat, width: nat): (r: string)
    ensures |r| >= width
    ensures forall i :: 0 <= i < |r| ==> IsDigit(r[i])
  {
    var digits := NatToString(n);
    if |digits| >= width then digits else seq(width - |digits|, _ => '0') + digits
  }

  /** Leading zeros do not change the value of a numeral. */
  lemma {:induction false} LeadingZeros(k: nat, s: string)
    requires forall i :: 0 <= i < |s| ==> IsDigit(s[i])
    ensures DigitsValue(seq(k, _ => '0') + s) == DigitsValue(s)
    decreases |s|
  {
    var z := seq(k, _ => '0');
    if s == [] {
      assert z + s == z;
      ZerosValue(k);
    } else {
      assert (z + s)[..|z + s| - 1] == z + s[..|s| - 1];
      LeadingZeros(k, s[..|s| - 1]);
    }
  }

  lemma {:induction false} ZerosValue(k: nat)
    ensures DigitsValue(seq(k, _ => '0')) == 0
  {
    if k > 0 {
      assert seq(k, _ => '0')[..k - 1] == seq(k - 1, _ => '0');
      ZerosValue(k - 1);
    }
  }

  /** A zero-padded numeral still reads back as its number. */
  lemma ZeroPadRoundTrip(n: nat, width: nat)
    ensures DigitsValue(ZeroPad(n, width)) == n
  {
    NatToStringRoundTrip(n);
    var digits := NatToString(n);
    if |digits| < width {
      LeadingZeros(width - |digits|, digits);
    }
  }

  /** Numbers below `10^w` print in at most `w` digits, so padding to `w` gives exactly `w`. */
  lemma {:induction false} NatToStringLength(n: nat, w: nat)
    requires w >= 1 && n < Pow10(w)
    ensures |NatToString(n)| <= w
  {
    if n >= 10 {
      assert n / 10 < Pow10(w - 1);
      NatToStringLength(n / 10, w - 1);
    }
  }

  function Pow10(w: nat): (r: nat)
    ensures r >= 1
  {
    if w == 0 then 1 else 10 * Pow10(w - 1)
  }
}
