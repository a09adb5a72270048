/**
 * The JavaScript string and number built-ins the core relies on:
 * String.prototype.trim, String.prototype.length (UTF-16 code units),
 * Number.prototype.toString(radix), parseInt(s, 16) on digit strings,
 * and String.prototype.padStart(2, '0').
 */
module JsText {

  // ---------------------------------------------------------------------------
  // trim()
  // ---------------------------------------------------------------------------

  /** The ECMAScript WhiteSpace and LineTerminator code points, which trim() strips. */
  predicate IsWhitespace(c: char) {
    || c == '\t' || c == '\n' || c == '\U{000B}' || c == '\U{000C}' || c == '\r'
    || c == ' ' || c == '\U{00A0}' || c == '\U{1680}'
    || ('\U{2000}' <= c <= '\U{200A}')
    || c == '\U{2028}' || c == '\U{2029}' || c == '\U{202F}' || c == '\U{205F}'
    || c == '\U{3000}' || c == '\U{FEFF}'
  }

  /** Drops leading whitespace: the result is the suffix of s after its whitespace prefix. */
  function TrimStart(s: string): (r: string)
    ensures |r| <= |s| && r == s[|s| - |r|..]
    ensures forall k :: 0 <= k < |s| - |r| ==> IsWhitespace(s[k])
    ensures |r| > 0 ==> !IsWhitespace(r[0])
  {
    if |s| > 0 && IsWhitespace(s[0]) then TrimStart(s[1..]) else s
  }

  /** Drops trailing whitespace: the result is the prefix of s before its whitespace suffix. */
  function TrimEnd(s: string): (r: string)
    ensures |r| <= |s| && r == s[..|r|]
    ensures forall k :: |r| <= k < |s| ==> IsWhitespace(s[k])
    ensures |r| > 0 ==> !IsWhitespace(r[|r| - 1])
  {
    if |s| > 0 && IsWhitespace(s[|s| - 1]) then TrimEnd(s[..|s| - 1]) else s
  }

  /** String.prototype.trim: strip whitespace from both ends. */
  function Trim(s: string): string {
    TrimEnd(TrimStart(s))
  }

  /**
   * Trim(s) is the slice s[a..b] left after removing a whitespace prefix and a
   * whitespace suffix, and it neither starts nor ends with whitespace. These
   * facts determine the result: no longer slice has the last property.
   */
  lemma TrimBounds(s: string) returns (a: nat, b: nat)
    ensures a <= b <= |s| && Trim(s) == s[a..b]
    ensures forall k :: 0 <= k < a ==> IsWhitespace(s[k])
    ensures forall k :: b <= k < |s| ==> IsWhitespace(s[k])
    ensures a < b ==> !IsWhitespace(s[a]) && !IsWhitespace(s[b - 1])
  {
    var t := TrimStart(s);
    a := |s| - |t|;
    var r := TrimEnd(t);
    b := a + |r|;
    assert r == t[..|r|];
    assert t == s[a..];
    forall k | b <= k < |s| ensures IsWhitespace(s[k]) {
      assert s[k] == t[k - a];
    }
    if a < b {
      assert s[a] == r[0];
      if |r| < |t| {
        assert s[b - 1] == r[|r| - 1];
      } else {
        assert s[b - 1] == t[|t| - 1] == r[|r| - 1];
      }
    }
  }

  /** A string that neither starts nor ends with whitespace is its own trim. */
  lemma TrimOfTrimmed(s: string)
    requires |s| > 0 ==> !IsWhitespace(s[0]) && !IsWhitespace(s[|s| - 1])
    ensures Trim(s) == s
  {
  }

  /** trim() is idempotent. */
  lemma TrimIdempotent(s: string)
    ensures Trim(Trim(s)) == Trim(s)
  {
    var a, b := TrimBounds(s);
    TrimOfTrimmed(Trim(s));
  }

  // ---------------------------------------------------------------------------
  // .length
  // ---------------------------------------------------------------------------

  /** String.prototype.length counts UTF-16 code units: a code point above U+FFFF takes two. */
  function Utf16Length(s: string): (n: nat)
    ensures |s| <= n <= 2 * |s|
    ensures (forall k :: 0 <= k < |s| ==> s[k] <= '\U{FFFF}') ==> n == |s|
  {
    if |s| == 0 then 0
    else Utf16Length(s[..|s| - 1]) + (if s[|s| - 1] <= '\U{FFFF}' then 1 else 2)
  }

  // ---------------------------------------------------------------------------
  // Digits: Number.prototype.toString(radix) and parseInt(s, radix)
  // ---------------------------------------------------------------------------

  /** The digit character for d, lower-case as Number.prototype.toString produces it. */
  function DigitChar(d: nat): (c: char)
    requires d < 16
  {
    if d < 10 then (48 + d) as char else (87 + d) as char
  }

  /** The value of a hexadecimal digit in either case; 16 for any other character. */
  function DigitValue(c: char): (v: nat)
    ensures v <= 16
  {
    if '0' <= c <= '9' then c as nat - '0' as nat
    else if 'a' <= c <= 'f' then c as nat - 'a' as nat + 10
    else if 'A' <= c <= 'F' then c as nat - 'A' as nat + 10
    else 16
  }

  predicate IsHexDigit(c: char) {
    DigitValue(c) < 16
  }

  predicate IsLowerHexDigit(c: char) {
    '0' <= c <= '9' || 'a' <= c <= 'f'
  }

  predicate IsDecimalDigit(c: char) {
    '0' <= c <= '9'
  }

  lemma DigitCharValue(d: nat)
    requires d < 16
    ensures DigitValue(DigitChar(d)) == d && IsLowerHexDigit(DigitChar(d))
    ensures d < 10 <==> IsDecimalDigit(DigitChar(d))
  {
  }

  /** The two radixes the core prints and parses numbers in. */
  predicate IsRadix(base: nat) {
    base == 10 || base == 16
  }

  function Pow(b: nat, k: nat): (p: nat)
    ensures b > 0 ==> p > 0
  {
    if k == 0 then 1 else b * Pow(b, k - 1)
  }

  /** Number.prototype.toString(base) of a non-negative integer: no leading zeros. */
  function ToBase(n: nat, base: nat): (s: string)
    requires IsRadix(base)
    ensures |s| > 0
  {
    if n < base then [DigitChar(n)] else ToBase(n / base, base) + [DigitChar(n % base)]
  }

  /** The value of a digit string in the given base (the digits parseInt accepts). */
  function ParseBase(s: string, base: nat): nat {
    if |s| == 0 then 0 else ParseBase(s[..|s| - 1], base) * base + DigitValue(s[|s| - 1])
  }

  /** Exactly w digits of n in the given base, most significant first, zero-padded. */
  function FixedWidth(n: nat, w: nat, base: nat): (s: string)
    requires IsRadix(base)
    ensures |s| == w
  {
    if w == 0 then [] else FixedWidth(n / base, w - 1, base) + [DigitChar(n % base)]
  }

  lemma DivMod(n: nat, base: nat)
    requires IsRadix(base)
    ensures (n / base) * base + n % base == n && n % base < base
  {
  }

  lemma ParseStep(s: string, c: char, base: nat)
    ensures ParseBase(s + [c], base) == ParseBase(s, base) * base + DigitValue(c)
  {
    assert (s + [c])[..|s|] == s;
  }

  /** Printing then parsing a number in base 10 or 16 gives the number back. */
  lemma {:induction false} ToBaseRoundTrip(n: nat, base: nat)
    requires IsRadix(base)
    ensures ParseBase(ToBase(n, base), base) == n
  {
    if n < base {
      DigitCharValue(n);
      ParseStep([], DigitChar(n), base);
    } else {
      var q, d := n / base, n % base;
      var s := ToBase(q, base);
      assert ToBase(n, base) == s + [DigitChar(d)];
      calc {
        ParseBase(ToBase(n, base), base);
        { ParseStep(s, DigitChar(d), base); }
        ParseBase(s, base) * base + DigitValue(DigitChar(d));
        { ToBaseRoundTrip(q, base); DigitCharValue(d); }
        q * base + d;
        { DivMod(n, base); }
        n;
      }
    }
  }

  /** Every character of ToBase(n, base) is a digit of that base. */
  lemma {:induction false} ToBaseDigits(n: nat, base: nat)
    requires IsRadix(base)
    ensures forall k :: 0 <= k < |ToBase(n, base)| ==> DigitValue(ToBase(n, base)[k]) < base
  {
    DivMod(n, base);
    if n < base {
      DigitCharValue(n);
    } else {
      ToBaseDigits(n / base, base);
      DigitCharValue(n % base);
    }
  }

  lemma DivBelow(x: nat, b: nat, p: nat)
    requires IsRadix(b) && x < b * p
    ensures x / b < p
  {
  }

  /** w zero-padded digits of a number below base^w parse back to that number. */
  lemma {:induction false} FixedWidthRoundTrip(n: nat, w: nat, base: nat)
    requires IsRadix(base) && n < Pow(base, w)
    ensures ParseBase(FixedWidth(n, w, base), base) == n
  {
    if w > 0 {
      var q, d := n / base, n % base;
      DivMod(n, base);
      DivBelow(n, base, Pow(base, w - 1));
      FixedWidthRoundTrip(q, w - 1, base);
      DigitCharValue(d);
      ParseStep(FixedWidth(q, w - 1, base), DigitChar(d), base);
    }
  }

  /** Hex digits produced by FixedWidth are lower-case. */
  lemma {:induction false} FixedWidthLower(n: nat, w: nat)
    ensures forall k :: 0 <= k < w ==> IsLowerHexDigit(FixedWidth(n, w, 16)[k])
  {
    if w > 0 {
      FixedWidthLower(n / 16, w - 1);
      DigitCharValue(n % 16);
    }
  }

  /**
   * (16^k + x).toString(16) is "1" followed by x written in exactly k hex digits:
   * the trick lighten/darken use to zero-pad a colour.
   */
  lemma {:induction false} LeadingOneHex(k: nat, x: nat)
    requires x < Pow(16, k)
    ensures ToBase(Pow(16, k) + x, 16) == "1" + FixedWidth(x, k, 16)
  {
    if k == 0 {
      assert x == 0;
    } else {
      var p := Pow(16, k - 1);
      var n := Pow(16, k) + x;
      assert n == 16 * p + x;
      assert n / 16 == p + x / 16 && n % 16 == x % 16;
      DivBelow(x, 16, p);
      LeadingOneHex(k - 1, x / 16);
    }
  }

  // ---------------------------------------------------------------------------
  // padStart(2, '0')
  // ---------------------------------------------------------------------------

  /** String.prototype.padStart(2, '0'). */
  function PadStart2(s: string): (r: string)
    ensures |r| == if |s| >= 2 then |s| else 2
    ensures r[|r| - |s|..] == s
    ensures forall k :: 0 <= k < |r| - |s| ==> r[k] == '0'
  {
    if |s| >= 2 then s else if |s| == 1 then "0" + s else "00"
  }

  /** Two zero-padded decimal digits of a value below 100, and they parse back to it. */
  lemma PaddedDecimal(m: nat)
    requires m < 100
    ensures |PadStart2(ToBase(m, 10))| == 2
    ensures ParseBase(PadStart2(ToBase(m, 10)), 10) == m
    ensures forall k :: 0 <= k < 2 ==> IsDecimalDigit(PadStart2(ToBase(m, 10))[k])
  {
    var s := ToBase(m, 10);
    ToBaseRoundTrip(m, 10);
    if m < 10 {
      DigitCharValue(m);
      var r := PadStart2(s);
      assert r == ['0', DigitChar(m)];
      assert r[..1] == ['0'];
      assert ParseBase(r[..1], 10) == 0 by { assert r[..1][..0] == []; }
    } else {
      assert s == ToBase(m / 10, 10) + [DigitChar(m % 10)];
      DigitCharValue(m / 10);
      DigitCharValue(m % 10);
    }
  }
}
