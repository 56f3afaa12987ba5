/**
 * The JavaScript string built-ins the application relies on, written out with
 * the meaning ECMAScript gives them: trim, includes, replace of the first
 * occurrence, split-and-pick, padStart, String(n), toUpperCase (ASCII part)
 * and Number.prototype.toFixed.
 */
module Text {

  // ---------------------------------------------------------------------------
  // trim
  // ---------------------------------------------------------------------------

  /** The code points `String.prototype.trim` removes: WhiteSpace and LineTerminator. */
  predicate IsJsWhitespace(c: char) {
    var n := c as int;
    n == 0x09 || n == 0x0A || n == 0x0B || n == 0x0C || n == 0x0D || n == 0x20
    || n == 0xA0 || n == 0x1680 || (0x2000 <= n <= 0x200A) || n == 0x2028 || n == 0x2029
    || n == 0x202F || n == 0x205F || n == 0x3000 || n == 0xFEFF
  }

  /** Empty, or made of whitespace only: exactly the strings whose trim is falsy. */
  predicate IsBlank(s: string) {
    forall i :: 0 <= i < |s| ==> IsJsWhitespace(s[i])
  }

  function TrimStart(s: string): (r: string)
    ensures |r| <= |s| && r == s[|s| - |r|..]
    ensures IsBlank(s[..|s| - |r|])
    ensures r == [] || !IsJsWhitespace(r[0])
  {
    if s == [] || !IsJsWhitespace(s[0]) then s else TrimStart(s[1..])
  }

  function TrimEnd(s: string): (r: string)
    ensures |r| <= |s| && r == s[..|r|]
    ensures IsBlank(s[|r|..])
    ensures r == [] || !IsJsWhitespace(r[|r| - 1])
  {
    if s == [] || !IsJsWhitespace(s[|s| - 1]) then s else TrimEnd(s[..|s| - 1])
  }

  /** `s.trim()`: a middle slice of `s` with no whitespace at either end. */
  function Trim(s: string): (r: string)
    ensures |r| <= |s|
    ensures r == [] <==> IsBlank(s)
    ensures r != [] ==> !IsJsWhitespace(r[0]) && !IsJsWhitespace(r[|r| - 1])
  {
    var t := TrimStart(s);
    assert IsBlank(s) ==> t == [];
    assert TrimEnd(t) == [] ==> IsBlank(s) by {
      if TrimEnd(t) == [] {
        assert t == [];
        assert s[..|s|] == s;
      }
    }
    TrimEnd(t)
  }

  /** Blank text cut from the front, then from the back, leaves a slice between two blank ends. */
  lemma BlankEnds(s: string, t: string, r: string)
    requires |t| <= |s| && t == s[|s| - |t|..] && IsBlank(s[..|s| - |t|])
    requires |r| <= |t| && r == t[..|r|] && IsBlank(t[|r|..])
    ensures exists k :: 0 <= k <= |s| - |r| && r == s[k..k + |r|] && IsBlank(s[..k]) && IsBlank(s[k + |r|..])
  {
    var k := |s| - |t|;
    assert r == s[k..k + |r|];
    assert s[k + |r|..] == t[|r|..];
  }

  /** The trimmed text is a slice of `s` with blank text on either side of it. */
  lemma TrimIsSlice(s: string)
    ensures var r := Trim(s);
      exists k :: 0 <= k <= |s| - |r| && r == s[k..k + |r|] && IsBlank(s[..k]) && IsBlank(s[k + |r|..])
  {
    var t := TrimStart(s);
    var r := TrimEnd(t);
    assert Trim(s) == r;
    BlankEnds(s, t, r);
  }

  /** Trimming twice trims nothing more. */
  lemma TrimIdempotent(s: string)
    ensures Trim(Trim(s)) == Trim(s)
  {
    var r := Trim(s);
    if r != [] {
      assert TrimStart(r) == r;
      assert TrimEnd(r) == r;
    }
  }

  // ---------------------------------------------------------------------------
  // decimal digits, String(n), padStart
  // ---------------------------------------------------------------------------

  predicate IsDigit(c: char) {
    '0' <= c <= '9'
  }

  predicate AllDigits(s: string) {
    forall i :: 0 <= i < |s| ==> IsDigit(s[i])
  }

  function DigitValue(c: char): nat
    requires IsDigit(c)
  {
    c as int - '0' as int
  }

  function DigitChar(d: nat): (c: char)
    requires d < 10
    ensures IsDigit(c) && DigitValue(c) == d
  {
    (d + '0' as int) as char
  }

  /** The number a string of decimal digits denotes. */
  function ParseDecimal(s: string): nat
    requires AllDigits(s)
  {
    if s == [] then 0 else 10 * ParseDecimal(s[..|s| - 1]) + DigitValue(s[|s| - 1])
  }

  /** `String(n)` for a non-negative integer: its shortest decimal rendering. */
  function NatToString(n: nat): (r: string)
    ensures r != [] && AllDigits(r)
    ensures ParseDecimal(r) == n
    ensures r[0] == '0' ==> r == "0"
  {
    if n < 10 then
      [DigitChar(n)]
    else
      var prefix := NatToString(n / 10);
      var r := prefix + [DigitChar(n % 10)];
      assert r[..|r| - 1] == prefix;
      r
  }

  function Pow10(k: nat): (r: nat)
    ensures r > 0
  {
    if k == 0 then 1 else 10 * Pow10(k - 1)
  }

  lemma {:induction false} NatToStringWidth(n: nat, k: nat)
    requires n < Pow10(k)
    ensures |NatToString(n)| <= k || (n == 0 && k == 0)
  {
    if n >= 10 {
      NatToStringWidth(n / 10, k - 1);
    }
  }

  function Repeat(c: char, k: nat): (r: string)
    ensures |r| == k
    ensures forall i :: 0 <= i < k ==> r[i] == c
  {
    if k == 0 then [] else [c] + Repeat(c, k - 1)
  }

  /** `s.padStart(width, c)` for a one-character pad string. */
  function PadStart(s: string, width: nat, c: char): (r: string)
    ensures |r| == if |s| < width then width else |s|
    ensures r[|r| - |s|..] == s
    ensures forall i :: 0 <= i < |r| - |s| ==> r[i] == c
  {
    if |s| < width then Repeat(c, width - |s|) + s else s
  }

  lemma {:induction false} ParseIgnoresZeroPrefix(s: string)
    requires AllDigits(s)
    ensures AllDigits("0" + s) && ParseDecimal("0" + s) == ParseDecimal(s)
  {
    var z := "0" + s;
    if s != [] {
      assert z[..|z| - 1] == "0" + s[..|s| - 1];
      ParseIgnoresZeroPrefix(s[..|s| - 1]);
    }
  }

  /** Left-padding with zeros does not change the number denoted. */
  lemma {:induction false} ParseIgnoresLeadingZeros(s: string, k: nat)
    requires AllDigits(s)
    ensures AllDigits(Repeat('0', k) + s)
    ensures ParseDecimal(Repeat('0', k) + s) == ParseDecimal(s)
  {
    if k > 0 {
      var rest := Repeat('0', k - 1) + s;
      ParseIgnoresLeadingZeros(s, k - 1);
      assert Repeat('0', k) == ['0'] + Repeat('0', k - 1);
      assert Repeat('0', k) + s == "0" + rest;
      ParseIgnoresZeroPrefix(rest);
    } else {
      assert Repeat('0', k) + s == s;
    }
  }

  lemma PadStartDenotes(s: string, width: nat)
    requires AllDigits(s)
    ensures AllDigits(PadStart(s, width, '0'))
    ensures ParseDecimal(PadStart(s, width, '0')) == ParseDecimal(s)
  {
    if |s| < width {
      ParseIgnoresLeadingZeros(s, width - |s|);
    }
  }

  // ---------------------------------------------------------------------------
  // includes, replace (first occurrence), split-and-pick, toUpperCase
  // ---------------------------------------------------------------------------

  /** `s.includes(sub)` */
  predicate Contains(s: string, sub: string) {
    (|sub| <= |s| && s[..|sub|] == sub) || (s != [] && Contains(s[1..], sub))
  }

  lemma {:induction false} ContainsSuffix(prefix: string, sub: string)
    ensures Contains(prefix + sub, sub)
  {
    if prefix != [] {
      assert (prefix + sub)[1..] == prefix[1..] + sub;
      ContainsSuffix(prefix[1..], sub);
    } else {
      assert (prefix + sub)[..|sub|] == sub;
    }
  }

  /** `s.replace(from, to)` with one-character strings: only the first occurrence changes. */
  function ReplaceFirst(s: string, from: char, to: char): (r: string)
    ensures |r| == |s|
    ensures from !in s ==> r == s
    ensures from in s ==>
      var head := BeforeFirst(s, from);
      r == head + [to] + s[|head| + 1..]
  {
    if s == [] then []
    else if s[0] == from then [to] + s[1..]
    else
      var rest := ReplaceFirst(s[1..], from, to);
      assert from in s ==> from in s[1..];
      [s[0]] + rest
  }

  /** `s.split(sep).pop()`: the text after the last `sep`, all of `s` when there is none. */
  function AfterLast(s: string, sep: char): (r: string)
    ensures sep !in r
    ensures |r| <= |s| && r == s[|s| - |r|..]
    ensures |r| < |s| ==> s[|s| - |r| - 1] == sep
  {
    if s == [] || s[|s| - 1] == sep then []
    else
      var r := AfterLast(s[..|s| - 1], sep) + [s[|s| - 1]];
      assert s[..|s| - 1][|s| - |r|..] + [s[|s| - 1]] == s[|s| - |r|..];
      r
  }

  /** `s.split(sep)[0]`: the text before the first `sep`, all of `s` when there is none. */
  function BeforeFirst(s: string, sep: char): (r: string)
    ensures sep !in r
    ensures |r| <= |s| && r == s[..|r|]
    ensures |r| < |s| ==> s[|r|] == sep
  {
    if s == [] || s[0] == sep then []
    else [s[0]] + BeforeFirst(s[1..], sep)
  }

  /** Joining on a separator the tail lacks, the last piece is the tail. */
  lemma {:induction false} AfterLastOfJoin(head: string, tail: string, sep: char)
    requires sep !in tail
    ensures AfterLast(head + [sep] + tail, sep) == tail
  {
    var s := head + [sep] + tail;
    assert s[|s| - |tail| - 1] == sep;
    assert forall k :: |s| - |tail| <= k < |s| ==> s[k] == tail[k - (|s| - |tail|)];
    assert s[|s| - |tail|..] == tail;
  }

  /** Joining on a separator the head lacks, the first piece is the head. */
  lemma {:induction false} BeforeFirstOfJoin(head: string, tail: string, sep: char)
    requires sep !in head
    ensures BeforeFirst(head + [sep] + tail, sep) == head
  {
    var s := head + [sep] + tail;
    assert s[|head|] == sep;
    assert forall k :: 0 <= k < |head| ==> s[k] == head[k];
    assert s[..|head|] == head;
  }

  predicate IsAsciiLower(c: char) {
    'a' <= c <= 'z'
  }

  function ToUpperAsciiChar(c: char): char {
    if IsAsciiLower(c) then (c as int - 32) as char else c
  }

  /** `s.toUpperCase()` on the ASCII letters; every other character is left as it is. */
  function ToUpperAscii(s: string): (r: string)
    ensures |r| == |s|
  {
    seq(|s|, i requires 0 <= i < |s| => ToUpperAsciiChar(s[i]))
  }

  // ---------------------------------------------------------------------------
  // Number.prototype.toFixed
  // ---------------------------------------------------------------------------

  /** The integer nearest to y, ties taken upwards. */
  function RoundHalfUp(y: real): (n: int)
    ensures (n as real) - 0.5 <= y < (n as real) + 0.5
  {
    (y + 0.5).Floor
  }

  /** The integer nearest to x * 10^digits, ties taken upwards: the n of toFixed. */
  function ScaledRound(x: real, digits: nat): (n: nat)
    requires x >= 0.0
  {
    var y := x * (Pow10(digits) as real);
    assert y >= 0.0;
    RoundHalfUp(y)
  }

  function Quotient(n: nat, d: nat): nat
    requires d > 0
  {
    n / d
  }

  function Remainder(n: nat, d: nat): (r: nat)
    requires d > 0
    ensures r < d
  {
    n % d
  }

  /** The toFixed text of the scaled integer n: n / 10^digits, a point, then n % 10^digits on `digits` places. */
  function RenderScaled(n: nat, digits: nat): string {
    var scale := Pow10(digits);
    var whole := NatToString(Quotient(n, scale));
    if digits == 0 then whole
    else whole + "." + PadStart(NatToString(Remainder(n, scale)), digits, '0')
  }

  /** `x.toFixed(digits)` for 0 <= x < 1e21. */
  function FixedMagnitude(x: real, digits: nat): string
    requires x >= 0.0
  {
    RenderScaled(ScaledRound(x, digits), digits)
  }

  /** `x.toFixed(digits)` for |x| < 1e21: a minus sign, then the magnitude. */
  function ToFixed(x: real, digits: nat): string {
    if x < 0.0 then "-" + FixedMagnitude(-x, digits) else FixedMagnitude(x, digits)
  }

  /**
   * The text toFixed produces reads back as the scaled integer it rounded to:
   * digits, a point, exactly `digits` digits, and together they spell n.
   */
  lemma RenderScaledDenotes(n: nat, digits: nat)
    requires digits > 0
    ensures var r := RenderScaled(n, digits);
      && |r| >= digits + 2
      && r[|r| - digits - 1] == '.'
      && AllDigits(r[..|r| - digits - 1]) && AllDigits(r[|r| - digits..])
      && ParseDecimal(r[..|r| - digits - 1]) * Pow10(digits) + ParseDecimal(r[|r| - digits..]) == n
  {
    var scale := Pow10(digits);
    var q, m := Quotient(n, scale), Remainder(n, scale);
    var whole, frac := NatToString(q), NatToString(m);
    NatToStringWidth(m, digits);
    PadStartDenotes(frac, digits);
    var padded := PadStart(frac, digits, '0');
    assert |padded| == digits;
    PointSplit(RenderScaled(n, digits), whole, padded);
    QuotientRemainder(n, scale);
  }

  /** The two sides of the point in `whole + "." + fraction`. */
  lemma PointSplit(r: string, whole: string, fraction: string)
    requires r == whole + "." + fraction
    ensures |r| == |whole| + 1 + |fraction|
    ensures r[|r| - |fraction| - 1] == '.'
    ensures r[..|r| - |fraction| - 1] == whole && r[|r| - |fraction|..] == fraction
  {
  }

  /** toFixed's text is made of decimal digits and the point. */
  lemma RenderScaledChars(n: nat, digits: nat)
    ensures forall c :: c in RenderScaled(n, digits) ==> IsDigit(c) || c == '.'
  {
    var scale := Pow10(digits);
    var whole := NatToString(Quotient(n, scale));
    if digits > 0 {
      var frac := NatToString(Remainder(n, scale));
      PadStartDenotes(frac, digits);
      var padded := PadStart(frac, digits, '0');
      assert RenderScaled(n, digits) == whole + "." + padded;
      assert forall c :: c in padded ==> IsDigit(c);
    }
    assert forall c :: c in whole ==> IsDigit(c);
  }

  /** toFixed writes no comma. */
  lemma ToFixedHasNoComma(x: real, digits: nat)
    ensures ',' !in ToFixed(x, digits)
  {
    RenderScaledChars(ScaledRound(if x < 0.0 then -x else x, digits), digits);
  }

  lemma QuotientRemainder(n: nat, d: nat)
    requires d > 0
    ensures Quotient(n, d) * d + Remainder(n, d) == n
  {
  }
}
