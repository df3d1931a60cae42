/**
 * The few pieces of JavaScript string semantics the page scripts rely on:
 * `parseInt(s, 10)`, UTF-16 code units and the code-point iteration of
 * the spread operator `[...text]`, and the decimal form of an integer as
 * a template literal writes it.
 */
module JsText {

  datatype Option<T> = None | Some(value: T)

  /** One UTF-16 code unit: the element of a JavaScript string. */
  newtype Unit = x: int | 0 <= x < 0x1_0000

  /** The code unit of the space character. */
  const Space: Unit := 0x20

  predicate IsDigit(c: char) {
    '0' <= c <= '9'
  }

  /**
   * The white space `parseInt` skips before the number (the StrWhiteSpaceChar
   * set: tab, vertical tab, form feed, byte order mark, the space separators
   * of category Zs, line feed, carriage return, line and paragraph separator).
   */
  predicate IsJsSpace(c: char) {
    c == '\t' || c == '\n' || c == '\U{000B}' || c == '\U{000C}' || c == '\r' || c == '\U{FEFF}'
    || c == '\U{2028}' || c == '\U{2029}'
    || IsSpaceSeparator(c)
  }

  /** The characters of Unicode category Zs. */
  predicate IsSpaceSeparator(c: char) {
    c == ' ' || c == '\U{00A0}' || c == '\U{1680}' || ('\U{2000}' <= c <= '\U{200A}')
    || c == '\U{202F}' || c == '\U{205F}' || c == '\U{3000}'
  }

  /** `s` without its leading white space. */
  function TrimStart(s: string): (r: string)
    ensures |r| <= |s| && r == s[|s| - |r|..]
    ensures r == [] || !IsJsSpace(r[0])
    ensures forall i :: 0 <= i < |s| - |r| ==> IsJsSpace(s[i])
  {
    if s != [] && IsJsSpace(s[0]) then TrimStart(s[1..]) else s
  }

  /** Length of the run of decimal digits at the start of `s`. */
  function DigitRun(s: string): (n: nat)
    ensures n <= |s|
    ensures forall i :: 0 <= i < n ==> IsDigit(s[i])
    ensures n == |s| || !IsDigit(s[n])
  {
    if s != [] && IsDigit(s[0]) then 1 + DigitRun(s[1..]) else 0
  }

  /** The value of a string of decimal digits, most significant first. */
  function DigitsValue(d: string): (v: int)
    requires forall i :: 0 <= i < |d| ==> IsDigit(d[i])
    ensures v >= 0
  {
    if d == [] then 0
    else 10 * DigitsValue(d[..|d| - 1]) + DigitValue(d[|d| - 1])
  }

  function DigitValue(c: char): (v: int)
    requires IsDigit(c)
    ensures 0 <= v < 10
  {
    c as int - '0' as int
  }

  /**
   * `parseInt(s, 10)`: skip leading white space, read an optional sign and
   * the longest run of digits after it; `None` stands for NaN (no digit).
   */
  function ParseInt(s: string): Option<int>
  {
    ParseSigned(TrimStart(s))
  }

  /** `parseInt` once the leading white space is gone. */
  function ParseSigned(t: string): Option<int>
  {
    if t != [] && t[0] == '-' then Negate(ParseDigits(t[1..]))
    else if t != [] && t[0] == '+' then ParseDigits(t[1..])
    else ParseDigits(t)
  }

  function Negate(r: Option<int>): Option<int>
  {
    if r.Some? then Some(-r.value) else None
  }

  /** The value of the digit run at the start of `u`, or NaN when there is none. */
  function ParseDigits(u: string): Option<int>
  {
    var n := DigitRun(u);
    if n == 0 then None else Some(DigitsValue(u[..n]))
  }

  function DigitChar(d: nat): (c: char)
    requires d < 10
    ensures IsDigit(c) && DigitValue(c) == d
  {
    (d + '0' as int) as char
  }

  /** The decimal digits of `n`, as `${n}` writes a non-negative integer. */
  function NatDecimal(n: nat): (s: string)
    ensures |s| >= 1
    ensures forall i :: 0 <= i < |s| ==> IsDigit(s[i])
  {
    if n < 10 then [DigitChar(n)] else NatDecimal(n / 10) + [DigitChar(n % 10)]
  }

  /** `${n}` for an integer `n`. */
  function Decimal(n: int): (s: string)
    ensures |s| >= 1
  {
    if n < 0 then "-" + NatDecimal(-n) else NatDecimal(n)
  }

  lemma {:induction false} NatDecimalValue(n: nat)
    ensures DigitsValue(NatDecimal(n)) == n
  {
    if n >= 10 {
      var s := NatDecimal(n);
      assert s[..|s| - 1] == NatDecimal(n / 10);
      NatDecimalValue(n / 10);
    }
  }

  /** A digit run followed by anything that is not a digit. */
  lemma {:induction false} DigitRunPrefix(d: string, rest: string)
    requires forall i :: 0 <= i < |d| ==> IsDigit(d[i])
    requires rest == [] || !IsDigit(rest[0])
    ensures DigitRun(d + rest) == |d|
  {
    if d != [] {
      assert (d + rest)[1..] == d[1..] + rest;
      DigitRunPrefix(d[1..], rest);
    } else {
      assert d + rest == rest;
    }
  }

  /** `parseInt` of a digit string followed by a non-digit reads the digits' value. */
  lemma ParseDigitsPrefix(d: string, rest: string)
    requires |d| >= 1 && forall i :: 0 <= i < |d| ==> IsDigit(d[i])
    requires rest == [] || !IsDigit(rest[0])
    ensures ParseDigits(d + rest) == Some(DigitsValue(d))
  {
    DigitRunPrefix(d, rest);
    assert (d + rest)[..|d|] == d;
  }

  /**
   * `parseInt` reads back every integer that a template literal writes,
   * whatever non-digit text follows it (`${n}px`).
   */
  lemma ParseIntDecimal(n: int, rest: string)
    requires rest == [] || !IsDigit(rest[0])
    ensures ParseInt(Decimal(n) + rest) == Some(n)
  {
    if n < 0 {
      var m: nat := -n;
      assert Decimal(n) + rest == "-" + NatDecimal(m) + rest;
      ParseIntNegatedDecimal(m, rest);
    } else {
      assert Decimal(n) + rest == NatDecimal(n) + rest;
      ParseIntNatDecimal(n, rest);
    }
  }

  lemma ParseIntNatDecimal(n: nat, rest: string)
    requires rest == [] || !IsDigit(rest[0])
    ensures ParseInt(NatDecimal(n) + rest) == Some(n)
  {
    var d := NatDecimal(n);
    var t := d + rest;
    assert t[0] == d[0];
    TrimStartKeeps(t);
    assert ParseSigned(t) == ParseDigits(t);
    NatDecimalValue(n);
    ParseDigitsPrefix(d, rest);
  }

  /**
   * A minus sign in front of the decimal form of a non-negative number,
   * followed by a non-digit (`-${n}px`), reads back as the negated number
   * (`-0px` reads as 0).
   */
  lemma ParseIntNegatedDecimal(n: nat, rest: string)
    requires rest == [] || !IsDigit(rest[0])
    ensures ParseInt("-" + NatDecimal(n) + rest) == Some(-(n as int))
  {
    var d := NatDecimal(n);
    var t := "-" + d + rest;
    assert t[0] == '-';
    TrimStartKeeps(t);
    assert t[1..] == d + rest;
    assert ParseSigned(t) == Negate(ParseDigits(d + rest));
    NatDecimalValue(n);
    ParseDigitsPrefix(d, rest);
  }

  /** Text that starts with a digit or a minus sign is not trimmed. */
  lemma TrimStartKeeps(t: string)
    requires t != [] && (IsDigit(t[0]) || t[0] == '-')
    ensures TrimStart(t) == t
  {
    assert !IsJsSpace(t[0]);
  }

  /**
   * `parseInt` stops at the first character that is not a digit, so a
   * string that starts with the digit 0 and goes on with anything else
   * ("0", "0.5", "0.999") reads as 0.
   */
  lemma ParseIntLeadingZero(rest: string)
    requires rest == [] || !IsDigit(rest[0])
    ensures ParseInt("0" + rest) == Some(0)
  {
    assert Decimal(0) == "0";
    ParseIntDecimal(0, rest);
  }

  /**
   * `parseInt(s)` with no radix: as `parseInt(s, 10)`, except that a `0x`
   * or `0X` after the sign makes the digits that follow hexadecimal.
   */
  function ParseIntAutoRadix(s: string): Option<int>
  {
    ParseSignedAutoRadix(TrimStart(s))
  }

  /** `parseInt` with no radix once the leading white space is gone. */
  function ParseSignedAutoRadix(t: string): Option<int>
  {
    var r := ParseUnsignedAutoRadix(Unsigned(t));
    if t != [] && t[0] == '-' then Negate(r) else r
  }

  /** The digits after the sign: hexadecimal behind `0x` or `0X`, decimal otherwise. */
  function ParseUnsignedAutoRadix(u: string): Option<int>
  {
    if HasHexPrefix(u) then ParseHexDigits(u[2..]) else ParseDigits(u)
  }

  /** `t` without its leading sign, if it has one. */
  function Unsigned(t: string): (u: string)
    ensures u == t || (t != [] && (t[0] == '-' || t[0] == '+') && u == t[1..])
  {
    if t != [] && (t[0] == '-' || t[0] == '+') then t[1..] else t
  }

  predicate HasHexPrefix(u: string) {
    |u| >= 2 && u[0] == '0' && (u[1] == 'x' || u[1] == 'X')
  }

  predicate IsHexDigit(c: char) {
    IsDigit(c) || 'a' <= c <= 'f' || 'A' <= c <= 'F'
  }

  function HexDigitValue(c: char): (v: int)
    requires IsHexDigit(c)
    ensures 0 <= v < 16
    ensures IsDigit(c) ==> v == DigitValue(c)
  {
    if IsDigit(c) then DigitValue(c)
    else if 'a' <= c <= 'f' then c as int - 'a' as int + 10
    else c as int - 'A' as int + 10
  }

  /** Length of the run of hexadecimal digits at the start of `s`. */
  function HexRun(s: string): (n: nat)
    ensures n <= |s|
    ensures forall i :: 0 <= i < n ==> IsHexDigit(s[i])
    ensures n == |s| || !IsHexDigit(s[n])
  {
    if s != [] && IsHexDigit(s[0]) then 1 + HexRun(s[1..]) else 0
  }

  /** The value of a string of hexadecimal digits, most significant first. */
  function HexValue(d: string): (v: int)
    requires forall i :: 0 <= i < |d| ==> IsHexDigit(d[i])
    ensures v >= 0
  {
    if d == [] then 0
    else 16 * HexValue(d[..|d| - 1]) + HexDigitValue(d[|d| - 1])
  }

  /** The value of the hexadecimal run at the start of `u`, or NaN when there is none. */
  function ParseHexDigits(u: string): Option<int>
  {
    var n := HexRun(u);
    if n == 0 then None else Some(HexValue(u[..n]))
  }

  /** A hexadecimal run followed by anything that is not a hexadecimal digit. */
  lemma {:induction false} HexRunPrefix(d: string, rest: string)
    requires forall i :: 0 <= i < |d| ==> IsHexDigit(d[i])
    requires rest == [] || !IsHexDigit(rest[0])
    ensures HexRun(d + rest) == |d|
  {
    if d != [] {
      assert (d + rest)[1..] == d[1..] + rest;
      HexRunPrefix(d[1..], rest);
    } else {
      assert d + rest == rest;
    }
  }

  /**
   * Without a radix, `parseInt` reads a `0x` or `0X` prefix followed by a
   * hexadecimal run as that run's value, whatever follows the run.
   */
  lemma ParseIntAutoRadixHex(x: char, d: string, rest: string)
    requires x == 'x' || x == 'X'
    requires |d| >= 1 && forall i :: 0 <= i < |d| ==> IsHexDigit(d[i])
    requires rest == [] || !IsHexDigit(rest[0])
    ensures ParseIntAutoRadix(['0', x] + d + rest) == Some(HexValue(d))
  {
    assert ['0', x] + d + rest == ['0', x] + (d + rest);
    ParseIntAutoRadixHexPrefixed(x, d + rest);
    ParseHexPrefix(d, rest);
  }

  /** Behind `0x` or `0X`, `parseInt` with no radix reads what follows as hexadecimal. */
  lemma ParseIntAutoRadixHexPrefixed(x: char, v: string)
    requires x == 'x' || x == 'X'
    ensures ParseIntAutoRadix(['0', x] + v) == ParseHexDigits(v)
  {
    var t := ['0', x] + v;
    assert t[0] == '0' && t[1] == x && t[2..] == v;
    ParseIntAutoRadixFromDigit(t);
  }

  /** Text that starts with a digit has no white space or sign to skip. */
  lemma ParseIntAutoRadixFromDigit(t: string)
    requires t != [] && IsDigit(t[0])
    ensures ParseIntAutoRadix(t) == ParseUnsignedAutoRadix(t)
  {
    TrimStartKeeps(t);
  }

  /** A hexadecimal run followed by a non-hexadecimal character reads as the run's value. */
  lemma ParseHexPrefix(d: string, rest: string)
    requires |d| >= 1 && forall i :: 0 <= i < |d| ==> IsHexDigit(d[i])
    requires rest == [] || !IsHexDigit(rest[0])
    ensures ParseHexDigits(d + rest) == Some(HexValue(d))
  {
    HexRunPrefix(d, rest);
    assert (d + rest)[..|d|] == d;
  }

  /**
   * `parseInt` with no radix reads back the decimal text of every integer,
   * followed by any non-digit, except "0" followed by `x` or `X`.
   */
  lemma ParseIntAutoRadixReadsDecimal(n: int, rest: string)
    requires rest == [] || !IsDigit(rest[0])
    requires n != 0 || rest == [] || (rest[0] != 'x' && rest[0] != 'X')
    ensures ParseIntAutoRadix(Decimal(n) + rest) == Some(n)
  {
    if n < 0 {
      var m: nat := -n;
      assert Decimal(n) + rest == "-" + (NatDecimal(m) + rest);
      ParseIntAutoRadixReadsNegated(m, rest);
    } else {
      assert Decimal(n) + rest == NatDecimal(n) + rest;
      ParseIntAutoRadixReadsNat(n, rest);
    }
  }

  /** The non-negative case of `ParseIntAutoRadixReadsDecimal`. */
  lemma ParseIntAutoRadixReadsNat(m: nat, rest: string)
    requires rest == [] || !IsDigit(rest[0])
    requires m != 0 || rest == [] || (rest[0] != 'x' && rest[0] != 'X')
    ensures ParseIntAutoRadix(NatDecimal(m) + rest) == Some(m)
  {
    NatDecimalHasNoHexPrefix(m, rest);
    ParseDigitsNatDecimal(m, rest);
    ParseIntAutoRadixFromDigit(NatDecimal(m) + rest);
  }

  /** The negative case of `ParseIntAutoRadixReadsDecimal`. */
  lemma ParseIntAutoRadixReadsNegated(m: nat, rest: string)
    requires rest == [] || !IsDigit(rest[0])
    requires m != 0
    ensures ParseIntAutoRadix("-" + (NatDecimal(m) + rest)) == Some(-(m as int))
  {
    NatDecimalHasNoHexPrefix(m, rest);
    ParseDigitsNatDecimal(m, rest);
    ParseIntAutoRadixNegated(NatDecimal(m) + rest);
  }

  /** The digit run of `${m}` followed by a non-digit has the value m. */
  lemma ParseDigitsNatDecimal(m: nat, rest: string)
    requires rest == [] || !IsDigit(rest[0])
    ensures ParseDigits(NatDecimal(m) + rest) == Some(m)
    ensures IsDigit((NatDecimal(m) + rest)[0])
  {
    NatDecimalValue(m);
    ParseDigitsPrefix(NatDecimal(m), rest);
  }

  /** Only the digit "0" followed by `x` or `X` looks like a hexadecimal prefix. */
  lemma NatDecimalHasNoHexPrefix(m: nat, rest: string)
    requires rest == [] || !IsDigit(rest[0])
    requires m != 0 || rest == [] || (rest[0] != 'x' && rest[0] != 'X')
    ensures !HasHexPrefix(NatDecimal(m) + rest)
  {
    var d := NatDecimal(m);
    var u := d + rest;
    if |d| == 1 {
      assert u[0] == DigitChar(m);
    } else {
      assert u[1] == d[1];
    }
  }

  /** A leading minus sign negates what `parseInt` with no radix reads after it. */
  lemma ParseIntAutoRadixNegated(u: string)
    ensures ParseIntAutoRadix("-" + u) == Negate(ParseUnsignedAutoRadix(u))
  {
    var t := "-" + u;
    assert t[0] == '-' && t[1..] == u;
    TrimStartKeeps(t);
  }

  /** Without the `0x` prefix, a missing radix reads decimal, as `parseInt(s, 10)` does. */
  lemma ParseIntAutoRadixDecimal(s: string)
    requires !HasHexPrefix(Unsigned(TrimStart(s)))
    ensures ParseIntAutoRadix(s) == ParseInt(s)
  {
  }

  /** After the sign, `0x` or `0X` with no hexadecimal digit after it is NaN. */
  lemma ParseIntAutoRadixBarePrefix(s: string)
    requires HasHexPrefix(Unsigned(TrimStart(s)))
    requires var u := Unsigned(TrimStart(s)); |u| == 2 || !IsHexDigit(u[2])
    ensures ParseIntAutoRadix(s) == None
  {
  }

  /**
   * JavaScript's `a % n` on integers with `n > 0`: the quotient is truncated
   * toward zero, so the remainder takes the sign of `a`. A zero remainder of
   * a negative `a` is `-0`, which as an array index reads element 0 like
   * `0` does, so it is written 0 here.
   */
  function JsRem(a: int, n: int): (r: int)
    requires n > 0
    ensures a >= 0 ==> 0 <= r < n && r == a % n
    ensures a < 0 ==> -n < r <= 0
    ensures a < 0 ==> (r == 0 <==> (-a) % n == 0)
    ensures (a - r) % n == 0
  {
    if a >= 0 then
      assert a - a % n == n * (a / n);
      MultipleHasNoRemainder(n, a / n);
      a % n
    else
      TruncatedRemainderCongruent(a, n);
      -((-a) % n)
  }

  /** The truncated remainder of a negative `a` differs from `a` by a multiple of `n`. */
  lemma TruncatedRemainderCongruent(a: int, n: int)
    requires n > 0 && a < 0
    ensures (a + (-a) % n) % n == 0
  {
    var b := -a;
    var q := b / n;
    assert b == n * q + b % n;
    assert a + b % n == n * -q;
    MultipleHasNoRemainder(n, -q);
  }

  /** A multiple of `n` leaves no remainder. */
  lemma MultipleHasNoRemainder(n: int, k: int)
    requires n > 0
    ensures (n * k) % n == 0
  {
    var x := n * k;
    var d := k - x / n;
    assert n * d == x % n;
    if d > 0 {
      assert false;
    } else if d < 0 {
      assert false;
    }
  }

  /**
   * The property names every plain object inherits from `Object.prototype`;
   * reading one of them from an empty object literal gives a truthy value.
   */
  predicate IsObjectPrototypeMember(name: string) {
    name in {"constructor", "hasOwnProperty", "isPrototypeOf", "propertyIsEnumerable",
             "toLocaleString", "toString", "valueOf", "__proto__",
             "__defineGetter__", "__defineSetter__", "__lookupGetter__", "__lookupSetter__"}
  }

  predicate IsHighSurrogate(u: Unit) {
    0xD800 <= u <= 0xDBFF
  }

  predicate IsLowSurrogate(u: Unit) {
    0xDC00 <= u <= 0xDFFF
  }

  /**
   * The pieces `[...text]` iterates over: one per code point, so a high
   * surrogate followed by a low surrogate is one piece of two units and
   * every other unit (a lone surrogate included) is a piece of its own.
   */
  function CodePoints(s: seq<Unit>): (r: seq<seq<Unit>>)
    ensures |r| <= |s|
    ensures forall i :: 0 <= i < |r| ==> 1 <= |r[i]| <= 2
    decreases |s|
  {
    if s == [] then []
    else if |s| >= 2 && IsHighSurrogate(s[0]) && IsLowSurrogate(s[1]) then [s[..2]] + CodePoints(s[2..])
    else [s[..1]] + CodePoints(s[1..])
  }

  /** The concatenation of a list of strings. */
  function Concat(pieces: seq<seq<Unit>>): seq<Unit>
  {
    if pieces == [] then [] else pieces[0] + Concat(pieces[1..])
  }

  lemma {:induction false} ConcatAppend(a: seq<seq<Unit>>, b: seq<seq<Unit>>)
    ensures Concat(a + b) == Concat(a) + Concat(b)
  {
    if a != [] {
      assert (a + b)[1..] == a[1..] + b;
      ConcatAppend(a[1..], b);
    } else {
      assert a + b == b;
    }
  }

  /** Iterating by code points and joining the pieces gives the text back. */
  lemma {:induction false} ConcatCodePoints(s: seq<Unit>)
    ensures Concat(CodePoints(s)) == s
    decreases |s|
  {
    if s == [] {
    } else if |s| >= 2 && IsHighSurrogate(s[0]) && IsLowSurrogate(s[1]) {
      ConcatCodePoints(s[2..]);
      assert s == s[..2] + s[2..];
    } else {
      ConcatCodePoints(s[1..]);
      assert s == s[..1] + s[1..];
    }
  }

  /** Code points and code units agree exactly when no surrogate pair occurs. */
  lemma {:induction false} CodePointsCount(s: seq<Unit>)
    ensures |CodePoints(s)| == |s| <==>
              forall i :: 0 <= i < |s| - 1 ==> !(IsHighSurrogate(s[i]) && IsLowSurrogate(s[i + 1]))
    decreases |s|
  {
    if s == [] {
    } else if |s| >= 2 && IsHighSurrogate(s[0]) && IsLowSurrogate(s[1]) {
      assert |CodePoints(s)| == 1 + |CodePoints(s[2..])| <= 1 + |s| - 2;
    } else {
      CodePointsCount(s[1..]);
      assert forall i :: 1 <= i < |s| - 1 ==> s[i] == s[1..][i - 1] && s[i + 1] == s[1..][i];
    }
  }
}
