/** `parseInt(s)` with no radix argument, as ECMAScript defines it: leading
    white space is skipped, an optional sign is read, a `0x`/`0X` prefix
    selects radix 16 (radix 10 otherwise), and the longest prefix of digits
    of that radix is read; no digits at all gives `NaN`, here `None`.
    JavaScript numbers are floating point; this model reads the digits as an
    unbounded integer. */
module JsNumber {
  import opened Wrappers
  import opened JsString

  /** The value of `c` as a digit of `radix` (2..36), if it is one. */
  function DigitValue(c: char, radix: nat): (d: Option<nat>)
    requires 2 <= radix <= 36
    ensures d.Some? ==> d.value < radix
  {
    var v :=
      if '0' <= c <= '9' then c as int - '0' as int
      else if 'a' <= c <= 'z' then c as int - 'a' as int + 10
      else if 'A' <= c <= 'Z' then c as int - 'A' as int + 10
      else radix;
    if v < radix then Some(v) else None
  }

  /** Length of the longest prefix of `s` made of digits of `radix`. */
  function DigitPrefixLength(s: string, radix: nat): (n: nat)
    requires 2 <= radix <= 36
    ensures n <= |s|
    ensures forall i :: 0 <= i < n ==> DigitValue(s[i], radix).Some?
    ensures n < |s| ==> DigitValue(s[n], radix).None?
    decreases |s|
  {
    if |s| > 0 && DigitValue(s[0], radix).Some? then 1 + DigitPrefixLength(s[1..], radix) else 0
  }

  /** The number an all-digit string denotes, most significant digit first. */
  function DigitsValue(s: string, radix: nat): nat
    requires 2 <= radix <= 36
    requires forall i :: 0 <= i < |s| ==> DigitValue(s[i], radix).Some?
    decreases |s|
  {
    if |s| == 0 then 0
    else
      var init := s[..|s| - 1];
      assert forall i :: 0 <= i < |init| ==> init[i] == s[i];
      var high := DigitsValue(init, radix);
      assert high * radix >= 0;
      high * radix + DigitValue(s[|s| - 1], radix).value
  }

  /** `parseInt(s)`: `None` stands for `NaN`. */
  function ParseInt(s: string): Option<int> {
    ParseSigned(TrimStart(s))
  }

  /** The sign step, on a string whose leading white space is gone. */
  function ParseSigned(t: string): Option<int> {
    var negative := |t| > 0 && t[0] == '-';
    var u := if |t| > 0 && (t[0] == '-' || t[0] == '+') then t[1..] else t;
    match ParseUnsigned(u)
    case Some(n) => Some(if negative then -(n as int) else n)
    case None => None
  }

  /** The radix step and the digits, after the sign. */
  function ParseUnsigned(u: string): Option<nat> {
    var hex := |u| >= 2 && u[0] == '0' && (u[1] == 'x' || u[1] == 'X');
    var radix := if hex then 16 else 10;
    var v := if hex then u[2..] else u;
    var n := DigitPrefixLength(v, radix);
    if n == 0 then None else Some(DigitsValue(v[..n], radix))
  }

  predicate IsDecimalDigit(c: char) {
    '0' <= c <= '9'
  }

  /** The decimal digits of `n`, without leading zeros. */
  function Digits(n: nat): (r: string)
    ensures |r| >= 1
    ensures forall i :: 0 <= i < |r| ==> IsDecimalDigit(r[i])
    ensures r[0] == '0' ==> n == 0 && r == "0"
  {
    var last := [('0' as int + n % 10) as char];
    if n < 10 then last else Digits(n / 10) + last
  }

  /** The canonical decimal rendering of an integer, as `String(n)` gives it. */
  function DecimalString(n: int): string {
    if n < 0 then "-" + Digits(-n) else Digits(n)
  }

  lemma {:induction false} DigitsValueOfDigits(n: nat)
    ensures forall i :: 0 <= i < |Digits(n)| ==> DigitValue(Digits(n)[i], 10).Some?
    ensures DigitsValue(Digits(n), 10) == n
  {
    var d := Digits(n);
    if n >= 10 {
      DigitsValueOfDigits(n / 10);
      assert d[..|d| - 1] == Digits(n / 10);
    }
  }

  /** Reading a number back: `parseInt` of the decimal rendering of `n`,
      followed by anything that cannot continue the number, is `n`. */
  lemma {:induction false} ParseIntDecimal(n: int, tail: string)
    requires tail == [] || !(IsDecimalDigit(tail[0]) || tail[0] == 'x' || tail[0] == 'X')
    ensures ParseInt(DecimalString(n) + tail) == Some(n)
  {
    var s := DecimalString(n) + tail;
    assert s[0] == DecimalString(n)[0];
    NoLeadingSpace(s);
    ParseSignedDecimal(n, tail);
  }

  /** Leading white space is skipped: any run of it before the decimal
      rendering of `n` and such a tail still reads as `n`. */
  lemma {:induction false} ParseIntAfterSpace(ws: string, n: int, tail: string)
    requires AllSpace(ws)
    requires tail == [] || !(IsDecimalDigit(tail[0]) || tail[0] == 'x' || tail[0] == 'X')
    ensures ParseInt(ws + DecimalString(n) + tail) == Some(n)
  {
    var s := DecimalString(n) + tail;
    assert s[0] == DecimalString(n)[0];
    assert ws + DecimalString(n) + tail == ws + s;
    TrimStartSkipsSpace(ws, s);
    ParseSignedDecimal(n, tail);
  }

  /** Three examples of a `0x`/`0X` prefix: the digits after it are read in
      radix 16 up to the first character that is not one. The value of every
      hex digit is given by `HexDigitTable`. */
  lemma {:induction false} ParseIntHex()
    ensures ParseInt("0x1a") == Some(26)
    ensures ParseInt("-0XfF") == Some(-255)
    ensures ParseInt(" 0x10g") == Some(16)
  {
    HexLowerCase();
    HexNegative();
    HexAfterSpace();
  }

  /** The digit values of radix 16 against the digit table: the `k`-th
      character of "0123456789abcdef", and of its upper-case form, has the
      value `k`. */
  lemma {:induction false} HexDigitTable()
    ensures forall k :: 0 <= k < 16 ==> DigitValue("0123456789abcdef"[k], 16) == Some(k)
    ensures forall k :: 0 <= k < 16 ==> DigitValue("0123456789ABCDEF"[k], 16) == Some(k)
  {
  }

  /** A leading `+` is read and dropped: it, then the decimal text of `m`,
      then a tail that cannot continue the number, reads as `m`. */
  lemma {:induction false} ParseIntPlus(m: nat, tail: string)
    requires tail == [] || !(IsDecimalDigit(tail[0]) || tail[0] == 'x' || tail[0] == 'X')
    ensures ParseInt("+" + Digits(m) + tail) == Some(m)
  {
    var s := "+" + Digits(m) + tail;
    NoLeadingSpace(s);
    assert s[1..] == Digits(m) + tail;
    ParseUnsignedDigits(m, tail);
  }

  lemma {:induction false} HexLowerCase()
    ensures ParseInt("0x1a") == Some(26)
  {
    HexPair("0x1a", '1', 'a', "");
    NoLeadingSpace("0x1a");
    assert ParseSigned("0x1a") == ParseUnsigned("0x1a");
  }

  lemma {:induction false} HexNegative()
    ensures ParseInt("-0XfF") == Some(-255)
  {
    var s := "-0XfF";
    HexPair(s[1..], 'f', 'F', "");
    NoLeadingSpace(s);
    MinusSign(s, 255);
  }

  lemma {:induction false} HexAfterSpace()
    ensures ParseInt(" 0x10g") == Some(16)
  {
    var t := "0x10g";
    HexPair(t, '1', '0', "g");
    TrimStartSkipsSpace(" ", t);
    assert " " + t == " 0x10g";
    assert ParseSigned(t) == ParseUnsigned(t);
  }

  /** Two hex digits after the prefix, followed by a tail that does not
      start with one. */
  lemma {:induction false} HexPair(u: string, hi: char, lo: char, tail: string)
    requires DigitValue(hi, 16).Some? && DigitValue(lo, 16).Some?
    requires tail == [] || DigitValue(tail[0], 16).None?
    requires |u| >= 2 && u[0] == '0' && (u[1] == 'x' || u[1] == 'X') && u[2..] == [hi, lo] + tail
    ensures ParseUnsigned(u) == Some(DigitValue(hi, 16).value * 16 + DigitValue(lo, 16).value)
  {
    var v := u[2..];
    assert v[1..] == [lo] + tail && v[1..][1..] == tail;
    assert DigitPrefixLength(v, 16) == 2;
    var d := v[..2];
    assert d == [hi, lo] && d[..1] == [hi] && d[..1][..0] == [];
    assert DigitsValue(d[..1], 16) == DigitValue(hi, 16).value;
  }

  /** The sign step reads back the decimal rendering of `n`. */
  lemma {:induction false} ParseSignedDecimal(n: int, tail: string)
    requires tail == [] || !(IsDecimalDigit(tail[0]) || tail[0] == 'x' || tail[0] == 'X')
    ensures ParseSigned(DecimalString(n) + tail) == Some(n)
  {
    if n < 0 {
      NegativeDecimal(n, tail);
    } else {
      NonNegativeDecimal(n, tail);
    }
  }

  lemma {:induction false} NegativeDecimal(n: int, tail: string)
    requires n < 0
    requires tail == [] || !(IsDecimalDigit(tail[0]) || tail[0] == 'x' || tail[0] == 'X')
    ensures ParseSigned(DecimalString(n) + tail) == Some(n)
  {
    var m: nat := -n;
    var s := DecimalString(n) + tail;
    assert s[1..] == Digits(m) + tail by {
      assert DecimalString(n) == "-" + Digits(m);
    }
    ParseUnsignedDigits(m, tail);
    MinusSign(s, m);
  }

  lemma {:induction false} NonNegativeDecimal(n: int, tail: string)
    requires n >= 0
    requires tail == [] || !(IsDecimalDigit(tail[0]) || tail[0] == 'x' || tail[0] == 'X')
    ensures ParseSigned(DecimalString(n) + tail) == Some(n)
  {
    var u := Digits(n) + tail;
    ParseUnsignedDigits(n, tail);
    assert DecimalString(n) + tail == u;
    NoSign(u, n);
  }

  lemma {:induction false} MinusSign(s: string, m: nat)
    requires |s| > 0 && s[0] == '-' && ParseUnsigned(s[1..]) == Some(m)
    ensures ParseSigned(s) == Some(-(m as int))
  {
  }

  lemma {:induction false} NoSign(u: string, m: nat)
    requires ParseUnsigned(u) == Some(m)
    requires u != [] && IsDecimalDigit(u[0])
    ensures ParseSigned(u) == Some(m)
  {
  }

  lemma {:induction false} NoLeadingSpace(s: string)
    requires |s| > 0 && (s[0] == '-' || s[0] == '+' || IsDecimalDigit(s[0]))
    ensures TrimStart(s) == s
  {
    assert !IsJsSpace(s[0]);
  }

  lemma {:induction false} ParseUnsignedDigits(m: nat, tail: string)
    requires tail == [] || !(IsDecimalDigit(tail[0]) || tail[0] == 'x' || tail[0] == 'X')
    ensures ParseUnsigned(Digits(m) + tail) == Some(m)
  {
    var d := Digits(m);
    var u := d + tail;
    DigitsValueOfDigits(m);
    assert !(|u| >= 2 && u[0] == '0' && (u[1] == 'x' || u[1] == 'X')) by {
      if |u| >= 2 && u[0] == '0' {
        assert d == "0";
        assert u[1] == tail[0];
      }
    }
    DigitPrefixOfDigits(d, tail);
    assert u[..|d|] == d;
  }

  lemma {:induction false} DigitPrefixOfDigits(d: string, tail: string)
    requires forall i :: 0 <= i < |d| ==> IsDecimalDigit(d[i])
    requires tail == [] || !IsDecimalDigit(tail[0])
    ensures DigitPrefixLength(d + tail, 10) == |d|
    decreases |d|
  {
    if |d| > 0 {
      assert (d + tail)[1..] == d[1..] + tail;
      DigitPrefixOfDigits(d[1..], tail);
    } else {
      assert d + tail == tail;
    }
  }

  /** A string without a single decimal digit parses to `NaN`. */
  lemma {:induction false} ParseIntNoDigit(s: string)
    requires forall i :: 0 <= i < |s| ==> !IsDecimalDigit(s[i])
    ensures ParseInt(s) == None
  {
    var t := TrimStart(s);
    TrimStartCutsSpace(s);
    assert forall i :: 0 <= i < |t| ==> t[i] == s[|s| - |t| + i];
    ParseSignedNoDigit(t);
  }

  lemma {:induction false} ParseSignedNoDigit(t: string)
    requires forall i :: 0 <= i < |t| ==> !IsDecimalDigit(t[i])
    ensures ParseSigned(t) == None
  {
    if |t| > 0 && (t[0] == '-' || t[0] == '+') {
      assert |t| > 1 ==> t[1..][0] == t[1];
      ParseUnsignedNoDigit(t[1..]);
    } else {
      ParseUnsignedNoDigit(t);
    }
  }

  /** Without a leading decimal digit there is no hex prefix and no digit. */
  lemma {:induction false} ParseUnsignedNoDigit(u: string)
    requires u == [] || !IsDecimalDigit(u[0])
    ensures ParseUnsigned(u) == None
  {
    assert |u| > 0 ==> DigitValue(u[0], 10).None?;
  }
}
