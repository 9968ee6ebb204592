/**
 * The numeric conversions of the listing endpoint: `parseInt(s, 10)`, the
 * `|| default` fallback applied to it, and `Math.ceil(a / b)` on integers.
 */
module JsNumbers {
  import opened Wrappers
  import opened JsStrings

  predicate IsDigit(c: char) { '0' <= c <= '9' }

  predicate AllDigits(s: string) {
    forall i :: 0 <= i < |s| ==> IsDigit(s[i])
  }

  function DigitValue(c: char): (d: nat)
    requires IsDigit(c)
    ensures d < 10
  {
    c as int - '0' as int
  }

  function DigitChar(d: nat): (c: char)
    requires d < 10
    ensures IsDigit(c) && DigitValue(c) == d
  {
    ('0' as int + d) as char
  }

  /** The longest prefix of `s` made of decimal digits. */
  function DigitPrefix(s: string): (r: string)
    ensures |r| <= |s| && r == s[..|r|]
    ensures AllDigits(r)
    ensures |r| < |s| ==> !IsDigit(s[|r|])
    decreases |s|
  {
    if |s| > 0 && IsDigit(s[0]) then [s[0]] + DigitPrefix(s[1..]) else ""
  }

  /** The value of a string of decimal digits, most significant first. */
  function DigitsValue(ds: string): nat
    requires AllDigits(ds)
    decreases |ds|
  {
    if |ds| == 0 then 0 else DigitsValue(ds[..|ds| - 1]) * 10 + DigitValue(ds[|ds| - 1])
  }

  /**
   * `parseInt(s, 10)` as ECMAScript defines it: skip leading white space,
   * accept one optional sign, then read the longest run of decimal digits;
   * with no digit the answer is `NaN`, here `None`. Whatever follows the
   * digits is ignored.
   */
  function ParseInt(s: string): (r: Option<int>)
    ensures var t := TrimStart(s);
      var body := if |t| > 0 && (t[0] == '-' || t[0] == '+') then t[1..] else t;
      && (r.None? <==> |body| == 0 || !IsDigit(body[0]))
      && (r.Some? ==> r.value == (if |t| > 0 && t[0] == '-' then -1 else 1) * DigitsValue(DigitPrefix(body)))
  {
    ParseSignedDigits(TrimStart(s))
  }

  /** The sign-and-digits step of `parseInt`, after the white space is gone. */
  function ParseSignedDigits(t: string): Option<int>
  {
    if |t| > 0 && t[0] == '-' then Negate(ParseDigits(t[1..]))
    else if |t| > 0 && t[0] == '+' then ParseDigits(t[1..])
    else ParseDigits(t)
  }

  function Negate(v: Option<int>): Option<int>
  {
    if v.Some? then Some(-v.value) else None
  }

  /** The value of the leading digits of `b`, or `None` when `b` does not start with a digit. */
  function ParseDigits(b: string): Option<int>
  {
    var ds := DigitPrefix(b);
    if |ds| == 0 then None else Some(DigitsValue(ds))
  }

  /** The decimal numeral of a natural number, as `Number#toString` writes it. */
  function Decimal(n: nat): (r: string)
    ensures |r| > 0 && AllDigits(r)
    decreases n
  {
    if n < 10 then [DigitChar(n)] else Decimal(n / 10) + [DigitChar(n % 10)]
  }

  /** The decimal numeral of any integer, with a leading minus sign for negatives. */
  function Show(n: int): (r: string)
    ensures |r| > 0 && (IsDigit(r[0]) || r[0] == '-')
  {
    if n < 0 then "-" + Decimal(-n) else Decimal(n)
  }

  /** Reading back a numeral gives its value. */
  lemma {:induction false} DecimalValue(n: nat)
    ensures DigitsValue(Decimal(n)) == n
    decreases n
  {
    if n >= 10 {
      DecimalValue(n / 10);
      var ds := Decimal(n);
      assert ds[..|ds| - 1] == Decimal(n / 10);
    }
  }

  /** The digit prefix of a numeral followed by a non-digit is the numeral itself. */
  lemma {:induction false} DigitPrefixOfNumeral(ds: string, rest: string)
    requires AllDigits(ds)
    requires |rest| == 0 || !IsDigit(rest[0])
    ensures DigitPrefix(ds + rest) == ds
    decreases |ds|
  {
    if |ds| > 0 {
      assert (ds + rest)[1..] == ds[1..] + rest;
      DigitPrefixOfNumeral(ds[1..], rest);
      assert [ds[0]] + ds[1..] == ds;
    } else {
      assert ds + rest == rest;
    }
  }

  /**
   * `parseInt` reads back what `Show` writes, even when the numeral is
   * followed by text that does not start with a digit (`parseInt("12px")` is 12).
   */
  lemma ParseIntShow(n: int, rest: string)
    requires |rest| == 0 || !IsDigit(rest[0])
    ensures ParseInt(Show(n) + rest) == Some(n)
  {
    var m: nat := if n < 0 then -n else n;
    var ds := Decimal(m);
    DecimalValue(m);
    if n < 0 {
      ParseIntNegative(ds, rest);
      assert Show(n) + rest == "-" + ds + rest;
    } else {
      ParseIntNatural(ds, rest);
      assert Show(n) + rest == ds + rest;
    }
  }

  /** A numeral followed by a non-digit reads as its value. */
  lemma ParseIntNatural(ds: string, rest: string)
    requires |ds| > 0 && AllDigits(ds)
    requires |rest| == 0 || !IsDigit(rest[0])
    ensures ParseInt(ds + rest) == Some(DigitsValue(ds))
  {
    var b := ds + rest;
    assert b[0] == ds[0];
    NoLeadingWhite(b);
    Unsigned(b);
    ParseNumeral(ds, rest);
  }

  /** A minus sign, a numeral and a non-digit read as the negated value. */
  lemma ParseIntNegative(ds: string, rest: string)
    requires |ds| > 0 && AllDigits(ds)
    requires |rest| == 0 || !IsDigit(rest[0])
    ensures ParseInt("-" + ds + rest) == Negate(Some(DigitsValue(ds)))
  {
    var b := ds + rest;
    assert "-" + ds + rest == "-" + b;
    NoLeadingWhite("-" + b);
    Minus(b);
    ParseNumeral(ds, rest);
  }

  lemma Minus(b: string)
    ensures ParseSignedDigits("-" + b) == Negate(ParseDigits(b))
  {
    assert ("-" + b)[1..] == b;
  }

  lemma Unsigned(b: string)
    requires |b| > 0 && IsDigit(b[0])
    ensures ParseSignedDigits(b) == ParseDigits(b)
  {
  }

  /** The numerals the listing endpoint uses as defaults read back as themselves. */
  lemma ParseIntSmall()
    ensures ParseInt("1") == Some(1) && ParseInt("10") == Some(10)
  {
    ParseIntOne();
    ParseIntTen();
  }

  lemma ParseIntOne()
    ensures ParseInt("1") == Some(1)
  {
    var one := "1";
    assert AllDigits(one) by { assert IsDigit(one[0]); }
    assert DigitsValue(one) == 1 by { assert one[..0] == []; }
    ParseIntNatural(one, "");
    assert one + "" == one;
  }

  lemma ParseIntTen()
    ensures ParseInt("10") == Some(10)
  {
    var one, ten := "1", "10";
    assert AllDigits(ten) by { assert IsDigit(ten[0]) && IsDigit(ten[1]); }
    assert DigitsValue(ten) == 10 by {
      assert ten[..1] == one;
      assert DigitsValue(one) == 1 by { assert one[..0] == []; }
    }
    ParseIntNatural(ten, "");
    assert ten + "" == ten;
  }

  lemma NoLeadingWhite(s: string)
    requires |s| > 0 && !IsWhite(s[0])
    ensures ParseInt(s) == ParseSignedDigits(s)
  {
    assert TrimStart(s) == s;
  }

  lemma ParseNumeral(ds: string, rest: string)
    requires |ds| > 0 && AllDigits(ds)
    requires |rest| == 0 || !IsDigit(rest[0])
    ensures ParseDigits(ds + rest) == Some(DigitsValue(ds))
  {
    DigitPrefixOfNumeral(ds, rest);
  }

  /**
   * `parseInt(s, 10) || fallback`: both `NaN` and zero are falsy, so either
   * gives the fallback; any other parsed value is kept.
   */
  function IntOr(s: string, fallback: int): (r: int)
    requires fallback != 0
    ensures r != 0
    ensures ParseInt(s).Some? && ParseInt(s).value != 0 ==> r == ParseInt(s).value
    ensures ParseInt(s).None? || ParseInt(s) == Some(0) ==> r == fallback
  {
    match ParseInt(s)
    case Some(n) => if n != 0 then n else fallback
    case None => fallback
  }

  /**
   * `Math.ceil(a / b)` on integers: the least integer not below the exact
   * quotient.
   */
  function CeilDiv(a: int, b: int): (q: int)
    requires b != 0
    ensures b > 0 ==> (q - 1) * b < a <= q * b
    ensures b < 0 ==> q * b <= a < (q - 1) * b
  {
    if b > 0 then -((-a) / b) else a / b
  }
}
