/** JavaScript's `parseInt(text)` without a radix argument (section 19.2.5 of
    ECMA-262), which the browser code applies to the week-number box and to
    the recurrence interval and day-of-month boxes. NaN is `None`. */
module JsNumber {
  import opened Wrappers

  /** The white space and line terminators `parseInt` skips at the start
      (StrWhiteSpaceChar), except the Unicode "Zs" spaces beyond U+00A0. */
  predicate IsJsSpace(c: char) {
    c == ' ' || c == '\t' || c == '\n' || c == '\r' || c as int == 11 || c as int == 12
    || c as int == 0xA0 || c as int == 0xFEFF || c as int == 0x2028 || c as int == 0x2029
  }

  function TrimLeft(s: string): (r: string)
    ensures |r| <= |s| && r == s[|s| - |r|..]
    ensures |r| > 0 ==> !IsJsSpace(r[0])
  {
    if |s| > 0 && IsJsSpace(s[0]) then TrimLeft(s[1..]) else s
  }

  /** Value of `c` as a digit of base `radix` (10 or 16), if it is one. */
  function DigitValue(c: char, radix: int): (v: Option<int>)
    ensures v.Some? ==> 0 <= v.value < radix || (radix != 10 && radix != 16)
  {
    if '0' <= c <= '9' && (c as int - 48) < radix then Some(c as int - 48)
    else if radix == 16 && 'a' <= c <= 'f' then Some(c as int - 97 + 10)
    else if radix == 16 && 'A' <= c <= 'F' then Some(c as int - 65 + 10)
    else None
  }

  predicate AllDigits(s: string, radix: int) {
    forall i :: 0 <= i < |s| ==> DigitValue(s[i], radix).Some?
  }

  /** Length of the longest prefix of `s` made of digits of base `radix`. */
  function DigitRun(s: string, radix: int): (n: nat)
    ensures n <= |s| && AllDigits(s[..n], radix)
    ensures n < |s| ==> DigitValue(s[n], radix).None?
  {
    if |s| > 0 && DigitValue(s[0], radix).Some? then
      var n := 1 + DigitRun(s[1..], radix);
      assert forall i :: 1 <= i < n ==> s[..n][i] == s[1..][..n - 1][i - 1];
      n
    else 0
  }

  /** The number a string of digits spells in base `radix`. */
  function ValueOf(s: string, radix: int): int
    requires AllDigits(s, radix)
  {
    if s == [] then 0
    else ValueOf(s[..|s| - 1], radix) * radix + DigitValue(s[|s| - 1], radix).value
  }

  /** The unsigned part of `parseInt`: base 16 after `0x`/`0X`, otherwise
      base 10; the longest run of digits, or NaN when there is none. */
  function ParseUnsigned(u: string): Option<int> {
    var hex := |u| >= 2 && u[0] == '0' && (u[1] == 'x' || u[1] == 'X');
    var radix := if hex then 16 else 10;
    var body := if hex then u[2..] else u;
    var n := DigitRun(body, radix);
    if n == 0 then None else Some(ValueOf(body[..n], radix))
  }

  /** `parseInt(s)`: skip leading white space, take one sign, then read the
      unsigned part. */
  function ParseInt(s: string): Option<int> {
    var t := TrimLeft(s);
    if |t| > 0 && t[0] == '-' then
      match ParseUnsigned(t[1..])
      case None => None
      case Some(v) => Some(-v)
    else if |t| > 0 && t[0] == '+' then ParseUnsigned(t[1..])
    else ParseUnsigned(t)
  }

  // ---------------------------------------------------------------------------
  // Decimal text, the inverse direction

  function DigitChar(k: int): char
    requires 0 <= k < 10
  {
    (48 + k) as char
  }

  /** The decimal text of a number without leading zeros (`String(n)`). */
  function Decimal(n: nat): (r: string)
    ensures |r| >= 1 && AllDigits(r, 10)
  {
    if n < 10 then [DigitChar(n)] else Decimal(n / 10) + [DigitChar(n % 10)]
  }

  lemma {:induction false} DecimalValue(n: nat)
    ensures ValueOf(Decimal(n), 10) == n
  {
    if n >= 10 {
      DecimalValue(n / 10);
      var r := Decimal(n);
      assert r[..|r| - 1] == Decimal(n / 10);
    }
  }

  /** Decimal texts of numbers of two digits or more do not start with `0`. */
  lemma {:induction false} DecimalLeadingDigit(n: nat)
    ensures n >= 10 ==> Decimal(n)[0] != '0'
  {
    if n >= 10 {
      DecimalLeadingDigit(n / 10);
      assert Decimal(n)[0] == Decimal(n / 10)[0];
    }
  }

  lemma WholeRun(s: string, radix: int)
    requires AllDigits(s, radix)
    ensures DigitRun(s, radix) == |s|
  {
  }

  lemma UnsignedDigits(d: string)
    requires |d| >= 1 && AllDigits(d, 10)
    requires |d| >= 2 ==> d[0] != '0'
    ensures ParseUnsigned(d) == Some(ValueOf(d, 10))
  {
    WholeRun(d, 10);
    assert d[..|d|] == d;
  }

  lemma DigitNotSpace(d: string)
    requires |d| >= 1 && AllDigits(d, 10)
    ensures '0' <= d[0] <= '9'
    ensures TrimLeft(d) == d
  {
    var c := d[0];
    assert DigitValue(c, 10).Some?;
    assert '0' <= c <= '9';
    assert !IsJsSpace(c);
    NoLeadingSpace(d);
  }

  lemma ParsePositive(d: string)
    requires |d| >= 1 && AllDigits(d, 10)
    requires |d| >= 2 ==> d[0] != '0'
    ensures ParseInt(d) == Some(ValueOf(d, 10))
  {
    DigitNotSpace(d);
    UnsignedDigits(d);
  }

  lemma NoLeadingSpace(s: string)
    requires |s| > 0 && !IsJsSpace(s[0])
    ensures TrimLeft(s) == s
  {
  }

  /** A leading minus sign negates what the unsigned part reads. */
  lemma MinusSign(s: string, v: int)
    requires |s| > 0 && s[0] == '-' && ParseUnsigned(s[1..]) == Some(v)
    ensures ParseInt(s) == Some(-v)
  {
    NoLeadingSpace(s);
  }

  lemma SignedText(d: string, v: int)
    requires ParseUnsigned(d) == Some(v)
    ensures ParseInt(['-'] + d) == Some(-v)
  {
    var s := ['-'] + d;
    assert s[1..] == d;
    MinusSign(s, v);
  }

  /** `parseInt(String(n))` gives `n` back for every integer `n`. */
  lemma ParseDecimal(n: int)
    ensures n >= 0 ==> ParseInt(Decimal(n)) == Some(n)
    ensures n < 0 ==> ParseInt(['-'] + Decimal(-n)) == Some(n)
  {
    var m := if n >= 0 then n else -n;
    DecimalValue(m);
    DecimalLeadingDigit(m);
    if n >= 0 {
      ParsePositive(Decimal(m));
    } else {
      UnsignedDigits(Decimal(m));
      SignedText(Decimal(m), m);
    }
  }

  /** An empty box reads as NaN. */
  lemma EmptyIsNaN()
    ensures ParseInt("") == None
  {
  }

  /** Text that does not start with a digit reads as NaN. */
  lemma LettersAreNaN()
    ensures ParseInt("abc") == None
  {
    assert TrimLeft("abc") == "abc";
    assert DigitRun("abc", 10) == 0;
  }

  /** `0` reads as zero, which JavaScript's `if (num)` treats as false. */
  lemma ZeroIsZero()
    ensures ParseInt("0") == Some(0)
  {
    NoLeadingSpace("0");
    assert DigitRun("0", 10) == 1;
    assert "0"[..1] == "0";
    assert ValueOf("0", 10) == 0 by {
      assert "0"[..0] == "";
    }
  }

  /** Reading stops at the first character that is not a digit. */
  lemma StopsAtNonDigit()
    ensures ParseInt(" 12 semanas") == Some(12)
  {
    var t: string := "12 semanas";
    TrimTwelve();
    assert ParseInt(" 12 semanas") == ParseUnsigned(t);
    RunTwelve();
    assert t[..2] == "12";
    ValueTwelve();
  }

  lemma TrimTwelve()
    ensures TrimLeft(" 12 semanas") == "12 semanas"
  {
    var t: string := "12 semanas";
    assert " 12 semanas" == [' '] + t;
    assert ([' '] + t)[1..] == t;
    NoLeadingSpace(t);
  }

  lemma RunTwelve()
    ensures DigitRun("12 semanas", 10) == 2
  {
    var t: string := "12 semanas";
    assert DigitRun(t[2..], 10) == 0;
    assert t[1..][1..] == t[2..];
  }

  lemma ValueTwelve()
    ensures ValueOf("12", 10) == 12
  {
    assert "12"[..1] == "1";
    assert "1"[..0] == "";
  }
}
