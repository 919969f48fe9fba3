/** Conversions between integral Numbers and text as JavaScript performs
    them: Number::toString for integers below 10^21 in magnitude and NaN
    (section 6.1.6.1.20 of
    ECMA-262, used by template literals and by React when it renders an
    option's value), and the global parseInt with no radix (section
    19.2.5 of ECMA-262). NaN is `None`. */
module NumberText {
  import opened Wrappers

  predicate IsDigit(c: char)
  {
    '0' <= c <= '9'
  }

  predicate AllDigits(s: string)
  {
    forall i :: 0 <= i < |s| ==> IsDigit(s[i])
  }

  function DigitValue(c: char): (d: int)
    requires IsDigit(c)
    ensures 0 <= d < 10
  {
    c as int - '0' as int
  }

  function DigitChar(d: int): (c: char)
    requires 0 <= d < 10
    ensures IsDigit(c) && DigitValue(c) == d
  {
    "0123456789"[d]
  }

  /** The shortest decimal numeral of n: digits only, no leading zero. */
  function NatToDecimal(n: nat): (s: string)
    ensures |s| >= 1 && AllDigits(s)
    ensures s[0] == '0' ==> n == 0 && |s| == 1
    decreases n
  {
    if n < 10 then [DigitChar(n)] else NatToDecimal(n / 10) + [DigitChar(n % 10)]
  }

  /** Number::toString of an integral Number: a minus sign for negatives. */
  function IntToDecimal(n: int): (s: string)
    ensures |s| >= 1
    ensures s[0] == '-' <==> n < 0
  {
    if n < 0 then "-" + NatToDecimal(-n) else NatToDecimal(n)
  }

  /** The text of a Number that is NaN or integral, as `${v}` renders it;
      from 10^21 in magnitude on, JavaScript would use exponent form instead. */
  function NumberToString(v: Option<int>): (s: string)
    ensures v.None? ==> s == "NaN"
    ensures v.Some? ==> s == IntToDecimal(v.value)
  {
    if v.None? then "NaN" else IntToDecimal(v.value)
  }

  /** The value of a numeral in base `radix` whose digits are given as values. */
  function NumeralValue(digits: seq<int>, radix: int): int
    decreases |digits|
  {
    if digits == [] then 0
    else radix * NumeralValue(digits[..|digits| - 1], radix) + digits[|digits| - 1]
  }

  /** The value of a digit character in base radix (10 or 16), or -1 when
      the character is not a digit of that base. */
  function DigitIn(c: char, radix: int): (d: int)
    ensures -1 <= d < 16
    ensures radix == 10 ==> (d == -1 <==> !IsDigit(c))
    ensures radix == 10 && IsDigit(c) ==> d == DigitValue(c)
  {
    if '0' <= c <= '9' then DigitValue(c)
    else if radix == 16 && 'a' <= c <= 'f' then c as int - 'a' as int + 10
    else if radix == 16 && 'A' <= c <= 'F' then c as int - 'A' as int + 10
    else -1
  }

  /** The values of the longest prefix of s made of digits of base radix. */
  function LeadingDigits(s: string, radix: int): (ds: seq<int>)
    ensures |ds| <= |s|
    ensures forall i :: 0 <= i < |ds| ==> ds[i] == DigitIn(s[i], radix) && 0 <= ds[i]
    ensures |ds| < |s| ==> DigitIn(s[|ds|], radix) == -1
  {
    if s == [] || DigitIn(s[0], radix) == -1 then []
    else [DigitIn(s[0], radix)] + LeadingDigits(s[1..], radix)
  }

  /** StrWhiteSpaceChar: white space and line terminators (section 7.1.4.1.1 of ECMA-262). */
  predicate IsWhiteSpace(c: char)
  {
    || c == '\t' || c == '\n' || c == '\U{000B}' || c == '\U{000C}' || c == '\r'
    || c == ' ' || c == '\U{00A0}' || c == '\U{1680}'
    || ('\U{2000}' <= c <= '\U{200A}')
    || c == '\U{2028}' || c == '\U{2029}' || c == '\U{202F}' || c == '\U{205F}'
    || c == '\U{3000}' || c == '\U{FEFF}'
  }

  function TrimStart(s: string): (t: string)
    ensures |t| <= |s| && t == s[|s| - |t|..]
    ensures t != [] ==> !IsWhiteSpace(t[0])
  {
    if s != [] && IsWhiteSpace(s[0]) then TrimStart(s[1..]) else s
  }

  /** The digits after the sign: a "0x"/"0X" prefix selects base 16, and
      the longest run of digits of the base is read; no digit gives NaN. */
  function ParseUnsigned(u: string): (r: Option<int>)
    ensures r.Some? ==> r.value >= 0
  {
    var hex := |u| >= 2 && u[0] == '0' && (u[1] == 'x' || u[1] == 'X');
    var radix := if hex then 16 else 10;
    var digits := LeadingDigits(if hex then u[2..] else u, radix);
    NumeralValueNonNegative(digits, radix);
    if digits == [] then None else Some(NumeralValue(digits, radix))
  }

  lemma {:induction false} NumeralValueNonNegative(digits: seq<int>, radix: int)
    requires radix > 0 && forall i :: 0 <= i < |digits| ==> 0 <= digits[i]
    ensures NumeralValue(digits, radix) >= 0
    decreases |digits|
  {
    if digits != [] {
      NumeralValueNonNegative(digits[..|digits| - 1], radix);
    }
  }

  /** parseInt(s) with the radix left out: leading white space is skipped
      before the sign and the digits. */
  function ParseInt(s: string): (r: Option<int>)
  {
    ParseSigned(TrimStart(s))
  }

  /** One optional sign, then the digits. */
  function ParseSigned(t: string): (r: Option<int>)
  {
    if t != [] && t[0] == '-' then
      (match ParseUnsigned(t[1..]) case None => None case Some(v) => Some(-v))
    else if t != [] && t[0] == '+' then ParseUnsigned(t[1..])
    else ParseUnsigned(t)
  }

  lemma TrimStartKeeps(s: string)
    requires s != [] && (s[0] == '-' || s[0] == 'N' || IsDigit(s[0]))
    ensures TrimStart(s) == s
  {
  }

  lemma {:induction false} NatToDecimalValue(n: nat)
    ensures |LeadingDigits(NatToDecimal(n), 10)| == |NatToDecimal(n)|
    ensures NumeralValue(LeadingDigits(NatToDecimal(n), 10), 10) == n
    decreases n
  {
    var s := NatToDecimal(n);
    var ds := LeadingDigits(s, 10);
    assert |ds| == |s|;
    if n < 10 {
      assert s == [DigitChar(n)];
      assert ds == [n];
      assert ds[..0] == [];
    } else {
      var p := NatToDecimal(n / 10);
      var dp := LeadingDigits(p, 10);
      NatToDecimalValue(n / 10);
      assert s == p + [DigitChar(n % 10)];
      assert ds[..|ds| - 1] == dp;
      assert ds[|ds| - 1] == n % 10;
    }
  }

  lemma NatToDecimalDigits(n: nat)
    ensures ParseUnsigned(NatToDecimal(n)) == Some(n)
  {
    var s := NatToDecimal(n);
    NatToDecimalValue(n);
    assert !(|s| >= 2 && s[0] == '0');
    assert LeadingDigits(s, 10) != [];
  }

  lemma ParseIntOfDigits(s: string)
    requires s != [] && IsDigit(s[0])
    ensures ParseInt(s) == ParseUnsigned(s)
  {
    TrimStartKeeps(s);
  }

  lemma ParseIntOfMinus(s: string, v: int)
    requires s != [] && s[0] == '-' && ParseUnsigned(s[1..]) == Some(v)
    ensures ParseInt(s) == Some(-v)
  {
    TrimStartKeeps(s);
  }

  lemma ParseIntOfNegative(m: nat, s: string)
    requires s == "-" + NatToDecimal(m)
    ensures ParseInt(s) == Some(-(m as int))
  {
    NatToDecimalDigits(m);
    assert s[1..] == NatToDecimal(m);
    ParseIntOfMinus(s, m);
  }

  lemma ParseIntOfNonNegative(m: nat, s: string)
    requires s == NatToDecimal(m)
    ensures ParseInt(s) == Some(m as int)
  {
    NatToDecimalDigits(m);
    ParseIntOfDigits(s);
  }

  /** Reading back the text of an integer gives the integer: what
      `parseInt(e.target.value)` recovers from an option rendered with
      `value={n}`. */
  lemma ParseIntOfDecimal(n: int)
    ensures ParseInt(IntToDecimal(n)) == Some(n)
  {
    var s := IntToDecimal(n);
    if n < 0 {
      ParseIntOfNegative(-n, s);
    } else {
      ParseIntOfNonNegative(n, s);
    }
  }

  /** The text of a Number never holds a "/". */
  lemma NoSlashInNumber(v: Option<int>)
    ensures '/' !in NumberToString(v)
  {
    if v.Some? && v.value < 0 {
      assert NumberToString(v) == "-" + NatToDecimal(-v.value);
    }
  }

  /** NaN renders as text that parseInt cannot read. */
  lemma ParseIntOfNaN()
    ensures ParseInt(NumberToString(None)) == None
  {
    TrimStartKeeps("NaN");
  }
}
