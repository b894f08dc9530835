/**
 * Decimal integers as the downloader reads and writes them: `must.Atoi`
 * (Go's `strconv.Atoi`, which panics through `must` on failure) turns the id
 * columns of the tables into numbers, and `fmt.Sprintf("%d", id)` turns an
 * id back into the base name of the image file.
 */
module Decimal {
  import opened Wrappers

  /** Bounds of Go's `int` on a 64-bit platform. */
  const MinInt: int := -0x8000_0000_0000_0000
  const MaxInt: int := 0x7FFF_FFFF_FFFF_FFFF

  predicate IsDigit(c: char) {
    '0' <= c <= '9'
  }

  predicate AllDigits(s: string) {
    forall i :: 0 <= i < |s| ==> IsDigit(s[i])
  }

  function DigitValue(c: char): (d: nat)
    requires IsDigit(c)
    ensures d < 10
  {
    c as int - '0' as int
  }

  function DigitChar(d: nat): (c: char)
    requires d < 10
    ensures IsDigit(c) && DigitValue(c) == d
  {
    ('0' as int + d) as char
  }

  /** Value of a run of decimal digits, most significant first. */
  function DigitsValue(s: string): nat
    requires AllDigits(s)
  {
    if s == [] then 0 else DigitsValue(s[..|s| - 1]) * 10 + DigitValue(s[|s| - 1])
  }

  /** The shortest decimal spelling of `n`. */
  function Digits(n: nat): string {
    if n < 10 then [DigitChar(n)] else Digits(n / 10) + [DigitChar(n % 10)]
  }

  /** The spelling is never empty and holds digits only. */
  lemma {:induction false} DigitsShape(n: nat)
    ensures Digits(n) != [] && AllDigits(Digits(n))
  {
    if n >= 10 {
      DigitsShape(n / 10);
    }
  }

  /** `fmt.Sprintf("%d", n)`: a minus sign for negative numbers, then the digits. */
  function FormatInt(n: int): string {
    if n < 0 then "-" + Digits(-n) else Digits(n)
  }

  /** The spelling of a positive number does not start with `0`. */
  lemma {:induction false} DigitsNoLeadingZero(n: nat)
    requires n > 0
    ensures Digits(n)[0] != '0'
  {
    if n >= 10 {
      DigitsShape(n / 10);
      DigitsNoLeadingZero(n / 10);
    }
  }

  /**
   * What `%d` writes: never empty, a leading minus exactly for negative
   * numbers, digits otherwise, and no leading zero except for zero itself.
   */
  lemma FormatIntShape(n: int)
    ensures var s := FormatInt(n);
      s != [] && (s[0] == '-' <==> n < 0) && (n >= 0 ==> AllDigits(s))
      && (n < 0 ==> AllDigits(s[1..]))
    ensures n == 0 ==> FormatInt(n) == "0"
    ensures n != 0 ==> FormatInt(n)[if n < 0 then 1 else 0] != '0'
  {
    DigitsShape(if n < 0 then -n else n);
    if n < 0 {
      assert FormatInt(n)[1..] == Digits(-n);
      DigitsNoLeadingZero(-n);
    } else if n > 0 {
      DigitsNoLeadingZero(n);
    }
  }

  /**
   * Scan a run of decimal digits from the left, accumulating its value;
   * any other character makes the scan fail.
   */
  function ScanDigits(s: string): Option<nat> {
    if s == [] then Some(0)
    else if !IsDigit(s[|s| - 1]) then None
    else match ScanDigits(s[..|s| - 1])
      case None => None
      case Some(v) => Some(v * 10 + DigitValue(s[|s| - 1]))
  }

  /** The scan succeeds exactly on runs of digits, with their value. */
  lemma {:induction false} ScanDigitsValue(s: string)
    ensures ScanDigits(s) == if AllDigits(s) then Some(DigitsValue(s)) else None
    decreases |s|
  {
    if s != [] {
      var init := s[..|s| - 1];
      ScanDigitsValue(init);
      assert forall i :: 0 <= i < |init| ==> init[i] == s[i];
    }
  }

  /**
   * The syntax `strconv.Atoi` accepts, without its range check: an optional
   * `+` or `-`, then one or more decimal digits and nothing else.
   */
  function SignedValue(s: string): Option<int> {
    var signed := |s| > 0 && (s[0] == '+' || s[0] == '-');
    var body := if signed then s[1..] else s;
    if body == [] then None
    else match ScanDigits(body)
      case None => None
      case Some(v) => Some(if signed && s[0] == '-' then -(v as int) else v as int)
  }

  /**
   * What the accepted syntax looks like: a sign or a digit first, digits
   * after it, and at least one digit in all (a lone sign is refused).
   */
  lemma SignedValueSyntax(s: string)
    requires SignedValue(s).Some?
    ensures s != [] && (s[0] == '-' || s[0] == '+' || IsDigit(s[0]))
    ensures AllDigits(s[1..])
    ensures |s| > 1 || IsDigit(s[0])
  {
    var signed := |s| > 0 && (s[0] == '+' || s[0] == '-');
    var body := if signed then s[1..] else s;
    ScanDigitsValue(body);
    if !signed {
      assert IsDigit(body[0]);
      assert forall i :: 0 <= i < |s[1..]| ==> s[1..][i] == body[i + 1];
    }
  }

  /** Every sign followed by digits is accepted, leading zeros included, with the value of the digits. */
  lemma AcceptsSigned(c: char, ds: string)
    requires (c == '+' || c == '-') && ds != [] && AllDigits(ds)
    ensures SignedValue([c] + ds) ==
      Some(if c == '-' then -(DigitsValue(ds) as int) else DigitsValue(ds) as int)
  {
    assert ([c] + ds)[1..] == ds;
    ScanDigitsValue(ds);
  }

  /** Every non-empty run of digits is accepted, leading zeros included, with its value. */
  lemma AcceptsUnsigned(ds: string)
    requires ds != [] && AllDigits(ds)
    ensures SignedValue(ds) == Some(DigitsValue(ds) as int)
  {
    assert IsDigit(ds[0]);
    ScanDigitsValue(ds);
  }

  /** `strconv.Atoi`: the signed syntax above, and a value that fits Go's `int`. */
  function Atoi(s: string): (r: Option<int>)
    ensures r.Some? ==> MinInt <= r.value <= MaxInt
    ensures r.Some? ==> SignedValue(s) == r
    ensures SignedValue(s).Some? && MinInt <= SignedValue(s).value <= MaxInt ==> r == SignedValue(s)
  {
    match SignedValue(s)
    case Some(n) => if MinInt <= n <= MaxInt then Some(n) else None
    case None => None
  }

  lemma {:induction false} DigitsRoundTrip(n: nat)
    ensures AllDigits(Digits(n)) && DigitsValue(Digits(n)) == n
  {
    DigitsShape(n);
    if n >= 10 {
      var s := Digits(n);
      assert s[..|s| - 1] == Digits(n / 10);
      DigitsRoundTrip(n / 10);
    }
  }

  /** Reading back what `%d` wrote gives the number, whatever its size. */
  lemma SignedValueOfFormat(n: int)
    ensures SignedValue(FormatInt(n)) == Some(n)
  {
    var s := FormatInt(n);
    FormatIntShape(n);
    if n < 0 {
      assert s[1..] == Digits(-n);
      DigitsRoundTrip(-n);
      ScanDigitsValue(Digits(-n));
    } else {
      assert IsDigit(s[0]);
      DigitsRoundTrip(n);
      ScanDigitsValue(Digits(n));
    }
  }

  /** `strconv.Atoi` inverts `%d` on every value of Go's `int`. */
  lemma AtoiOfFormat(n: int)
    requires MinInt <= n <= MaxInt
    ensures Atoi(FormatInt(n)) == Some(n)
  {
    SignedValueOfFormat(n);
  }

  /** Distinct ids are written as distinct names. */
  lemma FormatIntInjective(a: int, b: int)
    requires FormatInt(a) == FormatInt(b)
    ensures a == b
  {
    SignedValueOfFormat(a);
    SignedValueOfFormat(b);
  }

  /** Spellings `%d` never writes are still read: a plus sign, leading zeros, a negative zero. */
  lemma AtoiNonCanonical()
    ensures Atoi("+5") == Some(5)
    ensures Atoi("007") == Some(7)
    ensures Atoi("-0") == Some(0)
  {
    AcceptsSigned('+', "5");
    assert "+5" == ['+'] + "5";
    AcceptsUnsigned("007");
    assert "007"[..2] == "00" && "00"[..1] == "0";
    AcceptsSigned('-', "0");
    assert "-0" == ['-'] + "0";
  }

  /** Just past the range of Go's `int`, `strconv.Atoi` fails even though the syntax is right. */
  lemma AtoiRejectsOverflow()
    ensures SignedValue(FormatInt(MaxInt + 1)) == Some(MaxInt + 1)
    ensures Atoi(FormatInt(MaxInt + 1)) == None
  {
    SignedValueOfFormat(MaxInt + 1);
  }
}
