/**
 * Decimal integer text: the std::stoi conversion applied to event ids and the
 * `{}` formatting of ints used when rendering events.
 */
module Numbers {
  import opened Outcome

  const IntMin: int := -0x8000_0000
  const IntMax: int := 0x7fff_ffff

  predicate IsDigit(c: char) { '0' <= c <= '9' }

  /** The characters isspace accepts in the C locale. */
  predicate IsSpace(c: char)
  {
    c == ' ' || c == '\t' || c == '\n' || c == '\U{0B}' || c == '\U{0C}' || c == '\r'
  }

  predicate AllDigits(s: string) { forall k :: 0 <= k < |s| ==> IsDigit(s[k]) }

  /** End of the run of digits that starts at index i. */
  function DigitRun(s: string, i: nat): (j: nat)
    requires i <= |s|
    ensures i <= j <= |s|
    ensures AllDigits(s[i..j])
    ensures j < |s| ==> !IsDigit(s[j])
    decreases |s| - i
  {
    if i < |s| && IsDigit(s[i]) then DigitRun(s, i + 1) else i
  }

  /** End of the run of white space that starts at index i. */
  function SpaceRun(s: string, i: nat): (j: nat)
    requires i <= |s|
    ensures i <= j <= |s|
    ensures forall k :: i <= k < j ==> IsSpace(s[k])
    ensures j < |s| ==> !IsSpace(s[j])
    decreases |s| - i
  {
    if i < |s| && IsSpace(s[i]) then SpaceRun(s, i + 1) else i
  }

  /** The value of a digit string, most significant digit first. */
  function DigitsValue(ds: string): nat
    requires AllDigits(ds)
  {
    if ds == [] then 0
    else 10 * DigitsValue(ds[..|ds| - 1]) + (ds[|ds| - 1] as int - '0' as int)
  }

  /**
   * std::stoi in base 10: skip leading white space, read an optional sign and the
   * longest run of digits, ignore whatever follows. No digits is invalid_argument;
   * a value outside the int range is out_of_range.
   */
  function Stoi(s: string): (r: Result<int>)
    ensures r.Success? ==> IntMin <= r.value <= IntMax
    ensures r.Failure? ==> r.error == InvalidInteger || r.error == IntegerOutOfRange
    ensures r == Failure(InvalidInteger) <==>
      var i := SpaceRun(s, 0);
      var start := if i < |s| && (s[i] == '-' || s[i] == '+') then i + 1 else i;
      !(start < |s| && IsDigit(s[start]))
  {
    var i := SpaceRun(s, 0);
    var negative := i < |s| && s[i] == '-';
    var start := if i < |s| && (s[i] == '-' || s[i] == '+') then i + 1 else i;
    var end := DigitRun(s, start);
    if end == start then Failure(InvalidInteger)
    else
      var magnitude: int := DigitsValue(s[start..end]);
      var v := if negative then -magnitude else magnitude;
      if v < IntMin || IntMax < v then Failure(IntegerOutOfRange) else Success(v)
  }

  function DigitChar(d: nat): (c: char)
    requires d < 10
    ensures IsDigit(c) && c as int - '0' as int == d
  {
    ('0' as int + d) as char
  }

  /** Decimal digits of n, most significant first, without leading zeros. */
  function Digits(n: nat): (ds: string)
    ensures |ds| >= 1 && AllDigits(ds)
  {
    if n < 10 then [DigitChar(n)] else Digits(n / 10) + [DigitChar(n % 10)]
  }

  /** How `{}` formats an int: an optional minus sign, then the digits. */
  function Decimal(n: int): (s: string)
    ensures |s| >= 1
    ensures forall k :: 0 <= k < |s| ==> IsDigit(s[k]) || (k == 0 && s[k] == '-')
  {
    if n < 0 then "-" + Digits(-n) else Digits(n)
  }

  lemma {:induction false} DigitsValueOfDigits(n: nat)
    ensures DigitsValue(Digits(n)) == n
  {
    if n >= 10 {
      var ds := Digits(n);
      assert ds[..|ds| - 1] == Digits(n / 10);
      DigitsValueOfDigits(n / 10);
    }
  }

  /** Reading back the text `{}` produces with stoi gives the same int. */
  lemma StoiOfDecimal(n: int)
    requires IntMin <= n <= IntMax
    ensures Stoi(Decimal(n)) == Success(n)
  {
    if n < 0 {
      DigitsValueOfDigits(-n);
      StoiOfDigitsFrom(Decimal(n), 1);
    } else {
      DigitsValueOfDigits(n);
      StoiOfDigitsFrom(Decimal(n), 0);
    }
  }

  /** stoi on an optional '-' (start = 1) or none (start = 0) followed by digits only. */
  lemma StoiOfDigitsFrom(s: string, start: nat)
    requires start <= 1 && start < |s| && (start == 1 <==> s[0] == '-')
    requires forall k :: start <= k < |s| ==> IsDigit(s[k])
    requires var v: int := DigitsValue(s[start..]); IntMin <= (if start == 1 then -v else v) <= IntMax
    ensures var v: int := DigitsValue(s[start..]); Stoi(s) == Success(if start == 1 then -v else v)
  {
    assert !IsSpace(s[0]);
    assert SpaceRun(s, 0) == 0;
    assert DigitRun(s, start) == |s|;
    assert s[start..|s|] == s[start..];
  }

  /** Distinct ints are formatted as distinct text. */
  lemma DecimalInjective(a: int, b: int)
    requires Decimal(a) == Decimal(b)
    ensures a == b
  {
    DecimalValueOfDecimal(a);
    DecimalValueOfDecimal(b);
  }

  /** The value of text in the form `{}` gives an int: an optional '-', then digits. */
  function DecimalValue(s: string): int
  {
    if s != [] && s[0] == '-' && AllDigits(s[1..]) then -(DigitsValue(s[1..]) as int)
    else if AllDigits(s) then DigitsValue(s)
    else 0
  }

  /** Decimal text reads back as the int it was made from. */
  lemma DecimalValueOfDecimal(n: int)
    ensures DecimalValue(Decimal(n)) == n
  {
    if n < 0 {
      assert Decimal(n)[1..] == Digits(-n);
      DigitsValueOfDigits(-n);
    } else {
      assert Decimal(n)[0] != '-';
      DigitsValueOfDigits(n);
    }
  }

  /** A field whose first character is neither white space, a sign nor a digit is rejected. */
  lemma StoiRejectsNonNumeric(s: string)
    requires s == [] || !(IsSpace(s[0]) || IsDigit(s[0]) || s[0] == '-' || s[0] == '+')
    ensures Stoi(s) == Failure(InvalidInteger)
  {
  }
}
