/** Decimal text for Go `int`s: the `%d` verb of `fmt` (used by every query
    fragment and by the application error text) and `strconv.Atoi` (used to
    read integer URL parameters). Go's `int` is 64 bits wide here. */
module Decimal {
  import opened Wrappers

  const MinInt64: int := -0x8000_0000_0000_0000
  const MaxInt64: int := 0x7FFF_FFFF_FFFF_FFFF
  const MaxUint64: int := 0xFFFF_FFFF_FFFF_FFFF

  /** The values a Go `int` can hold. */
  predicate IsInt64(n: int)
  {
    MinInt64 <= n <= MaxInt64
  }

  predicate IsDigit(c: char)
  {
    '0' <= c <= '9'
  }

  predicate AllDigits(s: string)
  {
    forall i :: 0 <= i < |s| ==> IsDigit(s[i])
  }

  function DigitChar(d: int): (c: char)
    requires 0 <= d < 10
    ensures IsDigit(c)
  {
    ('0' as int + d) as char
  }

  function DigitValue(c: char): (d: int)
    requires IsDigit(c)
    ensures 0 <= d < 10
    ensures DigitChar(d) == c
  {
    c as int - '0' as int
  }

  /** The digits of a natural number, most significant first, no leading zero. */
  function DecNat(n: nat): (s: string)
    ensures |s| >= 1
    ensures AllDigits(s)
    ensures s[0] == '0' ==> n == 0
  {
    if n < 10 then [DigitChar(n)] else DecNat(n / 10) + [DigitChar(n % 10)]
  }

  /** `fmt.Sprintf("%d", n)`: an optional minus sign, then the digits of |n|. */
  function Dec(n: int): (s: string)
    ensures |s| >= 1
    ensures s[0] == '-' <==> n < 0
    ensures forall i :: 0 <= i < |s| ==> IsDigit(s[i]) || (i == 0 && s[i] == '-')
  {
    if n < 0 then "-" + DecNat(-n) else DecNat(n)
  }

  /** The number a string of decimal digits denotes. */
  function DigitsValue(s: string): nat
    requires AllDigits(s)
  {
    if s == "" then 0 else DigitsValue(s[..|s| - 1]) * 10 + DigitValue(s[|s| - 1])
  }

  /** Reading back the digits `DecNat` writes gives the number. */
  lemma {:induction false} DigitsValueDecNat(n: nat)
    ensures DigitsValue(DecNat(n)) == n
    decreases n
  {
    if n >= 10 {
      var a := DecNat(n / 10);
      var s := a + [DigitChar(n % 10)];
      assert s[..|s| - 1] == a;
      DigitsValueDecNat(n / 10);
    }
  }

  /** Distinct naturals have distinct digit strings. */
  lemma DecNatInjective(a: nat, b: nat)
    requires DecNat(a) == DecNat(b)
    ensures a == b
  {
    DigitsValueDecNat(a);
    DigitsValueDecNat(b);
  }

  /** The digits after the sign of a negative number's text. */
  lemma DecNegative(n: int)
    requires n < 0
    ensures Dec(n)[0] == '-'
    ensures Dec(n)[1..] == DecNat(-n)
  {
    var x := DecNat(-n);
    assert Dec(n) == "-" + x;
  }

  /** Distinct integers print differently, so a `%d` fragment identifies its value. */
  lemma DecInjective(a: int, b: int)
    requires Dec(a) == Dec(b)
    ensures a == b
  {
    if a < 0 {
      DecNegative(a);
      assert b < 0;
      DecNegative(b);
      DecNatInjective(-a, -b);
    } else {
      assert b >= 0;
      DecNatInjective(a, b);
    }
  }

  /** Which of `strconv.ErrSyntax` and `strconv.ErrRange` a `*strconv.NumError` carries. */
  datatype NumErrorKind = ErrSyntax | ErrRange

  /** `*strconv.NumError` from `strconv.Atoi`: the input and the reason. */
  datatype NumError = NumError(num: string, kind: NumErrorKind)

  /** Length of the run of digits `s` starts with. */
  function LeadingDigitCount(s: string): (k: nat)
    ensures k <= |s|
    ensures AllDigits(s[..k])
    ensures k < |s| ==> !IsDigit(s[k])
  {
    if s == "" || !IsDigit(s[0]) then 0
    else
      var k := 1 + LeadingDigitCount(s[1..]);
      assert s[..k] == [s[0]] + s[1..][..k - 1];
      k
  }

  /** The text after an optional leading sign. */
  function Unsigned(s: string): string
  {
    if s != "" && (s[0] == '-' || s[0] == '+') then s[1..] else s
  }

  /** `strconv.Atoi(s)`: an optional sign and at least one decimal digit,
      nothing else, and a value that fits in 64 bits. The digits are read as
      an unsigned 64-bit number first, so an overflow found before a stray
      character is reported as a range error rather than a syntax error. */
  function Atoi(s: string): (r: Result<int, NumError>)
    ensures r.Success? ==> IsInt64(r.value)
    ensures r.Success? <==> Unsigned(s) != "" && AllDigits(Unsigned(s)) && IsInt64(SignedValue(s))
    ensures r.Success? ==> r.value == SignedValue(s)
    ensures r.Failure? ==> r.error.num == s
    ensures s == "" ==> r == Failure(NumError(s, ErrSyntax))
  {
    var body := Unsigned(s);
    if body == "" then Failure(NumError(s, ErrSyntax))
    else if DigitsValue(body[..LeadingDigitCount(body)]) > MaxUint64 then
      assert AllDigits(body) ==> !IsInt64(SignedValue(s)) by {
        if AllDigits(body) {
          AllDigitsLeading(body);
          assert body[..LeadingDigitCount(body)] == body;
        }
      }
      Failure(NumError(s, ErrRange))
    else if !AllDigits(body) then Failure(NumError(s, ErrSyntax))
    else
      var v := SignedValue(s);
      if IsInt64(v) then Success(v) else Failure(NumError(s, ErrRange))
  }

  /** The signed value of well-formed decimal text. */
  function SignedValue(s: string): int
    requires AllDigits(Unsigned(s))
  {
    if s != "" && s[0] == '-' then -(DigitsValue(Unsigned(s)) as int) else DigitsValue(Unsigned(s))
  }

  /** Parsing undoes printing: `strconv.Atoi(fmt.Sprint(n)) == n` for every Go `int`. */
  lemma AtoiDec(n: int)
    requires IsInt64(n)
    ensures Atoi(Dec(n)) == Success(n)
  {
    var s := Dec(n);
    if n < 0 {
      DecNegative(n);
      assert Unsigned(s) == DecNat(-n);
      DigitsValueDecNat(-n);
      assert SignedValue(s) == n;
    } else {
      assert Unsigned(s) == DecNat(n);
      DigitsValueDecNat(n);
      assert SignedValue(s) == n;
    }
  }

  /** An all-digit string is its own leading run of digits. */
  lemma {:induction false} AllDigitsLeading(s: string)
    requires AllDigits(s)
    ensures LeadingDigitCount(s) == |s|
    decreases |s|
  {
    if s != "" {
      AllDigitsLeading(s[1..]);
    }
  }
}
