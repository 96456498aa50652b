/** Go's strconv.Atoi and strconv.Itoa on a 64-bit platform, and the query
    defaulting of the web framework, as the handlers use them. */
module Strconv {

  const MaxUint64: int := 0xFFFF_FFFF_FFFF_FFFF
  const MaxInt64: int := 0x7FFF_FFFF_FFFF_FFFF
  const MinInt64: int := -0x8000_0000_0000_0000
  /** The first accumulator value that overflows when multiplied by ten. */
  const Cutoff: int := MaxUint64 / 10 + 1

  datatype NumError = NoError | ErrSyntax | ErrRange

  /** A parse result: Go returns a value even together with an error. */
  datatype Parsed = Parsed(value: int, err: NumError)

  predicate IsDigit(c: char) { '0' <= c <= '9' }

  function DigitValue(c: char): nat
    requires IsDigit(c)
  {
    (c as int) - ('0' as int)
  }

  predicate AllDigits(s: string) {
    forall i :: 0 <= i < |s| ==> IsDigit(s[i])
  }

  /** The decimal value of `s` read after an accumulated prefix value `n`. */
  function Fold(s: string, n: int): int
    requires AllDigits(s)
  {
    if |s| == 0 then n else Fold(s[1..], n * 10 + DigitValue(s[0]))
  }

  lemma {:induction false} FoldGrows(s: string, n: nat)
    requires AllDigits(s)
    ensures Fold(s, n) >= n
  {
    if |s| > 0 {
      FoldGrows(s[1..], n * 10 + DigitValue(s[0]));
    }
  }

  lemma {:induction false} FoldAppend(s: string, c: char, n: int)
    requires AllDigits(s) && IsDigit(c)
    ensures AllDigits(s + [c])
    ensures Fold(s + [c], n) == Fold(s, n) * 10 + DigitValue(c)
  {
    assert AllDigits(s + [c]);
    if |s| > 0 {
      assert (s + [c])[1..] == s[1..] + [c];
      FoldAppend(s[1..], c, n * 10 + DigitValue(s[0]));
    }
  }

  /** The digit loop of ParseUint: a non-digit is a syntax error, and the
      scan stops with a range error as soon as the value passes 2^64 - 1,
      whatever follows. */
  function ScanDigits(s: string, n: nat): Parsed {
    if |s| == 0 then Parsed(n, NoError)
    else if !IsDigit(s[0]) then Parsed(0, ErrSyntax)
    else if n >= Cutoff then Parsed(MaxUint64, ErrRange)
    else if n * 10 + DigitValue(s[0]) > MaxUint64 then Parsed(MaxUint64, ErrRange)
    else ScanDigits(s[1..], n * 10 + DigitValue(s[0]))
  }

  /** The scan succeeds exactly on digit strings whose value fits 64 bits, and
      then yields that value; a syntax error carries 0 and a range error 2^64 - 1. */
  lemma {:induction false} ScanDigitsSpec(s: string, n: nat)
    requires n <= MaxUint64
    ensures ScanDigits(s, n).err == NoError <==> AllDigits(s) && Fold(s, n) <= MaxUint64
    ensures ScanDigits(s, n).err == NoError ==> ScanDigits(s, n).value == Fold(s, n)
    ensures ScanDigits(s, n).err == ErrSyntax ==> ScanDigits(s, n).value == 0
    ensures ScanDigits(s, n).err == ErrRange ==> ScanDigits(s, n).value == MaxUint64
  {
    if |s| > 0 && IsDigit(s[0]) {
      var n1 := n * 10 + DigitValue(s[0]);
      if AllDigits(s) {
        assert AllDigits(s[1..]);
        FoldGrows(s[1..], n1);
      }
      if n1 <= MaxUint64 {
        ScanDigitsSpec(s[1..], n1);
        if AllDigits(s[1..]) {
          assert AllDigits(s);
        }
      }
    }
  }

  /** ParseInt(s, 10, 0) as Atoi calls it: an optional sign, then at least one
      digit; out-of-range values are clamped to the int64 bounds. */
  function Atoi(s: string): Parsed {
    if |s| == 0 then Parsed(0, ErrSyntax)
    else
      var neg := s[0] == '-';
      var body := if s[0] == '+' || s[0] == '-' then s[1..] else s;
      var u := if |body| == 0 then Parsed(0, ErrSyntax) else ScanDigits(body, 0);
      if u.err == ErrSyntax then Parsed(0, ErrSyntax)
      else if !neg && u.value > MaxInt64 then Parsed(MaxInt64, ErrRange)
      else if neg && u.value > -MinInt64 then Parsed(MinInt64, ErrRange)
      else if neg then Parsed(-u.value, NoError)
      else Parsed(u.value, NoError)
  }

  /** The digits after an optional leading sign. */
  function Body(s: string): string {
    if |s| > 0 && (s[0] == '+' || s[0] == '-') then s[1..] else s
  }

  /** The text denotes an integer: an optional sign and at least one digit. */
  predicate IsInteger(s: string) {
    |Body(s)| > 0 && AllDigits(Body(s))
  }

  /** The integer an integer text denotes. */
  function Denoted(s: string): int
    requires IsInteger(s)
  {
    if s[0] == '-' then -Fold(Body(s), 0) else Fold(Body(s), 0)
  }

  /** Atoi accepts exactly the integer texts whose value fits int64 and then
      returns that value; on a syntax error the value is 0, on a range error
      the bound on the side of the sign. */
  lemma AtoiSpec(s: string)
    ensures Atoi(s).err == NoError <==> IsInteger(s) && MinInt64 <= Denoted(s) <= MaxInt64
    ensures Atoi(s).err == NoError ==> Atoi(s).value == Denoted(s)
    ensures Atoi(s).err == ErrSyntax ==> Atoi(s).value == 0
    ensures Atoi(s).err == ErrRange ==>
      Atoi(s).value == (if s[0] == '-' then MinInt64 else MaxInt64)
    ensures Atoi(s).err == NoError ==> MinInt64 <= Atoi(s).value <= MaxInt64
  {
    if |Body(s)| > 0 {
      ScanDigitsSpec(Body(s), 0);
      if AllDigits(Body(s)) {
        FoldGrows(Body(s), 0);
      }
    }
  }

  function DigitChar(d: nat): char
    requires d < 10
  {
    ('0' as int + d) as char
  }

  /** The decimal digits of n, without leading zeros. */
  function Digits(n: nat): string
    decreases n
  {
    if n < 10 then [DigitChar(n)] else Digits(n / 10) + [DigitChar(n % 10)]
  }

  lemma {:induction false} DigitsValue(n: nat)
    ensures |Digits(n)| > 0 && AllDigits(Digits(n))
    ensures Fold(Digits(n), 0) == n
    decreases n
  {
    if n < 10 {
      assert Fold(Digits(n), 0) == Fold([], n);
    } else {
      DigitsValue(n / 10);
      FoldAppend(Digits(n / 10), DigitChar(n % 10), 0);
    }
  }

  /** strconv.Itoa: a minus sign for negatives, then the decimal digits. */
  function Itoa(n: int): string {
    if n < 0 then "-" + Digits(-n) else Digits(n)
  }

  /** Atoi reads back what Itoa writes, for every int64. */
  lemma AtoiItoa(n: int)
    requires MinInt64 <= n <= MaxInt64
    ensures Atoi(Itoa(n)) == Parsed(n, NoError)
  {
    var s := Itoa(n);
    if n < 0 {
      DigitsValue(-n);
      assert Body(s) == Digits(-n);
    } else {
      DigitsValue(n);
      assert Body(s) == Digits(n);
    }
    AtoiSpec(s);
  }

  /** The framework's c.Query(key, default): an absent or empty parameter
      yields the default. */
  function QueryOr(value: string, default: string): (r: string)
    ensures value != "" ==> r == value
    ensures value == "" ==> r == default
  {
    if value == "" then default else value
  }
}
