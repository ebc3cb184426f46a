/**
 * The parts of Go's `strconv` and of its integer-to-string conversion that
 * the message dispatcher depends on: `strconv.Atoi` (its value, the error
 * being discarded by the caller), the decimal rendering `strconv.Itoa`, and
 * the conversion `string(n)` of an integer, which yields the character with
 * code point n rather than its digits.
 */
module GoStrconv {

  const MaxInt64: int := 0x7FFF_FFFF_FFFF_FFFF
  const MinInt64: int := -0x8000_0000_0000_0000
  const MaxUint64: int := 0xFFFF_FFFF_FFFF_FFFF

  /** `ParseUint` reports overflow once the value so far reaches this bound
      (max uint64 / 10 + 1) before another digit is appended. */
  const Cutoff: int := 1844674407370955162

  predicate IsDigit(c: char) {
    '0' <= c <= '9'
  }

  function DigitValue(c: char): (d: nat)
    requires IsDigit(c)
    ensures d < 10
  {
    c as int - '0' as int
  }

  function DigitChar(d: nat): (c: char)
    requires d < 10
    ensures IsDigit(c) && DigitValue(c) == d
  {
    ('0' as int + d) as char
  }

  /** Outcome of scanning the digits of an unsigned decimal number. */
  datatype Scan = SyntaxError | RangeError | Value(n: nat)

  /** The digit loop of `ParseUint(s, 10, 64)`, continuing from the value `n`
      already read: a non-digit is a syntax error, and the value leaving the
      uint64 range is a range error reported at once. */
  function ScanUint(s: string, n: nat): (r: Scan)
    requires n <= MaxUint64
    ensures r.Value? ==> n <= r.n <= MaxUint64
  {
    if s == [] then Value(n)
    else if !IsDigit(s[0]) then SyntaxError
    else if n >= Cutoff then RangeError
    else if n * 10 + DigitValue(s[0]) > MaxUint64 then RangeError
    else ScanUint(s[1..], n * 10 + DigitValue(s[0]))
  }

  /** The value returned by `strconv.Atoi(s)` on 64-bit Go: an optional sign
      and at least one digit; 0 on a syntax error; the nearest int64 bound
      when the number is out of range. */
  function Atoi(s: string): (v: int)
    ensures MinInt64 <= v <= MaxInt64
    ensures s == [] ==> v == 0
  {
    if s == [] then 0
    else
      var negative := s[0] == '-';
      var digits := if s[0] == '+' || s[0] == '-' then s[1..] else s;
      if digits == [] then 0
      else
        match ScanUint(digits, 0)
        case SyntaxError => 0
        case RangeError => if negative then MinInt64 else MaxInt64
        case Value(u) =>
          if !negative then (if u > MaxInt64 then MaxInt64 else u)
          else (if u > -MinInt64 then MinInt64 else -(u as int))
  }

  /** Decimal digits of a natural number, most significant first. */
  function Digits(n: nat): (s: string)
    ensures |s| >= 1 && forall i :: 0 <= i < |s| ==> IsDigit(s[i])
  {
    if n < 10 then [DigitChar(n)] else Digits(n / 10) + [DigitChar(n % 10)]
  }

  /** `strconv.Itoa`. */
  function Itoa(n: int): (s: string)
    ensures |s| >= 1
  {
    if n < 0 then "-" + Digits(-n) else Digits(n)
  }

  /** Go's conversion `string(n)` of an integer: the one character with code
      point n, or U+FFFD when n is not a Unicode scalar value. */
  function RuneString(n: int): (s: string)
    ensures |s| == 1
  {
    if 0 <= n < 0xD800 || 0xE000 <= n <= 0x10_FFFF then [n as char] else "�"
  }

  // ---------------------------------------------------------------------
  // Round trip

  /** Value of a digit string read left to right, starting from `acc`. */
  function DigitsValue(s: string, acc: nat): (v: nat)
    requires forall i :: 0 <= i < |s| ==> IsDigit(s[i])
  {
    if s == [] then acc else DigitsValue(s[1..], acc * 10 + DigitValue(s[0]))
  }

  lemma {:induction false} DigitsValueGrows(s: string, acc: nat)
    requires forall i :: 0 <= i < |s| ==> IsDigit(s[i])
    ensures acc <= DigitsValue(s, acc)
    ensures s != [] ==> acc * 10 + DigitValue(s[0]) <= DigitsValue(s, acc)
  {
    if s != [] {
      DigitsValueGrows(s[1..], acc * 10 + DigitValue(s[0]));
    }
  }

  lemma {:induction false} DigitsValueAppend(s: string, c: char, acc: nat)
    requires forall i :: 0 <= i < |s| ==> IsDigit(s[i])
    requires IsDigit(c)
    ensures DigitsValue(s + [c], acc) == DigitsValue(s, acc) * 10 + DigitValue(c)
  {
    if s != [] {
      assert (s + [c])[1..] == s[1..] + [c];
      DigitsValueAppend(s[1..], c, acc * 10 + DigitValue(s[0]));
    }
  }

  /** Reading back the digits of n gives n. */
  lemma {:induction false} DigitsValueOfDigits(n: nat)
    ensures DigitsValue(Digits(n), 0) == n
  {
    if n >= 10 {
      DigitsValueOfDigits(n / 10);
      DigitsValueAppend(Digits(n / 10), DigitChar(n % 10), 0);
    }
  }

  /** The digit loop accepts any digit string whose value fits in uint64,
      and yields that value. */
  lemma {:induction false} ScanUintValue(s: string, n: nat)
    requires forall i :: 0 <= i < |s| ==> IsDigit(s[i])
    requires DigitsValue(s, n) <= MaxUint64
    ensures n <= MaxUint64
    ensures ScanUint(s, n) == Value(DigitsValue(s, n))
  {
    DigitsValueGrows(s, n);
    if s != [] {
      var next := n * 10 + DigitValue(s[0]);
      DigitsValueGrows(s[1..], next);
      ScanUintValue(s[1..], next);
    }
  }

  /** `Atoi` inverts `Itoa` on every int64. */
  lemma AtoiOfItoa(n: int)
    requires MinInt64 <= n <= MaxInt64
    ensures Atoi(Itoa(n)) == n
  {
    var m: nat := if n < 0 then -n else n;
    DigitsValueOfDigits(m);
    ScanUintValue(Digits(m), 0);
    if n < 0 {
      assert ("-" + Digits(m))[1..] == Digits(m);
    } else {
      assert Digits(m)[0] != '-' && Digits(m)[0] != '+';
    }
  }
}
