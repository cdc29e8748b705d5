/** Decimal text: the subset of Go's `strconv.Atoi` and `strconv.Itoa` the model needs, on a
    64-bit platform (where Go's `int` is 64 bits wide). */
module Decimal {

  const MinInt64: int := -0x8000_0000_0000_0000
  const MaxInt64: int := 0x7fff_ffff_ffff_ffff
  const MaxUint64: int := 0xffff_ffff_ffff_ffff

  predicate IsDigit(c: char)
  {
    '0' <= c <= '9'
  }

  predicate AllDigits(s: string)
  {
    forall i :: 0 <= i < |s| ==> IsDigit(s[i])
  }

  /** The value of a run of decimal digits, most significant first. */
  function DigitsValue(s: string): nat
    requires AllDigits(s)
  {
    if s == [] then 0 else DigitsValue(s[..|s| - 1]) * 10 + (s[|s| - 1] as int - '0' as int)
  }

  /** A longer run of digits never has a smaller value than its prefix. */
  lemma {:induction false} DigitsValuePrefix(s: string, i: nat)
    requires AllDigits(s) && i <= |s|
    ensures AllDigits(s[..i]) && DigitsValue(s[..i]) <= DigitsValue(s)
  {
    if i < |s| {
      var init := s[..|s| - 1];
      assert init[..i] == s[..i];
      DigitsValuePrefix(init, i);
    } else {
      assert s[..i] == s;
    }
  }

  /** Whether the text starts with a minus sign. */
  predicate Negative(s: string)
  {
    |s| > 0 && s[0] == '-'
  }

  /** The text after one optional leading `+` or `-`. */
  function Unsigned(s: string): (d: string)
    ensures |d| == |s| || (|s| > 0 && (s[0] == '+' || s[0] == '-') && d == s[1..])
    ensures |s| > 0 && IsDigit(s[0]) ==> d == s
  {
    if |s| > 0 && (s[0] == '+' || s[0] == '-') then s[1..] else s
  }

  /** What the decimal scan of `strconv.ParseUint` ends in. */
  datatype Scan = Value(value: nat) | BadDigit | Overflow

  /** `strconv.ParseUint(s, 10, 64)` from index `i` on, having read `s[..i]` into the
      accumulator `DigitsValue(s[..i])`: each character must be a digit (checked first), and the
      accumulator times ten plus that digit must stay within 64 unsigned bits, otherwise the scan
      stops there with a range error, whatever follows. */
  function ScanDigits(s: string, i: nat): (r: Scan)
    requires i <= |s| && AllDigits(s[..i]) && DigitsValue(s[..i]) <= MaxUint64
    ensures r.Value? <==> AllDigits(s) && DigitsValue(s) <= MaxUint64
    ensures r.Value? ==> r.value == DigitsValue(s)
    ensures r.BadDigit? ==> !AllDigits(s)
    decreases |s| - i
  {
    if i == |s| then
      assert s[..i] == s;
      Value(DigitsValue(s))
    else if !IsDigit(s[i]) then BadDigit
    else
      var read := s[..i + 1];
      assert read[..i] == s[..i] && read[i] == s[i];
      assert AllDigits(read);
      if DigitsValue(read) > MaxUint64 then
        assert AllDigits(s) ==> DigitsValue(s) > MaxUint64 by {
          if AllDigits(s) { DigitsValuePrefix(s, i + 1); }
        }
        Overflow
      else ScanDigits(s, i + 1)
  }

  /** Once the digits read so far exceed 64 unsigned bits the scan reports a range error, even
      if a character that is not a digit comes later. */
  lemma {:induction false} ScanOverflow(s: string, i: nat, j: nat)
    requires i <= j <= |s| && AllDigits(s[..j]) && DigitsValue(s[..j]) > MaxUint64
    requires AllDigits(s[..i]) && DigitsValue(s[..i]) <= MaxUint64
    ensures ScanDigits(s, i) == Overflow
    decreases j - i
  {
    var run := s[..j];
    assert run[i] == s[i] && run[..i + 1] == s[..i + 1];
    DigitsValuePrefix(run, i + 1);
    if DigitsValue(s[..i + 1]) <= MaxUint64 {
      ScanOverflow(s, i + 1, j);
    }
  }

  /** What `strconv.Atoi` reports: the value, a syntax error, or a range error (Go then returns
      the nearest 64-bit bound alongside the error). */
  datatype AtoiResult = Parsed(value: int) | SyntaxError | RangeError(bound: int)

  /** The signed value of an optionally signed run of digits. */
  function SignedValue(s: string): int
    requires AllDigits(Unsigned(s))
  {
    if Negative(s) then 0 - DigitsValue(Unsigned(s)) as int else DigitsValue(Unsigned(s))
  }

  /** `strconv.Atoi`: an optional `+` or `-`, then the unsigned scan of `ScanDigits`, then the
      signed 64-bit range. No spaces, no underscores, no base prefix. Go's fast path for texts of
      fewer than 19 characters reaches the same verdicts, as no 18 digits can overflow. */
  function Atoi(s: string): (r: AtoiResult)
    ensures r.Parsed? ==> MinInt64 <= r.value <= MaxInt64
    ensures r.Parsed? ==> Unsigned(s) != [] && AllDigits(Unsigned(s)) && r.value == SignedValue(s)
    ensures Unsigned(s) != [] && AllDigits(Unsigned(s)) ==>
              !r.SyntaxError? && (r.Parsed? <==> MinInt64 <= SignedValue(s) <= MaxInt64)
    ensures Unsigned(s) == [] ==> r.SyntaxError?
    ensures r.RangeError? ==> r.bound == if Negative(s) then MinInt64 else MaxInt64
  {
    var digits := Unsigned(s);
    if digits == [] then SyntaxError
    else
      assert digits[..0] == [];
      match ScanDigits(digits, 0)
      case BadDigit => SyntaxError
      case Overflow => RangeError(if Negative(s) then MinInt64 else MaxInt64)
      case Value(n) =>
        if !Negative(s) && n > MaxInt64 then RangeError(MaxInt64)
        else if Negative(s) && n > -MinInt64 then RangeError(MinInt64)
        else Parsed(if Negative(s) then 0 - n as int else n)
  }

  /** The integer `strconv.Atoi` returns next to its error: 0 on a syntax error, the bound on a
      range error. */
  function AtoiValue(s: string): (v: int)
    ensures Atoi(s).SyntaxError? ==> v == 0
    ensures Atoi(s).Parsed? ==> v == Atoi(s).value
    ensures Atoi(s).RangeError? ==> v == Atoi(s).bound
    ensures MinInt64 <= v <= MaxInt64
  {
    match Atoi(s)
    case Parsed(n) => n
    case SyntaxError => 0
    case RangeError(b) => b
  }

  /** `strconv.Itoa` for a non-negative value: shortest decimal text, no sign. */
  function FormatNat(n: nat): (s: string)
    ensures s != [] && AllDigits(s)
    ensures n > 0 ==> s[0] != '0'
    ensures n == 0 ==> s == "0"
  {
    if n < 10 then [('0' as int + n) as char]
    else FormatNat(n / 10) + [('0' as int + n % 10) as char]
  }

  lemma {:induction false} DigitsValueFormat(n: nat)
    ensures DigitsValue(FormatNat(n)) == n
  {
    if n >= 10 {
      DigitsValueFormat(n / 10);
      var s := FormatNat(n);
      assert s[..|s| - 1] == FormatNat(n / 10);
    }
  }

  /** `strconv.Atoi(strconv.Itoa(n)) == n` for every non-negative 64-bit `n`. */
  lemma AtoiFormatRoundTrip(n: nat)
    requires n <= MaxInt64
    ensures Atoi(FormatNat(n)) == Parsed(n)
  {
    DigitsValueFormat(n);
  }

  /** A run of digits too large for 64 unsigned bits is a range error whatever text follows it:
      the scan stops before it reaches a later character that is not a digit. */
  lemma AtoiOverflowFirst(n: nat, tail: string)
    requires n > MaxUint64
    ensures Atoi(FormatNat(n) + tail) == RangeError(MaxInt64)
  {
    var d := FormatNat(n);
    var s := d + tail;
    DigitsValueFormat(n);
    assert s[0] == d[0] && s[..|d|] == d && s[..0] == [];
    ScanOverflow(s, 0, |d|);
  }
}
