/** The base-10 part of Go's `strconv` package that the contexts rely on:
    `ParseInt(s, 10, bitSize)`, `Atoi`, `ParseBool` and `Itoa`.
    Go strings are byte strings; here each byte is one `char`. */
module Strconv {
  import opened Wrappers

  /** The two kinds of `*strconv.NumError`. */
  datatype NumError = ErrSyntax | ErrRange

  /** The bit sizes the contexts pass to `ParseInt`. */
  datatype BitSize = B8 | B16 | B32 | B64

  /** `1 << (bitSize - 1)`: the magnitude of the most negative value. */
  function Cutoff(b: BitSize): nat {
    match b
    case B8 => 0x80
    case B16 => 0x8000
    case B32 => 0x8000_0000
    case B64 => 0x8000_0000_0000_0000
  }

  /** The signed range of a bit size. */
  predicate InRange(n: int, b: BitSize) {
    -(Cutoff(b) as int) <= n < Cutoff(b)
  }

  predicate IsDigit(c: char) { '0' <= c <= '9' }

  function DigitValue(c: char): nat
    requires IsDigit(c)
  {
    c as int - '0' as int
  }

  predicate AllDigits(s: string) {
    forall i :: 0 <= i < |s| ==> IsDigit(s[i])
  }

  function Pow10(n: nat): (r: nat)
    ensures r >= 1
  {
    if n == 0 then 1 else 10 * Pow10(n - 1)
  }

  /** Positional value of a digit string, most significant digit first. */
  function DecimalValue(s: string): nat
    requires AllDigits(s)
  {
    if s == [] then 0 else DigitValue(s[0]) * Pow10(|s| - 1) + DecimalValue(s[1..])
  }

  /** The text after an optional leading sign. */
  function Unsigned(s: string): string {
    if |s| > 0 && (s[0] == '+' || s[0] == '-') then s[1..] else s
  }

  predicate Negative(s: string) { |s| > 0 && s[0] == '-' }

  /** Base-10 integer syntax: an optional sign and at least one digit. */
  predicate IsDecimal(s: string) {
    |s| > 0 && |Unsigned(s)| > 0 && AllDigits(Unsigned(s))
  }

  /** The integer a decimal text denotes. */
  function IntValue(s: string): int
    requires IsDecimal(s)
  {
    if Negative(s) then -(DecimalValue(Unsigned(s)) as int) else DecimalValue(Unsigned(s))
  }

  /** `1<<bitSize - 1`: the largest value `ParseUint` accepts at a bit size. */
  function MaxUint(b: BitSize): nat {
    2 * Cutoff(b) - 1
  }

  /** The digit loop of `ParseUint(s, 10, bitSize)`: left to right, stopping
      at the first non-digit (syntax error) or at the first digit that takes
      the value past `1<<bitSize - 1` (range error), whichever comes first.
      Go's separate test for a multiplication past 2^64 - 1 fires only where
      this bound is already passed. */
  function AccumulateDigits(s: string, acc: nat, b: BitSize): Result<nat, NumError>
    decreases |s|
  {
    if s == [] then Ok(acc)
    else if !IsDigit(s[0]) then Err(ErrSyntax)
    else if acc * 10 + DigitValue(s[0]) > MaxUint(b) then Err(ErrRange)
    else AccumulateDigits(s[1..], acc * 10 + DigitValue(s[0]), b)
  }

  /** `strconv.ParseUint(s, 10, bitSize)`. */
  function ParseUint(s: string, b: BitSize): Result<nat, NumError> {
    if s == [] then Err(ErrSyntax) else AccumulateDigits(s, 0, b)
  }

  /** The digits before the first non-digit. */
  function LeadingDigits(s: string): (d: string)
    ensures AllDigits(d) && |d| <= |s|
  {
    if s == [] || !IsDigit(s[0]) then []
    else
      var rest := LeadingDigits(s[1..]);
      assert forall i :: 1 <= i < |rest| + 1 ==> ([s[0]] + rest)[i] == rest[i - 1];
      [s[0]] + rest
  }

  /** The error `ParseUint` gives on text that is not all digits: a range
      error when the digits before the first non-digit are already worth more
      than the bit size holds, otherwise a syntax error. */
  function NotDigitsError(s: string, b: BitSize): NumError {
    if DecimalValue(LeadingDigits(s)) > MaxUint(b) then ErrRange else ErrSyntax
  }

  lemma MulAtLeast(n: nat, p: nat)
    requires p >= 1
    ensures n * p >= n
  {
  }

  lemma {:induction false} DecimalValueStep(d: nat, m: nat, rest: nat, acc: nat)
    ensures acc * Pow10(m + 1) + (d * Pow10(m) + rest) == (acc * 10 + d) * Pow10(m) + rest
  {
    var p := Pow10(m);
    assert Pow10(m + 1) == 10 * p;
    assert acc * (10 * p) == (acc * 10) * p;
    assert (acc * 10 + d) * p == (acc * 10) * p + d * p;
  }

  /** On an all-digit text the loop yields the positional value, or a range
      error exactly when that value exceeds the bit size's maximum. */
  lemma {:induction false} AccumulateDigitsValue(s: string, acc: nat, b: BitSize)
    requires AllDigits(s) && acc <= MaxUint(b)
    ensures var total := acc * Pow10(|s|) + DecimalValue(s);
      AccumulateDigits(s, acc, b) == if total <= MaxUint(b) then Ok(total) else Err(ErrRange)
  {
    if s == [] {
      assert acc * Pow10(0) == acc;
    } else {
      var d := DigitValue(s[0]);
      var n1 := acc * 10 + d;
      var m := |s| - 1;
      var rest := DecimalValue(s[1..]);
      assert DecimalValue(s) == d * Pow10(m) + rest;
      DecimalValueStep(d, m, rest, acc);
      var total := acc * Pow10(|s|) + DecimalValue(s);
      assert total == n1 * Pow10(m) + rest;
      if n1 > MaxUint(b) {
        MulAtLeast(n1, Pow10(m));
        assert AccumulateDigits(s, acc, b) == Err(ErrRange);
      } else {
        assert AllDigits(s[1..]) by {
          forall i | 0 <= i < |s[1..]| ensures IsDigit(s[1..][i]) {
            assert s[1..][i] == s[i + 1];
          }
        }
        AccumulateDigitsValue(s[1..], n1, b);
        assert AccumulateDigits(s, acc, b) == AccumulateDigits(s[1..], n1, b);
      }
    }
  }

  /** A text with a non-digit never parses. The error is a range error
      exactly when the digits before the first non-digit take the value
      past the maximum: the value only grows along them. */
  lemma {:induction false} AccumulateDigitsRejects(s: string, acc: nat, b: BitSize)
    requires !AllDigits(s) && acc <= MaxUint(b)
    ensures var lead := LeadingDigits(s);
      AccumulateDigits(s, acc, b) == Err(if acc * Pow10(|lead|) + DecimalValue(lead) > MaxUint(b) then ErrRange else ErrSyntax)
  {
    var lead := LeadingDigits(s);
    if !IsDigit(s[0]) {
      assert lead == [];
      assert acc * Pow10(0) == acc;
    } else {
      var d := DigitValue(s[0]);
      var n1 := acc * 10 + d;
      var tail := LeadingDigits(s[1..]);
      var m := |tail|;
      var rest := DecimalValue(tail);
      assert lead == [s[0]] + tail;
      assert lead[0] == s[0] && lead[1..] == tail;
      assert DecimalValue(lead) == d * Pow10(m) + rest;
      DecimalValueStep(d, m, rest, acc);
      assert acc * Pow10(|lead|) + DecimalValue(lead) == n1 * Pow10(m) + rest;
      if n1 > MaxUint(b) {
        MulAtLeast(n1, Pow10(m));
      } else {
        assert !AllDigits(s[1..]) by {
          var i :| 0 <= i < |s| && !IsDigit(s[i]);
          assert i > 0 && !IsDigit(s[1..][i - 1]);
        }
        AccumulateDigitsRejects(s[1..], n1, b);
      }
    }
  }

  /** `strconv.ParseUint(s, 10, bitSize)` succeeds exactly on digit strings
      whose value fits in the bit size; on other text it stops with the
      error of the first digit past the maximum or the first non-digit. */
  lemma ParseUintMeaning(s: string, b: BitSize)
    ensures ParseUint(s, b).Ok? <==> |s| > 0 && AllDigits(s) && DecimalValue(s) <= MaxUint(b)
    ensures ParseUint(s, b).Ok? ==> ParseUint(s, b).value == DecimalValue(s)
    ensures |s| > 0 && AllDigits(s) && DecimalValue(s) > MaxUint(b) ==> ParseUint(s, b) == Err(ErrRange)
    ensures !AllDigits(s) ==> ParseUint(s, b) == Err(NotDigitsError(s, b))
  {
    if s != [] {
      assert ParseUint(s, b) == AccumulateDigits(s, 0, b);
      if AllDigits(s) {
        AccumulateDigitsValue(s, 0, b);
        assert 0 * Pow10(|s|) == 0;
      } else {
        AccumulateDigitsRejects(s, 0, b);
        assert 0 * Pow10(|LeadingDigits(s)|) == 0;
      }
    }
  }

  /** `strconv.ParseInt(s, 10, bitSize)`: pick off the sign, parse the rest
      with `ParseUint(rest, 10, bitSize)` (a range error there leaves
      `1<<bitSize - 1`), then check the value against the signed range of
      the bit size. Text that is not decimal fails with `ParseUint`'s error
      on the unsigned part. */
  function ParseInt(s: string, bitSize: BitSize): (r: Result<int, NumError>)
    ensures r.Ok? <==> IsDecimal(s) && InRange(IntValue(s), bitSize)
    ensures r.Ok? ==> r.value == IntValue(s)
    ensures IsDecimal(s) && !InRange(IntValue(s), bitSize) ==> r == Err(ErrRange)
    ensures !IsDecimal(s) ==> r == Err(NotDigitsError(Unsigned(s), bitSize))
  {
    if s == [] then Err(ErrSyntax)
    else
      var neg := s[0] == '-';
      var rest := Unsigned(s);
      var parsed := ParseUint(rest, bitSize);
      ParseUintMeaning(rest, bitSize);
      if parsed == Err(ErrSyntax) then Err(ErrSyntax)
      else
        var un := if parsed.Err? then MaxUint(bitSize) else parsed.value;
        var cutoff := Cutoff(bitSize);
        if !neg && un >= cutoff then Err(ErrRange)
        else if neg && un > cutoff then Err(ErrRange)
        else Ok(if neg then -(un as int) else un)
  }

  /** The digit loop stops at the width's maximum before it reaches a later
      non-digit: "256x" is a range error at 8 bits, "25x" a syntax error. */
  lemma RangeBeforeSyntax()
    ensures ParseInt("256x", B8) == Err(ErrRange)
    ensures ParseInt("25x", B8) == Err(ErrSyntax)
  {
    var s := "256x";
    assert !IsDigit(s[3]) && !IsDecimal(s) && Unsigned(s) == s;
    assert LeadingDigits(s[3..]) == [];
    assert LeadingDigits(s) == "256";
    assert DecimalValue("6") == 6 && DecimalValue("56") == 56 && DecimalValue("256") == 256;
    var t := "25x";
    assert !IsDigit(t[2]) && !IsDecimal(t) && Unsigned(t) == t;
    assert LeadingDigits(t[2..]) == [];
    assert LeadingDigits(t) == "25";
    assert DecimalValue("5") == 5 && DecimalValue("25") == 25;
  }

  /** `strconv.Atoi` on a 64-bit platform: its short-input fast path gives
      the same value and error kind as `ParseInt(s, 10, 64)`. */
  function Atoi(s: string): (r: Result<int, NumError>)
    ensures r.Ok? <==> IsDecimal(s) && InRange(IntValue(s), B64)
    ensures r.Ok? ==> r.value == IntValue(s) && -0x8000_0000_0000_0000 <= r.value < 0x8000_0000_0000_0000
  {
    ParseInt(s, B64)
  }

  const TrueWords: seq<string> := ["1", "t", "T", "TRUE", "true", "True"]
  const FalseWords: seq<string> := ["0", "f", "F", "FALSE", "false", "False"]

  /** `strconv.ParseBool`: an exact list of spellings, not a case-insensitive
      comparison. */
  function ParseBool(s: string): (r: Result<bool, NumError>)
    ensures r.Ok? <==> s in TrueWords || s in FalseWords
    ensures r == Ok(true) <==> s in TrueWords
    ensures r.Err? ==> r.error == ErrSyntax
  {
    if s in TrueWords then Ok(true)
    else if s in FalseWords then Ok(false)
    else Err(ErrSyntax)
  }

  /** `strconv.FormatBool`. */
  function FormatBool(b: bool): string {
    if b then "true" else "false"
  }

  lemma ParseBoolRoundTrip(b: bool)
    ensures ParseBool(FormatBool(b)) == Ok(b)
  {
  }

  function DigitChar(d: nat): (c: char)
    requires d < 10
    ensures IsDigit(c) && DigitValue(c) == d
  {
    ('0' as int + d) as char
  }

  /** Decimal rendering of a natural number, without leading zeros. */
  function FormatUint(u: nat): (s: string)
    ensures |s| > 0 && AllDigits(s)
  {
    if u < 10 then [DigitChar(u)] else FormatUint(u / 10) + [DigitChar(u % 10)]
  }

  /** `strconv.Itoa` / `FormatInt(n, 10)`. */
  function FormatInt(n: int): string {
    if n < 0 then "-" + FormatUint(-n) else FormatUint(n)
  }

  lemma ShiftDigit(d: nat, p: nat, v: nat, c: nat)
    ensures d * (10 * p) + (v * 10 + c) == (d * p + v) * 10 + c
  {
    assert d * (10 * p) == (d * p) * 10;
  }

  lemma {:induction false} DecimalValueAppend(s: string, c: char)
    requires AllDigits(s) && IsDigit(c)
    ensures AllDigits(s + [c])
    ensures DecimalValue(s + [c]) == DecimalValue(s) * 10 + DigitValue(c)
  {
    assert AllDigits(s + [c]) by {
      forall i | 0 <= i < |s + [c]| ensures IsDigit((s + [c])[i]) {
        if i < |s| { assert (s + [c])[i] == s[i]; }
      }
    }
    if s != [] {
      var t := s + [c];
      assert t[0] == s[0] && t[1..] == s[1..] + [c];
      DecimalValueAppend(s[1..], c);
      var d0 := DigitValue(s[0]);
      var p := Pow10(|s| - 1);
      assert Pow10(|t| - 1) == 10 * p;
      var v := DecimalValue(s[1..]);
      assert DecimalValue(t) == d0 * (10 * p) + (v * 10 + DigitValue(c));
      assert DecimalValue(s) == d0 * p + v;
      ShiftDigit(d0, p, v, DigitValue(c));
    }
  }

  lemma {:induction false} FormatUintValue(u: nat)
    ensures DecimalValue(FormatUint(u)) == u
  {
    if u >= 10 {
      FormatUintValue(u / 10);
      DecimalValueAppend(FormatUint(u / 10), DigitChar(u % 10));
    }
  }

  /** Rendering an integer in base 10 gives decimal text that denotes it. */
  lemma FormatIntMeaning(n: int)
    ensures IsDecimal(FormatInt(n)) && IntValue(FormatInt(n)) == n
  {
    var u := FormatUint(if n < 0 then -n else n);
    FormatUintValue(if n < 0 then -n else n);
    assert IsDigit(u[0]);
    if n < 0 {
      assert FormatInt(n)[1..] == u;
    }
  }

  /** Round trip: the base-10 rendering of any integer in the range of a bit
      size parses back, at that bit size, to the same integer. */
  lemma FormatParseRoundTrip(n: int, b: BitSize)
    requires InRange(n, b)
    ensures ParseInt(FormatInt(n), b) == Ok(n)
  {
    FormatIntMeaning(n);
  }

  /** The rendering is plain ASCII, so it survives a byte-for-byte copy. */
  lemma FormatIntAscii(n: int)
    ensures forall i :: 0 <= i < |FormatInt(n)| ==> FormatInt(n)[i] as int < 128
  {
    var s := FormatInt(n);
    forall i | 0 <= i < |s| ensures s[i] as int < 128 {
      if n < 0 && i > 0 {
        assert s[i] == FormatUint(-n)[i - 1];
      } else if n >= 0 {
        assert s[i] == FormatUint(n)[i];
      }
    }
  }
}
