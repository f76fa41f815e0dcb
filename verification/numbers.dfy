/**
 * Decimal digit strings and Go's `strconv.Atoi` on a 64-bit platform: an optional
 * '+' or '-' followed by one or more ASCII digits whose value fits in an int64.
 */
module Numbers {
  import opened Wrappers
  import opened Text

  const MinInt64: int := -0x8000_0000_0000_0000
  const MaxInt64: int := 0x7FFF_FFFF_FFFF_FFFF

  predicate AllDigits(s: string) {
    forall i :: 0 <= i < |s| ==> IsAsciiDigit(s[i])
  }

  function DigitValue(c: char): (d: nat)
    requires IsAsciiDigit(c)
    ensures d < 10
  {
    (c as int) - ('0' as int)
  }

  /** The digit character for d; the inverse of DigitValue. */
  function Digit(d: nat): (c: char)
    requires d < 10
    ensures IsAsciiDigit(c) && DigitValue(c) == d
  {
    (('0' as int) + d) as char
  }

  function Pow10(n: nat): (p: nat)
    ensures p >= 1
  {
    if n == 0 then 1 else 10 * Pow10(n - 1)
  }

  /** Value of a digit string read most significant digit first; "" reads as 0. */
  function DigitsValue(s: string): (v: nat)
    requires AllDigits(s)
    ensures v < Pow10(|s|)
  {
    if |s| == 0 then 0 else 10 * DigitsValue(s[..|s| - 1]) + DigitValue(s[|s| - 1])
  }

  /** n written with exactly w digits, zero-padded on the left. */
  function Pad(n: nat, w: nat): (s: string)
    requires n < Pow10(w)
    ensures |s| == w && AllDigits(s)
  {
    if w == 0 then [] else Pad(n / 10, w - 1) + [Digit(n % 10)]
  }

  /** Reading a padded rendering gives the number back. */
  lemma {:induction false} DigitsValueOfPad(n: nat, w: nat)
    requires n < Pow10(w)
    ensures DigitsValue(Pad(n, w)) == n
  {
    if w > 0 {
      var s := Pad(n, w);
      assert s[..|s| - 1] == Pad(n / 10, w - 1);
      DigitsValueOfPad(n / 10, w - 1);
    }
  }

  /** Padding the value of a digit string to its own width gives the string back. */
  lemma {:induction false} PadOfDigitsValue(s: string)
    requires AllDigits(s)
    ensures Pad(DigitsValue(s), |s|) == s
  {
    if |s| > 0 {
      var init := s[..|s| - 1];
      var v := DigitsValue(s);
      assert v / 10 == DigitsValue(init);
      assert v % 10 == DigitValue(s[|s| - 1]);
      PadOfDigitsValue(init);
      assert Digit(v % 10) == s[|s| - 1];
      assert s == init + [s[|s| - 1]];
    }
  }

  /** A run of zeros reads as 0. */
  lemma {:induction false} ZerosValue(s: string)
    requires forall i :: 0 <= i < |s| ==> s[i] == '0'
    ensures AllDigits(s) && DigitsValue(s) == 0
  {
    if |s| > 0 {
      ZerosValue(s[..|s| - 1]);
    }
  }

  /** Canonical decimal rendering of n: no leading zero, "0" for zero. */
  function NatToString(n: nat): (s: string)
    ensures |s| > 0 && AllDigits(s)
    ensures |s| > 1 ==> s[0] != '0'
  {
    if n < 10 then [Digit(n)] else NatToString(n / 10) + [Digit(n % 10)]
  }

  lemma {:induction false} DigitsValueOfNatToString(n: nat)
    ensures DigitsValue(NatToString(n)) == n
  {
    if n >= 10 {
      var s := NatToString(n);
      assert s[..|s| - 1] == NatToString(n / 10);
      DigitsValueOfNatToString(n / 10);
    }
  }

  /** One or more ASCII digits, optionally preceded by a sign: the syntax Atoi accepts. */
  predicate SignedDigits(s: string) {
    if |s| > 0 && (s[0] == '+' || s[0] == '-') then |s| > 1 && AllDigits(s[1..])
    else |s| > 0 && AllDigits(s)
  }

  /** The integer a sign-and-digits text denotes, with no range limit. */
  function SignedValue(s: string): int
    requires SignedDigits(s)
  {
    if s[0] == '-' then -(DigitsValue(s[1..]) as int)
    else if s[0] == '+' then DigitsValue(s[1..])
    else DigitsValue(s)
  }

  /**
   * `strconv.Atoi`: the integer denoted by s, or None on a syntax or range error.
   * It accepts exactly the sign-and-digits texts whose value fits in an int64.
   */
  function Atoi(s: string): (r: Option<int>)
    ensures r.Some? <==> SignedDigits(s) && MinInt64 <= SignedValue(s) <= MaxInt64
    ensures r.Some? ==> r.value == SignedValue(s)
    ensures r.Some? ==> SignedDigits(s) && MinInt64 <= r.value <= MaxInt64
    ensures SignedDigits(s) && |s| < 19 ==> r.Some?
    ensures r.Some? && AllDigits(s) ==> r.value == DigitsValue(s)
  {
    if |s| > 0 && (s[0] == '+' || s[0] == '-') then
      var digits := s[1..];
      if |digits| == 0 || !AllDigits(digits) then None
      else
        var magnitude: int := DigitsValue(digits);
        var v: int := if s[0] == '-' then -magnitude else magnitude;
        if MinInt64 <= v <= MaxInt64 then
          Some(v)
        else
          LargeTenPower(|digits|);
          None
    else if |s| == 0 || !AllDigits(s) then None
    else if DigitsValue(s) <= MaxInt64 then Some(DigitsValue(s))
    else
      LargeTenPower(|s|);
      None
  }

  /** Only numbers with at least 19 digits leave the int64 range. */
  lemma {:induction false} LargeTenPower(n: nat)
    requires Pow10(n) > MaxInt64
    ensures n >= 19
  {
    if n < 19 {
      assert Pow10(6) == 1_000_000;
      assert Pow10(12) == 1_000_000_000_000;
      assert Pow10(18) == 1_000_000_000_000_000_000;
      Pow10Monotone(n, 18);
    }
  }

  lemma {:induction false} Pow10Monotone(a: nat, b: nat)
    requires a <= b
    ensures Pow10(a) <= Pow10(b)
    decreases b
  {
    if a < b {
      Pow10Monotone(a, b - 1);
    }
  }

  /** Decimal rendering of an integer, with a '-' for negatives. */
  function IntToString(v: int): (s: string)
    ensures SignedDigits(s)
  {
    if v < 0 then "-" + NatToString(-v) else NatToString(v)
  }

  /** Atoi inverts IntToString on the whole int64 range. */
  lemma AtoiOfIntToString(v: int)
    requires MinInt64 <= v <= MaxInt64
    ensures Atoi(IntToString(v)) == Some(v)
  {
    if v < 0 {
      var digits := NatToString(-v);
      DigitsValueOfNatToString(-v);
      assert IntToString(v)[1..] == digits;
      assert DigitsValue(digits) == -v;
    } else {
      var digits := NatToString(v);
      DigitsValueOfNatToString(v);
      assert IsAsciiDigit(digits[0]);
      assert DigitsValue(digits) == v;
    }
  }
}
