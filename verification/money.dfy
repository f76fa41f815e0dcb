/**
 * The money format of the validator, `<integer>.<two characters>`, and the exact
 * integer-cents reading of an unsigned amount `<digits>.<two digits>` that the
 * points calculator works with in place of a float64.
 */
module Money {
  import opened Wrappers
  import opened Text
  import opened Numbers

  /** The four reasons `validateMoneyFormat` gives, in the order it checks them. */
  datatype MoneyError =
    | WrongPartCount   // not exactly one '.'
    | InvalidDollars   // the part before '.' is not an Atoi integer
    | CentsNotTwoBytes // the part after '.' is not two bytes long
    | InvalidCents     // the part after '.' is not an Atoi integer

  /**
   * The accepted grammar, stated without `strings.Split`: a '.' whose left side is
   * an int64 in Atoi syntax and whose right side is two bytes that Atoi accepts,
   * that is two digits or a sign and one digit.
   */
  ghost predicate MoneyShape(s: string) {
    exists i :: 0 <= i < |s| && s[i] == '.' && IntegerPart(s[..i]) && CentsPart(s[i + 1..])
  }

  predicate IntegerPart(d: string) {
    SignedDigits(d) && Atoi(d).Some?
  }

  predicate CentsPart(c: string) {
    |c| == 2 && (AllDigits(c) || ((c[0] == '+' || c[0] == '-') && IsAsciiDigit(c[1])))
  }

  /** `validateMoneyFormat`: Pass exactly when the amount has the money shape. */
  function ValidateMoneyFormat(amount: string): (r: Outcome<MoneyError>)
    ensures r.Pass? <==> MoneyShape(amount)
    ensures r == Fail(WrongPartCount) <==> CountChar(amount, '.') != 1
  {
    var parts := Split(amount, '.');
    var result :=
      if |parts| != 2 then Fail(WrongPartCount)
      else if Atoi(parts[0]).None? then Fail(InvalidDollars)
      else if ByteLength(parts[1]) != 2 then Fail(CentsNotTwoBytes)
      else if Atoi(parts[1]).None? then Fail(InvalidCents)
      else Pass;
    MoneyShapeIffParts(amount);
    result
  }

  /**
   * The reason the validator gives, read off the text on either side of the '.':
   * no '.' or several, then the dollars, then the width of the cents, then the cents.
   */
  lemma MoneyFormatFirstFailure(s: string)
    ensures CountChar(s, '.') != 1 ==> ValidateMoneyFormat(s) == Fail(WrongPartCount)
    ensures CountChar(s, '.') == 1 ==>
      var i := IndexOf(s, '.');
      ValidateMoneyFormat(s) ==
        if Atoi(s[..i]).None? then Fail(InvalidDollars)
        else if ByteLength(s[i + 1..]) != 2 then Fail(CentsNotTwoBytes)
        else if Atoi(s[i + 1..]).None? then Fail(InvalidCents)
        else Pass
  {
    if CountChar(s, '.') == 1 {
      var i := IndexOf(s, '.');
      CountSplitsAt(s, '.', i);
      SplitAtOnly(s, '.', i);
    }
  }

  /** The grammar holds exactly when the two pieces of the split pass the four checks. */
  lemma MoneyShapeIffParts(s: string)
    ensures var parts := Split(s, '.');
      MoneyShape(s) <==>
        |parts| == 2 && Atoi(parts[0]).Some? && ByteLength(parts[1]) == 2 && Atoi(parts[1]).Some?
  {
    var parts := Split(s, '.');
    if MoneyShape(s) {
      var i :| 0 <= i < |s| && s[i] == '.' && IntegerPart(s[..i]) && CentsPart(s[i + 1..]);
      ShapeSplits(s, i);
    }
    if |parts| == 2 && Atoi(parts[0]).Some? && ByteLength(parts[1]) == 2 && Atoi(parts[1]).Some? {
      SplitsShape(s);
    }
  }

  lemma ShapeSplits(s: string, i: nat)
    requires i < |s| && s[i] == '.' && IntegerPart(s[..i]) && CentsPart(s[i + 1..])
    ensures var parts := Split(s, '.');
      |parts| == 2 && Atoi(parts[0]).Some? && ByteLength(parts[1]) == 2 && Atoi(parts[1]).Some?
  {
    var left, right := s[..i], s[i + 1..];
    assert '.' !in left by {
      assert forall k :: 0 <= k < |left| ==> left[k] == '+' || left[k] == '-' || IsAsciiDigit(left[k]);
    }
    assert '.' !in right;
    SplitAtOnly(s, '.', i);
    CentsPartAccepted(right);
  }

  lemma SplitsShape(s: string)
    requires var parts := Split(s, '.');
      |parts| == 2 && Atoi(parts[0]).Some? && ByteLength(parts[1]) == 2 && Atoi(parts[1]).Some?
    ensures MoneyShape(s)
  {
    var parts := Split(s, '.');
    JoinSplit(s, '.');
    var i := |parts[0]|;
    assert s == parts[0] + "." + parts[1];
    assert s[..i] == parts[0] && s[i + 1..] == parts[1];
    TwoByteAtoi(parts[1]);
    assert IntegerPart(s[..i]) && CentsPart(s[i + 1..]);
  }

  /** The validator accepts an amount once a '.' at i splits it into an integer part and a cents part. */
  lemma MoneyShapeAt(s: string, i: nat)
    requires i < |s| && s[i] == '.' && IntegerPart(s[..i]) && CentsPart(s[i + 1..])
    ensures ValidateMoneyFormat(s).Pass?
  {
  }

  /** A two-character cents field in Atoi syntax is accepted by Atoi and is two bytes long. */
  lemma CentsPartAccepted(c: string)
    requires CentsPart(c)
    ensures Atoi(c).Some? && ByteLength(c) == 2
  {
    assert SignedDigits(c);
    assert ByteLength(c[1..]) == 1;
  }

  /** A two-byte string that Atoi accepts is two ASCII characters forming a cents field. */
  lemma TwoByteAtoi(c: string)
    requires ByteLength(c) == 2 && Atoi(c).Some?
    ensures CentsPart(c)
  {
    assert SignedDigits(c);
    assert |c| == 2;
  }

  /** No sign anywhere: the amounts the points calculator can read. */
  predicate Unsigned(s: string) {
    '+' !in s && '-' !in s
  }

  /**
   * An unsigned amount `<digits>.<two digits>`: at least one digit, a '.', and
   * exactly two digits after it.
   */
  predicate CentsShape(s: string) {
    |s| >= 4 && s[|s| - 3] == '.' && AllDigits(s[..|s| - 3]) && AllDigits(s[|s| - 2..])
  }

  /**
   * The value in cents of an unsigned amount `<digits>.<two digits>`; None for
   * anything else.
   */
  function ParseCents(s: string): (r: Option<nat>)
    ensures r.Some? <==> CentsShape(s)
    ensures r.Some? ==> r.value / 100 == DigitsValue(s[..|s| - 3]) && r.value % 100 == DigitsValue(s[|s| - 2..])
  {
    if CentsShape(s) then Some(100 * DigitsValue(s[..|s| - 3]) + DigitsValue(s[|s| - 2..])) else None
  }

  /** Splitting at '.' finds the same two fields: a readable amount is two digit runs around its only '.'. */
  lemma CentsShapeBySplit(s: string)
    ensures var parts := Split(s, '.');
      CentsShape(s) <==> |parts| == 2 && |parts[0]| > 0 && AllDigits(parts[0]) && |parts[1]| == 2 && AllDigits(parts[1])
    ensures CentsShape(s) ==> Unsigned(s) && Split(s, '.') == [s[..|s| - 3], s[|s| - 2..]]
  {
    var parts := Split(s, '.');
    if CentsShape(s) {
      var left, right := s[..|s| - 3], s[|s| - 2..];
      assert forall k :: 0 <= k < |left| ==> IsAsciiDigit(left[k]);
      assert forall k :: 0 <= k < |right| ==> IsAsciiDigit(right[k]);
      assert '.' !in left && '.' !in right;
      SplitAtOnly(s, '.', |s| - 3);
      assert Unsigned(s) by {
        forall k | 0 <= k < |s| ensures s[k] != '+' && s[k] != '-' {
          if k < |left| { assert s[k] == left[k]; }
          else if k > |left| { assert s[k] == right[k - |left| - 1]; }
        }
      }
    }
    if |parts| == 2 && |parts[0]| > 0 && AllDigits(parts[0]) && |parts[1]| == 2 && AllDigits(parts[1]) {
      JoinSplit(s, '.');
      assert s == parts[0] + "." + parts[1];
      assert s[..|s| - 3] == parts[0] && s[|s| - 2..] == parts[1];
    }
  }

  /** The canonical rendering of an amount of cents: dollars without leading zeros, '.', two digits. */
  function FormatCents(cents: nat): (s: string)
  {
    NatToString(cents / 100) + "." + Pad(cents % 100, 2)
  }

  /** Formatting then reading gives back the cents, and the validator accepts the rendering. */
  lemma ParseFormatCents(cents: nat)
    requires cents / 100 <= MaxInt64
    ensures ParseCents(FormatCents(cents)) == Some(cents)
    ensures ValidateMoneyFormat(FormatCents(cents)).Pass?
  {
    ReadFormattedCents(cents);
    ParsedMoneyIsValid(FormatCents(cents));
  }

  lemma ReadFormattedCents(cents: nat)
    ensures ParseCents(FormatCents(cents)) == Some(cents)
  {
    FormatCentsPieces(cents);
    DigitsValueOfNatToString(cents / 100);
    DigitsValueOfPad(cents % 100, 2);
    ParseCentsOfPieces(FormatCents(cents), cents / 100, cents % 100);
  }

  lemma ParseCentsOfPieces(s: string, dollars: nat, fraction: nat)
    requires |s| >= 4 && s[|s| - 3] == '.' && AllDigits(s[..|s| - 3]) && AllDigits(s[|s| - 2..])
    requires DigitsValue(s[..|s| - 3]) == dollars && DigitsValue(s[|s| - 2..]) == fraction
    ensures ParseCents(s) == Some(100 * dollars + fraction)
  {
  }

  lemma FormatCentsPieces(cents: nat)
    ensures var s := FormatCents(cents);
      && |s| >= 4 && s[|s| - 3] == '.'
      && s[..|s| - 3] == NatToString(cents / 100) && s[|s| - 2..] == Pad(cents % 100, 2)
  {
  }

  /**
   * An unsigned amount the validator accepts is read by the calculator, and its
   * value is what Atoi makes of the dollars and of the cents.
   */
  lemma ValidUnsignedMoneyParses(s: string)
    requires ValidateMoneyFormat(s).Pass? && Unsigned(s)
    ensures var parts := Split(s, '.');
      ParseCents(s) == Some(100 * Atoi(parts[0]).value + Atoi(parts[1]).value)
  {
    var parts := Split(s, '.');
    MoneyShapeIffParts(s);
    UnsignedParts(s);
    TwoByteAtoi(parts[1]);
    CentsShapeBySplit(s);
  }

  /** The pieces of an unsigned amount are unsigned. */
  lemma UnsignedParts(s: string)
    requires Unsigned(s) && |Split(s, '.')| == 2
    ensures Unsigned(Split(s, '.')[0]) && Unsigned(Split(s, '.')[1])
  {
    var parts := Split(s, '.');
    JoinSplit(s, '.');
    assert s == parts[0] + "." + parts[1];
    assert forall k :: 0 <= k < |parts[0]| ==> parts[0][k] == s[k];
    assert forall k :: 0 <= k < |parts[1]| ==> parts[1][k] == s[|parts[0]| + 1 + k];
  }

  /** A readable amount whose dollars fit in an int64 passes the validator. */
  lemma ParsedMoneyIsValid(s: string)
    requires ParseCents(s).Some? && ParseCents(s).value / 100 <= MaxInt64
    ensures ValidateMoneyFormat(s).Pass?
  {
    CentsShapeBySplit(s);
    var parts := Split(s, '.');
    assert SignedDigits(parts[0]) by { assert IsAsciiDigit(parts[0][0]); }
    assert Atoi(parts[0]).Some?;
    CentsPartAccepted(parts[1]);
    MoneyShapeIffParts(s);
  }
}
