/**
 * How the validator and the calculator fit together: a receipt the validator
 * accepts and whose amounts carry no sign is one the calculator reads in full.
 */
module Bridge {
  import opened Text
  import opened Money
  import opened Receipts
  import opened Validator
  import opened Points

  /** Every amount on the receipt is free of '+' and '-'. */
  predicate AmountsUnsigned(r: Receipt) {
    Unsigned(r.total) && forall i :: 0 <= i < |r.items| ==> Unsigned(r.items[i].price)
  }

  /**
   * A validated receipt with unsigned amounts is scorable, so `CalculatePoints`
   * applies to it. Its result equals `Score(r)`, a natural number, so the score is
   * at least zero. The substance here is `Scorable(r)`.
   */
  lemma ValidatedReceiptIsScorable(r: Receipt)
    requires ValidateReceipt(r).Pass? && AmountsUnsigned(r)
    ensures Scorable(r)
    ensures Score(r) >= 0
  {
    ValidateReceiptFirstFailure(r);
    MoneyShapeIffParts(r.total);
    ValidUnsignedMoneyParses(r.total);
    forall i | 0 <= i < |r.items|
      ensures ParseCents(r.items[i].price).Some?
    {
      assert CheckItems(r.items).Pass?;
      assert ItemValid(r.items[i]);
      ValidUnsignedMoneyParses(r.items[i].price);
    }
  }

  /**
   * On a validated description rule 5's byte length is the character count of
   * the trimmed text, since every allowed character is ASCII.
   */
  lemma ValidDescriptionLength(d: string)
    requires DescriptionCharsOk(d)
    ensures ByteLength(TrimSpace(d)) == |TrimSpace(d)|
  {
    var t := TrimSpace(d);
    TrimSpaceSlice(d);
    var i, j :| 0 <= i <= j <= |d| && t == d[i..j] && AllSpace(d[..i]) && AllSpace(d[j..]);
    DescriptionCharsOfSlice(d, i, j);
    DescriptionCharsAreAscii(t);
    ByteLengthOfAscii(t);
  }

  lemma DescriptionCharsOfSlice(d: string, i: nat, j: nat)
    requires DescriptionCharsOk(d) && i <= j <= |d|
    ensures DescriptionCharsOk(d[i..j])
  {
    assert forall k :: 0 <= k < j - i ==> d[i..j][k] == d[i + k];
  }

  lemma DescriptionCharsAreAscii(s: string)
    requires DescriptionCharsOk(s)
    ensures forall k :: 0 <= k < |s| ==> s[k] as int < 0x80
  {
  }
}
