/**
 * Where the unbounded score leaves Go's `int`: the calculator adds the rule
 * contributions in a 64-bit `points`, and a receipt the validator accepts can
 * carry prices large enough to push that sum past the int64 maximum.
 */
module Overflow {
  import opened Wrappers
  import opened Text
  import opened Numbers
  import opened Money
  import opened Receipts
  import opened Validator
  import opened Points
  import opened Bridge
  import opened Scenarios

  /** The largest unsigned price the validator accepts: int64-maximum dollars, no cents. */
  function MaxPrice(): (s: string)
    ensures ParseCents(s) == Some(MaxInt64 * 100)
    ensures ValidateMoneyFormat(s).Pass? && Unsigned(s)
  {
    var s := FormatCents(MaxInt64 * 100);
    ParseFormatCents(MaxInt64 * 100);
    CentsShapeBySplit(s);
    s
  }

  /**
   * A price text with MaxPrice's properties: unsigned, accepted, and int64-maximum
   * dollars. MaxPrice() satisfies it by its contract.
   */
  predicate LargestPrice(p: string) {
    ParseCents(p) == Some(MaxInt64 * 100) && ValidateMoneyFormat(p).Pass? && Unsigned(p)
  }

  /** Five "Item 1" items of price p. */
  function FiveItems(p: string): (items: seq<Item>)
    ensures |items| == 5 && forall i :: 0 <= i < |items| ==> items[i] == Item("Item 1", p)
  {
    seq(5, _ => Item("Item 1", p))
  }

  /** "Item 1" earns a fifth of its price under rule 5, rounded up. */
  lemma ItemOneEarnsFifth(d: string, cents: nat)
    requires d == "Item 1"
    ensures DescriptionOk(d)
    ensures DescriptionPoints(d, cents) == CeilFifth(cents)
  {
    ValidReceiptDescription(d);
    TrimSpaceOfTrimmed(d);
    ValidDescriptionLength(d);
  }

  /** Five copies of one valid item: each passes, and rule 5 pays five times its points. */
  lemma FiveValidItems(items: seq<Item>, d: string, p: string, cents: nat)
    requires |items| == 5 && forall i :: 0 <= i < |items| ==> items[i] == Item(d, p)
    requires DescriptionOk(d) && MoneyShape(p) && ParseCents(p) == Some(cents)
    ensures forall i :: 0 <= i < |items| ==> ItemValid(items[i])
    ensures PricesReadable(items)
    ensures ItemsPoints(items) == 5 * DescriptionPoints(d, cents)
  {
    var k := DescriptionPoints(d, cents);
    var points := seq(5, _ => k);
    forall i | 0 <= i < |items|
      ensures ItemPoints(items[i]) == points[i]
    {
      assert items[i] == Item(d, p);
    }
    ItemsPointsOfSum(items, points);
    SumOfCopies(k, 5);
  }

  lemma {:induction false} SumOfCopies(k: nat, n: nat)
    ensures Sum(seq(n, _ => k)) == n * k
  {
    if n > 0 {
      assert seq(n, _ => k)[..n - 1] == seq(n - 1, _ => k);
      SumOfCopies(k, n - 1);
    }
  }

  /** Five fifths of the largest price, each rounded up, pass the int64 maximum. */
  lemma FiveFifthsOfMaxPrice()
    ensures 5 * CeilFifth(MaxInt64 * 100) > MaxInt64
  {
  }

  /**
   * Any valid header with five valid items of the largest price, each earning a
   * fifth of it, passes the validator and scores past the int64 maximum.
   */
  lemma LargestItemsOverflow(r: Receipt, d: string, p: string)
    requires HeaderValid(r) && Unsigned(r.total) && LargestPrice(p)
    requires DescriptionOk(d) && DescriptionPoints(d, MaxInt64 * 100) == CeilFifth(MaxInt64 * 100)
    requires |r.items| == 5 && forall i :: 0 <= i < |r.items| ==> r.items[i] == Item(d, p)
    ensures ValidateReceipt(r).Pass? && AmountsUnsigned(r)
    ensures Scorable(r) && Score(r) > MaxInt64
  {
    FiveValidItems(r.items, d, p, MaxInt64 * 100);
    assert AmountsUnsigned(r);
    ValidatedReceiptIsScorable(r);
    FiveFifthsOfMaxPrice();
  }

  /**
   * The handler test's receipt with five items of the largest price: it passes
   * the validator and its amounts are unsigned, yet its score exceeds the int64
   * maximum, so Go's `points` wraps on it while the model's score does not.
   */
  lemma ScoreExceedsInt64(r: Receipt, p: string)
    requires HandlerReceipt(r) && LargestPrice(p)
    ensures var huge := r.(items := FiveItems(p));
      && ValidateReceipt(huge).Pass? && AmountsUnsigned(huge)
      && Scorable(huge) && Score(huge) > MaxInt64
  {
    var huge := r.(items := FiveItems(p));
    HandlerHeader(r, huge);
    ItemOneEarnsFifth("Item 1", MaxInt64 * 100);
    LargestItemsOverflow(huge, "Item 1", p);
  }

  /** The handler test's header stays valid, and its total unsigned, under other items. */
  lemma HandlerHeader(r: Receipt, s: Receipt)
    requires HandlerReceipt(r)
    requires s.retailer == r.retailer && s.purchaseDate == r.purchaseDate && s.purchaseTime == r.purchaseTime
    requires s.total == r.total && |s.items| > 0
    ensures HeaderValid(s) && Unsigned(s.total)
  {
    ValidReceiptHeader(s);
  }
}
