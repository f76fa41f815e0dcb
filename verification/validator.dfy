/**
 * `validateReceipt`: an ordered chain of checks over the raw receipt in which the
 * first failing check decides the error.
 */
module Validator {
  import opened Wrappers
  import opened Text
  import opened Clock
  import opened Money
  import opened Receipts

  /** The `Err*` values the chain returns, one per check. */
  datatype ValidationError =
    | MissingRequiredFields
    | InvalidRetailer
    | InvalidDate
    | InvalidTime
    | InvalidTotal
    | InvalidItemDescription
    | InvalidItemPrice

  /** Letters, digits, space, '-' and '&'. */
  predicate IsRetailerChar(c: char) {
    IsAsciiLetter(c) || IsAsciiDigit(c) || c == ' ' || c == '-' || c == '&'
  }

  /** Letters, digits, space and '-'; unlike the retailer, no '&'. */
  predicate IsDescriptionChar(c: char) {
    IsAsciiLetter(c) || IsAsciiDigit(c) || c == ' ' || c == '-'
  }

  predicate RetailerCharsOk(s: string) {
    forall i :: 0 <= i < |s| ==> IsRetailerChar(s[i])
  }

  predicate DescriptionCharsOk(s: string) {
    forall i :: 0 <= i < |s| ==> IsDescriptionChar(s[i])
  }

  /** Every required field is non-empty and there is at least one item. */
  predicate FieldsPresent(r: Receipt) {
    r.retailer != "" && r.purchaseDate != "" && r.purchaseTime != "" && |r.items| > 0 && r.total != ""
  }

  /** An item description that is not blank and uses only the description characters. */
  predicate DescriptionOk(d: string) {
    !AllSpace(d) && DescriptionCharsOk(d)
  }

  ghost predicate ItemValid(item: Item) {
    DescriptionOk(item.shortDescription) && MoneyShape(item.price)
  }

  /** Every check that comes before the item loop passes. */
  ghost predicate HeaderValid(r: Receipt) {
    && FieldsPresent(r)
    && RetailerCharsOk(r.retailer)
    && ParseDate(r.purchaseDate).Some?
    && ParseTime(r.purchaseTime).Some?
    && MoneyShape(r.total)
  }

  /** Item i is the first item of the list that fails its checks. */
  ghost predicate FirstBadItem(items: seq<Item>, i: int) {
    0 <= i < |items| && !ItemValid(items[i]) && forall j :: 0 <= j < i ==> ItemValid(items[j])
  }

  /** The checks of one item, in the loop body's order. */
  function CheckItem(item: Item): (res: Outcome<ValidationError>)
    ensures res.Pass? <==> ItemValid(item)
    ensures res == Fail(InvalidItemDescription) <==> !DescriptionOk(item.shortDescription)
    ensures res == Fail(InvalidItemPrice) <==> DescriptionOk(item.shortDescription) && !MoneyShape(item.price)
  {
    TrimSpaceSlice(item.shortDescription);
    if TrimSpace(item.shortDescription) == "" then Fail(InvalidItemDescription)
    else if !DescriptionCharsOk(item.shortDescription) then Fail(InvalidItemDescription)
    else if ValidateMoneyFormat(item.price).Fail? then Fail(InvalidItemPrice)
    else Pass
  }

  /** The item loop: the first item that fails decides the error. */
  function CheckItems(items: seq<Item>): (res: Outcome<ValidationError>)
    ensures res.Pass? <==> forall i :: 0 <= i < |items| ==> ItemValid(items[i])
    ensures res.Fail? ==> exists i :: FirstBadItem(items, i) && res == CheckItem(items[i])
  {
    if |items| == 0 then Pass
    else
      var head := CheckItem(items[0]);
      if head.Fail? then
        assert FirstBadItem(items, 0);
        head
      else
        var rest := CheckItems(items[1..]);
        if rest.Fail? then
          assert exists k :: FirstBadItem(items, k) && rest == CheckItem(items[k]) by {
            var i :| FirstBadItem(items[1..], i) && rest == CheckItem(items[1..][i]);
            forall j | 0 <= j < i + 1 ensures ItemValid(items[j]) {
              if j > 0 { assert items[j] == items[1..][j - 1]; }
            }
            assert FirstBadItem(items, i + 1);
          }
          rest
        else
          assert forall i :: 0 <= i < |items| ==> ItemValid(items[i]) by {
            forall i | 0 <= i < |items| ensures ItemValid(items[i]) {
              if i > 0 { assert items[i] == items[1..][i - 1]; }
            }
          }
          rest
  }

  /**
   * `validateReceipt`. Missing fields win over every other error, and the
   * receipt passes exactly when every check holds.
   */
  function ValidateReceipt(r: Receipt): (res: Outcome<ValidationError>)
    ensures !FieldsPresent(r) ==> res == Fail(MissingRequiredFields)
    ensures res.Pass? <==> HeaderValid(r) && forall i :: 0 <= i < |r.items| ==> ItemValid(r.items[i])
  {
    if r.retailer == "" || r.purchaseDate == "" || r.purchaseTime == "" || |r.items| == 0 || r.total == "" then
      Fail(MissingRequiredFields)
    else if !RetailerCharsOk(r.retailer) then Fail(InvalidRetailer)
    else if ParseDate(r.purchaseDate).None? then Fail(InvalidDate)
    else if ParseTime(r.purchaseTime).None? then Fail(InvalidTime)
    else if ValidateMoneyFormat(r.total).Fail? then Fail(InvalidTotal)
    else CheckItems(r.items)
  }

  /**
   * Which error the validator returns, for each error: that check fails and every
   * earlier check passes.
   */
  lemma ValidateReceiptFirstFailure(r: Receipt)
    ensures ValidateReceipt(r) == Fail(MissingRequiredFields) <==> !FieldsPresent(r)
    ensures ValidateReceipt(r) == Fail(InvalidRetailer) <==>
      FieldsPresent(r) && !RetailerCharsOk(r.retailer)
    ensures ValidateReceipt(r) == Fail(InvalidDate) <==>
      FieldsPresent(r) && RetailerCharsOk(r.retailer) && ParseDate(r.purchaseDate).None?
    ensures ValidateReceipt(r) == Fail(InvalidTime) <==>
      FieldsPresent(r) && RetailerCharsOk(r.retailer) && ParseDate(r.purchaseDate).Some?
      && ParseTime(r.purchaseTime).None?
    ensures ValidateReceipt(r) == Fail(InvalidTotal) <==>
      FieldsPresent(r) && RetailerCharsOk(r.retailer) && ParseDate(r.purchaseDate).Some?
      && ParseTime(r.purchaseTime).Some? && !MoneyShape(r.total)
    ensures ValidateReceipt(r) == Fail(InvalidItemDescription) <==>
      HeaderValid(r) && exists i :: FirstBadItem(r.items, i) && !DescriptionOk(r.items[i].shortDescription)
    ensures ValidateReceipt(r) == Fail(InvalidItemPrice) <==>
      HeaderValid(r) && exists i :: FirstBadItem(r.items, i) && DescriptionOk(r.items[i].shortDescription)
  {
    if HeaderValid(r) {
      var res := CheckItems(r.items);
      if res.Fail? {
        var i :| FirstBadItem(r.items, i) && res == CheckItem(r.items[i]);
        forall k | FirstBadItem(r.items, k) ensures k == i {
          FirstBadItemUnique(r.items, i, k);
        }
      }
    }
  }

  /** There is at most one first failing item. */
  lemma FirstBadItemUnique(items: seq<Item>, i: int, k: int)
    requires FirstBadItem(items, i) && FirstBadItem(items, k)
    ensures i == k
  {
  }
}
