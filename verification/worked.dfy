/**
 * The six worked receipts of the calculator's test table, scored by the model.
 *
 * Each lemma takes the receipt, item or field as a parameter equal to the test's
 * literal, so that the solver reasons about it through the general lemmas of the
 * model (round trips, trimming, the rule-5 step) rather than by evaluating the
 * parsers on long literal strings.
 */
module WorkedTotals {
  import opened Wrappers
  import opened Text
  import opened Numbers
  import opened Clock
  import opened Money
  import opened Receipts
  import opened Validator
  import opened Points
  import opened Bridge
  import opened Scenarios

  /** A description with no white space at either end and only validator-approved characters. */
  predicate Plain(d: string) {
    |d| > 0 && !IsSpace(d[0]) && !IsSpace(d[|d| - 1]) && DescriptionCharsOk(d)
  }

  /** Rule 5 on a description whose trimmed text is plain: the trimmed length alone decides. */
  lemma DescriptionPointsOfTrimmed(d: string, core: string, length: nat, cents: nat)
    requires TrimSpace(d) == core && Plain(core) && |core| == length
    ensures DescriptionPoints(d, cents) == if length % 3 == 0 then CeilFifth(cents) else 0
  {
    ValidDescriptionLength(core);
    TrimSpaceOfTrimmed(core);
  }

  /** An amount the calculator reads, from its canonical rendering. */
  lemma CentsOf(s: string, cents: nat)
    requires cents / 100 <= MaxInt64 && FormatCents(cents) == s
    ensures ParseCents(s) == Some(cents)
  {
    ParseFormatCents(cents);
  }

  /** Rule 5 over the first item alone. */
  lemma FirstItemPoints(items: seq<Item>, cents: nat, points: nat)
    requires |items| > 0 && ParseCents(items[0].price) == Some(cents)
    requires DescriptionPoints(items[0].shortDescription, cents) == points
    ensures PricesReadable(items[..1]) && ItemsPoints(items[..1]) == points
  {
    var first := items[..1];
    assert first == [items[0]] && first[..0] == [];
  }

  /** Rule 5 over the first k + 1 items, from the points of item k. */
  lemma ItemsPointsStep(items: seq<Item>, k: nat, before: nat, cents: nat, points: nat)
    requires k < |items| && PricesReadable(items[..k]) && ItemsPoints(items[..k]) == before
    requires ParseCents(items[k].price) == Some(cents)
    requires DescriptionPoints(items[k].shortDescription, cents) == points
    ensures PricesReadable(items[..k + 1]) && ItemsPoints(items[..k + 1]) == before + points
  {
    ItemsPointsSnoc(items, k);
    PricesReadableSnoc(items, k);
  }

  /** The score of a receipt from its parsed fields and its items' rule-5 points. */
  lemma ScoreOf(r: Receipt, total: nat, d: Date, t: TimeOfDay, itemPoints: nat)
    requires ParseCents(r.total) == Some(total) && ParseDate(r.purchaseDate) == Some(d)
    requires ParseTime(r.purchaseTime) == Some(t)
    requires PricesReadable(r.items) && ItemsPoints(r.items) == itemPoints
    ensures Scorable(r)
    ensures Score(r) == AlnumCount(r.retailer) + RoundDollarPoints(total) + QuarterPoints(total)
      + ItemPairPoints(|r.items|) + itemPoints + OddDayPoints(d) + AfternoonPoints(t)
  {
  }

  // ---------------------------------------------------------------- Target

  lemma Date20220101(s: string)
    requires s == "2022-01-01"
    ensures ParseDate(s) == Some(Date(2022, 1, 1))
  {
    DateOfFields(s, Date(2022, 1, 1));
  }

  lemma Time1301(s: string)
    requires s == "13:01"
    ensures ParseTime(s) == Some(TimeOfDay(13, 1))
  {
    TimeOf(s, TimeOfDay(13, 1));
  }

  lemma Price35_35(s: string)
    requires s == "35.35"
    ensures ParseCents(s) == Some(3535)
  {
    CentsOf(s, 3535);
  }

  lemma Price6_49(s: string)
    requires s == "6.49"
    ensures ParseCents(s) == Some(649)
  {
    CentsOf(s, 649);
  }

  lemma MountainDewPlain()
    ensures Plain("Mountain Dew 12PK")
  {
  }

  lemma MountainDewPoints(d: string)
    requires TrimSpace(d) == "Mountain Dew 12PK"
    ensures DescriptionPoints(d, 649) == 0
  {
    MountainDewPlain();
    DescriptionPointsOfTrimmed(d, "Mountain Dew 12PK", 17, 649);
  }

  /** 649 cents; the description has 17 characters, not a multiple of 3. */
  lemma MountainDew(d: string, p: string)
    requires d == "Mountain Dew 12PK" && p == "6.49"
    ensures ParseCents(p) == Some(649)
    ensures DescriptionPoints(d, 649) == 0
  {
    Price6_49(p);
    MountainDewPlain();
    TrimSpaceOfTrimmed(d);
    MountainDewPoints(d);
  }

  lemma Price12_25(s: string)
    requires s == "12.25"
    ensures ParseCents(s) == Some(1225)
  {
    CentsOf(s, 1225);
  }

  lemma EmilsPizzaPlain()
    ensures Plain("Emils Cheese Pizza")
  {
  }

  lemma EmilsPizzaPoints(d: string)
    requires TrimSpace(d) == "Emils Cheese Pizza"
    ensures DescriptionPoints(d, 1225) == 3
  {
    EmilsPizzaPlain();
    DescriptionPointsOfTrimmed(d, "Emils Cheese Pizza", 18, 1225);
  }

  /** 1225 cents; the description has 18 characters, a multiple of 3, so it earns ceil(12.25 * 0.2) = 3. */
  lemma EmilsPizza(d: string, p: string)
    requires d == "Emils Cheese Pizza" && p == "12.25"
    ensures ParseCents(p) == Some(1225)
    ensures DescriptionPoints(d, 1225) == 3
  {
    Price12_25(p);
    EmilsPizzaPlain();
    TrimSpaceOfTrimmed(d);
    EmilsPizzaPoints(d);
  }

  lemma Price1_26(s: string)
    requires s == "1.26"
    ensures ParseCents(s) == Some(126)
  {
    CentsOf(s, 126);
  }

  lemma KnorrChickenPlain()
    ensures Plain("Knorr Creamy Chicken")
  {
  }

  lemma KnorrChickenPoints(d: string)
    requires TrimSpace(d) == "Knorr Creamy Chicken"
    ensures DescriptionPoints(d, 126) == 0
  {
    KnorrChickenPlain();
    DescriptionPointsOfTrimmed(d, "Knorr Creamy Chicken", 20, 126);
  }

  /** 126 cents; the description has 20 characters, not a multiple of 3. */
  lemma KnorrChicken(d: string, p: string)
    requires d == "Knorr Creamy Chicken" && p == "1.26"
    ensures ParseCents(p) == Some(126)
    ensures DescriptionPoints(d, 126) == 0
  {
    Price1_26(p);
    KnorrChickenPlain();
    TrimSpaceOfTrimmed(d);
    KnorrChickenPoints(d);
  }

  lemma Price3_35(s: string)
    requires s == "3.35"
    ensures ParseCents(s) == Some(335)
  {
    CentsOf(s, 335);
  }

  lemma DoritosNachoPlain()
    ensures Plain("Doritos Nacho Cheese")
  {
  }

  lemma DoritosNachoPoints(d: string)
    requires TrimSpace(d) == "Doritos Nacho Cheese"
    ensures DescriptionPoints(d, 335) == 0
  {
    DoritosNachoPlain();
    DescriptionPointsOfTrimmed(d, "Doritos Nacho Cheese", 20, 335);
  }

  /** 335 cents; the description has 20 characters, not a multiple of 3. */
  lemma DoritosNacho(d: string, p: string)
    requires d == "Doritos Nacho Cheese" && p == "3.35"
    ensures ParseCents(p) == Some(335)
    ensures DescriptionPoints(d, 335) == 0
  {
    Price3_35(p);
    DoritosNachoPlain();
    TrimSpaceOfTrimmed(d);
    DoritosNachoPoints(d);
  }

  lemma Price12_00(s: string)
    requires s == "12.00"
    ensures ParseCents(s) == Some(1200)
  {
    CentsOf(s, 1200);
  }

  lemma KlarbrunnPlain()
    ensures Plain("Klarbrunn 12-PK 12 FL OZ")
  {
  }

  /** The description is the text between three blanks and two blanks. */
  lemma KlarbrunnPadded(d: string)
    requires d == "   Klarbrunn 12-PK 12 FL OZ  "
    ensures d == "   " + "Klarbrunn 12-PK 12 FL OZ" + "  "
  {
  }

  /** Leading and trailing blanks are trimmed before the length is taken. */
  lemma KlarbrunnTrimmed(d: string)
    requires d == "   Klarbrunn 12-PK 12 FL OZ  "
    ensures TrimSpace(d) == "Klarbrunn 12-PK 12 FL OZ"
  {
    KlarbrunnPadded(d);
    assert AllSpace("   ") && AllSpace("  ");
    KlarbrunnPlain();
    TrimSpaceOfPadded("   ", "Klarbrunn 12-PK 12 FL OZ", "  ");
  }

  lemma KlarbrunnPoints(d: string)
    requires TrimSpace(d) == "Klarbrunn 12-PK 12 FL OZ"
    ensures DescriptionPoints(d, 1200) == 3
  {
    KlarbrunnPlain();
    DescriptionPointsOfTrimmed(d, "Klarbrunn 12-PK 12 FL OZ", 24, 1200);
  }

  /** 1200 cents; the description has 24 characters once trimmed, a multiple of 3, so it earns ceil(12.00 * 0.2) = 3. */
  lemma Klarbrunn(d: string, p: string)
    requires d == "   Klarbrunn 12-PK 12 FL OZ  " && p == "12.00"
    ensures ParseCents(p) == Some(1200)
    ensures DescriptionPoints(d, 1200) == 3
  {
    Price12_00(p);
    KlarbrunnTrimmed(d);
    KlarbrunnPoints(d);
  }

  /** The test's items, one by one. */
  predicate TargetItemList(items: seq<Item>) {
    && |items| == 5
    && items[0].shortDescription == "Mountain Dew 12PK" && items[0].price == "6.49"
    && items[1].shortDescription == "Emils Cheese Pizza" && items[1].price == "12.25"
    && items[2].shortDescription == "Knorr Creamy Chicken" && items[2].price == "1.26"
    && items[3].shortDescription == "Doritos Nacho Cheese" && items[3].price == "3.35"
    && items[4].shortDescription == "   Klarbrunn 12-PK 12 FL OZ  " && items[4].price == "12.00"
  }

  /** The test's receipt, field by field. */
  predicate TargetReceipt(r: Receipt) {
    && r.retailer == "Target" && r.purchaseDate == "2022-01-01" && r.purchaseTime == "13:01" && r.total == "35.35"
    && TargetItemList(r.items)
  }

  lemma TargetItems1(items: seq<Item>)
    requires TargetItemList(items)
    ensures PricesReadable(items[..1]) && ItemsPoints(items[..1]) == 0
  {
    MountainDew(items[0].shortDescription, items[0].price);
    FirstItemPoints(items, 649, 0);
  }

  lemma TargetItems2(items: seq<Item>)
    requires TargetItemList(items)
    ensures PricesReadable(items[..2]) && ItemsPoints(items[..2]) == 3
  {
    EmilsPizza(items[1].shortDescription, items[1].price);
    TargetItems1(items);
    ItemsPointsStep(items, 1, 0, 1225, 3);
  }

  lemma TargetItems3(items: seq<Item>)
    requires TargetItemList(items)
    ensures PricesReadable(items[..3]) && ItemsPoints(items[..3]) == 3
  {
    KnorrChicken(items[2].shortDescription, items[2].price);
    TargetItems2(items);
    ItemsPointsStep(items, 2, 3, 126, 0);
  }

  lemma TargetItems4(items: seq<Item>)
    requires TargetItemList(items)
    ensures PricesReadable(items[..4]) && ItemsPoints(items[..4]) == 3
  {
    DoritosNacho(items[3].shortDescription, items[3].price);
    TargetItems3(items);
    ItemsPointsStep(items, 3, 3, 335, 0);
  }

  lemma TargetItems5(items: seq<Item>)
    requires TargetItemList(items)
    ensures PricesReadable(items[..5]) && ItemsPoints(items[..5]) == 6
  {
    Klarbrunn(items[4].shortDescription, items[4].price);
    TargetItems4(items);
    ItemsPointsStep(items, 4, 3, 1200, 3);
  }

  lemma TargetItems(items: seq<Item>)
    requires TargetItemList(items)
    ensures PricesReadable(items) && ItemsPoints(items) == 6
  {
    TargetItems5(items);
    assert items[..5] == items;
  }

  /** Rules 2, 3, 4, 6 and 7 on the parsed total, item count, date and time. */
  lemma TargetRuleValues()
    ensures RoundDollarPoints(3535) + QuarterPoints(3535) + ItemPairPoints(5)
      + OddDayPoints(Date(2022, 1, 1)) + AfternoonPoints(TimeOfDay(13, 1)) == 16
  {
  }

  /** 6 for the retailer, 10 for five items, 3 + 3 for the descriptions of length 18 and 24 (after trimming), 6 for the odd day: 28 points. */
  lemma TargetScore(r: Receipt)
    requires TargetReceipt(r)
    ensures Scorable(r) && Score(r) == 28
  {
    Price35_35(r.total);
    TargetItems(r.items);
    Date20220101(r.purchaseDate);
    Time1301(r.purchaseTime);
    CountTarget();
    TargetRuleValues();
    ScoreOf(r, 3535, Date(2022, 1, 1), TimeOfDay(13, 1), 6);
  }

  // ---------------------------------------------------------------- CornerMarket

  lemma Date20220320(s: string)
    requires s == "2022-03-20"
    ensures ParseDate(s) == Some(Date(2022, 3, 20))
  {
    DateOfFields(s, Date(2022, 3, 20));
  }

  lemma Time1433(s: string)
    requires s == "14:33"
    ensures ParseTime(s) == Some(TimeOfDay(14, 33))
  {
    TimeOf(s, TimeOfDay(14, 33));
  }

  lemma Price9_00(s: string)
    requires s == "9.00"
    ensures ParseCents(s) == Some(900)
  {
    CentsOf(s, 900);
  }

  lemma Price2_25(s: string)
    requires s == "2.25"
    ensures ParseCents(s) == Some(225)
  {
    CentsOf(s, 225);
  }

  lemma GatoradePlain()
    ensures Plain("Gatorade")
  {
  }

  lemma GatoradePoints(d: string)
    requires TrimSpace(d) == "Gatorade"
    ensures DescriptionPoints(d, 225) == 0
  {
    GatoradePlain();
    DescriptionPointsOfTrimmed(d, "Gatorade", 8, 225);
  }

  /** 225 cents; the description has 8 characters, not a multiple of 3. */
  lemma Gatorade(d: string, p: string)
    requires d == "Gatorade" && p == "2.25"
    ensures ParseCents(p) == Some(225)
    ensures DescriptionPoints(d, 225) == 0
  {
    Price2_25(p);
    GatoradePlain();
    TrimSpaceOfTrimmed(d);
    GatoradePoints(d);
  }

  /** The test's items, one by one. */
  predicate CornerMarketItemList(items: seq<Item>) {
    && |items| == 4
    && items[0].shortDescription == "Gatorade" && items[0].price == "2.25"
    && items[1].shortDescription == "Gatorade" && items[1].price == "2.25"
    && items[2].shortDescription == "Gatorade" && items[2].price == "2.25"
    && items[3].shortDescription == "Gatorade" && items[3].price == "2.25"
  }

  /** The test's receipt, field by field. */
  predicate CornerMarketReceipt(r: Receipt) {
    && r.retailer == "M&M Corner Market" && r.purchaseDate == "2022-03-20" && r.purchaseTime == "14:33" && r.total == "9.00"
    && CornerMarketItemList(r.items)
  }

  lemma CornerMarketItems1(items: seq<Item>)
    requires CornerMarketItemList(items)
    ensures PricesReadable(items[..1]) && ItemsPoints(items[..1]) == 0
  {
    Gatorade(items[0].shortDescription, items[0].price);
    FirstItemPoints(items, 225, 0);
  }

  lemma CornerMarketItems2(items: seq<Item>)
    requires CornerMarketItemList(items)
    ensures PricesReadable(items[..2]) && ItemsPoints(items[..2]) == 0
  {
    Gatorade(items[1].shortDescription, items[1].price);
    CornerMarketItems1(items);
    ItemsPointsStep(items, 1, 0, 225, 0);
  }

  lemma CornerMarketItems3(items: seq<Item>)
    requires CornerMarketItemList(items)
    ensures PricesReadable(items[..3]) && ItemsPoints(items[..3]) == 0
  {
    Gatorade(items[2].shortDescription, items[2].price);
    CornerMarketItems2(items);
    ItemsPointsStep(items, 2, 0, 225, 0);
  }

  lemma CornerMarketItems4(items: seq<Item>)
    requires CornerMarketItemList(items)
    ensures PricesReadable(items[..4]) && ItemsPoints(items[..4]) == 0
  {
    Gatorade(items[3].shortDescription, items[3].price);
    CornerMarketItems3(items);
    ItemsPointsStep(items, 3, 0, 225, 0);
  }

  lemma CornerMarketItems(items: seq<Item>)
    requires CornerMarketItemList(items)
    ensures PricesReadable(items) && ItemsPoints(items) == 0
  {
    CornerMarketItems4(items);
    assert items[..4] == items;
  }

  /** Rules 2, 3, 4, 6 and 7 on the parsed total, item count, date and time. */
  lemma CornerMarketRuleValues()
    ensures RoundDollarPoints(900) + QuarterPoints(900) + ItemPairPoints(4)
      + OddDayPoints(Date(2022, 3, 20)) + AfternoonPoints(TimeOfDay(14, 33)) == 95
  {
  }

  /** 14 for the retailer, 50 + 25 for the round total, 10 for four items, 10 for 14:33: 109 points. */
  lemma CornerMarketScore(r: Receipt)
    requires CornerMarketReceipt(r)
    ensures Scorable(r) && Score(r) == 109
  {
    Price9_00(r.total);
    CornerMarketItems(r.items);
    Date20220320(r.purchaseDate);
    Time1433(r.purchaseTime);
    CountCornerMarket(r.retailer);
    CornerMarketRuleValues();
    ScoreOf(r, 900, Date(2022, 3, 20), TimeOfDay(14, 33), 0);
  }

  // ---------------------------------------------------------------- RoundDollar

  lemma CountAbc()
    ensures AlnumCount("ABC") == 3
  {
  }

  lemma Date20220102(s: string)
    requires s == "2022-01-02"
    ensures ParseDate(s) == Some(Date(2022, 1, 2))
  {
    DateOfFields(s, Date(2022, 1, 2));
  }

  lemma Time1200(s: string)
    requires s == "12:00"
    ensures ParseTime(s) == Some(TimeOfDay(12, 0))
  {
    TimeOf(s, TimeOfDay(12, 0));
  }

  lemma Price10_00(s: string)
    requires s == "10.00"
    ensures ParseCents(s) == Some(1000)
  {
    CentsOf(s, 1000);
  }

  lemma TenDollarItemPlain()
    ensures Plain("Item")
  {
  }

  lemma TenDollarItemPoints(d: string)
    requires TrimSpace(d) == "Item"
    ensures DescriptionPoints(d, 1000) == 0
  {
    TenDollarItemPlain();
    DescriptionPointsOfTrimmed(d, "Item", 4, 1000);
  }

  /** 1000 cents; the description has 4 characters, not a multiple of 3. */
  lemma TenDollarItem(d: string, p: string)
    requires d == "Item" && p == "10.00"
    ensures ParseCents(p) == Some(1000)
    ensures DescriptionPoints(d, 1000) == 0
  {
    Price10_00(p);
    TenDollarItemPlain();
    TrimSpaceOfTrimmed(d);
    TenDollarItemPoints(d);
  }

  /** The test's items, one by one. */
  predicate RoundDollarItemList(items: seq<Item>) {
    && |items| == 1
    && items[0].shortDescription == "Item" && items[0].price == "10.00"
  }

  /** The test's receipt, field by field. */
  predicate RoundDollarReceipt(r: Receipt) {
    && r.retailer == "ABC" && r.purchaseDate == "2022-01-02" && r.purchaseTime == "12:00" && r.total == "10.00"
    && RoundDollarItemList(r.items)
  }

  lemma RoundDollarItems1(items: seq<Item>)
    requires RoundDollarItemList(items)
    ensures PricesReadable(items[..1]) && ItemsPoints(items[..1]) == 0
  {
    TenDollarItem(items[0].shortDescription, items[0].price);
    FirstItemPoints(items, 1000, 0);
  }

  lemma RoundDollarItems(items: seq<Item>)
    requires RoundDollarItemList(items)
    ensures PricesReadable(items) && ItemsPoints(items) == 0
  {
    RoundDollarItems1(items);
    assert items[..1] == items;
  }

  /** Rules 2, 3, 4, 6 and 7 on the parsed total, item count, date and time. */
  lemma RoundDollarRuleValues()
    ensures RoundDollarPoints(1000) + QuarterPoints(1000) + ItemPairPoints(1)
      + OddDayPoints(Date(2022, 1, 2)) + AfternoonPoints(TimeOfDay(12, 0)) == 75
  {
  }

  /** 3 for the retailer and 50 + 25 for the round total: 78 points. */
  lemma RoundDollarScore(r: Receipt)
    requires RoundDollarReceipt(r)
    ensures Scorable(r) && Score(r) == 78
  {
    Price10_00(r.total);
    RoundDollarItems(r.items);
    Date20220102(r.purchaseDate);
    Time1200(r.purchaseTime);
    CountAbc();
    RoundDollarRuleValues();
    ScoreOf(r, 1000, Date(2022, 1, 2), TimeOfDay(12, 0), 0);
  }

  // ---------------------------------------------------------------- Quarter

  lemma CountXyz()
    ensures AlnumCount("XYZ") == 3
  {
  }

  lemma Date20220103(s: string)
    requires s == "2022-01-03"
    ensures ParseDate(s) == Some(Date(2022, 1, 3))
  {
    DateOfFields(s, Date(2022, 1, 3));
  }

  lemma Time1530(s: string)
    requires s == "15:30"
    ensures ParseTime(s) == Some(TimeOfDay(15, 30))
  {
    TimeOf(s, TimeOfDay(15, 30));
  }

  lemma Price10_50(s: string)
    requires s == "10.50"
    ensures ParseCents(s) == Some(1050)
  {
    CentsOf(s, 1050);
  }

  lemma Price5_25(s: string)
    requires s == "5.25"
    ensures ParseCents(s) == Some(525)
  {
    CentsOf(s, 525);
  }

  lemma ItemOnePlain()
    ensures Plain("Item 1")
  {
  }

  lemma ItemOnePoints(d: string)
    requires TrimSpace(d) == "Item 1"
    ensures DescriptionPoints(d, 525) == 2
  {
    ItemOnePlain();
    DescriptionPointsOfTrimmed(d, "Item 1", 6, 525);
  }

  /** 525 cents; the description has 6 characters, a multiple of 3, so it earns ceil(5.25 * 0.2) = 2. */
  lemma ItemOne(d: string, p: string)
    requires d == "Item 1" && p == "5.25"
    ensures ParseCents(p) == Some(525)
    ensures DescriptionPoints(d, 525) == 2
  {
    Price5_25(p);
    ItemOnePlain();
    TrimSpaceOfTrimmed(d);
    ItemOnePoints(d);
  }

  lemma ItemTwoPlain()
    ensures Plain("Item 2")
  {
  }

  lemma ItemTwoPoints(d: string)
    requires TrimSpace(d) == "Item 2"
    ensures DescriptionPoints(d, 525) == 2
  {
    ItemTwoPlain();
    DescriptionPointsOfTrimmed(d, "Item 2", 6, 525);
  }

  /** 525 cents; the description has 6 characters, a multiple of 3, so it earns ceil(5.25 * 0.2) = 2. */
  lemma ItemTwo(d: string, p: string)
    requires d == "Item 2" && p == "5.25"
    ensures ParseCents(p) == Some(525)
    ensures DescriptionPoints(d, 525) == 2
  {
    Price5_25(p);
    ItemTwoPlain();
    TrimSpaceOfTrimmed(d);
    ItemTwoPoints(d);
  }

  /** The test's items, one by one. */
  predicate QuarterItemList(items: seq<Item>) {
    && |items| == 2
    && items[0].shortDescription == "Item 1" && items[0].price == "5.25"
    && items[1].shortDescription == "Item 2" && items[1].price == "5.25"
  }

  /** The test's receipt, field by field. */
  predicate QuarterReceipt(r: Receipt) {
    && r.retailer == "XYZ" && r.purchaseDate == "2022-01-03" && r.purchaseTime == "15:30" && r.total == "10.50"
    && QuarterItemList(r.items)
  }

  lemma QuarterItems1(items: seq<Item>)
    requires QuarterItemList(items)
    ensures PricesReadable(items[..1]) && ItemsPoints(items[..1]) == 2
  {
    ItemOne(items[0].shortDescription, items[0].price);
    FirstItemPoints(items, 525, 2);
  }

  lemma QuarterItems2(items: seq<Item>)
    requires QuarterItemList(items)
    ensures PricesReadable(items[..2]) && ItemsPoints(items[..2]) == 4
  {
    ItemTwo(items[1].shortDescription, items[1].price);
    QuarterItems1(items);
    ItemsPointsStep(items, 1, 2, 525, 2);
  }

  lemma QuarterItems(items: seq<Item>)
    requires QuarterItemList(items)
    ensures PricesReadable(items) && ItemsPoints(items) == 4
  {
    QuarterItems2(items);
    assert items[..2] == items;
  }

  /** Rules 2, 3, 4, 6 and 7 on the parsed total, item count, date and time. */
  lemma QuarterRuleValues()
    ensures RoundDollarPoints(1050) + QuarterPoints(1050) + ItemPairPoints(2)
      + OddDayPoints(Date(2022, 1, 3)) + AfternoonPoints(TimeOfDay(15, 30)) == 46
  {
  }

  /** 3 for the retailer, 25 for a multiple of 0.25, 5 for two items, 2 + 2 for the descriptions of length 6, 6 for the odd day, 10 for 15:30: 53 points. */
  lemma QuarterScore(r: Receipt)
    requires QuarterReceipt(r)
    ensures Scorable(r) && Score(r) == 53
  {
    Price10_50(r.total);
    QuarterItems(r.items);
    Date20220103(r.purchaseDate);
    Time1530(r.purchaseTime);
    CountXyz();
    QuarterRuleValues();
    ScoreOf(r, 1050, Date(2022, 1, 3), TimeOfDay(15, 30), 4);
  }

  // ---------------------------------------------------------------- Shop123

  lemma CountShop123()
    ensures AlnumCount("Shop123") == 7
  {
  }

  lemma Price1_00(s: string)
    requires s == "1.00"
    ensures ParseCents(s) == Some(100)
  {
    CentsOf(s, 100);
  }

  lemma OneDollarItemPlain()
    ensures Plain("Item")
  {
  }

  lemma OneDollarItemPoints(d: string)
    requires TrimSpace(d) == "Item"
    ensures DescriptionPoints(d, 100) == 0
  {
    OneDollarItemPlain();
    DescriptionPointsOfTrimmed(d, "Item", 4, 100);
  }

  /** 100 cents; the description has 4 characters, not a multiple of 3. */
  lemma OneDollarItem(d: string, p: string)
    requires d == "Item" && p == "1.00"
    ensures ParseCents(p) == Some(100)
    ensures DescriptionPoints(d, 100) == 0
  {
    Price1_00(p);
    OneDollarItemPlain();
    TrimSpaceOfTrimmed(d);
    OneDollarItemPoints(d);
  }

  /** The test's items, one by one. */
  predicate Shop123ItemList(items: seq<Item>) {
    && |items| == 1
    && items[0].shortDescription == "Item" && items[0].price == "1.00"
  }

  /** The test's receipt, field by field. */
  predicate Shop123Receipt(r: Receipt) {
    && r.retailer == "Shop123" && r.purchaseDate == "2022-01-01" && r.purchaseTime == "12:00" && r.total == "1.00"
    && Shop123ItemList(r.items)
  }

  lemma Shop123Items1(items: seq<Item>)
    requires Shop123ItemList(items)
    ensures PricesReadable(items[..1]) && ItemsPoints(items[..1]) == 0
  {
    OneDollarItem(items[0].shortDescription, items[0].price);
    FirstItemPoints(items, 100, 0);
  }

  lemma Shop123Items(items: seq<Item>)
    requires Shop123ItemList(items)
    ensures PricesReadable(items) && ItemsPoints(items) == 0
  {
    Shop123Items1(items);
    assert items[..1] == items;
  }

  /** Rules 2, 3, 4, 6 and 7 on the parsed total, item count, date and time. */
  lemma Shop123RuleValues()
    ensures RoundDollarPoints(100) + QuarterPoints(100) + ItemPairPoints(1)
      + OddDayPoints(Date(2022, 1, 1)) + AfternoonPoints(TimeOfDay(12, 0)) == 81
  {
  }

  /** 7 for the retailer, 50 + 25 for the round total, 6 for the odd day: 88 points. */
  lemma Shop123Score(r: Receipt)
    requires Shop123Receipt(r)
    ensures Scorable(r) && Score(r) == 88
  {
    Price1_00(r.total);
    Shop123Items(r.items);
    Date20220101(r.purchaseDate);
    Time1200(r.purchaseTime);
    CountShop123();
    Shop123RuleValues();
    ScoreOf(r, 100, Date(2022, 1, 1), TimeOfDay(12, 0), 0);
  }

  // ---------------------------------------------------------------- MultipleOfThree

  lemma Price7_00(s: string)
    requires s == "7.00"
    ensures ParseCents(s) == Some(700)
  {
    CentsOf(s, 700);
  }

  lemma GumPlain()
    ensures Plain("Gum")
  {
  }

  lemma GumPoints(d: string)
    requires TrimSpace(d) == "Gum"
    ensures DescriptionPoints(d, 225) == 1
  {
    GumPlain();
    DescriptionPointsOfTrimmed(d, "Gum", 3, 225);
  }

  /** 225 cents; the description has 3 characters, a multiple of 3, so it earns ceil(2.25 * 0.2) = 1. */
  lemma Gum(d: string, p: string)
    requires d == "Gum" && p == "2.25"
    ensures ParseCents(p) == Some(225)
    ensures DescriptionPoints(d, 225) == 1
  {
    Price2_25(p);
    GumPlain();
    TrimSpaceOfTrimmed(d);
    GumPoints(d);
  }

  lemma Price3_50(s: string)
    requires s == "3.50"
    ensures ParseCents(s) == Some(350)
  {
    CentsOf(s, 350);
  }

  lemma CoffeePlain()
    ensures Plain("Coffee")
  {
  }

  lemma CoffeePoints(d: string)
    requires TrimSpace(d) == "Coffee"
    ensures DescriptionPoints(d, 350) == 1
  {
    CoffeePlain();
    DescriptionPointsOfTrimmed(d, "Coffee", 6, 350);
  }

  /** 350 cents; the description has 6 characters, a multiple of 3, so it earns ceil(3.50 * 0.2) = 1. */
  lemma Coffee(d: string, p: string)
    requires d == "Coffee" && p == "3.50"
    ensures ParseCents(p) == Some(350)
    ensures DescriptionPoints(d, 350) == 1
  {
    Price3_50(p);
    CoffeePlain();
    TrimSpaceOfTrimmed(d);
    CoffeePoints(d);
  }

  lemma Price1_25(s: string)
    requires s == "1.25"
    ensures ParseCents(s) == Some(125)
  {
    CentsOf(s, 125);
  }

  lemma TeaBagPlain()
    ensures Plain("Tea Bag")
  {
  }

  lemma TeaBagPoints(d: string)
    requires TrimSpace(d) == "Tea Bag"
    ensures DescriptionPoints(d, 125) == 0
  {
    TeaBagPlain();
    DescriptionPointsOfTrimmed(d, "Tea Bag", 7, 125);
  }

  /** 125 cents; the description has 7 characters, not a multiple of 3. */
  lemma TeaBag(d: string, p: string)
    requires d == "Tea Bag" && p == "1.25"
    ensures ParseCents(p) == Some(125)
    ensures DescriptionPoints(d, 125) == 0
  {
    Price1_25(p);
    TeaBagPlain();
    TrimSpaceOfTrimmed(d);
    TeaBagPoints(d);
  }

  /** The test's items, one by one. */
  predicate MultipleOfThreeItemList(items: seq<Item>) {
    && |items| == 3
    && items[0].shortDescription == "Gum" && items[0].price == "2.25"
    && items[1].shortDescription == "Coffee" && items[1].price == "3.50"
    && items[2].shortDescription == "Tea Bag" && items[2].price == "1.25"
  }

  /** The test's receipt, field by field. */
  predicate MultipleOfThreeReceipt(r: Receipt) {
    && r.retailer == "ABC" && r.purchaseDate == "2022-01-01" && r.purchaseTime == "12:00" && r.total == "7.00"
    && MultipleOfThreeItemList(r.items)
  }

  lemma MultipleOfThreeItems1(items: seq<Item>)
    requires MultipleOfThreeItemList(items)
    ensures PricesReadable(items[..1]) && ItemsPoints(items[..1]) == 1
  {
    Gum(items[0].shortDescription, items[0].price);
    FirstItemPoints(items, 225, 1);
  }

  lemma MultipleOfThreeItems2(items: seq<Item>)
    requires MultipleOfThreeItemList(items)
    ensures PricesReadable(items[..2]) && ItemsPoints(items[..2]) == 2
  {
    Coffee(items[1].shortDescription, items[1].price);
    MultipleOfThreeItems1(items);
    ItemsPointsStep(items, 1, 1, 350, 1);
  }

  lemma MultipleOfThreeItems3(items: seq<Item>)
    requires MultipleOfThreeItemList(items)
    ensures PricesReadable(items[..3]) && ItemsPoints(items[..3]) == 2
  {
    TeaBag(items[2].shortDescription, items[2].price);
    MultipleOfThreeItems2(items);
    ItemsPointsStep(items, 2, 2, 125, 0);
  }

  lemma MultipleOfThreeItems(items: seq<Item>)
    requires MultipleOfThreeItemList(items)
    ensures PricesReadable(items) && ItemsPoints(items) == 2
  {
    MultipleOfThreeItems3(items);
    assert items[..3] == items;
  }

  /** Rules 2, 3, 4, 6 and 7 on the parsed total, item count, date and time. */
  lemma MultipleOfThreeRuleValues()
    ensures RoundDollarPoints(700) + QuarterPoints(700) + ItemPairPoints(3)
      + OddDayPoints(Date(2022, 1, 1)) + AfternoonPoints(TimeOfDay(12, 0)) == 86
  {
  }

  /** 3 for the retailer, 50 + 25 for the round total, 5 for three items, 1 + 1 for the descriptions of length 3 and 6, 6 for the odd day: 91 points. */
  lemma MultipleOfThreeScore(r: Receipt)
    requires MultipleOfThreeReceipt(r)
    ensures Scorable(r) && Score(r) == 91
  {
    Price7_00(r.total);
    MultipleOfThreeItems(r.items);
    Date20220101(r.purchaseDate);
    Time1200(r.purchaseTime);
    CountAbc();
    MultipleOfThreeRuleValues();
    ScoreOf(r, 700, Date(2022, 1, 1), TimeOfDay(12, 0), 2);
  }
}
