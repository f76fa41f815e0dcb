/**
 * `CalculatePoints`: the sum of seven independent rule contributions, computed
 * over exact integer cents instead of float64 dollars.
 */
module Points {
  import opened Wrappers
  import opened Text
  import opened Numbers
  import opened Clock
  import opened Money
  import opened Receipts

  const RoundDollarBonus: nat := 50
  const QuarterBonus: nat := 25
  const ItemPairBonus: nat := 5
  const OddDayBonus: nat := 6
  const AfternoonBonus: nat := 10
  /** 14:00 and 16:00 in minutes of the day; both ends are excluded from the window. */
  const AfternoonStart: nat := 14 * 60
  const AfternoonEnd: nat := 16 * 60

  /** `unicode.IsLetter(r) || unicode.IsDigit(r)`, on ASCII. */
  predicate IsAlphanumeric(c: char) {
    IsAsciiLetter(c) || IsAsciiDigit(c)
  }

  /** Number of letters and digits in s. */
  function AlnumCount(s: string): (n: nat)
    ensures n <= |s|
  {
    if |s| == 0 then 0
    else (if IsAlphanumeric(s[0]) then 1 else 0) + AlnumCount(s[1..])
  }

  /** The count is zero exactly when s has no letter or digit, and |s| exactly when s has nothing else. */
  lemma {:induction false} AlnumCountExtremes(s: string)
    ensures AlnumCount(s) == 0 <==> forall i :: 0 <= i < |s| ==> !IsAlphanumeric(s[i])
    ensures AlnumCount(s) == |s| <==> forall i :: 0 <= i < |s| ==> IsAlphanumeric(s[i])
  {
    if |s| > 0 {
      AlnumCountExtremes(s[1..]);
      assert forall i :: 1 <= i < |s| ==> s[i] == s[1..][i - 1];
    }
  }

  /** Counting distributes over concatenation. */
  lemma {:induction false} AlnumCountAppend(a: string, b: string)
    ensures AlnumCount(a + b) == AlnumCount(a) + AlnumCount(b)
  {
    if |a| > 0 {
      assert (a + b)[1..] == a[1..] + b;
      AlnumCountAppend(a[1..], b);
    } else {
      assert a + b == b;
    }
  }

  /** Counting a string in two pieces cut at k. */
  lemma AlnumCountSplitAt(s: string, k: nat)
    requires k <= |s|
    ensures AlnumCount(s) == AlnumCount(s[..k]) + AlnumCount(s[k..])
  {
    var a, b := s[..k], s[k..];
    assert a + b == s;
    AlnumCountAppend(a, b);
  }

  /** `countAlphanumeric`: the loop over the characters of s. */
  method CountAlphanumeric(s: string) returns (count: nat)
    ensures count == AlnumCount(s)
  {
    count := 0;
    var i := 0;
    while i < |s|
      invariant 0 <= i <= |s|
      invariant count == AlnumCount(s[..i])
    {
      assert s[..i + 1] == s[..i] + [s[i]];
      AlnumCountAppend(s[..i], [s[i]]);
      if IsAlphanumeric(s[i]) {
        count := count + 1;
      }
      i := i + 1;
    }
    assert s[..i] == s;
  }

  /** Rule 2: a total with no cents. */
  function RoundDollarPoints(cents: nat): nat {
    if cents % 100 == 0 then RoundDollarBonus else 0
  }

  /** Rule 3: a total that is a multiple of 25 cents. */
  function QuarterPoints(cents: nat): nat {
    if cents % 25 == 0 then QuarterBonus else 0
  }

  /** Rule 4: five points for every two items. */
  function ItemPairPoints(count: nat): (p: nat)
    ensures p % ItemPairBonus == 0
    ensures 2 * (p / ItemPairBonus) <= count <= 2 * (p / ItemPairBonus) + 1
  {
    (count / 2) * ItemPairBonus
  }

  /** `ceil(price * 0.2)` for a price in cents: the least whole number of points >= cents / 500. */
  function CeilFifth(cents: nat): (b: nat)
    ensures 500 * b >= cents
    ensures 500 * (b - 1) < cents
  {
    (cents + 499) / 500
  }

  /** Rule 5 for one item: the trimmed description's byte length is a positive multiple of 3. */
  function DescriptionPoints(description: string, cents: nat): nat {
    var n := ByteLength(TrimSpace(description));
    if n % 3 == 0 && n > 0 then CeilFifth(cents) else 0
  }

  /** Rule 6: an odd day of the month. */
  function OddDayPoints(d: Date): nat {
    if d.day % 2 == 1 then OddDayBonus else 0
  }

  /** Rule 7: strictly after 14:00 and strictly before 16:00. */
  function AfternoonPoints(t: TimeOfDay): nat {
    if AfternoonStart < MinuteOfDay(t) < AfternoonEnd then AfternoonBonus else 0
  }

  predicate PricesReadable(items: seq<Item>) {
    forall i :: 0 <= i < |items| ==> ParseCents(items[i].price).Some?
  }

  /**
   * A receipt the calculator reads without falling back to zero values: unsigned
   * amounts, and a date and a time that parse.
   */
  predicate Scorable(r: Receipt) {
    && ParseCents(r.total).Some?
    && PricesReadable(r.items)
    && ParseDate(r.purchaseDate).Some?
    && ParseTime(r.purchaseTime).Some?
  }

  /**
   * Rule 5 for one item. Only unsigned "digits.dd" prices are read; any other
   * price contributes nothing here. That default is never used for a scorable
   * receipt, whose prices all read, and it is not Go's reading of such a price.
   */
  function ItemPoints(item: Item): nat {
    match ParseCents(item.price)
    case Some(cents) => DescriptionPoints(item.shortDescription, cents)
    case None => 0
  }

  /** Rule 5 summed over the items. */
  function ItemsPoints(items: seq<Item>): nat {
    if |items| == 0 then 0 else ItemsPoints(items[..|items| - 1]) + ItemPoints(items[|items| - 1])
  }

  /** Rule 5 distributes over concatenation of item lists. */
  lemma {:induction false} ItemsPointsAppend(a: seq<Item>, b: seq<Item>)
    ensures ItemsPoints(a + b) == ItemsPoints(a) + ItemsPoints(b)
    decreases |b|
  {
    if |b| > 0 {
      var b' := b[..|b| - 1];
      assert (a + b)[..|a + b| - 1] == a + b';
      assert (a + b)[|a + b| - 1] == b[|b| - 1];
      ItemsPointsAppend(a, b');
    } else {
      assert a + b == a;
    }
  }

  /** The score: the seven rule contributions added up. */
  function Score(r: Receipt): nat
    requires Scorable(r)
  {
    var total := ParseCents(r.total).value;
    AlnumCount(r.retailer)
      + RoundDollarPoints(total)
      + QuarterPoints(total)
      + ItemPairPoints(|r.items|)
      + ItemsPoints(r.items)
      + OddDayPoints(ParseDate(r.purchaseDate).value)
      + AfternoonPoints(ParseTime(r.purchaseTime).value)
  }

  /** Rule 5 on the prefix of one more item. */
  lemma ItemsPointsSnoc(items: seq<Item>, i: nat)
    requires i < |items|
    ensures ItemsPoints(items[..i + 1]) == ItemsPoints(items[..i]) + ItemPoints(items[i])
  {
    var prefix := items[..i + 1];
    assert prefix[..i] == items[..i];
  }

  function Sum(xs: seq<nat>): nat {
    if |xs| == 0 then 0 else Sum(xs[..|xs| - 1]) + xs[|xs| - 1]
  }

  /** Rule 5 over a list is the sum of what each item earns on its own. */
  lemma {:induction false} ItemsPointsOfSum(items: seq<Item>, points: seq<nat>)
    requires |points| == |items|
    requires forall k :: 0 <= k < |items| ==> ItemPoints(items[k]) == points[k]
    ensures ItemsPoints(items) == Sum(points)
  {
    if |items| > 0 {
      var n := |items| - 1;
      assert forall k :: 0 <= k < n ==> items[..n][k] == items[k] && points[..n][k] == points[k];
      ItemsPointsOfSum(items[..n], points[..n]);
    }
  }

  /** A readable price extends a prefix of readable prices by one item. */
  lemma PricesReadableSnoc(items: seq<Item>, i: nat)
    requires i < |items| && PricesReadable(items[..i]) && ParseCents(items[i].price).Some?
    ensures PricesReadable(items[..i + 1])
  {
    assert forall k :: 0 <= k < i ==> items[..i + 1][k] == items[..i][k];
  }

  /** The loop of `CalculatePoints` over the items (rule 5). */
  method DescriptionBonus(items: seq<Item>) returns (points: nat)
    requires PricesReadable(items)
    ensures points == ItemsPoints(items)
  {
    points := 0;
    var i := 0;
    while i < |items|
      invariant 0 <= i <= |items|
      invariant points == ItemsPoints(items[..i])
    {
      var item := items[i];
      var price := ParseCents(item.price).value;
      var n := ByteLength(TrimSpace(item.shortDescription));
      if n % 3 == 0 && n > 0 {
        points := points + (price + 499) / 500;
      }
      ItemsPointsSnoc(items, i);
      i := i + 1;
    }
    assert items[..i] == items;
  }

  /** `CalculatePoints`, rule by rule in the source's order. */
  method CalculatePoints(r: Receipt) returns (points: int)
    requires Scorable(r)
    ensures points == Score(r)
    ensures points >= AlnumCount(r.retailer) + ItemPairPoints(|r.items|)
  {
    points := 0;
    var retailerPoints := CountAlphanumeric(r.retailer);
    points := points + retailerPoints;

    var total := ParseCents(r.total).value;
    if total % 100 == 0 {
      points := points + RoundDollarBonus;
    }
    if total % 25 == 0 {
      points := points + QuarterBonus;
    }

    points := points + (|r.items| / 2) * ItemPairBonus;

    var itemPoints := DescriptionBonus(r.items);
    points := points + itemPoints;

    var date := ParseDate(r.purchaseDate).value;
    if date.day % 2 == 1 {
      points := points + OddDayBonus;
    }

    var time := ParseTime(r.purchaseTime).value;
    if AfternoonStart < MinuteOfDay(time) && MinuteOfDay(time) < AfternoonEnd {
      points := points + AfternoonBonus;
    }
  }

  /**
   * Rules 2 and 3 read off the total's two cents characters: 50 points for "00",
   * 25 points for "00", "25", "50" or "75", so a round total earns 75.
   */
  lemma TotalRulesFromCentsDigits(s: string)
    requires ParseCents(s).Some?
    ensures |s| >= 2
    ensures var cents := ParseCents(s).value;
      var tail := s[|s| - 2..];
      && (RoundDollarPoints(cents) == RoundDollarBonus <==> tail == "00")
      && (QuarterPoints(cents) == QuarterBonus <==> tail == "00" || tail == "25" || tail == "50" || tail == "75")
      && (tail == "00" ==> RoundDollarPoints(cents) + QuarterPoints(cents) == 75)
  {
    var cents := ParseCents(s).value;
    var v := DigitsValue(s[|s| - 2..]);
    QuarterCentsFields(s[|s| - 2..]);
    ModOfHundred(cents);
    assert cents % 25 == v % 25;
  }

  lemma ModOfHundred(n: nat)
    ensures n % 25 == (n % 100) % 25
  {
    assert n == 100 * (n / 100) + n % 100;
    assert 100 * (n / 100) == 25 * (4 * (n / 100));
  }

  /** A two-digit field is worth a multiple of 25 exactly when it reads 00, 25, 50 or 75. */
  lemma QuarterCentsFields(c: string)
    requires |c| == 2 && AllDigits(c)
    ensures DigitsValue(c) == 0 <==> c == "00"
    ensures DigitsValue(c) % 25 == 0 <==> c == "00" || c == "25" || c == "50" || c == "75"
  {
    var v := DigitsValue(c);
    PadOfDigitsValue(c);
    if v % 25 == 0 {
      assert v == 0 || v == 25 || v == 50 || v == 75;
    }
    if c == "00" || c == "25" || c == "50" || c == "75" {
      QuarterFieldValue(c);
    }
  }

  lemma QuarterFieldValue(c: string)
    requires c == "00" || c == "25" || c == "50" || c == "75"
    ensures DigitsValue(c) % 25 == 0
  {
    assert c[..1] == [c[0]];
  }

  /** Rule 6 reads off the last character of the date string: an odd digit earns 6 points. */
  lemma OddDayFromDateString(s: string)
    requires ParseDate(s).Some?
    ensures OddDayPoints(ParseDate(s).value) == OddDayBonus <==>
      s[9] == '1' || s[9] == '3' || s[9] == '5' || s[9] == '7' || s[9] == '9'
  {
    var day := s[8..];
    assert day[..1] == [s[8]];
    assert DigitsValue(day) == 10 * DigitValue(s[8]) + DigitValue(s[9]);
    assert DigitsValue(day) % 2 == DigitValue(s[9]) % 2;
  }

  /** Rule 7 in hours and minutes: 14:01 through 15:59, so neither 14:00 nor 16:00. */
  lemma AfternoonWindow(t: TimeOfDay)
    requires ValidTime(t)
    ensures AfternoonPoints(t) == AfternoonBonus <==> (t.hour == 14 && t.minute > 0) || t.hour == 15
  {
    if t.hour <= 13 {
      assert MinuteOfDay(t) <= 13 * 60 + 59;
    } else if t.hour >= 16 {
      assert MinuteOfDay(t) >= 16 * 60;
    }
  }

  /** Changing only the purchase time changes the score by the change in rule 7 alone. */
  lemma ScoreTimeOnlyThroughAfternoon(r: Receipt, time: string)
    requires Scorable(r) && ParseTime(time).Some?
    ensures Scorable(r.(purchaseTime := time))
    ensures Score(r.(purchaseTime := time)) - Score(r)
      == AfternoonPoints(ParseTime(time).value) - AfternoonPoints(ParseTime(r.purchaseTime).value)
  {
  }

  /** Changing only the retailer changes the score by the change in rule 1 alone. */
  lemma ScoreRetailerOnlyThroughCount(r: Receipt, retailer: string)
    requires Scorable(r)
    ensures Scorable(r.(retailer := retailer))
    ensures Score(r.(retailer := retailer)) - Score(r) == AlnumCount(retailer) - AlnumCount(r.retailer)
  {
  }

  /** Changing only the items changes the score by the change in rules 4 and 5 alone. */
  lemma ScoreItemsOnlyThroughRules4And5(r: Receipt, items: seq<Item>)
    requires Scorable(r) && PricesReadable(items)
    ensures Scorable(r.(items := items))
    ensures Score(r.(items := items)) - Score(r)
      == ItemPairPoints(|items|) + ItemsPoints(items) - ItemPairPoints(|r.items|) - ItemsPoints(r.items)
  {
  }

  /** Every price of a concatenation is readable exactly when every price of both parts is. */
  lemma PricesReadableAppend(a: seq<Item>, b: seq<Item>)
    ensures PricesReadable(a + b) <==> PricesReadable(a) && PricesReadable(b)
  {
    assert forall i :: 0 <= i < |a| ==> (a + b)[i] == a[i];
    assert forall i :: 0 <= i < |b| ==> (a + b)[|a| + i] == b[i];
  }

  /** The order of the items does not matter: swapping two blocks of items keeps the score. */
  lemma ScoreIgnoresItemOrder(r: Receipt, a: seq<Item>, b: seq<Item>)
    requires Scorable(r) && r.items == a + b
    ensures Scorable(r.(items := b + a))
    ensures Score(r.(items := b + a)) == Score(r)
  {
    PricesReadableAppend(a, b);
    PricesReadableAppend(b, a);
    ItemsPointsAppend(a, b);
    ItemsPointsAppend(b, a);
    ScoreItemsOnlyThroughRules4And5(r, b + a);
  }
}
