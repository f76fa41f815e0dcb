# receipt-processor: the validator and the points calculator

This project models the two pieces of logic in the receipt-processor service.

- **`validateReceipt`** checks a receipt made of raw strings, one check after another. The first check that fails decides the error.
  1. Every field is present.
  2. The retailer uses letters, digits, space, `-` and `&`.
  3. The date parses with the layout `2006-01-02`.
  4. The time parses with the layout `15:04`.
  5. The total has the money format.
  6. Each item in turn has a non-blank description made of letters, digits, space and `-`, and a price in the money format.
- **`validateMoneyFormat`**: split the amount on `.` into exactly two parts. The first part must be accepted by `strconv.Atoi`. The second must be two bytes long and also accepted by `Atoi`.
- **`CalculatePoints`** adds seven independent rules:
  1. one point per letter or digit of the retailer (`countAlphanumeric`);
  2. 50 for a total with no cents;
  3. 25 for a total that is a multiple of 0.25;
  4. 5 per pair of items;
  5. `ceil(price * 0.2)` for each item whose trimmed description has a byte length that is a positive multiple of 3;
  6. 6 for an odd day;
  7. 10 for a time strictly between 14:00 and 16:00.

Money is exact integer cents instead of `float64`. `ceil(price * 0.2)` becomes `(cents + 499) / 500`. The afternoon window becomes `840 < hour * 60 + minute < 960`.

The Go library pieces the core relies on are modelled from their documented behaviour:

- `strings.TrimSpace` with the full `unicode.IsSpace` set;
- `strings.Split` with a one-character separator;
- the UTF-8 byte length `len`;
- `strconv.Atoi`, including its int64 range check;
- the two `time.Parse` layouts: a four-digit year, and a two-digit month and day that must exist in the Gregorian calendar; an hour of one or two digits below 24, then `:` and a two-digit minute below 60, with nothing after it.

Modules, one per file:

| module | file | contents |
|---|---|---|
| `Wrappers` | wrappers.dfy | `Option` and the pass/fail `Outcome` |
| `Receipts` | receipts.dfy | the `Receipt` and `Item` datatypes |
| `Text` | text.dfy | character classes, `TrimSpace`, `Split`/`Join`, `ByteLength` |
| `Numbers` | numbers.dfy | digit strings, zero padding, `Atoi` |
| `Clock` | clock.dfy | the date and clock layouts and their renderings |
| `Money` | money.dfy | `ValidateMoneyFormat`, its grammar, and the cents reading used by the calculator |
| `Validator` | validator.dfy | the error datatype and `ValidateReceipt` |
| `Points` | points.dfy | the seven rules, the functional `Score`, and the `CalculatePoints` and `CountAlphanumeric` loops |
| `Bridge` | bridge.dfy | a validated receipt with unsigned amounts is scorable |
| `Scenarios` | scenarios.dfy | the cases of the handler and counting test tables |
| `Overflow` | overflow.dfy | a validated receipt whose score passes the int64 maximum |
| `WorkedTotals` | worked.dfy | the six receipts of the calculator's test table, scored |

## Model

| member | source | states |
|---|---|---|
| Validator.ValidateReceipt | handlers/process.go:56-101 | a missing field yields MissingRequiredFields whatever else is wrong; the receipt passes exactly when every field is present, the retailer's characters are allowed, the date and time parse, the total has the money shape and every item is valid |
| Validator.ValidateReceiptFirstFailure | handlers/process.go:56-101 | for each of the seven errors, the validator returns it exactly when that check fails and every earlier check passes; an item error is the error of the first invalid item |
| Validator.CheckItems | handlers/process.go:83-98 | the item loop passes exactly when every item is valid; when it fails, it returns the error of the first invalid item, and every item before that one is valid |
| Validator.CheckItem | handlers/process.go:84-97 | a blank description or one with a character outside letters, digits, space and '-' gives InvalidItemDescription; otherwise a price without the money shape gives InvalidItemPrice; otherwise the item passes |
| Validator.FirstBadItemUnique | handlers/process.go:83-98 | the first failing item is unique, so the item error is well defined |
| Money.ValidateMoneyFormat | handlers/process.go:103-121 | passes exactly when the amount is an Atoi integer, one '.', and two characters that Atoi accepts (the split-free grammar MoneyShape); fails with WrongPartCount exactly when the amount does not contain exactly one '.' |
| Money.MoneyShapeIffParts | handlers/process.go:103-121 | the grammar holds exactly when the two pieces produced by splitting on '.' pass the Atoi, two-byte and Atoi checks |
| Money.MoneyFormatFirstFailure | handlers/process.go:103-121 | which of the four reasons is given, read off the text before and after the only '.': dollars first, then the width of the cents, then the cents |
| Money.CentsPartAccepted | handlers/process.go:113-118 | two digits, or a sign and one digit, pass both the two-byte check and Atoi |
| Money.TwoByteAtoi | handlers/process.go:113-118 | conversely, a two-byte text that Atoi accepts is two digits or a sign and one digit, so the cents can be signed, as in "5.-1" |
| Numbers.Atoi | handlers/process.go:109 | Atoi accepts exactly an optional sign and one or more ASCII digits whose signed value is in the int64 range, and then returns that signed value; any such text of fewer than 19 characters is accepted |
| Numbers.AtoiOfIntToString | handlers/process.go:109 | every int64 is read back by Atoi from its decimal rendering |
| Text.Split | handlers/process.go:104 | the number of pieces is the number of separators plus one, and no piece contains the separator |
| Text.JoinSplit | handlers/process.go:104 | joining the pieces of a split with the separator gives back the string |
| Text.SplitJoin | handlers/process.go:104 | pieces that are free of the separator are recovered by splitting their join |
| Text.TrimSpaceSlice | handlers/process.go:84 | the trimmed text is a contiguous slice of the input; everything cut off is white space; it neither starts nor ends with white space; it is empty exactly when the input is all white space |
| Text.TrimSpaceIdempotent | processor/processor.go:34 | trimming twice is the same as trimming once |
| Text.TrimSpaceOfPadded | processor/processor.go:34 | trimming removes exactly the white space around a text that has none at its ends, as with "   Klarbrunn 12-PK 12 FL OZ  " |
| Text.ByteLengthOfAscii | processor/processor.go:35 | the byte length equals the character count exactly when every character is ASCII |
| Clock.ParseDate | handlers/process.go:71-73 | every date the layout accepts is a real calendar date with a four-digit year |
| Clock.ParseFormatDate | handlers/process.go:71-73 | every valid date is read back from its "YYYY-MM-DD" rendering |
| Clock.FormatParseDate | handlers/process.go:71-73 | every accepted date string is the rendering of the date it denotes, so the layout admits no other spelling |
| Clock.ParseTime | handlers/process.go:75-77 | every accepted time has an hour below 24 and a minute below 60 |
| Clock.ParseFormatTime | handlers/process.go:75-77 | a valid time is read back from its zero-padded rendering, and one with an hour below 10 is also read back from its one-digit-hour rendering |
| Clock.FormatParseTime | handlers/process.go:75-77 | every accepted time string is one of those two renderings of its time |
| Money.ParseCents | processor/processor.go:22 | an amount is read as cents exactly when it is one or more digits, '.', and two digits; the cents are 100 times the dollars' value plus the two digits' value |
| Money.CentsShapeBySplit | processor/processor.go:22 | the same shape stated through the split on '.': exactly two pieces, digits on the left and two digits on the right; such an amount has no sign |
| Money.ParseFormatCents | processor/processor.go:22 | every amount of cents whose dollars fit an int64 is read back from its canonical rendering, and the validator accepts that rendering |
| Money.ValidUnsignedMoneyParses | processor/processor.go:22 | an unsigned amount the validator accepts is read by the calculator, with the value Atoi gives its two parts |
| Money.ParsedMoneyIsValid | handlers/process.go:103-121 | every amount the calculator reads whose dollars fit an int64 passes the validator |
| Points.CountAlphanumeric | processor/processor.go:57-65 | the loop counts what the recursive definition AlnumCount counts |
| Points.AlnumCountExtremes | processor/processor.go:57-65 | the count is 0 exactly when no character is a letter or digit, and equals the length exactly when every character is one |
| Points.AlnumCountAppend | processor/processor.go:57-65 | the count of a concatenation is the sum of the counts |
| Points.CalculatePoints | processor/processor.go:17-55 | on a scorable receipt the rule-by-rule computation equals the sum Score of the seven rule contributions, and is at least the retailer count plus the item-pair points |
| Points.DescriptionBonus | processor/processor.go:33-39 | the item loop adds up rule 5 over the items in order |
| Points.ItemPairPoints | processor/processor.go:31 | rule 4 is a multiple of 5 and grants 5 per complete pair: 2 * (points / 5) items, plus at most one left over |
| Points.CeilFifth | processor/processor.go:37 | the rule-5 bonus is the least whole number of points b with 500 * b >= cents, which is ceil(price * 0.2) |
| Points.TotalRulesFromCentsDigits | processor/processor.go:22-29 | rule 2 grants 50 exactly when the total's cents digits are "00"; rule 3 grants 25 exactly when they are "00", "25", "50" or "75"; a round total gets 75 from the two |
| Points.QuarterCentsFields | processor/processor.go:27-29 | a two-digit cents field is a multiple of 25 exactly when it reads 00, 25, 50 or 75 |
| Points.OddDayFromDateString | processor/processor.go:41-44 | rule 6 grants 6 exactly when the last digit of the date string is odd |
| Points.AfternoonWindow | processor/processor.go:46-52 | rule 7 grants 10 exactly from 14:01 through 15:59, so neither 14:00 nor 16:00 counts |
| Points.ItemsPointsAppend | processor/processor.go:33-39 | rule 5 over a concatenation of item lists is the sum over the parts |
| Points.ItemsPointsOfSum | processor/processor.go:33-39 | rule 5 over a list is the sum of what each item earns on its own |
| Points.ScoreTimeOnlyThroughAfternoon | processor/processor.go:46-52 | changing only the time changes the score by the change in rule 7 alone |
| Points.ScoreRetailerOnlyThroughCount | processor/processor.go:20 | changing only the retailer changes the score by the change in rule 1 alone |
| Points.ScoreItemsOnlyThroughRules4And5 | processor/processor.go:31-39 | changing only the items changes the score by the change in rules 4 and 5 alone |
| Points.ScoreIgnoresItemOrder | processor/processor.go:31-39 | swapping two blocks of items keeps the receipt scorable and keeps its score |
| Points.PricesReadableAppend | processor/processor.go:36 | every price of a concatenation is readable exactly when every price of both parts is |
| Bridge.ValidatedReceiptIsScorable | processor/processor.go:22-46 | a receipt the validator accepts whose total and prices carry no sign has a total, prices, date and time that the calculator reads, so its score is defined; being a natural number, the unbounded score is not negative |
| Bridge.ValidDescriptionLength | processor/processor.go:34-35 | on a description the validator accepts, rule 5's byte length is the character count of the trimmed text |
| Scenarios.MoneyAccepted | handlers/process_test.go:248 | "10.00" is accepted |
| Scenarios.MoneyNoDecimal | handlers/process_test.go:249 | "10", "" and "1000" are rejected for their number of '.' |
| Scenarios.MoneyThreeDecimals | handlers/process_test.go:250 | "10.000" is rejected for the width of its cents |
| Scenarios.MoneyNonNumeric | handlers/process_test.go:251 | "abc.def" is rejected for its dollars |
| Scenarios.MoneyOneDecimal | handlers/process_test.go:252 | "10.0" splits into "10" and the one-byte "0", and is rejected for the width of its cents |
| Scenarios.MoneyWords | handlers/process_test.go:169 | "ten dollars" is rejected for having no '.' |
| Scenarios.MoneySignedDollars | handlers/process.go:109 | "-5.00" passes, because Atoi accepts a sign |
| Scenarios.MoneySignedCents | handlers/process.go:113-118 | "5.-1" passes, because a sign and one digit are two bytes that Atoi accepts |
| Scenarios.AtoiKeepsSign | handlers/process.go:109 | the dollars check reads "-5" as -5 and "+07" as 7 |
| Scenarios.AtoiLeadingZeros | handlers/process.go:109 | leading zeros do not count against the int64 range: twenty-one zeros and a 1 read as 1 |
| Scenarios.AtoiPastMax | handlers/process.go:109 | the decimal rendering of 2^63, one past the int64 maximum, is refused, so such a dollars part is invalid |
| Scenarios.SignedAmountNotScorable | processor/processor.go:22 | "-5.00" passes the validator, but the calculator's unsigned cents reading rejects it |
| Scenarios.OneDigitHour | handlers/process.go:75-77 | "3:00" is read as 03:00 |
| Scenarios.TimeRejections | handlers/process_test.go:147 | "3:00 PM", "24:00" and "12:5" are rejected |
| Scenarios.AfternoonBoundaries | processor/processor.go:46-52 | 14:00 and 16:00 earn nothing; 14:01 and 15:59 earn 10 |
| Scenarios.LeapDay | handlers/process.go:71 | 2024-02-29 is a date |
| Scenarios.NoLeapDay | handlers/process.go:71 | 2023-02-29 is not a date |
| Scenarios.NoLeapDayInCentury | handlers/process.go:71 | 1900-02-29 is not a date |
| Scenarios.DateRejections | handlers/process_test.go:130 | "2023/10/01" and "2023-1-01" are rejected |
| Scenarios.ValidReceiptPasses | handlers/process_test.go:15-23 | the handler test's valid receipt passes |
| Scenarios.MissingFieldCases | handlers/process_test.go:65-92 | an empty retailer, date, time or total, or no items, each give MissingRequiredFields |
| Scenarios.InvalidRetailerCase | handlers/process_test.go:111-113 | "Invalid@Retailer" gives InvalidRetailer |
| Scenarios.InvalidDateCase | handlers/process_test.go:128-130 | "2023/10/01" gives InvalidDate |
| Scenarios.InvalidTimeCase | handlers/process_test.go:145-147 | "3:00 PM" gives InvalidTime |
| Scenarios.TotalWithoutPointCase | handlers/process_test.go:167 | a total of "1000" gives InvalidTotal |
| Scenarios.TotalWithThreeDecimalsCase | handlers/process_test.go:168 | a total of "10.000" gives InvalidTotal |
| Scenarios.TotalInWordsCase | handlers/process_test.go:169 | a total of "ten dollars" gives InvalidTotal |
| Scenarios.SingleItemFailure | handlers/process.go:83-98 | with a valid header and one failing item, the validator returns that item's error |
| Scenarios.InvalidItemDescriptionCase | handlers/process_test.go:192-194 | an item described "Invalid@Item" gives InvalidItemDescription |
| Scenarios.InvalidItemPriceCase | handlers/process_test.go:209-211 | an item "Item 1" priced "10.0" gives InvalidItemPrice |
| Scenarios.SharedItemPriceCase | handlers/process_test.go:209-238 | the receipt the price subtest actually posts, with the item ("Invalid@Item", "10.0"), gives InvalidItemDescription. Its price "10.0" fails the money check too, but the price check the subtest is named for is never reached. The subtest still passes, because it checks only for a 400 status, which the description error also gives |
| Scenarios.AmpersandOnlyInRetailer | handlers/process.go:64-93 | "M&M" is an allowed retailer but not an allowed item description |
| Scenarios.CountLettersAndDigits | processor/processor_test.go:122 | "ABC123" counts 6 |
| Scenarios.CountTarget | processor/processor_test.go:123 | "Target" counts 6 |
| Scenarios.CountCornerMarket | processor/processor_test.go:124 | "M&M Corner Market" counts 14 |
| Scenarios.CountSkipsHyphen | processor/processor_test.go:125 | "Store-123" counts 8 |
| Scenarios.CountEmpty | processor/processor_test.go:126 | "" counts 0 |
| Scenarios.CountSymbolsOnly | processor/processor_test.go:127 | "$%@#@" counts 0 |
| Overflow.MaxPrice | handlers/process.go:103-121 | the canonical rendering of int64-maximum dollars and no cents passes the money check, carries no sign, and reads as 100 × MaxInt64 cents |
| Overflow.LargestItemsOverflow | processor/processor.go:18-37 | any valid header with five valid items at that price passes the validator, and the score that adds up their rule-5 points exceeds the int64 maximum |
| Overflow.ScoreExceedsInt64 | processor/processor.go:18-37 | the handler test's receipt with five ("Item 1", int64-maximum dollars) items is validated, has unsigned amounts and is scorable, and its score exceeds what Go's int `points` holds |
| WorkedTotals.TargetScore | processor/processor_test.go:15-31 | the Target receipt is scorable and scores 28 |
| WorkedTotals.CornerMarketScore | processor/processor_test.go:32-47 | the M&M Corner Market receipt scores 109 |
| WorkedTotals.RoundDollarScore | processor/processor_test.go:48-61 | the round-dollar receipt scores 78 |
| WorkedTotals.QuarterScore | processor/processor_test.go:62-75 | the multiple-of-a-quarter receipt scores 53 |
| WorkedTotals.Shop123Score | processor/processor_test.go:76-89 | the Shop123 receipt scores 88 |
| WorkedTotals.MultipleOfThreeScore | processor/processor_test.go:90-104 | the Gum, Coffee and Tea Bag receipt scores 91 |
| WorkedTotals.Gum | processor/processor_test.go:97 | "2.25" is 225 cents, and "Gum" at that price earns 1 under rule 5 |
| WorkedTotals.ItemOne | processor/processor_test.go:69 | "5.25" is 525 cents, and "Item 1" at that price earns 2 under rule 5 |
| WorkedTotals.Klarbrunn | processor/processor_test.go:26 | "   Klarbrunn 12-PK 12 FL OZ  " trims to 24 characters and earns 3 at 12.00 |

## Left out

- HTTP handling is not modelled: `ServeHTTP`, `decodeAndValidateReceipt`, JSON decoding, `ErrEmptyBody` and the responses (handlers/process.go:22-54, 122-132). The same goes for handlers/points.go and the routing in main.go. These map errors to status codes over `net/http`.
- The store (store/store.go) is not modelled. It is a map behind a read-write lock, with ids from a UUID generator, so its content is concurrency and a foreign id source.
- Points.CalculatePoints: requires a scorable receipt. Go's calculator ignores parse errors and works on whatever `ParseFloat` and `time.Parse` return, such as 0 for a signed cents part like "5.-1", or the zero time. This model scores only receipts whose total and prices are unsigned `<digits>.<two digits>` and whose date and time parse. On those receipts it is exact on integer cents. It agrees with Go while the float64 reading of each amount is exact enough; see the Money.ParseCents line for where it is not. Bridge.ValidatedReceiptIsScorable shows that every validated receipt with unsigned amounts qualifies. `ParseFloat` returns 0 only on a syntax error. It reads signed, integral and one-decimal prices such as "-5.00", "+1.00", "5" and "1.5" as non-zero values, and rule 5 uses those values. None of these are modelled.
- Points.CalculatePoints: does not model the int64 width of Go's `points` (processor/processor.go:18-37). The model's score is an unbounded natural number, while Go's sum wraps past the int64 maximum. Overflow.ScoreExceedsInt64 exhibits a validated receipt with unsigned amounts whose model score exceeds the int64 maximum. It is the handler test's header with five items ("Item 1", "9223372036854775807.00"). Each item earns 1844674407370955264 points, so Go's total wraps to a negative number. A bound on the score was not added as a precondition, so the model also covers receipts Go gets wrong this way.
- Bridge.ValidatedReceiptIsScorable: proves a score of at least zero only for unsigned amounts, and only for the unbounded score. The int64 wrap in the line above can make Go's result negative even on a validated receipt with unsigned amounts. In Go, a receipt that `validateReceipt` accepts can score below zero, because the validator lets a signed price through and rule 5 rounds it toward +∞ (processor/processor.go:36-37). For example, retailer "A", total "1.01", date "2022-01-02", time "12:00" and one item ("Gum", "-999.00") get 1 point for the retailer and `int(math.Ceil(-199.8)) = -199` for the item, so -198 in all. Signed amounts are outside the calculator model.
- Money.ParseCents: float64 is not modelled. Money is integer cents, so no IEEE rounding happens. The rules compared are `total == floor(total)`, `mod(total*100, 25) == 0` and `ceil(price*0.2)`. Each of these is exact in the model. It gives the same answer as `float64` while an amount's float64 reading is exact enough, which covers two-decimal amounts like those in the tests. Large amounts diverge: `ParseFloat("9007199254740993.01")` rounds to 9007199254740994.0, which equals its floor, so Go adds 50 points for a round total. The model reads 900719925474099301 cents and adds nothing. Rules 3 and 5 drift the same way once amounts approach 2^52 cents. Amounts with fewer or more than two decimals, or with a sign, are not read by the calculator model.
- Points.AlnumCount: counts ASCII letters and digits only. Go's `unicode.IsLetter` and `unicode.IsDigit` also accept non-ASCII letters and digits. The Unicode tables are not modelled. Retailers the validator accepts are ASCII, so on them the count is exact.
- Clock.ParseDate, Clock.ParseTime: only the outcome of `time.Parse` is modelled, meaning the date or time it denotes or a rejection. Its error messages, time zones and the monotonic clock are not.
- Text.TrimSpace: strings are sequences of Unicode code points. The replacement of invalid UTF-8 bytes by U+FFFD that Go performs when ranging over a string is not modelled.
- That `validateReceipt` never alters the receipt holds by construction: every operation here is a pure function of an immutable value.

## Findings

| source | as written | input that shows it | evidently intended | confidence | as-written member | corrected member |
|---|---|---|---|---|---|---|
| handlers/process_test.go:192-238 | `invalidReceipt := validReceipt` copies the struct but not its `Items` slice, so setting `Items[0].ShortDescription = "Invalid@Item"` also edits the shared valid receipt. The price case then posts the item ("Invalid@Item", "10.0") and is rejected for its description, not its price. The success case posts the same edited receipt, which is rejected too; its check only decodes the error body. | the handler test's valid receipt after the description case has run | each case starts from an unedited copy: the price case is rejected with ErrInvalidItemPrice, and the success case's receipt passes | high; not executed | Scenarios.SharedItemPriceCase | Scenarios.InvalidItemPriceCase, Scenarios.ValidReceiptPasses |
