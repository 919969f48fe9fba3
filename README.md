# Paid-receipt list of the landlord pages, in Dafny

This project models the paid-receipt page of the rental-housing application:
the React component `client/src/landlord/Receipt.js`. The page fetches the
landlord's paid bills ("receipts"). It offers four controls: a room-name
search box, a facility select, a month select and a year select. It shows
the receipts that the month and year selections keep. Each receipt is one
table row with its facility, room, amount, payment period "M/YYYY" and
payment date. When no receipt is kept, the page shows a "no data" text.

The model is pure, like the code it follows. Everything is written as
datatypes, functions and lemmas.

- `wrappers.dfy` (module `Wrappers`): `Option`. Where JavaScript would
  produce NaN, the model uses `None`.
- `date_time.dfy` (module `DateTime`): the parts of the ECMAScript `Date`
  object that the page uses. These are `new Date(v)` (TimeClip),
  `getMonth()`, `getFullYear()` and the local calendar date. They follow
  section 21.4.1 of ECMA-262: DayFromYear, YearFromTime as "the largest year
  whose first instant is at or before t", and the month thresholds of
  MonthFromTime. The conversion from a day number to a date is proved
  correct in both directions (`DateFromDay`, `DateFromDayOfDate`).
- `number_text.dfy` (module `NumberText`): Number-to-text conversion for
  integers below 10^21 in magnitude and NaN, as template literals and
  React's `value={n}` do it.
  Also the global `parseInt` without a radix. It skips leading white space,
  reads one sign and a `0x` prefix, then reads the longest run of digits.
  Number to text and back gives the same number.
- `receipt_list.dfy` (module `ReceiptList`): the page itself.
  - `Keep` is the arrow function passed to `receipts.filter`.
  - `FilteredReceipts` is `filteredReceipts`.
  - `PeriodLabel` is `getMonthFromDate`.
  - `Rows` and `Render` are the table, the "no data" text and the loading spinner.
- `receipt_properties.dfy` (module `ReceiptListProperties`): what the page
  guarantees, stated over all inputs, plus the worked scenario of a bill
  paid on 2024-04-10.

The selections are kept as the raw strings that the browser reports, with
`""` for an unselected placeholder. The filter uses them as the code does:
JavaScript truthiness, then `parseInt`, then `===`. `SelectValue` models
what a select reports when option `n` is chosen. With `ParseIntOfDecimal`,
this gives the statement over chosen integers: `FilterBySelectedPeriod`.

The payment date is the instant, in milliseconds since
1970-01-01T00:00Z, that the receipt's `paymentDate` text denotes. `None`
means that `new Date` cannot read the text. The host time zone is a
parameter `zone`, the offset in milliseconds at each instant. It may vary
with daylight saving time.

Behaviour the code has, reproduced rather than corrected:

- The selected facility never excludes a receipt. It only defeats the
  early `return true` at line 92. After that, both matches default to
  true. So choosing facility "Other" still shows a bill of facility
  "Sunrise" (`OtherFacilityStillShown`). This differs from a design in
  which the facility filter applies.
- The room-name search value is never read by the filter.
- The period shown is the local month and year of the payment instant,
  not the bill's billing period. The filter uses the same month and year.
- An unreadable payment date fails any selected month or year, because NaN
  equals nothing. With nothing selected, such a receipt is still kept. Its
  label is then "NaN/NaN".
- A selected month outside 1..12 keeps nothing (`SelectedMonthOutOfRange`).
- Receipts keep the order in which the server returned them. The page does
  no sorting.

## Model

| member | source | states |
|---|---|---|
| `ReceiptList.FilteredReceipts` | client/src/landlord/Receipt.js:91-106 | the filtered list is no longer than the fetched one, and a receipt is in it exactly when it is among the fetched receipts and the filter predicate accepts it |
| `ReceiptListProperties.FilterWithoutSelection` | client/src/landlord/Receipt.js:92 | with no month, year or facility selected, the list is returned unchanged |
| `ReceiptListProperties.FilterIsSubsequence` | client/src/landlord/Receipt.js:91 | the filtered list is an order-preserving subsequence of the fetched list: nothing is added, altered or reordered |
| `ReceiptListProperties.FilterCounts` | client/src/landlord/Receipt.js:91-106 | each accepted receipt occurs in the result as often as in the input, and a rejected one does not occur |
| `ReceiptListProperties.FilterCongruent` | client/src/landlord/Receipt.js:91-106 | the result depends only on which receipts the predicate accepts |
| `ReceiptListProperties.FacilityNeverExcludes` | client/src/landlord/Receipt.js:92-105 | for any month and year selection, every facility value gives the same list as no facility |
| `ReceiptListProperties.OnlyFacilityKeepsAll` | client/src/landlord/Receipt.js:92-105 | with only a facility selected (no month, no year), every receipt is kept |
| `ReceiptListProperties.RoomSearchIgnored` | client/src/landlord/Receipt.js:91-106 | the room-name search value has no effect on the filtered list |
| `ReceiptList.SelectValue` | client/src/landlord/Receipt.js:172-191 | the value a select reports is empty exactly for the placeholder, and `parseInt` of a chosen option's value gives back the option's number |
| `ReceiptListProperties.KeepBySelectedPeriod` | client/src/landlord/Receipt.js:98-105 | when months and years are chosen from the selects, the predicate accepts a receipt exactly when nothing is chosen, or the receipt has a valid payment date whose local month equals the chosen month (if any) and whose local year equals the chosen year (if any) |
| `ReceiptListProperties.FilterBySelectedPeriod` | client/src/landlord/Receipt.js:91-106 | when months and years are chosen from the selects, a receipt is in the filtered list exactly when it was fetched and it meets the month and year conditions together |
| `ReceiptListProperties.SelectedMonthOutOfRange` | client/src/landlord/Receipt.js:95-100 | a selected month that parses to a number outside 1..12 keeps nothing |
| `ReceiptList.PaymentPeriod` | client/src/landlord/Receipt.js:94-96 | the derived payment month is always in 1..12 |
| `DateTime.TimeClip` | client/src/landlord/Receipt.js:94 | `new Date` keeps a time value within ±8.64e15 ms and turns any other into NaN |
| `DateTime.LocalDate` | client/src/landlord/Receipt.js:94-96 | a valid time value has a valid local calendar date, whose day number is the floor of the local time divided by the length of a day; NaN has none |
| `DateTime.LocalMonth` | client/src/landlord/Receipt.js:95 | `getMonth() + 1` is NaN exactly for an invalid date; otherwise it lies in 1..12 and is the month whose first day in the local year is at or before the local day and whose successor's first day is after it |
| `DateTime.LocalYear` | client/src/landlord/Receipt.js:96 | `getFullYear()` is NaN exactly for an invalid date and is otherwise the year that contains the local time |
| `DateTime.YearFromTime` | client/src/landlord/Receipt.js:96 | the year of a time value is one whose first instant is at or before it and whose successor's first instant is after it |
| `DateTime.YearFromDayUnique` | client/src/landlord/Receipt.js:96 | only one year has a given day inside its range of days |
| `DateTime.DayFromYearStep` | client/src/landlord/Receipt.js:96 | consecutive years start 365 or 366 days apart, as the Gregorian leap-year rule says |
| `DateTime.MonthFromDayInYear` | client/src/landlord/Receipt.js:95 | the month of a day of the year lies in 1..12, and the day falls between that month's first day and the next month's first day |
| `DateTime.DateFromDay` | client/src/landlord/Receipt.js:94-96 | the date of a day number is a valid calendar date whose day number is that day number |
| `DateTime.DateFromDayOfDate` | client/src/landlord/Receipt.js:94-96 | every valid calendar date is the date of its own day number, so a date and its day number determine each other |
| `NumberText.NumberToString` | client/src/landlord/Receipt.js:117 | a template literal renders NaN as "NaN" and an integer below 10^21 in magnitude as its decimal text |
| `NumberText.ParseIntOfDecimal` | client/src/landlord/Receipt.js:98-103 | `parseInt` of the decimal text of an integer gives back that integer |
| `ReceiptList.PeriodLabel` | client/src/landlord/Receipt.js:115-118 | a receipt without a valid payment date is labelled "NaN/NaN"; one paid in local month m of year y is labelled with the unpadded decimal texts "m/y" |
| `ReceiptListProperties.PeriodLabelRoundTrip` | client/src/landlord/Receipt.js:117 | reading the label back at its "/" with `parseInt` gives exactly the payment month and year, or none for an invalid date |
| `ReceiptListProperties.SameLabelSamePeriod` | client/src/landlord/Receipt.js:115-118 | two receipts show the same period label exactly when they were paid in the same local month of the same year |
| `ReceiptListProperties.KeptRowsShowSelectedPeriod` | client/src/landlord/Receipt.js:212 | when month m and year y are selected, every row of the table shows the period "m/y" |
| `ReceiptList.Rows` | client/src/landlord/Receipt.js:207-217 | one row per receipt, in the same order, each with that receipt's key, names, amount, period label and local payment date |
| `ReceiptList.Render` | client/src/landlord/Receipt.js:195-224 | the page is the loading spinner exactly while loading (lines 120-126). Otherwise it shows the "no data" text exactly when the filtered list is empty. Else it shows a table with one row per filtered receipt, in order |
| `ReceiptListProperties.AprilReceiptShown` | client/src/landlord/Receipt.js:195-217 | with nothing selected and a UTC host, a bill of room "101" in "Sunrise" of 1000000 paid at 2024-04-10T00:00Z is shown as a single row with period "4/2024" and date 2024-04-10 |
| `ReceiptListProperties.OtherFacilityStillShown` | client/src/landlord/Receipt.js:92-105 | selecting facility "Other" alone still shows the "Sunrise" bill |
| `ReceiptListProperties.AprilReceiptByPeriod` | client/src/landlord/Receipt.js:98-105 | month "3" with year "2024" hides the bill paid in April 2024, and month "4" with year "2024" shows it |

## Left out

- Fetching facilities and receipts (lines 35-88) is left out. This covers axios, the bearer token from `localStorage`, `jwtDecode`, the error toasts and the `useEffect` lifecycle, all of which are network I/O and React state plumbing. The fetched receipt list and the loading flag are inputs of `Render`.
- Parsing the `paymentDate` text with `new Date(...)` is left out. A receipt carries the instant that the text denotes, or `None` when the text cannot be read. TimeClip is modelled.
- The host time zone database is left out. `zone` gives the local offset at each instant and is a parameter.
- `formatCurrency` (`Intl.NumberFormat` "vi-VN", VND) and `toLocaleDateString("vi-VN")` are left out. They are locale libraries. A row keeps the integer amount and the local calendar date that these render.
- JSX layout, Chakra components and the facility option list are left out. Only the values that the month and year selects report are modelled, through `SelectValue`.
- Reading `receipt.roomId.hostelId.name` when the room or facility reference is not populated (a JavaScript TypeError) is left out. A receipt carries the two names.
- JavaScript Numbers are doubles. The model uses unbounded integers, so `parseInt` of digit strings longer than 2^53 is exact here but rounds in JavaScript. The selects only offer months 1..12 and years 2023..2025.
- `NumberText.NumberToString` writes every digit of an integer, whereas Number::toString switches to exponent form ("1e+21") from 10^21 in magnitude on; the months and years a Date yields stay far below that.
- server/routes/user.route.js is left out. It is Express route wiring over handlers and middleware that are not part of this model.
- Contracts, bill generation and marking a bill paid are left out. Their code is not part of this model.
