/** The landlord's list of paid receipts ("Danh Sách Thanh Toán",
    client/src/landlord/Receipt.js): which fetched receipts the month, year
    and facility selections keep, the "M/YYYY" period shown for each, and
    the table (or the "no data" message) the page renders. */
module ReceiptList {
  import opened Wrappers
  import opened DateTime
  import opened NumberText

  /** A paid bill as the page receives it: its `_id`, the populated names
      `roomId.hostelId.name` and `roomId.roomName`, `totalAmount`, and the
      instant (ms since 1970-01-01T00:00Z) that the `paymentDate` text
      denotes, `None` when `new Date` cannot read it. */
  datatype Receipt = Receipt(
    id: string,
    facilityName: string,
    roomName: string,
    totalAmount: int,
    paymentDate: Option<int>)

  /** The values of the page's four controls, as the browser reports them:
      `""` is an unselected placeholder. */
  datatype Filters = Filters(month: string, year: string, facility: string, roomSearch: string)

  /** One row of the table: its React key and the semantic values of its
      five cells (amount before currency formatting, local payment date
      before locale formatting). */
  datatype Row = Row(
    key: string,
    facility: string,
    room: string,
    amount: int,
    period: string,
    paidOn: Option<CalendarDate>)

  /** What the page shows below its controls. */
  datatype Page = Spinner | Table(rows: seq<Row>) | NoData

  /** The host's time-zone offset, in ms, at each instant. */
  type Zone = int -> int

  /** The value a `<Select>` reports when option n (rendered `value={n}`) or
      the placeholder (`None`) is chosen. */
  function SelectValue(choice: Option<int>): (v: string)
    ensures v == "" <==> choice.None?
    ensures choice.Some? ==> ParseInt(v) == choice
  {
    if choice.None? then ""
    else
      ParseIntOfDecimal(choice.value);
      IntToDecimal(choice.value)
  }

  /** JavaScript truthiness of a string. */
  predicate Truthy(s: string)
  {
    s != ""
  }

  /** `===` between Numbers: NaN equals nothing. */
  predicate StrictEquals(a: Option<int>, b: Option<int>)
  {
    a.Some? && b.Some? && a.value == b.value
  }

  /** `new Date(receipt.paymentDate).getMonth() + 1`. */
  function PaymentMonth(r: Receipt, zone: Zone): Option<int>
  {
    LocalMonth(TimeClip(r.paymentDate), zone)
  }

  /** `new Date(receipt.paymentDate).getFullYear()`. */
  function PaymentYear(r: Receipt, zone: Zone): Option<int>
  {
    LocalYear(TimeClip(r.paymentDate), zone)
  }

  /** The local (month, year) in which a receipt was paid, if its date is valid. */
  function PaymentPeriod(r: Receipt, zone: Zone): (p: Option<(int, int)>)
    ensures p.Some? ==> 1 <= p.value.0 <= 12
  {
    match LocalDate(TimeClip(r.paymentDate), zone)
    case None => None
    case Some(c) => Some((c.month, c.year))
  }

  /** The arrow function that `receipts.filter` applies. */
  predicate Keep(f: Filters, zone: Zone, r: Receipt)
  {
    if !Truthy(f.month) && !Truthy(f.year) && !Truthy(f.facility) then true
    else
      var monthMatches := if Truthy(f.month) then StrictEquals(PaymentMonth(r, zone), ParseInt(f.month)) else true;
      var yearMatches := if Truthy(f.year) then StrictEquals(PaymentYear(r, zone), ParseInt(f.year)) else true;
      monthMatches && yearMatches
  }

  /** `filteredReceipts`: the receipts the selections keep. */
  function FilteredReceipts(f: Filters, zone: Zone, receipts: seq<Receipt>): (kept: seq<Receipt>)
    ensures |kept| <= |receipts|
    ensures forall r :: r in kept <==> r in receipts && Keep(f, zone, r)
    decreases |receipts|
  {
    if receipts == [] then []
    else (if Keep(f, zone, receipts[0]) then [receipts[0]] else []) + FilteredReceipts(f, zone, receipts[1..])
  }

  /** `getMonthFromDate(receipt.paymentDate)`: `${getMonth() + 1}/${getFullYear()}`. */
  function PeriodLabel(r: Receipt, zone: Zone): (text: string)
    ensures PaymentPeriod(r, zone).None? ==> text == "NaN/NaN"
    ensures PaymentPeriod(r, zone).Some? ==>
      text == IntToDecimal(PaymentPeriod(r, zone).value.0) + "/" + IntToDecimal(PaymentPeriod(r, zone).value.1)
  {
    NumberToString(PaymentMonth(r, zone)) + "/" + NumberToString(PaymentYear(r, zone))
  }

  /** The text before the first "/" of s and the text after it. */
  function SplitAtSlash(s: string): (parts: Option<(string, string)>)
    ensures parts.Some? ==> parts.value.0 + "/" + parts.value.1 == s && '/' !in parts.value.0
    ensures parts.None? ==> '/' !in s
  {
    if s == [] then None
    else if s[0] == '/' then Some(([], s[1..]))
    else match SplitAtSlash(s[1..])
      case None => None
      case Some((before, after)) => Some(([s[0]] + before, after))
  }

  /** Reads a period label back: parseInt of its two halves. */
  function ParsePeriod(text: string): Option<(int, int)>
  {
    match SplitAtSlash(text)
    case None => None
    case Some((m, y)) =>
      if ParseInt(m).Some? && ParseInt(y).Some? then Some((ParseInt(m).value, ParseInt(y).value)) else None
  }

  /** The cells of one table row. */
  function RowOf(r: Receipt, zone: Zone): Row
  {
    Row(r.id, r.facilityName, r.roomName, r.totalAmount, PeriodLabel(r, zone), LocalDate(TimeClip(r.paymentDate), zone))
  }

  /** `filteredReceipts.map(...)`: one row per receipt, in order. */
  function Rows(receipts: seq<Receipt>, zone: Zone): (rows: seq<Row>)
    ensures |rows| == |receipts|
    ensures forall i :: 0 <= i < |rows| ==> rows[i] == RowOf(receipts[i], zone)
  {
    seq(|receipts|, i requires 0 <= i < |receipts| => RowOf(receipts[i], zone))
  }

  /** The page below the controls: a spinner while loading, otherwise the
      table of the filtered receipts or the "no data" text when none is kept. */
  function Render(isLoading: bool, f: Filters, zone: Zone, receipts: seq<Receipt>): (page: Page)
    ensures page.Spinner? <==> isLoading
    ensures !isLoading ==> (page.NoData? <==> FilteredReceipts(f, zone, receipts) == [])
    ensures page.Table? ==> |page.rows| == |FilteredReceipts(f, zone, receipts)| > 0
    ensures page.Table? ==> forall i :: 0 <= i < |page.rows| ==>
      page.rows[i] == RowOf(FilteredReceipts(f, zone, receipts)[i], zone)
  {
    if isLoading then Spinner
    else
      var kept := FilteredReceipts(f, zone, receipts);
      if |kept| > 0 then Table(Rows(kept, zone)) else NoData
  }
}
