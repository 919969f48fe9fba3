/** What the receipt list guarantees: the filter keeps an order-preserving
    selection of the fetched receipts, decided by the payment month and
    year alone; the facility and room-name controls change nothing; and the
    period shown for a kept receipt is the selected month and year. */
module ReceiptListProperties {
  import opened Wrappers
  import opened DateTime
  import opened NumberText
  import opened ReceiptList

  /** idx maps the positions of a, in increasing order, to equal elements of b. */
  ghost predicate Embeds(idx: seq<int>, a: seq<Receipt>, b: seq<Receipt>)
  {
    && |idx| == |a|
    && (forall i :: 0 <= i < |idx| ==> 0 <= idx[i] < |b| && a[i] == b[idx[i]])
    && (forall i, j :: 0 <= i < j < |idx| ==> idx[i] < idx[j])
  }

  /** a is b with some elements left out and nothing added, altered or reordered. */
  ghost predicate IsSubsequence(a: seq<Receipt>, b: seq<Receipt>)
  {
    exists idx :: Embeds(idx, a, b)
  }

  lemma EmbedsInTail(idx: seq<int>, a: seq<Receipt>, b: seq<Receipt>) returns (shifted: seq<int>)
    requires b != [] && Embeds(idx, a, b[1..])
    ensures Embeds(shifted, a, b)
    ensures forall i :: 0 <= i < |shifted| ==> shifted[i] >= 1
  {
    shifted := seq(|idx|, i requires 0 <= i < |idx| => idx[i] + 1);
  }

  lemma EmbedsWithHead(idx: seq<int>, a: seq<Receipt>, b: seq<Receipt>)
    requires b != [] && Embeds(idx, a, b)
    requires forall i :: 0 <= i < |idx| ==> idx[i] >= 1
    ensures Embeds([0] + idx, [b[0]] + a, b)
  {
  }

  /** With no month, year or facility selected the list is shown unchanged. */
  lemma {:induction false} FilterWithoutSelection(f: Filters, zone: Zone, receipts: seq<Receipt>)
    requires f.month == "" && f.year == "" && f.facility == ""
    ensures FilteredReceipts(f, zone, receipts) == receipts
    decreases |receipts|
  {
    if receipts != [] {
      FilterWithoutSelection(f, zone, receipts[1..]);
    }
  }

  /** The filter only drops receipts: what it keeps appears in the same order in the input. */
  lemma {:induction false} FilterIsSubsequence(f: Filters, zone: Zone, receipts: seq<Receipt>)
    ensures IsSubsequence(FilteredReceipts(f, zone, receipts), receipts)
    decreases |receipts|
  {
    if receipts == [] {
      assert Embeds([], [], []);
    } else {
      var tail := FilteredReceipts(f, zone, receipts[1..]);
      FilterIsSubsequence(f, zone, receipts[1..]);
      var idx :| Embeds(idx, tail, receipts[1..]);
      var shifted := EmbedsInTail(idx, tail, receipts);
      if Keep(f, zone, receipts[0]) {
        assert FilteredReceipts(f, zone, receipts) == [receipts[0]] + tail;
        EmbedsWithHead(shifted, tail, receipts);
      } else {
        assert FilteredReceipts(f, zone, receipts) == tail;
      }
    }
  }

  /** Each receipt the filter keeps occurs as often as in the input; the others not at all. */
  lemma {:induction false} FilterCounts(f: Filters, zone: Zone, receipts: seq<Receipt>, r: Receipt)
    ensures multiset(FilteredReceipts(f, zone, receipts))[r]
         == if Keep(f, zone, r) then multiset(receipts)[r] else 0
    decreases |receipts|
  {
    if receipts != [] {
      FilterCounts(f, zone, receipts[1..], r);
      assert receipts == [receipts[0]] + receipts[1..];
    }
  }

  /** Two selections that keep the same receipts give the same list. */
  lemma {:induction false} FilterCongruent(f: Filters, g: Filters, zone: Zone, receipts: seq<Receipt>)
    requires forall i :: 0 <= i < |receipts| ==> Keep(f, zone, receipts[i]) == Keep(g, zone, receipts[i])
    ensures FilteredReceipts(f, zone, receipts) == FilteredReceipts(g, zone, receipts)
    decreases |receipts|
  {
    if receipts != [] {
      FilterCongruent(f, g, zone, receipts[1..]);
    }
  }

  /** The selected facility never excludes a receipt: any facility gives the
      list that no facility gives. */
  lemma FacilityNeverExcludes(f: Filters, facility: string, zone: Zone, receipts: seq<Receipt>)
    ensures FilteredReceipts(f.(facility := facility), zone, receipts)
         == FilteredReceipts(f.(facility := ""), zone, receipts)
  {
    FilterCongruent(f.(facility := facility), f.(facility := ""), zone, receipts);
  }

  /** With only a facility selected (no month, no year), every receipt is kept. */
  lemma OnlyFacilityKeepsAll(f: Filters, zone: Zone, receipts: seq<Receipt>)
    requires f.month == "" && f.year == ""
    ensures FilteredReceipts(f, zone, receipts) == receipts
  {
    FacilityNeverExcludes(f, f.facility, zone, receipts);
    FilterWithoutSelection(f.(facility := ""), zone, receipts);
  }

  /** The room-name search box has no effect on the list. */
  lemma RoomSearchIgnored(f: Filters, search: string, zone: Zone, receipts: seq<Receipt>)
    ensures FilteredReceipts(f.(roomSearch := search), zone, receipts) == FilteredReceipts(f, zone, receipts)
  {
    FilterCongruent(f.(roomSearch := search), f, zone, receipts);
  }

  /** The period condition stated on the calendar: nothing chosen keeps
      everything; otherwise the receipt needs a valid payment date whose
      local month and year equal the chosen ones. */
  predicate PeriodMatches(month: Option<int>, year: Option<int>, r: Receipt, zone: Zone)
  {
    || (month.None? && year.None?)
    || (&& PaymentPeriod(r, zone).Some?
        && (month.Some? ==> PaymentPeriod(r, zone).value.0 == month.value)
        && (year.Some? ==> PaymentPeriod(r, zone).value.1 == year.value))
  }

  lemma KeepBySelectedPeriod(month: Option<int>, year: Option<int>, facility: string, search: string,
                             zone: Zone, r: Receipt)
    ensures Keep(Filters(SelectValue(month), SelectValue(year), facility, search), zone, r)
        <==> PeriodMatches(month, year, r, zone)
  {
    var date := LocalDate(TimeClip(r.paymentDate), zone);
    if date.Some? {
      assert PaymentMonth(r, zone) == Some(date.value.month);
      assert PaymentYear(r, zone) == Some(date.value.year);
    }
  }

  /** Choosing month and year from the dropdowns keeps exactly the receipts
      paid in that local month and year (either may be left unchosen; a
      facility and a room search change nothing). */
  lemma FilterBySelectedPeriod(month: Option<int>, year: Option<int>, facility: string, search: string,
                               zone: Zone, receipts: seq<Receipt>)
    ensures forall r :: r in FilteredReceipts(Filters(SelectValue(month), SelectValue(year), facility, search), zone, receipts)
                    <==> r in receipts && PeriodMatches(month, year, r, zone)
  {
    forall r | r in receipts
      ensures Keep(Filters(SelectValue(month), SelectValue(year), facility, search), zone, r)
          <==> PeriodMatches(month, year, r, zone)
    {
      KeepBySelectedPeriod(month, year, facility, search, zone, r);
    }
  }

  /** A month outside 1..12 keeps nothing, since a payment month never is. */
  lemma SelectedMonthOutOfRange(f: Filters, zone: Zone, receipts: seq<Receipt>)
    requires ParseInt(f.month).Some? && !(1 <= ParseInt(f.month).value <= 12)
    ensures FilteredReceipts(f, zone, receipts) == []
  {
  }

  lemma {:induction false} SplitAtSlashOf(before: string, after: string)
    requires '/' !in before
    ensures SplitAtSlash(before + "/" + after) == Some((before, after))
    decreases |before|
  {
    if before == [] {
      assert before + "/" + after == "/" + after;
    } else {
      var s := before + "/" + after;
      SplitAtSlashOf(before[1..], after);
      assert s[0] == before[0] && s[0] != '/';
      assert s[1..] == before[1..] + "/" + after;
      assert [before[0]] + before[1..] == before;
    }
  }

  /** The label shown for a receipt names its payment month and year and
      nothing else: reading it back gives them, and "NaN/NaN" reads as none. */
  lemma PeriodLabelRoundTrip(r: Receipt, zone: Zone)
    ensures ParsePeriod(PeriodLabel(r, zone)) == PaymentPeriod(r, zone)
  {
    var month := NumberToString(PaymentMonth(r, zone));
    var year := NumberToString(PaymentYear(r, zone));
    NoSlashInNumber(PaymentMonth(r, zone));
    SplitAtSlashOf(month, year);
    if PaymentPeriod(r, zone).Some? {
      ParseIntOfDecimal(PaymentMonth(r, zone).value);
      ParseIntOfDecimal(PaymentYear(r, zone).value);
    } else {
      ParseIntOfNaN();
    }
  }

  /** Two receipts show the same label exactly when they were paid in the same local month. */
  lemma SameLabelSamePeriod(r: Receipt, s: Receipt, zone: Zone)
    ensures PeriodLabel(r, zone) == PeriodLabel(s, zone) <==> PaymentPeriod(r, zone) == PaymentPeriod(s, zone)
  {
    PeriodLabelRoundTrip(r, zone);
    PeriodLabelRoundTrip(s, zone);
  }

  /** Every row of the list filtered by month m and year y shows the period "m/y". */
  lemma KeptRowsShowSelectedPeriod(month: int, year: int, facility: string, search: string,
                                   zone: Zone, receipts: seq<Receipt>)
    ensures forall row :: row in Rows(FilteredReceipts(Filters(SelectValue(Some(month)), SelectValue(Some(year)), facility, search), zone, receipts), zone)
              ==> row.period == IntToDecimal(month) + "/" + IntToDecimal(year)
  {
    var kept := FilteredReceipts(Filters(SelectValue(Some(month)), SelectValue(Some(year)), facility, search), zone, receipts);
    var rows := Rows(kept, zone);
    FilterBySelectedPeriod(Some(month), Some(year), facility, search, zone, receipts);
    forall i | 0 <= i < |rows|
      ensures rows[i].period == IntToDecimal(month) + "/" + IntToDecimal(year)
    {
      assert kept[i] in kept;
    }
  }

  /** A host clock set to UTC. */
  function Utc(u: int): int
  {
    0
  }

  /** 2024-04-10T00:00Z: day 19823 of the epoch. */
  const AprilTenth: int := 19823 * MsPerDay

  /** The bill of room "101" of facility "Sunrise", 1000000 VND, paid at
      instant t. */
  function SunriseReceipt(t: int): Receipt
  {
    Receipt("bill-1", "Sunrise", "101", 1000000, Some(t))
  }

  lemma AprilPaymentDate(t: int)
    requires t == AprilTenth
    ensures PaymentPeriod(SunriseReceipt(t), Utc) == Some((4, 2024))
    ensures LocalDate(TimeClip(SunriseReceipt(t).paymentDate), Utc) == Some(CalendarDate(2024, 4, 10))
  {
    var r := SunriseReceipt(t);
    assert TimeClip(r.paymentDate) == Some(t);
    LocalDateOfAprilTenth(t);
  }

  lemma LocalDateOfAprilTenth(t: int)
    requires t == AprilTenth
    ensures LocalDate(Some(t), Utc) == Some(CalendarDate(2024, 4, 10))
  {
    assert Day(t + Utc(t)) == 19823;
    DateOfAprilTenth(Day(t + Utc(t)));
  }

  lemma DateOfAprilTenth(n: int)
    requires n == 19823
    ensures DateFromDay(n) == CalendarDate(2024, 4, 10)
  {
    var c := CalendarDate(2024, 4, 10);
    assert DayFromDate(c) == n;
    DateFromDayOfDate(c);
  }

  lemma SmallNumerals()
    ensures IntToDecimal(3) == "3" && IntToDecimal(4) == "4" && IntToDecimal(2024) == "2024"
  {
    assert NatToDecimal(2) == "2";
    assert NatToDecimal(20) == "20";
    assert NatToDecimal(202) == "202";
  }

  /** With nothing selected the page shows the bill paid on 2024-04-10 as
      one row whose period is "4/2024". */
  lemma AprilReceiptShown()
    ensures Render(false, Filters("", "", "", ""), Utc, [SunriseReceipt(AprilTenth)])
         == Table([Row("bill-1", "Sunrise", "101", 1000000, "4/2024", Some(CalendarDate(2024, 4, 10)))])
  {
    AprilReceiptShownAt(AprilTenth);
  }

  /** The scenario lemmas below take the instant as a parameter pinned by
      their precondition: stated on the constant itself, their goals make
      the solver unfold the calendar search on literal arguments. */
  lemma AprilReceiptShownAt(t: int)
    requires t == AprilTenth
    ensures Render(false, Filters("", "", "", ""), Utc, [SunriseReceipt(t)])
         == Table([Row("bill-1", "Sunrise", "101", 1000000, "4/2024", Some(CalendarDate(2024, 4, 10)))])
  {
    var r := SunriseReceipt(t);
    FilterWithoutSelection(Filters("", "", "", ""), Utc, [r]);
    AprilRow(t);
    RenderOne(Filters("", "", "", ""), Utc, r);
  }

  lemma RenderOne(f: Filters, zone: Zone, r: Receipt)
    requires FilteredReceipts(f, zone, [r]) == [r]
    ensures Render(false, f, zone, [r]) == Table([RowOf(r, zone)])
  {
    assert Rows([r], zone) == [RowOf(r, zone)];
  }

  lemma AprilRow(t: int)
    requires t == AprilTenth
    ensures RowOf(SunriseReceipt(t), Utc)
         == Row("bill-1", "Sunrise", "101", 1000000, "4/2024", Some(CalendarDate(2024, 4, 10)))
  {
    AprilPaymentDate(t);
    AprilLabel(t);
  }

  lemma AprilLabel(t: int)
    requires t == AprilTenth
    ensures PeriodLabel(SunriseReceipt(t), Utc) == "4/2024"
  {
    var r := SunriseReceipt(t);
    AprilPaymentDate(t);
    assert PaymentMonth(r, Utc) == Some(4) && PaymentYear(r, Utc) == Some(2024);
    SmallNumerals();
    var month, year := NumberToString(PaymentMonth(r, Utc)), NumberToString(PaymentYear(r, Utc));
    assert month == "4" && year == "2024";
    AprilText(month, year);
  }

  /** The concatenation on its own: inside AprilLabel the same step runs out
      of resource. */
  lemma AprilText(month: string, year: string)
    requires month == "4" && year == "2024"
    ensures month + "/" + year == "4/2024"
  {
  }

  /** Selecting a facility the bill does not belong to still shows it. */
  lemma OtherFacilityStillShown(t: int)
    ensures FilteredReceipts(Filters("", "", "Other", ""), Utc, [SunriseReceipt(t)]) == [SunriseReceipt(t)]
  {
    OnlyFacilityKeepsAll(Filters("", "", "Other", ""), Utc, [SunriseReceipt(t)]);
  }

  /** March 2024 hides the bill paid in April 2024; April 2024 shows it. */
  lemma AprilReceiptByPeriod()
    ensures FilteredReceipts(Filters("3", "2024", "", ""), Utc, [SunriseReceipt(AprilTenth)]) == []
    ensures FilteredReceipts(Filters("4", "2024", "", ""), Utc, [SunriseReceipt(AprilTenth)]) == [SunriseReceipt(AprilTenth)]
  {
    MarchHidesAt(AprilTenth);
    AprilShowsAt(AprilTenth);
  }

  lemma MarchHidesAt(t: int)
    requires t == AprilTenth
    ensures FilteredReceipts(Filters("3", "2024", "", ""), Utc, [SunriseReceipt(t)]) == []
  {
    AprilPaymentDate(t);
    SmallNumerals();
    FilterOneOtherMonth("3", "2024", 3, 2024, Utc, SunriseReceipt(t));
  }

  lemma AprilShowsAt(t: int)
    requires t == AprilTenth
    ensures FilteredReceipts(Filters("4", "2024", "", ""), Utc, [SunriseReceipt(t)]) == [SunriseReceipt(t)]
  {
    AprilPaymentDate(t);
    SmallNumerals();
    FilterOneByChosenPeriod(4, 2024, Utc, SunriseReceipt(t));
  }

  /** A one-receipt list under a chosen month and year. */
  lemma FilterOneByChosenPeriod(month: int, year: int, zone: Zone, r: Receipt)
    ensures FilteredReceipts(Filters(IntToDecimal(month), IntToDecimal(year), "", ""), zone, [r])
         == if PeriodMatches(Some(month), Some(year), r, zone) then [r] else []
  {
    KeepBySelectedPeriod(Some(month), Some(year), "", "", zone, r);
    FilterOne(Filters(SelectValue(Some(month)), SelectValue(Some(year)), "", ""), zone, r);
  }

  /** A one-receipt list under a chosen month the receipt was not paid in. */
  lemma FilterOneOtherMonth(monthText: string, yearText: string, month: int, year: int, zone: Zone, r: Receipt)
    requires monthText == IntToDecimal(month) && yearText == IntToDecimal(year)
    requires PaymentPeriod(r, zone).Some? && PaymentPeriod(r, zone).value.0 != month
    ensures FilteredReceipts(Filters(monthText, yearText, "", ""), zone, [r]) == []
  {
    FilterOneByChosenPeriod(month, year, zone, r);
  }

  lemma FilterOne(f: Filters, zone: Zone, r: Receipt)
    ensures FilteredReceipts(f, zone, [r]) == if Keep(f, zone, r) then [r] else []
  {
    assert [r][1..] == [];
  }
}
