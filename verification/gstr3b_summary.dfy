/** `GET /api/gstr3b/summary` of backend/routes/gstr3b.js: the month asked
    for, the invoices dated in it, and their GSTR-3B totals. The clock and
    the database are inputs: "now" is a date, and the stored invoices
    arrive as a list that the month's window filters. */
module Gstr3bSummary {
  import opened JsText
  import opened JsNumber
  import opened Optional
  import opened Sums
  import opened InvoiceDate
  import Patterns
  import SeqUtil
  import Reconcile

  // ---------------------------------------------------------------------
  // The month (lines 10-23)
  // ---------------------------------------------------------------------

  /** `/^\d{4}-\d{2}$/`. */
  predicate MonthShaped(s: string) {
    |s| == 7 && AllDigits(s[..4]) && s[4] == '-' && AllDigits(s[5..])
  }

  /** The month asked for: its label, its year and its 0-based index, which
      may fall outside 0..11 (`"2025-00"` gives -1, `"2025-13"` gives 12). */
  datatype Period = Period(month: string, year: int, monthIndex: int)

  /** `${year}-${String(monthIndex + 1).padStart(2, "0")}`. */
  function MonthLabel(year: nat, month: nat): (s: string)
    requires month < 12
  {
    NatToString(year) + "-" + Pad2(month + 1)
  }

  /** A "YYYY-MM" query is read as it stands; anything else (including no
      query) falls back to the current month. */
  function ParseMonth(query: Option<string>, now: Date): (p: Period)
    requires Valid(now) && now.year >= 0
    ensures query.Some? && MonthShaped(query.value) ==>
      && p.month == query.value
      && p.year == DigitsValue(query.value[..4])
      && p.monthIndex == DigitsValue(query.value[5..]) - 1
      && -1 <= p.monthIndex <= 98
    ensures !(query.Some? && MonthShaped(query.value)) ==>
      p == Period(MonthLabel(now.year, now.month), now.year, now.month)
  {
    if query.Some? && MonthShaped(query.value) then
      var s := query.value;
      DigitsValueBound(s[5..]);
      Period(s, DigitsValue(s[..4]), DigitsValue(s[5..]) - 1)
    else Period(MonthLabel(now.year, now.month), now.year, now.month)
  }

  /** The label of the current month is itself a valid query for that
      month (for a four-digit year): asking for it explicitly gives the
      same period as asking for nothing. */
  lemma FallbackLabelRoundTrip(now: Date, other: Date)
    requires Valid(now) && 1000 <= now.year <= 9999
    requires Valid(other) && other.year >= 0
    ensures ParseMonth(Some(MonthLabel(now.year, now.month)), other) == ParseMonth(None, now)
  {
    var y := NatToString(now.year);
    var m := Pad2(now.month + 1);
    var s := y + "-" + m;
    NatToStringLength(now.year);
    Pad2Value(now.month + 1);
    DigitsValueOfNatToString(now.year);
    assert s[..4] == y;
    assert s[5..] == m;
    assert MonthShaped(s);
  }

  // ---------------------------------------------------------------------
  // The window (lines 25-32)
  // ---------------------------------------------------------------------

  /** `[new Date(year, monthIndex, 1), new Date(year, monthIndex + 1, 1))`. */
  predicate InWindow(p: Period, d: Date) {
    var start := NewDate(p.year, p.monthIndex, 1);
    var end := NewDate(p.year, p.monthIndex + 1, 1);
    !Before(d, start) && Before(d, end)
  }

  /** The calendar month the window starts in, after `new Date` has folded
      the index into 0..11 and mapped years 0..99 to 1900..1999. */
  function WindowMonth(p: Period): (r: (int, nat))
    ensures r.1 < 12
  {
    var year := if 0 <= p.year <= 99 then 1900 + p.year else p.year;
    (year + p.monthIndex / 12, p.monthIndex % 12)
  }

  /** The two ends are the first of the month and the first of the month
      after. */
  lemma WindowEnds(p: Period)
    ensures var (y, m) := WindowMonth(p);
      && NewDate(p.year, p.monthIndex, 1) == Date(y, m, 1)
      && NewDate(p.year, p.monthIndex + 1, 1) == Date(NextMonth(y, m).0, NextMonth(y, m).1, 1)
  {
    var base := if 0 <= p.year <= 99 then 1900 + p.year else p.year;
    var k := p.monthIndex;
    var q, r := k / 12, k % 12;
    assert k == 12 * q + r && 0 <= r < 12;
    if r == 11 {
      assert k + 1 == 12 * (q + 1);
      assert (k + 1) / 12 == q + 1 && (k + 1) % 12 == 0;
    } else {
      assert k + 1 == 12 * q + (r + 1);
      assert (k + 1) / 12 == q && (k + 1) % 12 == r + 1;
    }
  }

  /** The window holds exactly the days of one calendar month: a valid date
      is in it if and only if it falls in that month. */
  lemma WindowIsOneMonth(p: Period, d: Date)
    requires Valid(d)
    ensures InWindow(p, d) <==> (d.year, d.month) == WindowMonth(p)
  {
    WindowEnds(p);
  }

  /** A stored invoice as the route reads it. `supplierGstin` is read under
      that spelling; a missing field is `None`. */
  datatype StoredInvoice = StoredInvoice(
    invoiceDate: Option<Date>,
    gstin: Option<string>,
    supplierGstin: Option<string>,
    taxableValue: Option<real>,
    totalInvoice: Option<real>,
    igstAdjusted: Option<real>,
    igstInvoice: Option<real>,
    cgstAdjusted: Option<real>,
    cgstInvoice: Option<real>,
    sgstAdjusted: Option<real>,
    sgstInvoice: Option<real>)

  /** The query `invoiceDate: { $gte: start, $lt: end }`: an invoice with no
      date never matches. */
  predicate Selected(p: Period, inv: StoredInvoice) {
    inv.invoiceDate.Some? && InWindow(p, inv.invoiceDate.value)
  }

  function InPeriod(p: Period, invs: seq<StoredInvoice>): (r: seq<StoredInvoice>)
    ensures forall i | 0 <= i < |r| :: Selected(p, r[i])
    ensures forall inv | inv in invs && Selected(p, inv) :: inv in r
    ensures forall inv | inv in r :: inv in invs
    ensures forall inv :: multiset(r)[inv] == if Selected(p, inv) then multiset(invs)[inv] else 0
    decreases |invs|
  {
    if invs == [] then []
    else
      var rest := InPeriod(p, invs[1..]);
      assert invs == [invs[0]] + invs[1..];
      assert multiset(invs) == multiset{invs[0]} + multiset(invs[1..]);
      if Selected(p, invs[0]) then
        assert multiset([invs[0]] + rest) == multiset{invs[0]} + multiset(rest);
        [invs[0]] + rest
      else rest
  }

  // ---------------------------------------------------------------------
  // The summary (lines 45-84)
  // ---------------------------------------------------------------------

  predicate TruthyText(s: Option<string>) { s.Some? && s.value != "" }

  predicate TruthyAmount(x: Option<real>) { x.Some? && x.value != 0.0 }

  /** `gstin || supplierGstin || "Not found"`, and B2B when that is not
      the placeholder. */
  predicate IsB2b(inv: StoredInvoice) {
    var g := if TruthyText(inv.gstin) then inv.gstin.value
      else if TruthyText(inv.supplierGstin) then inv.supplierGstin.value
      else Patterns.NotFound;
    g != "" && g != Patterns.NotFound
  }

  /** `Number(taxableValue || totalInvoice || 0) || 0`. */
  function Taxable(inv: StoredInvoice): (r: real)
    ensures TruthyAmount(inv.taxableValue) ==> r == inv.taxableValue.value
    ensures !TruthyAmount(inv.taxableValue) && TruthyAmount(inv.totalInvoice) ==> r == inv.totalInvoice.value
    ensures !TruthyAmount(inv.taxableValue) && !TruthyAmount(inv.totalInvoice) ==> r == 0.0
  {
    if TruthyAmount(inv.taxableValue) then inv.taxableValue.value
    else if TruthyAmount(inv.totalInvoice) then inv.totalInvoice.value
    else 0.0
  }

  /** `Number(adjusted ?? invoice ?? 0) || 0`: an adjusted amount that is
      present wins even when it is 0. */
  function Component(adjusted: Option<real>, invoice: Option<real>): (r: real)
    ensures adjusted.Some? ==> r == adjusted.value
    ensures adjusted.None? && invoice.Some? ==> r == invoice.value
    ensures adjusted.None? && invoice.None? ==> r == 0.0
  {
    match adjusted
    case Some(a) => a
    case None => invoice.GetOr(0.0)
  }

  function Igst(inv: StoredInvoice): real { Component(inv.igstAdjusted, inv.igstInvoice) }
  function Cgst(inv: StoredInvoice): real { Component(inv.cgstAdjusted, inv.cgstInvoice) }
  function Sgst(inv: StoredInvoice): real { Component(inv.sgstAdjusted, inv.sgstInvoice) }

  datatype Column = TaxableCol | IgstCol | CgstCol | SgstCol

  function Cell(inv: StoredInvoice, c: Column): real {
    match c
    case TaxableCol => Taxable(inv)
    case IgstCol => Igst(inv)
    case CgstCol => Cgst(inv)
    case SgstCol => Sgst(inv)
  }

  /** How many invoices are B2B. */
  function CountB2b(invs: seq<StoredInvoice>): (n: nat)
    ensures n <= |invs|
    decreases |invs|
  {
    if invs == [] then 0
    else CountB2b(invs[..|invs| - 1]) + (if IsB2b(invs[|invs| - 1]) then 1 else 0)
  }

  datatype Gstr3b = Gstr3b(
    month: string,
    invoiceCount: nat,
    b2bCount: nat,
    b2cCount: nat,
    taxableTotal: real,
    igstTotal: real,
    cgstTotal: real,
    sgstTotal: real,
    totalTax: real)

  /** The running counts and sums of the route's loop. */
  datatype Running = Running(b2b: nat, b2c: nat, taxable: real, igst: real, cgst: real, sgst: real)

  /** One pass of the loop body: the invoice counted as B2B or B2C, its
      taxable value and components added. */
  function AddInvoice(t: Running, inv: StoredInvoice): Running {
    Running(
      if IsB2b(inv) then t.b2b + 1 else t.b2b,
      if IsB2b(inv) then t.b2c else t.b2c + 1,
      t.taxable + Taxable(inv), t.igst + Igst(inv), t.cgst + Cgst(inv), t.sgst + Sgst(inv))
  }

  /** The loop's state after the given invoices. */
  function Tally(invs: seq<StoredInvoice>): Running
    decreases |invs|
  {
    if invs == [] then Running(0, 0, 0.0, 0.0, 0.0, 0.0)
    else AddInvoice(Tally(invs[..|invs| - 1]), invs[|invs| - 1])
  }

  /** The running sum of a column. */
  function SumOf(t: Running, c: Column): real {
    match c
    case TaxableCol => t.taxable
    case IgstCol => t.igst
    case CgstCol => t.cgst
    case SgstCol => t.sgst
  }

  /** The loop's counts split the invoices and its sums are the column
      sums. */
  lemma TallyIsSums(invs: seq<StoredInvoice>)
    ensures var t := Tally(invs);
      && t.b2b == CountB2b(invs) && t.b2b + t.b2c == |invs|
      && t.taxable == SumReals(SeqUtil.Cells(invs, TaxableCol, Cell))
      && t.igst == SumReals(SeqUtil.Cells(invs, IgstCol, Cell))
      && t.cgst == SumReals(SeqUtil.Cells(invs, CgstCol, Cell))
      && t.sgst == SumReals(SeqUtil.Cells(invs, SgstCol, Cell))
  {
    TallyCounts(invs);
    TallySum(invs, TaxableCol);
    TallySum(invs, IgstCol);
    TallySum(invs, CgstCol);
    TallySum(invs, SgstCol);
  }

  lemma {:induction false} TallyCounts(invs: seq<StoredInvoice>)
    ensures Tally(invs).b2b == CountB2b(invs) && Tally(invs).b2b + Tally(invs).b2c == |invs|
    decreases |invs|
  {
    if invs != [] {
      TallyCounts(invs[..|invs| - 1]);
    }
  }

  lemma {:induction false} TallySum(invs: seq<StoredInvoice>, c: Column)
    ensures SumOf(Tally(invs), c) == SumReals(SeqUtil.Cells(invs, c, Cell))
    decreases |invs|
  {
    if invs != [] {
      var n := |invs| - 1;
      TallySum(invs[..n], c);
      var v := SeqUtil.Cells(invs, c, Cell);
      assert v[..n] == SeqUtil.Cells(invs[..n], c, Cell);
    }
  }

  /** The route's loop over the invoices of the period: every invoice is
      counted as B2B or B2C, and its taxable value and three components are
      added to the running totals. */
  method Summarize(p: Period, invs: seq<StoredInvoice>) returns (r: Gstr3b)
    ensures r.month == p.month && r.invoiceCount == |invs|
    ensures r.b2bCount == CountB2b(invs) && r.b2bCount + r.b2cCount == r.invoiceCount
    ensures r.taxableTotal == SumReals(SeqUtil.Cells(invs, TaxableCol, Cell))
    ensures r.igstTotal == SumReals(SeqUtil.Cells(invs, IgstCol, Cell))
    ensures r.cgstTotal == SumReals(SeqUtil.Cells(invs, CgstCol, Cell))
    ensures r.sgstTotal == SumReals(SeqUtil.Cells(invs, SgstCol, Cell))
    ensures r.totalTax == r.igstTotal + r.cgstTotal + r.sgstTotal
    ensures invs == [] ==> r == Gstr3b(p.month, 0, 0, 0, 0.0, 0.0, 0.0, 0.0, 0.0)
  {
    var t := Running(0, 0, 0.0, 0.0, 0.0, 0.0);
    var i := 0;
    while i < |invs|
      invariant 0 <= i <= |invs|
      invariant t == Tally(invs[..i])
    {
      assert invs[..i + 1][..i] == invs[..i];
      t := AddInvoice(t, invs[i]);
      i := i + 1;
    }
    assert invs[..i] == invs;
    TallyIsSums(invs);
    r := Gstr3b(p.month, |invs|, t.b2b, t.b2c, t.taxable, t.igst, t.cgst, t.sgst, t.igst + t.cgst + t.sgst);
  }

  /** The whole route: the month, the invoices of its window, their
      summary. `stored` is the requesting user's invoices, the store's
      `user: req.user.id` filter being left to the caller. */
  method MonthSummary(query: Option<string>, now: Date, stored: seq<StoredInvoice>) returns (r: Gstr3b)
    requires Valid(now) && now.year >= 0
    ensures var p := ParseMonth(query, now);
      && r.month == p.month
      && r.invoiceCount == |InPeriod(p, stored)|
      && r.b2bCount == CountB2b(InPeriod(p, stored))
      && r.b2bCount + r.b2cCount == r.invoiceCount
      && r.taxableTotal == SumReals(SeqUtil.Cells(InPeriod(p, stored), TaxableCol, Cell))
      && r.igstTotal == SumReals(SeqUtil.Cells(InPeriod(p, stored), IgstCol, Cell))
      && r.cgstTotal == SumReals(SeqUtil.Cells(InPeriod(p, stored), CgstCol, Cell))
      && r.sgstTotal == SumReals(SeqUtil.Cells(InPeriod(p, stored), SgstCol, Cell))
      && r.totalTax == r.igstTotal + r.cgstTotal + r.sgstTotal
  {
    var p := ParseMonth(query, now);
    r := Summarize(p, InPeriod(p, stored));
  }

  /** An invoice saved by the upload route, as this route reads it back:
      the supplier GSTIN is stored as `supplierGSTIN`, so the route's
      `supplierGstin` is never there. */
  function StoredOf(rec: Reconcile.InvoiceRecord): StoredInvoice {
    StoredInvoice(
      invoiceDate := rec.invoiceDate,
      gstin := Some(rec.gstin),
      supplierGstin := None,
      taxableValue := Some(rec.taxableValue),
      totalInvoice := Some(rec.totalInvoice),
      igstAdjusted := Some(rec.igstAdjusted),
      igstInvoice := Some(rec.igstInvoice),
      cgstAdjusted := Some(rec.cgstAdjusted),
      cgstInvoice := Some(rec.cgstInvoice),
      sgstAdjusted := Some(rec.sgstAdjusted),
      sgstInvoice := Some(rec.sgstInvoice))
  }

  /** An uploaded invoice enters GSTR-3B with its adjusted tax (even an
      adjusted 0 replaces the invoice's own figure), its whole total as the
      taxable value, and as B2B exactly when a GSTIN was read from it. */
  lemma UploadedInvoiceContributes(rec: Reconcile.InvoiceRecord)
    ensures var inv := StoredOf(rec);
      && Igst(inv) == rec.igstAdjusted && Cgst(inv) == rec.cgstAdjusted && Sgst(inv) == rec.sgstAdjusted
      && Taxable(inv) == (if rec.taxableValue != 0.0 then rec.taxableValue else rec.totalInvoice)
      && (IsB2b(inv) <==> rec.gstin != "" && rec.gstin != Patterns.NotFound)
  {
  }
}
