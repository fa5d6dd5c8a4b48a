/** The dashboard's GSTR-1 filing panel,
    frontend/app/components/dashboard/gstFiling.tsx: the invoices from the
    API, de-duplicated by key (lines 95-101), mapped to display rows with
    their raw numbers (lines 103-156), totalled (lines 217-228) and
    exported as a summary rounded to paise (lines 174-205). Fetching,
    rendering, the display strings and the download are left out. */
module FilingDashboard {
  import opened JsText
  import opened JsNumber
  import opened JsValues
  import opened Sums
  import opened SafeNumber
  import opened KeyedDedupe
  import FilingPage

  // ---------------------------------------------------------------------
  // toNumSafe (lines 37-65)
  // ---------------------------------------------------------------------

  /** The rupee sign as the file spells it: the three characters "â‚¹"
      that its UTF-8 bytes give when read as Windows-1252. */
  const MisencodedRupee: string := "\U{00E2}\U{201A}\U{00B9}"

  /** The literal alternatives of `/â‚¹|Rs\.?|%|,|\s/g`, as written. */
  const TokensAsWritten: seq<string> := [MisencodedRupee, "Rs.", "Rs", "%", ","]

  /** The same with the rupee sign itself, as the comment above the
      function ("strips currency symbols") intends. */
  const PanelTokens: seq<string> := [Rupee, "Rs.", "Rs", "%", ","]

  /** The panel's `toNumSafe` as written. */
  function SafeAsWritten(v: JsValue): (r: real)
    ensures v.Number? && v.n.Fin? ==> r == v.n.val
    ensures IsNullish(v) ==> r == 0.0
  {
    ToNumSafe(v, TokensAsWritten)
  }

  /** The panel's `toNumSafe` with the rupee sign stripped; the rest of
      the panel uses this one. */
  function PanelSafe(v: JsValue): (r: real)
    ensures v.Number? && v.n.Fin? ==> r == v.n.val
    ensures IsNullish(v) ==> r == 0.0
  {
    ToNumSafe(v, PanelTokens)
  }

  /** An amount the backend formats, "₹1,25,000": the file's token never
      matches the real rupee sign, so the string reads as 0. */
  lemma RupeeAmountIsZeroAsWritten(g: string)
    requires GroupedDigits(g)
    ensures SafeAsWritten(Str(Rupee + g)) == 0.0
  {
    assert Rupee + g == [Rupee[0]] + g;
    UnstrippedMarkIsZero(Rupee[0], g, TokensAsWritten);
  }

  /** With the rupee sign stripped the same string reads as its amount. */
  lemma RupeeAmountRoundTrip(g: string)
    requires GroupedDigits(g)
    ensures PanelSafe(Str(Rupee + g)) == GroupedValue(g) as real
  {
    MarkedAmountRoundTrip(Rupee, g, PanelTokens);
  }

  // ---------------------------------------------------------------------
  // De-duplication (lines 95-101)
  // ---------------------------------------------------------------------

  /** The first `n` characters of `s`: `s.slice(0, n)`. */
  function Prefix(s: string, n: nat): (r: string)
    ensures |r| <= n && |r| <= |s| && r == s[..|r|]
    ensures |s| <= n ==> r == s
  {
    if |s| <= n then s else s[..n]
  }

  /** A value used as a property name: its `String` text. A number's text
      is the platform's shortest decimal, a parameter here. */
  function PropertyKey(v: JsValue, numberText: real -> string): string {
    match v
    case Number(n) => if n.Fin? then numberText(n.val) else "NaN"
    case _ => StringOf(v)
  }

  /** `it._id || it.id || it.fileName || JSON.stringify(it).slice(0, 40)`,
      as the property name it becomes. `JSON.stringify` is a parameter. */
  function KeyOf(it: JsValue, stringify: JsValue -> string, numberText: real -> string): (k: string)
    ensures Get(it, "_id").Str? && Truthy(Get(it, "_id")) ==> k == Get(it, "_id").s
    ensures !Truthy(Get(it, "_id")) && !Truthy(Get(it, "id")) && !Truthy(Get(it, "fileName")) ==>
      k == Prefix(stringify(it), 40)
  {
    PropertyKey(Or(Get(it, "_id"), Or(Get(it, "id"), Or(Get(it, "fileName"), Str(Prefix(stringify(it), 40))))), numberText)
  }

  /** Reading a property of `null` or `undefined` throws, and the `catch`
      leaves the list empty. */
  method LoadUnique(rawList: seq<JsValue>, stringify: JsValue -> string, numberText: real -> string)
    returns (r: seq<JsValue>)
    ensures (exists i | 0 <= i < |rawList| :: IsNullish(rawList[i])) ==> r == []
    ensures (forall i | 0 <= i < |rawList| :: Truthy(rawList[i])) ==> r == FirstPerKey(rawList, it => KeyOf(it, stringify, numberText))
  {
    if exists i | 0 <= i < |rawList| :: IsNullish(rawList[i]) {
      r := [];
    } else {
      r := Dedupe(rawList, it => KeyOf(it, stringify, numberText), Truthy);
    }
  }

  // ---------------------------------------------------------------------
  // Mapping (lines 103-156)
  // ---------------------------------------------------------------------

  /** `a || b || c || 0` over numbers: the first that is not 0. */
  function FirstNonZero(a: real, b: real, c: real): (r: real)
    ensures r == a || r == b || r == c
    ensures a != 0.0 ==> r == a
    ensures a == 0.0 && b != 0.0 ==> r == b
    ensures r == 0.0 <==> a == 0.0 && b == 0.0 && c == 0.0
  {
    if a != 0.0 then a else if b != 0.0 then b else c
  }

  /** The GST amount: the invoice's, else the adjusted one, else what the
      total holds above the taxable value, never below 0. */
  function GstAmount(invoiceAmount: real, adjusted: real, total: real, taxable: real): (r: real)
    ensures invoiceAmount != 0.0 ==> r == invoiceAmount
    ensures invoiceAmount == 0.0 && adjusted != 0.0 ==> r == adjusted
    ensures invoiceAmount == 0.0 && adjusted == 0.0 ==> r >= 0.0 && r >= total - taxable
    ensures invoiceAmount == 0.0 && adjusted == 0.0 && total >= taxable ==> r + taxable == total
  {
    if invoiceAmount != 0.0 then invoiceAmount
    else if adjusted != 0.0 then adjusted
    else if total - taxable > 0.0 then total - taxable else 0.0
  }

  /** The placeholder as the source file spells it: the UTF-8 bytes of an
      em dash read back as Windows-1252, giving three characters. */
  const Dash: string := "\U{00E2}\U{20AC}\U{201D}"

  /** The raw numbers kept with a display row. */
  datatype Raw = Raw(
    totalInvoice: real,
    gstRateInvoice: real,
    gstAmountInvoice: real,
    gstRateAdjusted: real,
    totalGstAdjusted: real,
    taxableValue: real,
    filePath: JsValue)

  /** A display row; the formatted total, rate and amount strings are left
      out, their numbers kept. */
  datatype UiInvoice = UiInvoice(
    id: JsValue,
    vendor: JsValue,
    invoiceNo: JsValue,
    gstin: JsValue,
    hsn: JsValue,
    rate: real,
    gstAmount: real,
    gstVerified: bool,
    raw: Raw)

  /** One invoice mapped for display. */
  function MapInvoice(inv: JsValue): (u: UiInvoice)
    ensures u.raw.totalInvoice ==
      FirstNonZero(PanelSafe(Get(inv, "totalInvoice")), PanelSafe(Get(inv, "totalInvoiceDisplay")), PanelSafe(Get(inv, "total")))
    ensures u.rate ==
      FirstNonZero(PanelSafe(Get(inv, "gstRateInvoice")), PanelSafe(Get(inv, "gstRateAdjusted")), PanelSafe(Get(inv, "gstRate")))
    ensures u.raw.taxableValue == FilingPage.Taxable(PanelSafe(Get(inv, "taxableValue")), u.raw.totalInvoice, u.rate)
    ensures u.gstAmount == GstAmount(u.raw.gstAmountInvoice, u.raw.totalGstAdjusted, u.raw.totalInvoice, u.raw.taxableValue)
    ensures u.raw.gstAmountInvoice == PanelSafe(Get(inv, "gstAmountInvoice"))
    ensures u.raw.totalGstAdjusted == PanelSafe(Get(inv, "totalGstAdjusted"))
    ensures Truthy(Get(inv, "vendor")) ==> u.vendor == Get(inv, "vendor")
    ensures !Truthy(Get(inv, "vendor")) ==> u.vendor == Str("Unknown")
    ensures !Truthy(Get(inv, "gstin")) ==> u.gstin == Str(Dash)
    ensures u.gstVerified <==> Truthy(Get(inv, "gstVerified"))
    // A stored invoice GST amount is shown as it is.
    ensures PanelSafe(Get(inv, "gstAmountInvoice")) != 0.0 ==> u.gstAmount == PanelSafe(Get(inv, "gstAmountInvoice"))
  {
    var total := FirstNonZero(PanelSafe(Get(inv, "totalInvoice")), PanelSafe(Get(inv, "totalInvoiceDisplay")), PanelSafe(Get(inv, "total")));
    var rate := FirstNonZero(PanelSafe(Get(inv, "gstRateInvoice")), PanelSafe(Get(inv, "gstRateAdjusted")), PanelSafe(Get(inv, "gstRate")));
    var taxable := FilingPage.Taxable(PanelSafe(Get(inv, "taxableValue")), total, rate);
    var invoiceAmount := PanelSafe(Get(inv, "gstAmountInvoice"));
    var adjusted := PanelSafe(Get(inv, "totalGstAdjusted"));
    var gst := GstAmount(invoiceAmount, adjusted, total, taxable);
    var filePath := Or(Get(inv, "filePath"), Null);
    UiInvoice(
      Get(inv, "_id"),
      Or(Get(inv, "vendor"), Str("Unknown")),
      Or(Get(inv, "invoiceNo"), Or(Get(inv, "fileName"), Str(Dash))),
      Or(Get(inv, "gstin"), Str(Dash)),
      Or(Get(inv, "hsn"), Str(Dash)),
      rate, gst, Truthy(Get(inv, "gstVerified")),
      Raw(total, PanelSafe(Get(inv, "gstRateInvoice")), invoiceAmount, PanelSafe(Get(inv, "gstRateAdjusted")),
        adjusted, taxable, filePath))
  }

  /** With no GST amounts stored, a taxable value worked back from a
      positive total at a positive rate leaves exactly the GST at that
      rate: the amount shown is the taxable value times the rate. */
  lemma DerivedGstIsRateShare(total: real, rate: real)
    requires total > 0.0 && rate > 0.0
    ensures var taxable := FilingPage.Taxable(0.0, total, rate);
      GstAmount(0.0, 0.0, total, taxable) == taxable * (rate / 100.0)
    ensures var taxable := FilingPage.Taxable(0.0, total, rate);
      taxable + GstAmount(0.0, 0.0, total, taxable) == total
  {
    var taxable := FilingPage.Taxable(0.0, total, rate);
    var c := rate / 100.0;
    assert taxable * (1.0 + c) == total;
    assert total - taxable == taxable * c;
    assert taxable > 0.0 by {
      assert taxable == total / (1.0 + c);
    }
  }

  /** A mapped row with no GST and no taxable value stored, but a positive
      total at a positive rate, splits the total into a taxable value and
      the GST at that rate. */
  lemma MappedGstIsRateShare(inv: JsValue)
    requires PanelSafe(Get(inv, "gstAmountInvoice")) == 0.0 && PanelSafe(Get(inv, "totalGstAdjusted")) == 0.0
    requires PanelSafe(Get(inv, "taxableValue")) == 0.0
    ensures var u := MapInvoice(inv);
      u.raw.totalInvoice > 0.0 && u.rate > 0.0 ==>
        && u.gstAmount == u.raw.taxableValue * (u.rate / 100.0)
        && u.raw.taxableValue + u.gstAmount == u.raw.totalInvoice
  {
    RowGstIsRateShare(MapInvoice(inv), PanelSafe(Get(inv, "taxableValue")));
  }

  lemma RowGstIsRateShare(u: UiInvoice, stored: real)
    requires stored == 0.0 && u.raw.gstAmountInvoice == 0.0 && u.raw.totalGstAdjusted == 0.0
    requires u.raw.taxableValue == FilingPage.Taxable(stored, u.raw.totalInvoice, u.rate)
    requires u.gstAmount == GstAmount(u.raw.gstAmountInvoice, u.raw.totalGstAdjusted, u.raw.totalInvoice, u.raw.taxableValue)
    ensures u.raw.totalInvoice > 0.0 && u.rate > 0.0 ==>
      && u.gstAmount == u.raw.taxableValue * (u.rate / 100.0)
      && u.raw.taxableValue + u.gstAmount == u.raw.totalInvoice
  {
    if u.raw.totalInvoice > 0.0 && u.rate > 0.0 {
      DerivedGstIsRateShare(u.raw.totalInvoice, u.rate);
    }
  }

  // ---------------------------------------------------------------------
  // Totals and counts (lines 217-228)
  // ---------------------------------------------------------------------

  /** The GST a row adds to the panel's total (line 221). */
  function RowGst(u: UiInvoice): real {
    var r := u.raw;
    FirstNonZero(r.gstAmountInvoice, r.totalGstAdjusted,
      if r.totalInvoice - r.taxableValue > 0.0 then r.totalInvoice - r.taxableValue else 0.0)
  }

  /** The panel's total recomputes from the raw numbers exactly the GST
      amount the mapping showed on the row. */
  lemma RowGstIsShownAmount(inv: JsValue)
    ensures RowGst(MapInvoice(inv)) == MapInvoice(inv).gstAmount
  {
    RowGstOfShownAmount(MapInvoice(inv));
  }

  /** The panel's recomputation agrees with the GST amount of any row
      whose amount was worked out from its own raw numbers. */
  lemma RowGstOfShownAmount(u: UiInvoice)
    requires u.gstAmount == GstAmount(u.raw.gstAmountInvoice, u.raw.totalGstAdjusted, u.raw.totalInvoice, u.raw.taxableValue)
    ensures RowGst(u) == u.gstAmount
  {
  }

  function RowTaxables(us: seq<UiInvoice>): (r: seq<real>)
    ensures |r| == |us| && forall i | 0 <= i < |us| :: r[i] == us[i].raw.taxableValue
    decreases |us|
  {
    if us == [] then [] else RowTaxables(us[..|us| - 1]) + [us[|us| - 1].raw.taxableValue]
  }

  function RowGsts(us: seq<UiInvoice>): (r: seq<real>)
    ensures |r| == |us| && forall i | 0 <= i < |us| :: r[i] == RowGst(us[i])
    decreases |us|
  {
    if us == [] then [] else RowGsts(us[..|us| - 1]) + [RowGst(us[|us| - 1])]
  }

  /** The B2B test of line 227: a GSTIN that is there, and is neither the
      dash placeholder nor "Not found". */
  predicate IsB2b(u: UiInvoice) {
    Truthy(u.gstin) && u.gstin != Str(Dash) && u.gstin != Str("Not found")
  }

  function CountB2b(us: seq<UiInvoice>): (n: nat)
    ensures n <= |us|
    decreases |us|
  {
    if us == [] then 0
    else CountB2b(us[..|us| - 1]) + (if IsB2b(us[|us| - 1]) then 1 else 0)
  }

  function CountNotB2b(us: seq<UiInvoice>): nat
    decreases |us|
  {
    if us == [] then 0
    else CountNotB2b(us[..|us| - 1]) + (if IsB2b(us[|us| - 1]) then 0 else 1)
  }

  datatype Panel = Panel(
    totalTaxable: real,
    totalGst: real,
    averageRate: real,
    b2bCount: nat,
    b2cCount: nat)

  /** The panel figures: the two reductions, the average rate, and the
      counts, B2C being what is not B2B. */
  function PanelOf(us: seq<UiInvoice>): (p: Panel)
    ensures p.totalTaxable == SumReals(RowTaxables(us)) && p.totalGst == SumReals(RowGsts(us))
    ensures p.averageRate == FilingPage.AverageRate(p.totalTaxable, p.totalGst)
    ensures p.b2bCount + p.b2cCount == |us|
    ensures p.b2cCount == CountNotB2b(us)
  {
    CountsPartition(us);
    var t := SumReals(RowTaxables(us));
    var g := SumReals(RowGsts(us));
    Panel(t, g, FilingPage.AverageRate(t, g), CountB2b(us), |us| - CountB2b(us))
  }

  /** Every row is B2B or B2C, never both. */
  lemma {:induction false} CountsPartition(us: seq<UiInvoice>)
    ensures CountB2b(us) + CountNotB2b(us) == |us|
    decreases |us|
  {
    if us != [] {
      CountsPartition(us[..|us| - 1]);
    }
  }

  // ---------------------------------------------------------------------
  // Export (lines 174-205)
  // ---------------------------------------------------------------------

  /** A value in whole paise. */
  predicate OnGrid(x: real) {
    (x * 100.0).Floor as real == x * 100.0
  }

  datatype ExportRow = ExportRow(taxableValue: real, gstRate: real, gstAmount: real)

  datatype Export = Export(totalInvoices: nat, totalTaxableValue: real, totalGst: real, rows: seq<ExportRow>)

  /** One exported row: the taxable value rounded to paise, and the GST
      amount worked from the rounded taxable value, rounded in turn. */
  function ExportRowOf(u: UiInvoice): (e: ExportRow)
    ensures OnGrid(e.taxableValue) && OnGrid(e.gstAmount)
    ensures e.gstRate == FirstNonZero(u.raw.gstRateInvoice, u.raw.gstRateAdjusted, 0.0)
    ensures e.taxableValue == Round2(u.raw.taxableValue)
    ensures u.raw.gstAmountInvoice != 0.0 ==> e.gstAmount == Round2(u.raw.gstAmountInvoice)
    ensures u.raw.gstAmountInvoice == 0.0 && u.raw.totalGstAdjusted != 0.0 ==> e.gstAmount == Round2(u.raw.totalGstAdjusted)
    ensures u.raw.gstAmountInvoice == 0.0 && u.raw.totalGstAdjusted == 0.0 ==>
      e.gstAmount == Round2(if u.raw.totalInvoice - e.taxableValue > 0.0 then u.raw.totalInvoice - e.taxableValue else 0.0)
  {
    var r := u.raw;
    var tax := Round2(r.taxableValue);
    var derived := if r.totalInvoice - tax > 0.0 then r.totalInvoice - tax else 0.0;
    var gst := Round2(FirstNonZero(r.gstAmountInvoice, r.totalGstAdjusted, derived));
    Round2OnGrid(r.taxableValue);
    Round2OnGrid(FirstNonZero(r.gstAmountInvoice, r.totalGstAdjusted, derived));
    ExportRow(tax, FirstNonZero(r.gstRateInvoice, r.gstRateAdjusted, 0.0), gst)
  }

  /** Whole paise are on the grid. */
  lemma HundredthsOnGrid(k: int)
    ensures OnGrid((k as real) / 100.0)
  {
    assert ((k as real) / 100.0) * 100.0 == k as real;
  }

  /** A value on the grid is a whole number of paise. */
  lemma GridHundredths(x: real)
    requires OnGrid(x)
    ensures x == ((x * 100.0).Floor as real) / 100.0
  {
  }

  /** Rounding to paise lands on whole paise. */
  lemma Round2OnGrid(x: real)
    ensures OnGrid(Round2(x))
  {
    var y := if x < 0.0 then -x else x;
    var k := (y * 100.0 + 0.5).Floor;
    assert RoundHalfUp(y) == (k as real) / 100.0;
    if x < 0.0 {
      assert Round2(x) == ((-k) as real) / 100.0;
      HundredthsOnGrid(-k);
    } else {
      HundredthsOnGrid(k);
    }
  }

  /** A value already in whole paise is left alone by rounding. */
  lemma Round2OfGrid(x: real)
    requires OnGrid(x)
    ensures Round2(x) == x
  {
    var k := (x * 100.0).Floor;
    GridHundredths(x);
    if x < 0.0 {
      assert -x == ((-k) as real) / 100.0;
      assert (-x) * 100.0 + 0.5 == ((-k) as real) + 0.5;
      assert ((-x) * 100.0 + 0.5).Floor == -k;
    } else {
      assert x * 100.0 + 0.5 == (k as real) + 0.5;
      assert (x * 100.0 + 0.5).Floor == k;
    }
  }

  /** Sums of whole paise are whole paise. */
  lemma {:induction false} SumOnGrid(xs: seq<real>)
    requires forall i | 0 <= i < |xs| :: OnGrid(xs[i])
    ensures OnGrid(SumReals(xs))
    decreases |xs|
  {
    if xs != [] {
      var n := |xs| - 1;
      SumOnGrid(xs[..n]);
      var ka := (SumReals(xs[..n]) * 100.0).Floor;
      var kb := (xs[n] * 100.0).Floor;
      GridHundredths(SumReals(xs[..n]));
      GridHundredths(xs[n]);
      assert SumReals(xs) == ((ka + kb) as real) / 100.0;
      HundredthsOnGrid(ka + kb);
    }
  }

  function ExportTaxables(rows: seq<ExportRow>): (r: seq<real>)
    ensures |r| == |rows| && forall i | 0 <= i < |rows| :: r[i] == rows[i].taxableValue
    decreases |rows|
  {
    if rows == [] then [] else ExportTaxables(rows[..|rows| - 1]) + [rows[|rows| - 1].taxableValue]
  }

  function ExportGsts(rows: seq<ExportRow>): (r: seq<real>)
    ensures |r| == |rows| && forall i | 0 <= i < |rows| :: r[i] == rows[i].gstAmount
    decreases |rows|
  {
    if rows == [] then [] else ExportGsts(rows[..|rows| - 1]) + [rows[|rows| - 1].gstAmount]
  }

  /** One more row adds its amounts to the sums. */
  lemma ExportSumsStep(rows: seq<ExportRow>, row: ExportRow)
    ensures SumReals(ExportTaxables(rows + [row])) == SumReals(ExportTaxables(rows)) + row.taxableValue
    ensures SumReals(ExportGsts(rows + [row])) == SumReals(ExportGsts(rows)) + row.gstAmount
  {
    var next := rows + [row];
    assert next[..|next| - 1] == rows;
    assert ExportTaxables(next)[..|rows|] == ExportTaxables(rows);
    assert ExportGsts(next)[..|rows|] == ExportGsts(rows);
  }

  /** `generateGSTR1`: rows rounded one by one, summed, and the sums
      rounded once more. Since the rows are already in whole paise, the
      final rounding changes nothing: the totals are the exact sums of the
      exported rows. */
  method GenerateExport(us: seq<UiInvoice>) returns (e: Export)
    ensures e.totalInvoices == |us| && |e.rows| == |us|
    ensures forall i | 0 <= i < |us| :: e.rows[i] == ExportRowOf(us[i])
    ensures e.totalTaxableValue == SumReals(ExportTaxables(e.rows))
    ensures e.totalGst == SumReals(ExportGsts(e.rows))
    ensures OnGrid(e.totalTaxableValue) && OnGrid(e.totalGst)
  {
    var rows: seq<ExportRow> := [];
    var totalTaxable := 0.0;
    var totalGst := 0.0;
    var i := 0;
    while i < |us|
      invariant 0 <= i <= |us|
      invariant |rows| == i
      invariant forall j | 0 <= j < i :: rows[j] == ExportRowOf(us[j])
      invariant totalTaxable == SumReals(ExportTaxables(rows))
      invariant totalGst == SumReals(ExportGsts(rows))
    {
      var row := ExportRowOf(us[i]);
      var next := rows + [row];
      ExportSumsStep(rows, row);
      totalTaxable := totalTaxable + row.taxableValue;
      totalGst := totalGst + row.gstAmount;
      rows := next;
      i := i + 1;
    }
    SumOnGrid(ExportTaxables(rows));
    SumOnGrid(ExportGsts(rows));
    Round2OfGrid(totalTaxable);
    Round2OfGrid(totalGst);
    e := Export(|us|, Round2(totalTaxable), Round2(totalGst), rows);
  }
}
