/** The GSTR-1 filing page, frontend/app/gst-filing/page.tsx (lines
    116-185): every invoice the API returns is normalised into a filing
    row (B2B or B2C, taxable value, rates, GST filed, whether the CBIC rate
    corrected it), and the rows are totalled. Fetching, rendering and the
    exports are left out. */
module FilingPage {
  import opened JsNumber
  import opened JsValues
  import opened Sums
  import opened SafeNumber

  /** The literal alternatives of `/₹|Rs\.?|,|\s/g`. */
  const PageTokens: seq<string> := [Rupee, "Rs.", "Rs", ","]

  /** This page's `toNumSafe`. */
  function Safe(v: JsValue): real {
    ToNumSafe(v, PageTokens)
  }

  const NotFound: string := "Not found"

  datatype Kind = B2b | B2c

  /** One normalised filing row (the original invoice is not copied). */
  datatype Row = Row(
    kind: Kind,
    gstin: JsValue,
    taxable: real,
    totalInvoice: real,
    rateInvoice: real,
    rateCbic: real,
    gstAmountInvoice: real,
    gstFiled: real,
    status: string,
    isCorrected: bool)

  // ---------------------------------------------------------------------
  // Per-invoice rules
  // ---------------------------------------------------------------------

  /** `inv.gstin || inv.supplierGstin || "Not found"`. */
  function GstinOf(inv: JsValue): JsValue {
    Or(Get(inv, "gstin"), Or(Get(inv, "supplierGstin"), Str(NotFound)))
  }

  /** B2B exactly when the first truthy of `gstin`, `supplierGstin` is
      there and is not the "Not found" placeholder. */
  function KindOf(inv: JsValue): (k: Kind)
    ensures var g := Get(inv, "gstin"); var s := Get(inv, "supplierGstin");
      k == B2b <==>
        (Truthy(g) && g != Str(NotFound)) || (!Truthy(g) && Truthy(s) && s != Str(NotFound))
  {
    var g := GstinOf(inv);
    if Truthy(g) && g != Str(NotFound) then B2b else B2c
  }

  /** The taxable value: the stored one when it is not 0; else the total
      with the GST taken out at the effective rate, when there is a total
      and a positive rate; else the total itself. */
  function Taxable(stored: real, total: real, rate: real): (r: real)
    ensures stored != 0.0 ==> r == stored
    ensures stored == 0.0 && total != 0.0 && rate > 0.0 ==> r * (1.0 + rate / 100.0) == total
    ensures stored == 0.0 && (total == 0.0 || rate <= 0.0) ==> r == total
  {
    if stored == 0.0 && total != 0.0 && rate > 0.0 then total / (1.0 + rate / 100.0)
    else if stored == 0.0 then total
    else stored
  }

  /** The GST filed: the adjusted amount for an unverified invoice that
      has one; otherwise the invoice's own amount, or the adjusted amount
      when the invoice gives none. */
  function GstFiled(verified: bool, invoiceAmount: real, adjusted: real): (r: real)
    ensures r == invoiceAmount || r == adjusted
    ensures r == 0.0 <==> invoiceAmount == 0.0 && adjusted == 0.0
    ensures !verified && adjusted != 0.0 ==> r == adjusted
    ensures verified && invoiceAmount != 0.0 ==> r == invoiceAmount
  {
    if !verified && adjusted != 0.0 then adjusted
    else if invoiceAmount != 0.0 then invoiceAmount
    else adjusted
  }

  /** `rateCBIC || rateInvoice`. */
  function EffectiveRate(rateInvoice: real, rateCbic: real): real {
    if rateCbic != 0.0 then rateCbic else rateInvoice
  }

  /** The CBIC rate corrected the invoice: the invoice states a rate, the
      CBIC rate is positive, and they differ. The test of the effective
      rate adds nothing, since a positive CBIC rate is the effective
      rate. */
  function Corrected(rateInvoice: real, rateCbic: real): (r: bool)
    ensures r <==> rateInvoice != 0.0 && rateCbic > 0.0 && rateCbic != rateInvoice
  {
    var eff := EffectiveRate(rateInvoice, rateCbic);
    eff != 0.0 && rateInvoice != 0.0 && rateCbic > 0.0 && rateCbic != rateInvoice
  }

  /** `a ?? b ?? c`. */
  function First3(a: JsValue, b: JsValue, c: JsValue): JsValue {
    Coalesce(a, Coalesce(b, c))
  }

  /** The normalisation of one invoice (lines 123-180). */
  function Normalize(inv: JsValue): (r: Row)
    ensures r.gstin == GstinOf(inv) && r.kind == KindOf(inv)
    ensures r.totalInvoice == Safe(First3(Get(inv, "totalInvoice"), Get(inv, "totalWithGst"), Coalesce(Get(inv, "total"), Number(Fin(0.0)))))
    ensures r.rateInvoice == Safe(First3(Get(inv, "gstRateInvoice"), Get(inv, "gstRate"), Coalesce(Get(inv, "gstRateAdjusted"), Number(Fin(0.0)))))
    ensures r.gstAmountInvoice == Safe(First3(Get(inv, "gstAmountInvoice"), Get(inv, "gstAmount"), Number(Fin(0.0))))
    ensures r.rateCbic == Safe(First3(Get(inv, "gstRateAdjusted"), Get(inv, "verifiedRate"), Number(Fin(r.rateInvoice))))
    ensures IsNullish(Get(inv, "gstRateAdjusted")) && IsNullish(Get(inv, "verifiedRate")) ==> r.rateCbic == r.rateInvoice
    ensures r.taxable == Taxable(
      Safe(First3(Get(inv, "taxableValue"), Get(inv, "taxable"), Number(Fin(0.0)))),
      r.totalInvoice, EffectiveRate(r.rateInvoice, r.rateCbic))
    ensures r.gstFiled == GstFiled(Truthy(Get(inv, "gstVerified")), r.gstAmountInvoice, Safe(Coalesce(Get(inv, "totalGstAdjusted"), Number(Fin(0.0)))))
    ensures r.isCorrected <==> r.rateInvoice != 0.0 && r.rateCbic > 0.0 && r.rateCbic != r.rateInvoice
    ensures r.status == (if r.isCorrected then "Corrected (CBIC)" else "Correct")
  {
    var zero := Number(Fin(0.0));
    var totalInvoice := Safe(First3(Get(inv, "totalInvoice"), Get(inv, "totalWithGst"), Coalesce(Get(inv, "total"), zero)));
    var rateInvoice := Safe(First3(Get(inv, "gstRateInvoice"), Get(inv, "gstRate"), Coalesce(Get(inv, "gstRateAdjusted"), zero)));
    var gstAmountInvoice := Safe(First3(Get(inv, "gstAmountInvoice"), Get(inv, "gstAmount"), zero));
    var rateCbic := Safe(First3(Get(inv, "gstRateAdjusted"), Get(inv, "verifiedRate"), Number(Fin(rateInvoice))));
    var adjusted := Safe(Coalesce(Get(inv, "totalGstAdjusted"), zero));
    var stored := Safe(First3(Get(inv, "taxableValue"), Get(inv, "taxable"), zero));
    var taxable := Taxable(stored, totalInvoice, EffectiveRate(rateInvoice, rateCbic));
    var gstFiled := GstFiled(Truthy(Get(inv, "gstVerified")), gstAmountInvoice, adjusted);
    var isCorrected := Corrected(rateInvoice, rateCbic);
    Row(KindOf(inv), GstinOf(inv), taxable, totalInvoice, rateInvoice, rateCbic, gstAmountInvoice, gstFiled,
      if isCorrected then "Corrected (CBIC)" else "Correct", isCorrected)
  }

  // ---------------------------------------------------------------------
  // Totals (lines 120-121, 164-165, 182-185)
  // ---------------------------------------------------------------------

  function Taxables(rows: seq<Row>): (r: seq<real>)
    ensures |r| == |rows| && forall i | 0 <= i < |rows| :: r[i] == rows[i].taxable
    decreases |rows|
  {
    if rows == [] then [] else Taxables(rows[..|rows| - 1]) + [rows[|rows| - 1].taxable]
  }

  function Filed(rows: seq<Row>): (r: seq<real>)
    ensures |r| == |rows| && forall i | 0 <= i < |rows| :: r[i] == rows[i].gstFiled
    decreases |rows|
  {
    if rows == [] then [] else Filed(rows[..|rows| - 1]) + [rows[|rows| - 1].gstFiled]
  }

  /** `rows.filter(n => n.type === kind)`. */
  function OfKind(rows: seq<Row>, kind: Kind): (r: seq<Row>)
    ensures forall i | 0 <= i < |r| :: r[i].kind == kind && r[i] in rows
    ensures forall x | x in rows && x.kind == kind :: x in r
    ensures forall x :: multiset(r)[x] == if x.kind == kind then multiset(rows)[x] else 0
    decreases |rows|
  {
    if rows == [] then []
    else
      var rest := OfKind(rows[1..], kind);
      assert rows == [rows[0]] + rows[1..];
      assert multiset(rows) == multiset{rows[0]} + multiset(rows[1..]);
      if rows[0].kind == kind then
        assert multiset([rows[0]] + rest) == multiset{rows[0]} + multiset(rest);
        [rows[0]] + rest
      else rest
  }

  /** B2B and B2C split the rows between them. */
  lemma {:induction false} KindsPartition(rows: seq<Row>)
    ensures |OfKind(rows, B2b)| + |OfKind(rows, B2c)| == |rows|
    decreases |rows|
  {
    if rows != [] {
      KindsPartition(rows[1..]);
    }
  }

  /** `totalTaxable > 0 ? totalGSTFiled / totalTaxable * 100 : 0`. */
  function AverageRate(totalTaxable: real, totalFiled: real): (r: real)
    ensures totalTaxable > 0.0 ==> r * totalTaxable == totalFiled * 100.0
    ensures totalTaxable <= 0.0 ==> r == 0.0
  {
    if totalTaxable > 0.0 then totalFiled / totalTaxable * 100.0 else 0.0
  }

  datatype Filing = Filing(
    rows: seq<Row>,
    b2b: seq<Row>,
    b2c: seq<Row>,
    totalTaxable: real,
    totalGstFiled: real,
    averageRate: real)

  /** The page body: one row per invoice, in order, the running totals
      kept while mapping, the B2B/B2C split and the average rate filed. */
  method FilingSummary(invoices: seq<JsValue>) returns (f: Filing)
    ensures |f.rows| == |invoices|
    ensures forall i | 0 <= i < |invoices| :: f.rows[i] == Normalize(invoices[i])
    ensures f.totalTaxable == SumReals(Taxables(f.rows))
    ensures f.totalGstFiled == SumReals(Filed(f.rows))
    ensures f.b2b == OfKind(f.rows, B2b) && f.b2c == OfKind(f.rows, B2c)
    ensures |f.b2b| + |f.b2c| == |invoices|
    ensures f.averageRate == AverageRate(f.totalTaxable, f.totalGstFiled)
    ensures invoices == [] ==> f.totalTaxable == 0.0 && f.totalGstFiled == 0.0 && f.averageRate == 0.0
  {
    var rows := NormalizeAll(invoices);
    var totalTaxable, totalFiled := Totals(rows);
    KindsPartition(rows);
    var avg := AverageRate(totalTaxable, totalFiled);
    f := Filing(rows, OfKind(rows, B2b), OfKind(rows, B2c), totalTaxable, totalFiled, avg);
  }

  /** `filingInvoices.map(normalize)`. */
  function NormalizeAll(invoices: seq<JsValue>): (rows: seq<Row>)
    ensures |rows| == |invoices|
    ensures forall i | 0 <= i < |invoices| :: rows[i] == Normalize(invoices[i])
  {
    seq(|invoices|, i requires 0 <= i < |invoices| => Normalize(invoices[i]))
  }

  /** The two running totals of the mapping, `totalTaxable += taxable`
      and `totalGSTFiled += gstFiled`, from 0 in row order. */
  method Totals(rows: seq<Row>) returns (totalTaxable: real, totalFiled: real)
    ensures totalTaxable == SumReals(Taxables(rows))
    ensures totalFiled == SumReals(Filed(rows))
  {
    totalTaxable, totalFiled := 0.0, 0.0;
    var i := 0;
    while i < |rows|
      invariant 0 <= i <= |rows|
      invariant totalTaxable == SumReals(Taxables(rows[..i]))
      invariant totalFiled == SumReals(Filed(rows[..i]))
    {
      assert rows[..i + 1][..i] == rows[..i];
      totalTaxable := totalTaxable + rows[i].taxable;
      totalFiled := totalFiled + rows[i].gstFiled;
      i := i + 1;
    }
    assert rows[..i] == rows;
  }

  // ---------------------------------------------------------------------
  // Properties across invoices
  // ---------------------------------------------------------------------

  /** A sum scaled is the sum of the scaled terms. */
  lemma {:induction false} SumRealsScaled(xs: seq<real>, ys: seq<real>, c: real)
    requires |xs| == |ys|
    requires forall i | 0 <= i < |xs| :: ys[i] == xs[i] * c
    ensures SumReals(ys) == SumReals(xs) * c
    decreases |xs|
  {
    if xs != [] {
      var n := |xs| - 1;
      SumRealsScaled(xs[..n], ys[..n], c);
    }
  }

  /** When every row files GST at one rate on its taxable value, and the
      taxable total is positive, the average rate shown is that rate. */
  lemma UniformRateIsAverage(taxables: seq<real>, filed: seq<real>, rate: real)
    requires |taxables| == |filed|
    requires forall i | 0 <= i < |taxables| :: filed[i] == taxables[i] * (rate / 100.0)
    requires SumReals(taxables) > 0.0
    ensures AverageRate(SumReals(taxables), SumReals(filed)) == rate
  {
    var t, s := SumReals(taxables), SumReals(filed);
    SumRealsScaled(taxables, filed, rate / 100.0);
    AverageOfScaled(t, s, rate);
  }

  lemma AverageOfScaled(t: real, s: real, rate: real)
    requires t > 0.0 && s == t * (rate / 100.0)
    ensures AverageRate(t, s) == rate
  {
    var r := AverageRate(t, s);
    assert r * t == s * 100.0;
    assert s * 100.0 == t * rate;
    assert (r - rate) * t == 0.0;
  }

  /** A corrected row has a CBIC rate differing from the invoice's; a row
      whose invoice states no rate is never corrected. */
  lemma CorrectedMeansRatesDiffer(inv: JsValue)
    ensures var r := Normalize(inv);
      && (r.isCorrected ==> r.rateCbic != r.rateInvoice && r.rateCbic > 0.0)
      && (r.rateInvoice == 0.0 ==> !r.isCorrected)
      && (r.rateCbic == r.rateInvoice ==> r.status == "Correct")
  {
  }

  /** An invoice with neither `gstRateAdjusted` nor `verifiedRate` keeps
      its own rate as the CBIC rate and is never marked corrected. */
  lemma NoCbicRateNoCorrection(inv: JsValue)
    requires IsNullish(Get(inv, "gstRateAdjusted")) && IsNullish(Get(inv, "verifiedRate"))
    ensures Normalize(inv).rateCbic == Normalize(inv).rateInvoice
    ensures !Normalize(inv).isCorrected
  {
  }
}
