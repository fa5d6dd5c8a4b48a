/** The upload route of backend/routes/parse.js after the extractors have
    run (lines 425-699): the tax the invoice declares, the transaction type
    and the two parties' GSTINs, the keyword for the CBIC rate lookup, the
    verified rate, the tax adjusted to that rate, the stored invoice record
    and the GSTR-2A entry of a purchase. */
module Reconcile {
  import opened JsText
  import opened JsNumber
  import opened Optional
  import opened JsValues
  import opened TaxSplit
  import Patterns
  import Amounts
  import TextCleaning
  import Fields
  import Product
  import Hsn
  import InvoiceDate
  import CbicReply

  // ---------------------------------------------------------------------
  // Declared tax (lines 427-447)
  // ---------------------------------------------------------------------

  /** The GST the invoice states, in total and per component. */
  datatype TaxAmounts = TaxAmounts(gst: Num, cgst: Num, sgst: Num, igst: Num)

  /** A component the extractors read: 0 when absent, never negative. */
  predicate ComponentValue(n: Num) {
    n.Fin? ==> n.val >= 0.0
  }

  /** `extractTotalGST(text) || cgst + sgst + igst`. */
  function StatedGst(labelled: Num, cgst: Num, sgst: Num, igst: Num): (r: Num)
    ensures labelled.Truthy() ==> r == labelled
    ensures !labelled.Truthy() ==> (r.Fin? <==> cgst.Fin? && sgst.Fin? && igst.Fin?)
    ensures !labelled.Truthy() && r.Fin? ==> r.val == cgst.val + sgst.val + igst.val
  {
    labelled.Or(Add(Add(cgst, sgst), igst))
  }

  /** When the invoice states no tax but has a total and a rate, the tax is
      taken back out of the total. */
  predicate BackCalculated(total: real, rate: real, stated: Num) {
    StrictEq(stated, Fin(0.0)) && total != 0.0 && rate > 0.0
  }

  /** The tax the invoice declares. A stated "Total GST" wins over the sum
      of the components; when nothing is stated and the invoice has a total
      and a rate, the tax is back-calculated from the total and put on IGST
      for an IGST rate, else split into CGST and SGST halves. */
  function DeclaredTax(total: real, detected: Amounts.DetectedRate, labelled: Num,
                       cgst: Num, sgst: Num, igst: Num): (d: TaxAmounts)
    requires total >= 0.0 && detected.rate >= 0.0
    requires ComponentValue(cgst) && ComponentValue(sgst) && ComponentValue(igst)
    ensures labelled.Truthy() ==> d.gst == labelled
    ensures !BackCalculated(total, detected.rate, StatedGst(labelled, cgst, sgst, igst)) ==>
      d == TaxAmounts(StatedGst(labelled, cgst, sgst, igst), cgst, sgst, igst)
    ensures BackCalculated(total, detected.rate, StatedGst(labelled, cgst, sgst, igst)) ==>
      && d.gst.Fin?
      && TaxIncluded(total, detected.rate) - 0.005 < d.gst.val <= TaxIncluded(total, detected.rate) + 0.005
      && (detected.source == Amounts.IgstOnly ==>
            d.igst == d.gst && d.cgst == Fin(0.0) && d.sgst == Fin(0.0))
      && (detected.source != Amounts.IgstOnly ==>
            d.cgst == d.sgst && d.igst == Fin(0.0) && d.cgst.Fin?
            && 0.0 <= d.cgst.val + d.sgst.val - d.gst.val <= 0.01)
  {
    var stated := StatedGst(labelled, cgst, sgst, igst);
    if BackCalculated(total, detected.rate, stated) then
      TaxIncludedBounds(total, detected.rate);
      var s := HalveTax(TaxIncluded(total, detected.rate));
      if detected.source == Amounts.IgstOnly then TaxAmounts(Fin(s.gst), cgst, sgst, Fin(s.gst))
      else TaxAmounts(Fin(s.gst), Fin(s.cgst), Fin(s.sgst), igst)
    else TaxAmounts(stated, cgst, sgst, igst)
  }

  // ---------------------------------------------------------------------
  // Transaction type and parties (lines 466-493)
  // ---------------------------------------------------------------------

  /** The `transactionType` form field: missing, one value, or the list a
      multipart form gives for a repeated field. */
  datatype TxField = Absent | Single(value: string) | Several(values: seq<string>)

  datatype TxType = Sale | Purchase

  function TxName(t: TxType): string {
    match t
    case Sale => "SALE"
    case Purchase => "PURCHASE"
  }

  /** The form text: the first value of a list, and "" when there is none
      (`String(raw || "")`). */
  function TxText(f: TxField): string {
    match f
    case Absent => ""
    case Single(v) => v
    case Several(vs) => if vs == [] then "" else vs[0]
  }

  const InvalidTransactionType: string := "INVALID_TRANSACTION_TYPE"

  /** The transaction type, trimmed and upper-cased; anything but SALE or
      PURCHASE is a 400 error. */
  function ParseTxType(f: TxField): (r: Outcome<TxType>)
    ensures r.Accepted? <==> Upper(Trim(TxText(f))) in {"SALE", "PURCHASE"}
    ensures r.Accepted? ==> Upper(Trim(TxText(f))) == TxName(r.value)
    ensures r.Rejected? ==> r.status == 400 && r.code == InvalidTransactionType
  {
    var t := Upper(Trim(TxText(f)));
    if t == "SALE" then Accepted(Sale)
    else if t == "PURCHASE" then Accepted(Purchase)
    else Rejected(400, InvalidTransactionType)
  }

  lemma {:induction false} SpaceRunOfPadded(p: string, s: string)
    requires forall i | 0 <= i < |p| :: IsSpace(p[i])
    requires |s| > 0 && !IsSpace(s[0])
    ensures SpaceRun(p + s) == |p|
    decreases |p|
  {
    if |p| == 0 {
      assert (p + s)[0] == s[0];
    } else {
      assert (p + s)[1..] == p[1..] + s;
      SpaceRunOfPadded(p[1..], s);
    }
  }

  lemma {:induction false} TrailingSpaceRunOfPadded(s: string, q: string)
    requires forall i | 0 <= i < |q| :: IsSpace(q[i])
    requires |s| > 0 && !IsSpace(s[|s| - 1])
    ensures TrailingSpaceRun(s + q) == |q|
    decreases |q|
  {
    if |q| == 0 {
      assert s + q == s;
    } else {
      assert (s + q)[..|s + q| - 1] == s + q[..|q| - 1];
      TrailingSpaceRunOfPadded(s, q[..|q| - 1]);
    }
  }

  /** Surrounding white space is what `trim` removes. */
  lemma TrimOfPadded(p: string, s: string, q: string)
    requires forall i | 0 <= i < |p| :: IsSpace(p[i])
    requires forall i | 0 <= i < |q| :: IsSpace(q[i])
    requires |s| > 0 && !IsSpace(s[0]) && !IsSpace(s[|s| - 1])
    ensures Trim(p + s + q) == s
  {
    var x := p + s + q;
    SpaceRunOfPadded(p, s + q);
    assert p + (s + q) == x;
    var t := x[|p|..];
    assert t == s + q;
    TrailingSpaceRunOfPadded(s, q);
  }

  /** The type is read whatever the case of its letters and whatever white
      space surrounds it. */
  lemma ParseTxTypeOfSpelling(t: TxType, p: string, s: string, q: string)
    requires forall i | 0 <= i < |p| :: IsSpace(p[i])
    requires forall i | 0 <= i < |q| :: IsSpace(q[i])
    requires Upper(s) == TxName(t)
    ensures ParseTxType(Single(p + s + q)) == Accepted(t)
  {
    assert |s| == |TxName(t)|;
    assert !IsSpace(s[0]) by { assert UpperChar(s[0]) == TxName(t)[0]; }
    assert !IsSpace(s[|s| - 1]) by { assert UpperChar(s[|s| - 1]) == TxName(t)[|s| - 1]; }
    TrimOfPadded(p, s, q);
  }

  /** The supplier's and the buyer's GSTIN; `None` is `undefined`, which
      is what the user's own GSTIN is when the profile has none. */
  datatype Parties = Parties(supplier: Option<string>, buyer: Option<string>)

  const Unknown: string := "UNKNOWN"

  /** The other party: the invoice's GSTIN, unless it is the user's own. */
  function Counterparty(mine: Option<string>, gstin: string): (r: Option<string>)
    ensures r == Some(gstin) || r == Some(Unknown)
    ensures r == Some(gstin) <==> mine != Some(gstin) || gstin == Unknown
  {
    if Some(gstin) != mine then Some(gstin) else Some(Unknown)
  }

  /** On a sale the user supplies and the invoice's GSTIN buys; on a
      purchase the other way round. The user's own GSTIN is never recorded
      as the other party. */
  function PartiesOf(t: TxType, mine: Option<string>, gstin: string): (r: Parties)
    ensures t == Sale ==> r.supplier == mine
    ensures t == Purchase ==> r.buyer == mine
    ensures var other := if t == Sale then r.buyer else r.supplier;
      (other == Some(gstin) || other == Some(Unknown))
      && (other == mine ==> mine == Some(Unknown))
  {
    match t
    case Sale => Parties(mine, Counterparty(mine, gstin))
    case Purchase => Parties(Counterparty(mine, gstin), mine)
  }

  /** A purchase records the parties of the matching sale swapped. */
  lemma PurchaseMirrorsSale(mine: Option<string>, gstin: string)
    ensures PartiesOf(Purchase, mine, gstin).supplier == PartiesOf(Sale, mine, gstin).buyer
    ensures PartiesOf(Purchase, mine, gstin).buyer == PartiesOf(Sale, mine, gstin).supplier
  {
  }

  // ---------------------------------------------------------------------
  // CBIC keyword and verified rate (lines 505-510, 572-616)
  // ---------------------------------------------------------------------

  const General: string := "general"

  /** The HSN code when one was found, else the product's first word in
      lower case, else "general". */
  function CbicKeyword(hsn: string, product: string): (r: string)
    ensures hsn != "" && hsn != Patterns.NotFound ==> r == hsn
    ensures (hsn == "" || hsn == Patterns.NotFound) && product != "" && product != Patterns.NotFound
      ==> r == Lower(product[..WordRun(product)])
    ensures (hsn == "" || hsn == Patterns.NotFound) && (product == "" || product == Patterns.NotFound)
      ==> r == General
  {
    if hsn != "" && hsn != Patterns.NotFound then hsn
    else if product != "" && product != Patterns.NotFound then Lower(product[..WordRun(product)])
    else General
  }

  /** `split(/\s+/)[0]` of a text without leading white space is its first
      word. */
  lemma FirstFieldIsFirstWord(p: string)
    requires |p| > 0 && !IsSpace(p[0])
    ensures |Words(p)| > 0 && Words(p)[0] == p[..WordRun(p)]
  {
  }

  /** The rate the CBIC reply gives: 18 unless the reply states one. */
  function VerifiedRate(reply: CbicReply.Reply): (r: Num)
    ensures reply.Parsed? && CbicReply.StatedRate(reply.value).Some? ==>
      r == CbicReply.StatedRate(reply.value).value
    ensures !(reply.Parsed? && CbicReply.StatedRate(reply.value).Some?) ==> r == Fin(18.0)
  {
    match reply
    case Parsed(v) => CbicReply.StatedRate(v).GetOr(Fin(18.0))
    case _ => Fin(18.0)
  }

  /** The invoice's rate agrees with CBIC's (`===` on numbers). */
  predicate GstVerified(verified: Num, gstRate: real) {
    StrictEq(verified, Fin(gstRate))
  }

  /** The rate and the tax after adjusting to the CBIC rate. */
  datatype Adjusted = Adjusted(rate: Num, tax: TaxAmounts)

  /** A mismatched rate on an invoice with a total, against a positive CBIC
      rate, gets the tax recomputed at the CBIC rate. */
  predicate Recomputes(total: real, gstRate: real, verified: Num) {
    !GstVerified(verified, gstRate) && total != 0.0 && verified.Positive()
  }

  /** The tax as adjusted to the CBIC rate: unchanged when the rates agree,
      else recomputed from the total at the CBIC rate, all on IGST for an
      IGST invoice and split into halves otherwise. */
  function Adjust(total: real, detected: Amounts.DetectedRate, verified: Num, declared: TaxAmounts): (a: Adjusted)
    requires total >= 0.0
    ensures !Recomputes(total, detected.rate, verified) ==>
      a == Adjusted(Fin(detected.rate), declared)
    ensures Recomputes(total, detected.rate, verified) ==>
      && a.rate == verified
      && a.tax.gst.Fin? && a.tax.cgst.Fin? && a.tax.sgst.Fin? && a.tax.igst.Fin?
      && TaxIncluded(total, verified.val) - 0.005 < a.tax.gst.val <= TaxIncluded(total, verified.val) + 0.005
      && (detected.source == Amounts.IgstOnly ==>
            a.tax.igst == a.tax.gst && a.tax.cgst == Fin(0.0) && a.tax.sgst == Fin(0.0))
      && (detected.source != Amounts.IgstOnly ==>
            a.tax.cgst == a.tax.sgst && a.tax.igst == Fin(0.0))
      && 0.0 <= a.tax.cgst.val + a.tax.sgst.val + a.tax.igst.val - a.tax.gst.val <= 0.01
  {
    if Recomputes(total, detected.rate, verified) then
      var v := verified.val;
      TaxIncludedBounds(total, v);
      var s := HalveTax(TaxIncluded(total, v));
      if detected.source == Amounts.IgstOnly then
        Adjusted(verified, TaxAmounts(Fin(s.gst), Fin(0.0), Fin(0.0), Fin(s.gst)))
      else
        Adjusted(verified, TaxAmounts(Fin(s.gst), Fin(s.cgst), Fin(s.sgst), Fin(0.0)))
    else Adjusted(Fin(detected.rate), declared)
  }

  // ---------------------------------------------------------------------
  // The stored invoice and the GSTR-2A entry (lines 619-699)
  // ---------------------------------------------------------------------

  /** The document the upload route hands to `new Invoice`, for the
      fields the model computes. The store keeps the schema's paths only:
      `totalWithGst` is not among them and is dropped on save. */
  datatype InvoiceRecord = InvoiceRecord(
    vendor: string,
    invoiceNo: string,
    date: string,
    invoiceDate: Option<InvoiceDate.Date>,
    gstin: string,
    totalInvoice: real,
    taxableValue: real,
    totalWithGst: Num,
    gstRateInvoice: real,
    gstAmountInvoice: real,
    cgstInvoice: real,
    sgstInvoice: real,
    igstInvoice: real,
    product: string,
    hsn: string,
    verifiedRate: Num,
    gstRateAdjusted: real,
    totalGstAdjusted: real,
    cgstAdjusted: real,
    sgstAdjusted: real,
    igstAdjusted: real,
    gstVerified: bool,
    parties: Parties,
    transactionType: TxType)

  /** A purchase as GSTR-2A lists it. */
  datatype Gstr2aEntry = Gstr2aEntry(
    supplierGstin: Option<string>,
    supplierName: string,
    invoiceNumber: string,
    invoiceDate: InvoiceDate.Date,
    taxableValue: real,
    cgst: real,
    sgst: real,
    igst: real,
    totalGst: real)

  /** The fields the extractors read from the text. */
  datatype Extracted = Extracted(
    vendor: string,
    invoiceNo: string,
    date: string,
    gstin: string,
    total: real,
    detected: Amounts.DetectedRate,
    declared: TaxAmounts,
    product: string,
    hsn: string)

  /** `total ? total + (invGstAmount || adjustedGstAmount) : 0`. */
  function TotalWithGst(total: real, declared: Num, adjusted: Num): (r: Num)
    ensures total == 0.0 ==> r == Fin(0.0)
    ensures total != 0.0 && declared.Truthy() ==> r == Add(Fin(total), declared)
    ensures total != 0.0 && !declared.Truthy() ==> r == Add(Fin(total), adjusted)
  {
    if total != 0.0 then Add(Fin(total), declared.Or(adjusted)) else Fin(0.0)
  }

  /** The invoice record built from the extracted fields. */
  function BuildRecord(x: Extracted, t: TxType, parties: Parties, verified: Num,
                       invoiceDate: Option<InvoiceDate.Date>): (r: InvoiceRecord)
    requires x.total >= 0.0
    ensures r.totalInvoice == x.total && r.taxableValue == x.total
    ensures r.gstVerified <==> GstVerified(verified, x.detected.rate)
    ensures r.gstAmountInvoice == x.declared.gst.OrZero()
    ensures r.transactionType == t && r.parties == parties
    // Without a recomputation the adjusted amounts are the declared ones.
    ensures !Recomputes(x.total, x.detected.rate, verified) ==>
      && r.totalGstAdjusted == r.gstAmountInvoice
      && r.cgstAdjusted == r.cgstInvoice && r.sgstAdjusted == r.sgstInvoice && r.igstAdjusted == r.igstInvoice
      && (x.detected.rate != 0.0 ==> r.gstRateAdjusted == r.gstRateInvoice)
    // With one, the adjusted rate is the CBIC rate and the adjusted tax is
    // the tax at that rate inside the total, to half a paisa.
    ensures Recomputes(x.total, x.detected.rate, verified) ==>
      && r.gstRateAdjusted == verified.val
      && (TaxIncluded(x.total, verified.val) >= 0.005 ==>
            && TaxIncluded(x.total, verified.val) - 0.005 < r.totalGstAdjusted <= TaxIncluded(x.total, verified.val) + 0.005
            && 0.0 <= r.cgstAdjusted + r.sgstAdjusted + r.igstAdjusted - r.totalGstAdjusted <= 0.01)
    // The total with GST adds the declared tax, or else the adjusted one.
    ensures x.total == 0.0 ==> r.totalWithGst == Fin(0.0)
    ensures x.total != 0.0 && x.declared.gst.Truthy() ==> r.totalWithGst == Fin(x.total + r.gstAmountInvoice)
    ensures (x.total != 0.0 && !x.declared.gst.Truthy() && Recomputes(x.total, x.detected.rate, verified)
             && TaxIncluded(x.total, verified.val) >= 0.005) ==>
      r.totalWithGst == Fin(x.total + r.totalGstAdjusted)
  {
    var a := Adjust(x.total, x.detected, verified, x.declared);
    InvoiceRecord(
      vendor := x.vendor,
      invoiceNo := x.invoiceNo,
      date := x.date,
      invoiceDate := invoiceDate,
      gstin := x.gstin,
      totalInvoice := x.total,
      taxableValue := x.total,
      totalWithGst := TotalWithGst(x.total, x.declared.gst, a.tax.gst),
      gstRateInvoice := x.detected.rate,
      gstAmountInvoice := x.declared.gst.OrZero(),
      cgstInvoice := x.declared.cgst.OrZero(),
      sgstInvoice := x.declared.sgst.OrZero(),
      igstInvoice := x.declared.igst.OrZero(),
      product := x.product,
      hsn := x.hsn,
      verifiedRate := verified,
      gstRateAdjusted := a.rate.Or(Fin(x.detected.rate)).Or(verified).OrZero(),
      totalGstAdjusted := a.tax.gst.Or(x.declared.gst).OrZero(),
      cgstAdjusted := a.tax.cgst.OrZero(),
      sgstAdjusted := a.tax.sgst.OrZero(),
      igstAdjusted := a.tax.igst.OrZero(),
      gstVerified := GstVerified(verified, x.detected.rate),
      parties := parties,
      transactionType := t)
  }

  /** The GSTR-2A entry of a purchase: the supplier, the vendor name or
      "UNKNOWN", the invoice number or the saved record's id, the invoice
      date or today, and the adjusted tax. A sale has none. */
  function Gstr2aOf(r: InvoiceRecord, savedId: string, today: InvoiceDate.Date): (e: Option<Gstr2aEntry>)
    ensures e.Some? <==> r.transactionType == Purchase
    ensures e.Some? ==>
      && e.value.supplierGstin == r.parties.supplier
      && e.value.taxableValue == r.taxableValue
      && e.value.cgst == r.cgstAdjusted && e.value.sgst == r.sgstAdjusted
      && e.value.igst == r.igstAdjusted && e.value.totalGst == r.totalGstAdjusted
      && (e.value.supplierName == Unknown <==> r.vendor == Patterns.NotFound || r.vendor == Unknown)
      && (r.invoiceNo != Patterns.NotFound ==> e.value.invoiceNumber == r.invoiceNo)
      && (r.invoiceNo == Patterns.NotFound ==> e.value.invoiceNumber == savedId)
      && (r.invoiceDate.Some? ==> e.value.invoiceDate == r.invoiceDate.value)
      && (r.invoiceDate.None? ==> e.value.invoiceDate == today)
  {
    if r.transactionType == Purchase then
      Some(Gstr2aEntry(
        supplierGstin := r.parties.supplier,
        supplierName := if r.vendor != Patterns.NotFound then r.vendor else Unknown,
        invoiceNumber := if r.invoiceNo != Patterns.NotFound then r.invoiceNo else savedId,
        invoiceDate := r.invoiceDate.GetOr(today),
        taxableValue := r.taxableValue,
        cgst := r.cgstAdjusted,
        sgst := r.sgstAdjusted,
        igst := r.igstAdjusted,
        totalGst := r.totalGstAdjusted))
    else None
  }

  /** Every extractor run over the cleaned text. */
  function ExtractAll(re: Patterns.Regex, text: string): (x: Extracted)
    ensures x.total >= 0.0 && 0.0 <= x.detected.rate
    ensures text == "" ==> x.total == 0.0
  {
    var detected := Amounts.DetectGstRate(re, text);
    var total := Amounts.ExtractTotal(re, text);
    var cgst := Amounts.ExtractComponent(re, Patterns.CgstAmount, text);
    var sgst := Amounts.ExtractComponent(re, Patterns.SgstAmount, text);
    var igst := Amounts.ExtractComponent(re, Patterns.IgstAmount, text);
    var labelled := Amounts.ExtractComponent(re, Patterns.TotalGstAmount, text);
    Extracted(
      vendor := Fields.ExtractVendor(re, text),
      invoiceNo := Fields.ExtractInvoiceNo(re, text),
      date := Fields.ExtractDateText(re, text),
      gstin := Fields.ExtractGstin(re, text),
      total := total,
      detected := detected,
      declared := DeclaredTax(total, detected, labelled, cgst, sgst, igst),
      product := Product.ExtractProduct(re, text),
      hsn := Hsn.ExtractHsn(re, text))
  }

  /** What the route needs from outside: the user's GSTIN from the
      profile, the CBIC script's reply, the platform's date parser, the
      saved record's id and today's date. */
  datatype Environment = Environment(
    myGstin: Option<string>,
    reply: CbicReply.Reply,
    platformParse: string -> Option<InvoiceDate.Date>,
    savedId: string,
    today: InvoiceDate.Date)

  /** The text the extractors read: the cleaned document text, or "" when
      the document has none. */
  function RouteText(raw: string): string {
    if Trim(raw) == "" then "" else TextCleaning.CleanText(raw)
  }

  /** The answer when the invoice document cannot be saved. */
  const SaveFailed: string := "Parsed but failed to save invoice"

  /** `POST /api/parse` from the document text on: a 400 error for a
      transaction type other than SALE or PURCHASE; a 500 error when the
      CBIC rate reads as NaN, since the schema's Number cast refuses it
      and the save throws before anything is stored; else the record
      and, for a purchase, its GSTR-2A entry. */
  function UploadInvoice(re: Patterns.Regex, raw: string, tx: TxField, env: Environment):
    (r: Outcome<(InvoiceRecord, Option<Gstr2aEntry>)>)
    ensures r.Rejected? <==> ParseTxType(tx).Rejected? || VerifiedRate(env.reply).NaN?
    ensures ParseTxType(tx).Rejected? ==> r == Rejected(400, InvalidTransactionType)
    ensures ParseTxType(tx).Accepted? && VerifiedRate(env.reply).NaN? ==> r == Rejected(500, SaveFailed)
    ensures r.Accepted? ==> r.value.0.verifiedRate.Fin?
    ensures r.Accepted? ==> r.value.0.transactionType == ParseTxType(tx).value
    ensures r.Accepted? ==> (r.value.1.Some? <==> ParseTxType(tx).value == Purchase)
    ensures r.Accepted? ==> r.value.0.verifiedRate == VerifiedRate(env.reply)
  {
    var text := RouteText(raw);
    var x := ExtractAll(re, text);
    match ParseTxType(tx)
    case Rejected(status, code) => Rejected(status, code)
    case Accepted(t) =>
      var verified := VerifiedRate(env.reply);
      if verified.NaN? then Rejected(500, SaveFailed)
      else
        var parties := PartiesOf(t, env.myGstin, x.gstin);
        var invoiceDate := InvoiceDate.ParseInvoiceDate(x.date, env.platformParse);
        var record := BuildRecord(x, t, parties, verified, invoiceDate);
        Accepted((record, Gstr2aOf(record, env.savedId, env.today)))
  }

  /** An upload whose CBIC reply is a rate with a note, such as
      `{"rate": "18% (default)"}`, is not saved: the route answers 500. */
  lemma NotedCbicRateFailsSave(re: Patterns.Regex, raw: string, tx: TxField, env: Environment, d: string, note: string)
    requires ParseTxType(tx).Accepted?
    requires |d| > 0 && AllDigits(d)
    requires |note| > 1 && note[0] == ' ' && !IsSpace(note[|note| - 1])
    requires env.reply == CbicReply.Parsed(Object([("rate", Str(d + "%" + note))]))
    ensures UploadInvoice(re, raw, tx, env) == Rejected(500, SaveFailed)
  {
    CbicReply.NotedReplyIsNaN(d, note);
  }

  /** The extractors find nothing in empty text: no total, the default
      rate of 18, and no tax. */
  lemma EmptyTextExtracts(re: Patterns.Regex, text: string)
    ensures var x := ExtractAll(re, text);
      text == "" ==> x.total == 0.0 && x.detected.rate == 18.0 && x.declared.gst == Fin(0.0)
  {
    if text == "" {
      Patterns.NoMatchInEmpty(re, Patterns.GstRateLabel, text);
      Patterns.NoMatchInEmpty(re, Patterns.IgstRate, text);
      Patterns.NoMatchInEmpty(re, Patterns.CgstRate, text);
      Patterns.NoMatchInEmpty(re, Patterns.SgstRate, text);
      Patterns.NoMatchInEmpty(re, Patterns.BareRate, text);
      Patterns.NoMatchInEmpty(re, Patterns.TotalGstAmount, text);
      Patterns.NoMatchInEmpty(re, Patterns.CgstAmount, text);
      Patterns.NoMatchInEmpty(re, Patterns.SgstAmount, text);
      Patterns.NoMatchInEmpty(re, Patterns.IgstAmount, text);
      Amounts.DetectGstRateDefault(re, text);
      var x := ExtractAll(re, text);
      assert StatedGst(Fin(0.0), Fin(0.0), Fin(0.0), Fin(0.0)) == Fin(0.0);
    }
  }

  /** A document without text still gives a record: every amount is 0
      and the invoice's rate is the default 18. */
  lemma EmptyDocumentRecord(re: Patterns.Regex, raw: string, tx: TxField, env: Environment)
    ensures Trim(raw) == "" && UploadInvoice(re, raw, tx, env).Accepted? ==>
      var r := UploadInvoice(re, raw, tx, env).value.0;
      r.totalInvoice == 0.0 && r.totalWithGst == Fin(0.0) && r.gstRateInvoice == 18.0
      && r.gstAmountInvoice == 0.0
  {
    if Trim(raw) == "" && UploadInvoice(re, raw, tx, env).Accepted? {
      var text := RouteText(raw);
      assert text == "";
      EmptyTextExtracts(re, text);
      var x := ExtractAll(re, text);
      var t := ParseTxType(tx).value;
      var verified := VerifiedRate(env.reply);
      var record := BuildRecord(x, t, PartiesOf(t, env.myGstin, x.gstin), verified,
        InvoiceDate.ParseInvoiceDate(x.date, env.platformParse));
      assert UploadInvoice(re, raw, tx, env).value.0 == record;
    }
  }
}
