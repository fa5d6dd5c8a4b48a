/** `POST /api/voice-invoice` of backend/routes/voiceInvoice.js: an
    invoice dictated or typed in, its tax computed from the spoken rate,
    checked against the CBIC rate and adjusted to it. */
module VoiceInvoice {
  import opened JsText
  import opened JsNumber
  import opened Optional
  import opened JsValues
  import opened TaxSplit
  import CbicReply
  import opened SafeNumber

  /** `toNum(v, def)`: `null`, `undefined` and `""` give the default; a
      number is itself; anything else is read by `Number` after its commas
      are removed; a result that is not a finite number gives the default. */
  function ToNum(v: JsValue, def: real): (r: real)
    ensures v.Null? || v.Undefined? || v == Str("") ==> r == def
    ensures v.Number? ==> r == (if v.n.Fin? then v.n.val else def)
    ensures v.Object? ==> r == def
  {
    if v.Null? || v.Undefined? || v == Str("") then def
    else
      var n := if v.Number? then v.n else ReadText(v);
      if n.Fin? then n.val else def
  }

  /** `Number(String(v).replace(/,/g, "").trim())`; an object reads as
      `NaN`. */
  function ReadText(v: JsValue): (n: Num)
    requires !v.Number?
    ensures v.Object? ==> n == NaN
  {
    var t := StringOf(v);
    if v.Object? then
      ObjectTextIsNaN(v);
      ObjectTextTrimmed(v);
      ParseJsNumber(Trim(Remove(t, ',')))
    else ParseJsNumber(Trim(Remove(t, ',')))
  }

  lemma ObjectTextTrimmed(v: JsValue)
    requires v.Object?
    ensures Trim(StringOf(v)) == StringOf(v)
  {
    ObjectTextIsNaN(v);
  }

  /** Digits grouped with commas, the way amounts are written, read as
      the number the digits make. */
  lemma ToNumOfGroupedDigits(c: string, def: real)
    requires GroupedDigits(c)
    ensures ToNum(Str(c), def) == GroupedValue(c) as real
  {
    var d := Remove(c, ',');
    GroupedDigitsValue(c);
    assert NoSpace(d) by {
      forall i | 0 <= i < |d| ensures !IsSpace(d[i]) {
        assert IsDigit(d[i]);
      }
    }
    assert Trim(d) == d;
    assert ReadText(Str(c)) == Fin(DigitsValue(d) as real);
  }

  /** The request body's fields; a missing field is `Undefined`, and a
      missing body has every field missing. */
  datatype Body = Body(
    rawText: JsValue,
    vendor: JsValue,
    invoiceNo: JsValue,
    date: JsValue,
    gstin: JsValue,
    hsn: JsValue,
    total: JsValue,
    gstRate: JsValue)

  /** `rawText` after its default: a missing one is "". */
  function RawText(b: Body): JsValue {
    if b.rawText.Undefined? then Str("") else b.rawText
  }

  /** `rawText.trim()` is called only on a truthy `rawText`, and throws
      unless it is a string. */
  predicate RawTextThrows(b: Body) {
    Truthy(RawText(b)) && !RawText(b).Str?
  }

  /** At least one field carries data: non-blank text, a truthy text
      field, or a total or rate that is present at all. */
  predicate HasAny(b: Body)
    requires !RawTextThrows(b)
  {
    (Truthy(RawText(b)) && Trim(RawText(b).s) != "")
    || Truthy(b.vendor) || Truthy(b.invoiceNo) || Truthy(b.date) || Truthy(b.gstin) || Truthy(b.hsn)
    || !b.total.Undefined? || !b.gstRate.Undefined?
  }

  /** The schema's String cast refuses a value: a plain object is cast
      only through a non-empty string `_id`, since its `toString` is
      `Object.prototype.toString`. Numbers and booleans have their own
      `toString` and are accepted. */
  predicate StringCastFails(v: JsValue) {
    v.Object? && !(Get(v, "_id").Str? && Get(v, "_id").s != "")
  }

  /** One of the text fields handed to the invoice document is refused by
      its String cast, so the save throws. A falsy field is replaced by
      "Not provided" first and never reaches the cast. */
  predicate TextFieldRefused(b: Body) {
    || StringCastFails(b.vendor) || StringCastFails(b.invoiceNo) || StringCastFails(b.date)
    || StringCastFails(b.gstin) || StringCastFails(b.hsn)
  }

  const NoData: string := "No invoice data received. Please speak or fill at least one field."
  const SaveFailed: string := "Failed to save voice invoice"

  /** The tax computed from the total and the spoken rate. */
  datatype InvoiceTax = InvoiceTax(taxable: real, gst: real, cgst: real, sgst: real, igst: real)

  /** With a total and a positive rate, the tax inside the total, the rest
      as the taxable value, and the tax split into halves; otherwise no
      tax and the whole total taxable. */
  function TaxFromRate(total: real, rate: real): (t: InvoiceTax)
    ensures total == 0.0 || rate <= 0.0 ==> t == InvoiceTax(total, 0.0, 0.0, 0.0, 0.0)
    ensures total != 0.0 && rate > 0.0 ==>
      && -0.005 <= t.gst - TaxIncluded(total, rate) <= 0.005
      && -0.005 <= t.taxable + t.gst - total <= 0.005
      && t.cgst == t.sgst && t.igst == 0.0
      && -0.01 <= t.cgst + t.sgst - t.gst <= 0.01
  {
    if total != 0.0 && rate > 0.0 then
      var s := HalveTax(TaxIncluded(total, rate));
      var taxable := Round2(total - s.gst);
      TaxSplit.HalvesOfAny(total - s.gst);
      InvoiceTax(taxable, s.gst, s.cgst, s.sgst, 0.0)
    else InvoiceTax(total, 0.0, 0.0, 0.0, 0.0)
  }

  /** The CBIC rate: the stated rate of the reply, 18 for an empty or
      rate-less reply, and the user's rate (or 18) when the reply cannot be
      parsed or its rate is not a positive number. */
  function VerifiedRate(reply: CbicReply.Reply, userRate: real): (r: real)
    ensures r > 0.0 || r == userRate
    ensures (reply.Parsed? && CbicReply.StatedRate(reply.value).Some?
             && CbicReply.StatedRate(reply.value).value.Positive()) ==>
      r == CbicReply.StatedRate(reply.value).value.val
    ensures reply.Blank? ==> r == 18.0
  {
    var fallback := if userRate != 0.0 then userRate else 18.0;
    var first: Num := match reply
      case Blank => Fin(18.0)
      case Unparsable => Fin(fallback)
      case Parsed(v) => CbicReply.StatedRate(v).GetOr(Fin(18.0));
    if first.Positive() then first.val else fallback
  }

  /** The spoken rate is confirmed when it is positive and equals CBIC's. */
  predicate Verified(userRate: real, cbic: real) {
    userRate > 0.0 && cbic > 0.0 && cbic == userRate
  }

  /** The rate and tax after adjusting to CBIC. */
  datatype AdjustedTax = AdjustedTax(rate: real, gst: real, cgst: real, sgst: real, igst: real)

  /** An unconfirmed rate on an invoice with a total, against a positive
      CBIC rate, has its tax recomputed at the CBIC rate (as CGST and SGST
      halves); otherwise the spoken tax stands. The stored rate is the
      user's rate, or CBIC's when the user gave none. */
  function Adjust(total: real, userRate: real, cbic: real, inv: InvoiceTax): (a: AdjustedTax)
    ensures !(!Verified(userRate, cbic) && total != 0.0 && cbic > 0.0) ==>
      a == AdjustedTax(if userRate != 0.0 then userRate else cbic, inv.gst, inv.cgst, inv.sgst, inv.igst)
    ensures !Verified(userRate, cbic) && total != 0.0 && cbic > 0.0 ==>
      && a.rate == cbic
      && -0.005 <= a.gst - TaxIncluded(total, cbic) <= 0.005
      && a.cgst == a.sgst && a.igst == 0.0
      && -0.01 <= a.cgst + a.sgst - a.gst <= 0.01
  {
    if !Verified(userRate, cbic) && total != 0.0 && cbic > 0.0 then
      var s := HalveTax(TaxIncluded(total, cbic));
      AdjustedTax(cbic, s.gst, s.cgst, s.sgst, 0.0)
    else AdjustedTax(if userRate != 0.0 then userRate else cbic, inv.gst, inv.cgst, inv.sgst, inv.igst)
  }

  /** Text stored for a field the user left out. */
  const NotProvided: string := "Not provided"

  /** A form field as stored: the given value when truthy, else
      "Not provided". */
  predicate Defaulted(given: JsValue, stored: JsValue) {
    && (Truthy(given) ==> stored == given)
    && (!Truthy(given) ==> stored == Str(NotProvided))
  }

  /** The document the voice route hands to `new Invoice`. The store
      keeps the schema's paths only: `source` and `totalWithGst` are not
      among them and are dropped on save, and the text fields are saved
      through the schema's String cast. */
  datatype VoiceRecord = VoiceRecord(
    source: string,
    rawText: Option<string>,
    vendor: JsValue,
    invoiceNo: JsValue,
    date: JsValue,
    gstin: JsValue,
    hsn: JsValue,
    totalInvoice: real,
    taxableValue: real,
    totalWithGst: real,
    gstRateInvoice: real,
    gstAmountInvoice: real,
    cgstInvoice: real,
    sgstInvoice: real,
    igstInvoice: real,
    verifiedRate: real,
    gstRateAdjusted: real,
    totalGstAdjusted: real,
    cgstAdjusted: real,
    sgstAdjusted: real,
    igstAdjusted: real,
    gstVerified: bool,
    product: string,
    invoiceType: string)

  /** `cleanRaw || null`. */
  function StoredRawText(b: Body): (r: Option<string>)
    requires !RawTextThrows(b)
    ensures r.Some? ==> r.value != ""
  {
    if Truthy(RawText(b)) then Some(RawText(b).s) else None
  }

  /** The route: a 500 error when `rawText` is truthy but not a string, a
      400 error when the body carries nothing, a 500 error when the save
      throws because a text field is refused by its String cast, else the
      document handed to `new Invoice`. */
  function SaveVoiceInvoice(b: Body, reply: CbicReply.Reply): (r: Outcome<VoiceRecord>)
    ensures r.Rejected? <==> RawTextThrows(b) || !HasAny(b) || TextFieldRefused(b)
    ensures RawTextThrows(b) ==> r == Rejected(500, SaveFailed)
    ensures !RawTextThrows(b) && !HasAny(b) ==> r == Rejected(400, NoData)
    ensures !RawTextThrows(b) && HasAny(b) && TextFieldRefused(b) ==> r == Rejected(500, SaveFailed)
    ensures r.Accepted? ==>
      && !StringCastFails(r.value.vendor) && !StringCastFails(r.value.invoiceNo)
      && !StringCastFails(r.value.date) && !StringCastFails(r.value.gstin) && !StringCastFails(r.value.hsn)
    ensures r.Accepted? ==>
      && r.value.totalInvoice == ToNum(b.total, 0.0)
      && r.value.totalWithGst == r.value.totalInvoice
      && r.value.gstRateInvoice == ToNum(b.gstRate, 0.0)
      && (r.value.gstVerified ==> r.value.totalGstAdjusted == r.value.gstAmountInvoice)
      && (r.value.verifiedRate > 0.0 || r.value.verifiedRate == r.value.gstRateInvoice)
      && r.value.source == "VOICE" && r.value.invoiceType == "VOICE"
      && r.value.product == "Voice-entry invoice"
      && Defaulted(b.vendor, r.value.vendor)
      && Defaulted(b.invoiceNo, r.value.invoiceNo)
      && Defaulted(b.date, r.value.date)
      && Defaulted(b.gstin, r.value.gstin)
      && Defaulted(b.hsn, r.value.hsn)
    ensures r.Accepted? ==>
      var inv := TaxFromRate(ToNum(b.total, 0.0), ToNum(b.gstRate, 0.0));
      && r.value.taxableValue == inv.taxable
      && r.value.gstAmountInvoice == inv.gst
      && r.value.cgstInvoice == inv.cgst && r.value.sgstInvoice == inv.sgst
      && r.value.igstInvoice == inv.igst
      && r.value.verifiedRate == VerifiedRate(reply, ToNum(b.gstRate, 0.0))
      && r.value.gstVerified == Verified(r.value.gstRateInvoice, r.value.verifiedRate)
    ensures r.Accepted? ==>
      var total := ToNum(b.total, 0.0);
      var rate := ToNum(b.gstRate, 0.0);
      var a := Adjust(total, rate, r.value.verifiedRate, TaxFromRate(total, rate));
      && r.value.gstRateAdjusted == a.rate
      && r.value.totalGstAdjusted == a.gst
      && r.value.cgstAdjusted == a.cgst && r.value.sgstAdjusted == a.sgst
      && r.value.igstAdjusted == a.igst
  {
    if RawTextThrows(b) then Rejected(500, SaveFailed)
    else if !HasAny(b) then Rejected(400, NoData)
    else if TextFieldRefused(b) then Rejected(500, SaveFailed)
    else
      var total := ToNum(b.total, 0.0);
      var rate := ToNum(b.gstRate, 0.0);
      var inv := TaxFromRate(total, rate);
      var cbic := VerifiedRate(reply, rate);
      var adj := Adjust(total, rate, cbic, inv);
      Accepted(VoiceRecord(
        source := "VOICE",
        rawText := StoredRawText(b),
        vendor := Or(b.vendor, Str(NotProvided)),
        invoiceNo := Or(b.invoiceNo, Str(NotProvided)),
        date := Or(b.date, Str(NotProvided)),
        gstin := Or(b.gstin, Str(NotProvided)),
        hsn := Or(b.hsn, Str(NotProvided)),
        totalInvoice := total,
        taxableValue := inv.taxable,
        totalWithGst := total,
        gstRateInvoice := rate,
        gstAmountInvoice := inv.gst,
        cgstInvoice := inv.cgst,
        sgstInvoice := inv.sgst,
        igstInvoice := inv.igst,
        verifiedRate := cbic,
        gstRateAdjusted := adj.rate,
        totalGstAdjusted := adj.gst,
        cgstAdjusted := adj.cgst,
        sgstAdjusted := adj.sgst,
        igstAdjusted := adj.igst,
        gstVerified := Verified(rate, cbic),
        product := "Voice-entry invoice",
        invoiceType := "VOICE"))
  }

  /** A body whose vendor is a plain object, `{"vendor": {"a": 1},
      "total": 100}`, is refused at the save with a 500. */
  lemma ObjectVendorFailsSave(reply: CbicReply.Reply)
    ensures var b := Body(Undefined, Object([("a", Number(Fin(1.0)))]), Undefined, Undefined,
                          Undefined, Undefined, Number(Fin(100.0)), Undefined);
      SaveVoiceInvoice(b, reply) == Rejected(500, SaveFailed)
  {
    var v := Object([("a", Number(Fin(1.0)))]);
    assert !Has(v, "_id");
  }

  /** The keyword for the CBIC lookup: the trimmed HSN when it has any
      text, else "general". `show` is the platform's `String(n)` for a
      number. */
  function Keyword(hsn: JsValue, show: real -> string): (r: string)
    ensures r != ""
    ensures hsn.Str? && Trim(hsn.s) != "" ==> r == Trim(hsn.s)
    ensures !Truthy(hsn) ==> r == "general"
  {
    var text := match hsn
      case Number(n) => if n.Fin? then Trim(show(n.val)) else ""
      case _ => Trim(StringOf(hsn));
    if Truthy(hsn) && text != "" then text else "general"
  }
}
