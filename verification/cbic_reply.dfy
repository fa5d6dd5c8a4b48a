/** The reply of the CBIC rate script, as both invoice routes read it
    (backend/routes/parse.js:572-583, backend/routes/voiceInvoice.js:114-128).
    The script itself runs outside the model: its standard output arrives
    here already classified. */
module CbicReply {
  import opened JsText
  import opened JsNumber
  import opened Optional
  import opened JsValues

  /** What the script printed: nothing (or only white space), text that
      `JSON.parse` rejects, or a JSON value. */
  datatype Reply = Blank | Unparsable | Parsed(value: JsValue)

  /** `Number(String(rate).replace("%", "").trim())`: the first `%` is
      dropped, surrounding white space ignored. A number is its own value,
      since `String(n)` of a finite number reads back as `n` and has
      neither `%` nor white space in it. */
  function RateNumber(rate: JsValue): (r: Num)
    ensures rate.Number? ==> r == rate.n
    ensures rate.Object? ==> r == NaN
  {
    match rate
    case Number(n) => n
    case _ => ParseJsNumber(Trim(RemoveFirst(StringOf(rate), '%')))
  }

  /** `parsed && parsed.rate ? Number(...) : undefined`: the rate the reply
      states, when the parsed value and its `rate` property are truthy. */
  function StatedRate(parsed: JsValue): (r: Option<Num>)
    ensures r.Some? <==> Truthy(parsed) && Truthy(Get(parsed, "rate"))
    ensures r.Some? ==> r.value == RateNumber(Get(parsed, "rate"))
  {
    if Truthy(parsed) && Truthy(Get(parsed, "rate")) then Some(RateNumber(Get(parsed, "rate")))
    else None
  }

  /** The reply the script prints for a rate of `d` percent. */
  function PercentReply(d: string): JsValue {
    Object([("rate", Str(d + "%"))])
  }

  /** A rate written `"<digits>%"` is read back as those digits' value. */
  lemma PercentReplyRoundTrip(d: string)
    requires |d| > 0 && AllDigits(d)
    ensures StatedRate(PercentReply(d)) == Some(Fin(DigitsValue(d) as real))
  {
    var v := PercentReply(d);
    assert IndexOf(v.entries, "rate") == 0;
    assert Get(v, "rate") == Str(d + "%");
    assert Truthy(v) && Truthy(Str(d + "%"));
    PercentRateNumber(d);
  }

  lemma PercentRateNumber(d: string)
    requires |d| > 0 && AllDigits(d)
    ensures RateNumber(Str(d + "%")) == Fin(DigitsValue(d) as real)
  {
    RemovePercentAfterDigits(d);
    assert StringOf(Str(d + "%")) == d + "%";
    ParseJsNumberOfDigits(d);
  }

  /** A rate reply such as `{"rate": "18% (default)"}`: digits, "%", then
      a note set off by a space. Such a rate is not a number once "%" is
      dropped, since `Number` reads "18 (default)" as NaN. */
  lemma NotedReplyIsNaN(d: string, note: string)
    requires |d| > 0 && AllDigits(d)
    requires |note| > 1 && note[0] == ' ' && !IsSpace(note[|note| - 1])
    ensures StatedRate(Object([("rate", Str(d + "%" + note))])) == Some(NaN)
  {
    var v := Object([("rate", Str(d + "%" + note))]);
    assert IndexOf(v.entries, "rate") == 0;
    assert Get(v, "rate") == Str(d + "%" + note);
    assert |d + "%" + note| > 0;
    NotedRateIsNaN(d, note);
  }

  /** Only the first "%" is dropped: what follows it is kept as it is. */
  lemma {:induction false} RemoveFirstPercent(d: string, rest: string)
    requires '%' !in d
    ensures RemoveFirst(d + "%" + rest, '%') == d + rest
    decreases |d|
  {
    if |d| > 0 {
      assert (d + "%" + rest)[1..] == d[1..] + "%" + rest;
      RemoveFirstPercent(d[1..], rest);
    }
  }

  lemma NoPercentInDigits(d: string)
    requires AllDigits(d)
    ensures '%' !in d
  {
    forall i | 0 <= i < |d| ensures d[i] != '%' { assert IsDigit(d[i]); }
  }

  /** A trailing "%" after digits is the one dropped. */
  lemma RemovePercentAfterDigits(d: string)
    requires AllDigits(d)
    ensures RemoveFirst(d + "%", '%') == d
  {
    NoPercentInDigits(d);
    RemoveFirstPercent(d, "");
    assert d + "%" + "" == d + "%";
    assert d + "" == d;
  }

  lemma NotedRateIsNaN(d: string, note: string)
    requires |d| > 0 && AllDigits(d)
    requires |note| > 1 && note[0] == ' ' && !IsSpace(note[|note| - 1])
    ensures RateNumber(Str(d + "%" + note)) == NaN
  {
    NoPercentInDigits(d);
    RemoveFirstPercent(d, note);
    assert StringOf(Str(d + "%" + note)) == d + "%" + note;
    DigitsThenNoteIsNaN(d, note);
  }

  lemma DigitsThenNoteIsNaN(d: string, note: string)
    requires |d| > 0 && AllDigits(d)
    requires |note| > 1 && note[0] == ' ' && !IsSpace(note[|note| - 1])
    ensures ParseJsNumber(Trim(d + note)) == NaN
  {
    var t := d + note;
    assert t[0] == d[0] && t[|t| - 1] == note[|note| - 1];
    assert Trim(t) == t;
    DigitRunBeforeSeparator(d, ' ', note[1..]);
    assert d + note == d + [' '] + note[1..];
    assert t[|d|] == ' ';
    assert t[0] != '-' && t[0] != '+';
    assert DecimalLiteral(t) == None;
  }
}
