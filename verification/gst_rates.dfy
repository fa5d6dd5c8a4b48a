/** `resolveRate` of backend/routes/gstRates.js (lines 15-41): a GST rate
    looked up by HSN code, else by the first keyword entry whose alias
    occurs in a description. The rate table, read from a JSON file at
    start-up, is a parameter. */
module GstRates {
  import opened JsText
  import opened Optional
  import opened JsValues

  /** A keyword entry: a product name, the words that identify it, and its
      rate. */
  datatype KeywordEntry = KeywordEntry(name: string, aliases: seq<string>, rate: JsValue)

  /** The table: rates by HSN code, then the keyword entries in order. */
  datatype RateTable = RateTable(hsn: map<string, JsValue>, keywords: seq<KeywordEntry>)

  datatype Source = ByHsn | ByKeyword | NoMatch

  /** The answer: the rate (`null` when none), how it was found, what
      matched, and a note for the reader. */
  datatype Resolution = Resolution(rate: JsValue, source: Source, matched: Option<string>, notes: string)

  /** An entry applies when one of its aliases occurs in the text. */
  predicate Applies(e: KeywordEntry, hay: string) {
    exists a | a in e.aliases :: Occurs(a, hay)
  }

  /** The index of the first alias of `aliases` that occurs in `hay`, or
      `|aliases|`. */
  function FirstAliasIndex(aliases: seq<string>, hay: string): (i: nat)
    ensures i <= |aliases|
    ensures i < |aliases| ==> Occurs(aliases[i], hay)
    ensures forall j | 0 <= j < i :: !Occurs(aliases[j], hay)
  {
    if aliases == [] then 0
    else if Occurs(aliases[0], hay) then 0
    else 1 + FirstAliasIndex(aliases[1..], hay)
  }

  /** `aliases.find(a => hay.includes(a))`: the first alias, in list
      order, that occurs. */
  function FirstAlias(aliases: seq<string>, hay: string): (r: Option<string>)
    ensures r.Some? ==> r.value in aliases && Occurs(r.value, hay)
    ensures r.None? <==> forall a | a in aliases :: !Occurs(a, hay)
    ensures forall i | 0 <= i < |aliases| && Occurs(aliases[i], hay) && (forall j | 0 <= j < i :: !Occurs(aliases[j], hay)) ::
      r == Some(aliases[i])
  {
    var i := FirstAliasIndex(aliases, hay);
    if i < |aliases| then Some(aliases[i])
    else
      assert forall a | a in aliases :: !Occurs(a, hay) by {
        forall a | a in aliases ensures !Occurs(a, hay) {
          var j :| 0 <= j < |aliases| && aliases[j] == a;
        }
      }
      None
  }

  /** The index of the first entry that applies, or `|entries|`. */
  function FirstEntry(entries: seq<KeywordEntry>, hay: string): (i: nat)
    ensures i <= |entries|
    ensures i < |entries| ==> Applies(entries[i], hay)
    ensures forall j | 0 <= j < i :: !Applies(entries[j], hay)
  {
    if entries == [] then 0
    else if FirstAlias(entries[0].aliases, hay).Some? then 0
    else 1 + FirstEntry(entries[1..], hay)
  }

  /** `(v || "").toString()` for the query value, which is a string when
      present. */
  function TextOr(v: Option<string>): string {
    match v
    case Some(s) => s
    case None => ""
  }

  /** `resolveRate({ hsn, text })`: the HSN code's rate when the trimmed
      code is in the table with a truthy rate; else the rate of the first
      keyword entry (in table order) with an alias in the lower-cased text,
      reporting that entry's first such alias; else no rate. */
  function ResolveRate(table: RateTable, hsn: Option<string>, text: Option<string>): (r: Resolution)
    ensures var code := Trim(TextOr(hsn));
      code != "" && code in table.hsn && Truthy(table.hsn[code]) ==>
        r == Resolution(table.hsn[code], ByHsn, Some(code), "Matched by HSN")
    ensures r.source == ByHsn <==>
      var code := Trim(TextOr(hsn)); code != "" && code in table.hsn && Truthy(table.hsn[code])
    ensures r.source == ByHsn ==> r.matched.Some? && r.matched.value in table.hsn
    ensures r.source == ByKeyword ==> KeywordAnswer(table.keywords, Lower(TextOr(text)), r)
    ensures r.source == NoMatch <==>
      !(var code := Trim(TextOr(hsn)); code != "" && code in table.hsn && Truthy(table.hsn[code]))
      && forall e | e in table.keywords :: !Applies(e, Lower(TextOr(text)))
    ensures r.source == NoMatch ==> r == Resolution(Null, NoMatch, None, "No match")
  {
    var code := Trim(TextOr(hsn));
    if code != "" && code in table.hsn && Truthy(table.hsn[code]) then
      Resolution(table.hsn[code], ByHsn, Some(code), "Matched by HSN")
    else ByKeywordIn(table.keywords, Lower(TextOr(text)))
  }

  /** `r` reports the first entry that applies to `hay`: its rate, the
      first of its aliases found in `hay`, and its name in the note. */
  predicate KeywordAnswer(entries: seq<KeywordEntry>, hay: string, r: Resolution) {
    exists i | 0 <= i < |entries| ::
      && Applies(entries[i], hay)
      && (forall j | 0 <= j < i :: !Applies(entries[j], hay))
      && r.rate == entries[i].rate
      && r.matched.Some? && r.matched.value in entries[i].aliases
      && Occurs(r.matched.value, hay)
      && r.matched == FirstAlias(entries[i].aliases, hay)
      && r.notes == "Matched keyword for \"" + entries[i].name + "\""
  }

  /** The keyword lookup, once the HSN code has given nothing. */
  function ByKeywordIn(entries: seq<KeywordEntry>, hay: string): (r: Resolution)
    ensures r.source != ByHsn
    ensures r.source == ByKeyword ==> KeywordAnswer(entries, hay, r)
    ensures r.source == NoMatch <==> forall e | e in entries :: !Applies(e, hay)
    ensures r.source == NoMatch ==> r == Resolution(Null, NoMatch, None, "No match")
  {
    var i := FirstEntry(entries, hay);
    if i < |entries| then
      var e := entries[i];
      var a := FirstAlias(e.aliases, hay);
      var r := Resolution(e.rate, ByKeyword, a, "Matched keyword for \"" + e.name + "\"");
      assert KeywordAnswer(entries, hay, r) by {
        assert Applies(entries[i], hay);
      }
      r
    else
      NoEntryApplies(entries, hay);
      Resolution(Null, NoMatch, None, "No match")
  }

  lemma NoEntryApplies(entries: seq<KeywordEntry>, hay: string)
    requires FirstEntry(entries, hay) == |entries|
    ensures forall e | e in entries :: !Applies(e, hay)
  {
    forall e | e in entries ensures !Applies(e, hay) {
      var j :| 0 <= j < |entries| && entries[j] == e;
    }
  }

  /** Adding keyword entries after the table's end never changes a result
      the table already gives. */
  lemma ResolveRateStableUnderAppend(table: RateTable, more: seq<KeywordEntry>,
                                     hsn: Option<string>, text: Option<string>)
    requires ResolveRate(table, hsn, text).source != NoMatch
    ensures ResolveRate(RateTable(table.hsn, table.keywords + more), hsn, text)
      == ResolveRate(table, hsn, text)
  {
    var hay := Lower(TextOr(text));
    var code := Trim(TextOr(hsn));
    if !(code != "" && code in table.hsn && Truthy(table.hsn[code])) {
      FirstEntryOfAppend(table.keywords, more, hay);
    }
  }

  lemma {:induction false} FirstEntryOfAppend(entries: seq<KeywordEntry>, more: seq<KeywordEntry>, hay: string)
    requires FirstEntry(entries, hay) < |entries|
    ensures FirstEntry(entries + more, hay) == FirstEntry(entries, hay)
    decreases |entries|
  {
    assert (entries + more)[0] == entries[0];
    if FirstAlias(entries[0].aliases, hay).None? {
      assert (entries + more)[1..] == entries[1..] + more;
      FirstEntryOfAppend(entries[1..], more, hay);
    }
  }
}
