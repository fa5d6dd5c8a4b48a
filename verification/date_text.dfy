/** The two anchored date layouts `parseInvoiceDate` recognises
    (backend/routes/parse.js), as scanners that return the captured parts. */
module DateText {
  import opened JsText
  import opened Optional

  predicate IsDateSep(c: char) { c == '/' || c == '-' }

  /** `^(\d{1,2})[\/-](\d{1,2})[\/-](\d{2,4})$`: day, month and year digits. */
  function MatchDmy(s: string): (r: Option<(string, string, string)>)
    ensures r.Some? ==> var (d, m, y) := r.value;
      && 1 <= |d| <= 2 && AllDigits(d)
      && 1 <= |m| <= 2 && AllDigits(m)
      && 2 <= |y| <= 4 && AllDigits(y)
      && |s| == |d| + |m| + |y| + 2
  {
    var a := DigitRun(s);
    if !(1 <= a <= 2) || a == |s| || !IsDateSep(s[a]) then None
    else
      var rest := s[a + 1..];
      var b := DigitRun(rest);
      if !(1 <= b <= 2) || b == |rest| || !IsDateSep(rest[b]) then None
      else
        var y := rest[b + 1..];
        if 2 <= |y| <= 4 && AllDigits(y) then Some((s[..a], rest[..b], y)) else None
  }

  /** The twelve month abbreviations the date regexes list, in order. */
  const MonthAbbrevs: seq<string> :=
    ["jan", "feb", "mar", "apr", "may", "jun", "jul", "aug", "sep", "oct", "nov", "dec"]

  /** The fixed month table of `parseInvoiceDate`: a lower-case three
      letter abbreviation to its 0-based month index. */
  function MonthIndex(abbr: string): (r: Option<nat>)
    ensures r.Some? ==> r.value < 12 && MonthAbbrevs[r.value] == abbr
    ensures r.None? ==> abbr !in MonthAbbrevs
  {
    MonthIndexFrom(abbr, 0)
  }

  function MonthIndexFrom(abbr: string, k: nat): (r: Option<nat>)
    requires k <= 12
    ensures r.Some? ==> k <= r.value < 12 && MonthAbbrevs[r.value] == abbr
    ensures r.None? ==> forall j | k <= j < 12 :: MonthAbbrevs[j] != abbr
    decreases 12 - k
  {
    if k == 12 then None
    else if MonthAbbrevs[k] == abbr then Some(k)
    else MonthIndexFrom(abbr, k + 1)
  }

  /** Length of the leading run of ASCII letters (`[a-z]*` under the `i`
      flag). */
  function LetterRun(s: string): (n: nat)
    ensures n <= |s|
    ensures forall i | 0 <= i < n :: IsLetter(s[i])
    ensures n < |s| ==> !IsLetter(s[n])
    decreases |s|
  {
    if |s| > 0 && IsLetter(s[0]) then 1 + LetterRun(s[1..]) else 0
  }

  /** `^(\d{1,2})\s+(Jan|…|Dec)[a-z]*\s+(\d{4})$` under the `i` flag when
      `longNames` holds, and the same without `[a-z]*` otherwise: the day
      digits, the three month letters as written, and the year digits. */
  function MatchDayMonth(s: string, longNames: bool): (r: Option<(string, string, string)>)
    ensures r.Some? ==> var (d, mon, y) := r.value;
      && 1 <= |d| <= 2 && AllDigits(d)
      && |mon| == 3 && Lower(mon) in MonthAbbrevs
      && |y| == 4 && AllDigits(y)
  {
    var a := DigitRun(s);
    if !(1 <= a <= 2) then None
    else
      var r := s[a..];
      var w := SpaceRun(r);
      if w == 0 || |r| - w < 3 then None
      else
        var m := r[w..];
        if Lower(m[..3]) !in MonthAbbrevs then None
        else
          var l := if longNames then LetterRun(m[3..]) else 0;
          var r2 := m[3 + l..];
          var w2 := SpaceRun(r2);
          if w2 == 0 then None
          else
            var y := r2[w2..];
            if |y| == 4 && AllDigits(y) then Some((s[..a], m[..3], y)) else None
  }
}
