/** Calendar dates as `new Date(year, monthIndex, day)` builds them, and
    `parseInvoiceDate` of backend/routes/parse.js (lines 245-293). Only
    the calendar day is modelled: every date the code builds is local
    midnight, and the time zone does not change which day it is. */
module InvoiceDate {
  import opened JsText
  import opened Optional
  import JsNumber
  import DateText
  import Patterns

  predicate IsLeap(y: int) {
    y % 4 == 0 && (y % 100 != 0 || y % 400 == 0)
  }

  /** Days in month `m` (0 = January) of year `y`, proleptic Gregorian. */
  function DaysInMonth(y: int, m: nat): (n: nat)
    requires m < 12
    ensures 28 <= n <= 31
  {
    if m == 1 then (if IsLeap(y) then 29 else 28)
    else if m == 3 || m == 5 || m == 8 || m == 10 then 30
    else 31
  }

  /** A calendar day; `month` counts from 0 as in JavaScript. */
  datatype Date = Date(year: int, month: nat, day: nat)

  predicate Valid(d: Date) {
    d.month < 12 && 1 <= d.day <= DaysInMonth(d.year, d.month)
  }

  /** Chronological order. */
  predicate Before(a: Date, b: Date) {
    a.year < b.year
    || (a.year == b.year && (a.month < b.month || (a.month == b.month && a.day < b.day)))
  }

  function NextMonth(y: int, m: nat): (r: (int, nat))
    requires m < 12
    ensures r.1 < 12
  {
    if m == 11 then (y + 1, 0) else (y, m + 1)
  }

  function PrevMonth(y: int, m: nat): (r: (int, nat))
    requires m < 12
    ensures r.1 < 12
  {
    if m == 0 then (y - 1, 11) else (y, m - 1)
  }

  /** Day `d` of month `m` of year `y`, where `d` may fall outside the
      month: day 0 is the last day of the month before, day 32 of January
      is the first of February, and so on. */
  function Normalize(y: int, m: nat, d: int): (r: Date)
    requires m < 12
    ensures Valid(r)
    decreases if d < 1 then 100 - d else d
  {
    if d < 1 then
      var (py, pm) := PrevMonth(y, m);
      Normalize(py, pm, d + DaysInMonth(py, pm))
    else if d > DaysInMonth(y, m) then
      var (ny, nm) := NextMonth(y, m);
      Normalize(ny, nm, d - DaysInMonth(y, m))
    else Date(y, m, d)
  }

  /** `new Date(y, m, d)`: a year from 0 to 99 means 1900 to 1999, a month
      outside 0..11 moves the year, and the day rolls over. */
  function NewDate(y: int, m: int, d: int): (r: Date)
    ensures Valid(r)
  {
    var year := if 0 <= y <= 99 then 1900 + y else y;
    Normalize(year + m / 12, m % 12, d)
  }

  /** A valid date is built as itself. */
  lemma NewDateOfValid(d: Date)
    requires Valid(d) && !(0 <= d.year <= 99)
    ensures NewDate(d.year, d.month, d.day) == d
  {
    assert d.month / 12 == 0 && d.month % 12 == d.month;
  }

  /** One day past the end of a month is the first of the next. */
  lemma NewDateRollsOver(y: int, m: nat, extra: nat)
    requires m < 12 && !(0 <= y <= 99) && 1 <= extra <= 28
    ensures NewDate(y, m, DaysInMonth(y, m) + extra)
      == Date(NextMonth(y, m).0, NextMonth(y, m).1, extra)
  {
    assert m / 12 == 0 && m % 12 == m;
    var (ny, nm) := NextMonth(y, m);
    assert Normalize(ny, nm, extra) == Date(ny, nm, extra);
  }

  /** `parseInvoiceDate`: `DD/MM/YY(YY)` (two-digit years are 20YY), then
      `DD Mon(th) YYYY`, then whatever the platform's `Date` parser makes of
      the text, which is a parameter here. The placeholder and the empty
      string give no date. Out-of-range days and months roll over rather
      than being rejected. */
  function ParseInvoiceDate(s: string, platformParse: string -> Option<Date>): (r: Option<Date>)
    ensures s == "" || s == Patterns.NotFound ==> r.None?
    ensures DateText.MatchDmy(Trim(s)).Some? && s != Patterns.NotFound ==> r.Some? && Valid(r.value)
  {
    if s == "" || s == Patterns.NotFound then None
    else
      var t := Trim(s);
      match DateText.MatchDmy(t)
      case Some((d, mo, y)) => Some(NewDate(DmyYear(y), JsNumber.DigitsValue(mo) - 1, JsNumber.DigitsValue(d)))
      case None => ParseMonthName(t, platformParse)
  }

  /** The `D Mon YYYY` reading, by the month table, else the platform's. */
  function ParseMonthName(t: string, platformParse: string -> Option<Date>): (r: Option<Date>)
    ensures DateText.MatchDayMonth(t, true).Some? && DateText.MonthIndex(Lower(DateText.MatchDayMonth(t, true).value.1)).Some?
      ==> r.Some? && Valid(r.value)
    ensures var m := DateText.MatchDayMonth(t, true);
      m.Some? && DateText.MonthIndex(Lower(m.value.1)).Some? ==>
        r == Some(NewDate(JsNumber.DigitsValue(m.value.2), DateText.MonthIndex(Lower(m.value.1)).value, JsNumber.DigitsValue(m.value.0)))
    ensures var m := DateText.MatchDayMonth(t, true);
      !(m.Some? && DateText.MonthIndex(Lower(m.value.1)).Some?) ==> r == platformParse(t)
  {
    match DateText.MatchDayMonth(t, true) {
      case Some((d, mon, y)) =>
        match DateText.MonthIndex(Lower(mon)) {
          case Some(k) => Some(NewDate(JsNumber.DigitsValue(y), k, JsNumber.DigitsValue(d)))
          case None => platformParse(t)
        }
      case None => platformParse(t)
    }
  }

  /** A date written with a known month name is read the same whatever the
      platform's own parser would say. */
  lemma MonthNameIgnoresPlatform(t: string, p: string -> Option<Date>, q: string -> Option<Date>)
    requires DateText.MatchDayMonth(t, true).Some?
    requires DateText.MonthIndex(Lower(DateText.MatchDayMonth(t, true).value.1)).Some?
    ensures ParseMonthName(t, p) == ParseMonthName(t, q)
  {
  }

  /** `DD/MM/YYYY` with zero-padded day and month. */
  function FormatDmy(d: Date): string
    requires Valid(d) && 1000 <= d.year <= 9999
  {
    Pad2(d.day) + "/" + Pad2(d.month + 1) + "/" + NatToString(d.year)
  }

  lemma {:induction false} DigitsValueOfNatToString(n: nat)
    ensures JsNumber.DigitsValue(NatToString(n)) == n
    decreases n
  {
    var d := ['0' + (n % 10) as char];
    if n >= 10 {
      DigitsValueOfNatToString(n / 10);
      var s := NatToString(n / 10) + d;
      assert s[..|s| - 1] == NatToString(n / 10);
    }
  }

  lemma NatToStringLength(n: nat)
    ensures 10 <= n < 100 ==> |NatToString(n)| == 2
    ensures 1000 <= n < 10000 ==> |NatToString(n)| == 4
  {
    if n >= 10 {
      NatToStringLength(n / 10);
    }
  }

  lemma Pad2Value(n: nat)
    requires n < 100
    ensures |Pad2(n)| == 2 && JsNumber.DigitsValue(Pad2(n)) == n
  {
    DigitsValueOfNatToString(n);
    NatToStringLength(n);
    if n < 10 {
      var s := Pad2(n);
      assert s[..1] == "0";
    }
  }

  lemma MatchDmyOfFormat(a: string, b: string, c: string)
    requires |a| == 2 && |b| == 2 && |c| == 4 && AllDigits(a) && AllDigits(b) && AllDigits(c)
    ensures DateText.MatchDmy(a + "/" + b + "/" + c) == Some((a, b, c))
  {
    var s := a + "/" + b + "/" + c;
    DigitRunBeforeSeparator(a, '/', b + "/" + c);
    assert s == a + ['/'] + (b + "/" + c);
    var rest := s[3..];
    assert rest == b + ['/'] + c;
    DigitRunBeforeSeparator(b, '/', c);
    assert s[..2] == a && rest[..2] == b && rest[3..] == c;
  }

  /** The year a `DD/MM/YY(YY)` date stands for, before `new Date` adds
      1900 to years below 100. */
  function DmyYear(y: string): int
    requires AllDigits(y)
  {
    if |y| == 2 then 2000 + JsNumber.DigitsValue(y) else JsNumber.DigitsValue(y)
  }

  lemma DmyTextNoSpace(a: string, b: string, c: string)
    requires |a| > 0 && AllDigits(a) && AllDigits(b) && AllDigits(c)
    ensures var s := a + "/" + b + "/" + c;
      NoSpace(s) && s != "" && s != Patterns.NotFound
  {
    var s := a + "/" + b + "/" + c;
    forall i | 0 <= i < |s| ensures !IsSpace(s[i]) {
      assert IsDigit(s[i]) || s[i] == '/';
    }
    assert s[0] != Patterns.NotFound[0];
  }

  /** A date written `DD/MM/YYYY` is read back as that very date. */
  lemma ParseFormatDmy(d: Date, platformParse: string -> Option<Date>)
    requires Valid(d) && 1000 <= d.year <= 9999
    ensures ParseInvoiceDate(FormatDmy(d), platformParse) == Some(d)
  {
    var a := Pad2(d.day);
    var b := Pad2(d.month + 1);
    var c := NatToString(d.year);
    Pad2Value(d.day);
    Pad2Value(d.month + 1);
    NatToStringLength(d.year);
    DigitsValueOfNatToString(d.year);
    var s := FormatDmy(d);
    assert s == a + "/" + b + "/" + c;
    DmyTextNoSpace(a, b, c);
    MatchDmyOfFormat(a, b, c);
    assert DmyYear(c) == d.year;
    DmyRoundTrip(d, s, a, b, c, platformParse);
  }

  /** A text that `DD/MM/YY(YY)` matching splits into day, month and year
      texts whose values are those of `d` reads as `d`. */
  lemma DmyRoundTrip(d: Date, s: string, a: string, b: string, c: string, platformParse: string -> Option<Date>)
    requires Valid(d) && d.year >= 100
    requires s != "" && s != Patterns.NotFound && NoSpace(s) && DateText.MatchDmy(s) == Some((a, b, c))
    requires DmyYear(c) == d.year && JsNumber.DigitsValue(b) - 1 == d.month && JsNumber.DigitsValue(a) == d.day
    ensures ParseInvoiceDate(s, platformParse) == Some(d)
  {
    assert Trim(s) == s;
    NewDateOfValid(d);
  }

  /** `DD/MM/YY` for a date of this century. */
  function FormatDmyShort(d: Date): string
    requires Valid(d) && 2000 <= d.year <= 2099
  {
    Pad2(d.day) + "/" + Pad2(d.month + 1) + "/" + Pad2(d.year - 2000)
  }

  /** A two-digit year is read as 20YY: a date of this century written
      `DD/MM/YY` is read back as itself. */
  lemma ParseFormatDmyShort(d: Date, platformParse: string -> Option<Date>)
    requires Valid(d) && 2000 <= d.year <= 2099
    ensures ParseInvoiceDate(FormatDmyShort(d), platformParse) == Some(d)
  {
    var a := Pad2(d.day);
    var b := Pad2(d.month + 1);
    var c := Pad2(d.year - 2000);
    Pad2Value(d.day);
    Pad2Value(d.month + 1);
    Pad2Value(d.year - 2000);
    var s := FormatDmyShort(d);
    assert s == a + "/" + b + "/" + c;
    DmyTextNoSpace(a, b, c);
    MatchDmyTwoDigitYear(a, b, c);
    assert DmyYear(c) == d.year;
    DmyRoundTrip(d, s, a, b, c, platformParse);
  }

  lemma MatchDmyTwoDigitYear(a: string, b: string, c: string)
    requires |a| == 2 && |b| == 2 && |c| == 2 && AllDigits(a) && AllDigits(b) && AllDigits(c)
    ensures DateText.MatchDmy(a + "/" + b + "/" + c) == Some((a, b, c))
  {
    var s := a + "/" + b + "/" + c;
    DigitRunBeforeSeparator(a, '/', b + "/" + c);
    assert s == a + ['/'] + (b + "/" + c);
    var rest := s[3..];
    assert rest == b + ['/'] + c;
    DigitRunBeforeSeparator(b, '/', c);
    assert s[..2] == a && rest[..2] == b && rest[3..] == c;
  }
}
