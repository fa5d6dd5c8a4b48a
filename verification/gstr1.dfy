/** `generateGSTR1` of backend/utils/gstr1.js: outward supplies split into
    B2B (to a registered buyer) and B2C, with a summary per HSN code. */
module Gstr1 {
  import opened JsNumber
  import opened Optional
  import opened Sums
  import Patterns
  import SeqUtil

  /** The invoice fields the report reads. A number field that is missing
      is `NaN`, which is what `+=` makes of `undefined`; a missing `gstin`
      is `None`. */
  datatype ReturnInvoice = ReturnInvoice(
    hsn: string,
    gstin: Option<string>,
    taxableValue: Num,
    cgst: Num,
    sgst: Num)

  /** One summary row: the code and its three totals. */
  datatype HsnRow = HsnRow(hsn: string, taxable: Num, cgst: Num, sgst: Num)

  /** The report. `hsn` is a map because the rows' order (that of
      `Object.values`) is not part of what the report promises. */
  datatype Report = Report(
    gstin: string,
    period: string,
    b2b: seq<ReturnInvoice>,
    b2c: seq<ReturnInvoice>,
    hsn: map<string, HsnRow>)

  /** `inv.gstin !== "Not found"`: a missing GSTIN counts as B2B too. */
  predicate IsB2b(inv: ReturnInvoice) {
    inv.gstin != Some(Patterns.NotFound)
  }

  /** The invoices `keep` selects, in their order. */
  function Select(invs: seq<ReturnInvoice>, keep: bool): (r: seq<ReturnInvoice>)
    ensures forall i | 0 <= i < |r| :: IsB2b(r[i]) == keep
    ensures |r| <= |invs|
    decreases |invs|
  {
    if invs == [] then []
    else
      var last := invs[|invs| - 1];
      Select(invs[..|invs| - 1], keep) + (if IsB2b(last) == keep then [last] else [])
  }

  /** The invoices with code `h`, in their order. */
  function WithHsn(invs: seq<ReturnInvoice>, h: string): (r: seq<ReturnInvoice>)
    decreases |invs|
  {
    if invs == [] then []
    else
      var last := invs[|invs| - 1];
      WithHsn(invs[..|invs| - 1], h) + (if last.hsn == h then [last] else [])
  }

  datatype Column = Taxable | Cgst | Sgst

  function Cell(inv: ReturnInvoice, c: Column): Num {
    match c
    case Taxable => inv.taxableValue
    case Cgst => inv.cgst
    case Sgst => inv.sgst
  }

  /** The total of one column, summed the way `+=` sums it. */
  function Total(invs: seq<ReturnInvoice>, c: Column): Num {
    SumNums(SeqUtil.Cells(invs, c, Cell))
  }

  /** The row for `h` as a definition: the totals over the invoices with
      that code. */
  function RowFor(invs: seq<ReturnInvoice>, h: string): HsnRow {
    var w := WithHsn(invs, h);
    HsnRow(h, Total(w, Taxable), Total(w, Cgst), Total(w, Sgst))
  }

  /** The codes that occur. */
  function Codes(invs: seq<ReturnInvoice>): set<string> {
    set i | 0 <= i < |invs| :: invs[i].hsn
  }

  /** One invoice added into the per-code totals: its code's row, started
      at zero when new, gains its three values. */
  function AddInto(summary: map<string, HsnRow>, inv: ReturnInvoice): map<string, HsnRow> {
    var row := if inv.hsn in summary then summary[inv.hsn] else HsnRow(inv.hsn, Fin(0.0), Fin(0.0), Fin(0.0));
    summary[inv.hsn := HsnRow(inv.hsn,
      Add(row.taxable, inv.taxableValue), Add(row.cgst, inv.cgst), Add(row.sgst, inv.sgst))]
  }

  /** The per-code totals are right for a list of invoices. */
  predicate Summarizes(summary: map<string, HsnRow>, invs: seq<ReturnInvoice>) {
    && summary.Keys == Codes(invs)
    && forall h | h in summary :: summary[h] == RowFor(invs, h)
  }

  /** The loop of `generateGSTR1`: each invoice, in order, is pushed onto
      `b2b` or `b2c` and added into its code's row. */
  method GenerateGstr1(invs: seq<ReturnInvoice>, gstin: string, period: string) returns (r: Report)
    ensures r.gstin == gstin && r.period == period
    ensures r.b2b == Select(invs, true) && r.b2c == Select(invs, false)
    ensures r.hsn.Keys == Codes(invs)
    ensures forall h | h in r.hsn :: r.hsn[h] == RowFor(invs, h)
  {
    var b2b: seq<ReturnInvoice> := [];
    var b2c: seq<ReturnInvoice> := [];
    var summary: map<string, HsnRow> := map[];
    var i := 0;
    while i < |invs|
      invariant 0 <= i <= |invs|
      invariant b2b == Select(invs[..i], true) && b2c == Select(invs[..i], false)
      invariant Summarizes(summary, invs[..i])
    {
      var inv := invs[i];
      assert invs[..i + 1] == invs[..i] + [inv];
      SummaryStep(summary, invs[..i], inv);
      SelectStep(invs[..i], inv);
      summary := AddInto(summary, inv);
      if IsB2b(inv) {
        b2b := b2b + [inv];
      } else {
        b2c := b2c + [inv];
      }
      i := i + 1;
    }
    assert invs[..i] == invs;
    r := Report(gstin, period, b2b, b2c, summary);
  }

  lemma SelectStep(invs: seq<ReturnInvoice>, inv: ReturnInvoice)
    ensures Select(invs + [inv], true) == Select(invs, true) + (if IsB2b(inv) then [inv] else [])
    ensures Select(invs + [inv], false) == Select(invs, false) + (if IsB2b(inv) then [] else [inv])
  {
    var s := invs + [inv];
    assert s[..|s| - 1] == invs;
  }

  lemma SummaryStep(summary: map<string, HsnRow>, invs: seq<ReturnInvoice>, inv: ReturnInvoice)
    requires Summarizes(summary, invs)
    ensures Summarizes(AddInto(summary, inv), invs + [inv])
  {
    var s := invs + [inv];
    var next := AddInto(summary, inv);
    assert next.Keys == Codes(s) by {
      CodesStep(invs, inv);
      assert next.Keys == summary.Keys + {inv.hsn};
    }
    assert next[inv.hsn] == RowFor(s, inv.hsn) by {
      CodesStep(invs, inv);
      assert RowFor(invs, inv.hsn) == (if inv.hsn in summary then summary[inv.hsn]
        else HsnRow(inv.hsn, Fin(0.0), Fin(0.0), Fin(0.0)));
      RowStep(invs, inv);
    }
    forall h | h in next && h != inv.hsn ensures next[h] == RowFor(s, h) {
      assert h in summary;
      RowStepOther(invs, inv, h);
    }
  }

  /** Adding an invoice adds its values into its own code's row. */
  lemma RowStep(invs: seq<ReturnInvoice>, inv: ReturnInvoice)
    ensures RowFor(invs + [inv], inv.hsn) == (
      var row := RowFor(invs, inv.hsn);
      HsnRow(inv.hsn, Add(row.taxable, inv.taxableValue), Add(row.cgst, inv.cgst), Add(row.sgst, inv.sgst)))
  {
    var s := invs + [inv];
    assert s[..|s| - 1] == invs;
    var w := WithHsn(invs, inv.hsn);
    assert WithHsn(s, inv.hsn) == w + [inv];
    ValuesAppend(w, inv, Taxable);
    ValuesAppend(w, inv, Cgst);
    ValuesAppend(w, inv, Sgst);
  }

  /** ... and leaves every other code's row alone. */
  lemma RowStepOther(invs: seq<ReturnInvoice>, inv: ReturnInvoice, h: string)
    requires h != inv.hsn
    ensures RowFor(invs + [inv], h) == RowFor(invs, h)
  {
    var s := invs + [inv];
    assert s[..|s| - 1] == invs;
    assert WithHsn(s, h) == WithHsn(invs, h);
  }

  lemma ValuesAppend(w: seq<ReturnInvoice>, inv: ReturnInvoice, c: Column)
    ensures Total(w + [inv], c) == Add(Total(w, c), Cell(inv, c))
  {
    var s := w + [inv];
    assert s[..|s| - 1] == w;
    var v := SeqUtil.Cells(s, c, Cell);
    assert v[..|v| - 1] == SeqUtil.Cells(w, c, Cell);
  }

  /** A code starts out with zero totals. */
  lemma AbsentCodeRow(invs: seq<ReturnInvoice>, h: string)
    requires h !in Codes(invs)
    ensures RowFor(invs, h) == HsnRow(h, Fin(0.0), Fin(0.0), Fin(0.0))
  {
    assert WithHsn(invs, h) == [] by { NoneWithHsn(invs, h); }
  }

  lemma {:induction false} NoneWithHsn(invs: seq<ReturnInvoice>, h: string)
    requires h !in Codes(invs)
    ensures WithHsn(invs, h) == []
    decreases |invs|
  {
    if invs != [] {
      var p := invs[..|invs| - 1];
      assert Codes(p) <= Codes(invs) by {
        forall x | x in Codes(p) ensures x in Codes(invs) {
          var i :| 0 <= i < |p| && p[i].hsn == x;
          assert invs[i].hsn == x;
        }
      }
      assert invs[|invs| - 1].hsn in Codes(invs);
      NoneWithHsn(p, h);
    }
  }

  lemma CodesStep(invs: seq<ReturnInvoice>, inv: ReturnInvoice)
    ensures Codes(invs + [inv]) == Codes(invs) + {inv.hsn}
    ensures inv.hsn !in Codes(invs) ==> RowFor(invs, inv.hsn) == HsnRow(inv.hsn, Fin(0.0), Fin(0.0), Fin(0.0))
  {
    var s := invs + [inv];
    forall x | x in Codes(s) ensures x in Codes(invs) + {inv.hsn} {
      var i :| 0 <= i < |s| && s[i].hsn == x;
      if i < |invs| { assert invs[i].hsn == x; }
    }
    forall x | x in Codes(invs) + {inv.hsn} ensures x in Codes(s) {
      if x == inv.hsn {
        assert s[|invs|].hsn == x;
      } else {
        var i :| 0 <= i < |invs| && invs[i].hsn == x;
        assert s[i].hsn == x;
      }
    }
    if inv.hsn !in Codes(invs) {
      AbsentCodeRow(invs, inv.hsn);
    }
  }

  /** Every invoice lands in exactly one of the two lists. */
  lemma {:induction false} PartitionCounts(invs: seq<ReturnInvoice>)
    ensures |Select(invs, true)| + |Select(invs, false)| == |invs|
    ensures multiset(Select(invs, true)) + multiset(Select(invs, false)) == multiset(invs)
    decreases |invs|
  {
    if invs != [] {
      var p := invs[..|invs| - 1];
      PartitionCounts(p);
      SplitStep(invs);
    }
  }

  /** The last invoice goes to exactly one of the two lists. */
  lemma SplitStep(invs: seq<ReturnInvoice>)
    requires invs != []
    ensures var p, last := invs[..|invs| - 1], invs[|invs| - 1];
      && |Select(invs, true)| + |Select(invs, false)| == |Select(p, true)| + |Select(p, false)| + 1
      && multiset(Select(invs, true)) + multiset(Select(invs, false))
         == multiset(Select(p, true)) + multiset(Select(p, false)) + multiset{last}
      && multiset(invs) == multiset(p) + multiset{last}
  {
    var p, last := invs[..|invs| - 1], invs[|invs| - 1];
    assert invs == p + [last];
    if IsB2b(last) {
      assert Select(invs, true) == Select(p, true) + [last];
      assert Select(invs, false) == Select(p, false);
    } else {
      assert Select(invs, true) == Select(p, true);
      assert Select(invs, false) == Select(p, false) + [last];
    }
  }

  /** The invoices of one code are invoices of the list, and all carry
      that code. */
  lemma {:induction false} WithHsnSublist(invs: seq<ReturnInvoice>, h: string)
    ensures forall i | 0 <= i < |WithHsn(invs, h)| :: WithHsn(invs, h)[i].hsn == h
    ensures multiset(WithHsn(invs, h)) <= multiset(invs)
    decreases |invs|
  {
    if invs != [] {
      var p := invs[..|invs| - 1];
      var last := invs[|invs| - 1];
      var tail := if last.hsn == h then [last] else [];
      WithHsnSublist(p, h);
      assert invs == p + [last];
      assert multiset(invs) == multiset(p) + multiset{last};
      assert multiset(WithHsn(invs, h)) == multiset(WithHsn(p, h)) + multiset(tail);
    }
  }

  /** A code has a row exactly when some invoice carries it. */
  lemma {:induction false} WithHsnNonEmpty(invs: seq<ReturnInvoice>, h: string)
    ensures |WithHsn(invs, h)| > 0 <==> h in Codes(invs)
    decreases |invs|
  {
    if h !in Codes(invs) {
      NoneWithHsn(invs, h);
    } else {
      var i :| 0 <= i < |invs| && invs[i].hsn == h;
      var p := invs[..|invs| - 1];
      var last := invs[|invs| - 1];
      if last.hsn != h {
        assert p[i] == invs[i];
        assert h in Codes(p);
        WithHsnNonEmpty(p, h);
      }
    }
  }
}
