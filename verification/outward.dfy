/** `generateGSTR3B` of backend/utils/gstr3b.js: the outward supplies of a
    period, summed. */
module Outward {
  import opened JsNumber
  import opened Sums
  import opened Gstr1
  import SeqUtil

  datatype Supplies = Supplies(taxable: Num, cgst: Num, sgst: Num)

  datatype Summary = Summary(gstin: string, period: string, outward: Supplies)

  /** The loop of `generateGSTR3B`: three running totals from zero. */
  method GenerateGstr3b(invs: seq<ReturnInvoice>, gstin: string, period: string) returns (r: Summary)
    ensures r.gstin == gstin && r.period == period
    ensures r.outward == Supplies(Total(invs, Taxable), Total(invs, Cgst), Total(invs, Sgst))
    ensures invs == [] ==> r.outward == Supplies(Fin(0.0), Fin(0.0), Fin(0.0))
  {
    var taxable, cgst, sgst := Fin(0.0), Fin(0.0), Fin(0.0);
    var i := 0;
    while i < |invs|
      invariant 0 <= i <= |invs|
      invariant taxable == Total(invs[..i], Taxable)
      invariant cgst == Total(invs[..i], Cgst)
      invariant sgst == Total(invs[..i], Sgst)
    {
      assert invs[..i + 1] == invs[..i] + [invs[i]];
      ValuesAppend(invs[..i], invs[i], Taxable);
      ValuesAppend(invs[..i], invs[i], Cgst);
      ValuesAppend(invs[..i], invs[i], Sgst);
      taxable := Add(taxable, invs[i].taxableValue);
      cgst := Add(cgst, invs[i].cgst);
      sgst := Add(sgst, invs[i].sgst);
      i := i + 1;
    }
    assert invs[..i] == invs;
    r := Summary(gstin, period, Supplies(taxable, cgst, sgst));
  }

  /** The totals of two batches of invoices, one after the other, are the
      sums of each batch's totals: a period's summary can be built from its
      parts. */
  lemma TotalAppend(a: seq<ReturnInvoice>, b: seq<ReturnInvoice>, c: Column)
    ensures Total(a + b, c) == Add(Total(a, c), Total(b, c))
  {
    assert SeqUtil.Cells(a + b, c, Cell) == SeqUtil.Cells(a, c, Cell) + SeqUtil.Cells(b, c, Cell);
    SumNumsAppend(SeqUtil.Cells(a, c, Cell), SeqUtil.Cells(b, c, Cell));
  }

  /** The GSTR-1 rows together carry what GSTR-3B sums: for a period whose
      invoices all have one code, that code's row equals the outward
      totals. */
  lemma SingleCodeRowIsOutward(invs: seq<ReturnInvoice>, h: string)
    requires forall i | 0 <= i < |invs| :: invs[i].hsn == h
    ensures RowFor(invs, h) == HsnRow(h, Total(invs, Taxable), Total(invs, Cgst), Total(invs, Sgst))
  {
    WithHsnAll(invs, h);
  }

  lemma {:induction false} WithHsnAll(invs: seq<ReturnInvoice>, h: string)
    requires forall i | 0 <= i < |invs| :: invs[i].hsn == h
    ensures WithHsn(invs, h) == invs
    decreases |invs|
  {
    if invs != [] {
      var p := invs[..|invs| - 1];
      WithHsnAll(p, h);
      assert invs == p + [invs[|invs| - 1]];
    }
  }
}
