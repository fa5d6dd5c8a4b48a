/** `calculateITC` of backend/utils/itcCalculator.js: how much of a
    purchase's GST may be claimed as input tax credit. */
module Itc {
  import opened JsNumber
  import opened Optional

  /** The entry's tax fields. A component that is missing reads like `NaN`:
      it is not `> 0` and `|| 0` turns it into 0. A missing `totalGST` is
      `None`. */
  datatype ItcEntry = ItcEntry(igst: Num, cgst: Num, sgst: Num, totalGst: Option<real>)

  /** The credit: what may be claimed and what may not. `ineligible` is
      `totalGST` passed through, so it is missing when that is. */
  datatype Credit = Credit(eligible: real, ineligible: Option<real>)

  /** IGST when there is any; else CGST plus SGST when either is positive;
      else nothing eligible and the whole GST ineligible. */
  function CalculateItc(e: ItcEntry): (c: Credit)
    ensures e.igst.Positive() ==> c == Credit(e.igst.val, Some(0.0))
    ensures !e.igst.Positive() && (e.cgst.Positive() || e.sgst.Positive()) ==>
      c == Credit(e.cgst.OrZero() + e.sgst.OrZero(), Some(0.0))
    ensures !e.igst.Positive() && !e.cgst.Positive() && !e.sgst.Positive() ==>
      c == Credit(0.0, e.totalGst)
    ensures c.eligible == 0.0 || c.ineligible == Some(0.0)
  {
    if e.igst.Positive() then Credit(e.igst.val, Some(0.0))
    else if e.cgst.Positive() || e.sgst.Positive() then
      Credit(e.cgst.OrZero() + e.sgst.OrZero(), Some(0.0))
    else Credit(0.0, e.totalGst)
  }

  /** A purchase whose tax is either all IGST (an inter-state supply) or all
      CGST and SGST (an intra-state one), with `totalGST` their sum. */
  predicate WellSplit(e: ItcEntry) {
    && e.igst.Fin? && e.cgst.Fin? && e.sgst.Fin?
    && e.igst.val >= 0.0 && e.cgst.val >= 0.0 && e.sgst.val >= 0.0
    && (e.igst.val == 0.0 || (e.cgst.val == 0.0 && e.sgst.val == 0.0))
    && e.totalGst == Some(e.igst.val + e.cgst.val + e.sgst.val)
  }

  /** On a well-split purchase no tax is lost: eligible and ineligible
      credit add up to the total GST. */
  lemma CreditCoversTax(e: ItcEntry)
    requires WellSplit(e)
    ensures var c := CalculateItc(e);
      c.ineligible.Some? && c.eligible + c.ineligible.value == e.totalGst.value
  {
  }

  /** On a well-split purchase the rule agrees with the GSTR-2B route,
      which claims `totalGST || 0` in full. */
  lemma AgreesWithGstr2bRule(e: ItcEntry)
    requires WellSplit(e)
    ensures CalculateItc(e).eligible == Fin(e.totalGst.value).OrZero()
  {
  }
}
