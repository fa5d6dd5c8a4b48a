/** `GET /api/gstr2b` of backend/routes/gstr2b.js: the purchase register
    (GSTR-2A entries) turned into GSTR-2B rows with the credit each may
    claim, and the rounded totals. The database query, which also sorts the
    entries by date, is an input: the entries arrive as a list. */
module Gstr2b {
  import opened JsNumber
  import opened Optional
  import opened Sums
  import Reconcile
  import InvoiceDate

  /** A stored GSTR-2A entry as the route reads it; a missing field is
      `None`. */
  datatype StoredEntry = StoredEntry(
    supplierGstin: Option<string>,
    invoiceNumber: Option<string>,
    totalGst: Option<real>)

  /** One GSTR-2B row. */
  datatype Row = Row(
    supplierGstin: Option<string>,
    invoiceNumber: Option<string>,
    totalGst: Option<real>,
    eligibleItc: real,
    ineligibleItc: real)

  datatype Summary = Summary(totalEligibleItc: real, totalIneligibleItc: real)

  datatype Gstr2bReport = Gstr2bReport(summary: Summary, invoices: seq<Row>)

  /** `e.totalGST || 0`: the whole GST is claimed. */
  function Eligible(e: StoredEntry): (r: real)
    ensures e.totalGst.Some? ==> r == e.totalGst.value
    ensures e.totalGst.None? ==> r == 0.0
  {
    match e.totalGst
    case Some(g) => if g != 0.0 then g else 0.0
    case None => 0.0
  }

  /** The row of an entry, with nothing ineligible. */
  function RowOf(e: StoredEntry): (r: Row)
    ensures r.supplierGstin == e.supplierGstin && r.invoiceNumber == e.invoiceNumber
    ensures r.totalGst == e.totalGst
    ensures r.eligibleItc == e.totalGst.GetOr(0.0) && r.ineligibleItc == 0.0
  {
    Row(e.supplierGstin, e.invoiceNumber, e.totalGst, Eligible(e), 0.0)
  }

  /** The credits claimed, entry by entry. */
  function Claimed(rows: seq<Row>): (r: seq<real>)
    ensures |r| == |rows|
    ensures forall i | 0 <= i < |rows| :: r[i] == rows[i].eligibleItc
    decreases |rows|
  {
    if rows == [] then []
    else Claimed(rows[..|rows| - 1]) + [rows[|rows| - 1].eligibleItc]
  }

  /** The route's loop: one row per entry, in order, and the running total
      of eligible credit, which is rounded only once at the end. */
  method Generate(entries: seq<StoredEntry>) returns (r: Gstr2bReport)
    ensures |r.invoices| == |entries|
    ensures forall i | 0 <= i < |entries| :: r.invoices[i] == RowOf(entries[i])
    ensures r.summary.totalEligibleItc == Round2(SumReals(Claimed(r.invoices)))
    ensures r.summary.totalIneligibleItc == 0.0
  {
    var rows: seq<Row> := [];
    var total := 0.0;
    var i := 0;
    while i < |entries|
      invariant 0 <= i <= |entries|
      invariant |rows| == i
      invariant forall j | 0 <= j < i :: rows[j] == RowOf(entries[j])
      invariant total == SumReals(Claimed(rows))
    {
      var row := RowOf(entries[i]);
      ClaimedStep(rows, row);
      total := total + row.eligibleItc;
      rows := rows + [row];
      i := i + 1;
    }
    assert Round2(0.0) == 0.0;
    r := Gstr2bReport(Summary(Round2(total), Round2(0.0)), rows);
  }

  /** Adding a row adds its eligible credit to the claimed sum. */
  lemma ClaimedStep(rows: seq<Row>, row: Row)
    ensures SumReals(Claimed(rows + [row])) == SumReals(Claimed(rows)) + row.eligibleItc
  {
    var next := rows + [row];
    assert next[..|next| - 1] == rows;
    var c := Claimed(next);
    assert c[..|c| - 1] == Claimed(rows);
  }

  /** The rounded total is within half a paisa of the exact sum, and is
      never negative when no entry's GST is. */
  lemma RoundedTotalBounds(entries: seq<StoredEntry>, rows: seq<Row>)
    requires |rows| == |entries|
    requires forall i | 0 <= i < |entries| :: rows[i] == RowOf(entries[i])
    requires forall i | 0 <= i < |entries| :: entries[i].totalGst.GetOr(0.0) >= 0.0
    ensures var s := SumReals(Claimed(rows));
      && s >= 0.0
      && Round2(s) >= 0.0
      && s - 0.005 < Round2(s) <= s + 0.005
  {
    var c := Claimed(rows);
    SumRealsNonNegative(c);
    Round2Bounds(SumReals(c));
  }

  /** What the upload route saved for a purchase: a GSTR-2A entry. */
  function Stored(e: Reconcile.Gstr2aEntry): StoredEntry {
    StoredEntry(e.supplierGstin, Some(e.invoiceNumber), Some(e.totalGst))
  }

  /** A purchase uploaded through the invoice route shows up in GSTR-2B
      with its adjusted GST claimed in full and its supplier kept. */
  lemma PurchaseClaimsAdjustedTax(rec: Reconcile.InvoiceRecord, savedId: string, today: InvoiceDate.Date)
    requires rec.transactionType == Reconcile.Purchase
    ensures var e := Reconcile.Gstr2aOf(rec, savedId, today);
      && e.Some?
      && RowOf(Stored(e.value)).eligibleItc == rec.totalGstAdjusted
      && RowOf(Stored(e.value)).supplierGstin == rec.parties.supplier
  {
  }
}
