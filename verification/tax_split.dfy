/** The tax arithmetic both invoice routes share: the GST inside a
    GST-inclusive total, rounded with `toFixed(2)`, and its split into equal
    CGST and SGST halves (backend/routes/parse.js:433-443 and 597-613,
    backend/routes/voiceInvoice.js:64-73 and 154-163). */
module TaxSplit {
  import opened JsNumber

  /** `total * rate / (100 + rate)`: the tax part of a total that already
      includes tax at `rate` percent. */
  function TaxIncluded(total: real, rate: real): real
    requires rate >= 0.0
  {
    total * rate / (100.0 + rate)
  }

  /** The back-calculation is right: the tax part is exactly `rate`
      percent of what remains of the total once it is taken out. */
  lemma TaxIncludedIsRateOfRemainder(total: real, rate: real)
    requires rate >= 0.0
    ensures (total - TaxIncluded(total, rate)) * rate / 100.0 == TaxIncluded(total, rate)
  {
    var d := 100.0 + rate;
    var x := TaxIncluded(total, rate);
    assert x * d == total * rate;
    assert (total - x) * d == total * d - total * rate;
    assert (total - x) * d == total * 100.0;
    assert total - x == total * 100.0 / d;
  }

  /** A non-negative total at a non-negative rate includes between 0 and
      all of itself as tax. */
  lemma TaxIncludedBounds(total: real, rate: real)
    requires total >= 0.0 && rate >= 0.0
    ensures 0.0 <= TaxIncluded(total, rate) <= total
  {
    var d := 100.0 + rate;
    assert rate / d <= 1.0;
    assert TaxIncluded(total, rate) == total * (rate / d);
  }

  /** The rounded tax and its two rounded halves. */
  datatype Split = Split(gst: real, cgst: real, sgst: real)

  /** `gst = +x.toFixed(2)`, `cgst = sgst = +(gst / 2).toFixed(2)`. The
      halves never miss the rounded tax by more than a paisa; for a
      non-negative tax they never fall short of it. */
  function HalveTax(x: real): (s: Split)
    ensures s.cgst == s.sgst
    ensures x - 0.005 <= s.gst <= x + 0.005
    ensures -0.01 <= s.cgst + s.sgst - s.gst <= 0.01
    ensures x >= 0.0 ==> s.gst >= 0.0 && x - 0.005 < s.gst && 0.0 <= s.cgst + s.sgst - s.gst
  {
    var g := Round2(x);
    HalvesOfAny(x);
    Split(g, Round2(g / 2.0), Round2(g / 2.0))
  }

  /** Rounding commutes with negation. */
  lemma Round2Negate(x: real)
    requires x >= 0.0
    ensures Round2(-x) == -Round2(x)
  {
  }

  lemma HalvesOfAny(x: real)
    ensures x - 0.005 <= Round2(x) <= x + 0.005
    ensures var g := Round2(x); var h := Round2(g / 2.0);
      -0.01 <= h + h - g <= 0.01 && (x >= 0.0 ==> g >= 0.0 && x - 0.005 < g && 0.0 <= h + h - g)
  {
    if x >= 0.0 {
      Round2Bounds(x);
      HalvesOfRounded(x);
    } else {
      var y := -x;
      Round2Bounds(y);
      HalvesOfRounded(y);
      Round2Negate(y);
      var a := Round2(y);
      assert Round2(x) == -a;
      Round2Bounds(a / 2.0);
      Round2Negate(a / 2.0);
      assert (-a) / 2.0 == -(a / 2.0);
      assert Round2((-a) / 2.0) == -Round2(a / 2.0);
    }
  }
}
