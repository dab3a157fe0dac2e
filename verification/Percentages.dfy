/** Percentages as exact quotients; rounding and floating point are not modelled. */
module Percentages {

  function Percentage(part: int, whole: int): real
    requires whole != 0
  {
    part as real * 100.0 / whole as real
  }

  lemma PercentageAdd(a: int, b: int, whole: int)
    requires whole != 0
    ensures Percentage(a, whole) + Percentage(b, whole) == Percentage(a + b, whole)
  {
    var x, y, w := a as real * 100.0, b as real * 100.0, whole as real;
    Divided(x, y, w);
    assert x + y == (a + b) as real * 100.0;
  }

  lemma Divided(x: real, y: real, w: real)
    requires w != 0.0
    ensures x / w + y / w == (x + y) / w
  {
  }

  lemma PercentageEnds(whole: int)
    requires whole != 0
    ensures Percentage(0, whole) == 0.0 && Percentage(whole, whole) == 100.0
  {
    Quotient(whole as real, 100.0);
    Quotient(whole as real, 0.0);
  }

  lemma Quotient(w: real, q: real)
    requires w != 0.0
    ensures w * q / w == q
  {
  }
}
