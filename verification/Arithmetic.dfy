/** Division and multiplication facts shared by the scheduler models. */
module Arithmetic {

  lemma MulMonotone(t: nat, a: int, b: int)
    requires a <= b
    ensures t * a <= t * b
  {
    assert t * (b - a) >= 0;
  }

  /** The division equation, with the quotient and remainder it determines. */
  lemma DivMod(v: nat, s: nat)
    requires s > 0
    ensures v == s * (v / s) + v % s && 0 <= v % s < s
  {
  }

  lemma DivUnique(v: nat, s: nat, q: nat, r: nat)
    requires v == s * q + r && r < s
    ensures v / s == q && v % s == r
  {
    var q', r' := v / s, v % s;
    assert s * q' + r' == v && 0 <= r' < s;
    assert s * (q - q') == s * q - s * q';
    assert q - q' >= 1 ==> s * (q - q' - 1) >= 0;
    assert q - q' <= -1 ==> s * (q' - q - 1) >= 0;
  }

  lemma MulStep(k: int, s: int)
    ensures (k + 1) * s == k * s + s
  {
  }

  /** What is left when the remainder is taken off is a multiple. */
  lemma ModTaken(v: nat, s: nat)
    requires s > 0
    ensures v % s <= v && (v - v % s) % s == 0
  {
    var q, m := v / s, v % s;
    assert v == s * q + m by { DivMod(v, s); }
    DivUnique(v - m, s, q, 0);
  }
}
