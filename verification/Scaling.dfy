/** Dividing an amount in proportion to durations. */
module Scaling {

  lemma {:induction false} ScaleAdds(t: real, a: real, b: real, s: real)
    requires s > 0.0
    ensures t * a / s + t * b / s == t * (a + b) / s
    ensures t * 0.0 / s == 0.0 && t * s / s == t
  {
  }
}
