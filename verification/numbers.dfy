/** Arithmetic helpers shared by the modules: `Math.min` on natural numbers. */
module Numbers {

  /** `Math.min(a, b)`: the smaller of the two, and one of them. */
  function Min(a: nat, b: nat): (m: nat)
    ensures m <= a && m <= b
    ensures m == a || m == b
  {
    if a <= b then a else b
  }
}
