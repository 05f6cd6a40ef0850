/** JavaScript numbers as far as they are compared (NaN compares false with everything), and powers of two. */
module Numbers {

  datatype Number = NaN | NegInf | Fin(value: real) | PosInf

  predicate Lt(a: Number, b: Number) {
    !a.NaN? && !b.NaN?
    && match a
       case Fin(x) => b.PosInf? || (b.Fin? && x < b.value)
       case NegInf => !b.NegInf?
       case _ => false
  }

  predicate Le(a: Number, b: Number) {
    Lt(a, b) || (a == b && !a.NaN?)
  }

  /** a * k for a positive k. */
  function Times(a: Number, k: int): Number {
    if a.Fin? then Fin(a.value * (k as real)) else a
  }

  function Pow2(n: nat): (p: nat)
    ensures p >= 1
  {
    if n == 0 then 1 else 2 * Pow2(n - 1)
  }

  function One(b: bool): nat { if b then 1 else 0 }
}
