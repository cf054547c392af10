/** Python floats as the optimiser uses them for scores and coordinates.
    NaN is not a value of `Ext`; it only arises as the difference of two
    equal infinities, and `AbsDiff` returns `None` for it. */
module Floats {
  import opened Wrappers

  /** A float that is not NaN: a finite value or one of the two infinities
      (`float('-inf')`, `float('inf')`). */
  datatype Ext = NegInf | Fin(r: real) | PosInf

  /** `a <= b` on floats. */
  predicate Le(a: Ext, b: Ext)
  {
    match a
    case NegInf => true
    case Fin(x) => b.PosInf? || (b.Fin? && x <= b.r)
    case PosInf => b.PosInf?
  }

  /** `a < b` on floats. */
  predicate Lt(a: Ext, b: Ext)
  {
    !Le(b, a)
  }

  lemma LeTotal(a: Ext, b: Ext)
    ensures Le(a, b) || Le(b, a)
  {
  }

  lemma LeTransitive(a: Ext, b: Ext, c: Ext)
    requires Le(a, b) && Le(b, c)
    ensures Le(a, c)
  {
  }

  lemma LeAntisymmetric(a: Ext, b: Ext)
    requires Le(a, b) && Le(b, a)
    ensures a == b
  {
  }

  /** `abs(a - b)` under IEEE-754 arithmetic; `None` is the NaN that
      `inf - inf` and `-inf - -inf` produce. For two finite values the
      result is the one of `a - b` and `b - a` that is not negative; with
      one infinite value it is `inf`. */
  function AbsDiff(a: Ext, b: Ext): (d: Option<Ext>)
    ensures d.None? <==> (a == b && !a.Fin?)
    ensures d.Some? && d.value.Fin? <==> a.Fin? && b.Fin?
    ensures d.Some? ==> Le(Fin(0.0), d.value)
    ensures a.Fin? && b.Fin? ==> d.Some? && (d.value.r == a.r - b.r || d.value.r == b.r - a.r)
  {
    match (a, b)
    case (Fin(x), Fin(y)) => Some(Fin(if x >= y then x - y else y - x))
    case (NegInf, NegInf) => None
    case (PosInf, PosInf) => None
    case _ => Some(PosInf)
  }

  /** `c + x` for a float `c` and a finite `x`: an infinity absorbs any
      finite addend. */
  function AddReal(c: Ext, x: real): (r: Ext)
    ensures r.Fin? <==> c.Fin?
    ensures r.Fin? ==> r.r - c.r == x
  {
    match c
    case Fin(v) => Fin(v + x)
    case _ => c
  }
}
