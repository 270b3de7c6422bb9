/** Small helpers: integer minimum and path comparison. */
module Utils {
  import opened Tailer

  /** `imin(a, b)`: the smaller of two ints. */
  function IMin(a: int, b: int): (m: int)
    ensures m <= a && m <= b
    ensures m == a || m == b
  {
    if a < b then a else b
  }

  /** When `a < b` the first argument is chosen, otherwise the second. */
  lemma IMinChoice(a: int, b: int)
    ensures a < b ==> IMin(a, b) == a
    ensures b <= a ==> IMin(a, b) == b
    ensures IMin(a, b) == IMin(b, a)
  {
  }

  /** `pathEqual(lhs, rhs)`. filepath.Abs is a foreign call that may fail:
      `abs(p)` is its result, `None` where it returns an error. */
  function PathEqual(abs: string -> Option<string>, lhs: string, rhs: string): (r: bool)
    ensures r <==> abs(lhs).Some? && abs(rhs).Some? && abs(lhs).value == abs(rhs).value
  {
    match abs(lhs)
    case None => false
    case Some(l) =>
      match abs(rhs)
      case None => false
      case Some(r) => l == r
  }

  /** A failing Abs on either side makes the paths unequal. */
  lemma PathEqualNeedsAbs(abs: string -> Option<string>, lhs: string, rhs: string)
    ensures abs(lhs).None? ==> !PathEqual(abs, lhs, rhs)
    ensures abs(rhs).None? ==> !PathEqual(abs, lhs, rhs)
  {
  }

  /** pathEqual is symmetric, reflexive exactly where Abs succeeds, and
      transitive: an equivalence on the paths Abs can resolve. */
  lemma PathEqualEquivalence(abs: string -> Option<string>, p: string, q: string, s: string)
    ensures PathEqual(abs, p, q) == PathEqual(abs, q, p)
    ensures PathEqual(abs, p, p) <==> abs(p).Some?
    ensures PathEqual(abs, p, q) && PathEqual(abs, q, s) ==> PathEqual(abs, p, s)
  {
  }
}
