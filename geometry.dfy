/** `Rect` and the closeness test layout uses. Coordinates are exact reals: NaN and infinities are not modelled. */
module Geometry {

  datatype Rect = Rect(x: real, y: real, w: real, h: real)

  const ZERO: Rect := Rect(0.0, 0.0, 0.0, 0.0)

  /** `Maths.areClose(a, b)`. */
  predicate AreClose(a: real, b: real) {
    -0.00001 < a - b < 0.00001
  }

  /** `a.isCloseTo(b)`: every component within the epsilon. */
  predicate IsCloseTo(a: Rect, b: Rect) {
    AreClose(a.x, b.x) && AreClose(a.y, b.y) && AreClose(a.w, b.w) && AreClose(a.h, b.h)
  }

  /** `Rect.max(a, b)`: the smaller origin and the larger size. */
  function Max(a: Rect, b: Rect): (r: Rect)
    ensures r.x <= a.x && r.x <= b.x && (r.x == a.x || r.x == b.x)
    ensures r.y <= a.y && r.y <= b.y && (r.y == a.y || r.y == b.y)
    ensures r.w >= a.w && r.w >= b.w && (r.w == a.w || r.w == b.w)
    ensures r.h >= a.h && r.h >= b.h && (r.h == a.h || r.h == b.h)
  {
    Rect(if a.x <= b.x then a.x else b.x, if a.y <= b.y then a.y else b.y,
         if a.w >= b.w then a.w else b.w, if a.h >= b.h then a.h else b.h)
  }

  /** Closeness is reflexive and symmetric (it is not transitive). */
  lemma ClosenessLaws(a: Rect, b: Rect)
    ensures IsCloseTo(a, a)
    ensures IsCloseTo(a, b) <==> IsCloseTo(b, a)
  {
  }

  /** Closeness does not chain: two steps of just under the epsilon are not close. */
  lemma ClosenessNotTransitive()
    ensures IsCloseTo(ZERO, Rect(0.000006, 0.0, 0.0, 0.0))
    ensures IsCloseTo(Rect(0.000006, 0.0, 0.0, 0.0), Rect(0.000012, 0.0, 0.0, 0.0))
    ensures !IsCloseTo(ZERO, Rect(0.000012, 0.0, 0.0, 0.0))
  {
  }
}
