/**
 * Small shared vocabulary: an Option type, integer min/max/clamp as the
 * game's `Math.min`/`Math.max` are used, and 2-D integer points.
 */
module Basics {

  /** Present or absent value (`undefined`/`null` on the JavaScript side). */
  datatype Option<+T> = None | Some(value: T)

  function Min(a: int, b: int): (r: int)
    ensures r <= a && r <= b
    ensures r == a || r == b
  {
    if a <= b then a else b
  }

  function Max(a: int, b: int): (r: int)
    ensures r >= a && r >= b
    ensures r == a || r == b
  {
    if a >= b then a else b
  }

  /** `Math.max(lo, Math.min(hi, v))`: saturate `v` into `[lo, hi]`. */
  function Clamp(v: int, lo: int, hi: int): (r: int)
    requires lo <= hi
    ensures lo <= r <= hi
    ensures lo <= v <= hi ==> r == v
    ensures v < lo ==> r == lo
    ensures v > hi ==> r == hi
  {
    Max(lo, Min(hi, v))
  }

  /** A position or velocity `{x, y}`. */
  datatype Point = Point(x: int, y: int)

  /** Width and height of the game world. */
  const WorldWidth: int := 800
  const WorldHeight: int := 600

  predicate InWorld(p: Point) {
    0 <= p.x <= WorldWidth && 0 <= p.y <= WorldHeight
  }

  /** Clamp both coordinates of `p` into the world rectangle. */
  function ClampToWorld(p: Point): (r: Point)
    ensures InWorld(r)
    ensures InWorld(p) ==> r == p
    ensures p.x < 0 ==> r.x == 0
    ensures p.x > WorldWidth ==> r.x == WorldWidth
    ensures p.y < 0 ==> r.y == 0
    ensures p.y > WorldHeight ==> r.y == WorldHeight
    ensures 0 <= p.x <= WorldWidth ==> r.x == p.x
    ensures 0 <= p.y <= WorldHeight ==> r.y == p.y
  {
    Point(Clamp(p.x, 0, WorldWidth), Clamp(p.y, 0, WorldHeight))
  }
}
