/** Plain-value stand-ins for the MonoGame types the framework computes with:
    Vector2 (two floats, modelled as reals) and Rectangle (four ints, +y pointing down). */
module Geometry {

  datatype Vec2 = Vec2(x: real, y: real)

  const Zero := Vec2(0.0, 0.0)

  function Add(a: Vec2, b: Vec2): Vec2 { Vec2(a.x + b.x, a.y + b.y) }

  function Sub(a: Vec2, b: Vec2): Vec2 { Vec2(a.x - b.x, a.y - b.y) }

  function Neg(a: Vec2): Vec2 { Vec2(-a.x, -a.y) }

  /** Vector2.Multiply(v, k) */
  function Scale(v: Vec2, k: real): Vec2 { Vec2(v.x * k, v.y * k) }

  function Dot(a: Vec2, b: Vec2): real { a.x * b.x + a.y * b.y }

  function Abs(r: real): real { if r < 0.0 then -r else r }

  /** The C# cast `(int) f`, which truncates toward zero (not Dafny's floor). */
  function Trunc(r: real): (i: int)
    ensures 0.0 <= r ==> i as real <= r < i as real + 1.0
    ensures r < 0.0 ==> i as real - 1.0 < r <= i as real
    ensures Abs(i as real) <= Abs(r)
  {
    if r >= 0.0 then r.Floor else -((-r).Floor)
  }

  lemma TruncOfInteger(n: int)
    ensures Trunc(n as real) == n
  {
  }

  /** Microsoft.Xna.Framework.Rectangle: integer top-left corner and extents. */
  datatype Rect = Rect(x: int, y: int, width: int, height: int) {
    function Left(): int { x }
    function Right(): int { x + width }
    function Top(): int { y }
    function Bottom(): int { y + height }
  }

  /** Rectangle.Intersects is MonoGame library code that is not part of this model.
      It is restated here, as an assumption, as strict overlap on both axes: rectangles
      that only touch along an edge do not intersect. */
  predicate Intersects(a: Rect, b: Rect) {
    a.Left() < b.Right() && b.Left() < a.Right() && a.Top() < b.Bottom() && b.Top() < a.Bottom()
  }

  lemma IntersectsSymmetric(a: Rect, b: Rect)
    ensures Intersects(a, b) == Intersects(b, a)
  {
  }

  /** Rectangles separated along either axis never intersect. */
  lemma SeparatedDoNotIntersect(a: Rect, b: Rect)
    requires a.Right() <= b.Left() || b.Right() <= a.Left() || a.Bottom() <= b.Top() || b.Bottom() <= a.Top()
    ensures !Intersects(a, b)
  {
  }

  /** A normal as the framework produces it: the vector `dir` scaled to unit length by
      Vector2.Normalize, or the zero vector when `dir` is zero. Square roots are not
      modelled, so a normal is kept as the direction it normalises; side normals are
      already of unit length and stand for themselves. */
  datatype Normal = Normal(dir: Vec2) {
    predicate IsZero() { dir == Zero }

    /** An axis unit vector: the normal equals its own direction. */
    predicate IsAxisUnit() {
      (Abs(dir.x) == 1.0 && dir.y == 0.0) || (dir.x == 0.0 && Abs(dir.y) == 1.0)
    }

    /** A diagonal direction with both components of magnitude one. */
    predicate IsDiagonalSign() {
      Abs(dir.x) == 1.0 && Abs(dir.y) == 1.0
    }
  }

  const NoNormal := Normal(Zero)
}
