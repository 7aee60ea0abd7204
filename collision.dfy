/** Collision between two moving bodies: whether their rectangles overlap and, when they
    do, the contact normal chosen from the relative position and the first body's velocity. */
module Collision {
  import opened Geometry
  import opened MoveableEntities

  const Epsilon: real := 0.1

  function Max(i: int, j: int): int { if i < j then j else i }
  function Min(i: int, j: int): int { if i < j then i else j }

  /** RectangularCollision(Rectangle, Rectangle): symmetric, and for rectangles of positive
      size it holds exactly when they share a region of positive width and height. */
  function RectangularCollision(a: Rect, b: Rect): (r: bool)
    ensures r == Intersects(b, a)
    ensures r ==> a.width + b.width > 0 && a.height + b.height > 0
    ensures a.width > 0 && a.height > 0 && b.width > 0 && b.height > 0 ==>
      (r <==> Max(a.Left(), b.Left()) < Min(a.Right(), b.Right()) &&
              Max(a.Top(), b.Top()) < Min(a.Bottom(), b.Bottom()))
  {
    IntersectsSymmetric(a, b);
    Intersects(a, b)
  }

  /** RectangleCollision(MoveableEntity, MoveableEntity): the rectangles of the two bodies
      overlap. */
  function RectangleCollision(a: MoveableEntity, b: MoveableEntity): (r: bool)
    reads a`rectangle, b`rectangle
    ensures r == RectangularCollision(b.rectangle, a.rectangle)
  {
    RectangularCollision(a.rectangle, b.rectangle)
  }

  lemma RectangleCollisionSymmetric(a: MoveableEntity, b: MoveableEntity)
    ensures RectangleCollision(a, b) == RectangleCollision(b, a)
  {
    IntersectsSymmetric(a.rectangle, b.rectangle);
  }

  // The four side tests, on delta = a.position - b.position, a's velocity and b's size.

  predicate RightContact(delta: Vec2, va: Vec2, w: int, h: int) {
    delta.x > 0.0 && Abs(delta.y) < h as real / 2.0 && va.x < 0.0
  }

  predicate LeftContact(delta: Vec2, va: Vec2, w: int, h: int) {
    delta.x < 0.0 && Abs(delta.y) < h as real / 2.0 && va.x > 0.0
  }

  predicate TopContact(delta: Vec2, va: Vec2, w: int, h: int) {
    delta.y < 0.0 && Abs(delta.x) < w as real / 2.0 && va.y > 0.0
  }

  predicate BottomContact(delta: Vec2, va: Vec2, w: int, h: int) {
    delta.y > 0.0 && Abs(delta.x) < w as real / 2.0 && va.y < 0.0
  }

  /** delta lies within Epsilon, on both axes, of one of the corner offsets (+-w/2, +-h/2). */
  predicate NearCorner(delta: Vec2, w: int, h: int) {
    var hw := w as real / 2.0;
    var hh := h as real / 2.0;
    (Abs(delta.x - -hw) < Epsilon && Abs(delta.y - hh) < Epsilon) ||
    (Abs(delta.x - hw) < Epsilon && Abs(delta.y - hh) < Epsilon) ||
    (Abs(delta.x - -hw) < Epsilon && Abs(delta.y - -hh) < Epsilon) ||
    (Abs(delta.x - hw) < Epsilon && Abs(delta.y - -hh) < Epsilon)
  }

  /** The contact normal as a precedence order: a corner beats every side, and among the
      sides Bottom beats Top beats Left beats Right; with no test passing it is zero. */
  function ContactNormal(delta: Vec2, va: Vec2, w: int, h: int): (n: Normal)
    ensures !NearCorner(delta, w, h) ==>
      (n == NoNormal <==> !RightContact(delta, va, w, h) && !LeftContact(delta, va, w, h) &&
                          !TopContact(delta, va, w, h) && !BottomContact(delta, va, w, h))
    ensures n.dir.x != 0.0 && n.dir.y != 0.0 ==> NearCorner(delta, w, h)
  {
    if NearCorner(delta, w, h) then Normal(delta)
    else if BottomContact(delta, va, w, h) then Normal(Vec2(0.0, 1.0))
    else if TopContact(delta, va, w, h) then Normal(Vec2(0.0, -1.0))
    else if LeftContact(delta, va, w, h) then Normal(Vec2(-1.0, 0.0))
    else if RightContact(delta, va, w, h) then Normal(Vec2(1.0, 0.0))
    else NoNormal
  }

  /** RectangularCollision(MoveableEntity, MoveableEntity, out Vector2 normal): the tests
      run in the order Right, Left, Top, Bottom, each overwriting the normal, and the
      corner test last. */
  method RectangularCollisionWithNormal(a: MoveableEntity, b: MoveableEntity) returns (hit: bool, normal: Normal)
    ensures hit == RectangularCollision(a.rectangle, b.rectangle)
    ensures !hit ==> normal == NoNormal
    ensures hit ==> normal == ContactNormal(Sub(a.position, b.position), a.velocity, b.rectangle.width, b.rectangle.height)
  {
    normal := NoNormal;
    if !RectangularCollision(a.rectangle, b.rectangle) {
      return false, normal;
    }

    var delta := Sub(a.position, b.position);
    var absDeltaX := Abs(delta.x);
    var absDeltaY := Abs(delta.y);
    var halfWidth := b.rectangle.width as real / 2.0;
    var halfHeight := b.rectangle.height as real / 2.0;

    if delta.x > 0.0 && absDeltaY < halfHeight && a.velocity.x < 0.0 {
      normal := Normal(Vec2(1.0, 0.0));
    }
    if delta.x < 0.0 && absDeltaY < halfHeight && a.velocity.x > 0.0 {
      normal := Normal(Vec2(-1.0, 0.0));
    }
    if delta.y < 0.0 && absDeltaX < halfWidth && a.velocity.y > 0.0 {
      normal := Normal(Vec2(0.0, -1.0));
    }
    if delta.y > 0.0 && absDeltaX < halfWidth && a.velocity.y < 0.0 {
      normal := Normal(Vec2(0.0, 1.0));
    }

    var epsilon := 0.1;
    if (Abs(delta.x - -halfWidth) < epsilon && Abs(delta.y - halfHeight) < epsilon) ||
       (Abs(delta.x - halfWidth) < epsilon && Abs(delta.y - halfHeight) < epsilon) ||
       (Abs(delta.x - -halfWidth) < epsilon && Abs(delta.y - -halfHeight) < epsilon) ||
       (Abs(delta.x - halfWidth) < epsilon && Abs(delta.y - -halfHeight) < epsilon)
    {
      normal := Normal(delta);
    }

    return true, normal;
  }

  /** Right and Left exclude each other by the sign of delta.X, Top and Bottom by the sign
      of delta.Y. */
  lemma OppositeSidesExclusive(delta: Vec2, va: Vec2, w: int, h: int)
    ensures !(RightContact(delta, va, w, h) && LeftContact(delta, va, w, h))
    ensures !(TopContact(delta, va, w, h) && BottomContact(delta, va, w, h))
  {
  }

  /** A vertical contact overrides any horizontal one, and a corner overrides everything. */
  lemma VerticalOverridesHorizontal(delta: Vec2, va: Vec2, w: int, h: int)
    ensures NearCorner(delta, w, h) ==> ContactNormal(delta, va, w, h) == Normal(delta)
    ensures !NearCorner(delta, w, h) && TopContact(delta, va, w, h) ==>
      ContactNormal(delta, va, w, h) == Normal(Vec2(0.0, -1.0))
    ensures !NearCorner(delta, w, h) && BottomContact(delta, va, w, h) ==>
      ContactNormal(delta, va, w, h) == Normal(Vec2(0.0, 1.0))
  {
  }

  /** The normal is zero, a side normal pointing along the relative position on its axis,
      or the direction of delta itself. */
  lemma ContactNormalShape(delta: Vec2, va: Vec2, w: int, h: int)
    ensures var n := ContactNormal(delta, va, w, h);
      n == NoNormal || n.dir == delta ||
      (n.IsAxisUnit() && (n.dir.x == 0.0 || n.dir.x * delta.x > 0.0) && (n.dir.y == 0.0 || n.dir.y * delta.y > 0.0))
  {
  }

  /** Two overlapping bodies collide even when no test fires and the normal stays zero:
      two 10x10 rectangles at the same place, at rest. */
  lemma OverlapWithoutNormal()
    ensures var r := Rect(0, 0, 10, 10);
      RectangularCollision(r, r) && ContactNormal(Zero, Zero, 10, 10) == NoNormal
  {
  }

  /** A body right of another, within its half height and moving left, gets the normal
      (1,0) when no other test fires: delta = (40, 0), velocity (-5, 0), b 100x100. */
  lemma SideContactScenario()
    ensures ContactNormal(Vec2(40.0, 0.0), Vec2(-5.0, 0.0), 100, 100) == Normal(Vec2(1.0, 0.0))
  {
  }
}
