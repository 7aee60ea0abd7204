/** MoveableEntity, together with the PhysicalEntity state it builds on: a body with a
    position, a centre (origin) and a bounding rectangle derived from its texture, that
    moves by a semi-implicit Euler step, is kept inside an optional bounding region, and
    reports each correction to a boundary-hit hook. */
module MoveableEntities {
  import opened Geometry
  import opened Wrappers
  import P = CollisionPoints

  /** The dimensions of a loaded Texture2D (the only part of a texture the core reads). */
  datatype TextureSize = TextureSize(width: nat, height: nat)

  /** One call of the HitBounds hook: its three arguments and the position the body had
      when the hook ran. */
  datatype BoundsHit = BoundsHit(change: Vec2, normal: Normal, point: P.Point, positionAtCall: Vec2)

  /** A subset of Char.IsWhiteSpace: the ASCII and Latin-1 white-space characters. */
  predicate IsWhiteSpace(c: char) {
    c in {' ', '\t', '\n', '\r', '\U{B}', '\U{C}', '\U{85}', '\U{A0}'}
  }

  /** String.IsNullOrWhiteSpace; a null name is represented by the empty string. */
  predicate IsBlank(name: string) {
    forall i | 0 <= i < |name| :: IsWhiteSpace(name[i])
  }

  /** Half the texture size: the origin LoadContent gives a textured body. */
  function HalfSize(t: TextureSize): Vec2 {
    Vec2(t.width as real / 2.0, t.height as real / 2.0)
  }

  /** The rectangle UpdateRectangle derives: top-left at position - origin, truncated
      toward zero, and the texture's size (zero without a texture). */
  function RectangleFor(position: Vec2, origin: Vec2, texture: Option<TextureSize>): (r: Rect)
    ensures r.width >= 0 && r.height >= 0
    ensures texture.None? ==> r.width == 0 && r.height == 0
  {
    var topLeft := Sub(position, origin);
    Rect(Trunc(topLeft.x), Trunc(topLeft.y),
         if texture.Some? then texture.value.width else 0,
         if texture.Some? then texture.value.height else 0)
  }

  /** `r` lies inside `b` on all four sides. */
  predicate Within(r: Rect, b: Rect) {
    b.Left() <= r.Left() && r.Right() <= b.Right() && b.Top() <= r.Top() && r.Bottom() <= b.Bottom()
  }

  // ---------------------------------------------------------------------------
  // The bounds correction of CheckBounds, as a function of the state it reads

  /** The horizontal clamp: left is checked before right and at most one of them applies. */
  function ClampX(rect: Rect, b: Rect, x: real, originX: real): (r: (real, P.Point))
    ensures r.1 == P.Left || r.1 == P.Right || r.1 == P.None
    ensures r.1 == P.Left <==> rect.Left() < b.Left()
    ensures r.1 == P.None <==> b.Left() <= rect.Left() && rect.Right() <= b.Right()
    ensures r.1 == P.None ==> r.0 == x
  {
    if rect.Left() < b.x then (b.x as real + originX, P.Left)
    else if rect.Right() > b.Right() then (b.Right() as real - originX, P.Right)
    else (x, P.None)
  }

  /** The vertical clamp: top is checked before bottom and at most one of them applies. */
  function ClampY(rect: Rect, b: Rect, y: real, originY: real): (r: (real, P.Point))
    ensures r.1 == P.Top || r.1 == P.Bottom || r.1 == P.None
    ensures r.1 == P.Top <==> rect.Top() < b.Top()
    ensures r.1 == P.None <==> b.Top() <= rect.Top() && rect.Bottom() <= b.Bottom()
    ensures r.1 == P.None ==> r.0 == y
  {
    if rect.Top() < b.y then (b.y as real + originY, P.Top)
    else if rect.Bottom() > b.Bottom() then (b.Bottom() as real - originY, P.Bottom)
    else (y, P.None)
  }

  /** The target position and the collision point of one correction. */
  datatype Correction = Correction(target: Vec2, point: P.Point)

  /** Both clamps together: no collision point exactly when the rectangle lies inside the
      region, and then the position stays. */
  function Correct(rect: Rect, b: Rect, position: Vec2, origin: Vec2): (c: Correction)
    ensures c.point == P.None <==> Within(rect, b)
    ensures Within(rect, b) ==> c.target == position
  {
    var (x, h) := ClampX(rect, b, position.x, origin.x);
    var (y, v) := ClampY(rect, b, position.y, origin.y);
    Correction(Vec2(x, y), if v == P.None then h else if h == P.None then v else P.Combine(h, v))
  }

  /** What CheckBounds leaves behind: the new position and rectangle and the hook calls. */
  datatype Outcome = Outcome(position: Vec2, rectangle: Rect, hits: seq<BoundsHit>)

  /** At most one hook call, made exactly when the position changes; it records the
      change and the position before it. */
  function CheckBoundsOutcome(position: Vec2, rectangle: Rect, bounds: Option<Rect>,
                              origin: Vec2, texture: Option<TextureSize>): (o: Outcome)
    ensures |o.hits| <= 1
    ensures o.hits == [] <==> o.position == position
    ensures o.hits == [] ==> o.rectangle == rectangle
    ensures o.hits != [] ==> o.hits[0].change == Sub(o.position, position) && o.hits[0].positionAtCall == position
  {
    if bounds.None? then Outcome(position, rectangle, [])
    else
      var c := Correct(rectangle, bounds.value, position, origin);
      if c.target == position then Outcome(position, rectangle, [])
      else Outcome(c.target, RectangleFor(c.target, origin, texture),
                   [BoundsHit(Sub(c.target, position), P.GetNormal(c.point, true), c.point, position)])
  }

  // ---------------------------------------------------------------------------
  // Speed rules

  /** The speed after Start: unchanged once moving; otherwise the initial speed capped
      at the maximum, or the maximum when no initial speed is given and it is positive. */
  function StartSpeed(speed: real, maxSpeed: real, initial: Option<real>): (r: real)
    ensures speed > 0.0 ==> r == speed
    ensures speed <= 0.0 && initial.Some? ==>
      r <= maxSpeed && r <= initial.value && (r == maxSpeed || r == initial.value)
    ensures speed <= 0.0 && initial.None? ==> r == (if maxSpeed > 0.0 then maxSpeed else speed)
  {
    if speed > 0.0 then speed
    else if initial.Some? then (if initial.value < maxSpeed then initial.value else maxSpeed)
    else if maxSpeed > 0.0 then maxSpeed
    else speed
  }

  /** The speed after SpeedUp: a non-positive delta changes nothing; otherwise the sum,
      capped at the maximum. */
  function SpedUp(speed: real, maxSpeed: real, delta: real): (r: real)
    ensures delta <= 0.0 ==> r == speed
    ensures delta > 0.0 ==> r <= maxSpeed && r <= speed + delta && (r == maxSpeed || r == speed + delta)
  {
    if delta <= 0.0 then speed
    else if speed + delta < maxSpeed then speed + delta else maxSpeed
  }

  /** The speed after SlowDown: a non-positive delta changes nothing; otherwise the
      difference, floored at zero. */
  function SlowedDown(speed: real, delta: real): (r: real)
    ensures delta <= 0.0 ==> r == speed
    ensures delta > 0.0 ==> r >= 0.0 && r >= speed - delta && (r == 0.0 || r == speed - delta)
  {
    if delta <= 0.0 then speed
    else if 0.0 > speed - delta then 0.0 else speed - delta
  }

  /** The speed a body may have: at most the maximum, or zero when the maximum is not positive. */
  predicate SpeedInRange(speed: real, maxSpeed: real) {
    speed <= (if maxSpeed > 0.0 then maxSpeed else 0.0)
  }

  // ---------------------------------------------------------------------------
  // The entity

  class MoveableEntity {
    // PhysicalEntity
    const textureName: string
    var position: Vec2
    var origin: Vec2
    var rectangle: Rect
    var texture: Option<TextureSize>
    // MoveableEntity
    var bounds: Option<Rect>
    var angle: real
    var speed: real
    const maxSpeed: real
    var velocity: Vec2
    var acceleration: Vec2
    /** Math.Cos and Math.Sin, which the model does not interpret. */
    const cos: real -> real
    const sin: real -> real
    /** The calls of the HitBounds hook so far. */
    ghost var hits: seq<BoundsHit>

    /** The velocity that speed and angle give. */
    function PolarVelocity(): Vec2
      reads this`speed, this`angle
    {
      Vec2(speed * cos(angle), speed * sin(angle))
    }

    constructor (position: Vec2, angle: real, maxSpeed: real, textureName: string,
                 bounds: Option<Rect>, cos: real -> real, sin: real -> real)
      ensures this.position == position && this.textureName == textureName
      ensures this.bounds == bounds && this.angle == angle && this.maxSpeed == maxSpeed
      ensures this.cos == cos && this.sin == sin
      ensures speed == 0.0 && velocity == Zero && acceleration == Zero
      ensures origin == Zero && texture == None
      ensures rectangle == RectangleFor(position, Zero, None)
      ensures hits == []
    {
      this.textureName := textureName;
      this.position := position;
      origin := Zero;
      texture := None;
      rectangle := Rect(0, 0, 0, 0);
      this.bounds := bounds;
      this.angle := angle;
      speed := 0.0;
      this.maxSpeed := maxSpeed;
      acceleration := Zero;
      this.cos := cos;
      this.sin := sin;
      hits := [];
      new;
      UpdateVelocity();
      UpdateRectangle();
    }

    method UpdateVelocity()
      modifies this`velocity
      ensures velocity == PolarVelocity()
    {
      velocity := Vec2(speed * cos(angle), speed * sin(angle));
    }

    /** PhysicalEntity.UpdateRectangle */
    method UpdateRectangle()
      modifies this`rectangle
      ensures rectangle == RectangleFor(position, origin, texture)
    {
      var topLeft := Sub(position, origin);
      rectangle := Rect(Trunc(topLeft.x), Trunc(topLeft.y),
                        if texture.Some? then texture.value.width else 0,
                        if texture.Some? then texture.value.height else 0);
    }

    /** PhysicalEntity.LoadContent; `loaded` is what the content manager returns for the
        texture name. A blank name loads nothing. Otherwise the origin becomes the texture's
        centre and the rectangle's top-left is the truncated position itself (not
        position - origin, as UpdateRectangle would give). */
    method LoadContent(loaded: TextureSize)
      modifies this`texture, this`origin, this`rectangle
      ensures IsBlank(textureName) ==> unchanged(this)
      ensures !IsBlank(textureName) ==>
        texture == Some(loaded) && origin == HalfSize(loaded) &&
        rectangle == Rect(Trunc(position.x), Trunc(position.y), loaded.width, loaded.height)
    {
      if !IsBlank(textureName) {
        texture := Some(loaded);
        origin := Vec2(loaded.width as real / 2.0, loaded.height as real / 2.0);
        rectangle := Rect(Trunc(position.x), Trunc(position.y), loaded.width, loaded.height);
      }
    }

    /** PhysicalEntity.UnloadContent: disposes the texture and resets the origin. Without a
        texture the framework dereferences null and throws before touching the origin;
        `ok` is false then and nothing changes. */
    method UnloadContent() returns (ok: bool)
      modifies this`origin
      ensures ok == old(texture).Some?
      ensures ok ==> origin == Zero
      ensures !ok ==> origin == old(origin)
    {
      if texture.None? {
        return false;
      }
      origin := Zero;
      return true;
    }

    method BindEntity(b: Rect)
      modifies this`bounds
      ensures bounds == Some(b)
    {
      bounds := Some(b);
    }

    method UnbindEntity()
      modifies this`bounds
      ensures bounds == None
    {
      bounds := None;
    }

    method Start(initialSpeed: Option<real>)
      modifies this`speed, this`velocity
      ensures old(speed) > 0.0 ==> speed == old(speed) && velocity == old(velocity)
      ensures old(speed) <= 0.0 ==> speed == StartSpeed(old(speed), maxSpeed, initialSpeed) && velocity == PolarVelocity()
    {
      if speed > 0.0 {
        return;
      }
      if initialSpeed.Some? {
        speed := if initialSpeed.value < maxSpeed then initialSpeed.value else maxSpeed;
      } else if maxSpeed > 0.0 {
        speed := maxSpeed;
      }
      UpdateVelocity();
    }

    method Stop()
      modifies this`speed, this`velocity
      ensures speed == 0.0 && velocity == Zero
    {
      speed := 0.0;
      UpdateVelocity();
    }

    method ChangeDirection(newAngle: real)
      modifies this`angle, this`velocity
      ensures angle == newAngle && velocity == PolarVelocity()
    {
      angle := newAngle;
      UpdateVelocity();
    }

    method SpeedUp(deltaSpeed: real)
      modifies this`speed, this`velocity
      ensures deltaSpeed <= 0.0 ==> speed == old(speed) && velocity == old(velocity)
      ensures deltaSpeed > 0.0 ==> speed == SpedUp(old(speed), maxSpeed, deltaSpeed) && velocity == PolarVelocity()
    {
      if deltaSpeed <= 0.0 {
        return;
      }
      speed := if speed + deltaSpeed < maxSpeed then speed + deltaSpeed else maxSpeed;
      UpdateVelocity();
    }

    method SlowDown(deltaSpeed: real)
      modifies this`speed, this`velocity
      ensures deltaSpeed <= 0.0 ==> speed == old(speed) && velocity == old(velocity)
      ensures deltaSpeed > 0.0 ==> speed == SlowedDown(old(speed), deltaSpeed) && velocity == PolarVelocity()
    {
      if deltaSpeed <= 0.0 {
        return;
      }
      speed := if 0.0 > speed - deltaSpeed then 0.0 else speed - deltaSpeed;
      UpdateVelocity();
    }

    /** The hook a concrete body overrides; the base implementation does nothing. Here
        each call is recorded. */
    method HitBounds(change: Vec2, normal: Normal, collisionPoint: P.Point)
      modifies this`hits
      ensures hits == old(hits) + [BoundsHit(change, normal, collisionPoint, position)]
    {
      hits := hits + [BoundsHit(change, normal, collisionPoint, position)];
    }

    /** Keeps the body inside its bounds, if it has any. */
    method CheckBounds()
      modifies this`position, this`rectangle, this`hits
      ensures var r := CheckBoundsOutcome(old(position), old(rectangle), bounds, origin, texture);
        position == r.position && rectangle == r.rectangle && hits == old(hits) + r.hits
    {
      if bounds.None? {
        return;
      }
      var b := bounds.value;
      var tempPosition := position;
      var collisionPoint := P.None;

      if rectangle.Left() < b.x {
        tempPosition := tempPosition.(x := b.x as real + origin.x);
        collisionPoint := P.Left;
      } else if rectangle.Right() > b.Right() {
        tempPosition := tempPosition.(x := b.Right() as real - origin.x);
        collisionPoint := P.Right;
      }

      if rectangle.Top() < b.y {
        tempPosition := tempPosition.(y := b.y as real + origin.y);
        collisionPoint := if collisionPoint == P.None then P.Top else P.Combine(collisionPoint, P.Top);
      } else if rectangle.Bottom() > b.Bottom() {
        tempPosition := tempPosition.(y := b.Bottom() as real - origin.y);
        collisionPoint := if collisionPoint == P.None then P.Bottom else P.Combine(collisionPoint, P.Bottom);
      }

      var change := Sub(tempPosition, position);
      if change == Zero {
        return;
      }

      HitBounds(change, P.GetNormal(collisionPoint, true), collisionPoint);

      position := tempPosition;
      UpdateRectangle();
    }

    /** One movement step of `dt` seconds: velocity first, then position from the new
        velocity, then the rectangle, then the bounds. */
    method UpdateEntity(dt: real)
      modifies this`velocity, this`position, this`rectangle, this`hits
      ensures velocity == Add(old(velocity), Scale(acceleration, dt))
      ensures var moved := Add(old(position), Scale(velocity, dt));
        var r := CheckBoundsOutcome(moved, RectangleFor(moved, origin, texture), bounds, origin, texture);
        position == r.position && rectangle == r.rectangle && hits == old(hits) + r.hits
    {
      velocity := Add(velocity, Scale(acceleration, dt));
      position := Add(position, Scale(velocity, dt));

      UpdateRectangle();
      CheckBounds();
    }
  }

  // ---------------------------------------------------------------------------
  // Properties

  /** The semi-implicit Euler step moves by dt * v + dt^2 * a: the position uses the
      velocity already updated by the acceleration. */
  lemma EulerStep(p: Vec2, v: Vec2, a: Vec2, dt: real)
    ensures Add(p, Scale(Add(v, Scale(a, dt)), dt)) == Add(Add(p, Scale(v, dt)), Scale(a, dt * dt))
  {
  }

  /** Start, Stop, SpeedUp and SlowDown keep the speed in range. */
  lemma SpeedRulesKeepRange(speed: real, maxSpeed: real, initial: Option<real>, delta: real)
    requires SpeedInRange(speed, maxSpeed)
    ensures SpeedInRange(StartSpeed(speed, maxSpeed, initial), maxSpeed)
    ensures SpeedInRange(SpedUp(speed, maxSpeed, delta), maxSpeed)
    ensures SpeedInRange(SlowedDown(speed, delta), maxSpeed)
    ensures SpeedInRange(0.0, maxSpeed)
  {
  }

  /** Without bounds nothing moves and the hook is not called. */
  lemma NoBoundsNoCorrection(position: Vec2, rectangle: Rect, origin: Vec2, texture: Option<TextureSize>)
    ensures CheckBoundsOutcome(position, rectangle, None, origin, texture) == Outcome(position, rectangle, [])
  {
  }

  /** The two axes are corrected independently: the horizontal target depends only on
      the horizontal data, the vertical one only on the vertical data. */
  lemma CorrectAxesIndependent(r1: Rect, r2: Rect, b: Rect, p1: Vec2, p2: Vec2, o1: Vec2, o2: Vec2)
    ensures r1.x == r2.x && r1.width == r2.width && p1.x == p2.x && o1.x == o2.x ==>
      Correct(r1, b, p1, o1).target.x == Correct(r2, b, p2, o2).target.x
    ensures r1.y == r2.y && r1.height == r2.height && p1.y == p2.y && o1.y == o2.y ==>
      Correct(r1, b, p1, o1).target.y == Correct(r2, b, p2, o2).target.y
  {
  }

  /** The horizontal target: left wins over right, and the only targets are the
      position itself, b.X + origin.X and b.Right - origin.X; likewise vertically. */
  lemma CorrectTargets(rect: Rect, b: Rect, position: Vec2, origin: Vec2)
    ensures var t := Correct(rect, b, position, origin).target;
      (rect.Left() < b.Left() ==> t.x == b.Left() as real + origin.x) &&
      (b.Left() <= rect.Left() && rect.Right() > b.Right() ==> t.x == b.Right() as real - origin.x) &&
      (b.Left() <= rect.Left() && rect.Right() <= b.Right() ==> t.x == position.x) &&
      (rect.Top() < b.Top() ==> t.y == b.Top() as real + origin.y) &&
      (b.Top() <= rect.Top() && rect.Bottom() > b.Bottom() ==> t.y == b.Bottom() as real - origin.y) &&
      (b.Top() <= rect.Top() && rect.Bottom() <= b.Bottom() ==> t.y == position.y)
  {
  }

  /** The collision point: a single-axis clamp yields its side, a clamp on both axes
      yields the corner Combine makes of the two sides, and no clamp yields None. */
  lemma CorrectPoint(rect: Rect, b: Rect, position: Vec2, origin: Vec2)
    ensures var c := Correct(rect, b, position, origin);
      var h := if rect.Left() < b.Left() then P.Left else if rect.Right() > b.Right() then P.Right else P.None;
      var v := if rect.Top() < b.Top() then P.Top else if rect.Bottom() > b.Bottom() then P.Bottom else P.None;
      (h != P.None && v == P.None ==> c.point == h) &&
      (h == P.None && v != P.None ==> c.point == v) &&
      (h != P.None && v != P.None ==> c.point == P.Combine(h, v) && c.point.IsCorner()) &&
      (h == P.None && v == P.None ==> c.point == P.None)
  {
  }

  /** A rectangle already inside the bounds needs no correction. */
  lemma InsideNeedsNoCorrection(position: Vec2, rectangle: Rect, b: Rect, origin: Vec2, texture: Option<TextureSize>)
    requires Within(rectangle, b)
    ensures CheckBoundsOutcome(position, rectangle, Some(b), origin, texture) == Outcome(position, rectangle, [])
  {
  }

  /** With the origin at the texture's centre, a left clamp puts the rectangle's left
      edge on the region's left edge and a right clamp its right edge on the region's
      right edge (and the same for top and bottom). */
  lemma ClampAlignsEdges(rect: Rect, b: Rect, position: Vec2, t: TextureSize)
    ensures var c := Correct(rect, b, position, HalfSize(t));
      var moved := RectangleFor(c.target, HalfSize(t), Some(t));
      (rect.Left() < b.Left() ==> moved.Left() == b.Left()) &&
      (b.Left() <= rect.Left() && rect.Right() > b.Right() ==> moved.Right() == b.Right()) &&
      (rect.Top() < b.Top() ==> moved.Top() == b.Top()) &&
      (b.Top() <= rect.Top() && rect.Bottom() > b.Bottom() ==> moved.Bottom() == b.Bottom())
  {
    var o := HalfSize(t);
    var c := Correct(rect, b, position, o);
    var topLeft := Sub(c.target, o);
    if rect.Left() < b.Left() {
      assert topLeft.x == b.x as real;
      TruncOfInteger(b.x);
    } else if rect.Right() > b.Right() {
      assert topLeft.x == (b.Right() - t.width) as real;
      TruncOfInteger(b.Right() - t.width);
    }
    if rect.Top() < b.Top() {
      assert topLeft.y == b.y as real;
      TruncOfInteger(b.y);
    } else if rect.Bottom() > b.Bottom() {
      assert topLeft.y == (b.Bottom() - t.height) as real;
      TruncOfInteger(b.Bottom() - t.height);
    }
  }

  /** After a correction of a body whose rectangle is up to date, whose origin is its
      texture's centre and which fits in the region, the body lies inside the region, so
      a second CheckBounds changes nothing and calls no hook. */
  lemma {:induction false} CheckBoundsSettles(position: Vec2, b: Rect, t: TextureSize)
    requires t.width <= b.width && t.height <= b.height
    ensures var o := HalfSize(t);
      var r := CheckBoundsOutcome(position, RectangleFor(position, o, Some(t)), Some(b), o, Some(t));
      Within(r.rectangle, b) &&
      CheckBoundsOutcome(r.position, r.rectangle, Some(b), o, Some(t)) == Outcome(r.position, r.rectangle, [])
  {
    var o := HalfSize(t);
    var rect := RectangleFor(position, o, Some(t));
    var c := Correct(rect, b, position, o);
    ClampAlignsEdges(rect, b, position, t);
    var moved := RectangleFor(c.target, o, Some(t));
    CorrectAxesIndependent(rect, moved, b, position, c.target, o, o);
    if c.target != position {
      if c.target.x == position.x {
        assert moved.x == rect.x;
      }
      if c.target.y == position.y {
        assert moved.y == rect.y;
      }
      assert Within(moved, b);
    }
    var r := CheckBoundsOutcome(position, rect, Some(b), o, Some(t));
    InsideNeedsNoCorrection(r.position, r.rectangle, b, o, Some(t));
  }

  /** The edge clamp: region (0,0,100,100), a 10x10 body (origin (5,5)) at (-3,50) is
      moved to x = 5, hits Left, and gets the inward normal (1,0). */
  lemma EdgeClampScenario()
    ensures var t := TextureSize(10, 10);
      var p := Vec2(-3.0, 50.0);
      var r := CheckBoundsOutcome(p, RectangleFor(p, HalfSize(t), Some(t)), Some(Rect(0, 0, 100, 100)), HalfSize(t), Some(t));
      r.position == Vec2(5.0, 50.0) &&
      r.hits == [BoundsHit(Vec2(8.0, 0.0), Normal(Vec2(1.0, 0.0)), P.Left, p)]
  {
    var t := TextureSize(10, 10);
    var p := Vec2(-3.0, 50.0);
    assert Trunc(-8.0) == -8 && Trunc(45.0) == 45;
  }

  /** The corner clamp: the same body at (-3,-3) is clamped on both axes, to (5,5), and the
      collision point is Combine(Left, Top) = TopLeftCorner. */
  lemma CornerClampScenario()
    ensures var t := TextureSize(10, 10);
      var p := Vec2(-3.0, -3.0);
      var r := CheckBoundsOutcome(p, RectangleFor(p, HalfSize(t), Some(t)), Some(Rect(0, 0, 100, 100)), HalfSize(t), Some(t));
      r.position == Vec2(5.0, 5.0) && |r.hits| == 1 && r.hits[0].point == P.TopLeftCorner
  {
    assert Trunc(-8.0) == -8;
  }
}
