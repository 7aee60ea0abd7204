/** The collision-point algebra: where on a rectangle a contact happened, how two
    single-side contacts combine into a corner, the normal of a contact point and the
    side a point is grouped under. */
module CollisionPoints {
  import opened Geometry

  /** RectangleCollisionPoint */
  datatype Point =
    | None | Top | Left | Bottom | Right
    | TopLeftCorner | TopRightCorner | BottomLeftCorner | BottomRightCorner
  {
    predicate IsSide() { Top? || Left? || Bottom? || Right? }
    predicate IsCorner() { TopLeftCorner? || TopRightCorner? || BottomLeftCorner? || BottomRightCorner? }
  }

  /** RectangleCollisionSide */
  datatype Side = NoSide | LeftSide | TopSide | RightSide | BottomSide

  /** Combines two points into a corner; only Left/Right paired with Top/Bottom, in
      either order, combine, and every other pair gives None. */
  function Combine(source: Point, target: Point): (r: Point)
    ensures r != None <==>
      ((source == Left || source == Right) && (target == Top || target == Bottom)) ||
      ((target == Left || target == Right) && (source == Top || source == Bottom))
    ensures r == None || r.IsCorner()
  {
    if (source == Left && target == Top) || (source == Top && target == Left) then TopLeftCorner
    else if (source == Right && target == Top) || (source == Top && target == Right) then TopRightCorner
    else if (source == Left && target == Bottom) || (source == Bottom && target == Left) then BottomLeftCorner
    else if (source == Right && target == Bottom) || (source == Bottom && target == Right) then BottomRightCorner
    else None
  }

  /** Combine is commutative. */
  lemma CombineCommutative(p: Point, q: Point)
    ensures Combine(p, q) == Combine(q, p)
  {
  }

  /** Normalises a corner direction; the unit scaling is kept abstract (see Geometry.Normal). */
  function GetCornerNormal(delta: Vec2): (n: Normal)
    ensures n.IsZero() <==> delta == Zero
  {
    Normal(delta)
  }

  /** The normal of a collision point: outward by default, inward when `inside`. */
  function GetNormal(point: Point, inside: bool): (n: Normal)
    ensures point == None <==> n.IsZero()
    ensures point.IsSide() ==> n.IsAxisUnit()
    ensures point.IsCorner() ==> n.IsDiagonalSign()
  {
    match point
    case Top => Normal(Vec2(0.0, if inside then 1.0 else -1.0))
    case Left => Normal(Vec2(if inside then 1.0 else -1.0, 0.0))
    case Bottom => Normal(Vec2(0.0, if inside then -1.0 else 1.0))
    case Right => Normal(Vec2(if inside then -1.0 else 1.0, 0.0))
    case TopLeftCorner => GetCornerNormal(Vec2(if inside then -1.0 else 1.0, if inside then -1.0 else 1.0))
    case TopRightCorner => GetCornerNormal(Vec2(if inside then 1.0 else -1.0, if inside then -1.0 else 1.0))
    case BottomLeftCorner => GetCornerNormal(Vec2(if inside then -1.0 else 1.0, if inside then 1.0 else -1.0))
    case BottomRightCorner => GetCornerNormal(Vec2(if inside then 1.0 else -1.0, if inside then 1.0 else -1.0))
    case None => NoNormal
  }

  /** Groups a point under a side: corners go with their horizontal side. */
  function GetCollisionSide(source: Point): (s: Side)
    ensures s == NoSide <==> source == None
    ensures s == LeftSide <==> source in {Left, TopLeftCorner, BottomLeftCorner}
    ensures s == RightSide <==> source in {Right, TopRightCorner, BottomRightCorner}
    ensures s == TopSide <==> source == Top
    ensures s == BottomSide <==> source == Bottom
  {
    match source
    case BottomLeftCorner | Left | TopLeftCorner => LeftSide
    case BottomRightCorner | Right | TopRightCorner => RightSide
    case Top => TopSide
    case Bottom => BottomSide
    case None => NoSide
  }

  /** The side a single-side point stands for. */
  function SideOf(p: Point): Side {
    match p
    case Left => LeftSide
    case Right => RightSide
    case Top => TopSide
    case Bottom => BottomSide
    case _ => NoSide
  }

  /** Combining anything with itself, with its opposite or with None gives None. */
  lemma CombineDegenerate(p: Point, q: Point)
    requires p == q || p == None || q == None || p.IsCorner() || q.IsCorner()
      || {p, q} == {Left, Right} || {p, q} == {Top, Bottom}
    ensures Combine(p, q) == None
  {
  }

  /** The inside normal is the outside normal reversed, for every point. */
  lemma InsideNormalIsReversed(p: Point)
    ensures GetNormal(p, true).dir == Neg(GetNormal(p, false).dir)
  {
  }

  /** The outward side normals are the axis unit vectors, with +y pointing down. */
  lemma OutwardSideNormals()
    ensures GetNormal(Top, false) == Normal(Vec2(0.0, -1.0))
    ensures GetNormal(Left, false) == Normal(Vec2(-1.0, 0.0))
    ensures GetNormal(Bottom, false) == Normal(Vec2(0.0, 1.0))
    ensures GetNormal(Right, false) == Normal(Vec2(1.0, 0.0))
  {
  }

  /** The corner normals point the opposite way to the sum of the two side normals they
      combine (TopLeftCorner outward is along (1,1) while Top + Left outward is (-1,-1)). */
  lemma CornerNormalOpposesSideSum(h: Point, v: Point, inside: bool)
    requires h == Left || h == Right
    requires v == Top || v == Bottom
    ensures GetNormal(Combine(h, v), inside).dir == Neg(Add(GetNormal(h, inside).dir, GetNormal(v, inside).dir))
  {
  }

  /** Coarsening a combined corner gives back its horizontal side. */
  lemma CombineThenSide(h: Point, v: Point)
    requires h == Left || h == Right
    requires v == Top || v == Bottom
    ensures GetCollisionSide(Combine(h, v)) == SideOf(h)
    ensures GetCollisionSide(Combine(v, h)) == SideOf(h)
  {
  }
}
