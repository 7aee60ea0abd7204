/** Vector2Ex: reflection of a vector off a surface with a given normal. */
module Vector2Ex {
  import opened Geometry

  /** v + n * (2 * ((-v) . n)), computed as the framework writes it. */
  function Reflect(v: Vec2, n: Vec2): (r: Vec2)
    ensures Dot(n, n) == 1.0 ==> Dot(r, n) == -Dot(v, n)
  {
    Add(v, Scale(n, 2.0 * Dot(Neg(v), n)))
  }

  /** The textbook form of reflection: v - 2 (v . n) n. */
  lemma ReflectIsTextbook(v: Vec2, n: Vec2)
    ensures Reflect(v, n) == Sub(v, Scale(n, 2.0 * Dot(v, n)))
  {
  }

  /** A vector parallel to the surface (orthogonal to the normal) is unchanged. */
  lemma ReflectOrthogonal(v: Vec2, n: Vec2)
    requires Dot(v, n) == 0.0
    ensures Reflect(v, n) == v
  {
  }

  /** For a unit normal, reflecting twice gives back the original vector. */
  lemma {:induction false} ReflectTwice(v: Vec2, n: Vec2)
    requires Dot(n, n) == 1.0
    ensures Reflect(Reflect(v, n), n) == v
  {
    var r := Reflect(v, n);
    assert Dot(r, n) == -Dot(v, n);
    assert Reflect(r, n) == Add(r, Scale(n, 2.0 * Dot(v, n)));
  }

  /** For a unit normal, reflection keeps the squared length. */
  lemma ReflectKeepsLength(v: Vec2, n: Vec2)
    requires Dot(n, n) == 1.0
    ensures Dot(Reflect(v, n), Reflect(v, n)) == Dot(v, v)
  {
    var d := Dot(v, n);
    var r := Reflect(v, n);
    assert r == Vec2(v.x - 2.0 * d * n.x, v.y - 2.0 * d * n.y);
    calc {
      Dot(r, r);
      (v.x - 2.0 * d * n.x) * (v.x - 2.0 * d * n.x) + (v.y - 2.0 * d * n.y) * (v.y - 2.0 * d * n.y);
      Dot(v, v) - 4.0 * d * (v.x * n.x + v.y * n.y) + 4.0 * d * d * (n.x * n.x + n.y * n.y);
      Dot(v, v) - 4.0 * d * d + 4.0 * d * d * 1.0;
    }
  }

  /** Reflecting off a vertical wall (normal (+-1, 0)) negates x only; off a
      horizontal wall (normal (0, +-1)) negates y only. */
  lemma ReflectAxis(v: Vec2, s: real)
    requires s == 1.0 || s == -1.0
    ensures Reflect(v, Vec2(s, 0.0)) == Vec2(-v.x, v.y)
    ensures Reflect(v, Vec2(0.0, s)) == Vec2(v.x, -v.y)
  {
    if s == 1.0 {
      assert Reflect(v, Vec2(s, 0.0)) == Vec2(v.x + 2.0 * -v.x, v.y);
      assert Reflect(v, Vec2(0.0, s)) == Vec2(v.x, v.y + 2.0 * -v.y);
    } else {
      assert Reflect(v, Vec2(s, 0.0)) == Vec2(v.x - 2.0 * v.x, v.y);
      assert Reflect(v, Vec2(0.0, s)) == Vec2(v.x, v.y - 2.0 * v.y);
    }
  }
}
