/** Points, vectors and the 2D affine maps the sprite code builds with XNA's
    `Matrix`. XNA multiplies row vectors on the left, so a map is applied as
    `v * M`: the linear part is (m11 m12 / m21 m22) and the translation is the
    fourth row (M41, M42), written here (tx, ty). Arithmetic is exact. */
module Geometry {
  import opened Numeric

  datatype Vec = Vec(x: real, y: real)

  const Zero: Vec := Vec(0.0, 0.0)
  const UnitX: Vec := Vec(1.0, 0.0)
  const UnitY: Vec := Vec(0.0, 1.0)

  function Add(u: Vec, v: Vec): Vec { Vec(u.x + v.x, u.y + v.y) }

  function Neg(v: Vec): Vec { Vec(-v.x, -v.y) }

  /** Component-wise minimum and maximum (`Vector2.Min`, `Vector2.Max`). */
  function Min(u: Vec, v: Vec): Vec { Vec(Least(u.x, v.x), Least(u.y, v.y)) }

  function Max(u: Vec, v: Vec): Vec { Vec(Greatest(u.x, v.x), Greatest(u.y, v.y)) }

  datatype Affine = Affine(m11: real, m12: real, m21: real, m22: real, tx: real, ty: real)

  /** `Vector2.Transform(v, m)`. */
  function Apply(m: Affine, v: Vec): Vec {
    Vec(v.x * m.m11 + v.y * m.m21 + m.tx, v.x * m.m12 + v.y * m.m22 + m.ty)
  }

  /** `Vector2.TransformNormal(v, m)`: the linear part only. */
  function ApplyNormal(m: Affine, v: Vec): Vec {
    Vec(v.x * m.m11 + v.y * m.m21, v.x * m.m12 + v.y * m.m22)
  }

  /** The matrix product `a * b`: first `a`, then `b`. */
  function Compose(a: Affine, b: Affine): Affine {
    Affine(a.m11 * b.m11 + a.m12 * b.m21, a.m11 * b.m12 + a.m12 * b.m22,
           a.m21 * b.m11 + a.m22 * b.m21, a.m21 * b.m12 + a.m22 * b.m22,
           a.tx * b.m11 + a.ty * b.m21 + b.tx, a.tx * b.m12 + a.ty * b.m22 + b.ty)
  }

  lemma ApplyCompose(a: Affine, b: Affine, v: Vec)
    ensures Apply(Compose(a, b), v) == Apply(b, Apply(a, v))
  {
    var w := Apply(a, v);
    assert Apply(Compose(a, b), v).x == w.x * b.m11 + w.y * b.m21 + b.tx;
    assert Apply(Compose(a, b), v).y == w.x * b.m12 + w.y * b.m22 + b.ty;
  }

  function Det(m: Affine): real { m.m11 * m.m22 - m.m12 * m.m21 }

  /** `Matrix.Invert` restricted to affine maps; defined when the linear part
      is non-singular. */
  function Invert(m: Affine): (r: Affine)
    requires Det(m) != 0.0
    ensures Det(r) * Det(m) == 1.0
  {
    var d := Det(m);
    var i11, i12, i21, i22 := m.m22 / d, -m.m12 / d, -m.m21 / d, m.m11 / d;
    assert i11 * i22 - i12 * i21 == (m.m11 * m.m22 - m.m12 * m.m21) / (d * d);
    Affine(i11, i12, i21, i22, -(m.tx * i11 + m.ty * i21), -(m.tx * i12 + m.ty * i22))
  }

  /** Mapping a point and then mapping it back through the inverse returns it. */
  lemma InvertUndoesApply(m: Affine, v: Vec)
    requires Det(m) != 0.0
    ensures Apply(Invert(m), Apply(m, v)) == v
  {
    var d := Det(m);
    var n := Invert(m);
    var w := Apply(m, v);
    var a, b := w.x - m.tx, w.y - m.ty;
    assert a == v.x * m.m11 + v.y * m.m21 && b == v.x * m.m12 + v.y * m.m22;
    Shifted(w, m.tx, m.ty, n.m11, n.m12, n.m21, n.m22);
    OverDet(a, b, m.m22, -m.m21, d);
    OverDet(a, b, -m.m12, m.m11, d);
    CrossTerms(v.x, v.y, m.m11, m.m12, m.m21, m.m22);
    Cancel(v.x, d);
    Cancel(v.y, d);
  }

  lemma Shifted(w: Vec, tx: real, ty: real, i11: real, i12: real, i21: real, i22: real)
    ensures Apply(Affine(i11, i12, i21, i22, -(tx * i11 + ty * i21), -(tx * i12 + ty * i22)), w)
      == Vec((w.x - tx) * i11 + (w.y - ty) * i21, (w.x - tx) * i12 + (w.y - ty) * i22)
  {
  }

  lemma OverDet(a: real, b: real, c: real, e: real, d: real)
    requires d != 0.0
    ensures a * (c / d) + b * (e / d) == (a * c + b * e) / d
  {
  }

  lemma Cancel(x: real, d: real)
    requires d != 0.0
    ensures (x * d) / d == x
  {
  }

  lemma CrossTerms(x: real, y: real, m11: real, m12: real, m21: real, m22: real)
    ensures (x * m11 + y * m21) * m22 + (x * m12 + y * m22) * -m21 == x * (m11 * m22 - m12 * m21)
    ensures (x * m11 + y * m21) * -m12 + (x * m12 + y * m22) * m11 == y * (m11 * m22 - m12 * m21)
  {
  }

  /** `Matrix.CreateTranslation(t)`. */
  function Translation(t: Vec): Affine { Affine(1.0, 0.0, 0.0, 1.0, t.x, t.y) }

  /** `Matrix.CreateScale(s)` for a uniform scale factor. */
  function Scaling(s: real): Affine { Affine(s, 0.0, 0.0, s, 0.0, 0.0) }

  /** The cosine and sine of a rotation angle; the trigonometry itself is
      computed outside the model. */
  datatype Turn = Turn(cos: real, sin: real) {
    predicate IsRotation() { cos * cos + sin * sin == 1.0 }
  }

  /** `Matrix.CreateRotationZ(angle)` given the angle's cosine and sine. */
  function RotationZ(t: Turn): Affine { Affine(t.cos, t.sin, -t.sin, t.cos, 0.0, 0.0) }

  /** A sprite's local-to-world map, built in the fixed order
      translate(-origin), scale, rotate, translate(position). */
  function SpriteTransform(origin: Vec, scale: real, turn: Turn, position: Vec): Affine {
    Compose(Compose(Compose(Translation(Neg(origin)), Scaling(scale)), RotationZ(turn)),
            Translation(position))
  }

  /** The entries of a sprite's map, multiplied out. */
  lemma SpriteTransformEntries(origin: Vec, scale: real, turn: Turn, position: Vec)
    ensures var c, s := scale * turn.cos, scale * turn.sin;
      SpriteTransform(origin, scale, turn, position)
        == Affine(c, s, -s, c, position.x - origin.x * c + origin.y * s,
                  position.y - origin.x * s - origin.y * c)
  {
    var ab := Compose(Translation(Neg(origin)), Scaling(scale));
    assert ab == Affine(scale, 0.0, 0.0, scale, -origin.x * scale, -origin.y * scale);
    var abc := Compose(ab, RotationZ(turn));
    var c, s := scale * turn.cos, scale * turn.sin;
    assert abc.m11 == c && abc.m12 == s && abc.m21 == -s && abc.m22 == c;
    assert abc.tx == -origin.x * c + origin.y * s;
    assert abc.ty == -origin.x * s - origin.y * c;
  }

  /** The local point is taken relative to the origin, scaled, rotated, and
      placed at the position; in particular the origin lands on the position. */
  lemma SpriteTransformMaps(origin: Vec, scale: real, turn: Turn, position: Vec, v: Vec)
    ensures var u := Vec(scale * (v.x - origin.x), scale * (v.y - origin.y));
      Apply(SpriteTransform(origin, scale, turn, position), v)
        == Vec(position.x + u.x * turn.cos - u.y * turn.sin,
               position.y + u.x * turn.sin + u.y * turn.cos)
    ensures Apply(SpriteTransform(origin, scale, turn, position), origin) == position
  {
    SpriteTransformEntries(origin, scale, turn, position);
    PivotMaps(SpriteTransform(origin, scale, turn, position), origin, scale, turn, position, v);
  }

  /** `SpriteTransformMaps` for any matrix with a sprite map's entries. */
  lemma PivotMaps(m: Affine, origin: Vec, scale: real, turn: Turn, position: Vec, v: Vec)
    requires var c, s := scale * turn.cos, scale * turn.sin;
      m == Affine(c, s, -s, c, position.x - origin.x * c + origin.y * s, position.y - origin.x * s - origin.y * c)
    ensures var u := Vec(scale * (v.x - origin.x), scale * (v.y - origin.y));
      Apply(m, v) == Vec(position.x + u.x * turn.cos - u.y * turn.sin, position.y + u.x * turn.sin + u.y * turn.cos)
    ensures Apply(m, origin) == position
  {
    Pivot(v.x, v.y, origin.x, origin.y, position, scale, turn.cos, turn.sin);
  }

  /** `SpriteTransformMaps` for one point, on plain reals. */
  lemma Pivot(vx: real, vy: real, ox: real, oy: real, position: Vec, k: real, cos: real, sin: real)
    ensures var c, s := k * cos, k * sin;
      && vx * c + vy * -s + (position.x - ox * c + oy * s) == position.x + (k * (vx - ox)) * cos - (k * (vy - oy)) * sin
      && vx * s + vy * c + (position.y - ox * s - oy * c) == position.y + (k * (vx - ox)) * sin + (k * (vy - oy)) * cos
      && ox * c + oy * -s + (position.x - ox * c + oy * s) == position.x
      && ox * s + oy * c + (position.y - ox * s - oy * c) == position.y
  {
    PivotAlgebra(vx - ox, vy - oy, k, cos, sin);
  }

  lemma PivotAlgebra(dx: real, dy: real, k: real, cos: real, sin: real)
    ensures (k * dx) * cos - (k * dy) * sin == dx * (k * cos) - dy * (k * sin)
    ensures (k * dx) * sin + (k * dy) * cos == dx * (k * sin) + dy * (k * cos)
  {
  }

  /** A sprite's map is invertible whenever its scale is not zero. */
  lemma SpriteTransformInvertible(origin: Vec, scale: real, turn: Turn, position: Vec)
    requires turn.IsRotation() && scale != 0.0
    ensures Det(SpriteTransform(origin, scale, turn, position)) == scale * scale
    ensures Det(SpriteTransform(origin, scale, turn, position)) != 0.0
  {
    var m := SpriteTransform(origin, scale, turn, position);
    SpriteTransformEntries(origin, scale, turn, position);
    ScaledRotationDet(m, scale, turn.cos, turn.sin);
    ProductNonZero(Det(m), scale, scale);
  }

  lemma ScaledRotationDet(m: Affine, k: real, cos: real, sin: real)
    requires cos * cos + sin * sin == 1.0
    requires m.m11 == k * cos && m.m12 == k * sin && m.m21 == -(k * sin) && m.m22 == k * cos
    ensures Det(m) == k * k
  {
    assert Det(m) == k * k * (cos * cos + sin * sin);
  }

  lemma ProductPositive(d: real, a: real, b: real)
    requires a > 0.0 && b > 0.0 && d == a * b
    ensures d > 0.0
  {
  }

  lemma ProductNonZero(d: real, a: real, b: real)
    requires a != 0.0 && b != 0.0 && d == a * b
    ensures d != 0.0
  {
    if a < 0.0 && b < 0.0 {
      ProductPositive(d, -a, -b);
    } else if a < 0.0 {
      ProductPositive(-d, -a, b);
    } else if b < 0.0 {
      ProductPositive(-d, a, -b);
    } else {
      ProductPositive(d, a, b);
    }
  }

  /** With a uniform scale, scaling and rotating commute. */
  lemma ScalingCommutesWithRotation(s: real, turn: Turn)
    ensures Compose(Scaling(s), RotationZ(turn)) == Compose(RotationZ(turn), Scaling(s))
  {
  }

  /** Placing at the position must come after rotating: a turn that is not
      upright moves a placement made before it. */
  lemma PlacementAfterTurnMatters(turn: Turn, x: real)
    requires turn.sin != 0.0 && x != 0.0
    ensures Compose(RotationZ(turn), Translation(Vec(x, 0.0))) != Compose(Translation(Vec(x, 0.0)), RotationZ(turn))
  {
    var p := Compose(RotationZ(turn), Translation(Vec(x, 0.0)));
    var q := Compose(Translation(Vec(x, 0.0)), RotationZ(turn));
    assert p.ty == 0.0;
    assert q.ty == x * turn.sin;
    ProductNonZero(q.ty, x, turn.sin);
  }

  /** Centring on the origin must come before scaling: the other order moves
      the pivot whenever the scale is not 1 and the origin is not zero. */
  lemma CentringBeforeScalingMatters(origin: Vec, s: real)
    requires s != 1.0 && origin != Zero
    ensures Compose(Translation(Neg(origin)), Scaling(s)) != Compose(Scaling(s), Translation(Neg(origin)))
  {
    var p := Compose(Translation(Neg(origin)), Scaling(s));
    var q := Compose(Scaling(s), Translation(Neg(origin)));
    if origin.x != 0.0 {
      assert p.tx - q.tx == -origin.x * (s - 1.0);
      assert p.tx != q.tx;
    } else {
      assert origin.y != 0.0;
      assert p.ty - q.ty == -origin.y * (s - 1.0);
      assert p.ty != q.ty;
    }
  }
}
