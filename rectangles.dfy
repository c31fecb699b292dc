/** XNA's integer `Rectangle`, the two library queries the sprite code uses
    on it, and the bounding rectangle of a transformed rectangle
    (`Sprite.CalculateBoundingRectangle`). */
module Rectangles {
  import opened Geometry
  import opened Numeric

  datatype Rectangle = Rectangle(x: int, y: int, width: int, height: int) {
    function Left(): int { x }
    function Right(): int { x + width }
    function Top(): int { y }
    function Bottom(): int { y + height }
  }

  /** `Rectangle.Intersects`: each rectangle's left edge is strictly left of
      the other's right edge, and each top edge strictly above the other's
      bottom edge. Edges that only touch do not count; a rectangle of width
      or height zero still intersects one it lies strictly inside. */
  predicate Intersects(a: Rectangle, b: Rectangle) {
    b.Left() < a.Right() && a.Left() < b.Right() && b.Top() < a.Bottom() && a.Top() < b.Bottom()
  }

  /** `Rectangle.Contains(x, y)`: left and top edges inside, right and
      bottom edges outside. */
  predicate Contains(r: Rectangle, px: int, py: int) {
    r.Left() <= px < r.Right() && r.Top() <= py < r.Bottom()
  }

  /** For rectangles that are not empty, overlapping means sharing a pixel. */
  lemma IntersectsIffSharedPixel(a: Rectangle, b: Rectangle)
    requires a.width > 0 && a.height > 0 && b.width > 0 && b.height > 0
    ensures Intersects(a, b) <==> exists px, py :: Contains(a, px, py) && Contains(b, px, py)
  {
    if Intersects(a, b) {
      var px := if a.x <= b.x then b.x else a.x;
      var py := if a.y <= b.y then b.y else a.y;
      assert Contains(a, px, py) && Contains(b, px, py);
    }
  }

  lemma IntersectsSymmetric(a: Rectangle, b: Rectangle)
    ensures Intersects(a, b) == Intersects(b, a)
  {
  }

  /** A real-valued axis-aligned box, given by its least and greatest corners. */
  datatype Box = Box(lo: Vec, hi: Vec)

  /** The box spanned by the four corners of `r` mapped through `m`, taken as
      the component-wise minimum and maximum in the source's order. */
  function WorldBox(r: Rectangle, m: Affine): Box {
    var leftTop := Apply(m, Vec(r.Left() as real, r.Top() as real));
    var rightTop := Apply(m, Vec(r.Right() as real, r.Top() as real));
    var leftBottom := Apply(m, Vec(r.Left() as real, r.Bottom() as real));
    var rightBottom := Apply(m, Vec(r.Right() as real, r.Bottom() as real));
    Box(Min(Min(leftTop, rightTop), Min(leftBottom, rightBottom)),
        Max(Max(leftTop, rightTop), Max(leftBottom, rightBottom)))
  }

  /** `Sprite.CalculateBoundingRectangle`: the world box of `r` under `m`,
      with each of its corner and size converted to `int` by truncation. */
  function CalculateBoundingRectangle(r: Rectangle, m: Affine): (b: Rectangle)
    ensures var box := WorldBox(r, m);
      && 0 <= b.width && 0 <= b.height
      && b.width as real <= box.hi.x - box.lo.x < b.width as real + 1.0
      && b.height as real <= box.hi.y - box.lo.y < b.height as real + 1.0
      && Abs(b.x as real - box.lo.x) < 1.0 && Abs(b.y as real - box.lo.y) < 1.0
  {
    var box := WorldBox(r, m);
    Rectangle(Truncate(box.lo.x), Truncate(box.lo.y),
              Truncate(box.hi.x - box.lo.x), Truncate(box.hi.y - box.lo.y))
  }

  predicate InBox(b: Box, p: Vec) {
    b.lo.x <= p.x <= b.hi.x && b.lo.y <= p.y <= b.hi.y
  }

  /** The point lies in the closed real rectangle covered by `r`. */
  predicate Covers(r: Rectangle, p: Vec) {
    r.Left() as real <= p.x <= r.Right() as real && r.Top() as real <= p.y <= r.Bottom() as real
  }

  /** Each transformed corner lies in the box, and each side of the box
      passes through a transformed corner: the box is the least one. */
  lemma WorldBoxIsTight(r: Rectangle, m: Affine)
    ensures var box := WorldBox(r, m);
      var lt, rt := Apply(m, Vec(r.Left() as real, r.Top() as real)), Apply(m, Vec(r.Right() as real, r.Top() as real));
      var lb, rb := Apply(m, Vec(r.Left() as real, r.Bottom() as real)), Apply(m, Vec(r.Right() as real, r.Bottom() as real));
      && InBox(box, lt) && InBox(box, rt) && InBox(box, lb) && InBox(box, rb)
      && (box.lo.x == lt.x || box.lo.x == rt.x || box.lo.x == lb.x || box.lo.x == rb.x)
      && (box.lo.y == lt.y || box.lo.y == rt.y || box.lo.y == lb.y || box.lo.y == rb.y)
      && (box.hi.x == lt.x || box.hi.x == rt.x || box.hi.x == lb.x || box.hi.x == rb.x)
      && (box.hi.y == lt.y || box.hi.y == rt.y || box.hi.y == lb.y || box.hi.y == rb.y)
  {
  }

  /** Every point of the rectangle, not only its corners, maps into the box:
      the box bounds the whole transformed image. */
  lemma WorldBoxEncloses(r: Rectangle, m: Affine, p: Vec)
    requires Covers(r, p)
    ensures InBox(WorldBox(r, m), Apply(m, p))
  {
    CornerBoxEncloses(m, r.Left() as real, r.Right() as real, r.Top() as real, r.Bottom() as real, p);
  }

  lemma CornerBoxEncloses(m: Affine, L: real, R: real, T: real, B: real, p: Vec)
    requires L <= p.x <= R && T <= p.y <= B
    ensures var lt, rt, lb, rb := Apply(m, Vec(L, T)), Apply(m, Vec(R, T)), Apply(m, Vec(L, B)), Apply(m, Vec(R, B));
      InBox(Box(Min(Min(lt, rt), Min(lb, rb)), Max(Max(lt, rt), Max(lb, rb))), Apply(m, p))
  {
    CornerBoundsX(m, L, R, T, B, p);
    CornerBoundsY(m, L, R, T, B, p);
    BoxOfCorners(Apply(m, Vec(L, T)), Apply(m, Vec(R, T)), Apply(m, Vec(L, B)), Apply(m, Vec(R, B)), Apply(m, p));
  }

  lemma CornerBoundsX(m: Affine, L: real, R: real, T: real, B: real, p: Vec)
    requires L <= p.x <= R && T <= p.y <= B
    ensures var lt, rt, lb, rb := Apply(m, Vec(L, T)), Apply(m, Vec(R, T)), Apply(m, Vec(L, B)), Apply(m, Vec(R, B));
      Least(Least(lt.x, rt.x), Least(lb.x, rb.x)) <= Apply(m, p).x <= Greatest(Greatest(lt.x, rt.x), Greatest(lb.x, rb.x))
  {
    AlongRow(m, L, p.x, R, T);
    AlongRow(m, L, p.x, R, B);
    AlongColumn(m, p.x, T, p.y, B);
    assert p == Vec(p.x, p.y);
    BetweenCorners(Apply(m, Vec(L, T)).x, Apply(m, Vec(R, T)).x, Apply(m, Vec(L, B)).x, Apply(m, Vec(R, B)).x,
                   Apply(m, Vec(p.x, T)).x, Apply(m, Vec(p.x, B)).x, Apply(m, p).x);
  }

  lemma CornerBoundsY(m: Affine, L: real, R: real, T: real, B: real, p: Vec)
    requires L <= p.x <= R && T <= p.y <= B
    ensures var lt, rt, lb, rb := Apply(m, Vec(L, T)), Apply(m, Vec(R, T)), Apply(m, Vec(L, B)), Apply(m, Vec(R, B));
      Least(Least(lt.y, rt.y), Least(lb.y, rb.y)) <= Apply(m, p).y <= Greatest(Greatest(lt.y, rt.y), Greatest(lb.y, rb.y))
  {
    AlongRow(m, L, p.x, R, T);
    AlongRow(m, L, p.x, R, B);
    AlongColumn(m, p.x, T, p.y, B);
    assert p == Vec(p.x, p.y);
    BetweenCorners(Apply(m, Vec(L, T)).y, Apply(m, Vec(R, T)).y, Apply(m, Vec(L, B)).y, Apply(m, Vec(R, B)).y,
                   Apply(m, Vec(p.x, T)).y, Apply(m, Vec(p.x, B)).y, Apply(m, p).y);
  }

  /** Along a row, each coordinate of a mapped point lies between its values
      at the row's two ends. */
  lemma AlongRow(m: Affine, lo: real, t: real, hi: real, y: real)
    requires lo <= t <= hi
    ensures var a, q, b := Apply(m, Vec(lo, y)), Apply(m, Vec(t, y)), Apply(m, Vec(hi, y));
      && ((a.x <= q.x <= b.x) || (b.x <= q.x <= a.x))
      && ((a.y <= q.y <= b.y) || (b.y <= q.y <= a.y))
  {
    RowCoordinate(m.m11, m.m21, m.tx, lo, t, hi, y);
    RowCoordinate(m.m12, m.m22, m.ty, lo, t, hi, y);
  }

  /** Along a column, likewise. */
  lemma AlongColumn(m: Affine, x: real, lo: real, t: real, hi: real)
    requires lo <= t <= hi
    ensures var a, q, b := Apply(m, Vec(x, lo)), Apply(m, Vec(x, t)), Apply(m, Vec(x, hi));
      && ((a.x <= q.x <= b.x) || (b.x <= q.x <= a.x))
      && ((a.y <= q.y <= b.y) || (b.y <= q.y <= a.y))
  {
    ColumnCoordinate(m.m11, m.m21, m.tx, x, lo, t, hi);
    ColumnCoordinate(m.m12, m.m22, m.ty, x, lo, t, hi);
  }

  /** A point between the corners' least and greatest coordinates lies in
      the box `Vector2.Min` and `Vector2.Max` make of them. */
  lemma BoxOfCorners(lt: Vec, rt: Vec, lb: Vec, rb: Vec, q: Vec)
    requires Least(Least(lt.x, rt.x), Least(lb.x, rb.x)) <= q.x <= Greatest(Greatest(lt.x, rt.x), Greatest(lb.x, rb.x))
    requires Least(Least(lt.y, rt.y), Least(lb.y, rb.y)) <= q.y <= Greatest(Greatest(lt.y, rt.y), Greatest(lb.y, rb.y))
    ensures InBox(Box(Min(Min(lt, rt), Min(lb, rb)), Max(Max(lt, rt), Max(lb, rb))), q)
  {
  }

  /** A point on the top edge between the two top corners, one on the bottom
      edge between the two bottom corners, and a value between those two
      lies between the least and the greatest corner value. */
  lemma BetweenCorners(lt: real, rt: real, lb: real, rb: real, top: real, bottom: real, q: real)
    requires (lt <= top <= rt) || (rt <= top <= lt)
    requires (lb <= bottom <= rb) || (rb <= bottom <= lb)
    requires (top <= q <= bottom) || (bottom <= q <= top)
    ensures Least(Least(lt, rt), Least(lb, rb)) <= q <= Greatest(Greatest(lt, rt), Greatest(lb, rb))
  {
  }

  /** One coordinate of `Apply` along a row lies between its end values. */
  lemma RowCoordinate(c: real, e: real, k: real, lo: real, t: real, hi: real, y: real)
    requires lo <= t <= hi
    ensures (lo * c + y * e + k <= t * c + y * e + k <= hi * c + y * e + k)
         || (hi * c + y * e + k <= t * c + y * e + k <= lo * c + y * e + k)
  {
    Spread(lo, t, c);
    Spread(t, hi, c);
  }

  /** One coordinate of `Apply` along a column lies between its end values. */
  lemma ColumnCoordinate(c: real, e: real, k: real, x: real, lo: real, t: real, hi: real)
    requires lo <= t <= hi
    ensures (x * c + lo * e + k <= x * c + t * e + k <= x * c + hi * e + k)
         || (x * c + hi * e + k <= x * c + t * e + k <= x * c + lo * e + k)
  {
    Spread(lo, t, e);
    Spread(t, hi, e);
  }

  /** Multiplying an ordered pair by `c` keeps or reverses the order with the sign of `c`. */
  lemma Spread(a: real, b: real, c: real)
    requires a <= b
    ensures 0.0 <= c ==> a * c <= b * c
    ensures c <= 0.0 ==> b * c <= a * c
  {
    var d := b - a;
    assert b * c - a * c == d * c;
    if c >= 0.0 {
      NonNegProduct(d * c, d, c);
    } else {
      NonNegProduct(d * -c, d, -c);
      assert d * -c == -(d * c);
    }
  }

  lemma NonNegProduct(p: real, a: real, b: real)
    requires 0.0 <= a && 0.0 <= b && p == a * b
    ensures 0.0 <= p
  {
  }
}
