/** The narrow phase of sprite collision (`Sprite.IntersectPixels`): walk
    every pixel of image A, find where it lands in image B's pixel grid, and
    report whether some pixel of A that is not fully transparent lands on a
    pixel of B that is not fully transparent either. */
module Pixels {
  import opened Geometry
  import opened Numeric

  newtype byte = n: int | 0 <= n < 256

  /** XNA `Color`; only the alpha channel takes part in collision. */
  datatype Color = Color(r: byte, g: byte, b: byte, a: byte)

  /** A row-major colour buffer holding exactly `width * height` pixels. */
  predicate IsImage(width: nat, height: nat, data: seq<Color>) {
    |data| == width * height
  }

  /** Pixel (x, y) of a row-major image sits at `x + y * width`, inside the buffer. */
  lemma PixelIndexInRange(x: int, y: int, width: int, height: int)
    requires 0 <= x < width && 0 <= y < height
    ensures 0 <= x + y * width < width * height
  {
    assert y * width <= (height - 1) * width by {
      assert (height - 1 - y) * width >= 0;
    }
  }

  /** The pixel at (x, y) is not completely transparent. */
  predicate Opaque(width: nat, height: nat, data: seq<Color>, x: int, y: int)
    requires IsImage(width, height, data) && 0 <= x < width && 0 <= y < height
  {
    PixelIndexInRange(x, y, width, height);
    data[x + y * width].a != 0
  }

  /** The map from A's local space to B's local space: through world space,
      then back through the inverse of B's map. */
  function AToB(transformA: Affine, transformB: Affine): Affine
    requires Det(transformB) != 0.0
  {
    Compose(transformA, Invert(transformB))
  }

  /** Where pixel (xA, yA) of A lands in B's local space. */
  function PositionInB(aToB: Affine, xA: int, yA: int): Vec {
    Apply(aToB, Vec(xA as real, yA as real))
  }

  /** Pixel (xA, yA) of A, rounded to the nearest pixel of B, lands inside
      B on a pixel that is, like it, not completely transparent. */
  predicate HitAt(aToB: Affine, widthA: nat, heightA: nat, dataA: seq<Color>,
                  widthB: nat, heightB: nat, dataB: seq<Color>, xA: int, yA: int)
    requires IsImage(widthA, heightA, dataA) && IsImage(widthB, heightB, dataB)
    requires 0 <= xA < widthA && 0 <= yA < heightA
  {
    var p := PositionInB(aToB, xA, yA);
    var xB, yB := RoundHalfEven(p.x), RoundHalfEven(p.y);
    && 0 <= xB < widthB && 0 <= yB < heightB
    && Opaque(widthA, heightA, dataA, xA, yA) && Opaque(widthB, heightB, dataB, xB, yB)
  }

  /** Some pixel of A is a hit. */
  ghost predicate AnyHit(aToB: Affine, widthA: nat, heightA: nat, dataA: seq<Color>,
                         widthB: nat, heightB: nat, dataB: seq<Color>)
    requires IsImage(widthA, heightA, dataA) && IsImage(widthB, heightB, dataB)
  {
    exists xA, yA :: 0 <= xA < widthA && 0 <= yA < heightA
      && HitAt(aToB, widthA, heightA, dataA, widthB, heightB, dataB, xA, yA)
  }

  /** Moving one pixel right in A moves by the fixed step `stepX` in B. */
  lemma StepRight(m: Affine, xA: int, yA: int)
    ensures PositionInB(m, xA + 1, yA) == Add(PositionInB(m, xA, yA), ApplyNormal(m, UnitX))
  {
    var x, y := xA as real, yA as real;
    var p, q, step := PositionInB(m, xA, yA), PositionInB(m, xA + 1, yA), ApplyNormal(m, UnitX);
    assert q == Vec((x + 1.0) * m.m11 + y * m.m21 + m.tx, (x + 1.0) * m.m12 + y * m.m22 + m.ty);
    assert p == Vec(x * m.m11 + y * m.m21 + m.tx, x * m.m12 + y * m.m22 + m.ty);
    assert step == Vec(1.0 * m.m11 + 0.0 * m.m21, 1.0 * m.m12 + 0.0 * m.m22);
    RowStep(x, y, m.m11, m.m21, m.tx);
    RowStep(x, y, m.m12, m.m22, m.ty);
  }

  /** Moving one row down in A moves the row start by the fixed step `stepY` in B. */
  lemma StepDown(m: Affine, xA: int, yA: int)
    ensures PositionInB(m, xA, yA + 1) == Add(PositionInB(m, xA, yA), ApplyNormal(m, UnitY))
  {
    var x, y := xA as real, yA as real;
    var p, q, step := PositionInB(m, xA, yA), PositionInB(m, xA, yA + 1), ApplyNormal(m, UnitY);
    assert q == Vec(x * m.m11 + (y + 1.0) * m.m21 + m.tx, x * m.m12 + (y + 1.0) * m.m22 + m.ty);
    assert p == Vec(x * m.m11 + y * m.m21 + m.tx, x * m.m12 + y * m.m22 + m.ty);
    assert step == Vec(0.0 * m.m11 + 1.0 * m.m21, 0.0 * m.m12 + 1.0 * m.m22);
    ColumnStep(x, y, m.m11, m.m21, m.tx);
    ColumnStep(x, y, m.m12, m.m22, m.ty);
  }

  /** One coordinate of `Apply`, with x moved on by one. */
  lemma RowStep(x: real, y: real, c: real, e: real, t: real)
    ensures (x + 1.0) * c + y * e + t == (x * c + y * e + t) + (1.0 * c + 0.0 * e)
  {
    Distribute(x, c);
  }

  /** One coordinate of `Apply`, with y moved on by one. */
  lemma ColumnStep(x: real, y: real, c: real, e: real, t: real)
    ensures x * c + (y + 1.0) * e + t == (x * c + y * e + t) + (0.0 * c + 1.0 * e)
  {
    Distribute(y, e);
  }

  lemma Distribute(k: real, c: real)
    ensures (k + 1.0) * c == k * c + c
  {
  }

  /** `Sprite.IntersectPixels`. The position in B is carried incrementally,
      one step per pixel and one per row, as the source does; the result is
      exactly whether some pixel of A is a hit. */
  method IntersectPixels(transformA: Affine, widthA: nat, heightA: nat, dataA: seq<Color>,
                         transformB: Affine, widthB: nat, heightB: nat, dataB: seq<Color>)
    returns (hit: bool)
    requires Det(transformB) != 0.0
    requires IsImage(widthA, heightA, dataA) && IsImage(widthB, heightB, dataB)
    ensures hit <==> AnyHit(AToB(transformA, transformB), widthA, heightA, dataA, widthB, heightB, dataB)
  {
    var transformAToB := Compose(transformA, Invert(transformB));
    var stepX := ApplyNormal(transformAToB, UnitX);
    var stepY := ApplyNormal(transformAToB, UnitY);
    var yPosInB := Apply(transformAToB, Zero);
    var yA := 0;
    while yA < heightA
      invariant 0 <= yA <= heightA
      invariant yPosInB == PositionInB(transformAToB, 0, yA)
      invariant forall y, x :: 0 <= y < yA && 0 <= x < widthA ==>
        !HitAt(transformAToB, widthA, heightA, dataA, widthB, heightB, dataB, x, y)
    {
      var posInB := yPosInB;
      var xA := 0;
      while xA < widthA
        invariant 0 <= xA <= widthA
        invariant posInB == PositionInB(transformAToB, xA, yA)
        invariant forall x :: 0 <= x < xA ==>
          !HitAt(transformAToB, widthA, heightA, dataA, widthB, heightB, dataB, x, yA)
      {
        var xB := RoundHalfEven(posInB.x);
        var yB := RoundHalfEven(posInB.y);
        if 0 <= xB < widthB && 0 <= yB < heightB {
          PixelIndexInRange(xA, yA, widthA, heightA);
          PixelIndexInRange(xB, yB, widthB, heightB);
          var colorA := dataA[xA + yA * widthA];
          var colorB := dataB[xB + yB * widthB];
          if colorA.a != 0 && colorB.a != 0 {
            assert HitAt(transformAToB, widthA, heightA, dataA, widthB, heightB, dataB, xA, yA);
            return true;
          }
        }
        StepRight(transformAToB, xA, yA);
        posInB := Add(posInB, stepX);
        xA := xA + 1;
      }
      StepDown(transformAToB, 0, yA);
      yPosInB := Add(yPosInB, stepY);
      yA := yA + 1;
    }
    return false;
  }

  /** A fully transparent image A never collides. */
  lemma TransparentANeverHits(aToB: Affine, widthA: nat, heightA: nat, dataA: seq<Color>,
                              widthB: nat, heightB: nat, dataB: seq<Color>)
    requires IsImage(widthA, heightA, dataA) && IsImage(widthB, heightB, dataB)
    requires forall i :: 0 <= i < |dataA| ==> dataA[i].a == 0
    ensures !AnyHit(aToB, widthA, heightA, dataA, widthB, heightB, dataB)
  {
    forall xA, yA | 0 <= xA < widthA && 0 <= yA < heightA
      ensures !HitAt(aToB, widthA, heightA, dataA, widthB, heightB, dataB, xA, yA)
    {
      PixelIndexInRange(xA, yA, widthA, heightA);
    }
  }

  /** A fully transparent image B is never hit. */
  lemma TransparentBNeverHit(aToB: Affine, widthA: nat, heightA: nat, dataA: seq<Color>,
                             widthB: nat, heightB: nat, dataB: seq<Color>)
    requires IsImage(widthA, heightA, dataA) && IsImage(widthB, heightB, dataB)
    requires forall i :: 0 <= i < |dataB| ==> dataB[i].a == 0
    ensures !AnyHit(aToB, widthA, heightA, dataA, widthB, heightB, dataB)
  {
    forall xA, yA | 0 <= xA < widthA && 0 <= yA < heightA
      ensures !HitAt(aToB, widthA, heightA, dataA, widthB, heightB, dataB, xA, yA)
    {
      var p := PositionInB(aToB, xA, yA);
      var xB, yB := RoundHalfEven(p.x), RoundHalfEven(p.y);
      if 0 <= xB < widthB && 0 <= yB < heightB {
        PixelIndexInRange(xB, yB, widthB, heightB);
      }
    }
  }

  /** When a pixel of A and a pixel of B, neither transparent, sit on the
      same world point, the narrow phase reports a collision. */
  lemma CoincidentPixelsHit(transformA: Affine, widthA: nat, heightA: nat, dataA: seq<Color>,
                            transformB: Affine, widthB: nat, heightB: nat, dataB: seq<Color>,
                            xA: int, yA: int, xB: int, yB: int)
    requires Det(transformB) != 0.0
    requires IsImage(widthA, heightA, dataA) && IsImage(widthB, heightB, dataB)
    requires 0 <= xA < widthA && 0 <= yA < heightA && 0 <= xB < widthB && 0 <= yB < heightB
    requires Opaque(widthA, heightA, dataA, xA, yA) && Opaque(widthB, heightB, dataB, xB, yB)
    requires Apply(transformA, Vec(xA as real, yA as real)) == Apply(transformB, Vec(xB as real, yB as real))
    ensures AnyHit(AToB(transformA, transformB), widthA, heightA, dataA, widthB, heightB, dataB)
  {
    var m := AToB(transformA, transformB);
    var world := Apply(transformA, Vec(xA as real, yA as real));
    ApplyCompose(transformA, Invert(transformB), Vec(xA as real, yA as real));
    InvertUndoesApply(transformB, Vec(xB as real, yB as real));
    assert PositionInB(m, xA, yA) == Vec(xB as real, yB as real);
    RoundOfInteger(xB);
    RoundOfInteger(yB);
    assert HitAt(m, widthA, heightA, dataA, widthB, heightB, dataB, xA, yA);
  }
}
