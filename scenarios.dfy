/** Concrete sprites worked out in the model: the documented
    bounding-rectangle example, two sprites far apart, two sprites on top of
    each other, a sprite too small for the broad phase, and a pair whose
    narrow-phase result depends on which sprite is scanned. */
module Scenarios {
  import opened Geometry
  import opened Numeric
  import opened Rectangles
  import opened Pixels
  import opened Sprites

  const Upright: Turn := Turn(1.0, 0.0)
  const QuarterTurn: Turn := Turn(0.0, 1.0)

  const White: Color := Color(255, 255, 255, 255)

  /** A 16 by 16 image, centred at (8, 8), doubled and turned a quarter turn
      about that centre at (100, 100), is bounded by the 32 by 32 rectangle
      at (84, 84). */
  lemma QuarterTurnedDoubledRectangle()
    ensures CalculateBoundingRectangle(Rectangle(0, 0, 16, 16),
                                       SpriteTransform(Vec(8.0, 8.0), 2.0, QuarterTurn, Vec(100.0, 100.0)))
      == Rectangle(84, 84, 32, 32)
  {
    var m := Affine(0.0, 2.0, -2.0, 0.0, 116.0, 84.0);
    SpriteTransformEntries(Vec(8.0, 8.0), 2.0, QuarterTurn, Vec(100.0, 100.0));
    QuarterTurnedBox();
    BoundingRectangleOfBox(Rectangle(0, 0, 16, 16), m, Box(Vec(84.0, 84.0), Vec(116.0, 116.0)));
    TruncateOfInteger(84);
    TruncateOfInteger(32);
  }

  lemma QuarterTurnedBox()
    ensures WorldBox(Rectangle(0, 0, 16, 16), Affine(0.0, 2.0, -2.0, 0.0, 116.0, 84.0))
      == Box(Vec(84.0, 84.0), Vec(116.0, 116.0))
  {
  }

  /** Once the world box is known, the bounding rectangle is its truncation. */
  lemma BoundingRectangleOfBox(r: Rectangle, m: Affine, box: Box)
    requires WorldBox(r, m) == box
    ensures CalculateBoundingRectangle(r, m)
      == Rectangle(Truncate(box.lo.x), Truncate(box.lo.y), Truncate(box.hi.x - box.lo.x), Truncate(box.hi.y - box.lo.y))
  {
  }

  /** Unscaled and upright, a sprite without origin is only translated. */
  lemma UprightMap(position: Vec)
    ensures SpriteTransform(Zero, 1.0, Upright, position) == Translation(position)
  {
    SpriteTransformEntries(Zero, 1.0, Upright, position);
  }

  /** An upright, unscaled 16 by 16 image without origin at (50, 50) is
      bounded by its own rectangle placed there. */
  lemma UprightRectangleAt50()
    ensures CalculateBoundingRectangle(Rectangle(0, 0, 16, 16), SpriteTransform(Zero, 1.0, Upright, Vec(50.0, 50.0)))
      == Rectangle(50, 50, 16, 16)
  {
    UprightMap(Vec(50.0, 50.0));
    UprightBoxAt50();
    BoundingRectangleOfBox(Rectangle(0, 0, 16, 16), Translation(Vec(50.0, 50.0)), Box(Vec(50.0, 50.0), Vec(66.0, 66.0)));
    TruncateOfInteger(50);
    TruncateOfInteger(16);
  }

  lemma UprightBoxAt50()
    ensures WorldBox(Rectangle(0, 0, 16, 16), Translation(Vec(50.0, 50.0))) == Box(Vec(50.0, 50.0), Vec(66.0, 66.0))
  {
    var m := Translation(Vec(50.0, 50.0));
    assert Rectangle(0, 0, 16, 16).Right() as real == 16.0 && Rectangle(0, 0, 16, 16).Bottom() as real == 16.0;
    assert Apply(m, Zero) == Vec(50.0, 50.0) && Apply(m, Vec(16.0, 0.0)) == Vec(66.0, 50.0);
    assert Apply(m, Vec(0.0, 16.0)) == Vec(50.0, 66.0) && Apply(m, Vec(16.0, 16.0)) == Vec(66.0, 66.0);
    assert Min(Min(Vec(50.0, 50.0), Vec(66.0, 50.0)), Min(Vec(50.0, 66.0), Vec(66.0, 66.0))) == Vec(50.0, 50.0);
    assert Max(Max(Vec(50.0, 50.0), Vec(66.0, 50.0)), Max(Vec(50.0, 66.0), Vec(66.0, 66.0))) == Vec(66.0, 66.0);
  }

  /** The same image at (200, 50). */
  lemma UprightRectangleAt200()
    ensures CalculateBoundingRectangle(Rectangle(0, 0, 16, 16), SpriteTransform(Zero, 1.0, Upright, Vec(200.0, 50.0)))
      == Rectangle(200, 50, 16, 16)
  {
    UprightMap(Vec(200.0, 50.0));
    UprightBoxAt200();
    BoundingRectangleOfBox(Rectangle(0, 0, 16, 16), Translation(Vec(200.0, 50.0)), Box(Vec(200.0, 50.0), Vec(216.0, 66.0)));
    TruncateOfInteger(200);
    TruncateOfInteger(50);
    TruncateOfInteger(16);
  }

  lemma UprightBoxAt200()
    ensures WorldBox(Rectangle(0, 0, 16, 16), Translation(Vec(200.0, 50.0))) == Box(Vec(200.0, 50.0), Vec(216.0, 66.0))
  {
    var m := Translation(Vec(200.0, 50.0));
    assert Rectangle(0, 0, 16, 16).Right() as real == 16.0 && Rectangle(0, 0, 16, 16).Bottom() as real == 16.0;
    assert Apply(m, Zero) == Vec(200.0, 50.0) && Apply(m, Vec(16.0, 0.0)) == Vec(216.0, 50.0);
    assert Apply(m, Vec(0.0, 16.0)) == Vec(200.0, 66.0) && Apply(m, Vec(16.0, 16.0)) == Vec(216.0, 66.0);
    assert Min(Min(Vec(200.0, 50.0), Vec(216.0, 50.0)), Min(Vec(200.0, 66.0), Vec(216.0, 66.0))) == Vec(200.0, 50.0);
    assert Max(Max(Vec(200.0, 50.0), Vec(216.0, 50.0)), Max(Vec(200.0, 66.0), Vec(216.0, 66.0))) == Vec(216.0, 66.0);
  }

  /** Two upright 16 by 16 sprites at (50, 50) and (200, 50) have disjoint
      bounding rectangles, so the broad phase rejects them. */
  lemma DistantSpritesAreRejected()
    ensures var a := CalculateBoundingRectangle(Rectangle(0, 0, 16, 16),
                                                SpriteTransform(Zero, 1.0, Upright, Vec(50.0, 50.0)));
      var b := CalculateBoundingRectangle(Rectangle(0, 0, 16, 16),
                                          SpriteTransform(Zero, 1.0, Upright, Vec(200.0, 50.0)));
      a == Rectangle(50, 50, 16, 16) && b == Rectangle(200, 50, 16, 16) && !Intersects(a, b)
  {
    UprightRectangleAt50();
    UprightRectangleAt200();
  }

  /** Two sprites that share an image and a placement collide, through both
      phases of `CollisionSprite`, whenever their common bounding rectangle
      is not empty and the image's top-left pixel is visible. */
  method CopiesCollide(a: Sprite, b: Sprite, turn: Turn) returns (hit: bool)
    requires turn.IsRotation() && a.scale != 0.0 && a.image.Valid()
    requires b.origin == a.origin && b.scale == a.scale && b.position == a.position && b.image == a.image
    requires 0 < a.WorldRectangle(turn).width && 0 < a.WorldRectangle(turn).height
    requires 0 < a.image.width && 0 < a.image.height && a.image.data[0].a != 0
    ensures hit
  {
    IntersectsItself(a.WorldRectangle(turn));
    SpriteTransformInvertible(a.origin, a.scale, turn, a.position);
    SamePlacementCollides(a.Transform(turn), a.image.width, a.image.height, a.image.data,
                          a.image.width, a.image.height, a.image.data);
    ghost var pixelsRead;
    hit, pixelsRead := a.CollisionSprite(b, turn, turn);
  }

  lemma IntersectsItself(r: Rectangle)
    requires 0 < r.width && 0 < r.height
    ensures Intersects(r, r)
  {
  }

  /** The broad phase truncates the bounding rectangle, so an opaque
      one-pixel image scaled below one pixel gets a rectangle of width zero.
      Placed at the corner of a 2 by 2 opaque image, that rectangle does not
      intersect the larger one's, yet its pixel lands on an opaque pixel of
      the larger image: the narrow phase alone reports the collision that
      the broad phase rules out. `small` and `large` are the two sprites'
      maps, upright, without origin, at (0, 0), scaled by `scale` and by 1
      (`UprightScaledMap`). */
  lemma BroadPhaseCanRejectSubPixelHit(scale: real)
    requires 0.0 < scale < 1.0
    ensures var small := Affine(scale, 0.0, 0.0, scale, 0.0, 0.0);
      var large := Affine(1.0, 0.0, 0.0, 1.0, 0.0, 0.0);
      var smallRectangle := CalculateBoundingRectangle(Rectangle(0, 0, 1, 1), small);
      var largeRectangle := CalculateBoundingRectangle(Rectangle(0, 0, 2, 2), large);
      && Det(large) != 0.0
      && smallRectangle.width == 0
      && !Intersects(largeRectangle, smallRectangle)
      && AnyHit(AToB(small, large), 1, 1, [White], 2, 2, [White, White, White, White])
  {
    SubPixelRectangle(scale, Affine(scale, 0.0, 0.0, scale, 0.0, 0.0));
    IdentityRectangle(Affine(1.0, 0.0, 0.0, 1.0, 0.0, 0.0));
    SubPixelLandsOnLarge(scale);
  }

  lemma SubPixelRectangle(scale: real, small: Affine)
    requires 0.0 < scale < 1.0 && small == Affine(scale, 0.0, 0.0, scale, 0.0, 0.0)
    ensures var r := CalculateBoundingRectangle(Rectangle(0, 0, 1, 1), small); r.x == 0 && r.width == 0
  {
    ScaledUnitBox(scale, small);
  }

  lemma IdentityRectangle(large: Affine)
    requires large == Affine(1.0, 0.0, 0.0, 1.0, 0.0, 0.0)
    ensures CalculateBoundingRectangle(Rectangle(0, 0, 2, 2), large).x == 0
  {
    IdentityBox(large);
  }

  /** The scaled one-pixel image's only pixel lands on the larger image's
      top-left pixel. */
  lemma SubPixelLandsOnLarge(scale: real)
    ensures Det(Affine(1.0, 0.0, 0.0, 1.0, 0.0, 0.0)) != 0.0
    ensures AnyHit(AToB(Affine(scale, 0.0, 0.0, scale, 0.0, 0.0), Affine(1.0, 0.0, 0.0, 1.0, 0.0, 0.0)),
      1, 1, [White], 2, 2, [White, White, White, White])
  {
    WhiteCornersOpaque();
    OriginsHit(Affine(scale, 0.0, 0.0, scale, 0.0, 0.0), Affine(1.0, 0.0, 0.0, 1.0, 0.0, 0.0));
  }

  /** Two opaque white images whose top-left pixels land on the same spot collide. */
  lemma OriginsHit(small: Affine, large: Affine)
    requires Det(large) != 0.0
    requires Apply(small, Vec(0 as real, 0 as real)) == Apply(large, Vec(0 as real, 0 as real))
    requires IsImage(1, 1, [White]) && IsImage(2, 2, [White, White, White, White])
    requires Opaque(1, 1, [White], 0, 0) && Opaque(2, 2, [White, White, White, White], 0, 0)
    ensures AnyHit(AToB(small, large), 1, 1, [White], 2, 2, [White, White, White, White])
  {
    CoincidentPixelsHit(small, 1, 1, [White], large, 2, 2, [White, White, White, White], 0, 0, 0, 0);
  }

  lemma WhiteCornersOpaque()
    ensures IsImage(1, 1, [White]) && IsImage(2, 2, [White, White, White, White])
    ensures Opaque(1, 1, [White], 0, 0) && Opaque(2, 2, [White, White, White, White], 0, 0)
  {
  }

  /** Upright without origin, a sprite is scaled and then translated. */
  lemma UprightScaledMap(scale: real, position: Vec)
    ensures SpriteTransform(Zero, scale, Upright, position) == Affine(scale, 0.0, 0.0, scale, position.x, position.y)
  {
    SpriteTransformEntries(Zero, scale, Upright, position);
  }

  lemma ScaledUnitBox(scale: real, m: Affine)
    requires 0.0 <= scale && m == Affine(scale, 0.0, 0.0, scale, 0.0, 0.0)
    ensures WorldBox(Rectangle(0, 0, 1, 1), m) == Box(Zero, Vec(scale, scale))
  {
    assert Rectangle(0, 0, 1, 1).Right() as real == 1.0 && Rectangle(0, 0, 1, 1).Bottom() as real == 1.0;
    assert Apply(m, Zero) == Zero && Apply(m, Vec(1.0, 0.0)) == Vec(scale, 0.0);
    assert Apply(m, Vec(0.0, 1.0)) == Vec(0.0, scale) && Apply(m, Vec(1.0, 1.0)) == Vec(scale, scale);
  }

  lemma IdentityBox(identity: Affine)
    requires identity == Affine(1.0, 0.0, 0.0, 1.0, 0.0, 0.0)
    ensures WorldBox(Rectangle(0, 0, 2, 2), identity) == Box(Zero, Vec(2.0, 2.0))
  {
    assert Rectangle(0, 0, 2, 2).Right() as real == 2.0 && Rectangle(0, 0, 2, 2).Bottom() as real == 2.0;
    assert Apply(identity, Zero) == Zero && Apply(identity, Vec(2.0, 0.0)) == Vec(2.0, 0.0);
    assert Apply(identity, Vec(0.0, 2.0)) == Vec(0.0, 2.0) && Apply(identity, Vec(2.0, 2.0)) == Vec(2.0, 2.0);
    assert Min(Min(Zero, Vec(2.0, 0.0)), Min(Vec(0.0, 2.0), Vec(2.0, 2.0))) == Zero;
    assert Max(Max(Zero, Vec(2.0, 0.0)), Max(Vec(0.0, 2.0), Vec(2.0, 2.0))) == Vec(2.0, 2.0);
  }

  /** The narrow phase depends on which image is scanned. A is a 1 by 1
      opaque image scaled by 2 at (0, 0); B is a 1 by 1 opaque image at
      (1, 1) (`UprightScaledMap` gives both maps). Their bounding rectangles
      (0, 0, 2, 2) and (1, 1, 1, 1) intersect. Scanning A into B puts A's
      pixel at (-1, -1), outside B; scanning B into A puts B's pixel at
      (0.5, 0.5), which rounds half to even onto A's pixel (0, 0). */
  lemma ScanDirectionMatters()
    ensures Det(Affine(2.0, 0.0, 0.0, 2.0, 0.0, 0.0)) != 0.0 && Det(Affine(1.0, 0.0, 0.0, 1.0, 1.0, 1.0)) != 0.0
    ensures !AnyHit(AToB(Affine(2.0, 0.0, 0.0, 2.0, 0.0, 0.0), Affine(1.0, 0.0, 0.0, 1.0, 1.0, 1.0)),
                    1, 1, [White], 1, 1, [White])
    ensures AnyHit(AToB(Affine(1.0, 0.0, 0.0, 1.0, 1.0, 1.0), Affine(2.0, 0.0, 0.0, 2.0, 0.0, 0.0)),
                   1, 1, [White], 1, 1, [White])
  {
    DoubledMissesShifted();
    ShiftedHitsDoubled();
  }

  /** The two sprites of `ScanDirectionMatters` pass the broad phase. */
  lemma ScannedPairOverlaps()
    ensures CalculateBoundingRectangle(Rectangle(0, 0, 1, 1), SpriteTransform(Zero, 2.0, Upright, Zero)) == Rectangle(0, 0, 2, 2)
    ensures CalculateBoundingRectangle(Rectangle(0, 0, 1, 1), SpriteTransform(Zero, 1.0, Upright, Vec(1.0, 1.0)))
      == Rectangle(1, 1, 1, 1)
    ensures Intersects(CalculateBoundingRectangle(Rectangle(0, 0, 1, 1), SpriteTransform(Zero, 1.0, Upright, Vec(1.0, 1.0))),
                       CalculateBoundingRectangle(Rectangle(0, 0, 1, 1), SpriteTransform(Zero, 2.0, Upright, Zero)))
  {
    DoubledSpriteRectangle();
    ShiftedSpriteRectangle();
    OverlappingUnitRectangles(CalculateBoundingRectangle(Rectangle(0, 0, 1, 1), SpriteTransform(Zero, 2.0, Upright, Zero)),
                              CalculateBoundingRectangle(Rectangle(0, 0, 1, 1), SpriteTransform(Zero, 1.0, Upright, Vec(1.0, 1.0))));
  }

  lemma OverlappingUnitRectangles(a: Rectangle, b: Rectangle)
    requires a == Rectangle(0, 0, 2, 2) && b == Rectangle(1, 1, 1, 1)
    ensures Intersects(b, a)
  {
  }

  lemma DoubledSpriteRectangle()
    ensures CalculateBoundingRectangle(Rectangle(0, 0, 1, 1), SpriteTransform(Zero, 2.0, Upright, Zero)) == Rectangle(0, 0, 2, 2)
  {
    UprightScaledMap(2.0, Zero);
    DoubledUnitRectangle();
  }

  lemma ShiftedSpriteRectangle()
    ensures CalculateBoundingRectangle(Rectangle(0, 0, 1, 1), SpriteTransform(Zero, 1.0, Upright, Vec(1.0, 1.0)))
      == Rectangle(1, 1, 1, 1)
  {
    UprightScaledMap(1.0, Vec(1.0, 1.0));
    ShiftedUnitRectangle();
  }

  lemma DoubledUnitRectangle()
    ensures CalculateBoundingRectangle(Rectangle(0, 0, 1, 1), Affine(2.0, 0.0, 0.0, 2.0, 0.0, 0.0)) == Rectangle(0, 0, 2, 2)
  {
    ScaledUnitBox(2.0, Affine(2.0, 0.0, 0.0, 2.0, 0.0, 0.0));
    BoundingRectangleOfBox(Rectangle(0, 0, 1, 1), Affine(2.0, 0.0, 0.0, 2.0, 0.0, 0.0), Box(Zero, Vec(2.0, 2.0)));
    TruncateOfInteger(0);
    TruncateOfInteger(2);
  }

  lemma ShiftedUnitRectangle()
    ensures CalculateBoundingRectangle(Rectangle(0, 0, 1, 1), Affine(1.0, 0.0, 0.0, 1.0, 1.0, 1.0)) == Rectangle(1, 1, 1, 1)
  {
    ShiftedUnitBox(Affine(1.0, 0.0, 0.0, 1.0, 1.0, 1.0));
    BoundingRectangleOfBox(Rectangle(0, 0, 1, 1), Affine(1.0, 0.0, 0.0, 1.0, 1.0, 1.0), Box(Vec(1.0, 1.0), Vec(2.0, 2.0)));
    TruncateOfInteger(1);
  }

  lemma ShiftedUnitBox(m: Affine)
    requires m == Affine(1.0, 0.0, 0.0, 1.0, 1.0, 1.0)
    ensures WorldBox(Rectangle(0, 0, 1, 1), m) == Box(Vec(1.0, 1.0), Vec(2.0, 2.0))
  {
    assert Rectangle(0, 0, 1, 1).Right() as real == 1.0 && Rectangle(0, 0, 1, 1).Bottom() as real == 1.0;
    assert Apply(m, Zero) == Vec(1.0, 1.0) && Apply(m, Vec(1.0, 0.0)) == Vec(2.0, 1.0);
    assert Apply(m, Vec(0.0, 1.0)) == Vec(1.0, 2.0) && Apply(m, Vec(1.0, 1.0)) == Vec(2.0, 2.0);
    assert Min(Min(Vec(1.0, 1.0), Vec(2.0, 1.0)), Min(Vec(1.0, 2.0), Vec(2.0, 2.0))) == Vec(1.0, 1.0);
    assert Max(Max(Vec(1.0, 1.0), Vec(2.0, 1.0)), Max(Vec(1.0, 2.0), Vec(2.0, 2.0))) == Vec(2.0, 2.0);
  }

  /** A's only pixel lands at (-1, -1) in B's grid, outside B. */
  lemma DoubledMissesShifted()
    ensures Det(Affine(1.0, 0.0, 0.0, 1.0, 1.0, 1.0)) != 0.0
    ensures !AnyHit(AToB(Affine(2.0, 0.0, 0.0, 2.0, 0.0, 0.0), Affine(1.0, 0.0, 0.0, 1.0, 1.0, 1.0)),
                    1, 1, [White], 1, 1, [White])
  {
    var aToB := AToB(Affine(2.0, 0.0, 0.0, 2.0, 0.0, 0.0), Affine(1.0, 0.0, 0.0, 1.0, 1.0, 1.0));
    assert Invert(Affine(1.0, 0.0, 0.0, 1.0, 1.0, 1.0)) == Affine(1.0, 0.0, 0.0, 1.0, -1.0, -1.0);
    assert aToB == Affine(2.0, 0.0, 0.0, 2.0, -1.0, -1.0);
    assert PositionInB(aToB, 0, 0) == Vec(-1.0, -1.0);
    RoundOfInteger(-1);
    assert !HitAt(aToB, 1, 1, [White], 1, 1, [White], 0, 0);
  }

  /** B's only pixel lands at (0.5, 0.5) in A's grid, which rounds to (0, 0). */
  lemma ShiftedHitsDoubled()
    ensures Det(Affine(2.0, 0.0, 0.0, 2.0, 0.0, 0.0)) != 0.0
    ensures AnyHit(AToB(Affine(1.0, 0.0, 0.0, 1.0, 1.0, 1.0), Affine(2.0, 0.0, 0.0, 2.0, 0.0, 0.0)),
                   1, 1, [White], 1, 1, [White])
  {
    var aToB := AToB(Affine(1.0, 0.0, 0.0, 1.0, 1.0, 1.0), Affine(2.0, 0.0, 0.0, 2.0, 0.0, 0.0));
    assert Invert(Affine(2.0, 0.0, 0.0, 2.0, 0.0, 0.0)) == Affine(0.5, 0.0, 0.0, 0.5, 0.0, 0.0);
    assert aToB == Affine(0.5, 0.0, 0.0, 0.5, 0.5, 0.5);
    assert PositionInB(aToB, 0, 0) == Vec(0.5, 0.5);
    assert RoundHalfEven(0.5) == 0;
    WhiteCornersOpaque();
    assert HitAt(aToB, 1, 1, [White], 1, 1, [White], 0, 0);
  }
}
