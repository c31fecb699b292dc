/** The `Sprite` class: its state, the two-phase collision test against
    another sprite, the per-tick update with and without the viewport
    bounce, the off-screen query and the velocity nudges. */
module Sprites {
  import opened Geometry
  import opened Numeric
  import opened Rectangles
  import opened Pixels

  /** An XNA `Texture2D` as far as this code uses it: its size and its
      colour buffer, shared by every sprite that was given it. */
  datatype Texture = Texture(width: nat, height: nat, data: seq<Color>) {
    predicate Valid() { IsImage(width, height, data) }
  }

  /** XNA `SpriteEffects`: how the image is flipped when drawn. */
  datatype SpriteEffects = NoEffect | FlipHorizontally | FlipVertically

  /** The seconds a tick advances by: the millisecond COMPONENT of the
      elapsed time (`TimeSpan.Milliseconds`, 0 to 999), over 1000. */
  function ElapsedSeconds(elapsedMilliseconds: nat): (dt: real)
    ensures 0.0 <= dt < 1.0
  {
    (elapsedMilliseconds % 1000) as real / 1000.0
  }

  /** A whole second of elapsed time advances the sprite by nothing, because
      only the millisecond component of the elapsed time is read. */
  lemma WholeSecondsAreDropped(elapsedMilliseconds: nat, seconds: nat)
    ensures ElapsedSeconds(elapsedMilliseconds + 1000 * seconds) == ElapsedSeconds(elapsedMilliseconds)
  {
    assert (elapsedMilliseconds + 1000 * seconds) % 1000 == elapsedMilliseconds % 1000;
  }

  /** The rotation after one tick: turned by the rotation speed over the
      elapsed seconds, then reduced by the float remainder modulo 2π, which
      keeps the sign of the turned angle. */
  function Spin(rotation: real, rotationSpeed: real, elapsedMilliseconds: nat): (r: real)
    ensures Abs(r) < TwoPi
    ensures var turned := rotation + rotationSpeed * ElapsedSeconds(elapsedMilliseconds);
      (0.0 <= turned ==> 0.0 <= r) && (turned <= 0.0 ==> r <= 0.0)
  {
    FloatRem(rotation + rotationSpeed * ElapsedSeconds(elapsedMilliseconds), TwoPi)
  }

  /** The spin differs from the turned angle by a whole number of turns, and
      equals it when the turned angle is still inside one turn. */
  lemma SpinIsTurnModuloTwoPi(rotation: real, rotationSpeed: real, elapsedMilliseconds: nat)
    ensures var turned := rotation + rotationSpeed * ElapsedSeconds(elapsedMilliseconds);
      var k := (turned - Spin(rotation, rotationSpeed, elapsedMilliseconds)) / TwoPi;
      && k.Floor as real == k
      && (Abs(turned) < TwoPi ==> Spin(rotation, rotationSpeed, elapsedMilliseconds) == turned)
  {
    var turned := rotation + rotationSpeed * ElapsedSeconds(elapsedMilliseconds);
    if Abs(turned) < TwoPi {
      FloatRemKeepsReduced(turned, TwoPi);
    }
  }

  /** Position and velocity together, as the boundary bounce updates them. */
  datatype Motion = Motion(position: Vec, velocity: Vec)

  /** The four clamp-and-negate checks of the bounded update, in the
      source's order: bottom, right, top, left. The bottom, right and top
      margins are the origin scaled by `scale`; the left margin is the
      unscaled `origin.x`. */
  function Bounce(m: Motion, origin: Vec, scale: real, width: real, height: real): Motion {
    BounceWithin(m, ViewportMargins(origin, scale, width, height))
  }

  /** Where the sprite's position may lie on each side of the viewport. */
  datatype Margins = Margins(left: real, top: real, right: real, bottom: real)

  function ViewportMargins(origin: Vec, scale: real, width: real, height: real): Margins {
    Margins(origin.x, origin.y * scale, width - origin.x * scale, height - origin.y * scale)
  }

  function BounceWithin(m: Motion, margins: Margins): Motion {
    ClampLeft(ClampTop(ClampRight(ClampBottom(m, margins.bottom), margins.right), margins.top), margins.left)
  }

  /** Below the bottom margin: put on it and reverse vertically. */
  function ClampBottom(m: Motion, margin: real): Motion {
    if m.position.y > margin then Motion(Vec(m.position.x, margin), Vec(m.velocity.x, -m.velocity.y)) else m
  }

  /** Past the right margin: put on it and reverse horizontally. */
  function ClampRight(m: Motion, margin: real): Motion {
    if m.position.x > margin then Motion(Vec(margin, m.position.y), Vec(-m.velocity.x, m.velocity.y)) else m
  }

  /** Above the top margin: put on it and reverse vertically. */
  function ClampTop(m: Motion, margin: real): Motion {
    if m.position.y < margin then Motion(Vec(m.position.x, margin), Vec(m.velocity.x, -m.velocity.y)) else m
  }

  /** Left of the left margin: put on it and reverse horizontally. */
  function ClampLeft(m: Motion, margin: real): Motion {
    if m.position.x < margin then Motion(Vec(margin, m.position.y), Vec(-m.velocity.x, m.velocity.y)) else m
  }

  /** After the bounce the sprite is never above the top margin nor left of
      the left margin; it is also inside the bottom and right margins
      whenever those leave room for it. */
  lemma BounceKeepsInside(m: Motion, origin: Vec, scale: real, width: real, height: real)
    ensures var b := Bounce(m, origin, scale, width, height);
      && b.position.y >= origin.y * scale
      && b.position.x >= origin.x
      && (origin.y * scale <= height - origin.y * scale ==> b.position.y <= height - origin.y * scale)
      && (origin.x <= width - origin.x * scale ==> b.position.x <= width - origin.x * scale)
  {
  }

  /** The bounce is lossless: each velocity component ends as it was or negated. */
  lemma BounceOnlyReflects(m: Motion, origin: Vec, scale: real, width: real, height: real)
    ensures var b := Bounce(m, origin, scale, width, height);
      && (b.velocity.x == m.velocity.x || b.velocity.x == -m.velocity.x)
      && (b.velocity.y == m.velocity.y || b.velocity.y == -m.velocity.y)
  {
  }

  /** A sprite already inside all four margins is left untouched. */
  lemma BounceLeavesInsideAlone(m: Motion, origin: Vec, scale: real, width: real, height: real)
    requires origin.y * scale <= m.position.y <= height - origin.y * scale
    requires origin.x <= m.position.x <= width - origin.x * scale
    ensures Bounce(m, origin, scale, width, height) == m
  {
  }

  /** The two axes are handled independently: the horizontal outcome depends
      only on the horizontal position and velocity, and likewise vertically. */
  lemma BounceAxesIndependent(m: Motion, n: Motion, origin: Vec, scale: real, width: real, height: real)
    ensures var bm, bn := Bounce(m, origin, scale, width, height), Bounce(n, origin, scale, width, height);
      && (m.position.x == n.position.x && m.velocity.x == n.velocity.x ==>
            bm.position.x == bn.position.x && bm.velocity.x == bn.velocity.x)
      && (m.position.y == n.position.y && m.velocity.y == n.velocity.y ==>
            bm.position.y == bn.position.y && bm.velocity.y == bn.velocity.y)
  {
  }

  /** Past the bottom margin, with room between the margins, the sprite is
      put on the bottom margin and its vertical velocity flips; the
      horizontal motion is untouched when it is inside horizontally. */
  lemma BottomBounce(m: Motion, origin: Vec, scale: real, width: real, height: real)
    requires m.position.y > height - origin.y * scale >= origin.y * scale
    requires origin.x <= m.position.x <= width - origin.x * scale
    ensures Bounce(m, origin, scale, width, height)
      == Motion(Vec(m.position.x, height - origin.y * scale), Vec(m.velocity.x, -m.velocity.y))
  {
  }

  /** The left check uses the unscaled origin: with a scale below 1, a sprite
      that is inside the scaled left margin is still pushed out to `origin.x`. */
  lemma LeftMarginIsUnscaled(m: Motion, origin: Vec, scale: real, width: real, height: real)
    requires origin.x * scale <= m.position.x < origin.x
    requires m.position.x <= width - origin.x * scale
    requires origin.y * scale <= m.position.y <= height - origin.y * scale
    ensures Bounce(m, origin, scale, width, height)
      == Motion(Vec(origin.x, m.position.y), Vec(-m.velocity.x, m.velocity.y))
  {
  }

  /** `Sprite.isOffScreen`: the unscaled extent position ± origin lies wholly
      beyond one of the four viewport edges. */
  predicate OffScreen(position: Vec, origin: Vec, width: int, height: int) {
    || position.x + origin.x < 0.0 || position.x - origin.x > width as real
    || position.y + origin.y < 0.0 || position.y - origin.y > height as real
  }

  predicate InExtent(position: Vec, origin: Vec, p: Vec) {
    && position.x - origin.x <= p.x <= position.x + origin.x
    && position.y - origin.y <= p.y <= position.y + origin.y
  }

  predicate InViewport(width: int, height: int, p: Vec) {
    0.0 <= p.x <= width as real && 0.0 <= p.y <= height as real
  }

  /** Off screen exactly when no point of the sprite's extent is in the viewport. */
  lemma OffScreenIffDisjoint(position: Vec, origin: Vec, width: int, height: int)
    requires origin.x >= 0.0 && origin.y >= 0.0 && width >= 0 && height >= 0
    ensures OffScreen(position, origin, width, height)
      <==> !exists p :: InExtent(position, origin, p) && InViewport(width, height, p)
  {
    if !OffScreen(position, origin, width, height) {
      var px := if position.x < 0.0 then 0.0 else if position.x > width as real then width as real else position.x;
      var py := if position.y < 0.0 then 0.0 else if position.y > height as real then height as real else position.y;
      assert InExtent(position, origin, Vec(px, py)) && InViewport(width, height, Vec(px, py));
    }
  }

  /** A sprite the bounce has acted on is never reported off screen, when its
      margins fit in the viewport. */
  lemma BouncedIsOnScreen(m: Motion, origin: Vec, scale: real, width: int, height: int)
    requires origin.x >= 0.0 && origin.y >= 0.0 && scale >= 0.0
    requires origin.x <= width as real - origin.x * scale
    requires origin.y * scale <= height as real - origin.y * scale
    ensures !OffScreen(Bounce(m, origin, scale, width as real, height as real).position, origin, width, height)
  {
    BounceKeepsInside(m, origin, scale, width as real, height as real);
    NonNegProduct(origin.x * scale, origin.x, scale);
    NonNegProduct(origin.y * scale, origin.y, scale);
  }

  class Sprite {
    var initialVelocity: Vec
    var origin: Vec
    var position: Vec
    var velocity: Vec
    var acceleration: Vec
    var force: Vec
    var image: Texture
    var rotation: real
    var rotationSpeed: real
    var scale: real
    var spriteEffect: SpriteEffects
    var useOrigin: bool
    var alive: bool
    var mass: real

    /** The initial state: the given velocity is also the nudge size, force,
        acceleration and mass start at zero, the origin is the image centre
        (integer halves of the size) or zero, and the sprite is alive. */
    constructor (textureImage: Texture, position: Vec, velocity: Vec, useOrigin: bool,
                 rotationSpeed: real, scale: real, spriteEffect: SpriteEffects)
      ensures this.initialVelocity == velocity && this.velocity == velocity
      ensures this.position == position && this.scale == scale
      ensures this.rotationSpeed == rotationSpeed && this.useOrigin == useOrigin
      ensures this.spriteEffect == spriteEffect && this.image == textureImage
      ensures force == Zero && acceleration == Zero && mass == 0.0
      ensures origin == if useOrigin then Vec((textureImage.width / 2) as real, (textureImage.height / 2) as real)
                        else Zero
      ensures rotation == 0.0 && alive
    {
      this.initialVelocity := velocity;
      this.velocity := velocity;
      this.position := position;
      this.scale := scale;
      this.rotationSpeed := rotationSpeed;
      this.useOrigin := useOrigin;
      this.spriteEffect := spriteEffect;
      this.image := textureImage;
      force := Zero;
      acceleration := Zero;
      mass := 0.0;
      if useOrigin {
        origin := Vec((textureImage.width / 2) as real, (textureImage.height / 2) as real);
      } else {
        origin := Zero;
      }
      rotation := 0.0;
      alive := true;
    }

    /** `CollisionRectangle`: the image's rectangle placed at the position,
        shifted back by the scaled origin and scaled, truncated to `int`:
        each of its four numbers is within one of the exact value. */
    function CollisionRectangle(): (r: Rectangle)
      reads this
      ensures Abs(r.x as real - (position.x - origin.x * scale)) < 1.0
      ensures Abs(r.y as real - (position.y - origin.y * scale)) < 1.0
      ensures Abs(r.width as real - image.width as real * scale) < 1.0
      ensures Abs(r.height as real - image.height as real * scale) < 1.0
    {
      Rectangle(Truncate(position.x - origin.x * scale), Truncate(position.y - origin.y * scale),
                Truncate(image.width as real * scale), Truncate(image.height as real * scale))
    }

    /** `CollisionMouse`: the point is inside `CollisionRectangle`. */
    predicate CollisionMouse(x: int, y: int)
      reads this
    {
      Contains(CollisionRectangle(), x, y)
    }

    /** The local-to-world map of this sprite, given the cosine and sine of
        its rotation. */
    function Transform(turn: Turn): Affine
      reads this
    {
      SpriteTransform(origin, scale, turn, position)
    }

    /** The world-space bounding rectangle of this sprite's whole image. */
    function WorldRectangle(turn: Turn): Rectangle
      reads this
    {
      CalculateBoundingRectangle(Rectangle(0, 0, image.width, image.height), Transform(turn))
    }

    /** `CollisionSprite`: the broad phase compares the two world bounding
        rectangles; only if they intersect are both images' pixels read and
        the narrow phase run, scanning `sprite`'s pixels into this sprite's
        grid. `spriteTurn` and `thisTurn` are the cosine and sine of the two
        rotations; `pixelsRead` records whether the colour data was fetched. */
    method CollisionSprite(sprite: Sprite, thisTurn: Turn, spriteTurn: Turn)
      returns (hit: bool, ghost pixelsRead: bool)
      requires thisTurn.IsRotation() && scale != 0.0
      requires image.Valid() && sprite.image.Valid()
      ensures pixelsRead == Intersects(WorldRectangle(thisTurn), sprite.WorldRectangle(spriteTurn))
      ensures !pixelsRead ==> !hit
      ensures pixelsRead ==>
        (SpriteTransformInvertible(origin, scale, thisTurn, position);
         hit == AnyHit(AToB(sprite.Transform(spriteTurn), Transform(thisTurn)),
                       sprite.image.width, sprite.image.height, sprite.image.data,
                       image.width, image.height, image.data))
    {
      hit := false;
      var spriteTransform := SpriteTransform(sprite.origin, sprite.scale, spriteTurn, sprite.position);
      var thisTransform := SpriteTransform(origin, scale, thisTurn, position);
      var spriteRectangle := CalculateBoundingRectangle(Rectangle(0, 0, sprite.image.width, sprite.image.height),
                                                        spriteTransform);
      var thisRectangle := CalculateBoundingRectangle(Rectangle(0, 0, image.width, image.height), thisTransform);
      pixelsRead := false;
      if Intersects(thisRectangle, spriteRectangle) {
        var thisTextureData := image.data;
        var spriteTextureData := sprite.image.data;
        pixelsRead := true;
        SpriteTransformInvertible(origin, scale, thisTurn, position);
        var pixelHit := IntersectPixels(spriteTransform, sprite.image.width, sprite.image.height, spriteTextureData,
                                        thisTransform, image.width, image.height, thisTextureData);
        if pixelHit {
          hit := true;
        }
      }
    }

    /** `Update(GameTime)`: a live sprite takes the position and velocity the
        external integrator computed, then turns by its rotation speed over
        the elapsed seconds, reduced by the float remainder modulo 2π. */
    method Advance(elapsedMilliseconds: nat, displacedPosition: Vec, displacedVelocity: Vec)
      modifies this`position, this`velocity, this`rotation
      ensures !old(alive) ==> position == old(position) && velocity == old(velocity) && rotation == old(rotation)
      ensures old(alive) ==> position == displacedPosition && velocity == displacedVelocity
      ensures old(alive) ==> rotation == Spin(old(rotation), rotationSpeed, elapsedMilliseconds)
    {
      if alive {
        position := displacedPosition;
        velocity := displacedVelocity;
        rotation := Spin(rotation, rotationSpeed, elapsedMilliseconds);
      }
    }

    /** `Update(GameTime, GraphicsDevice)`: the unbounded update, then the
        four clamp-and-negate checks against the viewport. */
    method UpdateBounded(elapsedMilliseconds: nat, displacedPosition: Vec, displacedVelocity: Vec,
                         viewportWidth: int, viewportHeight: int)
      modifies this`position, this`velocity, this`rotation
      ensures !old(alive) ==> position == old(position) && velocity == old(velocity) && rotation == old(rotation)
      ensures old(alive) ==>
        Motion(position, velocity)
          == Bounce(Motion(displacedPosition, displacedVelocity), origin, scale,
                    viewportWidth as real, viewportHeight as real)
      ensures old(alive) ==> rotation == Spin(old(rotation), rotationSpeed, elapsedMilliseconds)
    {
      if alive {
        Advance(elapsedMilliseconds, displacedPosition, displacedVelocity);
        var margins := ViewportMargins(origin, scale, viewportWidth as real, viewportHeight as real);
        if position.y > margins.bottom {
          position := Vec(position.x, margins.bottom);
          velocity := Vec(velocity.x, -velocity.y);
        }
        if position.x > margins.right {
          position := Vec(margins.right, position.y);
          velocity := Vec(-velocity.x, velocity.y);
        }
        if position.y < margins.top {
          position := Vec(position.x, margins.top);
          velocity := Vec(velocity.x, -velocity.y);
        }
        if position.x < margins.left {
          position := Vec(margins.left, position.y);
          velocity := Vec(-velocity.x, velocity.y);
        }
      }
    }

    /** `isOffScreen`. */
    predicate IsOffScreen(viewportWidth: int, viewportHeight: int)
      reads this
    {
      OffScreen(position, origin, viewportWidth, viewportHeight)
    }

    /** `Left`: slow down horizontally by the initial horizontal speed. */
    method Left()
      modifies this`velocity
      ensures velocity == Vec(old(velocity).x - initialVelocity.x, old(velocity).y)
    {
      velocity := Vec(velocity.x - initialVelocity.x, velocity.y);
    }

    /** `Right`: speed up horizontally by the initial horizontal speed. */
    method Right()
      modifies this`velocity
      ensures velocity == Vec(old(velocity).x + initialVelocity.x, old(velocity).y)
    {
      velocity := Vec(velocity.x + initialVelocity.x, velocity.y);
    }

    /** `Up`: move the vertical speed up the screen by the initial vertical speed. */
    method Up()
      modifies this`velocity
      ensures velocity == Vec(old(velocity).x, old(velocity).y - initialVelocity.y)
    {
      velocity := Vec(velocity.x, velocity.y - initialVelocity.y);
    }

    /** `Down`: move the vertical speed down the screen by the initial vertical speed. */
    method Down()
      modifies this`velocity
      ensures velocity == Vec(old(velocity).x, old(velocity).y + initialVelocity.y)
    {
      velocity := Vec(velocity.x, velocity.y + initialVelocity.y);
    }
  }

  /** A mouse hit lies within one pixel of the image's real scaled rectangle
      (truncation moves each edge by less than one), and a point at least one
      pixel inside the left/top edges and two inside the right/bottom edges
      is always a hit. */
  lemma MouseHitNearImage(s: Sprite, x: int, y: int)
    ensures var left, top := s.position.x - s.origin.x * s.scale, s.position.y - s.origin.y * s.scale;
      var w, h := s.image.width as real * s.scale, s.image.height as real * s.scale;
      && (s.CollisionMouse(x, y) ==>
            left - 1.0 < x as real < left + w + 1.0 && top - 1.0 < y as real < top + h + 1.0)
      && ((left + 1.0 <= x as real && x as real + 2.0 <= left + w &&
           top + 1.0 <= y as real && y as real + 2.0 <= top + h) ==> s.CollisionMouse(x, y))
  {
  }

  /** Two sprites with the same placement whose top-left pixels are both
      visible always collide in the narrow phase. */
  lemma SamePlacementCollides(transform: Affine, widthA: nat, heightA: nat, dataA: seq<Color>,
                              widthB: nat, heightB: nat, dataB: seq<Color>)
    requires Det(transform) != 0.0
    requires IsImage(widthA, heightA, dataA) && IsImage(widthB, heightB, dataB)
    requires 0 < widthA && 0 < heightA && 0 < widthB && 0 < heightB
    requires dataA[0].a != 0 && dataB[0].a != 0
    ensures AnyHit(AToB(transform, transform), widthA, heightA, dataA, widthB, heightB, dataB)
  {
    CoincidentPixelsHit(transform, widthA, heightA, dataA, transform, widthB, heightB, dataB, 0, 0, 0, 0);
  }
}
