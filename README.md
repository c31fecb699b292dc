# Sprite collision and motion

A model of the `Sprite` class of an XNA 2D game (`SpriteClasses/Sprite.cs`).
It covers:

- the two-phase collision test between two sprites;
- the per-tick update, with and without the viewport bounce;
- the mouse and off-screen queries;
- the four velocity nudges.

The collision test works in two phases:

- **Broad phase.** Each sprite's image rectangle is mapped to world space through the sprite's transform. The transform is translate(-origin), then scale, then rotate, then translate(position). The mapped rectangle is bounded by an axis-aligned box and truncated to an integer `Rectangle`. If the two rectangles do not intersect, there is no collision, and no pixel data is read.
- **Narrow phase.** Otherwise every pixel of the argument sprite's image (A) is mapped into the calling sprite's image (B). The pixel position is rounded to the nearest pixel of B. A collision is a pixel where both colours are not fully transparent.

The pixel scan is an imperative double loop. It carries the position in B incrementally with two fixed step vectors. It is proved equal to a direct, per-pixel definition (`Pixels.AnyHit`).

Files:

- `numeric.dfy`: the C# numeric conversions the code relies on:
  - the `(int)` cast truncates toward zero;
  - `Math.Round` rounds half to even;
  - float `%` is a truncated remainder.
- `geometry.dfy`: 2D affine maps in XNA's row-vector convention, their composition and inverse, and the sprite transform builder.
- `rectangles.dfy`: XNA `Rectangle`, `Intersects`, `Contains`, and `CalculateBoundingRectangle`.
- `pixels.dfy`: colour buffers and `IntersectPixels`.
- `sprite.dfy`: the `Sprite` class: constructor, `CollisionRectangle`, `CollisionMouse`, `CollisionSprite`, both `Update` overloads, `isOffScreen`, and `Left`/`Right`/`Up`/`Down`.
- `scenarios.dfy`: concrete sprites worked out in the model.

Numbers are exact reals. The code's single-precision floats are not modelled.

Where a described behaviour and the code differ, the model follows the code:

- **Left check of the bounded update.** It compares `position.X` with the *unscaled* `origin.X`. The other three checks use the origin scaled by `Scale` (`Sprite.cs:349-351`). `Sprites.LeftMarginIsUnscaled` shows the effect.
- **Elapsed time.** The code reads the millisecond *component* of the elapsed game time (`TimeSpan.Milliseconds`, 0 to 999), not the total (`Sprite.cs:317`). A tick of 1.2 s advances by 0.2 s (`Sprites.WholeSecondsAreDropped`).
- **Order of scale and rotation.** The order of translate(-origin), scale, rotate and translate(position) is described as order-sensitive throughout. With the uniform scale the code uses, scale and rotation may be swapped (`Geometry.ScalingCommutesWithRotation`). Centring must still precede the scale-and-rotate step (`Geometry.CentringBeforeScalingMatters`), and placement must still follow it (`Geometry.PlacementAfterTurnMatters`).
- **Broad phase versus narrow phase.** The broad phase is described as a safe early-out, but it is not one. Truncation can give a sprite drawn smaller than a pixel a bounding rectangle of width zero. `Rectangle.Intersects` is strict, so that rectangle misses any rectangle whose left edge is at or right of its own x. Its pixel may still land on an opaque pixel of such a sprite, as when the small sprite sits on the other's left edge (`Scenarios.BroadPhaseCanRejectSubPixelHit`).
- **Scan direction.** The narrow phase is described as symmetric in its result, but it is not. Rounding into the other image's grid can make the two scan directions differ (`Scenarios.ScanDirectionMatters`).

## Model

| member | source | states |
|---|---|---|
| Numeric.Truncate | SpriteClasses/Sprite.cs:113-114 | the `(int)` cast: the result's magnitude is at most the input's and within one of it, with the same sign |
| Numeric.RoundHalfEven | SpriteClasses/Sprite.cs:146-147 | `Math.Round`: the result is within one half of the input, and an exact tie goes to the even integer |
| Numeric.RoundOfInteger | SpriteClasses/Sprite.cs:146-147 | rounding an integer gives the integer back |
| Numeric.FloatRem | SpriteClasses/Sprite.cs:323 | C# float `%` by a positive modulus: the result is smaller than the modulus in magnitude, has the dividend's sign, and differs from the dividend by a whole multiple of the modulus |
| Numeric.FloatRemKeepsReduced | SpriteClasses/Sprite.cs:323 | a value already within one modulus of zero is left unchanged by `%` |
| Geometry.SpriteTransform | SpriteClasses/Sprite.cs:184-196 | no contract of its own: the four-factor product translate(-origin), scale, rotate, translate(position); its meaning is stated by `Geometry.SpriteTransformEntries` and `Geometry.SpriteTransformMaps` |
| Geometry.ApplyCompose | SpriteClasses/Sprite.cs:184-196 | the XNA matrix product `a * b` maps a point as `a` and then `b` |
| Geometry.Invert | SpriteClasses/Sprite.cs:123 | `Matrix.Invert` of a non-singular map has the reciprocal determinant |
| Geometry.InvertUndoesApply | SpriteClasses/Sprite.cs:123 | mapping a point and then applying the inverse gives the point back |
| Geometry.SpriteTransformEntries | SpriteClasses/Sprite.cs:184-196 | the sprite transform, multiplied out: scale times the rotation, then a translation placing the scaled, rotated origin at the position |
| Geometry.SpriteTransformMaps | SpriteClasses/Sprite.cs:184-196 | a local point is taken relative to the origin, scaled, rotated and moved to the position; the origin itself lands on the position |
| Geometry.SpriteTransformInvertible | SpriteClasses/Sprite.cs:192-196 | the sprite transform's determinant is the squared scale, so the map is invertible whenever the scale is not zero |
| Geometry.ScalingCommutesWithRotation | SpriteClasses/Sprite.cs:183-188 | a uniform scale commutes with the rotation, so scale and rotation may be swapped; centring must precede, and placement follow, the scale-and-rotate step |
| Geometry.PlacementAfterTurnMatters | SpriteClasses/Sprite.cs:183-188 | placing at the position before rotating differs from placing after it, for any turn with a non-zero sine and a non-zero horizontal placement |
| Geometry.CentringBeforeScalingMatters | SpriteClasses/Sprite.cs:183-188 | translating by -origin and then scaling differs from scaling and then translating, for every non-unit scale and non-zero origin |
| Rectangles.Intersects | SpriteClasses/Sprite.cs:216 | no contract of its own: XNA's strict overlap test, assumed (see Left out); its meaning is stated by `Rectangles.IntersectsIffSharedPixel` |
| Rectangles.Contains | SpriteClasses/Sprite.cs:88 | no contract of its own: XNA's half-open containment, assumed (see Left out); used by `Rectangles.IntersectsIffSharedPixel` and `Sprites.MouseHitNearImage` |
| Rectangles.IntersectsIffSharedPixel | SpriteClasses/Sprite.cs:216 | two non-empty rectangles intersect exactly when some integer point is contained in both |
| Rectangles.IntersectsSymmetric | SpriteClasses/Sprite.cs:216 | which rectangle the intersection test is called on does not matter |
| Rectangles.CalculateBoundingRectangle | SpriteClasses/Sprite.cs:91-115 | the result is the world box of the four mapped corners, truncated: non-negative size within one of the box's size, corner within one of the box's least corner |
| Rectangles.WorldBoxIsTight | SpriteClasses/Sprite.cs:94-110 | every mapped corner lies in the box, and each side of the box passes through a mapped corner |
| Rectangles.WorldBoxEncloses | SpriteClasses/Sprite.cs:94-110 | every point of the rectangle, not only its corners, maps into the box |
| Pixels.PixelIndexInRange | SpriteClasses/Sprite.cs:154-155 | the row-major index `x + y * width` of an in-bounds pixel lies inside the buffer |
| Pixels.StepRight | SpriteClasses/Sprite.cs:125-166 | one pixel to the right in A moves the position in B by `stepX`, the transformed unit x vector |
| Pixels.StepDown | SpriteClasses/Sprite.cs:130-170 | one row down in A moves the row start in B by `stepY`, the transformed unit y vector |
| Pixels.HitAt | SpriteClasses/Sprite.cs:146-158 | no contract of its own: one pixel of A, rounded into B, lands inside B on a pixel where neither colour is fully transparent; the reference definition `Pixels.IntersectPixels` is proved against |
| Pixels.AnyHit | SpriteClasses/Sprite.cs:137-174 | no contract of its own: some pixel of A is a `HitAt`; its meaning is stated by `Pixels.IntersectPixels`, `Pixels.TransparentANeverHits` and `Pixels.CoincidentPixelsHit` |
| Pixels.IntersectPixels | SpriteClasses/Sprite.cs:117-175 | the incremental scan returns true exactly when some pixel of A, rounded into B, lands inside B on a pixel where neither colour is fully transparent |
| Pixels.TransparentANeverHits | SpriteClasses/Sprite.cs:158 | a fully transparent image A never collides |
| Pixels.TransparentBNeverHit | SpriteClasses/Sprite.cs:158 | a fully transparent image B is never collided with |
| Pixels.CoincidentPixelsHit | SpriteClasses/Sprite.cs:117-175 | two visible pixels that the two maps send to the same world point always give a collision |
| Sprites.ElapsedSeconds | SpriteClasses/Sprite.cs:317 | the tick length is the millisecond component over 1000, always in [0, 1) |
| Sprites.WholeSecondsAreDropped | SpriteClasses/Sprite.cs:317 | adding whole seconds to the elapsed time does not change the tick length |
| Sprites.Spin | SpriteClasses/Sprite.cs:322-323 | the new rotation is less than 2π in magnitude and keeps the sign of the turned angle |
| Sprites.SpinIsTurnModuloTwoPi | SpriteClasses/Sprite.cs:322-323 | the new rotation differs from the old rotation plus speed times tick by a whole number of turns, and equals it when that is within one turn |
| Sprites.Bounce | SpriteClasses/Sprite.cs:334-353 | no contract of its own: the four clamp-and-negate checks in source order; its meaning is stated by the `Bounce*` lemmas below |
| Sprites.BounceKeepsInside | SpriteClasses/Sprite.cs:334-353 | after the bounce the position is at or below the top margin and at or right of the left margin; it is also inside the bottom and right margins whenever these leave room |
| Sprites.BounceOnlyReflects | SpriteClasses/Sprite.cs:334-353 | each velocity component is kept or negated, so the bounce is lossless |
| Sprites.BounceLeavesInsideAlone | SpriteClasses/Sprite.cs:334-353 | a sprite inside all four margins keeps its position and velocity |
| Sprites.BounceAxesIndependent | SpriteClasses/Sprite.cs:334-353 | the horizontal outcome depends only on the horizontal motion, and the vertical only on the vertical |
| Sprites.BottomBounce | SpriteClasses/Sprite.cs:334-338 | below the bottom margin, the sprite is put on it with its vertical velocity negated, other motion unchanged |
| Sprites.LeftMarginIsUnscaled | SpriteClasses/Sprite.cs:349-353 | with a scale below one, a sprite inside the scaled left margin but left of `origin.X` is still pushed to `origin.X` and reversed |
| Sprites.OffScreen | SpriteClasses/Sprite.cs:357-364 | no contract of its own: the four-way test of `isOffScreen`; its meaning is stated by `Sprites.OffScreenIffDisjoint` |
| Sprites.Sprite.IsOffScreen | SpriteClasses/Sprite.cs:357-364 | no contract of its own: `OffScreen` of the sprite's position and origin; its meaning is stated by `Sprites.OffScreenIffDisjoint` and `Sprites.BouncedIsOnScreen` |
| Sprites.OffScreenIffDisjoint | SpriteClasses/Sprite.cs:357-364 | `isOffScreen` holds exactly when no point of the unscaled extent, position ± origin, lies in the viewport |
| Sprites.BouncedIsOnScreen | SpriteClasses/Sprite.cs:328-364 | a position produced by the bounce is never reported off screen, when the margins fit in the viewport |
| Sprites.Sprite.constructor | SpriteClasses/Sprite.cs:283-310 | the given fields are stored; force, acceleration and mass are zero; the origin is the integer half of the image size or zero; the sprite is alive |
| Sprites.Sprite.CollisionRectangle | SpriteClasses/Sprite.cs:51-58 | each of the rectangle's four numbers is within one of the exact value: the position less the scaled origin, and the scaled image size |
| Sprites.Sprite.CollisionMouse | SpriteClasses/Sprite.cs:86-89 | no contract of its own: `Contains` on `CollisionRectangle`; its meaning is stated by `Sprites.MouseHitNearImage` |
| Sprites.Sprite.CollisionSprite | SpriteClasses/Sprite.cs:177-246 | pixel data is read exactly when the two world rectangles intersect; with no intersection there is no hit; otherwise the hit is the pixel test with A the argument sprite and B this one |
| Sprites.Sprite.Advance | SpriteClasses/Sprite.cs:313-325 | a dead sprite is unchanged; a live one takes the integrator's position and velocity, and its rotation becomes the spin of the old rotation |
| Sprites.Sprite.UpdateBounded | SpriteClasses/Sprite.cs:328-355 | a dead sprite is unchanged; a live one takes the integrator's motion passed through the four clamp-and-negate checks in source order, with the spun rotation |
| Sprites.Sprite.Left | SpriteClasses/Sprite.cs:261-264 | the horizontal velocity drops by the initial horizontal velocity; the vertical is unchanged |
| Sprites.Sprite.Right | SpriteClasses/Sprite.cs:266-269 | the horizontal velocity grows by the initial horizontal velocity; the vertical is unchanged |
| Sprites.Sprite.Up | SpriteClasses/Sprite.cs:271-274 | the vertical velocity drops by the initial vertical velocity; the horizontal is unchanged |
| Sprites.Sprite.Down | SpriteClasses/Sprite.cs:276-279 | the vertical velocity grows by the initial vertical velocity; the horizontal is unchanged |
| Sprites.MouseHitNearImage | SpriteClasses/Sprite.cs:51-89 | a mouse hit lies within one pixel of the scaled image rectangle, and a point safely inside that rectangle is always a hit |
| Sprites.SamePlacementCollides | SpriteClasses/Sprite.cs:117-175 | two images with the same map whose top-left pixels are both visible always collide in the narrow phase |
| Scenarios.QuarterTurnedDoubledRectangle | SpriteClasses/Sprite.cs:184-212 | a 16 by 16 image centred at (8, 8), scaled 2 and turned 90° at (100, 100), is bounded by the 32 by 32 rectangle at (84, 84) |
| Scenarios.UprightMap | SpriteClasses/Sprite.cs:192-196 | an upright, unscaled sprite with zero origin is only translated |
| Scenarios.DistantSpritesAreRejected | SpriteClasses/Sprite.cs:205-216 | two upright 16 by 16 sprites at (50, 50) and (200, 50) have disjoint rectangles |
| Scenarios.CopiesCollide | SpriteClasses/Sprite.cs:177-246 | two sprites with the same image and placement collide through both phases when their rectangle is non-empty and the first pixel is visible |
| Scenarios.BroadPhaseCanRejectSubPixelHit | SpriteClasses/Sprite.cs:113-216 | a one-pixel image scaled below one pixel gets a width-zero rectangle that misses a 2 by 2 image's rectangle, although its pixel lands on an opaque pixel of that image |
| Scenarios.ScanDirectionMatters | SpriteClasses/Sprite.cs:117-175 | a 1 by 1 opaque image scaled by 2 at (0, 0) scanned into a 1 by 1 opaque image at (1, 1) misses, while the reverse scan hits |
| Scenarios.ScannedPairOverlaps | SpriteClasses/Sprite.cs:205-216 | the two sprites of `ScanDirectionMatters` have bounding rectangles (0, 0, 2, 2) and (1, 1, 1, 1), which intersect |
| Scenarios.UprightScaledMap | SpriteClasses/Sprite.cs:192-196 | an upright sprite with zero origin is scaled and then translated |

## Left out

- `Draw` (`Sprite.cs:249-253`) is rendering only, and `SpriteEffect` is stored but changes nothing the model covers.
- `Idle` (`Sprite.cs:256-259`) scales the velocity by the single-precision constant `.95f`. It is not modelled because the model has no float rounding.
- `NUM_WARIOS` and `NUM_SPIKES` are game constants that nothing in the class uses.
- `Texture2D.GetData` is not modelled. The colour buffer is part of the `Texture` value, and reading it is the ghost flag `pixelsRead`.
- `Physics2D.setDisplacement` is not part of this model. The position and velocity it produces are parameters of `Advance` and `UpdateBounded`.
- `GameTime` and `GraphicsDevice` are not modelled. They become the elapsed milliseconds and the viewport width and height.
- Rotation angles are given as their cosine and sine (`Turn`), because trigonometry is outside the model. Rotations are only constrained by cos² + sin² = 1. The rotation stored by the update (`Spin`) and the `Turn` passed to `CollisionSprite` are therefore not tied to each other.
- Single-precision float rounding is not modelled. 2π is the single-precision value 6.2831855.
- XNA's `Rectangle.Intersects` and `Rectangle.Contains` are outside this model. They are assumed to have XNA's documented semantics: strict overlap of half-open rectangles, and half-open containment.
- Sprites.Sprite.CollisionSprite: requires this sprite's scale to be non-zero and its `Turn` to be a rotation. The model's inverse is defined only for a non-singular map. XNA's `Matrix.Invert` of a singular matrix gives non-finite entries instead.
- Geometry.InvertUndoesApply: only one direction is proved, inverse after map. The converse, map after inverse, is not stated.
