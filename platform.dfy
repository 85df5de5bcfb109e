/** Platforms and their two collision tests. A platform's box is anchored at its corner,
    `[position, position + size]`; a character's box is centred on its position. */
module Platforms {
  import opened Vectors

  datatype PlatformType =
    | Solid        // blocks from every side
    | SemiSolid    // can be jumped through from below, landed on from above
    | PassThrough  // never blocks

  datatype Platform = Platform(position: Vec2, size: Vec2, kind: PlatformType)

  /** The closed platform interval `[lo, lo + extent]` meets the closed interval
      `[centre - half, centre + half]`. */
  predicate Overlaps(lo: real, extent: real, centre: real, half: real) {
    lo + extent >= centre - half && lo <= centre + half
  }

  /** The plain box test against a character box centred at `position`. */
  predicate CheckCollision(p: Platform, position: Vec2, size: Vec2) {
    p.kind != PassThrough
    && Overlaps(p.position.x, p.size.x, position.x, size.x / 2.0)
    && Overlaps(p.position.y, p.size.y, position.y, size.y / 2.0)
  }

  /** The landing test: a semi-solid platform only catches a character whose bottom is at
      or above its top and who is moving down, and then tests the box moved by `velocity.y`;
      a solid platform uses the plain test. */
  predicate CheckCollisionFromAbove(p: Platform, position: Vec2, size: Vec2, velocity: Vec2) {
    match p.kind
    case PassThrough => false
    case SemiSolid =>
      && position.y - size.y / 2.0 >= p.position.y + p.size.y
      && velocity.y < 0.0
      && Overlaps(p.position.x, p.size.x, position.x, size.x / 2.0)
      && Overlaps(p.position.y, p.size.y, position.y + velocity.y, size.y / 2.0)
    case Solid => CheckCollision(p, position, size)
  }

  // ---------------------------------------------------------------------------
  // Geometry of the test

  /** `q` lies in the platform's closed box. */
  predicate InPlatform(p: Platform, q: Vec2) {
    p.position.x <= q.x <= p.position.x + p.size.x && p.position.y <= q.y <= p.position.y + p.size.y
  }

  /** `q` lies in the closed box of size `size` centred at `position`. */
  predicate InCharacterBox(position: Vec2, size: Vec2, q: Vec2) {
    position.x - size.x / 2.0 <= q.x <= position.x + size.x / 2.0
    && position.y - size.y / 2.0 <= q.y <= position.y + size.y / 2.0
  }

  /** A point that both boxes contain whenever the test succeeds. */
  function ContactPoint(p: Platform, position: Vec2, size: Vec2): Vec2 {
    Vec2(Max(p.position.x, position.x - size.x / 2.0), Max(p.position.y, position.y - size.y / 2.0))
  }

  /** For boxes of non-negative size, the test holds exactly when the two closed boxes share
      a point: a shared point forces it, and when it holds `ContactPoint` is shared. */
  lemma CollisionIsOverlap(p: Platform, position: Vec2, size: Vec2, q: Vec2)
    requires p.kind != PassThrough
    requires p.size.x >= 0.0 && p.size.y >= 0.0 && size.x >= 0.0 && size.y >= 0.0
    ensures InPlatform(p, q) && InCharacterBox(position, size, q) ==> CheckCollision(p, position, size)
    ensures CheckCollision(p, position, size) ==>
              var c := ContactPoint(p, position, size);
              InPlatform(p, c) && InCharacterBox(position, size, c)
  {
  }

  /** Pass-through platforms never collide, whatever the test and the input. */
  lemma PassThroughNeverCollides(p: Platform, position: Vec2, size: Vec2, velocity: Vec2)
    requires p.kind == PassThrough
    ensures !CheckCollision(p, position, size)
    ensures !CheckCollisionFromAbove(p, position, size, velocity)
  {
  }

  /** Boxes that only touch along an edge already collide. */
  lemma TouchingEdgesCollide(p: Platform, position: Vec2, size: Vec2)
    requires p.kind != PassThrough
    requires p.position.x + p.size.x == position.x - size.x / 2.0
    requires p.position.y + p.size.y == position.y - size.y / 2.0
    requires p.size.x >= 0.0 && p.size.y >= 0.0 && size.x >= 0.0 && size.y >= 0.0
    ensures CheckCollision(p, position, size)
  {
  }

  /** On a solid platform the landing test ignores the velocity. */
  lemma SolidFromAboveIsPlainTest(p: Platform, position: Vec2, size: Vec2, velocity: Vec2)
    requires p.kind == Solid
    ensures CheckCollisionFromAbove(p, position, size, velocity) == CheckCollision(p, position, size)
  {
  }

  /** A semi-solid platform only catches a character that is on or above it and falling;
      then it is the plain test on the box moved by the vertical speed. */
  lemma SemiSolidLanding(p: Platform, position: Vec2, size: Vec2, velocity: Vec2)
    requires p.kind == SemiSolid
    ensures CheckCollisionFromAbove(p, position, size, velocity) ==>
              position.y - size.y / 2.0 >= p.position.y + p.size.y && velocity.y < 0.0
    ensures position.y - size.y / 2.0 >= p.position.y + p.size.y && velocity.y < 0.0 ==>
              CheckCollisionFromAbove(p, position, size, velocity)
              == CheckCollision(p, Vec2(position.x, position.y + velocity.y), size)
  {
  }
}
