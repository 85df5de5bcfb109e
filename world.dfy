/** The first-person demo's walls: axis-aligned boxes, a point test against them with a
    radius, and the axis-by-axis slide that keeps a moving point out of every wall. */
module Walls {
  import opened Vectors

  datatype Wall = Wall(position: Vec3, size: Vec3)

  /** `v` lies in the closed interval of half-width `half + radius` around `centre`. */
  predicate Spans(centre: real, half: real, radius: real, v: real) {
    centre - half - radius <= v <= centre + half + radius
  }

  /** The wall's box, grown by `radius` on every side, contains `p` (bounds inclusive). */
  predicate InWall(w: Wall, p: Vec3, radius: real) {
    && Spans(w.position.x, w.size.x * 0.5, radius, p.x)
    && Spans(w.position.y, w.size.y * 0.5, radius, p.y)
    && Spans(w.position.z, w.size.z * 0.5, radius, p.z)
  }

  predicate Collides(walls: seq<Wall>, p: Vec3, radius: real) {
    exists i :: 0 <= i < |walls| && InWall(walls[i], p, radius)
  }

  /** The slide: the new position when it is free; otherwise from the old position, take the
      new x if that is free, then the new z against the x so far, then the new y against both. */
  function Slide(walls: seq<Wall>, from: Vec3, to: Vec3, radius: real): Vec3 {
    if !Collides(walls, to, radius) then to
    else
      var x := if !Collides(walls, Vec3(to.x, from.y, from.z), radius) then to.x else from.x;
      var z := if !Collides(walls, Vec3(x, from.y, to.z), radius) then to.z else from.z;
      var y := if !Collides(walls, Vec3(x, to.y, z), radius) then to.y else from.y;
      Vec3(x, y, z)
  }

  /** The demo room: floor, four outer walls and two inner walls. */
  const DefaultWalls: seq<Wall> := [
    Wall(Vec3(0.0, -0.5, 0.0), Vec3(20.0, 1.0, 20.0)),
    Wall(Vec3(0.0, 1.5, -10.0), Vec3(20.0, 4.0, 1.0)),
    Wall(Vec3(0.0, 1.5, 10.0), Vec3(20.0, 4.0, 1.0)),
    Wall(Vec3(-10.0, 1.5, 0.0), Vec3(1.0, 4.0, 20.0)),
    Wall(Vec3(10.0, 1.5, 0.0), Vec3(1.0, 4.0, 20.0)),
    Wall(Vec3(-5.0, 1.5, -5.0), Vec3(1.0, 4.0, 10.0)),
    Wall(Vec3(5.0, 1.5, 5.0), Vec3(10.0, 4.0, 1.0))
  ]

  class World {
    var walls: seq<Wall>

    constructor ()
      ensures walls == DefaultWalls
    {
      walls := [];
      new;
      AddWall(Vec3(0.0, -0.5, 0.0), Vec3(20.0, 1.0, 20.0));
      AddWall(Vec3(0.0, 1.5, -10.0), Vec3(20.0, 4.0, 1.0));
      AddWall(Vec3(0.0, 1.5, 10.0), Vec3(20.0, 4.0, 1.0));
      AddWall(Vec3(-10.0, 1.5, 0.0), Vec3(1.0, 4.0, 20.0));
      AddWall(Vec3(10.0, 1.5, 0.0), Vec3(1.0, 4.0, 20.0));
      AddWall(Vec3(-5.0, 1.5, -5.0), Vec3(1.0, 4.0, 10.0));
      AddWall(Vec3(5.0, 1.5, 5.0), Vec3(10.0, 4.0, 1.0));
    }

    method AddWall(position: Vec3, size: Vec3)
      modifies this
      ensures walls == old(walls) + [Wall(position, size)]
    {
      walls := walls + [Wall(position, size)];
    }

    /** Whether `position` is inside some wall grown by `radius`; the first hit ends the scan. */
    method CheckCollision(position: Vec3, radius: real) returns (hit: bool)
      ensures hit <==> Collides(walls, position, radius)
    {
      var i := 0;
      while i < |walls|
        invariant 0 <= i <= |walls|
        invariant forall j :: 0 <= j < i ==> !InWall(walls[j], position, radius)
      {
        var w := walls[i];
        var lo := Vec3(w.position.x - w.size.x * 0.5 - radius,
                       w.position.y - w.size.y * 0.5 - radius,
                       w.position.z - w.size.z * 0.5 - radius);
        var hi := Vec3(w.position.x + w.size.x * 0.5 + radius,
                       w.position.y + w.size.y * 0.5 + radius,
                       w.position.z + w.size.z * 0.5 + radius);
        if lo.x <= position.x <= hi.x && lo.y <= position.y <= hi.y && lo.z <= position.z <= hi.z {
          return true;
        }
        i := i + 1;
      }
      return false;
    }

    /** Moves from `oldPosition` toward `newPosition` as far as the walls allow, axis by axis
        in the order x, z, y. */
    method ResolveCollision(oldPosition: Vec3, newPosition: Vec3, radius: real) returns (resolved: Vec3)
      ensures resolved == Slide(walls, oldPosition, newPosition, radius)
    {
      var blocked := CheckCollision(newPosition, radius);
      if !blocked {
        return newPosition;
      }
      resolved := oldPosition;
      var xBlocked := CheckCollision(Vec3(newPosition.x, oldPosition.y, oldPosition.z), radius);
      if !xBlocked {
        resolved := resolved.(x := newPosition.x);
      }
      var zBlocked := CheckCollision(Vec3(resolved.x, oldPosition.y, newPosition.z), radius);
      if !zBlocked {
        resolved := resolved.(z := newPosition.z);
      }
      var yBlocked := CheckCollision(Vec3(resolved.x, newPosition.y, resolved.z), radius);
      if !yBlocked {
        resolved := resolved.(y := newPosition.y);
      }
    }
  }

  // ---------------------------------------------------------------------------
  // Properties

  /** A point collides with one more wall exactly when it collides with the old ones or is
      inside the new one. */
  lemma AddWallCollides(walls: seq<Wall>, w: Wall, p: Vec3, radius: real)
    ensures Collides(walls + [w], p, radius) <==> Collides(walls, p, radius) || InWall(w, p, radius)
  {
    if Collides(walls, p, radius) {
      var i :| 0 <= i < |walls| && InWall(walls[i], p, radius);
      assert (walls + [w])[i] == walls[i];
    }
    if InWall(w, p, radius) {
      assert (walls + [w])[|walls|] == w;
    }
  }

  /** Growing the radius never frees a point. */
  lemma CollidesMonotone(walls: seq<Wall>, p: Vec3, r1: real, r2: real)
    requires r1 <= r2 && Collides(walls, p, r1)
    ensures Collides(walls, p, r2)
  {
    var i :| 0 <= i < |walls| && InWall(walls[i], p, r1);
    assert InWall(walls[i], p, r2);
  }

  /** A free destination is taken as it is. */
  lemma SlideFreeIsDirect(walls: seq<Wall>, from: Vec3, to: Vec3, radius: real)
    requires !Collides(walls, to, radius)
    ensures Slide(walls, from, to, radius) == to
  {
  }

  /** Every coordinate of the result is the old one or the new one. */
  lemma SlideCoordinates(walls: seq<Wall>, from: Vec3, to: Vec3, radius: real)
    ensures var r := Slide(walls, from, to, radius);
            && (r.x == from.x || r.x == to.x)
            && (r.y == from.y || r.y == to.y)
            && (r.z == from.z || r.z == to.z)
  {
  }

  /** Starting from a free position, the slide always ends at a free position. */
  lemma SlideStaysFree(walls: seq<Wall>, from: Vec3, to: Vec3, radius: real)
    requires !Collides(walls, from, radius)
    ensures !Collides(walls, Slide(walls, from, to, radius), radius)
  {
    if Collides(walls, to, radius) {
      var x := if !Collides(walls, Vec3(to.x, from.y, from.z), radius) then to.x else from.x;
      assert !Collides(walls, Vec3(x, from.y, from.z), radius) by {
        if x == from.x { assert Vec3(x, from.y, from.z) == from; }
      }
      var z := if !Collides(walls, Vec3(x, from.y, to.z), radius) then to.z else from.z;
      assert !Collides(walls, Vec3(x, from.y, z), radius);
      var y := if !Collides(walls, Vec3(x, to.y, z), radius) then to.y else from.y;
      assert !Collides(walls, Vec3(x, y, z), radius);
    }
  }

  /** The x axis goes first: when the x move is free but adding the z move is not, the
      result keeps the new x and the old z, even if the z move alone would have been free. */
  lemma SlidePrefersX(walls: seq<Wall>, from: Vec3, to: Vec3, radius: real)
    requires Collides(walls, to, radius)
    requires !Collides(walls, Vec3(to.x, from.y, from.z), radius)
    requires Collides(walls, Vec3(to.x, from.y, to.z), radius)
    ensures Slide(walls, from, to, radius).x == to.x
    ensures Slide(walls, from, to, radius).z == from.z
  {
  }
}
