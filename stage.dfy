/** The stage object: its platforms, blast zone and spawn points, and the per-frame pass that
    moves every character through the platforms, probes the ground and handles the blast
    zone. Each method is proved against the functions of `StageSpec`. */
module Stages {
  import opened Vectors
  import opened CharacterTypes
  import opened FighterSpec
  import opened Platforms
  import opened StageSpec
  import opened Combatant
  import StageLemmas

  class Stage {
    var platforms: seq<Platform>
    var blastZone: BlastZone
    var spawnPositions: seq<Vec2>

    function Layout(): StageLayout
      reads this
    {
      StageLayout(platforms, blastZone, spawnPositions)
    }

    /** The default stage: the default blast zone and spawns, then the four default platforms
        added in order. */
    constructor ()
      ensures Layout() == DefaultLayout
    {
      blastZone := DefaultBlastZone;
      spawnPositions := DefaultSpawns;
      platforms := [];
      new;
      AddPlatform(Vec2(0.0, 0.0), Vec2(10.0, 1.0), Solid);
      AddPlatform(Vec2(-5.0, 2.0), Vec2(3.0, 0.5), SemiSolid);
      AddPlatform(Vec2(5.0, 2.0), Vec2(3.0, 0.5), SemiSolid);
      AddPlatform(Vec2(0.0, 4.0), Vec2(4.0, 0.5), SemiSolid);
    }

    method AddPlatform(position: Vec2, size: Vec2, kind: PlatformType)
      modifies this
      ensures platforms == old(platforms) + [Platform(position, size, kind)]
      ensures blastZone == old(blastZone) && spawnPositions == old(spawnPositions)
    {
      platforms := platforms + [Platform(position, size, kind)];
    }

    /** Moves `c` by its velocity through the platforms in order and stores the resolved
        position and velocity; nothing else of `c` changes. */
    method ResolveCharacterCollisions(c: Fighter, dt: real)
      modifies c
      ensures c.Snapshot() == ResolveStep(Layout(), old(c.Snapshot()), dt)
    {
      var position := c.position;
      var velocity := c.velocity;
      var size := c.size;
      var newPosition := Add(position, Scale(velocity, dt));
      var i := 0;
      assert platforms[0..] == platforms;
      while i < |platforms|
        invariant 0 <= i <= |platforms|
        invariant ResolveFrom(platforms[i..], position, size, dt, Motion(newPosition, velocity))
                  == Resolve(platforms, position, c.velocity, size, dt)
      {
        var p := platforms[i];
        ghost var before := Motion(newPosition, velocity);
        if !(p.kind == SemiSolid && velocity.y >= 0.0) && CheckCollision(p, newPosition, size) {
          var horizontalPos := Add(position, Vec2(velocity.x * dt, 0.0));
          if !CheckCollision(p, horizontalPos, size) {
            newPosition := newPosition.(x := horizontalPos.x);
            velocity := velocity.(y := 0.0);
          } else {
            var verticalPos := Add(position, Vec2(0.0, velocity.y * dt));
            if !CheckCollision(p, verticalPos, size) {
              newPosition := newPosition.(y := verticalPos.y);
              velocity := velocity.(x := 0.0);
            } else {
              newPosition := position;
              velocity := Zero2;
            }
          }
        }
        assert Motion(newPosition, velocity) == ResolveAgainst(p, position, size, dt, before);
        assert platforms[i..][1..] == platforms[i + 1..];
        i := i + 1;
      }
      c.SetPosition(newPosition);
      c.SetVelocity(velocity);
    }

    /** True when some platform grounds a character at `c`'s position. */
    method IsCharacterOnGround(c: Fighter) returns (grounded: bool)
      ensures grounded == OnGround(platforms, c.position, c.size)
    {
      var position := c.position;
      var size := c.size;
      var groundCheckPos := Sub(position, Vec2(0.0, 0.1));
      var i := 0;
      while i < |platforms|
        invariant 0 <= i <= |platforms|
        invariant forall j :: 0 <= j < i ==> !GroundedBy(platforms[j], position, size)
      {
        var p := platforms[i];
        if p.kind == SemiSolid {
          if CheckCollisionFromAbove(p, position, size, Vec2(0.0, -0.1)) {
            return true;
          }
        } else if p.kind == Solid {
          if CheckCollision(p, groundCheckPos, size) {
            return true;
          }
        }
        i := i + 1;
      }
      return false;
    }

    predicate IsCharacterOutOfBounds(c: Fighter)
      reads this, c
    {
      OutOfBounds(blastZone, c.position)
    }

    function GetSpawnPosition(index: int): Vec2
      reads this
    {
      SpawnPosition(spawnPositions, index)
    }

    /** The stage pass for one character: resolve, probe the ground, then the blast zone. */
    method StepCharacter(c: Fighter, dt: real)
      requires c.Valid()
      modifies c
      ensures c.Snapshot() == StageStep(Layout(), old(c.Snapshot()), dt)
      ensures c.Valid()
    {
      StageLemmas.StageStepKeepsWellFormed(Layout(), c.Snapshot(), dt);
      ResolveCharacterCollisions(c, dt);
      var grounded := IsCharacterOnGround(c);
      c.SetOnGround(grounded);
      if IsCharacterOutOfBounds(c) {
        c.TakeDamage(0, 0.0, Zero2);
        if c.lives > 0 {
          c.SetPosition(GetSpawnPosition(0));
          c.SetVelocity(Zero2);
        }
      }
    }

    /** The stage pass over every character in roster order. */
    method Update(dt: real, characters: seq<Fighter>)
      requires Distinct(characters) && AllValid(characters)
      modifies set c | c in characters
      ensures AllValid(characters)
      ensures forall q :: 0 <= q < |characters| ==>
                characters[q].Snapshot() == StageStep(Layout(), old(characters[q].Snapshot()), dt)
    {
      ghost var L := Layout();
      var i := 0;
      while i < |characters|
        invariant 0 <= i <= |characters|
        invariant forall q :: 0 <= q < |characters| ==>
                    && characters[q].Valid()
                    && characters[q].Snapshot()
                       == if q < i then StageStep(L, old(characters[q].Snapshot()), dt) else old(characters[q].Snapshot())
      {
        StepCharacter(characters[i], dt);
        i := i + 1;
      }
    }
  }
}
