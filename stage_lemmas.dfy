/** What the stage's resolution, probes and blast-zone step guarantee. */
module StageLemmas {
  import opened Vectors
  import opened CharacterTypes
  import opened FighterSpec
  import opened Platforms
  import opened StageSpec

  // ---------------------------------------------------------------------------
  // Resolution

  /** One platform's turn has exactly four outcomes: untouched; the horizontal slide, which
      keeps the held horizontal speed and drops the vertical one; the vertical move, which
      does the opposite; or the full stop at the start. */
  lemma ResolveAgainstCases(p: Platform, start: Vec2, size: Vec2, dt: real, m: Motion)
    ensures var r := ResolveAgainst(p, start, size, dt, m);
            || (r == m && !(Considered(p, m.velocity) && CheckCollision(p, m.position, size)))
            || (r == Motion(Vec2(start.x + m.velocity.x * dt, m.position.y), Vec2(m.velocity.x, 0.0))
                && !CheckCollision(p, Add(start, Vec2(m.velocity.x * dt, 0.0)), size))
            || (r == Motion(Vec2(m.position.x, start.y + m.velocity.y * dt), Vec2(0.0, m.velocity.y))
                && !CheckCollision(p, Add(start, Vec2(0.0, m.velocity.y * dt)), size))
            || (r == Motion(start, Zero2)
                && CheckCollision(p, Add(start, Vec2(m.velocity.x * dt, 0.0)), size)
                && CheckCollision(p, Add(start, Vec2(0.0, m.velocity.y * dt)), size))
  {
  }

  /** A semi-solid platform is passed over while the held vertical speed is not downward,
      even when an earlier platform is what zeroed it. */
  lemma SemiSolidSkippedUnlessFalling(p: Platform, start: Vec2, size: Vec2, dt: real, m: Motion)
    requires p.kind == SemiSolid && m.velocity.y >= 0.0
    ensures ResolveAgainst(p, start, size, dt, m) == m
  {
  }

  /** With no considered platform hit at the tentative position, the character moves there
      with its velocity unchanged. */
  lemma {:induction false} NoCollisionMovesFreely(ps: seq<Platform>, position: Vec2, velocity: Vec2, size: Vec2, dt: real)
    requires forall i :: 0 <= i < |ps| ==>
               !(Considered(ps[i], velocity) && CheckCollision(ps[i], Tentative(position, velocity, dt), size))
    ensures Resolve(ps, position, velocity, size, dt) == Motion(Tentative(position, velocity, dt), velocity)
    decreases |ps|
  {
    if ps != [] {
      var m := Motion(Tentative(position, velocity, dt), velocity);
      assert ResolveAgainst(ps[0], position, size, dt, m) == m;
      NoCollisionMovesFreely(ps[1..], position, velocity, size, dt);
    }
  }

  /** Each velocity component is its original value or zero, and each position coordinate is
      the start or the tentative one. */
  predicate Bounded(m: Motion, position: Vec2, velocity: Vec2, dt: real) {
    var t := Tentative(position, velocity, dt);
    && (m.velocity.x == velocity.x || m.velocity.x == 0.0)
    && (m.velocity.y == velocity.y || m.velocity.y == 0.0)
    && (m.position.x == position.x || m.position.x == t.x)
    && (m.position.y == position.y || m.position.y == t.y)
  }

  /** One platform's turn keeps each component at its original or zero value, and each
      coordinate at the start or the tentative one. */
  lemma ResolveAgainstBounded(p: Platform, position: Vec2, velocity: Vec2, size: Vec2, dt: real, m: Motion)
    requires Bounded(m, position, velocity, dt)
    ensures Bounded(ResolveAgainst(p, position, size, dt, m), position, velocity, dt)
  {
    var t := Tentative(position, velocity, dt);
    var sx := position.x + m.velocity.x * dt;
    var sy := position.y + m.velocity.y * dt;
    if m.velocity.x == 0.0 { assert sx == position.x; } else { assert sx == t.x; }
    if m.velocity.y == 0.0 { assert sy == position.y; } else { assert sy == t.y; }
  }

  lemma {:induction false} ResolveFromBounded(ps: seq<Platform>, position: Vec2, velocity: Vec2, size: Vec2, dt: real, m: Motion)
    requires Bounded(m, position, velocity, dt)
    ensures Bounded(ResolveFrom(ps, position, size, dt, m), position, velocity, dt)
    decreases |ps|
  {
    if ps != [] {
      var next := ResolveAgainst(ps[0], position, size, dt, m);
      ResolveAgainstBounded(ps[0], position, velocity, size, dt, m);
      ResolveFromBounded(ps[1..], position, velocity, size, dt, next);
    }
  }

  lemma ResolveBounded(ps: seq<Platform>, position: Vec2, velocity: Vec2, size: Vec2, dt: real)
    ensures Bounded(Resolve(ps, position, velocity, size, dt), position, velocity, dt)
  {
    ResolveFromBounded(ps, position, velocity, size, dt, Motion(Tentative(position, velocity, dt), velocity));
  }

  /** Proof helper: the platforms that can take part in resolution. */
  function Blocking(ps: seq<Platform>): (r: seq<Platform>)
    ensures forall p :: p in r ==> p in ps && p.kind != PassThrough
    ensures forall p :: p in ps && p.kind != PassThrough ==> p in r
    decreases |ps|
  {
    if ps == [] then []
    else if ps[0].kind == PassThrough then Blocking(ps[1..])
    else [ps[0]] + Blocking(ps[1..])
  }

  /** Pass-through platforms play no part in resolution: dropping them changes nothing. */
  lemma {:induction false} PassThroughIgnored(ps: seq<Platform>, start: Vec2, size: Vec2, dt: real, m: Motion)
    ensures ResolveFrom(ps, start, size, dt, m) == ResolveFrom(Blocking(ps), start, size, dt, m)
    decreases |ps|
  {
    if ps != [] {
      if ps[0].kind == PassThrough {
        assert ResolveAgainst(ps[0], start, size, dt, m) == m;
        PassThroughIgnored(ps[1..], start, size, dt, m);
      } else {
        var next := ResolveAgainst(ps[0], start, size, dt, m);
        PassThroughIgnored(ps[1..], start, size, dt, next);
        assert ([ps[0]] + Blocking(ps[1..]))[1..] == Blocking(ps[1..]);
      }
    }
  }

  // ---------------------------------------------------------------------------
  // Queries

  /** Grounded exactly when a solid platform meets the box lowered by 0.1 or a semi-solid one
      catches it falling at 0.1; pass-through platforms never count. */
  lemma OnGroundIff(ps: seq<Platform>, position: Vec2, size: Vec2)
    ensures OnGround(ps, position, size) <==>
              (exists i :: 0 <= i < |ps| && ps[i].kind == Solid
                           && CheckCollision(ps[i], Vec2(position.x, position.y - 0.1), size))
              || (exists i :: 0 <= i < |ps| && ps[i].kind == SemiSolid
                              && CheckCollisionFromAbove(ps[i], position, size, Vec2(0.0, -0.1)))
  {
    if OnGround(ps, position, size) {
      var i :| 0 <= i < |ps| && GroundedBy(ps[i], position, size);
      assert Sub(position, Vec2(0.0, 0.1)) == Vec2(position.x, position.y - 0.1);
    }
  }

  /** A stage whose platforms are all pass-through never grounds anyone. */
  lemma PassThroughNeverGrounds(ps: seq<Platform>, position: Vec2, size: Vec2)
    requires forall i :: 0 <= i < |ps| ==> ps[i].kind == PassThrough
    ensures !OnGround(ps, position, size)
  {
  }

  /** Out of bounds means strictly outside the closed blast-zone rectangle. */
  lemma OutOfBoundsIff(bz: BlastZone, position: Vec2)
    ensures OutOfBounds(bz, position) <==>
              !(bz.left <= position.x <= bz.right && bz.bottom <= position.y <= bz.top)
  {
  }

  /** The default stage: its four spawns by index, and the fallback for any other index. */
  lemma DefaultSpawnLookup(index: int)
    ensures index == 0 ==> SpawnPosition(DefaultLayout.spawns, index) == Vec2(-5.0, 5.0)
    ensures index == 1 ==> SpawnPosition(DefaultLayout.spawns, index) == Vec2(5.0, 5.0)
    ensures index == 2 ==> SpawnPosition(DefaultLayout.spawns, index) == Vec2(-2.5, 5.0)
    ensures index == 3 ==> SpawnPosition(DefaultLayout.spawns, index) == Vec2(2.5, 5.0)
    ensures !(0 <= index < 4) ==> SpawnPosition(DefaultLayout.spawns, index) == Vec2(0.0, 5.0)
  {
  }

  // ---------------------------------------------------------------------------
  // The blast zone

  /** Leaving the blast zone never costs a life or percent: the no-knockback hit cannot be a
      knockout. The character ends stunned and at rest, and back at the first spawn point
      when it has lives left. Inside the zone nothing happens. */
  lemma BlastOutcome(L: StageLayout, d: FighterData)
    requires d.weight != 0.0
    ensures var r := BlastStep(L, d);
            && r.lives == d.lives
            && r.damagePercent == d.damagePercent
            && (OutOfBounds(L.blastZone, d.position) ==>
                  && r.velocity == Zero2
                  && r.state == Damaged
                  && r.stateTimer == 0.5
                  && r.position == (if d.lives > 0 then SpawnPosition(L.spawns, 0) else d.position))
            && (!OutOfBounds(L.blastZone, d.position) ==> r == d)
  {
    var hit := TakeDamageSpec(d, 0, 0.0, Zero2);
    assert EffectiveKnockback(0.0, d.damagePercent + 0 as real, d.weight) == 0.0;
    assert hit.lives == d.lives;
  }

  /** The stage step keeps a fighter well formed and never changes its lives or percent. */
  lemma StageStepKeepsWellFormed(L: StageLayout, d: FighterData, dt: real)
    requires WellFormed(d)
    ensures WellFormed(StageStep(L, d, dt))
    ensures StageStep(L, d, dt).lives == d.lives
    ensures StageStep(L, d, dt).damagePercent == d.damagePercent
  {
    var g := GroundStep(L, ResolveStep(L, d, dt));
    assert WellFormed(g);
    BlastOutcome(L, g);
  }
}
