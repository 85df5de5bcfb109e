/** The stage's physics as functions: per-platform collision resolution folded over the
    platform list, the grounded probe, the blast-zone test, spawn lookup, and the per-character
    step that the stage applies every frame. */
module StageSpec {
  import opened Vectors
  import opened CharacterTypes
  import opened FighterSpec
  import opened Platforms

  /** The kill boundary. */
  datatype BlastZone = BlastZone(left: real, right: real, top: real, bottom: real)

  /** Everything about a stage that its physics reads. */
  datatype StageLayout = StageLayout(platforms: seq<Platform>, blastZone: BlastZone, spawns: seq<Vec2>)

  const DefaultBlastZone: BlastZone := BlastZone(-15.0, 15.0, 10.0, -10.0)
  const DefaultSpawns: seq<Vec2> := [Vec2(-5.0, 5.0), Vec2(5.0, 5.0), Vec2(-2.5, 5.0), Vec2(2.5, 5.0)]
  const FallbackSpawn: Vec2 := Vec2(0.0, 5.0)

  /** One solid main platform and three semi-solid ledges. */
  const DefaultPlatforms: seq<Platform> := [
    Platform(Vec2(0.0, 0.0), Vec2(10.0, 1.0), Solid),
    Platform(Vec2(-5.0, 2.0), Vec2(3.0, 0.5), SemiSolid),
    Platform(Vec2(5.0, 2.0), Vec2(3.0, 0.5), SemiSolid),
    Platform(Vec2(0.0, 4.0), Vec2(4.0, 0.5), SemiSolid)
  ]

  const DefaultLayout: StageLayout := StageLayout(DefaultPlatforms, DefaultBlastZone, DefaultSpawns)

  // ---------------------------------------------------------------------------
  // Collision resolution

  /** The position being built and the velocity as the resolution loop holds them. */
  datatype Motion = Motion(position: Vec2, velocity: Vec2)

  /** A platform the loop looks at: semi-solid ones only while the held velocity points down. */
  predicate Considered(p: Platform, velocity: Vec2) {
    !(p.kind == SemiSolid && velocity.y >= 0.0)
  }

  /** One platform's turn. On a hit, keep the horizontal move if that alone is free (dropping
      vertical speed), else the vertical move if that alone is free (dropping horizontal
      speed), else stay at the start with no speed. The trial moves start from `start`. */
  function ResolveAgainst(p: Platform, start: Vec2, size: Vec2, dt: real, m: Motion): Motion {
    var horizontal := Add(start, Vec2(m.velocity.x * dt, 0.0));
    var vertical := Add(start, Vec2(0.0, m.velocity.y * dt));
    var hit := Considered(p, m.velocity) && CheckCollision(p, m.position, size);
    var slide := !CheckCollision(p, horizontal, size);
    var climb := !CheckCollision(p, vertical, size);
    Motion(
      if !hit then m.position
      else if slide then Vec2(horizontal.x, m.position.y)
      else if climb then Vec2(m.position.x, vertical.y)
      else start,
      if !hit then m.velocity
      else if slide then Vec2(m.velocity.x, 0.0)
      else if climb then Vec2(0.0, m.velocity.y)
      else Zero2)
  }

  /** The platforms taken in order, each acting on what the previous ones left. */
  function ResolveFrom(ps: seq<Platform>, start: Vec2, size: Vec2, dt: real, m: Motion): Motion
    decreases |ps|
  {
    if ps == [] then m else ResolveFrom(ps[1..], start, size, dt, ResolveAgainst(ps[0], start, size, dt, m))
  }

  /** Where the full move by `velocity * dt` would put the character. */
  function Tentative(position: Vec2, velocity: Vec2, dt: real): Vec2 {
    Add(position, Scale(velocity, dt))
  }

  /** The resolved position and velocity of a character starting at `position`. */
  function Resolve(ps: seq<Platform>, position: Vec2, velocity: Vec2, size: Vec2, dt: real): Motion {
    ResolveFrom(ps, position, size, dt, Motion(Tentative(position, velocity, dt), velocity))
  }

  // ---------------------------------------------------------------------------
  // Queries

  /** The grounded probe of one platform: a semi-solid one by the landing test with a small
      downward speed, a solid one by the plain test 0.1 below; pass-through never grounds. */
  predicate GroundedBy(p: Platform, position: Vec2, size: Vec2) {
    match p.kind
    case SemiSolid => CheckCollisionFromAbove(p, position, size, Vec2(0.0, -0.1))
    case Solid => CheckCollision(p, Sub(position, Vec2(0.0, 0.1)), size)
    case PassThrough => false
  }

  predicate OnGround(ps: seq<Platform>, position: Vec2, size: Vec2) {
    exists i :: 0 <= i < |ps| && GroundedBy(ps[i], position, size)
  }

  predicate OutOfBounds(bz: BlastZone, position: Vec2) {
    position.x < bz.left || position.x > bz.right || position.y < bz.bottom || position.y > bz.top
  }

  function SpawnPosition(spawns: seq<Vec2>, index: int): Vec2 {
    if 0 <= index < |spawns| then spawns[index] else FallbackSpawn
  }

  // ---------------------------------------------------------------------------
  // The per-character stage step

  function ResolveStep(L: StageLayout, d: FighterData, dt: real): FighterData {
    var m := Resolve(L.platforms, d.position, d.velocity, d.size, dt);
    d.(position := m.position, velocity := m.velocity)
  }

  function GroundStep(L: StageLayout, d: FighterData): FighterData {
    d.(onGround := OnGround(L.platforms, d.position, d.size))
  }

  /** Leaving the blast zone is a hit of no damage and no knockback; a character with lives
      left is then put at the first spawn point, at rest. */
  function BlastStep(L: StageLayout, d: FighterData): FighterData
    requires d.weight != 0.0
  {
    var hit := TakeDamageSpec(d, 0, 0.0, Zero2);
    var out := OutOfBounds(L.blastZone, d.position);
    var respawn := out && hit.lives > 0;
    if !out then d
    else hit.(position := if respawn then SpawnPosition(L.spawns, 0) else hit.position,
              velocity := if respawn then Zero2 else hit.velocity)
  }

  function StageStep(L: StageLayout, d: FighterData, dt: real): FighterData
    requires d.weight != 0.0
  {
    BlastStep(L, GroundStep(L, ResolveStep(L, d, dt)))
  }

  /** All weights non-zero, so every hit is defined. */
  predicate Weighted(ds: seq<FighterData>) {
    forall q :: 0 <= q < |ds| ==> ds[q].weight != 0.0
  }

  function StageUpdateSpec(L: StageLayout, ds: seq<FighterData>, dt: real): (r: seq<FighterData>)
    requires Weighted(ds)
    ensures |r| == |ds| && Weighted(r)
  {
    seq(|ds|, q requires 0 <= q < |ds| => StageStep(L, ds[q], dt))
  }
}
