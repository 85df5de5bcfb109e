/** The behaviour of one combatant as functions over a value snapshot of its fields.
    The class `Combatant.Fighter` performs each operation in place and is proved to
    agree with the function of the same name here. */
module FighterSpec {
  import opened Vectors
  import opened CharacterTypes

  // ---------------------------------------------------------------------------
  // Per-archetype tables

  function MoveSpeed(t: FighterType): (r: real)
    ensures r > 0.0
  {
    match t
    case Balanced => 5.0
    case Heavy => 3.5
    case Speedy => 7.0
    case Technical => 4.5
  }

  function JumpForce(t: FighterType): (r: real)
    ensures r > 0.0
  {
    match t
    case Balanced => 10.0
    case Heavy => 8.0
    case Speedy => 11.0
    case Technical => 9.5
  }

  function Weight(t: FighterType): (r: real)
    ensures r > 0.0
  {
    match t
    case Balanced => 1.0
    case Heavy => 1.5
    case Speedy => 0.8
    case Technical => 0.9
  }

  /** How long an ordinary attack locks the fighter in the Attacking state. */
  function AttackDuration(t: FighterType): (r: real)
    ensures r > 0.0
  {
    match t
    case Balanced => 0.3
    case Heavy => 0.5
    case Speedy => 0.2
    case Technical => 0.4
  }

  function SpecialBaseDuration(k: AttackType): real
    requires k.IsSpecial()
  {
    match k
    case SpecialNeutral => 0.5
    case SpecialUp => 0.4
    case SpecialDown => 0.6
    case SpecialSide => 0.4
  }

  function SpecialBaseCooldown(k: AttackType): real
    requires k.IsSpecial()
  {
    match k
    case SpecialNeutral => 1.0
    case SpecialUp => 2.0
    case SpecialDown => 1.5
    case SpecialSide => 1.2
  }

  function SpecialDurationFactor(t: FighterType): real {
    match t
    case Balanced => 1.0
    case Heavy => 1.3
    case Speedy => 0.8
    case Technical => 0.9
  }

  function SpecialCooldownFactor(t: FighterType): real {
    match t
    case Balanced => 1.0
    case Heavy => 1.2
    case Speedy => 0.9
    case Technical => 0.8
  }

  function SpecialDuration(k: AttackType, t: FighterType): (r: real)
    requires k.IsSpecial()
    ensures r > 0.0
  {
    SpecialBaseDuration(k) * SpecialDurationFactor(t)
  }

  /** An accepted special always starts a cooldown that is still running afterwards. */
  function SpecialCooldown(k: AttackType, t: FighterType): (r: real)
    requires k.IsSpecial()
    ensures r > 0.0
  {
    SpecialBaseCooldown(k) * SpecialCooldownFactor(t)
  }

  // ---------------------------------------------------------------------------
  // The hitbox generator

  /** The hitbox of an attack kind before the archetype adjustment. */
  function BaseHitbox(k: AttackType, size: Vec2, facingRight: bool): Hitbox {
    var sign := if facingRight then 1.0 else -1.0;
    match k
    case Neutral =>
      Hitbox(Vec2(sign * (size.x * 0.5), 0.0), size.x * 0.6, 5, 5.0, 0.1, Vec2(sign, 0.5))
    case Up =>
      Hitbox(Vec2(0.0, size.y * 0.5), size.x * 0.5, 4, 4.0, 0.12, Vec2(0.0, 1.0))
    case Down =>
      Hitbox(Vec2(0.0, -(size.y * 0.5)), size.x * 0.5, 6, 3.0, 0.08, Vec2(0.0, -1.0))
    case Side =>
      Hitbox(Vec2(sign * (size.x * 0.7), 0.0), size.x * 0.7, 7, 6.0, 0.15, Vec2(sign, 0.2))
    case SpecialNeutral =>
      Hitbox(Vec2(0.0, 0.0), size.x * 0.8, 10, 7.0, 0.2, Vec2(sign, 0.5))
    case SpecialUp =>
      Hitbox(Vec2(0.0, size.y * 0.8), size.x * 0.7, 8, 6.0, 0.18, Vec2(0.0, 1.0))
    case SpecialDown =>
      Hitbox(Vec2(0.0, -(size.y * 0.5)), size.x * 1.0, 12, 5.0, 0.15, Vec2(0.0, -0.8))
    case SpecialSide =>
      Hitbox(Vec2(sign * (size.x * 1.0), 0.0), size.x * 0.9, 9, 8.0, 0.22, Vec2(sign, 0.1))
  }

  /** The archetype adjustment applied to every generated hitbox. */
  function ScaleHitbox(t: FighterType, h: Hitbox): Hitbox {
    match t
    case Balanced => h
    case Heavy =>
      h.(damage := TruncToInt(h.damage as real * 1.3),
         knockbackBase := h.knockbackBase * 1.2,
         radius := h.radius * 1.1)
    case Speedy =>
      h.(damage := TruncToInt(h.damage as real * 0.9),
         knockbackBase := h.knockbackBase * 0.9,
         radius := h.radius * 0.9)
    case Technical =>
      h.(knockbackScaling := h.knockbackScaling * 1.2)
  }

  function MakeHitbox(k: AttackType, t: FighterType, size: Vec2, facingRight: bool): Hitbox {
    ScaleHitbox(t, BaseHitbox(k, size, facingRight))
  }

  // ---------------------------------------------------------------------------
  // The snapshot of a combatant

  datatype FighterData = FighterData(
    fighterType: FighterType,
    position: Vec2,
    velocity: Vec2,
    size: Vec2,
    damagePercent: real,
    lives: int,
    moveSpeed: real,
    jumpForce: real,
    weight: real,
    state: CharacterState,
    stateTimer: real,
    facingRight: bool,
    onGround: bool,
    canJump: bool,
    activeHitboxes: seq<Hitbox>,
    animationTimes: map<CharacterState, real>,
    animationTimer: real,
    currentFrame: int,
    specialCooldowns: map<AttackType, real>)

  const FighterSize: Vec2 := Vec2(1.0, 2.0)
  const InitialLives: int := 3
  /** Where a knocked-out combatant with lives left reappears. */
  const RespawnPoint: Vec2 := Vec2(0.0, 5.0)

  const InitialAnimationTimes: map<CharacterState, real> :=
    map[Idle := 0.5, Running := 0.3, Jumping := 0.2, Falling := 0.2,
        Attacking := 0.1, Special := 0.1, Damaged := 0.1]

  const InitialCooldowns: map<AttackType, real> :=
    map[SpecialNeutral := 0.0, SpecialUp := 0.0, SpecialDown := 0.0, SpecialSide := 0.0]

  /** A freshly constructed fighter of archetype `t` standing at `position`. */
  function NewFighter(t: FighterType, position: Vec2): FighterData {
    FighterData(
      t, position, Zero2, FighterSize,
      0.0, InitialLives,
      MoveSpeed(t), JumpForce(t), Weight(t),
      Idle, 0.0,
      true, false, false,
      [],
      InitialAnimationTimes, 0.0, 0,
      InitialCooldowns)
  }

  /** What every operation keeps true of a fighter. */
  predicate WellFormed(d: FighterData) {
    && d.moveSpeed == MoveSpeed(d.fighterType)
    && d.jumpForce == JumpForce(d.fighterType)
    && d.weight == Weight(d.fighterType)
    && d.size == FighterSize
    && d.lives <= InitialLives
    && d.stateTimer >= 0.0
    && SpecialNeutral in d.specialCooldowns && SpecialUp in d.specialCooldowns
    && SpecialDown in d.specialCooldowns && SpecialSide in d.specialCooldowns
    && (forall k :: k in d.specialCooldowns ==> d.specialCooldowns[k] >= 0.0)
  }

  // ---------------------------------------------------------------------------
  // The per-frame update

  /** The free state re-derived from the grounded flag and the velocity. */
  function DeriveFreeState(onGround: bool, v: Vec2): CharacterState {
    if onGround then
      (if Abs(v.x) < 0.1 then Idle else Running)
    else
      (if v.y > 0.0 then Jumping else Falling)
  }

  /** Ground friction on the horizontal speed, with the snap to rest below 0.1. */
  function Friction(vx: real): (r: real)
    ensures r == 0.0 || Abs(r) >= 0.1
    ensures Abs(r) <= Abs(vx)
    ensures r * vx >= 0.0
    ensures vx != 0.0 ==> Abs(r) < Abs(vx)
  {
    var f := vx * 0.9;
    if Abs(f) < 0.1 then 0.0 else f
  }

  function UpdateStateSpec(d: FighterData): FighterData {
    var s := if IsForced(d.state) then d.state else DeriveFreeState(d.onGround, d.velocity);
    var vx := if d.onGround && s != Damaged then Friction(d.velocity.x) else d.velocity.x;
    d.(state := s, velocity := Vec2(vx, d.velocity.y))
  }

  /** The vertical speed after one tick of gravity: max(vy - g*dt, -MaxFallSpeed). */
  function Fall(vy: real, dt: real): (r: real)
    ensures r >= -MaxFallSpeed
    ensures r >= vy - Gravity * dt
    ensures r == vy - Gravity * dt || r == -MaxFallSpeed
  {
    Max(vy - Gravity * dt, -MaxFallSpeed)
  }

  function ApplyGravitySpec(d: FighterData, dt: real): FighterData {
    d.(velocity := Vec2(d.velocity.x, Fall(d.velocity.y, dt)))
  }

  function UpdateHitboxesSpec(d: FighterData): FighterData {
    d.(activeHitboxes := [])
  }

  function IntegrateSpec(d: FighterData, dt: real): FighterData {
    d.(position := Add(d.position, Scale(d.velocity, dt)))
  }

  /** Whether the forced-state countdown runs out during this tick. */
  predicate TimerExpires(d: FighterData, dt: real) {
    IsForced(d.state) && d.stateTimer - dt <= 0.0
  }

  /** The forced-state countdown: on expiry the fighter lands in Idle or Falling with the
      timer at zero; outside a forced state the timer is left alone. */
  function StateTimerSpec(d: FighterData, dt: real): FighterData {
    d.(state := if TimerExpires(d, dt) then (if d.onGround then Idle else Falling) else d.state,
       stateTimer := if !IsForced(d.state) then d.stateTimer
                     else if TimerExpires(d, dt) then 0.0
                     else d.stateTimer - dt)
  }

  /** The base-entity part of a tick: state, gravity, hitbox clearing, motion, timer. */
  function BaseUpdateSpec(d: FighterData, dt: real): FighterData {
    StateTimerSpec(IntegrateSpec(UpdateHitboxesSpec(ApplyGravitySpec(UpdateStateSpec(d), dt)), dt), dt)
  }

  /** The animation table lookup inserts a 0 entry for a state it does not know. */
  function AnimationTimesAfterLookup(d: FighterData): map<CharacterState, real> {
    if d.state in d.animationTimes then d.animationTimes else d.animationTimes[d.state := 0.0]
  }

  /** The frame time of the current state: its table entry, or 0.5 when that is not positive. */
  function FrameTime(d: FighterData): real {
    var times := AnimationTimesAfterLookup(d);
    if times[d.state] <= 0.0 then 0.5 else times[d.state]
  }

  /** The animation clock: it advances by `dt` and wraps to zero, stepping the frame, once it
      reaches the frame time. */
  function AnimateSpec(d: FighterData, dt: real): FighterData {
    var advance := d.animationTimer + dt >= FrameTime(d);
    d.(animationTimes := AnimationTimesAfterLookup(d),
       animationTimer := if advance then 0.0 else d.animationTimer + dt,
       currentFrame := if advance then d.currentFrame + 1 else d.currentFrame)
  }

  /** One cooldown after a tick: a running cooldown counts down and stops at zero. */
  function CooldownStep(c: real, dt: real): (r: real)
    ensures c >= 0.0 ==> r >= 0.0
    ensures c == 0.0 ==> r == 0.0
    ensures c > 0.0 && dt >= 0.0 ==> r <= c
    ensures c > 0.0 && r > 0.0 ==> r == c - dt
  {
    if c > 0.0 then (if c - dt < 0.0 then 0.0 else c - dt) else c
  }

  function TickCooldownsSpec(m: map<AttackType, real>, dt: real): map<AttackType, real> {
    map k | k in m :: CooldownStep(m[k], dt)
  }

  /** A whole fighter tick: the base update, the animation, then the cooldowns. */
  function UpdateSpec(d: FighterData, dt: real): FighterData {
    var a := AnimateSpec(BaseUpdateSpec(d, dt), dt);
    a.(specialCooldowns := TickCooldownsSpec(a.specialCooldowns, dt))
  }

  // ---------------------------------------------------------------------------
  // Movement

  function MoveSpec(d: FighterData, right: bool): FighterData {
    var s := if d.onGround && !IsBusy(d.state) then Running else d.state;
    d.(velocity := Vec2(if right then d.moveSpeed else -d.moveSpeed, d.velocity.y),
       facingRight := right,
       state := s)
  }

  /** A jump needs the ground or the jump flag; it launches upward and clears both flags. */
  function JumpSpec(d: FighterData): FighterData {
    var go := d.onGround || d.canJump;
    d.(velocity := if go then Vec2(d.velocity.x, d.jumpForce) else d.velocity,
       onGround := if go then false else d.onGround,
       canJump := if go then false else d.canJump,
       state := if go then Jumping else d.state)
  }

  // ---------------------------------------------------------------------------
  // Attacks

  /** An ordinary attack, refused while busy: the Attacking state for the archetype's
      duration, the animation restarted and the attack's hitbox appended. */
  function AttackSpec(d: FighterData, k: AttackType): FighterData {
    var go := !IsBusy(d.state);
    d.(state := if go then Attacking else d.state,
       stateTimer := if go then AttackDuration(d.fighterType) else d.stateTimer,
       animationTimer := if go then 0.0 else d.animationTimer,
       currentFrame := if go then 0 else d.currentFrame,
       activeHitboxes := if go then d.activeHitboxes + [MakeHitbox(k, d.fighterType, d.size, d.facingRight)]
                         else d.activeHitboxes)
  }

  /** The velocity a special imparts: an upward launch for Up, a dash for Side. */
  function SpecialVelocity(d: FighterData, k: AttackType): Vec2 {
    match k
    case SpecialUp => Vec2(d.velocity.x, d.jumpForce * 1.5)
    case SpecialSide =>
      Vec2(if d.facingRight then d.moveSpeed * 2.0 else -(d.moveSpeed * 2.0), d.velocity.y)
    case _ => d.velocity
  }

  /** The cooldown table after looking up `k`, which inserts a 0 entry when absent. */
  function CooldownsAfterLookup(d: FighterData, k: AttackType): map<AttackType, real> {
    if k in d.specialCooldowns then d.specialCooldowns else d.specialCooldowns[k := 0.0]
  }

  /** Whether a special of kind `k` gets past the busy check and its cooldown lookup. */
  predicate SpecialReady(d: FighterData, k: AttackType) {
    !IsBusy(d.state) && CooldownsAfterLookup(d, k)[k] <= 0.0
  }

  /** The special's own effect once it is accepted: timer, cooldown, launch and hitbox. */
  function LaunchSpecialSpec(d: FighterData, k: AttackType): FighterData
    requires k.IsSpecial()
  {
    d.(velocity := SpecialVelocity(d, k),
       stateTimer := SpecialDuration(k, d.fighterType),
       specialCooldowns := d.specialCooldowns[k := SpecialCooldown(k, d.fighterType)],
       animationTimer := 0.0,
       currentFrame := 0,
       activeHitboxes := d.activeHitboxes + [MakeHitbox(k, d.fighterType, d.size, d.facingRight)])
  }

  /** A special: refused while busy; otherwise the cooldown lookup may insert a zero entry
      and a running cooldown refuses it; an ordinary kind only enters the Special state. */
  function SpecialAttackSpec(d: FighterData, k: AttackType): FighterData {
    var looked := d.(specialCooldowns := if IsBusy(d.state) then d.specialCooldowns
                                         else CooldownsAfterLookup(d, k),
                     state := if SpecialReady(d, k) then Special else d.state);
    if SpecialReady(d, k) && k.IsSpecial() then LaunchSpecialSpec(looked, k) else looked
  }

  /** A taunt on the ground outside an attack stops the fighter and sets a one-second timer. */
  function TauntSpec(d: FighterData): FighterData {
    var go := !IsBusy(d.state) && d.onGround;
    d.(velocity := if go then Zero2 else d.velocity,
       stateTimer := if go then 1.0 else d.stateTimer)
  }

  // ---------------------------------------------------------------------------
  // Damage

  /** The knockback speed actually imparted, after the damage curve and the weight. */
  function EffectiveKnockback(knockback: real, percent: real, weight: real): real
    requires weight != 0.0
  {
    knockback * (1.0 + percent * 0.01) / weight
  }

  /** A hit that takes the fighter over 150% with more than 20 units of knockback. */
  predicate IsKnockout(percent: real, totalKnockback: real) {
    percent > 150.0 && totalKnockback > 20.0
  }

  /** A hit: the percent grows, the velocity is overwritten by the knockback and the fighter
      is stunned; a knockout costs one life and either kills or respawns. */
  function TakeDamageSpec(d: FighterData, damage: int, knockback: real, direction: Vec2): FighterData
    requires d.weight != 0.0
  {
    var percent := d.damagePercent + damage as real;
    var total := EffectiveKnockback(knockback, percent, d.weight);
    var ko := IsKnockout(percent, total);
    var respawn := ko && d.lives - 1 > 0;
    d.(damagePercent := if respawn then 0.0 else percent,
       velocity := Scale(direction, total),
       state := if ko && d.lives - 1 <= 0 then Dead else Damaged,
       stateTimer := 0.5,
       lives := if ko then d.lives - 1 else d.lives,
       position := if respawn then RespawnPoint else d.position)
  }

}
