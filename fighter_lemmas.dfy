/** Properties of the combatant operations, stated over `FighterSpec`. */
module FighterLemmas {
  import opened Vectors
  import opened CharacterTypes
  import opened FighterSpec

  /** One tick: the hitbox list ends empty, gravity with the fall-speed clamp is applied,
      the position advances by the new velocity, and lives and percent are untouched. */
  lemma UpdateTick(d: FighterData, dt: real)
    ensures var r := UpdateSpec(d, dt);
            && r.activeHitboxes == []
            && r.velocity.y == Fall(d.velocity.y, dt)
            && r.velocity.y >= -MaxFallSpeed
            && r.position == Add(d.position, Scale(r.velocity, dt))
            && r.lives == d.lives
            && r.damagePercent == d.damagePercent
  {
  }

  /** Friction applies exactly when grounded and not stunned. */
  lemma UpdateFriction(d: FighterData, dt: real)
    ensures var r := UpdateSpec(d, dt);
            r.velocity.x == if d.onGround && d.state != Damaged then Friction(d.velocity.x) else d.velocity.x
  {
  }

  /** The machine state after a tick: a forced state runs its timer down and ends in Idle or
      Falling; every other state, Dead included, is re-derived from ground and velocity. */
  lemma UpdateStateOutcome(d: FighterData, dt: real)
    ensures var r := UpdateSpec(d, dt);
            && (IsForced(d.state) && d.stateTimer - dt > 0.0 ==>
                  r.state == d.state && r.stateTimer == d.stateTimer - dt)
            && (IsForced(d.state) && d.stateTimer - dt <= 0.0 ==>
                  r.state == (if d.onGround then Idle else Falling) && r.stateTimer == 0.0)
            && (!IsForced(d.state) ==>
                  r.state == DeriveFreeState(d.onGround, d.velocity) && r.stateTimer == d.stateTimer)
  {
  }

  /** A tick never leaves a fighter Dead: Dead is re-derived like a free state. */
  lemma UpdateNeverLeavesDead(d: FighterData, dt: real)
    ensures UpdateSpec(d, dt).state != Dead
    ensures d.state == Dead ==> !IsForced(UpdateSpec(d, dt).state)
  {
  }

  /** Every cooldown after a tick: running ones count down and stop at zero, idle ones stay. */
  lemma CooldownTick(d: FighterData, dt: real)
    ensures var r := UpdateSpec(d, dt);
            && r.specialCooldowns.Keys == d.specialCooldowns.Keys
            && forall k :: k in d.specialCooldowns ==>
                 && (d.specialCooldowns[k] > 0.0 ==> r.specialCooldowns[k] == Max(d.specialCooldowns[k] - dt, 0.0))
                 && (d.specialCooldowns[k] <= 0.0 ==> r.specialCooldowns[k] == d.specialCooldowns[k])
  {
  }

  /** While attacking or performing a special, both attack entry points are refused. */
  lemma BusyRefusesAttacks(d: FighterData, k: AttackType)
    requires IsBusy(d.state)
    ensures AttackSpec(d, k) == d
    ensures SpecialAttackSpec(d, k) == d
  {
  }

  /** An accepted ordinary attack: Attacking for the archetype's duration, animation
      restarted, exactly one hitbox appended, nothing else touched. */
  lemma AttackAccepted(d: FighterData, k: AttackType)
    requires !IsBusy(d.state)
    ensures var r := AttackSpec(d, k);
            && r.state == Attacking
            && r.stateTimer == AttackDuration(d.fighterType) > 0.0
            && r.animationTimer == 0.0 && r.currentFrame == 0
            && |r.activeHitboxes| == |d.activeHitboxes| + 1
            && r.activeHitboxes[..|d.activeHitboxes|] == d.activeHitboxes
            && r.activeHitboxes[|d.activeHitboxes|] == MakeHitbox(k, d.fighterType, d.size, d.facingRight)
            && r.position == d.position && r.velocity == d.velocity
            && r.lives == d.lives && r.damagePercent == d.damagePercent
            && r.specialCooldowns == d.specialCooldowns
  {
  }

  /** A special whose cooldown is still running changes nothing. */
  lemma SpecialOnCooldown(d: FighterData, k: AttackType)
    requires k in d.specialCooldowns && d.specialCooldowns[k] > 0.0
    ensures SpecialAttackSpec(d, k) == d
  {
  }

  /** An accepted special: timer and cooldown from the kind and archetype tables, one hitbox,
      and a velocity change only for the Up and Side specials. */
  lemma SpecialAccepted(d: FighterData, k: AttackType)
    requires !IsBusy(d.state) && k.IsSpecial()
    requires k !in d.specialCooldowns || d.specialCooldowns[k] <= 0.0
    ensures var r := SpecialAttackSpec(d, k);
            && r.state == Special
            && r.stateTimer == SpecialDuration(k, d.fighterType)
            && r.specialCooldowns == d.specialCooldowns[k := SpecialCooldown(k, d.fighterType)]
            && r.specialCooldowns[k] > 0.0
            && |r.activeHitboxes| == |d.activeHitboxes| + 1
            && r.activeHitboxes[..|d.activeHitboxes|] == d.activeHitboxes
            && r.activeHitboxes[|d.activeHitboxes|] == MakeHitbox(k, d.fighterType, d.size, d.facingRight)
            && (k == SpecialUp ==> r.velocity == Vec2(d.velocity.x, 1.5 * d.jumpForce))
            && (k == SpecialSide ==>
                  r.velocity == Vec2(if d.facingRight then 2.0 * d.moveSpeed else -2.0 * d.moveSpeed, d.velocity.y))
            && (k != SpecialUp && k != SpecialSide ==> r.velocity == d.velocity)
  {
  }

  /** Right after an accepted special, the same special is refused until its cooldown has
      run down, whatever else has happened to the fighter meanwhile. */
  lemma SpecialCooldownBlocksRepeat(d: FighterData, k: AttackType, later: FighterData)
    requires !IsBusy(d.state) && k.IsSpecial()
    requires k !in d.specialCooldowns || d.specialCooldowns[k] <= 0.0
    requires later.specialCooldowns == SpecialAttackSpec(d, k).specialCooldowns
    ensures SpecialAttackSpec(later, k) == later
  {
    SpecialAccepted(d, k);
  }

  /** `specialAttack` with an ordinary kind: the state becomes Special with no timer,
      no hitbox and no cooldown started; at most a 0 entry for that kind is added. */
  lemma SpecialWithOrdinaryKind(d: FighterData, k: AttackType)
    requires !IsBusy(d.state) && !k.IsSpecial()
    requires k !in d.specialCooldowns || d.specialCooldowns[k] <= 0.0
    ensures var r := SpecialAttackSpec(d, k);
            && r.state == Special
            && r.stateTimer == d.stateTimer
            && r.activeHitboxes == d.activeHitboxes
            && r.velocity == d.velocity
            && r.specialCooldowns == (if k in d.specialCooldowns then d.specialCooldowns
                                      else d.specialCooldowns[k := 0.0])
            && (forall s: AttackType :: s.IsSpecial() && s in d.specialCooldowns ==>
                  r.specialCooldowns[s] == d.specialCooldowns[s])
  {
  }

  /** Moving always sets the horizontal speed and the facing; it only switches to Running
      on the ground outside an attack. */
  lemma MoveOutcome(d: FighterData, right: bool)
    ensures var r := MoveSpec(d, right);
            && r.velocity == Vec2(if right then d.moveSpeed else -d.moveSpeed, d.velocity.y)
            && r.facingRight == right
            && (r.state == Running || r.state == d.state)
            && (r.state != d.state ==> d.onGround && !IsBusy(d.state))
            && (d.onGround && !IsBusy(d.state) ==> r.state == Running)
            && r.position == d.position && r.lives == d.lives
  {
  }

  /** A jump happens only from the ground or with the jump flag, and consumes both flags. */
  lemma JumpOutcome(d: FighterData)
    ensures var r := JumpSpec(d);
            && (d.onGround || d.canJump ==>
                  r.velocity == Vec2(d.velocity.x, d.jumpForce) && !r.onGround && !r.canJump
                  && r.state == Jumping)
            && (!d.onGround && !d.canJump ==> r == d)
  {
  }

  /** A hit overwrites the velocity with the knockback and stuns; a knockout (over 150% with
      more than 20 units of knockback) costs exactly one life, killing the fighter on its last
      life and otherwise resetting the percent and moving it to the respawn point. */
  lemma TakeDamageOutcome(d: FighterData, damage: int, knockback: real, direction: Vec2)
    requires d.weight != 0.0
    ensures var r := TakeDamageSpec(d, damage, knockback, direction);
            var percent := d.damagePercent + damage as real;
            var total := EffectiveKnockback(knockback, percent, d.weight);
            && r.velocity == Scale(direction, total)
            && (r.lives == d.lives - 1 <==> IsKnockout(percent, total))
            && (!IsKnockout(percent, total) ==> r.lives == d.lives)
            && (r.state == Dead <==> IsKnockout(percent, total) && d.lives <= 1)
            && (r.state != Dead ==> r.state == Damaged)
            && r.stateTimer == 0.5
            && (if IsKnockout(percent, total) && d.lives > 1
                then r.damagePercent == 0.0 && r.position == RespawnPoint
                else r.damagePercent == percent && r.position == d.position)
  {
  }

  /** A knockout is the only way to lose a life, and lives never go up. The percent only
      drops on the respawn that follows a non-fatal knockout. */
  lemma DamageMonotone(d: FighterData, damage: int, knockback: real, direction: Vec2)
    requires d.weight != 0.0 && damage >= 0
    ensures var r := TakeDamageSpec(d, damage, knockback, direction);
            && r.lives <= d.lives
            && (r.damagePercent >= d.damagePercent
                || (r.damagePercent == 0.0 && r.lives == d.lives - 1 && r.lives > 0
                    && r.position == RespawnPoint))
  {
  }

  /** No operation other than a hit changes lives or percent. */
  lemma OnlyHitsChangeLives(d: FighterData, right: bool, k: AttackType)
    ensures MoveSpec(d, right).lives == d.lives && MoveSpec(d, right).damagePercent == d.damagePercent
    ensures JumpSpec(d).lives == d.lives && JumpSpec(d).damagePercent == d.damagePercent
    ensures AttackSpec(d, k).lives == d.lives && AttackSpec(d, k).damagePercent == d.damagePercent
    ensures SpecialAttackSpec(d, k).lives == d.lives
    ensures SpecialAttackSpec(d, k).damagePercent == d.damagePercent
    ensures TauntSpec(d).lives == d.lives && TauntSpec(d).damagePercent == d.damagePercent
  {
  }

  /** A new fighter is well formed and every special is immediately available. */
  lemma NewFighterReady(t: FighterType, p: Vec2, k: AttackType)
    requires k.IsSpecial()
    ensures WellFormed(NewFighter(t, p))
    ensures SpecialAttackSpec(NewFighter(t, p), k).state == Special
    ensures SpecialAttackSpec(NewFighter(t, p), k).specialCooldowns[k] > 0.0
  {
  }

  lemma TickCooldownsKeepsWellFormed(m: map<AttackType, real>, dt: real)
    requires forall k :: k in m ==> m[k] >= 0.0
    ensures TickCooldownsSpec(m, dt).Keys == m.Keys
    ensures forall k :: k in TickCooldownsSpec(m, dt) ==> TickCooldownsSpec(m, dt)[k] >= 0.0
  {
  }

  /** Every operation preserves `WellFormed`. */
  lemma UpdateKeepsWellFormed(d: FighterData, dt: real)
    requires WellFormed(d)
    ensures WellFormed(UpdateSpec(d, dt))
  {
    var u := UpdateStateSpec(d);
    var g := ApplyGravitySpec(u, dt);
    var i := IntegrateSpec(UpdateHitboxesSpec(g), dt);
    assert WellFormed(i);
    var b := StateTimerSpec(i, dt);
    assert b == BaseUpdateSpec(d, dt);
    assert WellFormed(b);
    var a := AnimateSpec(b, dt);
    assert WellFormed(a);
    TickCooldownsKeepsWellFormed(a.specialCooldowns, dt);
  }

  lemma ActionsKeepWellFormed(d: FighterData, right: bool, k: AttackType)
    requires WellFormed(d)
    ensures WellFormed(MoveSpec(d, right))
    ensures WellFormed(JumpSpec(d))
    ensures WellFormed(AttackSpec(d, k))
    ensures WellFormed(TauntSpec(d))
  {
  }

  lemma SpecialKeepsWellFormed(d: FighterData, k: AttackType)
    requires WellFormed(d)
    ensures WellFormed(SpecialAttackSpec(d, k))
  {
    var cooldowns := if IsBusy(d.state) then d.specialCooldowns else CooldownsAfterLookup(d, k);
    assert forall a :: a in cooldowns ==> cooldowns[a] >= 0.0;
    var looked := d.(specialCooldowns := cooldowns, state := if SpecialReady(d, k) then Special else d.state);
    assert WellFormed(looked);
    if SpecialReady(d, k) && k.IsSpecial() {
      var after := looked.specialCooldowns[k := SpecialCooldown(k, d.fighterType)];
      assert forall a :: a in after ==> after[a] >= 0.0;
      assert WellFormed(LaunchSpecialSpec(looked, k));
    }
  }

  lemma TakeDamageKeepsWellFormed(d: FighterData, damage: int, knockback: real, direction: Vec2)
    requires WellFormed(d)
    ensures WellFormed(TakeDamageSpec(d, damage, knockback, direction))
  {
    ArchetypeProfiles(d.fighterType);
  }

  /** Proof helper: a hitbox mirrored left to right, its offset and direction flipped
      horizontally. */
  function Mirror(h: Hitbox): Hitbox {
    h.(offset := Vec2(-h.offset.x, h.offset.y),
       knockbackDirection := Vec2(-h.knockbackDirection.x, h.knockbackDirection.y))
  }

  lemma HitboxFacingMirror(k: AttackType, t: FighterType, size: Vec2)
    ensures MakeHitbox(k, t, size, false) == Mirror(MakeHitbox(k, t, size, true))
    ensures k.IsVertical() ==> MakeHitbox(k, t, size, false) == MakeHitbox(k, t, size, true)
  {
  }

  /** The archetype adjustments, relative to the unadjusted Balanced hitbox. */
  lemma HitboxArchetypeScaling(k: AttackType, size: Vec2, facingRight: bool)
    ensures var b := MakeHitbox(k, Balanced, size, facingRight);
            && b == BaseHitbox(k, size, facingRight)
            && MakeHitbox(k, Technical, size, facingRight) == b.(knockbackScaling := b.knockbackScaling * 1.2)
            && MakeHitbox(k, Heavy, size, facingRight)
               == b.(damage := (b.damage as real * 1.3).Floor, knockbackBase := b.knockbackBase * 1.2,
                     radius := b.radius * 1.1)
            && MakeHitbox(k, Speedy, size, facingRight)
               == b.(damage := (b.damage as real * 0.9).Floor, knockbackBase := b.knockbackBase * 0.9,
                     radius := b.radius * 0.9)
            && MakeHitbox(k, Speedy, size, facingRight).damage <= b.damage
            && b.damage <= MakeHitbox(k, Heavy, size, facingRight).damage
  {
  }

  /** The archetypes as their descriptions promise: Heavy is the slowest and heaviest,
      Speedy the fastest, lightest and highest-jumping. */
  lemma ArchetypeProfiles(t: FighterType)
    ensures t != Heavy ==> MoveSpeed(Heavy) < MoveSpeed(t) && Weight(t) < Weight(Heavy)
    ensures t != Speedy ==> MoveSpeed(t) < MoveSpeed(Speedy) && Weight(Speedy) < Weight(t)
                            && JumpForce(t) < JumpForce(Speedy)
    ensures Weight(t) > 0.0
  {
  }
}
