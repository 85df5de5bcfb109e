/** A combatant: the base entity and the fighter specialisation as one class carrying its
    archetype. Each method updates the fields in place, in the order the game does, and is
    proved to produce exactly the snapshot the matching `FighterSpec` function describes. */
module Combatant {
  import opened Vectors
  import opened CharacterTypes
  import opened FighterSpec
  import FighterLemmas

  class Fighter {
    const fighterType: FighterType
    var position: Vec2
    var velocity: Vec2
    const size: Vec2
    var damagePercent: real
    var lives: int
    const moveSpeed: real
    const jumpForce: real
    const weight: real
    var state: CharacterState
    var stateTimer: real
    var facingRight: bool
    var onGround: bool
    var canJump: bool
    var activeHitboxes: seq<Hitbox>
    var animationTimes: map<CharacterState, real>
    var animationTimer: real
    var currentFrame: int
    var specialCooldowns: map<AttackType, real>

    /** The current field values as one value. */
    function Snapshot(): FighterData
      reads this
    {
      FighterData(fighterType, position, velocity, size, damagePercent, lives,
                  moveSpeed, jumpForce, weight, state, stateTimer,
                  facingRight, onGround, canJump, activeHitboxes,
                  animationTimes, animationTimer, currentFrame, specialCooldowns)
    }

    predicate Valid()
      reads this
    {
      WellFormed(Snapshot())
    }

    constructor (t: FighterType, spawn: Vec2)
      ensures Snapshot() == NewFighter(t, spawn)
      ensures Valid()
    {
      fighterType := t;
      position := spawn;
      velocity := Zero2;
      size := FighterSize;
      moveSpeed := MoveSpeed(t);
      jumpForce := JumpForce(t);
      weight := Weight(t);
      damagePercent := 0.0;
      lives := InitialLives;
      state := Idle;
      stateTimer := 0.0;
      facingRight := true;
      onGround := false;
      canJump := false;
      activeHitboxes := [];
      animationTimer := 0.0;
      currentFrame := 0;
      animationTimes := InitialAnimationTimes;
      specialCooldowns := InitialCooldowns;
      new;
      FighterLemmas.NewFighterReady(t, spawn, SpecialNeutral);
    }

    // -------------------------------------------------------------------------
    // One-field setters

    method SetPosition(p: Vec2)
      modifies this
      ensures Snapshot() == old(Snapshot()).(position := p)
    {
      position := p;
    }

    method SetVelocity(v: Vec2)
      modifies this
      ensures Snapshot() == old(Snapshot()).(velocity := v)
    {
      velocity := v;
    }

    method SetOnGround(g: bool)
      modifies this
      ensures Snapshot() == old(Snapshot()).(onGround := g)
    {
      onGround := g;
    }

    // -------------------------------------------------------------------------
    // The per-frame update

    method UpdateState(dt: real)
      modifies this
      ensures Snapshot() == UpdateStateSpec(old(Snapshot()))
    {
      if state != Attacking && state != Special && state != Damaged {
        if onGround {
          if Abs(velocity.x) < 0.1 {
            state := Idle;
          } else {
            state := Running;
          }
        } else {
          if velocity.y > 0.0 {
            state := Jumping;
          } else {
            state := Falling;
          }
        }
      }
      if onGround && state != Damaged {
        velocity := velocity.(x := velocity.x * 0.9);
        if Abs(velocity.x) < 0.1 {
          velocity := velocity.(x := 0.0);
        }
      }
    }

    method ApplyGravity(dt: real)
      modifies this
      ensures Snapshot() == ApplyGravitySpec(old(Snapshot()), dt)
    {
      velocity := velocity.(y := velocity.y - Gravity * dt);
      velocity := velocity.(y := Max(velocity.y, -MaxFallSpeed));
    }

    method UpdateHitboxes()
      modifies this
      ensures Snapshot() == UpdateHitboxesSpec(old(Snapshot()))
    {
      activeHitboxes := [];
    }

    /** The base-entity update: state, gravity, hitboxes, motion, then the forced-state timer. */
    method BaseUpdate(dt: real)
      modifies this
      ensures Snapshot() == BaseUpdateSpec(old(Snapshot()), dt)
    {
      UpdateState(dt);
      ApplyGravity(dt);
      UpdateHitboxes();
      position := Add(position, Scale(velocity, dt));
      if state == Attacking || state == Special || state == Damaged {
        stateTimer := stateTimer - dt;
        if stateTimer <= 0.0 {
          state := if onGround then Idle else Falling;
          stateTimer := 0.0;
        }
      }
    }

    method UpdateAnimation(dt: real)
      modifies this
      ensures Snapshot() == AnimateSpec(old(Snapshot()), dt)
    {
      if state !in animationTimes {
        animationTimes := animationTimes[state := 0.0];
      }
      var frameTime := animationTimes[state];
      if frameTime <= 0.0 {
        frameTime := 0.5;
      }
      animationTimer := animationTimer + dt;
      if animationTimer >= frameTime {
        animationTimer := 0.0;
        currentFrame := currentFrame + 1;
      }
    }

    /** The fighter tick: the base update, the animation, then every running special
        cooldown counts down by `dt`, stopping at zero. */
    method Update(dt: real)
      requires Valid()
      modifies this
      ensures Snapshot() == UpdateSpec(old(Snapshot()), dt)
      ensures Valid()
    {
      BaseUpdate(dt);
      UpdateAnimation(dt);
      var cds := specialCooldowns;
      var pending := cds.Keys;
      while pending != {}
        invariant pending <= specialCooldowns.Keys
        invariant cds.Keys == specialCooldowns.Keys
        invariant forall k :: k in cds ==>
                    cds[k] == if k in pending then specialCooldowns[k] else CooldownStep(specialCooldowns[k], dt)
        decreases pending
      {
        var k :| k in pending;
        if cds[k] > 0.0 {
          cds := cds[k := cds[k] - dt];
          if cds[k] < 0.0 {
            cds := cds[k := 0.0];
          }
        }
        pending := pending - {k};
      }
      assert cds == TickCooldownsSpec(specialCooldowns, dt);
      specialCooldowns := cds;
      FighterLemmas.UpdateKeepsWellFormed(old(Snapshot()), dt);
    }

    // -------------------------------------------------------------------------
    // Movement

    method MoveLeft()
      requires Valid()
      modifies this
      ensures Snapshot() == MoveSpec(old(Snapshot()), false)
      ensures Valid()
    {
      velocity := velocity.(x := -moveSpeed);
      facingRight := false;
      if onGround && state != Attacking && state != Special {
        state := Running;
      }
    }

    method MoveRight()
      requires Valid()
      modifies this
      ensures Snapshot() == MoveSpec(old(Snapshot()), true)
      ensures Valid()
    {
      velocity := velocity.(x := moveSpeed);
      facingRight := true;
      if onGround && state != Attacking && state != Special {
        state := Running;
      }
    }

    method Jump()
      requires Valid()
      modifies this
      ensures Snapshot() == JumpSpec(old(Snapshot()))
      ensures Valid()
    {
      if onGround || canJump {
        velocity := velocity.(y := jumpForce);
        onGround := false;
        canJump := false;
        state := Jumping;
      }
    }

    // -------------------------------------------------------------------------
    // Attacks

    method CreateHitboxForAttack(k: AttackType)
      modifies this
      ensures activeHitboxes == old(activeHitboxes) + [MakeHitbox(k, fighterType, size, facingRight)]
      ensures Snapshot() == old(Snapshot()).(activeHitboxes := activeHitboxes)
    {
      var hitbox := BaseHitbox(k, size, facingRight);
      match fighterType {
        case Balanced =>
        case Heavy =>
          hitbox := hitbox.(damage := TruncToInt(hitbox.damage as real * 1.3));
          hitbox := hitbox.(knockbackBase := hitbox.knockbackBase * 1.2);
          hitbox := hitbox.(radius := hitbox.radius * 1.1);
        case Speedy =>
          hitbox := hitbox.(damage := TruncToInt(hitbox.damage as real * 0.9));
          hitbox := hitbox.(knockbackBase := hitbox.knockbackBase * 0.9);
          hitbox := hitbox.(radius := hitbox.radius * 0.9);
        case Technical =>
          hitbox := hitbox.(knockbackScaling := hitbox.knockbackScaling * 1.2);
      }
      activeHitboxes := activeHitboxes + [hitbox];
    }

    method Attack(k: AttackType)
      requires Valid()
      modifies this
      ensures Snapshot() == AttackSpec(old(Snapshot()), k)
      ensures Valid()
    {
      if state == Attacking || state == Special {
        return;
      }
      state := Attacking;
      stateTimer := AttackDuration(fighterType);
      animationTimer := 0.0;
      currentFrame := 0;
      CreateHitboxForAttack(k);
    }

    /** A special move: refused while busy or while its cooldown runs (the lookup inserts a
        zero entry for an unknown kind); an ordinary kind only enters the Special state. */
    method SpecialAttack(k: AttackType)
      requires Valid()
      modifies this
      ensures Snapshot() == SpecialAttackSpec(old(Snapshot()), k)
      ensures Valid()
    {
      FighterLemmas.SpecialKeepsWellFormed(Snapshot(), k);
      if state != Attacking && state != Special {
        var remaining := LookUpCooldown(k);
        if remaining <= 0.0 {
          BeginSpecial(k);
        }
      }
    }

    /** An accepted special: the Special state, then the kind's own launch for a special kind. */
    method BeginSpecial(k: AttackType)
      modifies this
      ensures var entered := old(Snapshot()).(state := Special);
              Snapshot() == if k.IsSpecial() then LaunchSpecialSpec(entered, k) else entered
    {
      state := Special;
      if k.IsSpecial() {
        LaunchSpecial(k);
      }
    }

    /** The cooldown still running for `k`; looking up an absent kind inserts a zero entry. */
    method LookUpCooldown(k: AttackType) returns (remaining: real)
      modifies this
      ensures Snapshot() == old(Snapshot()).(specialCooldowns := CooldownsAfterLookup(old(Snapshot()), k))
      ensures remaining == specialCooldowns[k]
    {
      if k !in specialCooldowns {
        specialCooldowns := specialCooldowns[k := 0.0];
      }
      remaining := specialCooldowns[k];
    }

    /** The per-kind part of an accepted special: the duration, cooldown and launch of the
        kind's table entry, scaled by the archetype, then the hitbox. */
    method LaunchSpecial(k: AttackType)
      requires k.IsSpecial()
      modifies this
      ensures Snapshot() == LaunchSpecialSpec(old(Snapshot()), k)
    {
      ghost var before := Snapshot();
      velocity := SpecialVelocity(Snapshot(), k);
      stateTimer := SpecialBaseDuration(k) * SpecialDurationFactor(fighterType);
      specialCooldowns := specialCooldowns[k := SpecialBaseCooldown(k) * SpecialCooldownFactor(fighterType)];
      animationTimer, currentFrame := 0.0, 0;
      assert Snapshot() == LaunchSpecialSpec(before, k).(activeHitboxes := activeHitboxes);
      CreateHitboxForAttack(k);
    }

    method Taunt()
      requires Valid()
      modifies this
      ensures Snapshot() == TauntSpec(old(Snapshot()))
      ensures Valid()
    {
      if state != Attacking && state != Special && onGround {
        velocity := Zero2;
        stateTimer := 1.0;
      }
    }

    // -------------------------------------------------------------------------
    // Damage

    method TakeDamage(damage: int, knockback: real, direction: Vec2)
      requires Valid()
      modifies this
      ensures Snapshot() == TakeDamageSpec(old(Snapshot()), damage, knockback, direction)
      ensures Valid()
    {
      FighterLemmas.TakeDamageKeepsWellFormed(Snapshot(), damage, knockback, direction);
      damagePercent := damagePercent + damage as real;
      var totalKnockback := EffectiveKnockback(knockback, damagePercent, weight);
      velocity, state, stateTimer := Scale(direction, totalKnockback), Damaged, 0.5;
      if IsKnockout(damagePercent, totalKnockback) {
        if lives - 1 <= 0 {
          lives, state := lives - 1, Dead;
        } else {
          lives, damagePercent, position := lives - 1, 0.0, RespawnPoint;
        }
      }
    }
  }

  /** The snapshots of a roster, slot by slot. */
  function Snapshots(fs: seq<Fighter>): seq<FighterData>
    reads set f | f in fs
  {
    seq(|fs|, q requires 0 <= q < |fs| reads set f | f in fs => fs[q].Snapshot())
  }

  /** No fighter object occupies two slots. */
  predicate Distinct(fs: seq<Fighter>) {
    forall a, b :: 0 <= a < b < |fs| ==> fs[a] != fs[b]
  }

  predicate AllValid(fs: seq<Fighter>)
    reads set f | f in fs
  {
    forall q :: 0 <= q < |fs| ==> fs[q].Valid()
  }

  /** Proof helper: when every slot but `j` still shows its snapshot in `ds`, the roster's
      snapshots are `ds` with slot `j` replaced. */
  lemma SnapshotsAfterOne(fs: seq<Fighter>, ds: seq<FighterData>, j: int)
    requires |ds| == |fs| && 0 <= j < |fs|
    requires forall q :: 0 <= q < |fs| && q != j ==> fs[q].Snapshot() == ds[q]
    ensures Snapshots(fs) == ds[j := fs[j].Snapshot()]
  {
  }
}
