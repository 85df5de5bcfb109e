/** The value types shared by every combatant: machine states, attack kinds, fighter
    archetypes, the hitbox record and the two physics constants. */
module CharacterTypes {
  import opened Vectors

  /** The eight machine states of a combatant. */
  datatype CharacterState = Idle | Running | Jumping | Falling | Attacking | Special | Damaged | Dead

  /** Four ordinary attack kinds and their four special counterparts. */
  datatype AttackType =
    | Neutral | Up | Down | Side
    | SpecialNeutral | SpecialUp | SpecialDown | SpecialSide
  {
    predicate IsSpecial() {
      SpecialNeutral? || SpecialUp? || SpecialDown? || SpecialSide?
    }

    /** Kinds whose hitbox points straight up or down, whatever the facing. */
    predicate IsVertical() {
      Up? || Down? || SpecialUp? || SpecialDown?
    }
  }

  /** The fighter archetypes; each selects a stat profile. */
  datatype FighterType = Balanced | Heavy | Speedy | Technical

  /** A circular attack volume, placed relative to the attacker's centre. */
  datatype Hitbox = Hitbox(
    offset: Vec2,
    radius: real,
    damage: int,
    knockbackBase: real,
    knockbackScaling: real,
    knockbackDirection: Vec2)

  const Gravity: real := 9.81
  const MaxFallSpeed: real := 15.0

  /** The states that lock out ordinary state re-derivation until their timer runs out. */
  predicate IsForced(s: CharacterState) {
    s == Attacking || s == Special || s == Damaged
  }

  /** The states in which new attacks and specials are refused. */
  predicate IsBusy(s: CharacterState) {
    s == Attacking || s == Special
  }

}
