/** What the match controller's rules guarantee: the hitbox pass, the stock-mode end and
    winner, the camera framing, the roster and state transitions, and the tick. */
module MatchLemmas {
  import opened Vectors
  import opened CharacterTypes
  import opened FighterSpec
  import opened StageSpec
  import opened MatchSpec
  import FighterLemmas
  import StageLemmas

  // ---------------------------------------------------------------------------
  // The hitbox pass

  /** How a pass may change the roster: nobody gains a life, hitbox lists stay, a player Dead
      at the start is untouched, and well-formed players stay well formed. */
  predicate Follows(ds: seq<FighterData>, r: seq<FighterData>) {
    && |r| == |ds|
    && forall q :: 0 <= q < |ds| ==>
         && r[q].lives <= ds[q].lives
         && r[q].activeHitboxes == ds[q].activeHitboxes
         && (ds[q].state == Dead ==> r[q] == ds[q])
         && (WellFormed(ds[q]) ==> WellFormed(r[q]))
  }

  /** Proof helper: `Follows` composes along a sequence of passes. */
  lemma FollowsTrans(a: seq<FighterData>, b: seq<FighterData>, c: seq<FighterData>)
    requires Follows(a, b) && Follows(b, c)
    ensures Follows(a, c)
  {
  }

  /** One hit changes the defender alone, never adds a life, and keeps it well formed. */
  lemma StrikeFollows(d: FighterData, attackerPos: Vec2, h: Hitbox, s: GameSettings)
    requires d.weight != 0.0
    ensures var r := Strike(d, attackerPos, h, s);
            && r.lives <= d.lives && r.activeHitboxes == d.activeHitboxes
            && (WellFormed(d) ==> WellFormed(r))
  {
    if WellFormed(d) {
      FighterLemmas.TakeDamageKeepsWellFormed(d, HitDamage(h, s), HitKnockback(h, d, s), h.knockbackDirection);
    }
  }

  /** A run of hits never adds a life, keeps the hitbox list and keeps well-formedness. */
  lemma {:induction false} StrikeAllFollows(d: FighterData, attackerPos: Vec2, hs: seq<Hitbox>, s: GameSettings)
    requires d.weight != 0.0
    ensures var r := StrikeAll(d, attackerPos, hs, s);
            && r.lives <= d.lives && r.activeHitboxes == d.activeHitboxes
            && (WellFormed(d) ==> WellFormed(r))
    decreases |hs|
  {
    if hs != [] {
      StrikeFollows(d, attackerPos, hs[0], s);
      StrikeAllFollows(Strike(d, attackerPos, hs[0], s), attackerPos, hs[1..], s);
    }
  }

  /** One attacker's hitboxes against one defender touch only that defender. */
  lemma HitsFromFollows(ds: seq<FighterData>, s: GameSettings, i: int, j: int, hs: seq<Hitbox>)
    requires Weighted(ds) && 0 <= i < |ds| && 0 <= j < |ds| && i != j
    ensures var r := HitsFrom(ds, s, i, j, hs);
            && (forall q :: 0 <= q < |ds| && q != j ==> r[q] == ds[q])
            && r[j].lives <= ds[j].lives
            && r[j].activeHitboxes == ds[j].activeHitboxes
            && (WellFormed(ds[j]) ==> WellFormed(r[j]))
  {
    StrikeAllFollows(ds[j], ds[i].position, hs, s);
  }

  lemma {:induction false} DefendersFromFollows(ds: seq<FighterData>, s: GameSettings, i: int, j: nat)
    requires Weighted(ds) && 0 <= i < |ds|
    ensures Follows(ds, DefendersFrom(ds, s, i, j))
    ensures DefendersFrom(ds, s, i, j)[i] == ds[i]
    decreases |ds| - j
  {
    if j < |ds| {
      var next := DefenderStep(ds, s, i, j);
      if j != i && ds[j].state != Dead {
        HitsFromFollows(ds, s, i, j, ds[i].activeHitboxes);
      }
      assert Follows(ds, next) && next[i] == ds[i];
      DefendersFromFollows(next, s, i, j + 1);
      FollowsTrans(ds, next, DefendersFrom(next, s, i, j + 1));
    }
  }

  lemma {:induction false} AttackersFromFollows(ds: seq<FighterData>, s: GameSettings, i: nat)
    requires Weighted(ds)
    ensures Follows(ds, AttackersFrom(ds, s, i))
    decreases |ds| - i
  {
    if i < |ds| {
      if ds[i].state == Dead {
        AttackersFromFollows(ds, s, i + 1);
      } else {
        var next := DefendersFrom(ds, s, i, 0);
        DefendersFromFollows(ds, s, i, 0);
        AttackersFromFollows(next, s, i + 1);
        FollowsTrans(ds, next, AttackersFrom(next, s, i + 1));
      }
    }
  }

  /** The pass never gives a life back, leaves every hitbox list and every Dead player as it
      was, and keeps well-formed players well formed. */
  lemma HitboxPassFollows(ds: seq<FighterData>, s: GameSettings)
    requires Weighted(ds)
    ensures Follows(ds, HitboxPass(ds, s))
  {
    AttackersFromFollows(ds, s, 0);
  }

  /** Players without hitboxes hit nobody. */
  predicate NoHitboxes(ds: seq<FighterData>) {
    forall q :: 0 <= q < |ds| ==> ds[q].activeHitboxes == []
  }

  lemma {:induction false} DefendersFromNoHitboxes(ds: seq<FighterData>, s: GameSettings, i: int, j: nat)
    requires Weighted(ds) && 0 <= i < |ds| && ds[i].activeHitboxes == []
    ensures DefendersFrom(ds, s, i, j) == ds
    decreases |ds| - j
  {
    if j < |ds| {
      if j != i {
        assert HitsFrom(ds, s, i, j, ds[i].activeHitboxes) == ds;
      }
      assert DefenderStep(ds, s, i, j) == ds;
      DefendersFromNoHitboxes(ds, s, i, j + 1);
    }
  }

  lemma {:induction false} AttackersFromNoHitboxes(ds: seq<FighterData>, s: GameSettings, i: nat)
    requires Weighted(ds) && NoHitboxes(ds)
    ensures AttackersFrom(ds, s, i) == ds
    decreases |ds| - i
  {
    if i < |ds| {
      if ds[i].state != Dead {
        DefendersFromNoHitboxes(ds, s, i, 0);
      }
      AttackersFromNoHitboxes(ds, s, i + 1);
    }
  }

  /** With every hitbox list empty the pass changes nothing. */
  lemma HitboxPassWithoutHitboxes(ds: seq<FighterData>, s: GameSettings)
    requires Weighted(ds) && NoHitboxes(ds)
    ensures HitboxPass(ds, s) == ds
  {
    AttackersFromNoHitboxes(ds, s, 0);
  }

  /** The squared test is the distance test: for the distance `dist` between the hitbox centre
      and the defender, the hit lands exactly when `dist` is below the reach. */
  lemma HitLandsIsDistance(attackerPos: Vec2, h: Hitbox, d: FighterData, dist: real)
    requires dist >= 0.0 && dist * dist == GapSquared(attackerPos, h, d)
    ensures HitLands(attackerPos, h, d) <==> dist < Reach(h, d)
  {
    var reach := Reach(h, d);
    if 0.0 <= dist < reach {
      SquareBelow(dist, reach);
    } else if 0.0 <= reach <= dist {
      SquareBelow(reach, dist);
    }
  }

  /** Proof helper: squaring keeps the order of non-negative numbers. */
  lemma SquareBelow(a: real, b: real)
    requires 0.0 <= a <= b
    ensures a * a <= b * b
    ensures a < b ==> a * a < b * b
  {
    var gap := b - a;
    assert b * b == a * a + gap * (a + b);
    assert gap * (a + b) >= 0.0;
    if a < b {
      assert gap * (a + b) > 0.0;
    }
  }

  /** A single hit as the pass applies it: a miss changes nothing; a hit stuns, costs at most
      one life, and imparts knockback computed from the percent before the hit. */
  lemma StrikeOutcome(d: FighterData, attackerPos: Vec2, h: Hitbox, s: GameSettings)
    requires d.weight != 0.0
    ensures !HitLands(attackerPos, h, d) ==> Strike(d, attackerPos, h, s) == d
    ensures HitLands(attackerPos, h, d) ==>
              var r := Strike(d, attackerPos, h, s);
              var percent := d.damagePercent + HitDamage(h, s) as real;
              && r.velocity == Scale(h.knockbackDirection, EffectiveKnockback(HitKnockback(h, d, s), percent, d.weight))
              && r.stateTimer == 0.5
              && (r.lives == d.lives || r.lives == d.lives - 1)
  {
    if HitLands(attackerPos, h, d) {
      FighterLemmas.TakeDamageOutcome(d, HitDamage(h, s), HitKnockback(h, d, s), h.knockbackDirection);
    }
  }

  // ---------------------------------------------------------------------------
  // Stock-mode end and winner

  lemma {:induction false} AliveCountZero(ds: seq<FighterData>)
    ensures AliveCount(ds) == 0 <==> forall q :: 0 <= q < |ds| ==> ds[q].lives <= 0
    decreases |ds|
  {
    if ds != [] {
      var front := ds[..|ds| - 1];
      AliveCountZero(front);
      assert forall q :: 0 <= q < |front| ==> front[q] == ds[q];
    }
  }

  /** Two different players with lives left make the count at least two. */
  lemma {:induction false} AliveCountTwo(ds: seq<FighterData>, a: int, b: int)
    requires 0 <= a < b < |ds| && ds[a].lives > 0 && ds[b].lives > 0
    ensures AliveCount(ds) >= 2
    decreases |ds|
  {
    var front := ds[..|ds| - 1];
    if b < |ds| - 1 {
      assert front[a] == ds[a] && front[b] == ds[b];
      AliveCountTwo(front, a, b);
    } else {
      assert front[a] == ds[a];
      AliveCountZero(front);
    }
  }

  /** One player with lives left and none other makes the count exactly one. */
  lemma {:induction false} AliveCountOne(ds: seq<FighterData>, w: int)
    requires 0 <= w < |ds| && ds[w].lives > 0
    requires forall q :: 0 <= q < |ds| && q != w ==> ds[q].lives <= 0
    ensures AliveCount(ds) == 1
    decreases |ds|
  {
    var front := ds[..|ds| - 1];
    assert forall q :: 0 <= q < |front| ==> front[q] == ds[q];
    if w == |ds| - 1 {
      AliveCountZero(front);
    } else {
      AliveCountOne(front, w);
    }
  }

  /** At most one player is counted exactly when no two players both have lives left. */
  lemma AliveCountAtMostOne(ds: seq<FighterData>)
    ensures AliveCount(ds) <= 1
            <==> forall a, b :: 0 <= a < b < |ds| && ds[a].lives > 0 ==> ds[b].lives <= 0
  {
    if forall a, b :: 0 <= a < b < |ds| && ds[a].lives > 0 ==> ds[b].lives <= 0 {
      var w := FirstAliveFrom(ds, 0);
      if w == -1 {
        AliveCountZero(ds);
      } else {
        AliveCountOne(ds, w);
      }
    } else {
      var a, b :| 0 <= a < b < |ds| && ds[a].lives > 0 && ds[b].lives > 0;
      AliveCountTwo(ds, a, b);
    }
  }

  /** When the stock match is over with one player left standing, the winner is exactly that
      player, and no one is declared while the match runs or outside stock mode. */
  lemma WinnerIsSoleSurvivor(m: MatchData)
    ensures !m.finished || m.settings.mode != Stock ==> Winner(m) == -1
    ensures m.finished && m.settings.mode == Stock && AliveCount(m.players) == 1 ==>
              && 0 <= Winner(m) < |m.players|
              && m.players[Winner(m)].lives > 0
              && forall q :: 0 <= q < |m.players| && q != Winner(m) ==> m.players[q].lives <= 0
    ensures m.finished && m.settings.mode == Stock ==>
              (Winner(m) == -1 <==> AliveCount(m.players) == 0)
    ensures forall w :: 0 <= w < |m.players| && m.finished && m.settings.mode == Stock
                         && m.players[w].lives > 0
                         && (forall q :: 0 <= q < |m.players| && q != w ==> m.players[q].lives <= 0)
                       ==> Winner(m) == w
  {
    var ds := m.players;
    AliveCountZero(ds);
    if m.finished && m.settings.mode == Stock {
      var w := FirstAliveFrom(ds, 0);
      if AliveCount(ds) == 1 {
        assert w != -1;
        forall q | 0 <= q < |ds| && q != w
          ensures ds[q].lives <= 0
        {
          if ds[q].lives > 0 {
            if q < w { assert false; } else { AliveCountTwo(ds, w, q); }
          }
        }
      }
    }
  }

  /** The stock rule ends an unfinished match exactly when at most one player has lives left;
      once finished, the check changes nothing. */
  lemma MatchEndOutcome(m: MatchData)
    ensures var r := MatchEndSpec(m);
            && r.players == m.players
            && (r.finished <==> m.finished || (m.settings.mode == Stock && AliveCount(m.players) <= 1))
            && (m.finished ==> r == m)
            && (r.state == GameOver || r.state == m.state)
    ensures var r := MatchEndSpec(m);
            r.finished <==> m.finished
                            || (m.settings.mode == Stock
                                && forall a, b :: 0 <= a < b < |m.players| && m.players[a].lives > 0
                                                  ==> m.players[b].lives <= 0)
  {
    AliveCountAtMostOne(m.players);
  }

  // ---------------------------------------------------------------------------
  // Camera framing

  predicate Within(b: Bounds, p: Vec2) {
    b.lo.x <= p.x <= b.hi.x && b.lo.y <= p.y <= b.hi.y
  }

  /** The scan's box holds every player not Dead. */
  lemma {:induction false} ExtentHoldsLivePlayers(ds: seq<FighterData>)
    ensures forall q :: 0 <= q < |ds| && ds[q].state != Dead ==> Within(Extent(ds), ds[q].position)
    decreases |ds|
  {
    if ds != [] {
      var front := ds[..|ds| - 1];
      ExtentHoldsLivePlayers(front);
      assert forall q :: 0 <= q < |front| ==> front[q] == ds[q];
    }
  }

  /** With every player Dead the scan keeps its starting values. */
  lemma {:induction false} ExtentWithoutLivePlayers(ds: seq<FighterData>)
    requires forall q :: 0 <= q < |ds| ==> ds[q].state == Dead
    ensures Extent(ds) == EmptyBounds
    decreases |ds|
  {
    if ds != [] {
      var front := ds[..|ds| - 1];
      assert forall q :: 0 <= q < |front| ==> front[q] == ds[q];
      ExtentWithoutLivePlayers(front);
    }
  }

  /** The zoom never drops below 1, so the view is at least 20 wide, and it keeps the 16:9
      shape. */
  lemma FramingZoom(ds: seq<FighterData>)
    ensures Framing(ds).halfWidth >= 10.0
    ensures Framing(ds).halfHeight == Framing(ds).halfWidth * 9.0 / 16.0
  {
  }

  /** Every player not Dead is in view with at least the padding to spare on each side. */
  lemma FramingShowsLivePlayers(ds: seq<FighterData>, q: int)
    requires 0 <= q < |ds| && ds[q].state != Dead
    ensures var v := Framing(ds);
            var p := ds[q].position;
            && v.center.x - v.halfWidth + Padding <= p.x <= v.center.x + v.halfWidth - Padding
            && v.center.y - v.halfHeight + Padding <= p.y <= v.center.y + v.halfHeight - Padding
  {
    ExtentHoldsLivePlayers(ds);
    var b := Extent(ds);
    assert Within(b, ds[q].position);
    var size := Sub(Add(b.hi, Vec2(Padding, Padding)), Sub(b.lo, Vec2(Padding, Padding)));
    var z := Zoom(size);
    assert z >= size.x / 16.0 && z >= size.y / 9.0;
    assert 10.0 * z >= size.x / 2.0;
    assert 10.0 * z / Aspect >= size.y / 2.0;
  }

  /** With nobody alive to frame, the view is centred on the origin at zoom 1. */
  lemma FramingWithoutLivePlayers(ds: seq<FighterData>)
    requires forall q :: 0 <= q < |ds| ==> ds[q].state == Dead
    ensures Framing(ds) == CameraView(Zero2, 10.0, 10.0 / Aspect)
  {
    ExtentWithoutLivePlayers(ds);
  }

  // ---------------------------------------------------------------------------
  // Roster and transitions

  /** Removing a slot keeps the others in order; an out-of-range index changes nothing. */
  lemma RemoveOutcome(m: MatchData, index: int)
    ensures var r := RemovePlayerSpec(m, index);
            && (0 <= index < |m.players| ==>
                  && |r.players| == |m.players| - 1
                  && (forall q :: 0 <= q < index ==> r.players[q] == m.players[q])
                  && (forall q :: index <= q < |r.players| ==> r.players[q] == m.players[q + 1]))
            && (!(0 <= index < |m.players|) ==> r == m)
  {
  }

  /** Adding appends exactly one new fighter after the others; removing that slot undoes it. */
  lemma AddOutcome(m: MatchData, t: FighterType, spawn: Vec2)
    ensures var a := AddPlayerSpec(m, t, spawn);
            && |a.players| == |m.players| + 1
            && a.players[|m.players|] == NewFighter(t, spawn)
            && a.players[..|m.players|] == m.players
    ensures RemovePlayerSpec(AddPlayerSpec(m, t, spawn), |m.players|) == m
  {
    assert (m.players + [NewFighter(t, spawn)])[..|m.players|] == m.players;
  }

  /** Pausing and resuming only move between play and pause, and undo each other. */
  lemma PauseResume(m: MatchData)
    ensures PauseSpec(m).state == (if m.state == Playing then Paused else m.state)
    ensures ResumeSpec(m).state == (if m.state == Paused then Playing else m.state)
    ensures m.state == Playing ==> ResumeSpec(PauseSpec(m)) == m
    ensures m.state == Paused ==> PauseSpec(ResumeSpec(m)) == m
  {
  }

  /** Starting puts each slot at its spawn point at rest, resets the timer and the finished
      flag, and keeps every player's lives and percent. */
  lemma StartOutcome(m: MatchData, spawns: seq<Vec2>)
    ensures var r := StartSpec(m, spawns);
            && r.state == Playing && r.timer == 0.0 && !r.finished
            && |r.players| == |m.players|
            && forall q :: 0 <= q < |m.players| ==>
                 && r.players[q].position == SpawnPosition(spawns, q)
                 && r.players[q].velocity == Zero2
                 && r.players[q].lives == m.players[q].lives
                 && r.players[q].damagePercent == m.players[q].damagePercent
  {
  }

  /** Input routing, in terms of the fighter's own operations: a movement past the dead zone
      of 0.1 moves left or right first, then a requested jump, then a requested attack, the
      special kinds going to the special move and the ordinary ones to the attack. */
  lemma InputRouting(d: FighterData, movement: Vec2, jump: bool, attack: bool, kind: AttackType)
    ensures -0.1 <= movement.x <= 0.1 ==>
              InputSpec(d, movement, jump, false, kind) == (if jump then JumpSpec(d) else d)
    ensures var moved := if movement.x < -0.1 then MoveSpec(d, false)
                         else if movement.x > 0.1 then MoveSpec(d, true)
                         else d;
            var jumped := if jump then JumpSpec(moved) else moved;
            InputSpec(d, movement, jump, attack, kind)
            == if !attack then jumped
               else if kind.IsSpecial() then SpecialAttackSpec(jumped, kind)
               else AttackSpec(jumped, kind)
  {
  }

  /** The jump goes before the attack, so a jump sent with an ordinary attack interrupts a
      running attack or special: the fighter jumps and the new attack is accepted, where the
      same attack sent alone is refused. */
  lemma JumpThenAttack(d: FighterData, kind: AttackType)
    requires d.onGround || d.canJump
    requires !kind.IsSpecial()
    ensures var r := InputSpec(d, Zero2, true, true, kind);
            && r.state == Attacking
            && r.velocity == Vec2(d.velocity.x, d.jumpForce)
            && !r.onGround && !r.canJump
            && r.activeHitboxes == d.activeHitboxes + [MakeHitbox(kind, d.fighterType, d.size, d.facingRight)]
    ensures IsBusy(d.state) ==> InputSpec(d, Zero2, false, true, kind) == d
  {
  }

  /** Input and respawn for an out-of-range slot change nothing. */
  lemma OutOfRangeSlot(m: MatchData, index: int, movement: Vec2, jump: bool, attack: bool, kind: AttackType, spawn: Vec2)
    requires !(0 <= index < |m.players|)
    ensures ProcessInputSpec(m, index, movement, jump, attack, kind) == m
    ensures RespawnSpec(m, index, spawn) == m
  {
  }

  // ---------------------------------------------------------------------------
  // The tick

  /** In time mode the match ends on the tick at which the timer reaches the limit. */
  lemma TimerOutcome(m: MatchData, dt: real)
    requires m.settings.mode == Time && !m.finished
    ensures TimerSpec(m, dt).timer == m.timer + dt
    ensures TimerSpec(m, dt).finished <==> m.timer + dt >= m.settings.timeLimit as real
    ensures TimerSpec(m, dt).finished ==> TimerSpec(m, dt).state == GameOver
  {
  }

  /** Player updates empty every hitbox list before the pass, so inside a tick the pass hits
      nobody; and since leaving the blast zone costs nothing either, a tick never changes
      anyone's lives or percent. */
  lemma TickOutcome(m: MatchData, L: StageLayout, dt: real)
    requires m.state == Playing && AllWellFormed(m.players)
    ensures var r := TickSpec(m, L, dt);
            && r.players == UpdateAll(StageUpdateSpec(L, m.players, dt), dt)
            && NoHitboxes(r.players)
            && AllWellFormed(r.players)
            && forall q :: 0 <= q < |m.players| ==>
                 r.players[q].lives == m.players[q].lives && r.players[q].damagePercent == m.players[q].damagePercent
  {
    var staged := StageUpdateSpec(L, m.players, dt);
    var updated := UpdateAll(staged, dt);
    forall q | 0 <= q < |m.players|
      ensures WellFormed(staged[q]) && staged[q].lives == m.players[q].lives
      ensures staged[q].damagePercent == m.players[q].damagePercent
      ensures WellFormed(updated[q]) && updated[q].activeHitboxes == []
      ensures updated[q].lives == m.players[q].lives && updated[q].damagePercent == m.players[q].damagePercent
    {
      StageLemmas.StageStepKeepsWellFormed(L, m.players[q], dt);
      FighterLemmas.UpdateKeepsWellFormed(staged[q], dt);
      FighterLemmas.UpdateTick(staged[q], dt);
    }
    HitboxPassWithoutHitboxes(updated, m.settings);
  }

  /** In stock mode a tick can only end a match that had at most one player with lives left
      when it began. */
  lemma StockNeverEndsInPlay(m: MatchData, L: StageLayout, dt: real)
    requires m.state == Playing && AllWellFormed(m.players)
    requires m.settings.mode == Stock && !m.finished && AliveCount(m.players) >= 2
    ensures !TickSpec(m, L, dt).finished && TickSpec(m, L, dt).state == Playing
  {
    TickOutcome(m, L, dt);
    var r := TickSpec(m, L, dt);
    AliveCountSameLives(m.players, r.players);
  }

  /** Rosters with the same lives slot by slot have the same count of players alive. */
  lemma {:induction false} AliveCountSameLives(a: seq<FighterData>, b: seq<FighterData>)
    requires |a| == |b| && forall q :: 0 <= q < |a| ==> a[q].lives == b[q].lives
    ensures AliveCount(a) == AliveCount(b)
    decreases |a|
  {
    if a != [] {
      AliveCountSameLives(a[..|a| - 1], b[..|b| - 1]);
    }
  }
}
