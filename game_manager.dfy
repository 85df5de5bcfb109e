/** The match controller object: the roster of fighters, the stage, the match state and
    timer, and the camera view. Each method is proved against the functions of `MatchSpec`. */
module MatchControl {
  import opened Vectors
  import opened CharacterTypes
  import opened FighterSpec
  import opened StageSpec
  import opened MatchSpec
  import opened Combatant
  import opened Stages

  class GameManager {
    var state: GameState
    var settings: GameSettings
    var stage: Stage?
    var players: seq<Fighter>
    var hasCamera: bool
    var view: CameraView
    var timer: real
    var finished: bool

    function Snapshot(): MatchData
      reads this, set p | p in players
    {
      MatchData(state, settings, timer, finished, Snapshots(players), hasCamera, view)
    }

    predicate Valid()
      reads this, set p | p in players
    {
      Distinct(players) && AllValid(players)
    }

    /** The spawn point for slot `index`: the stage's, or the fallback without a stage. */
    function SpawnFor(index: int): Vec2
      reads this, stage
    {
      if stage == null then FallbackSpawn else stage.GetSpawnPosition(index)
    }

    /** The stage's spawn list, empty without a stage. */
    function Spawns(): seq<Vec2>
      reads this, stage
    {
      if stage == null then [] else stage.spawnPositions
    }

    function GetGameState(): GameState
      reads this
    {
      state
    }

    /** No stage, no camera, no players, in the menu. */
    constructor ()
      ensures Valid()
      ensures Snapshot() == MatchData(Menu, DefaultSettings, 0.0, false, [], false, CameraView(Zero2, 0.0, 0.0))
      ensures stage == null
    {
      state := Menu;
      settings := DefaultSettings;
      stage := null;
      players := [];
      hasCamera := false;
      view := CameraView(Zero2, 0.0, 0.0);
      timer := 0.0;
      finished := false;
    }

    /** Creates the camera with the 16:9 view of half-width 10 and the default stage, and
        returns to the menu with the timer and finished flag reset. */
    method Init()
      modifies this
      ensures Snapshot() == old(Snapshot()).(hasCamera := true, view := CameraView(Zero2, 10.0, 10.0 / Aspect),
                                             state := Menu, timer := 0.0, finished := false)
      ensures stage != null && fresh(stage) && stage.Layout() == DefaultLayout
      ensures players == old(players)
    {
      hasCamera := true;
      view := CameraView(Zero2, 10.0, 10.0 / Aspect);
      stage := new Stage();
      state := Menu;
      timer := 0.0;
      finished := false;
    }

    // -------------------------------------------------------------------------
    // State transitions

    method StartGame()
      requires Valid() && (stage != null || players == [])
      modifies this, set p | p in players
      ensures Valid() && players == old(players) && stage == old(stage)
      ensures Snapshot() == StartSpec(old(Snapshot()), Spawns())
    {
      PlaceAtSpawnPoints();
      timer := 0.0;
      finished := false;
      state := Playing;
    }

    /** Every player at its slot's spawn point, at rest. */
    method PlaceAtSpawnPoints()
      requires Valid() && (stage != null || players == [])
      modifies set p | p in players
      ensures Valid()
      ensures Snapshots(players) == PlaceAtSpawns(old(Snapshots(players)), Spawns())
    {
      var i := 0;
      while i < |players|
        invariant 0 <= i <= |players|
        invariant forall q :: 0 <= q < |players| ==>
                    && players[q].Valid()
                    && players[q].Snapshot()
                       == if q < i then old(players[q].Snapshot()).(position := SpawnPosition(Spawns(), q), velocity := Zero2)
                          else old(players[q].Snapshot())
      {
        players[i].SetPosition(stage.GetSpawnPosition(i));
        players[i].SetVelocity(Zero2);
        i := i + 1;
      }
    }

    method PauseGame()
      modifies this
      ensures Snapshot() == PauseSpec(old(Snapshot()))
    {
      if state == Playing {
        state := Paused;
      }
    }

    method ResumeGame()
      modifies this
      ensures Snapshot() == ResumeSpec(old(Snapshot()))
    {
      if state == Paused {
        state := Playing;
      }
    }

    method EndGame()
      modifies this
      ensures Snapshot() == EndSpec(old(Snapshot()))
    {
      state := GameOver;
      finished := true;
    }

    // -------------------------------------------------------------------------
    // Roster

    /** Appends a new fighter of archetype `t` at the spawn point of the next slot. The
        controller index is not used. */
    method AddPlayer(t: FighterType, controllerIndex: int)
      requires Valid()
      modifies this
      ensures Valid() && stage == old(stage)
      ensures Snapshot() == AddPlayerSpec(old(Snapshot()), t, SpawnFor(old(|players|)))
      ensures |players| == old(|players|) + 1 && players[..old(|players|)] == old(players)
      ensures fresh(players[old(|players|)])
    {
      var spawnPos := if stage != null then stage.GetSpawnPosition(|players|) else Vec2(0.0, 5.0);
      var fighter := new Fighter(t, spawnPos);
      players := players + [fighter];
      assert Snapshots(players) == old(Snapshots(players)) + [fighter.Snapshot()];
    }

    /** Erases an in-range slot, keeping the others in order; otherwise nothing changes. */
    method RemovePlayer(index: int)
      requires Valid()
      modifies this
      ensures Valid() && stage == old(stage)
      ensures Snapshot() == RemovePlayerSpec(old(Snapshot()), index)
    {
      if 0 <= index < |players| {
        ghost var before := players;
        players := players[..index] + players[index + 1..];
        assert forall q :: 0 <= q < |players| ==> players[q] == if q < index then before[q] else before[q + 1];
        assert Snapshots(players) == old(Snapshots(players))[..index] + old(Snapshots(players))[index + 1..];
      }
    }

    /** Routes one player's input: a move past the dead zone, then the jump, then the
        attack or special. An out-of-range slot is ignored. */
    method ProcessPlayerInput(index: int, movement: Vec2, jump: bool, attack: bool, kind: AttackType)
      requires Valid()
      modifies set p | p in players
      ensures Valid()
      ensures Snapshot() == ProcessInputSpec(old(Snapshot()), index, movement, jump, attack, kind)
    {
      if index < 0 || index >= |players| {
        return;
      }
      var player := players[index];
      ghost var before := Snapshots(players);
      ApplyMovement(player, movement);
      ApplyJump(player, jump);
      ApplyAttack(player, attack, kind);
      SnapshotsAfterOne(players, before, index);
    }

    method ApplyMovement(player: Fighter, movement: Vec2)
      requires player.Valid()
      modifies player
      ensures player.Valid() && player.Snapshot() == MoveInput(old(player.Snapshot()), movement)
    {
      if movement.x < -0.1 {
        player.MoveLeft();
      } else if movement.x > 0.1 {
        player.MoveRight();
      }
    }

    method ApplyJump(player: Fighter, jump: bool)
      requires player.Valid()
      modifies player
      ensures player.Valid() && player.Snapshot() == JumpInput(old(player.Snapshot()), jump)
    {
      if jump {
        player.Jump();
      }
    }

    method ApplyAttack(player: Fighter, attack: bool, kind: AttackType)
      requires player.Valid()
      modifies player
      ensures player.Valid() && player.Snapshot() == AttackInput(old(player.Snapshot()), attack, kind)
    {
      if attack {
        if kind == SpecialNeutral || kind == SpecialUp || kind == SpecialDown || kind == SpecialSide {
          player.SpecialAttack(kind);
        } else {
          player.Attack(kind);
        }
      }
    }

    /** Puts an in-range slot back at its spawn point, at rest. */
    method RespawnPlayer(index: int)
      requires Valid()
      requires 0 <= index < |players| ==> stage != null
      modifies set p | p in players
      ensures Valid()
      ensures Snapshot() == RespawnSpec(old(Snapshot()), index, SpawnFor(index))
    {
      if index < 0 || index >= |players| {
        return;
      }
      var player := players[index];
      ghost var before := Snapshots(players);
      player.SetPosition(stage.GetSpawnPosition(index));
      player.SetVelocity(Zero2);
      SnapshotsAfterOne(players, before, index);
    }

    // -------------------------------------------------------------------------
    // The tick

    /** One frame: nothing outside play; in play the match timer, the stage pass, each
        player's update, the hitbox pass, the end check and the camera, in that order. */
    method Update(dt: real)
      requires Valid()
      requires state == Playing ==> stage != null
      modifies this, set p | p in players
      ensures Valid() && players == old(players) && stage == old(stage)
      ensures old(state) != Playing ==> Snapshot() == old(Snapshot())
      ensures old(state) == Playing ==> Snapshot() == TickSpec(old(Snapshot()), stage.Layout(), dt)
    {
      if state != Playing {
        return;
      }
      ValidRoster(players);
      ghost var m := Snapshot();
      ghost var L := stage.Layout();
      UpdateTimer(dt);
      ghost var timed := Snapshot();
      StepPlayers(dt);
      ghost var stepped := timed.(players := HitboxPass(UpdateAll(StageUpdateSpec(L, m.players, dt), dt), m.settings));
      assert Snapshot() == stepped;
      CheckMatchEnd();
      UpdateCamera();
    }

    /** The players' part of a frame: the stage pass, each player's update, the hitbox pass. */
    method StepPlayers(dt: real)
      requires Valid() && stage != null
      modifies set p | p in players
      ensures Valid()
      ensures Snapshots(players)
              == HitboxPass(UpdateAll(StageUpdateSpec(stage.Layout(), old(Snapshots(players)), dt), dt), settings)
    {
      StagePass(dt);
      UpdatePlayers(dt);
      CheckHitboxCollisions();
    }

    /** The match clock: in time mode an unfinished match counts up and ends at the limit. */
    method UpdateTimer(dt: real)
      modifies this
      ensures Snapshot() == TimerSpec(old(Snapshot()), dt)
      ensures players == old(players) && stage == old(stage)
    {
      if settings.mode == Time && !finished {
        timer := timer + dt;
        if timer >= settings.timeLimit as real {
          finished := true;
          state := GameOver;
        }
      }
    }

    /** The stage's pass over the roster. */
    method StagePass(dt: real)
      requires Valid() && stage != null
      modifies set p | p in players
      ensures Valid()
      ensures Snapshots(players) == StageUpdateSpec(stage.Layout(), old(Snapshots(players)), dt)
    {
      assert AllWellFormed(Snapshots(players));
      stage.Update(dt, players);
    }

    /** Every player's own update, in slot order. */
    method UpdatePlayers(dt: real)
      requires Valid()
      modifies set p | p in players
      ensures Valid()
      ensures Snapshots(players) == UpdateAll(old(Snapshots(players)), dt)
    {
      var i := 0;
      while i < |players|
        invariant 0 <= i <= |players|
        invariant forall q :: 0 <= q < |players| ==>
                    && players[q].Valid()
                    && players[q].Snapshot()
                       == if q < i then UpdateSpec(old(players[q].Snapshot()), dt) else old(players[q].Snapshot())
      {
        players[i].Update(dt);
        i := i + 1;
      }
    }

    /** Every live attacker's hitboxes against every other live player. */
    method CheckHitboxCollisions()
      requires Valid()
      modifies set p | p in players
      ensures Valid()
      ensures Snapshots(players) == HitboxPass(old(Snapshots(players)), settings)
    {
      var i := 0;
      while i < |players|
        invariant 0 <= i <= |players|
        invariant Valid()
        invariant AttackersFrom(Snapshots(players), settings, i) == HitboxPass(old(Snapshots(players)), settings)
      {
        var attacker := players[i];
        if attacker.state != Dead {
          HitDefenders(i);
        }
        i := i + 1;
      }
    }

    /** Attacker `i` against every other live player, in slot order. */
    method HitDefenders(i: int)
      requires Valid() && 0 <= i < |players|
      modifies set p | p in players
      ensures Valid()
      ensures Snapshots(players) == DefendersFrom(old(Snapshots(players)), settings, i, 0)
    {
      var j := 0;
      while j < |players|
        invariant 0 <= j <= |players|
        invariant Valid()
        invariant DefendersFrom(Snapshots(players), settings, i, j) == DefendersFrom(old(Snapshots(players)), settings, i, 0)
      {
        HitDefenderSlot(i, j);
        j := j + 1;
      }
    }

    /** Attacker `i` against slot `j`, unless `j` is the attacker itself or Dead. */
    method HitDefenderSlot(i: int, j: int)
      requires Valid() && 0 <= i < |players| && 0 <= j < |players|
      modifies players[j]
      ensures Valid()
      ensures Snapshots(players) == DefenderStep(old(Snapshots(players)), settings, i, j)
    {
      ValidRoster(players);
      ghost var before := Snapshots(players);
      var defender := players[j];
      if i != j && defender.state != Dead {
        HitDefender(players[i], defender);
        SnapshotsAfterOne(players, before, j);
      }
    }

    /** Each hitbox of `attacker` in turn against `defender`. */
    method HitDefender(attacker: Fighter, defender: Fighter)
      requires attacker != defender && defender.Valid()
      modifies defender
      ensures defender.Valid()
      ensures defender.Snapshot()
              == StrikeAll(old(defender.Snapshot()), attacker.position, attacker.activeHitboxes, settings)
    {
      var hitboxes := attacker.activeHitboxes;
      var k := 0;
      while k < |hitboxes|
        invariant 0 <= k <= |hitboxes|
        invariant defender.Valid()
        invariant StrikeAll(defender.Snapshot(), attacker.position, hitboxes[k..], settings)
                  == StrikeAll(old(defender.Snapshot()), attacker.position, hitboxes, settings)
      {
        ApplyHit(attacker.position, hitboxes[k], defender);
        assert hitboxes[k..][1..] == hitboxes[k + 1..];
        k := k + 1;
      }
      assert hitboxes[k..] == [];
    }

    /** One hitbox against `defender`: a hit when its centre is within reach. */
    method ApplyHit(attackerPos: Vec2, hitbox: Hitbox, defender: Fighter)
      requires defender.Valid()
      modifies defender
      ensures defender.Valid()
      ensures defender.Snapshot() == Strike(old(defender.Snapshot()), attackerPos, hitbox, settings)
    {
      if HitLands(attackerPos, hitbox, defender.Snapshot()) {
        var knockback := HitKnockback(hitbox, defender.Snapshot(), settings);
        var damage := HitDamage(hitbox, settings);
        defender.TakeDamage(damage, knockback, hitbox.knockbackDirection);
      }
    }

    /** In stock mode, an unfinished match ends once at most one player has lives left. */
    method CheckMatchEnd()
      modifies this
      ensures Snapshot() == MatchEndSpec(old(Snapshot()))
      ensures players == old(players) && stage == old(stage)
    {
      if finished {
        return;
      }
      if settings.mode == Stock {
        var playersAlive := 0;
        var i := 0;
        while i < |players|
          invariant 0 <= i <= |players|
          invariant playersAlive == AliveCount(Snapshots(players)[..i])
        {
          assert Snapshots(players)[..i + 1][..i] == Snapshots(players)[..i];
          if players[i].lives > 0 {
            playersAlive := playersAlive + 1;
          }
          i := i + 1;
        }
        assert Snapshots(players)[..i] == Snapshots(players);
        if playersAlive <= 1 {
          finished := true;
          state := GameOver;
        }
      }
    }

    /** The lowest slot with lives left once a stock match is finished, else -1. */
    method GetWinningPlayerIndex() returns (winner: int)
      ensures winner == Winner(Snapshot())
    {
      if !finished {
        return -1;
      }
      if settings.mode == Stock {
        var i := 0;
        while i < |players|
          invariant 0 <= i <= |players|
          invariant FirstAliveFrom(Snapshots(players), i) == FirstAliveFrom(Snapshots(players), 0)
        {
          if players[i].lives > 0 {
            return i;
          }
          i := i + 1;
        }
      }
      return -1;
    }

    /** Frames the players not Dead: the padded min/max box sets the centre and the zoom. */
    method UpdateCamera()
      modifies this
      ensures Snapshot() == CameraSpec(old(Snapshot()))
      ensures players == old(players) && stage == old(stage)
    {
      if |players| == 0 || !hasCamera {
        return;
      }
      var minPos := Vec2(FltMax, FltMax);
      var maxPos := Vec2(-FltMax, -FltMax);
      var i := 0;
      while i < |players|
        invariant 0 <= i <= |players|
        invariant Bounds(minPos, maxPos) == Extent(Snapshots(players)[..i])
      {
        assert Snapshots(players)[..i + 1][..i] == Snapshots(players)[..i];
        var player := players[i];
        if player.state != Dead {
          var pos := player.position;
          minPos := MinV(minPos, pos);
          maxPos := MaxV(maxPos, pos);
        }
        i := i + 1;
      }
      assert Snapshots(players)[..i] == Snapshots(players);
      minPos := Sub(minPos, Vec2(3.0, 3.0));
      maxPos := Add(maxPos, Vec2(3.0, 3.0));
      var center := Scale(Add(minPos, maxPos), 0.5);
      var size := Sub(maxPos, minPos);
      var targetZoom := Max(size.x / 16.0, size.y / 9.0);
      targetZoom := Max(targetZoom, 1.0);
      var width := 10.0 * targetZoom;
      var height := width / Aspect;
      view := CameraView(center, width, height);
    }
  }

  /** Proof helper: valid fighters show well-formed, hence weighted, snapshots. */
  lemma ValidRoster(fs: seq<Fighter>)
    requires AllValid(fs)
    ensures AllWellFormed(Snapshots(fs)) && Weighted(Snapshots(fs))
  {
  }
}
