# A verified model of the fighter simulation core

This project models the deterministic simulation of a small 2D platform fighter with a
first-person walking demo beside it. The model covers:

- **Fighters** (`Combatant`, `FighterSpec`, `FighterLemmas`): a character with position,
  velocity, damage percent, lives and a state machine. States are Idle, Running, Jumping,
  Falling, Attacking, Special, Damaged and Dead. The character and its fighter subclass are
  one class, tagged by archetype (Balanced, Heavy, Speedy, Technical). The archetype decides
  speed, jump force, weight, attack timing, special durations and cooldowns, and hitbox
  scaling.
- **Platforms** (`Platforms`): the solid, semi-solid and pass-through collision predicates.
- **The stage** (`Stages`, `StageSpec`, `StageLemmas`):
  - the axis-by-axis collision resolution against every platform;
  - the ground probe and the blast zone;
  - the spawn table.
- **The game manager** (`MatchControl`, `MatchSpec`, `MatchLemmas`):
  - the match-state transitions (menu, playing, paused, game over);
  - the roster (add and remove);
  - routing controller input to one fighter;
  - the per-tick update (timer, stage pass, fighter updates, hitbox pass, stock end, camera);
  - the winner query.
- **The walking demo's walls** (`Walls`): a point-against-box test with a radius, and the
  slide that tries the axes in the order x, z, y.
- **Keyboard and mouse edge detection** (`Inputs`): held, pressed-this-frame and
  released-this-frame flags over the key and mouse-button arrays, plus the mouse deltas.

The imperative classes are `Fighter`, `Stage`, `GameManager`, `World` and `Input`. Each is
proved against a value-level specification. Every method states its new state, `Snapshot()`,
as a function of the old one. The lemmas then prove what the game promises about those
functions.

The model keeps several behaviours of the code that a reader may not expect:

- Leaving the blast zone calls the damage routine with zero damage and zero knockback. The
  knockout test needs more than 20 units of knockback, so no life is ever lost this way. The
  fighter is stunned and, if it has lives left, stopped and moved to the first spawn point.
  `StageLemmas.BlastOutcome` states this.
- A fighter's update clears its active hitboxes before the game manager looks for hits. The
  hitbox pass inside the manager's tick therefore never lands a hit. `MatchLemmas.TickOutcome`
  proves that a tick keeps every fighter's lives and percent.
- The state update re-derives Dead like any free state, so a tick never leaves a fighter
  Dead.
- A non-fatal knockout inside the damage routine respawns the fighter at (0, 5), not at a
  stage spawn.
- The camera skips dead fighters. When every fighter is dead, the bounding box keeps its
  `FLT_MAX` start values. The model carries that sentinel as a real constant, which gives a
  centre of (0, 0) and a zoom of 1.

## Model

| member | source | states |
|---|---|---|
| Vectors.TruncToInt | src/game/game_manager.cpp:113 | the integer cast truncates toward zero: the result is the integer part of its argument for either sign |
| FighterSpec.MoveSpeed | src/game/fighter.cpp:186-214 | every archetype's run speed is positive |
| FighterSpec.JumpForce | src/game/fighter.cpp:186-214 | every archetype's jump force is positive |
| FighterSpec.Weight | src/game/fighter.cpp:186-214 | every archetype's weight is positive, so the knockback division is defined |
| FighterSpec.AttackDuration | src/game/fighter.cpp:80-97 | every archetype's ordinary attack lasts a positive time |
| FighterSpec.SpecialDuration | src/game/fighter.cpp:119-167 | every special, scaled for every archetype, lasts a positive time |
| FighterSpec.SpecialCooldown | src/game/fighter.cpp:119-168 | every special, scaled for every archetype, has a positive cooldown |
| FighterSpec.Friction | src/game/character.cpp:212-218 | ground friction never reverses or grows the horizontal speed, strictly slows a moving fighter, and snaps speeds under 0.1 to zero |
| FighterSpec.Fall | src/game/character.cpp:221-227 | gravity lowers the vertical speed by g·dt but never below the maximum fall speed |
| FighterSpec.CooldownStep | src/game/fighter.cpp:60-68 | a running cooldown goes down by dt and stops at zero; a finished cooldown stays put |
| FighterLemmas.UpdateTick | src/game/character.cpp:52-68 | a tick clears the hitboxes, applies capped gravity, moves by the new velocity times dt, and keeps lives and percent |
| FighterLemmas.UpdateFriction | src/game/character.cpp:212-218 | friction applies exactly when the fighter is on the ground and not stunned |
| FighterLemmas.UpdateStateOutcome | src/game/character.cpp:52-68 | a forced state counts its timer down and ends in Idle or Falling; every other state is re-derived from ground contact and velocity |
| FighterLemmas.UpdateNeverLeavesDead | src/game/character.cpp:191-210 | after a tick no fighter is Dead, and a Dead fighter comes back in a free state |
| FighterLemmas.CooldownTick | src/game/fighter.cpp:60-68 | a tick keeps the cooldown table's keys, lowers every running cooldown toward zero and leaves finished ones alone |
| FighterLemmas.BusyRefusesAttacks | src/game/fighter.cpp:71-75 | an attacking or special-using fighter ignores both attack requests |
| FighterLemmas.AttackAccepted | src/game/fighter.cpp:71-103 | an accepted attack enters Attacking for the archetype's duration, restarts the animation and appends exactly the attack's hitbox, changing nothing else |
| FighterLemmas.SpecialOnCooldown | src/game/fighter.cpp:111-114 | a special whose cooldown is still running is refused |
| FighterLemmas.SpecialAccepted | src/game/fighter.cpp:105-174 | an accepted special sets its scaled duration and cooldown, appends its hitbox, and gives up-special its vertical boost and side-special its dash |
| FighterLemmas.SpecialCooldownBlocksRepeat | src/game/fighter.cpp:111-114 | right after a special, the same special is refused until its cooldown has run down |
| FighterLemmas.SpecialWithOrdinaryKind | src/game/fighter.cpp:116-146 | asking for a special with an ordinary attack kind enters Special but sets no timer, cooldown, hitbox or velocity |
| FighterLemmas.MoveOutcome | src/game/character.cpp:93-107 | moving sets the horizontal speed and facing, and switches to Running only for a grounded, free fighter |
| FighterLemmas.JumpOutcome | src/game/character.cpp:109-116 | a jump is possible when grounded or when the air jump is left; it sets the jump force, leaves the ground and uses up the air jump |
| FighterLemmas.TakeDamageOutcome | src/game/character.cpp:164-189 | a hit sets the knockback velocity and stuns for 0.5 s; a knockout costs exactly one life, kills on the last life and otherwise resets the percent and respawns |
| FighterLemmas.DamageMonotone | src/game/character.cpp:164-189 | a non-negative hit never adds lives, and the percent only drops on the respawn after a non-fatal knockout |
| FighterLemmas.OnlyHitsChangeLives | src/game/character.cpp:93-116 | moving, jumping, attacking, specials and taunts never change lives or percent |
| FighterLemmas.NewFighterReady | src/game/fighter.cpp:5-47 | a new fighter is well formed and can use any special at once, which starts its cooldown |
| FighterLemmas.TickCooldownsKeepsWellFormed | src/game/fighter.cpp:60-68 | the cooldown tick keeps the keys and keeps every cooldown non-negative |
| FighterLemmas.UpdateKeepsWellFormed | src/game/fighter.cpp:53-69 | a tick keeps a fighter well formed: archetype stats, at most three lives, a non-negative stun timer and every special's cooldown present and non-negative |
| FighterLemmas.ActionsKeepWellFormed | src/game/character.cpp:93-116 | moving, jumping, attacking and taunting keep a fighter well formed |
| FighterLemmas.SpecialKeepsWellFormed | src/game/fighter.cpp:105-174 | a special request keeps a fighter well formed |
| FighterLemmas.TakeDamageKeepsWellFormed | src/game/character.cpp:164-189 | a hit keeps a fighter well formed |
| FighterLemmas.HitboxFacingMirror | src/game/fighter.cpp:234-334 | facing left mirrors the hitbox offset and direction; up and down attacks do not depend on facing |
| FighterLemmas.HitboxArchetypeScaling | src/game/fighter.cpp:234-334 | the archetype scaling of a hitbox: Technical raises knockback growth, Heavy hits harder and wider, Speedy softer and narrower |
| FighterLemmas.ArchetypeProfiles | src/game/fighter.cpp:186-214 | Heavy is the slowest and heaviest; Speedy is the fastest, the lightest and the best jumper |
| Combatant.Fighter.constructor | src/game/fighter.cpp:5-47 | a fighter starts at the spawn point with three lives, no damage and its archetype's stats |
| Combatant.Fighter.SetPosition | src/game/character.h:70 | only the position changes |
| Combatant.Fighter.SetVelocity | src/game/character.h:71 | only the velocity changes |
| Combatant.Fighter.SetOnGround | src/game/character.h:72 | only the ground flag changes |
| Combatant.Fighter.UpdateState | src/game/character.cpp:191-219 | the fields follow the state-derivation and friction specification |
| Combatant.Fighter.ApplyGravity | src/game/character.cpp:221-227 | only the vertical speed changes, to its capped fall value |
| Combatant.Fighter.UpdateHitboxes | src/game/character.cpp:229-232 | only the hitbox list changes, and it is emptied |
| Combatant.Fighter.BaseUpdate | src/game/character.cpp:52-68 | the fields follow the base tick specification |
| Combatant.Fighter.UpdateAnimation | src/game/fighter.cpp:216-232 | the animation timer advances and wraps to the next frame at the state's frame time |
| Combatant.Fighter.Update | src/game/fighter.cpp:53-69 | the fields follow the whole fighter tick, and the fighter stays valid |
| Combatant.Fighter.MoveLeft | src/game/character.cpp:93-99 | the fields follow the left-move specification |
| Combatant.Fighter.MoveRight | src/game/character.cpp:101-107 | the fields follow the right-move specification |
| Combatant.Fighter.Jump | src/game/character.cpp:109-116 | the fields follow the jump specification |
| Combatant.Fighter.CreateHitboxForAttack | src/game/fighter.cpp:234-334 | exactly the attack's hitbox is appended and nothing else changes |
| Combatant.Fighter.Attack | src/game/fighter.cpp:71-103 | the fields follow the attack specification |
| Combatant.Fighter.SpecialAttack | src/game/fighter.cpp:105-174 | the fields follow the special-attack specification, including the cooldown entry the lookup inserts |
| Combatant.Fighter.LookUpCooldown | src/game/fighter.cpp:112 | the lookup returns the kind's cooldown, inserting a zero entry when the kind was absent |
| Combatant.Fighter.BeginSpecial | src/game/fighter.cpp:117-146 | the fighter enters Special, and only a special kind goes on to launch |
| Combatant.Fighter.LaunchSpecial | src/game/fighter.cpp:119-173 | the fields follow the launch of a special kind |
| Combatant.Fighter.Taunt | src/game/fighter.cpp:176-184 | the fields follow the taunt specification |
| Combatant.Fighter.TakeDamage | src/game/character.cpp:164-189 | the fields follow the damage specification |
| Platforms.CollisionIsOverlap | src/game/platform.cpp:39-53 | for a non-pass-through platform, the collision test holds exactly when the platform and the character's box share a point |
| Platforms.PassThroughNeverCollides | src/game/platform.cpp:39-79 | a pass-through platform never collides, from above or otherwise |
| Platforms.TouchingEdgesCollide | src/game/platform.cpp:39-53 | the bounds are inclusive: boxes that only touch at a corner collide |
| Platforms.SolidFromAboveIsPlainTest | src/game/platform.cpp:55-79 | for a solid platform the from-above test is the plain test |
| Platforms.SemiSolidLanding | src/game/platform.cpp:55-79 | a semi-solid platform only catches a fighter that is above its top and falling, and then tests the box one velocity step ahead |
| StageSpec.StageUpdateSpec | src/game/stage.cpp:37-57 | the stage pass keeps the roster's length and every fighter's weight |
| StageLemmas.ResolveAgainstCases | src/game/stage.cpp:77-123 | against one platform the motion is kept, keeps x only, keeps y only, or stops, each exactly in its collision case |
| StageLemmas.SemiSolidSkippedUnlessFalling | src/game/stage.cpp:77-123 | a semi-solid platform is ignored unless the fighter is falling |
| StageLemmas.NoCollisionMovesFreely | src/game/stage.cpp:77-123 | with no colliding platform the fighter moves by velocity times dt |
| StageLemmas.ResolveAgainstBounded | src/game/stage.cpp:77-123 | one platform's resolution keeps each coordinate at its start or its tentative value, and zeroes or keeps each velocity component |
| StageLemmas.ResolveFromBounded | src/game/stage.cpp:77-123 | the same bound holds after any number of platforms |
| StageLemmas.ResolveBounded | src/game/stage.cpp:77-123 | the whole resolution never moves a fighter past its own tentative step |
| StageLemmas.PassThroughIgnored | src/game/stage.cpp:77-123 | dropping every pass-through platform does not change the resolution |
| StageLemmas.OnGroundIff | src/game/stage.cpp:125-148 | grounded exactly when a solid platform meets the box 0.1 below, or a semi-solid platform catches it from above |
| StageLemmas.PassThroughNeverGrounds | src/game/stage.cpp:125-148 | pass-through platforms alone never ground a fighter |
| StageLemmas.OutOfBoundsIff | src/game/stage.cpp:150-157 | out of bounds exactly when outside the closed blast-zone rectangle |
| StageLemmas.DefaultSpawnLookup | src/game/stage.cpp:159-164 | the four default spawn points by index, and (0, 5) for any other index |
| StageLemmas.BlastOutcome | src/game/stage.cpp:45-55 | leaving the blast zone stuns the fighter and, if it has lives left, stops it and moves it to spawn 0; it never costs a life or changes the percent; inside the zone nothing happens |
| StageLemmas.StageStepKeepsWellFormed | src/game/stage.cpp:37-57 | the stage step keeps a fighter well formed and keeps lives and percent |
| Stages.Stage.constructor | src/game/stage.cpp:5-28 | a new stage has the default blast zone, four spawns and four platforms |
| Stages.Stage.AddPlatform | src/game/stage.cpp:72-75 | exactly one platform is appended |
| Stages.Stage.ResolveCharacterCollisions | src/game/stage.cpp:77-123 | the fighter's fields follow the resolution specification |
| Stages.Stage.IsCharacterOnGround | src/game/stage.cpp:125-148 | the answer is the grounding predicate |
| Stages.Stage.StepCharacter | src/game/stage.cpp:39-56 | one fighter's fields follow the stage step |
| Stages.Stage.Update | src/game/stage.cpp:37-57 | every fighter in the list takes the stage step and no other fighter changes |
| MatchSpec.PlaceAtSpawns | src/game/game_manager.cpp:144-147 | placing at the spawns keeps the roster's length |
| MatchSpec.StrikeAll | src/game/game_manager.cpp:101-117 | the hits of one attacker keep the defender's weight |
| MatchSpec.HitsFrom | src/game/game_manager.cpp:101-117 | one attacker's hits on one defender keep the roster's length and weights |
| MatchSpec.DefenderStep | src/game/game_manager.cpp:90-118 | one defender slot keeps the roster's length and weights |
| MatchSpec.DefendersFrom | src/game/game_manager.cpp:90-118 | the defender loop keeps the roster's length and weights |
| MatchSpec.AttackersFrom | src/game/game_manager.cpp:81-119 | the attacker loop keeps the roster's length and weights |
| MatchSpec.HitboxPass | src/game/game_manager.cpp:79-120 | the hitbox pass keeps the roster's length and weights |
| MatchSpec.AliveCount | src/game/game_manager.cpp:278-283 | the count of fighters with lives is at most the roster size |
| MatchSpec.FirstAliveFrom | src/game/game_manager.cpp:299-303 | the first index from i with lives left, or -1 exactly when none has lives |
| MatchSpec.UpdateAll | src/game/game_manager.cpp:65-67 | updating every fighter keeps the roster's length and weights |
| MatchLemmas.StrikeFollows | src/game/game_manager.cpp:107-116 | one hitbox never adds lives, keeps the defender's hitboxes and keeps it well formed |
| MatchLemmas.StrikeAllFollows | src/game/game_manager.cpp:101-117 | the same holds for all of one attacker's hitboxes |
| MatchLemmas.HitsFromFollows | src/game/game_manager.cpp:101-117 | one attacker's hits change only the defender, never add lives and keep it well formed |
| MatchLemmas.DefendersFromFollows | src/game/game_manager.cpp:90-118 | the defender loop never adds lives or breaks well-formedness, and leaves the attacker as it was |
| MatchLemmas.AttackersFromFollows | src/game/game_manager.cpp:81-119 | the attacker loop never adds lives or breaks well-formedness |
| MatchLemmas.HitboxPassFollows | src/game/game_manager.cpp:79-120 | the whole hitbox pass never adds lives, keeps hitbox lists, leaves fighters that were Dead untouched and keeps fighters well formed |
| MatchLemmas.DefendersFromNoHitboxes | src/game/game_manager.cpp:90-118 | an attacker without hitboxes changes nobody |
| MatchLemmas.AttackersFromNoHitboxes | src/game/game_manager.cpp:81-119 | with no hitboxes anywhere the attacker loop changes nobody |
| MatchLemmas.HitboxPassWithoutHitboxes | src/game/game_manager.cpp:79-120 | with no hitboxes anywhere the hitbox pass is the identity |
| MatchLemmas.HitLandsIsDistance | src/game/game_manager.cpp:102-107 | the squared-distance test agrees with the source's test, distance under hitbox radius plus half the defender's width |
| MatchLemmas.StrikeOutcome | src/game/game_manager.cpp:106-116 | a missing hitbox changes nothing; a landing one applies the scaled knockback and stun and costs at most one life |
| MatchLemmas.AliveCountZero | src/game/game_manager.cpp:278-283 | nobody is alive exactly when every fighter has no lives |
| MatchLemmas.AliveCountTwo | src/game/game_manager.cpp:278-283 | two fighters with lives make at least two alive |
| MatchLemmas.AliveCountOne | src/game/game_manager.cpp:278-283 | one fighter with lives and no other makes the count exactly one |
| MatchLemmas.AliveCountAtMostOne | src/game/game_manager.cpp:278-285 | the count is at most one exactly when no two fighters both have lives left |
| MatchLemmas.AliveCountSameLives | src/game/game_manager.cpp:278-283 | the alive count depends only on the lives |
| MatchLemmas.WinnerIsSoleSurvivor | src/game/game_manager.cpp:292-307 | no winner before the end or outside stock mode; in a finished stock match the one fighter with lives left is the winner, and -1 comes exactly when nobody has lives |
| MatchLemmas.MatchEndOutcome | src/game/game_manager.cpp:271-290 | the match is over exactly when it already was, or the mode is stock and no two fighters both have lives left; a finished match is untouched |
| MatchLemmas.ExtentHoldsLivePlayers | src/game/game_manager.cpp:231-244 | the bounding box holds every living fighter |
| MatchLemmas.ExtentWithoutLivePlayers | src/game/game_manager.cpp:231-244 | with nobody alive the box keeps its sentinel bounds |
| MatchLemmas.FramingZoom | src/game/game_manager.cpp:254-267 | the zoom is at least 1, so the half width is at least 10, and the view keeps the 16:9 aspect |
| MatchLemmas.FramingShowsLivePlayers | src/game/game_manager.cpp:226-268 | every living fighter is in view with at least the padding to spare on every side |
| MatchLemmas.FramingWithoutLivePlayers | src/game/game_manager.cpp:226-268 | with nobody alive the view is centred on the origin at zoom 1 |
| MatchLemmas.RemoveOutcome | src/game/game_manager.cpp:185-190 | a valid index removes exactly that fighter and shifts the rest down; any other index changes nothing |
| MatchLemmas.AddOutcome | src/game/game_manager.cpp:170-183 | adding appends one new fighter at its spawn; removing the last slot undoes it |
| MatchLemmas.PauseResume | src/game/game_manager.cpp:153-163 | pause only acts while playing and resume only while paused, and each undoes the other |
| MatchLemmas.StartOutcome | src/game/game_manager.cpp:138-151 | starting plays with a zero timer, and places every fighter at its spawn at rest with lives and percent kept |
| MatchLemmas.InputRouting | src/game/game_manager.cpp:192-224 | movement inside the 0.1 dead zone does nothing; a fighter takes the move first, then the jump, then the attack; special kinds go to the special move and the rest to the attack |
| MatchLemmas.JumpThenAttack | src/game/game_manager.cpp:208-223 | because the jump goes first, a fighter that can jump and sends a jump with an ordinary attack leaves any running attack or special: it jumps and the new attack is accepted, where a busy fighter refuses the attack sent alone |
| MatchLemmas.OutOfRangeSlot | src/game/game_manager.cpp:192-195 | input to or respawn of a slot outside the roster changes nothing |
| MatchLemmas.TimerOutcome | src/game/game_manager.cpp:53-60 | in a running timed match the timer grows by dt, and the match ends exactly when it reaches the limit |
| MatchLemmas.TickOutcome | src/game/game_manager.cpp:47-77 | a tick leaves no hitboxes, so the hitbox pass changes nobody; it keeps fighters well formed and keeps all lives and percents |
| MatchLemmas.StockNeverEndsInPlay | src/game/game_manager.cpp:271-290 | a running stock match with two fighters alive is still running after a tick |
| MatchControl.GameManager.constructor | src/game/game_manager.cpp:5-12 | a new manager is in the menu with default settings, no fighters, no stage and no camera |
| MatchControl.GameManager.Init | src/game/game_manager.cpp:29-45 | init creates the camera view and a fresh default stage, and resets the state, timer and end flag |
| MatchControl.GameManager.StartGame | src/game/game_manager.cpp:138-151 | the state follows the start specification with the stage's spawn points |
| MatchControl.GameManager.PlaceAtSpawnPoints | src/game/game_manager.cpp:144-147 | every fighter goes to its spawn point at rest |
| MatchControl.GameManager.PauseGame | src/game/game_manager.cpp:153-157 | the state follows the pause specification |
| MatchControl.GameManager.ResumeGame | src/game/game_manager.cpp:159-163 | the state follows the resume specification |
| MatchControl.GameManager.EndGame | src/game/game_manager.cpp:165-168 | the match is over and finished |
| MatchControl.GameManager.AddPlayer | src/game/game_manager.cpp:170-183 | one fresh fighter is appended at the stage spawn for its slot, or at (0, 5) without a stage |
| MatchControl.GameManager.RemovePlayer | src/game/game_manager.cpp:185-190 | the roster follows the removal specification |
| MatchControl.GameManager.ProcessPlayerInput | src/game/game_manager.cpp:192-224 | only the addressed fighter changes, as the input routing specification says |
| MatchControl.GameManager.ApplyMovement | src/game/game_manager.cpp:201-206 | the fighter follows the movement step of the routing |
| MatchControl.GameManager.ApplyJump | src/game/game_manager.cpp:208-211 | the fighter follows the jump step of the routing |
| MatchControl.GameManager.ApplyAttack | src/game/game_manager.cpp:213-223 | the fighter follows the attack step of the routing |
| MatchControl.GameManager.RespawnPlayer | src/game/game_manager.cpp:309-321 | only the addressed fighter changes: it goes to its spawn point at rest |
| MatchControl.GameManager.Update | src/game/game_manager.cpp:47-77 | outside play nothing changes; in play the state follows the whole-tick specification |
| MatchControl.GameManager.StepPlayers | src/game/game_manager.cpp:62-70 | the roster goes through the stage pass, the fighter updates and the hitbox pass, in that order |
| MatchControl.GameManager.UpdateTimer | src/game/game_manager.cpp:53-60 | the state follows the timer specification |
| MatchControl.GameManager.StagePass | src/game/game_manager.cpp:63 | the roster follows the stage pass |
| MatchControl.GameManager.UpdatePlayers | src/game/game_manager.cpp:65-67 | every fighter takes its own tick |
| MatchControl.GameManager.CheckHitboxCollisions | src/game/game_manager.cpp:79-120 | the roster follows the hitbox-pass specification |
| MatchControl.GameManager.HitDefenders | src/game/game_manager.cpp:90-118 | the roster follows one attacker's defender loop |
| MatchControl.GameManager.HitDefenderSlot | src/game/game_manager.cpp:90-98 | the roster follows one defender slot, with self and dead defenders skipped |
| MatchControl.GameManager.HitDefender | src/game/game_manager.cpp:100-117 | the defender takes every one of the attacker's hitboxes in order |
| MatchControl.GameManager.ApplyHit | src/game/game_manager.cpp:102-116 | the defender takes one hitbox's damage and knockback when it lands |
| MatchControl.GameManager.CheckMatchEnd | src/game/game_manager.cpp:271-290 | the state follows the stock-end specification |
| MatchControl.GameManager.GetWinningPlayerIndex | src/game/game_manager.cpp:292-307 | the answer is the winner of the current match |
| MatchControl.GameManager.UpdateCamera | src/game/game_manager.cpp:226-269 | the view follows the camera framing specification |
| Walls.World.constructor | src/game/world.cpp:4-16 | a new world holds the seven demo walls in order |
| Walls.World.AddWall | src/game/world.cpp:25-31 | exactly one wall is appended |
| Walls.World.CheckCollision | src/game/world.cpp:92-107 | the point collides exactly when it lies in some wall grown by the radius |
| Walls.World.ResolveCollision | src/game/world.cpp:109-131 | the result is the slide that tries the axes in the order x, z, y |
| Walls.AddWallCollides | src/game/world.cpp:25-31 | after adding a wall, a point collides exactly when it collided before or lies in the new wall |
| Walls.CollidesMonotone | src/game/world.cpp:92-107 | a larger radius never frees a point |
| Walls.SlideFreeIsDirect | src/game/world.cpp:110-112 | a free destination is taken as it is |
| Walls.SlideCoordinates | src/game/world.cpp:109-131 | each coordinate of the result is the old one or the new one |
| Walls.SlideStaysFree | src/game/world.cpp:109-131 | starting free, the slide always ends at a free position |
| Walls.SlidePrefersX | src/game/world.cpp:116-124 | x is tried first: when the x move is free but adding the z move to it is not, the result has the new x and the old z |
| Inputs.EventSpec | src/engine/input.cpp:32-71 | every event keeps the arrays at their fixed sizes |
| Inputs.EventsSpec | src/engine/input.cpp:32-71 | any run of events keeps the arrays at their fixed sizes |
| Inputs.Input.constructor | src/engine/input.cpp:3-12 | all keys and buttons start up, with the mouse at the origin and no deltas |
| Inputs.Input.Update | src/engine/input.cpp:17-30 | the arrays and deltas follow the frame-start specification |
| Inputs.Input.ProcessEvent | src/engine/input.cpp:32-71 | the arrays and mouse fields follow the event specification |
| Inputs.FrameClears | src/engine/input.cpp:17-30 | a new frame clears every pressed and released flag and the deltas, and keeps the held keys, the held buttons and the mouse position |
| Inputs.KeyDownEdge | src/engine/input.cpp:34-39 | a key-down holds the key and raises its pressed flag only on the up-to-down edge; a repeat changes nothing |
| Inputs.KeyDownIdempotent | src/engine/input.cpp:34-39 | a second key-down for the same key changes nothing |
| Inputs.KeyUpReleases | src/engine/input.cpp:41-44 | a key-up releases the key and raises its released flag |
| Inputs.MouseButtonSlots | src/engine/input.cpp:53-69 | buttons 1 to 3 use slots 0 to 2 with the same edge rules as keys; higher buttons are ignored |
| Inputs.EventIsLocal | src/engine/input.cpp:32-71 | an event touches at most the one key or button slot it names; a motion event sets the mouse position to its own and adds its relative move to the deltas; every other event leaves position and deltas alone |
| Inputs.DeltasAccumulate | src/engine/input.cpp:46-51 | motion events add up their relative moves into the deltas |
| Inputs.DeltasSinceFrame | src/engine/input.cpp:17-51 | after a frame start, the deltas are exactly the sum of the frame's relative moves |
| Inputs.HeldNeverRetriggers | src/engine/input.cpp:34-44 | a held key whose pressed flag is clear is never re-pressed while no key-up for it arrives |
| Inputs.PressedNeedsKeyDown | src/engine/input.cpp:34-39 | a pressed flag is only ever raised by a key-down for that key |

## Left out

- Rendering is not modelled: drawing, meshes, shaders, textures, the stage background, the
  wall meshes and texture, and the camera's view and projection matrices. The camera is
  modelled as the centre and half extents of its orthographic view. Its z position and its
  mouse-look update are not modelled.
- The application loop, the frame timer, the first-person player and the platform's mesh
  creation are not part of this model.
- The base character's own attack is not modelled. The fighter overrides it, and the roster
  only ever holds fighters.
- Floating-point rounding is not modelled: every `float` is a real number. Integer overflow of
  lives, percents and mouse deltas is not modelled either.
- Character names, the stage name and the unused controller index of `addPlayer` are left
  out, because no computation reads them.
- `Input::init` is empty and is left out. The static input arrays are the arrays of an
  `Input` object.
- Inputs.ValidEvent: key events must carry a scancode below 512, and button events a button
  from 1 to 255. Button 0 would index slot -1 in the source, and SDL numbers its buttons from
  1.
- Combatant.Fighter.MoveLeft: the source takes a time step that it never reads, so the model
  takes none.
- The input routing's fixed 0.016 s move step is not an argument, because the move does not
  read it.
- MatchControl.GameManager.RespawnPlayer: requires the stage to exist whenever the index is
  in range, because the source would dereference a null stage there.
- MatchControl.GameManager.StartGame: requires a stage unless the roster is empty, for the same
  reason. `Update` requires a stage while the match is playing.
- The walking demo's collision test and slide give the radius a default of 0.5
  (`src/game/world.h:24,26`). The model always takes the radius as an argument.
