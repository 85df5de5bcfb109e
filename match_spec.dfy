/** The match controller as functions over a value snapshot: game states and settings, the
    player-versus-player hitbox pass, the stock-mode end and winner rules, the camera framing,
    input routing and the per-frame tick. */
module MatchSpec {
  import opened Vectors
  import opened CharacterTypes
  import opened FighterSpec
  import opened StageSpec

  datatype GameState = Menu | CharacterSelect | StageSelect | Playing | Paused | GameOver

  datatype GameMode =
    | Time     // ends when the match timer reaches the limit
    | Stock    // ends when at most one player has lives left
    | Stamina  // no end rule of its own

  datatype GameSettings = GameSettings(
    mode: GameMode,
    timeLimit: int,
    stockCount: int,
    staminaAmount: int,
    itemsEnabled: bool,
    damageMultiplier: real,
    knockbackMultiplier: real)

  const DefaultSettings: GameSettings := GameSettings(Stock, 180, 3, 100, true, 1.0, 1.0)

  /** What the projection shows: its centre and half extents. */
  datatype CameraView = CameraView(center: Vec2, halfWidth: real, halfHeight: real)

  /** Everything of the controller except the stage. */
  datatype MatchData = MatchData(
    state: GameState,
    settings: GameSettings,
    timer: real,
    finished: bool,
    players: seq<FighterData>,
    hasCamera: bool,
    view: CameraView)

  predicate AllWellFormed(ds: seq<FighterData>) {
    forall q :: 0 <= q < |ds| ==> WellFormed(ds[q])
  }

  // ---------------------------------------------------------------------------
  // State transitions

  function PauseSpec(m: MatchData): MatchData {
    m.(state := if m.state == Playing then Paused else m.state)
  }

  function ResumeSpec(m: MatchData): MatchData {
    m.(state := if m.state == Paused then Playing else m.state)
  }

  function EndSpec(m: MatchData): MatchData {
    m.(state := GameOver, finished := true)
  }

  /** Each player is put at the spawn point of its slot, at rest; lives and percent stay. */
  function PlaceAtSpawns(ds: seq<FighterData>, spawns: seq<Vec2>): (r: seq<FighterData>)
    ensures |r| == |ds|
  {
    seq(|ds|, q requires 0 <= q < |ds| => ds[q].(position := SpawnPosition(spawns, q), velocity := Zero2))
  }

  function StartSpec(m: MatchData, spawns: seq<Vec2>): MatchData {
    m.(timer := 0.0, finished := false, state := Playing, players := PlaceAtSpawns(m.players, spawns))
  }

  // ---------------------------------------------------------------------------
  // Roster

  function AddPlayerSpec(m: MatchData, t: FighterType, spawn: Vec2): MatchData {
    m.(players := m.players + [NewFighter(t, spawn)])
  }

  function RemovePlayerSpec(m: MatchData, index: int): MatchData {
    m.(players := if 0 <= index < |m.players| then m.players[..index] + m.players[index + 1..] else m.players)
  }

  /** A horizontal input past the dead zone of 0.1 moves; a smaller one does nothing. */
  function MoveInput(d: FighterData, movement: Vec2): FighterData {
    if movement.x < -0.1 then MoveSpec(d, false) else if movement.x > 0.1 then MoveSpec(d, true) else d
  }

  function JumpInput(d: FighterData, jump: bool): FighterData {
    if jump then JumpSpec(d) else d
  }

  /** An attack input goes to the special move for the four special kinds, else to the
      ordinary attack. */
  function AttackInput(d: FighterData, attack: bool, kind: AttackType): FighterData {
    if !attack then d else if kind.IsSpecial() then SpecialAttackSpec(d, kind) else AttackSpec(d, kind)
  }

  /** One player's input: the move, then the jump, then the attack. */
  function InputSpec(d: FighterData, movement: Vec2, jump: bool, attack: bool, kind: AttackType): FighterData {
    AttackInput(JumpInput(MoveInput(d, movement), jump), attack, kind)
  }

  function ProcessInputSpec(m: MatchData, index: int, movement: Vec2, jump: bool, attack: bool, kind: AttackType): MatchData {
    m.(players := if 0 <= index < |m.players|
                  then m.players[index := InputSpec(m.players[index], movement, jump, attack, kind)]
                  else m.players)
  }

  function RespawnSpec(m: MatchData, index: int, spawn: Vec2): MatchData {
    m.(players := if 0 <= index < |m.players|
                  then m.players[index := m.players[index].(position := spawn, velocity := Zero2)]
                  else m.players)
  }

  // ---------------------------------------------------------------------------
  // The hitbox pass

  /** The squared distance from the centre of hitbox `h` of an attacker at `attackerPos` to
      the defender's centre. */
  function GapSquared(attackerPos: Vec2, h: Hitbox, defender: FighterData): real {
    var gap := Sub(Add(attackerPos, h.offset), defender.position);
    gap.x * gap.x + gap.y * gap.y
  }

  /** How far from the defender's centre a hitbox centre may be and still hit. */
  function Reach(h: Hitbox, defender: FighterData): real {
    h.radius + defender.size.x * 0.5
  }

  /** The hitbox reaches the defender; the distance test is on squares. */
  predicate HitLands(attackerPos: Vec2, h: Hitbox, defender: FighterData) {
    0.0 <= Reach(h, defender) && GapSquared(attackerPos, h, defender) < Reach(h, defender) * Reach(h, defender)
  }

  /** The hitbox damage scaled by the settings and truncated. */
  function HitDamage(h: Hitbox, s: GameSettings): int {
    TruncToInt(h.damage as real * s.damageMultiplier)
  }

  /** The knockback of a hit, growing with the defender's percent before the hit. */
  function HitKnockback(h: Hitbox, defender: FighterData, s: GameSettings): real {
    h.knockbackBase + h.knockbackScaling * defender.damagePercent * s.knockbackMultiplier
  }

  /** A landed hitbox is a hit on the defender; a miss changes nothing. */
  function Strike(d: FighterData, attackerPos: Vec2, h: Hitbox, s: GameSettings): FighterData
    requires d.weight != 0.0
  {
    if HitLands(attackerPos, h, d)
    then TakeDamageSpec(d, HitDamage(h, s), HitKnockback(h, d, s), h.knockbackDirection)
    else d
  }

  /** The hitboxes `hs` of an attacker at `attackerPos`, one after the other, against `d`. */
  function StrikeAll(d: FighterData, attackerPos: Vec2, hs: seq<Hitbox>, s: GameSettings): (r: FighterData)
    requires d.weight != 0.0
    ensures r.weight == d.weight
    decreases |hs|
  {
    if hs == [] then d
    else StrikeAll(Strike(d, attackerPos, hs[0], s), attackerPos, hs[1..], s)
  }

  /** The hitboxes `hs` of attacker `i` against defender `j`: only slot `j` changes. */
  function HitsFrom(ds: seq<FighterData>, s: GameSettings, i: int, j: int, hs: seq<Hitbox>): (r: seq<FighterData>)
    requires Weighted(ds) && 0 <= i < |ds| && 0 <= j < |ds| && i != j
    ensures |r| == |ds| && Weighted(r)
  {
    ds[j := StrikeAll(ds[j], ds[i].position, hs, s)]
  }

  /** Attacker `i` against slot `j`, unless `j` is the attacker itself or Dead. */
  function DefenderStep(ds: seq<FighterData>, s: GameSettings, i: int, j: int): (r: seq<FighterData>)
    requires Weighted(ds) && 0 <= i < |ds| && 0 <= j < |ds|
    ensures |r| == |ds| && Weighted(r)
  {
    if j == i || ds[j].state == Dead then ds else HitsFrom(ds, s, i, j, ds[i].activeHitboxes)
  }

  /** Attacker `i` against defenders `j` onwards. */
  function DefendersFrom(ds: seq<FighterData>, s: GameSettings, i: int, j: nat): (r: seq<FighterData>)
    requires Weighted(ds) && 0 <= i < |ds|
    ensures |r| == |ds| && Weighted(r)
    decreases |ds| - j
  {
    if j >= |ds| then ds else DefendersFrom(DefenderStep(ds, s, i, j), s, i, j + 1)
  }

  /** Attackers `i` onwards, skipping the dead. */
  function AttackersFrom(ds: seq<FighterData>, s: GameSettings, i: nat): (r: seq<FighterData>)
    requires Weighted(ds)
    ensures |r| == |ds| && Weighted(r)
    decreases |ds| - i
  {
    if i >= |ds| then ds
    else if ds[i].state == Dead then AttackersFrom(ds, s, i + 1)
    else AttackersFrom(DefendersFrom(ds, s, i, 0), s, i + 1)
  }

  function HitboxPass(ds: seq<FighterData>, s: GameSettings): (r: seq<FighterData>)
    requires Weighted(ds)
    ensures |r| == |ds| && Weighted(r)
  {
    AttackersFrom(ds, s, 0)
  }

  // ---------------------------------------------------------------------------
  // End of match and winner

  /** The number of players with lives left. */
  function AliveCount(ds: seq<FighterData>): (n: nat)
    ensures n <= |ds|
  {
    if ds == [] then 0
    else AliveCount(ds[..|ds| - 1]) + (if ds[|ds| - 1].lives > 0 then 1 else 0)
  }

  /** In stock mode an unfinished match ends once at most one player has lives left. */
  function MatchEndSpec(m: MatchData): MatchData {
    var ends := !m.finished && m.settings.mode == Stock && AliveCount(m.players) <= 1;
    m.(finished := m.finished || ends, state := if ends then GameOver else m.state)
  }

  /** The lowest slot from `i` on with lives left, or -1. */
  function FirstAliveFrom(ds: seq<FighterData>, i: nat): (r: int)
    ensures r == -1 || i <= r < |ds|
    ensures r >= 0 ==> ds[r].lives > 0 && forall q :: i <= q < r ==> ds[q].lives <= 0
    ensures r == -1 ==> forall q :: i <= q < |ds| ==> ds[q].lives <= 0
    decreases |ds| - i
  {
    if i >= |ds| then -1
    else if ds[i].lives > 0 then i
    else FirstAliveFrom(ds, i + 1)
  }

  /** The winner: none before the match is finished or outside stock mode, else the lowest
      slot with lives left, if any. */
  function Winner(m: MatchData): int {
    if !m.finished then -1
    else if m.settings.mode == Stock then FirstAliveFrom(m.players, 0)
    else -1
  }

  // ---------------------------------------------------------------------------
  // Camera framing

  /** The largest finite single-precision value, the starting point of the min/max scan. */
  const FltMax: real := 340282346638528859811704183484516925440.0

  const Aspect: real := 16.0 / 9.0
  const Padding: real := 3.0

  datatype Bounds = Bounds(lo: Vec2, hi: Vec2)

  function MinV(a: Vec2, b: Vec2): Vec2 {
    Vec2(Min(a.x, b.x), Min(a.y, b.y))
  }

  function MaxV(a: Vec2, b: Vec2): Vec2 {
    Vec2(Max(a.x, b.x), Max(a.y, b.y))
  }

  const EmptyBounds: Bounds := Bounds(Vec2(FltMax, FltMax), Vec2(-FltMax, -FltMax))

  /** The component-wise min and max of the positions of the players not Dead. */
  function Extent(ds: seq<FighterData>): Bounds {
    if ds == [] then EmptyBounds
    else
      var b := Extent(ds[..|ds| - 1]);
      var d := ds[|ds| - 1];
      if d.state == Dead then b else Bounds(MinV(b.lo, d.position), MaxV(b.hi, d.position))
  }

  function Zoom(size: Vec2): real {
    Max(Max(size.x / 16.0, size.y / 9.0), 1.0)
  }

  /** The view of the padded box: centred on it, half-width 10 per unit of zoom. */
  function Framing(ds: seq<FighterData>): CameraView {
    var b := Extent(ds);
    var lo := Sub(b.lo, Vec2(Padding, Padding));
    var hi := Add(b.hi, Vec2(Padding, Padding));
    var width := 10.0 * Zoom(Sub(hi, lo));
    CameraView(Scale(Add(lo, hi), 0.5), width, width / Aspect)
  }

  /** No framing without players or without a camera. */
  function CameraSpec(m: MatchData): MatchData {
    m.(view := if m.players == [] || !m.hasCamera then m.view else Framing(m.players))
  }

  // ---------------------------------------------------------------------------
  // The tick

  /** In time mode an unfinished match counts up and ends at the limit. */
  function TimerSpec(m: MatchData, dt: real): MatchData {
    var counting := m.settings.mode == Time && !m.finished;
    var timer := if counting then m.timer + dt else m.timer;
    var ends := counting && timer >= m.settings.timeLimit as real;
    m.(timer := timer, finished := m.finished || ends, state := if ends then GameOver else m.state)
  }

  function UpdateAll(ds: seq<FighterData>, dt: real): (r: seq<FighterData>)
    ensures |r| == |ds| && (Weighted(ds) ==> Weighted(r))
  {
    seq(|ds|, q requires 0 <= q < |ds| => UpdateSpec(ds[q], dt))
  }

  /** Outside play nothing happens; in play the timer, then the stage pass, every player's
      update, the hitbox pass, the end check and the camera. */
  function TickSpec(m: MatchData, L: StageLayout, dt: real): MatchData
    requires m.state == Playing
    requires AllWellFormed(m.players)
  {
    var timed := TimerSpec(m, dt);
    var staged := StageUpdateSpec(L, m.players, dt);
    var updated := UpdateAll(staged, dt);
    var hit := HitboxPass(updated, m.settings);
    CameraSpec(MatchEndSpec(timed.(players := hit)))
  }
}
