/** The game as a state machine: the start-up state, restart (`startGame`),
    the tap dispatcher, the three timer ticks, and the invariant every
    reachable state satisfies. */
module Game {
  import opened StackTypes
  import opened Geometry
  import opened Motion
  import opened Drop

  /** The component's state before the first tap. */
  function Initial(): GameState
  {
    GameState(Menu, [], None, [], 0.0, 1, 0, 0, 0, StartSpeed, 0.0, 1)
  }

  /** A restart: one base block centred on the board, a full-width sliding
      block at the left edge moving right, sway and score cleared. Only the
      high score survives. */
  function StartGame(s: GameState): (t: GameState)
    ensures t.phase == Playing
    ensures |t.blocks| == 1 && t.current.Some?
    ensures t.blocks[0].x + t.blocks[0].width / 2.0 == GameWidth / 2.0
    ensures t.blocks[0].width == BaseWidth == t.current.value.width
    ensures t.blockX == 0.0 && t.blockDir == 1 && t.towerDir == 1
    ensures t.score == 0 && t.perfectStreak == 0 && t.falling == []
    ensures t.speed == StartSpeed && t.towerOffset == 0.0
    ensures t.highScore == s.highScore
  {
    var base := Block(0, GameWidth / 2.0 - BaseWidth / 2.0, BaseWidth, ColorOf(0), true);
    s.(
      blocks := [base],
      current := Some(Block(1, 0.0, BaseWidth, ColorOf(1), false)),
      falling := [],
      towerOffset := 0.0,
      towerDir := 1,
      score := 0,
      perfectStreak := 0,
      speed := StartSpeed,
      blockX := 0.0,
      blockDir := 1,
      phase := Playing)
  }

  /** Restarting forgets everything except the high score. */
  lemma StartGameForgets(s: GameState, s': GameState)
    requires s.highScore == s'.highScore
    ensures StartGame(s) == StartGame(s')
  {
  }

  /** A tower block at height `i`: its id is its height, its colour follows
      the palette, and its width is positive and at most the base width. */
  predicate WellPlaced(b: Block, i: nat)
  {
    b.id == i && b.color == ColorOf(i) && b.placed && 0.0 < b.width <= BaseWidth
  }

  /** The invariant of every reachable state. */
  predicate Valid(s: GameState)
  {
    && -TowerLimit <= s.towerOffset <= TowerLimit
    && StartSpeed <= s.speed <= MaxSpeed
    && s.perfectStreak <= |s.blocks|
    && (s.phase != Playing ==> s.score <= s.highScore)
    && (forall i :: 0 <= i < |s.blocks| ==> WellPlaced(s.blocks[i], i))
    && (s.current.Some? ==>
          var c := s.current.value;
          c.color == ColorOf(c.id) && !c.placed && 0.0 < c.width <= BaseWidth)
    && (s.phase == Playing ==>
          && s.current.Some?
          && |s.blocks| > 0
          && s.current.value.id == |s.blocks|
          && 0.0 <= s.blockX <= GameWidth - s.current.value.width)
  }

  lemma InitialValid()
    ensures Valid(Initial())
  {
  }

  lemma StartGameValid(s: GameState)
    ensures Valid(StartGame(s))
  {
  }

  /** After a hit the tower is still well placed: the kept block's id is
      its height and its colour follows the palette. */
  lemma HitKeepsTower(s: GameState, now: int, randomHigh: bool)
    requires Valid(s) && CanDrop(s) && !IsMiss(s)
    ensures forall i :: 0 <= i < |PlaceBlock(s, now, randomHigh).blocks| ==>
      WellPlaced(PlaceBlock(s, now, randomHigh).blocks[i], i)
  {
    var t := PlaceBlock(s, now, randomHigh);
    var n := |s.blocks|;
    forall i | 0 <= i < |t.blocks|
      ensures WellPlaced(t.blocks[i], i)
    {
      if i < n {
        assert t.blocks[i] == t.blocks[..n][i];
      }
    }
  }

  /** A drop from a reachable state reaches a reachable state, never lowers
      the high score, and never returns to the menu. */
  lemma PlaceBlockValid(s: GameState, now: int, randomHigh: bool)
    requires Valid(s)
    ensures var t := PlaceBlock(s, now, randomHigh);
      Valid(t) && t.highScore >= s.highScore && (s.phase != Menu ==> t.phase != Menu)
  {
    if CanDrop(s) && !IsMiss(s) {
      HitKeepsTower(s, now, randomHigh);
    }
  }

  /** The tap handler: a tap while playing drops the block, any other tap
      (re)starts the game. */
  function HandleTap(s: GameState, now: int, randomHigh: bool): (t: GameState)
    requires Valid(s)
    ensures Valid(t)
    ensures t.phase != Menu
    ensures t.highScore >= s.highScore
    ensures s.phase == Playing ==> t == PlaceBlock(s, now, randomHigh)
    ensures s.phase != Playing ==> t == StartGame(s)
    ensures s.phase != Playing ==> t.phase == Playing && t.score == 0 && |t.blocks| == 1
    ensures s.phase == Playing ==> |t.blocks| <= |s.blocks| + 1 && t.score >= s.score
  {
    if s.phase == Playing then
      PlaceBlockValid(s, now, randomHigh);
      PlaceBlock(s, now, randomHigh)
    else
      StartGame(s)
  }

  /** Per-tick sway speed: the taller the tower, the faster it sways. */
  function SwaySpeed(s: GameState): real
  {
    0.5 + |s.blocks| as real * 0.05
  }

  /** Per-tick slide speed: the game speed plus a bonus per tower block. */
  function SlideSpeed(s: GameState): real
  {
    s.speed + |s.blocks| as real * 0.3
  }

  /** The 50 ms tower timer, running only while playing. */
  function TowerTick(s: GameState): (t: GameState)
    ensures s.phase == Playing ==> -TowerLimit <= t.towerOffset <= TowerLimit
    ensures s.phase == Playing ==>
      t.towerOffset == Clamp(s.towerOffset + s.towerDir as real * SwaySpeed(s), -TowerLimit, TowerLimit)
    ensures t.towerDir != s.towerDir ==> Abs(t.towerOffset) == TowerLimit
    ensures s.phase == Playing && s.towerOffset + s.towerDir as real * SwaySpeed(s) > TowerLimit ==>
      t.towerDir == -1
    ensures s.phase == Playing && s.towerOffset + s.towerDir as real * SwaySpeed(s) < -TowerLimit ==>
      t.towerDir == 1
    ensures -TowerLimit <= s.towerOffset + s.towerDir as real * SwaySpeed(s) <= TowerLimit ==>
      t.towerDir == s.towerDir
    ensures s.phase != Playing ==> t == s
    ensures t == s.(towerOffset := t.towerOffset, towerDir := t.towerDir)
  {
    if s.phase != Playing then s
    else
      var r := TowerSway(s.towerOffset, s.towerDir, SwaySpeed(s));
      BounceIsClamp(s.towerOffset, s.towerDir, SwaySpeed(s), -TowerLimit, TowerLimit);
      s.(towerOffset := r.pos, towerDir := r.dir)
  }

  /** The 30 ms block timer, running only while playing with a sliding block. */
  function BlockTick(s: GameState): (t: GameState)
    ensures CanDrop(s) && s.current.value.width <= GameWidth ==>
      0.0 <= t.blockX <= GameWidth - s.current.value.width
    ensures CanDrop(s) && s.current.value.width <= GameWidth ==>
      t.blockX == Clamp(s.blockX + s.blockDir as real * SlideSpeed(s),
                        0.0, GameWidth - s.current.value.width)
    ensures t.blockDir != s.blockDir ==>
      && s.current.Some?
      && (t.blockX == 0.0 || t.blockX == GameWidth - s.current.value.width)
    ensures (CanDrop(s) &&
             s.blockX + s.blockDir as real * SlideSpeed(s) > GameWidth - s.current.value.width) ==>
      t.blockDir == -1
    ensures (CanDrop(s) && s.current.value.width <= GameWidth &&
             s.blockX + s.blockDir as real * SlideSpeed(s) < 0.0) ==>
      t.blockDir == 1
    ensures (CanDrop(s) &&
             0.0 <= s.blockX + s.blockDir as real * SlideSpeed(s) <= GameWidth - s.current.value.width) ==>
      t.blockDir == s.blockDir
    ensures !CanDrop(s) ==> t == s
    ensures t == s.(blockX := t.blockX, blockDir := t.blockDir)
  {
    if !CanDrop(s) then s
    else
      var r := BlockSlide(s.blockX, s.blockDir, SlideSpeed(s), s.current.value.width);
      BounceIsClamp(s.blockX, s.blockDir, SlideSpeed(s), 0.0, GameWidth - s.current.value.width);
      s.(blockX := r.pos, blockDir := r.dir)
  }

  /** The 30 ms debris timer, running only while there is debris; it runs
      in every phase. */
  function DebrisTick(s: GameState): (t: GameState)
    ensures |t.falling| <= |s.falling|
    ensures t.falling == DebrisStep(s.falling)
    ensures t == s.(falling := t.falling)
  {
    if |s.falling| == 0 then s
    else s.(falling := DebrisStep(s.falling))
  }

  /** Everything that can happen between two frames. */
  datatype Event = Tap(now: int, randomHigh: bool) | TowerTimer | BlockTimer | DebrisTimer

  function Step(s: GameState, e: Event): (t: GameState)
    requires Valid(s)
    ensures Valid(t)
    ensures t.highScore >= s.highScore
    ensures s.phase != Menu ==> t.phase != Menu
  {
    match e
    case Tap(now, randomHigh) => HandleTap(s, now, randomHigh)
    case TowerTimer => TowerTick(s)
    case BlockTimer => BlockTick(s)
    case DebrisTimer => DebrisTick(s)
  }

  /** Any sequence of events from a reachable state stays reachable, and the
      high score never goes down. */
  function Run(s: GameState, es: seq<Event>): (t: GameState)
    requires Valid(s)
    ensures Valid(t)
    ensures t.highScore >= s.highScore
    ensures s.phase != Menu ==> t.phase != Menu
    decreases |es|
  {
    if |es| == 0 then s else Run(Step(s, es[0]), es[1..])
  }

  /** From start-up, whatever the player and the timers do, the sway stays
      within 30, the speed within [3, 8], the streak at most the tower
      height, and a finished game's score never exceeds the high score. */
  lemma RunFromInitial(es: seq<Event>)
    ensures var t := Run(Initial(), es);
      && -TowerLimit <= t.towerOffset <= TowerLimit
      && StartSpeed <= t.speed <= MaxSpeed
      && t.perfectStreak <= |t.blocks|
      && (t.phase == Dead ==> t.score <= t.highScore)
      && (t.phase == Playing ==> t.current.Some? && 0.0 <= t.blockX <= GameWidth - t.current.value.width)
  {
  }
}
