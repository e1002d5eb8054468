/** Dropping the sliding block onto the tower (`placeBlock`): overlap with the
    top block, miss / perfect / partial classification, overhang debris,
    scoring, and either game over or the next sliding block. */
module Drop {
  import opened StackTypes
  import opened Geometry

  /** A drop whose overlap is within this distance of the top block's width
      counts as perfect. */
  const PerfectTolerance: real := 3.0

  /** A tower block narrower than this ends the game. */
  const MinWidth: real := 10.0

  /** Speed gained by the sliding block after each successful drop. */
  const SpeedStep: real := 0.1

  /** Starting height and vertical speed of every new falling piece. */
  const DebrisY: real := 80.0
  const DebrisVy: real := 2.0

  /** A freshly cut fragment at screen position `x`. */
  function NewDebris(id: int, x: real, width: real, color: string): FallingPiece
  {
    FallingPiece(id, x, DebrisY, width, color, 0.0, DebrisVy)
  }

  function SumWidths(ds: seq<FallingPiece>): real
  {
    if |ds| == 0 then 0.0 else ds[0].width + SumWidths(ds[1..])
  }

  /** The larger of two scores: `Geometry.Max` for the natural-number
      scores, which are not reals. */
  function HigherScore(h: nat, s: nat): (m: nat)
    ensures m >= h && m >= s
    ensures m == h || m == s
  {
    if h >= s then h else s
  }

  /** The pieces of the moving block that hang over the top block: one on
      the left when the mover starts further left (id `now`), one on the
      right when it ends further right (id `now + 1`), the left one first.
      Together with the overlap they account for the mover's whole width;
      every piece has positive width and starts at height 80 with vertical
      speed 2 and no rotation. */
  function Overhangs(mover: Span, top: Span, color: string, now: int): (ds: seq<FallingPiece>)
    ensures SumWidths(ds) + Width(Overlap(mover, top)) == Width(mover)
    ensures forall d :: d in ds ==> d.width > 0.0 && d.color == color
    ensures forall d :: d in ds ==> d.y == DebrisY && d.vy == DebrisVy && d.rotation == 0.0
    ensures |ds| == 2 ==> ds[0].x == mover.left && ds[1].x == top.right
    ensures |ds| <= 2
    ensures (exists d :: d in ds && d.x == mover.left && d.x + d.width == top.left)
            <==> mover.left < top.left
    ensures (exists d :: d in ds && d.x == top.right && d.x + d.width == mover.right)
            <==> mover.right > top.right
  {
    var left := if mover.left < top.left
      then [NewDebris(now, mover.left, top.left - mover.left, color)] else [];
    var right := if mover.right > top.right
      then [NewDebris(now + 1, top.right, mover.right - top.right, color)] else [];
    assert SumWidths(left + right) == SumWidths(left) + SumWidths(right) by {
      if |left| == 1 { assert (left + right)[1..] == right; }
      else { assert left + right == right; }
    }
    left + right
  }

  /** A drop is possible while playing with a sliding block. */
  predicate CanDrop(s: GameState)
  {
    s.phase == Playing && s.current.Some?
  }

  /** The sliding block's screen interval. */
  function MoverSpan(s: GameState): Span
    requires s.current.Some?
  {
    Span(s.blockX, s.blockX + s.current.value.width)
  }

  function Top(s: GameState): Block
    requires |s.blocks| > 0
  {
    s.blocks[|s.blocks| - 1]
  }

  /** The top block's screen interval: tower coordinates shifted by the sway. */
  function TopSpan(s: GameState): Span
    requires |s.blocks| > 0
  {
    Span(Top(s).x + s.towerOffset, Top(s).x + s.towerOffset + Top(s).width)
  }

  function DropOverlap(s: GameState): Span
    requires s.current.Some? && |s.blocks| > 0
  {
    Overlap(MoverSpan(s), TopSpan(s))
  }

  predicate IsMiss(s: GameState)
    requires s.current.Some? && |s.blocks| > 0
  {
    Width(DropOverlap(s)) <= 0.0
  }

  predicate IsPerfect(s: GameState)
    requires s.current.Some? && |s.blocks| > 0
  {
    Abs(Width(DropOverlap(s)) - Top(s).width) < PerfectTolerance
  }

  /** Width of the block a successful drop adds to the tower. */
  function KeptWidth(s: GameState): real
    requires s.current.Some? && |s.blocks| > 0
  {
    if IsPerfect(s) then Top(s).width else Width(DropOverlap(s))
  }

  /** The drop. `now` stands for the clock reading used as debris ids and
      `randomHigh` for the coin flip choosing the next block's direction.
      `placeBlock` reads the top block unguarded, so a drop needs a
      non-empty tower. */
  function PlaceBlock(s: GameState, now: int, randomHigh: bool): (t: GameState)
    requires CanDrop(s) ==> |s.blocks| > 0
    // Nothing happens unless a drop is possible.
    ensures !CanDrop(s) ==> t == s
    // A miss ends the game; the whole block falls; the tower is unchanged.
    ensures CanDrop(s) && IsMiss(s) ==>
      && t.phase == Dead
      && t.blocks == s.blocks
      && t.falling == s.falling
           + [NewDebris(now, s.blockX, s.current.value.width, s.current.value.color)]
      && t.score == s.score && t.perfectStreak == s.perfectStreak
      && t.highScore == HigherScore(s.highScore, s.score)
      && t == s.(phase := t.phase, falling := t.falling, highScore := t.highScore)
    // A hit appends one block, adds the overhang debris (whose widths and the
    // overlap add up to the sliding block's width), and scores.
    ensures CanDrop(s) && !IsMiss(s) ==>
      && |t.blocks| == |s.blocks| + 1
      && t.blocks[..|s.blocks|] == s.blocks
      && t.falling == s.falling + Overhangs(MoverSpan(s), TopSpan(s), s.current.value.color, now)
      && t.score == s.score + (if IsPerfect(s) then 50 + 10 * s.perfectStreak else 10)
      && t.perfectStreak == (if IsPerfect(s) then s.perfectStreak + 1 else 0)
    // The appended block keeps the sliding block's id and colour; a partial
    // drop keeps exactly the overlap, a perfect drop takes the top block's
    // width but starts at the overlap's left edge.
    ensures CanDrop(s) && !IsMiss(s) ==>
      var nb := t.blocks[|s.blocks|];
      && nb.id == s.current.value.id && nb.color == s.current.value.color && nb.placed
      && nb.x + s.towerOffset == DropOverlap(s).left
      && (!IsPerfect(s) ==> nb.x + s.towerOffset + nb.width == DropOverlap(s).right)
      && (IsPerfect(s) ==> nb.width == Top(s).width)
      && 0.0 < nb.width <= Top(s).width
      && (!IsPerfect(s) ==> nb.width <= s.current.value.width)
    // Too narrow a block ends the game, counting this drop's points.
    ensures CanDrop(s) && !IsMiss(s) && KeptWidth(s) < MinWidth ==>
      && t.phase == Dead
      && t.current == s.current
      && t.highScore == HigherScore(s.highScore, t.score)
      && t.speed == s.speed
      && t.blockX == s.blockX && t.blockDir == s.blockDir
    // Otherwise the next block, as wide as the kept one, starts at the edge
    // the OLD direction points away from, and the game speeds up to at most 8.
    ensures CanDrop(s) && !IsMiss(s) && KeptWidth(s) >= MinWidth ==>
      var id := s.current.value.id + 1;
      && t.phase == Playing
      && t.current == Some(Block(id, 0.0, KeptWidth(s), ColorOf(id), false))
      && t.blockX == (if s.blockDir > 0 then 0.0 else GameWidth - KeptWidth(s))
      && t.blockDir == (if randomHigh then 1 else -1)
      && t.speed == Min(s.speed + SpeedStep, MaxSpeed)
      && t.highScore == s.highScore
    // The sway and its direction are untouched.
    ensures t.towerOffset == s.towerOffset && t.towerDir == s.towerDir
  {
    if !CanDrop(s) then s
    else
      var cur := s.current.value;
      var last := Top(s);
      var mover := MoverSpan(s);
      var top := TopSpan(s);
      var o := Overlap(mover, top);
      if Width(o) <= 0.0 then
        s.(falling := s.falling + [NewDebris(now, s.blockX, cur.width, cur.color)],
           phase := Dead,
           highScore := HigherScore(s.highScore, s.score))
      else
        var perfect := Abs(Width(o) - last.width) < PerfectTolerance;
        var debris := Overhangs(mover, top, cur.color, now);
        var newWidth := if perfect then last.width else Width(o);
        var newBlock := Block(cur.id, o.left - s.towerOffset, newWidth, cur.color, true);
        var points := if perfect then 50 + 10 * s.perfectStreak else 10;
        var placed := s.(
          blocks := s.blocks + [newBlock],
          falling := s.falling + debris,
          score := s.score + points,
          perfectStreak := if perfect then s.perfectStreak + 1 else 0);
        if newWidth < MinWidth then
          placed.(phase := Dead, highScore := HigherScore(s.highScore, s.score + points))
        else
          placed.(
            current := Some(Block(cur.id + 1, 0.0, newWidth, ColorOf(cur.id + 1), false)),
            blockDir := if randomHigh then 1 else -1,
            blockX := if s.blockDir > 0 then 0.0 else GameWidth - newWidth,
            speed := Min(s.speed + SpeedStep, MaxSpeed))
  }

  /** A perfect drop takes the top block's width but not its position: the
      new block is the top block shifted right by less than the tolerance,
      and sits exactly on it precisely when the sliding block did not start
      to the right of it. */
  lemma PerfectDropShift(s: GameState, now: int, randomHigh: bool)
    requires CanDrop(s) && |s.blocks| > 0
    requires !IsMiss(s) && IsPerfect(s)
    ensures var nb := PlaceBlock(s, now, randomHigh).blocks[|s.blocks|];
      && 0.0 <= nb.x - Top(s).x < PerfectTolerance
      && (nb.x == Top(s).x <==> s.blockX <= TopSpan(s).left)
  {
  }
}
