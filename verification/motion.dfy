/** The fixed-tick integrators: the sliding block and the swaying tower both
    bounce between two bounds, and the debris falls under constant
    acceleration until it leaves the screen. */
module Motion {
  import opened StackTypes

  /** The tower sways within [-TowerLimit, TowerLimit]. */
  const TowerLimit: real := 30.0

  /** Debris is discarded once its `y` reaches this line. */
  const OffScreenY: real := 600.0

  /** Per-tick increments of a falling piece's speed and rotation. */
  const Gravity: real := 0.5
  const Spin: real := 5.0

  /** A position together with the direction it moves in. */
  datatype Slide = Slide(pos: real, dir: Dir)

  /** Reference definition: `v` forced into [lo, hi]. */
  function Clamp(v: real, lo: real, hi: real): (c: real)
    requires lo <= hi
    ensures lo <= c <= hi
    ensures lo <= v <= hi ==> c == v
    ensures v < lo ==> c == lo
    ensures hi < v ==> c == hi
  {
    if v < lo then lo else if hi < v then hi else v
  }

  /** One tick of a bouncing position: move `step` in direction `dir`; a
      move past the upper bound stops there and turns left, a move past the
      lower bound stops there and turns right. The upper bound is tested
      first. */
  function Bounce(pos: real, dir: Dir, step: real, lo: real, hi: real): (r: Slide)
    ensures lo <= hi ==> lo <= r.pos <= hi
    ensures r.dir != dir ==> (r.pos == hi && r.dir == -1) || (r.pos == lo && r.dir == 1)
  {
    var next := pos + dir as real * step;
    if next > hi then Slide(hi, -1)
    else if next < lo then Slide(lo, 1)
    else Slide(next, dir)
  }

  /** With non-empty bounds, the new position is the clamped move. */
  lemma BounceIsClamp(pos: real, dir: Dir, step: real, lo: real, hi: real)
    ensures lo <= hi ==>
      Bounce(pos, dir, step, lo, hi).pos == Clamp(pos + dir as real * step, lo, hi)
  {
  }

  /** Starting inside the bounds with a positive step, the direction flips
      exactly when the move would leave the bounds, and after a flip the
      position sits on the bound that was hit, facing back inwards. */
  lemma BounceTurnsOnlyAtBounds(pos: real, dir: Dir, step: real, lo: real, hi: real)
    requires lo <= pos <= hi
    requires step > 0.0
    ensures var r := Bounce(pos, dir, step, lo, hi);
      && (r.dir != dir <==> !(lo <= pos + dir as real * step <= hi))
      && (r.dir != dir && dir == 1 ==> r.pos == hi && r.dir == -1)
      && (r.dir != dir && dir == -1 ==> r.pos == lo && r.dir == 1)
  {
  }

  /** The sliding block's tick: it stays on the board, between 0 and
      `GameWidth - width`. */
  function BlockSlide(x: real, dir: Dir, speed: real, width: real): (r: Slide)
    ensures width <= GameWidth ==> 0.0 <= r.pos && r.pos + width <= GameWidth
  {
    Bounce(x, dir, speed, 0.0, GameWidth - width)
  }

  /** The tower's tick: its offset never leaves [-30, 30]. */
  function TowerSway(offset: real, dir: Dir, slideSpeed: real): (r: Slide)
    ensures -TowerLimit <= r.pos <= TowerLimit
  {
    Bounce(offset, dir, slideSpeed, -TowerLimit, TowerLimit)
  }

  /** One tick of a single falling piece. */
  function Fall(p: FallingPiece): FallingPiece
  {
    p.(y := p.y + p.vy, vy := p.vy + Gravity, rotation := p.rotation + Spin)
  }

  /** Every piece advanced by one tick, in order. */
  function Advance(ps: seq<FallingPiece>): (qs: seq<FallingPiece>)
    ensures |qs| == |ps|
    ensures forall i :: 0 <= i < |ps| ==> qs[i] == Fall(ps[i])
  {
    seq(|ps|, i requires 0 <= i < |ps| => Fall(ps[i]))
  }

  /** The pieces still above the off-screen line, in their original order. */
  function OnScreen(qs: seq<FallingPiece>): (r: seq<FallingPiece>)
    ensures |r| <= |qs|
    ensures forall q :: q in r <==> q in qs && q.y < OffScreenY
  {
    if |qs| == 0 then []
    else (if qs[0].y < OffScreenY then [qs[0]] else []) + OnScreen(qs[1..])
  }

  /** The debris tick: advance every piece, then drop those that left the
      screen. */
  function DebrisStep(ps: seq<FallingPiece>): (r: seq<FallingPiece>)
    ensures |r| <= |ps|
    ensures forall q :: q in r ==> q.y < OffScreenY
  {
    OnScreen(Advance(ps))
  }

  /** A piece survives the tick exactly when its advanced position is still
      on screen. */
  lemma DebrisStepKeeps(ps: seq<FallingPiece>, i: nat)
    requires i < |ps|
    ensures Fall(ps[i]) in DebrisStep(ps) <==> ps[i].y + ps[i].vy < OffScreenY
  {
  }

  /** Everything that survives came from some input piece. */
  lemma DebrisStepFromInput(ps: seq<FallingPiece>, q: FallingPiece)
    requires q in DebrisStep(ps)
    ensures exists i :: 0 <= i < |ps| && q == Fall(ps[i])
  {
  }

  lemma {:induction false} OnScreenAppend(a: seq<FallingPiece>, b: seq<FallingPiece>)
    ensures OnScreen(a + b) == OnScreen(a) + OnScreen(b)
    decreases |a|
  {
    if |a| == 0 {
      assert a + b == b;
    } else {
      assert (a + b)[1..] == a[1..] + b;
      OnScreenAppend(a[1..], b);
    }
  }

  /** The debris tick works piece by piece, so it keeps the input order: the
      survivors of a concatenation are the survivors of each part, in turn. */
  lemma DebrisStepAppend(a: seq<FallingPiece>, b: seq<FallingPiece>)
    ensures DebrisStep(a + b) == DebrisStep(a) + DebrisStep(b)
  {
    assert Advance(a + b) == Advance(a) + Advance(b);
    OnScreenAppend(Advance(a), Advance(b));
  }

  /** When no piece crosses the line, the tick only advances them. */
  lemma {:induction false} OnScreenAll(qs: seq<FallingPiece>)
    requires forall i :: 0 <= i < |qs| ==> qs[i].y < OffScreenY
    ensures OnScreen(qs) == qs
  {
    if |qs| > 0 {
      OnScreenAll(qs[1..]);
    }
  }

  lemma DebrisStepNoneLost(ps: seq<FallingPiece>)
    requires forall i :: 0 <= i < |ps| ==> ps[i].y + ps[i].vy < OffScreenY
    ensures DebrisStep(ps) == Advance(ps)
  {
    OnScreenAll(Advance(ps));
  }
}
