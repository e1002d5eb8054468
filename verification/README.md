# Stack Slide — a Dafny model of the game-state core

Stack Slide is a one-screen arcade game. A block slides back and forth above
a tower that sways left and right. A tap drops the block. The part that
overlaps the top of the tower stays; the overhang falls off as debris. A
complete miss, or a kept block narrower than 10 units, ends the game.

This project models the game logic of the `StackSlide` component in
`app/page.tsx` as pure functions over an immutable `GameState`:

- `types.dfy` (`StackTypes`): the `Block` and `FallingPiece` records, the
  `menu / playing / dead` phase, the whole component state, and the
  constants `GAME_WIDTH`, `BASE_WIDTH` and `COLORS`.
- `geometry.dfy` (`Geometry`): closed intervals and their overlap.
- `motion.dfy` (`Motion`): the fixed-tick integrators. The sliding block and
  the swaying tower share one bounce step. Debris falls under gravity and is
  dropped once it leaves the screen.
- `drop.dfy` (`Drop`): `placeBlock`. It computes the overlap, classifies the
  drop as miss, perfect or partial, and cuts the overhang debris. It then
  appends the kept block, updates score and streak, and either ends the game
  or spawns the next block.
- `game.dfy` (`Game`): the start-up state, `startGame`, the tap dispatcher and
  the three timer ticks. It also defines `Valid`, the invariant of every
  reachable state. `Run` replays any sequence of taps and ticks and keeps
  `Valid`.

Coordinates, speeds and offsets are exact `real`s. Two inputs from outside
the game are parameters with no claims made about them:
- the clock reading `Date.now()`, used as debris ids, is `now: int`;
- the coin flip `Math.random() > 0.5`, which picks the next block's
  direction, is `randomHigh: bool`.

On a perfect drop, the code copies only the top block's width. The new
block's x stays at the overlap's left edge minus the sway
(`app/page.tsx:231-232`); `Drop.PerfectDropShift` bounds the resulting
shift. Overhang debris is cut on every hit, perfect or not.

The next block's starting edge is chosen from the direction in force BEFORE
the drop, not from the newly drawn one (`app/page.tsx:266-267`). The model
keeps this.

## Model

| member | source | states |
|---|---|---|
| Geometry.Overlap | app/page.tsx:181-183 | The overlap is exactly the intersection of the moving block's and the top block's intervals, and is never wider than either of them. |
| Geometry.OverlapPositiveIff | app/page.tsx:181-185 | The overlap width is positive exactly when the two blocks share an interior point, so a miss is a drop with no common interior point. |
| Motion.Bounce | app/page.tsx:137-145 | One bounce tick stays within the bounds whatever the start. The direction changes only by stopping on the upper bound facing left or on the lower bound facing right. |
| Motion.BounceIsClamp | app/page.tsx:137-145 | The new position equals an independent clamp of the unconstrained move into the bounds. |
| Motion.BounceTurnsOnlyAtBounds | app/page.tsx:139-145 | From inside the bounds with a positive step, the direction flips exactly when the move would leave the bounds. After a flip the position is the bound that was hit, facing back inwards. |
| Motion.BlockSlide | app/page.tsx:135-147 | The sliding block's tick keeps it on the board, between 0 and GAME_WIDTH minus its width. |
| Motion.TowerSway | app/page.tsx:111-123 | The tower's tick keeps the sway offset within [-30, 30]. |
| Motion.Advance | app/page.tsx:161 | Every piece is advanced by one fall step, keeping count and order. |
| Motion.OnScreen | app/page.tsx:162 | The filter is never longer than its input. It contains exactly the input pieces whose y is below 600. |
| Motion.DebrisStep | app/page.tsx:159-163 | The debris tick never lengthens the list, and every surviving piece is above the off-screen line. |
| Motion.DebrisStepKeeps | app/page.tsx:160-162 | A piece's advanced copy survives exactly when y + vy < 600. |
| Motion.DebrisStepFromInput | app/page.tsx:160-162 | Every surviving piece is the one-tick advance of some input piece. |
| Motion.DebrisStepAppend | app/page.tsx:160-162 | The tick distributes over concatenation, so it keeps the input order. |
| Motion.DebrisStepNoneLost | app/page.tsx:160-162 | When no piece crosses the line, the tick only advances the pieces and removes none. |
| Drop.Overhangs | app/page.tsx:204-226 | The left and right debris widths plus the overlap width equal the moving block's width. A left piece, spanning from the mover's left edge to the top's left edge, exists exactly when the mover starts further left; likewise on the right. Every piece has positive width and the block's colour, and starts at y 80 with vertical speed 2 and rotation 0. When both pieces exist, the left one comes first. |
| Drop.PlaceBlock | app/page.tsx:169-268 | No effect unless playing with a sliding block. A miss: dead, tower unchanged, one piece with the block's x, width and colour appended, high score max(high, score), and nothing else changes. A hit: one block appended, and the new debris is exactly the overhang pieces of Drop.Overhangs, whose widths plus the overlap equal the block's width. The score gains 50 + 10*streak on a perfect drop or 10 otherwise. The streak then grows by one or resets to 0. A partial drop keeps exactly the overlap; a perfect drop keeps the top block's width. A kept width under 10 ends the game with high score max(high, new score), leaving the sliding block, its position, direction and the speed as they were. Otherwise the next block gets id+1, the kept width and palette colour (id+1) mod 10, and starts at the edge set by the old direction. Speed becomes min(speed + 0.1, 8). |
| Drop.PerfectDropShift | app/page.tsx:229-232 | A perfect drop's block is the top block shifted right by less than 3. It sits exactly on the top block iff the moving block did not start to its right. |
| Game.StartGame | app/page.tsx:78-104 | A restart gives a playing game with one base block centred on the board and a sliding block of the base width at x 0 moving right. The tower faces right as well. Score, streak, debris and sway are cleared, speed is 3, and the high score is kept. |
| Game.StartGameForgets | app/page.tsx:78-104 | Two states with the same high score restart to the same state. |
| Game.InitialValid | app/page.tsx:33-44 | The start-up state satisfies the reachability invariant. |
| Game.StartGameValid | app/page.tsx:78-104 | A restart from any state satisfies the reachability invariant. |
| Game.PlaceBlockValid | app/page.tsx:169-268 | A drop from a reachable state keeps the invariant. Block ids stay equal to their heights, colours follow the palette, widths stay in (0, 120], speed stays in [3, 8]. The high score never decreases and the menu is never re-entered. |
| Game.HandleTap | app/page.tsx:274-280 | A tap while playing is exactly the drop. Any other tap is exactly the restart, giving score 0 and a one-block tower. The result is never the menu and never lowers the high score. |
| Game.TowerTick | app/page.tsx:107-125 | The tower timer runs only while playing. The new offset is the old offset plus direction times the sway speed, clamped to [-30, 30]. A move past +30 turns the tower left (-1), a move past -30 turns it right (1), and a move within the bounds keeps the direction. Nothing but the sway and its direction changes. |
| Game.BlockTick | app/page.tsx:131-149 | The block timer runs only while playing with a sliding block. The new position is the old one plus direction times the slide speed, clamped to [0, GAME_WIDTH - width]. A move past GAME_WIDTH - width turns the block left (-1), a move past 0 turns it right (1), and a move within the bounds keeps the direction. Nothing but the position and direction changes. |
| Game.DebrisTick | app/page.tsx:155-164 | The debris timer replaces the debris by its one-tick fall, keeping only on-screen pieces. It never lengthens the list and changes nothing else. |
| Game.Step | app/page.tsx:106-290 | Any single tap or timer tick keeps the invariant, never lowers the high score and never returns to the menu. |
| Game.Run | app/page.tsx:106-290 | Any sequence of taps and ticks from a reachable state keeps the invariant and never lowers the high score. |
| Game.RunFromInitial | app/page.tsx:33-268 | From start-up, whatever happens: the sway stays within 30 and the speed within [3, 8]. The streak never exceeds the tower height. A finished game's score never exceeds the high score. While playing, the sliding block is on the board. |

## Left out

- Audio (`playSound`, `playPlace`, `playFall`, app/page.tsx:47-76): Web Audio calls with no effect on the game state.
- React scheduling (`useState`, `useEffect`, `setInterval`, listener registration, app/page.tsx:106-167, 272-290): each timer tick and each tap is one explicit `Event`, and any interleaving is allowed. Timer periods, stale closures and teardown are not modelled.
- The space-key listener (app/page.tsx:284): only click and touch are modelled as `Tap`. The keydown listener is an anonymous function that the cleanup (app/page.tsx:286-289) never removes. The effect re-registers whenever `placeBlock` changes (its dependencies, app/page.tsx:270, include `blockX`, which changes every tick). Stale keydown handlers therefore pile up, each acting on the state it captured, starting with a menu-state handler that restarts the game. A space press is not modelled.
- Rendering and view offsets (app/page.tsx:292-422), including `BLOCK_HEIGHT`, which is used only for drawing.
- `Math.random` and `Date.now()`: they are parameters, and nothing is claimed about their values (debris ids may collide).
- Drop.Overhangs: the game reads `Date.now()` separately for the left and right pieces (app/page.tsx:207, 218). The model reads the clock once, so the right piece's id is exactly the left one's plus 1. The game does not guarantee this.
- Floating point: `real` arithmetic is exact, so the rounding of the 0.1, 0.3, 0.05 and 0.5 increments is not modelled.
- Block ids are natural numbers. Every id the game creates is 0, 1 or a previous id plus one, so JavaScript's truncating `%` on negative ids never applies.
- app/layout.tsx and capacitor.config.ts: page metadata and packaging configuration, with no logic.
- Motion.DebrisStep: its own contract states only length and the off-screen filter. Order and survivor identity are stated by the lemmas listed after it.
