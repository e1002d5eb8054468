/** Records and constants of the Stack Slide game: the blocks of the tower,
    the falling debris, and the whole game state that the React component
    keeps in its `useState` hooks. Coordinates are exact reals. */
module StackTypes {

  /** Width of the playing field, in screen units. */
  const GameWidth: real := 320.0

  /** Width of the base block and of the first moving block. */
  const BaseWidth: real := 120.0

  /** Palette the blocks cycle through, one colour per block id. */
  const Colors: seq<string> := [
    "#ef4444", "#f97316", "#eab308", "#22c55e", "#14b8a6",
    "#3b82f6", "#8b5cf6", "#ec4899", "#f43f5e", "#06b6d4"
  ]

  /** Speed of the moving block when a game starts, and its cap. */
  const StartSpeed: real := 3.0
  const MaxSpeed: real := 8.0

  /** Colour of the block with the given id. */
  function ColorOf(id: nat): string
  {
    Colors[id % |Colors|]
  }

  /** A horizontal direction: the game stores only 1 or -1. */
  type Dir = d: int | d == 1 || d == -1 witness 1

  datatype Option<T> = None | Some(value: T)

  datatype Phase = Menu | Playing | Dead

  /** A block of the tower (placed) or the block sliding above it. `x` is in
      tower coordinates: the screen position is `x + towerOffset`. */
  datatype Block = Block(id: nat, x: real, width: real, color: string, placed: bool)

  /** A cosmetic fragment falling off the tower, in screen coordinates. */
  datatype FallingPiece = FallingPiece(
    id: int, x: real, y: real, width: real, color: string, rotation: real, vy: real)

  /** Everything the component keeps between frames. `blockX` is the screen
      position of the sliding block; the `x` field of `current` is not used
      for motion. */
  datatype GameState = GameState(
    phase: Phase,
    blocks: seq<Block>,
    current: Option<Block>,
    falling: seq<FallingPiece>,
    towerOffset: real,
    towerDir: Dir,
    score: nat,
    perfectStreak: nat,
    highScore: nat,
    speed: real,
    blockX: real,
    blockDir: Dir)
}
