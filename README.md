# HideAndSeek level setup, clock and game-over texts in Dafny

This project models the deterministic core of the two scenes of the
HideAndSeek game, a small SpriteKit survival game:

- **GameScene** (`HideAndSeek/GameScene.swift`), as a class whose fields are
  updated in place:
  - the two-layer 16×16 tile map: a bottom layer of sand and a top layer
    whose cell (column, row) is cobblestone or water by the sign of the
    noise sample at x = row, y = column (the index is transposed);
  - the goal, put at one of four corners inset by the goal's own size;
  - the obstacles, placed by rejection sampling: a drawn centre is dropped
    when it is less than twice the obstacle width from an obstacle already
    placed, and kept otherwise, until ten are placed;
  - the elapsed-time clock, started on the first frame through the `-1`
    sentinel, and the "<n> sec" label that its observer keeps in sync.
- **GameoverScene** (`HideAndSeek/GameoverScene.swift`): the rank message
  chosen from (clear, elapsed seconds) with thresholds at 15 and 30, the
  numbered high-score listing or its "No High Score" fallback, and the
  immutable capture of the outcome.

Randomness and the engine are inputs: the noise map is a total function
`(int, int) -> real`, the goal's corner is an index from 0 to 3, and the
obstacle loop is fed the sequence of candidate centres it draws. Positions
and sizes are integers (the candidate centres come from an integer random
distribution), and the distance test `sqrt(dx*dx + dy*dy) < 2w` is compared
squared, `dx*dx + dy*dy < 4*w*w`. Timestamps are reals; `Int(_:)` is
modelled as truncation toward zero. Integer-to-text interpolation (`"\(n)"`)
is modelled exactly, with a parser beside it so that the label texts and the
listing lines are proved to read back to what they show.

Modules: `Wrappers` (Option), `Decimal` (Swift's rendering of an `Int`),
`Terrain`, `Placement` (goal corners and the rejection-sampling
specification `Place`), `Timekeeping` (the clock as a value and its label),
`Game` (class `GameScene`), `Gameover` (the texts and class `GameoverScene`).

A missing tile set leaves the map with no layers
(HideAndSeek/GameScene.swift:46), and a candidate obstacle is tested only
against earlier obstacles (HideAndSeek/GameScene.swift:135-143).

## Model

| member | source | states |
|---|---|---|
| `Decimal.Digits` | HideAndSeek/GameScene.swift:28 | the digits of a natural are non-empty, all decimal digits, with no leading zero unless the value is zero |
| `Decimal.FromInt` | HideAndSeek/GameScene.swift:28 | the interpolation of an `Int` is non-empty, starts with '-' exactly for negatives, and is digits otherwise |
| `Decimal.DigitsRoundTrip` | HideAndSeek/GameScene.swift:28 | the digits of n read back as n |
| `Decimal.FromIntRoundTrip` | HideAndSeek/GameScene.swift:28 | the rendering of every `Int` reads back as that `Int` |
| `Decimal.FromIntInjective` | HideAndSeek/GameScene.swift:28 | distinct integers render to distinct texts |
| `Terrain.Classify` | HideAndSeek/GameScene.swift:82-86 | a sample gives cobblestone iff it is >= 0 and water iff it is < 0; never sand |
| `Placement.GoalCorners` | HideAndSeek/GameScene.swift:117-121 | four goal positions, each on the left or right and the bottom or top edge (inset by the goal size), pairwise distinct when the goal is smaller than the scene |
| `Placement.GoalCornerOnEdges` | HideAndSeek/GameScene.swift:117-121 | each of the four goal positions is flush with the left or right edge and the bottom or top edge, by index |
| `Placement.GoalInsideScene` | HideAndSeek/GameScene.swift:117-124 | with the anchor at the lower-left and a goal no larger than the scene, the goal lies wholly inside the scene at every corner |
| `Placement.TooClose` | HideAndSeek/GameScene.swift:136-139 | zero-width obstacles never conflict, coincident centres conflict iff the width is non-zero, and a conflict means both offsets are under twice the width |
| `Placement.TooCloseSymmetric` | HideAndSeek/GameScene.swift:136-139 | the squared-distance test gives the same answer in both directions |
| `Placement.Overlaps` | HideAndSeek/GameScene.swift:135-143 | a candidate overlaps iff some accepted obstacle is closer than twice the obstacle width |
| `Placement.Place` | HideAndSeek/GameScene.swift:130-152 | the rejection-sampling loop fed a draw sequence uses no more draws than it has and keeps the accepted list as a prefix |
| `Placement.PlaceAppends` | HideAndSeek/GameScene.swift:130-152 | the loop only appends, every new obstacle is one of the draws used, it never exceeds ten and stops short of ten only when the draws run out |
| `Placement.PlaceSeparates` | HideAndSeek/GameScene.swift:135-151 | every appended obstacle is at least twice the width from every obstacle before it; a separated list stays separated |
| `Placement.PlaceDropsOnlyTooClose` | HideAndSeek/GameScene.swift:135-151 | every draw the loop used is either in the final list or too close to an obstacle in it: a draw is dropped only for being too close |
| `Placement.PlaceInInsetBox` | HideAndSeek/GameScene.swift:134 | drawn from [64, width-64] × [64, height-64], every new obstacle centre lies in that box |
| `Timekeeping.Truncate` | HideAndSeek/GameScene.swift:161 | `Int(x)` is the integer toward zero within one of x |
| `Timekeeping.TruncateMonotone` | HideAndSeek/GameScene.swift:161 | truncation of non-negative reals is non-negative and monotone |
| `Timekeeping.Tick` | HideAndSeek/GameScene.swift:155-162 | one frame records the timestamp, restarts the clock at it after the sentinel, keeps the start otherwise, and counts the whole seconds since the start |
| `Timekeeping.FirstTickStartsClock` | HideAndSeek/GameScene.swift:155-162 | the first frame sets start and last update to its timestamp and the count to 0 |
| `Timekeeping.RunFromFirstFrame` | HideAndSeek/GameScene.swift:155-162 | with non-negative timestamps the start stays at the first frame and the count is the truncation of (latest - first) |
| `Timekeeping.ElapsedNeverDecreases` | HideAndSeek/GameScene.swift:155-162 | for non-negative, non-decreasing timestamps the count is non-negative and never goes down |
| `Timekeeping.NegativeTimestampRestarts` | HideAndSeek/GameScene.swift:156-160 | a negative timestamp keeps the sentinel, so the next frame restarts the clock |
| `Timekeeping.LabelText` | HideAndSeek/GameScene.swift:28 | the label is the count's decimal (a '-' exactly for negatives, digits otherwise) followed by " sec" |
| `Timekeeping.LabelRoundTrip` | HideAndSeek/GameScene.swift:26-29 | the time label reads back as the count it shows |
| `Timekeeping.InitialLabel` | HideAndSeek/GameScene.swift:23-26 | the initial label "0 sec" is the label of the initial count 0 |
| `Game.GameScene.constructor` | HideAndSeek/GameScene.swift:16-30 | no obstacles, goal at the origin, no layers, clock at the sentinel, label in sync |
| `Game.GameScene.SetElapsedTime` | HideAndSeek/GameScene.swift:26-30 | after assigning the count the label equals its decimal followed by " sec" |
| `Game.GameScene.SetupMap` | HideAndSeek/GameScene.swift:41-90 | without a tile set only the grid node is added; otherwise two fresh 16×16 layers, the bottom all sand and the top cell (column, row) classified from noise(row, column) |
| `Game.GameScene.CreateGoal` | HideAndSeek/GameScene.swift:113-128 | the goal is the corner picked by the index and lies inside the scene when it fits |
| `Game.GameScene.CreateObstacles` | HideAndSeek/GameScene.swift:130-153 | the new obstacle list is that of `Place`: appended only, from the draws, at most ten, each new one separated from all earlier ones, every dropped draw too close to a kept one, inside the inset box |
| `Game.GameScene.Update` | HideAndSeek/GameScene.swift:155-162 | the clock fields become one `Tick` of the old ones: restarted on the first frame, start kept afterwards, count truncated; label in sync |
| `Game.GameScene.DidMove` | HideAndSeek/GameScene.swift:33-39 | presenting builds the map (no layers without a tile set; otherwise fresh layers, all sand below and classified noise above), then places the goal, then the obstacles |
| `Gameover.RankText` | HideAndSeek/GameoverScene.swift:60-72 | "You died" iff not cleared; the special-force, skilled-survivor and novice messages iff cleared under 15, in [15, 30) and from 30 seconds |
| `Gameover.RankMonotone` | HideAndSeek/GameoverScene.swift:61-68 | a cleared level's message is one of the three ranks, and a slower clear never ranks better |
| `Gameover.NumberedLine` | HideAndSeek/GameoverScene.swift:42 | the first ':' of a listing line ends the number, and what follows is ": " and the score |
| `Gameover.NumberedFrom` | HideAndSeek/GameoverScene.swift:41-42 | one line per entry, line i being the number first+i, ": " and entry i |
| `Gameover.HighScoreLabels` | HideAndSeek/GameoverScene.swift:33-56 | with a stored list: the title then one line per entry in order numbered from 1; without one: only "No High Score" |
| `Gameover.NumberedLineRoundTrip` | HideAndSeek/GameoverScene.swift:42 | a listing line reads back as its number and its score, whatever the score contains |
| `Gameover.HighScoreListingDecodes` | HideAndSeek/GameoverScene.swift:41-47 | the stored list reads back from the listing, entry by entry in order, numbered from 1 |
| `Gameover.GameoverScene.constructor` | HideAndSeek/GameoverScene.swift:13-21 | the outcome and the time are stored unchanged in constant fields |
| `Gameover.GameoverScene.DidMove` | HideAndSeek/GameoverScene.swift:27-30 | the labels shown are the high-score listing, then the rank message, then the replay prompt |

## Left out

- Noise generation (Perlin source, random persistence, the seamless noise map): engine code and floating point; the samples are an input function.
- The random draws (goal corner, candidate centres): engine random sources; they are inputs.
- A NaN noise sample, for which neither branch of the classification runs: samples are reals here.
- Tile groups missing from a found tile set: the three groups are assumed present.
- `Game.GameScene.CreateObstacles`: stops when the supplied draws run out, where the game keeps drawing forever; the model therefore proves the loop's invariants and not that ten are always reached.
- `Game.GameScene.Update`: `Int(_:)` traps on values outside the 64-bit range; timestamps here are unbounded reals.
- `Game.GameScene.Update`: subtracts the timestamps exactly, where Swift subtracts two `Double`s; near a whole second the rounded difference can cross the integer (start 2^-60 and now 1.0 show 1 in the game and 0 here).
- Scene size, goal size and obstacle size are integers rather than `CGFloat`; `Int(size.width)` truncation is taken as already applied.
- All node work: adding children, textures, z-positions, automapping, fonts, label positions, the camera (`setupCamera` is never called), `setupTimeLabel`.
- The stored high-score list is passed in; reading it from user defaults is persistent I/O.
- Scene transitions (`touchesEnded`) and `init(coder:)`: framework plumbing.
- `HideAndSeek/Constants.swift`: only a texture atlas and z-order constants.
- Enemies, steering, difficulty rules and terrain-dependent player speed: Enemy code is not part of this model; none of it is in the two scene files modelled.
