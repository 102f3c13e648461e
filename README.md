# Asteroid dodger: a Dafny model of the simulation core

The game is a single canvas. The player's square moves in half-size steps with the
arrow keys and dodges asteroids. Each frame the spawner adds at most one asteroid,
until there are five again. Each asteroid enters from a corner or an edge and flies along one of eight fixed paths. A star
field scrolls behind them. The model covers `script.js`, the whole game. It models
the simulation in these pieces:

- `Kinematics` (`kinematics.dfy`) is the pure part of the asteroids:
  - the eight path tags (`PathEnum`) and the velocity each tag fixes
  - `createStartPosition`
  - the size, selector and speed draws of `asteroidComponent`
  - the off-screen test `isAsteroidGone` and the collision test `checkCollision`, written as values
- `Stars` (`stars.dfy`) is `starComponent`. It holds the star's state as a value, its
  `newPos` step with the invariant that step keeps, and a `Star` class whose `NewPos`
  updates the star's fields in place.
- `Players` (`players.dfy`) holds:
  - `checkKey`'s key dispatch
  - `playerComponent.move`, both as written and corrected (see Findings)
  - the `Player` class, whose `Move` updates the player's centre in place
- `Asteroids` (`asteroids.dfy`) is the `Asteroid` class. Its constructor is
  `asteroidComponent`; `NewPos`, `IsAsteroidGone` and `CheckCollision` are its members.
- `GameLoop` (`game.dfy`) models the globals `stars`, `asteroids` and `player` and the
  canvas as a `Game` class:
  - `createStars`, `createAsteroid(s)` and `createPlayer`
  - `myGameArea.initGame` as the constructor, and `myGameArea.start`
  - `updateGameArea` as `Tick`, with its phases as separate methods
  - `checkKey`
  - the per-tick evolution of the asteroid population on values (`TickRocks`), with
    its properties proved

Every `Math.random()` value becomes a `real` parameter in [0, 1). The model derives
sizes, selectors and positions from these draws exactly as the source does, `Math.floor`
included. Each entity takes its draws as one record (`StarDraw`, `RockDraw`).

The `Game` class keeps a ghost view of its entities: `starStates` and `rocks`, the
state of each star and asteroid in collection order. `Valid()` ties the view to the
objects and says no object occurs twice. It also bounds the population by
`ASTEROIDS_NO`. Each method states its new view as a function of the old one:
`Tick` moves `rocks` to `TickRocks(old(rocks), …)`. The lemmas on those functions
carry the game's properties.

Where a reader might expect otherwise, the model follows the code:

- The population target is the constant `ASTEROIDS_NO` = 5. Nothing increases it over time.
- The margins of the off-screen test differ by side (script.js:276-283). An asteroid
  is gone when its centre is more than twice its size left of or above the canvas.
  On the right or at the bottom, one pixel is enough.
- Not every spawn is fully off-screen. An axis that starts on the right or bottom
  puts the centre exactly on the canvas edge (script.js:355-393); an axis that starts
  on the left or top puts it 1.5 sizes out. So at most half of a new asteroid is
  visible: half for edge spawns 6 and 8 (when the free coordinate is at least half a
  size from 0), a quarter for corner 2, and nothing for corners 1, 3 and 4 and edges
  5 and 7. The contract of `CreateStartPosition` states the positions.
- The letters of a path tag name where the asteroid starts on each axis. An `N` axis
  moves forward; a `P` axis moves back; a `C` axis drifts at half speed in the sense
  of the other axis.
- Each colliding asteroid calls `stop`, not only the first. `Tick` returns how many
  times `stop` was called.

One place departs from the code on purpose. As written, LEFT and UP can take the
player partly off the canvas (script.js:306-318). `MovedAsWritten` models that code
and Findings records it. `Player.Move`, `CheckKey` and the lemmas about sequences of
moves use the corrected move, `Moved`.

## Model

| member | source | states |
|---|---|---|
| Kinematics.Velocity | script.js:247-273 | the displacement per tick for each tag, by side: an axis starting on the negative side moves +speed, one on the positive side −speed, a free axis half of the other axis |
| Kinematics.SidesDetermineTag | script.js:4-13 | the two side letters of a tag determine the tag: the eight tags are distinct |
| Kinematics.Step | script.js:247-273 | newPos moves only the centre, by the tag's velocity; size, tag and speed are unchanged |
| Kinematics.StepNPosition | script.js:247-273 | after n ticks the centre has moved n times the velocity and nothing else has changed |
| Kinematics.EventuallyGone | script.js:247-283 | an asteroid of speed at least 1 is gone after a number of ticks bounded by its distance to the canvas, whatever its tag |
| Kinematics.Gone | script.js:276-283 | an asteroid of non-negative size whose centre is on the canvas is never gone |
| Kinematics.GoneMargins | script.js:276-283 | the off-screen test restated as an interval: not gone ⇔ the centre lies within −2·size … canvas+1 on both axes |
| Kinematics.GoneScenario | script.js:276-283 | with size 50, x = −200 is gone and x = −90 is not |
| Kinematics.Collides | script.js:236-244 | the four edge comparisons hold ⇔ on both axes the centres are closer than the mean of the extents |
| Kinematics.CollidesSymmetric | script.js:236-244 | the test does not depend on which box is the asteroid |
| Kinematics.SameCentreCollides | script.js:236-244 | boxes with the same centre and positive extents collide |
| Kinematics.SeparatedNeverCollides | script.js:236-244 | boxes separated on some axis by at least the mean extent (touching included) do not collide |
| Kinematics.FloorDraw | script.js:374 | floor(rnd·span) lies in [0, span) for a positive span and in [span, 0] otherwise |
| Kinematics.ScaledDraw | script.js:85 | a draw scaled by m lies in [0, m) for positive m |
| Kinematics.SelectorTable | script.js:346-399 | selectors 1–8 get tags NN, PP, NP, PN, NC, PC, CN, CP; any other selector behaves as selector 1 |
| Kinematics.CreateStartPosition | script.js:338-404 | a negative-side axis starts 1.5 sizes before the canvas, a positive-side axis exactly on its far edge; a free axis lies in [0, canvas − size) when the canvas is larger than the asteroid and in [canvas − size, 0] otherwise |
| Kinematics.SpawnMovesInward | script.js:338-404 | on every axis where the spawn is outside or on the edge, the tag's velocity points into the canvas |
| Kinematics.SpawnOnOrOutsideEdge | script.js:338-404 | every spawn is left of, above, or on the right or bottom edge of the canvas |
| Kinematics.SpawnNotGone | script.js:338-404 | no freshly placed asteroid is already gone, for every selector, draw and canvas size |
| Kinematics.BottomRightScenario | script.js:353-358 | on 800×600 selector 2 places a size-30 asteroid at (800, 600) with tag PP; one tick at speed 2 takes it to (798, 598) |
| Kinematics.Dimension | script.js:202 | the drawn size lies in [20, 50) |
| Kinematics.Selector | script.js:208 | the drawn selector lies in 1..8 |
| Kinematics.NewRock | script.js:200-217 | a new asteroid is square, of size in [20, 50), of speed in [1, 4), and not gone |
| Stars.NewStar | script.js:172-178 | a new star of row i lies at y = i and at a column in [0, width); its size is in [0.5, 1.5); it moves right at STAR_SPEED |
| Stars.StarStep | script.js:189-197 | newPos changes neither y nor the size |
| Stars.NewStarInvariant | script.js:172-178 | a new star satisfies the star invariant |
| Stars.StarStepKeepsInvariant | script.js:189-197 | newPos keeps the invariant: size fixed, x in [−STAR_SPEED, width), leftward speed only right after a wrap |
| Stars.StarAdvancesOrWraps | script.js:189-197 | under the invariant a star advances by STAR_SPEED, or wraps to −STAR_SPEED exactly when it is past its own width and touches the right edge |
| Stars.WrapRecovers | script.js:189-197 | one tick after the tick that wraps it, the star is at column 0 moving right again |
| Stars.Star.constructor | script.js:172-178 | the new star's state is NewStar of its draws |
| Stars.Star.NewPos | script.js:189-197 | the star's new state is StarStep of its old state |
| Players.KeyDirection | script.js:47-57 | codes 37–40 select LEFT, UP, RIGHT, DOWN respectively (each an iff); every other code selects nothing |
| Players.BackAsWritten | script.js:306-318 | the written LEFT/UP step: the half step clamped at half a side from at least a side away; from between half a side and a side it ends below half a side; closer in it sets half a side |
| Players.Back | script.js:306-318 | the corrected LEFT/UP step is max(c − side/2, side/2) |
| Players.Forth | script.js:320-332 | the RIGHT/DOWN step is min(c + side/2, limit − side/2) |
| Players.MovedAsWritten | script.js:305-335 | move as written changes only the coordinate of its direction and keeps the size; RIGHT/DOWN give min(c + side/2, canvas − side/2); LEFT/UP give max(c − side/2, side/2) from at least a side away, a centre below half a side from between half a side and a side, and half a side closer in |
| Players.Moved | script.js:305-335 | the corrected move changes only the coordinate of its direction and keeps the size; LEFT/UP give max(c − side/2, side/2) and RIGHT/DOWN min(c + side/2, canvas − side/2) |
| Players.MoveKeepsInBounds | script.js:305-335 | a corrected move keeps a square that is on the canvas on the canvas |
| Players.MovedAll | script.js:305-335 | any sequence of corrected moves keeps the square's size |
| Players.PlayerStaysOnCanvas | script.js:305-335 | a player that starts on the canvas stays on it under any sequence of corrected moves |
| Players.NewPlayerOnCanvas | script.js:287-292 | the created player is on any canvas at least PLAYER_SIZE wide and high |
| Players.LeftAsWrittenLeavesCanvas | script.js:306-311 | as written, LEFT from x = 43 (size 80, canvas 1366×768) moves to x = 3, off the canvas; the corrected move stops at 40 |
| Players.EdgesAreFixedPoints | script.js:305-335 | half a side from an edge, LEFT/UP (both forms) and RIGHT/DOWN leave the player where it is |
| Players.RepeatedBackSettles | script.js:306-318 | repeated LEFT (or UP) settles on half a side once the steps cover the distance, in both forms |
| Players.Player.constructor | script.js:287-292 | the player is a PLAYER_SIZE square centred on the canvas |
| Players.Player.Move | script.js:305-335 | the player's new box is the corrected move, Moved, of its old box |
| Asteroids.Asteroid.constructor | script.js:200-217 | the new asteroid's state is NewRock of its draws |
| Asteroids.Asteroid.NewPos | script.js:247-273 | the asteroid's new state is Step of its old state |
| GameLoop.NewStars | script.js:83-89 | createStars builds one star per draw, the i-th in row i, moving right |
| GameLoop.NewRocks | script.js:91-100 | createAsteroids builds one asteroid per draw, none of them gone |
| GameLoop.StepStars | script.js:422-425 | every star keeps its row and size, and on a canvas at least two pixels wide every star keeps the star invariant |
| GameLoop.StepRocks | script.js:436-439 | every asteroid keeps its size, tag and speed, and none is added or dropped |
| GameLoop.Survivors | script.js:428 | the filter never grows the batch |
| GameLoop.SurvivorsExact | script.js:428 | an asteroid survives the filter ⇔ it was in the batch and is not gone |
| GameLoop.SurvivorsSnoc | script.js:428 | filtering one more asteroid appends it exactly when it is not gone |
| GameLoop.SurvivorsKeepAll | script.js:428 | a batch with nothing gone passes the filter unchanged |
| GameLoop.Replenish | script.js:431-433 | one asteroid, not already gone, is appended exactly when fewer than ASTEROIDS_NO remain; the earlier ones are kept in order |
| GameLoop.TickRocks | script.js:427-439 | a tick never empties the field, adds at most one asteroid, and never takes a population of at most ASTEROIDS_NO above it |
| GameLoop.FirstTickMovesAll | script.js:117-133 | the tick that start runs only moves the five fresh asteroids: none is dropped, none added |
| GameLoop.TickPopulation | script.js:427-433 | a tick adds one asteroid exactly when fewer than ASTEROIDS_NO survived, never exceeds ASTEROIDS_NO, and leaves at least one |
| GameLoop.TickMovesEveryAsteroidOnce | script.js:427-439 | the i-th asteroid after a tick is the i-th survivor moved once, or the new one moved once |
| GameLoop.HitCount | script.js:444-451 | stop is called at most once per asteroid |
| GameLoop.HitCountPositive | script.js:444-451 | stop is called at least once ⇔ some asteroid collides with the player |
| GameLoop.HitCountAll | script.js:444-451 | when every asteroid collides, stop is called once per asteroid, not only for the first |
| GameLoop.Game.constructor | script.js:108-116 | initGame: the canvas size, a star field of NewStars already stepped once by the synchronous updateStars call (StepStars), no asteroid, no player |
| GameLoop.Game.CreateStars | script.js:83-89 | createStars appends NewStars of its draws, one fresh star per row, and keeps the earlier stars |
| GameLoop.Game.CreateAsteroid | script.js:97-100 | createAsteroid appends one fresh asteroid whose state is NewRock |
| GameLoop.Game.CreateAsteroids | script.js:91-95 | createAsteroids appends NewRocks of ASTEROIDS_NO draws |
| GameLoop.Game.CreatePlayer | script.js:102-104 | createPlayer sets a fresh player centred on the canvas |
| GameLoop.Game.MoveStars | script.js:422-425 | every star moves once: the star view becomes StepStars of the old one |
| GameLoop.Game.SurvivingAsteroids | script.js:428 | the asteroids the filter keeps are exactly the survivors, in order, each once, all from the collection |
| GameLoop.Game.RemoveGone | script.js:428 | the collection becomes its survivors |
| GameLoop.Game.Spawn | script.js:431-433 | one asteroid is created exactly when fewer than ASTEROIDS_NO remain |
| GameLoop.Game.MoveAsteroids | script.js:436-439 | every asteroid moves once: the asteroid view becomes StepRocks of the old one |
| GameLoop.Game.Stop | script.js:134-147 | stop ends the game |
| GameLoop.Game.CheckCollisions | script.js:445-451 | returns HitCount of the asteroids against the player; the game has ended ⇔ it had already ended or something hit |
| GameLoop.Game.UpdateAsteroids | script.js:427-439 | the asteroid view becomes TickRocks of the old one and stays within ASTEROIDS_NO; every asteroid object was already in the collection or is fresh |
| GameLoop.Game.Tick | script.js:415-452 | updateGameArea: stars StepStars, asteroids TickRocks, player unchanged, hits counted, the game ended ⇔ hits > 0 or already ended; every asteroid object was already in the collection or is fresh, so ticks can follow one another |
| GameLoop.Game.ResetStars | script.js:124-127 | the star field is replaced by NewStars of fresh stars |
| GameLoop.Game.ResetAsteroids | script.js:125-128 | the asteroids are replaced by NewRocks of fresh asteroids |
| GameLoop.Game.CreateComponents | script.js:123-129 | start's creation phase: fresh stars, ASTEROIDS_NO fresh asteroids, a centred fresh player, the game running |
| GameLoop.Game.FirstTick | script.js:130-132 | the tick start runs on a fresh batch: stars StepStars, asteroids StepRocks of the batch (none dropped, none added), player unchanged, the game ended ⇔ a hit; every asteroid object was already in the collection or is fresh |
| GameLoop.Game.Start | script.js:117-133 | start keeps the canvas size; after it: one tick of fresh components; exactly ASTEROIDS_NO asteroids, each moved once; every star, asteroid and the player are fresh objects, so ticks can follow; the game ended ⇔ the first tick hit |
| GameLoop.Game.CheckKey | script.js:47-57 | an arrow key moves the player by the corrected move, Moved; any other key changes nothing; an arrow key with no player fails |

## Left out

- Drawing is not modelled: the `update` methods, `clear`, the canvas context, colours and shadows.
- Audio, `showResult`, the DOM, `localStorage` and the best-time record are external effects and are not modelled.
- `Date.now` (start and end times) is a clock and is not modelled.
- `console.log` output is not modelled.
- `requestAnimationFrame` and `cancelAnimationFrame` are not modelled. A tick is an explicit call to `Tick`.
- `cancelAnimationFrame` in `stop` is modelled only as the `ended` flag. The model does not stop a caller from ticking again after `ended`.
- The idle star loop `updateStars` (script.js:406-413) is modelled only by its first, synchronous run in `initGame` (script.js:115), which the constructor ends with as `MoveStars`. Its later frames, and the same call after a resize (script.js:76), are frame scheduling and are not modelled.
- The resize handler (script.js:61-81) is frame plumbing and is not modelled.
- `Math.random()` is a parameter. Each entity takes its draws as one record. A corner spawn's record carries a `free` draw that it never reads; the source draws no value there.
- Floating point is not modelled. Coordinates are exact reals and canvas sizes are naturals.
- `checkKey`'s `e || window.event` fallback is not modelled. The key code is the parameter.
- `move` with a code other than the four arrows changes nothing. `Direction` has only the four values, and `CheckKey` ignores every other code.
- With no player, an arrow key makes the source throw a TypeError. `CheckKey` returns `failed` and changes nothing.
- Players.Player.Move: uses the corrected LEFT/UP test, not the one written at script.js:307 and 314. `MovedAsWritten` models the written test (see Findings).
- GameLoop.Game.CheckKey: moves the player by the corrected move, not by the test written at script.js:307 and 314, so a key press never takes the player off the canvas here.
- GameLoop.Game.Tick: takes a spawn draw even on a tick that spawns nothing. The source calls `Math.random` only inside `createAsteroid` (script.js:432), so such a tick consumes no random value there.
- GameLoop.Game.Tick: steps each star once per tick. In the program the idle `updateStars` loop is never cancelled: script.js:407 stores its frame id in `starsFrameId`, while script.js:67 and 119 test `starsAnimationId`. So during a game the stars step twice per frame, and they keep moving after `stop`. The model does not capture this.
- Kinematics.SpawnMovesInward: stated only for canvases larger than the asteroid. On a smaller canvas an edge spawn can start outside the canvas moving away from it: selector 8 on a canvas 30 wide with size 40 gives x < 0 and dx < 0.
- Stars.StarStepKeepsInvariant: stated for canvases at least two pixels wide.
- Kinematics.EventuallyGone: gives an upper bound on the number of ticks, not the exact tick of removal.
- Asteroids.Asteroid.CheckCollision and Asteroids.Asteroid.IsAsteroidGone: are defined by `Collides` and `Gone`, whose lemmas carry the properties.

## Findings

| source | as written | input that shows it | evidently intended | confidence | as-written member | corrected member |
|---|---|---|---|---|---|---|
| script.js:306-318 | LEFT (and UP) steps back by half a side whenever the current near edge `x - width/2` is positive, so the edge after the step can be negative | player of side 80 at x = 43 on a 1366×768 canvas; LEFT gives x = 3, so 37 pixels of the square are off the canvas | test the edge after the step, `x - width > 0`, as RIGHT and DOWN do (script.js:321, 328), so the square always stays on the canvas | medium, not executed | Players.LeftAsWrittenLeavesCanvas | Players.MoveKeepsInBounds |
