# Snooker game core, modelled in Dafny

This project models the game logic of a browser snooker game built on p5.js and
Matter.js. It also covers two routines of the pool prototype that preceded it.

- **Scoring** (`scoring.dfy`) is the per-frame ledger: one score per player, a
  pot history and a foul history. Points go to the player named; a foul credits
  the opponent.
- **GameManager** (`game.dfy`) holds the game state.
  - It racks the 22 balls: the cue ball, six colours valued 2 to 7 and a
    triangle of fifteen reds.
  - It processes pots: potted object balls are credited and removed; a potted
    cue ball is a 4-point foul and goes back to its start.
  - It keeps the turn fields (`currentPlayer`, `gameOver`, `turnInProgress`)
    and resets the frame.
  - Pocket membership is a squared-distance test on `real`.
- **Cue** (`cue.dfy`) is the aiming life cycle (`aiming`, `start`, `end`). A
  shot's force lies along the drag, with its magnitude clamped.
- **ReplayManager** (`replay.dfy`) is the idle / recording / replaying machine
  over a buffer of frames, with a playback index.
- **utils** (`utils.dfy`) provides `clamp` and the stationary-table test.
- **Ball** (`balls.dfy`) is the ball record: type, colour, value and initial
  position, plus its physics body as plain data.
- **sketch.js** (`sketch.dfy`) supplies the Fisher-Yates `shuffleInPlace` and
  the J-shape rack. The rack is the 15-slot formation array, the fill of its
  empty slots, and its placement as five rows with the colour map.

Objects whose fields the game updates in place are Dafny classes:
- `Scoring`, with its scores in an `array<int>`;
- `GameManager`, with its ball list as a `seq` field;
- `Cue` and `ReplayManager`.

Loops in the source are loops here, proved against specification functions:
- the rack build;
- the backward pocket walk;
- the pocket search;
- frame recording;
- the shuffle;
- the slot writes, the fill and the placement.

Properties that relate several calls are lemmas. Examples:
- settling twice equals settling once, when the cue ball's start is clear of the pockets;
- the points credited equal the value that left the table;
- stationarity is monotone in the threshold.

Randomness, clocks and user input become parameters:
- each `Math.random()` is one draw in [0, 1), in call order;
- `Date.now()` is the `now` parameter;
- the mouse is a parameter, and the drag length comes with its defining equation.

## Model

| member | source | states |
|---|---|---|
| Balls.KindName | src/GameManager.js:107 | Each type maps to its own string: `cue`, `red` or `color`, one to one and never empty |
| Balls.NewBall | src/Ball.js:14-30 | A new ball has a body with the given id, sits at rest at its initial position |
| Balls.ResetPosition | src/Ball.js:47-51 | Respotting puts the body back at the initial position with zero linear and angular velocity; type, colour, value, id and angle are kept |
| Utils.Clamp | src/utils.js:39-41 | The result is at least `min`; at most `max` when `min <= max`; the value itself when in range; `min` when the value is below it or the range is empty; `max` when above it |
| Utils.ClampIdempotent | src/utils.js:39-41 | For a well-formed range, clamping twice equals clamping once |
| Utils.AreBallsStationary | src/utils.js:24-29 | True iff every ball with a body has both speed components strictly below the threshold (default 0.15); an empty list is stationary |
| Utils.StationaryMonotone | src/utils.js:28 | Stationary at threshold t implies stationary at every t' >= t |
| Utils.BodilessIgnored | src/utils.js:26 | Inserting a ball without a body anywhere never changes the answer |
| Cue.ShotMagnitude | src/Cue.js:44 | The magnitude always lies in [0, maxPower * powerScale] and equals drag * powerScale for a drag no longer than maxPower |
| Cue.SetMag | src/Cue.js:45 | p5 `setMag`: a zero vector is left alone; otherwise the result has squared length m*m, is parallel to the drag and points the same way |
| Cue.ScaledTowards | src/Cue.js:45 | Scaling a vector of length L by m/L gives length m in the same direction |
| Cue.Cue.constructor | src/Cue.js:7-14 | Not aiming, both points null, bound to the given cue ball |
| Cue.Cue.StartAiming | src/Cue.js:21-25 | Aiming, with start and end both at the mouse |
| Cue.Cue.UpdateAiming | src/Cue.js:31-35 | Only `end` changes, and only while aiming |
| Cue.Cue.Shoot | src/Cue.js:41-52 | When aiming with both points: returns the force along start - end with the clamped magnitude, and clears aiming and both points. Otherwise: no force and nothing changes. The force's squared length is bounded by (maxPower * powerScale)^2 |
| Scoring.Opponent | src/Scoring.js:33 | The player credited with a foul is 0 or 1, never the fouling player, and the other player when the fouler is 0 or 1 |
| Scoring.Scoring.constructor | src/Scoring.js:7-11 | numPlayers scores, all 0; both histories empty |
| Scoring.Scoring.AddPoints | src/Scoring.js:19-24 | Only scores[player] changes, by exactly `points`; a pot record is appended iff the description is non-empty; the foul history is unchanged |
| Scoring.Scoring.AddFoul | src/Scoring.js:26-42 | Only the opponent's score changes, by the foul points; the fouler's score never moves; exactly one foul record naming the opponent is appended; pot history unchanged |
| Scoring.Scoring.GetScore | src/Scoring.js:49-51 | Returns scores[player] and changes nothing |
| Scoring.Scoring.Reset | src/Scoring.js:56-60 | Same array, every score 0, both histories empty; the result is independent of the prior state (idempotent) |
| Game.RedRowsShape | src/GameManager.js:51-68 | The first n rows of the triangle hold Tri(n) reds of value 1 with consecutive body ids |
| Game.RackShape | src/GameManager.js:25-68 | The rack has 22 balls: the cue ball of value 0 first; then the six colours yellow..black with values 2..7 in that order; then fifteen reds of value 1; each ball has its own consecutive body id |
| Game.GameManager.TriBound | src/GameManager.js:51-58 | The `count >= 15` guard never fires: the last ball of row r is ball Tri(r)+r < 15 |
| Game.FindCue | src/GameManager.js:17 | Finds the first ball of type cue, or reports that there is none |
| Game.SettledAppend | src/GameManager.js:102-117 | Settling works ball by ball and keeps the relative order of the survivors |
| Game.SettledNothingPotted | src/GameManager.js:104-105 | With no ball in a pocket, the ball list is unchanged |
| Game.SettledRemovesPotted | src/GameManager.js:106-113 | No potted object ball survives and every surviving object ball was there before; the cue balls are never removed; scratches never exceed the number of cue balls |
| Game.PotPointsConserveValue | src/GameManager.js:106-109 | The points credited equal the value that left the table: each ball is scored at most once |
| Game.SettledIdempotent | src/GameManager.js:101-118 | With the cue ball's start clear of the pockets, a second pass changes nothing |
| Game.SettledKeepsBodies | src/GameManager.js:101-118 | Settling never introduces a body id that was not handed out |
| Game.CheckPocketsStep | src/GameManager.js:102-103 | The backward walk handles ball i in front of the balls after it, for the list and for points, scratches and both logs |
| Game.SwitchedInvolutive | src/GameManager.js:120 | Switching keeps the player in {0,1}; switching twice restores it; the foul's beneficiary is the player who switches in |
| Game.GameManager.constructor | src/GameManager.js:7-23 | Full rack; a newly allocated cue bound to the rack's cue ball, with no start or end point; a newly allocated two-player ledger (and score array) with zero scores; player 0; game not over; no turn in progress |
| Game.RackLength | src/GameManager.js:25-68 | The rack is the cue ball, the six colours and fifteen reds: 22 balls |
| Game.GameManager.SetupBalls | src/GameManager.js:25-68 | Appends exactly the rack of 22 balls, using one fresh body id per ball |
| Game.GameManager.PushColours | src/GameManager.js:41-44 | Appends one ball per spot in `spotConfig` order, with that colour's name, value and spot, each on the next fresh body id |
| Game.GameManager.PushReds | src/GameManager.js:46-68 | Appends the fifteen reds of the five-row triangle, row by row, on fresh body ids; the `count >= 15` guard stops nothing |
| Game.GameManager.PushRedRow | src/GameManager.js:54-67 | Appends exactly row `row` of the triangle, `row + 1` reds two radii apart, on fresh body ids; the running count grows by the row's length |
| Game.GameManager.CheckPockets | src/GameManager.js:101-118 | The ball list becomes its settled form: potted object balls gone, a potted cue ball respotted, the rest in order. The current player gains the value of every potted object ball, the opponent 4 per potted cue ball, with one log entry each in walk order. Player and game-over flag unchanged |
| Game.GameManager.SettleNext | src/GameManager.js:102-116 | One turn of the backward walk: once the balls after i are settled and their points, fouls and records are in the ledger, the same holds with ball i included |
| Game.GameManager.SettleBall | src/GameManager.js:103-115 | One ball: it is spliced out and credited, or respotted with a 4-point foul, or left alone |
| Game.GameManager.InPocket | src/GameManager.js:104-105 | The pocket search reports a hit iff some pocket is within its radius |
| Game.GameManager.Update | src/GameManager.js:71 | One update is one pocket check and keeps the game well formed |
| Game.GameManager.SwitchPlayer | src/GameManager.js:120 | Hands the turn to the other player |
| Game.GameManager.HandleInput | src/GameManager.js:85-99 | After game over nothing changes. A press starts aiming and opens a turn only on a stationary table. A release during a turn shoots and closes it; a release outside a turn does nothing |
| Game.GameManager.Reset | src/GameManager.js:122-129 | Fresh rack, zero scores, empty histories, player 0, game not over. `cue` and `turnInProgress` are untouched, so the cue's ball id matches no ball now on the table |
| Replay.SnapshotEntries | src/ReplayManager.js:71-81 | A frame has at most one entry per ball; with every ball bodied, exactly one per ball, in list order, with id, position and angle |
| Replay.BodilessSkipped | src/ReplayManager.js:73 | A ball without a body contributes no entry |
| Replay.SnapshotAppend | src/ReplayManager.js:72-81 | The frame of a concatenation is the concatenation of frames |
| Replay.ReplayManager.constructor | src/ReplayManager.js:4-13 | Idle, empty buffer, no ghost data, both indices 0 |
| Replay.ReplayManager.Update | src/ReplayManager.js:19-26 | Replaying advances one frame and returns to idle at index 0 past the end; otherwise nothing changes; ticks left decrease by one, so a replay lasts exactly one tick per frame |
| Replay.ReplayManager.StartRecording | src/ReplayManager.js:61-66 | From idle, starts recording with an empty buffer; otherwise a no-op |
| Replay.ReplayManager.RecordFrame | src/ReplayManager.js:68-83 | While recording, appends exactly one frame holding the bodied balls in order; otherwise a no-op |
| Replay.ReplayManager.StopRecording | src/ReplayManager.js:85-89 | Recording to idle, keeping every frame; otherwise a no-op |
| Replay.ReplayManager.StartReplay | src/ReplayManager.js:91-96 | From idle with frames, replays from index 0; otherwise a no-op; the index stays in bounds |
| Replay.ReplayManager.StopReplay | src/ReplayManager.js:98-103 | Replaying to idle with index 0; otherwise a no-op; the replay state is well formed afterwards, also when called from `update` with the index just past the last frame |
| Sketch.Pick | sketch.js:157 | Flooring a draw in [0,1) times i+1 gives an index in [0, i] |
| Sketch.ShuffleInPlace | sketch.js:155-160 | For any draws the array ends as a permutation of its input; arrays of length <= 1 are unchanged |
| Sketch.UniformPermutation | sketch.js:92-107 | Shuffling a one-colour stripe leaves that colour in every place |
| Sketch.RackColours | sketch.js:79-81 | RED and YELLOW are always the two distinct colours red and yellow; RED is red iff leftIsRed |
| Sketch.PlaceStripes | sketch.js:92-100 | Slots 6, 13, 11 and 12 take red, red, yellow and yellow; nothing else changes |
| Sketch.PlaceJ | sketch.js:102-107 | Slots 9, 8 and the J's inner slot take yellow; nothing else changes |
| Sketch.AssignSlots | sketch.js:83-118 | The formation after the direct writes is the assigned layout for the coin, whatever the stripe shuffles do |
| Sketch.MakeFillOrder | sketch.js:120-126 | The fill order is a permutation of the reds, then the yellows, missing from seven each |
| Sketch.Filled | sketch.js:128-132 | Filling keeps the formation's length |
| Sketch.FilledAt | sketch.js:128-132 | Each filled slot is kept, and each empty slot takes the fill entry numbered by the empty slots before it (`undefined` past the end) |
| Sketch.FilledComplete | sketch.js:120-132 | With a fill order of colours, every slot ends filled iff the fill order is at least as long as the number of empty slots |
| Sketch.FillEmptySlots | sketch.js:128-132 | The loop computes Filled, and a slot that was already filled is never overwritten |
| Sketch.FilledWithNothing | sketch.js:120-132 | With an empty fill list, every empty slot becomes `undefined` |
| Sketch.EmptyFillCounts | sketch.js:128-132 | Turning the empty slots into `undefined` changes the count of no colour |
| Sketch.BuildFormation | sketch.js:78-132 | The formation is the assigned layout filled with the returned order, which is a permutation of its fill list |
| Sketch.AssignedAsWritten | sketch.js:83-118 | The layout after the direct writes at the written indices, slot by slot, for each coin: slot 3 empty, slot 4 the J's yellow, slot 5 the inner red, slot 6 the red stripe |
| Sketch.AssignedIntended | sketch.js:83-118 | The layout after the direct writes at the comments' indices, slot by slot, for each coin: slot 3 the inner red, slot 4 black, slot 5 the J's yellow |
| Sketch.RedLeftCounts | sketch.js:83-122 | As written with red on the left: 7 reds, 7 yellows, no black, slot 3 empty |
| Sketch.YellowLeftCounts | sketch.js:83-122 | As written with yellow on the left: the same counts |
| Sketch.RedLeftIntendedCounts | sketch.js:83-122 | Comments' indices, red on the left: 7 reds, 7 yellows, one black at slot 4, no empty slot |
| Sketch.YellowLeftIntendedCounts | sketch.js:83-122 | Comments' indices, yellow on the left: the same counts |
| Sketch.HoledFill | sketch.js:120-132 | A layout with 7 reds, 7 yellows and slot 3 empty gets an empty fill list, so slot 3 ends `undefined`, the rack is not filled and the counts carry over |
| Sketch.AsWrittenFormation | sketch.js:83-132 | As written, for either coin: the fill list is empty, so every shuffle of it is empty. Filling then leaves slot 3 `undefined`, the rack not filled, no slot black, and 7 reds and 7 yellows |
| Sketch.FullFill | sketch.js:120-132 | A layout with no empty slot is left exactly as it is, and a single black at slot 4 is the only black |
| Sketch.IntendedFormation | sketch.js:83-132 | With the comments' indices, for either coin: the fill list is empty and the fill changes nothing. Every slot is filled, the only black is at row 2 column 1, and there are 7 reds and 7 yellows |
| Sketch.ColourOf | sketch.js:143-147 | red maps to BALL_RED, yellow to BALL_YELLOW, anything else (black, null, undefined) to BALL_BLACK, each iff |
| Sketch.SlotIndexBijective | sketch.js:134-151 | Five rows of row+1 columns visit the indices 0..14 exactly once each |
| Sketch.SlotOf | sketch.js:136-149 | The index reached at row r, column c lies in row r, column c |
| Sketch.PlaceRack | sketch.js:134-152 | Fifteen balls; the ball at index k is placed at the position of its row and column, with formation[k] as its colour type and that type's mapped colour |
| Sketch.FormationTypes | sketch.js:83-132 | For any shuffle of the fill list, as written: slot 3 is `undefined` and no slot is black. With the comments' indices: every slot is filled and slot 4 is the only black |
| Sketch.CreateJShapeRack | sketch.js:72-153 | As written: the row-2 column-0 ball has type `undefined` and is drawn black, and no ball has type black. With the comments' indices: every ball has a colour and exactly one is black, at row 2 column 1 |

## Left out

- Rendering is not modelled: every `draw`/`show` method, the whole of `UIManager.js`, `Table.js` drawing and `main.js`.
- The physics engine is not modelled. Bodies are plain records.
  - Removing a body from the world is deleting the ball from the list.
  - `Ball.remove` and the removal loop at the start of `reset` have no counterpart.
  - The body radius, restitution and friction are not represented.
- `Ball.snookerRadius` is called by `setupBalls` but not defined in `Ball.js`. The snooker radius and the red row spacing (radius times the square root of 3) are fields of the table configuration.
- Table geometry (spot and pocket coordinates, pocket radius) is opaque configuration, not the values `Table.js` computes from its size.
- Floating-point numbers are `real`, so NaN, infinities and rounding are outside the model.
- The square root in `distance` is not modelled. The pocket test compares squared distance with the squared radius, which is equivalent for a positive radius.
- `Cue.Cue.Shoot`: the drag length (`force.mag()`, a square root) is a parameter, required to satisfy length squared = squared drag. Applying the force to the cue ball's body is left to the engine; the method returns the force and `cueBallId` names the body.
- `Game.GameManager.HandleInput`: the mouse position and the drag length are parameters. The p5 event names become the three-valued `InputEvent`.
- `Scoring.Scoring.AddPoints`: requires a valid player index. For an index outside the array, JavaScript would write a NaN or an extra element; that is not modelled.
- `Scoring.Scoring.AddFoul`: requires foul points from 4 to 7. The doc comment states this range and the code does not check it. Also requires that the opponent index exists.
- `Game.GameManager.CheckPockets`: requires every ball to have a body. For a ball without one, JavaScript would throw when reading its position.
- `Date.now()` is the `now` parameter of the scoring methods. The `console.log` messages of the replay manager are dropped.
- Game.GameManager.CheckPockets: one `now` stamps every pot and foul record of a walk (and so in `Game.GameManager.Update`). The source reads `Date.now()` again in each `addPoints` and `addFoul` call, so records of one walk can carry different times there.
- `ghostData` and `ghostFrameIndex` are carried but no modelled operation reads them. In the source only `draw` reads `ghostData`, in an empty branch, and nothing reads `ghostFrameIndex`: the ghost playback is not implemented.
- Snooker rules that the code does not contain are not modelled: ball on, nomination, colour order, multi-ball fouls, breaks and frame decision.
- The sketch's other functions are not modelled: table walls, pockets, cue ball dragging and the D clamp with its trigonometry.
- `createBall`'s physics bodies are not modelled: a placed ball is its position, colour and colour type. The `y0` parameter of `createJShapeRack` is unused in the source and absent here.
- `Sketch.ShuffleInPlace` takes one draw per swap, in call order. It is stated for every choice of draws, not as a uniform distribution.

## Findings

| source | as written | input that shows it | evidently intended | confidence | as-written member | corrected member |
|---|---|---|---|---|---|---|
| sketch.js:83-132 | The black is written to slot 6 (line 86), but the red stripe overwrites slot 6 at line 97. The J's inner yellow and the inner red go to slots 4 and 5, where the comments give (2,2) and (2,0), i.e. slots 5 and 3. Slot 3 is never written. The direct writes already place 7 reds and 7 yellows, so the fill list is empty and slot 3 reads as `undefined`. The result: a rack with no black ball and one `undefined` ball drawn in the black fallback colour | any coin and any shuffle draws | The comments' coordinates: black at (2,1), slot 4; J yellow at (2,2), slot 5; inner red at (2,0), slot 3. Every slot filled, with 7 reds, 7 yellows and exactly one black | not executed | Sketch.AsWrittenFormation | Sketch.IntendedFormation |
