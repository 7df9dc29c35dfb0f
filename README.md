# Voice-controlled runner: a Dafny model of its simulation core

The game is a side-scrolling runner. A player box runs right along the ground and jumps under gravity. Obstacles are generated ahead of it and culled behind a trailing camera. Any overlap between the player and a live obstacle ends the run. Commands come from two places: key presses, and a background speech recognizer. The recognizer's partial transcripts are scanned for Portuguese keywords ("pular", "parar", "andar", "continuar"), and each match is pushed onto a FIFO queue. The main loop drains that queue once per tick.

This project models that core from `main.py`, with pygame, vosk and pyaudio removed.

- `wrappers.dfy` (`Wrappers`): an `Option` datatype.
- `config.dfy` (`Config`): the constants of `main.py`. It also names the literals used inline: the jump velocity -20, the start x 100, the camera lead 100, the cull margin 100, the live-obstacle cap 5, and the seed range [100, 300].
- `geometry.dfy` (`Geometry`): `Rect` and `Collide`, which is `pygame.Rect.colliderect`. It is the strict overlap test on both axes, and empty rectangles never collide. It is proved equal to "some pixel lies in both rectangles".
- `channel.dfy` (`Channel`): the `Command` vocabulary and the `CommandQueue` class (`put`, `empty`, `get`).
- `recognition.dfy` (`Recognition`): ASCII lower-casing, the substring test, the if/elif keyword classifier, and `Listen`, the push onto the queue.
- `kinematics.dfy` (`Kinematics`): the value `PlayerState`; `Jumped` and `Updated`, which specify `Player.jump` and `Player.update`; the `Player` class, whose methods update its fields in place; and the jump-arc invariant and lemmas.
- `control.dfy` (`Control`): what draining a command sequence does to the player, and the key-to-command mapping.
- `world.dfy` (`World`): obstacles, the cull (`Survivors`), the replenish step (`Replenished`), well-spacing, the collision scan `Collides`, and the draw filter.
- `game.dfy` (`Game`): the session value `Snapshot`, the pure specification of one main-loop iteration (`TickSpec`), the invariant `Inv` that it preserves, the main loop `Run`, and the `Session` class. The class carries out a tick in place, in the source's order: key presses, queue drain, update, camera, score, cull, replenish, collision scan. It also implements restart.

The random draws (`random.randint`) are parameters with the source's ranges as preconditions: `seed` in [100, 300] for the first obstacle, and `gap` in [300, 600] for each new one. The score is kept as `movingTicks`, the number of ticks that ended with the player moving. `Game.Score` is `movingTicks * 0.5`, computed exactly as a `real`.

The main invariant (`Game.Inv`, preserved by `Game.TickPreservesInv`) implies that the obstacle list is never empty when the replenish step reads `obstacles[-1]`. The invariant states that the last obstacle is not behind the player's left edge, which keeps `obstacles[-1]` defined at main.py:171. Separately, `Game.UnpassedSurvives` proves that an obstacle whose right edge is still ahead of the player survives the tick.

The model follows what the code does, including these points:
- The cull tests an obstacle's left edge `x` against `camera_offset - 100`. It does not test the right edge.
- A jump from the ground lands on the 41st update. The clamp triggers only once `y + jump_vel >= 310`, and after 40 updates the player is still at y = 290.
- `JUMP_HEIGHT` is never used. The arc comes only from the velocity -20 and gravity 1.
- The keyword tests check `"pular"` before `"pula"` (and likewise for the other pairs). The longer word contains the shorter, so only the short keywords decide the result (`Recognition.ClassifySpec`).

## Model

| member | source | states |
|---|---|---|
| Geometry.CollideIffSharedPixel | main.py:175-177 | colliderect holds exactly when some pixel lies in both rectangles; rectangles that only share an edge do not collide |
| Recognition.Lower | main.py:109 | lower-casing keeps the length and lower-cases every position |
| Recognition.Contains | main.py:110-114 | the substring test is true exactly when the word occurs at some index of the text |
| Recognition.ContainsPrefixOfWord | main.py:110-114 | a text containing a longer keyword also contains its prefix keyword |
| Recognition.Classify | main.py:108-115 | a command comes only from a present, non-empty partial; the full decision (both directions of jump, stop, move) is stated by ClassifySpec |
| Recognition.ClassifySpec | main.py:108-115 | both directions of the classification: jump iff the lower-cased non-empty text contains "pula"; else stop iff it contains "para"; else move iff it contains "anda" or "continua"; else nothing |
| Recognition.ClassifyMissing | main.py:108 | a result without a `partial` field yields no command |
| Recognition.ClassifyCaseInsensitive | main.py:109 | classification gives the same result on the lower-cased text |
| Recognition.Emitted | main.py:108-115 | at most one command is pushed per partial result, and exactly the classified one |
| Recognition.HeardAppend | main.py:101-115 | the commands pushed for successive partial results keep their order |
| Recognition.Listen | main.py:107-115 | the queue grows by exactly the command spotted in the partial result, if any |
| Channel.CommandQueue.constructor | main.py:126 | a new queue is empty |
| Channel.CommandQueue.Put | main.py:111 | put appends at the back |
| Channel.CommandQueue.IsEmpty | main.py:152 | empty() holds exactly when no command is queued |
| Channel.CommandQueue.Get | main.py:153 | get on a non-empty queue returns the front and removes it |
| Kinematics.Player.constructor | main.py:34-41 | a new player is at x 100 on the ground (y 310), not jumping, velocity 0, moving |
| Kinematics.Player.Jump | main.py:43-46 | the player's new state is Jumped of the old one |
| Kinematics.Player.Update | main.py:48-57 | the player's new state is Updated of the old one |
| Kinematics.Player.GetRect | main.py:63-64 | the player's rectangle is (x, y, 40, 40) |
| Kinematics.JumpOnce | main.py:43-46 | a jump while airborne changes nothing; from the ground it sets jumping and velocity -20 and nothing else; two jumps act as one |
| Kinematics.UpdateRuns | main.py:48-50 | an update moves x by exactly 5 when moving and not at all otherwise, and never changes `moving` |
| Kinematics.InitialPhysInv | main.py:34-41 | a new player is grounded and satisfies the physical invariant |
| Kinematics.PhysInvPreserved | main.py:43-57 | jump, update and setting `moving` keep the invariant: y <= 310, not jumping implies y == 310 and velocity 0, jumping implies being on the jump arc |
| Kinematics.PhysInvBounds | main.py:51-57 | under the invariant 100 <= y <= 310 |
| Kinematics.ArcAboveGround | main.py:51-57 | the arc is strictly above the ground for updates 1 to 40 and back at 310 at update 41 |
| Kinematics.ArcPeak | main.py:46 | the arc never goes above y == 100 and reaches it only after updates 20 and 21 |
| Kinematics.JumpArc | main.py:43-57 | k <= 40 updates after a jump from the ground the player is airborne at the arc height with velocity -20 + k, having advanced 5k if moving |
| Kinematics.JumpLands | main.py:51-57 | update 41 after a jump from the ground leaves the player grounded, x advanced |
| Kinematics.JumpProfile | main.py:43-57 | after a jump: airborne exactly for updates 1 to 40, lowest y 100 exactly at updates 20 and 21, grounded after 41 |
| Control.KeyCommand | main.py:145-150 | only space, s and w give a command (jump, stop, move respectively); other keys are ignored while running |
| Control.ApplyCommandIdempotent | main.py:152-159 | applying a command twice is applying it once |
| Control.ApplyAllAppend | main.py:152-159 | draining a + b is draining a and then b |
| Control.DuplicateCommandHarmless | main.py:152-159 | a command received twice in a row acts as if received once |
| Control.ApplyAllEffect | main.py:152-159 | a drain keeps x and y, keeps jumpVel and jumping while airborne, sets jumping iff there was a jump command or the player was jumping, and leaves `moving` as given by the last stop/move |
| Control.ApplyAllPhysInv | main.py:152-159 | a drain keeps the physical invariant |
| Control.ApplyNothing | main.py:152 | draining an empty queue changes nothing |
| World.ObstacleBox | main.py:66-78 | an obstacle's rectangle starts at its x, is 30 wide and 60 high, and stands on the ground (its bottom at 350, so its top at 290) |
| World.InitialObstacles | main.py:130 | the first list holds one obstacle at 900 to 1100 |
| World.SpacedIncreasing | main.py:170-173 | a well-spaced list is strictly increasing in x |
| World.SpacedSpread | main.py:170-173 | in a well-spaced list the last obstacle is at least 300 per gap beyond the first |
| World.SurvivorsMembers | main.py:166-168 | the cull keeps exactly the obstacles with x >= camera_offset - 100 |
| World.SurvivorsAppend | main.py:166-168 | the cull works piecewise over a concatenation, so survivors keep their relative order |
| World.SurvivorsSuffix | main.py:166-168 | on an increasing list the cull removes a prefix: the survivors are a suffix |
| World.CullKeepsSpacing | main.py:166-168 | the cull keeps a well-spaced list well spaced, keeps the last obstacle when it is not behind the limit, and leaves nothing behind the limit |
| World.ReplenishSpec | main.py:170-173 | replenish appends exactly one obstacle, gap beyond the last, iff fewer than 5 are live; it keeps the list well spaced and at most 5 long |
| World.Collides | main.py:175-177 | the scan reports a hit exactly when the box collides with some live obstacle |
| World.VisibleObstacles | main.py:183-186 | the draw filter keeps exactly the obstacles with -30 <= x - camera_offset <= 800 |
| World.CollidingIsVisible | main.py:183-186 | an obstacle that collides with the player is on screen |
| World.ScanMatchesVisibleScan | main.py:175-177 | scanning all live obstacles gives the same verdict as scanning only the drawn ones |
| World.ClearanceHeight | main.py:176 | an obstacle overlapping the player horizontally is cleared iff y <= 250 |
| Game.DrivenEffect | main.py:145-161 | after the tick's commands and update, `moving` is the last stop/move of keys then queue, x advances by 5 exactly when moving, and the physical invariant holds |
| Game.TickCullKeepsLast | main.py:166-171 | the tick's cull leaves a non-empty, well-spaced list of at most 5 that still ends with the previous last obstacle |
| Game.InitialInv | main.py:124-137 | a fresh session satisfies the session invariant, with score 0 and the game running |
| Game.TickPreservesInv | main.py:139-177 | a tick keeps the session invariant, so obstacles[-1] is always defined, gaps stay in [300, 600], at most 5 obstacles live, and x == 100 + 5 * moving ticks |
| Game.UnpassedSurvives | main.py:166-173 | an obstacle whose right edge is still ahead of the player's left edge is still live after the tick |
| Game.TickSummary | main.py:152-177 | a tick empties the queue, sets `moving` from the last command, advances x and the score exactly on a moving tick, and sets game over iff the player overlaps a live obstacle |
| Game.ScoreTracksDistance | main.py:163-164 | the score is a tenth of the distance run |
| Game.RunKeepsInv | main.py:139 | the main loop keeps the invariant, never reduces x or the score, and leaves a finished game unchanged |
| Game.Session.constructor | main.py:124-137 | a new session is the initial snapshot for the given seed |
| Game.Session.Restart | main.py:203-204 | restart rebuilds player, queue, obstacles, score and camera as at the start of a session |
| Game.Session.GameOverKey | main.py:197-207 | on the game-over screen, r restarts and any other key changes nothing |
| Game.Session.Hear | main.py:101-115 | the queue grows by the commands spotted in the partial results, in order |
| Game.Session.HandleKeys | main.py:140-150 | key presses act on the player as their commands: space jumps, s stops, w moves |
| Game.Session.Drain | main.py:152-159 | the drain leaves the queue empty and the player as the in-order application of the queued commands |
| Game.Session.Cull | main.py:166-168 | the in-place removal leaves exactly Survivors of the old list |
| Game.Session.Replenish | main.py:170-173 | the list becomes Replenished of the old list |
| Game.Session.MovePlayer | main.py:140-164 | the first half of a tick changes the session as Moved says |
| Game.Session.StepWorld | main.py:166-177 | the second half of a tick changes the session as WorldStep says |
| Game.Session.Tick | main.py:139-177 | one loop iteration changes the session as TickSpec says |
| Game.Session.Step | main.py:139-177 | the recognizer's pushes followed by a tick |
| Game.Session.Play | main.py:139-177 | the loop runs ticks until the inputs end or the game is over, and the final session is Run of the initial one |

## Left out

- Rendering: `draw`, the screen, fonts, HUD and game-over text, and `pygame.display`. These are presentation only.
- pygame start-up and `clock.tick(60)`: the model is counted in ticks, not in time.
- The recognizer engine and audio: model loading, the pyaudio stream, `AcceptWaveform`/`Result`/`PartialResult` and `json.loads`. The model starts from the `partial` field: `None` when it is missing, `Some(text)` otherwise. The exception handling and stream teardown are left out too.
- The worker thread and the thread safety of `queue.Queue`. The queue is a sequential FIFO. A run's inputs interleave the worker's pushes with ticks, one batch before each tick. A push that lands in the middle of a drain is not modelled.
- Event polling, window close, `sys.exit` and the q key: these are OS I/O. Only the key-to-command mapping and the r key are kept.
- The wall-clock timer `time.time()`: it is not deterministic.
- Python's float score and the `int(score)` display. The score is an exact count of moving ticks.
- Recognition.Lower: only ASCII lower-casing, not Python's full Unicode `str.lower`.
- Kinematics.Player.GetRect and World.ObstacleBox: pygame stores rectangle coordinates as C ints, and that width is not modelled. Here x is an unbounded integer that grows by 5 every moving tick, so the model never reaches the point where the source's rectangle can no longer hold x.
- Geometry.Collide: pygame's handling of negative sizes is left out, because every rectangle here has a fixed positive size.
- Restart does not recurse into `main` (the source's call stack grows on each restart). It is a transition that re-initialises the session.
