# Touch Circles game, modelled in Dafny

A model of `TouchCirclesGame`, the one class of the Touch Circles browser
game. A circle bounces around a canvas. The player clicks it to score
points during a 30-second round.

- `geometry.dfy` (module `Geometry`) covers the per-axis step of the circle. The step moves the circle, negates the velocity when the moved circle touches a wall, and clamps the centre into `[radius, extent - radius]`. The module also holds the squared-distance hit test.
- `state.dfy` (module `GameState`) holds the session as a value: the round (running flag, score, seconds left) and the circle. It has one function per event: `Animate`, `Start`, `Countdown`, `Click`, `End`, `Reset`. It also holds the palette choice `RandomColor` and the invariant every reachable state keeps, `RoundInvariant`.
- `touch_circles_game.dfy` (module `TouchCircles`) holds the class `TouchCirclesGame`. Its fields are `gameRunning`, `score`, `timeLeft` and the circle's `x`, `y`, `dx`, `dy`, `radius` and `color`. Its methods update those fields in place. Each method ensures that the new fields, read as a `Game` value, equal the matching `GameState` function applied to the old fields. It also spells out the new field values.
- `sessions.dfy` (module `Sessions`) dispatches sequences of events: animation ticks, countdown ticks, clicks and the two buttons. It proves what holds across many of them. Examples: the round invariant, the circle staying on the canvas, the 30-tick round length, compounding speed-ups and a frozen score outside a round.

Modelling decisions:

- Positions, velocities and the canvas size are `real`.
- Canvas width and height are constructor parameters and never change. The constructor requires each to be at least `2 * radius`.
- The radius is a constant (40), because no method writes it.
- The constructor and `resetGame` put the centre at (100,100) (script.js:23-30, 157-158). On a canvas narrower or shorter than 140, that start position leaves the circle partly off the canvas until the next animation tick clamps it. So `RunKeepsCircleInside` requires a canvas of at least 140 on each side (`StartFits`). `AnimationTickLandsInside` holds on any canvas the constructor accepts.
- The hit test compares the squared distance with `radius * radius`. It does not compare `Math.sqrt` of it with `radius`. `HitIffDistanceAtMostRadius` proves the two agree for a non-negative radius.
- Clicks come in canvas-local coordinates.
- `Math.random()` becomes a parameter `roll` in `[0, 1)`. The colour is `Palette[floor(roll * 5)]`, as in the source.
- The two `setInterval` timers become events that a client delivers. The countdown callback is the method `TickCountdown`, which requires `gameRunning`. The interval behind it is created in `startGame` and cleared in `endGame`, so it only fires during a round. In `Sessions`, a countdown tick that arrives outside a round is dropped (`DeliverCountdown`).

Points where the intended behaviour could be read more than one way; the model follows the code:

- `resetGame` restores the colour `'#FF6B6B'`, not a random colour (script.js:161).
- `endGame` has no guard against being called outside a round (script.js:148-153). `resetGame` always calls it. Its state change (clearing the running flag) is idempotent anyway (`EndIsIdempotent`). The repeated end-of-round alert is I/O and is not modelled.
- The wall test runs on the position after the move and before the clamp (script.js:76-88).

## Model

| member | source | states |
|---|---|---|
| `Geometry.Clamp` | script.js:91-94 | The clamped centre lies in `[lo, hi]` whenever that interval is non-empty, is never below `lo`, and equals the input when the input already lies in the interval |
| `Geometry.ClampIsNearest` | script.js:91-94 | No point of `[lo, hi]` is closer to the moved centre than its clamp |
| `Geometry.AxisStep` | script.js:76-94 | After one tick on one axis the centre lies in `[radius, extent - radius]` when `extent >= 2 * radius`. The speed is kept. When the moved circle touches a wall, the velocity is negated and the centre is placed exactly on the wall it touched: `radius` for the low wall, `extent - radius` for the high one. With no wall contact the circle simply moves by its velocity |
| `Geometry.ReflectionPointsInward` | script.js:80-88 | From a position inside the canvas, a move that reaches the low wall leaves a velocity `>= 0`, and one that reaches the high wall leaves a velocity `<= 0`. This holds however far the move overshot |
| `Geometry.HitIffDistanceAtMostRadius` | script.js:103-108 | For a non-negative radius and `dist` the non-negative root of the squared distance, the squared test holds iff `dist <= radius` |
| `Geometry.BoundaryIsHit` | script.js:108 | A click at any point exactly one radius from the centre is a hit (the test includes the boundary) |
| `GameState.RandomColor` | script.js:120-123 | `floor(roll * 5)` for `roll` in `[0, 1)` picks an entry of the five-colour palette |
| `GameState.RandomColorReaches` | script.js:121-122 | Each palette entry `i` is the colour of every roll in `[i/5, (i+1)/5)` |
| `GameState.Animate` | script.js:74-95 | After an animation tick the whole circle lies on the canvas whenever the canvas is at least `2 * radius` on each side. On each axis, a circle that touched a wall has its velocity on that axis negated and sits exactly on that wall; one that touched none has moved by its unchanged velocity. Round state, radius and colour are unchanged. `UpdateCircle` is proved equal to it through `Snapshot()` |
| `GameState.Start` | script.js:48-53 | After a start a round runs and the circle is untouched. A start during a round changes nothing; otherwise score is 0 and time is 30. The round invariant is kept. `StartGame` is proved equal to it through `Snapshot()` |
| `GameState.Countdown` | script.js:59-66 | One tick takes exactly one second off. The round runs afterwards iff time is left. Score and circle are unchanged and the round invariant is kept. `TickCountdown` is proved equal to it through `Snapshot()` |
| `GameState.Click` | script.js:97-118 | A miss changes nothing. A hit adds 1 to the score iff a round runs, multiplies both velocity components by 1.1 and picks a palette colour in any case. Position, radius, time and running flag never change, and the round invariant is kept. `HandleClick` is proved equal to it through `Snapshot()` |
| `GameState.End` | script.js:148-153 | After an end no round runs, and score, time and circle are unchanged. It has no guard. `EndGame` is proved equal to it through `Snapshot()` |
| `GameState.Reset` | script.js:155-166 | From any state, a reset yields exactly the state right after construction, which satisfies the round invariant. `ResetGame` is proved equal to it through `Snapshot()` |
| `TouchCircles.TouchCirclesGame.constructor` | script.js:15-30 | The new game is not running, with score 0, 30 seconds, centre (100,100), velocity (3,3), radius 40 and colour `#FF6B6B`, and it satisfies the invariant |
| `TouchCircles.TouchCirclesGame.StartGame` | script.js:48-53 | When a round already runs, nothing changes. Otherwise a round runs with score 0 and 30 seconds left, and the circle is untouched |
| `TouchCircles.TouchCirclesGame.TickCountdown` | script.js:59-66 | The time left drops by exactly 1. The round keeps running iff time is left, and the score and circle are unchanged |
| `TouchCircles.TouchCirclesGame.UpdateCircle` | script.js:74-95 | The centre ends in `[radius, width - radius] x [radius, height - radius]`. `dx` (resp. `dy`) is negated iff the moved circle touches a vertical (resp. horizontal) wall. A circle that touched a wall is placed exactly on that wall; otherwise it has moved by its velocity. Round state and colour are unchanged |
| `TouchCircles.TouchCirclesGame.HandleClick` | script.js:97-118 | A miss changes no field. A hit adds exactly 1 to the score iff a round runs, multiplies `dx` and `dy` by 1.1 and picks a palette colour, whether or not a round runs. Position, time and running flag never change |
| `TouchCircles.TouchCirclesGame.EndGame` | script.js:148-153 | The round stops. Score, time and circle are unchanged, and no guard is applied |
| `TouchCircles.TouchCirclesGame.ResetGame` | script.js:155-166 | After a reset no round runs, with score 0, 30 seconds, centre (100,100), velocity (3,3) and colour `#FF6B6B` |
| `Sessions.DeliverCountdown` | script.js:59-66 | Outside a round a countdown tick changes nothing, because the interval exists only from `startGame` to `endGame` (script.js:59, 150). During a round it takes one second off, and the round runs afterwards iff time is left. Score and circle are unchanged |
| `Sessions.DispatchKeepsInvariant` | script.js:48-166 | Every event keeps the round invariant: time in `[0, 30]`, positive during a round, radius 40, colour in the palette |
| `Sessions.RunKeepsInvariant` | script.js:48-166 | The round invariant holds after any sequence of events |
| `Sessions.RunKeepsCircleInside` | script.js:74-95 | On a canvas where the start position (100,100) fits, the whole circle stays on the canvas across any sequence of events |
| `Sessions.AnimationTickLandsInside` | script.js:90-94 | On any canvas the game accepts, an animation tick leaves the whole circle on the canvas |
| `Sessions.StartIsIdempotent` | script.js:49 | A second start press changes nothing |
| `Sessions.EndIsIdempotent` | script.js:148-151 | Ending twice equals ending once |
| `Sessions.CentreIsHit` | script.js:103-108 | A click at the circle's centre is always a hit |
| `Sessions.ScoreFrozenOutsideRound` | script.js:109-112 | Outside a round, and until a button is pressed, no sequence of ticks and clicks changes the score or the time, or starts a round |
| `Sessions.CountdownTimeline` | script.js:59-66 | During a round, `n` ticks (at most the time left) take exactly `n` seconds off. The round still runs iff `n` is less than the time that was left, and score and circle are untouched |
| `Sessions.CountdownsAfterEndAreInert` | script.js:148-150 | Once a round has ended, any number of countdown ticks change nothing. This follows from modelling `clearInterval` (script.js:150) as `DeliverCountdown` dropping ticks outside a round; it is not derived from the source on its own |
| `Sessions.RoundLastsThirtyTicks` | script.js:51-66 | A round started from rest still runs after 29 ticks. It has ended with time 0 and score 0 after 30 ticks, and further ticks change nothing |
| `Sessions.HitsCompound` | script.js:108-116 | After `k` hits at the centre, each velocity component is `1.1^k` times its old value. The score has grown by `k` iff a round runs, and position, time and running flag are unchanged |
| `Sessions.BounceScenarios` | script.js:76-94 | At (400) with speed 4 on an 800-wide canvas and radius 30, the circle moves to 404. At 25 with speed -4 it is clamped to 30 and its speed becomes +4 |

## Left out

- DOM lookup, the score and timer labels (`updateDisplay`), enabling and disabling the start button, and event-listener wiring (script.js:5-10, 37-41, 56, 143-146, 151). These are page plumbing with no game logic.
- Canvas drawing (`draw`) and all console logging (script.js:4, 12-13, 44, 125-141). Their output goes to the screen or console and has no logic.
- `setInterval` and `clearInterval` (script.js:45, 59, 150). The two timers become the methods `UpdateCircle` and `TickCountdown`, and the events of `Sessions`, which a client calls. Timing in milliseconds is not modelled.
- The `alert` at the end of a round (script.js:152). It is a modal I/O effect, so the model also does not count how often it appears.
- The translation of screen coordinates with `getBoundingClientRect` (script.js:98-100). It is a browser layout call, so clicks come in canvas-local coordinates.
- `Math.random` (script.js:122). It becomes the `roll` parameter.
- The IEEE-754 rounding of `+=`, `*= 1.1`, `Math.pow` and `Math.sqrt`. Arithmetic is exact over the reals.
- The page's bootstrap that constructs one game on `DOMContentLoaded` (script.js:169-173). It is page plumbing.
