# Vertical ping-pong: a verified model of the frame update

This project models the game-state core of a small pygame ping-pong game in
Dafny. The player's paddle sits at the bottom of an 800 by 800 window. An
automatic opponent board at the top follows the ball. The player steers with
the arrow keys, or, in gesture mode, with a hand position read from a camera.

The program keeps its state in module globals and updates it once per frame in
a `while True` loop. The model lifts those globals into one record,
`Match.MatchState`, and into the fields of one object, `GameLoop.PingPong`.
Each part of a frame is a specification function:

- `Events.ApplyEvent`: the event branch, for one event.
- `Paddles.UpdatePaddles`: the paddles.
- `Physics.UpdateBall`: the ball.
- `Match.Reset`: `reset_game`.
- `Frame.Step`: the whole loop body: the frame's events, then the pause
  gate, then (unless paused) the paddles and the ball.

The class methods mutate the fields in the source's order. Each one is proved
to produce exactly the state its specification function gives. The lemmas
about those functions therefore hold of the running object, including the
invariant (`Match.Inv`) that every frame keeps:

- lives stay in [0, 3];
- game over means a stationary ball at the centre;
- the colour index stays within the palette of 6;
- the opponent board stays inside the field;
- during a rally both speed magnitudes equal 5 px/frame plus 0.2 per paddle hit.

Units: positions and sizes are whole pixels, as in pygame's `Rect`. Ball
speeds are whole tenths of a pixel per frame: the initial speed 5 is `50` and
the increment 0.2 is `2`. Storing `ball.x + speed` back into the integer Rect
is `Physics.ToPixel`, a truncation toward zero. Apart from `AdvanceExact`,
`AdvanceBounded` and the stationary-ball case, no lemma depends on how it
rounds.

Inputs from the outside world are parameters of a frame (`Frame.FrameInput`):

- the polled events;
- the held arrow keys;
- the hand detector's sample, if any, as the integer `int(...)` gives;
- the outcome of `random.randint(0, 1) == 0` as the boolean `serveRight`.

One random outcome per frame is enough, because a frame cannot both score and
lose a life (`Physics.ScoreAndLossExclusive`).

Some behaviours of the code are easy to misread; the model follows the code:

- With both arrow keys held, the paddle moves by −5 per frame. The first pass
  cancels out, and the second pass is an `if/elif` that applies only left.
- Rectangles collide only when their open intervals overlap, as pygame's
  `colliderect` does. Touching edges do not count.
- The player's paddle is not always inside the field after a frame. Its
  second move comes after its clamp and can leave it 5 px outside. A hand
  sample can put it anywhere.
- ESC pauses in any state, game over included. A restart click restarts in
  any state, not only after game over.

## Model

| member | source | states |
|---|---|---|
| `Match.Initial` | ping_pong.py:29-71 | both paddles start centred horizontally inside the field with the ball between them; see `InitialInv` |
| `Match.Reset` | ping_pong.py:143-151 | restart gives score 0, lives 3, speed (5,5), rally count 0, ball at (400,400), not paused; colour, both paddles, ball size and input mode are kept |
| `Match.ResetIdempotent` | ping_pong.py:143-151 | restarting twice equals restarting once |
| `Match.ResetForgets` | ping_pong.py:143-151 | two states restart to the same state iff they agree on colour, input mode, paddles and ball size: nothing else of the old state survives |
| `Match.ResetInv` | ping_pong.py:143-151 | a restart from any state keeping the invariant, game over included, yields a playable state keeping it |
| `Match.InitialInv` | ping_pong.py:29-71 | the initial globals satisfy the invariant, with score 0, 3 lives and not paused |
| `Events.ApplyEvent` | ping_pong.py:161-174 | one event either restarts the game or changes only the pause flag and the input mode; paddles, colour and ball size are never touched; see `EscapePauses` … `ToggleClick` |
| `Events.ApplyEvents` | ping_pong.py:155-174 | the events of a frame never move a paddle or change the colour or the ball's size; see `EventsOnlyTouchFlags`, `EventsInv` |
| `Events.ButtonsDisjoint` | ping_pong.py:58-73 | the toggle, restart and resume buttons share no point, so each click hits at most one of them |
| `Events.EscapePauses` | ping_pong.py:171-172 | ESC sets the pause flag in every state and changes nothing else |
| `Events.SpaceResumes` | ping_pong.py:173-174 | SPACE clears the pause flag in every state and changes nothing else |
| `Events.ResumeClick` | ping_pong.py:168-169 | a resume click clears the pause flag, and does nothing at all when not paused |
| `Events.RestartClick` | ping_pong.py:166-167 | a restart click performs `reset_game` whether playing, paused or game over |
| `Events.ToggleClick` | ping_pong.py:162-163 | a toggle click flips gesture mode and nothing else; it is tested first |
| `Events.EventsOnlyTouchFlags` | ping_pong.py:155-174 | a frame's events without a restart click change only the pause flag and the input mode |
| `Events.EndsWithEscape` | ping_pong.py:155-174 | events ending with ESC leave the game paused |
| `Events.EventsInv` | ping_pong.py:155-174 | every sequence of events keeps the invariant |
| `Paddles.UpdatePaddles` | ping_pong.py:182-213 | only the two paddles change, and neither changes size or height; see `KeyboardDisplacement`, `GestureOverrides`, `PaddleBounds`, `NpcApproachesBall` |
| `Paddles.KeyboardStep` | ping_pong.py:187-191 | first pass: the centre moves −5 for left and +5 for right independently; size and height kept |
| `Paddles.Track` | ping_pong.py:193-196 | the opponent's centre moves toward the ball's centre by min(5, distance): it never passes the ball |
| `Paddles.Clamp` | ping_pong.py:198-206 | a paddle that fits lands inside [0, 800]; a paddle already inside is untouched; width kept |
| `Paddles.FinalMove` | ping_pong.py:208-213 | a gesture-mode sample sets the centre outright; otherwise left (else right) moves it one more step |
| `Paddles.KeyboardDisplacement` | ping_pong.py:187-213 | keyboard mode away from the walls: −10 for left, +10 for right, −5 for both, 0 for none |
| `Paddles.GestureOverrides` | ping_pong.py:182-213 | gesture mode with a sample: the paddle's centre is the sample whatever keys are held |
| `Paddles.SampleIgnoredWithoutGesture` | ping_pong.py:182-185 | with gesture mode off a hand sample has no effect |
| `Paddles.PaddleBounds` | ping_pong.py:193-213 | shapes kept; the opponent ends inside the field; in keyboard mode the player's paddle ends within 5 px of it |
| `Paddles.SecondMoveLeavesField` | ping_pong.py:198-213 | from the left wall with left held, the player's paddle ends 5 px beyond the wall |
| `Paddles.NpcApproachesBall` | ping_pong.py:193-206 | over tracking plus clamp the opponent never passes the ball's centre and never gets farther from it |
| `Physics.ToPixel` | ping_pong.py:215-216 | storing a coordinate truncates toward zero to whole pixels |
| `Physics.Ramp` | ping_pong.py:225-234 | the speed magnitude grows by exactly 0.2 and the sign is kept (zero counts as negative) |
| `Physics.ServeSpeedX` | ping_pong.py:240 | the served horizontal speed is ±5, positive exactly when the random draw is 0 |
| `Physics.ServeSpeedY` | ping_pong.py:241 | the served vertical speed is ±5 with the sign of the speed before the serve |
| `Physics.Recentred` | ping_pong.py:238-239 | the ball is put back at (400,400) with its size kept |
| `Physics.Advance` | ping_pong.py:215-216 | only the ball's position changes, size kept; see `AdvanceExact`, `AdvanceBounded` |
| `Physics.ReflectWalls` | ping_pong.py:218-219 | only the horizontal speed changes, and its magnitude is kept; see `WallReflection` |
| `Physics.Bounce` | ping_pong.py:221-234 | only speeds, colour and rally count change, the rally count by at most one; see `PaddleHit`, `NoHit` |
| `Physics.ScoreTop` | ping_pong.py:236-242 | only score, ball, speeds and rally count change; the score grows by at most one; see `TopEdge` |
| `Physics.LoseLife` | ping_pong.py:244-256 | only lives, ball, speeds and rally count change; at most one life is lost; see `BottomEdge` |
| `Physics.UpdateBall` | ping_pong.py:215-256 | the ball update never moves a paddle, never changes the pause flag or input mode, raises the score by at most one and costs at most one life; see `UpdateBallInv` |
| `Physics.AdvanceExact` | ping_pong.py:215-216 | with whole-pixel speeds the ball moves by exactly its speed |
| `Physics.AdvanceBounded` | ping_pong.py:215-216 | whatever the rounding, the ball lands within one pixel of position plus speed |
| `Physics.WallReflection` | ping_pong.py:218-219 | only the horizontal speed changes, and it reverses exactly when the ball touches or crosses a side wall; position not corrected |
| `Physics.PaddleHit` | ping_pong.py:221-234 | on paddle overlap the vertical speed reverses, both magnitudes grow by 0.2 keeping directions, colour advances mod 6, rally count +1, nothing else changes |
| `Physics.NoHit` | ping_pong.py:221 | without paddle overlap the bounce step changes nothing |
| `Physics.TopEdge` | ping_pong.py:236-242 | top edge: score +1, ball at centre, speed x ±5 by the draw, speed y ±5 keeping its sign, rally count 0, nothing else changes |
| `Physics.BottomEdge` | ping_pong.py:244-256 | bottom edge: lives −1, rally count 0, ball at centre, score untouched; last life gives speed (0,0), otherwise a serve as at the top; nothing else changes |
| `Physics.ScoreAndLossExclusive` | ping_pong.py:236-256 | a frame that scores cannot also lose a life |
| `Physics.StationaryStays` | ping_pong.py:215-256 | a stationary centred ball stays put: no wall, paddle or edge is reached |
| `Physics.RallyKept` | ping_pong.py:215-234 | moving, reflecting and bouncing keep the speed magnitudes equal to 5 + 0.2 × rally count |
| `Physics.EdgesInv` | ping_pong.py:236-256 | the edge checks turn a rally state into one keeping the invariant |
| `Physics.UpdateBallInv` | ping_pong.py:215-256 | the ball update keeps the invariant, never lowers the score and costs at most one life |
| `Frame.Step` | ping_pong.py:154-256 | the pause flag and input mode after a frame are those its events leave; ball and paddle sizes and paddle heights are kept; see `PausedFrameFreezes`, `StepInv`, `StepMonotone` |
| `Frame.Run` | ping_pong.py:154-256 | a run of frames keeps ball and paddle sizes and paddle heights; see `RunInv`, `RunMonotone` |
| `Frame.PausedFrameFreezes` | ping_pong.py:176-180 | a frame that ends paused, without a restart click, leaves ball, paddles, speeds, colour, score, lives and rally count unchanged |
| `Frame.PausedIdle` | ping_pong.py:176-180 | a paused game with no events stays exactly as it is |
| `Frame.PaddlesKeepInv` | ping_pong.py:182-213 | the paddle update keeps the invariant |
| `Frame.StepInv` | ping_pong.py:154-256 | every frame keeps the invariant: 0 ≤ lives ≤ 3, game over means a stationary centred ball |
| `Frame.StepMonotone` | ping_pong.py:154-256 | between restarts a frame never lowers the score and costs at most one life |
| `Frame.GameOverStable` | ping_pong.py:244-256 | after the last life, frames without a restart keep lives 0, the ball still and the score |
| `Frame.RunInv` | ping_pong.py:154-256 | the invariant holds after any run of frames |
| `Frame.RunMonotone` | ping_pong.py:154-256 | over a run without restarts the score never falls, lives never rise, at most one life per frame is lost |
| `GameLoop.PingPong.constructor` | ping_pong.py:29-71 | the object starts in the initial state, which keeps the invariant |
| `GameLoop.PingPong.Reset` | ping_pong.py:143-151 | the fields become `Match.Reset` of the old state, and the invariant is kept |
| `GameLoop.PingPong.HandleEvent` | ping_pong.py:161-174 | the fields become `Events.ApplyEvent` of the old state, and the invariant is kept |
| `GameLoop.PingPong.HandleEvents` | ping_pong.py:155-174 | the event loop leaves the fields at `Events.ApplyEvents` of the old state and keeps the invariant |
| `GameLoop.PingPong.MovePaddles` | ping_pong.py:182-213 | the fields become `Paddles.UpdatePaddles` of the old state |
| `GameLoop.PingPong.ApplyKeys` | ping_pong.py:187-191 | only the player's paddle changes, to `KeyboardStep` of it |
| `GameLoop.PingPong.TrackBall` | ping_pong.py:193-196 | only the opponent board changes, to `Track` of it toward the ball's centre |
| `GameLoop.PingPong.ClampPaddles` | ping_pong.py:198-206 | only the paddles change, each to `Clamp` of itself |
| `GameLoop.PingPong.ApplySampleOrKeys` | ping_pong.py:208-213 | only the player's paddle changes, to `FinalMove` of it |
| `GameLoop.PingPong.MoveBall` | ping_pong.py:215-256 | the fields become `Physics.UpdateBall` of the old state |
| `GameLoop.PingPong.MoveByVelocity` | ping_pong.py:215-216 | the fields become `Physics.Advance` of the old state |
| `GameLoop.PingPong.ReflectOffWalls` | ping_pong.py:218-219 | the fields become `Physics.ReflectWalls` of the old state |
| `GameLoop.PingPong.BounceOffPaddles` | ping_pong.py:221-234 | the fields become `Physics.Bounce` of the old state |
| `GameLoop.PingPong.CheckTopEdge` | ping_pong.py:236-242 | the fields become `Physics.ScoreTop` of the old state |
| `GameLoop.PingPong.CheckBottomEdge` | ping_pong.py:244-256 | the fields become `Physics.LoseLife` of the old state |
| `GameLoop.PingPong.Step` | ping_pong.py:154-256 | one loop iteration keeps the invariant and leaves the fields at `Frame.Step` of the old state |
| `GameLoop.PingPong.Run` | ping_pong.py:154-256 | a run of frames keeps the invariant, ends at `Frame.Run`, and without restarts never lowers the score or raises lives |
| `Geometry.Rect.CenterX` | ping_pong.py:189-196 | `centerx` lies between the edges, at the midpoint rounded toward the left edge |
| `Geometry.Rect.WithCenterX` | ping_pong.py:189-213 | assigning `centerx` makes the getter return the assigned value; height, width and vertical position kept |
| `Geometry.Rect.WithLeft` | ping_pong.py:198-206 | assigning `left` puts the left edge there and the right edge one width further; size kept |
| `Geometry.Rect.WithRight` | ping_pong.py:198-206 | assigning `right` puts the right edge there and the left edge one width back; size kept |
| `Geometry.Rect.CollideRect` | ping_pong.py:221 | empty rectangles collide with nothing, and rectangles that only touch at an edge do not collide; see `CollideRectSymmetric`, `CollideRectIffCommonPoint` |
| `Geometry.Rect.CollidePoint` | ping_pong.py:162-168 | the top-left corner is inside exactly when the rectangle is non-empty; the right and bottom edges are outside |
| `Geometry.CenterXRoundTrip` | ping_pong.py:189 | assigning `centerx` its own value changes nothing |
| `Geometry.ShiftCenterX` | ping_pong.py:189-191 | moving `centerx` by d moves the left edge by exactly d |
| `Geometry.CollideRectSymmetric` | ping_pong.py:221 | rectangle collision does not depend on which rectangle asks |
| `Geometry.CollideRectIffCommonPoint` | ping_pong.py:221 | non-empty rectangles collide iff some point lies in both under the half-open `collidepoint` rule |

## Left out

- Drawing is not modelled, because it makes no state changes beyond those
  above. This covers `draw_toggle_button`, `draw_lives`, `draw_score`,
  `draw_buttons`, the draw calls at the end of each frame, fonts, flipping
  the display and the 60 Hz clock tick.
- `game_over_animation` is not modelled. It depends on wall-clock ticks and
  affects only what is drawn.
- `detect_hand_position` is not modelled: camera capture and hand-landmark
  extraction are foreign libraries. Its result is an optional integer input
  to each frame. Its `q` key exit path is left out too.
- `random.randint` is not modelled. Its outcome is the `serveRight` input.
- The window-close event and the release of the camera and windows are left
  out. Both end the process.
- The toggle button's colour fields are left out, because they are cosmetic.
- Floating-point speed arithmetic is left out. Speeds are exact tenths,
  whereas Python accumulates binary rounding errors (5 + 0.2 is not exactly
  5.2). Those errors could move a truncated coordinate by one pixel in rare
  cases.
- `Physics.ToPixel`: the exact float-to-int coercion of the graphics library
  is not modelled. Truncation toward zero is assumed.
- `GameLoop.PingPong.Run`: the endless main loop is modelled as a finite run
  over a given sequence of frame inputs.
- `Geometry.Rect.CollideRect`: rectangles with negative width or height are
  not modelled, because none occur in the game.
