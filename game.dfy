/** The game as the program runs it: the module globals lifted into the
    fields of one object, mutated in place by the event handler, the paddle
    and ball updates of each frame, and the restart operation. Every method is
    proved to produce exactly the state that the specification functions of
    the other modules describe, so the properties proved there hold of it. */
module GameLoop {
  import opened Geometry
  import opened Match
  import opened Events
  import opened Paddles
  import opened Physics
  import Frame

  class PingPong {
    var ball: Rect
    var bottomPaddle: Rect
    var npcBoard: Rect
    /** Ball speeds in tenths of a pixel per frame. */
    var speedX: int
    var speedY: int
    var colorIndex: int
    var score: int
    var lives: int
    var hitCount: int
    var paused: bool
    var gestureEnabled: bool

    /** The abstract value of the object. */
    function State(): MatchState
      reads this
    {
      MatchState(ball, bottomPaddle, npcBoard, speedX, speedY, colorIndex,
                 score, lives, hitCount, paused, gestureEnabled)
    }

    ghost predicate Valid()
      reads this
    {
      Inv(State())
    }

    /** The globals as the program sets them up before its loop. */
    constructor ()
      ensures State() == Initial() && Valid()
    {
      bottomPaddle := Rect((WIDTH - PADDLE_WIDTH) / 2, HEIGHT - 30 - PADDLE_HEIGHT, PADDLE_WIDTH, PADDLE_HEIGHT);
      ball := Rect(WIDTH / 2, HEIGHT / 2, BALL_SIZE, BALL_SIZE);
      colorIndex := 0;
      npcBoard := Rect((WIDTH - PADDLE_WIDTH) / 2, 30, PADDLE_WIDTH, PADDLE_HEIGHT);
      score := 0;
      lives := MAX_LIVES;
      hitCount := 0;
      speedX, speedY := INITIAL_SPEED_X, INITIAL_SPEED_Y;
      gestureEnabled := false;
      paused := false;
      InitialInv();
    }

    /** `reset_game`. */
    method Reset()
      requires Valid()
      modifies this
      ensures Valid()
      ensures State() == Match.Reset(old(State()))
    {
      score := 0;
      lives := MAX_LIVES;
      speedX, speedY := INITIAL_SPEED_X, INITIAL_SPEED_Y;
      hitCount := 0;
      ball := ball.(x := WIDTH / 2);
      ball := ball.(y := HEIGHT / 2);
      paused := false;
      ResetInv(old(State()));
    }

    /** One polled event. */
    method HandleEvent(e: Event)
      requires Valid()
      modifies this
      ensures Valid()
      ensures State() == ApplyEvent(old(State()), e)
    {
      match e
      case MouseDown(px, py) =>
        if TOGGLE_BUTTON.CollidePoint(px, py) {
          gestureEnabled := !gestureEnabled;
        } else if RESTART_BUTTON.CollidePoint(px, py) {
          Reset();
        } else if RESUME_BUTTON.CollidePoint(px, py) && paused {
          paused := false;
        }
      case KeyDown(k) =>
        if k == Escape {
          paused := true;
        } else if k == Space {
          paused := false;
        }
      case OtherEvent =>
    }

    /** The event loop at the top of a frame. */
    method HandleEvents(events: seq<Event>)
      requires Valid()
      modifies this
      ensures Valid()
      ensures State() == ApplyEvents(old(State()), events)
    {
      for i := 0 to |events|
        invariant Valid()
        invariant State() == ApplyEvents(old(State()), events[..i])
      {
        assert events[..i + 1][..i] == events[..i];
        HandleEvent(events[i]);
      }
      assert events[..|events|] == events;
    }

    /** Both paddles: first keyboard pass, opponent tracking, the two clamps,
        then the hand sample or the second keyboard pass. `hand` is what the
        hand detector would report; it is read only in gesture mode. */
    method MovePaddles(keys: Keys, hand: Option<int>)
      modifies this
      ensures State() == UpdatePaddles(old(State()), keys, hand)
    {
      var handCenterX := if gestureEnabled then hand else None;
      ApplyKeys(keys);
      TrackBall();
      ClampPaddles();
      ApplySampleOrKeys(keys, handCenterX);
    }

    method ApplyKeys(keys: Keys)
      modifies this
      ensures State() == old(State()).(bottomPaddle := KeyboardStep(old(bottomPaddle), keys))
    {
      if keys.left {
        bottomPaddle := bottomPaddle.WithCenterX(bottomPaddle.CenterX() - PADDLE_SPEED);
      }
      if keys.right {
        bottomPaddle := bottomPaddle.WithCenterX(bottomPaddle.CenterX() + PADDLE_SPEED);
      }
    }

    method TrackBall()
      modifies this
      ensures State() == old(State()).(npcBoard := Track(old(npcBoard), old(ball).CenterX()))
    {
      if ball.CenterX() < npcBoard.CenterX() {
        npcBoard := npcBoard.WithCenterX(npcBoard.CenterX() - Min(PADDLE_SPEED, npcBoard.CenterX() - ball.CenterX()));
      } else if ball.CenterX() > npcBoard.CenterX() {
        npcBoard := npcBoard.WithCenterX(npcBoard.CenterX() + Min(PADDLE_SPEED, ball.CenterX() - npcBoard.CenterX()));
      }
    }

    method ClampPaddles()
      modifies this
      ensures State() == old(State()).(bottomPaddle := Clamp(old(bottomPaddle)), npcBoard := Clamp(old(npcBoard)))
    {
      if bottomPaddle.Left() < 0 {
        bottomPaddle := bottomPaddle.WithLeft(0);
      } else if bottomPaddle.Right() > WIDTH {
        bottomPaddle := bottomPaddle.WithRight(WIDTH);
      }
      if npcBoard.Left() < 0 {
        npcBoard := npcBoard.WithLeft(0);
      } else if npcBoard.Right() > WIDTH {
        npcBoard := npcBoard.WithRight(WIDTH);
      }
    }

    method ApplySampleOrKeys(keys: Keys, handCenterX: Option<int>)
      modifies this
      ensures State() == old(State()).(bottomPaddle := FinalMove(old(bottomPaddle), gestureEnabled, handCenterX, keys))
    {
      if gestureEnabled && handCenterX.Some? {
        bottomPaddle := bottomPaddle.WithCenterX(handCenterX.value);
      } else if keys.left {
        bottomPaddle := bottomPaddle.WithCenterX(bottomPaddle.CenterX() - PADDLE_SPEED);
      } else if keys.right {
        bottomPaddle := bottomPaddle.WithCenterX(bottomPaddle.CenterX() + PADDLE_SPEED);
      }
    }

    /** The ball: move, walls, paddles, top edge, bottom edge. */
    method MoveBall(serveRight: bool)
      modifies this
      ensures State() == UpdateBall(old(State()), serveRight)
    {
      MoveByVelocity();
      ReflectOffWalls();
      BounceOffPaddles();
      CheckTopEdge(serveRight);
      CheckBottomEdge(serveRight);
    }

    method MoveByVelocity()
      modifies this
      ensures State() == Advance(old(State()))
    {
      ball := ball.(x := ToPixel(10 * ball.x + speedX));
      ball := ball.(y := ToPixel(10 * ball.y + speedY));
    }

    method ReflectOffWalls()
      modifies this
      ensures State() == ReflectWalls(old(State()))
    {
      if ball.Left() <= 0 || ball.Right() >= WIDTH {
        speedX := -speedX;
      }
    }

    method BounceOffPaddles()
      modifies this
      ensures State() == Bounce(old(State()))
    {
      if ball.CollideRect(bottomPaddle) || ball.CollideRect(npcBoard) {
        speedY := -speedY;
        colorIndex := (colorIndex + 1) % COLOR_COUNT;
        hitCount := hitCount + 1;
        if hitCount % 1 == 0 {
          if speedX > 0 {
            speedX := speedX + SPEED_INCREMENT;
          } else {
            speedX := speedX - SPEED_INCREMENT;
          }
          if speedY > 0 {
            speedY := speedY + SPEED_INCREMENT;
          } else {
            speedY := speedY - SPEED_INCREMENT;
          }
        }
      }
    }

    method CheckTopEdge(serveRight: bool)
      modifies this
      ensures State() == ScoreTop(old(State()), serveRight)
    {
      if ball.Top() <= 0 {
        score := score + 1;
        ball := ball.(x := WIDTH / 2);
        ball := ball.(y := HEIGHT / 2);
        speedX := if serveRight then INITIAL_SPEED_X else -INITIAL_SPEED_X;
        speedY := if speedY > 0 then INITIAL_SPEED_Y else -INITIAL_SPEED_Y;
        hitCount := 0;
      }
    }

    method CheckBottomEdge(serveRight: bool)
      modifies this
      ensures State() == LoseLife(old(State()), serveRight)
    {
      if ball.Bottom() >= HEIGHT {
        lives := lives - 1;
        if lives == 0 {
          ball := ball.(x := WIDTH / 2);
          ball := ball.(y := HEIGHT / 2);
          speedX := 0;
          speedY := 0;
        } else {
          ball := ball.(x := WIDTH / 2);
          ball := ball.(y := HEIGHT / 2);
          speedX := if serveRight then INITIAL_SPEED_X else -INITIAL_SPEED_X;
          speedY := if speedY > 0 then INITIAL_SPEED_Y else -INITIAL_SPEED_Y;
        }
        hitCount := 0;
      }
    }

    /** One iteration of the main loop: events, the pause gate, then the game
        update. The invariant is kept. */
    method Step(input: Frame.FrameInput)
      requires Valid()
      modifies this
      ensures Valid()
      ensures State() == Frame.Step(old(State()), input)
    {
      Frame.StepInv(State(), input);
      HandleEvents(input.events);
      if paused {
        return;
      }
      MovePaddles(input.keys, input.hand);
      MoveBall(input.serveRight);
    }

    /** The main loop over a finite run of frames. The invariant holds after
        every frame, and without restarts the score never falls and lives
        never rise. */
    method Run(inputs: seq<Frame.FrameInput>)
      requires Valid()
      modifies this
      ensures Valid()
      ensures State() == Frame.Run(old(State()), inputs)
      ensures Frame.NoRestartIn(inputs) ==> score >= old(score) && lives <= old(lives)
    {
      for i := 0 to |inputs|
        invariant Valid()
        invariant State() == Frame.Run(old(State()), inputs[..i])
      {
        assert inputs[..i + 1][..i] == inputs[..i];
        Step(inputs[i]);
      }
      assert inputs[..|inputs|] == inputs;
      if Frame.NoRestartIn(inputs) {
        Frame.RunMonotone(old(State()), inputs);
      }
    }
  }
}
