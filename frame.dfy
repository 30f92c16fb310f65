/** One iteration of the main loop, and a run of many: events first, then the
    pause gate, then paddles, then the ball. The inputs that the loop reads
    from the outside world each frame are gathered in `FrameInput`. */
module Frame {
  import opened Geometry
  import opened Match
  import opened Events
  import opened Paddles
  import opened Physics

  /** What one frame reads from outside: the polled events, the held arrow
      keys, the hand detector's sample (if any), and the random serve
      direction (true when the random draw comes out 0, serving to the right). */
  datatype FrameInput = FrameInput(events: seq<Event>, keys: Keys, hand: Option<int>, serveRight: bool)

  /** One frame. A frame that ends paused changes nothing beyond its events. */
  function Step(s: MatchState, input: FrameInput): (r: MatchState)
    ensures r.paused == ApplyEvents(s, input.events).paused
    ensures r.gestureEnabled == ApplyEvents(s, input.events).gestureEnabled
    ensures r.ball.w == s.ball.w && r.ball.h == s.ball.h
    ensures r.bottomPaddle.y == s.bottomPaddle.y && r.bottomPaddle.w == s.bottomPaddle.w && r.bottomPaddle.h == s.bottomPaddle.h
    ensures r.npcBoard.y == s.npcBoard.y && r.npcBoard.w == s.npcBoard.w && r.npcBoard.h == s.npcBoard.h
  {
    var t := ApplyEvents(s, input.events);
    if t.paused then t
    else UpdateBall(UpdatePaddles(t, input.keys, input.hand), input.serveRight)
  }

  /** A run of frames, in order. */
  function Run(s: MatchState, inputs: seq<FrameInput>): (r: MatchState)
    ensures r.ball.w == s.ball.w && r.ball.h == s.ball.h
    ensures r.bottomPaddle.y == s.bottomPaddle.y && r.bottomPaddle.w == s.bottomPaddle.w && r.bottomPaddle.h == s.bottomPaddle.h
    ensures r.npcBoard.y == s.npcBoard.y && r.npcBoard.w == s.npcBoard.w && r.npcBoard.h == s.npcBoard.h
    decreases |inputs|
  {
    if inputs == [] then s else Step(Run(s, inputs[..|inputs| - 1]), inputs[|inputs| - 1])
  }

  /** No frame of the run restarts the game. */
  predicate NoRestartIn(inputs: seq<FrameInput>) {
    forall i :: 0 <= i < |inputs| ==> NoRestart(inputs[i].events)
  }

  /** The pause gate: a frame whose events leave the game paused moves
      nothing. Without a restart click, ball, paddles, speeds, colour, score,
      lives and rally count are exactly as before the frame. */
  lemma PausedFrameFreezes(s: MatchState, input: FrameInput)
    requires NoRestart(input.events) && ApplyEvents(s, input.events).paused
    ensures Step(s, input) == s.(paused := true, gestureEnabled := Step(s, input).gestureEnabled)
  {
    EventsOnlyTouchFlags(s, input.events);
  }

  /** A paused game with no events this frame stays exactly as it is. */
  lemma PausedIdle(s: MatchState, input: FrameInput)
    requires s.paused && input.events == []
    ensures Step(s, input) == s
  {
  }

  /** The paddle update does not touch anything the ball update or the
      invariant depends on except the paddles themselves. */
  lemma PaddlesKeepInv(s: MatchState, keys: Keys, hand: Option<int>)
    requires Inv(s)
    ensures Inv(UpdatePaddles(s, keys, hand))
  {
    PaddleBounds(s, keys, hand);
  }

  /** Every frame keeps the invariant. In particular lives stay within
      [0, MAX_LIVES] and never become negative, and game over means a
      stationary centred ball. */
  lemma StepInv(s: MatchState, input: FrameInput)
    requires Inv(s)
    ensures Inv(Step(s, input))
  {
    var t := ApplyEvents(s, input.events);
    EventsInv(s, input.events);
    if !t.paused {
      PaddlesKeepInv(t, input.keys, input.hand);
      UpdateBallInv(UpdatePaddles(t, input.keys, input.hand), input.serveRight);
    }
  }

  /** Between restarts the score never falls, lives never rise, and a frame
      costs at most one life. */
  lemma StepMonotone(s: MatchState, input: FrameInput)
    requires Inv(s) && NoRestart(input.events)
    ensures Step(s, input).score >= s.score
    ensures s.lives - 1 <= Step(s, input).lives <= s.lives
  {
    var t := ApplyEvents(s, input.events);
    EventsOnlyTouchFlags(s, input.events);
    EventsInv(s, input.events);
    if !t.paused {
      PaddlesKeepInv(t, input.keys, input.hand);
      UpdateBallInv(UpdatePaddles(t, input.keys, input.hand), input.serveRight);
    }
  }

  /** Game over is final until a restart: the ball stays stationary at the
      centre, and score and lives stay as they are. */
  lemma GameOverStable(s: MatchState, input: FrameInput)
    requires Inv(s) && s.lives == 0 && NoRestart(input.events)
    ensures Step(s, input).lives == 0 && Stationary(Step(s, input))
    ensures Step(s, input).score == s.score
  {
    var t := ApplyEvents(s, input.events);
    EventsOnlyTouchFlags(s, input.events);
    if !t.paused {
      var p := UpdatePaddles(t, input.keys, input.hand);
      PaddleBounds(t, input.keys, input.hand);
      StationaryStays(p, input.serveRight);
    }
  }

  /** The invariant holds after any run of frames from the initial state. */
  lemma {:induction false} RunInv(s: MatchState, inputs: seq<FrameInput>)
    requires Inv(s)
    ensures Inv(Run(s, inputs))
    decreases |inputs|
  {
    if inputs != [] {
      RunInv(s, inputs[..|inputs| - 1]);
      StepInv(Run(s, inputs[..|inputs| - 1]), inputs[|inputs| - 1]);
    }
  }

  /** Over a run without restarts the score only grows, lives only fall, and
      no more lives are lost than there were frames. */
  lemma {:induction false} RunMonotone(s: MatchState, inputs: seq<FrameInput>)
    requires Inv(s) && NoRestartIn(inputs)
    ensures Run(s, inputs).score >= s.score
    ensures s.lives - |inputs| <= Run(s, inputs).lives <= s.lives
    decreases |inputs|
  {
    if inputs != [] {
      var init := inputs[..|inputs| - 1];
      assert NoRestartIn(init) by {
        forall i | 0 <= i < |init| ensures NoRestart(init[i].events) {
          assert init[i] == inputs[i];
        }
      }
      RunMonotone(s, init);
      RunInv(s, init);
      StepMonotone(Run(s, init), inputs[|inputs| - 1]);
    }
  }
}
