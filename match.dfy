/** The match context: the game's constants, the state that the main loop
    mutates from frame to frame, its initial value, the restart operation and
    the invariant that every frame keeps. Ball speeds are kept in tenths of a
    pixel per frame, so the speed increment of 0.2 is the integer 2. */
module Match {
  import opened Geometry

  const WIDTH := 800
  const HEIGHT := 800
  /** The ball's bounding box is BALL_RADIUS by BALL_RADIUS pixels. */
  const BALL_SIZE := 20
  const PADDLE_WIDTH := 100
  const PADDLE_HEIGHT := 10
  /** Initial speeds and the per-hit increment, in tenths of a pixel per frame. */
  const INITIAL_SPEED_X := 50
  const INITIAL_SPEED_Y := 50
  const SPEED_INCREMENT := 2
  /** Paddle step per frame, in pixels. */
  const PADDLE_SPEED := 5
  /** Number of entries of the ball colour palette. */
  const COLOR_COUNT := 6
  const MAX_LIVES := 3

  const BOTTOM_PADDLE_Y := HEIGHT - 30 - PADDLE_HEIGHT
  const NPC_Y := 30
  /** Where the ball's top-left corner is put on a restart, score or lost life. */
  const CENTRE_X := WIDTH / 2
  const CENTRE_Y := HEIGHT / 2

  const TOGGLE_BUTTON := Rect(WIDTH - 150, 20, 140, 40)
  const RESTART_BUTTON := Rect(WIDTH / 2 - 70, HEIGHT / 2 + 40, 140, 40)
  const RESUME_BUTTON := Rect(WIDTH / 2 - 70, HEIGHT / 2 + 100, 140, 40)

  datatype Option<T> = None | Some(value: T)

  /** Everything the main loop mutates. The phase is not a field of its own:
      game over is `lives == 0`, and pausing is the orthogonal flag `paused`. */
  datatype MatchState = MatchState(
    ball: Rect,
    bottomPaddle: Rect,
    npcBoard: Rect,
    speedX: int,
    speedY: int,
    colorIndex: int,
    score: int,
    lives: int,
    hitCount: int,
    paused: bool,
    gestureEnabled: bool)

  /** The state the globals hold when the loop is first entered: both paddles
      centred horizontally inside the field, the ball between them. */
  function Initial(): (r: MatchState)
    ensures r.bottomPaddle.CenterX() == CENTRE_X && r.npcBoard.CenterX() == CENTRE_X
    ensures InField(r.bottomPaddle) && InField(r.npcBoard)
    ensures r.npcBoard.Bottom() < r.ball.Top() && r.ball.Bottom() < r.bottomPaddle.Top()
  {
    MatchState(
      Rect(WIDTH / 2, HEIGHT / 2, BALL_SIZE, BALL_SIZE),
      Rect((WIDTH - PADDLE_WIDTH) / 2, BOTTOM_PADDLE_Y, PADDLE_WIDTH, PADDLE_HEIGHT),
      Rect((WIDTH - PADDLE_WIDTH) / 2, NPC_Y, PADDLE_WIDTH, PADDLE_HEIGHT),
      INITIAL_SPEED_X, INITIAL_SPEED_Y, 0, 0, MAX_LIVES, 0, false, false)
  }

  /** `reset_game`: restores score, lives, speeds, rally count, ball position
      and the pause flag; the ball's colour, both paddles, the ball's size and
      the input mode are kept. */
  function Reset(s: MatchState): (r: MatchState)
    ensures r.score == 0 && r.lives == MAX_LIVES && r.hitCount == 0 && !r.paused
    ensures r.speedX == INITIAL_SPEED_X && r.speedY == INITIAL_SPEED_Y
    ensures r.ball == Rect(CENTRE_X, CENTRE_Y, s.ball.w, s.ball.h)
    ensures r.colorIndex == s.colorIndex && r.gestureEnabled == s.gestureEnabled
    ensures r.bottomPaddle == s.bottomPaddle && r.npcBoard == s.npcBoard
  {
    s.(score := 0, lives := MAX_LIVES,
       speedX := INITIAL_SPEED_X, speedY := INITIAL_SPEED_Y,
       hitCount := 0,
       ball := s.ball.(x := WIDTH / 2).(y := HEIGHT / 2),
       paused := false)
  }

  /** A rectangle lies within the playfield's horizontal extent. */
  predicate InField(r: Rect) {
    0 <= r.Left() && r.Right() <= WIDTH
  }

  /** The shapes of the ball and the paddles never change, and the paddles
      never move vertically. */
  predicate Shapes(s: MatchState) {
    s.ball.w == BALL_SIZE && s.ball.h == BALL_SIZE &&
    s.bottomPaddle.w == PADDLE_WIDTH && s.bottomPaddle.h == PADDLE_HEIGHT &&
    s.bottomPaddle.y == BOTTOM_PADDLE_Y &&
    s.npcBoard.w == PADDLE_WIDTH && s.npcBoard.h == PADDLE_HEIGHT &&
    s.npcBoard.y == NPC_Y
  }

  /** The ball sits still at the centre: the state after the last life is lost. */
  predicate Stationary(s: MatchState) {
    s.ball.x == CENTRE_X && s.ball.y == CENTRE_Y && s.speedX == 0 && s.speedY == 0
  }

  /** The invariant every frame keeps:
      - lives stay in [0, MAX_LIVES], score and rally count are never negative,
        the colour index stays within the palette, the opponent board stays in
        the field;
      - with no lives left the ball is stationary at the centre (game over);
      - otherwise both speed components have magnitude exactly the initial
        speed plus one increment per paddle hit of the current rally. */
  ghost predicate Inv(s: MatchState) {
    Shapes(s) &&
    0 <= s.lives <= MAX_LIVES && 0 <= s.score && 0 <= s.hitCount &&
    0 <= s.colorIndex < COLOR_COUNT &&
    InField(s.npcBoard) &&
    (s.lives == 0 ==> Stationary(s)) &&
    (s.lives > 0 ==>
       Abs(s.speedX) == INITIAL_SPEED_X + SPEED_INCREMENT * s.hitCount &&
       Abs(s.speedY) == INITIAL_SPEED_Y + SPEED_INCREMENT * s.hitCount)
  }

  lemma InitialInv()
    ensures Inv(Initial())
    ensures Initial().score == 0 && Initial().lives == MAX_LIVES && !Initial().paused
  {
  }

  /** Restarting twice is the same as restarting once. */
  lemma ResetIdempotent(s: MatchState)
    ensures Reset(Reset(s)) == Reset(s)
  {
  }

  /** The result of a restart depends on nothing but the kept fields:
      two states restart to the same state exactly when they agree on them. */
  lemma ResetForgets(s: MatchState, t: MatchState)
    ensures Reset(s) == Reset(t) <==>
      (s.colorIndex == t.colorIndex && s.gestureEnabled == t.gestureEnabled &&
       s.bottomPaddle == t.bottomPaddle && s.npcBoard == t.npcBoard &&
       s.ball.w == t.ball.w && s.ball.h == t.ball.h)
  {
    if Reset(s) == Reset(t) {
      assert Reset(s).ball.w == Reset(t).ball.w;
    }
  }

  /** A restart from any state that keeps the invariant, game over included,
      yields a playable state that keeps it: three lives, rally count zero and
      the initial speeds. */
  lemma ResetInv(s: MatchState)
    requires Inv(s)
    ensures Inv(Reset(s)) && Reset(s).lives > 0 && !Stationary(Reset(s))
  {
  }
}
