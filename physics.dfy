/** The ball part of a frame, in the source's order: Euler move, side-wall
    reflection, paddle bounce with colour cycling and speed ramp, scoring at
    the top edge, losing a life at the bottom edge. Speeds are in tenths of a
    pixel per frame; `serveRight` stands for the random choice that decides
    the sign of a freshly served ball's horizontal speed. */
module Physics {
  import opened Geometry
  import opened Match

  /** Storing a fractional coordinate into an integer Rect field: the value in
      tenths is truncated toward zero to whole pixels. */
  function ToPixel(tenths: int): (r: int)
    ensures tenths >= 0 ==> 10 * r <= tenths < 10 * r + 10
    ensures tenths < 0 ==> 10 * r - 10 < tenths <= 10 * r
  {
    if tenths >= 0 then tenths / 10 else -((-tenths) / 10)
  }

  /** Speeding up after a paddle hit: the magnitude grows by exactly one
      increment and a non-zero speed keeps its sign (a zero speed is treated
      as negative). */
  function Ramp(v: int): (r: int)
    ensures Abs(r) == Abs(v) + SPEED_INCREMENT
    ensures v > 0 <==> r > 0
  {
    if v > 0 then v + SPEED_INCREMENT else v - SPEED_INCREMENT
  }

  /** The horizontal speed of a freshly served ball. */
  function ServeSpeedX(serveRight: bool): (r: int)
    ensures Abs(r) == INITIAL_SPEED_X && (r > 0 <==> serveRight)
  {
    if serveRight then INITIAL_SPEED_X else -INITIAL_SPEED_X
  }

  /** The vertical speed of a freshly served ball: initial magnitude, with the
      direction the ball was last moving in (a zero speed counts as upward). */
  function ServeSpeedY(vy: int): (r: int)
    ensures Abs(r) == INITIAL_SPEED_Y && (r > 0 <==> vy > 0)
  {
    if vy > 0 then INITIAL_SPEED_Y else -INITIAL_SPEED_Y
  }

  /** Step 1: the ball moves by its speed, rounded into whole pixels. */
  function Advance(s: MatchState): (r: MatchState)
    ensures r == s.(ball := r.ball) && r.ball.w == s.ball.w && r.ball.h == s.ball.h
  {
    s.(ball := s.ball.WithPos(ToPixel(10 * s.ball.x + s.speedX), ToPixel(10 * s.ball.y + s.speedY)))
  }

  /** Step 2: touching or crossing a side wall reverses the horizontal speed;
      the position is not corrected. */
  function ReflectWalls(s: MatchState): (r: MatchState)
    ensures r == s.(speedX := r.speedX) && Abs(r.speedX) == Abs(s.speedX)
  {
    if s.ball.Left() <= 0 || s.ball.Right() >= WIDTH then s.(speedX := -s.speedX) else s
  }

  /** A paddle overlaps the ball. */
  predicate HitsPaddle(s: MatchState) {
    s.ball.CollideRect(s.bottomPaddle) || s.ball.CollideRect(s.npcBoard)
  }

  /** Step 3: on overlap with either paddle the vertical speed reverses, the
      colour advances, the rally count grows and both speeds ramp up. The
      ramp is guarded by `hitCount % 1 == 0`, which always holds. */
  function Bounce(s: MatchState): (r: MatchState)
    ensures r == s.(speedX := r.speedX, speedY := r.speedY, colorIndex := r.colorIndex, hitCount := r.hitCount)
    ensures s.hitCount <= r.hitCount <= s.hitCount + 1
  {
    if HitsPaddle(s) then
      var t := s.(speedY := -s.speedY, colorIndex := (s.colorIndex + 1) % COLOR_COUNT, hitCount := s.hitCount + 1);
      if t.hitCount % 1 == 0 then t.(speedX := Ramp(t.speedX), speedY := Ramp(t.speedY)) else t
    else s
  }

  /** The ball back at the centre, size kept. */
  function Recentred(b: Rect): (r: Rect)
    ensures r.x == CENTRE_X && r.y == CENTRE_Y && r.w == b.w && r.h == b.h
  {
    b.(x := WIDTH / 2).(y := HEIGHT / 2)
  }

  /** Step 4: reaching the top edge scores a point and serves again. */
  function ScoreTop(s: MatchState, serveRight: bool): (r: MatchState)
    ensures r == s.(score := r.score, ball := r.ball, speedX := r.speedX, speedY := r.speedY, hitCount := r.hitCount)
    ensures r.ball.w == s.ball.w && r.ball.h == s.ball.h
    ensures s.score <= r.score <= s.score + 1
  {
    if s.ball.Top() <= 0 then
      s.(score := s.score + 1, ball := Recentred(s.ball),
         speedX := ServeSpeedX(serveRight), speedY := ServeSpeedY(s.speedY), hitCount := 0)
    else s
  }

  /** Step 5: reaching the bottom edge costs a life; the last one leaves the
      ball stationary at the centre, any other serves again. */
  function LoseLife(s: MatchState, serveRight: bool): (r: MatchState)
    ensures r == s.(lives := r.lives, ball := r.ball, speedX := r.speedX, speedY := r.speedY, hitCount := r.hitCount)
    ensures r.ball.w == s.ball.w && r.ball.h == s.ball.h
    ensures s.lives - 1 <= r.lives <= s.lives
  {
    if s.ball.Bottom() >= HEIGHT then
      var lives := s.lives - 1;
      if lives == 0 then
        s.(lives := lives, ball := Recentred(s.ball), speedX := 0, speedY := 0, hitCount := 0)
      else
        s.(lives := lives, ball := Recentred(s.ball),
           speedX := ServeSpeedX(serveRight), speedY := ServeSpeedY(s.speedY), hitCount := 0)
    else s
  }

  /** The ball part of one unpaused frame. */
  function UpdateBall(s: MatchState, serveRight: bool): (r: MatchState)
    ensures r.bottomPaddle == s.bottomPaddle && r.npcBoard == s.npcBoard
    ensures r.paused == s.paused && r.gestureEnabled == s.gestureEnabled
    ensures r.ball.w == s.ball.w && r.ball.h == s.ball.h
    ensures s.score <= r.score <= s.score + 1 && s.lives - 1 <= r.lives <= s.lives
  {
    LoseLife(ScoreTop(Bounce(ReflectWalls(Advance(s))), serveRight), serveRight)
  }

  /** Pure Euler integration: with speeds that are whole pixels the ball moves
      by exactly its speed, with no damping. */
  lemma AdvanceExact(s: MatchState)
    requires s.speedX % 10 == 0 && s.speedY % 10 == 0
    ensures Advance(s).ball == s.ball.WithPos(s.ball.x + s.speedX / 10, s.ball.y + s.speedY / 10)
  {
    var kx, ky := s.speedX / 10, s.speedY / 10;
    assert s.speedX == 10 * kx && s.speedY == 10 * ky;
    assert 10 * s.ball.x + s.speedX == 10 * (s.ball.x + kx);
    assert 10 * s.ball.y + s.speedY == 10 * (s.ball.y + ky);
  }

  /** Whatever the rounding, a frame moves the ball by less than one pixel
      more than its speed on each axis. */
  lemma AdvanceBounded(s: MatchState)
    ensures Abs(10 * Advance(s).ball.x - (10 * s.ball.x + s.speedX)) < 10
    ensures Abs(10 * Advance(s).ball.y - (10 * s.ball.y + s.speedY)) < 10
  {
  }

  /** The wall rule changes only the horizontal speed: it reverses exactly
      when the ball touches or crosses a side wall, and it leaves the ball
      where it is. */
  lemma WallReflection(s: MatchState)
    ensures ReflectWalls(s) == s.(speedX := ReflectWalls(s).speedX)
    ensures ReflectWalls(s).speedX == -s.speedX <==> (s.ball.Left() <= 0 || s.ball.Right() >= WIDTH || s.speedX == 0)
  {
  }

  /** A paddle hit: the vertical speed reverses while both speed magnitudes grow
      by exactly the increment, each component keeps its direction, the colour
      advances cyclically within the palette and the rally count grows by one. */
  lemma PaddleHit(s: MatchState)
    requires HitsPaddle(s) && 0 <= s.colorIndex < COLOR_COUNT
    ensures var r := Bounce(s);
      Abs(r.speedX) == Abs(s.speedX) + SPEED_INCREMENT &&
      Abs(r.speedY) == Abs(s.speedY) + SPEED_INCREMENT &&
      (r.speedX > 0 <==> s.speedX > 0) &&
      (r.speedY > 0 <==> s.speedY < 0) &&
      r.colorIndex == (if s.colorIndex == COLOR_COUNT - 1 then 0 else s.colorIndex + 1) &&
      0 <= r.colorIndex < COLOR_COUNT &&
      r.hitCount == s.hitCount + 1 &&
      r == s.(speedX := r.speedX, speedY := r.speedY, colorIndex := r.colorIndex, hitCount := r.hitCount)
  {
  }

  /** No paddle overlap, no change. */
  lemma NoHit(s: MatchState)
    requires !HitsPaddle(s)
    ensures Bounce(s) == s
  {
  }

  /** Reaching the top edge: one more point, the ball back at the centre,
      a fresh rally with the horizontal direction chosen at random and the
      vertical direction kept, everything else unchanged. */
  lemma TopEdge(s: MatchState, serveRight: bool)
    requires s.ball.Top() <= 0
    ensures var r := ScoreTop(s, serveRight);
      r.score == s.score + 1 && r.ball.x == CENTRE_X && r.ball.y == CENTRE_Y &&
      r.speedX == (if serveRight then INITIAL_SPEED_X else -INITIAL_SPEED_X) &&
      Abs(r.speedY) == INITIAL_SPEED_Y && (r.speedY > 0 <==> s.speedY > 0) &&
      r.hitCount == 0 &&
      r.lives == s.lives && r.colorIndex == s.colorIndex && r.paused == s.paused &&
      r.bottomPaddle == s.bottomPaddle && r.npcBoard == s.npcBoard &&
      r == s.(score := r.score, ball := r.ball, speedX := r.speedX, speedY := r.speedY, hitCount := r.hitCount) &&
      r.ball.w == s.ball.w && r.ball.h == s.ball.h
  {
  }

  /** Reaching the bottom edge: one life fewer and a fresh rally; the last
      life leaves the ball stationary at the centre, any other serves again
      as at the top edge. Nothing else changes: score, colour, paddles, the
      pause flag, the input mode and the ball's size are as before. */
  lemma BottomEdge(s: MatchState, serveRight: bool)
    requires s.ball.Bottom() >= HEIGHT
    ensures var r := LoseLife(s, serveRight);
      r.lives == s.lives - 1 && r.hitCount == 0 && r.score == s.score &&
      r.ball.x == CENTRE_X && r.ball.y == CENTRE_Y &&
      (r.lives == 0 ==> r.speedX == 0 && r.speedY == 0) &&
      (r.lives != 0 ==>
         r.speedX == ServeSpeedX(serveRight) && Abs(r.speedY) == INITIAL_SPEED_Y &&
         (r.speedY > 0 <==> s.speedY > 0)) &&
      r == s.(lives := r.lives, ball := r.ball, speedX := r.speedX, speedY := r.speedY, hitCount := r.hitCount) &&
      r.ball.w == s.ball.w && r.ball.h == s.ball.h
  {
  }

  /** A frame cannot both score and lose a life: scoring recentres the ball,
      far from the bottom edge. */
  lemma ScoreAndLossExclusive(s: MatchState, serveRight: bool)
    requires s.ball.h == BALL_SIZE && s.ball.Top() <= 0
    ensures LoseLife(ScoreTop(s, serveRight), serveRight) == ScoreTop(s, serveRight)
  {
  }

  /** Once the ball is stationary at the centre it stays there: no wall, no
      paddle and no edge is within reach. */
  lemma StationaryStays(s: MatchState, serveRight: bool)
    requires Shapes(s) && Stationary(s)
    ensures UpdateBall(s, serveRight) == s
  {
    assert ToPixel(10 * CENTRE_X) == CENTRE_X && ToPixel(10 * CENTRE_Y) == CENTRE_Y;
    assert Advance(s) == s;
  }

  /** The part of the invariant that holds during a rally, before the edge
      checks decide about scoring and lives. */
  predicate Rally(s: MatchState) {
    Shapes(s) &&
    0 < s.lives <= MAX_LIVES && 0 <= s.score && 0 <= s.hitCount &&
    0 <= s.colorIndex < COLOR_COUNT &&
    InField(s.npcBoard) &&
    Abs(s.speedX) == INITIAL_SPEED_X + SPEED_INCREMENT * s.hitCount &&
    Abs(s.speedY) == INITIAL_SPEED_Y + SPEED_INCREMENT * s.hitCount
  }

  /** Moving, reflecting and bouncing keep a rally's speed bookkeeping. */
  lemma RallyKept(s: MatchState)
    requires Rally(s)
    ensures Rally(Bounce(ReflectWalls(Advance(s))))
  {
    var w := ReflectWalls(Advance(s));
    assert Rally(w);
    if HitsPaddle(w) {
      PaddleHit(w);
    }
  }

  /** The edge checks turn a rally state into one that keeps the invariant. */
  lemma EdgesInv(s: MatchState, serveRight: bool)
    requires Rally(s)
    ensures Inv(LoseLife(ScoreTop(s, serveRight), serveRight))
  {
    if s.ball.Top() <= 0 {
      ScoreAndLossExclusive(s, serveRight);
      assert Rally(ScoreTop(s, serveRight));
    } else if s.ball.Bottom() >= HEIGHT {
      BottomEdge(s, serveRight);
    }
  }

  /** The ball update keeps the invariant: lives never go negative, game
      over keeps the ball still, the colour stays in the palette and the
      speed magnitudes track the rally's hit count. Score never falls and at
      most one life is lost. */
  lemma UpdateBallInv(s: MatchState, serveRight: bool)
    requires Inv(s)
    ensures Inv(UpdateBall(s, serveRight))
    ensures UpdateBall(s, serveRight).score >= s.score
    ensures s.lives - 1 <= UpdateBall(s, serveRight).lives <= s.lives
  {
    if s.lives == 0 {
      StationaryStays(s, serveRight);
    } else {
      RallyKept(s);
      EdgesInv(Bounce(ReflectWalls(Advance(s))), serveRight);
    }
  }
}
