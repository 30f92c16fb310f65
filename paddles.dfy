/** The paddle part of a frame: the player's paddle at the bottom, driven by
    the arrow keys or by a hand-position sample, and the opponent ("NPC")
    board at the top, which follows the ball. */
module Paddles {
  import opened Geometry
  import opened Match

  /** The held state of the two arrow keys. */
  datatype Keys = Keys(left: bool, right: bool)

  /** First keyboard pass: left and right are applied independently. */
  function KeyboardStep(r: Rect, keys: Keys): (r': Rect)
    ensures r'.CenterX() ==
      r.CenterX() - (if keys.left then PADDLE_SPEED else 0) + (if keys.right then PADDLE_SPEED else 0)
    ensures r'.y == r.y && r'.w == r.w && r'.h == r.h
  {
    var a := if keys.left then r.WithCenterX(r.CenterX() - PADDLE_SPEED) else r;
    if keys.right then a.WithCenterX(a.CenterX() + PADDLE_SPEED) else a
  }

  /** The opponent board moves its centre toward the ball's centre by the
      lesser of its speed and the remaining distance: it never passes the
      ball and never gets farther from it. */
  function Track(npc: Rect, target: int): (r: Rect)
    ensures r.y == npc.y && r.w == npc.w && r.h == npc.h
    ensures Abs(r.CenterX() - npc.CenterX()) == Min(PADDLE_SPEED, Abs(target - npc.CenterX()))
    ensures npc.CenterX() <= r.CenterX() <= target || target <= r.CenterX() <= npc.CenterX()
  {
    var c := npc.CenterX();
    if target < c then npc.WithCenterX(c - Min(PADDLE_SPEED, c - target))
    else if target > c then npc.WithCenterX(c + Min(PADDLE_SPEED, target - c))
    else npc
  }

  /** Pushes a rectangle back over the left edge, or else over the right edge,
      of the playfield. One that fits is then inside the field, and one that
      was inside is left alone. */
  function Clamp(r: Rect): (r': Rect)
    ensures r'.y == r.y && r'.w == r.w && r'.h == r.h
    ensures 0 <= r.w <= WIDTH ==> InField(r')
    ensures InField(r) ==> r' == r
  {
    if r.Left() < 0 then r.WithLeft(0)
    else if r.Right() > WIDTH then r.WithRight(WIDTH)
    else r
  }

  /** The second pass after the clamps: a hand sample in gesture mode sets the
      centre outright; otherwise one key is applied again, left first. */
  function FinalMove(r: Rect, gestureEnabled: bool, sample: Option<int>, keys: Keys): (r': Rect)
    ensures r'.y == r.y && r'.w == r.w && r'.h == r.h
    ensures gestureEnabled && sample.Some? ==> r'.CenterX() == sample.value
    ensures !(gestureEnabled && sample.Some?) ==>
      r'.CenterX() == r.CenterX() + (if keys.left then -PADDLE_SPEED else if keys.right then PADDLE_SPEED else 0)
  {
    if gestureEnabled && sample.Some? then r.WithCenterX(sample.value)
    else if keys.left then r.WithCenterX(r.CenterX() - PADDLE_SPEED)
    else if keys.right then r.WithCenterX(r.CenterX() + PADDLE_SPEED)
    else r
  }

  /** Both paddles for one unpaused frame. `hand` is what the hand detector
      reports this frame; it is consulted only in gesture mode. */
  function UpdatePaddles(s: MatchState, keys: Keys, hand: Option<int>): (r: MatchState)
    ensures r == s.(bottomPaddle := r.bottomPaddle, npcBoard := r.npcBoard)
    ensures r.bottomPaddle.y == s.bottomPaddle.y && r.bottomPaddle.w == s.bottomPaddle.w && r.bottomPaddle.h == s.bottomPaddle.h
    ensures r.npcBoard.y == s.npcBoard.y && r.npcBoard.w == s.npcBoard.w && r.npcBoard.h == s.npcBoard.h
  {
    var sample := if s.gestureEnabled then hand else None;
    var bottom := KeyboardStep(s.bottomPaddle, keys);
    var npc := Track(s.npcBoard, s.ball.CenterX());
    var bottom' := Clamp(bottom);
    var npc' := Clamp(npc);
    s.(bottomPaddle := FinalMove(bottom', s.gestureEnabled, sample, keys), npcBoard := npc')
  }

  /** Reference table of the player paddle's horizontal displacement per frame
      in keyboard mode, away from the walls: one step per pass with a single
      key held, and with both keys held the passes cancel in the first pass
      and only left is applied in the second. */
  function KeyDelta(keys: Keys): int {
    if keys.left && keys.right then -PADDLE_SPEED
    else if keys.left then -2 * PADDLE_SPEED
    else if keys.right then 2 * PADDLE_SPEED
    else 0
  }

  /** Keyboard mode away from the walls: the paddle moves by `KeyDelta`
      (-10 for left, +10 for right, -5 for both) and nothing else about it changes. */
  lemma KeyboardDisplacement(s: MatchState, keys: Keys, hand: Option<int>)
    requires !(s.gestureEnabled && hand.Some?)
    requires PADDLE_SPEED <= s.bottomPaddle.Left() && s.bottomPaddle.Right() <= WIDTH - PADDLE_SPEED
    ensures UpdatePaddles(s, keys, hand).bottomPaddle == s.bottomPaddle.WithLeft(s.bottomPaddle.x + KeyDelta(keys))
  {
    var b := KeyboardStep(s.bottomPaddle, keys);
    assert InField(b);
    var b' := FinalMove(b, s.gestureEnabled, if s.gestureEnabled then hand else None, keys);
    assert b'.x == s.bottomPaddle.x + KeyDelta(keys);
  }

  /** Gesture mode with a sample: the paddle's centre becomes the sample,
      whatever keys are held and wherever the paddle was. */
  lemma GestureOverrides(s: MatchState, keys: Keys, h: int)
    requires s.gestureEnabled
    ensures UpdatePaddles(s, keys, Some(h)).bottomPaddle.CenterX() == h
    ensures UpdatePaddles(s, keys, Some(h)).bottomPaddle == UpdatePaddles(s, Keys(false, false), Some(h)).bottomPaddle
  {
  }

  /** Without gesture mode a hand sample is ignored. */
  lemma SampleIgnoredWithoutGesture(s: MatchState, keys: Keys, hand: Option<int>)
    requires !s.gestureEnabled
    ensures UpdatePaddles(s, keys, hand) == UpdatePaddles(s, keys, None)
  {
  }

  /** After the clamps the opponent board is inside the field; the player's
      paddle in keyboard mode may end up to one step outside it, because its
      second move comes after its clamp. Neither paddle changes shape or height. */
  lemma PaddleBounds(s: MatchState, keys: Keys, hand: Option<int>)
    requires Shapes(s)
    ensures Shapes(UpdatePaddles(s, keys, hand))
    ensures InField(UpdatePaddles(s, keys, hand).npcBoard)
    ensures !(s.gestureEnabled && hand.Some?) ==>
      -PADDLE_SPEED <= UpdatePaddles(s, keys, hand).bottomPaddle.Left() &&
      UpdatePaddles(s, keys, hand).bottomPaddle.Right() <= WIDTH + PADDLE_SPEED
  {
  }

  /** The second move can push the player's paddle out again: from the left
      wall with the left key held it ends five pixels beyond the wall. */
  lemma SecondMoveLeavesField()
    ensures var s := Initial().(bottomPaddle := Initial().bottomPaddle.WithLeft(0));
      InField(s.bottomPaddle) &&
      UpdatePaddles(s, Keys(true, false), None).bottomPaddle.Left() == -PADDLE_SPEED
  {
    var p := Initial().bottomPaddle.WithLeft(0);
    assert p == Rect(0, BOTTOM_PADDLE_Y, PADDLE_WIDTH, PADDLE_HEIGHT);
    var b := KeyboardStep(p, Keys(true, false));
    assert b == Rect(-PADDLE_SPEED, BOTTOM_PADDLE_Y, PADDLE_WIDTH, PADDLE_HEIGHT);
    assert Clamp(b) == p;
  }

  /** Over a whole frame's paddle update the opponent board, starting inside
      the field, never passes the ball's centre and never gets farther from it,
      even when the clamp moves it back. */
  lemma NpcApproachesBall(s: MatchState, keys: Keys, hand: Option<int>)
    requires InField(s.npcBoard) && s.npcBoard.w == PADDLE_WIDTH
    ensures var c := s.npcBoard.CenterX();
      var c' := UpdatePaddles(s, keys, hand).npcBoard.CenterX();
      var b := s.ball.CenterX();
      (c <= c' <= b || b <= c' <= c) && Abs(b - c') <= Abs(b - c)
  {
    var t := Track(s.npcBoard, s.ball.CenterX());
    var n := Clamp(t);
    assert n.CenterX() == t.CenterX() || n.x == 0 || n.x == WIDTH - PADDLE_WIDTH;
  }
}
