/** The event branch at the top of every frame: mouse clicks on the three
    buttons, tested in a fixed order, and the ESC / SPACE pause keys. The
    window-close event is not part of this model. */
module Events {
  import opened Geometry
  import opened Match

  datatype Key = Escape | Space | OtherKey

  datatype Event =
    | MouseDown(px: int, py: int)
    | KeyDown(key: Key)
    | OtherEvent

  /** One event. A click is tested against the toggle button, then the
      restart button, then the resume button; the restart click is honoured
      whatever the phase, the resume click only while paused. */
  function ApplyEvent(s: MatchState, e: Event): (r: MatchState)
    ensures r == Reset(s) || r == s.(paused := r.paused, gestureEnabled := r.gestureEnabled)
    ensures r.bottomPaddle == s.bottomPaddle && r.npcBoard == s.npcBoard && r.colorIndex == s.colorIndex
    ensures r.ball.w == s.ball.w && r.ball.h == s.ball.h
  {
    match e
    case MouseDown(px, py) =>
      if TOGGLE_BUTTON.CollidePoint(px, py) then s.(gestureEnabled := !s.gestureEnabled)
      else if RESTART_BUTTON.CollidePoint(px, py) then Reset(s)
      else if RESUME_BUTTON.CollidePoint(px, py) && s.paused then s.(paused := false)
      else s
    case KeyDown(k) =>
      if k == Escape then s.(paused := true)
      else if k == Space then s.(paused := false)
      else s
    case OtherEvent => s
  }

  /** The events of one frame, in the order they were polled. */
  function ApplyEvents(s: MatchState, es: seq<Event>): (r: MatchState)
    ensures r.bottomPaddle == s.bottomPaddle && r.npcBoard == s.npcBoard && r.colorIndex == s.colorIndex
    ensures r.ball.w == s.ball.w && r.ball.h == s.ball.h
    decreases |es|
  {
    if es == [] then s else ApplyEvent(ApplyEvents(s, es[..|es| - 1]), es[|es| - 1])
  }

  /** The clicks that restart the game. */
  predicate IsRestartClick(e: Event) {
    e.MouseDown? && RESTART_BUTTON.CollidePoint(e.px, e.py)
  }

  predicate NoRestart(es: seq<Event>) {
    forall i :: 0 <= i < |es| ==> !IsRestartClick(es[i])
  }

  /** The three buttons do not overlap, so the order of the tests decides
      nothing and every click hits at most one button. */
  lemma ButtonsDisjoint(px: int, py: int)
    ensures !(TOGGLE_BUTTON.CollidePoint(px, py) && RESTART_BUTTON.CollidePoint(px, py))
    ensures !(TOGGLE_BUTTON.CollidePoint(px, py) && RESUME_BUTTON.CollidePoint(px, py))
    ensures !(RESTART_BUTTON.CollidePoint(px, py) && RESUME_BUTTON.CollidePoint(px, py))
  {
  }

  /** ESC pauses, whatever the state, and changes nothing else. */
  lemma EscapePauses(s: MatchState)
    ensures ApplyEvent(s, KeyDown(Escape)) == s.(paused := true)
  {
  }

  /** SPACE resumes, whatever the state, and changes nothing else. */
  lemma SpaceResumes(s: MatchState)
    ensures ApplyEvent(s, KeyDown(Space)) == s.(paused := false)
  {
  }

  /** A click on the resume button clears the pause flag if it was set and
      otherwise does nothing at all. */
  lemma ResumeClick(s: MatchState, px: int, py: int)
    requires RESUME_BUTTON.CollidePoint(px, py)
    ensures ApplyEvent(s, MouseDown(px, py)) == s.(paused := false)
    ensures !s.paused ==> ApplyEvent(s, MouseDown(px, py)) == s
  {
    ButtonsDisjoint(px, py);
  }

  /** A click on the restart button always restarts: while playing, paused
      or after game over alike. */
  lemma RestartClick(s: MatchState, px: int, py: int)
    requires RESTART_BUTTON.CollidePoint(px, py)
    ensures ApplyEvent(s, MouseDown(px, py)) == Reset(s)
  {
    ButtonsDisjoint(px, py);
  }

  /** A click on the toggle button flips the input mode and nothing else,
      even while paused or after game over. */
  lemma ToggleClick(s: MatchState, px: int, py: int)
    requires TOGGLE_BUTTON.CollidePoint(px, py)
    ensures ApplyEvent(s, MouseDown(px, py)) == s.(gestureEnabled := !s.gestureEnabled)
  {
  }

  /** Without a restart click, the events of a frame change at most the pause
      flag and the input mode. */
  lemma {:induction false} EventsOnlyTouchFlags(s: MatchState, es: seq<Event>)
    requires NoRestart(es)
    ensures ApplyEvents(s, es) ==
      s.(paused := ApplyEvents(s, es).paused,
         gestureEnabled := ApplyEvents(s, es).gestureEnabled)
    decreases |es|
  {
    if es != [] {
      var init := es[..|es| - 1];
      assert NoRestart(init) by {
        forall i | 0 <= i < |init| ensures !IsRestartClick(init[i]) {
          assert init[i] == es[i];
        }
      }
      EventsOnlyTouchFlags(s, init);
      assert !IsRestartClick(es[|es| - 1]);
    }
  }

  /** The last pause key or resume command of a frame decides the pause flag:
      a frame whose events end with ESC leaves the game paused. */
  lemma EndsWithEscape(s: MatchState, es: seq<Event>)
    requires es != [] && es[|es| - 1] == KeyDown(Escape)
    ensures ApplyEvents(s, es).paused
  {
  }

  /** Restarting keeps the invariant, and so does every event. */
  lemma {:induction false} EventsInv(s: MatchState, es: seq<Event>)
    requires Inv(s)
    ensures Inv(ApplyEvents(s, es))
    decreases |es|
  {
    if es != [] {
      EventsInv(s, es[..|es| - 1]);
      var t := ApplyEvents(s, es[..|es| - 1]);
      match es[|es| - 1]
      case MouseDown(px, py) =>
        if RESTART_BUTTON.CollidePoint(px, py) { ResetInv(t); }
      case KeyDown(_) =>
      case OtherEvent =>
    }
  }
}
