/** Whole gestures on the swipe controller: host events and elapsed timers applied in
    order to the hook's state and a first-in first-out queue of pending timers, collecting
    the decisions delivered to the host. The pending delays of the source are all fixed, so
    for one gesture at a time the queue order is the order in which they fire. */
module SwipeRun {
  import opened Options
  import opened Swipe

  /** Pointer and touch events (mouse leave and touch cancel arrive as `PointerUp`), the
      action buttons, and the moment the earliest pending timer fires. */
  datatype Event =
    | PointerDown(p: Point)
    | PointerMove(p: Point)
    | PointerUp
    | ButtonPress(a: Action)
    | TimerElapsed

  datatype Controller = Controller(gesture: Gesture, timers: seq<Timer>)

  /** The controller before any gesture: the fresh hook state and nothing pending. */
  const Idle: Controller := Controller(Fresh, [])

  datatype Outcome = Outcome(controller: Controller, notified: seq<Action>)

  function Apply(c: Controller, s: Step, rest: seq<Timer>): Outcome {
    Outcome(Controller(s.gesture, rest + s.scheduled), s.notified)
  }

  /** One event. */
  function StepOn(c: Controller, e: Event, h: Handlers, vp: Viewport): (o: Outcome)
    ensures e.PointerMove? && !c.gesture.dragging ==> o == Outcome(c, [])
    ensures e.TimerElapsed? && c.timers == [] ==> o == Outcome(c, [])
    ensures !e.TimerElapsed? ==> o.notified == []
  {
    match e
    case PointerDown(p) => Outcome(c.(gesture := DragStart(c.gesture, p)), [])
    case PointerMove(p) => Outcome(c.(gesture := DragMove(c.gesture, p)), [])
    case PointerUp => Apply(c, DragEnd(c.gesture, h, vp), c.timers)
    case ButtonPress(a) => Apply(c, TriggerAction(c.gesture, a, vp), c.timers)
    case TimerElapsed =>
      if c.timers == [] then Outcome(c, [])
      else Apply(c, FireTimer(c.gesture, c.timers[0], h), c.timers[1..])
  }

  /** A sequence of events fed through a step function, in order: the controller is
      threaded through and the decisions are collected. */
  function RunWith(step: (Controller, Event) -> Outcome, c: Controller, es: seq<Event>): Outcome
    decreases |es|
  {
    if es == [] then Outcome(c, [])
    else
      var first := step(c, es[0]);
      var rest := RunWith(step, first.controller, es[1..]);
      Outcome(rest.controller, first.notified + rest.notified)
  }

  /** A sequence of events on the controller, in order. */
  function Run(c: Controller, es: seq<Event>, h: Handlers, vp: Viewport): Outcome {
    RunWith((c': Controller, e: Event) => StepOn(c', e, h, vp), c, es)
  }

  /** Pointer moves to each of the given points. */
  function Moves(ps: seq<Point>): (es: seq<Event>)
    ensures |es| == |ps|
    ensures forall i :: 0 <= i < |ps| ==> es[i] == PointerMove(ps[i])
  {
    if ps == [] then [] else [PointerMove(ps[0])] + Moves(ps[1..])
  }

  /** The three timer firings that finish a committed decision. */
  const Settle: seq<Event> := [TimerElapsed, TimerElapsed, TimerElapsed]

  /** The offset after a press at `p` and then moves through `ps`, starting from `start`. */
  function OffsetAfter(start: Point, p: Point, ps: seq<Point>): Point {
    if ps == [] then start else Point(ps[|ps| - 1].x - p.x, ps[|ps| - 1].y - p.y)
  }

  /** Running two event sequences one after the other is running their concatenation,
      whatever the step function. */
  lemma {:induction false} RunWithAppend(step: (Controller, Event) -> Outcome, c: Controller, a: seq<Event>, b: seq<Event>)
    ensures var ra := RunWith(step, c, a);
      var rb := RunWith(step, ra.controller, b);
      RunWith(step, c, a + b) == Outcome(rb.controller, ra.notified + rb.notified)
    decreases |a|
  {
    if a == [] {
      assert a + b == b;
    } else {
      assert (a + b)[0] == a[0];
      assert (a + b)[1..] == a[1..] + b;
      var first := step(c, a[0]);
      RunWithAppend(step, first.controller, a[1..], b);
      var ra' := RunWith(step, first.controller, a[1..]);
      var rb := RunWith(step, ra'.controller, b);
      assert first.notified + (ra'.notified + rb.notified)
        == (first.notified + ra'.notified) + rb.notified;
    }
  }

  /** Running two event sequences on the controller one after the other is running their
      concatenation. */
  lemma RunAppend(c: Controller, a: seq<Event>, b: seq<Event>, h: Handlers, vp: Viewport)
    ensures var ra := Run(c, a, h, vp);
      var rb := Run(ra.controller, b, h, vp);
      Run(c, a + b, h, vp) == Outcome(rb.controller, ra.notified + rb.notified)
  {
    RunWithAppend((c': Controller, e: Event) => StepOn(c', e, h, vp), c, a, b);
  }

  /** The first event of a non-empty run is handled first. */
  lemma RunFirst(c: Controller, es: seq<Event>, h: Handlers, vp: Viewport)
    requires es != []
    ensures var first := StepOn(c, es[0], h, vp);
      var rest := Run(first.controller, es[1..], h, vp);
      Run(c, es, h, vp) == Outcome(rest.controller, first.notified + rest.notified)
  {
  }

  /** Once a decision is scheduled, the three timers deliver it exactly once (when its
      callback exists) and leave the controller idle, wherever the card was. */
  lemma SettleDelivers(g: Gesture, a: Action, h: Handlers, vp: Viewport)
    ensures Run(Controller(g, [NotifyAfterSwipeOut(a)]), Settle, h, vp)
      == Outcome(Idle, if HasHandler(h, a) then [a] else [])
  {
    var c0 := Controller(g, [NotifyAfterSwipeOut(a)]);
    var c1 := Controller(g, [ResetAfterNotify]);
    var c2 := Controller(Gesture(None, Centre, false, Instant), [RestoreTransition]);
    assert StepOn(c0, TimerElapsed, h, vp) == Outcome(c1, if HasHandler(h, a) then [a] else []);
    assert StepOn(c1, TimerElapsed, h, vp) == Outcome(c2, []);
    assert StepOn(c2, TimerElapsed, h, vp) == Outcome(Idle, []);
    RunFirst(c0, Settle, h, vp);
    RunFirst(c1, Settle[1..], h, vp);
    RunFirst(c2, Settle[2..], h, vp);
    assert Settle[1..][1..] == Settle[2..] && Settle[2..][1..] == [];
  }

  /** Stray moves are harmless: when no drag is in progress, any number of pointer moves
      leaves the controller unchanged and delivers nothing. */
  lemma {:induction false} MovesWithoutDragAreIgnored(c: Controller, ps: seq<Point>, h: Handlers, vp: Viewport)
    requires !c.gesture.dragging
    ensures Run(c, Moves(ps), h, vp) == Outcome(c, [])
    decreases |ps|
  {
    if ps != [] {
      assert Moves(ps)[1..] == Moves(ps[1..]);
      MovesWithoutDragAreIgnored(c, ps[1..], h, vp);
    }
  }

  /** During a drag every move sets the offset to the displacement from the press point,
      so after the moves the offset is the last point minus the press point. */
  lemma {:induction false} MovesTrackPointer(g: Gesture, ts: seq<Timer>, p: Point, ps: seq<Point>, h: Handlers, vp: Viewport)
    requires g.dragging && g.dragStart == Some(p)
    ensures Run(Controller(g, ts), Moves(ps), h, vp)
      == Outcome(Controller(g.(offset := OffsetAfter(g.offset, p, ps)), ts), [])
    decreases |ps|
  {
    if ps != [] {
      assert Moves(ps)[1..] == Moves(ps[1..]);
      var g1 := DragMove(g, ps[0]);
      MovesTrackPointer(g1, ts, p, ps[1..], h, vp);
      if |ps| > 1 {
        assert ps[1..][|ps[1..]| - 1] == ps[|ps| - 1];
      }
    }
  }

  /** A press followed by moves leaves a drag in progress whose offset is the displacement
      of the last point from the press point; nothing is delivered. */
  lemma DragInProgress(c: Controller, p: Point, ps: seq<Point>, h: Handlers, vp: Viewport)
    ensures var g := DragStart(c.gesture, p);
      Run(c, [PointerDown(p)] + Moves(ps), h, vp)
        == Outcome(Controller(g.(offset := OffsetAfter(c.gesture.offset, p, ps)), c.timers), [])
  {
    var g := DragStart(c.gesture, p);
    RunAppend(c, [PointerDown(p)], Moves(ps), h, vp);
    MovesTrackPointer(g, c.timers, p, ps, h, vp);
  }

  /** A committed gesture from rest: press, moves, release beyond the threshold and the
      three timers. The decision given by the policy is delivered exactly once (when its
      callback exists), and the controller ends idle again with nothing pending. */
  lemma CommittedGestureNotifiesOnce(p: Point, ps: seq<Point>, h: Handlers, vp: Viewport)
    requires Decide(OffsetAfter(Centre, p, ps), h.onSwipeUp).Some?
    ensures var a := Decide(OffsetAfter(Centre, p, ps), h.onSwipeUp).value;
      Run(Idle, [PointerDown(p)] + Moves(ps) + [PointerUp] + Settle, h, vp)
        == Outcome(Idle, if HasHandler(h, a) then [a] else [])
  {
    var a := Decide(OffsetAfter(Centre, p, ps), h.onSwipeUp).value;
    var drag := [PointerDown(p)] + Moves(ps);
    DragInProgress(Idle, p, ps, h, vp);
    var mid := Run(Idle, drag, h, vp).controller;
    RunAppend(Idle, drag, [PointerUp] + Settle, h, vp);
    assert drag + ([PointerUp] + Settle) == [PointerDown(p)] + Moves(ps) + [PointerUp] + Settle;
    var up := StepOn(mid, PointerUp, h, vp);
    assert up == Outcome(Controller(up.controller.gesture, [NotifyAfterSwipeOut(a)]), []);
    RunFirst(mid, [PointerUp] + Settle, h, vp);
    assert ([PointerUp] + Settle)[1..] == Settle;
    SettleDelivers(up.controller.gesture, a, h, vp);
  }

  /** A released gesture below the threshold snaps back: the controller is idle again at
      once, no timer is pending and no decision is delivered. */
  lemma SubThresholdGestureSnapsBack(p: Point, ps: seq<Point>, h: Handlers, vp: Viewport)
    requires Decide(OffsetAfter(Centre, p, ps), h.onSwipeUp).None?
    ensures Run(Idle, [PointerDown(p)] + Moves(ps) + [PointerUp], h, vp) == Outcome(Idle, [])
  {
    var drag := [PointerDown(p)] + Moves(ps);
    DragInProgress(Idle, p, ps, h, vp);
    RunAppend(Idle, drag, [PointerUp], h, vp);
  }

  /** An action button pressed at rest delivers its decision exactly once after the
      animation and returns the controller to idle. */
  lemma ButtonNotifiesOnce(a: Action, h: Handlers, vp: Viewport)
    ensures Run(Idle, [ButtonPress(a)] + Settle, h, vp)
      == Outcome(Idle, if HasHandler(h, a) then [a] else [])
  {
    var press := StepOn(Idle, ButtonPress(a), h, vp);
    RunFirst(Idle, [ButtonPress(a)] + Settle, h, vp);
    assert ([ButtonPress(a)] + Settle)[1..] == Settle;
    SettleDelivers(press.controller.gesture, a, h, vp);
  }

  /** Press at (100, 200), move to (200, 200), release: like is delivered once. */
  lemma DragRightScenario(vp: Viewport)
    ensures var h := Handlers(true, true, true);
      Run(Idle, [PointerDown(Point(100.0, 200.0)), PointerMove(Point(200.0, 200.0)), PointerUp] + Settle, h, vp)
        == Outcome(Idle, [Like])
  {
    var h := Handlers(true, true, true);
    var p := Point(100.0, 200.0);
    var ps := [Point(200.0, 200.0)];
    CommittedGestureNotifiesOnce(p, ps, h, vp);
    assert [PointerDown(p)] + Moves(ps) + [PointerUp] + Settle
      == [PointerDown(Point(100.0, 200.0)), PointerMove(Point(200.0, 200.0)), PointerUp] + Settle;
  }

  /** Press at (100, 200), move to (130, 200), release: the card snaps back, nothing is
      delivered. */
  lemma ShortDragScenario(vp: Viewport)
    ensures var h := Handlers(true, true, true);
      Run(Idle, [PointerDown(Point(100.0, 200.0)), PointerMove(Point(130.0, 200.0)), PointerUp], h, vp)
        == Outcome(Idle, [])
  {
    var h := Handlers(true, true, true);
    var p := Point(100.0, 200.0);
    var ps := [Point(130.0, 200.0)];
    SubThresholdGestureSnapsBack(p, ps, h, vp);
    assert [PointerDown(p)] + Moves(ps) + [PointerUp]
      == [PointerDown(Point(100.0, 200.0)), PointerMove(Point(130.0, 200.0)), PointerUp];
  }
}
