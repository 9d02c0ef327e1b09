/** The swipe-gesture controller of the discovery deck (the `useSwipe` hook of App.jsx).

    The hook's React state is the record `Gesture`; each event handler is a pure transition
    on it. The hook's chain of timers (300 ms, then 50 ms, then 50 ms) becomes three named
    `Timer` steps: a handler returns the timers it schedules and `FireTimer` runs one of them.
    The window size is the `Viewport` parameter. */
module Swipe {
  import opened Options

  /** SWIPE_THRESHOLD: the distance in pixels a drag must exceed to commit a decision. */
  const Threshold: real := 80.0
  /** The largest opacity the overlay tint ever reaches. */
  const MaxOverlayOpacity: real := 0.7
  /** Displacements up to this many pixels select no tint. */
  const TintDeadZone: real := 10.0
  /** Degrees of card rotation per pixel of horizontal displacement. */
  const RotationPerPixel: real := 0.05

  datatype Point = Point(x: real, y: real)

  const Centre: Point := Point(0.0, 0.0)

  function Abs(r: real): (a: real)
    ensures a >= 0.0 && (a == r || a == -r)
  {
    if r < 0.0 then -r else r
  }

  function Max(a: real, b: real): (m: real)
    ensures m >= a && m >= b && (m == a || m == b)
  {
    if a < b then b else a
  }

  /** The three decisions; the source spells them "like", "pass" and "super". */
  datatype Action = Like | Pass | Super

  /** The card's CSS transition: "transform 0.3s ease-out" or "none". */
  datatype Transition = Animated | Instant

  /** The hook's state: `dragStart`, `dragOffset`, `isDragging` and `transition`. */
  datatype Gesture = Gesture(dragStart: Option<Point>, offset: Point, dragging: bool, transition: Transition)

  /** The state the hook starts in, and the one `resetCardPosition` restores. */
  const Fresh: Gesture := Gesture(None, Centre, false, Animated)

  /** Which of the callbacks `onSwipeLeft`, `onSwipeRight` and `onSwipeUp` the host supplied. */
  datatype Handlers = Handlers(onSwipeLeft: bool, onSwipeRight: bool, onSwipeUp: bool)

  /** `window.innerWidth` and `window.innerHeight`. */
  datatype Viewport = Viewport(width: real, height: real)

  /** The delayed steps of the animate, notify, reset protocol. */
  datatype Timer =
    | NotifyAfterSwipeOut(action: Action)  // 300 ms after triggerAction: run the callback
    | ResetAfterNotify                     // 50 ms later: jump back to the centre
    | RestoreTransition                    // 50 ms later: re-arm the transition

  /** The result of one handler or timer: the new state, the timers it schedules and the
      decisions it delivers to the host. */
  datatype Step = Step(gesture: Gesture, scheduled: seq<Timer>, notified: seq<Action>)

  predicate AtRest(g: Gesture) {
    g.dragStart == None && g.offset == Centre && !g.dragging
  }

  /** `resetCardPosition`: transition on, not dragging, offset at the centre, no start point. */
  function ResetCardPosition(g: Gesture): (r: Gesture)
    ensures AtRest(r) && r.transition == Animated
  {
    g.(transition := Animated, dragging := false, offset := Centre, dragStart := None)
  }

  predicate HasHandler(h: Handlers, a: Action) {
    match a
    case Like => h.onSwipeRight
    case Pass => h.onSwipeLeft
    case Super => h.onSwipeUp
  }

  /** The off-screen point `triggerAction` animates the card to. */
  function SwipeTarget(a: Action, vp: Viewport): (p: Point)
    ensures a == Like ==> p == Point(vp.width, 0.0)
    ensures a == Pass ==> p == Point(-vp.width, 0.0)
    ensures a == Super ==> p.x == 0.0 && p.y * 1.5 == -vp.height
  {
    match a
    case Like => Point(vp.width, 0.0)
    case Pass => Point(-vp.width, 0.0)
    case Super => Point(0.0, -vp.height / 1.5)
  }

  /** The decision policy of `handleDragEnd`: a horizontal displacement beyond the
      threshold decides like or pass and takes precedence; otherwise an upward displacement
      beyond the threshold decides super, but only when an `onSwipeUp` callback exists. */
  function Decide(offset: Point, hasSwipeUp: bool): (d: Option<Action>)
    ensures d == Some(Like) <==> Abs(offset.x) > Threshold && offset.x > 0.0
    ensures d == Some(Pass) <==> offset.x < -Threshold
    ensures d == Some(Super) <==> Abs(offset.x) <= Threshold && offset.y < -Threshold && hasSwipeUp
    ensures d == None <==> Abs(offset.x) <= Threshold && !(offset.y < -Threshold && hasSwipeUp)
  {
    if Abs(offset.x) > Threshold then
      Some(if offset.x > 0.0 then Like else Pass)
    else if offset.y < -Threshold && hasSwipeUp then
      Some(Super)
    else
      None
  }

  /** `triggerAction`: with the transition on and manual dragging stopped, send the card to
      the action's off-screen target, and schedule the callback. */
  function TriggerAction(g: Gesture, a: Action, vp: Viewport): (s: Step)
    ensures s.gesture.offset == SwipeTarget(a, vp) && s.gesture.transition == Animated
    ensures !s.gesture.dragging && s.gesture.dragStart == g.dragStart
    ensures s.scheduled == [NotifyAfterSwipeOut(a)] && s.notified == []
  {
    Step(g.(transition := Animated, dragging := false, offset := SwipeTarget(a, vp)),
         [NotifyAfterSwipeOut(a)], [])
  }

  /** `handleDragStart`: record the press point and track the pointer without animation.
      The source accepts a press in any state; the offset is left as it was. */
  function DragStart(g: Gesture, p: Point): (r: Gesture)
    ensures r.dragging && r.dragStart == Some(p) && r.transition == Instant
    ensures r.offset == g.offset
  {
    g.(dragStart := Some(p), dragging := true, transition := Instant)
  }

  /** `handleDragMove`: while a drag with a recorded start is in progress, the offset is the
      pointer's displacement from that start; otherwise nothing changes. */
  function DragMove(g: Gesture, p: Point): (r: Gesture)
    ensures !g.dragging || g.dragStart.None? ==> r == g
    ensures g.dragging && g.dragStart.Some? ==>
      && r.dragStart == g.dragStart && r.dragging && r.transition == g.transition
      && r.offset.x + g.dragStart.value.x == p.x
      && r.offset.y + g.dragStart.value.y == p.y
  {
    match g.dragStart
    case Some(start) =>
      if g.dragging then g.(offset := Point(p.x - start.x, p.y - start.y)) else g
    case None => g
  }

  /** `handleDragEnd`: ignored unless dragging. Otherwise the drag stops, the start point is
      cleared and the transition turned back on; a committed decision sends the card off
      screen through `TriggerAction`, and anything else snaps it back to the centre. */
  function DragEnd(g: Gesture, h: Handlers, vp: Viewport): (s: Step)
    ensures !g.dragging ==> s == Step(g, [], [])
    ensures g.dragging ==>
      && s.gesture.dragStart == None && !s.gesture.dragging && s.gesture.transition == Animated
      && s.notified == []
    ensures g.dragging && Decide(g.offset, h.onSwipeUp).Some? ==>
      var a := Decide(g.offset, h.onSwipeUp).value;
      s.gesture.offset == SwipeTarget(a, vp) && s.scheduled == [NotifyAfterSwipeOut(a)]
    ensures g.dragging && Decide(g.offset, h.onSwipeUp).None? ==>
      AtRest(s.gesture) && s.scheduled == []
  {
    if !g.dragging then
      Step(g, [], [])
    else
      match Decide(g.offset, h.onSwipeUp)
      case Some(a) =>
        var t := TriggerAction(g.(dragging := false, transition := Animated), a, vp);
        t.(gesture := t.gesture.(dragStart := None))
      case None =>
        var r := ResetCardPosition(g.(dragging := false, transition := Animated));
        Step(r.(dragStart := None), [], [])
  }

  /** One delayed step of the protocol. The callback step delivers the decision exactly once
      when the host supplied the matching callback; the reset step jumps back to the centre
      with the transition off, so that the return is not animated; the last step re-arms the
      transition for the next gesture. */
  function FireTimer(g: Gesture, t: Timer, h: Handlers): (s: Step)
    ensures t.NotifyAfterSwipeOut? ==>
      && s.gesture == g && s.scheduled == [ResetAfterNotify]
      && s.notified == (if HasHandler(h, t.action) then [t.action] else [])
    ensures t == ResetAfterNotify ==>
      AtRest(s.gesture) && s.gesture.transition == Instant
      && s.scheduled == [RestoreTransition] && s.notified == []
    ensures t == RestoreTransition ==>
      s.gesture == g.(transition := Animated) && s.scheduled == [] && s.notified == []
  {
    match t
    case NotifyAfterSwipeOut(a) =>
      Step(g, [ResetAfterNotify], if HasHandler(h, a) then [a] else [])
    case ResetAfterNotify =>
      Step(ResetCardPosition(g).(transition := Instant), [RestoreTransition], [])
    case RestoreTransition =>
      Step(g.(transition := Animated), [], [])
  }

  /** The reset step as the source writes it: it turns the transition off and then calls
      `resetCardPosition`, which turns it back on before the state is rendered. */
  function ResetAfterNotifyAsWritten(g: Gesture): (r: Gesture)
    ensures AtRest(r)
  {
    ResetCardPosition(g.(transition := Instant))
  }

  /** The as-written reset leaves the transition on while the offset jumps from the
      off-screen target back to the centre, so the card visibly slides back. */
  lemma ResetAsWrittenIsAnimated(a: Action, vp: Viewport)
    requires vp.width > 0.0 && vp.height > 0.0
    ensures var g := TriggerAction(Fresh, a, vp).gesture;
      var r := ResetAfterNotifyAsWritten(g);
      g.offset != r.offset && r.transition == Animated
  {
  }

  // ---------------------------------------------------------------- styles

  /** `getCardStyle`. */
  datatype CardStyle = CardStyle(translate: Point, rotation: real, transition: Transition, grabbing: bool)

  /** The card follows the offset, leans by 0.05 degrees per pixel towards the side it is
      dragged to, and shows the grabbing cursor exactly while dragging. */
  function CardStyleOf(g: Gesture): (c: CardStyle)
    ensures c.translate == g.offset && c.transition == g.transition
    ensures c.grabbing <==> g.dragging
    ensures c.rotation > 0.0 <==> g.offset.x > 0.0
    ensures c.rotation == 0.0 <==> g.offset.x == 0.0
    ensures Abs(c.rotation) * 20.0 == Abs(g.offset.x)
  {
    CardStyle(g.offset, g.offset.x * RotationPerPixel, g.transition, g.dragging)
  }

  /** The overlay tint; the source paints LIKE_COLOR, PASS_COLOR, SUPER_LIKE_COLOR or
      "transparent". */
  datatype Tint = Transparent | LikeTint | PassTint | SuperTint

  function TintOf(a: Action): Tint {
    match a
    case Like => LikeTint
    case Pass => PassTint
    case Super => SuperTint
  }

  /** `getOverlayStyle`. */
  datatype Overlay = Overlay(opacity: real, tint: Tint)

  /** The opacity contributed by one axis: the displacement as a fraction of the threshold,
      capped at the maximum opacity. */
  function AxisOpacity(d: real): (o: real)
    ensures 0.0 <= o <= MaxOverlayOpacity
    ensures o * Threshold <= Abs(d)
    ensures o == MaxOverlayOpacity || o * Threshold == Abs(d)
  {
    var ratio := Abs(d) / Threshold;
    if ratio < MaxOverlayOpacity then ratio else MaxOverlayOpacity
  }

  /** The overlay of a displacement: the super tint when the drag is mostly vertical and
      upward beyond the dead zone; otherwise like or pass when the drag is right or left of
      the dead zone; otherwise transparent. A tinted overlay takes the opacity of the axis
      that chose the tint, a transparent one the larger of the two. */
  function OverlayOf(offset: Point): (o: Overlay)
    ensures o.tint == SuperTint <==> Abs(offset.y) > Abs(offset.x) && offset.y < -TintDeadZone
    ensures o.tint == LikeTint <==>
      !(Abs(offset.y) > Abs(offset.x) && offset.y < -TintDeadZone) && offset.x > TintDeadZone
    ensures o.tint == PassTint <==>
      !(Abs(offset.y) > Abs(offset.x) && offset.y < -TintDeadZone) && offset.x < -TintDeadZone
    ensures o.tint == SuperTint ==> o.opacity == AxisOpacity(offset.y)
    ensures o.tint == LikeTint || o.tint == PassTint ==> o.opacity == AxisOpacity(offset.x)
    ensures o.tint == Transparent ==> o.opacity == Max(AxisOpacity(offset.x), AxisOpacity(offset.y))
    ensures 0.0 <= o.opacity <= MaxOverlayOpacity
  {
    var opacityX := AxisOpacity(offset.x);
    var opacityY := AxisOpacity(offset.y);
    if Abs(offset.y) > Abs(offset.x) && offset.y < -TintDeadZone then
      Overlay(opacityY, SuperTint)
    else if offset.x > TintDeadZone then
      Overlay(opacityX, LikeTint)
    else if offset.x < -TintDeadZone then
      Overlay(opacityX, PassTint)
    else
      Overlay(Max(opacityX, opacityY), Transparent)
  }

  /** The opacity of an axis grows with the displacement and stays constant once it is
      capped. */
  lemma AxisOpacityMonotone(d: real, e: real)
    requires Abs(d) <= Abs(e)
    ensures AxisOpacity(d) <= AxisOpacity(e)
    ensures Abs(e) <= Threshold * MaxOverlayOpacity ==> AxisOpacity(e) * Threshold == Abs(e)
  {
  }

  /** The tilt agrees with the decision: a drag the policy would like leans right, one it
      would pass leans left, and one it would super-like leans no more than 4 degrees. A
      triggered action shows the card at its target, upright when it flies up. */
  lemma TiltAgreesWithDecision(g: Gesture, hasSwipeUp: bool, a: Action, vp: Viewport)
    ensures Decide(g.offset, hasSwipeUp) == Some(Like) ==> CardStyleOf(g).rotation > 0.0
    ensures Decide(g.offset, hasSwipeUp) == Some(Pass) ==> CardStyleOf(g).rotation < 0.0
    ensures Decide(g.offset, hasSwipeUp) == Some(Super) ==> Abs(CardStyleOf(g).rotation) <= Threshold * RotationPerPixel
    ensures CardStyleOf(TriggerAction(g, a, vp).gesture).translate == SwipeTarget(a, vp)
    ensures CardStyleOf(TriggerAction(g, Super, vp).gesture).rotation == 0.0
  {
  }

  /** Mirroring a drag left to right swaps the like and pass tints and keeps the opacity. */
  lemma OverlayMirror(offset: Point)
    ensures var o := OverlayOf(offset);
      var m := OverlayOf(Point(-offset.x, offset.y));
      && m.opacity == o.opacity
      && (o.tint == LikeTint <==> m.tint == PassTint)
      && (o.tint == SuperTint <==> m.tint == SuperTint)
      && (o.tint == Transparent <==> m.tint == Transparent)
  {
  }

  /** The off-screen target of a triggered action is itself a displacement that the drag
      policy maps to the same action and that the overlay tints in that action's colour,
      as long as the window is larger than the threshold. */
  lemma TargetAgreesWithPolicy(a: Action, vp: Viewport)
    requires vp.width > Threshold && vp.height > Threshold * 1.5
    ensures Decide(SwipeTarget(a, vp), true) == Some(a)
    ensures OverlayOf(SwipeTarget(a, vp)).tint == TintOf(a)
    ensures OverlayOf(SwipeTarget(a, vp)).opacity == MaxOverlayOpacity
  {
  }
}
