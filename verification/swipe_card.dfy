/** The touch-driven card of src/components/discovery/SwipeCard.tsx: while a touch is held
    the card's offset is the touch point relative to the centre of the card's bounding box,
    and on release a drag beyond 100 pixels sideways calls the like or pass callback before
    the card snaps back. The bounding box is measured from the rendered card at each move,
    and the touch position comes from the event; both are parameters. */
module SwipeCard {
  import opened Options
  import Swipe

  /** The release distance, in pixels, beyond which a horizontal drag commits. */
  const CommitDistance: real := 100.0

  /** The horizontal distance beyond which a direction badge becomes opaque. */
  const BadgeDistance: real := 50.0

  /** Degrees of rotation per pixel of horizontal offset. */
  const TiltPerPixel: real := 0.1

  datatype Offset = Offset(x: real, y: real)

  /** `dragOffset` and `isDragging`. */
  datatype Card = Card(offset: Offset, dragging: bool)

  const Resting: Card := Card(Offset(0.0, 0.0), false)

  /** The bounding box of the card element on screen. */
  datatype Rect = Rect(left: real, top: real, width: real, height: real)

  /** The two optional callbacks, called as `onLike?.()` and `onPass?.()`. */
  datatype Callbacks = Callbacks(hasLike: bool, hasPass: bool)

  datatype Verdict = Liked | Passed

  /** `handleTouchStart`: the drag begins; the offset is untouched. */
  function TouchStart(c: Card): (r: Card)
    ensures r.dragging && r.offset == c.offset
  {
    c.(dragging := true)
  }

  /** `handleTouchMove`: ignored unless dragging; otherwise the offset becomes the touch
      point relative to the centre of the card's bounding box, so that a touch on the centre
      gives the zero offset. */
  function TouchMove(c: Card, box: Rect, touchX: real, touchY: real): (r: Card)
    ensures r.dragging == c.dragging
    ensures !c.dragging ==> r == c
    ensures c.dragging ==>
      && r.offset.x + box.left + box.width / 2.0 == touchX
      && r.offset.y + box.top + box.height / 2.0 == touchY
  {
    if !c.dragging then c
    else
      var centreX := box.left + box.width / 2.0;
      var centreY := box.top + box.height / 2.0;
      c.(offset := Offset(touchX - centreX, touchY - centreY))
  }

  /** The callback a release calls: like beyond 100 pixels to the right, pass beyond 100
      pixels to the left, none otherwise or when the callback is missing. */
  function Release(offset: Offset, cb: Callbacks): (v: Option<Verdict>)
    ensures v == Some(Liked) <==> offset.x > CommitDistance && cb.hasLike
    ensures v == Some(Passed) <==> offset.x < -CommitDistance && cb.hasPass
  {
    if Swipe.Abs(offset.x) > CommitDistance then
      if offset.x > 0.0 then (if cb.hasLike then Some(Liked) else None)
      else (if cb.hasPass then Some(Passed) else None)
    else None
  }

  /** `handleTouchEnd`: the verdict of the offset, whether or not a drag was in progress,
      then the card returns to rest. */
  function TouchEnd(c: Card, cb: Callbacks): (r: (Card, Option<Verdict>))
    ensures r.0 == Resting
    ensures r.1 == Release(c.offset, cb)
  {
    (Resting, Release(c.offset, cb))
  }

  /** The `transform` and scale class of the card. */
  datatype Transform = Transform(dx: real, dy: real, degrees: real, enlarged: bool)

  function TransformOf(c: Card): (t: Transform)
    ensures t.dx == c.offset.x && t.dy == c.offset.y
    ensures t.degrees * 10.0 == c.offset.x
    ensures t.enlarged <==> c.dragging
  {
    Transform(c.offset.x, c.offset.y, c.offset.x * TiltPerPixel, c.dragging)
  }

  /** Which direction badge is opaque. The badges exist only while dragging. */
  datatype Badges = Badges(like: bool, pass: bool)

  function BadgesOf(c: Card): (b: Badges)
    ensures b.like <==> c.dragging && c.offset.x > BadgeDistance
    ensures b.pass <==> c.dragging && c.offset.x < -BadgeDistance
    ensures !(b.like && b.pass)
  {
    if c.dragging then Badges(c.offset.x > BadgeDistance, c.offset.x < -BadgeDistance)
    else Badges(false, false)
  }

  /** A badge is a warning before the commit: while dragging, a release that would like or
      pass the profile is always preceded by the matching opaque badge, and the tilt leans
      the same way. */
  lemma BadgeAnnouncesVerdict(c: Card, cb: Callbacks)
    requires c.dragging
    ensures Release(c.offset, cb) == Some(Liked) ==> BadgesOf(c).like && TransformOf(c).degrees > 0.0
    ensures Release(c.offset, cb) == Some(Passed) ==> BadgesOf(c).pass && TransformOf(c).degrees < 0.0
  {
  }

  // ---------------------------------------------------------- whole touches

  /** The touch points of one gesture's moves. */
  datatype TouchPoint = TouchPoint(x: real, y: real)

  /** The centre of a box, the point `handleTouchMove` measures from. */
  function Centre(box: Rect): (o: Offset)
    ensures o.x == box.left + box.width / 2.0 && o.y == box.top + box.height / 2.0
  {
    Offset(box.left + box.width / 2.0, box.top + box.height / 2.0)
  }

  /** A move as the source handles it: the touch point with the bounding box of the card
      measured at that moment. The card carries its own offset as a transform, so the box
      moves with the card. */
  datatype MeasuredTouch = MeasuredTouch(x: real, y: real, box: Rect)

  function MoveAllMeasured(c: Card, ms: seq<MeasuredTouch>): (r: Card)
    ensures r.dragging == c.dragging
    ensures !c.dragging || ms == [] ==> r == c
    ensures c.dragging && ms != [] ==>
      && r.offset.x + Centre(ms[|ms| - 1].box).x == ms[|ms| - 1].x
      && r.offset.y + Centre(ms[|ms| - 1].box).y == ms[|ms| - 1].y
    decreases |ms|
  {
    if ms == [] then c
    else MoveAllMeasured(TouchMove(c, ms[0].box, ms[0].x, ms[0].y), ms[1..])
  }

  /** A whole touch as written, from rest: the card ends at rest, and the callback is
      decided by where the last touch lies relative to the centre of the box measured at
      that last move. */
  lemma TouchGestureMeasured(ms: seq<MeasuredTouch>, cb: Callbacks)
    requires ms != []
    ensures var r := TouchEnd(MoveAllMeasured(TouchStart(Resting), ms), cb);
      var x := ms[|ms| - 1].x - Centre(ms[|ms| - 1].box).x;
      && r.0 == Resting
      && (r.1 == Some(Liked) <==> x > CommitDistance && cb.hasLike)
      && (r.1 == Some(Passed) <==> x < -CommitDistance && cb.hasPass)
  {
    var moved := MoveAllMeasured(TouchStart(Resting), ms);
    assert moved.offset.x == ms[|ms| - 1].x - Centre(ms[|ms| - 1].box).x;
  }

  /** The card's box once its 200 ms transition has settled: the resting box moved by the
      offset. The tilt and the 2% enlargement turn about the centre, so they move the edges
      of the bounding box but not the centre, which is all a move reads. */
  function Settled(rest: Rect, o: Offset): (box: Rect)
    ensures Centre(box).x == Centre(rest).x + o.x && Centre(box).y == Centre(rest).y + o.y
  {
    Rect(rest.left + o.x, rest.top + o.y, rest.width, rest.height)
  }

  /** Moves as written when the card has settled before each one: every move measures from
      the centre of the card where it now is, not where it rests. */
  function MoveAllSettled(c: Card, rest: Rect, ps: seq<TouchPoint>): (r: Card)
    ensures r.dragging == c.dragging
    ensures !c.dragging || ps == [] ==> r == c
    ensures c.dragging && |ps| == 1 ==>
      r.offset == Offset(ps[0].x - Centre(rest).x - c.offset.x, ps[0].y - Centre(rest).y - c.offset.y)
    decreases |ps|
  {
    if ps == [] then c
    else
      var box := Settled(rest, c.offset);
      MoveAllSettled(TouchMove(c, box, ps[0].x, ps[0].y), rest, ps[1..])
  }

  /** Measured from the card's current centre, the offset of a settled move is the
      finger's distance from the resting centre less the offset already shown. */
  lemma SettledMoveSubtractsOffset(c: Card, rest: Rect, p: TouchPoint)
    requires c.dragging
    ensures TouchMove(c, Settled(rest, c.offset), p.x, p.y).offset ==
      Offset(p.x - Centre(rest).x - c.offset.x, p.y - Centre(rest).y - c.offset.y)
  {
  }

  /** A settled run is the earlier run followed by one more move, measured from the centre
      of the card where that run left it. */
  lemma {:induction false} MoveAllSettledSnoc(c: Card, rest: Rect, ps: seq<TouchPoint>, p: TouchPoint)
    ensures var before := MoveAllSettled(c, rest, ps);
      MoveAllSettled(c, rest, ps + [p]) == TouchMove(before, Settled(rest, before.offset), p.x, p.y)
    decreases |ps|
  {
    if ps == [] {
      assert ps + [p] == [p];
      var c1 := TouchMove(c, Settled(rest, c.offset), p.x, p.y);
      assert MoveAllSettled(c, rest, [p]) == MoveAllSettled(c1, rest, [p][1..]);
      assert [p][1..] == [];
    } else {
      var c1 := TouchMove(c, Settled(rest, c.offset), ps[0].x, ps[0].y);
      assert (ps + [p])[0] == ps[0];
      assert (ps + [p])[1..] == ps[1..] + [p];
      MoveAllSettledSnoc(c1, rest, ps[1..], p);
    }
  }

  /** The box of the scenarios below: 200 by 400 pixels at the origin, centred on
      (100, 200). */
  const ScenarioBox: Rect := Rect(0.0, 0.0, 200.0, 400.0)

  /** Touches 150 and then 160 pixels right of the resting centre. */
  const RightwardTouches: seq<TouchPoint> := [TouchPoint(250.0, 200.0), TouchPoint(260.0, 200.0)]

  /** As written, with the card settled before the second move, two moves leave the
      offset at the distance between the two touches, wherever the finger is. So a drag
      held well past the commit distance is lost: touches 150 and then 160 pixels right of
      the resting centre leave an offset of 10, and the release calls nothing. */
  lemma SettledDragLosesLikeAsWritten(rest: Rect, p1: TouchPoint, p2: TouchPoint, cb: Callbacks)
    ensures MoveAllSettled(TouchStart(Resting), rest, [p1, p2]).offset == Offset(p2.x - p1.x, p2.y - p1.y)
    ensures -CommitDistance <= p2.x - p1.x <= CommitDistance ==>
      TouchEnd(MoveAllSettled(TouchStart(Resting), rest, [p1, p2]), cb).1 == None
  {
    var ps := [p1, p2];
    var c0 := TouchStart(Resting);
    var c1 := TouchMove(c0, Settled(rest, c0.offset), p1.x, p1.y);
    SettledMoveSubtractsOffset(c0, rest, p1);
    var c2 := TouchMove(c1, Settled(rest, c1.offset), p2.x, p2.y);
    SettledMoveSubtractsOffset(c1, rest, p2);
    assert c2.offset == Offset(p2.x - p1.x, p2.y - p1.y);
    assert MoveAllSettled(c0, rest, ps) == MoveAllSettled(c1, rest, ps[1..]);
    assert ps[1..][1..] == [];
    assert MoveAllSettled(c1, rest, ps[1..]) == c2;
  }

  /** Measured from the resting centre, touches 150 and then 160 pixels right of it leave
      an offset of 160 and like the profile. */
  lemma RestingDragLikes(cb: Callbacks)
    requires cb.hasLike
    ensures MoveAll(TouchStart(Resting), ScenarioBox, RightwardTouches).offset == Offset(160.0, 0.0)
    ensures TouchEnd(MoveAll(TouchStart(Resting), ScenarioBox, RightwardTouches), cb).1 == Some(Liked)
  {
    var ps := RightwardTouches;
    var c0 := TouchStart(Resting);
    var c1 := TouchMove(c0, ScenarioBox, 250.0, 200.0);
    var c2 := TouchMove(c1, ScenarioBox, 260.0, 200.0);
    assert c2.offset == Offset(160.0, 0.0);
    assert MoveAll(c0, ScenarioBox, ps) == MoveAll(c1, ScenarioBox, ps[1..]);
    assert ps[1..][1..] == [];
    assert MoveAll(c1, ScenarioBox, ps[1..]) == c2;
  }

  /** Moves measured from the resting centre of the card, so that the card's centre
      follows the finger: the corrected form of `MoveAllSettled`. */
  function MoveAll(c: Card, rest: Rect, ps: seq<TouchPoint>): (r: Card)
    ensures r.dragging == c.dragging
    ensures !c.dragging ==> r == c
    ensures c.dragging && ps != [] ==>
      r.offset.x + Centre(rest).x == ps[|ps| - 1].x && r.offset.y + Centre(rest).y == ps[|ps| - 1].y
    ensures ps == [] ==> r == c
    decreases |ps|
  {
    if ps == [] then c
    else MoveAll(TouchMove(c, rest, ps[0].x, ps[0].y), rest, ps[1..])
  }

  /** A whole touch from rest, with moves measured from the resting centre: the card ends at
      rest, and a callback fires at most once, decided by where the last touch point lies
      relative to that centre: like beyond 100 pixels right, pass beyond 100 pixels
      left. */
  lemma TouchGesture(rest: Rect, ps: seq<TouchPoint>, cb: Callbacks)
    requires ps != []
    ensures var r := TouchEnd(MoveAll(TouchStart(Resting), rest, ps), cb);
      var x := ps[|ps| - 1].x - Centre(rest).x;
      && r.0 == Resting
      && (r.1 == Some(Liked) <==> x > CommitDistance && cb.hasLike)
      && (r.1 == Some(Passed) <==> x < -CommitDistance && cb.hasPass)
  {
    var moved := MoveAll(TouchStart(Resting), rest, ps);
    assert moved.offset.x == ps[|ps| - 1].x - Centre(rest).x;
  }

  /** A tap, with no move in between, never calls a callback. */
  lemma TapCallsNothing(cb: Callbacks)
    ensures TouchEnd(TouchStart(Resting), cb) == (Resting, None)
  {
  }
}
