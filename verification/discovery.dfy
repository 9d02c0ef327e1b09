/** The discovery deck of App.jsx (`DiscoveryPage`): the swipe handler that advances the
    deck optimistically and settles the like, pass or super-like request afterwards. The
    request itself is outside the model; its answer is the `Response` parameter. */
module Discovery {
  import opened Options
  import Swipe

  datatype Profile = Profile(id: string, firstName: string)

  /** The page state used by `handleSwipe`: the fetched profiles, the index of the card on
      top, the profile shown by the match modal, the error banner text and the profile
      whose detail view is open. */
  datatype Deck = Deck(
    profiles: seq<Profile>,
    currentIndex: nat,
    matchInfo: Option<Profile>,
    error: string,
    viewingProfile: Option<Profile>)

  /** The request `handleSwipe` sends for a profile. */
  datatype Request = LikeRequest(id: string) | PassRequest(id: string) | SuperLikeRequest(id: string)

  /** The answer to the request: a body carrying `isMatch`, or a rejected request. */
  datatype Response = Answered(isMatch: bool) | Failed

  /** The action names the swipe callbacks pass: "like", "pass" and "super". */
  function ParseAction(name: string): (a: Option<Swipe.Action>)
    ensures a == Some(Swipe.Like) <==> name == "like"
    ensures a == Some(Swipe.Pass) <==> name == "pass"
    ensures a == Some(Swipe.Super) <==> name == "super"
  {
    if name == "like" then Some(Swipe.Like)
    else if name == "pass" then Some(Swipe.Pass)
    else if name == "super" then Some(Swipe.Super)
    else None
  }

  function ActionName(a: Swipe.Action): string {
    match a
    case Like => "like"
    case Pass => "pass"
    case Super => "super"
  }

  /** Position `i` holds the first profile of `ps` whose id is `id`. */
  predicate FirstWithId(ps: seq<Profile>, i: int, id: Option<string>) {
    0 <= i < |ps| && Some(ps[i].id) == id && forall j :: 0 <= j < i ==> Some(ps[j].id) != id
  }

  /** `profiles.find(p => p.id === profileId)`: the first profile with that id. */
  function Find(ps: seq<Profile>, id: Option<string>): (r: Option<Profile>)
    ensures r.None? <==> forall i :: 0 <= i < |ps| ==> Some(ps[i].id) != id
    ensures r.Some? ==> exists i :: FirstWithId(ps, i, id) && ps[i] == r.value
  {
    if ps == [] then None
    else if Some(ps[0].id) == id then
      assert FirstWithId(ps, 0, id);
      Some(ps[0])
    else
      var r := Find(ps[1..], id);
      if r.Some? then
        ghost var i :| FirstWithId(ps[1..], i, id) && ps[1..][i] == r.value;
        assert FirstWithId(ps, i + 1, id);
        r
      else r
  }

  function RequestFor(a: Swipe.Action, id: string): Request {
    match a
    case Like => LikeRequest(id)
    case Pass => PassRequest(id)
    case Super => SuperLikeRequest(id)
  }

  /** The id of the card on top, `profiles[currentIndex]?.id`. */
  function CurrentId(d: Deck): Option<string> {
    if d.currentIndex < |d.profiles| then Some(d.profiles[d.currentIndex].id) else None
  }

  /** A request `handleSwipe` has sent and not yet seen answered: the action and the
      profile found when the swipe began. */
  datatype InFlight = InFlight(action: Swipe.Action, profile: Profile)

  function RequestOf(f: InFlight): Request {
    RequestFor(f.action, f.profile.id)
  }

  /** The banner text for a failed request. */
  function FailureMessage(action: string): string {
    "Failed to " + action + ". Please try again later."
  }

  /** `handleSwipe(action, profileId)` up to its `await`. It does nothing while a detail
      view is open, when no profile has the id, or for an unknown action name. Otherwise it
      sends the matching request for the profile found and advances the deck by one card
      before any answer arrives. */
  function BeginSwipe(d: Deck, action: string, profileId: Option<string>): (r: (Deck, Option<InFlight>))
    ensures d.viewingProfile.Some? || Find(d.profiles, profileId).None? || ParseAction(action).None?
      ==> r == (d, None)
    ensures d.viewingProfile.None? && Find(d.profiles, profileId).Some? && ParseAction(action).Some? ==>
      && r.0 == d.(currentIndex := d.currentIndex + 1)
      && r.1 == Some(InFlight(ParseAction(action).value, Find(d.profiles, profileId).value))
    ensures r.1.Some? ==> Some(r.1.value.profile.id) == profileId && ActionName(r.1.value.action) == action
  {
    if d.viewingProfile.Some? then (d, None)
    else
      match Find(d.profiles, profileId)
      case None => (d, None)
      case Some(p) =>
        match ParseAction(action)
        case None => (d, None)
        case Some(a) => (d.(currentIndex := d.currentIndex + 1), Some(InFlight(a, p)))
  }

  /** The rest of `handleSwipe`, once the request answers: a like answered with a match
      opens the match modal for the profile, and a failure sets the error banner. The deck
      position is never moved back, and the detail-view guard is not consulted again. */
  function SettleSwipe(d: Deck, f: InFlight, response: Response): (r: Deck)
    ensures r.profiles == d.profiles && r.currentIndex == d.currentIndex
    ensures r.viewingProfile == d.viewingProfile
    ensures r.matchInfo != d.matchInfo ==> r.matchInfo == Some(f.profile)
    ensures r.matchInfo == Some(f.profile) <==>
      (f.action == Swipe.Like && response == Answered(true)) || d.matchInfo == Some(f.profile)
    ensures r.error != d.error ==> response == Failed
    ensures response == Failed ==> r.error == FailureMessage(ActionName(f.action))
  {
    match response
    case Answered(isMatch) =>
      if f.action == Swipe.Like && isMatch then d.(matchInfo := Some(f.profile)) else d
    case Failed =>
      d.(error := FailureMessage(ActionName(f.action)))
  }

  /** A swipe whose answer arrives before anything else happens: begun and settled. */
  function HandleSwipe(d: Deck, action: string, profileId: Option<string>, response: Response): (r: (Deck, Option<Request>))
    ensures d.viewingProfile.Some? || Find(d.profiles, profileId).None? || ParseAction(action).None?
      ==> r == (d, None)
    ensures d.viewingProfile.None? && Find(d.profiles, profileId).Some? && ParseAction(action).Some? ==>
      var p := Find(d.profiles, profileId).value;
      var a := ParseAction(action).value;
      && r.0.currentIndex == d.currentIndex + 1
      && r.0.profiles == d.profiles && r.0.viewingProfile == d.viewingProfile
      && r.1 == Some(RequestFor(a, p.id))
      && (r.0.matchInfo != d.matchInfo ==> r.0.matchInfo == Some(p))
      && (r.0.matchInfo == Some(p) <==> (a == Swipe.Like && response == Answered(true)) || d.matchInfo == Some(p))
      && (r.0.error != d.error ==> response == Failed)
      && (response == Failed ==> r.0.error == FailureMessage(action))
  {
    var (begun, f) := BeginSwipe(d, action, profileId);
    if f.Some? then (SettleSwipe(begun, f.value, response), Some(RequestOf(f.value))) else (d, None)
  }

  /** A swipe naming the card that is on top when it is handled: with no detail view open,
      it is always accepted and moves to the next card. The deck's callbacks name the card
      on top when the gesture began, which is this card only if no other swipe was handled
      in between (see `DoubleLikeSkipsCard`). */
  lemma SwipeOnCurrentCardAdvances(d: Deck, a: Swipe.Action)
    requires d.viewingProfile.None? && d.currentIndex < |d.profiles|
    ensures var r := BeginSwipe(d, ActionName(a), CurrentId(d));
      r.0.currentIndex == d.currentIndex + 1 && r.1.Some? && r.1.value.action == a
  {
    var id := CurrentId(d);
    assert Some(d.profiles[d.currentIndex].id) == id;
    assert Find(d.profiles, id).Some?;
  }

  // ------------------------------------------------------ answers in any order

  /** The page with the requests still awaiting an answer, oldest first. */
  datatype Page = Page(deck: Deck, inFlight: seq<InFlight>)

  /** A swipe callback, or the answer to the request in a given slot of `inFlight`; requests
      answer in any order. */
  datatype PageEvent = Swiped(action: string, profileId: Option<string>) | Answer(slot: nat, response: Response)

  function StepPage(pg: Page, e: PageEvent): (r: Page)
    ensures r.deck.profiles == pg.deck.profiles && r.deck.viewingProfile == pg.deck.viewingProfile
    ensures e.Answer? ==> r.deck.currentIndex == pg.deck.currentIndex
  {
    match e
    case Swiped(action, id) =>
      var (d, f) := BeginSwipe(pg.deck, action, id);
      Page(d, if f.Some? then pg.inFlight + [f.value] else pg.inFlight)
    case Answer(k, response) =>
      if k < |pg.inFlight| then
        Page(SettleSwipe(pg.deck, pg.inFlight[k], response), pg.inFlight[..k] + pg.inFlight[k + 1..])
      else pg
  }

  function RunPage(pg: Page, es: seq<PageEvent>): Page
    decreases |es|
  {
    if es == [] then pg else RunPage(StepPage(pg, es[0]), es[1..])
  }

  /** The number of swipe callbacks that `BeginSwipe` accepts along the run. */
  function Accepted(pg: Page, es: seq<PageEvent>): nat
    decreases |es|
  {
    if es == [] then 0
    else
      var n := if es[0].Swiped? && BeginSwipe(pg.deck, es[0].action, es[0].profileId).1.Some? then 1 else 0;
      n + Accepted(StepPage(pg, es[0]), es[1..])
  }

  /** Optimistic advance is never rolled back: over any interleaving of swipes and answers,
      in any order and with any outcome, the index grows by exactly the number of accepted
      swipes. */
  lemma {:induction false} IndexCountsAcceptedSwipes(pg: Page, es: seq<PageEvent>)
    ensures RunPage(pg, es).deck.currentIndex == pg.deck.currentIndex + Accepted(pg, es)
    ensures RunPage(pg, es).deck.profiles == pg.deck.profiles
    decreases |es|
  {
    if es != [] {
      IndexCountsAcceptedSwipes(StepPage(pg, es[0]), es[1..]);
    }
  }

  /** The deck's callbacks capture the top card of the render in which the gesture began,
      and the controller delivers them 300 ms later; the action buttons stay enabled
      meanwhile. Two like presses within 300 ms on card A therefore both name A: the deck
      moves two cards on, both requests like A, and card B is skipped without a request. */
  lemma DoubleLikeSkipsCard()
    ensures var a := Profile("a", "Ann");
      var b := Profile("b", "Bo");
      var start := Page(Deck([a, b], 0, None, "", None), []);
      var end := RunPage(start, [Swiped("like", Some("a")), Swiped("like", Some("a"))]);
      && end.deck.currentIndex == 2
      && end.inFlight == [InFlight(Swipe.Like, a), InFlight(Swipe.Like, a)]
      && (forall i :: 0 <= i < |end.inFlight| ==> RequestOf(end.inFlight[i]) != LikeRequest("b"))
  {
    var a := Profile("a", "Ann");
    var b := Profile("b", "Bo");
    var d0 := Deck([a, b], 0, None, "", None);
    assert Find([a, b], Some("a")) == Some(a);
    var p1 := StepPage(Page(d0, []), Swiped("like", Some("a")));
    assert p1 == Page(d0.(currentIndex := 1), [InFlight(Swipe.Like, a)]);
    var p2 := StepPage(p1, Swiped("like", Some("a")));
    assert p2 == Page(d0.(currentIndex := 2), [InFlight(Swipe.Like, a), InFlight(Swipe.Like, a)]);
  }

  /** The banner shows the failure answered last, not the one swiped last: like A, then pass
      B, with B's request failing first and A's after it, leaves the like failure shown. */
  lemma LaterAnswerSetsError()
    ensures var a := Profile("a", "Ann");
      var b := Profile("b", "Bo");
      var start := Page(Deck([a, b], 0, None, "", None), []);
      var end := RunPage(start, [Swiped("like", Some("a")), Swiped("pass", Some("b")),
                                 Answer(1, Failed), Answer(0, Failed)]);
      end.deck.error == FailureMessage("like") && end.deck.currentIndex == 2 && end.inFlight == []
  {
    var a := Profile("a", "Ann");
    var b := Profile("b", "Bo");
    var d0 := Deck([a, b], 0, None, "", None);
    assert Find([a, b], Some("a")) == Some(a);
    assert Find([a, b], Some("b")) == Some(b) by {
      assert [a, b][1..] == [b];
    }
    var p1 := StepPage(Page(d0, []), Swiped("like", Some("a")));
    assert p1 == Page(d0.(currentIndex := 1), [InFlight(Swipe.Like, a)]);
    var p2 := StepPage(p1, Swiped("pass", Some("b")));
    assert p2 == Page(d0.(currentIndex := 2), [InFlight(Swipe.Like, a), InFlight(Swipe.Pass, b)]);
    var p3 := StepPage(p2, Answer(1, Failed));
    assert p3 == Page(d0.(currentIndex := 2, error := FailureMessage("pass")), [InFlight(Swipe.Like, a)]);
    var p4 := StepPage(p3, Answer(0, Failed));
    assert p4.deck.error == FailureMessage("like") && p4.inFlight == [];
  }
}
