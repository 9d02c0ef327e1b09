/** The onboarding tutorial of src/components/shared/OnboardingTutorial.tsx: nine steps,
    next and previous navigation, the step action, horizontal drag navigation, the progress
    bar, and the `useOnboarding` flag hook. The host callbacks (`onComplete`) and page
    redirects are results of the transitions rather than calls. */
module Onboarding {
  import opened Options

  datatype StepInfo = StepInfo(id: string, action: Option<string>)

  /** ONBOARDING_STEPS: the step ids and which steps carry an action label. */
  const Steps: seq<StepInfo> := [
    StepInfo("welcome", None),
    StepInfo("swipe", Some("Try swiping on a profile!")),
    StepInfo("matching", None),
    StepInfo("chat", None),
    StepInfo("premium", Some("Check out premium features")),
    StepInfo("privacy", None),
    StepInfo("global", None),
    StepInfo("store", Some("Visit the store")),
    StepInfo("complete", Some("Start dating!"))
  ]

  const LastStep: nat := |Steps| - 1

  /** The swipe distance in pixels beyond which a drag of the card navigates. */
  const DragThreshold: real := 80.0

  /** A valid step index. */
  type StepIndex = i: nat | i < |Steps|

  /** What a navigation control does: move to a step, call `onComplete`, redirect the
      page, or nothing. */
  datatype Nav = MovedTo(step: StepIndex) | Completed | Redirected(path: string) | Stayed

  /** The step shown after the navigation. */
  function After(step: StepIndex, n: Nav): StepIndex {
    if n.MovedTo? then n.step else step
  }

  /** `handleNext`: the last step completes the tutorial without moving; any other step
      moves one step on. */
  function Next(step: StepIndex): (n: Nav)
    ensures step == LastStep <==> n == Completed
    ensures step < LastStep ==> n == MovedTo(step + 1)
  {
    if step == LastStep then Completed else MovedTo(step + 1)
  }

  /** `handlePrevious`: nothing on the first step; otherwise one step back. */
  function Previous(step: StepIndex): (n: Nav)
    ensures step == 0 <==> n == Stayed
    ensures step > 0 ==> n == MovedTo(step - 1)
  {
    if step == 0 then Stayed else MovedTo(step - 1)
  }

  /** Previous undoes next on every step but the last, and next undoes previous on every
      step but the first. */
  lemma NextPreviousInverse(step: StepIndex)
    ensures step < LastStep ==> Previous(After(step, Next(step))) == MovedTo(step)
    ensures step > 0 ==> Next(After(step, Previous(step))) == MovedTo(step)
  {
  }

  /** `handleAction`: a step without an action label moves on; with one, the premium and
      store steps redirect, the complete step completes, and any other step moves on. The
      component defines this handler but attaches it to no element (the action label is a
      plain badge), so no control reaches it. */
  function Action(step: StepIndex): (n: Nav)
    ensures Steps[step].action.None? ==> n == Next(step)
    ensures Steps[step].action.Some? && Steps[step].id == "premium" ==> n == Redirected("/subscribe")
    ensures Steps[step].action.Some? && Steps[step].id == "store" ==> n == Redirected("/store")
    ensures Steps[step].action.Some? && Steps[step].id == "complete" ==> n == Completed
    ensures Steps[step].action.Some? && Steps[step].id !in {"premium", "store", "complete"} ==>
      n == Next(step)
  {
    var info := Steps[step];
    if info.action.Some? then
      if info.id == "premium" then Redirected("/subscribe")
      else if info.id == "store" then Redirected("/store")
      else if info.id == "complete" then Completed
      else Next(step)
    else Next(step)
  }

  /** Over the nine defined steps, `handleAction` would move on everywhere except on the
      premium and store steps, which redirect, and the last step, which completes. */
  lemma ActionByStep(step: StepIndex)
    ensures step == 4 ==> Action(step) == Redirected("/subscribe")
    ensures step == 7 ==> Action(step) == Redirected("/store")
    ensures step == LastStep ==> Action(step) == Completed
    ensures step !in {4, 7, LastStep} ==> Action(step) == MovedTo(step + 1)
  {
  }

  /** The drag handler: a drag no farther than the threshold does nothing; beyond it, a
      rightward drag goes back unless on the first step, and a leftward drag goes on, or
      completes on the last step. */
  function DragEnd(step: StepIndex, dx: real): (n: Nav)
    ensures -DragThreshold <= dx <= DragThreshold ==> n == Stayed
    ensures dx > DragThreshold && step > 0 ==> n == MovedTo(step - 1)
    ensures dx > DragThreshold && step == 0 ==> n == Stayed
    ensures dx < -DragThreshold && step < LastStep ==> n == MovedTo(step + 1)
    ensures dx < -DragThreshold && step == LastStep ==> n == Completed
  {
    var magnitude := if dx < 0.0 then -dx else dx;
    if magnitude > DragThreshold then
      if dx > 0.0 && step != 0 then Previous(step)
      else if dx < 0.0 && step != LastStep then Next(step)
      else if dx < 0.0 && step == LastStep then Completed
      else Stayed
    else Stayed
  }

  /** The width of the progress bar, in percent. */
  function ProgressWidth(step: StepIndex): (w: real)
    ensures 0.0 < w <= 100.0
    ensures w == 100.0 <==> step == LastStep
    ensures w * (|Steps| as real) == (step as real + 1.0) * 100.0
  {
    ((step as real + 1.0) / (|Steps| as real)) * 100.0
  }

  /** The bar grows with every step. */
  lemma ProgressIncreases(a: StepIndex, b: StepIndex)
    requires a < b
    ensures ProgressWidth(a) < ProgressWidth(b)
  {
  }

  // ----------------------------------------------------- navigation sequences

  /** The controls wired to the card: the arrow buttons and the horizontal drag. The next
      arrow calls `onComplete` on the last step and `handleNext` elsewhere, which is `Next`
      in both cases. */
  datatype Control = NextButton | PreviousButton | Drag(dx: real)

  function Press(step: StepIndex, c: Control): (n: Nav)
    ensures !n.Redirected?
    ensures n.MovedTo? ==> n.step == step + 1 || n.step + 1 == step
  {
    match c
    case NextButton => Next(step)
    case PreviousButton => Previous(step)
    case Drag(dx) => DragEnd(step, dx)
  }

  /** The step after a sequence of controls, and whether the tutorial completed: it stops
      reacting once it completes, and otherwise stays open on the step reached. No control
      redirects the page. */
  function Navigate(step: StepIndex, cs: seq<Control>): (r: (StepIndex, Nav))
    ensures r.1 == Stayed || r.1 == Completed
    ensures cs == [] ==> r == (step, Stayed)
    ensures cs != [] && Press(step, cs[0]).Completed? ==> r == (step, Completed)
    decreases |cs|
  {
    if cs == [] then (step, Stayed)
    else
      var n := Press(step, cs[0]);
      if n.Completed? then (step, n)
      else Navigate(After(step, n), cs[1..])
  }

  /** Every control moves by at most one step. */
  lemma {:induction false} NavigateMovesByOne(step: StepIndex, cs: seq<Control>)
    ensures var r := Navigate(step, cs); r.0 <= step + |cs| && step <= r.0 + |cs|
    decreases |cs|
  {
    if cs != [] {
      var n := Press(step, cs[0]);
      if !n.Completed? {
        assert After(step, n) <= step + 1 && step <= After(step, n) + 1;
        NavigateMovesByOne(After(step, n), cs[1..]);
      }
    }
  }

  // ---------------------------------------------------- the timed step change

  /** The buttons change the step 200 ms after the press. The component state is the shown
      step, the `isAnimating` flag and the step changes still to be applied (all with the
      same delay, so they apply in order). */
  datatype Timed = Timed(step: int, animating: bool, pending: seq<int>)

  datatype TimedEvent = PressNext | PressPrevious | Elapse

  /** A press as the source handles it: `isLastStep` and `isFirstStep` are read from the
      shown step, and `isAnimating` is set but never consulted. */
  function PressAsWritten(t: Timed, e: TimedEvent): (r: Timed)
    ensures !e.Elapse? ==> r.step == t.step && t.pending <= r.pending && |r.pending| <= |t.pending| + 1
    ensures e == PressNext ==> (|r.pending| == |t.pending| + 1 <==> t.step != LastStep)
    ensures e == PressPrevious ==> (|r.pending| == |t.pending| + 1 <==> t.step != 0)
    ensures e.Elapse? && t.pending != [] ==>
      r.step == t.step + t.pending[0] && r.pending == t.pending[1..] && !r.animating
    ensures e.Elapse? && t.pending == [] ==> r == t
    ensures e == PressNext ==>
      r == if t.step == LastStep then t else t.(animating := true, pending := t.pending + [1])
    ensures e == PressPrevious ==>
      r == if t.step == 0 then t else t.(animating := true, pending := t.pending + [-1])
  {
    match e
    case PressNext =>
      if t.step == LastStep then t else Timed(t.step, true, t.pending + [1])
    case PressPrevious =>
      if t.step == 0 then t else Timed(t.step, true, t.pending + [-1])
    case Elapse =>
      if t.pending == [] then t else Timed(t.step + t.pending[0], false, t.pending[1..])
  }

  /** As written, what a press schedules does not depend on `isAnimating`: a press during a
      step change schedules exactly what it would schedule at rest. */
  lemma PressIgnoresAnimating(t: Timed, e: TimedEvent)
    ensures PressAsWritten(t, e).pending == PressAsWritten(t.(animating := !t.animating), e).pending
    ensures PressAsWritten(t, e).step == PressAsWritten(t.(animating := !t.animating), e).step
  {
  }

  /** The same press with `isAnimating` consulted: presses during a step change are
      ignored. */
  function PressGuarded(t: Timed, e: TimedEvent): (r: Timed)
    ensures t.animating && !e.Elapse? ==> r == t
  {
    if t.animating && !e.Elapse? then t else PressAsWritten(t, e)
  }

  function RunAsWritten(t: Timed, es: seq<TimedEvent>): Timed
    decreases |es|
  {
    if es == [] then t else RunAsWritten(PressAsWritten(t, es[0]), es[1..])
  }

  function RunGuarded(t: Timed, es: seq<TimedEvent>): Timed
    decreases |es|
  {
    if es == [] then t else RunGuarded(PressGuarded(t, es[0]), es[1..])
  }

  /** As written, two presses of next within 200 ms on the second-to-last step both
      schedule a step forward, and the tutorial ends on step 9, past the last of the nine
      steps, where it has no step data to show. */
  lemma DoubleNextOverrunsAsWritten()
    ensures RunAsWritten(Timed(7, false, []), [PressNext, PressNext, Elapse, Elapse]).step == |Steps|
  {
  }

  /** With presses ignored while animating, at most one step change is pending and the
      step, pending change included, stays within the nine steps. */
  predicate TimedValid(t: Timed) {
    && (!t.animating ==> t.pending == [])
    && (t.pending == [] ==> 0 <= t.step <= LastStep)
    && (t.pending != [] ==>
          |t.pending| == 1 && 0 <= t.step <= LastStep && 0 <= t.step + t.pending[0] <= LastStep)
  }

  lemma {:induction false} GuardedStaysInRange(t: Timed, es: seq<TimedEvent>)
    requires TimedValid(t)
    ensures TimedValid(RunGuarded(t, es))
    ensures 0 <= RunGuarded(t, es).step <= LastStep
    decreases |es|
  {
    if es != [] {
      var t1 := PressGuarded(t, es[0]);
      assert TimedValid(t1);
      GuardedStaysInRange(t1, es[1..]);
    }
  }

  // ------------------------------------------------------------ useOnboarding

  const CompletedKey: string := "onboarding_completed"

  /** `showOnboarding`, `hasCompletedOnboarding` and browser storage. */
  datatype Flags = Flags(show: bool, completed: bool, storage: map<string, string>)

  /** The hook after its mount effect: with no truthy completion flag stored it shows the
      tutorial, otherwise it records it as completed. */
  function Mount(storage: map<string, string>): (f: Flags)
    ensures f.storage == storage
    ensures f.show <==> !(CompletedKey in storage && storage[CompletedKey] != "")
    ensures f.completed <==> !f.show
  {
    if CompletedKey in storage && storage[CompletedKey] != "" then Flags(false, true, storage)
    else Flags(true, false, storage)
  }

  /** `completeOnboarding`: hidden, completed, flag stored. */
  function Complete(f: Flags): (r: Flags)
    ensures !r.show && r.completed && r.storage == f.storage[CompletedKey := "true"]
  {
    Flags(false, true, f.storage[CompletedKey := "true"])
  }

  /** `skipOnboarding`: the same state as completing. */
  function Skip(f: Flags): (r: Flags)
    ensures r == Complete(f)
  {
    Flags(false, true, f.storage[CompletedKey := "true"])
  }

  /** `resetOnboarding`: shown, not completed, flag removed. */
  function Reset(f: Flags): (r: Flags)
    ensures r.show && !r.completed && r.storage == f.storage - {CompletedKey}
  {
    Flags(true, false, f.storage - {CompletedKey})
  }

  /** Resetting and mounting again shows the tutorial; completing and mounting again does
      not: the stored flag carries the hook's state across mounts. */
  lemma FlagSurvivesRemount(f: Flags)
    ensures Mount(Reset(f).storage) == Reset(f)
    ensures Mount(Complete(f).storage) == Complete(f)
    ensures Mount(Skip(f).storage) == Complete(f)
  {
  }
}
