# You & I dating client: swipe controller and view-state logic in Dafny

This project models the small state machines inside the React client of the You & I dating
app, and proves properties about them. Each module covers one component:

- **Swipe** and **SwipeRun**: the swipe-gesture controller `useSwipe` of `App.jsx`.
  - Swipe covers the drag start, move and end handlers and the threshold-80 decision policy.
  - It also covers the programmatic `triggerAction` and its animate, notify and reset steps.
  - It also derives the card and overlay styles.
  - SwipeRun plays whole event sequences against the controller. The 300/50/50 ms timers become a queue of timer steps.
- **Discovery**: the deck's `handleSwipe`. It advances optimistically when the swipe begins, and settles the like, pass or super-like request when its answer arrives. Answers may arrive in any order.
- **ChatPage**: `handleSend` of the conversation view. It appends optimistically, then replaces the entry or rolls it back.
- **Session**: the `AuthProvider` session and tutorial flags. Browser storage is a finite map.
- **ProfileEditor**: the profile form.
  - It covers field edits and the interest list, which holds at most ten and has no repeats.
  - It also covers the suggested-interest chips.
- **Onboarding**: the nine-step tutorial.
  - It covers next, previous, drag navigation, the progress bar and the step-action handler.
  - It covers the timed step change and the `useOnboarding` flag hook.
- **SwipeCard**: the touch card of `SwipeCard.tsx`. Its threshold is 100 and its badges appear at 50.
- **Achievements**: the category filter, the points total, achievement progress and the "% left" line.
- **ChatInterface**: the composer.
  - It covers the contact-information pattern, the delayed trimmed send, the blur rule and the send button.
- **Text** and **Options**: shared definitions.
  - Text gives JavaScript's `trim` and the regular-expression classes `\s`, `\d` and `\w`.
  - Options gives an option type.

Inputs from outside become parameters:

- answers of the server (`Response`, `SendResult`, `AuthResponse`, `ProfileResponse`);
- the window size (`Viewport`);
- the bounding box of the touch card, as measured at each move;
- the temporary message id and the clock reading;
- storage contents.

Distances and ratios are exact `real`s.

### Behaviour worth noting

- `handleDragStart` has no guard. A press during the swipe-out animation starts a new drag.
- The upward "super" decision also requires the `onSwipeUp` callback. Without it, an upward drag snaps back.
- `logout` also removes the tutorial completion flag, so the tutorial is shown again after logging out.
- A stored completion flag holding the empty string counts as "not completed". Both `AuthProvider` and `useOnboarding` test the flag by JavaScript truthiness.
- A stored empty token is held but never validated, because the token check (run on mount and whenever the held token changes) tests it by truthiness (`if (token)`).
- `register` shows the tutorial and removes the completion flag, but the new token re-runs the token check. Once the profile loads, the check hides the tutorial and stores the flag again, so a newly registered user does not see the tutorial.
- The tutorial's `handleAction` is attached to no element; the step's action label is a plain badge. No control can redirect the page.
- The touch card measures each move from the centre of its own bounding box, and that box carries the card's current offset as a transform.
- The deck's swipe callbacks capture the top card of the render in which the gesture began, and the controller calls them 300 ms later; the action buttons stay enabled meanwhile. Two like presses within 300 ms both like the same card and advance the deck twice, so the next card is skipped without a request.
- `handleSwipe` settles each answer whenever it arrives. The error banner shows the failure answered last, not the one swiped last.

## Model

| member | source | states |
|---|---|---|
| Swipe.ResetCardPosition | App.jsx:900-905 | the card is back at rest (centre offset, no start point, not dragging) with the transition on |
| Swipe.SwipeTarget | App.jsx:909-913 | like goes to (W, 0), pass to (−W, 0) and super to (0, −H/1.5) |
| Swipe.Decide | App.jsx:966-973 | like iff \|x\| > 80 and x > 0; pass iff x < −80; super iff \|x\| ≤ 80, y < −80 and an up-callback exists; otherwise no decision. The horizontal check wins |
| Swipe.TriggerAction | App.jsx:907-918 | the card is sent to the action's target with the transition on and dragging stopped; exactly one notify step is scheduled |
| Swipe.DragStart | App.jsx:937-945 | the press point is recorded, dragging starts and the transition is off, in any state |
| Swipe.DragMove | App.jsx:947-958 | a no-op unless dragging with a start point; otherwise the offset is exactly the point minus the start |
| Swipe.DragEnd | App.jsx:960-977 | a no-op unless dragging; otherwise dragging stops and the start point is cleared. A decision triggers its action; no decision snaps back to rest |
| Swipe.FireTimer | App.jsx:919-932 | the notify step calls exactly the matching callback once, if supplied; the corrected reset step returns to rest with the transition off; the last step re-arms the transition |
| Swipe.ResetAfterNotifyAsWritten | App.jsx:924-926 | the reset as written ends at rest |
| Swipe.ResetAsWrittenIsAnimated | App.jsx:915-931 | as written, the jump back from the off-screen target happens with the transition on |
| Swipe.CardStyleOf | App.jsx:979-986 | the card is translated by the offset; the rotation has the sign of x and is 0.05°/px; the cursor is "grabbing" iff dragging |
| Swipe.AxisOpacity | App.jsx:989-996 | an axis opacity is \|d\|/80 capped at 0.7, so it lies between 0 and 0.7 |
| Swipe.OverlayOf | App.jsx:988-1020 | the tint is super iff \|y\| > \|x\| and y < −10, like iff x > 10 otherwise, pass iff x < −10 otherwise. A tinted overlay uses its axis's opacity; a transparent one uses the larger axis opacity; opacity never exceeds 0.7 |
| Swipe.AxisOpacityMonotone | App.jsx:989-996 | opacity never decreases as the displacement grows, and equals \|d\|/80 below the cap |
| Swipe.TiltAgreesWithDecision | App.jsx:966-986 | a drag the policy would like leans right, one it would pass leans left, and one it would super-like leans at most 4°; a triggered card shows at its target, upright when it flies up |
| Swipe.OverlayMirror | App.jsx:1001-1013 | mirroring a drag left to right swaps the like and pass tints and keeps the opacity |
| Swipe.TargetAgreesWithPolicy | App.jsx:909-970 | each action's off-screen target is a displacement the drag policy maps to that same action, with its own tint at full opacity |
| SwipeRun.StepOn | App.jsx:1022-1036 | a move with no drag in progress and a timer with none pending change nothing; only timers deliver decisions |
| SwipeRun.SettleDelivers | App.jsx:919-932 | once a decision is scheduled, the three timer steps deliver it exactly once (if its callback exists) and leave the controller at rest with the transition on, wherever the card was |
| SwipeRun.MovesWithoutDragAreIgnored | App.jsx:947-950 | any number of stray moves with no drag in progress change nothing |
| SwipeRun.MovesTrackPointer | App.jsx:947-958 | during a drag, after any moves the offset is the last point minus the press point |
| SwipeRun.DragInProgress | App.jsx:937-958 | a press followed by moves leaves a drag in progress at the displacement of the last point |
| SwipeRun.CommittedGestureNotifiesOnce | App.jsx:907-977 | a gesture from rest that the policy commits delivers exactly that decision once (if its callback exists), and the controller ends at rest with nothing pending |
| SwipeRun.SubThresholdGestureSnapsBack | App.jsx:960-977 | a gesture the policy does not commit delivers nothing and leaves the controller at rest at once |
| SwipeRun.ButtonNotifiesOnce | App.jsx:907-935 | an action button pressed at rest delivers its decision once and returns to rest |
| SwipeRun.DragRightScenario | App.jsx:937-977 | a press at (100,200), a move to (200,200) and a release deliver like exactly once |
| SwipeRun.ShortDragScenario | App.jsx:937-977 | a press at (100,200), a move to (130,200) and a release deliver nothing and snap back |
| Discovery.ParseAction | App.jsx:1150-1154 | exactly "like", "pass" and "super" name an action |
| Discovery.Find | App.jsx:1147 | the result is the first profile with the id, or none when no profile has it |
| Discovery.BeginSwipe | App.jsx:1141-1157 | no-op with a detail view open, a missing profile or an unknown action. Otherwise the request for the found profile and the named action is in flight, and the index advances by exactly one before any answer |
| Discovery.SettleSwipe | App.jsx:1159-1168 | the index, profiles and detail view are untouched. The match modal opens only for a like answered with a match; a failure sets only the error text, naming the swipe's own action |
| Discovery.HandleSwipe | App.jsx:1141-1169 | a swipe answered at once: the guards, one request, the index up by exactly one even on failure, and the settled match or error |
| Discovery.SwipeOnCurrentCardAdvances | App.jsx:1141-1157 | a swipe naming the card on top when it is handled is accepted whenever no detail view is open, and advances the deck by one with the request for that card |
| Discovery.StepPage | App.jsx:1141-1169 | no event changes the profiles or the detail view; an answer never moves the index |
| Discovery.IndexCountsAcceptedSwipes | App.jsx:1156-1169 | over any interleaving of swipes and answers in any order, the index grows by exactly the number of accepted swipes and never goes back |
| Discovery.DoubleLikeSkipsCard | App.jsx:1141-1177 | two like swipes naming card A, as two presses within 300 ms deliver them, advance the deck by two with both requests liking A; card B gets no request |
| Discovery.LaterAnswerSetsError | App.jsx:1159-1168 | like A, then pass B, with B failing first and A after: the banner shows the like failure, and the index is 2 |
| ChatPage.RemoveById | App.jsx:1445 | the entries with the id are dropped and every other entry is kept |
| ChatPage.RemoveByIdAppend | App.jsx:1445 | removal keeps order: it distributes over concatenation |
| ChatPage.RemoveAbsentId | App.jsx:1445 | removing an id no entry carries leaves the list as it is |
| ChatPage.ReplaceById | App.jsx:1439-1441 | exactly the entries with the id are replaced, position by position; the length is kept |
| ChatPage.BeginSend | App.jsx:1420-1432 | a no-op when the trimmed input is empty or a send is in flight; otherwise the untrimmed input is appended under the temporary id, and the input and error are cleared |
| ChatPage.FinishSend | App.jsx:1434-1449 | success replaces only the temporary entries and touches nothing else; failure removes them, restores the input and sets the error; the send is no longer in flight |
| ChatPage.FailedSendRollsBack | App.jsx:1419-1450 | a failed send leaves the list exactly as before, with the input restored; only the error text differs |
| ChatPage.SuccessfulSendAppends | App.jsx:1419-1450 | a successful send ends the untouched earlier list with the server's message |
| Session.Init | App.jsx:176-181 | the stored token is held, nothing is loaded yet, and the tutorial shows iff no truthy completion flag is stored |
| Session.Login | App.jsx:207-217 | a rejection changes nothing; success stores and holds the token, sets the user, hides the tutorial and stores the flag |
| Session.Register | App.jsx:219-227 | a rejection changes nothing; success stores and holds the token, sets the user, shows the tutorial and removes the flag |
| Session.Logout | App.jsx:229-235 | the token and flag are removed from storage; the token and user are cleared; the tutorial is shown |
| Session.CompleteOnboarding | App.jsx:238-241 | the tutorial is hidden and the flag stored; the user, token and loading state are unchanged |
| Session.SkipOnboarding | App.jsx:242-245 | skipping yields the same state as completing |
| Session.ValidateToken | App.jsx:183-205 | run on mount and on every token change; loading ends. Without a truthy token (none, or the empty string) nothing else changes. A loaded profile sets the user and hides the tutorial; a rejected one drops the token only |
| Session.EmptyStoredTokenIsNotValidated | App.jsx:179-201 | a stored empty token is held, but mounting only ends loading: no user, the same storage and tutorial flag, whatever the profile request would answer |
| Session.RegisterThenValidateHidesTutorial | App.jsx:184-227 | register shows the tutorial, but the token check that the new token triggers hides it again once the profile loads and stores the completion flag, with the new token and the loaded user |
| Session.HandlePreservesConsistency | App.jsx:176-245 | every transition keeps the held token equal to the stored one, and showOnboarding equal to "no truthy flag stored" |
| Session.ConsistentAfter | App.jsx:176-245 | the same holds after any sequence of transitions from a consistent state |
| Session.SessionStaysConsistent | App.jsx:176-245 | the same holds after any sequence of transitions from the provider's initial state |
| ProfileEditor.AgeFromInput | src/components/profile/ProfileEditor.tsx:242 | the age field is empty exactly when the input does not parse or parses to 0 |
| ProfileEditor.HandleInputChange | src/components/profile/ProfileEditor.tsx:86-91 | exactly the named field changes; every other field, the interests included, is kept |
| ProfileEditor.AddInterest | src/components/profile/ProfileEditor.tsx:93-101 | a non-empty, new interest is appended when fewer than ten are chosen, and the input is cleared; otherwise the form and input are unchanged |
| ProfileEditor.Without | src/components/profile/ProfileEditor.tsx:106 | the value is gone and every other element is kept |
| ProfileEditor.RemoveInterest | src/components/profile/ProfileEditor.tsx:103-108 | every occurrence goes; the other interests, the other fields and the input stay |
| ProfileEditor.WithoutAppend | src/components/profile/ProfileEditor.tsx:103-108 | removal keeps the relative order: it distributes over concatenation |
| ProfileEditor.WithoutAbsent | src/components/profile/ProfileEditor.tsx:106 | removing an absent value changes nothing |
| ProfileEditor.WithoutKeepsDistinct | src/components/profile/ProfileEditor.tsx:103-108 | removal keeps a repeat-free list repeat-free |
| ProfileEditor.EditsKeepInterestsValid | src/components/profile/ProfileEditor.tsx:93-108 | add and remove keep the list at most ten long and free of repeats |
| ProfileEditor.AddThenRemoveRestores | src/components/profile/ProfileEditor.tsx:93-108 | adding a fresh interest and then removing it gives back the original form |
| ProfileEditor.Unchosen | src/components/profile/ProfileEditor.tsx:322 | exactly the unchosen suggestions, in suggestion order |
| ProfileEditor.FirstUnchosen | src/components/profile/ProfileEditor.tsx:322-323 | the first n unchosen candidates: a prefix of the unchosen list, at most n long, and all of it when shorter than n |
| ProfileEditor.Suggestions | src/components/profile/ProfileEditor.tsx:322-323 | the first eight unchosen suggestions, in suggestion order; fewer than eight only when every unchosen suggestion is shown |
| Onboarding.Next | src/components/shared/OnboardingTutorial.tsx:116-126 | the last step completes without moving; any other step moves one on |
| Onboarding.Previous | src/components/shared/OnboardingTutorial.tsx:128-136 | nothing on the first step; otherwise one step back |
| Onboarding.NextPreviousInverse | src/components/shared/OnboardingTutorial.tsx:116-136 | previous undoes next (except on the last step), and next undoes previous (except on the first) |
| Onboarding.Action | src/components/shared/OnboardingTutorial.tsx:138-159 | without an action label it moves on. With one, premium and store redirect, complete completes, and any other step moves on |
| Onboarding.ActionByStep | src/components/shared/OnboardingTutorial.tsx:30-100 | over the nine defined steps, `handleAction` would redirect on steps 4 and 7, complete on step 8 and move on everywhere else |
| Onboarding.DragEnd | src/components/shared/OnboardingTutorial.tsx:180-191 | a drag within ±80 does nothing. Beyond it, right goes back except on the first step; left goes on, or completes on the last step |
| Onboarding.ProgressWidth | src/components/shared/OnboardingTutorial.tsx:209 | the width is (step+1)/9·100, in (0, 100], and 100 exactly on the last step |
| Onboarding.ProgressIncreases | src/components/shared/OnboardingTutorial.tsx:209 | the bar grows with the step |
| Onboarding.Press | src/components/shared/OnboardingTutorial.tsx:178-290 | the arrow buttons and the drag never redirect, and move the step by exactly one when they move it |
| Onboarding.Navigate | src/components/shared/OnboardingTutorial.tsx:116-191 | a sequence of controls leaves the tutorial open or completed, never mid-move; a first control that completes ends it on the step it was pressed on |
| Onboarding.NavigateMovesByOne | src/components/shared/OnboardingTutorial.tsx:116-191 | each control moves the step by at most one |
| Onboarding.PressAsWritten | src/components/shared/OnboardingTutorial.tsx:116-136 | a press does not move the shown step; next sets isAnimating and schedules exactly +1 unless on the last step, previous sets it and schedules exactly −1 unless on the first, and otherwise nothing changes; a timer applies the oldest pending change and clears isAnimating |
| Onboarding.PressIgnoresAnimating | src/components/shared/OnboardingTutorial.tsx:110-136 | as written, a press during a step change schedules exactly what it would at rest |
| Onboarding.DoubleNextOverrunsAsWritten | src/components/shared/OnboardingTutorial.tsx:110-126 | as written, two next presses within 200 ms on step 7 end on step 9, past the nine steps |
| Onboarding.PressGuarded | src/components/shared/OnboardingTutorial.tsx:110-136 | with isAnimating consulted, presses during a step change are ignored |
| Onboarding.GuardedStaysInRange | src/components/shared/OnboardingTutorial.tsx:110-136 | with presses ignored while animating, any timed sequence keeps the step within the nine steps |
| Onboarding.Mount | src/components/shared/OnboardingTutorial.tsx:314-322 | after mounting, the tutorial shows iff no truthy completion flag is stored, and completed is the opposite |
| Onboarding.Complete | src/components/shared/OnboardingTutorial.tsx:324-328 | hidden, completed, flag stored |
| Onboarding.Skip | src/components/shared/OnboardingTutorial.tsx:330-334 | the same state as completing |
| Onboarding.Reset | src/components/shared/OnboardingTutorial.tsx:336-340 | shown, not completed, flag removed |
| Onboarding.FlagSurvivesRemount | src/components/shared/OnboardingTutorial.tsx:314-340 | mounting again after reset, complete or skip yields the same flags: storage carries the state |
| SwipeCard.TouchStart | src/components/discovery/SwipeCard.tsx:35-37 | the drag begins and the offset is kept |
| SwipeCard.TouchMove | src/components/discovery/SwipeCard.tsx:39-50 | a no-op unless dragging; otherwise the offset is the touch point minus the card's centre |
| SwipeCard.Release | src/components/discovery/SwipeCard.tsx:52-59 | like iff x > 100 and onLike exists; pass iff x < −100 and onPass exists; so at most one |
| SwipeCard.TouchEnd | src/components/discovery/SwipeCard.tsx:52-62 | the release verdict, then always back to the zero offset and not dragging |
| SwipeCard.TransformOf | src/components/discovery/SwipeCard.tsx:76-81 | translated by the offset, rotated 0.1·x degrees, enlarged iff dragging |
| SwipeCard.BadgesOf | src/components/discovery/SwipeCard.tsx:88-101 | LIKE iff dragging and x > 50; PASS iff dragging and x < −50; never both |
| SwipeCard.BadgeAnnouncesVerdict | src/components/discovery/SwipeCard.tsx:52-101 | while dragging, a release that would like or pass is already shown by the matching badge and the tilt |
| SwipeCard.MoveAllMeasured | src/components/discovery/SwipeCard.tsx:39-50 | after moves during a drag, the offset is the last touch point relative to the centre of the box measured at that move |
| SwipeCard.TouchGestureMeasured | src/components/discovery/SwipeCard.tsx:35-62 | a whole touch from rest ends at rest, and the callback is decided by the last touch relative to the centre of the box measured at that move |
| SwipeCard.Settled | src/components/discovery/SwipeCard.tsx:76-80 | once the transition settles, the card's centre is the resting centre moved by the offset |
| SwipeCard.MoveAllSettled | src/components/discovery/SwipeCard.tsx:39-50 | on a card settled before each move, one move sets the offset to the touch less the resting centre less the offset already shown; no move and no drag change nothing |
| SwipeCard.MoveAllSettledSnoc | src/components/discovery/SwipeCard.tsx:39-50 | a settled run is the earlier run followed by one move measured from the centre of the card where that run left it |
| SwipeCard.SettledMoveSubtractsOffset | src/components/discovery/SwipeCard.tsx:42-49 | with the card settled, a move's offset is the finger's distance from the resting centre less the offset already shown |
| SwipeCard.SettledDragLosesLikeAsWritten | src/components/discovery/SwipeCard.tsx:39-59 | as written, with the card settled between them, two moves leave the offset at the distance between the touches, wherever the finger is; within 100 pixels of each other the release calls nothing |
| SwipeCard.RestingDragLikes | src/components/discovery/SwipeCard.tsx:39-59 | measured from the resting centre, touches 150 then 160 pixels right of it leave offset 160 and like the profile |
| SwipeCard.MoveAll | src/components/discovery/SwipeCard.tsx:39-50 | measured from the resting centre, the offset after moves is the last touch point relative to that centre, in both axes |
| SwipeCard.TouchGesture | src/components/discovery/SwipeCard.tsx:35-62 | measured from the resting centre, a whole touch ends at rest and calls at most one callback, decided by the last touch point relative to that centre |
| SwipeCard.TapCallsNothing | src/components/discovery/SwipeCard.tsx:35-62 | a tap with no move calls no callback |
| Achievements.OfCategory | src/components/shared/AchievementSystem.tsx:82 | exactly the achievements of the category |
| Achievements.Filtered | src/components/shared/AchievementSystem.tsx:79-81 | "all" gives the list unchanged; any other category gives exactly its achievements, in their fetched order (the order-preserving `OfCategory`) |
| Achievements.OfCategoryAppend | src/components/shared/AchievementSystem.tsx:80-82 | filtering keeps order: it distributes over concatenation |
| Achievements.OfCategoryIdempotent | src/components/shared/AchievementSystem.tsx:80-82 | filtering twice by one category is filtering once, so reselecting a category shows the same list |
| Achievements.ReduceIsSum | src/components/shared/AchievementSystem.tsx:85 | the left fold from an accumulator equals the accumulator plus the sum of the points |
| Achievements.SumAppend | src/components/shared/AchievementSystem.tsx:85 | the sum of points is additive over concatenation |
| Achievements.TotalPoints | src/components/shared/AchievementSystem.tsx:85 | the total is the sum of the points of the unlocked achievements |
| Achievements.TotalPointsSnoc | src/components/shared/AchievementSystem.tsx:85 | unlocking one more achievement adds exactly its points |
| Achievements.TotalPointsNonNegative | src/components/shared/AchievementSystem.tsx:85 | with no negative point values the total is not negative |
| Achievements.UnlockedIds | src/components/shared/AchievementSystem.tsx:84 | exactly the ids of the unlocked achievements |
| Achievements.CappedRatio | src/components/shared/AchievementSystem.tsx:91 | never above 100. With a zero threshold it is 100 for a positive score, NaN for a zero score and −Infinity for a negative one |
| Achievements.ProgressFor | src/components/shared/AchievementSystem.tsx:87-95 | 100 for an unlocked achievement; the capped ratio for profile_complete with stats; 0 otherwise |
| Achievements.ProgressInRange | src/components/shared/AchievementSystem.tsx:90-92 | with a positive threshold and a non-negative score, progress lies in [0, 100] and is 100 iff the score meets the threshold |
| Achievements.ProgressMonotone | src/components/shared/AchievementSystem.tsx:91 | progress grows with the score |
| Achievements.CompletenessAgreesWithProgress | src/components/shared/AchievementSystem.tsx:87-146 | for a locked profile_complete achievement with threshold 100, its progress is the score, the text names 100 − score, and the text says complete exactly when the progress is 100 |
| Achievements.CompletenessText | src/components/shared/AchievementSystem.tsx:143-146 | "% left" shows 100 − score iff score < 100, and the complete line otherwise |
| ChatInterface.PhoneCheck | src/components/chat/ChatInterface.tsx:77 | the direct check agrees with the phone alternative over both optional separators |
| ChatInterface.IntlCheckCorrect | src/components/chat/ChatInterface.tsx:77 | `\+\d{1,3}\s?\d{1,14}` matches at a position iff '+' and a digit are followed by a digit, or by a space and a digit |
| ChatInterface.HandleCheckCorrect | src/components/chat/ChatInterface.tsx:77 | `@\w+\.\w+` matches at a position iff the word run after '@' is non-empty and is followed by '.' and a word character |
| ChatInterface.IsContactInfo | src/components/chat/ChatInterface.tsx:77 | true iff one of the three alternatives matches at some position of the text |
| ChatInterface.TenDigitsAreContact | src/components/chat/ChatInterface.tsx:77 | ten consecutive digits are flagged |
| ChatInterface.EmailIsContact | src/components/chat/ChatInterface.tsx:77 | an e-mail address with word-character domain parts is flagged |
| ChatInterface.PlainTextIsNotContact | src/components/chat/ChatInterface.tsx:77 | text with no digit and no '@' is never flagged |
| ChatInterface.SendText | src/components/chat/ChatInterface.tsx:105-114 | the trimmed text is sent, and only when the text is not blank |
| ChatInterface.ShouldBlur | src/components/chat/ChatInterface.tsx:142-144 | blurred iff contact information and the current user is not known to be premium |
| ChatInterface.SendDisabled | src/components/chat/ChatInterface.tsx:273 | disabled iff the text is blank or a request is pending |
| ChatInterface.EnabledButtonSends | src/components/chat/ChatInterface.tsx:105-114 | an enabled button always leads the handler to send |
| ChatInterface.OtherEvent | src/components/chat/ChatInterface.tsx:81-114 | posts only append, and only a timer posts; a timer with a waiting text always posts the oldest one, dequeuing it, clearing isTyping with the request pending; typing is ignored while isTyping; a settled request clears the input on success only |
| ChatInterface.StepAsWritten | src/components/chat/ChatInterface.tsx:105-114 | as written, a click queues the trimmed text and sets isTyping whenever the text is not blank and no request is pending, whatever isTyping is |
| ChatInterface.DoubleClickPostsTwiceAsWritten | src/components/chat/ChatInterface.tsx:105-114 | as written, two clicks within 500 ms post the same message twice |
| ChatInterface.SendDisabledWhileTyping | src/components/chat/ChatInterface.tsx:273 | the corrected button is also disabled while a send waits for its timer |
| ChatInterface.Step | src/components/chat/ChatInterface.tsx:105-114 | an enabled click queues the trimmed text and sets isTyping; a disabled click changes nothing |
| ChatInterface.StepKeepsValid | src/components/chat/ChatInterface.tsx:105-114 | with the corrected button, at most one send waits (exactly while isTyping), and only trimmed, non-blank texts are queued or posted |
| ChatInterface.ComposerStaysValid | src/components/chat/ChatInterface.tsx:105-114 | the same holds over any sequence of typing, clicks, timers and settled requests |
| ChatInterface.DoubleClickPostsOnce | src/components/chat/ChatInterface.tsx:105-114 | with the corrected button, typing any non-blank text, clicking twice and letting both timers fire posts its trimmed text exactly once |
| Text.Trim | src/components/chat/ChatInterface.tsx:106-109 | the result is the infix of the input after its leading and before its trailing white space; it is empty iff the input is blank |
| Text.TrimmedIsFixed | src/components/chat/ChatInterface.tsx:106-109 | a text with no white space at either end is left unchanged by trimming |
| Text.TrimIdempotent | src/components/chat/ChatInterface.tsx:106-109 | trimming a trimmed text changes nothing |

## Left out

- Network requests, fetch and JSON handling, React Query, toasts and redirects. Each request appears only as its answer, passed in as a parameter.
- Timers and real time. Each delayed step is an explicit event, and pending steps fire from a first-in, first-out queue. This is exact for one swipe gesture at a time, whose 300, 50 and 50 ms steps follow one another. It is also exact for the tutorial's 200 ms steps and the composer's 500 ms sends, which share one delay each. Two overlapping swipe gestures are not modelled exactly. With like pressed at 0 ms and again at 100 ms, the code fires the first notify at 300 ms, the first reset at 350 ms and the second notify at 400 ms, but the queue fires the second notify before the first reset.
- React rendering and batching, hooks wiring and `useMemo` dependencies. Style derivations are plain functions of the state, so the wiring mistake of calling the memoised style objects as functions is not reproduced.
- The second copy of the app later in `App.jsx`. It repeats the first apart from sign-in placeholders.
- The use of a `setShowOnboarding` the auth context does not provide.
- Floating point. Distances, opacities and percentages are exact reals; `window.innerWidth`/`innerHeight` are the `Viewport` parameter.
- The JSX and CSS markup, framer-motion animation, and the decorative components: Logo, mascots, brand text, loading animations, premium and match modals, AIMascot and LocationSearch. Also `src/App.tsx` routing, the static server and the database and marketing scripts.
- `parseInt` itself: the age input is given the parse result, or none.
- The temporary message id (`"temp-" + Date.now()`) and the timestamp. They are parameters, and two lemmas assume the id is fresh.
- The tutorial's skip button and the `onComplete`/`onSkip` callbacks. They are results (`Completed`), not calls into the host.
- Which card a delivered swipe names. The swipe controller delivers a bare action. The id the deck's callback passes was fixed when the gesture began (App.jsx:1174-1177), so the Discovery events take that id as given, and `Discovery.DoubleLikeSkipsCard` shows its effect.
- The tutorial's `handleAction` as a control. It is attached to no element, so `Onboarding.Action` is modelled but no control reaches it.
- `Onboarding.Navigate`: applies each control to the shown step at once, without the 200 ms delay of the buttons. The timed model (`GuardedStaysInRange`) covers presses during a step change.
- `SwipeRun.StepOn`: its contract states only the no-op cases. Whole gestures are stated by the SwipeRun lemmas.
- `Swipe.FireTimer`: its reset step is the corrected one, with the transition off. The code as written re-enables the transition in the same update; `Swipe.ResetAfterNotifyAsWritten` models that step, and the first row under "## Findings" records it.
- `SwipeCard.MoveAll`: measures every move from the resting centre, which is the corrected form. The code measures from the box of the card where it is then, which `SwipeCard.MoveAllMeasured` models. `SwipeCard.MoveAllSettled` models the case where the card has settled between moves.
- `SwipeCard.TouchGesture`: states the verdict for moves measured from the resting centre, which is the corrected form. `SwipeCard.TouchGestureMeasured` states it for the boxes the code measures.
- Layout and the 200 ms transition of the touch card. A box caught mid-transition is any measured box given to `SwipeCard.MoveAllMeasured`; only its settled position is computed.

## Findings

| source | as written | input that shows it | evidently intended | confidence | as-written member | corrected member |
|---|---|---|---|---|---|---|
| App.jsx:924-931 | The reset timer sets the transition to "none" and then calls `resetCardPosition`, which sets it back to "transform 0.3s ease-out" in the same update, so the card slides back from off-screen to the centre | any committed swipe, e.g. like with a 400-pixel window: the offset goes from (400, 0) to (0, 0) with the transition on | the jump back happens with the transition off, as the comment "instant reset" says, and the transition is re-armed 50 ms later | high, not executed | Swipe.ResetAsWrittenIsAnimated | Swipe.FireTimer |
| src/components/shared/OnboardingTutorial.tsx:110-126 | `isAnimating` is set but never read, so two next presses within 200 ms both schedule `prev + 1` | step 7 (store), next pressed twice within 200 ms: the step becomes 9, and there is no step 9 to show | presses during a step change are ignored, so the step stays within the nine steps | high, not executed | Onboarding.DoubleNextOverrunsAsWritten | Onboarding.GuardedStaysInRange |
| src/components/discovery/SwipeCard.tsx:39-50 | each move measures from the centre of the card's own bounding box, which the inline transform has already moved by the current offset | touches 150 and then 160 pixels right of the resting centre, the card settled in between: the offset becomes 10, and the release calls nothing | the card's centre follows the finger: the offset is the touch relative to the resting centre, so that touch likes the profile | medium, not executed | SwipeCard.SettledDragLosesLikeAsWritten | SwipeCard.TouchGesture |
| src/components/chat/ChatInterface.tsx:105-114 | the send button is disabled only for blank text or a pending request, and the request starts 500 ms after the click, so a second click in that window queues a second send | type "hi", click send twice within 500 ms: "hi" is posted twice | one message per send; the button is also disabled while `isTyping` | medium, not executed | ChatInterface.DoubleClickPostsTwiceAsWritten | ChatInterface.ComposerStaysValid |
