/** The message composer of src/components/chat/ChatInterface.tsx: the contact-information
    pattern each sent message is checked against, the delayed send, the blur rule for
    contact information and the send button's disabled state. The request itself is
    outside the model: a send appears as the text posted and its settling as an event. */
module ChatInterface {
  import opened Options
  import opened Text

  // ------------------------------------------------------ the contact pattern

  /** `n` characters of `\d` start at `i`. */
  ghost predicate DigitsAt(s: string, i: nat, n: nat) {
    i + n <= |s| && forall k :: i <= k < i + n ==> IsDigit(s[k])
  }

  /** `n` characters of `\w` start at `i`. */
  ghost predicate WordsAt(s: string, i: nat, n: nat) {
    i + n <= |s| && forall k :: i <= k < i + n ==> IsWordChar(s[k])
  }

  /** `[-.]` at `i`. */
  predicate SeparatorAt(s: string, i: nat) {
    i < |s| && (s[i] == '-' || s[i] == '.')
  }

  /** `\d{3}[-.]?\d{3}[-.]?\d{4}` matches at `i`, taking each optional separator or not. */
  ghost predicate PhoneWith(s: string, i: nat, sep1: bool, sep2: bool) {
    var p2 := i + 3 + (if sep1 then 1 else 0);
    var p3 := p2 + 3 + (if sep2 then 1 else 0);
    && DigitsAt(s, i, 3)
    && (sep1 ==> SeparatorAt(s, i + 3))
    && DigitsAt(s, p2, 3)
    && (sep2 ==> SeparatorAt(s, p2 + 3))
    && DigitsAt(s, p3, 4)
  }

  ghost predicate PhoneAt(s: string, i: nat) {
    PhoneWith(s, i, false, false) || PhoneWith(s, i, false, true)
    || PhoneWith(s, i, true, false) || PhoneWith(s, i, true, true)
  }

  /** `\+\d{1,3}\s?\d{1,14}` matches at `i` with `a` digits, an optional space and `b`
      digits. */
  ghost predicate IntlWith(s: string, i: nat, a: nat, space: bool, b: nat) {
    && 1 <= a <= 3 && 1 <= b <= 14
    && i < |s| && s[i] == '+'
    && DigitsAt(s, i + 1, a)
    && (space ==> i + 1 + a < |s| && IsSpace(s[i + 1 + a]))
    && DigitsAt(s, i + 1 + a + (if space then 1 else 0), b)
  }

  ghost predicate IntlAt(s: string, i: nat) {
    exists a: nat, space: bool, b: nat :: IntlWith(s, i, a, space, b)
  }

  /** `@\w+\.\w+` matches at `i` with `m` and `n` word characters. */
  ghost predicate HandleWith(s: string, i: nat, m: nat, n: nat) {
    && m >= 1 && n >= 1
    && i < |s| && s[i] == '@'
    && WordsAt(s, i + 1, m)
    && i + 1 + m < |s| && s[i + 1 + m] == '.'
    && WordsAt(s, i + 2 + m, n)
  }

  ghost predicate HandleAt(s: string, i: nat) {
    exists m: nat, n: nat :: HandleWith(s, i, m, n)
  }

  /** One of the three alternatives matches starting at `i`. */
  ghost predicate MatchAt(s: string, i: nat) {
    PhoneAt(s, i) || IntlAt(s, i) || HandleAt(s, i)
  }

  /** `/(…)/.test(s)`: the unanchored pattern matches somewhere in `s`. */
  ghost predicate LooksLikeContact(s: string) {
    exists i: nat :: i < |s| && MatchAt(s, i)
  }

  // ---------------------------------------------- deciding each alternative

  predicate DigitAt(s: string, i: nat) {
    i < |s| && IsDigit(s[i])
  }

  /** The phone alternative, decided directly. */
  predicate PhoneCheck(s: string, i: nat)
    ensures PhoneCheck(s, i) <==> PhoneAt(s, i)
  {
    var sep1 := SeparatorAt(s, i + 3);
    var p2 := i + 3 + (if sep1 then 1 else 0);
    var plain2 := DigitAt(s, p2) && DigitAt(s, p2 + 1) && DigitAt(s, p2 + 2);
    var plain := DigitAt(s, i) && DigitAt(s, i + 1) && DigitAt(s, i + 2) && plain2;
    var sep2 := SeparatorAt(s, p2 + 3);
    var p3 := p2 + 3 + (if sep2 then 1 else 0);
    assert !SeparatorAt(s, i + 3) ==> !PhoneWith(s, i, true, false) && !PhoneWith(s, i, true, true);
    assert SeparatorAt(s, i + 3) ==> !PhoneWith(s, i, false, false) && !PhoneWith(s, i, false, true);
    assert !SeparatorAt(s, p2 + 3) ==> !PhoneWith(s, i, sep1, true);
    assert SeparatorAt(s, p2 + 3) ==> !PhoneWith(s, i, sep1, false);
    plain && DigitAt(s, p3) && DigitAt(s, p3 + 1) && DigitAt(s, p3 + 2) && DigitAt(s, p3 + 3)
  }

  /** The international alternative needs only '+', a digit, and then a digit or a space
      and a digit: any longer match begins with one of these two shapes. */
  predicate IntlCheck(s: string, i: nat) {
    && i < |s| && s[i] == '+' && DigitAt(s, i + 1)
    && (DigitAt(s, i + 2) || (i + 2 < |s| && IsSpace(s[i + 2]) && DigitAt(s, i + 3)))
  }

  lemma IntlCheckCorrect(s: string, i: nat)
    ensures IntlCheck(s, i) <==> IntlAt(s, i)
  {
    if IntlCheck(s, i) {
      if DigitAt(s, i + 2) {
        assert IntlWith(s, i, 1, false, 1);
      } else {
        assert IntlWith(s, i, 1, true, 1);
      }
    }
    if IntlAt(s, i) {
      var a: nat, space: bool, b: nat :| IntlWith(s, i, a, space, b);
      assert DigitAt(s, i + 1);
      if a >= 2 {
        assert DigitAt(s, i + 2);
      } else if !space {
        assert DigitAt(s, i + 2);
      } else {
        assert IsSpace(s[i + 2]) && DigitAt(s, i + 3);
      }
    }
  }

  /** The first position at or after `j` that does not hold a word character. */
  function WordEnd(s: string, j: nat): (k: nat)
    requires j <= |s|
    ensures j <= k <= |s|
    ensures forall t :: j <= t < k ==> IsWordChar(s[t])
    ensures k < |s| ==> !IsWordChar(s[k])
    decreases |s| - j
  {
    if j < |s| && IsWordChar(s[j]) then WordEnd(s, j + 1) else j
  }

  /** The handle alternative: '.' is not a word character, so `\w+` must take the whole run
      of word characters after '@', which must then be followed by '.' and a word
      character. */
  predicate HandleCheck(s: string, i: nat) {
    && i < |s| && s[i] == '@'
    && var k := WordEnd(s, i + 1);
       k > i + 1 && k + 1 < |s| && s[k] == '.' && IsWordChar(s[k + 1])
  }

  lemma HandleCheckCorrect(s: string, i: nat)
    ensures HandleCheck(s, i) <==> HandleAt(s, i)
  {
    if HandleCheck(s, i) {
      var k := WordEnd(s, i + 1);
      assert HandleWith(s, i, k - (i + 1), 1);
    }
    if HandleAt(s, i) {
      var m: nat, n: nat :| HandleWith(s, i, m, n);
      var k := WordEnd(s, i + 1);
      assert k == i + 1 + m;
      assert IsWordChar(s[k + 1]);
    }
  }

  /** The `isContactInfo` flag sent with a message: scans the start positions in order and
      stops at the first one where an alternative matches. */
  method IsContactInfo(s: string) returns (found: bool)
    ensures found <==> LooksLikeContact(s)
  {
    var i := 0;
    while i < |s|
      invariant 0 <= i <= |s|
      invariant forall j: nat :: j < i ==> !MatchAt(s, j)
    {
      IntlCheckCorrect(s, i);
      HandleCheckCorrect(s, i);
      if PhoneCheck(s, i) || IntlCheck(s, i) || HandleCheck(s, i) {
        assert MatchAt(s, i);
        return true;
      }
      i := i + 1;
    }
    return false;
  }

  /** Ten digits in a row are always flagged. */
  lemma TenDigitsAreContact(s: string, i: nat)
    requires i + 10 <= |s| && forall k :: i <= k < i + 10 ==> IsDigit(s[k])
    ensures LooksLikeContact(s)
  {
    assert PhoneWith(s, i, false, false);
    assert MatchAt(s, i);
  }

  /** An e-mail address is flagged by the part from '@' on. */
  lemma EmailIsContact(local: string, domain: string, tld: string)
    requires |domain| >= 1 && |tld| >= 1
    requires forall k :: 0 <= k < |domain| ==> IsWordChar(domain[k])
    requires forall k :: 0 <= k < |tld| ==> IsWordChar(tld[k])
    ensures LooksLikeContact(local + "@" + domain + "." + tld)
  {
    var s := local + "@" + domain + "." + tld;
    var i := |local|;
    assert s[i] == '@';
    assert s[i + 1 + |domain|] == '.';
    assert forall k :: i + 1 <= k < i + 1 + |domain| ==> s[k] == domain[k - i - 1];
    assert forall k :: i + 2 + |domain| <= k < i + 2 + |domain| + |tld| ==> s[k] == tld[k - i - 2 - |domain|];
    assert HandleWith(s, i, |domain|, |tld|);
    assert MatchAt(s, i);
  }

  /** Text without digits and without '@' is never flagged: each alternative needs one. */
  lemma PlainTextIsNotContact(s: string)
    requires forall k :: 0 <= k < |s| ==> !IsDigit(s[k]) && s[k] != '@'
    ensures !LooksLikeContact(s)
  {
    forall i: nat | i < |s| ensures !MatchAt(s, i) {
      IntlCheckCorrect(s, i);
      HandleCheckCorrect(s, i);
    }
  }

  // ------------------------------------------------------------- the composer

  /** `handleSendMessage`: the trimmed text is what gets sent, and only when it is not
      blank. */
  function SendText(text: string): (r: Option<string>)
    ensures r.None? <==> IsBlank(text)
    ensures r.Some? ==> r.value == Trim(text) && r.value != []
  {
    var t := Trim(text);
    if t == [] then None else Some(t)
  }

  /** `shouldBlurContent`: contact information is blurred unless the current user is known
      and premium. */
  function ShouldBlur(isContactInfo: bool, premium: Option<bool>): (r: bool)
    ensures r <==> isContactInfo && premium != Some(true)
  {
    isContactInfo && !(premium.Some? && premium.value)
  }

  /** The send button's `disabled`: blank text, or a send request in flight. */
  function SendDisabled(text: string, requestPending: bool): (r: bool)
    ensures r <==> IsBlank(text) || requestPending
  {
    Trim(text) == [] || requestPending
  }

  /** An enabled button always submits a non-blank message: the button's rule and the
      handler's rule agree. */
  lemma EnabledButtonSends(text: string, requestPending: bool)
    requires !SendDisabled(text, requestPending)
    ensures SendText(text).Some?
  {
  }

  /** The composer: the input text, `isTyping` (set for the 500 ms before the send), the
      sends waiting for their 500 ms timer in order, whether a send request is pending, and
      the texts posted so far. */
  datatype Composer = Composer(text: string, typing: bool, queued: seq<string>, requestPending: bool,
                               posted: seq<string>)

  const Empty: Composer := Composer([], false, [], false, [])

  datatype ComposerEvent = Type(value: string) | Click | TimerFires | RequestSettles(ok: bool)

  /** The events other than a click, shared by both versions. The input is disabled while
      typing. The timer posts the text it captured and clears `isTyping`; the request
      settling clears the input on success. */
  function OtherEvent(c: Composer, e: ComposerEvent): (r: Composer)
    ensures c.posted <= r.posted && |r.posted| <= |c.posted| + 1
    ensures r.posted != c.posted ==>
      && e == TimerFires && c.queued != [] && r.posted == c.posted + [c.queued[0]]
      && r.queued == c.queued[1..] && r.requestPending && !r.typing
    ensures e == TimerFires && c.queued != [] ==>
      r == c.(queued := c.queued[1..], typing := false, requestPending := true,
               posted := c.posted + [c.queued[0]])
    ensures e == TimerFires && c.queued == [] ==> r == c
    ensures e.Click? ==> r == c
    ensures e.Type? ==> r == (if c.typing then c else c.(text := e.value))
    ensures e.RequestSettles? ==>
      && r.queued == c.queued && r.posted == c.posted && r.typing == c.typing && !r.requestPending
      && r.text == (if c.requestPending && e.ok then [] else c.text)
  {
    match e
    case Type(v) => if c.typing then c else c.(text := v)
    case Click => c
    case TimerFires =>
      if c.queued == [] then c
      else c.(queued := c.queued[1..], typing := false, requestPending := true,
              posted := c.posted + [c.queued[0]])
    case RequestSettles(ok) =>
      if !c.requestPending then c
      else c.(requestPending := false, text := if ok then [] else c.text)
  }

  /** As written: a click on the enabled button queues the trimmed text; the button is not
      disabled while a send waits for its timer. */
  function StepAsWritten(c: Composer, e: ComposerEvent): (r: Composer)
    ensures e.Click? && !SendDisabled(c.text, c.requestPending) ==>
      r.typing && r.queued == c.queued + [Trim(c.text)] && r.posted == c.posted && r.text == c.text
    ensures e.Click? && SendDisabled(c.text, c.requestPending) ==> r == c
    ensures !e.Click? ==> r == OtherEvent(c, e)
  {
    if e.Click? then
      if SendDisabled(c.text, c.requestPending) then c
      else c.(typing := true, queued := c.queued + [SendText(c.text).value])
    else OtherEvent(c, e)
  }

  function RunAsWritten(c: Composer, es: seq<ComposerEvent>): Composer
    decreases |es|
  {
    if es == [] then c else RunAsWritten(StepAsWritten(c, es[0]), es[1..])
  }

  /** Two clicks within the 500 ms post the same message twice. */
  lemma DoubleClickPostsTwiceAsWritten()
    ensures RunAsWritten(Empty, [Type("hi"), Click, Click, TimerFires, TimerFires]).posted == ["hi", "hi"]
  {
    TrimmedIsFixed("hi");
  }

  /** The button as evidently intended: also disabled while a send waits for its timer. */
  function SendDisabledWhileTyping(c: Composer): (r: bool)
    ensures r <==> SendDisabled(c.text, c.requestPending) || c.typing
  {
    SendDisabled(c.text, c.requestPending) || c.typing
  }

  function Step(c: Composer, e: ComposerEvent): (r: Composer)
    ensures e.Click? && !SendDisabledWhileTyping(c) ==>
      r.typing && r.queued == c.queued + [Trim(c.text)] && r.posted == c.posted
    ensures e.Click? && SendDisabledWhileTyping(c) ==> r == c
  {
    if e.Click? then
      if SendDisabledWhileTyping(c) then c
      else c.(typing := true, queued := c.queued + [SendText(c.text).value])
    else OtherEvent(c, e)
  }

  function Run(c: Composer, es: seq<ComposerEvent>): Composer
    decreases |es|
  {
    if es == [] then c else Run(Step(c, es[0]), es[1..])
  }

  /** At most one send waits for its timer, exactly while `isTyping` is set, and every
      text sent or waiting is non-blank and trimmed. */
  predicate ComposerValid(c: Composer) {
    && |c.queued| <= 1
    && (c.typing <==> c.queued != [])
    && (forall k :: 0 <= k < |c.queued| ==> c.queued[k] != [] && IsTrimmed(c.queued[k]))
    && (forall k :: 0 <= k < |c.posted| ==> c.posted[k] != [] && IsTrimmed(c.posted[k]))
  }

  lemma StepKeepsValid(c: Composer, e: ComposerEvent)
    requires ComposerValid(c)
    ensures ComposerValid(Step(c, e))
    ensures |Step(c, e).posted| <= |c.posted| + 1
  {
    if e.Click? && !SendDisabledWhileTyping(c) {
      assert Step(c, e).queued == [Trim(c.text)];
    } else if e.TimerFires? && c.queued != [] {
      var r := Step(c, e);
      assert r.posted == c.posted + [c.queued[0]];
      assert forall k :: 0 <= k < |r.posted| ==>
        r.posted[k] == (if k < |c.posted| then c.posted[k] else c.queued[0]);
    }
  }

  /** Whatever the user does, each click-to-send posts one message: never two sends waiting
      at once, and only trimmed, non-blank texts are posted. */
  lemma {:induction false} ComposerStaysValid(c: Composer, es: seq<ComposerEvent>)
    requires ComposerValid(c)
    ensures ComposerValid(Run(c, es))
    decreases |es|
  {
    if es != [] {
      StepKeepsValid(c, es[0]);
      ComposerStaysValid(Step(c, es[0]), es[1..]);
    }
  }

  /** With the corrected button, the double click of the as-written counterexample posts
      once: for any text that is not blank, typing it, clicking twice and letting both
      timers fire posts its trimmed text exactly once. */
  lemma DoubleClickPostsOnce(t: string)
    requires !IsBlank(t)
    ensures Run(Empty, [Type(t), Click, Click, TimerFires, TimerFires]).posted == [Trim(t)]
  {
    var es := [Type(t), Click, Click, TimerFires, TimerFires];
    var c1 := Step(Empty, Type(t));
    assert c1 == Composer(t, false, [], false, []);
    var c2 := Step(c1, Click);
    assert c2 == Composer(t, true, [Trim(t)], false, []);
    var c3 := Step(c2, Click);
    assert c3 == c2;
    var c4 := Step(c3, TimerFires);
    assert c4 == Composer(t, false, [], true, [Trim(t)]);
    var c5 := Step(c4, TimerFires);
    assert c5 == c4;
    assert Run(Empty, es) == Run(c1, es[1..]);
    assert Run(c1, es[1..]) == Run(c2, es[2..]);
    assert Run(c2, es[2..]) == Run(c3, es[3..]);
    assert Run(c3, es[3..]) == Run(c4, es[4..]);
    assert Run(c4, es[4..]) == Run(c5, []);
  }
}
