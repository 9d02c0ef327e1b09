/** The conversation view of App.jsx (`ChatPage`): `handleSend` appends the typed message
    optimistically under a temporary id, then either replaces that entry with the message
    the server returns or removes it and restores the typed text. The temporary id
    ("temp-" and the clock reading) is a parameter; the server call is the `SendResult`
    parameter of the second half. */
module ChatPage {
  import opened Options
  import Text

  datatype Message = Message(id: string, senderId: string, content: string, createdAt: string)

  /** `messages`, `newMessage` (the input text), `isSending` and `error`. */
  datatype Chat = Chat(messages: seq<Message>, draft: string, sending: bool, error: string)

  /** What the first half of `handleSend` hands to the second: the temporary id and the
      text being sent. */
  datatype Pending = Pending(optimisticId: string, text: string)

  datatype SendResult = Sent(message: Message) | SendFailed

  const SendFailedText: string := "Failed to send. Please try again."

  /** The messages whose id is not `id`, in their original order. */
  function RemoveById(ms: seq<Message>, id: string): (r: seq<Message>)
    ensures |r| <= |ms|
    ensures forall i :: 0 <= i < |r| ==> r[i].id != id && r[i] in ms
    ensures forall m :: m in ms && m.id != id ==> m in r
  {
    if ms == [] then []
    else if ms[0].id == id then RemoveById(ms[1..], id)
    else [ms[0]] + RemoveById(ms[1..], id)
  }

  /** Removal keeps relative order: it distributes over concatenation. */
  lemma {:induction false} RemoveByIdAppend(a: seq<Message>, b: seq<Message>, id: string)
    ensures RemoveById(a + b, id) == RemoveById(a, id) + RemoveById(b, id)
    decreases |a|
  {
    if a == [] {
      assert a + b == b;
    } else {
      assert (a + b)[1..] == a[1..] + b;
      RemoveByIdAppend(a[1..], b, id);
    }
  }

  /** A list in which no message has the id is left as it is. */
  lemma {:induction false} RemoveAbsentId(ms: seq<Message>, id: string)
    requires forall i :: 0 <= i < |ms| ==> ms[i].id != id
    ensures RemoveById(ms, id) == ms
    decreases |ms|
  {
    if ms != [] {
      RemoveAbsentId(ms[1..], id);
    }
  }

  /** `prev.map(m => m.id === id ? replacement : m)`. */
  function ReplaceById(ms: seq<Message>, id: string, replacement: Message): (r: seq<Message>)
    ensures |r| == |ms|
    ensures forall i :: 0 <= i < |ms| && ms[i].id == id ==> r[i] == replacement
    ensures forall i :: 0 <= i < |ms| && ms[i].id != id ==> r[i] == ms[i]
  {
    if ms == [] then []
    else [if ms[0].id == id then replacement else ms[0]] + ReplaceById(ms[1..], id, replacement)
  }

  /** The first half of `handleSend`. Blank input (after trimming) or a send in flight makes
      it a no-op. Otherwise the untrimmed input is appended as a message with the temporary
      id, the input is cleared, the error cleared and the send marked in flight. */
  function BeginSend(c: Chat, userId: string, optimisticId: string, now: string): (r: (Chat, Option<Pending>))
    ensures Text.Trim(c.draft) == [] || c.sending ==> r == (c, None)
    ensures Text.Trim(c.draft) != [] && !c.sending ==>
      && r.0.messages == c.messages + [Message(optimisticId, userId, c.draft, now)]
      && r.0.draft == [] && r.0.sending && r.0.error == []
      && r.1 == Some(Pending(optimisticId, c.draft))
  {
    if Text.Trim(c.draft) == [] || c.sending then (c, None)
    else
      var optimistic := Message(optimisticId, userId, c.draft, now);
      (Chat(c.messages + [optimistic], [], true, []), Some(Pending(optimisticId, c.draft)))
  }

  /** The second half of `handleSend`, applied to the list as it is when the answer
      arrives. Success replaces exactly the entries carrying the temporary id with the
      server's message and leaves every other entry in place; failure removes those entries,
      puts the sent text back in the input and shows the error. Either way the send is no
      longer in flight. */
  function FinishSend(c: Chat, p: Pending, result: SendResult): (r: Chat)
    ensures !r.sending
    ensures |r.messages| <= |c.messages|
    ensures result.Sent? ==>
      && |r.messages| == |c.messages| && r.draft == c.draft && r.error == c.error
      && forall i :: 0 <= i < |c.messages| ==>
           r.messages[i] == (if c.messages[i].id == p.optimisticId then result.message else c.messages[i])
    ensures result.SendFailed? ==>
      && r.messages == RemoveById(c.messages, p.optimisticId)
      && r.draft == p.text && r.error == SendFailedText
  {
    match result
    case Sent(m) => c.(messages := ReplaceById(c.messages, p.optimisticId, m), sending := false)
    case SendFailed =>
      c.(messages := RemoveById(c.messages, p.optimisticId), draft := p.text,
         error := SendFailedText, sending := false)
  }

  /** No message carries the id: the temporary id is fresh. */
  predicate FreshId(ms: seq<Message>, id: string) {
    forall i :: 0 <= i < |ms| ==> ms[i].id != id
  }

  /** A failed send with a fresh temporary id rolls back: the list is exactly what it was
      before the send, the typed text is back in the input, and only the error banner
      differs. */
  lemma FailedSendRollsBack(c: Chat, userId: string, optimisticId: string, now: string)
    requires Text.Trim(c.draft) != [] && !c.sending && FreshId(c.messages, optimisticId)
    ensures var b := BeginSend(c, userId, optimisticId, now);
      b.1.Some? && FinishSend(b.0, b.1.value, SendFailed) == c.(error := SendFailedText)
  {
    var optimistic := Message(optimisticId, userId, c.draft, now);
    RemoveByIdAppend(c.messages, [optimistic], optimisticId);
    RemoveAbsentId(c.messages, optimisticId);
    assert RemoveById([optimistic], optimisticId) == [];
  }

  /** A successful send with a fresh temporary id leaves the earlier messages untouched and
      ends the list with the server's message. */
  lemma SuccessfulSendAppends(c: Chat, userId: string, optimisticId: string, now: string, m: Message)
    requires Text.Trim(c.draft) != [] && !c.sending && FreshId(c.messages, optimisticId)
    ensures var b := BeginSend(c, userId, optimisticId, now);
      b.1.Some? && FinishSend(b.0, b.1.value, Sent(m)).messages == c.messages + [m]
  {
    var b := BeginSend(c, userId, optimisticId, now);
    var r := FinishSend(b.0, b.1.value, Sent(m)).messages;
    assert forall i :: 0 <= i < |c.messages| ==> b.0.messages[i] == c.messages[i];
    assert r == c.messages + [m];
  }
}
