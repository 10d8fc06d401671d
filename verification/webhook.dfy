/** `WebhookManager`: the router of the refactored server. It receives an UltraMsg payload,
    drops duplicates and non-text events, ignores group chats, answers a confirmation with the
    canned reply when the user was sent the agenda, and otherwise relays the text to the
    assistant and sends the answer back.

    The two network collaborators are oracles: `Sender` stands for
    `ultraMsgManager.sendMessage(to, text)` and `Assistant` for
    `openAIManager.processMessage(userId, text)` (called with its default client code). Each
    returns `Failure(e)` where the JavaScript call throws an error with message `e`. The router
    records every call it makes, in order, as an `Effect`. */
module Webhook {
  import opened Wrappers
  import opened Text
  import opened Confirmation
  import opened UserContext

  // ---------------------------------------------------------------------------
  // Webhook token

  /** `verifyWebhookToken(token)`: strict equality with the configured token, where `None`
      stands for `undefined`; with no configured token, a request without one passes. */
  predicate VerifyWebhookToken(token: Option<string>, configured: Option<string>) {
    token == configured
  }

  lemma UnconfiguredTokenAcceptsMissing()
    ensures VerifyWebhookToken(None, None)
    ensures forall t: string :: !VerifyWebhookToken(Some(t), None)
  {
  }

  // ---------------------------------------------------------------------------
  // The set of processed message ids

  /** Most ids kept by the dedup set. */
  const DedupCapacity: nat := 1000

  /** A JavaScript `Set` of ids, as the sequence of its members in insertion order. */
  type Window = seq<string>

  ghost predicate Distinct(w: Window) {
    forall i, j :: 0 <= i < j < |w| ==> w[i] != w[j]
  }

  /** What the router maintains: no repeated id and at most `DedupCapacity` of them. */
  ghost predicate ValidWindow(w: Window) {
    |w| <= DedupCapacity && Distinct(w)
  }

  /** `isMessageProcessed(messageId)`. */
  predicate IsMessageProcessed(w: Window, id: string) {
    id in w
  }

  /** `Set.prototype.add`: a new member goes last, an existing one keeps its place. */
  function SetAdd(w: Window, id: string): (r: Window)
    ensures id in r
    ensures forall x :: x in r <==> x in w || x == id
    ensures Distinct(w) ==> Distinct(r)
    ensures id in w ==> r == w
    ensures id !in w ==> |r| == |w| + 1 && r[..|w|] == w
  {
    if id in w then w else w + [id]
  }

  /** `markMessageAsProcessed(messageId)`: add the id, then delete the oldest members until
      `DedupCapacity` remain. */
  function MarkMessageAsProcessed(w: Window, id: string): (r: Window)
    ensures |r| <= DedupCapacity
    ensures id in r || (id in w && |w| > DedupCapacity)
    ensures forall x :: x in r ==> x in w || x == id
    ensures |w| < DedupCapacity ==> forall x :: x in w ==> x in r
    ensures Distinct(w) ==> Distinct(r)
    ensures ValidWindow(w) ==> ValidWindow(r) && id in r
  {
    var s := SetAdd(w, id);
    if |s| > DedupCapacity then s[|s| - DedupCapacity..] else s
  }

  /** Eviction is oldest-first: when a member survives a mark, so does every member inserted
      after it. */
  lemma EvictsOldestFirst(w: Window, id: string, i: nat, j: nat)
    requires Distinct(w) && i < j < |w|
    requires w[i] in MarkMessageAsProcessed(w, id)
    ensures w[j] in MarkMessageAsProcessed(w, id)
  {
    var s := SetAdd(w, id);
    assert s[i] == w[i] && s[j] == w[j];
    if |s| > DedupCapacity {
      var k := |s| - DedupCapacity;
      var r := s[k..];
      var m :| 0 <= m < |r| && r[m] == w[i];
      assert s[k + m] == s[i];
      assert k + m == i;
      assert r[j - k] == w[j];
    }
  }

  /** With a full window, a new id evicts exactly the oldest member. */
  lemma FullWindowEvictsOne(w: Window, id: string)
    requires ValidWindow(w) && |w| == DedupCapacity && id !in w
    ensures MarkMessageAsProcessed(w, id) == w[1..] + [id]
  {
  }

  /** The window after marking `ids` one by one, starting from the constructor's empty set. */
  function MarkAll(ids: seq<string>): Window
    decreases |ids|
  {
    if ids == [] then [] else MarkMessageAsProcessed(MarkAll(ids[..|ids| - 1]), ids[|ids| - 1])
  }

  /** Any history of marks keeps the window valid, holds nothing that was never marked, and
      holds the latest id. */
  lemma {:induction false} MarkAllValid(ids: seq<string>)
    ensures ValidWindow(MarkAll(ids))
    ensures forall x :: x in MarkAll(ids) ==> x in ids
    ensures ids != [] ==> ids[|ids| - 1] in MarkAll(ids)
    decreases |ids|
  {
    if ids != [] {
      var prefix := ids[..|ids| - 1];
      MarkAllValid(prefix);
      forall x | x in MarkAll(ids)
        ensures x in ids
      {
        if x != ids[|ids| - 1] {
          assert x in prefix;
        }
      }
    }
  }

  // ---------------------------------------------------------------------------
  // Payloads

  /** The `chat` object of a message; `isGroup` is true only where the payload holds the
      boolean `true` (the test is `=== true`). */
  datatype Chat = Chat(isGroup: bool, id: Option<string>)

  /** `body.data`. A missing `body` field is the empty string: both are falsy, and the body is
      only ever tested for truthiness before use. */
  datatype Message = Message(id: string, from: Option<string>, body: string, chat: Option<Chat>)

  datatype Payload = Payload(eventType: Option<string>, data: Option<Message>)

  const GroupSuffix: string := "@g.us"
  const ContactSuffix: string := "@c.us"
  const MessageCreate: string := "message_create"

  /** `isGroupMessage(messageData)`: a sender is present and either it or the chat id ends in
      `@g.us`, or the chat is flagged as a group. */
  predicate IsGroupMessage(m: Message) {
    && Truthy(m.from)
    && (|| EndsWith(m.from.value, GroupSuffix)
        || (m.chat.Some? && m.chat.value.isGroup)
        || (m.chat.Some? && Truthy(m.chat.value.id) && EndsWith(m.chat.value.id.value, GroupSuffix)))
  }

  /** The user id: `from` with its first `@c.us` removed. */
  function UserIdOf(from: string): (r: string)
    ensures !Contains(from, ContactSuffix) ==> r == from
  {
    ContainsIndexOf(from, ContactSuffix);
    ReplaceFirst(from, ContactSuffix, "")
  }

  /** A phone number followed by `@c.us` becomes the bare number. */
  lemma UserIdOfContact(number: string)
    requires '@' !in number
    ensures UserIdOf(number + ContactSuffix) == number
  {
    var s := number + ContactSuffix;
    assert OccursAt(s, ContactSuffix, |number|) by {
      assert s[|number|..|number| + |ContactSuffix|] == ContactSuffix;
    }
    forall j | 0 <= j < |number|
      ensures !OccursAt(s, ContactSuffix, j)
    {
      assert s[j] == number[j];
      assert ContactSuffix[0] == '@';
    }
    assert IndexOf(s, ContactSuffix, 0) == Some(|number|);
    assert s[..|number|] == number;
    assert s[|number| + |ContactSuffix|..] == [];
  }

  /** The example payloads of the group-detection script: a private chat, a group flagged by
      its chat object, and a group recognised by the `@g.us` sender alone. */
  lemma GroupDetectionExamples(private: Message, flagged: Message, bySuffix: Message)
    requires private.from == Some("55123456789@c.us") && private.chat == None
    requires flagged.from == Some("55123456789-1234567890@g.us")
    requires flagged.chat == Some(Chat(true, Some("55123456789-1234567890@g.us")))
    requires bySuffix.from == Some("55123456789-1234567890@g.us") && bySuffix.chat == None
    ensures !IsGroupMessage(private)
    ensures IsGroupMessage(flagged) && IsGroupMessage(bySuffix)
  {
    var p := "55123456789@c.us";
    assert p[|p| - 5..] == "@c.us";
    var g := "55123456789-1234567890@g.us";
    assert g[|g| - 5..] == "@g.us";
  }

  // ---------------------------------------------------------------------------
  // Handling one message

  datatype Effect =
    | Sent(to: string, text: string)
    | Asked(userId: string, text: string)

  type Sender = (string, string) -> Result<(), string>
  type Assistant = (string, string) -> Result<string, string>

  /** The contexts a step leaves, the calls it made, and its value or thrown error. */
  datatype Step<+T> = Step(contexts: Store, effects: seq<Effect>, value: Result<T, string>)

  /** `processConfirmationMessage(userId, message)`: `true` when the text was answered with the
      canned reply. The initial `getUserContext` stores a fresh context for an unknown user. */
  function ProcessConfirmationMessage(contexts: Store, userId: string, message: string, now: int,
                                      send: Sender): (r: Step<bool>)
    ensures r.value == Success(false) ==> r.effects == []
    ensures var waiting := Lookup(contexts, userId).isWaitingForConfirmation;
      && (IsConfirmationMessage(message) && waiting ==>
            && r.effects == [Sent(userId, ConfirmationResponse)]
            && (send(userId, ConfirmationResponse).Success? ==>
                  r.value == Success(true) &&
                  r.contexts == UpdateUserContext(contexts, userId, ConfirmationType, message, now))
            && (send(userId, ConfirmationResponse).Failure? ==>
                  r.value == Failure(send(userId, ConfirmationResponse).error) &&
                  forall u :: Lookup(r.contexts, u) == Lookup(contexts, u)))
      && (IsConfirmationMessage(message) && !waiting ==>
            r.effects == [] && r.value == Success(false) &&
            r.contexts == UpdateUserContext(contexts, userId, ConfirmationType, message, now))
      && (!IsConfirmationMessage(message) ==>
            r.effects == [] && r.value == Success(false) &&
            forall u :: Lookup(r.contexts, u) == Lookup(contexts, u))
  {
    var (seen, ctx) := GetUserContext(contexts, userId);
    UpdateAfterGet(contexts, userId, message, now);
    if IsConfirmationMessage(message) && ctx.isWaitingForConfirmation then
      var sent := [Sent(userId, ConfirmationResponse)];
      match send(userId, ConfirmationResponse)
      case Failure(e) => Step(seen, sent, Failure(e))
      case Success(_) => Step(UpdateUserContext(seen, userId, ConfirmationType, message, now), sent, Success(true))
    else if IsConfirmationMessage(message) then
      Step(UpdateUserContext(seen, userId, ConfirmationType, message, now), [], Success(false))
    else
      Step(seen, [], Success(false))
  }

  /** Updating after the lookup's insertion is the same as updating directly. */
  lemma UpdateAfterGet(contexts: Store, userId: string, message: string, now: int)
    ensures var seen := GetUserContext(contexts, userId).0;
      UpdateUserContext(seen, userId, ConfirmationType, message, now) ==
      UpdateUserContext(contexts, userId, ConfirmationType, message, now)
  {
  }

  const FromMissingError: string := "Cannot read properties of undefined (reading 'replace')"

  /** The assistant path of `processMessage`: ask, then send the answer back. */
  function AskAndReply(contexts: Store, userId: string, text: string, send: Sender, ask: Assistant)
    : (r: Step<Option<string>>)
    ensures r.contexts == contexts
    ensures |r.effects| >= 1 && r.effects[0] == Asked(userId, text)
    ensures ask(userId, text).Failure? ==> r.effects == [Asked(userId, text)] && r.value == Failure(ask(userId, text).error)
    ensures ask(userId, text).Success? ==>
      var answer := ask(userId, text).value;
      && r.effects == [Asked(userId, text), Sent(userId, answer)]
      && (send(userId, answer).Success? ==> r.value == Success(Some(answer)))
      && (send(userId, answer).Failure? ==> r.value == Failure(send(userId, answer).error))
  {
    match ask(userId, text)
    case Failure(e) => Step(contexts, [Asked(userId, text)], Failure(e))
    case Success(answer) =>
      var effects := [Asked(userId, text), Sent(userId, answer)];
      match send(userId, answer)
      case Failure(e) => Step(contexts, effects, Failure(e))
      case Success(_) => Step(contexts, effects, Success(Some(answer)))
  }

  /** `processMessage(messageData)`: the assistant's answer that was sent, or `None` when the
      message was a group message or was answered as a confirmation. */
  function ProcessMessage(contexts: Store, m: Message, now: int, send: Sender, ask: Assistant)
    : (r: Step<Option<string>>)
    ensures r.value.Success? ==> m.from.Some?
    ensures IsGroupMessage(m) ==> r == Step(contexts, [], Success(None))
    ensures !IsGroupMessage(m) && m.from.None? ==> r == Step(contexts, [], Failure(FromMissingError))
    ensures !IsGroupMessage(m) && m.from.Some? ==>
      var u := UserIdOf(m.from.value);
      var c := ProcessConfirmationMessage(contexts, u, m.body, now, send);
      && (c.value.Failure? ==> r == Step(c.contexts, c.effects, Failure(c.value.error)))
      && (c.value == Success(true) ==> r == Step(c.contexts, c.effects, Success(None)))
      && (c.value == Success(false) ==> r == AskAndReply(c.contexts, u, m.body, send, ask))
  {
    if IsGroupMessage(m) then Step(contexts, [], Success(None))
    else if m.from.None? then Step(contexts, [], Failure(FromMissingError))
    else
      var from := UserIdOf(m.from.value);
      var c := ProcessConfirmationMessage(contexts, from, m.body, now, send);
      match c.value
      case Failure(e) => Step(c.contexts, c.effects, Failure(e))
      case Success(true) => Step(c.contexts, c.effects, Success(None))
      case Success(false) => AskAndReply(c.contexts, from, m.body, send, ask)
  }

  // ---------------------------------------------------------------------------
  // Handling one request

  datatype Router = Router(processed: Window, contexts: Store)

  /** The constructor's state: no processed ids, no contexts. */
  const NewRouter: Router := Router([], map[])

  /** The object `handleWebhook` returns: `{processed: false, reason}`, or
      `{processed: true, response, userId, reason?}`. */
  datatype Reply =
    | Rejected(reason: string)
    | Processed(response: Option<string>, userId: string, note: Option<string>)

  const InvalidFormat: string := "invalid_message_format"
  const AlreadyProcessed: string := "already_processed"
  const NotTextMessage: string := "not_text_message"
  const GroupIgnored: string := "group_message_ignored"

  /** The router after the request, the calls made, and the reply or the thrown error. A throw
      keeps every change made before it. */
  datatype Outcome = Outcome(router: Router, effects: seq<Effect>, reply: Result<Reply, string>)

  /** The request passes the format, duplicate and event-type checks and reaches
      `processMessage`. */
  predicate Admitted(router: Router, p: Payload) {
    && p.data.Some? && p.data.value.body != ""
    && !IsMessageProcessed(router.processed, p.data.value.id)
    && p.eventType != Some(MessageCreate)
  }

  /** `handleWebhook(body)`. */
  function HandleWebhook(router: Router, p: Payload, now: int, send: Sender, ask: Assistant)
    : (r: Outcome)
    ensures p.data.None? || p.data.value.body == "" ==>
      r == Outcome(router, [], Success(Rejected(InvalidFormat)))
    ensures r.reply.Success? && r.reply.value.Processed? ==>
      && p.data.Some? && p.data.value.from.Some?
      && r.reply.value.userId == UserIdOf(p.data.value.from.value)
    ensures r.router.processed == router.processed || p.data.Some?
    ensures p.data.Some? && p.data.value.body != "" && !IsMessageProcessed(router.processed, p.data.value.id) ==>
      r.router.processed == MarkMessageAsProcessed(router.processed, p.data.value.id)
    ensures Admitted(router, p) ==>
      var step := ProcessMessage(router.contexts, p.data.value, now, send, ask);
      && r.router.contexts == step.contexts
      && r.effects == step.effects
      && (step.value.Failure? ==> r.reply == Failure(step.value.error))
      && (step.value.Success? && !IsGroupMessage(p.data.value) ==>
            r.reply == Success(Processed(step.value.value, UserIdOf(p.data.value.from.value), None)))
  {
    if p.data.None? || p.data.value.body == "" then
      Outcome(router, [], Success(Rejected(InvalidFormat)))
    else
      var m := p.data.value;
      if IsMessageProcessed(router.processed, m.id) then
        Outcome(router, [], Success(Rejected(AlreadyProcessed)))
      else
        var marked := router.(processed := MarkMessageAsProcessed(router.processed, m.id));
        if p.eventType == Some(MessageCreate) then
          Outcome(marked, [], Success(Rejected(NotTextMessage)))
        else
          var step := ProcessMessage(marked.contexts, m, now, send, ask);
          var after := marked.(contexts := step.contexts);
          match step.value
          case Failure(e) => Outcome(after, step.effects, Failure(e))
          case Success(response) =>
            var userId := UserIdOf(m.from.value);
            if response.None? && IsGroupMessage(m) then
              Outcome(after, step.effects, Success(Processed(None, userId, Some(GroupIgnored))))
            else
              Outcome(after, step.effects, Success(Processed(response, userId, None)))
  }

  /** A repeated id is rejected and nothing else happens. */
  lemma DuplicateIgnored(router: Router, p: Payload, now: int, send: Sender, ask: Assistant)
    requires p.data.Some? && p.data.value.body != ""
    requires IsMessageProcessed(router.processed, p.data.value.id)
    ensures HandleWebhook(router, p, now, send, ask) == Outcome(router, [], Success(Rejected(AlreadyProcessed)))
  {
  }

  /** A `message_create` event is recorded as processed, then rejected. */
  lemma NonTextMarkedAndRejected(router: Router, p: Payload, now: int, send: Sender, ask: Assistant)
    requires ValidWindow(router.processed)
    requires p.data.Some? && p.data.value.body != "" && !IsMessageProcessed(router.processed, p.data.value.id)
    requires p.eventType == Some(MessageCreate)
    ensures var r := HandleWebhook(router, p, now, send, ask);
      && r.reply == Success(Rejected(NotTextMessage))
      && r.effects == []
      && IsMessageProcessed(r.router.processed, p.data.value.id)
      && r.router.contexts == router.contexts
  {
  }

  /** Once handled, the same payload is a duplicate, whatever happened the first time
      (including a throw). */
  lemma SecondDeliveryIsDuplicate(router: Router, p: Payload, now: int, send: Sender, ask: Assistant)
    requires ValidWindow(router.processed)
    requires p.data.Some? && p.data.value.body != ""
    ensures var first := HandleWebhook(router, p, now, send, ask);
      HandleWebhook(first.router, p, now, send, ask) ==
        Outcome(first.router, [], Success(Rejected(AlreadyProcessed)))
  {
  }

  /** Group messages are acknowledged without a reply: no call is made and no context changes. */
  lemma GroupMessageIgnored(router: Router, p: Payload, now: int, send: Sender, ask: Assistant)
    requires p.data.Some? && p.data.value.body != "" && !IsMessageProcessed(router.processed, p.data.value.id)
    requires p.eventType != Some(MessageCreate)
    requires IsGroupMessage(p.data.value)
    ensures var r := HandleWebhook(router, p, now, send, ask);
      && r.effects == []
      && r.router.contexts == router.contexts
      && r.reply == Success(Processed(None, UserIdOf(p.data.value.from.value), Some(GroupIgnored)))
  {
  }

  /** A private message that reaches the router: the user id, the text, and what the user's
      context says. */
  ghost predicate Reaches(router: Router, p: Payload, userId: string, text: string) {
    && Admitted(router, p) && p.data.value.body == text
    && !IsGroupMessage(p.data.value)
    && p.data.value.from.Some? && userId == UserIdOf(p.data.value.from.value)
  }

  /** A confirmation from a user who was sent the agenda is answered with the canned reply; the
      assistant is not asked and the context records the confirmation. */
  lemma ConfirmationWhileWaiting(router: Router, p: Payload, userId: string, text: string, now: int,
                                 send: Sender, ask: Assistant)
    requires Reaches(router, p, userId, text)
    requires IsConfirmationMessage(text) && Lookup(router.contexts, userId).isWaitingForConfirmation
    requires send(userId, ConfirmationResponse).Success?
    ensures var r := HandleWebhook(router, p, now, send, ask);
      && r.effects == [Sent(userId, ConfirmationResponse)]
      && r.reply == Success(Processed(None, userId, None))
      && r.router.contexts == UpdateUserContext(router.contexts, userId, ConfirmationType, text, now)
      && !r.router.contexts[userId].isWaitingForConfirmation
  {
  }

  /** A confirmation from a user who is not waiting is counted, and still goes to the
      assistant. */
  lemma ConfirmationNotWaiting(router: Router, p: Payload, userId: string, text: string, now: int,
                               send: Sender, ask: Assistant)
    requires Reaches(router, p, userId, text)
    requires IsConfirmationMessage(text) && !Lookup(router.contexts, userId).isWaitingForConfirmation
    ensures var r := HandleWebhook(router, p, now, send, ask);
      && |r.effects| >= 1 && r.effects[0] == Asked(userId, text)
      && r.router.contexts == UpdateUserContext(router.contexts, userId, ConfirmationType, text, now)
  {
  }

  /** Any other text goes to the assistant, its answer is sent back and returned, and no
      context changes. */
  lemma OrdinaryMessageRelayed(router: Router, p: Payload, userId: string, text: string, now: int,
                               send: Sender, ask: Assistant)
    requires Reaches(router, p, userId, text)
    requires !IsConfirmationMessage(text)
    ensures var r := HandleWebhook(router, p, now, send, ask);
      && |r.effects| >= 1 && r.effects[0] == Asked(userId, text)
      && (forall u :: Lookup(r.router.contexts, u) == Lookup(router.contexts, u))
      && (ask(userId, text).Success? && send(userId, ask(userId, text).value).Success? ==>
            && r.effects == [Asked(userId, text), Sent(userId, ask(userId, text).value)]
            && r.reply == Success(Processed(Some(ask(userId, text).value), userId, None)))
      && (ask(userId, text).Failure? ==> r.reply == Failure(ask(userId, text).error))
  {
  }

  /** A private payload without a sender throws, after its id was recorded. */
  lemma MissingSenderThrows(router: Router, p: Payload, now: int, send: Sender, ask: Assistant)
    requires p.data.Some? && p.data.value.body != "" && !IsMessageProcessed(router.processed, p.data.value.id)
    requires p.eventType != Some(MessageCreate) && p.data.value.from.None?
    ensures var r := HandleWebhook(router, p, now, send, ask);
      && r.reply == Failure(FromMissingError)
      && r.effects == []
      && IsMessageProcessed(r.router.processed, p.data.value.id)
  {
  }
}
