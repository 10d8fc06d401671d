/** The two single-file servers: `index.js`, which receives WhatsApp Cloud API deliveries and
    answers through the Graph API, and `index-fixed.js`, the same server rewired to UltraMsg.
    Each keeps in process memory the ids of processed messages, the user contexts, and the
    threads and run statuses of the assistant, and relays one message per delivery.

    Their inline confirmation classifier and context helpers are the same code as the
    confirmation and user-context services, so this module uses `Confirmation` and
    `UserContext` for them, through `Webhook.ProcessConfirmationMessage`. Their inline
    conversation with the assistant (thread per sender, active-run gate, polling, tool
    outputs, reply selection) is `Engine.Converse` keyed by the sender. The network is an
    oracle: `Engine.Api` for the assistant service, a `Graph` or `Webhook.Sender` function for
    the outgoing WhatsApp message. */
module Monolith {
  import opened Wrappers
  import opened Text
  import opened UserContext
  import Confirmation
  import Webhook
  import Engine

  /** What a server keeps between deliveries: `processedMessages`, `userContexts`, and the
      assistant's `userThreads` and `threadRuns`. */
  datatype Server = Server(processed: Webhook.Window, contexts: Store, engine: Engine.Engine)

  /** The state after one delivery, the messages sent, the assistant calls made, and the HTTP
      status of the response. */
  datatype Outcome = Outcome(server: Server, effects: seq<Webhook.Effect>,
                             calls: seq<Engine.ApiCall>, status: nat)

  const Ok: nat := 200
  const BadRequest: nat := 400
  const Forbidden: nat := 403
  const TooManyRequests: nat := 429
  const ServerError: nat := 500

  /** Acknowledge the delivery and change nothing. */
  function Ack(s: Server): Outcome {
    Outcome(s, [], [], Ok)
  }

  /** An exception caught by the handler's outer `catch`. */
  function Threw(s: Server): Outcome {
    Outcome(s, [], [], ServerError)
  }

  // ---------------------------------------------------------------------------
  // The dedup set

  /** Once more than `DedupCapacity` ids are stored, the oldest are deleted until exactly that
      many, the newest, remain. */
  function Trim(w: Webhook.Window): (r: Webhook.Window)
    ensures |r| <= Webhook.DedupCapacity
    ensures |r| == if |w| <= Webhook.DedupCapacity then |w| else Webhook.DedupCapacity
    ensures w == w[..|w| - |r|] + r
  {
    if |w| > Webhook.DedupCapacity then w[|w| - Webhook.DedupCapacity..] else w
  }

  /** The id added last survives a trim. */
  lemma TrimKeepsNewest(w: Webhook.Window, id: string)
    requires id !in w
    ensures id in Trim(Webhook.SetAdd(w, id))
  {
    var a := Webhook.SetAdd(w, id);
    var r := Trim(a);
    assert a[|a| - 1] == id;
    assert r[|r| - 1] == a[|a| - 1];
  }

  // ---------------------------------------------------------------------------
  // The shared tail of both handlers

  /** From the confirmation check on: a confirmation while the agenda awaits one is answered
      with the canned reply; otherwise the text goes to the sender's thread, unless a run is
      active there (429), and the assistant's reply is sent back. A failing send, or a reply
      whose first content part is not text, is a 500. */
  function Relay(s: Server, from: string, text: string, now: int, assistantId: Option<string>,
                 api: Engine.Api, send: Webhook.Sender): (r: Outcome)
    ensures r.server.processed == s.processed
  {
    var step := Webhook.ProcessConfirmationMessage(s.contexts, from, text, now, send);
    match step.value
    case Failure(_) => Outcome(s.(contexts := step.contexts), step.effects, [], ServerError)
    case Success(true) => Outcome(s.(contexts := step.contexts), step.effects, [], Ok)
    case Success(false) => Ask(s.(contexts := step.contexts), from, text, assistantId, api, send)
  }

  /** The sender's thread, the active-run gate and the assistant's turn; the reply is sent
      back to the sender. An assistant call that throws is a 500. */
  function Ask(s: Server, from: string, text: string, assistantId: Option<string>,
               api: Engine.Api, send: Webhook.Sender): (r: Outcome)
    ensures r.server.processed == s.processed && r.server.contexts == s.contexts
  {
    match Engine.GetOrCreateThread(s.engine, from, api.newThread)
    case Failure(_) => Threw(s)
    case Success((e1, t)) =>
      if Engine.HasActiveRun(e1, t) then
        Outcome(s.(engine := e1), [], [], TooManyRequests)
      else
        var turn := Engine.Converse(e1, from, text, assistantId, api);
        var s1 := s.(engine := turn.engine);
        match turn.reply
        case Failure(_) => Outcome(s1, [], turn.calls, ServerError)
        case Success(reply) =>
          Outcome(s1, [Webhook.Sent(from, reply)], turn.calls,
                  if send(from, reply).Success? then Ok else ServerError)
  }

  /** Anything but an awaited confirmation reaches the assistant, after the confirmation check
      has stored the user's context and counted an unawaited confirmation. */
  lemma NotAwaitedAsks(s: Server, from: string, text: string, now: int,
                       assistantId: Option<string>, api: Engine.Api, send: Webhook.Sender)
    requires !(Confirmation.IsConfirmationMessage(text) && Lookup(s.contexts, from).isWaitingForConfirmation)
    ensures var step := Webhook.ProcessConfirmationMessage(s.contexts, from, text, now, send);
      && Relay(s, from, text, now, assistantId, api, send) ==
           Ask(s.(contexts := step.contexts), from, text, assistantId, api, send)
      && (Confirmation.IsConfirmationMessage(text) ==>
            step.contexts == UpdateUserContext(s.contexts, from, ConfirmationType, text, now))
      && (!Confirmation.IsConfirmationMessage(text) ==>
            forall u :: Lookup(step.contexts, u) == Lookup(s.contexts, u))
  {
  }

  /** A confirmation while the user is awaited is answered with the canned reply and never
      reaches the assistant: no call, threads and runs as they were. */
  lemma ConfirmationSkipsAssistant(s: Server, from: string, text: string, now: int,
                                   assistantId: Option<string>, api: Engine.Api,
                                   send: Webhook.Sender)
    requires Confirmation.IsConfirmationMessage(text)
    requires Lookup(s.contexts, from).isWaitingForConfirmation
    ensures var r := Relay(s, from, text, now, assistantId, api, send);
      && r.server.engine == s.engine
      && r.calls == []
      && r.effects == [Webhook.Sent(from, Confirmation.ConfirmationResponse)]
      && (r.status == Ok <==> send(from, Confirmation.ConfirmationResponse).Success?)
      && (r.status == Ok ==>
            Lookup(r.server.contexts, from).confirmationCount == Lookup(s.contexts, from).confirmationCount + 1 &&
            !Lookup(r.server.contexts, from).isWaitingForConfirmation)
  {
  }

  /** With a run active on the sender's thread, the delivery is refused with 429 before
      anything is sent to the assistant or to WhatsApp. */
  lemma ActiveRunRefused(s: Server, from: string, text: string, assistantId: Option<string>,
                         api: Engine.Api, send: Webhook.Sender)
    requires Engine.Busy(s.engine, from, api)
    ensures var r := Ask(s, from, text, assistantId, api, send);
      && r.status == TooManyRequests
      && r.calls == [] && r.effects == []
      && r.server.engine.runs == s.engine.runs
      && r.server.engine.threads == Engine.GetOrCreateThread(s.engine, from, api.newThread).value.0.threads
  {
  }

  /** Otherwise the conversation is the assistant engine's, keyed by the sender's number alone:
      the same calls and the same threads and runs, and the reply it selects is sent back to
      the sender. The response is 200 exactly when that reply is text and its send succeeds. */
  lemma RelayedToSendersThread(s: Server, from: string, text: string,
                               assistantId: Option<string>, api: Engine.Api, send: Webhook.Sender)
    requires Engine.Idle(s.engine, from, api)
    ensures var r := Ask(s, from, text, assistantId, api, send);
      var turn := Engine.Converse(s.engine, from, text, assistantId, api);
      && r.calls == turn.calls
      && r.server.engine == turn.engine
      && r.server.engine.threads[from] == Engine.ThreadOf(s.engine, from, api).value
      && (turn.reply.Success? ==> r.effects == [Webhook.Sent(from, turn.reply.value)])
      && (turn.reply.Failure? ==> r.effects == [])
      && (r.status == Ok <==> turn.reply.Success? && send(from, turn.reply.value).Success?)
      && (r.status != Ok ==> r.status == ServerError)
  {
    var (e1, t) := Engine.GetOrCreateThread(s.engine, from, api.newThread).value;
    if !Engine.HasThread(e1, from) {
      assert e1.threads[from := t] == e1.threads;
    }
    assert Engine.GetOrCreateThread(e1, from, api.newThread) == Success((e1, t));
  }

  /** When the sender has no thread and creating one throws, the delivery is a 500 and nothing
      else happens. */
  lemma ThreadCreationFailureIsServerError(s: Server, from: string, text: string,
                                           assistantId: Option<string>, api: Engine.Api,
                                           send: Webhook.Sender)
    requires Engine.ThreadOf(s.engine, from, api).Failure?
    ensures Ask(s, from, text, assistantId, api, send) == Threw(s)
  {
  }

  /** A retrieve or a submission that throws once the run was created is a 500, and it leaves
      the run recorded as active: the sender's next message is refused with 429, until the
      threads are reset. */
  lemma ThrownPollThenTooManyRequests(s: Server, from: string, text: string, later: string,
                                      assistantId: Option<string>, api: Engine.Api,
                                      api2: Engine.Api, send: Webhook.Sender, send2: Webhook.Sender)
    requires Engine.Idle(s.engine, from, api) && Engine.StartsRun(api)
    requires Engine.ThreadOf(s.engine, from, api).value != ""
    requires Engine.Wait(api.retrieve, api.submit).Threw?
    ensures var r := Ask(s, from, text, assistantId, api, send);
      && r.status == ServerError && r.effects == []
      && Ask(r.server, from, later, assistantId, api2, send2).status == TooManyRequests
  {
    RelayedToSendersThread(s, from, text, assistantId, api, send);
    Engine.ThrownPollLocksThread(s.engine, from, text, later, assistantId, assistantId, api, api2);
    var r := Ask(s, from, text, assistantId, api, send);
    Engine.TurnEffects(s.engine, from, text, assistantId, api);
    assert Engine.Busy(r.server.engine, from, api2);
  }

  // ---------------------------------------------------------------------------
  // index.js: WhatsApp Cloud API deliveries

  /** `change.value.messages[i]`: `body` is `text.body`, absent when `text` is. */
  datatype CloudMessage = CloudMessage(id: string, from: string, kind: string, body: Option<string>)

  /** `entry[0].changes[i]`: `messages` is empty when `value` or `value.messages` is absent,
      `phoneNumberId` is `None` when `value.metadata` is. */
  datatype Change = Change(field: string, messages: seq<CloudMessage>, phoneNumberId: Option<string>)

  datatype Entry = Entry(changes: Option<seq<Change>>)

  datatype CloudPayload = CloudPayload(objectType: string, entry: Option<seq<Entry>>)

  const BusinessAccount: string := "whatsapp_business_account"
  const StatusField: string := "status"
  const TextKind: string := "text"

  /** The Graph API send through a phone number id. */
  type Graph = string -> Webhook.Sender

  /** The change a delivery is about, when it has one; reading it throws when `entry` or
      `changes` is an empty array. */
  function FirstChange(p: CloudPayload): (r: Result<Option<Change>, string>)
    ensures p.objectType != BusinessAccount || p.entry.None? ==> r == Success(None)
    ensures r.Success? && r.value.Some? ==>
      p.entry.Some? && |p.entry.value| > 0 && p.entry.value[0].changes.Some? &&
      |p.entry.value[0].changes.value| > 0 && r.value.value == p.entry.value[0].changes.value[0]
    ensures r.Failure? <==>
      && p.objectType == BusinessAccount && p.entry.Some?
      && (|p.entry.value| == 0 || (p.entry.value[0].changes.Some? && |p.entry.value[0].changes.value| == 0))
    ensures p.objectType == BusinessAccount && p.entry.Some? && |p.entry.value| > 0 ==>
      && (p.entry.value[0].changes.None? ==> r == Success(None))
      && (p.entry.value[0].changes.Some? && |p.entry.value[0].changes.value| > 0 ==>
            r == Success(Some(p.entry.value[0].changes.value[0])))
  {
    if p.objectType != BusinessAccount then Success(None)
    else match p.entry
      case None => Success(None)
      case Some(entries) =>
        if |entries| == 0 then Failure("entry[0] is undefined")
        else match entries[0].changes
          case None => Success(None)
          case Some(changes) =>
            if |changes| == 0 then Failure("changes[0] is undefined") else Success(Some(changes[0]))
  }

  /** The delivery carries a message in change `c`. */
  predicate Carries(p: CloudPayload, c: Change) {
    FirstChange(p) == Success(Some(c)) && c.field != StatusField && |c.messages| > 0
  }

  /** `POST /webhook` of `index.js`. A delivery that carries a message leaves its id recorded,
      whatever happens next. */
  function HandleCloud(s: Server, p: CloudPayload, now: int, assistantId: Option<string>,
                       api: Engine.Api, graph: Graph): (r: Outcome)
    ensures FirstChange(p).Failure? ==> r == Threw(s)
    ensures FirstChange(p) == Success(None) ==> r == Ack(s)
    ensures forall c :: Carries(p, c) ==> r == Deliver(s, c, now, assistantId, api, graph)
    ensures forall c :: Carries(p, c) ==> c.messages[0].id in r.server.processed
  {
    match FirstChange(p)
    case Failure(_) => Threw(s)
    case Success(None) => Ack(s)
    case Success(Some(c)) =>
      if c.field == StatusField || |c.messages| == 0 then Ack(s)
      else Deliver(s, c, now, assistantId, api, graph)
  }

  /** The part of the handler that deals with the change's first message. */
  function Deliver(s: Server, c: Change, now: int, assistantId: Option<string>,
                   api: Engine.Api, graph: Graph): (r: Outcome)
    requires |c.messages| > 0
    ensures c.messages[0].id in r.server.processed
  {
    var m := c.messages[0];
    if Webhook.IsMessageProcessed(s.processed, m.id) then Ack(s)
    else
      var s1 := s.(processed := Webhook.SetAdd(s.processed, m.id));
      if m.kind != TextKind then Ack(s1)
      else if c.phoneNumberId.None? || m.body.None? then Threw(s1)
      else
        TrimKeepsNewest(s.processed, m.id);
        Relay(s1.(processed := Trim(s1.processed)), m.from, m.body.value, now, assistantId, api,
              graph(c.phoneNumberId.value))
  }

  /** A status notification, or a change without messages, is acknowledged and changes
      nothing; in particular its id-less payload is not recorded. */
  lemma CloudStatusAcknowledged(s: Server, p: CloudPayload, c: Change, now: int,
                                assistantId: Option<string>, api: Engine.Api, graph: Graph)
    requires FirstChange(p) == Success(Some(c))
    requires c.field == StatusField || |c.messages| == 0
    ensures HandleCloud(s, p, now, assistantId, api, graph) == Ack(s)
  {
  }

  /** A message id already in the set is acknowledged and nothing else happens. */
  lemma CloudDuplicateIgnored(s: Server, p: CloudPayload, c: Change, now: int,
                              assistantId: Option<string>, api: Engine.Api, graph: Graph)
    requires Carries(p, c)
    requires c.messages[0].id in s.processed
    ensures HandleCloud(s, p, now, assistantId, api, graph) == Ack(s)
  {
  }

  /** The id is recorded before the type check, so a non-text message is recorded and
      acknowledged; no trimming happens on this path, so the set grows past its capacity. */
  lemma CloudNonTextRecorded(s: Server, p: CloudPayload, c: Change, now: int,
                             assistantId: Option<string>, api: Engine.Api, graph: Graph)
    requires Carries(p, c)
    requires c.messages[0].id !in s.processed && c.messages[0].kind != TextKind
    ensures var r := HandleCloud(s, p, now, assistantId, api, graph);
      && r == Ack(s.(processed := s.processed + [c.messages[0].id]))
      && |r.server.processed| == |s.processed| + 1
  {
  }

  /** A new text message is recorded, the set is trimmed to its capacity keeping the new id,
      and the message goes to the shared tail, answered through the change's phone number. */
  lemma CloudTextRelayed(s: Server, p: CloudPayload, c: Change, now: int,
                         assistantId: Option<string>, api: Engine.Api, graph: Graph)
    requires Carries(p, c)
    requires c.messages[0].id !in s.processed && c.messages[0].kind == TextKind
    requires c.phoneNumberId.Some? && c.messages[0].body.Some?
    ensures var r := HandleCloud(s, p, now, assistantId, api, graph);
      var m := c.messages[0];
      var w := Trim(s.processed + [m.id]);
      && r.server.processed == w
      && m.id in w && |w| <= Webhook.DedupCapacity
      && r == Relay(s.(processed := w), m.from, m.body.value, now, assistantId, api,
                    graph(c.phoneNumberId.value))
  {
    var m := c.messages[0];
    TrimKeepsNewest(s.processed, m.id);
    assert Webhook.SetAdd(s.processed, m.id) == s.processed + [m.id];
  }

  /** Redelivering a message that was handled is a duplicate, whatever the first outcome. */
  lemma CloudRedeliveryIgnored(s: Server, p: CloudPayload, c: Change, now: int, later: int,
                               assistantId: Option<string>, api: Engine.Api, graph: Graph)
    requires Carries(p, c)
    ensures var s1 := HandleCloud(s, p, now, assistantId, api, graph).server;
      HandleCloud(s1, p, later, assistantId, api, graph) == Ack(s1)
  {
    var s1 := HandleCloud(s, p, now, assistantId, api, graph).server;
    CloudDuplicateIgnored(s1, p, c, later, assistantId, api, graph);
  }

  /** `GET /webhook` of `index.js`: with both `hub.mode` and `hub.verify_token` present, a
      subscription with the configured token is answered 200 with the challenge and anything
      else 403; without them no response is written. */
  datatype Answer = Answer(status: nat, body: Option<string>)

  function VerifyCloudSubscription(mode: Option<string>, token: Option<string>,
                                   challenge: Option<string>, configured: Option<string>)
    : (r: Option<Answer>)
    ensures r.None? <==> !Truthy(mode) || !Truthy(token)
    ensures r.Some? ==> (r.value.status == Ok <==> mode == Some("subscribe") && token == configured)
    ensures r.Some? && r.value.status == Ok ==> r.value.body == challenge
    ensures r.Some? && r.value.status != Ok ==> r.value.status == Forbidden
  {
    if !Truthy(mode) || !Truthy(token) then None
    else if mode == Some("subscribe") && token == configured then Some(Answer(Ok, challenge))
    else Some(Answer(Forbidden, None))
  }

  /** Without a configured verify token no subscription request is accepted: the request
      either gets no answer or is forbidden. */
  lemma UnconfiguredSubscriptionRefused(mode: Option<string>, token: Option<string>,
                                        challenge: Option<string>)
    ensures var r := VerifyCloudSubscription(mode, token, challenge, None);
      r.None? || r.value.status == Forbidden
  {
  }

  // ---------------------------------------------------------------------------
  // index-fixed.js: UltraMsg deliveries

  datatype UltraKey = UltraKey(id: string, remoteJid: Option<string>)

  /** `conversation` and `extendedTextMessage.text`, each `None` when absent. */
  datatype UltraMessage = UltraMessage(messageType: string, conversation: Option<string>,
                                       extendedText: Option<string>)

  datatype UltraPayload = UltraPayload(key: Option<UltraKey>, message: Option<UltraMessage>)

  const ChatSuffix: string := "@s.whatsapp.net"

  predicate IsTextType(t: string) {
    t == "conversation" || t == "extendedTextMessage"
  }

  /** The sender's number: the chat id with its first `@s.whatsapp.net` removed. */
  function SenderOf(remoteJid: string): (r: string)
    ensures !Contains(remoteJid, ChatSuffix) ==> r == remoteJid
  {
    ContainsIndexOf(remoteJid, ChatSuffix);
    ReplaceFirst(remoteJid, ChatSuffix, "")
  }

  /** A phone number's chat id gives back the number. */
  lemma SenderOfChat(number: string)
    requires '@' !in number
    ensures SenderOf(number + ChatSuffix) == number
  {
    var s := number + ChatSuffix;
    assert OccursAt(s, ChatSuffix, |number|) by {
      assert s[|number|..|number| + |ChatSuffix|] == ChatSuffix;
    }
    forall j | 0 <= j < |number|
      ensures !OccursAt(s, ChatSuffix, j)
    {
      assert s[j] == number[j];
      assert ChatSuffix[0] == '@';
    }
    assert IndexOf(s, ChatSuffix, 0) == Some(|number|);
    assert s[..|number|] == number;
    assert s[|number| + |ChatSuffix|..] == [];
  }

  /** `conversation || extendedTextMessage?.text || ''`. */
  function BodyOf(m: UltraMessage): (r: string)
    ensures Truthy(m.conversation) ==> r == m.conversation.value
    ensures !Truthy(m.conversation) && Truthy(m.extendedText) ==> r == m.extendedText.value
    ensures !Truthy(m.conversation) && !Truthy(m.extendedText) ==> r == ""
  {
    match OrElse(m.conversation, m.extendedText)
    case Some(t) => t
    case None => ""
  }

  /** `POST /webhook` of `index-fixed.js`. */
  function HandleUltra(s: Server, p: UltraPayload, now: int, assistantId: Option<string>,
                       api: Engine.Api, send: Webhook.Sender): (r: Outcome)
    ensures p.key.None? || p.message.None? ==> r == Ack(s)
    ensures p.key.Some? && p.message.Some? ==> p.key.value.id in r.server.processed
  {
    if p.key.None? || p.message.None? then Ack(s)
    else
      var (k, m) := (p.key.value, p.message.value);
      if Webhook.IsMessageProcessed(s.processed, k.id) then Ack(s)
      else
        var s1 := s.(processed := Webhook.SetAdd(s.processed, k.id));
        if !IsTextType(m.messageType) then Ack(s1)
        else match k.remoteJid
          case None => Threw(s1)
          case Some(jid) =>
            TrimKeepsNewest(s.processed, k.id);
            Relay(s1.(processed := Trim(s1.processed)), SenderOf(jid), BodyOf(m), now, assistantId,
                  api, send)
  }

  lemma UltraDuplicateIgnored(s: Server, p: UltraPayload, now: int, assistantId: Option<string>,
                              api: Engine.Api, send: Webhook.Sender)
    requires p.key.Some? && p.key.value.id in s.processed
    ensures HandleUltra(s, p, now, assistantId, api, send) == Ack(s)
  {
  }

  /** As in `index.js`, the id is recorded before the type check and without trimming. */
  lemma UltraNonTextRecorded(s: Server, p: UltraPayload, now: int, assistantId: Option<string>,
                             api: Engine.Api, send: Webhook.Sender)
    requires p.key.Some? && p.message.Some?
    requires p.key.value.id !in s.processed && !IsTextType(p.message.value.messageType)
    ensures var r := HandleUltra(s, p, now, assistantId, api, send);
      && r == Ack(s.(processed := s.processed + [p.key.value.id]))
      && |r.server.processed| == |s.processed| + 1
  {
  }

  /** A new text message is recorded and trimmed as in `index.js`; the sender is the chat id
      without its suffix and the text is the first non-empty of the two text fields. */
  lemma UltraTextRelayed(s: Server, p: UltraPayload, now: int, assistantId: Option<string>,
                         api: Engine.Api, send: Webhook.Sender)
    requires p.key.Some? && p.message.Some? && p.key.value.remoteJid.Some?
    requires p.key.value.id !in s.processed && IsTextType(p.message.value.messageType)
    ensures var r := HandleUltra(s, p, now, assistantId, api, send);
      var w := Trim(s.processed + [p.key.value.id]);
      && r.server.processed == w
      && |w| <= Webhook.DedupCapacity
      && r == Relay(s.(processed := w), SenderOf(p.key.value.remoteJid.value),
                    BodyOf(p.message.value), now, assistantId, api, send)
  {
    assert Webhook.SetAdd(s.processed, p.key.value.id) == s.processed + [p.key.value.id];
  }

  /** Without a chat id the handler throws after recording the id. */
  lemma UltraMissingChatThrows(s: Server, p: UltraPayload, now: int, assistantId: Option<string>,
                               api: Engine.Api, send: Webhook.Sender)
    requires p.key.Some? && p.message.Some? && p.key.value.remoteJid.None?
    requires p.key.value.id !in s.processed && IsTextType(p.message.value.messageType)
    ensures HandleUltra(s, p, now, assistantId, api, send) ==
            Threw(s.(processed := s.processed + [p.key.value.id]))
  {
  }

  /** Redelivering a handled message is a duplicate. */
  lemma UltraRedeliveryIgnored(s: Server, p: UltraPayload, now: int, later: int,
                               assistantId: Option<string>, api: Engine.Api, send: Webhook.Sender)
    requires p.key.Some? && p.message.Some?
    ensures var s1 := HandleUltra(s, p, now, assistantId, api, send).server;
      HandleUltra(s1, p, later, assistantId, api, send) == Ack(s1)
  {
    var s1 := HandleUltra(s, p, now, assistantId, api, send).server;
    UltraDuplicateIgnored(s1, p, later, assistantId, api, send);
  }

  /** The two servers treat the same text from the same number alike: a Cloud API text message
      and an UltraMsg conversation message carrying the same id, number and non-empty text,
      answered by senders that agree, lead to the same state, calls, sends and status. */
  lemma ServersAgree(s: Server, cloud: CloudPayload, c: Change, ultra: UltraPayload, now: int,
                     assistantId: Option<string>, api: Engine.Api, graph: Graph,
                     send: Webhook.Sender)
    requires Carries(cloud, c)
    requires c.messages[0].kind == TextKind && c.phoneNumberId.Some? && c.messages[0].body.Some?
    requires '@' !in c.messages[0].from && c.messages[0].body.value != ""
    requires ultra.key == Some(UltraKey(c.messages[0].id, Some(c.messages[0].from + ChatSuffix)))
    requires ultra.message.Some? && ultra.message.value.messageType == "conversation"
    requires ultra.message.value.conversation == c.messages[0].body
    requires send == graph(c.phoneNumberId.value)
    ensures HandleCloud(s, cloud, now, assistantId, api, graph) ==
            HandleUltra(s, ultra, now, assistantId, api, send)
  {
    var m := c.messages[0];
    SenderOfChat(m.from);
  }

  /** `GET /webhook` of `index-fixed.js`: 200 exactly when the `token` query parameter equals
      the configured token, both possibly absent; 403 otherwise. */
  function VerifyUltraToken(token: Option<string>, configured: Option<string>): (status: nat)
    ensures status == Ok <==> token == configured
    ensures status != Ok ==> status == Forbidden
  {
    if Webhook.VerifyWebhookToken(token, configured) then Ok else Forbidden
  }

  /** Without a configured token, a request that carries no token is accepted and one that
      carries any token is refused. */
  lemma UnconfiguredUltraTokenAcceptsMissing(token: Option<string>)
    ensures VerifyUltraToken(token, None) == Ok <==> token.None?
  {
  }

  // ---------------------------------------------------------------------------
  // Administrative endpoints, identical in both servers

  /** `POST /mark-agenda-sent`: without a (non-empty) `userId` the answer is 400 and nothing
      changes; otherwise the user now awaits a confirmation. */
  function MarkAgendaSentEndpoint(store: Store, userId: Option<string>, now: int): (r: (Store, nat))
    ensures r.1 == BadRequest <==> !Truthy(userId)
    ensures !Truthy(userId) ==> r.0 == store
    ensures Truthy(userId) ==>
      && r.1 == Ok
      && userId.value in r.0 && r.0[userId.value].isWaitingForConfirmation
      && r.0[userId.value].confirmationCount == 0
      && OthersUnchanged(store, r.0, userId.value)
  {
    if !Truthy(userId) then (store, BadRequest)
    else (MarkAgendaSent(store, userId.value, now), Ok)
  }

  /** After the agenda is marked sent, the user's next confirmation gets the canned reply. */
  lemma AgendaThenConfirmation(s: Server, userId: string, text: string, now: int, later: int,
                               assistantId: Option<string>, api: Engine.Api, send: Webhook.Sender)
    requires userId != "" && Confirmation.IsConfirmationMessage(text)
    ensures var marked := s.(contexts := MarkAgendaSentEndpoint(s.contexts, Some(userId), now).0);
      var r := Relay(marked, userId, text, later, assistantId, api, send);
      r.calls == [] && r.effects == [Webhook.Sent(userId, Confirmation.ConfirmationResponse)]
  {
    var marked := s.(contexts := MarkAgendaSentEndpoint(s.contexts, Some(userId), now).0);
    ConfirmationSkipsAssistant(marked, userId, text, later, assistantId, api, send);
  }

  /** `POST /reset_threads`: clears `userThreads` only. */
  function ResetThreadsEndpoint(s: Server): (r: Server)
    ensures r.engine.threads == map[]
    ensures r.engine.runs == s.engine.runs
    ensures r.processed == s.processed && r.contexts == s.contexts
  {
    s.(engine := Engine.ResetThreads(s.engine))
  }

  /** After a reset the next message of every sender starts a new thread. */
  lemma ResetStartsNewThreads(s: Server, from: string, api: Engine.Api)
    ensures Engine.ThreadOf(ResetThreadsEndpoint(s).engine, from, api) == api.newThread
  {
    Engine.ResetCreatesNewThreads(s.engine, from, api.newThread);
  }
}
