/** `OpenAIManager`: the completion engine. It keeps one assistant thread per conversation key
    and the last known status of each thread's run, refuses a message while a run is still
    active, and otherwise adds the message, starts a run, polls it at most 150 times, answers
    tool calls with a fixed "not implemented" output, and picks the reply.

    The assistant service is an oracle (`Api`): for every call the engine makes, what it
    answers or the error it throws. None of these errors is caught, so a call that throws ends
    the message with that error and leaves the engine as it was at that point: a run created
    and then abandoned stays recorded as active. The calls the engine makes are logged as
    `ApiCall`s. The two-second sleeps are not modelled. */
module Engine {
  import opened Wrappers
  import opened Text

  /** The run statuses of the assistant service. */
  datatype RunStatus =
    | Queued | InProgress | RequiresAction | Cancelling | Cancelled
    | Failed | Completed | Incomplete | Expired

  /** The two statuses the engine treats as finished. `Cancelled`, `Incomplete` and `Expired`
      are not among them. */
  predicate Settled(s: RunStatus) {
    s == Completed || s == Failed
  }

  datatype ToolCall = ToolCall(id: string, name: string, arguments: string)
  datatype ToolOutput = ToolOutput(toolCallId: string, output: string)

  /** What one retrieve of the run returns: its status and, for `RequiresAction`, the tool
      calls awaiting output. */
  datatype Snapshot = Snapshot(status: RunStatus, toolCalls: seq<ToolCall>)

  /** `userThreads` (conversation key to thread id) and `threadRuns` (thread id to the last
      recorded run status). */
  datatype Engine = Engine(threads: map<string, string>, runs: map<string, RunStatus>)

  const NewEngine: Engine := Engine(map[], map[])

  // ---------------------------------------------------------------------------
  // Threads and the active-run gate

  const DefaultClientCode: string := "default"

  /** The conversation key `${userId}_${clientCode}`. */
  function ThreadKey(userId: string, clientCode: string): (k: string)
    ensures |k| == |userId| + 1 + |clientCode|
  {
    userId + "_" + clientCode
  }

  /** For user ids without `_` (phone numbers), the key determines user and client. */
  lemma ThreadKeyInjective(u1: string, c1: string, u2: string, c2: string)
    requires '_' !in u1 && '_' !in u2
    requires ThreadKey(u1, c1) == ThreadKey(u2, c2)
    ensures u1 == u2 && c1 == c2
  {
    var k := ThreadKey(u1, c1);
    assert k[|u1|] == '_' && k[|u2|] == '_';
    assert forall i :: 0 <= i < |u1| ==> k[i] == u1[i];
    assert forall i :: 0 <= i < |u2| ==> k[i] == u2[i];
    assert |u1| == |u2|;
    assert u1 == k[..|u1|] && u2 == k[..|u2|];
    assert c1 == k[|u1| + 1..] && c2 == k[|u2| + 1..];
  }

  /** With `_` allowed in user ids, two conversations can share a key. */
  lemma ThreadKeyCollision()
    ensures ThreadKey("a_b", "c") == ThreadKey("a", "b_c")
  {
    assert "a_b" + "_" + "c" == "a" + "_" + "b_c";
  }

  /** The thread id stored under `key`, if it is truthy. */
  predicate HasThread(e: Engine, key: string) {
    key in e.threads && e.threads[key] != ""
  }

  /** `getOrCreateThread`: reuse the stored thread, or store the one the service creates;
      `created` is the id the service would return, or the error its call throws. */
  function GetOrCreateThread(e: Engine, key: string, created: Result<string, string>)
    : (r: Result<(Engine, string), string>)
    ensures r.Failure? <==> !HasThread(e, key) && created.Failure?
    ensures r.Failure? ==> r.error == created.error
    ensures r.Success? ==>
      var (e1, t) := r.value;
      && e1.runs == e.runs
      && key in e1.threads && e1.threads[key] == t
      && (forall k :: k != key ==> (k in e1.threads <==> k in e.threads) && (k in e.threads ==> e1.threads[k] == e.threads[k]))
      && (HasThread(e, key) ==> e1 == e)
      && (!HasThread(e, key) ==> t == created.value)
  {
    if HasThread(e, key) then Success((e, e.threads[key]))
    else match created
      case Failure(err) => Failure(err)
      case Success(id) => Success((e.(threads := e.threads[key := id]), id))
  }

  /** A thread is created once: a second call finds it, whatever the service would answer. */
  lemma ThreadCreatedOnce(e: Engine, key: string, id: string, created: Result<string, string>)
    requires id != ""
    ensures var first := GetOrCreateThread(e, key, Success(id));
      first.Success? && GetOrCreateThread(first.value.0, key, created) == first
  {
  }

  /** `hasActiveRun(threadId)`: a status is recorded and it is neither `completed` nor
      `failed`. */
  predicate HasActiveRun(e: Engine, threadId: string) {
    threadId in e.runs && !Settled(e.runs[threadId])
  }

  /** `createRun`: the new run is recorded as `in_progress`. */
  function CreateRun(e: Engine, threadId: string): (r: Engine)
    ensures HasActiveRun(r, threadId) && r.runs[threadId] == InProgress
    ensures r.threads == e.threads
    ensures forall t :: t != threadId ==> HasActiveRun(r, t) == HasActiveRun(e, t)
  {
    e.(runs := e.runs[threadId := InProgress])
  }

  /** `resetThreads`: forget every thread; recorded run statuses stay. */
  function ResetThreads(e: Engine): (r: Engine)
    ensures r.threads == map[] && r.runs == e.runs
    ensures forall key :: !HasThread(r, key)
  {
    e.(threads := map[])
  }

  /** After a reset every conversation gets the thread the service creates next, or the error
      of creating it. */
  lemma ResetCreatesNewThreads(e: Engine, key: string, created: Result<string, string>)
    ensures var r := GetOrCreateThread(ResetThreads(e), key, created);
      && (created.Success? ==> r.Success? && r.value.1 == created.value)
      && (created.Failure? ==> r == Failure(created.error))
    ensures forall t :: HasActiveRun(ResetThreads(e), t) == HasActiveRun(e, t)
  {
  }

  // ---------------------------------------------------------------------------
  // Tool calls

  /** The message of the error object every tool call is answered with. */
  function NotImplementedMessage(name: string): string {
    "Función " + name + " no implementada."
  }

  /** `JSON.stringify({error: message})`. */
  function ErrorObjectJson(message: string): string {
    "{\"error\":" + JsonString(message) + "}"
  }

  /** `processToolCalls(toolCalls)`: one output per call, in order, answering with the call's
      id. */
  function ProcessToolCalls(calls: seq<ToolCall>): (r: seq<ToolOutput>)
    ensures |r| == |calls|
    ensures forall i :: 0 <= i < |calls| ==>
      r[i].toolCallId == calls[i].id && r[i].output == ErrorObjectJson(NotImplementedMessage(calls[i].name))
  {
    seq(|calls|, i requires 0 <= i < |calls| => ToolOutput(calls[i].id, ErrorObjectJson(NotImplementedMessage(calls[i].name))))
  }

  lemma PlainPrefix(p: string)
    requires p == "Función "
    ensures JsonEscape(p) == p
  {
    assert JsonPlain('F') && JsonPlain('u') && JsonPlain('n') && JsonPlain('c');
    assert JsonPlain('i') && JsonPlain('ó') && JsonPlain(' ');
    JsonEscapePlain(p);
  }

  lemma PlainSuffix(p: string)
    requires p == " no implementada."
    ensures JsonEscape(p) == p
  {
    assert JsonPlain(' ') && JsonPlain('n') && JsonPlain('o') && JsonPlain('i') && JsonPlain('m');
    assert JsonPlain('p') && JsonPlain('l') && JsonPlain('e') && JsonPlain('a') && JsonPlain('d');
    assert JsonPlain('.');
    JsonEscapePlain(p);
  }

  /** For a function name without quotes, backslashes or control characters the error message
      `Función <name> no implementada.` appears verbatim between the quotes of the output. */
  lemma NotImplementedJson(name: string)
    requires forall i :: 0 <= i < |name| ==> JsonPlain(name[i])
    ensures JsonString(NotImplementedMessage(name)) == "\"" + NotImplementedMessage(name) + "\""
  {
    var pre, suf := "Función ", " no implementada.";
    PlainPrefix(pre);
    PlainSuffix(suf);
    JsonEscapePlain(name);
    JsonEscapeConcat(pre + name, suf);
    JsonEscapeConcat(pre, name);
    var m := NotImplementedMessage(name);
    assert JsonEscape(m) == m;
  }

  // ---------------------------------------------------------------------------
  // Polling

  /** `maxRetries`. */
  const MaxRetries: nat := 150

  /** What the k-th retrieve of the run returns (counting from 0), or the error it throws. */
  type Retrieve = nat -> Result<Snapshot, string>

  /** The error thrown while answering the tool calls of the k-th retrieve, if any: parsing a
      call's arguments or submitting the outputs. */
  type Submit = nat -> Option<string>

  /** The k-th round lets the loop go on: the retrieve answers with a status other than
      `completed` or `failed`, and a `requires_action` is answered without an error. */
  predicate Continued(retrieve: Retrieve, submit: Submit, k: nat) {
    && retrieve(k).Success?
    && !Settled(retrieve(k).value.status)
    && (retrieve(k).value.status == RequiresAction ==> submit(k).None?)
  }

  /** The outputs submitted for the k-th retrieve: one batch when it asked for tool outputs. */
  function SubmissionAt(retrieve: Retrieve, k: nat): seq<seq<ToolOutput>> {
    match retrieve(k)
    case Success(snap) => if snap.status == RequiresAction then [ProcessToolCalls(snap.toolCalls)] else []
    case Failure(_) => []
  }

  /** Reference: the batches submitted (or attempted) for retrieves 0 .. n-1. */
  function Submissions(retrieve: Retrieve, n: nat): seq<seq<ToolOutput>>
    decreases n
  {
    if n == 0 then [] else Submissions(retrieve, n - 1) + SubmissionAt(retrieve, n - 1)
  }

  lemma SubmissionsStep(retrieve: Retrieve, k: nat)
    ensures Submissions(retrieve, k + 1) == Submissions(retrieve, k) + SubmissionAt(retrieve, k)
  {
  }

  /** The outcome of the polling loop, with the number of retrieves that answered: it ends
      with the last snapshot, or a retrieve or a submission throws. The tool outputs submitted
      on the way are `Submissions(retrieve, retrieves)`. */
  datatype Poll =
    | Ended(last: Snapshot, retrieves: nat)
    | Threw(error: string, retrieves: nat)

  /** What the loop guarantees. It ends after between one and `MaxRetries` retrieves, every
      round but the last letting it go on, and before the budget is spent only on a settled
      status. It throws at the first retrieve that throws, or at the first submission that
      does, with every earlier round letting it go on. */
  ghost predicate PollsCorrectly(retrieve: Retrieve, submit: Submit, p: Poll) {
    match p
    case Ended(last, n) =>
      && 1 <= n <= MaxRetries
      && retrieve(n - 1) == Success(last)
      && (forall j :: 0 <= j < n - 1 ==> Continued(retrieve, submit, j))
      && (last.status == RequiresAction ==> submit(n - 1).None?)
      && (n < MaxRetries ==> Settled(last.status))
    case Threw(err, n) =>
      || (&& n < MaxRetries
          && (forall j :: 0 <= j < n ==> Continued(retrieve, submit, j))
          && retrieve(n) == Failure(err))
      || (&& 1 <= n <= MaxRetries
          && (forall j :: 0 <= j < n - 1 ==> Continued(retrieve, submit, j))
          && retrieve(n - 1).Success? && retrieve(n - 1).value.status == RequiresAction
          && submit(n - 1) == Some(err))
  }

  /** The loop of `waitForRunCompletion`, from retrieve number `k` on, every earlier round
      having let it go on: a throwing retrieve ends it, as does a `failed` status; tool calls
      are answered on `requires_action`, and a throwing submission ends it; it stops when the
      budget is spent, and goes on while the status is neither `completed` nor `failed`. */
  function PollFrom(retrieve: Retrieve, submit: Submit, k: nat): (r: Poll)
    requires k < MaxRetries
    requires forall j :: 0 <= j < k ==> Continued(retrieve, submit, j)
    ensures PollsCorrectly(retrieve, submit, r)
    ensures k <= r.retrieves
    decreases MaxRetries - k
  {
    match retrieve(k)
    case Failure(err) => Threw(err, k)
    case Success(snap) =>
      if snap.status == Failed then Ended(snap, k + 1)
      else if snap.status == RequiresAction && submit(k).Some? then Threw(submit(k).value, k + 1)
      else if k + 1 >= MaxRetries || snap.status == Completed then Ended(snap, k + 1)
      else PollFrom(retrieve, submit, k + 1)
  }

  /** The whole loop. */
  function Wait(retrieve: Retrieve, submit: Submit): (r: Poll)
    ensures PollsCorrectly(retrieve, submit, r)
  {
    PollFrom(retrieve, submit, 0)
  }

  /** The loop stops at round `k`: every earlier round lets it go on, and this one does not
      or is the last of the budget. */
  predicate StopsAt(retrieve: Retrieve, submit: Submit, k: nat) {
    && k < MaxRetries
    && (forall j :: 0 <= j < k ==> Continued(retrieve, submit, j))
    && (!Continued(retrieve, submit, k) || k == MaxRetries - 1)
  }

  /** The outcome of a loop that stops at round `k`. */
  function StoppedAt(retrieve: Retrieve, submit: Submit, k: nat): Poll {
    match retrieve(k)
    case Failure(err) => Threw(err, k)
    case Success(snap) =>
      if snap.status == RequiresAction && submit(k).Some? then Threw(submit(k).value, k + 1)
      else Ended(snap, k + 1)
  }

  /** The round at which a poll stopped. */
  function StopOf(retrieve: Retrieve, submit: Submit, p: Poll): nat {
    match p
    case Ended(_, n) => if n == 0 then 0 else n - 1
    case Threw(_, n) =>
      if n >= 1 && retrieve(n - 1).Success? && retrieve(n - 1).value.status == RequiresAction &&
         submit(n - 1).Some?
      then n - 1 else n
  }

  /** A poll meeting the guarantees is the outcome of stopping where it stopped. */
  lemma StopOfCorrect(retrieve: Retrieve, submit: Submit, p: Poll)
    requires PollsCorrectly(retrieve, submit, p)
    ensures StopsAt(retrieve, submit, StopOf(retrieve, submit, p))
    ensures p == StoppedAt(retrieve, submit, StopOf(retrieve, submit, p))
  {
  }

  /** There is one round at which the loop stops. */
  lemma StopUnique(retrieve: Retrieve, submit: Submit, a: nat, b: nat)
    requires StopsAt(retrieve, submit, a) && StopsAt(retrieve, submit, b)
    ensures a == b
  {
  }

  /** The guarantees determine the outcome. */
  lemma PollUnique(retrieve: Retrieve, submit: Submit, p: Poll, q: Poll)
    requires PollsCorrectly(retrieve, submit, p) && PollsCorrectly(retrieve, submit, q)
    ensures p == q
  {
    StopOfCorrect(retrieve, submit, p);
    StopOfCorrect(retrieve, submit, q);
    StopUnique(retrieve, submit, StopOf(retrieve, submit, p), StopOf(retrieve, submit, q));
  }

  /** The loop ends at the round where it stops. */
  lemma WaitStopsAt(retrieve: Retrieve, submit: Submit, k: nat)
    requires StopsAt(retrieve, submit, k)
    ensures Wait(retrieve, submit) == StoppedAt(retrieve, submit, k)
  {
    var p := Wait(retrieve, submit);
    StopOfCorrect(retrieve, submit, p);
    StopUnique(retrieve, submit, StopOf(retrieve, submit, p), k);
  }

  /** The status the loop leaves recorded after `n` retrieves answered: that of the last one,
      or `in_progress`, recorded by `createRun`, when none did. */
  function LastStatus(retrieve: Retrieve, n: nat): RunStatus {
    if n == 0 then InProgress
    else match retrieve(n - 1)
      case Success(snap) => snap.status
      case Failure(_) => InProgress
  }

  /** The engine after `n` retrieves answered: each one recorded its status on the thread. */
  function RecordedAfter(e: Engine, threadId: string, retrieve: Retrieve, n: nat): Engine {
    if n == 0 then e else e.(runs := e.runs[threadId := LastStatus(retrieve, n)])
  }

  /** `waitForRunCompletion(threadId, runId)`: the loop ends where `Wait` does. The status of
      every retrieve that answers is recorded, so the last one stays recorded; when the first
      one throws the status recorded before the loop stays. */
  method WaitForRunCompletion(e: Engine, threadId: string, retrieve: Retrieve, submit: Submit)
    returns (after: Engine, outcome: Poll, submitted: seq<seq<ToolOutput>>)
    ensures outcome == Wait(retrieve, submit)
    ensures after == RecordedAfter(e, threadId, retrieve, outcome.retrieves)
    ensures submitted == Submissions(retrieve, outcome.retrieves)
  {
    var k: nat;
    after, outcome, submitted, k := PollLoop(e, threadId, retrieve, submit);
    WaitStopsAt(retrieve, submit, k);
  }

  /** The loop of `waitForRunCompletion`, which also gives the round at which it stopped: it
      stops where `StopsAt` says, with the outcome `StoppedAt` gives. */
  method PollLoop(e: Engine, threadId: string, retrieve: Retrieve, submit: Submit)
    returns (after: Engine, outcome: Poll, submitted: seq<seq<ToolOutput>>, k: nat)
    ensures StopsAt(retrieve, submit, k) && outcome == StoppedAt(retrieve, submit, k)
    ensures after == RecordedAfter(e, threadId, retrieve, outcome.retrieves)
    ensures submitted == Submissions(retrieve, outcome.retrieves)
  {
    k := 0;
    submitted := [];
    after := e;
    while true
      invariant k < MaxRetries
      invariant forall j :: 0 <= j < k ==> Continued(retrieve, submit, j)
      invariant submitted == Submissions(retrieve, k)
      invariant after == RecordedAfter(e, threadId, retrieve, k)
      decreases MaxRetries - k
    {
      var answer := retrieve(k);
      if answer.Failure? {
        outcome := Threw(answer.error, k);
        assert !Continued(retrieve, submit, k);
        return;
      }
      var snap := answer.value;
      after := e.(runs := e.runs[threadId := snap.status]);
      assert LastStatus(retrieve, k + 1) == snap.status;
      SubmissionsStep(retrieve, k);
      if snap.status == RequiresAction {
        submitted := submitted + [ProcessToolCalls(snap.toolCalls)];
      } else {
        assert SubmissionAt(retrieve, k) == [];
      }
      if snap.status == Failed {
        outcome := Ended(snap, k + 1);
        assert !Continued(retrieve, submit, k);
        return;
      }
      if snap.status == RequiresAction && submit(k).Some? {
        outcome := Threw(submit(k).value, k + 1);
        assert !Continued(retrieve, submit, k);
        return;
      }
      if k + 1 >= MaxRetries || snap.status == Completed {
        outcome := Ended(snap, k + 1);
        return;
      }
      k := k + 1;
    }
  }

  /** An ended poll records its last status; a thrown one leaves a status that is neither
      `completed` nor `failed`, so the run stays active. */
  lemma LastStatusOf(retrieve: Retrieve, submit: Submit, p: Poll)
    requires PollsCorrectly(retrieve, submit, p)
    ensures p.Ended? ==> LastStatus(retrieve, p.retrieves) == p.last.status
    ensures p.Threw? ==> !Settled(LastStatus(retrieve, p.retrieves))
  {
    if p.Threw? && p.retrieves > 0 && retrieve(p.retrieves - 1).Success? &&
       retrieve(p.retrieves - 1).value.status != RequiresAction {
      assert Continued(retrieve, submit, p.retrieves - 1);
    }
  }

  /** A run that never settles and never throws uses the whole budget and ends unsettled. */
  lemma UnsettledRunUsesBudget(retrieve: Retrieve, submit: Submit)
    requires forall j :: 0 <= j < MaxRetries ==> Continued(retrieve, submit, j)
    ensures Wait(retrieve, submit).Ended?
    ensures Wait(retrieve, submit).retrieves == MaxRetries
    ensures !Settled(Wait(retrieve, submit).last.status)
  {
    assert Continued(retrieve, submit, MaxRetries - 1);
    WaitStopsAt(retrieve, submit, MaxRetries - 1);
  }

  /** The poll stops at the first settled status. */
  lemma StopsAtFirstSettled(retrieve: Retrieve, submit: Submit, n: nat)
    requires 1 <= n <= MaxRetries && retrieve(n - 1).Success? && Settled(retrieve(n - 1).value.status)
    requires forall j :: 0 <= j < n - 1 ==> Continued(retrieve, submit, j)
    ensures Wait(retrieve, submit) == Ended(retrieve(n - 1).value, n)
  {
    WaitStopsAt(retrieve, submit, n - 1);
  }

  /** The poll throws the error of the first retrieve that throws. */
  lemma ThrowsAtFirstFailedRetrieve(retrieve: Retrieve, submit: Submit, n: nat)
    requires n < MaxRetries && retrieve(n).Failure?
    requires forall j :: 0 <= j < n ==> Continued(retrieve, submit, j)
    ensures Wait(retrieve, submit) == Threw(retrieve(n).error, n)
  {
    WaitStopsAt(retrieve, submit, n);
  }

  /** The poll throws the error of the first submission that throws. */
  lemma ThrowsAtFirstFailedSubmission(retrieve: Retrieve, submit: Submit, n: nat)
    requires n < MaxRetries && retrieve(n).Success? && retrieve(n).value.status == RequiresAction
    requires submit(n).Some?
    requires forall j :: 0 <= j < n ==> Continued(retrieve, submit, j)
    ensures Wait(retrieve, submit) == Threw(submit(n).value, n + 1)
  {
    WaitStopsAt(retrieve, submit, n);
  }

  // ---------------------------------------------------------------------------
  // Reply selection and one message

  datatype Content = TextContent(value: string) | OtherContent
  datatype ThreadMessage = ThreadMessage(role: string, content: seq<Content>)

  const NoValidReply: string := "Lo siento, hubo un error procesando tu solicitud. ¿Podrías intentarlo de nuevo?"
  const RunErrorReply: string := "Hubo un error procesando tu mensaje. Intenta de nuevo."
  const BusyError: string := "Por favor espera a que termine la respuesta anterior."
  /** Reading `.text.value` of a content part that is not text. */
  const NoTextError: string := "Cannot read properties of undefined (reading 'value')"

  /** `getAssistantResponse(threadId)`, given the newest message list (`order: desc`,
      `limit: 1`). */
  function GetAssistantResponse(latest: seq<ThreadMessage>): (r: Result<string, string>)
    ensures (|latest| == 0 || latest[0].role != "assistant" || |latest[0].content| == 0) ==>
      r == Success(NoValidReply)
    ensures |latest| > 0 && latest[0].role == "assistant" && |latest[0].content| > 0 ==>
      match latest[0].content[0]
      case TextContent(v) => r == Success(v)
      case OtherContent => r == Failure(NoTextError)
  {
    if |latest| > 0 && latest[0].role == "assistant" && |latest[0].content| > 0 then
      match latest[0].content[0]
      case TextContent(v) => Success(v)
      case OtherContent => Failure(NoTextError)
    else Success(NoValidReply)
  }

  /** The assistant service as an oracle: the thread it creates (or the error of creating
      it), the error, if any, thrown by adding the message, by listing the five latest
      messages and by creating the run, the answers to the retrieves and submissions of the
      run, and the newest message of the thread (or the error of listing it). */
  datatype Api = Api(newThread: Result<string, string>,
                     addError: Option<string>, contextError: Option<string>, runError: Option<string>,
                     retrieve: Retrieve, submit: Submit,
                     latest: Result<seq<ThreadMessage>, string>)

  /** The three calls before the poll all succeed. */
  predicate StartsRun(api: Api) {
    api.addError.None? && api.contextError.None? && api.runError.None?
  }

  /** The calls a turn makes to the service, a call that throws included; thread creation and
      the retrieves are not logged. */
  datatype ApiCall =
    | AddedMessage(threadId: string, text: string)
    | ListedMessages(threadId: string, limit: nat)
    | CreatedRun(threadId: string, assistantId: Option<string>)
    | SubmittedOutputs(threadId: string, outputs: seq<ToolOutput>)

  /** The engine after one message, the calls made, and the reply or the thrown error. */
  datatype Turn = Turn(engine: Engine, calls: seq<ApiCall>, reply: Result<string, string>)

  /** The submissions of a poll, as calls. */
  function SubmitCalls(threadId: string, batches: seq<seq<ToolOutput>>): (r: seq<ApiCall>)
    ensures |r| == |batches|
    ensures forall i :: 0 <= i < |r| ==> r[i] == SubmittedOutputs(threadId, batches[i])
  {
    seq(|batches|, i requires 0 <= i < |batches| => SubmittedOutputs(threadId, batches[i]))
  }

  /** The calls before the poll: adding the message, listing the five latest, creating the
      run. */
  function Opening(threadId: string, message: string, assistantId: Option<string>): seq<ApiCall> {
    [AddedMessage(threadId, message), ListedMessages(threadId, 5), CreatedRun(threadId, assistantId)]
  }

  /** One message on the conversation `key`: the body of `processMessage` once the key is
      chosen, shared with both monolithic servers. Only the run status of the conversation's
      thread can change, and only its thread can be added. */
  function Converse(e: Engine, key: string, message: string, assistantId: Option<string>, api: Api)
    : (r: Turn)
    ensures GetOrCreateThread(e, key, api.newThread).Failure? ==>
      r == Turn(e, [], Failure(api.newThread.error))
    ensures GetOrCreateThread(e, key, api.newThread).Success? ==>
      var (e1, t) := GetOrCreateThread(e, key, api.newThread).value;
      && r.engine.threads == e1.threads
      && (forall u :: u != t ==> (u in r.engine.runs <==> u in e.runs) && (u in e.runs ==> r.engine.runs[u] == e.runs[u]))
      && (HasActiveRun(e, t) ==> r == Turn(e1, [], Failure(BusyError)))
  {
    match GetOrCreateThread(e, key, api.newThread)
    case Failure(err) => Turn(e, [], Failure(err))
    case Success((e1, t)) =>
      if HasActiveRun(e1, t) then Turn(e1, [], Failure(BusyError))
      else Start(e1, t, message, assistantId, api)
  }

  /** The turn on an idle thread: the three opening calls, any of which may throw, the poll,
      and the reply. */
  function Start(e: Engine, t: string, message: string, assistantId: Option<string>, api: Api)
    : (r: Turn)
    ensures r.engine.threads == e.threads
    ensures forall u :: u != t ==> (u in r.engine.runs <==> u in e.runs) && (u in e.runs ==> r.engine.runs[u] == e.runs[u])
  {
    var opening := Opening(t, message, assistantId);
    if api.addError.Some? then Turn(e, opening[..1], Failure(api.addError.value))
    else if api.contextError.Some? then Turn(e, opening[..2], Failure(api.contextError.value))
    else if api.runError.Some? then Turn(e, opening, Failure(api.runError.value))
    else
      var p := Wait(api.retrieve, api.submit);
      var (closing, reply) := Conclude(t, p, api.latest);
      Turn(e.(runs := e.runs[t := LastStatus(api.retrieve, p.retrieves)]),
           opening + SubmitCalls(t, Submissions(api.retrieve, p.retrieves)) + closing, reply)
  }

  /** What follows the poll: after a completed run the latest message is listed and the reply
      selected from it; otherwise the poll's error is thrown, or the fixed error text is the
      reply. */
  function Conclude(t: string, p: Poll, latest: Result<seq<ThreadMessage>, string>)
    : (r: (seq<ApiCall>, Result<string, string>))
  {
    match p
    case Threw(err, _) => ([], Failure(err))
    case Ended(last, _) =>
      if last.status != Completed then ([], Success(RunErrorReply))
      else match latest
        case Failure(err) => ([ListedMessages(t, 1)], Failure(err))
        case Success(messages) => ([ListedMessages(t, 1)], GetAssistantResponse(messages))
  }

  /** `processMessage(userId, message, assistantId, clientCode = 'default')`: the conversation
      of the user with the client. No other conversation's thread changes. */
  function ProcessMessage(e: Engine, userId: string, message: string, assistantId: Option<string>,
                          clientCode: Option<string>, api: Api): (r: Turn)
    ensures var key := ThreadKey(userId, clientCode.GetOr(DefaultClientCode));
      forall k :: k != key ==>
        (k in r.engine.threads <==> k in e.threads) && (k in e.threads ==> r.engine.threads[k] == e.threads[k])
  {
    Converse(e, ThreadKey(userId, clientCode.GetOr(DefaultClientCode)), message, assistantId, api)
  }

  /** For phone-number user ids, a message of one user to one client leaves the thread of any
      other user, or of the same user with another client, as it was; without a client code
      the conversation is the one with the `default` client. */
  lemma ConversationsKeptApart(e: Engine, u1: string, c1: Option<string>, u2: string, c2: string,
                               message: string, assistantId: Option<string>, api: Api)
    requires '_' !in u1 && '_' !in u2
    requires u1 != u2 || c1.GetOr(DefaultClientCode) != c2
    ensures var r := ProcessMessage(e, u1, message, assistantId, c1, api);
      var k := ThreadKey(u2, c2);
      && (k in r.engine.threads <==> k in e.threads)
      && (k in e.threads ==> r.engine.threads[k] == e.threads[k])
    ensures c1.None? ==> ProcessMessage(e, u1, message, assistantId, c1, api) ==
                         ProcessMessage(e, u1, message, assistantId, Some(DefaultClientCode), api)
  {
    if ThreadKey(u1, c1.GetOr(DefaultClientCode)) == ThreadKey(u2, c2) {
      ThreadKeyInjective(u1, c1.GetOr(DefaultClientCode), u2, c2);
    }
  }

  /** The thread a conversation uses, or the error of creating it. */
  function ThreadOf(e: Engine, key: string, api: Api): Result<string, string> {
    match GetOrCreateThread(e, key, api.newThread)
    case Success((_, t)) => Success(t)
    case Failure(err) => Failure(err)
  }

  /** The conversation has a thread, and a run is active on it. */
  predicate Busy(e: Engine, key: string, api: Api) {
    ThreadOf(e, key, api).Success? && HasActiveRun(e, ThreadOf(e, key, api).value)
  }

  /** The conversation has a thread, and no run is active on it. */
  predicate Idle(e: Engine, key: string, api: Api) {
    ThreadOf(e, key, api).Success? && !HasActiveRun(e, ThreadOf(e, key, api).value)
  }

  /** When the conversation has no thread and creating one throws, the error is thrown and
      nothing changes. */
  lemma ThreadCreationThrows(e: Engine, key: string, message: string, assistantId: Option<string>, api: Api)
    requires ThreadOf(e, key, api).Failure?
    ensures Converse(e, key, message, assistantId, api) == Turn(e, [], Failure(api.newThread.error))
    ensures !HasThread(e, key)
  {
  }

  /** A message arriving while the thread's run is active is refused before anything is sent to
      the service, and the recorded statuses stay as they were. */
  lemma BusyThreadRefused(e: Engine, key: string, message: string, assistantId: Option<string>, api: Api)
    requires Busy(e, key, api)
    ensures var r := Converse(e, key, message, assistantId, api);
      && r.reply == Failure(BusyError)
      && r.calls == []
      && r.engine.runs == e.runs
  {
  }

  /** When adding the message, listing the context or creating the run throws, the error is
      thrown after the calls up to the failing one, and no run status changes: the thread is
      not locked. */
  lemma OpeningFailureKeepsRuns(e: Engine, key: string, message: string, assistantId: Option<string>, api: Api)
    requires Idle(e, key, api) && !StartsRun(api)
    ensures var r := Converse(e, key, message, assistantId, api);
      var t := ThreadOf(e, key, api).value;
      && r.reply.Failure?
      && r.engine.runs == e.runs
      && !HasActiveRun(r.engine, t)
      && 1 <= |r.calls| <= 3 && r.calls == Opening(t, message, assistantId)[..|r.calls|]
      && (api.addError.Some? ==> r.reply.error == api.addError.value && |r.calls| == 1)
  {
  }

  /** Otherwise the message is added, the five latest are listed, a run is created, and one
      batch of tool outputs is submitted per `requires_action` retrieve, until the poll ends or
      throws. The status of the last retrieve that answered stays recorded, and the thread stays
      locked exactly when the poll threw or ended on a status that is not settled. */
  lemma TurnEffects(e: Engine, key: string, message: string, assistantId: Option<string>, api: Api)
    requires Idle(e, key, api) && StartsRun(api)
    ensures var r := Converse(e, key, message, assistantId, api);
      var t := ThreadOf(e, key, api).value;
      var p := Wait(api.retrieve, api.submit);
      var batches := Submissions(api.retrieve, p.retrieves);
      && |r.calls| >= 3 + |batches|
      && r.calls[..3] == Opening(t, message, assistantId)
      && (forall i :: 0 <= i < |batches| ==> r.calls[3 + i] == SubmittedOutputs(t, batches[i]))
      && t in r.engine.runs && r.engine.runs[t] == LastStatus(api.retrieve, p.retrieves)
      && (HasActiveRun(r.engine, t) <==> p.Threw? || !Settled(p.last.status))
  {
    var (e1, t) := GetOrCreateThread(e, key, api.newThread).value;
    assert Converse(e, key, message, assistantId, api) == Start(e1, t, message, assistantId, api);
    StartCalls(e1, t, message, assistantId, api);
    StartRecords(e1, t, message, assistantId, api);
  }

  /** The calls of a turn that starts a run: the opening three, then the submissions. */
  lemma StartCalls(e: Engine, t: string, message: string, assistantId: Option<string>, api: Api)
    requires StartsRun(api)
    ensures var r := Start(e, t, message, assistantId, api);
      var batches := Submissions(api.retrieve, Wait(api.retrieve, api.submit).retrieves);
      && |r.calls| >= 3 + |batches|
      && r.calls[..3] == Opening(t, message, assistantId)
      && (forall i :: 0 <= i < |batches| ==> r.calls[3 + i] == SubmittedOutputs(t, batches[i]))
  {
    var p := Wait(api.retrieve, api.submit);
    var submitted := SubmitCalls(t, Submissions(api.retrieve, p.retrieves));
    StartShape(e, t, message, assistantId, api);
    CallsLayout(Opening(t, message, assistantId), submitted, Conclude(t, p, api.latest).0);
  }

  /** A turn that starts a run makes the opening calls, the submissions and the closing calls. */
  lemma StartShape(e: Engine, t: string, message: string, assistantId: Option<string>, api: Api)
    requires StartsRun(api)
    ensures var p := Wait(api.retrieve, api.submit);
      Start(e, t, message, assistantId, api).calls ==
        Opening(t, message, assistantId) + SubmitCalls(t, Submissions(api.retrieve, p.retrieves)) +
        Conclude(t, p, api.latest).0
  {
  }

  lemma CallsLayout(opening: seq<ApiCall>, submitted: seq<ApiCall>, closing: seq<ApiCall>)
    requires |opening| == 3
    ensures var calls := opening + submitted + closing;
      && calls[..3] == opening
      && forall i :: 0 <= i < |submitted| ==> calls[3 + i] == submitted[i]
  {
  }

  /** The run status a turn that starts a run leaves recorded. */
  lemma StartRecords(e: Engine, t: string, message: string, assistantId: Option<string>, api: Api)
    requires StartsRun(api)
    ensures var r := Start(e, t, message, assistantId, api);
      var p := Wait(api.retrieve, api.submit);
      && t in r.engine.runs && r.engine.runs[t] == LastStatus(api.retrieve, p.retrieves)
      && (HasActiveRun(r.engine, t) <==> p.Threw? || !Settled(p.last.status))
  {
    LastStatusOf(api.retrieve, api.submit, Wait(api.retrieve, api.submit));
  }

  /** The reply: the assistant's text after a completed run (or the fixed apology when there is
      none), the fixed error text for any other final status, and the thrown error when a
      retrieve, a submission or the final listing throws. The latest message is listed only
      after a completed run. */
  lemma ReplySelection(e: Engine, key: string, message: string, assistantId: Option<string>, api: Api)
    requires Idle(e, key, api) && StartsRun(api)
    ensures var r := Converse(e, key, message, assistantId, api);
      var t := ThreadOf(e, key, api).value;
      var p := Wait(api.retrieve, api.submit);
      && (p.Threw? ==> r.reply == Failure(p.error))
      && (p.Ended? && p.last.status != Completed ==> r.reply == Success(RunErrorReply))
      && (p.Ended? && p.last.status == Completed ==>
            && r.calls[|r.calls| - 1] == ListedMessages(t, 1)
            && (api.latest.Failure? ==> r.reply == Failure(api.latest.error))
            && (api.latest.Success? ==> r.reply == GetAssistantResponse(api.latest.value)))
      && (p.Threw? || p.last.status != Completed ==> ListedMessages(t, 1) !in r.calls)
  {
    var t := ThreadOf(e, key, api).value;
    var p := Wait(api.retrieve, api.submit);
    var polled := Opening(t, message, assistantId) + SubmitCalls(t, Submissions(api.retrieve, p.retrieves));
    assert Converse(e, key, message, assistantId, api).calls == polled + Conclude(t, p, api.latest).0;
    assert forall i :: 0 <= i < |polled| ==> polled[i] != ListedMessages(t, 1);
  }

  /** A retrieve or a submission that throws after the run was created leaves it recorded as
      active: the error is thrown, and the next message on the same conversation is refused,
      until the threads are reset. */
  lemma ThrownPollLocksThread(e: Engine, key: string, m1: string, m2: string, a1: Option<string>,
                              a2: Option<string>, api1: Api, api2: Api)
    requires Idle(e, key, api1) && StartsRun(api1) && ThreadOf(e, key, api1).value != ""
    requires Wait(api1.retrieve, api1.submit).Threw?
    ensures var first := Converse(e, key, m1, a1, api1);
      && first.reply == Failure(Wait(api1.retrieve, api1.submit).error)
      && Converse(first.engine, key, m2, a2, api2).reply == Failure(BusyError)
  {
    TurnEffects(e, key, m1, a1, api1);
    LockedThreadRefuses(e, key, m1, m2, a1, a2, api1, api2);
  }

  /** A turn that leaves its thread's run active refuses the next message on the conversation,
      the thread being stored under its key. */
  lemma LockedThreadRefuses(e: Engine, key: string, m1: string, m2: string, a1: Option<string>,
                            a2: Option<string>, api1: Api, api2: Api)
    requires Idle(e, key, api1) && ThreadOf(e, key, api1).value != ""
    requires HasActiveRun(Converse(e, key, m1, a1, api1).engine, ThreadOf(e, key, api1).value)
    ensures Converse(Converse(e, key, m1, a1, api1).engine, key, m2, a2, api2).reply == Failure(BusyError)
  {
    var first := Converse(e, key, m1, a1, api1);
    assert HasThread(first.engine, key) && first.engine.threads[key] == ThreadOf(e, key, api1).value;
  }

  /** A run that never settles within the budget locks its conversation: the error reply is
      sent, and the next message on the same key is refused, until the threads are reset. */
  lemma UnsettledRunLocksThread(e: Engine, key: string, m1: string, m2: string, a1: Option<string>,
                                a2: Option<string>, api1: Api, api2: Api)
    requires Idle(e, key, api1) && StartsRun(api1) && ThreadOf(e, key, api1).value != ""
    requires forall j :: 0 <= j < MaxRetries ==> Continued(api1.retrieve, api1.submit, j)
    ensures var first := Converse(e, key, m1, a1, api1);
      && first.reply == Success(RunErrorReply)
      && Converse(first.engine, key, m2, a2, api2).reply == Failure(BusyError)
  {
    UnsettledRunUsesBudget(api1.retrieve, api1.submit);
    TurnEffects(e, key, m1, a1, api1);
    LockedThreadRefuses(e, key, m1, m2, a1, a2, api1, api2);
  }

  /** For instance, a run that ends `incomplete` is polled 150 times and then blocks its
      conversation. */
  lemma IncompleteRunLocksThread(e: Engine, key: string, m1: string, m2: string, a1: Option<string>,
                                 a2: Option<string>, api1: Api, api2: Api)
    requires Idle(e, key, api1) && StartsRun(api1) && ThreadOf(e, key, api1).value != ""
    requires forall j :: api1.retrieve(j).Success? && api1.retrieve(j).value.status == Incomplete
    ensures Wait(api1.retrieve, api1.submit).retrieves == MaxRetries
    ensures Converse(Converse(e, key, m1, a1, api1).engine, key, m2, a2, api2).reply == Failure(BusyError)
  {
    assert forall j :: 0 <= j < MaxRetries ==> Continued(api1.retrieve, api1.submit, j);
    UnsettledRunUsesBudget(api1.retrieve, api1.submit);
    UnsettledRunLocksThread(e, key, m1, m2, a1, a2, api1, api2);
  }
}
