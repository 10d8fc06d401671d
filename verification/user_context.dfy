/** `UserContextManager`: per-user conversation context kept in memory, used to notice that a
    user who has just been sent the day's agenda answers with a confirmation. The JavaScript
    `Map` becomes an immutable `map`; each operation returns the map it leaves behind. The
    clock is a parameter: `now` is the time `new Date()` would read. */
module UserContext {
  import opened Wrappers

  datatype Context = Context(
    lastMessageType: Option<string>,
    lastMessageTime: Option<int>,
    confirmationCount: nat,
    isWaitingForConfirmation: bool)

  /** The context created for a user seen for the first time. */
  const Fresh: Context := Context(None, None, 0, false)

  /** The message types the manager reacts to; any other type only records type and time. */
  const ConfirmationType: string := "confirmation"
  const AgendaSentType: string := "agenda_sent"
  const AgendaSentContent: string := "Agenda del día enviada"

  type Store = map<string, Context>

  /** The context a lookup would find, without the insertion side effect. */
  function Lookup(store: Store, userId: string): Context {
    if userId in store then store[userId] else Fresh
  }

  /** Entries other than `userId`'s are the same in both stores. */
  ghost predicate OthersUnchanged(before: Store, after: Store, userId: string) {
    forall u :: u != userId ==> (u in after <==> u in before) && (u in before ==> after[u] == before[u])
  }

  /** `getUserContext(userId)`: returns the stored context, inserting a fresh one first when the
      user is unknown. */
  function GetUserContext(store: Store, userId: string): (r: (Store, Context))
    ensures userId in r.0 && r.0[userId] == r.1
    ensures userId in store ==> r.1 == store[userId] && r.0 == store
    ensures userId !in store ==> r.1 == Fresh
    ensures OthersUnchanged(store, r.0, userId)
  {
    if userId in store then (store, store[userId]) else (store[userId := Fresh], Fresh)
  }

  /** `updateUserContext(userId, messageType, messageContent)`. The content is not looked at. */
  function UpdateUserContext(store: Store, userId: string, messageType: string, messageContent: string,
                             now: int): (r: Store)
    ensures userId in r
    ensures r[userId].lastMessageType == Some(messageType) && r[userId].lastMessageTime == Some(now)
    ensures messageType == ConfirmationType ==>
      r[userId].confirmationCount == Lookup(store, userId).confirmationCount + 1 &&
      !r[userId].isWaitingForConfirmation
    ensures messageType == AgendaSentType ==>
      r[userId].confirmationCount == 0 && r[userId].isWaitingForConfirmation
    ensures messageType != ConfirmationType && messageType != AgendaSentType ==>
      r[userId].confirmationCount == Lookup(store, userId).confirmationCount &&
      r[userId].isWaitingForConfirmation == Lookup(store, userId).isWaitingForConfirmation
    ensures OthersUnchanged(store, r, userId)
  {
    var (s, c) := GetUserContext(store, userId);
    var stamped := c.(lastMessageType := Some(messageType), lastMessageTime := Some(now));
    var next :=
      if messageType == ConfirmationType then
        stamped.(confirmationCount := c.confirmationCount + 1, isWaitingForConfirmation := false)
      else if messageType == AgendaSentType then
        stamped.(isWaitingForConfirmation := true, confirmationCount := 0)
      else stamped;
    s[userId := next]
  }

  /** `markAgendaSent(userId)`: an update of type `agenda_sent`. */
  function MarkAgendaSent(store: Store, userId: string, now: int): (r: Store)
    ensures userId in r && r[userId].isWaitingForConfirmation && r[userId].confirmationCount == 0
    ensures r[userId].lastMessageType == Some(AgendaSentType)
    ensures OthersUnchanged(store, r, userId)
  {
    UpdateUserContext(store, userId, AgendaSentType, AgendaSentContent, now)
  }

  /** `clearUserContext(userId)`: forgets the user. */
  function ClearUserContext(store: Store, userId: string): (r: Store)
    ensures userId !in r
    ensures OthersUnchanged(store, r, userId)
  {
    map u | u in store && u != userId :: store[u]
  }

  /** `isWaitingForConfirmation(userId)`: goes through `getUserContext`, so an unknown user is
      inserted with a fresh context (and is not waiting). */
  function IsWaitingForConfirmation(store: Store, userId: string): (r: (Store, bool))
    ensures r.1 <==> userId in store && store[userId].isWaitingForConfirmation
    ensures userId in r.0 && r.0[userId] == Lookup(store, userId)
    ensures OthersUnchanged(store, r.0, userId)
  {
    var (s, c) := GetUserContext(store, userId);
    (s, c.isWaitingForConfirmation)
  }

  /** The content argument never influences the stored context. */
  lemma ContentIgnored(store: Store, userId: string, messageType: string, a: string, b: string, now: int)
    ensures UpdateUserContext(store, userId, messageType, a, now) == UpdateUserContext(store, userId, messageType, b, now)
  {
  }

  /** After a clear the next lookup starts from a fresh context. */
  lemma ClearThenFresh(store: Store, userId: string)
    ensures GetUserContext(ClearUserContext(store, userId), userId).1 == Fresh
    ensures !IsWaitingForConfirmation(ClearUserContext(store, userId), userId).1
  {
  }

  /** Sending the agenda and then receiving a confirmation leaves the user with one counted
      confirmation and no longer waiting, whatever the context was before. */
  lemma AgendaThenConfirmation(store: Store, userId: string, content: string, t1: int, t2: int)
    ensures var s := UpdateUserContext(MarkAgendaSent(store, userId, t1), userId, ConfirmationType, content, t2);
      && s[userId].confirmationCount == 1
      && !s[userId].isWaitingForConfirmation
      && s[userId].lastMessageTime == Some(t2)
  {
  }

  // ---------------------------------------------------------------------------
  // A history of calls, and what it implies for one user

  datatype Call =
    | Update(userId: string, messageType: string, content: string, now: int)
    | Clear(userId: string)
    | Query(userId: string)

  function Apply(store: Store, call: Call): Store {
    match call
    case Update(u, t, c, n) => UpdateUserContext(store, u, t, c, n)
    case Clear(u) => ClearUserContext(store, u)
    case Query(u) => IsWaitingForConfirmation(store, u).0
  }

  /** The store after replaying `calls` on the empty map the constructor creates. */
  function Replay(calls: seq<Call>): Store
    decreases |calls|
  {
    if calls == [] then map[] else Apply(Replay(calls[..|calls| - 1]), calls[|calls| - 1])
  }

  /** Reference reading of a history: a user waits exactly when, among their `agenda_sent`
      updates, `confirmation` updates and clears, the latest is an `agenda_sent`. */
  function WaitingAfter(calls: seq<Call>, userId: string): bool
    decreases |calls|
  {
    if calls == [] then false
    else
      var last := calls[|calls| - 1];
      if last.Update? && last.userId == userId && last.messageType == AgendaSentType then true
      else if last.Update? && last.userId == userId && last.messageType == ConfirmationType then false
      else if last.Clear? && last.userId == userId then false
      else WaitingAfter(calls[..|calls| - 1], userId)
  }

  /** Reference count: the `confirmation` updates since the user's latest `agenda_sent` update
      or clear. */
  function ConfirmationsAfter(calls: seq<Call>, userId: string): nat
    decreases |calls|
  {
    if calls == [] then 0
    else
      var last := calls[|calls| - 1];
      var before := ConfirmationsAfter(calls[..|calls| - 1], userId);
      if last.Update? && last.userId == userId && last.messageType == AgendaSentType then 0
      else if last.Update? && last.userId == userId && last.messageType == ConfirmationType then before + 1
      else if last.Clear? && last.userId == userId then 0
      else before
  }

  /** The replayed store agrees with the reference reading for every user. */
  lemma {:induction false} ReplayAgreesWithHistory(calls: seq<Call>, userId: string)
    ensures Lookup(Replay(calls), userId).isWaitingForConfirmation == WaitingAfter(calls, userId)
    ensures Lookup(Replay(calls), userId).confirmationCount == ConfirmationsAfter(calls, userId)
    decreases |calls|
  {
    if calls != [] {
      var prefix := calls[..|calls| - 1];
      ReplayAgreesWithHistory(prefix, userId);
    }
  }
}
