# WhatsApp assistant relay — a verified model of its decision logic

The relay receives WhatsApp messages by webhook and passes them to an OpenAI assistant. It
answers confirmations on its own, lets a clinic control its bot with `#CODE /command`
messages, keeps a registry of client clinics and of UltraMsg instances, and books
half-hour appointments on a shared calendar. This project models the deterministic core
of each component as pure Dafny functions over immutable maps and sequences, and proves
what each one promises.

Every network collaborator is a parameter:

- the WhatsApp sender;
- the assistant and its run-status sequence;
- the UltraMsg HTTP API;
- the calendar listing, insertion and deletion;
- the Firestore collection, as a sequence of documents.

Timestamps are opaque integers. An exception thrown by the source becomes a `Failure` value,
or an outcome that carries the state reached before the throw.

One module per source component:

| module | component |
|---|---|
| `Wrappers` | `Option`, `Result` |
| `Text` | the JavaScript string primitives used throughout. `trim`, `toLowerCase`, `split(/\s+/)`, UTF-16 `length`, `indexOf`, `replace` of the first occurrence, `split('@')[0]`, `\|\|` on strings, JSON string escaping. |
| `Confirmation` | `services/confirmationManager.js` |
| `UserContext` | `services/userContextManager.js` |
| `Commands` | `services/commandManager.js` |
| `Webhook` | `controllers/webhookManager.js` |
| `Engine` | `managers/openAIManager.js` |
| `Registry` | `services/firebaseService.js` |
| `Instances` | `managers/ultramsgManager.js` |
| `Calendar` | `calendar.js` |
| `Monolith` | the two single-file servers `index.js` (WhatsApp Cloud API) and `index-fixed.js` (UltraMsg) |

The monolithic servers repeat the classifier, the context store, the dedup set and the run
loop inline. The model reuses the shared definitions and captures only where the two
servers differ:

- payload normalisation;
- the thread keyed by sender alone;
- dedup trimming only on the text path;
- HTTP status codes instead of `{processed, reason}` replies.

The inline classifier and context functions of `index.js` (lines 36-100) are the same as the
service versions, so the monolith uses `Confirmation` and `UserContext` directly.

The webhook router is modelled as `controllers/webhookManager.js` is written. It runs no admin
commands, looks up no tenant by phone, and calls the assistant with the default client code.

## Model

| member | source | states |
|---|---|---|
| Text.Trim | src/services/confirmationManager.js:20 | The trimmed string has no white space at either end. It is empty exactly when the input is all white space. A string with no white space is its own trim. |
| Text.TrimPadded | src/services/confirmationManager.js:20 | `trim()` removes exactly the whitespace padding around a string that has no whitespace at its ends. |
| Text.TrimIdempotent | src/services/confirmationManager.js:20 | Trimming twice is trimming once. |
| Text.LowerTrim | src/services/confirmationManager.js:20 | Lower-casing and trimming commute. |
| Text.LowerIdempotent | src/services/confirmationManager.js:20 | Lower-casing twice is lower-casing once. |
| Text.SplitWs | src/services/confirmationManager.js:33 | `split(/\s+/)` yields at least one piece, and no piece contains white space. |
| Text.SplitTrimmedPiecesNonEmpty | src/services/confirmationManager.js:33 | On trimmed text every piece is non-empty. |
| Text.SplitTwoWords | src/services/confirmationManager.js:33 | Two whitespace-free words joined by one space split into exactly those two words. |
| Text.Utf16Length | src/services/confirmationManager.js:30 | `.length` counts UTF-16 code units: between the number of code points and twice that. |
| Text.Utf16LengthBmp | src/services/confirmationManager.js:30 | Basic-plane text counts one unit per character. Text made only of astral characters, such as emoji, counts two per character. |
| Text.IndexOf | src/controllers/webhookManager.js:135 | `indexOf` returns the first occurrence at or after the start, or none when there is no occurrence. |
| Text.ReplaceFirst | src/index-fixed.js:228 | `replace` with a string pattern rewrites only the first occurrence, and leaves the text alone when the pattern is absent. |
| Text.BeforeFirst | src/services/firebaseService.js:80 | `split('@')[0]` is the longest prefix without `@`. When it is shorter than the input, an `@` follows it. |
| Text.BeforeFirstSuffix | src/services/firebaseService.js:80 | For a number without `@`, cutting `number@rest` at its first `@` gives back the number. |
| Text.JsonEscapeConcat | src/managers/openAIManager.js:169-172 | JSON escaping distributes over concatenation. |
| Confirmation.ClassifiesCleanedText | src/services/confirmationManager.js:20 | Classification depends only on the trimmed, lower-cased text. Two messages with the same cleaned text classify alike. |
| Confirmation.CleanIdempotent | src/services/confirmationManager.js:20 | Cleaning cleaned text changes nothing. |
| Confirmation.PatternPhrasesConfirm | src/services/confirmationManager.js:20-27 | A pattern phrase written in any letter case and padded with any whitespace on either side is a confirmation. |
| Confirmation.EveryPhraseConfirms | src/services/confirmationManager.js:4-11 | Every listed phrase is a confirmation as it stands: each phrase is already trimmed and lower case. |
| Confirmation.ShortRuleApplies | src/services/confirmationManager.js:30-38 | Short text with at most 3 pieces, one of them a confirmation word, is a confirmation. |
| Confirmation.LongTextRejected | src/services/confirmationManager.js:30-40 | Cleaned text of 10 or more units that is not a phrase is never a confirmation. |
| Confirmation.BlankRejected | src/services/confirmationManager.js:32-40 | Empty or all-white-space input is not a confirmation: its single piece is empty. |
| Confirmation.CaseAndSpaceExample | src/services/confirmationManager.js:20-27 | `"  OK  "` cleans to `"ok"` and is a confirmation. |
| Confirmation.ShortRuleExample | src/services/confirmationManager.js:30-38 | `"si claro"` matches no phrase but is a confirmation by the short rule. |
| Confirmation.ThreeThumbsConfirm | src/services/confirmationManager.js:30-38 | `"ok 👍👍👍"` (9 UTF-16 units) is a confirmation. |
| Confirmation.FourThumbsRejected | src/services/confirmationManager.js:30-40 | `"ok 👍👍👍👍"` has 7 characters but 11 UTF-16 units, so the short rule does not apply and it is rejected. |
| Confirmation.RequestExample | src/services/confirmationManager.js:30-40 | `"necesito ayuda con mi cita"` is not a confirmation. |
| UserContext.GetUserContext | src/services/userContextManager.js:12-22 | An unknown user is stored with the fresh record `{null, null, 0, false}`. A known user's record is returned unchanged. No other user's entry changes. |
| UserContext.UpdateUserContext | src/services/userContextManager.js:30-46 | The update sets the type and time. `confirmation` adds exactly 1 to the count and clears waiting. `agenda_sent` sets waiting and a count of 0. Any other type keeps the count and flag. Only the given user changes. |
| UserContext.MarkAgendaSent | src/services/userContextManager.js:52-54 | After marking, the user is waiting for confirmation with a count of 0, and nobody else changed. |
| UserContext.ClearUserContext | src/services/userContextManager.js:60-62 | The user's entry is removed and every other entry is kept. |
| UserContext.IsWaitingForConfirmation | src/services/userContextManager.js:77-80 | True exactly when the user's stored record is waiting. The lookup stores a fresh record for a new user. |
| UserContext.ContentIgnored | src/services/userContextManager.js:30-46 | The message content has no effect on the update. |
| UserContext.ClearThenFresh | src/services/userContextManager.js:60-62 | After clearing, a get yields the fresh record and the user is not waiting. |
| UserContext.AgendaThenConfirmation | src/services/userContextManager.js:37-43 | An agenda mark followed by a confirmation leaves the count at 1 and the user not waiting. |
| UserContext.ReplayAgreesWithHistory | src/services/userContextManager.js:30-54 | After any sequence of updates and clears, the user is waiting exactly when their latest agenda mark, confirmation or clear is an agenda mark. The count is the number of confirmations since their latest agenda mark or clear. |
| Commands.EnvGetFound | src/services/commandManager.js:62-64 | An environment lookup finds a value exactly when some entry declares the name, and the value is the first such entry's. |
| Commands.LoadClientConfig | src/services/commandManager.js:53-72 | The client codes are exactly the text before the first `_` of the env keys that start `CLIENTE` and contain `_PHONE`, and every code starts with `CLIENTE`. |
| Commands.LoadPrefixLastWins | src/services/commandManager.js:57-68 | When two keys give the same code, the later key's record wins. |
| Commands.CodesStartWithCliente | src/services/commandManager.js:58-59 | Every loaded client code starts with `CLIENTE`. |
| Commands.NewManager | src/services/commandManager.js:2-47 | A new manager has the loaded clients, and every one of their bots is active. |
| Commands.AllBotsStartActive | src/services/commandManager.js:10-12 | A bot starts active exactly when its code is a loaded client. |
| Commands.FindCommand | src/services/commandManager.js:15-46 | A command is known exactly when it is in the six-entry table. Unauthenticated commands only show help or info. |
| Commands.AuthRequiredCommands | src/services/commandManager.js:15-46 | Exactly `/off`, `/on`, `/status` and `/restart` need authorisation. |
| Commands.MatchAtCorrect | src/services/commandManager.js:102-110 | The matcher at a position succeeds exactly when `#`, word characters, white space, `/` and word characters start there. It captures the maximal word runs. |
| Commands.FirstMatchIsFirst | src/services/commandManager.js:102-110 | Scanning positions left to right with any matcher finds nothing exactly when the matcher fails at every position, and otherwise returns the match at the first position where it succeeds. |
| Commands.FindFromCorrect | src/services/commandManager.js:102-110 | The scan returns the leftmost position where the pattern matches, or none when there is none. |
| Commands.ExtractCommandInfoCorrect | src/services/commandManager.js:102-110 | A command is parsed exactly when the pattern matches somewhere, and the parse is the leftmost match's captures. |
| Commands.ParsesCanonicalCommand | src/services/commandManager.js:102-110 | `#code /name`, with word-character code and name, parses to that code and `/name`. |
| Commands.ParsedIsCommand | src/services/commandManager.js:93-110 | Every parsable message passes the command test. |
| Commands.RejectsMissingSlash | src/services/commandManager.js:102-110 | `"#C status"` does not parse. |
| Commands.RejectsMissingSpace | src/services/commandManager.js:102-110 | `"#C/status"` does not parse. |
| Commands.AuthorisationIgnoresChatSuffix | src/services/commandManager.js:80-86 | A chat id `number@server` is authorised exactly when the bare number is: whatever follows the `@` is ignored. |
| Commands.Act | src/services/commandManager.js:134-160 | `/off` makes the bot inactive. `/on` and `/restart` make it active. `/status`, `/help` and `/info` change nothing. No other client's bot changes. |
| Commands.ExecuteCommand | src/services/commandManager.js:119-161 | An unknown command answers "no reconocido" with no change, before authorisation. An unauthorised request is refused with no change, and the refusal names the client's phone. Otherwise the action is taken. |
| Commands.ProcessMessage | src/services/commandManager.js:169-203 | The checks run in order. A non-command is passed through. An unparsable command gets the format error. An unknown client is "no encontrado", before the command is looked up. Otherwise the command is executed. The client table never changes. |
| Commands.ProcessWith | src/services/commandManager.js:169-203 | The same check chain for a given client lookup result. |
| Commands.UnknownCommandRejected | src/services/commandManager.js:124-126 | For a known client, an unknown command is answered "no reconocido" and the manager is unchanged. |
| Commands.UnauthorizedRefused | src/services/commandManager.js:129-131 | An auth-only command from another phone is refused, naming the client's phone, and no bot status changes. |
| Commands.ExecutedEffects | src/services/commandManager.js:134-160 | An executed command reports its client and command, and changes only that client's bot status. |
| Commands.OffThenStatus | src/services/commandManager.js:143-146 | After an authorised `/off`, `/status` reports INACTIVE. `/on` then restores ACTIVE. |
| Commands.HelpListsEveryCommand | src/services/commandManager.js:219-230 | The help text contains the line of each of the six commands. |
| Commands.HelpMarksAuthorisedOnly | src/services/commandManager.js:223-226 | A help line carries "(Solo autorizados)" exactly when its command requires authorisation. |
| Commands.PlainObjectClient | src/services/commandManager.js:187 | The lookup on a plain object finds own entries, and also the names inherited from `Object.prototype`. |
| Commands.ProcessMessageAsWritten | src/services/commandManager.js:169-203 | As written, the check chain agrees with the corrected one unless the client code is an inherited name. |
| Commands.InheritedNameFoundAsClient | src/services/commandManager.js:187-195 | As written, `#constructor /help` is answered with the help text of a client called "Object". The corrected lookup answers "no encontrado". |
| Webhook.UnconfiguredTokenAcceptsMissing | src/controllers/webhookManager.js:17-19 | With no configured token, a missing token is accepted and any given token is refused. |
| Webhook.SetAdd | src/controllers/webhookManager.js:34-36 | Adding to an insertion-ordered set keeps the order. A present id changes nothing. A new id goes at the end. Distinct ids stay distinct. |
| Webhook.MarkMessageAsProcessed | src/controllers/webhookManager.js:34-42 | The set holds the new id and at most 1000 ids, and nothing else is added. A set below capacity loses nothing. |
| Webhook.EvictsOldestFirst | src/controllers/webhookManager.js:37-41 | Only the oldest entries are evicted: every entry newer than the evicted prefix survives. |
| Webhook.FullWindowEvictsOne | src/controllers/webhookManager.js:37-41 | Adding a new id to a full set drops exactly its oldest entry. |
| Webhook.MarkAllValid | src/controllers/webhookManager.js:34-42 | Any sequence of marks leaves a distinct set of at most 1000 ids, made only of marked ids, that holds the latest one. |
| Webhook.UserIdOf | src/controllers/webhookManager.js:135 | A sender without `@c.us` is its own user id. |
| Webhook.UserIdOfContact | src/controllers/webhookManager.js:135 | The user id of `number@c.us` is `number`, when the number has no `@`. |
| Webhook.GroupDetectionExamples | src/controllers/webhookManager.js:93-100 | A private chat is not a group. A flagged chat and a `@g.us` sender are groups. |
| Webhook.ProcessConfirmationMessage | src/controllers/webhookManager.js:50-86 | A confirmation while waiting sends the canned reply and records the confirmation, without the assistant. A confirmation while not waiting records it and goes on. Anything else leaves the context alone. |
| Webhook.AskAndReply | src/controllers/webhookManager.js:139-157 | The assistant is asked once. Its answer, if any, is sent to the same user. A failure of either propagates, and the context is untouched. |
| Webhook.ProcessMessage | src/controllers/webhookManager.js:125-160 | Group messages are ignored. A missing sender throws. Otherwise confirmation handling runs first, and the assistant is asked only when that does not answer. |
| Webhook.HandleWebhook | src/controllers/webhookManager.js:167-212 | A payload without a body is rejected as `invalid_message_format` with the set untouched. A new id is marked with the capped insertion. An admitted message's context change, effects and reply are those of processing it. Every processed reply names the sender's user id. |
| Webhook.DuplicateIgnored | src/controllers/webhookManager.js:177-180 | A seen id yields `already_processed`, with no effect and no state change. |
| Webhook.NonTextMarkedAndRejected | src/controllers/webhookManager.js:183-189 | A `message_create` event is recorded as processed and also rejected as `not_text_message`. Nothing is sent and no context changes. |
| Webhook.SecondDeliveryIsDuplicate | src/controllers/webhookManager.js:177-189 | Delivering the same payload twice makes the second delivery a duplicate. |
| Webhook.GroupMessageIgnored | src/controllers/webhookManager.js:127-133 | A group message is processed with no response and reason `group_message_ignored`. The context is untouched and nothing is sent. |
| Webhook.ConfirmationWhileWaiting | src/controllers/webhookManager.js:59-73 | A confirmation from a waiting user sends only the canned reply and records the confirmation. |
| Webhook.ConfirmationNotWaiting | src/controllers/webhookManager.js:76-85 | A confirmation from a user not waiting is recorded, and the assistant is still asked. |
| Webhook.OrdinaryMessageRelayed | src/controllers/webhookManager.js:139-157 | A non-confirmation asks the assistant with the user's text, and leaves every context unchanged. |
| Webhook.MissingSenderThrows | src/controllers/webhookManager.js:125-135 | A text message without a sender is recorded and then throws, with no effect. |
| Engine.ThreadKey | src/managers/openAIManager.js:24 | The key is `${userId}_${clientCode}`. |
| Engine.ThreadKeyInjective | src/managers/openAIManager.js:24 | For user ids without `_`, such as phone numbers, the key determines both the user and the client. |
| Engine.ThreadKeyCollision | src/managers/openAIManager.js:24 | When user ids may contain `_`, keys collide: `("a_b", "c")` and `("a", "b_c")` share a thread. |
| Engine.GetOrCreateThread | src/managers/openAIManager.js:22-34 | A stored non-empty thread is reused with nothing changed. Otherwise the thread the service creates is stored under the key; when creating it throws, that error is thrown and nothing is stored. No other key and no run status changes. |
| Engine.ThreadCreatedOnce | src/managers/openAIManager.js:22-34 | Once a thread is created for a key, the next request for that key returns it, whatever the service would answer. |
| Engine.CreateRun | src/managers/openAIManager.js:82-93 | The thread's run is recorded as `in_progress`, so it is active. No other thread's gate changes. |
| Engine.ProcessToolCalls | src/managers/openAIManager.js:161-177 | There is one output per tool call, in order, with the call's id and the "no implementada" error payload. |
| Engine.NotImplementedJson | src/managers/openAIManager.js:169-172 | The error message needs no escaping when stringified, for any plain function name. |
| Engine.PollFrom | src/managers/openAIManager.js:101-136 | From any round on, the loop meets `PollsCorrectly`, the reference description of the bounded poll: at most 150 retrieves; before the budget is spent it stops only on `completed` or `failed`; it throws at the first retrieve or submission that throws; every earlier round let it go on. |
| Engine.Wait | src/managers/openAIManager.js:101-136 | The whole loop meets `PollsCorrectly`. |
| Engine.PollUnique | src/managers/openAIManager.js:101-136 | At most one outcome meets `PollsCorrectly`, so the reference description fixes the outcome. |
| Engine.WaitForRunCompletion | src/managers/openAIManager.js:101-154 | The loop as written ends where `Engine.Wait` does. It leaves recorded the status of the last retrieve that answered, or `in_progress` when the first one throws. It submits one batch of tool outputs per `requires_action` status seen, in order; a submission that throws counts as made. |
| Engine.PollLoop | src/managers/openAIManager.js:101-136 | The `do … while` loop stops at the one round `StopsAt` picks (the first settled status, failed retrieve or failed submission, or the 150th round), with the outcome `StoppedAt` gives there. After `n` answered retrieves each has recorded its status on the thread, and the batches submitted are those of the `requires_action` statuses among them. |
| Engine.SubmissionsStep | src/managers/openAIManager.js:117-122 | The submissions up to step k+1 are those up to k, plus step k's batch if it required action. |
| Engine.WaitStopsAt | src/managers/openAIManager.js:101-136 | The loop's outcome is fixed by the first round that does not let it go on, or by the last round of the budget. |
| Engine.LastStatusOf | src/managers/openAIManager.js:106-133 | An ended loop leaves its last status recorded. A loop that threw leaves a status that is neither completed nor failed, so the run stays active. |
| Engine.UnsettledRunUsesBudget | src/managers/openAIManager.js:124-130 | A run that never settles and never throws uses all 150 retrieves and ends unsettled. |
| Engine.StopsAtFirstSettled | src/managers/openAIManager.js:106-130 | A run first settled at retrieve n, with no throw before, stops after n retrieves with that status. |
| Engine.ThrowsAtFirstFailedRetrieve | src/managers/openAIManager.js:106-108 | The loop throws the error of the first retrieve that throws, with the earlier rounds counted. |
| Engine.ThrowsAtFirstFailedSubmission | src/managers/openAIManager.js:117-122 | The loop throws the error of the first tool-output submission that throws, after that round's retrieve. |
| Engine.Converse | src/managers/openAIManager.js:214-243 | When there is no thread and creating one throws, the error is thrown and nothing changes. An active run is refused with the busy error before any call. Only the conversation's thread can be stored and only its run status can change. |
| Engine.ProcessMessage | src/managers/openAIManager.js:212-214 | The conversation is keyed by the user and the client code, `default` when none is given. No other key's thread changes. |
| Engine.ConversationsKeptApart | src/managers/openAIManager.js:212-214 | For user ids without `_`, a message from one user to one client leaves the thread of every other user, and of the same user with another client, as it was. No client code is the `default` client. |
| Engine.ThreadCreationThrows | src/managers/openAIManager.js:25-29 | With no thread stored and thread creation throwing, the turn throws that error with no call and nothing changed. |
| Engine.BusyThreadRefused | src/managers/openAIManager.js:216-219 | On a busy thread, the busy error is thrown, no API call is made and no run status changes. |
| Engine.OpeningFailureKeepsRuns | src/managers/openAIManager.js:221-228 | When adding the message, listing the context or creating the run throws, the error is thrown after the calls up to the failing one. No run status is recorded, so the thread is not locked. |
| Engine.TurnEffects | src/managers/openAIManager.js:221-233 | When the opening calls succeed, the turn adds the message, lists the five latest messages, creates the run, then submits one batch per `requires_action` retrieve, in that order. Thread creation and retrieves are not logged as calls. The last answered status stays recorded. The thread stays locked exactly when the poll threw or ended on a status that is neither completed nor failed. |
| Engine.ReplySelection | src/managers/openAIManager.js:184-242 | A poll that threw throws its error. A run that ended not completed yields the fixed "Hubo un error…" text. After a completed run the last call lists the newest message, and the reply is its text, the fixed "Lo siento…" text when it is not the assistant's or is empty, or the listing's error. The newest message is listed only after a completed run. |
| Engine.ThrownPollLocksThread | src/managers/openAIManager.js:101-136 | A retrieve or submission that throws after the run was created throws its error and leaves the run active, so the next message on the conversation is refused as busy. |
| Engine.LockedThreadRefuses | src/managers/openAIManager.js:216-219 | A turn that leaves its thread's run active makes the next message on the same key be refused as busy. |
| Engine.UnsettledRunLocksThread | src/managers/openAIManager.js:124-133 | A run that never settles or throws yields the error reply, and the next message on that conversation is refused as busy. |
| Engine.IncompleteRunLocksThread | src/managers/openAIManager.js:41-44 | A run that stays `incomplete` is retrieved 150 times and leaves the conversation busy. |
| Engine.ResetThreads | src/managers/openAIManager.js:248-251 | The thread map is emptied and the run statuses are kept. |
| Engine.ResetCreatesNewThreads | src/managers/openAIManager.js:248-251 | After a reset, every key gets the thread the service creates next, or the error of creating it. The run gate is unchanged. |
| Registry.Find | src/services/firebaseService.js:54 | A document lookup finds exactly the stored ids, and with unique ids returns that document's fields. |
| Registry.View | src/services/firebaseService.js:57-63 | A record is the fields plus `id`. It fails exactly when a date field cannot be converted. |
| Registry.GetAllClients | src/services/firebaseService.js:22-45 | The result is keyed by exactly the ids of active records. |
| Registry.GetAllClientsViews | src/services/firebaseService.js:28-37 | Each active record appears under its id with its view. |
| Registry.GetClientById | src/services/firebaseService.js:52-71 | The record is returned whatever its status, or null when absent. |
| Registry.FirstWithPhone | src/services/firebaseService.js:82-89 | The phone query returns an active record with that assistant phone, or none when there is none. |
| Registry.GetClientByAssistantPhone | src/services/firebaseService.js:78-104 | The phone is cut at its first `@`. Only an active record with an equal `assistantPhone` is returned, else null. An undefined phone fails the query. |
| Registry.SetFields | src/services/firebaseService.js:144 | Setting one document's fields keeps every id and every other document. |
| Registry.FindAfterSet | src/services/firebaseService.js:144-145 | Reading after a write sees the write, and leaves other documents' reads unchanged. |
| Registry.Stored | src/services/firebaseService.js:113-118 | The data as stored has status `active`, whatever status was supplied. Both timestamps are set, and every other field is kept. |
| Registry.CreateClient | src/services/firebaseService.js:111-129 | Creation adds exactly the new id. The returned record is the stored one, readable by id, with status forced to `active`. |
| Registry.CreateKeepsIdsUnique | src/services/firebaseService.js:120 | Creating with a fresh id keeps ids unique. |
| Registry.Merge | src/services/firebaseService.js:139-142 | An update merges the given fields over the record and stamps `updatedAt`. Fields not given are kept. |
| Registry.UpdateClient | src/services/firebaseService.js:137-153 | Updating a missing id fails with nothing changed. Otherwise the merged record is stored and returned. |
| Registry.DeleteClient | src/services/firebaseService.js:160-173 | A soft delete only sets status `deleted` and the update time, keeps every id, and returns true. |
| Registry.UpdateBotStatus | src/services/firebaseService.js:181-195 | A missing document fails with nothing changed. Otherwise only that document's fields change, and only `botStatus` and `updatedAt` among them; the merged record is read back. |
| Registry.DeletedClientHidden | src/services/firebaseService.js:160-173 | After deletion, the record is still found by id with status `deleted`, but it leaves the active listing. |
| Registry.DeletedClientNotByPhone | src/services/firebaseService.js:78-104 | After deletion, a phone lookup that finds a record finds some other document's record, never the deleted one. |
| Registry.CreatedClientListed | src/services/firebaseService.js:111-129 | A created client is active and listed. |
| Registry.CreatedClientFoundByPhone | src/services/firebaseService.js:78-129 | A created client is found by its assistant phone, given with or without an `@` suffix, when no other active client has that phone. |
| Registry.GetClientStats | src/services/firebaseService.js:201-216 | `total` is the number of active records and `inactive` the number of active records with an inactive bot. `active + inactive == total`, with `active` never negative. |
| Registry.StatsActiveCountsRunning | src/services/firebaseService.js:212-216 | `active` counts exactly the active records whose bot is not inactive. |
| Instances.Get | src/managers/ultramsgManager.js:104-106 | An instance is found exactly when its id is a key. |
| Instances.Put | src/managers/ultramsgManager.js:36 | `Map.set` adds or replaces the entry with that key and changes no other key's value; the first entry stays first. |
| Instances.PutPlaces | src/managers/ultramsgManager.js:36 | `Map.set` keeps insertion order: a new key is appended after all others, and an existing key keeps its place, with every other entry where it was. |
| Instances.PutKeepsKeysUnique | src/managers/ultramsgManager.js:36 | Keys stay unique. |
| Instances.PutAll | src/managers/ultramsgManager.js:26-39 | The keys are the old keys plus the new instances' ids. The first key is kept, and a table built from empty starts with the first instance's key. |
| Instances.PutAllLastWins | src/managers/ultramsgManager.js:26-39 | For a repeated instance id, the last instance wins. |
| Instances.NewManager | src/managers/ultramsgManager.js:6-11 | A new manager has no instances, no default, and is not initialised. |
| Instances.RegistryInstances | src/managers/ultramsgManager.js:26-39 | Every instance comes from a client that has both an UltraMsg token and an instance id, and every such client's instance is there. |
| Instances.RegistryInstancesCount | src/managers/ultramsgManager.js:26-39 | There are exactly as many instances as eligible clients. |
| Instances.RegistryInstanceAt | src/managers/ultramsgManager.js:26-39 | The eligible client at position i gives the instance at the position that counts the eligible clients before it, so the instances follow the clients' order, one per eligible client. |
| Instances.RegistryKeys | src/managers/ultramsgManager.js:26-39 | The registry's keys are exactly the eligible clients' instance ids. |
| Instances.RegistryEmpty | src/managers/ultramsgManager.js:26-45 | The registry yields no instance exactly when no client is eligible. |
| Instances.IndexedKeyInjective | src/managers/ultramsgManager.js:80-82 | Different indices give different `ULTRAMSG_INSTANCE_<i>_…` names. |
| Instances.EnvScanAt | src/managers/ultramsgManager.js:78-96 | The k-th instance the scan sets is the one index i+k describes (so that index is configured). |
| Instances.EnvInstancesAt | src/managers/ultramsgManager.js:78-96 | The k-th env instance is the one with index k+1. |
| Instances.EnvInstancesStop | src/managers/ultramsgManager.js:78-96 | The scan stops at the first index missing its token or id. |
| Instances.InitializeFromEnv | src/managers/ultramsgManager.js:63-101 | The env default replaces the default instance. The keys become the old keys plus the default's id and every indexed instance's id. |
| Instances.InitializeInstances | src/managers/ultramsgManager.js:14-60 | It is a no-op once initialised. A registry error falls back to the env and stays uninitialised. A registry success initialises and makes the first instance the default. |
| Instances.InitializeIdempotent | src/managers/ultramsgManager.js:15-17 | After a successful registry read, initialising again changes nothing. |
| Instances.RegistryInstancesOnly | src/managers/ultramsgManager.js:26-50 | With eligible clients, the instances are exactly theirs, the environment is not read, and the default is the table's first entry. |
| Instances.DefaultIsFirstEligible | src/managers/ultramsgManager.js:26-50 | For a fresh manager, the default instance has the instance id of the first eligible client. |
| Instances.EmptyRegistryUsesEnv | src/managers/ultramsgManager.js:42-45 | With no eligible client, the env instances are used. |
| Instances.Resolve | src/managers/ultramsgManager.js:121-125 | A named instance must be a key. An unnamed one is the default. A missing one fails with "No se encontró la instancia" naming the id or `default`. |
| Instances.Dispatch | src/managers/ultramsgManager.js:119-235 | A missing instance makes no request. Otherwise exactly one request is made for the resolved instance, and its answer is tagged with that instance's name and id. |
| Instances.SendMessage | src/managers/ultramsgManager.js:119-153 | An unresolved instance fails with the guard's message before any request. Otherwise one chat request goes through the resolved instance's id and token, and its answer comes back tagged with that instance, or its error comes back unchanged. |
| Instances.MissingInstanceSendsNothing | src/managers/ultramsgManager.js:121-125 | An unknown instance id fails before any request. |
| Instances.ConnectedOnlyWhenResolved | src/managers/ultramsgManager.js:204-211 | An instance id the manager does not hold, an unnamed request with no instance at all, and a status request that always throws all read as not connected. |
| Calendar.WindowStart | src/calendar.js:27-33 | The window starts at the later of the requested instant and the start of today. |
| Calendar.InitialGridShape | src/calendar.js:52-66 | The grid has every Monday-to-Friday date from the first date through 30 days later, each with 24 slots of capacity 2. |
| Calendar.OpenDaysRange | src/calendar.js:52-66 | Only open dates of the range get a grid row. |
| Calendar.OpenDaysAscending | src/calendar.js:52-66 | The grid's dates ascend. |
| Calendar.OpenDaysCover | src/calendar.js:52-66 | Every open date of the range has a row. |
| Calendar.SlotKeyInjective | src/calendar.js:57-61 | Different slot minutes print different `HH:mm` keys. |
| Calendar.SweepCounts | src/calendar.js:76-88 | An event walk takes one place per half-hour step that lands on the slot's key, and never goes below 0. |
| Calendar.EventTakesPlaces | src/calendar.js:69-90 | An event changes only the row of the date it starts on, by the walk's hits. |
| Calendar.MisalignedEventTakesNothing | src/calendar.js:79-86 | An event starting off the half-hour grid takes no place. |
| Calendar.ApplyEventsShrinks | src/calendar.js:69-90 | Events only lower capacities, so they stay in {0, 1, 2}, and keep the grid's dates. |
| Calendar.UntouchedDayKeepsPlaces | src/calendar.js:69-90 | A date on which no event starts keeps its places. |
| Calendar.FreeSlotsMembers | src/calendar.js:93-113 | The collected slots are exactly the grid positions with places left. |
| Calendar.FreeSlotsAscending | src/calendar.js:93-116 | The collected slots ascend by date and time. |
| Calendar.OfferEarliest | src/calendar.js:116-119 | The offer is at most 3 free slots, ascending. Every free slot left out is later than every offered one. |
| Calendar.TakeEarliest | src/calendar.js:119 | A prefix of an ascending list holds its earliest elements. |
| Calendar.CheckAvailability | src/calendar.js:21-142 | A failed listing is an error. Otherwise at most 3 slots are offered. `disponible` holds exactly when some slot is offered, with the matching message. |
| Calendar.OfferedSlots | src/calendar.js:93-137 | The offered slots are free workday slots of the window between 08:00 and 19:30, with 1 or 2 places, ascending, and the earliest free ones. |
| Calendar.ScheduleValid | src/calendar.js:52-90 | The grid after the events is well formed and within the window. |
| Calendar.EmptyCalendarOffersMorning | src/calendar.js:93-137 | With no events and a workday first date, the offer is that date's 08:00, 08:30 and 09:00, with 2 places each. |
| Calendar.FindOffered | src/calendar.js:189-192 | The search finds an offered slot on that date with that key, or none when there is none. |
| Calendar.BookAppointment | src/calendar.js:144-218 | At most one event is inserted. Success means an insertion that the calendar accepted. Failures carry the "no disponible" or the booking-error message. |
| Calendar.BookFrom | src/calendar.js:188-210 | The same guarantee once the offer is known. |
| Calendar.BookFromOffered | src/calendar.js:188-210 | With open offered slots, an insertion happens exactly when the date and key name one of them, and it takes that slot's half hour. |
| Calendar.BookingOnlyOffered | src/calendar.js:179-210 | An appointment is inserted exactly when the requested date and `HH:mm` are among the offered slots. It then lasts 30 minutes and is titled "Cita con" and the patient's name. |
| Calendar.PastDateNotBooked | src/calendar.js:27-33 | A date before today is never booked. |
| Calendar.ListingFailureNotBooked | src/calendar.js:138-141 | A failed availability query books nothing and answers "no disponible". |
| Calendar.Matching | src/calendar.js:247-249 | The targets are exactly the events whose summary contains the patient's name, ignoring case. |
| Calendar.FailedIds | src/calendar.js:281-282 | No deletion failed exactly when every targeted deletion succeeded. |
| Calendar.CancelAppointment | src/calendar.js:220-308 | A failed listing is the error message. A success reports only deleted events. |
| Calendar.CancelTargets | src/calendar.js:247-279 | Deletions are attempted exactly for the matching events. |
| Calendar.CancelSucceeds | src/calendar.js:281-299 | Cancelling succeeds exactly when some event matches and every deletion succeeds. |
| Calendar.NoMatchDeletesNothing | src/calendar.js:239-256 | With no matching event, nothing is deleted and the "no se encontró" error is returned. |
| Monolith.Trim | src/index.js:315-318 | The trimmed set keeps its newest at most 1000 ids, in order. |
| Monolith.TrimKeepsNewest | src/index.js:302-318 | The id just added survives trimming. |
| Monolith.Relay | src/index.js:321-371 | Confirmation handling followed by the assistant. The dedup set is not touched. |
| Monolith.NotAwaitedAsks | src/index.js:369-371 | When confirmation handling does not answer, the assistant is asked. A confirmation has been recorded; for anything else the context is unchanged. |
| Monolith.ConfirmationSkipsAssistant | src/index.js:321-366 | A confirmation from a waiting sender sends the canned reply with no assistant call. The reply is 200 exactly when the send succeeds, with the confirmation recorded. |
| Monolith.Ask | src/index.js:374-510 | The assistant part leaves the dedup set and the contexts unchanged. |
| Monolith.ActiveRunRefused | src/index.js:385-392 | When the sender has a thread with a run active on it, the answer is 429 with no call, nothing sent and no run status changed. |
| Monolith.RelayedToSendersThread | src/index.js:374-510 | On an idle thread keyed by the sender alone, the turn makes the engine's calls and changes, and its reply is sent back to the sender. The answer is 200 exactly when the reply is text and the send succeeds, and 500 otherwise. |
| Monolith.ThreadCreationFailureIsServerError | src/index.js:375-519 | When the sender has no thread and creating one throws, the answer is 500 and nothing else changes. |
| Monolith.ThrownPollThenTooManyRequests | src/index.js:416-519 | A retrieve or submission that throws answers 500 with nothing sent, and the sender's next message gets 429. |
| Monolith.FirstChange | src/index.js:273-275 | Only a business-account payload with entries is read. It throws exactly when the entry list is empty or the first entry's change list is empty. Otherwise it yields the first change, or none when the first entry has no change list. |
| Monolith.HandleCloud | src/index.js:265-531 | A throw answers 500 and an absent change answers 200. A message-carrying change is delivered, and its id is then recorded. |
| Monolith.Deliver | src/index.js:290-318 | Delivery records the message id. |
| Monolith.CloudStatusAcknowledged | src/index.js:279-288 | Status changes and changes without messages are acknowledged, with nothing changed. |
| Monolith.CloudDuplicateIgnored | src/index.js:296-299 | A seen id is acknowledged with nothing changed. |
| Monolith.CloudNonTextRecorded | src/index.js:302-308 | A non-text message is acknowledged, and its id is added without trimming. |
| Monolith.CloudTextRelayed | src/index.js:302-318 | A text message's id is added, the set is trimmed to at most 1000 keeping that id, and the text is relayed with the Graph sender of the receiving phone number. |
| Monolith.CloudRedeliveryIgnored | src/index.js:296-302 | A redelivered message is a duplicate. |
| Monolith.UnconfiguredSubscriptionRefused | src/index.js:103-117 | With no configured verify token, no subscription request gets 200: it gets no answer or 403. |
| Monolith.SenderOf | src/index-fixed.js:228 | A chat id without `@s.whatsapp.net` is its own sender. |
| Monolith.SenderOfChat | src/index-fixed.js:228 | The sender of `number@s.whatsapp.net` is `number`. |
| Monolith.HandleUltra | src/index-fixed.js:197-397 | A payload without key or message is acknowledged. Otherwise the key's id ends up recorded. |
| Monolith.UltraDuplicateIgnored | src/index-fixed.js:212-216 | A seen id is acknowledged with nothing changed. |
| Monolith.UltraNonTextRecorded | src/index-fixed.js:218-226 | A non-text type is acknowledged, and its id is added without trimming. |
| Monolith.UltraTextRelayed | src/index-fixed.js:218-239 | A text message's id is added and the set trimmed keeping it. The normalised sender and body are relayed. |
| Monolith.UltraMissingChatThrows | src/index-fixed.js:219-228 | A text message without a chat id is recorded and then answers 500. |
| Monolith.UltraRedeliveryIgnored | src/index-fixed.js:212-219 | A redelivered message is a duplicate. |
| Monolith.ServersAgree | src/index-fixed.js:206-239 | The same text message, delivered through either server, gives the same outcome. |
| Monolith.VerifyUltraToken | src/index-fixed.js:103-113 | 200 exactly when the token equals the configured one, else 403. |
| Monolith.UnconfiguredUltraTokenAcceptsMissing | src/index-fixed.js:103-113 | With no configured token, a request without a token is accepted and any token is refused. |
| Monolith.MarkAgendaSentEndpoint | src/index.js:128-147 | Without `userId` the answer is 400 and no context changes. With it, the user is waiting with a count of 0, and no one else changed. |
| Monolith.AgendaThenConfirmation | src/index-fixed.js:242-266 | After the agenda mark, a confirmation gets the canned reply with no assistant call. |
| Monolith.ResetThreadsEndpoint | src/index.js:121-125 | Only the thread map is cleared. Run statuses, the dedup set and the contexts are kept. |
| Monolith.ResetStartsNewThreads | src/index.js:121-125 | After a reset, the sender's next thread is the one the service creates, or the error of creating it. |

## Left out

- HTTP plumbing is not modelled. That covers Express routing, axios, the OpenAI SDK, the UltraMsg and Graph APIs, and the Firestore SDK. Each is a parameter: a sender, an assistant, a status sequence, a request oracle, or a document sequence.
- Firestore's initialisation is left commented out in `firebaseService.js`. The model gives the queries their intended meaning over a document sequence, not the runtime failure that commented-out code causes.
- Several files have no logic to prove and are not part of this model:
  - `facebookTokenManager.js` (file I/O, wall-clock dates, a concurrency flag);
  - `scheduler.js` and `schedulerController.js` (cron and placeholder data);
  - the legacy single-instance `ultramsgManager.js`;
  - the root scripts.
- Several endpoints are I/O wrappers and are not modelled: the monoliths' `/refresh-token`, `/token-status`, `/health`, `/test`, `/user-context` and `/clear-user-context` routes. Clearing is modelled by `UserContext.ClearUserContext`.
- `getAllBotsStatus`, `getClientConfig` and `getInfoMessage`'s text are not modelled: they only format data. `/info` is an action that changes nothing, and its text is opaque.
- `getAllContexts` and `extractGroupInfo` are not modelled: they only read or format data.
- `testConnection`, `getAllInstances` and `getAllInstancesStatus` are not modelled: they are I/O wrappers. The legacy `…Legacy` aliases are not modelled either. `getInstanceStatus`, `getInstanceInfo` and `getMessages` are `Instances.Dispatch` with their request.
- Time is not modelled: no sleeps between polls, and no Luxon time zones. Timestamps (`lastMessageTime`, `createdAt`, `updatedAt`) are opaque integers. Calendar dates are day indices and times are minutes.
- Concurrency is not modelled. Races between concurrent webhook requests on the dedup set and the run map are out of scope, and one request runs at a time.
- `Text.Lower` maps only ASCII and Latin-1 capitals, not full Unicode case mapping. Regex `\s` is the ECMAScript white-space set and `\w` is ASCII word characters.
- `JSON.parse` of tool-call arguments is not modelled. Every tool call gets the "no implementada" output whatever its arguments, so the parse matters only through its exceptions. Those are folded into the submission oracle: a parse that throws ends the poll like a submission that throws, and the batch is then logged as submitted although the source never sends it.
- `Engine.Converse` does not log thread creation or the run retrieves as calls. Only adding the message, the two message listings, creating the run and the tool-output submissions are recorded; the retrieves appear as the poll's `retrieves` count.
- The pause of two seconds between retrieves and the `last_error` logging are not modelled.
- All-day calendar events (no `dateTime`) take no place. The event description text of `crearEvento` is not modelled, since it is only stored.
- The calendar's `maxResults: 100` cap and `q:` search are not modelled: the listing oracle is taken to return the events it returns.
- Instances.EnvScan: the `while (true)` loop of `initializeFromEnv` takes a fuel bound of one more than the number of environment entries. `Instances.EnvInstancesStop` proves the bound never stops the loop early, because every configured index needs its own token key. So the bound leaves no case out.
- Message ids are strings in `Webhook.Message`, `Monolith.CloudMessage` and `Monolith.UltraKey`. A delivery without an `id` is not modelled: the source would record `undefined` in the dedup set, process the first such message and treat later ones as duplicates.
- `Monolith.CloudMessage.body` is `None` both when the message has no `text` object and when `text` has no `body`. The model throws before trimming the dedup set in both cases. In the source, a `text` without `body` first trims the set and stores a fresh context for the sender (`getUserContext`), then throws inside `isConfirmationMessage(undefined)`; both end in a 500.
- The order in which `Object.entries` lists the command table, and Firestore's result order, are taken to be the order of declaration and of storage.

## Findings

| source | as written | input that shows it | evidently intended | confidence | as-written member | corrected member |
|---|---|---|---|---|---|---|
| src/services/commandManager.js:187 | The client check `!this.clientConfig[clientCode]` reads a plain object, so names inherited from `Object.prototype` count as clients. | `#constructor /help` from any number | Answer "Cliente no encontrado: constructor" | not executed | Commands.InheritedNameFoundAsClient | Commands.ProcessMessage |
