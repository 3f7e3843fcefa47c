# Chat controller model

A Dafny model of `ChatController`, the Twitch SDK's chat session controller. It sits between
the native chat library, which pushes callbacks, and a host application that polls `update()`.
The model covers four parts:

- **Session state machine**: `ChatState` (Uninitialized, Initialized, Connecting, Connected,
  Disconnected), `connect`, `connectAnonymous`, `disconnect`, `initialize`, `shutdown`,
  `update`, `sendChatMessage` and `clearMessages`, plus the status and membership callbacks.
- **Message histories**: the raw and tokenized buffers. Each appends a batch at the tail,
  then drops entries from the head until it is no longer than the history size.
- **Roster reconciliation**: applying a join / leave / update delta to the channel user list.
- **Emoticon-data lifecycle**: `downloadEmoticonData`, `setupEmoticonData` and
  `cleanupEmoticonData`.

The model is functional. `ChatController.Controller` is an immutable record of the
controller's fields. Every public call except the setters, and every callback, is a function
that takes the record and returns a `Step`. The setters return the updated record, and
`ControllerProperties.Apply` wraps them in a `Step` with empty logs (`Quiet`). A `Step` holds the new record, the call's boolean result, and three logs
in order:

- the notifications delivered to the listener;
- the commands issued to the native library;
- the error reports printed.

The success or failure of each native call is an input. Composite calls take a `Replies`
record with one outcome per native call. During `update()`, the native flush delivers
callbacks; the model takes them as a `seq<Callback>` and applies them in arrival order.

Files:

- `chat_types.dfy` (`ChatTypes`): enums, payload records, events, commands, reports, callbacks.
- `history.dfy` (`History`): the bounded history and its laws.
- `roster.dfy` (`Roster`): roster reconciliation and its laws.
- `controller.dfy` (`ChatController`): the state machine, the callbacks and the emoticon helpers.
- `properties.dfy` (`ControllerProperties`): the state invariant over every run of host calls,
  plus properties that relate several calls.

## Behaviour of the source worth knowing

- The download guard reads the requested emoticon mode. The mode captured at initialization
  plays no part in it (`DownloadFollowsRequestedMode`).
- The emoticon data object is created before the fetch. It stays present even when the fetch
  fails. The next shutdown then announces that the data expired, although no one was ever told
  it was available (`FailedFetchStillExpires`).
- A failed native disconnect returns false at once. There is no Disconnected notification and
  no shutdown. `connect` ignores that result, but it has already overwritten the anonymous flag
  and the channel (`ConnectAfterFailedDisconnect`).
- A failed shutdown step leaves the controller unchanged. Its state stays what it was.
- A failed second initialization phase does not undo the first. The active emoticon mode has
  already been captured by then.
- Shutdown does not clear the roster or either history.
- Changing the history size does not trim. A history can exceed the size until its next
  batch arrives (`ShrinkingDefersTrim`).
- Membership callbacks set the state without looking at the current state.
- Joins are appended without a duplicate check, so the roster can hold one display name twice.
  A later leave or update then takes the first of those entries (`Roster.DuplicateFirstMatch`).
- Callbacks run inside the native flush. Whatever they report comes before a flush failure
  report (`ControllerProperties.UpdateErrorOrder`).

## Model

| member | source | states |
|---|---|---|
| History.Trim | java/src/tv/twitch/chat/ChatController.java:232-236 | the head-removal loop leaves exactly the newest min(size, length) entries, as a suffix of the buffer |
| History.Receive | java/src/tv/twitch/chat/ChatController.java:213-237 | after a batch, the history is no longer than the size, has length min(size, old + batch), and is a suffix of old history followed by the batch |
| History.ReceiveWithinCap | java/src/tv/twitch/chat/ChatController.java:213-237 | while old history plus batch fit under the size, nothing is evicted |
| History.ReceiveEvictsFromHead | java/src/tv/twitch/chat/ChatController.java:213-237 | a batch no longer than the size is kept whole at the tail, and only the oldest entries of the old history are dropped |
| History.ReceiveIsNewest | java/src/tv/twitch/chat/ChatController.java:213-237 | the history after a batch equals the closed form "newest size entries of old + batch" |
| History.ReceiveBatching | java/src/tv/twitch/chat/ChatController.java:213-237 | receiving a then b leaves the same history as receiving a + b in one batch |
| History.CapThreeExample | java/src/tv/twitch/chat/ChatController.java:213-237 | with size 3, A B C D in one batch or in two batches leaves B C D |
| History.TrimAsWritten | java/src/tv/twitch/chat/ChatController.java:232-236 | the loop over the signed size agrees with Trim for a size of zero or more and throws for any negative size |
| History.NegativeCapThrows | java/src/tv/twitch/chat/ChatController.java:400-403 | a negative history size makes the next batch, even an empty one, remove from an empty list |
| Roster.IndexOf | java/src/tv/twitch/chat/ChatController.java:171 | -1 exactly when no entry has the user's identity; otherwise the index of the first entry that has it |
| Roster.RemoveUser | java/src/tv/twitch/chat/ChatController.java:171-175 | with the name absent nothing changes; otherwise exactly the entry at the first index carrying the name goes, and the others stay in order; no other name disappears |
| Roster.ApplyLeaves | java/src/tv/twitch/chat/ChatController.java:169-176 | at most one entry goes per leave entry; only names in the leave list can disappear |
| Roster.ApplyUpdates | java/src/tv/twitch/chat/ChatController.java:178-188 | each update adds at most one entry; the names present afterwards are the old names plus the updated ones |
| Roster.ApplyDelta | java/src/tv/twitch/chat/ChatController.java:169-193 | on any roster, duplicates included, the join list ends the new roster; names present are the old ones less at most the leaves, plus updates and joins |
| Roster.DuplicateFirstMatch | java/src/tv/twitch/chat/ChatController.java:169-188 | on the roster [a1, a2], whose two entries share the name "a", a leave or update of "a" takes a1 and keeps a2, so the duplicate-free closed form fails there |
| Roster.RemoveUserUnmentioned | java/src/tv/twitch/chat/ChatController.java:171-175 | removing a matched user leaves every entry of another identity in place and in order |
| Roster.RemoveUserUnique | java/src/tv/twitch/chat/ChatController.java:171-175 | on a duplicate-free roster, removing a user removes exactly that identity |
| Roster.LeavesClosedForm | java/src/tv/twitch/chat/ChatController.java:169-176 | on a duplicate-free roster, the leave step removes every leave identity and keeps the rest in order |
| Roster.UpdatesClosedForm | java/src/tv/twitch/chat/ChatController.java:178-188 | on a duplicate-free roster and update list, the update step removes each updated identity and appends the update list at the tail, in order |
| Roster.DeltaKeepsUnmentioned | java/src/tv/twitch/chat/ChatController.java:167-193 | every user the delta does not mention survives it, in the same relative order, duplicates or not |
| Roster.DeltaClosedForm | java/src/tv/twitch/chat/ChatController.java:167-193 | when the old roster and the update list each hold every display name at most once: new roster = old roster minus leave and update identities, then the update list, then the join list |
| Roster.UpdatesKeepUnique | java/src/tv/twitch/chat/ChatController.java:178-188 | the update step keeps a duplicate-free roster duplicate-free, for any update list, repeated names included |
| Roster.DeltaUniqueIff | java/src/tv/twitch/chat/ChatController.java:190-193 | on a duplicate-free roster, and for any update list (repeated names included), the roster stays duplicate-free iff the joins are distinct and none is already present after leaves and updates; joins are never checked |
| ChatController.DownloadEmoticonData | java/src/tv/twitch/chat/ChatController.java:747-765 | a download is requested iff the requested mode is not None, no data is held and the controller is initialized; the texture-atlas flag follows the requested mode; only a failed request is reported |
| ChatController.SetupEmoticonData | java/src/tv/twitch/chat/ChatController.java:767-795 | a no-op when data is held; otherwise it fetches once and marks data present whatever the outcome, and announces availability only on success |
| ChatController.CleanupEmoticonData | java/src/tv/twitch/chat/ChatController.java:797-817 | data is absent afterwards; expiry is announced iff data was present |
| ChatController.OnStatus | java/src/tv/twitch/chat/ChatController.java:135-143 | a failed status moves to Disconnected; a successful one changes nothing |
| ChatController.OnMembership | java/src/tv/twitch/chat/ChatController.java:145-165 | joined sets Connected and announces Connected; left sets Disconnected silently |
| ChatController.OnUserChange | java/src/tv/twitch/chat/ChatController.java:167-206 | only the roster changes, and it becomes the leave, update, join delta of `Roster.ApplyDelta` (first match per leave and update); unmentioned users keep their order; the closed form holds on duplicate-free input; one UsersChanged carries the original three lists |
| ChatController.OnMessages | java/src/tv/twitch/chat/ChatController.java:213-237 | only the raw history changes: it becomes the newest entries of old + batch, within the size; the batch is forwarded |
| ChatController.OnTokenizedMessages | java/src/tv/twitch/chat/ChatController.java:239-263 | the same law for the tokenized history; the raw history is untouched |
| ChatController.OnEmoticonDownload | java/src/tv/twitch/chat/ChatController.java:270-277 | a successful download leads to emoticon setup; a failed one does nothing |
| ChatController.ClearMessages | java/src/tv/twitch/chat/ChatController.java:694-709 | the raw history is emptied, the tokenized history is untouched, MessagesCleared is announced |
| ChatController.Dispatch | java/src/tv/twitch/chat/ChatController.java:135-277 | a callback touches only state, roster, histories and the emoticon flag; it never returns to Uninitialized, never drops emoticon data, issues at most one fetch, and keeps histories within the size |
| ChatController.Flush | java/src/tv/twitch/chat/ChatController.java:609-614 | the same frame over a whole flush; all callbacks together fetch emoticon data at most once |
| ChatController.Shutdown | java/src/tv/twitch/chat/ChatController.java:566-597 | succeeds iff not initialized or both teardowns succeed, and then ends Uninitialized with data dropped (expiry announced iff it was held); core teardown happens only after chat teardown succeeds; a failure changes nothing |
| ChatController.Initialize | java/src/tv/twitch/chat/ChatController.java:527-564 | fails without effect when already initialized; succeeds iff both phases do, ending Initialized with the requested mode active; a failure announces Disconnected, and phase one is never undone |
| ChatController.Disconnect | java/src/tv/twitch/chat/ChatController.java:503-525 | native disconnect happens iff Connected or Connecting, and its failure aborts with nothing changed; otherwise Disconnected is announced from Connected, Connecting or Disconnected, followed by shutdown |
| ChatController.ConnectAs | java/src/tv/twitch/chat/ChatController.java:474-497 | succeeds iff the controller is uninitialized after the disconnect and both phases succeed; then it is Initialized with the requested mode active and the histories and roster intact; never connects |
| ChatController.Connect | java/src/tv/twitch/chat/ChatController.java:474-482 | on success the controller is Initialized and not anonymous |
| ChatController.ConnectAnonymous | java/src/tv/twitch/chat/ChatController.java:489-497 | on success the controller is Initialized and anonymous |
| ChatController.ConnectToChannel | java/src/tv/twitch/chat/ChatController.java:622-650 | exactly one connect command, anonymous iff the flag is set; on success the controller is Connecting and tries a download; on failure it shuts down and then announces Disconnected |
| ChatController.Tick | java/src/tv/twitch/chat/ChatController.java:616-664 | only Initialized (connect to the channel) and Disconnected (disconnect) act; Uninitialized, Connecting and Connected do nothing; the roster and histories are untouched |
| ChatController.Update | java/src/tv/twitch/chat/ChatController.java:602-665 | a no-op when not initialized; otherwise it flushes first; if the delivered callbacks leave it Connecting or Connected the switch changes nothing, and with nothing delivered from those states the update changes nothing |
| ChatController.TickConnects | java/src/tv/twitch/chat/ChatController.java:616-664 | the state switch issues one connect command from Initialized and none from any other state |
| ChatController.TickFromDisconnected | java/src/tv/twitch/chat/ChatController.java:659-662 | from Disconnected no transport disconnect is issued, and the switch ends Uninitialized exactly when both teardown steps succeed |
| ControllerProperties.UpdateConnectsAfterFlush | java/src/tv/twitch/chat/ChatController.java:602-664 | whatever callbacks the flush delivers, one connect command exactly when they leave the controller Initialized, none otherwise |
| ControllerProperties.UpdateFromDisconnected | java/src/tv/twitch/chat/ChatController.java:602-664 | when the callbacks leave it Disconnected, the update issues no transport disconnect and ends Uninitialized exactly when both teardown steps succeed |
| ControllerProperties.UpdateErrorOrder | java/src/tv/twitch/chat/ChatController.java:609-615 | the reports of the delivered callbacks come first, and a failed flush is reported right after them |
| ControllerProperties.FailedFetchReportedFirst | java/src/tv/twitch/chat/ChatController.java:609-615 | a fetch that fails during a failed flush gives "preparing emoticon data" and then "flushing chat events", in that order |
| ChatController.SendChatMessage | java/src/tv/twitch/chat/ChatController.java:672-689 | the controller never changes; no command unless Connected; the result is true iff Connected and the send succeeded; exactly one report on a failed send |
| ControllerProperties.FlushPreservesInv | java/src/tv/twitch/chat/ChatController.java:609-614 | dispatching delivered callbacks keeps "initialized iff not Uninitialized, and emoticon data only while initialized" |
| ControllerProperties.TickPreservesInv | java/src/tv/twitch/chat/ChatController.java:616-664 | the state switch of an update keeps that invariant |
| ControllerProperties.UpdatePreservesInv | java/src/tv/twitch/chat/ChatController.java:602-665 | an update keeps "initialized iff not Uninitialized, and emoticon data only while initialized" |
| ControllerProperties.ConnectPreservesInv | java/src/tv/twitch/chat/ChatController.java:474-497 | connect and connect-anonymous keep that invariant |
| ControllerProperties.ApplyPreservesInv | java/src/tv/twitch/chat/ChatController.java:474-709 | every host call keeps that invariant |
| ControllerProperties.RunPreservesInv | java/src/tv/twitch/chat/ChatController.java:474-709 | every run of host calls keeps it |
| ControllerProperties.ReachableInv | java/src/tv/twitch/chat/ChatController.java:116-128 | every controller reachable from a fresh one satisfies it |
| ControllerProperties.DisconnectAllOrNothing | java/src/tv/twitch/chat/ChatController.java:503-525 | on a consistent controller, disconnect returns true iff it ends Uninitialized, and false only with nothing changed |
| ControllerProperties.DisconnectNoticeCount | java/src/tv/twitch/chat/ChatController.java:503-525 | Disconnected is announced once from Disconnected, once from Connected or Connecting after a successful native disconnect, and never otherwise |
| ControllerProperties.ConnectResult | java/src/tv/twitch/chat/ChatController.java:474-497 | connect succeeds iff the preceding disconnect did and both initialization phases do |
| ControllerProperties.ConnectAfterFailedDisconnect | java/src/tv/twitch/chat/ChatController.java:474-482 | after a failed native disconnect, connect fails and keeps its Connected or Connecting state, but the anonymous flag and channel are already overwritten |
| ControllerProperties.UpdateConnectsOnce | java/src/tv/twitch/chat/ChatController.java:616-658 | from Initialized, when the connect command is accepted and no callbacks are delivered, one update issues one connect command and moves to Connecting; a second update with no callbacks delivered issues none and changes nothing |
| ControllerProperties.UpdateConnectFailure | java/src/tv/twitch/chat/ChatController.java:634-642 | when both teardown steps succeed, a rejected connect command shuts down to Uninitialized, then announces Disconnected after any expiry |
| ControllerProperties.FailedFetchStillExpires | java/src/tv/twitch/chat/ChatController.java:767-817 | after a failed fetch, no download or fetch is retried, and the next shutdown announces expiry of data never announced as available |
| ControllerProperties.DownloadFollowsRequestedMode | java/src/tv/twitch/chat/ChatController.java:747-765 | a mode requested after initialization leaves the active mode alone, yet decides whether the connecting update downloads and whether it asks for an atlas |
| ControllerProperties.UpdatePreservesBounded | java/src/tv/twitch/chat/ChatController.java:213-263 | an update keeps both histories within the history size |
| ControllerProperties.ApplyPreservesBounded | java/src/tv/twitch/chat/ChatController.java:213-263 | every host call except changing the history size keeps both histories within the size |
| ControllerProperties.ShrinkingDefersTrim | java/src/tv/twitch/chat/ChatController.java:400-403 | lowering the size below the raw history's length leaves it over the size until the next batch trims it to the size |

## Findings

| source | as written | input that shows it | evidently intended | confidence | as-written member | corrected member |
|---|---|---|---|---|---|---|
| java/src/tv/twitch/chat/ChatController.java:400-403 | `setMessageHistorySize` stores any `int`. The trimming loops (lines 233-236 and 259-262) call `removeFirst` while the size exceeds it. | history size -1, then any message batch, even an empty one: the loop empties the list and then calls `removeFirst` on it, which throws | the history size is a maximum count, so it is never negative and trimming stops at an empty list | medium, not executed | History.TrimAsWritten, History.NegativeCapThrows | History.Receive |

The rest of the model stores the history size as a `nat`. Every history is trimmed with
`History.Receive`, which is proved to keep it within the size.

## Left out

- Native calls into `Core` and `Chat` are not modelled as code. Each becomes a boolean outcome
  input plus a `Cmd` entry in the command log. `ErrorCode` values and their strings become the
  `Report` kinds.
- `reportError` and `reportWarning` print to standard output. They become entries in the error
  log. `checkError` and `reportWarning` are never called by the core, so they have no model.
- Listener faults are left out. The source catches every exception a listener throws, reports
  it, and carries on, so a fault can only add an error line. The model delivers every
  notification.
- The constructor's singleton lookup is left out, as is the `ChatEmoticonData` content. Emoticon
  data is a presence flag.
- `AuthToken` is reduced to its `data` string. The client secret is stored by the source but
  never used by the core, so it is not modelled.
- Getters, the iterators over the histories and `getEmoticonData` are plain field reads.
- Setters are plain record updates without contracts. Only the mode setter and the size setter
  appear in properties.
- `ChatUserInfo.equals` is not part of this model. Users match by display name (`Key`),
  following the comment at line 180 of `ChatController.java`.
- `ChatEvent` has only its two membership values in `ChatTypes.ChatEvent`, the ones the switch
  handles. The source's `default` branch does nothing.
- `chatQueryChannelUsersCallback` is empty in the source and is a no-op here.
- `trunk/twitchcore/include/twitchcore/types/coretypes.h` holds only platform macros and
  typedefs.
- The native library decides which callbacks a flush delivers, and whether a failed flush
  delivers any. That is not visible in the source. The model takes the delivered callbacks as an
  input and reports a failed flush.
- SetMessageHistorySize: takes a `nat`, not the source's signed `int`. A negative size makes
  the next batch throw. That behaviour is kept only in `History.TrimAsWritten` (see Findings).
