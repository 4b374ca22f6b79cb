# Triton, verified

A Dafny model of the stateful, arithmetic and concurrent core of Triton, a gateway between agents and
chat channels, with proofs about it. `dafny verify dfyconfig.toml` checks the project.

| file | part of the gateway |
|---|---|
| `Calendar.dfy`, `Rfc3339.dfy` | timestamps of the A2A 1.0 endpoint: civil dates by era formulas, printing, parsing |
| `Broadcast.dfy`, `MessageStream.dfy` | the live event stream of a turn over a ring that drops old events |
| `TaskSystem.dfy` | one task: record, hub entry, runners across restarts, an owner's stream |
| `TaskStore.dfy` | the in-memory task store and its eviction |
| `Gateway.dfy` | the Discord Gateway worker: handshake, heartbeat, close codes, backoff |
| `KeyCache.dfy` | the signing-key cache of the Google Chat verifier, for any number of lookups |
| `TokenMinter.dfy` | the access-token cache of the two Google Chat minters, for any number of callers |
| `RateLimit.dfy` | token buckets and the bounded per-tenant map |
| `Base64.dfy`, `FileIntake.dfy` | base64 (RFC 4648 sections 4 and 5); a turn's files and the links to them |
| `ListTasks.dfy` | page tokens, paging, the two list backends |
| `TextCap.dfy`, `Escape.dfy` | UTF-8 text under byte caps; Discord Markdown escaping |
| `DiscordRender.dfy`, `GeminiAnswer.dfy`, `EmailBody.dfy` | surfaces rendered under channel budgets |
| `Modal.dfy` | Discord modals: opening a form, taking its submission |
| `TableCard.dfy` | Markdown answers with tables, split into lead and card sections |
| `Text.dfy` | the string operations the others need |

Protocols are step relations and the theorems are about every run: any number of steps, any interleaving,
any ring capacity. Code that changes an object or loops is a class or a method, proved against functions
whose own properties are lemmas. Where the source's own comments promise more than the code does, the
model follows the code, a lemma gives a case, and another says exactly when the promise holds:

- A timestamp before year 0 is printed with a signed year, which does not parse (`Rfc3339.RoundTrip`).
- A stream ends without an outcome exactly if the store has none at the read that ends it; then its runner
  died before recording one (`TaskSystem.LastReadShowsStore`, `TaskSystem.NoLostCompletion`). The death alone
  does not decide it (`TaskSystem.PanicEndsStreamSilently`, `TaskSystem.ClaimantEndsStream`).
- The in-memory task store keeps to its capacity exactly until a new task meets a full order of running ones:
  it is stored without a place in the order, and is then never evicted (`TaskStore.BoundHolds`,
  `TaskStore.RunningTasksPileUp`, `TaskStore.UnorderedStays`). So no write drops another running task, though
  the source allows for it (`TaskStore.RunningSurvives`).
- A heartbeat the server asks for raises the same flag as one the timer sent, so a connection whose peer
  answered every heartbeat of the timer is cut by a tick that comes before the answer to the requested one
  (`Gateway.WhatCutsAConnection`, `Gateway.RequestThenTickCuts`, `Gateway.RequestedHeartbeatCuts`). A worker
  without a session can hold a sequence number (`Gateway.SeqWithoutSession`).
- A token bucket alone can admit more than its burst and rate allow, if callers read the clock before they
  take the lock; under the lock of the per-tenant map it cannot (`RateLimit.OutOfOrderEarnsTwice`,
  `RateLimit.SharedBucketBound`, `RateLimit.AdmissionBound`).
- A cached access token has more than the promised minute left exactly if it was issued for longer than a
  minute; a shorter-lived one can be served for up to a second, even expired (`TokenMinter.CachedTokenHasLead`,
  `TokenMinter.ExpiredTokenIsServed`).
- A context file that carries no data keeps a link the client sent, to whatever entry that names
  (`FileIntake.OwnLinkCondition`, `FileIntake.StrayLink`). In a context over its byte budget a link past the
  eleventh file is lost (`FileIntake.LinkGetsThrough`).
- The SQLite list limits rows before it picks the ones asked for (`ListTasks.BackendsAgree`,
  `ListTasks.BackendsDiffer`).
- A Discord menu can ship without its prompt, when the text is cut before it, and a prompt without its menu,
  when five menus came before (`DiscordRender.PromptsAndMenus`, `DiscordRender.MenuWithoutPrompt`,
  `DiscordRender.PromptWithoutMenu`).
- A capped reply ends in a stray backslash exactly if the cut falls inside an escape (`Escape.ReplyDangles`,
  `Escape.StrayBackslash`). So does a message whose first chunk is cut, and a narration or a diff cut there
  stays open (`DiscordRender.CutTextDangles`, `DiscordRender.CutChunkStaysOpen`).
- Escaping leaves mentions, emoji and timestamps in effect (`Escape.EscapedShowsOriginal`): `@everyone` is in
  the reply sent exactly if it is in the tool's text and the cap keeps it (`Escape.MentionsInReply`,
  `Escape.EveryoneIsSent`, `Escape.LateEveryoneIsCut`).
- The email ceiling does not count the newlines between blocks and before the note
  (`EmailBody.BodyWithinCeiling`, `EmailBody.TwoBlocksOver`, `EmailBody.OneBlockOver`).

Times are abstract: a day or millisecond number, a clock with tick steps, or a real. Network input, token
codecs, upstream answers and JSON shapes enter as parameters, steps or small datatypes.

## Model

| member | source | states |
|---|---|---|
| Calendar.ClosedFormIsCalendar | crates/triton-adapters-http/src/a2a_v1.rs:302-317 | for every integer day number, the era-formula date is the one reached from 1970-01-01 by stepping a leap-year calendar day by day, forwards or backwards |
| Calendar.TwoSidedInverse | crates/triton-adapters-http/src/a2a_v1.rs:370-376 | day number and date formulas are inverse bijections, and a date is a fixed point of the round trip exactly if it is a valid one |
| Calendar.DaysInOrder | crates/triton-adapters-http/src/a2a_v1.rs:370-376 | day numbers order valid dates as the calendar does |
| Rfc3339.RoundTrip | crates/triton-adapters-http/src/a2a_v1.rs:302-378 | every i64 millisecond value from year 0 on parses back from its printed form, longer years included and without leaving i64; every earlier one prints a text that does not parse |
| Rfc3339.ParseKeepsOrder | crates/triton-adapters-http/src/a2a_v1.rs:325-378 | any two UTC timestamps, with a fraction or without, of valid dates with seconds up to 59 and numerals of any length, that parse without overflow parse to values ordered as the timestamps |
| Rfc3339.ParseMeansCalendar | crates/triton-adapters-http/src/a2a_v1.rs:340-377 | any numerals in range, with a fraction or without, mean the first of the month in the stepped calendar, plus the days, also past the month's end, plus the clock time, or an overflow exactly if that leaves i64 |
| Rfc3339.FractionIsThousandths | crates/triton-adapters-http/src/a2a_v1.rs:340-377 | a fraction counts its first three digits, missing ones as zeros |
| Rfc3339.OffsetShifts | crates/triton-adapters-http/src/a2a_v1.rs:340-377 | for any local text, an offset moves the result of the same text with `Z` by exactly that offset, errors included |
| Rfc3339.FractionAdds | crates/triton-adapters-http/src/a2a_v1.rs:340-377 | a fraction moves the result of the same text without one by its milliseconds |
| Broadcast.Receive | crates/triton-adapters-http/src/a2a_spec.rs:1692-1760 | a receiver always gets nearer to the end, and is told closed or left waiting only after every retained event |
| MessageStream.ClientGetsAnswer | crates/triton-adapters-http/src/a2a_spec.rs:1628-1827 | once the answer is sent, for every capacity and interleaving, a stream that ends uncut leaves its client with all tokens in order and the sources line if a token was sent and nothing dropped, and with the whole reply otherwise |
| MessageStream.WhatIsDelivered | crates/triton-adapters-http/src/a2a_spec.rs:1628-1827 | a stream that ended has delivered a terminal event exactly if one was sent and the deadline did not cut it, and it is the last event sent |
| MessageStream.StreamGrammar | crates/triton-adapters-http/src/a2a_spec.rs:1633-1853 | every stream is one task frame, then frames that do not end it, then at most one that does, and nothing after it |
| MessageStream.DoneOrder | crates/triton-adapters-http/src/a2a_spec.rs:1633-1827 | once the answer is sent, exactly one frame of a stream that ends uncut closes the prose artifact, no A2UI artifact comes before it, and after it come the A2UI artifact, if any, and the completed status |
| MessageStream.OpenUntilDone | crates/triton-adapters-http/src/a2a_spec.rs:1633-1827 | a stream that failed or has read no terminal event has closed no prose artifact and sent no A2UI artifact |
| MessageStream.ReadsReachTheEnd | crates/triton-adapters-http/src/a2a_spec.rs:1692-1760 | from every reachable state with the terminal event sent, a bounded number of reads ends the stream with it |
| TaskSystem.OneDriver | crates/triton-tasks/src/lib.rs:587-654 | in every run, across restarts, takeovers and panics, at most one runner drives the task, and it is the one in the hub |
| TaskSystem.OneDispatch | crates/triton-tasks/src/lib.rs:876-1147 | the turn is dispatched at most once; every other request resumes an upstream task the upstream named |
| TaskSystem.FinishedIsFinal | crates/triton-tasks/src/lib.rs:381-391 | a finished record never changes again |
| TaskSystem.StoredBeforeSent | crates/triton-tasks/src/lib.rs:927-1147 | a terminal event in a channel is its last and its outcome is already stored |
| TaskSystem.NoLostCompletion | crates/triton-adapters-http/src/a2a_v1.rs:1052-1113 | a stream that ended uncut showed the stored outcome once, in its first frame or its last ones, lagged or not, unless its runner died before recording; a refused subscription names a finished task |
| TaskSystem.StreamFrames | crates/triton-adapters-http/src/a2a_v1.rs:970-1113 | in every run a stream is the running task, then frames of a working task, and at its end nothing more, the artifact and then the completed status, or the failure |
| TaskSystem.LastReadShowsStore | crates/triton-adapters-http/src/a2a_v1.rs:970-1113 | the read that ends a stream shows an outcome exactly if the store has one |
| TaskSystem.PanicEndsStreamSilently | crates/triton-tasks/src/lib.rs:643-654 | a run from the start in which the runner dies early and its stream ends with no outcome |
| TaskSystem.ClaimantEndsStream | crates/triton-tasks/src/lib.rs:587-654 | a run from the start in which the runner dies early, a caller claims the task and fails it, and the stream shows that outcome |
| TaskSystem.ClosedChannelEndsStream | crates/triton-adapters-http/src/a2a_v1.rs:1052-1113 | once its channel is closed a stream ends within the reads still due |
| Gateway.SessionOfLog | crates/triton-chat-discord/src/gateway.rs:170-377 | over all runs and reconnects the session held is the latest READY's since the last re-identify |
| Gateway.SeqOfLog | crates/triton-chat-discord/src/gateway.rs:296-371 | worker and heartbeat atomic both hold the last sequence number since start or the last re-identify |
| Gateway.GreetingOfLog | crates/triton-chat-discord/src/gateway.rs:254-271 | RESUME is sent exactly when a session is held, with that session and sequence number |
| Gateway.IdentifyAfterReIdentify | crates/triton-chat-discord/src/gateway.rs:170-221 | after any outcome that forces a re-identify the next handshake is IDENTIFY |
| Gateway.DialsTrustedUrls | crates/triton-chat-discord/src/gateway.rs:569-588 | every URL dialled is built from the configured one or one that passed the trust check |
| Gateway.SeqWithoutSession | crates/triton-chat-discord/src/gateway.rs:296-310 | a run that holds a sequence number without a session |
| Gateway.FlagOfLog | crates/triton-chat-discord/src/gateway.rs:624-659 | in every interleaving of reader and timer the flag is up exactly while the latest heartbeat begun is unacknowledged |
| Gateway.WhatCutsAConnection | crates/triton-chat-discord/src/gateway.rs:624-659 | a connection is marked dead exactly by a tick with the latest heartbeat unacknowledged or by a failed send |
| Gateway.RequestThenTickCuts | crates/triton-chat-discord/src/gateway.rs:352-358 | at every moment of every run at which the connection is not dead and the timer waits for its tick, a heartbeat the server asks for and then that tick mark it dead |
| Gateway.RequestedHeartbeatCuts | crates/triton-chat-discord/src/gateway.rs:352-358 | a run in which every heartbeat of the timer was acknowledged and the connection is cut all the same |
| Gateway.HeartbeatCarriesSeq | crates/triton-chat-discord/src/gateway.rs:590-597 | a heartbeat carries the last sequence number of the log, or none before the first |
| Gateway.SecondTickCuts | crates/triton-chat-discord/src/gateway.rs:624-659 | two ticks with no acknowledgement processed between them always mark the connection dead |
| Gateway.BackoffOfLog | crates/triton-chat-discord/src/gateway.rs:170-252 | the n-th wait since the last HELLO is min(500 * 2^(n-1), 30000) ms in every run, always within 500 ms and 30 s |
| Gateway.GatewayWorker.Handle | crates/triton-chat-discord/src/gateway.rs:223-377 | the object's update for each event is the step of the state machine |
| Gateway.GatewayWorker.RunLog | crates/triton-chat-discord/src/gateway.rs:170-221 | a whole log is accepted exactly if it is a run, and leaves its final state |
| KeyCache.OneFetchInFlight | crates/triton-chat-googlechat/src/jwt_verifier.rs:281-329 | however many lookups run and whichever are cancelled, at most one fetch is out |
| KeyCache.FastKeyIsFresh | crates/triton-chat-googlechat/src/jwt_verifier.rs:281-287 | a key returned without the lock is from a keyset refreshed less than a TTL before the check, or a newer one |
| KeyCache.UnknownOnlyAfterOwnFetch | crates/triton-chat-googlechat/src/jwt_verifier.rs:296-304 | a lookup reports an unknown key only of a keyset it fetched itself |
| KeyCache.OneFetchForTheHerd | crates/triton-chat-googlechat/src/jwt_verifier.rs:281-329 | from a stale cache, without failure, cancellation or expiry, any number of lookups of served keys cause one fetch before any answer, and all answers are keys |
| TokenMinter.OneExchangeAtATime | crates/triton-chat-googlechat/src/token_minter.rs:169-207 | however many callers run and whichever are cancelled, at most one exchange is out |
| TokenMinter.OneExchangeForTheStampede | crates/triton-chat-googlechat/src/token_minter.rs:165-207 | from a stale cache, without failure, cancellation or expiry, any number of callers cause one exchange before any of them has a token, and all get that token |
| TokenMinter.CachedTokenHasLead | crates/triton-chat-googlechat/src/token_minter.rs:165-206 | a token served from the cache has more than 60 seconds left exactly if it was issued for more, and a shorter one is served for less than a second |
| TokenMinter.ExpiredTokenIsServed | crates/triton-chat-googlechat/src/token_minter.rs:198-199 | a run in which a token with no lifetime is served from the cache after it expired |
| RateLimit.RetryIsExact | crates/triton-core/src/ratelimit.rs:71-92 | the wait reported with a refusal is exact: any shorter one is refused again, any other admitted |
| RateLimit.AdmissionBound | crates/triton-core/src/ratelimit.rs:182-218 | in any stretch of calls on the per-tenant map, whose lock puts clock readings in order, a tenant is admitted at most burst plus rate times the time spanned |
| RateLimit.SharedBucketBound | crates/triton-core/src/ratelimit.rs:71-92 | for clock readings in any order, calls admitted by one bucket are at most burst plus rate times all forward movement of the readings |
| RateLimit.ForwardInOrder | crates/triton-core/src/ratelimit.rs:71-92 | for readings in order that movement is the time that passed |
| RateLimit.OutOfOrderEarnsTwice | crates/triton-core/src/ratelimit.rs:71-92 | readings 0, 1, 0, 1 admit three calls where burst plus rate allow two |
| RateLimit.EarnedIsProduct | crates/triton-core/src/ratelimit.rs:71-76 | what is earned in a time is rate times that time |
| RateLimit.PerTenantBuckets.TryTake | crates/triton-core/src/ratelimit.rs:182-218 | the bounded map answers as if every tenant had a bucket of its own for ever, whatever readings callers took before the lock; it refuses for room exactly if it is full, the tenant is new and every tracked tenant is still owed tokens |
| RateLimit.PerTenantBuckets.MakeRoom | crates/triton-core/src/ratelimit.rs:188-209 | eviction takes, of the full buckets, one whose last reading taken before the lock is the earliest, and changes nobody's allowance |
| Base64.RoundTrip | crates/triton-adapters-http/src/a2a_spec.rs:1047-1050 | decoding inverts padded encoding, for all bytes |
| Base64.DecodesOnlyEncodings | crates/triton-adapters-http/src/a2a_spec.rs:1047-1050 | only a canonical padded encoding decodes |
| Base64.UrlRoundTrip | crates/triton-adapters-http/src/a2a_v1.rs:845-858 | decoding inverts unpadded URL-safe encoding |
| Base64.UrlDecodesOnlyEncodings | crates/triton-adapters-http/src/a2a_v1.rs:845-858 | only a canonical unpadded encoding decodes |
| FileIntake.ShortcutRefinesDecoding | crates/triton-adapters-http/src/a2a_spec.rs:1039-1056 | a valid text is too large exactly if its decoded size exceeds the room, and stored whole otherwise; an invalid one is never stored |
| FileIntake.OneEntryEach | crates/triton-adapters-http/src/a2a_spec.rs:1013-1036 | over any uploads, entries plus overflow are all of them, at most ten are entries, and the total is the sum of stored sizes |
| FileIntake.EntryOfUpload | crates/triton-adapters-http/src/a2a_spec.rs:1013-1056 | entry i is made from upload i under the room the earlier entries leave, whatever comes later |
| FileIntake.ListingWithinLimits | crates/triton-adapters-http/src/a2a_spec.rs:1058-1065 | at most ten entries and one marker, last and with the exact number left out; stored bytes within 25 MiB |
| FileIntake.LinkNamesOwnUpload | crates/triton-adapters-http/src/a2a_spec.rs:1104-1137 | a link the gateway writes is the number of that very upload among all that were offered, whatever came before or comes after |
| FileIntake.LinkNamesOwnEntry | crates/triton-adapters-http/src/a2a_spec.rs:1013-1056 | the entry of that number was made from that upload, under the room the earlier entries left |
| FileIntake.OwnLinkCondition | crates/triton-adapters-http/src/a2a_spec.rs:1104-1137 | after the intake a context file links to its own entry or to none exactly if it was admitted or the client sent no link |
| FileIntake.StrayLink | crates/triton-adapters-http/src/a2a_spec.rs:1104-1137 | a file without data that keeps a client's link to another file's entry |
| FileIntake.EventAt | crates/triton-adapters-http/src/a2a_spec.rs:918-938 | in a whole message an event's uploads are offered right after everything before it, and linked from that count |
| FileIntake.LinksInMessage | crates/triton-adapters-http/src/a2a_spec.rs:898-997 | in the events and files returned for any message, the link of any of the first ten uploads that came in an event names the listed entry made from that very upload, exactly unless its context was over budget and the file past the eleventh there |
| FileIntake.LinkGetsThrough | crates/triton-adapters-http/src/a2a_spec.rs:970-978 | a link survives the reduction to the byte budget exactly if the context fits, the file is among the first eleven or it has none |
| FileIntake.KeptIsFirstEight | crates/triton-adapters-http/src/a2a_spec.rs:918-938 | every file part and exactly the first eight events are taken, in order |
| FileIntake.UploadSurvives | crates/triton-adapters-http/src/a2a_spec.rs:1104-1137 | any bytes a client sends as a base64 data URI, if they fit, are stored with their size and decode to the same bytes |
| FileIntake.Collector.Admit | crates/triton-adapters-http/src/a2a_spec.rs:1013-1036 | the intake is that of all uploads so far, and the index returned is the number of earlier ones, or none past ten |
| FileIntake.Collector.TakeUploads | crates/triton-adapters-http/src/a2a_spec.rs:1104-1137 | a context is linked in place and its uploads offered in order |
| FileIntake.ClientInput | crates/triton-adapters-http/src/a2a_spec.rs:898-938 | events and file list of a message are those of its kept items, each event's context whole, if all of it fits the budget, or cut to links |
| ListTasks.CursorRoundTrip | crates/triton-adapters-http/src/a2a_v1.rs:845-858 | a page token decodes to the offset it was made from |
| ListTasks.RequestLists | crates/triton-adapters-http/src/a2a_v1.rs:860-937 | a request with a page size from 1 to 100 and a token is answered with the page at the token's offset |
| ListTasks.PagesCoverTheList | crates/triton-adapters-http/src/a2a_v1.rs:914-937 | following the tokens with any page sizes ends and yields every task once, in order |
| ListTasks.PastTheEnd | crates/triton-adapters-http/src/a2a_v1.rs:924-935 | an offset past the list gives an empty page, and a further token exactly if the machine sum wraps into the list |
| ListTasks.BackendsAgree | crates/triton-tasks/src/lib.rs:394-430 | the SQLite list is a prefix of the memory list, and equal exactly if no asked-for row lies past the first 1000 or all of those are asked for |
| ListTasks.BackendsDiffer | crates/triton-tasks/src/lib.rs:394-430 | of 1001 rows with only the oldest asked for, the memory list has it and the SQLite list is empty |
| TaskStore.FullPut | crates/triton-tasks/src/lib.rs:311-326 | a new record pushes the oldest finished one out of a full order, and no record if all are running |
| TaskStore.RunningSurvives | crates/triton-tasks/src/lib.rs:307-326 | no write ever drops another task that is still running |
| TaskStore.LatestRunningIsThere | crates/triton-tasks/src/lib.rs:307-326 | after any sequence of writes, a task whose latest write is running is in the store with that write |
| TaskStore.WrittenIsStored | crates/triton-tasks/src/lib.rs:307-326 | what was written is read back, and a new record has a place in the order exactly if there was room or a finished one in it |
| TaskStore.BoundHolds | crates/triton-tasks/src/lib.rs:307-326 | after any sequence of writes the store holds at most 1024 records exactly if no write brought a new id to a full order of running tasks |
| TaskStore.RowsGrow | crates/triton-tasks/src/lib.rs:307-326 | a write adds a row exactly if its id is new and the order has room or is full of running tasks |
| TaskStore.UnorderedStays | crates/triton-tasks/src/lib.rs:307-326 | a record without a place in the order is not evicted by any write, finished or not, and gets no place |
| TaskStore.RunningTasksPileUp | crates/triton-tasks/src/lib.rs:307-326 | any number of running tasks with distinct ids are all kept: the store has as many rows |
| TaskStore.MemoryStore.Write | crates/triton-tasks/src/lib.rs:307-326 | the loop that evicts in place ends in the state of one put |
| TextCap.BoundaryIsBetweenCharacters | crates/triton-chat-discord/src/surface_mapper.rs:459-464 | the bytes before a boundary of a UTF-8 text are whole characters |
| TextCap.CutKeepsTheMost | crates/triton-chat-discord/src/surface_mapper.rs:459-464 | cutting at the last boundary keeps as many whole characters as fit |
| TextCap.FloorBoundary | crates/triton-chat-discord/src/surface_mapper.rs:460-463 | stepping back finds the last boundary within the budget |
| TextCap.TakeWhole | crates/triton-chat-discord/src/surface_mapper.rs:445-454 | the chunks accepted are a prefix that fits with its separators, and one more chunk would not |
| TextCap.TruncateChunks | crates/triton-chat-discord/src/surface_mapper.rs:443-469 | what is kept is the longest run of whole chunks, or the first one cut at the last boundary |
| TextCap.CapText | crates/triton-chat-discord/src/surface_mapper.rs:387-392 | the output is the joined text if it fits, else the kept part and the sentinel, within the cap |
| TextCap.TruncatedIsCleanPrefix | crates/triton-chat-discord/src/surface_mapper.rs:443-469 | a truncated body fits the budget, is a prefix of the whole text and ends between characters |
| TextCap.WholeChunks | crates/triton-chat-discord/src/surface_mapper.rs:387-469 | a chunk stands whole in the text exactly if nothing was cut or it and all before it fit beside the sentinel |
| Escape.EscapedShowsOriginal | crates/triton-chat-discord/src/surface_mapper.rs:475-488 | to a reader of Discord's markup, an escaped text shows exactly the original with no backslash left over, and something in it takes effect exactly if the original holds a character of mentions, emoji or timestamps |
| Escape.MentionsSurvive | crates/triton-chat-discord/src/surface_mapper.rs:475-488 | a word without escaped characters, such as a mention, is in the escaped text exactly if it is in the original |
| Escape.MentionsInReply | crates/triton-chat-discord/src/surface_mapper.rs:490-509 | the reply sent holds such a word of one line exactly if the tool's text does and fits the cap, or holds it early enough to be kept, or the sentinel has it |
| Escape.EveryoneIsSent | crates/triton-chat-discord/src/surface_mapper.rs:490-509 | `@everyone` alone is sent as it is |
| Escape.LateEveryoneIsCut | crates/triton-chat-discord/src/surface_mapper.rs:490-509 | 3000 letters and `@everyone`: the text holds the mention and the reply does not |
| Escape.EscapingIsInvertible | crates/triton-chat-discord/src/surface_mapper.rs:475-488 | different texts have different escapes |
| Escape.CutShowsPrefix | crates/triton-chat-discord/src/surface_mapper.rs:496-509 | wherever an escaped text is cut, the rest shows a prefix of the original, in which only mentions, emoji and timestamps can take effect |
| Escape.CutDangles | crates/triton-chat-discord/src/surface_mapper.rs:496-509 | a cut leaves a stray backslash exactly if it falls between a backslash and the character it escapes |
| Escape.ReplyDangles | crates/triton-chat-discord/src/surface_mapper.rs:496-509 | the cut a capped reply gets does so exactly if an escaped character's backslash is byte 1940 of the escaped reply |
| Escape.CappedReply | crates/triton-chat-discord/src/surface_mapper.rs:496-509 | a capped reply shows a prefix of the reply, that backslash if there is one, and the sentinel |
| Escape.StrayBackslash | crates/triton-chat-discord/src/surface_mapper.rs:496-509 | 1939 letters and 31 asterisks are such a reply |
| Escape.MdEscape | crates/triton-chat-discord/src/surface_mapper.rs:475-488 | the loop produces the escaped text |
| Escape.ClampPlainText | crates/triton-chat-discord/src/surface_mapper.rs:496-509 | a reply is escaped whole if it fits 2000 bytes, else as many whole characters as fit beside the sentinel |
| DiscordRender.QueueCounts | crates/triton-chat-discord/src/surface_mapper.rs:172-370 | of every kind of control, queued plus lost is all there were; menus have 1 to 25 options, buttons queued are at most 25 |
| DiscordRender.PlaceButtons | crates/triton-chat-discord/src/surface_mapper.rs:408-424 | button rows hold a prefix of the queued buttons in order, after the menus, within five rows, the rest counted |
| DiscordRender.Render | crates/triton-chat-discord/src/surface_mapper.rs:151-441 | shipped plus deferred is every button, selection, form and dashboard; at most five rows, menus first; text under the cap; an error exactly if there is nothing to show |
| DiscordRender.PromptOfMenu | crates/triton-chat-discord/src/surface_mapper.rs:253-327 | each queued menu has a prompt chunk of its own, with its own prompt, in order |
| DiscordRender.PromptsAndMenus | crates/triton-chat-discord/src/surface_mapper.rs:387-424 | of every queued menu in the message rendered: it ships exactly if it is among the first five, and its prompt is whole in the content exactly if the text was not cut or the prompt ends within what the sentinel leaves |
| DiscordRender.MenuWithoutPrompt | crates/triton-chat-discord/src/surface_mapper.rs:387-407 | a text over the cap before a selection: the menu ships, its prompt is not whole in the content |
| DiscordRender.PromptWithoutMenu | crates/triton-chat-discord/src/surface_mapper.rs:398-407 | six selections with any prompts that fit the cap together: the sixth prompt is whole in the content and its menu does not ship |
| DiscordRender.OnlyTheFirstIsCut | crates/triton-chat-discord/src/surface_mapper.rs:443-469 | a truncated message is a run of whole chunks exactly if the first one fits beside the sentinel |
| DiscordRender.CutTextDangles | crates/triton-chat-discord/src/surface_mapper.rs:455-469 | a first chunk of escaped text that does not fit ends in a stray backslash exactly if an escaped character's backslash would be byte 1940 |
| DiscordRender.CutChunkStaysOpen | crates/triton-chat-discord/src/surface_mapper.rs:455-469 | of a first chunk that does not fit, such as a narration or a fenced diff, the closing mark is always cut off |
| GeminiAnswer.Render | crates/triton-chat-gemini/src/surface_mapper.rs:79-202 | every control is counted as deferred and the text is capped at 8000 bytes like the other channels' |
| EmailBody.RenderBlocks | crates/triton-chat-email/src/surface_mapper.rs:88-262 | HTML and text blocks are those of the arrangement, which gives each maximal run of buttons one action row, paired one to one |
| EmailBody.ArrangedHoldsAll | crates/triton-chat-email/src/surface_mapper.rs:121-258 | every button and every component's block is in the arrangement once, in order |
| EmailBody.RowPerRun | crates/triton-chat-email/src/surface_mapper.rs:92-119 | there are as many action rows as runs of buttons, and none is empty |
| EmailBody.EmptyIffNothing | crates/triton-chat-email/src/surface_mapper.rs:258-262 | there is no block exactly if no component brings one |
| EmailBody.TruncateBlocks | crates/triton-chat-email/src/surface_mapper.rs:287-338 | blocks are dropped exactly over the ceiling: the leading ones that fit stay, or the first is cut between characters |
| EmailBody.TrimmedFits | crates/triton-chat-email/src/surface_mapper.rs:287-326 | after truncation blocks are still paired and their HTML bytes plus the sentinel fit |
| EmailBody.BodyWithinCeiling | crates/triton-chat-email/src/surface_mapper.rs:287-346 | the joined body, note included, is within 512000 bytes exactly if the blocks to be rendered leave room for the newlines: for all of them, or for those that fit, or by a budget that falls inside a character |
| EmailBody.TwoBlocksOver | crates/triton-chat-email/src/surface_mapper.rs:291-294 | two blocks that add up to the ceiling make a body one byte over it |
| EmailBody.OneBlockOver | crates/triton-chat-email/src/surface_mapper.rs:309-318 | one oversized block of one-byte characters is cut to a body one byte over it |
| Modal.Open | crates/triton-chat-discord/src/surface_mapper.rs:599-684 | a modal opens exactly for one to five text fields with distinct names that are not empty and a token that fits, and the token commits to those names |
| Modal.Submit | crates/triton-chat-discord/src/lib.rs:1068-1182 | a submission is dispatched exactly if its token decodes for the submitter and its inputs are the committed names, each once, none empty, with exactly the posted values |
| Modal.Fill | crates/triton-chat-discord/src/lib.rs:1147-1182 | slots are filled exactly if names match and every slot is empty, and a refusal names what is wrong |
| Modal.FillingIsAccepted | crates/triton-chat-discord/src/lib.rs:1068-1182 | whatever a user enters in a form that opened, in any order and rows, matches under the same binding |
| Modal.OpenAndSubmit | crates/triton-chat-discord/src/lib.rs:1068-1182 | opening a form and posting values back gives the tool exactly the map from field name to value |
| TableCard.RowIsNothingElse | crates/triton-chat-googlechat/src/table_card.rs:228-245 | a table row is not blank, no heading and no rule |
| TableCard.MarkdownDistinguishes | crates/triton-chat-googlechat/src/table_card.rs:228-259 | the line rules meet what the split relies on |
| TableCard.RichAnswer | crates/triton-chat-googlechat/src/table_card.rs:43-99 | none without a table; else every line goes to exactly the part a line-by-line reference names, in order, paragraphs are maximal, sections are the groups between headings and rules, and there is at least one |
| TableCard.TableIsAccountedFor | crates/triton-chat-googlechat/src/table_card.rs:141-225 | every table of an answer stands in one of its sections: header, divider, rows in order up to 25, and then the number left out, which with the rows shown makes all rows |
| TableCard.AnswerIsDetermined | crates/triton-chat-googlechat/src/table_card.rs:43-99 | lead, blocks and sections are determined by the lines: there is one such split |
| TableCard.Builder.Begin | crates/triton-chat-googlechat/src/table_card.rs:110-129 | a heading or rule closes the section and begins a new one |

## Left out

- MCP task calls (`run_as_task` in `mcp.rs` with its wait after an asynchronous receipt), agent cards, CORS, metrics and boot are not modelled.
- HTTP, SSE, JSON parsing and signature checks: library code; what they deliver is a parameter or a small datatype.
- TaskSystem.NoLostCompletion: records do not expire and every write succeeds, task ids are fresh, one process runs at a time, and the reader is the owner. That a running record is not evicted is `TaskStore.LatestRunningIsThere`; a finished one can be.
- MessageStream.ClientGetsAnswer: streams cut by the deadline are excluded, as the source ends them without an answer; the text of each frame is modelled, not its JSON.
- KeyCache.OneFetchForTheHerd: excludes failed fetches, cancellation and expiry during the run, as the promise does.
- TokenMinter.OneExchangeForTheStampede: excludes failed exchanges, cancellation and expiry during the run, as the promise does; signing and the two hops of one exchange are one step.
- RateLimit.PerTenantBuckets.TryTake: tokens and times are reals, without floating-point rounding, and one time stands for all clock reads of a call under the lock.
- ListTasks.BackendsAgree: rows come sorted newest first; rows with equal creation times in SQLite are not modelled.
- Escape.EscapedShowsOriginal: the reader judges characters one by one; Markdown's rules on position and pairing are not modelled.
- FileIntake.ClientInput: whether a context fits its byte budget is a parameter, over the whole context; cleaning of file labels, media types and contexts without a file list are not modelled.
- DiscordRender.Render: text of conversation components and diffs is given, and whether a token fits is an input.
- EmailBody.RenderBlocks: the HTML of single components and the document frame are parameters, and inline Markdown is not modelled.
- Modal.Submit: which of several faults is reported first is left open where the source iterates over a map; label and title clamping are not modelled.
- TableCard.RichAnswer: the HTML of cells, wide-table layout and heading cleaning are parameters or raw text.
- The select branch of component callbacks, the REST and legacy 0.3 arms, subject lines and report captions.
