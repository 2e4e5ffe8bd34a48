# Timbre backend: verified models

Dafny models of the dense parts of the Timbre backend (`backend/internal`, written in Go), with proofs of what those
parts are for. `dafny verify dfyconfig.toml` checks everything. Each module follows one component:

- `Chunker`, `Ingest`: the knowledge base. Text passes through four nested splitting passes (lines, paragraphs,
  sentences with hard cuts, and an accumulate-and-flush loop that repeats the tail of each chunk) and is then
  embedded and stored in batches of 100, any of which may fail. Nothing is lost or reordered, the size bound is
  exact and reached, and whatever fails, the stored rows are a prefix of the chunks.
- `RateLimiter`: the login token bucket and its janitor. The sliding-window bound holds of every run exactly when a
  full burst refills within ten minutes; under that condition the janitor cannot be noticed.
- `FreeSlots`: the in-place sort and the sweep over overlapping busy intervals. The answer is exactly the list of
  long enough maximal gaps, if and only if no busy interval beyond the window leaves a long gap before it.
- `Trunks`: SIP trunks and the five Asterisk tables derived from them, as transactions of statements any of which
  may fail. The tables mirror the trunks after every run.
- `DidRouting`: who owns a phone number, which bot and which rule it belongs to, and which bot answers a call.
  Tenants never mix, and the rule chosen is the least one that matches.
- `Hub`, `Webhooks`: two concurrent protocols as interleaved steps. The realtime hub never sends on or closes a
  closed channel exactly when no client is unregistered twice; a client gets its tenant's broadcasts in order,
  except those that found its buffer full. The webhook dispatcher keeps every event in exactly one place and tries
  each endpoint at most twice.
- `SqlPatch`: the statement builders. A built statement, read back from its text with its argument list, means the patch.
- `Billing`: rounding, analytics totals, usage rows and their summary.
- `LeadImport`: the CSV import loop. `Retention`: the sweep over expired recordings.
- `Options`, `Strings`: shared helpers, among them Go's string functions.

Code that changes state keeps that form: a class or a loop, proved against a specification function (`Chunks`,
`Slots`, `Created`, `Do`, ...), about which the laws are then proved. A database call carries a flag or a set of failing
statements, a network answer is an arbitrary value, and the clock is an argument that does not run backwards.

Where the documentation in the code and the code disagree, the models follow the code:

- `chunker.go:38` promises a total length of at least the input's less the overlaps. That counts white space, which is
  dropped: the promise holds up to as much white space as one overlap (`DocumentedLengthIsExact`). What holds for every
  text is `ChunksLoseNothing`, hence `ChunksCoverInk`.
- `calendar/service.go:105` promises the gaps of the window. A busy interval that starts after the window makes the
  sweep emit a slot beyond it; `SlotsAreExactlyTheGaps` states when.
- `hub.go:98` says that a slow client is dropped from the set; the code only closes its connection, and the client
  stays in the set until its handler unregisters it.
- `outwebhook.go:12` retries anything that is not 2xx, the code anything that is 300 or more; a request that cannot be built is
  logged and not retried. The retry runs in a goroutine of its own, not in another worker.
- `handlers_import.go:25` says that phones on the do-not-call list are skipped. A failed lookup counts as not on the list, so a
  lead gets through; `DoNotCallIsExact` states when.
- `retention.go:14` says that the next pass takes what was left. It does only while fewer rows keep failing than a batch
  holds (`ClearsUpIffRoomInBatch`); a full batch of them that is due first starves the rest.
- `handlers_recording.go:65` builds keys from the time so that they do not collide. They do within one second, and then a
  pass can take the object of a recording that is still kept (`SparesOthersIffKeysApart`, `SameSecondUploads`).
- `trunks.go:436` accepts numbers with or without the plus sign. Stored in both ways, they can be two DIDs, of two tenants
  even, and the query picks one (`NumberIsAmbiguousIff`).
- `knowledge_base.go:50` says that the chunk count applies to ready documents only; failed ones carry it too.

## Model

| member | source | states |
|---|---|---|
| Chunker.ChunkText | backend/internal/kb/chunker.go:39-96 | Computes `Chunks`, whatever the options: bad sizes fall back to the defaults, a bad overlap to none |
| Chunker.Effective | backend/internal/kb/chunker.go:21-45 | Sizes that are not positive mean 2000 with an overlap of 200; an overlap that is negative or not below the size means none; other options are kept |
| Chunker.ChunksAreLaidOut | backend/internal/kb/chunker.go:62-95 | Each chunk is the trimmed text of its lead and the next pieces, each followed by a blank line, as many as find room; the piece after them finds none; the pieces left over at the end are blank |
| Chunker.ChunkStartsWithTail | backend/internal/kb/chunker.go:74-82 | After a chunk longer than the overlap n > 0, the next one starts with its last n bytes on a line of their own; after any other chunk nothing is repeated, and all ink of the next one is new |
| Chunker.TokensPerWord | backend/internal/kb/chunker.go:183-188 | The estimate is 1.3 tokens a word, rounded down |
| Chunker.ChunksLoseNothing | backend/internal/kb/chunker.go:35-96 | Every chunk starts with the carried tail of the one before; the non-space bytes of the chunks without those tails are exactly those of the text, in order; there is no chunk if and only if the text is blank |
| Chunker.ChunksFit | backend/internal/kb/chunker.go:36-45 | Chunks are numbered from 0, trimmed, non-empty, and at most MaxChars long without overlap, MaxChars + OverlapChars + 1 with |
| Chunker.BoundIsReached | backend/internal/kb/chunker.go:62-91 | For every option set some text has a chunk of exactly that bound, so the bound cannot be lowered |
| Chunker.ChunksCoverInk | backend/internal/kb/chunker.go:35-38 | The chunks together are at least as long as the text without its white space |
| Chunker.DocumentedLengthIsExact | backend/internal/kb/chunker.go:38 | The documented total length counts white space: all non-blank texts with at most n bytes of it meet that length if and only if n is no more than the overlap |
| Chunker.BlankMeetsLengthIffEmpty | backend/internal/kb/chunker.go:38-49 | A blank text meets the documented length if and only if it is empty |
| Chunker.TextPiecesFit | backend/internal/kb/chunker.go:46-60 | After lines, paragraphs and sentences, the pieces hold the non-space bytes of the text in order, and each piece is non-empty and at most MaxChars long |
| Chunker.Normalize | backend/internal/kb/chunker.go:98-107 | The in-place loop over the lines computes `Normalized` |
| Chunker.LinesAreUnified | backend/internal/kb/chunker.go:98-107 | Lines joined in any of the three ways are told apart, trimmed at their ends and joined by line feeds |
| Chunker.TrimRightIsExact | backend/internal/kb/chunker.go:104 | What is cut from the end of a line is all its blanks and tabs, and nothing else |
| Chunker.NormalizedIsNormal | backend/internal/kb/chunker.go:98-107 | Normalized text has no carriage return, and no line of it ends in a blank or tab |
| Chunker.NormalIsKept | backend/internal/kb/chunker.go:98-107 | Text that is already normal is left alone, so normalizing is idempotent |
| Chunker.NormalizedKeepsInk | backend/internal/kb/chunker.go:98-107 | Normalizing keeps every non-space byte in order |
| Chunker.SplitParagraphs | backend/internal/kb/chunker.go:109-122 | The loop computes `Paragraphs`, the non-blank trimmed blocks |
| Chunker.SplitOversized | backend/internal/kb/chunker.go:127-160 | The loop over sentences with its flush and its hard cuts computes `OversizedPieces` |
| Chunker.OversizedPiecesFit | backend/internal/kb/chunker.go:124-160 | A paragraph of any length becomes non-empty pieces of at most the maximum that hold its non-space bytes in order |
| Chunker.OversizedPiecesAreGroups | backend/internal/kb/chunker.go:127-160 | The pieces are those of consecutive groups of sentences, each as long as sentences join: a sentence that is too long opens a group with its full cuts, and what is left of it joins the next ones |
| Chunker.HardSplitIsEven | backend/internal/kb/chunker.go:139-151 | The cuts of a sentence that is too long have exactly the maximal length, and with the rest, which is shorter and not empty, they make up the sentence byte by byte |
| Chunker.SplitSentences | backend/internal/kb/chunker.go:162-181 | The byte loop cuts exactly after each first terminator that a space follows |
| Chunker.SentencesEndOnce | backend/internal/kb/chunker.go:162-181 | Every sentence but the last ends in a full stop, exclamation or question mark, and none has such a byte with a space behind it within |
| Chunker.JoinSentences | backend/internal/kb/chunker.go:162-181 | Joining the sentences with the dropped spaces gives back a text that does not end in a space |
| Chunker.PackPieces | backend/internal/kb/chunker.go:62-91 | The accumulate-and-flush loop computes `PackAll`, a buffer of blanks staying unreset |
| Ingest.Embed | backend/internal/kb/embeddings.go:74-125 | Succeeds if and only if the key is set and, for a non-empty batch of at most 100, the last entry for every input is a vector of the right dimension; vector i is then the one for input i |
| Ingest.LastForIsLast | backend/internal/kb/embeddings.go:108-114 | Of several entries for an input the last one counts; without one there is no vector |
| Ingest.ReplyOrderIsIrrelevant | backend/internal/kb/embeddings.go:106-114 | Two replies with the same entries in any order, one per index, pair every input with the same vector |
| Ingest.KnowledgeBase.StoreBatch | backend/internal/kb/ingest.go:51-78 | Stores all rows of the batch, each with the vector of its own content, or none |
| Ingest.KnowledgeBase.StoreChunks | backend/internal/kb/ingest.go:45-79 | Wherever a batch fails or the process dies, the rows added are the first `persisted` chunks, indexes 0 up, each with the vector for its own input |
| Ingest.HoldsInFull | backend/internal/kb/ingest.go:62-72 | Stored row k has the tenant, the document, the index k, content and size of chunk k, and the vector that the reply to batch k / 100 gave for input k % 100 |
| Ingest.KnowledgeBase.Ingest | backend/internal/kb/ingest.go:30-83 | The added rows and the final document row for every text and every failure, including status updates that do not reach the database |
| Ingest.FinalDocument | backend/internal/kb/ingest.go:36-81 | A ready document has all its chunks stored, and a ready or failed one records as many chunks as there are rows |
| Ingest.StoredIffAllSucceed | backend/internal/kb/ingest.go:42-79 | All chunks are stored if and only if every batch succeeds; otherwise exactly the batches before the first that fails |
| Ingest.KnowledgeBase.InsertChunks | backend/internal/store/knowledge_base.go:111-135 | All rows of a batch or none |
| Ingest.KnowledgeBase.MarkStatus | backend/internal/store/knowledge_base.go:49-63 | Sets status and count of an existing document, and nothing else |
| RateLimiter.Limiter.Allow | backend/internal/api/ratelimit.go:32-55 | Answers as `Visit` does and changes only the bucket of its own key |
| RateLimiter.Limiter.Cleanup | backend/internal/api/ratelimit.go:57-70 | Deletes exactly the buckets last refilled more than ten minutes ago |
| RateLimiter.SlidingWindow | backend/internal/api/ratelimit.go:11-70 | In any run, any window [s, t] allows one key at most burst + (t - s) / rate requests, if burst * rate is at most ten minutes or the janitor never runs |
| RateLimiter.WindowIsExact | backend/internal/api/ratelimit.go:36-70 | That bound holds of every run if and only if burst * rate is at most ten minutes (and one nanosecond) |
| RateLimiter.JanitorIsInvisibleIff | backend/internal/api/ratelimit.go:57-70 | Every request of every run is answered as if no bucket were ever deleted if and only if burst * rate is at most ten minutes (and one nanosecond) |
| RateLimiter.KeysAreIndependent | backend/internal/api/ratelimit.go:35-54 | A key's bucket and answers are the same with the requests of all other keys left out |
| RateLimiter.DeniedOnlySoon | backend/internal/api/ratelimit.go:41-54 | A request is denied only less than `rate` after an allowed one of the same key |
| FreeSlots.FindFreeSlots | backend/internal/calendar/service.go:120-147 | Sorts the array in place, keeping its elements, and computes `Slots` of the result; of the intervals as they were given, the answer is exactly the long gaps if and only if they leave no late slot |
| FreeSlots.MinLength | backend/internal/calendar/service.go:124-127 | A positive number of minutes counts as it is, any other as 30 |
| FreeSlots.SortByStart | backend/internal/calendar/service.go:120 | The array is sorted by start and holds the same intervals |
| FreeSlots.SlotsAreExactlyTheGaps | backend/internal/calendar/service.go:101-148 | The answer is exactly the maximal gaps of [from, to) that are long enough, ascending and disjoint, if and only if before every busy interval that starts beyond the window, the window's start or the end of an earlier interval is closer than the minimum |
| FreeSlots.LateIntervalBreaksIt | backend/internal/calendar/service.go:128-146 | For every window, one busy interval far enough beyond it: the only slot ends outside the window |
| FreeSlots.SlotsWithinQuery | backend/internal/calendar/service.go:116-147 | That is so for every busy list the FreeBusy query may return, in which no interval starts after the window |
| FreeSlots.SlotsIgnoreOrder | backend/internal/calendar/service.go:120-147 | Any two sorted arrangements of the same intervals have the same slots, so the order of the list, and of equal starts, does not matter |
| Trunks.Store.GetTrunk | backend/internal/store/trunks.go:55-72 | The trunk with its password masked |
| Trunks.Store.CreateTrunk | backend/internal/store/trunks.go:74-114 | The transaction does what `Created` says, whichever statements fail |
| Trunks.CreateKeepsMirror | backend/internal/store/trunks.go:74-114 | Succeeds if and only if the name is given and free, the id is new and none of the trunk's statements fails; the tables mirror the trunks before and after; a failure changes nothing |
| Trunks.CreateStores | backend/internal/store/trunks.go:74-114 | A trunk is created exactly if its name is given and no trunk has it, its id is new and the statements it needs work; it is stored as given, but for a missing status and port |
| Trunks.Store.UpdateTrunk | backend/internal/store/trunks.go:116-162 | The transaction does what `Updated` says, whichever statements fail |
| Trunks.UpdateKeepsMirror | backend/internal/store/trunks.go:116-162 | The same for an update, with or without a new endpoint name; a masked or empty password keeps the stored one |
| Trunks.UpdateSucceeds | backend/internal/store/trunks.go:116-162 | A trunk is updated exactly if it exists, no other trunk has the name, and the statements it needs work |
| Trunks.UpdateStores | backend/internal/store/trunks.go:132-160 | A password that is neither empty nor eight asterisks is stored, and stands among the auths under the new name; an empty or masked one leaves the stored one; other trunks stay as they are |
| Trunks.Store.DeleteTrunk | backend/internal/store/trunks.go:164-189 | The transaction does what `Deleted` says, whichever statements fail |
| Trunks.DeleteTrunkKeepsMirror | backend/internal/store/trunks.go:164-189 | Succeeds if and only if the trunk exists and no statement fails, and removes it and its rows; a failure changes nothing |
| Trunks.UpsertRealtimeTrunk | backend/internal/store/trunks.go:191-270 | The conditional inserts, statement by statement, add the rows `InsertRows` gives or fail |
| Trunks.DeleteRealtimeTrunk | backend/internal/store/trunks.go:272-294 | The loop over the five deletes removes exactly the rows under the endpoint's five keys, or fails |
| Trunks.EveryRunMirrors | backend/internal/store/trunks.go:74-294 | After any commands, successful or rolled back, each of the five tables is the image of the trunks: no row missing, no orphan |
| Trunks.MirrorIsUnique | backend/internal/store/trunks.go:191-270 | The trunks determine every row of the five tables |
| Trunks.RowsInFull | backend/internal/store/trunks.go:194-270 | The rows of a trunk in the five tables, column by column, and exactly which of them it has |
| Trunks.NoOrphans | backend/internal/store/trunks.go:191-294 | Every row of the five tables belongs to a trunk, under the key that comes from its name |
| Trunks.SavingUnchangedIsHarmless | backend/internal/store/trunks.go:55-162 | Updating a trunk with what GetTrunk returned changes no table, whether or not it succeeds |
| Trunks.DeleteUndoesCreate | backend/internal/store/trunks.go:74-189 | Deleting a trunk just created restores all tables |
| Trunks.NothingDangles | backend/internal/store/trunks.go:191-270 | Every registration's auth, every identify's endpoint and every endpoint's aor and auth exist |
| DidRouting.Store.CreateDid | backend/internal/store/trunks.go:343-362 | Stores the DID unless its id or number is taken; an empty tenant means the pool |
| DidRouting.DidCreatedInFull | backend/internal/store/trunks.go:343-362 | The exact condition of success and the whole new state |
| DidRouting.DidUpdatedInFull | backend/internal/store/trunks.go:399-410 | The exact condition of success and the whole new state |
| DidRouting.Store.AssignDidToTenant | backend/internal/store/trunks.go:364-397 | Moves the DID, detaching it from all bots exactly if it leaves its tenant |
| DidRouting.DidAssignedInFull | backend/internal/store/trunks.go:364-397 | The DID gets the owner, an empty one meaning none; exactly the bots that had it lose it, exactly if it had another owner before |
| DidRouting.Store.AssignBotDid | backend/internal/store/store.go:299-321 | Sets the bot's DID only if it belongs to the bot's tenant; an empty id is refused by the foreign key |
| DidRouting.BotDidAssignedInFull | backend/internal/store/store.go:299-321 | In every state with agreeing tenants: exactly if the bot is the tenant's and the DID, if one is given, too; only the bot changes |
| DidRouting.Store.CreateRule | backend/internal/store/did_routing.go:61-108 | Stores the rule only if its DID, target and fallback belong to its tenant |
| DidRouting.RuleCreatedInFull | backend/internal/store/did_routing.go:61-108 | Exactly if its id is new and its DID and bots are the tenant's; it is stored as it is given |
| DidRouting.Store.UpdateRule | backend/internal/store/did_routing.go:110-146 | Changes a rule of the tenant, checking target and fallback again, and keeps its DID and age |
| DidRouting.RuleUpdatedInFull | backend/internal/store/did_routing.go:110-146 | Exactly if the rule and the new bots are the tenant's; all but its DID and age changes |
| DidRouting.RuleDeletedInFull | backend/internal/store/did_routing.go:148-158 | Exactly if the rule is the tenant's; only it goes |
| DidRouting.EveryRunKeepsTenants | backend/internal/store/did_routing.go:61-158 | After any commands a bot's DID belongs to the bot's tenant, and a rule's bots to the rule's tenant |
| DidRouting.CallsStayInTenant | backend/internal/store/did_routing.go:178-212 | In every such state an inbound call is only routed to a bot of the tenant that owns the DID |
| DidRouting.Store.UpdateDid | backend/internal/store/trunks.go:399-410 | Changes number and status of a DID unless another one has the number |
| DidRouting.NumberIsAmbiguousIff | backend/internal/store/trunks.go:437-461 | After any commands an inbound number reaches two DIDs if and only if it came without a plus sign and DIDs are stored, active and owned both under it and under it with the sign |
| DidRouting.NumberOfTwoTenants | backend/internal/store/trunks.go:343-461 | Two commands after which one number reaches DIDs of two tenants |
| DidRouting.RuleMatches | backend/internal/store/did_routing.go:216-281 | The loops with early return decide the declarative `Matches`: some day, within the hours, some non-blank prefix, same language up to letter case |
| DidRouting.MatchesInFull | backend/internal/store/did_routing.go:216-281 | The four conditions, each in its own terms: the day is listed, the minute lies between the ends going round the day, the number begins with a prefix byte by byte, the languages are equal in lower case; and what an empty condition means |
| DidRouting.WindowIsCircular | backend/internal/store/did_routing.go:238-255 | The hours are a circular interval: going round a day of any length from the start, the minute comes before the end |
| DidRouting.WindowsPartitionTheDay | backend/internal/store/did_routing.go:243-254 | For distinct a and b, [a, b) and [b, a) cover every minute exactly once |
| DidRouting.ResolveDidRouting | backend/internal/store/did_routing.go:178-212 | Gives one of the answers that `Resolves` allows |
| DidRouting.DecisionIsLeast | backend/internal/store/did_routing.go:182-211 | A rule is chosen if and only if some rule wins, and it is the least enabled matching one by priority and age; there is no route if and only if no rule matches and the DID has no bot in the tenant |
| DidRouting.DecidesIffNoRival | backend/internal/store/did_routing.go:23-41 | Whatever order the query lists rules of equal rank in, and whichever default bot it picks, the decision is the same if and only if no other rule that wins has the rank of the chosen one, and no other bot is the default |
| DidRouting.DeletingUnchosenRule | backend/internal/store/did_routing.go:148-211 | After a rule that was not chosen is deleted, every listing of the rules that are left leads to the same decision if and only if the decision has no rival among them |
| DidRouting.DeletionBreaksTie | backend/internal/store/did_routing.go:27-200 | With two matching rules of equal rank, deleting a third, unreached one can change which of the two is chosen |
| Hub.Hub.Register | backend/internal/realtime/hub.go:76-83 | The step `Register` |
| Hub.Hub.Unregister | backend/internal/realtime/hub.go:85-95 | The step `Unregister`: the client leaves its set, an empty set goes, the channel closes |
| Hub.Hub.Broadcast | backend/internal/realtime/hub.go:105-122 | The loop over the set does the step `Broadcast`: every client of the tenant with room gets the message once, the others lose their connection |
| Hub.Hub.Write | backend/internal/realtime/hub.go:139-155 | The step `Write`: takes the oldest message, if there is one |
| Hub.NoPanicIffOnce | backend/internal/realtime/hub.go:76-122 | An interleaving sends on or closes a closed channel if and only if some client is unregistered twice; without that, buffers hold at most 32 and registered channels are open |
| Hub.ClientsGetTheirBroadcasts | backend/internal/realtime/hub.go:97-165 | What a client took, followed by what it has buffered, is its own tenant's broadcasts since it registered, in order, without those that met a full buffer |
| Hub.ConnectedUntilFull | backend/internal/realtime/hub.go:113-121 | In every interleaving a client keeps its connection exactly as long as no broadcast of its tenant finds 32 messages waiting |
| Webhooks.Dispatcher.Dispatch | backend/internal/outwebhook/outwebhook.go:91-105 | The step `Dispatch`: an event without tenant or type is ignored, one that meets a full queue is dropped |
| Webhooks.Dispatcher.ListEndpoints | backend/internal/outwebhook/outwebhook.go:113-127 | The step `List`: the worker starts on the subscribed endpoints, or is done with the event |
| Webhooks.Dispatcher.DeliverNext | backend/internal/outwebhook/outwebhook.go:124-178 | The step `Deliver`: first attempt at the worker's next endpoint |
| Webhooks.Dispatcher.FireRetry | backend/internal/outwebhook/outwebhook.go:195-207 | The step `Fire`: the delayed second attempt |
| Webhooks.EveryRunKeepsInv | backend/internal/outwebhook/outwebhook.go:68-207 | In every run each event is in exactly one place, and each pair of an event and a subscribed endpoint is owed, awaiting its retry, or settled, in agreement with the log |
| Webhooks.AtMostOneRetry | backend/internal/outwebhook/outwebhook.go:129-207 | In every run each pair gets at most two POSTs and one success; attempts are logged as 1, then 2, the second only after a first that went out and failed |
| Webhooks.RetryPendingIff | backend/internal/outwebhook/outwebhook.go:143-165 | In every run a retry of a pair is pending if and only if the pair had one attempt, and that got no answer or an answer of 300 or more |
| Webhooks.QuietMeansSettled | backend/internal/outwebhook/outwebhook.go:107-207 | When nothing is left to do, every event was ignored, dropped or handled, and every subscribed endpoint had one attempt, and a second one exactly if the first went out and failed |
| Webhooks.SecondAttemptIff | backend/internal/outwebhook/outwebhook.go:154-207 | In a quiet state a subscribed pair had a second attempt if and only if its first got no answer or an answer of 300 or more |
| Webhooks.EveryRunIsInOrder | backend/internal/outwebhook/outwebhook.go:100-111 | In every run events wait in the order of their dispatch, behind all that workers hold |
| Webhooks.DropsOnlyWhenFull | backend/internal/outwebhook/outwebhook.go:93-105 | In every run an event is ignored exactly without tenant or type, dropped exactly if the queue is full, and else queued as it is; the queue never exceeds its capacity |
| Webhooks.WorkRunsOut | backend/internal/outwebhook/outwebhook.go:107-207 | Without new dispatches every step decreases the work that remains |
| Webhooks.GoesOnUntilQuiet | backend/internal/outwebhook/outwebhook.go:68-207 | In every run, some step other than a dispatch is possible if and only if something is left to do, so no work gets stuck |
| SqlPatch.UpdateLead | backend/internal/store/mutations.go:25-45 | No statement for an empty patch; otherwise the text, parsed back with its arguments, sets exactly the given columns to their values, and its conditions hold exactly of the row with this tenant and id |
| SqlPatch.LeadColumns | backend/internal/store/mutations.go:35-41 | Each column is set exactly if its field is given, to its value; the time of the update always |
| SqlPatch.UpdateBot | backend/internal/store/mutations.go:188-220 | The same for bots, with a flag and a JSON column |
| SqlPatch.BotColumns | backend/internal/store/mutations.go:198-216 | Each column is set exactly if its field is given, to its value, the guardrails cast to JSON |
| SqlPatch.UpdateCampaign | backend/internal/store/mutations.go:257-301 | The same for campaigns |
| SqlPatch.CampaignColumns | backend/internal/store/mutations.go:269-299 | Each column is set exactly if its field is given, to its value; a clear flag wins over a new date, an empty bot id detaches the bot |
| SqlPatch.UpdateProperty | backend/internal/store/mutations.go:367-394 | The same for properties |
| SqlPatch.PropertyColumns | backend/internal/store/mutations.go:377-390 | Each column is set exactly if its field is given, to its value, the two lists cast to JSON |
| SqlPatch.Itoa | backend/internal/store/mutations.go:442-462 | The loop that fills 20 bytes from the back stays inside them and gives `ItoaText`, for every 64-bit number |
| SqlPatch.ItoaReadsBack | backend/internal/store/mutations.go:441-462 | That text reads back as the number, with its sign, if and only if it is not the least 64-bit number |
| SqlPatch.AddLeadsToCampaign | backend/internal/store/campaign_leads.go:15-44 | No statement for no leads; otherwise the one joined VALUES text, split into rows again although rows contain its separator, has a row a lead, and row i reads exactly its own id, tenant, campaign and lead from the argument list |
| SqlPatch.JoinedRowsRead | backend/internal/store/campaign_leads.go:34-44 | The rows of any such joined text are read apart again, each with its own four arguments |
| SqlPatch.LeadRowInFull | backend/internal/store/campaign_leads.go:36-42 | The row of a lead is its new id, the tenant, the campaign and the lead, in the order of the columns |
| Billing.WithCost | backend/internal/api/server.go:84-91 | Every call of the list gets its own cost, in place, and nothing else changes |
| Billing.AnalyticsTotal | backend/internal/api/handlers_analytics.go:48-61 | The total is the sum of the providers' costs |
| Billing.OneProvider | backend/internal/pricing/pricing.go:73-88 | For n calls of one provider, the cost of the summed seconds exceeds the sum of the costs by 0 to n - 1 cents |
| Billing.AgreesIffUnmixed | backend/internal/api/handlers_analytics.go:48-61 | For every rate table the analytics total never undercuts the call list, and exceeds it by at most calls minus providers, if and only if no provider has both a call of positive and a call of negative length |
| Billing.AnalyticsAgreesWithList | backend/internal/store/store.go:528-541 | So it is for the calls that are stored, whose length is never negative |
| Billing.NewDetailed | backend/internal/pricing/detailed.go:26-41 | The last entry for a provider and component counts |
| Billing.LastEntryIsLast | backend/internal/pricing/detailed.go:31-39 | The rate of a component is that of its last entry; without an entry there is none |
| Billing.ComponentPrice | backend/internal/pricing/detailed.go:54-90 | The price of a count is so much for each, for every 60 or for every 1000, rounded towards zero, by the unit of the rate in letters of any case; nothing without a rate, for another unit, or for a count that is not positive |
| Billing.FlatPrice | backend/internal/pricing/pricing.go:73-88 | A known provider charges by the minute, rounded down to a cent; an unknown one nothing |
| Billing.UsageStore.HandleUsage | backend/internal/api/handlers_billing.go:71-108 | Stores the priced report as the row of its call, or changes nothing |
| Billing.PriceIsRight | backend/internal/api/handlers_billing.go:71-98 | The price of every report: the flat price only when nothing detailed applies, the dearer way of charging speech, the total the sum of the five parts |
| Billing.UsageStore.Upsert | backend/internal/store/call_usage.go:42-76 | Replaces the row of the call and no other, keeping its first day, or changes nothing |
| Billing.EveryRowIsReported | backend/internal/store/call_usage.go:42-76 | After any reports a call has a row if and only if a report of it was stored; the row holds the last stored report at its right price, and the day of the first |
| Billing.EveryRowIsCharged | backend/internal/api/handlers_billing.go:71-98 | After any reports, each row is charged for its last stored report at the prices of the last entry of each component, in the terms of `ComponentPrice` |
| Billing.SummaryTotals | backend/internal/api/handlers_billing.go:127-135 | The loop adds up the three columns of the summary |
| Billing.SummaryOfRun | backend/internal/store/call_usage.go:129-171 | After any reports, for any tenant, window and grouping, the totals of the summary are the sums over exactly the tenant's rows of that window, each of them reported as above |
| Billing.GroupingDoesNotCount | backend/internal/store/call_usage.go:133-156 | Two summaries of the same window have the same totals, however they group the rows |
| Billing.AdjacentWindowsAddUp | backend/internal/store/call_usage.go:154 | Two windows side by side add up to the window over both |
| LeadImport.LeadStore.HandleImport | backend/internal/api/handlers_import.go:37-112 | Refused, with the leads unchanged, if the header is unreadable or lacks a name or phone column, or the phones cannot be loaded; otherwise the leads and the result are those of `AllLines` |
| LeadImport.IndexHeaders | backend/internal/api/handlers_import.go:132-141 | The last column with a header, compared trimmed and without letter case, is the one that counts |
| LeadImport.LastColumnIsLast | backend/internal/api/handlers_import.go:132-141 | The column of a key is the last one whose header is the key, trimmed and in lower case; none if there is none |
| LeadImport.LeadInFull | backend/internal/api/handlers_import.go:77-102 | The lead of a row, field by field: name, phone and email trimmed, the other three with their defaults where they are blank |
| LeadImport.LeadStore.LoadTenantPhones | backend/internal/api/handlers_import.go:120-130 | The set of the tenant's trimmed phones, if the database answers |
| LeadImport.ImportCounts | backend/internal/api/handlers_import.go:52-112 | Created, skipped and invalid add up to the lines read, at most 20 errors are reported, old leads stay, and every new lead has a name and a trimmed phone that no lead before it has |
| LeadImport.LineInFull | backend/internal/api/handlers_import.go:77-111 | Which of the three counters a line adds to, and exactly when it adds a lead |
| LeadImport.FirstErrorsAreReported | backend/internal/api/handlers_import.go:60-109 | The reported errors are the first 20 of all, each with the number of its line in the file |
| LeadImport.DoNotCallIsExact | backend/internal/api/handlers_import.go:87-91 | No import creates a lead for a phone on the do-not-call list if and only if no lookup fails on a line whose lead can be created |
| LeadImport.ImportTwiceIsImportOnce | backend/internal/api/handlers_import.go:83-111 | When every lead could be stored, importing the same file again creates nothing and leaves the leads alone |
| Retention.Store.Tick | backend/internal/worker/retention.go:51-78 | A pass marks exactly the listed rows nothing went wrong with, removes exactly the objects that could be removed, and counts the rows it marked |
| Retention.PassIsCareful | backend/internal/worker/retention.go:61-74 | A pass touches only rows that are due and live; with storage on, a row is marked only after its object is gone; only objects of due rows go |
| Retention.SparesOthersIffKeysApart | backend/internal/worker/retention.go:61-70 | Passes of any size at any time spare the objects of all live rows outside their batches if and only if no live row with a due date shares its key with another live row |
| Retention.SameSecondUploads | backend/internal/api/handlers_recording.go:65-68 | Two uploads of a call within a second, and so with one key: the pass for the first takes the object of the second, which is still the one to play |
| Retention.Limit | backend/internal/store/call_recordings.go:193-196 | The batch size asked for counts if and only if it is 1 to 500; otherwise it is 100 |
| Retention.BacklogClears | backend/internal/worker/retention.go:27-49 | If only the rows of a set can fail, k passes clear any backlog of up to k * (limit - size of the set) other rows, whatever is uploaded or deleted in between; without failures ceil(n / limit) passes clear n rows |
| Retention.ClearsUpIffRoomInBatch | backend/internal/worker/retention.go:9-49 | For every set of rows and every time, enough passes that can fail only on `stuck` clear all other rows if and only if fewer rows are stuck than a batch holds |
| Retention.StuckBatchStarvesTheRest | backend/internal/store/call_recordings.go:197-206 | While as many rows as a batch holds fail, all due before every other row, whatever the query lists consists of them, and the pass changes nothing |
| Retention.Store.CreateCallRecording | backend/internal/store/call_recordings.go:18-61 | Archives the call's available live recordings and inserts the new one, or changes nothing |
| Retention.UploadInFull | backend/internal/store/call_recordings.go:28-61 | The new row is live and due the given number of days later, or never; exactly the live available rows of its call are archived, and nothing else changes |
| Retention.Store.SoftDelete | backend/internal/store/call_recordings.go:172-188 | Marks a live row of the tenant, or changes nothing |
| Retention.DeletionInFull | backend/internal/store/call_recordings.go:176-188 | Exactly a live row of the tenant is marked, and nothing else changes |
| Retention.EveryRunHasOneAvailable | backend/internal/store/call_recordings.go:28-36 | However uploads, deletions and passes follow each other, a call has at most one live available recording |

## Left out

- Text is bytes, with one character per byte, and only ASCII white space and letter case; a hard cut may split a UTF-8 character, as in the code.
- Integers are unbounded except in `Itoa`: durations, costs and token counts that overflow 64 bits are not modelled, nor is the truncation of weekdays to 16 bits.
- Time zones: the local weekday and minute of a rule's zone, and the current time everywhere, are inputs; so are generated ids.
- Each store call is one step. What two database transactions of the same store do to each other is not modelled.
- RateLimiter.Limiter.constructor: takes a positive rate and burst. Go divides by the rate, so it may not be zero, and a burst below one never refuses a first request.
- RateLimiter: buckets are values in the map, where Go keeps pointers that nobody else holds.
- FreeSlots.SlotsAreExactlyTheGaps: asks that every busy interval starts before it ends, as the FreeBusy query answers.
- Trunks: the columns of the five tables that are the same for every trunk, and trunks that a foreign key protects from deletion.
- DidRouting: deleting a DID or a bot, with its foreign-key cascades. Moving a DID leaves its rules in place; they keep the tenant they were made for, and resolution skips them.
- DidRouting.Store.CreateDid: an empty id is refused, since the store generates one before the insert. Creating a bot is a function without a method, as its other columns do not matter here.
- Hub: the JSON encoding, pings and write timeouts; a writer that stops early simply takes no more steps. A broadcast is one step although writers may take messages during it, because each client's send is atomic and clients do not affect each other.
- Webhooks: signatures and bodies of requests, a delivery log that fails to be written, and the length of the retry delay; a retry may fire at any later step. A nil dispatcher, which ignores every event, is left out.
- SqlPatch.Builder.Add: bounds the fields of a patch by 1000, which no patch comes near, so that argument numbers fit 64 bits.
- SqlPatch: JSON encoding of list values, execution of the statements, and the lead count that AddLeadsToCampaign refreshes.
- Billing.AnalyticsAgreesWithList: asks that no call has a negative length, which `store.go:533-538` sees to when a call ends; `AgreesIffUnmixed` needs no such thing.
- Billing: the default price table and its environment overrides; a missing table of detailed rates is an empty one, which prices every component at 0.
- LeadImport: the CSV reader itself. A file is a finite list of lines, so a reader that repeats an error for ever is not modelled; neither is the audit entry.
- Retention: the ticker, the logging, and a listing that fails, after which the pass does nothing. In SparesOthersIffKeysApart and ClearsUpIffRoomInBatch the batch size is any number, of which the store allows 1 to 500.
- Billing.SummaryOfRun: the bucket of a row may be any function of it, campaign and day included; the join with the calls drops no row, since usage refers to them by a foreign key.
- HTTP handlers, sign-in, cryptography, telephony calls, the campaign dialer, the voice agent and the user interface.
