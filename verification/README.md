# GoKnut, modelled and verified in Dafny

GoKnut archives chat: an IRC client receives messages, a pipeline batches them, a processor turns
them into rows and announces each stored row, a server-sent-events handler passes the announcements on
to browsers, and a web view and a search page read the tables. This project models the parts of that
path where state and concurrency make it hard to see what is promised, and proves what they do promise.

## How the model is made

Where the source changes state step by step, the model has a class with the source's fields and
methods (`Pipeline`, `Processor`, `Client`, `SSEHandler`, `SSEClient`, `ChannelService`, `Database`,
`PaginationRequest`), and each method is proved against a function on values. Where several goroutines
share state, the model adds a step system on values: a step is one mutex-protected section or one channel
operation, and the theorems are about every list of enabled steps. Where the source is an expression
over strings, tables or numbers, the model is a function.

What the outside world does is a parameter: clock readings, random numbers, and whether a query, a
transaction, a dial or a send succeeds, and which changes of the tables other goroutines commit between two
statements of a batch. The server side of an IRC connection is the set of channels
joined there. A table is a map from identifiers to rows, with the counter that gives new identifiers.

| file | models |
|---|---|
| `GoBuiltins`, `GoStrings` | the functions of Go and its `strings` package in use |
| `IngestTypes` | the chat message and the announcement of a stored one |
| `LikePattern`, `FtsQuery`, `Highlight`, `HighlightDisplay` | the search text transformations |
| `IrcParser`, `IrcClient` | the PRIVMSG parser; join set, reconnect loops and backoff |
| `Pipeline` | the ingestion queue, batch and timer |
| `Schema` | tables, foreign keys and triggers |
| `ChannelNames` | the two ways channel names are normalized |
| `Processor`, `BatchStore`, `CacheSoundness` | the name caches and the batch store |
| `LiveSse`, `LiveDelivery`, `SseHandler` | live updates: steps, what clients are offered and receive, the handler |
| `Archive` | pipeline, processor and live updates together, from accepted message to announced event |
| `MessageQueries`, `ChannelView`, `ChannelHistory` | cursor queries, polling, turning back, the hand-over from view to polls |
| `Paging` | page requests, offsets, page counts and flags |
| `ChannelService` | the write-through channel cache beside the join set |

## What turned out not to hold

The model keeps the code as it is; each of these is a lemma about it, with the exact condition.

- Resuming a live stream. Requirement FR-002 of the live updates asks for a message list without gaps
  (specs/003-live-stream-updates/research.md:10 wants reconnecting clients to avoid them). The backfill is
  put into a 100-slot buffer nobody drains yet, so of a backlog of 100 to 499 messages at most the first 99
  arrive, and no fallback notice is sent
  (`BackfillDelivery`, `LateRowsAreLost`, `BacklogOfOneHundredLosesTheLast`). The notice for a longer
  backlog can be dropped by the same buffer (`LongBacklogFallsBack`, `CrowdedBufferLosesTheNotice`). The backfill also ignores the
  client's view (`OffersAreExact`, `BackfillIgnoresTheView`).
- Channel page. Rows inserted between the query for the recent messages and the query for the latest
  identifier are shown neither by the view nor by the polls
  (`ViewHandsOverIffNothingCameBetween`). When the second query fails, its error is dropped, and the polls
  answer the view again (`FailedLatestRepeatsTheView`, `FailedLatestRepeatsARow`): a row shown is answered again
  exactly if it lies above the cursor the polls start from and they have come to it
  (`ShownAgainIffAboveStart`).
- Cursor queries. They sort by time and cut by identifier, so a page is the next stretch of identifiers
  at every cursor if and only if times never go back (`PagesAreExactIffMonotone`,
  `BackPagesAreExactIffMonotone`); otherwise a poller can be answered a row twice (`PollingRepeatsARow`).
- Channels deleted under a batch. Nothing invalidates the processor's channel cache when a channel is
  deleted, and nothing keeps channels from being deleted between the lookups of a batch and its
  transaction. A batch fails, and with it the messages of all its channels, exactly if one of its messages is
  answered by an entry of a deleted channel that is cached and still fresh, or is carried for a channel that
  is deleted before the transaction (`BatchFailsIffStaleOrDeleted`, with `DeletedChannelSinksTheOther` and
  `DeletionMeanwhileSinksTheOther` for the two ways). All other batches are stored as they should be
  (`StoreBatchIsFilterMap`).
- Channel service. `Create` reads a new row again and fails if that read does, with the row in the table,
  out of the cache and not joined (`FailedRereadHidesTheChannel`; `StepKeepsCache` gives the condition for
  the cache). A failing delete has already left the channel on IRC
  (`FailedDeleteLeavesTheChannel`); a channel created while the connection is down is not joined when it
  is back (`CreatedWhileDownStaysOut`); `JoinSetStaysTrueIff` gives the condition for every operation, and
  `InitializeAgreesIff` for the start.
- Rejoining. A channel parted between the snapshot and its JOIN stays joined on the server
  (`PartDuringRejoinLeavesStray`, with `JoinedSetIsExact` and `NoPartAheadJoinsExactly` for the condition).
- Highlighting. A term can match inside an escaped character and break it
  (`AmpersandIsCut`, with `ShowsEveryTextIffNoCut` for the condition on a term and `ShowsTextIffAligned` for
  the condition on a term and a text).
- IRC text. Lines end at the first line feed and are trimmed before they are parsed, so a message arrives
  as it was sent exactly if it holds no line feed and does not end in white space
  (`DeliveredWithoutTrailingSpace`).
- Search operators. `AND`, `OR` and `NOT` in the input become prefix terms that FTS5 refuses
  (`AndIsReserved`, with `QueryReservedIff` for the condition).
- Normalizing a channel name is not idempotent (`NormalizesOnceIff`, `DoubleHashIsNotFixed`).
- Page offsets wrap around for far pages (`PageIsExactIffOffsetFits`, `FarPageShowsTheFirst`).
- Stopping. `Stop` leaves the queue as it is: what it holds is neither stored nor counted as dropped
  (`StopLeavesTheQueue`, `StopLosesAMessage`).

## Model

| member | source | states |
|---|---|---|
| LikePattern.PatternFindsSubstrings | internal/search/search_repository.go:822-834 | for every input, text and character equivalence, LIKE with escape `\` accepts the pattern exactly if the trimmed input occurs in the text; a blank input matches every text |
| LikePattern.ReplacementsAreOnePass | internal/search/search_repository.go:828-831 | the three successive replacements escape each special character once, as one pass would |
| FtsQuery.SanitizeFTSWord | internal/search/search_repository.go:815-819 | exactly the letters and digits of a word are left |
| FtsQuery.SanitizeIsByChar | internal/search/search_repository.go:815-819 | sanitizing goes character by character and leaves exactly `a`-`z`, `A`-`Z` and `0`-`9`, in order |
| GoStrings.FieldsSplitAtSpace | internal/search/search_repository.go:781 | the fields on both sides of a white space are found separately |
| GoStrings.SpacesAreCut | internal/search/search_repository.go:758-781 | exactly the white space of Unicode is cut and separates fields |
| FtsQuery.AppendWords | internal/search/search_repository.go:781-786 | the words of a segment become prefix terms in order, those that sanitize to nothing disappear |
| FtsQuery.AddSegment | internal/search/search_repository.go:797-809 | a segment adds a phrase or its words, as it stands inside or outside quotes; an empty one adds nothing |
| FtsQuery.ScanParts | internal/search/search_repository.go:764-809 | the character loop yields the rendered tokens of the text split at its quotes, closing an open quote at the end |
| FtsQuery.BuildFTSQuery | internal/search/search_repository.go:757-812 | the query is the tokens of the trimmed input, rendered and separated by single spaces |
| FtsQuery.LexReadsRendered | internal/search/search_repository.go:757-812 | an independent lexer reads every rendered list of well-formed tokens back |
| FtsQuery.LexIsSound | internal/search/search_repository.go:757-812 | and accepts nothing else: what it reads, rendered again, is the string it read |
| FtsQuery.QueryLexes | internal/search/search_repository.go:757-812 | every query built, from any input, lexes into quote-free phrases and alphanumeric prefix terms |
| FtsQuery.FixpointsAreNormalForms | internal/search/search_repository.go:757-812 | building leaves a string unchanged exactly if the lexer accepts it |
| FtsQuery.BuildIsIdempotent | internal/search/search_repository.go:757-812 | building a query from a built query changes nothing |
| FtsQuery.QueryReservedIff | internal/search/search_repository.go:781-819 | a built query holds an operator of FTS5 as a search word exactly if some field outside quotes is left with one |
| FtsQuery.AndIsReserved | internal/search/search_repository.go:781-819 | `AND` is such an input |
| Highlight.StretchesAreCorrect | internal/search/search_repository.go:846-848 | the replacement marks leftmost matches, one after the other, and nothing between them matches |
| Highlight.CorrectStretchesAreUnique | internal/search/search_repository.go:846-848 | no other choice of marks is correct in that sense |
| Highlight.NoMatchInUnmarked | internal/search/search_repository.go:846-848 | no unmarked stretch contains a match |
| Highlight.MarksAreReadBack | internal/search/search_repository.go:842-848 | marks alternate and never nest: they are read back from the output |
| Highlight.HighlightIsExact | internal/search/search_repository.go:837-849 | the output, read back, has the escaped text as its body and correct marks |
| Highlight.UnescapeEscaped | internal/search/search_repository.go:839-844 | escaping is undone by any decoder that knows the five references |
| Highlight.HighlightKeepsText | internal/search/search_repository.go:837-849 | deleting the marks gives the escaped text, and that unescapes to the text |
| HighlightDisplay.ShowsEveryTextIffNoCut | internal/search/search_repository.go:842-848 | highlighted texts are displayed unchanged, for all texts, exactly if the escaped term cannot match from inside a character reference |
| HighlightDisplay.ShowsTextIffAligned | internal/search/search_repository.go:842-848 | one text is displayed unchanged exactly if every mark begins and ends at a character of it, not inside a reference; otherwise more is displayed than it holds |
| HighlightDisplay.AmpersandIsCut | internal/search/search_repository.go:842-848 | the term `amp` can, and then some text is not displayed as it is |
| HighlightDisplay.CapitalIsMarked | internal/search/search_repository.go:837-849 | the marks as they are written, around a match in other case |
| IrcParser.ParseMessage | internal/irc/client.go:337-391 | the step-by-step parser equals its specification on every line, without an access out of range |
| IrcParser.BodyIsFourWords | internal/irc/client.go:365-388 | a line without its tags is refused exactly if it holds fewer than three spaces; any other says what its four words say: a sender with `:`, a channel with `#`, a text with or without `:` |
| IrcParser.ParseInvertsPrint | internal/irc/client.go:337-391 | a printed PRIVMSG line, with tags as in IRCv3 over section 2.3.1 of RFC 1459, is read back: names in lower case, exact text, tags |
| IrcParser.TagsAreReadLastWins | internal/irc/client.go:349-357 | of several tags with one key the last counts, and values may hold `=` |
| IrcParser.DeliveredWithoutTrailingSpace | internal/irc/client.go:298-335 | on the read path the text arrives cut at its first line feed and without trailing white space, hence unchanged exactly if it holds no line feed and does not end in white space |
| IrcParser.OnlyPrivmsgIsDelivered | internal/irc/client.go:298-335 | exactly the complete lines that are no PING and hold the word PRIVMSG go to the parser, trimmed |
| IrcClient.RejoinCoversWanted | internal/irc/client.go:446-471 | over every interleaving of joins, parts, drops and reconnect loops, a rejoin loop that ends on its connection leaves every wanted channel joined |
| IrcClient.CoverPersists | internal/irc/client.go:198-247 | and that lasts, through joins and parts and other loops, while the connection lives |
| IrcClient.JoinedSetIsExact | internal/irc/client.go:446-471 | what the server holds besides is exactly the channels parted ahead of their JOIN and not joined again |
| IrcClient.NewConnectionIsClean | internal/irc/client.go:112-167 | a fresh connection starts with nothing stray |
| IrcClient.NoPartAheadNoStrays | internal/irc/client.go:453-465 | nothing is stray if no channel is parted while a rejoin loop has its JOIN ahead, other parts coming at any time |
| IrcClient.NoPartAheadJoinsExactly | internal/irc/client.go:446-471 | and then, at the end of the rejoin, the joined set equals the wanted one |
| IrcClient.PartDuringRejoinLeavesStray | internal/irc/client.go:224-247 | a concrete run in which a part during the rejoin leaves the channel joined |
| IrcClient.BackoffDoubles | internal/irc/client.go:446-449 | the closed form min(2^k, 30) seconds follows the doubling with its cap |
| IrcClient.BackoffSaturates | internal/irc/client.go:24-29 | the first delay is a second; from the fifth failure on it is 30 seconds |
| IrcClient.Jitter | internal/irc/client.go:430-435 | the jitter is within 20 per cent of the delay, so the sleep is never negative |
| IrcClient.JitterSpreads | internal/irc/client.go:430-432 | the jitter grows with the random number, from a fifth of the delay less over none to more |
| IrcClient.Client.constructor | internal/irc/client.go:90-108 | a new client wants nothing, is not connected, and starts at the initial delay |
| IrcClient.Client.Connect | internal/irc/client.go:112-167 | connecting does nothing on a live connection; a new one starts unjoined and resets the delay; a failed one changes nothing |
| IrcClient.Client.Join | internal/irc/client.go:198-221 | joining adds the normalized channel to the wanted set and, connected, to the server's; a failed send changes nothing |
| IrcClient.Client.Part | internal/irc/client.go:224-247 | parting is the mirror image |
| IrcClient.Client.HandleDisconnect | internal/irc/client.go:393-403 | a lost connection keeps the wanted set and forgets the joined one |
| IrcClient.Client.Rejoin | internal/irc/client.go:453-465 | the loop joins exactly the channels of its snapshot |
| IrcClient.Client.Redial | internal/irc/client.go:405-451 | for any number of attempts, attempt k sleeps within 20 per cent of min(2^k, 30) seconds, and the loop ends with the first dial that succeeds |
| Pipeline.ConservationAndOrder | internal/ingestion/pipeline.go:128-232 | over every interleaving, the accepted messages in order are those handed to the store, those in flight, the batch and the queue; batches hold 1 to the batch size; drops are refusals plus failed batches |
| Pipeline.StopLeavesTheQueue | internal/ingestion/pipeline.go:128-144 | after Stop the accepted messages are the delivered ones followed by exactly the queue |
| Pipeline.StopLosesAMessage | internal/ingestion/pipeline.go:128-144 | a run in which a message is accepted and, when `Stop` has returned, neither handed to the store nor counted as dropped |
| Pipeline.FlushDeadline | internal/ingestion/pipeline.go:167-247 | whenever the consumer waits its batch is not full, the timer is armed or has ticked, and ticks at most the timeout after the first message of the batch |
| Pipeline.TimerWaitsInFull | internal/ingestion/pipeline.go:167-247 | over every run the timer goes off exactly the timeout after the start or reset that armed it last; no tick is received and no batch below the batch size handed over by the consumer before |
| Pipeline.OverdueBatchIsFlushed | internal/ingestion/pipeline.go:178-180 | a waiting consumer with an overdue batch takes it when it serves the tick |
| Pipeline.Pipeline.constructor | internal/ingestion/pipeline.go:89-108 | a new pipeline has its configuration corrected and is in the initial state |
| Pipeline.Pipeline.Start | internal/ingestion/pipeline.go:111-125 | starting arms the timer and the consumer, a second start does nothing |
| Pipeline.Pipeline.Ingest | internal/ingestion/pipeline.go:147-165 | a message is queued, or refused and counted when the buffer is full |
| Pipeline.Pipeline.AddToBatch | internal/ingestion/pipeline.go:185-195 | a message is appended, and a full batch flushed with the timer reset |
| Pipeline.Pipeline.Flush | internal/ingestion/pipeline.go:197-232 | a nonempty batch is taken and handed over once; a failure counts all its messages as dropped |
| Pipeline.Pipeline.ResetTimer | internal/ingestion/pipeline.go:234-247 | a pending tick is drained and the timer armed for the full timeout |
| Pipeline.Pipeline.Select | internal/ingestion/pipeline.go:170-182 | one turn of the select serves a message or a tick, as steps of the system |
| Pipeline.Pipeline.ProcessLoop | internal/ingestion/pipeline.go:167-183 | the loop stays within the runs of the step system for any schedule of arrivals, ticks and store results |
| Pipeline.Pipeline.Stop | internal/ingestion/pipeline.go:128-144 | the first stop ends the consumer and flushes the batch once, as steps of the system; other stops do nothing |
| Schema.InsertAllIsExact | internal/repository/message_repository.go:95-165 | a batch insert succeeds exactly if no row has a dangling key, and then adds exactly the rows, in order, under consecutive new identifiers |
| Schema.DerivedDataAgrees | internal/repository/migrations/001_init.sql:42-88 | in every reachable database channel counts equal the rows, user counts the rows ever committed, the times are those of the last such row, and the full-text index maps exactly the live messages to their texts |
| Schema.Database.CreateChannel | internal/repository/channel_repository.go:120-150 | a taken name, in any case, leaves the table as it was; otherwise the row is added under the next identifier, also when reading it again fails and the caller gets an error |
| Schema.Database.UpdateChannel | internal/repository/channel_repository.go:153-183 | an update changes display name and flags of that row only |
| Schema.Database.CreateUser | internal/repository/message_repository.go:499-535 | the same for users |
| Schema.Database.Insert | internal/repository/migrations/001_init.sql:60-88 | one insert and its triggers: row, index entry and both counters |
| Schema.Database.InsertRows | internal/repository/message_repository.go:121-161 | the statements of a batch run up to the first failure; the identifiers given are consecutive |
| Schema.Database.CreateBatch | internal/repository/message_repository.go:95-165 | one transaction: all rows, or the database as it was |
| Schema.Database.DeleteMessagesOf | internal/repository/channel_repository.go:189-194 | deleting a channel's messages one by one removes exactly these and their index entries |
| Schema.Database.DeleteChannel | internal/repository/channel_repository.go:186-203 | deleting a channel removes it and its messages whether or not these were deleted first |
| ChannelNames.NormalizesOnceIff | internal/services/channel_service.go:265-269 | normalizing twice equals normalizing once exactly if no further `#` or space is uncovered |
| ChannelNames.NamesAreCleaned | internal/services/channel_service.go:265-269 | a name is taken in lower case, without the white space around it and its `#`; the IRC client puts the `#` back |
| ChannelNames.DoubleHashIsNotFixed | internal/services/channel_service.go:265-269 | `##a` is a name for which it does not |
| ChannelNames.NormalizedIsPlain | internal/irc/client.go:474-480 | the IRC client's own normalization leaves `#` and a normalized name unchanged |
| Processor.GetOrCreate | internal/repository/message_repository.go:538-566 | whatever the path, the user found or created is the one the table holds for the name afterwards |
| Processor.UserIsFoundOrMade | internal/repository/message_repository.go:538-566 | a user that is there keeps identifier and counts and gets the display name given unless it is empty, a new one is made as asked for, and no other user changes |
| Processor.UsernamesAreCleaned | internal/ingestion/processor.go:350-353 | a user name is taken in lower case, without the white space around it |
| Processor.LookupsAreCached | internal/ingestion/processor.go:247-299 | an entry younger than the time to live answers and stays as it is; otherwise the tables do, and what is found is cached with the time of the lookup |
| Processor.Processor.constructor | internal/ingestion/processor.go:66-91 | a time to live that is not positive is replaced by the default; caches start empty |
| Processor.Processor.GetChannelID | internal/ingestion/processor.go:247-273 | fresh entry, query, miss and failure, with the cache written on success only |
| Processor.Processor.GetOrCreateUserID | internal/ingestion/processor.go:276-299 | the same for users, creating a missing one |
| Processor.Processor.ClearCaches | internal/ingestion/processor.go:302-310 | both caches are empty |
| Processor.Processor.InvalidateChannelCache | internal/ingestion/processor.go:313-317 | exactly the normalized name goes |
| Processor.Processor.EvictExpiredEntries | internal/ingestion/processor.go:321-341 | exactly the fresh entries stay |
| Processor.EvictFrom | internal/ingestion/processor.go:326-330 | the deleting loop over one cache keeps exactly its fresh entries |
| Processor.Processor.Resolve | internal/ingestion/processor.go:123-176 | the body of the filter loop for one message |
| Processor.Processor.CollectRows | internal/ingestion/processor.go:122-177 | the loop fills two slices that stay aligned index by index |
| Processor.StoredMessages | internal/ingestion/processor.go:216-228 | putting the slices together again pairs each row with its own names and identifier |
| Processor.Processor.StoreBatch | internal/ingestion/processor.go:105-244 | the loop, the insert and the callbacks do what the specification of a stored batch says: kept rows whole and announced in order after the commit, or no row and no announcement |
| BatchStore.StoreBatchIsFilterMap | internal/ingestion/processor.go:105-244 | whenever a batch is stored, with any sound caches and any changes of the tables between its statements, the rows are, in order, exactly the messages with a user name, no lookup error and a channel known to the tables they find, whole and under consecutive new identifiers |
| BatchStore.FailureIsReported | internal/ingestion/processor.go:179-192 | a store is answered with an error exactly if there was something to insert and statement or commit failed; then nothing is announced and nothing of the batch is in the tables |
| BatchStore.AnnouncementsTellOfRows | internal/ingestion/processor.go:213-240 | every row a stored batch adds is announced once, in order, and every announcement agrees with the row stored under its identifier and carries the identifiers the table holds for its channel and user names |
| BatchStore.StoreBatchAfterAnyRun | internal/ingestion/processor.go:105-341 | and so it is after every run of lookups, evictions and table changes |
| BatchStore.TrueCachesStoreEveryBatch | internal/ingestion/processor.go:105-244 | with no deleted channel in the cache, and none deleted while the batch is on its way, every batch is stored so |
| BatchStore.BatchFailsIffGone | internal/ingestion/processor.go:183-192 | the insert fails exactly if a message is carried to it for a channel that is gone by then |
| BatchStore.BatchFailsIffStaleOrDeleted | internal/ingestion/processor.go:247-273 | and that happens in two ways only: by an entry of a deleted channel that is cached as the batch begins and still fresh when its message is reached, or by a deletion while the batch is on its way |
| BatchStore.BatchFailsIffStale | internal/ingestion/processor.go:247-273 | without such a deletion the first way is the only one, and can be told before the batch |
| BatchStore.DeletedChannelSinksTheOther | internal/ingestion/processor.go:184-192 | a run after which a message for a deleted channel takes the message for a live one with it |
| BatchStore.DeletionMeanwhileSinksTheOther | internal/ingestion/processor.go:184-192 | with empty caches, a deletion between lookups and insert does the same |
| CacheSoundness.CachesStaySound | internal/ingestion/processor.go:247-341 | over any run of lookups, evictions and table changes a cached channel identifier names that channel or none, a cached user identifier that user |
| CacheSoundness.FoundWasHeldWithinTTL | internal/ingestion/processor.go:247-299 | a lookup answers an identifier the table held for the name within the time to live |
| CacheSoundness.HistoriesStayDated | internal/ingestion/processor.go:247-341 | every run under a monotone clock keeps the dating this rests on |
| CacheSoundness.EvictionChangesNoAnswer | internal/ingestion/processor.go:321-341 | an eviction changes the answer of no later lookup, on any later run |
| LiveSse.RunKeepsInv | internal/http/handlers/live_sse.go:176-476 | every step of every run keeps the invariant of a connection |
| SseHandler.ViewIsWhatWasAsked | internal/http/handlers/live_sse.go:183-214 | the query parameters accepted, and for each the broadcasts and the initial data it selects |
| LiveDelivery.OffersAreExact | internal/http/handlers/live_sse.go:376-476 | how often each stored message has been offered to each connection: once by the backfill, whatever the view, and once by a matching broadcast after the registration, each under its exact condition |
| LiveDelivery.BroadcastsAreExact | internal/http/handlers/live_sse.go:376-412 | by broadcasts a stored message is offered exactly once if broadcast after the registration and the view matches, and never otherwise |
| LiveDelivery.ResumeIsGapFree | internal/http/handlers/live_sse.go:225-253 | a resumed client is offered every matching broadcast message above its cursor unless it was broadcast before the registration and the query did not answer for it; twice exactly if stored before the query and broadcast after the registration |
| LiveDelivery.LongBacklogFallsBack | internal/http/handlers/live_sse.go:451-462 | the fallback takes the place of the rows exactly if the backlog reached the limit, and reaches the client exactly if it is among the first hundred events |
| LiveDelivery.DeliveryIsAccounted | internal/http/handlers/live_sse.go:301-307 | bytes written followed by the buffer are, in order, the accepted events; the broadcasts offered are the matching messages since the registration |
| LiveDelivery.BackfillDelivery | internal/http/handlers/live_sse.go:415-476 | a backfill row reaches the client exactly if, with the broadcasts in between, it is among the first hundred events |
| LiveDelivery.LateRowsAreLost | internal/http/handlers/live_sse.go:426-441 | a row beyond the first 99, broadcast before the registration, is never written nor buffered |
| LiveDelivery.QuietBackfill | internal/http/handlers/live_sse.go:465-468 | with no broadcast before the event loop the client receives exactly the first 99 rows at most, increasing and above its cursor |
| SseHandler.SSEClient.SendEvent | internal/http/handlers/live_sse.go:415-442 | an event is appended, or dropped exactly when the buffer holds 100 |
| SseHandler.SSEClient.WriteNext | internal/http/handlers/live_sse.go:301-307 | the event loop moves one event from the buffer to the response, in order |
| SseHandler.SSEClient.SendLoop | internal/http/handlers/live_sse.go:465-468 | a sending loop takes the send steps of the system to their end |
| SseHandler.SSEClient.SendBackfill | internal/http/handlers/live_sse.go:445-476 | query failure, long backlog and rows lead to nothing, the fallback status and the rows |
| SseHandler.SSEClient.Stream | internal/http/handlers/live_sse.go:244-258 | status, backfill and initial data, as steps of the system |
| SseHandler.SSEClient.Notify | internal/http/handlers/live_sse.go:395-410 | what a broadcast does to one client, by its view |
| SseHandler.SSEHandler.RegisterClient | internal/http/handlers/live_sse.go:321-325 | registering adds the client and touches no other |
| SseHandler.SSEHandler.UnregisterClient | internal/http/handlers/live_sse.go:328-333 | unregistering removes it and closes it |
| SseHandler.SSEHandler.BroadcastMessage | internal/http/handlers/live_sse.go:376-412 | every registered client takes the broadcast step of the system once |
| SseHandler.SSEHandler.HandleSSE | internal/http/handlers/live_sse.go:176-258 | a request with a bad view or without its user is refused and registers nobody; any other is registered, sent status, backfill and the initial data of its view, and from then on offered exactly the broadcasts it asked for |
| SseHandler.InitialSubjects | internal/http/handlers/live_sse.go:479-556 | the channels view gets the whole channel list, a profile view its profile if there is one, messages and users nothing |
| SseHandler.HandlerIsARun | internal/http/handlers/live_sse.go:225-258 | the undisturbed handler is a run of the step system |
| SseHandler.BacklogOfOneHundredLosesTheLast | internal/http/handlers/live_sse.go:445-476 | a run from the start in which a client resumes behind 100 messages and never gets the last |
| SseHandler.BackfillIgnoresTheView | internal/http/handlers/live_sse.go:450-468 | a run in which a client that follows one channel is offered a message of another by the backfill |
| SseHandler.CrowdedBufferLosesTheNotice | internal/http/handlers/live_sse.go:451-462 | a run from the start in which 99 broadcasts fill the buffer, so that a client behind a long backlog gets neither rows nor notice |
| Archive.AnnouncedIsOwed | internal/ingestion/processor.go:105-244 | over any number of batches, with failures, and table changes between and during them, the announcements are in order the wanted messages of the stored batches |
| Archive.AnnouncedIsSorted | internal/ingestion/processor.go:214-235 | and their identifiers strictly increase |
| Archive.AnnouncementsAreALiveLog | cmd/server/main.go:242-246 | so they form a log the live updates can take, call by call |
| Archive.AnnouncementsStayFiled | internal/ingestion/processor.go:213-240 | over any number of batches and changes each announcement made agrees with the row stored under its identifier as long as that is there, and with the names of its channel and its user |
| Archive.EveryEventIsAnAcceptedMessage | internal/ingestion/pipeline.go:197-232 | over every run of the pipeline, also while a batch is in the store's hands, the events announced tell, in order and none twice, of accepted messages, each of a stored batch, and agree with the rows stored for them |
| Archive.StoredMessageIsBroadcastOnce | cmd/server/main.go:242-246 | from end to end: of the accepted messages that were stored each is broadcast to a client exactly once if the client registered before its turn and asks for it, and never otherwise |
| MessageQueries.SortIsOrdered | internal/repository/message_repository.go:298 | the model of ORDER BY arranges exactly the rows, by time and then identifier |
| MessageQueries.OrderIsUnique | internal/repository/message_repository.go:298 | and there is only one such arrangement |
| MessageQueries.QueriesAreFull | internal/repository/message_repository.go:255-308 | each query answers as many of the rows it selects as its limit allows, by default 50 or 20, at most 100 |
| MessageQueries.SelectedByCursor | internal/repository/message_repository.go:255-308 | which rows are above or below the cursor |
| MessageQueries.AfterPage | internal/repository/message_repository.go:283-308 | on monotone rows the query after a cursor answers the next rows, up to the clamped limit |
| MessageQueries.BeforePage | internal/repository/message_repository.go:255-280 | and the query before a cursor the rows below it, downwards |
| MessageQueries.PagesAreExactIffMonotone | internal/repository/message_repository.go:283-308 | all pages are stretches of identifiers if and only if times never go back, at any limit |
| MessageQueries.BackPagesAreExactIffMonotone | internal/repository/message_repository.go:255-280 | and so are all pages before a cursor |
| ChannelView.MessagesToDTOs | internal/http/handlers/channel_view.go:307-322 | the conversion loop keeps content and order |
| ChannelView.ReverseForDisplay | internal/http/handlers/channel_view.go:87-90 | the items are reversed in place |
| ChannelView.HandleChannelView | internal/http/handlers/channel_view.go:72-98 | the view shows the recent rows oldest first, with the latest identifier of the second query, or 0 when that query fails |
| ChannelView.HandleMessageStream | internal/http/handlers/channel_view.go:236-253 | a poll answers the page after its cursor, and the identifier of its last row, or the cursor back |
| ChannelView.PollingIsExact | internal/http/handlers/channel_view.go:236-253 | for any interleaving of inserts and polls the answers joined are a prefix of the rows after the start, those up to the cursor, each once |
| ChannelView.PollsReachTheEnd | internal/http/handlers/channel_view.go:236-253 | without inserts enough polls answer all of them |
| ChannelView.PollingRepeatsARow | internal/repository/message_repository.go:297-299 | with a time that goes back a row is answered twice |
| ChannelHistory.TurningBackIsExact | internal/http/handlers/channel_view.go:140-147 | for any inserts and page sizes the pages joined are an unbroken stretch downwards that passes over no row there at first |
| ChannelHistory.TurningBackReachesTheFirst | internal/http/handlers/channel_view.go:134-147 | pages with enough room, sizes out of range counting as 20, answer all rows below the start, downwards |
| ChannelHistory.ViewHandsOverIffNothingCameBetween | internal/http/handlers/channel_view.go:72-81 | view and polls together miss nothing from the oldest row shown on if and only if no row was inserted between the view's two queries |
| ChannelHistory.ShownAgainIffAboveStart | internal/http/handlers/channel_view.go:72-81 | whatever cursor the polls start from, a row of the view is answered again if and only if it is above that cursor and at most the one reached |
| ChannelHistory.GoodLatestRepeatsNothing | internal/http/handlers/channel_view.go:80-81 | with the latest identifier as start no row of the view is answered again |
| ChannelHistory.FailedLatestRepeatsTheView | internal/http/handlers/channel_view.go:80-81 | after a failed query for the latest identifier nothing is missing, but exactly the rows shown that the polls have come to are answered again |
| ChannelHistory.FailedLatestRepeatsARow | internal/http/handlers/channel_view.go:80-81 | a channel of one row, shown by the view and answered again by the first poll |
| Paging.Wrap | internal/http/dto/dto.go:146-148 | results that fit a 64-bit integer are unchanged, all others wrap into its range |
| Paging.PaginationRequest.Validate | internal/http/dto/dto.go:131-143 | sizes 0 to 100 are accepted, 0 meaning 20, pages below 1 become 1, and an accepted request is one the query methods' own clamps leave alone |
| Paging.ListUsers | internal/services/search_service.go:135-164 | an accepted request is answered with its page, a refused one with an error |
| Paging.ListMessages | internal/services/search_service.go:370-396 | bad pages and sizes are corrected silently, then the page is answered |
| Paging.PagesPartition | internal/services/search_service.go:145-164 | pages 1 to the total joined are all rows in order; all but the last are full and the last is not empty |
| Paging.FlagsAreExact | internal/services/search_service.go:151-164 | HasNext holds exactly if rows follow, so it is false exactly from the last page on; HasPrev exactly off the first page |
| Paging.PageIsExactIffOffsetFits | internal/search/search_repository.go:195-238 | a page is the stretch its number stands for if and only if the offset fits, or wraps beyond the rows |
| Paging.FarPageShowsTheFirst | internal/http/dto/dto.go:146-148 | page 2^62 + 1 of size 4 shows the first page |
| ChannelService.InvIsSound | internal/repository/migrations/001_init.sql:6-16 | every reachable database whose channel names are plain meets what the service's theorems ask of the table |
| ChannelService.StepKeepsCache | internal/services/channel_service.go:101-237 | whatever fails, every cached channel is in the table as cached; and the cache stays full if and only if no channel is inserted whose row is then not read again |
| ChannelService.CreateAdds | internal/services/channel_service.go:101-148 | what a create is answered, and the channel it adds to table and cache: name, display name, both flags as asked for, under a new identifier, and nothing else changed |
| ChannelService.UpdateApplies | internal/services/channel_service.go:151-204 | what an update is answered; row and cache entry hold each field given, keep the others, and nothing else changes |
| ChannelService.DeleteRemoves | internal/services/channel_service.go:207-237 | what a delete is answered; the channel, its cache entry and its messages go, and nothing else |
| ChannelService.GetByNameIsDirect | internal/services/channel_service.go:240-251 | a lookup through the cache answers what a lookup in the table would, and fails exactly if it needs the table and cannot read it |
| ChannelService.JoinSetStaysTrueIff | internal/services/channel_service.go:138-233 | an operation leaves the join set equal to the enabled channels if and only if its change of them and its message to the server both happen or both do not |
| ChannelService.InitializeAgreesIff | internal/services/channel_service.go:57-81 | on a live connection initializing caches the whole table and joins the enabled channels whose JOIN can be sent; cache, table and join set agree if and only if none of these fails |
| ChannelService.InitializeAgrees | internal/services/channel_service.go:57-81 | in particular they do when nothing fails |
| ChannelService.ServiceAgrees | internal/services/channel_service.go:57-251 | after Initialize, over every run without failures, lookups by name equal direct ones and the server has joined exactly the enabled channels |
| ChannelService.FailedRereadHidesTheChannel | internal/repository/channel_repository.go:139-143 | an enabled channel whose new row cannot be read again is in the table, not cached and not joined |
| ChannelService.FailedDeleteLeavesTheChannel | internal/services/channel_service.go:216-227 | a delete failing in the database has left the channel on IRC |
| ChannelService.CreatedWhileDownStaysOut | internal/services/channel_service.go:138-145 | a channel created while the connection is down is not joined when it is back |
| ChannelService.ChannelService.Initialize | internal/services/channel_service.go:57-81 | the loop caches every listed channel and joins the enabled ones |
| ChannelService.ChannelService.Create | internal/services/channel_service.go:101-148 | bad name, taken name, failures before and after the insert, and success, with what each changes |
| ChannelService.ChannelService.Update | internal/services/channel_service.go:151-204 | given fields change, the cache follows, and switching joins or parts |
| ChannelService.ChannelService.Follow | internal/services/channel_service.go:184-201 | join or part as the channel was switched, while connected |
| ChannelService.ChannelService.Delete | internal/services/channel_service.go:207-237 | the part goes first, then the row, then the cache entry |
| ChannelService.ChannelService.GetByName | internal/services/channel_service.go:240-251 | the cache answers first, then the table |

## Left out

- Upper and lower case: only ASCII letters change case; full Unicode folding and invalid UTF-8 are not modelled.
- HTML references without a closing semicolon: the display theorem decodes only complete references.
- The reply to a PING: nothing is delivered for one.
- Sockets, TLS, read deadlines, HTTP headers, JSON and template rendering: the bytes around the modelled values.
- `database/sql` and the SQL engine: the statements are modelled by what they select and change; time columns are compared as times.
- PostgreSQL: the schema, the placeholders and the triggers are those of SQLite, and so is the reading of a negative offset.
- `Stop` called while `Start` is between its unlock and its `go` statement: `Start` is one step.
- A pipeline restarted after `Stop`, and `Stop` called while the first call is still waiting.
- `Disconnect` racing with `Connect`, and the `reconnecting` flag, which nothing reads.
- Processor.Processor.GetOrCreateUserID: does not cover a user insert that is committed and then reported as an error by `LastInsertId`; a failing lookup leaves the tables as they were.
- Other writers of users or of the processor's caches: finding and creating a user is one step, and so are a lookup and its cache entry, since only the goroutine that stores batches makes them.
- The user update of `GetOrCreate` failing, which the source ignores: the model lets it succeed.
- The retain-history choice on delete: the schema deletes the messages anyway.
- `SearchMessages`: it returns the page length as the total, so no page theorem covers it.
- The user filter of `ListUsers`: the page theorems are about the rows it keeps; what a filter matches is in `LikePattern`.
- Display names in live events: a broadcast carries the message's own, a backfill the user's; the theorems identify messages by number and take the two as equal.
- Heartbeats and the write error that ends a live connection: neither changes what was delivered.
- Initial channel counts and profiles: only how many initial events there are, and where in the order.
- A missing IRC controller: the channel service is modelled with one.
- Profiles, organizations, events, collaborations, configuration, metrics and the dashboard: they would add only easy members.
- Time in live updates: a client that never drains its buffer is a run without its drain steps.
