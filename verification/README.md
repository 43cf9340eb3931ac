# Dafny model of libsession-ui-core's stateful core

The client spends most of its lines on FFI, HTTP and SQL. Eight pieces of it decide something by
themselves: they keep queues, cursors, caches and tables that must stay right under every
interleaving, or encode data that must come back. Each is modelled here and proved for all inputs,
all runs and all schedules.

- **Batching** (`Batcher`, `BatchRunner`, `BatchTransparency`, `JoinSet`): requests wait in a queue of
  batches by deadline, leave as one call and are answered by position. Conservation, queue order, and
  when batching cannot be told from sending each request alone.
- **Recovery phrases** (`HexText`, `WordText`, `ChainedTriples`, `Mnemonic`, `PhraseFormat`, `SeedPhrase`):
  chunk reversal, chained base-n triples, prefix lookup and a checksum word, in both directions.
- **Community sync** (`CommunityStore`, `CommunitySync`, `CommunityProgress`): two cursors over a
  room other people keep writing to, with failing transactions, restarts and the workers of other rooms
  in between.
- **Config push and dump** (`ConfigWrapper`, `ConfigSync`, `ConfigCalls`): a config behind a lock and two
  loops that can set each other off, at the granularity of lock, notification and request.
- **Shared retrieval** (`AsyncRetrieve`): a refreshed value with back-off, stale fallback and forced retry.
- **Group workers** (`GenericGroups`) and **tables** (`TableTracking`, `ConfigRows`): incremental updates
  against a simple map or set.
- **Framing and padding** (`ChunkedFrames`, `MessagePadding`): printers with inverses.

Code that changes state is a class or a method with its loops, proved equal to a specification
function over values; a run is a sequence of such steps, and the theorems are about runs. An event
that cannot happen where a run stands is passed over, so a statement about `Run(s, events)` for all
`events` covers every reachable state. Server, clock, lock and store are abstract: what they are
assumed to do is written in predicates (`HonestReply`, `Answers`, `CanMergeTo`), never in axioms.

Where the code does less than its callers may expect, the model keeps the code as it is, and the
condition under which it does meet the property is proved in both directions or with a witness:

- Storage nodes are batched by socket address alone: transparent exactly for servers whose answer does
  not depend on the node's key (`BatchTransparency.TransparentExactly`).
- An empty item in a chunked body is sent as the last-chunk, and no terminating chunk is ever sent
  (`ChunkedFrames.BodyIsUniquelyDecodable`).
- `decode` prints a triple's number with its last eight digits only: a phrase comes back exactly when
  every triple is below 2^32 (`Mnemonic.DecodeThenEncode`). The shipped English list needs all of its
  1626 words (`ChainedTriples.EnoughTriples`); its last word carries the file's newline, which the
  model's words may (`WordText.SplitOfJoin`).
- The community cursors in memory move before the transaction runs
  (`CommunitySync.FailedSaveGapExactly`), and a later commit makes the gap permanent, exactly for what
  was neither stored nor in that response (`CommunitySync.StoredGapExactly`,
  `CommunitySync.CommitAfterFailureLosesMessage`).
- Deleting marks every stored message with that server id, in whatever room
  (`CommunitySync.OtherRoomsUntouchedExactly`); edits never reach a stored message
  (`CommunitySync.StoredTextIsFinal`); polling catches up, and loading earlier messages reaches the
  first, exactly if no 256 posts in a row that do not decode hide a message
  (`CommunityProgress.PollingCatchesUpExactly`, `CommunityProgress.LoadingReachesAllExactly`).
- A push that keeps failing asks for itself again at once (`ConfigSync.FailingPushRepeats`), and one
  undisturbed push sends one notification more than the dump loop can miss
  (`ConfigSync.PushOverrunsDumpLoop`). What is merged before the dump loop has subscribed stays
  undumped until the next notification (`ConfigSync.LateSubscriberMissesChange`).
- A failed forced retry forgets the stale value (`AsyncRetrieve.ForcedRetryForgets`); a retrieval whose
  caller is dropped is a start the rate bound must allow for (`AsyncRetrieve.RetrievalsAreRare`).
- A group worker that ends is not started again, and never learns that its group changed
  (`GenericGroups.EndedWorkerStaysEnded`, `GenericGroups.SurvivesExactly`).
- A conversation id that does not parse puts a NULL into `NOT IN` and keeps every row of its type
  (`ConfigRows.InvalidIdKeepsItsType`).

## Model

| member | source | states |
|---|---|---|
| Batcher.BatchWithIsEquivalence | libsession-ui-core/src/batcher.rs:222-244 | Among requests that pass `can_batch`, batching together is reflexive, symmetric and transitive, for the community and the storage instance |
| Batcher.InsertKeepsOrder | libsession-ui-core/src/batcher.rs:160-174 | Insertion keeps deadlines non-decreasing and at most one batch a class, although the request is compared with batch heads only |
| Batcher.InsertKeepsGroups | libsession-ui-core/src/batcher.rs:160-174 | Every member of every batch can be batched with its head and is due within the window of its arrival |
| Batcher.InsertIsLastOfClass | libsession-ui-core/src/batcher.rs:160-174 | A new request queues behind every waiting request of its class and moves no other request |
| BatchRunner.PrepareBatch | libsession-ui-core/src/batcher.rs:176-196 | The loop keeps inputs and callbacks in one order and takes the arguments of the first request; whose server answers is stated by `AnswersComeFromOwnServer` |
| BatchRunner.DeliverReply | libsession-ui-core/src/batcher.rs:206-219 | The loop over reply and callbacks produces the outcomes that `DeliverAt` describes |
| BatchRunner.DeliverAt | libsession-ui-core/src/batcher.rs:206-219 | Caller k gets item k, the shared error, or a dropped channel when the reply is short, and no other caller's |
| BatchRunner.BatchRPCExecutorRunner.Execute | libsession-ui-core/src/batcher.rs:74-90 | Requests that cannot be batched are answered directly, others join the bounded channel: the submit step of the runs |
| BatchRunner.BatchRPCExecutorRunner.ReceiveNext | libsession-ui-core/src/batcher.rs:149-153 | Receiving puts the oldest request of the channel into the queue of batches: the receive step of the runs |
| BatchRunner.BatchRPCExecutorRunner.InsertToBatching | libsession-ui-core/src/batcher.rs:160-174 | The search for the first batch whose head takes the request leaves exactly the inserted queue |
| BatchRunner.BatchRPCExecutorRunner.FireNext | libsession-ui-core/src/batcher.rs:136-147 | The due front batch moves whole from the queue to the running set |
| BatchRunner.BatchRPCExecutorRunner.PollJoinSet | libsession-ui-core/src/batcher.rs:154-155 | At most one running batch completes a poll, and only its callers are answered |
| BatchRunner.DeadlineQueue | libsession-ui-core/src/batcher.rs:129-174 | In every reachable state: deadlines ordered, one batch a class, each request due within the window, and each class leaves in arrival order |
| BatchRunner.NoBatchLeavesEarly | libsession-ui-core/src/batcher.rs:136-147 | In every reachable state a batch that has been sent was held for the whole window of its first request |
| BatchRunner.RequestsAreConserved | libsession-ui-core/src/batcher.rs:129-219 | In every reachable state each admitted request is in the channel, one pending batch, one running batch or answered: one place, once |
| BatchRunner.OutcomesAreFinal | libsession-ui-core/src/batcher.rs:206-219 | A caller once answered is never answered again, whatever follows |
| BatchRunner.ProgressDescends | libsession-ui-core/src/batcher.rs:135-157 | Receiving, sending, completing and waiting for the front deadline all lower one measure of what is outstanding |
| BatchRunner.NotAtRest | libsession-ui-core/src/batcher.rs:135-157 | Short of rest something can go on: the queue never blocks |
| BatchRunner.EveryRequestIsAnswered | libsession-ui-core/src/batcher.rs:129-219 | From every reachable state, under every scheduler that lets time pass and calls complete, the queue runs empty and every admitted request has its outcome |
| BatchRunner.SameBatchExactly | libsession-ui-core/src/batcher.rs:160-174 | In every reachable state two waiting requests are in one batch if and only if they go to one place: same server key, identity and address, or storage nodes at one socket address |
| BatchRunner.OnlyBatchableRequestsWait | libsession-ui-core/src/batcher.rs:74-90 | In every reachable state an HTTP request marked otherwise, or a storage request without a node, is answered at once and is never received, in a batch or under way; any other is answered only by a batch it was sent in |
| BatchRunner.FirstComeFirstReceived | libsession-ui-core/src/batcher.rs:129-153 | From any state on, requests are received in the order they were submitted, and the channel holds the rest |
| BatchRunner.ReceivedOnTheClock | libsession-ui-core/src/batcher.rs:160-174 | What is received in any run is stamped with a time within that run, on a clock that runs with the ticks |
| BatchRunner.ChannelIsBounded | libsession-ui-core/src/batcher.rs:48-48 | At no time are more than ten requests in the channel |
| BatchRunner.ChannelFills | libsession-ui-core/src/batcher.rs:48-48 | Up to ten requests that may wait can be submitted before one is received |
| BatchTransparency.CommunityBatchingIsTransparent | libsession-ui-core/src/sogs_api/authenticated_executor.rs:27-31 | For any server, in every honest run of community requests each caller gets the answer to its own arguments and input, or, only where some call failed or fell short, that error or a dropped channel |
| BatchTransparency.AnswersComeFromOwnServer | libsession-ui-core/src/worker/community/sync_communities.rs:51-51 | In every honest run of community requests, or of any requests to servers blind to a node's key, a caller that asked an address for something, under its arguments, ends with what that server answers there to that body, or with an error some call failed with, or dropped by a short reply |
| BatchTransparency.EveryCallerGetsItsAnswer | libsession-ui-core/src/batcher.rs:74-90 | In every honest run without faults that has come to rest, every caller ever admitted has exactly the answer to its own request |
| BatchTransparency.DeliverIsRight | libsession-ui-core/src/batcher.rs:176-219 | Taking the arguments from the head and answering by position hands each caller of a one-class batch its own answer; an error only if the reply was that error |
| BatchTransparency.TwoKeysOneBatch | libsession-ui-core/src/network/mod.rs:147-158 | A run in which a request to a node under one key is answered under another key with the same address |
| BatchTransparency.TransparentExactly | libsession-ui-core/src/batcher.rs:236-244 | Batching is transparent in all honest runs, with any faults or none, if and only if a storage node's answer does not depend on its key |
| JoinSet.LocalJoinSet.Next | libsession-ui-core/src/utils/sync/join_set.rs:26-48 | One poll completes the first ready future, polls none behind it, and removes it by `swap_remove` |
| JoinSet.SwapRemoveTakesOne | libsession-ui-core/src/utils/sync/join_set.rs:38-44 | As a multiset the removal loses the completed future and nothing else |
| JoinSet.SwapRemoveMovesLast | libsession-ui-core/src/utils/sync/join_set.rs:38-44 | Every other future keeps its place, but for the last one, which takes the place of the one that left |
| HexText.ParseUpperHex | libsession-ui-core/src/utils/http/axum_stream.rs:84-84 | Reading the upper-case hex length gives back the length |
| HexText.LastDigits | libsession-ui-core/src/mnemonic/codec.rs:71-72 | Padding with zeros and keeping the last eight characters prints the number's last eight digits |
| HexText.FixedHexOfParse | libsession-ui-core/src/mnemonic/codec.rs:21-21 | Reading hex text and printing it at its own width lower-cases it |
| HexText.LowerIsLower | libsession-ui-core/src/mnemonic/codec.rs:71-71 | What is printed uses 0 to 9 and a to f only, and exactly text of those characters is left as it is |
| HexText.UpperHexIsShortest | libsession-ui-core/src/utils/http/axum_stream.rs:84-84 | The length header uses 0 to 9 and A to F and starts with a zero only for zero |
| ChainedTriples.ModOffset | libsession-ui-core/src/mnemonic/codec.rs:22-24 | The offset a digit is chained with when writing is undone by the one subtracted when reading, and back |
| ChainedTriples.ValueOfSplit | libsession-ui-core/src/mnemonic/codec.rs:67-67 | Every number below n cubed is the value of the triple it is written as |
| ChainedTriples.SplitOfValue | libsession-ui-core/src/mnemonic/codec.rs:67-70 | Every triple's value is below n cubed, passes the decoder's check and is written as that triple: a bijection |
| ChainedTriples.SplitLosesLargeNumbers | libsession-ui-core/src/mnemonic/codec.rs:21-27 | A number from n cubed on never comes back |
| ChainedTriples.EnoughTriples | libsession-ui-core/src/mnemonic/codec.rs:21-27 | Triples cover four bytes exactly from 1626 words on |
| ChainedTriples.ChainedNumeralsAreBijective | libsession-ui-core/src/mnemonic/codec.rs:19-73 | The numerals of any non-empty list satisfy all that the codec proofs need of them |
| WordText.SplitOfJoin | libsession-ui-core/src/mnemonic/codec.rs:32-36 | Joining words by blanks and splitting on white space gives the words back, without white space at their ends |
| WordText.SplitOfSpaced | libsession-ui-core/src/mnemonic/codec.rs:36-36 | Words with any white space before, between and behind them are split into those words |
| WordText.JoinOfTwo | libsession-ui-core/src/mnemonic/codec.rs:32-32 | One blank, and nothing else, stands between any two words |
| WordText.SplitCommaExactly | libsession-ui-core/src/mnemonic/lang.rs:24-28 | Splitting a buffer on commas gives the words without a comma which, with commas in between, are the buffer |
| Mnemonic.Encode | libsession-ui-core/src/mnemonic/codec.rs:5-33 | The two loops produce the specified phrase, whose round trips are stated below |
| Mnemonic.SwapChunks | libsession-ui-core/src/mnemonic/codec.rs:12-18 | The in-place loop reverses the bytes of every chunk, reading only what it has not yet rewritten |
| Mnemonic.Decode | libsession-ui-core/src/mnemonic/codec.rs:35-80 | The decoder's loop and its checks produce the specified result or the first error |
| Mnemonic.GenericNeverReported | libsession-ui-core/src/mnemonic/codec.rs:67-70 | The decoder's own consistency check never fires, on any words |
| Mnemonic.EncodeThenDecode | libsession-ui-core/src/mnemonic/codec.rs:5-80 | Text of at least 16 bytes comes back, in lower case, if and only if three words can write each of its numerals; shorter text is refused |
| Mnemonic.LanguageRoundTrip | libsession-ui-core/src/mnemonic/codec.rs:5-80 | With enough words the round trip holds for all text |
| Mnemonic.EnoughWords | libsession-ui-core/src/mnemonic/lang.rs:24-40 | A list of 1626 words with distinct prefixes is enough |
| Mnemonic.TripleSurvives | libsession-ui-core/src/mnemonic/codec.rs:48-73 | A triple of words comes back if and only if its number is below 2^32 |
| Mnemonic.DecodeThenEncode | libsession-ui-core/src/mnemonic/codec.rs:35-99 | For every accepted phrase, encoding the result gives the phrase with abbreviations expanded if and only if all triples are below 2^32 |
| Mnemonic.ChecksumWordExpands | libsession-ui-core/src/mnemonic/codec.rs:74-78 | The last word of an accepted phrase abbreviates the checksum word of the expanded phrase |
| Mnemonic.AcceptedExactly | libsession-ui-core/src/mnemonic/codec.rs:35-80 | Exactly which phrases decode: length, known words, agreeing checksum |
| Mnemonic.LeftoverWordsFail | libsession-ui-core/src/mnemonic/codec.rs:48-65 | A count of 2 mod 3 never decodes: an unknown word is reported first, or the indexing panics |
| PhraseFormat.WordsOfBuffer | libsession-ui-core/src/mnemonic/lang.rs:24-28 | The words of a language are the comma-free pieces of its buffer |
| PhraseFormat.SwapReversesBytes | libsession-ui-core/src/mnemonic/codec.rs:82-88 | Each byte goes, whole, to the opposite place of its chunk |
| PhraseFormat.NumeralOfSwap | libsession-ui-core/src/mnemonic/codec.rs:12-21 | The number encoded for a chunk is the little-endian value of its four bytes |
| PhraseFormat.ChecksumPlace | libsession-ui-core/src/mnemonic/codec.rs:90-99 | The checksum word is the one at the CRC of all prefixes put together, modulo the number of words |
| PhraseFormat.PhraseOfText | libsession-ui-core/src/mnemonic/codec.rs:5-33 | The phrase, written out: three words for each chunk, spelling its little-endian value in chained base n, then the word the CRC picks, with one blank between any two |
| PhraseFormat.TextOfTriple | libsession-ui-core/src/mnemonic/codec.rs:48-73 | Three abbreviations decode to the lower-case bytes whose little-endian value is the last eight digits of their chained number |
| PhraseFormat.KnownExactly | libsession-ui-core/src/mnemonic/codec.rs:49-53 | A word is known if and only if its prefix is that of a listed word |
| PhraseFormat.CountErrors | libsession-ui-core/src/mnemonic/codec.rs:41-46 | Fewer than twelve words are too few; any other multiple of three lacks its last word |
| PhraseFormat.UnknownWordError | libsession-ui-core/src/mnemonic/codec.rs:48-65 | The first unknown word decides the error: unknown, or a panic when it is shorter than a prefix |
| PhraseFormat.ChecksumError | libsession-ui-core/src/mnemonic/codec.rs:74-78 | When all words are known, a last word whose prefix is not that of the checksum word is reported as such, unless it is shorter than a prefix |
| PhraseFormat.LowerCaseRoundTrip | libsession-ui-core/src/mnemonic/codec.rs:5-80 | Lower-case hex text of at least 16 bytes comes back character for character |
| SeedPhrase.SeedSurvives | libsession-ui-core/src/identity.rs:84-101 | A seed of 16 to 32 bytes survives its phrase, zero-padded; a 32-byte seed comes back as it is |
| SeedPhrase.PhraseNamesOneSeed | libsession-ui-core/src/identity.rs:99-101 | Two 32-byte seeds have the same phrase only if they are the same |
| SeedPhrase.HexOfEachByte | libsession-ui-core/src/identity.rs:99-101 | Two lower-case hex digits stand for each byte of the seed, the upper half first |
| SeedPhrase.LongSeedsPanic | libsession-ui-core/src/identity.rs:84-90 | A phrase that decodes to more than 32 bytes panics |
| CommunityStore.Repository.SaveMessages | libsession-ui-core/src/db/messages.rs:146-169 | The insert loop keeps every row there is and adds one for each new id |
| CommunityStore.Repository.SaveMessagesAndSyncState | libsession-ui-core/src/worker/community/download_community_messages.rs:200-320 | The cursors move over decodable messages whether or not the transaction commits, to where `CommunitySync.CursorsGoToTheExtremes` says; tables change only if it does, and not for nothing to save |
| CommunityStore.EarliestId | libsession-ui-core/src/worker/community/download_community_messages.rs:257-265 | The loop finds the least id, which `MinIdIsLeast` shows is one |
| CommunityStore.LatestSeq | libsession-ui-core/src/worker/community/download_community_messages.rs:267-273 | The loop finds the greatest sequence number, which `MaxSeqIsGreatest` shows is one |
| CommunityStore.MinIdIsLeast | libsession-ui-core/src/worker/community/download_community_messages.rs:257-265 | The backward cursor is the id of a saved message, and at most every saved id |
| CommunityStore.MaxSeqIsGreatest | libsession-ui-core/src/worker/community/download_community_messages.rs:267-273 | The forward cursor is the number of a saved message, and at least every saved number |
| CommunitySync.CommunityDownloader.LoadLatest | libsession-ui-core/src/worker/community/download_community_messages.rs:99-125 | A poll moves the forward cursor only, a failed request nothing, and the caller is told which |
| CommunitySync.CommunityDownloader.OnLoadEarlierCommand | libsession-ui-core/src/worker/community/download_community_messages.rs:66-79 | A load-earlier command moves the backward cursor only and reports how many messages were saved, or answers zero without a request |
| CommunitySync.CommunityDownloader.LoadInitial | libsession-ui-core/src/worker/community/download_community_messages.rs:155-198 | The first load sets both cursors, or none when it cannot be saved |
| CommunitySync.CursorsGoToTheExtremes | libsession-ui-core/src/worker/community/download_community_messages.rs:257-273 | A response with messages sets the backward cursor, unless it was a poll, to the least id among them, and the forward one, unless it was a load of earlier messages, to their greatest sequence number; the other cursor stays |
| CommunitySync.CursorsStay | libsession-ui-core/src/worker/community/download_community_messages.rs:257-273 | A response without messages moves no cursor |
| CommunitySync.ReportIsExact | libsession-ui-core/src/worker/community/download_community_messages.rs:275-320 | A load reports the failed request, the failed transaction if there was anything to write, and else the number of messages that decode |
| CommunityProgress.FirstLoadLetsPollingStart | libsession-ui-core/src/worker/community/download_community_messages.rs:155-198 | After the first load the worker has cursors if and only if the transaction went through or nothing was to be written |
| CommunitySync.RestartResumes | libsession-ui-core/src/worker/community/download_community_messages.rs:45-54 | A worker started again stands where the last committed response has left it |
| CommunitySync.EarlierIsNeverRefused | libsession-ui-core/src/worker/community/download_community_messages.rs:66-79 | In every reachable state a load-earlier command leads to a request before the cursor |
| CommunitySync.CursorCovers | libsession-ui-core/src/worker/community/download_community_messages.rs:257-273 | Whatever comes to lie between the cursors by a response is in that response, even if the server has moved on |
| CommunitySync.SaveKeepsSynced | libsession-ui-core/src/worker/community/download_community_messages.rs:200-320 | A committed response leaves no gap and no missed deletion between the new cursors |
| CommunitySync.CursorsKeepTheirPromise | libsession-ui-core/src/worker/community/download_community_messages.rs:36-97 | In every reachable state: no gap behind the stored cursors unless a batch was committed after a failed one without a restart, none behind those in memory unless a batch has failed |
| CommunitySync.NoGapsWhenAllCommit | libsession-ui-core/src/worker/community/download_community_messages.rs:36-320 | If all transactions commit, every decodable message on the server between the cursors is stored and every deletion behind them marked, in all interleavings |
| CommunitySync.FailedSaveGapExactly | libsession-ui-core/src/worker/community/download_community_messages.rs:257-314 | After a failed transaction there is no gap if and only if every unedited message moved over was stored before |
| CommunitySync.CommittedGapExactly | libsession-ui-core/src/worker/community/download_community_messages.rs:257-314 | After a committed response the new cursors, in memory and stored, have no gap if and only if every decodable message between the old ones was stored or is in the response |
| CommunitySync.StoredGapExactly | libsession-ui-core/src/worker/community/download_community_messages.rs:200-320 | The same in every reachable state, whatever transactions failed before |
| CommunitySync.CommitAfterFailureLosesMessage | libsession-ui-core/src/worker/community/download_community_messages.rs:257-314 | A run whose stored cursors end with a message missing behind them |
| CommunitySync.StoredMessagesAreGenuine | libsession-ui-core/src/db/messages.rs:146-169 | In every reachable state a stored message shows a text it had, and is marked deleted only if it is, or another room marked its id |
| CommunitySync.OtherRoomsUntouchedExactly | libsession-ui-core/src/db/messages.rs:258-268 | A response leaves other rooms alone if and only if no unmarked row there has an id it deletes |
| CommunitySync.StoredTextIsFinal | libsession-ui-core/src/db/messages.rs:146-152 | In no run does an edit change the text of a stored message |
| CommunityProgress.ShortResponseCatchesUp | libsession-ui-core/src/worker/community/download_community_messages.rs:99-125 | After a response below the limit nothing decodable that was in the room when it was asked for is missing |
| CommunityProgress.PollMovesExactly | libsession-ui-core/src/worker/community/download_community_messages.rs:267-273 | A poll of a room nobody writes to moves the forward cursor if and only if a decodable message waits behind it and no wall of a response's worth of undecodable posts lies before it |
| CommunityProgress.WallHidesTheRest | libsession-ui-core/src/worker/community/download_community_messages.rs:27-27 | From any cursor at or before such a wall, every honest response is without messages from behind it |
| CommunityProgress.HiddenExactly | libsession-ui-core/src/worker/community/download_community_messages.rs:99-125 | While a decodable message waits, an honest poll comes back without one if and only if a wall lies before the cursor |
| CommunityProgress.PollingCatchesUpExactly | libsession-ui-core/src/worker/community/download_community_messages.rs:81-89 | Polling a room nobody writes to, often enough, catches up with everything that decodes if and only if no wall hides a message |
| CommunityProgress.WallStopsPolling | libsession-ui-core/src/worker/community/download_community_messages.rs:66-96 | As long as nobody writes, no run gets the forward cursor past such a wall; a restart does not help once cursors are stored |
| CommunityProgress.EarlierMovesExactly | libsession-ui-core/src/worker/community/download_community_messages.rs:127-153 | A load of earlier messages from a room nobody writes to moves the backward cursor strictly down if and only if an earlier message decodes and no dam of a response's worth of undecodable posts lies before it |
| CommunityProgress.DamHidesTheRest | libsession-ui-core/src/worker/community/download_community_messages.rs:127-153 | From any cursor at or behind such a dam, every honest response is without messages from before it |
| CommunityProgress.LoadingReachesAllExactly | libsession-ui-core/src/worker/community/download_community_messages.rs:66-79 | Loading earlier messages of a room nobody writes to, often enough, reaches all that decode if and only if no dam hides one |
| ConfigWrapper.ConfigWrapper.constructor | libsession-ui-core/src/config/wrapper.rs:37-54 | A restored config that needs a push starts with a request queued; nobody listens for notifications yet |
| ConfigWrapper.ConfigWrapper.DoMutate | libsession-ui-core/src/config/wrapper.rs:93-121 | Change under the lock, notify if a dump is due, then queue the request or answer the callback: one uninterrupted call |
| ConfigWrapper.ConfigWrapper.Merge | libsession-ui-core/src/config/wrapper.rs:60-83 | Merging nothing does nothing; otherwise notify for accepted messages and request a push if needed |
| ConfigWrapper.ConfigWrapper.MutateAndAwaitPush | libsession-ui-core/src/config/wrapper.rs:137-143 | The caller's reply channel goes with the request, or is answered at once |
| ConfigWrapper.ConfigWrapper.TakeRequests | libsession-ui-core/src/worker/sync_config.rs:128-138 | The receive and drain loops take every request and every callback, in order |
| ConfigWrapper.ConfigWrapper.PushConfigIfNeeded | libsession-ui-core/src/worker/sync_config.rs:127-171 | One undisturbed round: push and confirm or fail, and all callbacks taken get the one answer that `ConfigCalls.RoundAnswersAll` states |
| ConfigWrapper.ConfigWrapper.Subscribe | libsession-ui-core/src/worker/sync_config.rs:103-103 | The dump loop hears notifications from its own first step on, and none sent before |
| ConfigWrapper.ConfigWrapper.DumpConfigIfNeeded | libsession-ui-core/src/worker/sync_config.rs:97-118 | One turn of the dump loop: it dumps, or ends when it has missed a notification |
| ConfigSync.NoLostWakeUp | libsession-ui-core/src/worker/sync_config.rs:121-174 | In every reachable state a config that needs a push has a request queued, being sent or being served |
| ConfigSync.ChangeIsDue | libsession-ui-core/src/config/wrapper.rs:93-121 | A mutation that changes the config makes it due for a push and a dump, with a request on the way that carries its caller |
| ConfigSync.ConfirmedIsClean | libsession-ui-core/src/worker/sync_config.rs:141-156 | A push confirmed undisturbed leaves the config clean and all of it settled |
| ConfigSync.MutationDuringPushStaysDue | libsession-ui-core/src/worker/sync_config.rs:141-156 | A mutation between a push and its confirmation leaves the config due for a push, and is not settled by that confirmation |
| ConfigSync.CallersAreAnsweredOnce | libsession-ui-core/src/worker/sync_config.rs:127-171 | In every reachable state each waiting caller is in one place, once, or answered: Ok means a revision with its mutation was clean, or pushed and confirmed; an error is given if and only if the round that took the caller had a failed push |
| ConfigSync.NoFailureNoError | libsession-ui-core/src/worker/sync_config.rs:158-171 | In a run without a failed push every answer given is Ok |
| ConfigSync.AnswersStay | libsession-ui-core/src/worker/sync_config.rs:158-171 | An answer once given never changes |
| ConfigSync.ChangesReachDumpLoop | libsession-ui-core/src/worker/sync_config.rs:103-115 | In every reachable state from the subscription on, a change not dumped has a notification under way, unless it was due when the loop subscribed and nothing was notified since |
| ConfigSync.LoopStepDescends | libsession-ui-core/src/worker/sync_config.rs:97-174 | Every step of either loop lowers a lexicographic measure of phase and outstanding work, although each can set off the other |
| ConfigSync.LoopsQuiesce | libsession-ui-core/src/worker/sync_config.rs:97-174 | From every reachable state, under every scheduler, the loops come to rest: config clean, queue empty, all callers answered, with Ok unless a round that took them before had a failed push; a dump loop that has not exited leaves a change undumped if and only if it was due at its subscription with no notification since |
| ConfigSync.LateSubscriberMissesChange | libsession-ui-core/src/worker/sync_config.rs:89-103 | A run in which a merge is through before the dump loop subscribes: all is at rest and the change is not dumped |
| ConfigSync.NotAtRest | libsession-ui-core/src/worker/sync_config.rs:97-174 | Short of rest some step can be taken: the loops never block each other |
| ConfigSync.FailingPushRepeats | libsession-ui-core/src/worker/sync_config.rs:141-164 | A failing push brings the loop back to the very state it was in |
| ConfigSync.PushOverrunsDumpLoop | libsession-ui-core/src/config/wrapper.rs:106-121 | An undisturbed push of a changed config leaves two notifications, and the dump loop ends with the change undumped |
| ConfigSync.DumpLoopExitsExactly | libsession-ui-core/src/worker/sync_config.rs:103-104 | The dump loop lives through a run if and only if it never receives with more than one notification behind it |
| ConfigSync.UndumpedForGood | libsession-ui-core/src/worker/sync_config.rs:103-115 | After that no run dumps the change |
| ConfigCalls.MutateIsARun | libsession-ui-core/src/config/wrapper.rs:93-143 | A whole `mutate` call is one run of the interleaved system |
| ConfigCalls.MergeIsARun | libsession-ui-core/src/config/wrapper.rs:60-83 | A whole `merge` call is one run of the interleaved system |
| ConfigCalls.RoundIsARun | libsession-ui-core/src/worker/sync_config.rs:127-171 | A whole round of the push loop is one run of the interleaved system |
| ConfigCalls.DumpTurnIsARun | libsession-ui-core/src/worker/sync_config.rs:104-115 | A whole turn of the dump loop is one run of the interleaved system |
| ConfigCalls.MutationDoes | libsession-ui-core/src/config/wrapper.rs:93-121 | A mutation, undisturbed, adds one notification if a dump is due and a dump loop has subscribed, and one request or one Ok |
| ConfigCalls.MergeDoes | libsession-ui-core/src/config/wrapper.rs:60-83 | A merge, undisturbed, adds one notification if something was accepted, and one request if a push is needed |
| ConfigCalls.RoundAnswersAll | libsession-ui-core/src/worker/sync_config.rs:127-171 | A round answers every caller in the queue, with Ok unless a push was needed and failed, and nobody else |
| ConfigCalls.RoundLeaves | libsession-ui-core/src/worker/sync_config.rs:127-171 | A round leaves the config clean at its revision, or as it was when the push failed; if there was something to push, one request is queued afterwards in either case |
| ConfigCalls.DumpTurnDoes | libsession-ui-core/src/worker/sync_config.rs:104-115 | A turn of the dump loop settles the dump and asks for a push if one is needed, or ends the loop and does neither |
| ConfigCalls.NotificationsAreKept | libsession-ui-core/src/config/wrapper.rs:106-112 | Until a subscribed dump loop receives, every notification of every call is counted for it |
| AsyncRetrieve.SharedAsyncRetrieveState.SetError | libsession-ui-core/src/utils/sync/async_retrieve.rs:45-67 | Keeps the last success except after a requested retry, and starts the back-off |
| AsyncRetrieve.SharedAsyncRetrieveState.ForceRetryNext | libsession-ui-core/src/utils/sync/async_retrieve.rs:69-85 | The state asks for a retrieval, whatever it was; that the next call makes one is `ForcedRetryIsNext` |
| AsyncRetrieve.SharedAsyncRetrieveState.GetOrRetrieve | libsession-ui-core/src/utils/sync/async_retrieve.rs:87-158 | Answers from the state while it is fresh or backing off, else retrieves and falls back |
| AsyncRetrieve.RetrievalsAreRare | libsession-ui-core/src/utils/sync/async_retrieve.rs:87-158 | In any window of any run: all retrievals but one, but the forced and but the cancelled ones are at least the shorter interval apart |
| AsyncRetrieve.RetrievalsCanBeThisOften | libsession-ui-core/src/utils/sync/async_retrieve.rs:92-123 | That bound is exact: a run reaches it for every number of retrievals, with no forced and no cancelled one |
| AsyncRetrieve.CoolsDownExactly | libsession-ui-core/src/utils/sync/async_retrieve.rs:92-123 | After a success calls are answered from the state for exactly the refresh interval, after an error for exactly the retry interval |
| AsyncRetrieve.ForcedRetryIsNext | libsession-ui-core/src/utils/sync/async_retrieve.rs:69-85 | From every state, after a forced retry and whatever follows short of a finished retrieval or `set_error`, a call is never answered from the state: it retrieves, or waits for a retrieval under way |
| AsyncRetrieve.AnswersExactly | libsession-ui-core/src/utils/sync/async_retrieve.rs:45-158 | Every answer is the value retrieved last if and only if there is one and no requested retry has failed or been overruled since, and otherwise the latest error |
| AsyncRetrieve.StaleFallback | libsession-ui-core/src/utils/sync/async_retrieve.rs:92-157 | Without forced retries, once a retrieval has succeeded every answer is the value retrieved last |
| AsyncRetrieve.ForcedRetryForgets | libsession-ui-core/src/utils/sync/async_retrieve.rs:69-85 | A run in which a failed forced retry answers with the error although a value had been retrieved |
| GenericGroups.GroupSync.Observe | libsession-ui-core/src/worker/sync_generic_groups.rs:33-90 | One observed config: skipped if its ids are those passed on last, else workers of other groups go and new groups get one |
| GenericGroups.GroupSync.Retain | libsession-ui-core/src/worker/sync_generic_groups.rs:68-69 | Exactly the handles of the accepted groups are kept, untouched |
| GenericGroups.GroupSync.StartNew | libsession-ui-core/src/worker/sync_generic_groups.rs:71-89 | Exactly the accepted groups without a handle get a worker, which runs and has the group of the config |
| GenericGroups.GroupSync.Send | libsession-ui-core/src/worker/sync_generic_groups.rs:91-96 | A command is taken exactly by a live worker of its id |
| GenericGroups.WorkersFollowConfig | libsession-ui-core/src/worker/sync_generic_groups.rs:31-90 | In every run there is a handle for an id if and only if the config observed last has an accepted entry with it, passed on or not |
| GenericGroups.LifecyclesAlternate | libsession-ui-core/src/worker/sync_generic_groups.rs:64-100 | In every run, per id: starts and stops alternate, commands arrive and the worker ends only in between, and a worker runs if and only if it was started, and has neither ended nor been stopped since |
| GenericGroups.AcceptedAreListed | libsession-ui-core/src/worker/sync_generic_groups.rs:42-62 | The accepted groups are those of the entries the filter takes, the last one for each id |
| GenericGroups.NewGroupsAreStarted | libsession-ui-core/src/worker/sync_generic_groups.rs:71-89 | In every run a group that has no worker when a config with it is observed gets a running one, with the group the config lists for the id |
| GenericGroups.CommandsReachTheirWorker | libsession-ui-core/src/worker/sync_generic_groups.rs:91-96 | In every run a command for an id is recorded by its worker if and only if one runs, and by no other |
| GenericGroups.SurvivesExactly | libsession-ui-core/src/worker/sync_generic_groups.rs:42-90 | From every reachable state a worker stays the one first started, with the group it was given then, if and only if every observed config accepts its group |
| GenericGroups.EndedWorkerStaysEnded | libsession-ui-core/src/worker/sync_generic_groups.rs:71-96 | A worker that ended gets neither a successor nor commands while every observed config accepts its group |
| TableTracking.BinarySearch | libsession-ui-core/src/utils/sqlite/reactive.rs:41-44 | Finds the name or the one place it can be inserted at |
| TableTracking.LessExactly | libsession-ui-core/src/utils/sqlite/reactive.rs:41-44 | Names are ordered by the first character in which they differ, a prefix first |
| TableTracking.ReactiveDatabaseManager.PreUpdateHook | libsession-ui-core/src/utils/sqlite/reactive.rs:32-47 | The hook's insertion at the search position is the sorted insertion, and keeps the buffer sorted |
| TableTracking.TouchKeeps | libsession-ui-core/src/utils/sqlite/reactive.rs:41-44 | The buffer stays strictly sorted and gains exactly the touched table |
| TableTracking.SortedIsUnique | libsession-ui-core/src/utils/sqlite/reactive.rs:41-44 | A strictly sorted buffer is determined by its set of tables |
| TableTracking.SameTablesSameAnnouncement | libsession-ui-core/src/utils/sqlite/reactive.rs:68-86 | What is announced does not depend on the order or number of the writes |
| TableTracking.ReactiveDatabaseManager.WithTableChangeTracking | libsession-ui-core/src/utils/sqlite/reactive.rs:68-86 | The buffer is emptied either way; only a successful operation that touched something announces it |
| TableTracking.ChangesAreExact | libsession-ui-core/src/utils/sqlite/reactive.rs:68-86 | Over any sequence of operations the announcements are exactly the table sets of the successful ones, in order, with nothing leaking from one to the next |
| TableTracking.SortedSlicesIntercept | libsession-ui-core/src/utils/sqlite/reactive.rs:172-174 | The watcher's filter is true if and only if the watched and the announced sets meet |
| ConfigRows.ConfigDatabase.SaveContacts | libsession-ui-core/src/db/config.rs:161-201 | Delete-stale then upsert; Ok if and only if every id parses |
| ConfigRows.ConfigDatabase.SaveConvoInfo | libsession-ui-core/src/db/config.rs:203-236 | The same, with the three-valued `NOT IN` |
| ConfigRows.ConfigDatabase.SaveUserGroups | libsession-ui-core/src/db/config.rs:238-294 | The same, without legacy groups |
| ConfigRows.ConfigDatabase.SaveGroupMembers | libsession-ui-core/src/db/config.rs:318-353 | The same within one group; an error, and nothing touched, without a group id |
| ConfigRows.LastWins | libsession-ui-core/src/db/config.rs:184-197 | Of several entries for a row the last one is what the row holds |
| ConfigRows.SavedAt | libsession-ui-core/src/db/config.rs:161-353 | Row by row what a pass leaves, also one that stops half way |
| ConfigRows.SucceedsExactly | libsession-ui-core/src/db/config.rs:184-185 | The loop gets through if and only if every entry it writes has an id |
| ConfigRows.SavedReplacesAll | libsession-ui-core/src/db/config.rs:161-353 | With valid ids the rows in reach are exactly the config's, from any starting table, and all other rows are untouched |
| ConfigRows.SavedTwice | libsession-ui-core/src/db/config.rs:161-353 | Saving the same config again changes nothing |
| ConfigRows.InvalidIdKeepsItsType | libsession-ui-core/src/db/config.rs:208-215 | One unparsable conversation id keeps every row of its type |
| ConfigRows.ContactsTable | libsession-ui-core/src/db/config.rs:161-201 | When all ids parse there is afterwards a row for an id if and only if a contact has it, with the data of the last such contact |
| ConfigRows.UserGroupsTable | libsession-ui-core/src/db/config.rs:238-294 | The same for groups and communities by id and type, and no row for a legacy group |
| ConfigRows.ConvoInfoTable | libsession-ui-core/src/db/config.rs:203-236 | The same for conversations by id and type, legacy groups included |
| ConfigRows.GroupMembersTable | libsession-ui-core/src/db/config.rs:318-353 | The same for the members of the group saved; rows of other groups are as they were |
| ConfigRows.FailsExactly | libsession-ui-core/src/db/config.rs:161-353 | A pass fails if and only if some entry has no valid id, legacy groups of the user groups aside |
| ChunkedFrames.StreamingBody.PollFrame | libsession-ui-core/src/utils/http/axum_stream.rs:46-91 | One poll is one step of the three-frame cycle |
| ChunkedFrames.SentAndOwed | libsession-ui-core/src/utils/http/axum_stream.rs:46-91 | At every moment the bytes sent and the bytes owed make up the same text |
| ChunkedFrames.EnoughPolls | libsession-ui-core/src/utils/http/axum_stream.rs:46-91 | Polling often enough sends all of it |
| ChunkedFrames.PollYields | libsession-ui-core/src/utils/http/axum_stream.rs:46-91 | Poll by poll: each element of the stream yields its header, data and CRLF, its error, or nothing yet, once and in order; the end is reported when the stream is used up, then and ever after |
| ChunkedFrames.ReadBack | libsession-ui-core/src/utils/http/axum_stream.rs:50-91 | A reader of section 7.1 of RFC 9112 recovers the items up to the first empty one |
| ChunkedFrames.BodyIsUniquelyDecodable | libsession-ui-core/src/utils/http/axum_stream.rs:13-91 | Over a whole run the bytes read back as the items, ending on a boundary, if and only if no item is empty |
| ChunkedFrames.SameBytesSameItems | libsession-ui-core/src/utils/http/axum_stream.rs:13-91 | Two streams of non-empty items with the same bytes carry the same items |
| ChunkedFrames.PrefixReadsBack | libsession-ui-core/src/utils/http/axum_stream.rs:46-91 | Stopped after any number of polls, the reader has exactly the items whose frames have all left |
| MessagePadding.PadMessage | libsession-ui-core/src/crypto.rs:79-90 | The padded buffer strips back to the body and is at most one block longer than it must be |
| MessagePadding.RoundTrip | libsession-ui-core/src/crypto.rs:72-90 | Stripping undoes padding for all bodies, whatever they end in |
| MessagePadding.StripRemovesExactlyThePadding | libsession-ui-core/src/crypto.rs:72-77 | Stripping removes one marker and the zeros behind it, or nothing |
| MessagePadding.PaddedLength | libsession-ui-core/src/crypto.rs:79-90 | The padded length is the least multiple of 160 strictly above the body and its marker |
| MessagePadding.PaddedBytes | libsession-ui-core/src/crypto.rs:79-90 | Byte by byte: the body, then 0x80, then zeros |
| MessagePadding.EqualLengthsSameBlock | libsession-ui-core/src/crypto.rs:79-90 | Two padded bodies are equally long if and only if they fall into the same block |

## Left out

- Everything behind the foreign functions: config contents, merging, onion requests, signing and encryption. A config is its push status, its dump flag and the set of mutations it holds.
- `GroupKeys` as a pushed config: its `confirm_pushed` does nothing, so it never becomes clean; and the two places in config/group_keys.rs that change the info and member configs through `borrow_mut`, without asking for a push.
- The network push inside `push_config_if_needed`, which the code leaves to be done: a push succeeds or fails. A dump that cannot be written ends the whole sync task and is not part of this model.
- Batching: requests whose caller is dropped while it waits, and the runner after its channel has closed. A full channel delays the sender; the model's submit step waits for room.
- The 64-bit overflow of a triple's number, which takes a list of over two million words.
- The word lists themselves: lists are arbitrary subject to the stated hypotheses, and the CRC is an arbitrary function.
- Community sync: reactions, which are saved in the same transaction, how long a worker waits between polls, and the retries of a first load whose request fails. `has_earlier_messages` never becomes false.
- Integer widths of message ids and sequence numbers: they are compared, never computed with.
- Shared retrieval: the value a requested retry still holds, which nothing reads; and tasks that wait for the lock, who call again in some order.
- Group workers: the mailbox of a worker holds one command, and the loop waits when it is full; the model delivers at once.
- Change tracking: an operation run inside another one on the same thread, and the lagged announcements, which the watcher passes on as errors. A failed operation outside a transaction announces nothing although its earlier statements stay.
- Config rows: the CHECK constraints of the tables, the user profile and group info tables, which are one upsert each.
- ConfigSync.FailingPushRepeats: is stated where no dump is due; otherwise the round also notifies.
- Padding and chunking of other body formats, request routing, SQL views and migrations, the Flutter and native runners.
