# Verified model of a desktop chat application

The project models the parts of a desktop front end for a local language-model server whose correctness is
hard to see: how streamed bytes become text, how a conversation is cut down to a context window, how a model
server is restarted, downloaded for, switched and polled, and how concurrent generations, switches and tool
calls share state. `dafny verify dfyconfig.toml` checks everything.

Code that updates fields or arrays in place is modelled by classes, arrays and loops, each proved against a
specification function; what the code promises is then proved about those functions. Every concurrent protocol
is a state machine with one step per lock section (or per single atomic store), and its theorems speak of every
interleaving of any length.

| files | what they cover |
|---|---|
| `Utf8`, `Utf8Cuts`, `Reassembly` | UTF-8 repair and hold-back on bytes (section 4 of RFC 3629); chunk-split invariance |
| `ToolCallAssembly`, `TokenBatching`, `Stream` | fragments of tool calls; what a chunk sends; the accumulator |
| `RecencyList`, `FileCache`, `FileLoader`, `FileRuns` | the LRU file cache: recency list, linked-list implementation, loader, whole runs |
| `Options`, `Numbers`, `Subsequences`, `Messages` | shared helpers; order-preserving selections; messages, estimates, importance |
| `PairCleaning`, `Survival`, `Trimming`, `TrimmingLaws`, `Compression` | fitting a request into the context |
| `HistoryCleaning`, `HistoryIdempotence`, `HistoryTurns`, `HistoryBuild`, `HistoryRequest` | turning stored messages into a request |
| `Download`, `DownloadLaws`, `DownloadKeeps` | resumable download over a target and a temporary file |
| `Watchdog`, `WatchdogLaws`, `WatchdogCrashes` | crash watchdog: restarts, backoff, degrade levels |
| `Generation`, `ModelSwitch`, `SwitchRuns`, `ToolApproval`, `ApprovalRuns` | the three ownership protocols |
| `LoadPolling`, `LoadVerdicts` | the verdict on a loading model, against a definition on the poll trace |
| `Escaping` | XML entities and the CSV export |

How the outside world enters the model: the clock is an arbitrary integer per reading; a server response, a
read, a write, a stat, a poll or the user's answer is an arbitrary value; the remote file of a download is
fixed and `stat` fails only for a file that is not there; token estimates of text and the content tests of the
importance score are arbitrary attributes of a message. Integers are unbounded, as no modelled quantity comes
near 64 bits.

Where the code does not meet what its comments or a natural reading promise, the model follows the code, a
lemma shows a concrete case, and another says exactly when the promise holds:

- a reply that ends inside a character loses those bytes: `TruncatedTailIsDropped`, `CompleteIffNoCharacterCut`;
- the comment on the first token promises no empty event, yet a first chunk that is held back entirely sends
  one, because the zero time of the last emission counts as long ago: `HeldBackFirstChunk`, `EmptyTokenIff`;
- the comments name a code block or an explicit instruction as reason enough to protect a message; neither is
  by itself, and the score never comes near its cap: `CodeOrInstructionAlone`, `MustKeepIffCodeAndMore`;
- trimming can lose every user message (`UserLostWhenEndsTooLarge`, `TrimHasUserIff`), put one back out of order
  (`OrderLost`, `TrimOrderIff`; not while system messages come before user messages, where the
  program inserts its own: `SystemMessagesFirstKeepOrder`), drop a protected tool result (`ProtectedResultCanBeDropped`,
  `ProtectedSurvivesIff`) and always separates a final tool result from its call (`LastResultLosesItsCall`);
- history cleaning is not idempotent on arbitrary input: `CleanHistoryNotIdempotent`, `CleanHistoryIdempotentIff`;
- `SummaryInserted` ignores a stored long summary: `LongSummaryUnreported`, `SummaryFlagExact`;
- a complete temporary file without a target blocks the download for good: `StrandedForever`,
  `ProgressIffNotStranded`; a partial target passes as complete when probing fails: `PartialFileReportedComplete`,
  `SingleWithoutProbeExact`; so does a response of unknown length that ends early: `EarlyEndReportedComplete`,
  `UnsizedSuccessExact`;
- pausing is said to keep what was downloaded, yet where the server ignores the range it can put a shorter file
  over a longer one: `CancelCanLoseBytes`, `DisturbedLosesNothingIff`;
- the restart limit is meant to end endless restarting, but only failed restarts count:
  `FlappingServerIsNeverGivenUp`, `PermanentIff`;
- a conversation id can be written after its generation lost the slot, beside another generation's cancel
  function (`StopNamesWrongConversation`, `IdFollowsSlotIff`, `IdAlwaysFollowsIff`) or into an empty slot
  (`LateWriteAfterStop`, `EmptySlotNamesNothingIff`);
- a repeated call id makes a waiting approval unanswerable: `RepeatedIdHidesFirst`, `AnswerableIff`;
- a successful rollback does not clear the failure flag, against the comment on `clearServerLoadFailure`:
  `RollbackLeavesFailureFlag`, `ReadyWithoutFailureIff`;
- a file rewritten under the same time stamp is served from the cache: `SameStampServesOldBytes`, `LoadExact`,
  `LoadsAlwaysMatchIff`.

## Model

| member | source | states |
|---|---|---|
| Utf8.FixUTF8 | internal/llm/client.go:286-301 | The rune-by-rune loop returns the repair of its input: every maximal run that is a character of section 4 of RFC 3629 is kept, every other byte becomes U+FFFD |
| Utf8.TruncateIncompleteUTF8 | internal/llm/client.go:304-317 | The backward scan splits the input into the part that can be repaired now and the held tail that a later byte may still complete |
| Utf8.RepairIsWellFormed | internal/llm/client.go:286-301 | Repair always yields well-formed UTF-8 |
| Utf8.RepairIdentityIffWellFormed | internal/llm/client.go:286-301 | Repair leaves a byte string alone if and only if it is well-formed |
| Utf8.RepairIdempotent | internal/llm/client.go:286-301 | Repairing twice is repairing once |
| Utf8.RepairNonEmpty | internal/llm/client.go:286-301 | Only the empty string repairs to the empty string, so a chunk with settled bytes always yields text |
| Utf8.DecodeFollowsGrammar | internal/llm/client.go:286-301 | The arithmetic decoder used by the loop accepts exactly the byte grammar of the RFC, and re-encoding the decoded rune gives back its bytes |
| Utf8.ReplacementIsFFFD | internal/llm/client.go:286-301 | The replacement is the encoding of U+FFFD, a character of its own |
| Utf8.BadByteReplaced | internal/llm/client.go:286-301 | A byte that starts no character becomes U+FFFD, and the repair goes on with the next byte |
| Utf8.SettledAndHeld | internal/llm/client.go:304-317 | The two parts of the split concatenate to the input, and a non-empty tail is never a full rune |
| Utf8.IncompleteIffExtensible | internal/llm/client.go:304-317 | A tail counts as incomplete if and only if some further bytes turn it into one character |
| Utf8.HeldIsTheIncompleteSuffix | internal/llm/client.go:304-317 | Whenever a suffix is an incomplete character it is the one held back; there is at most one |
| Utf8Cuts.RepairAcrossHeld | internal/llm/client.go:286-317 | Repairing a string followed by anything equals repairing its settled part, then the held tail together with what follows |
| Utf8Cuts.HeldAppend | internal/llm/client.go:304-317 | The tail held after two chunks depends only on the tail held after the first and the second chunk |
| Utf8Cuts.SettledAppend | internal/llm/client.go:286-317 | The repaired text of two chunks is the repaired text of the first plus that of (held tail + second) |
| Reassembly.ChunkSplitInvariance | internal/chat/service_stream.go:344-348 | For every byte string and every way of cutting it: the accumulated text and the pending bytes are those a single chunk would have left |
| Reassembly.SameBytesSameState | internal/chat/service_stream.go:344-348 | Two cuttings of the same bytes end in the same state |
| Reassembly.NothingLost | internal/chat/service_stream.go:344-348 | Text written so far followed by the repair of the pending bytes is the repair of the whole; at most 3 bytes are pending; the written text is well-formed |
| Reassembly.CompleteIffNoCharacterCut | internal/chat/service_stream.go:344-352 | The text delivered is the whole repaired reply if and only if no end of the received bytes is the beginning of a character: the code never flushes a pending tail |
| Reassembly.TruncatedTailIsDropped | internal/chat/service_stream.go:344-352 | A concrete reply that ends inside a character is delivered empty although its repair is two U+FFFD |
| Reassembly.ValidTextArrivesUnchanged | internal/chat/service_stream.go:344-348 | Well-formed text arrives byte for byte, whatever the cuts, with nothing left pending |
| ToolCallAssembly.ApplyAllAppend | internal/chat/service_stream.go:365-389 | Applying fragments chunk by chunk is applying them as one list |
| ToolCallAssembly.EachIndexOnItsOwn | internal/chat/service_stream.go:365-389 | The entry of an index is decided by the fragments of that index alone: id, type and name of the first fragment with an id, arguments concatenated from there on |
| ToolCallAssembly.InterleavingIrrelevant | internal/chat/service_stream.go:365-389 | Two streams with the same fragments per index assemble the same calls, however they are interleaved |
| ToolCallAssembly.ListingUnique | internal/chat/service_stream.go:441-457 | There is exactly one list of all calls in increasing index order, so map traversal order cannot show |
| ToolCallAssembly.SortInts | internal/chat/service_stream.go:446-451 | Sorting the indices gives a strictly increasing list of the same elements |
| ToolCallAssembly.ListCalls | internal/chat/service_stream.go:441-457 | The result lists exactly the map's calls in strictly increasing index order |
| TokenBatching.EmptyTokenIff | internal/chat/service_stream.go:337-431 | A chunk makes the accumulator send an empty token event if and only if it has reply text, all of it is held back, the buffer is empty and the clock is due (or nothing was sent yet) |
| TokenBatching.ContentSendsEmptyTokenIff | internal/chat/service_stream.go:414-431 | The same for the content delta alone |
| TokenBatching.HeldBackFirstChunk | internal/chat/service_stream.go:414-431 | A new stream whose first chunk is the first byte of a character sends one empty token event, at any time |
| TokenBatching.ContentSends | internal/chat/service_stream.go:414-431 | Exactly when a delta sends, what it sends and what it leaves, in numbers |
| TokenBatching.ClockIsLastSend | internal/chat/service_stream.go:414-439 | Over a whole stream the time kept is that of the last send caused by reply text |
| TokenBatching.SendsAgainIff | internal/chat/service_stream.go:414-431 | After a send the next chunk with reply text sends if and only if it brings the first text, 48 bytes are waiting with it, or 16 ms have passed since that send |
| TokenBatching.FirstTextSends | internal/chat/service_stream.go:414-431 | The first chunk with reply text always sends |
| Stream.StreamAccumulator.constructor | internal/chat/service_stream.go:289-296 | A new accumulator satisfies the invariant with nothing delivered |
| Stream.StreamAccumulator.EmitTokenBatched | internal/chat/service_stream.go:414-431 | Sends buffer and new text as one event on first text, at 48 bytes or when the interval has passed; otherwise buffers; no text is lost or duplicated for any clock values |
| Stream.StreamAccumulator.FlushTokenBuffer | internal/chat/service_stream.go:434-439 | Sends the buffer if it holds anything and leaves it empty |
| Stream.StreamAccumulator.OnContent | internal/chat/service_stream.go:337-352 | One content delta: the texts, the pending bytes and the events added are those of the specification, and the invariant is kept: sent events plus buffer equal the full text, which is the repair of all settled bytes so far |
| Stream.StreamAccumulator.OnReasoning | internal/chat/service_stream.go:354-363 | One thinking delta is sent unbatched and appended to the full thinking text; the invariant is kept |
| Stream.StreamAccumulator.OnToolDeltas | internal/chat/service_stream.go:365-389 | The map is updated with the fragments in order |
| Stream.StreamAccumulator.OnFinish | internal/chat/service_stream.go:391-405 | A finish reason is recorded and the buffer flushed: one event if it held anything |
| Stream.StreamAccumulator.TakeTexts | internal/chat/service_stream.go:337-363 | Reply text first, then thinking text, with exactly their events |
| Stream.StreamAccumulator.Callback | internal/chat/service_stream.go:298-409 | A chunk is refused exactly when the texts exceed the buffer limit and changes nothing without a choice; otherwise texts, buffer and the exact events added are those of the chunk specification, fragments and finish reason are taken in, and the invariant is kept |
| Stream.StreamAccumulator.Delivered | internal/chat/service_stream.go:337-439 | In every valid state with an empty buffer: the round's token events concatenate to the full text, the thinking events of all rounds to the full thinking text, and each text plus the repair of its pending bytes is the repair of all bytes received |
| Stream.StreamAccumulator.ToolCalls | internal/chat/service_stream.go:441-457 | The returned list is the ordered listing of the calls assembled from this round's fragments |
| Stream.StreamAccumulator.SaveFirstRoundThinking | internal/chat/service_stream.go:459-484 | Only the first non-empty thinking text is remembered as the first round's |
| Stream.StreamAccumulator.ResetReply | internal/chat/service_stream.go:459-484 | The reply side starts over and the count of sent text restarts here |
| Stream.StreamAccumulator.ResetThinking | internal/chat/service_stream.go:459-484 | Pending thinking bytes are dropped, the thinking text carries over |
| Stream.StreamAccumulator.ResetCalls | internal/chat/service_stream.go:472-473 | Calls and finish reason are cleared |
| Stream.StreamAccumulator.ResetForNextCall | internal/chat/service_stream.go:459-484 | The reply, buffer, pending bytes and calls are cleared, the thinking text is kept, and the invariant holds for the next round |
| RecencyList.EvictIsLongestFittingPrefix | main.go:101-111 | Eviction keeps exactly the longest prefix in recency order that meets both limits, or nothing |
| RecencyList.OversizedPutEmptiesCache | main.go:87-112 | An entry larger than the whole cache is not kept and drives every other entry out |
| RecencyList.WithoutAt | main.go:91-96 | With distinct paths, removing a path removes exactly its one position |
| RecencyList.PutKeepsDistinct | main.go:87-112 | Each path occurs at most once after a put |
| RecencyList.PutReplaces | main.go:87-112 | Putting a path that is cached: the longest beginning, within both limits, of the new entry followed by the others in their order |
| RecencyList.PutAdds | main.go:87-112 | The same for a new path |
| RecencyList.TouchMoves | main.go:76-84 | A hit is found and moves to the front of the others; a miss changes nothing |
| FileCache.List.PushFront | main.go:98 | Linking a new element in front keeps the doubly linked structure and puts the value first |
| FileCache.List.Remove | main.go:94 | Unlinking an element keeps the structure and removes exactly that position |
| FileCache.List.MoveToFront | main.go:80 | Moving an element keeps the structure and changes only its position |
| FileCache.List.Init | main.go:120 | The list is empty again |
| FileCache.IndexedCut | main.go:91-96 | Removing an element and its key keeps map and list in one-to-one agreement |
| FileCache.CutIsWithout | main.go:91-96 | Cutting an element removes exactly the entry of its path and its bytes |
| FileCache.MoveIsTouch | main.go:80 | Moving a hit keeps map and byte count in step and is the move-to-front of the recency list |
| FileCache.FileLruCache.constructor | main.go:66-73 | A new cache is empty and satisfies the invariant |
| FileCache.FileLruCache.Get | main.go:76-84 | Returns the entry of the path if any; a hit moves to the front and nothing else changes |
| FileCache.FileLruCache.Drop | main.go:91-96 | List, map and byte count lose the same entry |
| FileCache.FileLruCache.EvictOldest | main.go:101-111 | The loop over the real list leaves the longest fitting prefix |
| FileCache.FileLruCache.PushNew | main.go:97-100 | List, map and byte count gain the same entry, in front |
| FileCache.FileLruCache.Put | main.go:87-112 | Map, linked list and byte count together refine the recency list's put: new entry first, the old one of that path gone, longest prefix within both limits |
| FileCache.FileLruCache.Clear | main.go:117-123 | The cache is empty and still satisfies the invariant |
| FileLoader.LoadFileWithCache | main.go:223-246 | With no cache it is a plain read; otherwise result and new cache contents are those of the load function, for every failure of stat or read |
| FileLoader.LoadExact | main.go:223-246 | A load returns what a plain disk read would if and only if a hit with matching time stamp has the same bytes |
| FileLoader.LoadKeepsCoherent | main.go:223-246 | If a time stamp determines a file's bytes, loading keeps the cached bytes honest and returns the plain read |
| FileLoader.LoadsMatchDisk | main.go:223-246 | Over every run of writes, loads and clears in which rewriting changes the stamp, every load returns what is on disk at that moment |
| FileLoader.SameStampServesOldBytes | main.go:229-233 | A file rewritten under the same time stamp is served with its old bytes |
| FileRuns.LoadStaysWithin | main.go:223-246 | A load whose stamp is truthful returns the plain read, and whatever is cached stays the file last stored |
| FileRuns.TruthfulMatches | main.go:223-246 | With truthful stamps every load of a run matches the disk, at every capacity |
| FileRuns.LoadMirrors | main.go:223-246 | A cache with room for everything knows exactly the files last stored, load by load |
| FileRuns.MatchesTruthful | main.go:223-246 | If every load through such a cache matches the disk, the stamps were truthful |
| FileRuns.LoadsAlwaysMatchIff | main.go:223-246 | From an empty cache, every load of a run returns what a plain read would at every capacity if and only if no load meets its stored time stamp with other bytes than those stored |
| Messages.Estimate | internal/chat/helpers.go:449-492 | Every message is estimated at 11 tokens at least |
| Messages.TokensAppend | internal/chat/helpers.go:495-501 | The estimate of a list is the sum of its parts |
| Messages.TokensMeaning | internal/chat/helpers.go:449-501 | The estimate of a list is its text, ten tokens per message and one more per empty message |
| Messages.SubseqTokens | internal/chat/helpers.go:495-501 | Leaving messages out never raises the estimate |
| Messages.ScoreChatMessage | internal/chat/importance.go:32-80 | The rules accumulated one by one give 3 for a code fence, 2 for a keyword, and 2 for tool results and calls, 1 for users and final replies; 0 for system messages |
| Messages.MustKeepIffCodeAndMore | internal/chat/importance.go:10-97 | Scores range over 0..7 only, and a message is protected if and only if it holds a code fence together with a keyword, a tool result or a tool call |
| Messages.CodeOrInstructionAlone | internal/chat/importance.go:32-96 | A user message with only a code block, or only a keyword, is not protected |
| PairCleaning.HasFollowingTool | internal/chat/helpers.go:546-556 | The scan finds whether a tool message comes before the next user or assistant message |
| PairCleaning.CleanToolCallPairs | internal/chat/helpers.go:537-565 | The delete-and-step-back loop terminates and equals one pass that judges each message once |
| PairCleaning.OrphansDoNotAnswer | internal/chat/helpers.go:537-565 | Deleting later orphans never changes whether an earlier call is answered, which is why no restart is needed |
| PairCleaning.CleanPairsWellPaired | internal/chat/helpers.go:537-565 | The result is a subsequence that does not start with a tool message and in which every call is followed by a tool message before the next user or assistant |
| PairCleaning.CleanPairsIdentityIff | internal/chat/helpers.go:537-565 | A list is left alone if and only if it already has that form |
| PairCleaning.CleanPairsIdempotent | internal/chat/helpers.go:537-565 | Cleaning twice is cleaning once |
| PairCleaning.OnlyCallersDropped | internal/chat/helpers.go:537-565 | Behind the leading tool messages only assistant messages with calls are ever dropped |
| PairCleaning.OrphanToolSurvives | internal/chat/helpers.go:537-565 | A tool message without any call survives when it is not at the front |
| PairCleaning.SkipToStartIsSuffix | internal/chat/helpers.go:514-519 | What is skipped is exactly the part before the first system or user message |
| PairCleaning.EnsureStartsWithUserOrSystem | internal/chat/helpers.go:514-519 | The loop returns that suffix |
| PairCleaning.CleaningKeepsUsers | internal/chat/helpers.go:514-565 | Neither cleaning step loses or reorders a user message |
| PairCleaning.CleanedShape | internal/chat/helpers.go:514-565 | Both steps together give a well-paired subsequence that starts with a system or user message |
| Survival.SkipThenDrop | internal/chat/helpers.go:514-565 | Cleaning pairs and then skipping to the start equals skipping first and dropping unanswered calls then |
| Survival.SurvivorsExact | internal/chat/helpers.go:514-565 | One forward pass over the marks gives the cleaned list |
| Survival.AnswerPickedPositions | internal/chat/helpers.go:546-556 | The scan for an answer, by position |
| Survival.CleanedSelection | internal/chat/helpers.go:514-565 | Cleaning a selection keeps exactly the picked messages that have a picked system or user message no later than them and, if calls, a picked tool result before the next picked user or assistant message |
| Trimming.ComputeMustKeepBudget | internal/chat/helpers.go:526-535 | Exactly the protected indices, ascending, with their total cost |
| Trimming.MarkMustKeep | internal/chat/helpers.go:614-618 | The decision array starts with exactly the protected messages |
| Trimming.DecideKept | internal/chat/helpers.go:614-633 | The backward loop marks the protected messages and the unprotected ones behind the cut point |
| Trimming.KeptInOrder | internal/chat/helpers.go:634-640 | The marked messages in their original order |
| Trimming.SumTokens | internal/chat/helpers.go:573-576 | The loop returns the list's estimate |
| Trimming.FindLastUser | internal/chat/helpers.go:665-672 | The user message behind which there is no other, if there is one |
| Trimming.SplitEnds | internal/chat/helpers.go:581-594 | Leading system message, middle and last message |
| Trimming.PutBackLastUser | internal/chat/helpers.go:649-676 | A user message is put back exactly when none is left |
| Trimming.TrimMessagesToFit | internal/chat/helpers.go:567-679 | The whole operation, early exits included, computes the trimmed list the laws below speak of; within maxTokens beside the reserve, or within 100 tokens, the request comes back as it is |
| Trimming.CutPointIsLongestSuffix | internal/chat/helpers.go:619-633 | The unprotected messages kept are the longest suffix that fits the leftover budget |
| Trimming.LongestSuffixUnique | internal/chat/helpers.go:619-633 | There is only one such suffix, so the previous property determines the choice |
| Trimming.ChosenTokens | internal/chat/helpers.go:614-640 | The choice costs the protected messages plus the unprotected ones behind the cut |
| Trimming.ChosenWithinBudget | internal/chat/helpers.go:614-640 | The choice costs at most the budget on top of the protected messages |
| TrimmingLaws.KeptShape | internal/chat/helpers.go:634-647 | What remains of the choice after cleaning is a well-paired subsequence starting with system or user and holding every chosen user message |
| TrimmingLaws.TrimBudget | internal/chat/helpers.go:567-679 | For more than two messages the result costs at most max(limit, system + last + protected), plus the one user message put back |
| TrimmingLaws.TrimFitsContext | internal/chat/helpers.go:567-679 | In the caller's numbers: a request within maxTokens beside the reserve is returned unchanged; otherwise, when ends and protected messages fit beside the reserve and no user message is put back, the result fits too; below 100 tokens of room, 100 are the limit |
| TrimmingLaws.PickedIsLongestSuffix | internal/chat/helpers.go:596-633 | Protected messages and the longest suffix of the others are picked: all indispensable parts and that suffix fit the limit, one unprotected message more would not |
| TrimmingLaws.TrimKeepsEnds | internal/chat/helpers.go:567-679 | A leading system message and the last message are always kept, in their places |
| TrimmingLaws.TrimHasUserIff | internal/chat/helpers.go:567-679 | A request with a user message still has one afterwards if and only if it was not trimmed, the ends fit the limit, or the last message is the user's |
| TrimmingLaws.UserLostWhenEndsTooLarge | internal/chat/helpers.go:602-608 | A concrete request that loses its only user message because that exit skips the repair |
| TrimmingLaws.TrimOrderIff | internal/chat/helpers.go:567-679 | For distinct messages the original order is kept if and only if not: trimmed with ends that fit, last message no user, every user message of the middle unprotected and before the cut, and a system message of the middle at or behind it |
| TrimmingLaws.SystemMessagesFirstKeepOrder | internal/chat/helpers.go:567-679 | While no system message of the middle stands behind a user message the order is always kept |
| TrimmingLaws.OrderLost | internal/chat/helpers.go:656-676 | A concrete request whose user message ends up behind the system message that followed it |
| TrimmingLaws.ReinsertedIff | internal/chat/helpers.go:656-676 | A user message is put back if and only if the last message is no user, the middle has one, and every one of them is unprotected and before the cut |
| TrimmingLaws.LastResultLosesItsCall | internal/chat/helpers.go:567-679 | The message before the last is never a call after trimming, so a final tool result always loses its call |
| TrimmingLaws.ProtectedUserSurvives | internal/chat/helpers.go:610-679 | A protected user message always survives when the ends fit |
| TrimmingLaws.KeptExactly | internal/chat/helpers.go:634-647 | Of the middle exactly the messages stay that survive the cleaning of what was picked, by position |
| TrimmingLaws.MiddleSurvivesIff | internal/chat/helpers.go:567-679 | For distinct messages: which messages of the middle are in the result, exactly |
| TrimmingLaws.ProtectedSurvivesIff | internal/chat/helpers.go:610-679 | A protected message of a trimmed request survives if and only if the ends fit, a system or user message was picked no later than it and, for a call, the first picked message that settles the question is a tool result |
| TrimmingLaws.ProtectedResultCanBeDropped | internal/chat/helpers.go:610-647 | A tool result with a code fence is protected and still dropped, its long call having been cut, on a concrete request |
| Compression.SortByScoreSorted | internal/chat/helpers.go:761-767 | Sorting orders the candidates by score, ties by age |
| Compression.FillLaws | internal/chat/helpers.go:768-776 | For any candidate order: the account is exact, the budget is kept and nothing that would still fit is left out |
| Compression.FillDecision | internal/chat/helpers.go:768-776 | A candidate is taken if and only if it fits beside what the candidates before it took |
| Compression.OrderIsPermutation | internal/chat/helpers.go:754-767 | The candidates are exactly the unprotected messages, each once, higher score first and the older first among equals |
| Compression.PlainMessages | internal/chat/helpers.go:754-760 | The loop collects the unprotected indices |
| Compression.SelectImportantMessages | internal/chat/helpers.go:719-787 | The method computes that selection, in original order |
| Compression.ImportantLaws | internal/chat/helpers.go:719-787 | The selection is an order-preserving subsequence with every protected message, costs at most max(budget, protected), and leaves out only what no longer fits |
| Compression.ImportantByPriority | internal/chat/helpers.go:751-777 | A candidate is recovered if and only if it fits beside the protected messages and the candidates recovered before it, which score higher, or the same and are older |
| Compression.CalcSlidingWindowSize | internal/chat/helpers.go:682-694 | The window is 6 up to 8192 tokens of context, 20 from 32768 on, 12 between |
| Compression.WindowSizeMonotone | internal/chat/helpers.go:682-694 | A larger context never gets a smaller window |
| Compression.WindowMeaning | internal/chat/helpers.go:819-833 | Window and older messages together are everything behind a leading system message; the window is the last 6, 12 or 20 of it |
| Compression.BudgetInTokens | internal/chat/helpers.go:838 | The recovery budget is a fifth of the context, 200 at least and 1000 at most |
| Compression.SummaryMeaning | internal/chat/helpers.go:847-873 | A summary is inserted if and only if the caller or the store has one; the caller's short one is preferred |
| Compression.CompressContext | internal/chat/helpers.go:804-957 | The synchronous result, the number of trimmed messages and the summary flag |
| Compression.CompressedShape | internal/chat/helpers.go:804-957 | Apart from the summary the result keeps the request's order, is well-paired and starts with system or user |
| Compression.CompressedBudget | internal/chat/helpers.go:804-957 | System, summary and window plus at most max(recovery budget, protected old messages) |
| Compression.CompressedKeepsUsers | internal/chat/helpers.go:804-957 | The user messages are exactly those recovered followed by those of the window |
| Compression.CompressedKeepsHead | internal/chat/helpers.go:804-957 | A system message or summary in front stays in front |
| Compression.CompressedExactly | internal/chat/helpers.go:819-886 | The compressed request holds exactly the messages that survive the cleaning of front, recovered messages and window, by position |
| Compression.SummaryFlagExact | internal/chat/helpers.go:847-873 | The reported flag tells whether a summary was inserted if and only if there is no stored long summary without a short one |
| Compression.LongSummaryUnreported | internal/chat/helpers.go:847-873 | A stored long summary alone is inserted and not reported |
| HistoryCleaning.FirstAnswer | internal/chat/service_messages.go:565-575 | The first tool message that answers an id |
| HistoryCleaning.IndexToolMessages | internal/chat/service_messages.go:565-575 | The index map gives, for every id, its first answering position |
| HistoryCleaning.HasLaterAnswer | internal/chat/service_messages.go:587-595 | Whether one of an assistant's calls is answered behind it |
| HistoryCleaning.SweepHistory | internal/chat/service_messages.go:577-602 | The forward loop computes the sweep |
| HistoryCleaning.MergeAssistants | internal/chat/service_messages.go:604-613 | Of adjacent assistant messages the last one stays |
| HistoryCleaning.CleanHistoryMessages | internal/chat/service_messages.go:559-614 | The whole operation |
| HistoryCleaning.CleanHistoryShape | internal/chat/service_messages.go:559-614 | For arbitrary input: a subsequence that starts with system or user, has no two adjacent assistants, and in which every tool message directly follows a call |
| HistoryCleaning.CleanHistoryIdentityIff | internal/chat/service_messages.go:559-614 | A history is left alone if and only if it has that form and every call is answered later |
| HistoryCleaning.CleanHistoryFixedIff | internal/chat/service_messages.go:559-614 | A cleaned history fails to be left alone only by a call without its answer |
| HistoryCleaning.CleanHistoryNotIdempotent | internal/chat/service_messages.go:559-614 | A concrete history on which the second cleaning removes more |
| HistoryIdempotence.SweepIsSelection | internal/chat/service_messages.go:577-602 | The sweep keeps a tool message exactly behind an answered call with only unanswered calls between, a call exactly when answered, and everything else |
| HistoryIdempotence.MergeIsSelection | internal/chat/service_messages.go:604-613 | The merge keeps every message but an assistant directly followed by an assistant |
| HistoryIdempotence.CleanedIsSelection | internal/chat/service_messages.go:559-614 | The cleaned history by position: swept in, and not merged away |
| HistoryIdempotence.FirstAnswerAt | internal/chat/service_messages.go:565-575 | First answers of the cleaned history are the first kept answers of the history |
| HistoryIdempotence.CleanHistoryIdempotentIff | internal/chat/service_messages.go:559-614 | Cleaning twice equals cleaning once if and only if every answered call of the history, unless another assistant message takes its place, has an id whose first kept answer stands behind it |
| HistoryTurns.AppendToolCallMessages | internal/chat/service_tool_call_loop.go:425-479 | Each result appends its call and its answer, in order; a failed write reports no list |
| HistoryTurns.PairsAt | internal/chat/service_tool_call_loop.go:429-470 | By position: every named result appends exactly its call and behind it its answer, with their id and content; unnamed ones nothing |
| HistoryTurns.PairsChained | internal/chat/service_tool_call_loop.go:425-479 | What is appended alternates calls and their own answers |
| HistoryTurns.StoredChained | internal/chat/service_tool_call_loop.go:425-470 | A conversation made of turns is chained: every call directly followed by its own answer, no adjacent assistants |
| HistoryTurns.StoredUnchangedIffDistinct | internal/chat/service_messages.go:559-614 | A stored conversation is left alone by the cleaning if and only if its answers carry different non-empty ids |
| HistoryTurns.CutSafety | internal/chat/service_messages.go:559-614 | Cutting such a history anywhere and cleaning removes only the messages before the first remaining user message and changes nothing behind it |
| HistoryTurns.RepeatedIdLosesRound | internal/chat/service_messages.go:565-602 | With a repeated id the second round is not stored back unchanged |
| HistoryBuild.TotalCostShrinks | internal/chat/service_messages.go:776-860 | Each message adds at least one token to the running total |
| HistoryBuild.SplitUnique | internal/chat/service_messages.go:776-860 | There is only one maximal fitting suffix |
| HistoryBuild.TotalCostMeaning | internal/chat/service_messages.go:787-804 | The running total is the sum of the estimates, at least 1 each, and all attachments for every message with the last id |
| HistoryBuild.SuffixCost | internal/chat/service_messages.go:787-804 | With different ids every non-empty suffix pays for the attachments exactly once |
| HistoryBuild.SumSplits | internal/chat/service_messages.go:794-798 | The attachments' tokens add up over any split of the list |
| HistoryBuild.ConvertMeaning | internal/chat/service_messages.go:806-851 | What each kind of stored message becomes |
| HistoryBuild.AttachmentTokens | internal/chat/service_messages.go:790-798 | The last message also carries the tokens of the current attachments |
| HistoryBuild.ReverseInPlace | internal/chat/service_messages.go:854-857 | The in-place swap loop reverses the array |
| HistoryBuild.BuildHistoryFromDB | internal/chat/service_messages.go:776-860 | The stored messages are split at one point: the kept suffix plus the initial tokens fits, one message more would not, the trimmed part is the prefix, and the history is the suffix converted message by message in order |
| HistoryRequest.BuildNormalHistory | internal/chat/service_messages_build.go:325-326 | History of the regular path: the longest fitting suffix, converted and cleaned |
| HistoryRequest.RowReadsBack | internal/chat/service_messages.go:806-831 | A stored tool call, tool result or reply reads back as the message that was stored |
| HistoryRequest.RowsRepresent | internal/chat/service_messages.go:806-851 | Rows written message by message read back as the turns |
| HistoryRequest.RequestFromTurns | internal/chat/service_messages_build.go:325-326 | For stored turns with different call ids the request gets, message by message as stored, exactly the part of the longest fitting suffix from its first user message on, and that part fits |
| Download.Downloader.Write | internal/llm/model_hub.go:636-643 | A write at the offset changes exactly the open file |
| Download.Downloader.CopyBody | internal/llm/model_hub.go:657-715 | The loop appends what arrived, ends as the body, connection, disk or cancel dictates, and counts the file's length |
| Download.Downloader.DownloadHubFile | internal/llm/model_hub.go:570-749 | Both files and the outcome after one attempt, for every server answer, every break and every failed step; what that means for the bytes is stated by the laws of DownloadLaws and DownloadKeeps |
| Download.Downloader.DownloadSingle | app_model_downloader.go:189-207 | Skips exactly when the target exists and the size is unknown or reached, otherwise attempts |
| Download.WriteAtMeaning | internal/llm/model_hub.go:636-643 | A write replaces the bytes from the offset on, extends the file if need be, and changes nothing else |
| DownloadLaws.CopyKeepsPrefix | internal/llm/model_hub.go:657-715 | Whatever happens during the copy, the file only grows and stays a prefix of the remote file |
| DownloadLaws.AttemptIsSafe | internal/llm/model_hub.go:570-749 | After any attempt the target and its temporary file are both prefixes of the remote file |
| DownloadLaws.SuccessMeansWhole | internal/llm/model_hub.go:570-749 | With the size known, success means the target is the whole file, on 206 as on 200 |
| DownloadLaws.SuccessMeansWholeWithLength | internal/llm/model_hub.go:615-622 | The same holds when only the response announces the length |
| DownloadLaws.RunIsSafe | internal/llm/model_hub.go:570-749 | Over every sequence of attempts both files stay prefixes, and a sized success is complete |
| DownloadLaws.ProgressIffNotStranded | internal/llm/model_hub.go:573-612 | From every sound state an undisturbed attempt completes if and only if the state is not (target absent, temporary file complete) |
| DownloadLaws.StrandedForever | internal/llm/model_hub.go:573-612 | From that state no number of attempts against a server answering 416 ever changes anything |
| DownloadLaws.StrandedReachable | internal/llm/model_hub.go:706-714 | One lost connection after the last byte leads there |
| DownloadLaws.SingleSuccessMeansWhole | app_model_downloader.go:189-207 | With a probed size the caller's decision is sound |
| DownloadLaws.SingleWithoutProbeExact | app_model_downloader.go:190-203 | Without one an existing target is reported complete, rightly if and only if it has the full length |
| DownloadLaws.PartialFileReportedComplete | app_model_downloader.go:190-203 | Cancelled first download, failed probe: success for a partial file |
| DownloadLaws.CopyLength | internal/llm/model_hub.go:685-708 | At the end of the body the file has grown by the bytes read |
| DownloadLaws.UnsizedSuccessExact | internal/llm/model_hub.go:615-622 | With neither a probed nor an announced size, a success is the whole file if and only if the reads delivered all of it |
| DownloadLaws.EarlyEndReportedComplete | internal/llm/model_hub.go:706-739 | A response of unknown length that ends after one byte is reported complete |
| DownloadKeeps.CopyAppends | internal/llm/model_hub.go:661-715 | Copying appends exactly the bytes of the body that reads and writes let through, and ends as the script says |
| DownloadKeeps.DisturbedKeeps | internal/llm/model_hub.go:661-715 | A lost connection, a failed write, a cancel or a kill leaves the file written as what it held followed by exactly the bytes accepted, the other file alone; cancel reports paused and moves the temporary file, the others never report success |
| DownloadKeeps.ResumedGrows | internal/llm/model_hub.go:625-715 | A resumed attempt that is disturbed only ever extends what there was |
| DownloadKeeps.EndedAttempt | internal/llm/model_hub.go:717-748 | When the body ends: success if and only if closing worked, the file is whole and the rename, where needed, worked; a short file and one that cannot be renamed are removed |
| DownloadKeeps.UntouchedOtherwise | internal/llm/model_hub.go:576-622 | An attempt that never copies changes nothing and succeeds if and only if the target is whole |
| DownloadKeeps.DisturbedLosesNothingIff | internal/llm/model_hub.go:604-715 | A disturbed attempt keeps at least as many bytes as there were if and only if it resumed, got as far again, or left a target it had not resumed alone |
| DownloadKeeps.CancelCanLoseBytes | internal/llm/model_hub.go:604-681 | A concrete loss: the server ignores the range and cancelling puts the new, shorter file over the target |
| DownloadKeeps.GentleKeeps | internal/llm/model_hub.go:570-749 | Against a server that honours ranges, without a failed size check or rename, an attempt never loses bytes |
| DownloadKeeps.BytesNeverFall | internal/llm/model_hub.go:570-749 | Over every such run the number of bytes held never falls |
| Watchdog.Server.Degrade | internal/llm/server.go:906-975 | The two fallbacks set the flag and the level, and decide the wait |
| Watchdog.Server.Attend | internal/llm/server.go:884-1030 | One turn of the loop: every branch, from cancel to recovery |
| Watchdog.Server.WatchWithCallback | internal/llm/server.go:865-1032 | The loop's events, the permanent-failure flag, the reported speculative type and the degrade level are those of the run of its polls, from any prior level and flags |
| Watchdog.StoppedStays | internal/llm/server.go:883-1032 | Once the loop returned nothing further happens |
| WatchdogLaws.TurnKeepsInvariant | internal/llm/server.go:883-1032 | Every turn keeps the invariant described next |
| WatchdogLaws.RunInvariant | internal/llm/server.go:865-1032 | In every run: at most maxAttempts attempts between successes, every wait is the planned one except at most three fast ones per streak, the degrade level stays within 0..2, and giving up is the last event, after a full streak |
| WatchdogLaws.PlannedNext | internal/llm/server.go:906-908 | Each planned wait is twice the one before, capped at a minute |
| WatchdogLaws.TurnDegrades | internal/llm/server.go:927-1017 | The level never falls except to 0 at a successful restart; a disabled speculative decoding stays disabled |
| WatchdogLaws.SpecStaysOff | internal/llm/server.go:914-925 | That holds through any further run |
| WatchdogLaws.PermanentIff | internal/llm/server.go:890-904 | Permanent failure is declared if and only if some poll finds the server down after maxAttempts attempts in a row |
| WatchdogLaws.DeadServerIsGivenUp | internal/llm/server.go:874-904 | A server that never comes back is given up on the poll after maxAttempts failures (10 unless configured), not earlier |
| WatchdogLaws.FlappingServerIsNeverGivenUp | internal/llm/server.go:883-1024 | A server that starts and crashes again is restarted without end, for any number of crashes |
| WatchdogCrashes.CrashConsequences | internal/llm/server.go:906-975 | A crash within 120 s of the start disables speculative decoding where configured and takes a level below 2 to 2 when out of memory, one up otherwise; the wait is 1 s if and only if one of the two happened; a later crash does neither |
| WatchdogCrashes.NoCrashNoConsequence | internal/llm/server.go:883-1031 | A turn that attends to no crash changes neither level, nor speculative decoding, nor the next wait |
| WatchdogCrashes.TurnEvents | internal/llm/server.go:883-1031 | Exactly when a turn attempts a restart, succeeds, gives up, or ends the loop; a success resets the count and the wait |
| WatchdogCrashes.SpecOffIff | internal/llm/server.go:914-925 | A run turns speculative decoding off if and only if it was configured and some attended crash came within 120 s |
| WatchdogCrashes.LateCrashesWaitAsPlanned | internal/llm/server.go:906-975 | If every crash comes later, every wait is the planned one, no level rises and speculative decoding stays |
| WatchdogCrashes.PlannedInMilliseconds | internal/llm/server.go:866-908 | The wait before attempt k is min(initial * 2^(k-1), 60000 ms) for an initial wait of at most a minute, 2000 ms unless configured |
| Generation.Service.BeginGeneration | internal/chat/service.go:152-167 | The lock section takes the next token, fills the slot and hands the displaced cancel function to the caller |
| Generation.Service.Cleanup | internal/chat/service.go:176-183 | The closure empties the slot only when its token is the newest |
| Generation.Service.StopGeneration | internal/chat/service_methods.go:22-47 | The lock section empties the slot and hands its cancel function to the caller |
| Generation.Service.SetConvID | internal/chat/service_methods.go:228-232 | The late write sets the conversation id without looking at the token |
| Generation.NextKeepsInvariant | internal/chat/service.go:152-184 | Every step of every caller keeps the slot invariant |
| Generation.RunKeepsInvariant | internal/chat/service.go:152-184 | It holds in every interleaving |
| Generation.SlotHoldsNewest | internal/chat/service.go:152-184 | A cancel function in the slot belongs to the newest generation, still unfinished |
| Generation.CleanupTakesOnlyItsOwn | internal/chat/service.go:176-183 | In every run a cleanup empties an occupied slot exactly when its own generation is in it |
| Generation.DisplacedIsCancelled | internal/chat/service.go:152-184 | A generation out of the slot and not finished has been cancelled or its canceller holds its function |
| Generation.CancelledAtMostOnce | internal/chat/service.go:152-184 | No cancel function is called twice by those who take it from the slot |
| Generation.AllFinishedSlotEmpty | internal/chat/service.go:152-184 | Once all generations have cleaned up the slot is empty |
| Generation.StopNamesWrongConversation | internal/chat/service_stream.go:815-817 | A late write of an older generation leaves its id beside the newer generation's cancel function |
| Generation.IdFollowsSlotIff | internal/chat/service_stream.go:815-817 | In every run, while the slot is occupied its id is that of its generation if and only if the last late write since that generation began, if any, was its own |
| Generation.IdAlwaysFollowsIff | internal/chat/service_methods.go:228-232 | Throughout a run the id follows the slot if and only if no generation ever writes over another's |
| Generation.EmptySlotNamesNothingIff | internal/chat/service_methods.go:228-232 | Throughout a run an empty slot names no conversation if and only if none is ever written into an empty slot |
| Generation.LateWriteAfterStop | internal/chat/service_stream.go:815-817 | A concrete run: stopped, and still naming a conversation |
| ModelSwitch.Session.SetCurrentModel | internal/modelruntime/session.go:31-35 | Only the current model changes |
| ModelSwitch.Session.BeginSwitch | internal/modelruntime/session.go:45-54 | Reserves the session, or reports false and changes nothing |
| ModelSwitch.Session.ClearTarget | internal/modelruntime/session.go:58-62 | Only the target is cleared |
| ModelSwitch.Session.EndSwitch | internal/modelruntime/session.go:65-70 | Flag and target are cleared |
| ModelSwitch.Session.TakeSnapshot | internal/modelruntime/session.go:72-80 | The three fields as they are |
| ModelSwitch.App.EmitErrorStatus | app_server_switch.go:88-98 | Error text and failure flag are set, nothing else |
| ModelSwitch.App.ClearServerLoadFailure | app_server_switch.go:108-113 | Error text and failure flag are cleared, nothing else |
| ModelSwitch.App.SwitchPreCheck | app_server_switch.go:443-451 | Accepts if and only if the server is up and nobody is switching, and then holds the session |
| ModelSwitch.App.SwitchPrepare | app_server_switch.go:536-549 | Remembers the current model and lowers the ready flag |
| ModelSwitch.App.SwitchFinalize | app_server_switch.go:809-949 | The session, ready flag and failure state after success |
| ModelSwitch.App.LoadTarget | app_server_switch.go:403-436 | The calls of a load: a first load, a wait unless it found the model running, and after a failed load the reload of the preset and a second load exactly when that worked; the error handed on is that of the last load or wait made |
| ModelSwitch.App.HandleSwitchFailure | app_server_switch.go:952-993 | Restores and rolls back exactly when there is another previous model and the server takes it back; the state of both branches |
| ModelSwitch.App.CompleteSwitch | app_server_switch.go:403-440 | The owner's part after the session is reserved: outcome, calls and final state |
| ModelSwitch.App.SwitchModel | app_server_switch.go:373-440 | Refused without effect and without a call; otherwise switched if and only if the last load reported no error and the model was running already or came up in time, rolled back if and only if not and the previous model was restored, and else lost with the last error; with the calls made and the whole state of each case |
| ModelSwitch.NoErrorIffUp | app_server_switch.go:403-436 | Under that protocol the last error is empty if and only if the target is up |
| ModelSwitch.AfterMeaning | app_server_switch.go:809-993 | The state each outcome leaves, field by field |
| SwitchRuns.PlanReachesAfter | app_server_switch.go:809-993 | The single locked actions of an outcome, one after the other, reach the state of the whole switch and end in the release |
| SwitchRuns.NextKeepsInvariant | app_server_switch.go:373-440 | Every step of every caller keeps the protocol invariant |
| SwitchRuns.RunKeepsInvariant | app_server_switch.go:373-440 | It holds in every interleaving |
| SwitchRuns.OneOwner | internal/modelruntime/session.go:45-54 | At most one caller is inside a switch |
| SwitchRuns.RefusedIffOwned | app_server_switch.go:443-451 | In every run a caller is refused if and only if the server is down or another caller is inside its switch, and then changes neither shared state nor another caller |
| SwitchRuns.ReleasedExactlyOnce | app_server_switch.go:373-440 | Every caller that finished has released the session exactly once, every other one never |
| SwitchRuns.IdleMeansSequential | app_server_switch.go:373-440 | Whenever nobody is switching, the state is the one the completed switches leave when run one after the other |
| SwitchRuns.SequentialMeaning | app_server_switch.go:373-440 | That state: no target, current model the last successful target, ready after success and rollback, error recorded after a loss |
| SwitchRuns.LoadedDecides | app_server_switch.go:403-440 | In every interleaving: success if and only if the target is up, rollback if and only if not and another previous model was restored, a loss carries the last error |
| SwitchRuns.LostHasMessage | app_server_switch.go:952-993 | The recorded error is never empty |
| SwitchRuns.ReadyWithoutFailureIff | app_server_switch.go:100-113 | After success or rollback the server is ready, and the failure flag is down if and only if no loss is left uncleared by a later success |
| SwitchRuns.RollbackLeavesFailureFlag | app_server_switch.go:952-993 | A loss followed by a successful rollback is ready and failed at once |
| ToolApproval.NeedsApprovalMeaning | internal/chat/tool_approval.go:79-114 | A call passes unasked if and only if its tool is session-allowed, the mode is never, or the mode is not always and the tool is search or known to be read-only; with the risk label of every case |
| ToolApproval.Service.ToolNeedsApproval | internal/chat/tool_approval.go:101-114 | The decision and the risk label, without changing state |
| ToolApproval.Service.Register | internal/chat/tool_approval.go:153-159 | A fresh channel under the call's id, replacing any other |
| ToolApproval.Service.Take | internal/chat/tool_approval.go:126-146 | The waiting request of the id, removed; the tool is remembered only on approve-and-remember |
| ToolApproval.Service.Delete | internal/chat/tool_approval.go:171-175 | The id is removed |
| ToolApproval.ExecuteToolCallsConcurrently | internal/chat/service_tool_call_loop.go:141-202 | For every completion order, result i is that of call i, a denial of call i, or empty for an unknown tool |
| ApprovalRuns.NextKeepsInvariant | internal/chat/tool_approval.go:94-201 | Every step of every request and answer keeps the protocol invariant |
| ApprovalRuns.RunKeepsInvariant | internal/chat/tool_approval.go:94-201 | It holds in every interleaving of requests, answers, timeouts and cancels |
| ApprovalRuns.DispatchIsJustified | internal/chat/tool_approval.go:191-201 | A dispatched call was approved under its own id, its tool was remembered by an approval, or mode and risk ask for none |
| ApprovalRuns.AllowListOnlyRemembered | internal/chat/tool_approval.go:126-146 | Every allowed tool was approved with "remember" |
| ApprovalRuns.AllowListGrowsIff | internal/chat/tool_approval.go:126-146 | A step adds a tool to the allow list if and only if it answers a pending request of that tool with approve-and-remember |
| ApprovalRuns.OneDecisionAndNoBlocking | internal/chat/tool_approval.go:126-146 | Every request gets at most one decision, and its send finds an empty channel |
| ApprovalRuns.AnswerableIff | internal/chat/tool_approval.go:126-188 | In every run a request that waits unanswered can still be answered if and only if, since it registered, no other request under the same id has registered or ended |
| ApprovalRuns.OpenRequestsAnswerable | internal/chat/tool_approval.go:150-188 | In particular distinct ids keep every open request answerable |
| ApprovalRuns.RepeatedIdHidesFirst | internal/chat/tool_approval.go:153-175 | With a repeated id the first request can no longer be answered |
| LoadPolling.EvaluateModelState | internal/llm/client_wait_model.go:196-254 | The counters after one parsed response, and exactly which entries are a failure, a crash, or a second loaded state in a row |
| LoadPolling.CheckVramCrash | internal/llm/client_wait_model.go:259-287 | The memory counters and the crash verdict of one reading |
| LoadPolling.HandleModelNotFound | internal/llm/client_wait_model.go:291-305 | A missing entry is an error exactly when it was seen before |
| LoadPolling.WaitForModelLoaded | internal/llm/client_wait_model.go:61-124 | The loop returns the first verdict of the trace, or times out |
| LoadPolling.VerdictIsFinal | internal/llm/client_wait_model.go:75-121 | Later polls cannot change a verdict |
| LoadVerdicts.CountersFollowTrace | internal/llm/client_wait_model.go:41-49 | While the wait is open each counter equals what the trace of polls says, independently of the code's bookkeeping |
| LoadVerdicts.VerdictFromTrace | internal/llm/client_wait_model.go:196-305 | The verdict of each poll is the one defined on the literal responses of the trace alone |
| LoadVerdicts.EntryEndsWaitIff | internal/llm/client_wait_model.go:205-236 | While the wait is open a response ends it as failed if and only if the failed flag is set or the state is "failed", and as crashed if and only if the entry is unloaded without the flag and with an exit code other than 0 |
| LoadVerdicts.FailureNeedsEntry | internal/llm/client_wait_model.go:205-236 | Every verdict of failure or crash comes from a response that shows it |
| LoadVerdicts.LoadedNeedsTwoInARow | internal/llm/client_wait_model.go:75-121 | Success needs the two most recent parsed responses to show the target loaded or sleeping |
| LoadVerdicts.VramCrashNeedsThreeFree | internal/llm/client_wait_model.go:259-287 | A memory crash needs an occupied reading followed by three free ones, none occupied between, on polls where the target is not loaded |
| LoadVerdicts.DisappearanceNeedsSighting | internal/llm/client_wait_model.go:291-305 | Disappearance is an error only after the target was listed |
| LoadVerdicts.StabilityAcrossUnusable | internal/llm/client_wait_model.go:75-121 | An unusable response between two loaded ones does not disturb the count, one that shows another state does |
| Escaping.EscapeXmlPerCharacter | internal/chat/service_messages.go:104-111 | The five replacements in their order equal one entity per character |
| Escaping.XmlRoundTrip | internal/chat/service_messages.go:104-111 | Decoding the predefined entities (section 4.6 of XML 1.0) returns the input, for every string |
| Escaping.NoRawMarkup | internal/chat/service_messages.go:104-111 | No position of the output holds a raw markup character; an ampersand only in front of an entity |
| Escaping.EscapedIffOutput | internal/chat/service_messages.go:104-111 | The texts free of raw markup are exactly the outputs of the escaper |
| Escaping.CsvEscapeMeaning | internal/chat/service_methods.go:437-442 | The three replacements double the quotes of the text with its line ends normalised |
| Escaping.NormaliseIdentityIff | internal/chat/service_methods.go:437-442 | Normalised text has no carriage return, and text is unchanged if and only if it had none |
| Escaping.CsvRoundTrip | internal/chat/service_methods.go:413-435 | Reading the file by the quoting rules of section 2 of RFC 4180 gives the header and one record per user message with its next assistant reply |
| Escaping.RecordOf | internal/chat/service_methods.go:413-435 | The record of a user message: its place, its text, and the text of the message right behind it if that is the assistant's |
| Escaping.ExportCsv | internal/chat/service_methods.go:413-435 | The loop writes a file that reads back as that header and those records |
| Escaping.CsvLosslessIff | internal/chat/service_methods.go:413-442 | The records are the stored texts themselves if and only if no exported text holds a carriage return |

## Left out

- HTTP requests, event-stream scanning, JSON, SQLite, desktop events and logging: plumbing; their results are parameters here.
- Processes, job objects, pseudo consoles and the single-instance mutex: foreign calls; whether the server runs is an arbitrary poll value, so nothing is said about how many server processes live at once.
- Configuration, backend resolution, the health monitor and status callbacks: finite case splits, or writers of the ready and failure flags that follow no protocol with the switch.
- Token counting, language detection, keyword tables, prompt text and summary generation with its background goroutine: only the attributes they give a message matter.
- Thinking durations, usage, timings and the completion id in the accumulator: plain assignments.
- Time-outs and cancellation inside the switch's model loading: the answers of the server's calls are arbitrary, also that of the wait for readiness, which the code as it stands always lets pass; as in the code, a failed wait for the restored model does not count as failure.
- Finding a model's entry by fuzzy name: the poll gives the first matching entry.
- LoadFileWithCache: the file does not change while one call runs, and time stamps are integers.
- ExecuteToolCallsConcurrently: what the gate and the tool answer, also after a cancel or a recovered panic, is an arbitrary value per call; data races on the result slots are excluded by the model, one slot per call.
- CleanToolCallPairs: works on values; the reuse of the caller's backing array by in-place deletion is not modelled.
- TrimMessagesToFit: works on values; sharing of the caller's backing array is not modelled.
- SelectImportantMessages: the library sort is modelled as the stable insertion sort that meets its specification; the candidate order is unique, so any sort agrees.
- WatchWithCallback: an unbounded loop, followed over every finite sequence of polls.
- WaitForModelLoaded: the deadline is the end of the trace; sleeping between polls is not modelled.
- DownloadHubFile: progress callbacks and the size of the read buffer are not modelled.
- ExportCsv: characters are those of the text, and the reader takes any character outside quotes, commas and line ends as text, where RFC 4180 names printable ASCII only.
- The other exporters, retrieval, search, GGUF parsing and encryption: not part of this model.
