# PicoClaw: a verified model of its stateful core

This project models the parts of PicoClaw whose correctness depends on state, arithmetic or interleaving, and proves
what they promise. Code that works step by step is modelled as classes and methods with loops, proved against
specification functions; what the code promises is then proved about those functions, for all inputs and all runs.

- **Message splitter** (`Text`, `Split`, `SplitConservation`, `SplitBalance`, `SplitBlocks`, `SplitTermination`,
  `SplitStuck`, `SplitEnding`, `SplitCuts`, `SplitExamples`, `SplitMessage`). One iteration is a `Decision` (`Decide`), a
  run is n iterations (`Run`), total for every text and limit, so that safety, conservation and balance hold of every
  prefix of every run, also where the loop does not end. `SplitCuts` says of the runes themselves where each iteration
  cuts. `SplitMessage.SplitMessage` is the loop itself.
- **Cron scheduler** (`Cron`, `CronRuns`, `CronSafety`, `CronCallbacks`, `CronRestarts`, `CronOverlaps`,
  `CronProgress`). `CronService` is the service with one method per section that holds the lock. `CronRuns` lets these
  sections interleave in any order: several run loops, each with its batch of collected jobs, which return some time
  after the service was stopped; jobs added, removed and toggled; and the service stopped and started, under a clock that
  does not run backwards. A *collection* is a tick that takes a due job; a *call* is a call of the job's handler, which
  may come much later.
- **Search cache** (`Trigrams`, `SearchCache`). Trigrams are sorted and deduplicated in place in an array; the two-pointer
  merge is proved equal to set similarity; recency is stated over a ghost log of uses.
- **Conversation pipeline** (`Transcript`, `ToolGroups`, `AgentRuns`, `AgentTrace`, `AgentLoop`). The history sanitizer,
  emergency compression, the retry loop and the tool-call loop over the session store. `AgentRuns` says as functions what
  a run comes to, `AgentTrace` as a relation how each call of the model follows from the one before. `Grouped` says that
  every assistant turn with tool calls is followed by exactly its results; `Loose` says what compression may leave
  behind.
- **Prompt cache** (`PromptCache`). The disk is a timeline: every stat and every read happens at an instant of its own,
  and files may be written between any two of them, also while the prompt is being built.
- **Provider failover** (`Cooldown`, `Fallback`). Exponential cooldowns with a reset window, and the fallback chain that
  they drive.
- **MCP shutdown** (`McpShutdown`, `McpProgress`). Tool calls, connection stores and closers as interleaved atomic steps over a
  read/write lock, a wait group and the closed flag.
- **Media index and session keys** (`MediaStore`, `SessionKeys`).

Where the code and its documentation or its intent part ways, the model follows the code:

- The splitter's comment promises to preserve code blocks. A chunk that stops before an open block may end inside an
  earlier one (`SplitExamples.StopsInsideAnEarlierBlock`), and a cut between two backticks makes the scanner take an
  opening fence for a closing one (`SplitExamples.ExtendsToAnOpeningFence`). `SplitBalance.DecisionBalance` says for every
  branch exactly when the chunk is balanced, and `SplitBlocks.BlocksStayWholeIff` carries that over whole runs.
- The splitter need not terminate: a block whose header line leaves fewer than 7 of the `maxLen` runes is put back
  forever (`SplitStuck.NeverEnds`, `SplitExamples.SomeTextsAreStuck`, `SplitExamples.FourBackticksAreStuck`), and that
  is the only way: for every text and limit the loop ends if and only if its run never comes to such a text
  (`SplitEnding.TerminatesIffNeverStuck`). In particular it ends whenever every header line leaves that room, and
  always for `maxLen` <= 4 (`SplitTermination.Ends`); for a text that is one unclosed block this is exact
  (`SplitEnding.TerminatesIff`).
- Two *collections* of a periodic job are always at least its period apart. Two *calls* need not be, once there are two
  run loops: starting the service again while a loop is still busy with the job, or enabling the job while one loop is
  busy with it and there is another that has not returned, can bring two calls together.
  `CronOverlaps.StepKeepsPeriodsIff` says that these are the only steps that can, and exactly when they do
  (`RestartKeepsPeriodsIff`, `EnableKeepsPeriodsIff`, with the runs `RestartBreaksThePeriod` and
  `EnableBreaksThePeriod`).
- The sanitizer keeps tool results under their calls, but not calls with their results: a history whose last group was
  interrupted is sent with a call that has no result (`ToolGroups.InterruptedGroupsStay`). Anchoring, the bound
  on the calls of the model, and complete groups in what is appended while answering hold for every stored history
  (`AgentRuns.RequestsAreAnchored`); complete groups throughout hold from histories that have them.
- The comment on emergency compression says that the user's last message is kept. It keeps the last message, which after
  a tool turn is a tool result; the user's message may be among those dropped (`AgentTrace.TheQuestionMayGo`).
- `Close` closes exactly the sessions that are in the map when it takes the lock again (`McpShutdown.ClosedIffInTheMap`).
  A connection that is stored after that, and one that was replaced under its name before, is never closed
  (`McpShutdown.LateStoreLeaks`, `McpShutdown.ReplacedConnectionLeaks`).
- A prompt-cache hit misses a file that was missing when the build looked for it, there when the build read it, and
  missing again at the check (`PromptCache.SomeHitsAreStale`); `PromptCache.HitIsCurrentIff` says that this is the only
  way to be wrong.
- A main session key normalizes its agent twice. That matters exactly for a normal form that starts with `_` and ends
  in `-`, which cutting to 64 characters can leave (`SessionKeys.NormalizeTwiceIff`, `SessionKeys.SomeIdsAreTwisted`).

## Model

| member | source | states |
|---|---|---|
| `Split.Decide` | pkg/channels/split.go:32-125 | every iteration, in every branch, cuts inside the text and (with room for the injected fence) at most `maxLen` runes after `start`; it takes the rest exactly if the rest fits |
| `Split.FirstCut` | pkg/channels/split.go:39-51 | the natural split point lies after `start`, within the limit, and is a newline, a blank, or the limit itself; which of them, `SplitCuts.FirstCutIff` says |
| `SplitCuts.LimitIs` | pkg/channels/split.go:25-37 | half of `maxLen` below 100 runes, all but 50 below 500, all but a tenth from then on |
| `SplitCuts.FirstCutIff` | pkg/channels/split.go:39-51 | the natural split point is the last newline of the last 200 runes before the limit; if there is none after `start`, the last space or tab of the last 100; if there is none either, the limit |
| `SplitCuts.PlainCutsAreNatural` | pkg/channels/split.go:31-137 | for text without a fence, over every prefix of the run: every chunk ends at such a point of what was left, or is all that was left |
| `SplitCuts.OpenIsTheLastOfAnOddNumber` | pkg/channels/split.go:144-163 | a block is open at the end of a stretch exactly if the stretch has an odd number of fences, taken from the left without overlap; it is the last one's |
| `SplitCuts.CutIff` | pkg/channels/split.go:39-120 | for every text, start and limit: exactly where the next chunk ends and which header is put back, in terms of newlines, blanks and fences: on to the first fence if that is in reach, inside the block, before it, or at the last resort |
| `SplitCuts.StepCuts` | pkg/channels/split.go:91-136 | the chunk handed out and the text that is left, given that end and that header |
| `Split.BetterCut` | pkg/channels/split.go:80-90 | a newline found past the header in the larger window is never before the natural split point, because the two windows nest |
| `Split.ChunksFit` | pkg/channels/split.go:31-137 | for every text, every `maxLen` > 0 and every prefix of the run, no chunk is longer than `maxLen` and the position stays in the text |
| `SplitConservation.Conservation` | pkg/channels/split.go:91-97 | for every text and every prefix of the run: taking back the injected fences and headers, the non-space runes of the chunks and of what is left are exactly those of the input, in order |
| `SplitConservation.PlainTextIsCut` | pkg/channels/split.go:131-136 | a text without a fence is cut into contiguous pieces, in order; only blanks between two pieces are dropped |
| `SplitBalance.ExtendedBalance` | pkg/channels/split.go:57-63 | a chunk that runs on to the next fence is balanced if and only if no fence straddles the cut, or the closing fence overlaps the straddling one |
| `SplitBalance.InjectedBalance` | pkg/channels/split.go:79-99 | a chunk that gets a fence injected is balanced if and only if no fence straddles the natural cut |
| `SplitBalance.ClosedBalance` | pkg/channels/split.go:91 | trimming a text and adding a newline and a fence turns balanced into unbalanced and back |
| `SplitBalance.DecisionBalance` | pkg/channels/split.go:53-125 | for `maxLen` >= 10, every text and every start: the exact balance of the chunk, branch by branch; a plain chunk is always balanced |
| `SplitBalance.BeforeBalance` | pkg/channels/split.go:101-111 | for every `maxLen` > 0: a chunk that stops before the open block is balanced if and only if the stretch between its end and that block is |
| `SplitBalance.StopsOutsideBlocks` | pkg/channels/split.go:101-111 | such a chunk is balanced whenever no fence stands between its end and the open block |
| `SplitBalance.NaturalCutBalances` | pkg/channels/split.go:53-121 | if the natural cut does not lie between two backticks, extended, injected and plain chunks are balanced |
| `SplitBlocks.CutBalance` | pkg/channels/split.go:144-163 | where a text is cut between two backticks, its balance is that of its two sides if and only if what is left over of the backticks on both sides, after taking off whole fences, does not make up a fence |
| `SplitBlocks.StepKeepsBlocksIff` | pkg/channels/split.go:32-136 | for `maxLen` >= 10, when all chunks so far and what is left are balanced: an iteration keeps that so if and only if it is well cut, that is, loses no fence at its end, stops in no earlier block, closes what is open, and puts back a header that opens the block once or makes up for a lost fence |
| `SplitBlocks.BlocksStayWholeIff` | pkg/channels/split.go:31-137 | over whole runs: all chunks and what is left stay balanced if and only if the text is balanced and every iteration is well cut; the last chunk is included |
| `SplitTermination.ReopenedFits` | pkg/channels/split.go:67-77 | putting a header back keeps every header line of the text short enough |
| `SplitTermination.InnerSplitShrinks` | pkg/channels/split.go:80-98 | a split inside a block shortens what remains by at least 20 runes, whatever the header |
| `SplitTermination.LastResortShrinks` | pkg/channels/split.go:110-120 | a last-resort split shortens what remains if the header line leaves 7 runes |
| `SplitTermination.Progress` | pkg/channels/split.go:32-137 | with headers that leave room, or `maxLen` <= 4, every iteration shortens what remains, adds one chunk and keeps the hypothesis |
| `SplitTermination.Ends` | pkg/channels/split.go:31-137 | then the loop ends after at most as many iterations as the text has runes |
| `SplitStuck.LongLeavesStuck` | pkg/channels/split.go:110-120 | an iteration that reopens a block with too long a header leaves a text that fits into one chunk, or that does the same forever, unless the text has no newline and the next fence stands directly at the cut |
| `SplitStuck.NeverEnds` | pkg/channels/split.go:112-120 | on a text that opens with a block, of however many backticks, that is not closed soon and whose header line leaves too little room, the loop never ends |
| `SplitStuck.StuckRunsDoNotEnd` | pkg/channels/split.go:31-137 | for every text: a run that comes to a text as in `NeverEnds`, wherever it stood in the input, does not end |
| `SplitEnding.InjectIsLighter` | pkg/channels/split.go:64-120 | every other iteration that puts a header back makes the rest lighter, in the sum of 3^length over the lines, although it may not get shorter |
| `SplitEnding.TerminatesIffNeverStuck` | pkg/channels/split.go:31-137 | for every text and every `maxLen` > 0: the loop ends if and only if its run never comes to such a text |
| `SplitEnding.TerminatesIff` | pkg/channels/split.go:31-137 | a text that is one unclosed block, opened by three to five backticks and too long for a chunk: the loop ends if and only if the header line leaves 7 runes |
| `SplitExamples.StopsInsideAnEarlierBlock` | pkg/channels/split.go:101-107 | a text and a limit at which the chunk that stops before the open block ends inside an earlier block |
| `SplitExamples.ExtendsToAnOpeningFence` | pkg/channels/split.go:60-63 | a text and a limit at which the extended chunk is not balanced |
| `SplitExamples.SomeTextsAreStuck` | pkg/channels/split.go:112-120 | a 13-rune text on which the splitter with limit 10 never ends |
| `SplitExamples.FourBackticksAreStuck` | pkg/channels/split.go:112-120 | another one, opened by four backticks |
| `SplitMessage.FindLastUnclosedCodeBlockInRange` | pkg/channels/split.go:144-163 | the scanning loop finds the fence that the toggling scanner leaves open |
| `SplitMessage.FindNextClosingCodeBlockInRange` | pkg/channels/split.go:166-174 | the loop finds one past the first fence at or after an index |
| `SplitMessage.FindNewlineFrom` | pkg/channels/split.go:177-184 | the loop finds the first newline at or after an index |
| `SplitMessage.FindLastNewlineInRange` | pkg/channels/split.go:188-196 | the loop finds the last newline of the window, or `start` - 1 |
| `SplitMessage.FindLastSpaceInRange` | pkg/channels/split.go:200-208 | the loop finds the last space or tab of the window, or `start` - 1 |
| `SplitMessage.FindCut` | pkg/channels/split.go:39-129 | the searches of one iteration arrive at the cut, and the header to put back, of `Decide` |
| `SplitMessage.CutInsideBlock` | pkg/channels/split.go:64-123 | the branches for a block that is not closed soon enough arrive at the decision of `DecideInside` |
| `SplitMessage.NextChunk` | pkg/channels/split.go:32-136 | one iteration of the loop is one step of the run, including the two ways of replacing the text |
| `SplitMessage.SplitMessage` | pkg/channels/split.go:13-140 | on every text on which the loop ends: the chunks of the finished run, each at most `maxLen` long, and undoing the injections gives the input's non-space runes back; text without a fence is cut naturally; within as many rounds as there are runes if the header lines leave room; without a positive limit the text as it is |
| `Cron.ComputeNextRun` | pkg/cron/service.go:246-280 | a one-shot job is armed only for its own time and only if that lies ahead; a periodic one for one period from now |
| `CronProgress.ArmedIff` | pkg/cron/service.go:82-451 | adding, enabling and starting arm a job, and finishing arms a periodic or cron job again, for exactly the time its schedule asks for: a one-shot job's own time if it lies ahead, one period from now, the next tick |
| `CronProgress.ArmedJobsAreCollected` | pkg/cron/service.go:82-451 | over every run: a job so armed is collected by the first tick at or after its time that finds the service running, unless it is removed, toggled, finished by another loop or armed afresh before |
| `CronProgress.CollectedJobsAreCalled` | pkg/cron/service.go:170-243 | over every run: a collected job that stays in the store has had its handler called by the time its batch does not hold it any more, and a loop with a batch can always go on |
| `CronProgress.RunningServiceHasALoop` | pkg/cron/service.go:82-133 | over every run: while the service runs there is a run loop that can take its next step |
| `CronProgress.OffIsNotCollected` | pkg/cron/service.go:135-168 | over every run: a job that was removed or disabled is not collected until it is enabled |
| `CronProgress.FinishRecords` | pkg/cron/service.go:200-243 | after its run a one-shot job is gone or switched off, and any job that stays bears the run's start and error |
| `Cron.CronService.AddJob` | pkg/cron/service.go:343-384 | appends a job armed from the clock, deleted after its run exactly if it is one-shot, and saves |
| `Cron.CronService.RemoveJob` | pkg/cron/service.go:400-425 | drops exactly the jobs with the identifier, and saves exactly if there was one |
| `Cron.CronService.EnableJob` | pkg/cron/service.go:427-451 | arms the first job with the identifier afresh, or disarms it |
| `Cron.CronService.Collect` | pkg/cron/service.go:135-168 | while running, collects exactly the due jobs in store order, and disarms exactly those; otherwise nothing |
| `Cron.CronService.Lookup` | pkg/cron/service.go:180-193 | the handler gets a copy of the job, if it still exists |
| `Cron.CronService.FinishJob` | pkg/cron/service.go:200-243 | after the handler: a one-shot job goes or is switched off, any other is armed from the clock; a job that has disappeared changes nothing |
| `Cron.CronService.Start` | pkg/cron/service.go:82-104 | reloads the store and arms every enabled job from the clock; a running service is left alone |
| `Cron.CronService.Stop` | pkg/cron/service.go:106-119 | clears the running flag and nothing else |
| `CronRuns.StepKeepsNames` | pkg/cron/service.go:135-451 | every step keeps the store and the file equal, identifiers unique and handed out, and the logs consistent with the jobs |
| `CronSafety.StepSafe` | pkg/cron/service.go:135-451 | every step of every interleaving keeps the collections spaced and every armed job safe to collect |
| `CronSafety.CollectionsAreSpaced` | pkg/cron/service.go:135-290 | over every run: a one-shot job is collected at most once and not before its time; two collections of a periodic job are at least its period apart, even if it is toggled or the service restarted at any time |
| `CronCallbacks.OneShotJobs` | pkg/cron/service.go:135-290 | over every run: the handler is called at most once for a one-shot job, never before its time |
| `CronRestarts.StepExclusive` | pkg/cron/service.go:82-451 | an orderly step keeps every periodic job in at most one batch, and with several run loops that have not returned no armed job in any |
| `CronRestarts.OrderlyRunsKeepPeriods` | pkg/cron/service.go:82-290 | over every orderly run, with any number of restarts, two calls of a periodic job are at least its period apart; orderly runs arm no job by a restart, or by enabling it when several run loops have not returned, while a loop is busy with it |
| `CronRestarts.OneLoopKeepsPeriods` | pkg/cron/service.go:154-243 | while the service has been started at most once, every run keeps the periods of calls, even if jobs are toggled while they wait or run |
| `CronOverlaps.RestartOverlaps` | pkg/cron/service.go:82-243 | if a stopped service is started while a run loop is busy with an enabled periodic job, the run can go on so that two calls are closer than the period |
| `CronOverlaps.EnableOverlaps` | pkg/cron/service.go:121-451 | if a job is enabled while one run loop is busy with it and there is another that has not returned, the run can go on so that two calls are closer than the period |
| `CronOverlaps.StepKeepsPeriodsIff` | pkg/cron/service.go:82-451 | at the end of every orderly run, any step keeps all periods, however things go on, if and only if it is orderly |
| `CronOverlaps.RestartKeepsPeriodsIff` | pkg/cron/service.go:82-290 | a restart keeps all periods, however things go on, if and only if no earlier run loop is busy with an enabled periodic job at that moment |
| `CronOverlaps.EnableKeepsPeriodsIff` | pkg/cron/service.go:121-451 | enabling a periodic job keeps all periods if and only if no run loop is busy with it, or all other run loops have returned, or the service is stopped |
| `CronOverlaps.RestartBreaksThePeriod` | pkg/cron/service.go:82-243 | a run from a store with one job in which a restart breaks the period |
| `CronOverlaps.EnableBreaksThePeriod` | pkg/cron/service.go:82-451 | a run from the same store with a harmless restart after which enabling the job breaks the period |
| `Trigrams.PackInjective` | pkg/skills/search_cache.go:180-183 | three bytes packed into a number can be told apart from any other three |
| `Trigrams.TrigramsAreSubstrings` | pkg/skills/search_cache.go:175-197 | the codes are those of exactly the substrings of three bytes |
| `Trigrams.Sort` | pkg/skills/search_cache.go:186 | sorts the array in place: sorted, and a permutation (an insertion sort stands in for the library sort) |
| `Trigrams.Deduplicate` | pkg/skills/search_cache.go:187-194 | the write-index loop leaves the same elements in strictly increasing order |
| `Trigrams.BuildTrigrams` | pkg/skills/search_cache.go:175-196 | strictly increasing, and exactly the string's byte trigrams |
| `Trigrams.JaccardSimilarity` | pkg/skills/search_cache.go:199-220 | the two-pointer merge equals the size of the intersection over the size of the union, and 1 for two empty sets |
| `Trigrams.JaccardMeans` | pkg/skills/search_cache.go:199-220 | similarity is symmetric, one exactly for equal trigram sets, zero exactly for disjoint ones that are not both empty |
| `Trigrams.ShortQueriesAreSimilar` | pkg/skills/search_cache.go:175-204 | a query of fewer than three bytes is fully similar to every other such query and not at all to longer ones |
| `SearchCache.MoveToEndSorts` | pkg/skills/search_cache.go:158-166 | moving the used key to the end keeps the list duplicate-free and sorted by last use |
| `SearchCache.BehindWasUsed` | pkg/skills/search_cache.go:118-123 | all keys behind the oldest one, and the new key, are distinct keys used since its last use |
| `SearchCache.SearchCache.constructor` | pkg/skills/search_cache.go:34-48 | an empty cache; non-positive sizes and lifetimes fall back to 50 entries and five minutes |
| `SearchCache.SearchCache.MoveToEnd` | pkg/skills/search_cache.go:158-166 | the key is at the end, the others keep their order |
| `SearchCache.SearchCache.FindSimilar` | pkg/skills/search_cache.go:68-86 | a fresh entry of maximal similarity if that reaches 7/10, in whatever order the map is walked; otherwise every fresh entry is below |
| `SearchCache.SearchCache.Get` | pkg/skills/search_cache.go:51-90 | a fresh exact match wins; otherwise it hits exactly if a fresh entry is similar enough, with a most similar one; a hit becomes most recently used, a miss changes nothing |
| `SearchCache.SearchCache.EvictExpired` | pkg/skills/search_cache.go:144-156 | exactly the expired entries go, from both the map and the list |
| `SearchCache.SearchCache.EvictOldest` | pkg/skills/search_cache.go:118-123 | makes room by dropping exactly the least recently used entry, and only if the cache is full |
| `SearchCache.SearchCache.Put` | pkg/skills/search_cache.go:93-134 | list and map stay in step and within bounds; every other kept entry is unchanged and fresh; an unexpired entry goes only after at least `maxEntries` distinct other keys were put or hit since its last use |
| `Transcript.SanitizeAcceptable` | pkg/agent/context.go:478-541 | what comes out is a subsequence without system messages, every tool message bracketed under an assistant turn with calls, every such turn directly after a user or tool message |
| `Transcript.SanitizeFixes` | pkg/agent/context.go:478-541 | a history is left unchanged if and only if it already has that form; sanitizing is idempotent |
| `Transcript.SanitizeMore` | pkg/agent/context.go:478-541 | no more is dropped than has to be: of a history and one more message, that message stays exactly if the result is acceptable with it |
| `Transcript.OrdinaryStay` | pkg/agent/context.go:478-541 | all messages that are neither system, nor a tool's, nor a call turn come out, in order |
| `Transcript.SanitizeHistoryForProvider` | pkg/agent/context.go:478-541 | the loop with its backward scan computes that history: acceptable, some of the messages in order, all ordinary ones among them |
| `Transcript.FindAssistant` | pkg/agent/context.go:491-514 | the backward scan finds an assistant turn with calls exactly if nothing but tool messages follows one |
| `ToolGroups.SanitizeGroups` | pkg/agent/context.go:478-541 | whatever compression has torn apart, the sanitized history has exactly one result for each call, with matching identifiers in order, and no other result |
| `ToolGroups.InterruptedGroupsStay` | pkg/agent/context.go:478-541 | a user message followed by an unanswered call turn is left as it is, so its group stays incomplete |
| `ToolGroups.CompressLoose` | pkg/agent/loop.go:1093-1142 | compression, even when it cuts a group in half, leaves a history that the sanitizer can mend |
| `AgentLoop.SessionManager.AddFullMessage` | pkg/session/manager.go:71-87 | appends to the one session, creating it if need be, and touches no other |
| `AgentLoop.SessionManager.SetHistory` | pkg/session/manager.go:269-282 | replaces the history of an existing session and touches no other |
| `AgentLoop.SessionManager.TruncateHistory` | pkg/session/manager.go:125-151 | keeps the last messages; a history that can be mended stays one |
| `AgentRuns.BuiltIsWellFormed` | pkg/agent/context.go:377-476 | a request built from such a history is one system message and then complete groups |
| `AgentRuns.BuiltIsAnchored` | pkg/agent/context.go:377-476 | in a request built from any history every tool message has, skipping tool messages, an assistant turn with calls before it |
| `AgentRuns.LoopExtends` | pkg/agent/loop.go:724-1051 | from any stored history: between two compressions every request, and the stored history with it, grows by the same complete groups only, each call followed by its results in order, and there are at most three requests per iteration |
| `AgentRuns.RequestsAreAnchored` | pkg/agent/loop.go:571-1051 | the same for a whole answer, for every stored history whatsoever: what was appended to a request since the user asked or since the last compression is complete groups, all tool messages are anchored, and there are at most 3 * `MaxIterations` requests |
| `AgentRuns.WellFormedIsAnchored` | pkg/agent/loop.go:724-1051 | complete groups are in particular anchored |
| `AgentRuns.TryIsSafe` | pkg/agent/loop.go:801-873 | the requests of one iteration keep their groups complete, also those rebuilt after a compression, and there are at most three |
| `AgentRuns.TurnIsGrouped` | pkg/agent/loop.go:927-1047 | a turn is the assistant message and one result for each call, with its identifier, in order |
| `AgentTrace.BuiltIsRequest` | pkg/agent/context.go:377-476 | a request is the one system message, what the history shows (the history itself if it is acceptable, all its ordinary messages in any case), and the user's message unless that is blank |
| `AgentTrace.AskedShowsTheMessage` | pkg/agent/loop.go:592-610 | the first request of an answer ends in what the user asked, and that is stored |
| `AgentTrace.TryTrace` | pkg/agent/loop.go:801-873 | call by call: a timeout is repeated as it was, a context error compresses the history and builds the request from it anew, and only a reply, another error or a third failure ends an iteration |
| `AgentTrace.AnswerIsAnswer` | pkg/agent/loop.go:571-1051 | over a whole answer: every call follows from the one before (tool calls are run, and their turn is appended to request and history alike), and the answer is the reply without calls, or the default if that is empty or the iterations are used up; it is what is stored |
| `AgentTrace.CompressIs` | pkg/agent/loop.go:1093-1142 | more than four messages lose the older half of what lies between the first and the last; the first is marked with their number |
| `AgentTrace.TheQuestionMayGo` | pkg/agent/loop.go:1089-1142 | a history whose only user message compression drops |
| `AgentRuns.LoopIsSafe` | pkg/agent/loop.go:724-1051 | over the whole tool-call loop: complete groups in every request, and a history that can be mended at the end |
| `AgentRuns.AnswerIsSafe` | pkg/agent/loop.go:571-656 | the same for a whole answer, so that it holds again for the next one |
| `AgentLoop.AgentLoop.ForceCompression` | pkg/agent/loop.go:1093-1142 | more than four messages are compressed to the marked first one, the second half and the last one |
| `AgentLoop.AgentLoop.CallWithRetries` | pkg/agent/loop.go:801-873 | the retry loop with its compressions is `Try` |
| `AgentLoop.AgentLoop.RunTools` | pkg/agent/loop.go:927-1047 | request and session grow by the same turn |
| `AgentLoop.AgentLoop.RunLLMIteration` | pkg/agent/loop.go:715-1051 | the loop is `Loop`; no other session is touched |
| `AgentLoop.AgentLoop.RunAgentLoop` | pkg/agent/loop.go:571-656 | for every stored history: the first request shows it and ends in what the user asked; the calls, the answer and what is stored are as `AgentTrace.AnswerIsAnswer` says; complete groups appended, anchored requests, at most 3 * `MaxIterations`; from a history that can be mended also complete groups throughout, and a history that can be mended again |
| `PromptCache.PromptCache.SourceFilesChanged` | pkg/agent/context.go:247-304 | reports no change exactly if no tracked path was created, deleted or modified after the reference time |
| `PromptCache.PromptCache.BuildBaseline` | pkg/agent/context.go:198-243 | records which tracked paths exist, and the latest modification time it saw |
| `PromptCache.PromptCache.BuildSystemPromptWithCache` | pkg/agent/context.go:121-160 | hits exactly if a prompt is there and nothing tracked seems changed; a hit equals rebuilding now unless a file flickered, and no skill has been written since; after a miss an unchanged disk is a hit; a miss returns and stores a fresh prompt |
| `PromptCache.FileIsCurrentIff` | pkg/agent/context.go:198-304 | for one tracked file, with ever later modification times: the check is right if and only if the file did not flicker |
| `PromptCache.HitIsCurrentIff` | pkg/agent/context.go:121-304 | a hit serves what a rebuild would read now, although files may be written during the build, if and only if no tracked file flickered |
| `PromptCache.SkillsAreCurrent` | pkg/agent/context.go:255-304 | after a hit no skill file that the check met, nor the skills directory, has been written since the baseline walked the skills, unless it is older than every reference time |
| `PromptCache.QuietPasses` | pkg/agent/context.go:198-304 | on a disk that has not changed since the build, every check finds no change |
| `PromptCache.SomeHitsAreStale` | pkg/agent/context.go:121-304 | a disk and a cache state built on it, on which the check passes and serves the contents of a file that is gone |
| `Cooldown.CooldownsGrow` | pkg/providers/cooldown.go:183-207 | cooldowns grow with the number of errors, from one minute to one hour and from five to 24 hours |
| `Cooldown.CooldownTable` | pkg/providers/cooldown.go:178-207 | 1, 5, 25 minutes and then an hour; 5, 10, 20 hours and then a day, for every higher count |
| `Cooldown.FailSound` | pkg/providers/cooldown.go:42-66 | a failure never moves a cooldown back, and the window reset fires only after both have expired |
| `Cooldown.CooldownBounds` | pkg/providers/cooldown.go:42-66 | cooldowns end at most one hour, billing blocks at most 24 hours, after the last failure |
| `Cooldown.CooldownsOnlyGrow` | pkg/providers/cooldown.go:42-66 | through any number of failures under a non-decreasing clock no cooldown moves back and the error count stays the sum of the counts by reason |
| `Cooldown.FailedIsUnavailable` | pkg/providers/cooldown.go:42-109 | a provider that has just failed is unavailable for at least a minute |
| `Cooldown.LateFailureIsTheFirst` | pkg/providers/cooldown.go:42-66 | a failure more than 24 hours after the last makes a provider unavailable for exactly a minute, or five hours for billing, as the first one does |
| `Cooldown.SuccessStartsOver` | pkg/providers/cooldown.go:42-83 | a success makes a provider available at once, and its next failure counts as the first |
| `Cooldown.FailuresEscalate` | pkg/providers/cooldown.go:42-109 | n failures of one kind, each within 24 hours of the one before, make a new or recovered provider unavailable for exactly the n-th cooldown after the last |
| `Cooldown.MarkingsAreSound` | pkg/providers/cooldown.go:42-84 | both markings keep the bookkeeping of every provider sound |
| `Cooldown.CooldownTracker.MarkFailure` | pkg/providers/cooldown.go:42-66 | the update of the entry's fields in place, with the reset |
| `Cooldown.CooldownTracker.MarkSuccess` | pkg/providers/cooldown.go:69-83 | clears counters and cooldowns; an unknown provider changes nothing |
| `Cooldown.CooldownTracker.CooldownRemaining` | pkg/providers/cooldown.go:112-139 | the longer of the two remaining times; zero if and only if the provider is available |
| `Fallback.FallbackChain.Execute` | pkg/providers/fallback.go:101-207 | stops at the first candidate that is neither skipped nor fails retriably, with one attempt for each candidate passed over; exhaustion lists one for each candidate; runs exactly the candidates whose turn it was; a format error, a cancellation or an unclassified error ends the chain at the candidate that was run, and marks nothing |
| `Fallback.VerdictMeans` | pkg/providers/fallback.go:114-195 | the chain goes on exactly past a provider in cooldown and past a run that failed for a known reason other than its format, without cancellation |
| `Fallback.AttemptMeans` | pkg/providers/fallback.go:120-201 | the attempts name each candidate in order, whether it was skipped, and the reason of its run's error |
| `Fallback.FallbackChain.TryCandidate` | pkg/providers/fallback.go:114-195 | one candidate's turn: when it is skipped, that only an available provider is run, and what is marked |
| `Fallback.StaysUnavailable` | pkg/providers/fallback.go:114-195 | passing over candidates never makes a provider available before its time |
| `Fallback.NotRunAgainWithinAMinute` | pkg/providers/fallback.go:114-195 | a provider that failed retriably is not run again in the same call, for any later candidate, within a minute |
| `Fallback.FirstAvailableSuccess` | pkg/providers/fallback.go:101-207 | without cancellation and unclassified errors, candidate k answers if and only if it is the first available one whose run succeeds |
| `McpShutdown.StepOk` | pkg/mcp/manager.go:404-512 | every atomic step of every interleaving keeps lock, wait group, flag and drained calls consistent |
| `McpShutdown.NoCallUsesAClosedSession` | pkg/mcp/manager.go:438-512 | in every interleaving no call in flight uses a session that `Close` has closed |
| `McpShutdown.NoAdmissionAfterTheFlag` | pkg/mcp/manager.go:443-455 | no step admits a call once the closed flag is set |
| `McpProgress.CallReachesItsServer` | pkg/mcp/manager.go:443-466 | in every interleaving: a call that holds the read lock goes on to call a session if and only if the flag was unset at that moment and the session was its server's; otherwise it is refused |
| `McpProgress.SomeCallIsServed` | pkg/mcp/manager.go:443-466 | a run in which a session is stored and called |
| `McpProgress.NoDeadlock` | pkg/mcp/manager.go:404-512 | in every interleaving: as long as a call, a store or a `Close` has not finished, one of them can take a step |
| `McpProgress.EverythingFinishes` | pkg/mcp/manager.go:404-512 | however the threads are scheduled they take at most a computed number of steps, and when none is left to take all have finished |
| `McpProgress.FinishedCloseHasClosed` | pkg/mcp/manager.go:473-512 | when a `Close` has returned the flag is set, and when everything has, the shutdown is over |
| `McpShutdown.CloseClosesTheMap` | pkg/mcp/manager.go:490-503 | when `Close` has gone through the map, exactly the sessions in it have been closed |
| `McpShutdown.NothingIsClosedLater` | pkg/mcp/manager.go:473-505 | once a `Close` is through, no session is ever closed again |
| `McpShutdown.ClosedIffInTheMap` | pkg/mcp/manager.go:473-512 | in every interleaving: once the shutdown is over, a session has been closed if and only if it was in the map when `Close` took the lock again |
| `McpShutdown.LateStoreLeaks` | pkg/mcp/manager.go:403-411 | a run in which a connection is stored after `Close` and stays open |
| `McpShutdown.ReplacedConnectionLeaks` | pkg/mcp/manager.go:403-411 | a run in which a connection that was stored before `Close`, but replaced under its name, stays open |
| `MediaStore.LinkedMore` | pkg/media/store.go:91-109 | adding a fresh ref keeps the three maps each other's inverses |
| `MediaStore.LinkedLess` | pkg/media/store.go:184-212 | taking out a ref, and its scope if that gets empty, keeps them so |
| `MediaStore.LinkedWithoutScope` | pkg/media/store.go:138-172 | taking out a scope with all its refs keeps them so |
| `MediaStore.FileMediaStore.Store` | pkg/media/store.go:91-109 | registers exactly the one file under its ref and scope; a missing file changes nothing |
| `MediaStore.FileMediaStore.Resolve` | pkg/media/store.go:112-121 | the path of a known ref, and nothing for any other |
| `MediaStore.FileMediaStore.ReleaseAll` | pkg/media/store.go:138-172 | forgets exactly the entries of the scope, and yields exactly their paths for deletion |
| `MediaStore.FileMediaStore.CleanExpired` | pkg/media/store.go:175-220 | forgets exactly the entries stored before the cutoff and returns their number |
| `SessionKeys.NormalizeIsNormal` | pkg/routing/agent_id.go:25-66 | a normal form has 1 to 64 characters of `a-z0-9_-` and does not start with a dash |
| `SessionKeys.NormalizeKeepsNames` | pkg/routing/agent_id.go:25-66 | the letters, digits and underscores of the lower-cased identifier stay, in order, up to the limit; an identifier without any becomes the default |
| `SessionKeys.CollapseJoins` | pkg/routing/agent_id.go:25-66 | a run of other characters becomes one dash |
| `SessionKeys.NormalizeTwiceIff` | pkg/routing/agent_id.go:25-66 | normalizing twice is normalizing once if and only if the normal form does not both start with `_` and end in `-` |
| `SessionKeys.SomeIdsAreTwisted` | pkg/routing/agent_id.go:25-66 | a 65-character identifier whose normal form is changed by a second normalization |
| `SessionKeys.ParsePrinted` | pkg/routing/session_key.go:103-121 | parsing `agent:<agent>:<rest>` gives back a normal agent and the rest |
| `SessionKeys.ParseBuilt` | pkg/routing/session_key.go:46-121 | parsing any built key gives back the normal form of the agent and the rest that was printed, in every scope; a main key's agent exactly if it is not normalized further |
| `SessionKeys.ParseBuiltMain` | pkg/routing/session_key.go:41-121 | the same for a main key |
| `SessionKeys.SameKeyIff` | pkg/routing/session_key.go:46-100 | one session per channel and peer: two keys are equal if and only if agent, channel, kind and lower-cased peer agree |
| `SessionKeys.ColonsShareAKey` | pkg/routing/session_key.go:46-100 | two conversations with different channels and peers that share a key, since one channel's name has colons |
| `SessionKeys.SamePeerKeyIff` | pkg/routing/session_key.go:46-100 | one session per peer: direct conversations share a key if and only if agent and peer agree, across all channels; others if channel and kind agree too |
| `SessionKeys.ChannelNameSharesAKey` | pkg/routing/session_key.go:46-100 | with a channel named "direct" that fails |
| `SessionKeys.SameAccountKeyIff` | pkg/routing/session_key.go:46-100 | one session per account, channel and peer: two keys are equal if and only if agent, channel, kind and peer agree, and for direct conversations the account |
| `SessionKeys.AccountNameSharesAKey` | pkg/routing/session_key.go:46-100 | with an account named "group" that fails |
| `SessionKeys.MainScopeIsOneSession` | pkg/routing/session_key.go:46-100 | under the main scope all direct conversations of an agent share one session, and no other one does |
| `SessionKeys.ResolveLinkedPeerId` | pkg/routing/session_key.go:147-192 | the trimmed name of an entry that lists the peer, and the empty name if and only if there is none |

## Left out

- SplitMessage.SplitMessage: requires, for a positive limit, that the loop ends on the text, since it need not (`SplitEnding.TerminatesIffNeverStuck`); `Split.ChunksFit`, `SplitConservation.Conservation` and `SplitBalance.DecisionBalance` hold of every prefix of every run.
- SplitEnding.TerminatesIff: is a condition on the text for texts that are a single unclosed block; for all texts the exact condition is one on the run (`SplitEnding.TerminatesIffNeverStuck`).
- SplitBlocks.BlocksStayWholeIff: the condition is one on the iterations of the run, not on the text alone.
- SplitMessage.FindCut: works on runes; the conversion of invalid UTF-8 into replacement runes is not modelled.
- CronOverlaps.StepKeepsPeriodsIff: speaks of steps at the end of orderly runs; what holds after a run that has already gone wrong is not stated.
- AgentRuns.BuiltIsWellFormed: complete groups throughout are stated for histories that compression may have torn but nothing interrupted, since for others they fail (`ToolGroups.InterruptedGroupsStay`); for all of them anchoring and complete groups in what is appended are (`AgentRuns.RequestsAreAnchored`).
- Cron.CronService.Start: a store file that cannot be read or written is not modelled, every save succeeds, and the file's contents are the job list.
- Cron.ComputeNextRun: the next tick of a cron expression is a parameter; no property of it is used.
- Trigrams.JaccardSimilarity: computes with exact rationals instead of 64-bit floating point; the threshold is exactly 7/10.
- SearchCache.SearchCache.Get: normalization of the query is a parameter, and each call reads the clock once.
- MediaStore.FileMediaStore.Store: requires a ref that is not in use, since refs are random identifiers.
- MediaStore.FileMediaStore.CleanExpired: does not model deleting the files; nor does ReleaseAll beyond naming the paths.
- Fallback.FallbackChain.Execute: what an error is classified as is a parameter, and other calls on the same tracker do not interleave with one Execute.
- AgentLoop.AgentLoop.RunLLMIteration: the model's answers, the tools' results and the prompt texts are parameters; normalization of tool calls, outgoing messages, reasoning and media are not modelled.
- PromptCache.PromptCache.BuildSystemPromptWithCache: the walk of the skills directory happens at one instant; daily notes, global and built-in skills and deletions inside skill directories are not tracked by the code and carry no claim.
- McpShutdown.NoCallUsesAClosedSession: connecting, listing tools and failing session closes are not modelled; any session may be handed to a store step.
- SessionKeys.SameKeyIff: is stated for channels without a colon, the kinds direct, group and channel, non-blank peers and no identity links; with a colon in a channel it fails (`SessionKeys.ColonsShareAKey`).
- SessionKeys.SamePeerKeyIff: is stated on the same domain, for channels that are not named "direct", since with that name it fails (`SessionKeys.ChannelNameSharesAKey`).
- SessionKeys.SameAccountKeyIff: is stated on the same domain, for accounts that are not named as a kind, since with the name of a group it fails (`SessionKeys.AccountNameSharesAKey`).
- CronProgress.ArmedJobsAreCollected: the tick itself is an event of the outside world; what is stated is what the first tick at or after the time does.
- PromptCache.SkillsAreCurrent: skill files that are gone by the time of the check are noticed only through the skills directory.
- SessionKeys.NormalizeIsNormal: Unicode lower-casing is a parameter that is the usual one on ASCII, takes other characters to non-ASCII ones or to `a-z`, and neither makes nor removes spaces (`SessionKeys.Lowering`).
- Cron service: UpdateJob, Load, ListJobs, Status and the copies of jobs that callers may alias.
- Sessions: summaries written by the background summarizer while a turn is running, and sessions on disk.
- Providers: resolving candidate lists, image requests, and the patterns that classify errors.
- MCP: transports, configuration files and tool names.
- Media: the janitor's goroutine.
- Everything else in the repository (channels, tools, HTTP and CLI front ends, devices) is input and output around this core.
