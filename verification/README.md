# Verified model of the chat response service

This project models, in Dafny, the parts of the service in which several rules interact: the life of an animation job,
the fitting of a prompt into a token budget, the fallback from one model provider to the next, the re-chunking of a token
stream, the idempotency cache and the consumer built on it, the response-block parser and the graph-traversal animation.
Everything the service cannot control — clocks, upstream providers, validators, renderers, media storage, the requests of
other callers — is an argument that ranges over all values, so a proved property holds for every clock, every
interleaving and every sequence of outcomes.

Code that updates objects is a class or a method with a loop, proved against a specification function or relation; the
properties of whole runs are lemmas about those specifications.

| file | what it models |
|---|---|
| `Jobs.dfy`, `Policy.dfy`, `Fates.dfy`, `JobRuns.dfy`, `Chronicles.dfy`, `Runner.dfy`, `JobApi.dfy` | the job state machine, its store, the fate of an undisturbed job, a run under outside cancellation and expiry as a function of its world, why each of its attempts failed, the loop that performs it, and the per-owner limits |
| `Text.dfy`, `TokenCounter.dfy`, `Trimmer.dfy`, `HistoryText.dfy`, `TrimSpec.dfy`, `SectionTrim.dfy`, `Cuts.dfy`, `Compaction.dfy`, `Notes.dfy`, `History.dfy`, `Fit.dfy`, `Payloads.dfy`, `Budget.dfy` | token counting, cutting one section, history as text, trimming a prompt in priority order and what it must leave, condensing history and what the note says, merging its two sources, fitting and refitting a prompt, what the payload holds and counts, resolving a budget |
| `Breakers.dfy`, `Groq.dfy`, `Chain.dfy`, `Generations.dfy`, `Streaming.dfy` | the circuit breaker, the retries inside one provider, the chain of providers with its deadlines, what many generations do to a provider's breaker, and the chunks that are published |
| `Cache.dfy`, `Consumer.dfy`, `Freshness.dfy` | the TTL and LRU cache, the duplicate suppression that relies on it, and that nothing outlives its lifetime |
| `Blocks.dfy`, `Fences.dfy`, `Traversal.dfy` | the streaming Markdown block parser, its fences on the characters of the lines, and the breadth-first and depth-first traversal traces |

## What the proofs found

Where the code does not do what its comments or names suggest, the model follows the code and the exact condition is
proved.

* A job can be stranded. The state machine has no edge from VALIDATING to itself, so a spec that the runner rejects with
  attempts left makes the next update refuse, and the job is returned still VALIDATING. `JobRuns.RejectedSpecStrands`
  is such a run, and `Fates.NeverStrandedIff` gives the exact condition under which this cannot happen.
* The provider chain asks `is_open` and reports outcomes but never enters `call`, so a breaker that opened is never closed
  again by the chain's own successes (`Breakers.OutcomesNeverReopenTheWay`). `window_seconds` is never read: the counter
  leaks by successes, not by time (`Breakers.ClosedCountsExcess`).
* The dead letter always reports three retries, even when fewer calls were made
  (`Consumer.OneCallIsReportedAsThree`); `Consumer.ReportedRetriesAreCalls` is the exact condition.
* Cutting text to a target of one token can leave two (`TokenCounter.TruncateMeetsTargetIff`, `Trimmer.SingleTokenSlip`),
  and that is the only way in which trimming reports an overflow that the floors did not force
  (`TrimSpec.SingleTokenOverflow`); `TrimSpec.OverflowIff` is the exact condition.
* Merging two windows of one conversation loses history when an early turn repeats a later one
  (`History.RepeatedTurnLosesHistory`); `History.MergeIsUnionIff` is the exact condition.
* When history is sent as role-separated messages, the condensed note, a system item, is not sent at all
  (`History.NoteIsNotSent`).
* An empty token leaves a gap in the sequence numbers (`Streaming.EmptyTokenLeavesGap`, `Streaming.SequenceIsGaplessIff`).
* A completed stream need not mark a last chunk (`Streaming.NoChunkIsLast`); `Streaming.CompletedMarksLastIff` is the exact
  condition.
* A prompt inside the tokens-per-minute cap need not leave room for the answer (`Budget.LargePromptOverrunsLimit`);
  `Budget.TpmBudgetFitsIff` derives for which limits it always does.

## Model

| member | source | states |
|---|---|---|
| Jobs.EndIsFinal | app/visualization/jobs.py:37-48 | along every path of the state machine FAILED, CANCELLED and EXPIRED never change, and READY can only expire |
| Jobs.EntersOnly | app/visualization/jobs.py:37-48 | the transitions by where they lead: READY only from RENDERING, EXPIRED from every active state and from READY, the other ends from every active state, PENDING from nowhere |
| Jobs.MemoryJobStore.Update | app/visualization/jobs.py:116-128 | an update is refused exactly when the state machine has no such edge (a repeated terminal write is accepted and changes nothing), and no other job changes |
| Jobs.MemoryJobStore.CreateIfAbsent | app/visualization/jobs.py:104-111 | a ready or active job is reused; any other is replaced and may be claimed again |
| Jobs.MemoryJobStore.Claim | app/visualization/jobs.py:149-153 | a job is claimed by the first caller only |
| Jobs.MemoryJobStore.HourlyCount | app/visualization/jobs.py:133-141 | the hit is counted exactly when fewer than the limit lie in the last hour, and old hits are pruned either way |
| Jobs.MemoryJobStore.Enqueue | app/visualization/jobs.py:143-144 | a job id joins the end of the queue |
| Jobs.MemoryJobStore.Dequeue | app/visualization/jobs.py:146-147 | the queue gives its ids back in order, and nothing when it is empty |
| Jobs.MemoryJobStore.ActiveCount | app/visualization/jobs.py:130-131 | the number of the owner's active jobs |
| Policy.StepAfter | app/visualization/policy.py:93-102 | repair, retry and give-up follow the partition of failure categories: nothing permanent is retried and nothing is tried past the budget |
| Policy.StepIs | app/visualization/policy.py:31-41 | which of the fourteen failure categories is repaired, retried or given up while attempts are left |
| Policy.AttemptTracker.BeginAttempt | app/visualization/policy.py:79-84 | attempts are numbered from one and refused exactly when the budget is spent |
| Runner.RunJob | app/visualization/runner.py:40-129 | in every world, with every outside request before every store call, the job's final record and the numbers of renders and repairs are those of the run's specification, and no other job changes; what that run does is told by `Chronicles.RunIsChronicled`, `JobRuns.RunMeetsFate` and `JobRuns.RunIsSafe` |
| Runner.WorkNext | app/visualization/worker.py:62-69 | a worker takes the job that has waited longest and runs it, so jobs are run in the order in which they were enqueued |
| Runner.Session.Interfere | app/api/visualizations.py:198-204 | before a store call exactly the requests of the world arrive, in order, and each does to the record what the API and the state machine allow |
| Runner.Session.Update | app/visualization/runner.py:60-63 | an update meets the record that the requests left, and is refused exactly when the state machine has no such edge |
| JobRuns.RunIsSafe | app/visualization/runner.py:40-129 | in every world the states of the job form a path of the state machine, a record that was FAILED, CANCELLED or EXPIRED at any store call is the final record, and a job that any request met while it was active, at whichever store call, ends CANCELLED or EXPIRED |
| JobRuns.RenderAndSaveFollows | app/visualization/runner.py:85-121 | a late successful render cannot turn a cancelled or expired job READY: whatever the renderer and the media store answer, an ended record is still the same afterwards |
| JobRuns.RunMeetsFate | app/visualization/runner.py:40-129 | in every world a claimed active job either was met by a request while active, and ends CANCELLED or EXPIRED, or meets exactly the fate of an undisturbed job, down to every field |
| JobRuns.EndedIff | app/visualization/runner.py:61-62 | a claimed active job ends CANCELLED or EXPIRED exactly when a request met it while active or its renderer reported a cancellation |
| JobRuns.RunIsAccounted | app/visualization/runner.py:46-129 | in every world READY means that this run's render and save succeeded and the media key is the job id; FAILED means one history entry per attempt, only the last possibly permanent, and the budget spent unless it is; renders never exceed the attempts and repairs are fewer |
| JobRuns.QuietRunEnds | app/visualization/runner.py:55-129 | conditional liveness: a claimed PENDING job that no request meets while active, with every early spec accepted, ends READY or FAILED |
| JobRuns.RejectedSpecStrands | app/visualization/runner.py:60-83 | a job whose specification the runner rejects at its first attempt, with attempts left, is returned still VALIDATING |
| Chronicles.RunIsChronicled | app/visualization/runner.py:55-129 | in every world each history entry is told from the answers alone: `storage_failure` where the spec was accepted, the video rendered and its save failed, the two rejections, the renderer's own category or its default, or a repair that gave nothing, with and without a repairer; the runner rendered once per attempt with a valid spec and asked for a repair once per attempt entered after one of the five fixable failures; and an attempt that ends the run without a failure published a video or had its renderer cancelled |
| Chronicles.OwedIsFixables | app/visualization/runner.py:64-69 | the repairs owed are the fixable failures so far, a repair that gave nothing included, and none without a repairer |
| Chronicles.FailedSaveIsRetried | app/visualization/runner.py:100-127 | a video that could not be saved is rendered again from the same spec, and the failure goes down as one of storage |
| Chronicles.ClaimedIsLeftAlone | app/visualization/runner.py:40-41 | a run of a job that another worker has claimed renders and repairs nothing and leaves the record alone |
| Chronicles.FirstRequestDecides | app/api/visualizations.py:198-204 | of the requests that meet an active job the first decides: the record becomes CANCELLED with that failure, or EXPIRED, and nothing else in it changes |
| Chronicles.EndedOnlyExpires | app/visualization/jobs.py:37-48 | no request changes a job that has ended, except that READY expires |
| Runner.RunAttempts | app/visualization/runner.py:55-128 | the attempt loop terminates and leaves the run where its specification does, or with the budget spent and the last failure to report |
| Runner.RunAttempt | app/visualization/runner.py:60-127 | one attempt reaches the moment, the record of failures and the counts of its specification, in every world |
| Runner.PerformRender | app/visualization/runner.py:85-121 | the render, the save and the updates around them do to the record what the specification says, whatever arrived in between, with the failure that `Chronicles.FailsWith` derives from the answers |
| Runner.Session.Repair | app/visualization/runner.py:66-69 | a missing, disabled or empty repair does not count, and only a repair that is there is asked |
| Fates.NeverStrandedIff | app/visualization/jobs.py:39 | a job is never left VALIDATING, whatever the renderer and the media store do, if and only if every spec that can come up before the last attempt is accepted, the answers to every repair that can be asked for included |
| Fates.EndsReadyOrFailed | app/visualization/runner.py:55-129 | with every early spec accepted, the fate of a job is to be published or to fail, for all render, repair and storage outcomes |
| Fates.FateIsBounded | app/visualization/runner.py:55-129 | FAILED is neither early nor late, and a published job used one attempt more than its history has failures |
| JobApi.CreateJob | app/api/visualizations.py:128-154 | each refusal occurs exactly in its case, a job starts exactly when no usable one exists and both limits admit it, and a started job joins the queue unless its worker is inline |
| JobApi.CancelJob | app/api/visualizations.py:157-204 | only the owner's active job is cancelled; anything else is unchanged |
| JobApi.CancelIsOwners | app/api/visualizations.py:157-204 | a cancellation changes at most the job it names, only if the owner asks and the job is active, and of that only the state and the failure |
| JobApi.ActiveLimit | app/api/visualizations.py:142-144 | over every run of create, cancel and runner steps, no owner has more active jobs than allowed |
| JobApi.HourlyIsExact | app/api/visualizations.py:138-146 | a request starts a new job if and only if there is no ready or active one for the specification, fewer than the limit are active, and fewer than the hourly limit started in the last 3600 seconds, however the hits were pruned |
| JobApi.HourlyLimitHolds | app/api/visualizations.py:145-146 | in every 3600-second window of every run an owner starts at most the hourly limit of jobs |
| JobApi.ReuseStaysWithOwner | app/visualization/jobs.py:51-52 | with an injective id function, reuse never crosses owners or specifications |
| TokenCounter.TruncateMeetsTargetIff | app/context_window/token_counter.py:60-84 | the fallback truncation meets its target except for a target of one and a text of at least eight characters |
| TokenCounter.JoinedCostsLess | app/context_window/token_counter.py:44-46 | joining lines with line breaks costs no more tokens than the lines, one more each, cost separately |
| Cuts.LinesCostIs | app/context_window/trimmer.py:140-145 | what lines cost, on their lengths alone, and that costs add up |
| Trimmer.KeepWholeLines | app/context_window/trimmer.py:136-149 | the loop keeps the lines that `Cuts.KeepsLongestRun` calls for, and the start that `Cuts.KeepsStartToWord` calls for when not even one line fits |
| Cuts.KeepsPaidLines | app/context_window/trimmer.py:136-147 | a cut shows every run of whole leading lines that its target pays for |
| Cuts.KeepsLongestRun | app/context_window/trimmer.py:138-147 | when the target pays for the first line, a cut is exactly the longest run of whole lines it pays for, without trailing whitespace |
| Cuts.KeepsStartToWord | app/context_window/trimmer.py:148-157 | when it does not, a cut is exactly the start of the text up to the last end of a word within four characters a token, at least ten, or within the whole text if that counts no more than the target |
| Trimmer.ShrinkMeetsTargetIff | app/context_window/trimmer.py:136-157 | what is kept meets the token target if and only if the target is not one, the first line is empty, or no character from the eighth to the tenth survives a cut at a word boundary |
| Trimmer.EightSurviveIff | app/context_window/trimmer.py:151-157 | when the cut to one token keeps eight characters or more, by the eleven first characters of the text alone |
| Trimmer.ShrinkHistory | app/context_window/trimmer.py:159-195 | the oldest messages go first and whole, until the rendering fits; unstructured text keeps its newest words |
| Trimmer.NewestFitting | app/context_window/trimmer.py:191-192 | the messages kept are the longest suffix whose rendering fits among those the loop tries |
| Cuts.KeepsFittingMessages | app/context_window/trimmer.py:191-192 | every run of newest messages whose rendering fits is kept |
| Cuts.KeepsFittingWords | app/context_window/trimmer.py:185-189 | every run of newest words of an unstructured history that fits is kept |
| HistoryText.HistoryIsReadBack | app/context_window/trimmer.py:159-181 | round trip: a rendered history with a one-line header is parsed into that header and its messages, roles and line breaks included, so long as no line inside a message looks like the start of another |
| Trimmer.CutInventsNothing | app/context_window/trimmer.py:130-195 | a cut section is a prefix of its text, or renders exactly a suffix of its messages, and keeps its identity |
| Trimmer.SingleTokenSlip | app/context_window/token_counter.py:83 | eight characters cut to one token leave two |
| SectionTrim.Trim | app/context_window/trimmer.py:46-123 | a fitting prompt is unchanged; otherwise exactly the excess is asked of the sections, in priority order and down to their floors at most, what is left without blank sections is returned if it fits, with the names of the cut sections, and its size is reported if it does not; what the cuts must leave is `Cuts.TrimKeepsPaid` |
| Cuts.TrimKeepsPaid | app/context_window/trimmer.py:79-123 | a trim drops nothing it has room for: every section shows all leading lines, or newest messages or words, that its target pays for, and is in the result unless that leaves it blank |
| Cuts.FloorsProtect | app/context_window/trimmer.py:74-91 | locked sections stay as they are, and the targets of the protected kinds are at least 200, 100 and 50 tokens or the whole section |
| Cuts.LowPriorityGoesFirst | app/context_window/trimmer.py:74-91 | before a trim gives up or asks a section of higher priority, every trimmable section of a priority below ten is asked for all but its floor |
| TrimSpec.TrimIsUnique | app/context_window/trimmer.py:57-123 | the sections and the budget determine the result, or the overflow and its size |
| TrimSpec.OverflowIff | app/context_window/trimmer.py:113-121 | exactly when a trim overflows: where locked sections and floors exceed the budget, unless the cuts to the floors keep less than they may; where they do not, only for one token, when one section is left exactly one token, its text has no empty first line and a character from the eighth to the tenth that survives, and nothing else keeps less than it may |
| TrimSpec.KeepsTwoIff | app/context_window/trimmer.py:136-157 | when a section keeps two tokens of the one that is asked of it, by its text alone |
| TrimSpec.AskedForOneIff | app/context_window/trimmer.py:83-101 | from the sections and the budget alone, the only section that can be asked for a single token |
| TrimSpec.OverflowNeedsDemand | app/context_window/trimmer.py:116-121 | when no section can be left exactly one token, overflow means that locked sections and floors exceed the budget |
| TrimSpec.SingleTokenOverflow | app/context_window/token_counter.py:83 | eight characters of retrieved text overflow a budget of one token although nothing of them is protected |
| TrimSpec.AskedCutInOrder | app/context_window/trimmer.py:74-103 | if any section was cut, every trimmable section of lower priority ends at or below its floor, and locked sections are unchanged |
| TrimSpec.AskIsUnique | app/context_window/trimmer.py:74-101 | the greedy loop refines a declarative specification: the priorities, the floors and the budget determine every section's target, and with it every section |
| SectionTrim.AskedExactly | app/context_window/trimmer.py:79-101 | when the loop ends, the targets add up to the budget, or to the least the sections can need, and no section was asked before every lower priority gave all it can |
| SectionTrim.TrimNext | app/context_window/trimmer.py:83-103 | one turn of the loop asks the next section for what it can give, and keeps the account of what was asked and the reported names |
| SectionTrim.TrimOrderIsSorted | app/context_window/trimmer.py:74-77 | the sections are visited once each, by ascending priority, ties in their original order |
| TrimSpec.LockedStay | app/context_window/trimmer.py:74-76 | whatever was cut, the result is at least as large as the locked sections |
| Compaction.CompactHistory | app/context_window/compaction.py:59-113 | history over its budget keeps its newest messages verbatim, at least the configured number and as many more as fit beside the note, and condenses the newest older turns that fit the rest |
| Compaction.EveryMessageAccountedFor | app/context_window/compaction.py:85-113 | kept, condensed and omitted add up to the input, and the kept messages are its suffix |
| Compaction.CompactionShrinks | app/context_window/compaction.py:104-113 | a changed history has strictly fewer tokens |
| Compaction.CompactionMeetsBudget | app/context_window/compaction.py:74-91 | the budget is met whenever the newest messages that must stay fit it |
| Compaction.NoteIsItsLines | app/context_window/compaction.py:92-107 | the note is its header and one line per condensed message: splitting it gives them back |
| Notes.FlatIsWords | app/context_window/compaction.py:49 | a flattened message has the words of the message in order, one blank apart |
| Notes.NoteLinesInOrder | app/context_window/compaction.py:92 | the lines of the note come in the order of the messages |
| Notes.NoteLineIs | app/context_window/compaction.py:92 | one line per message of user and assistant, with the speaker before a clip to 180 characters, and none for any other |
| Notes.ClipIs | app/context_window/compaction.py:46-56 | a line of at most 180 characters is kept, a longer one is a beginning and an end of it around a marker that tells the excess |
| Notes.TotalTokensIs | app/context_window/compaction.py:42-43 | a history counts its texts and four tokens a message |
| Notes.HeaderCosts | app/context_window/compaction.py:94 | the header of the note is charged 20 tokens |
| Compaction.ClipKeepsBothEnds | app/context_window/compaction.py:46-56 | a long line keeps its beginning and its end around a marker with the excess: three fifths of the room from its beginning and the rest from its end, but for whitespace at the cuts |
| Compaction.ClipIsShortLine | app/context_window/compaction.py:46-56 | a clipped line has no line break and is no longer than the limit, or than its marker |
| History.MergeIsUnionIff | app/pipeline/request_pipeline.py:345-364 | merging overlapping windows restores the conversation if and only if no older message is mistaken for one the request carries |
| History.DistinctWindowsMerge | app/pipeline/request_pipeline.py:345-364 | with distinct ids and signatures the merge is the union of both windows |
| History.NothingSharedMerges | app/pipeline/request_pipeline.py:345-364 | sources that share no message, by id or by role and words, are not merged: the memory is all there is unless it is empty |
| History.RepeatedTurnLosesHistory | app/pipeline/request_pipeline.py:356-363 | a repeated short turn makes the merge lose the turns between |
| History.TrimKeepsNewest | app/context_window/trimmer.py:183-195 | a trim to any budget leaves the newest end of the history, and not nothing of a history that is there |
| History.SurvivorsAreNewest | app/context_window/fit.py:152-187 | after any number of trims the history shown is a suffix of the non-blank messages, or the note and all messages kept with it |
| History.HistoryMessagesAlternate | app/prompts/compose.py:15-35 | the chat messages of a history open with the user and never repeat a role |
| Payloads.TurnIsSent | app/prompts/compose.py:24-35 | a history sent as messages loses no turn: from the first turn of the user on, every turn is in a message of its role |
| Payloads.TurnsMerge | app/prompts/compose.py:15-35 | a turn after one of the same speaker is added to that message after an empty line, any other starts a message, and blank ones are left out |
| History.ComposedAlternates | app/prompts/compose.py:38-58 | the whole payload is one optional system message and then alternating messages that open with the user |
| Payloads.SectionIsSent | app/prompts/compose.py:38-58 | no section is lost: the text of a system section is in the system message, that of any other in a message of the user, unless it is a history sent as messages |
| Payloads.SectionsInOrder | app/prompts/compose.py:42-53 | the sections that are sent keep their order |
| Payloads.ParagraphsInOrder | app/prompts/compose.py:42-53 | their texts are separated by an empty line |
| Payloads.HistorySectionIs | app/prompts/builder.py:303-318 | the built history section has priority 8, its size and its items, and its text shows the header and every message with its role |
| History.ItemsOfOne | app/prompts/builder.py:316-317 | a blank message becomes no item, any other its role and its stripped text |
| History.NoteIsNotSent | app/prompts/compose.py:24-35 | the condensed note makes no difference to role-separated messages |
| Fit.RequestContext.SetHistory | app/context_window/fit.py:37-51 | a replaced history is what the next reader sees in every place that held one |
| Fit.FitPrompt | app/context_window/fit.py:57-143 | a prompt is returned only if its payload measures at most the input budget, and it is the first of at most six passes over the prompt built from the compacted history that does; a failure is the overflow of the trim at the target reached, or the size that the sixth pass measured; a prompt that needs neither compaction nor trimming is sent as built |
| Payloads.FittedIsSmall | app/context_window/fit.py:107-126 | a fitted prompt is within the input budget as a payload and by its sections, within what the model takes, and was reached in at most six trims |
| Payloads.UnfitAfterSix | app/context_window/fit.py:107-126 | fitting fails only with the overflow of a trim, or after six trims with the size that the last of them still measures |
| Payloads.BuiltIsComplete | app/prompts/builder.py:302-322 | a built prompt has all its sections in order, the history between those before and those after it |
| Payloads.PassesAimLower | app/context_window/fit.py:116-119 | each pass aims lower by exactly what the one before it was over the budget, at one at least |
| Payloads.CountMessagesIs | app/context_window/token_counter.py:48-58 | a payload counts its texts, four tokens a message and two for the answer |
| Fit.TrimToFit | app/context_window/fit.py:107-126 | the first trim to the budget, and each later one to the target less the measured overshoot, until one fits |
| Fit.OutcomeIsUnique | app/context_window/fit.py:107-126 | the settings and the built prompt determine every pass and the outcome |
| Fit.FittingOnlyTrims | app/context_window/fit.py:107-126 | a fitted prompt is a trim of the built one |
| Fit.CompactIfNeeded | app/context_window/fit.py:78-103 | compaction happens only when the size triggers it, to the allowance the rest of the prompt leaves, and otherwise the history stays as it is |
| Payloads.TriggersIff | app/context_window/fit.py:78-81 | compaction is tried from the trigger share of the budget on, rounded down, or beyond the budget, in real arithmetic |
| Payloads.AllowanceIsLargest | app/context_window/fit.py:87-89 | the history may take the most that keeps the prompt within the target share of the budget |
| Payloads.NoteShareIs | app/context_window/compaction.py:77 | the note gets its share of that, rounded down |
| Fit.FitForProvider | app/context_window/fit.py:161-185 | a fitting prompt is passed on untouched; otherwise the sections are trimmed to the budget, and once more for what the payload measures beyond them, and failure is the overflow of a trim or the second measured size |
| Fit.RefitIsUnique | app/context_window/fit.py:161-185 | the prompt and the budget determine the refit |
| Fit.RefitOnlyTrims | app/context_window/fit.py:161-185 | a refit never returns an oversized prompt and never re-expands one |
| Payloads.RefitAims | app/context_window/fit.py:175-178 | the second trim of a refit aims lower by what the payload measures beyond its sections |
| Fit.Manage | app/context_window/manager.py:129-198 | the trim to the smaller of the requested and the model's budget, with the payload composed from what is left |
| Payloads.ManagedIsSmall | app/context_window/manager.py:150-163 | a managed prompt counts no more than was asked for and no more than the model takes |
| Payloads.CeilingIs | app/context_window/manager.py:150-157 | the budget of the trim is the smaller of the two |
| Fit.ManagingIsUnique | app/context_window/manager.py:159-163 | one trim, one answer |
| Fit.ManagingFailsIff | app/context_window/manager.py:159-163 | managing fails exactly when the floors keep more than the budget, or a section left one token keeps two with nothing else to spare |
| Fit.HistoryEndToEnd | app/context_window/fit.py:57-143 | built, compacted, trimmed and refitted, a history section shows a suffix of the request's messages, or the note and everything kept |
| Budget.ResolvesLargest | app/context_window/budget_policy.py:55-114 | the input budget is the largest that leaves the reserve in the window, the rate limit and the legacy cap, and resolution fails exactly when it is below the minimum |
| Budget.SourcesAre | app/context_window/budget_policy.py:26-85 | which configured budget applies, the most specific first, and which reserve |
| Budget.CapsApplied | app/context_window/budget_policy.py:91-114 | the caps that are reported as applied are exactly those without which there would be room for one token more |
| Budget.TpmBudgetFitsIff | app/context_window/budget_policy.py:94-101 | every prompt within the rate cap leaves room for the output budget asked for if and only if the limit is below 21 times the reserve less 21260 |
| Budget.LargePromptOverrunsLimit | app/providers/groq.py:84-109 | a prompt within the cap that leaves no room for its answer: limit 30000, reserve 2048, prompt 27752 |
| Budget.ResolvedPromptsFit | app/providers/groq.py:84-109 | under that condition every prompt that a resolved budget admits gets an answer that fits the limit |
| Groq.OutputIsLargest | app/providers/groq.py:100-109 | the output budget is the largest up to its ceiling that fits beside the prompt |
| Groq.OutputFitsIff | app/providers/groq.py:100-109 | prompt and answer fit the limit with its slack exactly when the prompt leaves room for the minimal answer |
| Groq.Stream | app/providers/groq.py:233-280 | the retry loop yields the run of the one deciding call, after at most four calls |
| Groq.OneCallSpeaks | app/providers/groq.py:233-280 | everything yielded comes from one call, up to the truncation notice; the calls before it showed nothing |
| Groq.VisibleIsWhole | app/providers/groq.py:233-260 | what is shown of a call is its whole text in order |
| Groq.OnlyRetriableIsRetried | app/providers/groq.py:260-280 | only a rate limit with a wait of at most eight seconds or an attempted tool call is retried, and only before any text |
| Groq.GivesUpOnlyWhenSpent | app/providers/groq.py:260-280 | a retriable error is returned only after the retries of its kind |
| Chain.WithDeadlines | app/providers/router.py:29-52 | what passes is everything before the first late pull, and the whole run if none is late |
| Chain.PassingIsUnique | app/providers/router.py:29-52 | the deadlines determine what passes |
| Chain.TryEntry | app/providers/chain.py:60-114 | an entry is skipped, fails or answers as `Generations.JudgedIff` says, and its breaker is told what `Generations.TurnIsItsEvents` says |
| Chain.GenerateStream | app/providers/chain.py:53-118 | only the first entry that answers is heard, later entries are not touched, the breakers of exactly the entries tried are told, as `Generations.ToldAlone` says field by field, and total failure reports one reason per entry in order |
| Generations.JudgedIff | app/providers/chain.py:60-85 | an entry is skipped exactly while its breaker is open inside the recovery time or its prompt does not fit; otherwise what is heard is its upstream run up to the first pull that is later than the entry allows for the first token, or than the idle limit for any other |
| Generations.TurnIsItsEvents | app/providers/chain.py:61-98 | what a breaker is told in a turn, among what other generations do to it: one success at the first token and one failure at an error |
| Generations.ToldAlone | app/providers/chain.py:61-98 | on the fields of the breaker: a failure before any token counts one and remembers its time, opening at the threshold or out of a probe; text and then an error is one success and one failure; a skipped entry changes nothing |
| Generations.DeadProviderIsSkipped | app/providers/chain.py:60-114 | after as many failures in a row as the threshold the breaker is open, and a generation within the recovery time of the last one skips the entry |
| Generations.GivenUpIff | app/providers/chain.py:60-114 | over any interleaving of generations, a provider is given up exactly when a stretch of their outcomes has the threshold more errors than first tokens |
| Generations.FirstAnswerIsHeard | app/providers/chain.py:60-118 | what is heard is the first entry that shows text or ends without error; the ones before were skipped or failed silently, the route names the last of their reasons, and total failure names them all |
| Chain.NoSplicing | app/providers/chain.py:77-118 | emitted text is a prefix of one upstream call of one entry and its notice, and `fallback_used` holds exactly when that entry is not the first |
| Breakers.CircuitBreaker.OnFailure | app/utils/circuit_breaker.py:99-122 | the new state of the breaker after a failure |
| Breakers.CircuitBreaker.OnSuccess | app/utils/circuit_breaker.py:82-97 | the new state of the breaker after a success |
| Breakers.CircuitBreaker.IsOpen | app/utils/circuit_breaker.py:52-58 | open and inside the recovery time |
| Breakers.CircuitBreaker.Trip | app/utils/circuit_breaker.py:60-68 | opens from now on and keeps the counters |
| Breakers.CircuitBreaker.Reset | app/utils/circuit_breaker.py:70-80 | back to the initial state |
| Breakers.CircuitBreaker.Enter | app/utils/circuit_breaker.py:124-142 | `call` admits its body unless the breaker is open inside the recovery time |
| Breakers.ClosedCountsExcess | app/utils/circuit_breaker.py:96-111 | while closed, the failure count is the largest excess of failures over successes among all suffixes of the outcomes since it last closed |
| Breakers.StaysClosedIff | app/utils/circuit_breaker.py:82-122 | outcomes keep a fresh breaker closed if and only if no stretch of them reaches the threshold |
| Breakers.RecoversAfterSuccesses | app/utils/circuit_breaker.py:85-90 | a breaker closes only after exactly the configured successes with no failure between |
| Breakers.AdmittedAfterRecovery | app/utils/circuit_breaker.py:127-141 | no body is admitted on an open breaker within the recovery time of any failure or trip |
| Breakers.OutcomesNeverReopenTheWay | app/providers/chain.py:61-98 | reporting outcomes and asking `is_open`, as the chain does, never closes an open breaker |
| Streaming.StreamingEngine.Stream | app/services/streaming_service.py:55-228 | for every clock, size and flag the tokens are published in order and without loss, in exactly the groups that the target sizes and the flush interval call for, all of bounded size; cancelled, a prefix is published and no response is sent |
| Streaming.FlushesIff | app/services/streaming_service.py:106-166 | which token ends a group: the flush interval has passed, or the buffer has the size of the first chunk until one was flushed, then that of code after an odd number of fences, then the rate-limited or the normal one |
| Streaming.HasFenceIff | app/services/streaming_service.py:111-113 | a token opens or closes code when three backticks in a row occur in it |
| Streaming.StreamingEngine.FlushBuffer | app/services/streaming_service.py:230-252 | one chunk per buffer with text, none for one without |
| Streaming.ChunksAreLossless | app/services/streaming_service.py:132-194 | the published contents concatenate to the joined tokens |
| Streaming.SequenceIsGaplessIff | app/services/streaming_service.py:240-250 | sequence numbers are exactly 1 to n if and only if every group has text |
| Streaming.NonEmptyTokensLeaveNoGap | app/services/streaming_service.py:240-250 | with non-empty tokens the sequence numbers are exactly 1 to n, however the tokens were cut |
| Streaming.ChunksAt | app/services/streaming_service.py:168-191 | sequence numbers ascend, each chunk is the text of its group, and only the final one may be marked last |
| Streaming.LastIsMarkedIff | app/services/streaming_service.py:168-191 | a chunk is marked last exactly when a last group was flushed as such and has text |
| Streaming.CompletedMarksLastIff | app/services/streaming_service.py:132-191 | a completed stream marks a last chunk exactly when its tokens leave some text in the buffer |
| Streaming.NoChunkIsLast | app/services/streaming_service.py:128-169 | a single token that fills the first chunk completes a stream without a last chunk |
| Streaming.EmptyTokenLeavesGap | app/services/streaming_service.py:240-248 | an empty first token makes the first sequence number two |
| Cache.TTLCache.Get | app/utils/cache.py:40-59 | a value is returned exactly when its entry has not expired by now, and becomes the freshest; an expired one is evicted, and the counters say so |
| Cache.TTLCache.Set | app/utils/cache.py:61-76 | a key is stored as the freshest, after an eviction exactly when the cache is full and the key is new |
| Cache.TTLCache.Contains | app/utils/cache.py:88-90 | asking whether a live entry exists counts as a use of it |
| Cache.TTLCache.Delete | app/utils/cache.py:92-94 | the key goes, and whether it was there is returned |
| Cache.TTLCache.Clear | app/utils/cache.py:96-102 | entries and counters start over |
| Cache.TTLCache.EvictExpired | app/utils/cache.py:118-125 | exactly the entries whose expiry time lies before now go, the others stay as they are, and the number is returned |
| Cache.TTLCache.EvictLru | app/utils/cache.py:127-138 | the expired entries go and, if that made no room, the least recently used one |
| Cache.TTLCache.LeastRecentlyUsed | app/utils/cache.py:133-136 | the entry with the smallest access number |
| Cache.StepKeepsSound | app/utils/cache.py:40-102 | the size bound and the distinctness of access numbers survive every operation |
| Cache.LruRetention | app/utils/cache.py:40-138 | in every run a key stored or found alive is still there, with the same value and expiry, unless it expired, was overwritten or removed, or at least the capacity of distinct other keys was used since |
| Freshness.FoundIsFresh | app/utils/cache.py:40-76 | the other half, over every run: a value that is found was stored by the last store of its key, with no removal since, and is no older than the lifetime it was stored with |
| Consumer.KafkaConsumerEngine.ProcessSingleMessage | app/consumers/kafka_consumer.py:128-233 | malformed and incomplete messages go to the dead letters, duplicates are only committed, everything else runs the handler and is committed once |
| Consumer.KafkaConsumerEngine.ExecuteWithConsumerRetries | app/consumers/kafka_consumer.py:235-264 | the handler is called until its first success or unretriable error, at most three times |
| Consumer.StopsAfterIsUnique | app/consumers/kafka_consumer.py:244-264 | the handler's outcomes determine the number of its calls |
| Consumer.OneCallIsReportedAsThree | app/consumers/kafka_consumer.py:221-232 | a first error that is not retriable is reported as three retries after one call |
| Consumer.ReportedRetriesAreCalls | app/consumers/kafka_consumer.py:221-231 | the reported three retries are the calls made exactly when the first two errors were retriable |
| Consumer.DuplicateSuppression | app/consumers/kafka_consumer.py:202-215 | in every delivery sequence two executions for one message id lie more than 300 seconds or at least 10000 distinct other ids apart |
| Freshness.HeldBackIsRecent | app/consumers/kafka_consumer.py:202-215 | a delivery that is not executed comes at most 300 seconds after an execution of the same id |
| Freshness.ExecutedWhen | app/consumers/kafka_consumer.py:202-215 | a delivery is executed whenever no execution of its id lies within the last 300 seconds, and otherwise only after 10000 distinct other ids |
| Blocks.ParseResponseBlocks | app/visualization/blocks.py:90-171 | the parser's loop yields the blocks of the segments of its lines, whose fences are those of `Fences.OpeningIff` |
| Fences.OpeningIff | app/visualization/blocks.py:113-125 | which line opens a visual fence of which kind and where it closes, on the characters: at most three blanks, three or more equal backticks or tildes, no backtick after them, and the kind as first word up to case, or `json` or nothing before a body that is a Manim spec; closed by the first later line of at least as many marks and nothing else |
| Fences.OpensIff | app/visualization/blocks.py:26 | which lines open a fence, and with which marks and info string |
| Fences.SaysIff | app/visualization/blocks.py:114 | when the language tag of a fence is a given word: as first word of its info string, up to case |
| Fences.MermaidIsRead | app/visualization/blocks.py:111-170 | round trip: text, a Mermaid fence around a showable body and text come out as a text block, one Mermaid block with that body and title, and a text block |
| Fences.ManimIsRead | app/visualization/blocks.py:111-170 | round trip: text, a Manim fence around a showable body and text come out as a text block, one Manim block with that body and title, and a text block |
| Fences.TitleIsTaken | app/visualization/blocks.py:147-153 | the first line of a Mermaid body that is not blank is taken out if it is a title line, and otherwise the body stays as it is |
| Fences.StripBreaksIsMiddle | app/visualization/blocks.py:157 | the source of a Mermaid block is its body without the line breaks around it |
| Fences.WhyNotShown | app/visualization/blocks.py:139-168 | the reason of an invalid block is the first of disabled, limit exceeded, blank, too large, blank without its title, malformed |
| Blocks.SegmentsTile | app/visualization/blocks.py:111-170 | every line belongs to exactly one segment, in order |
| Blocks.PartsRebuildText | app/visualization/blocks.py:100-130 | the parts joined by line breaks are the text again: nothing is lost, repeated or reordered |
| Blocks.BlocksAreNumbered | app/visualization/blocks.py:105-131 | ids are b1 to bn whatever ids the text claims, with at most one block per segment and never more visual blocks than allowed |
| Blocks.IdIs | app/visualization/blocks.py:109-131 | an id is the letter b and a decimal number, from b1 on |
| Blocks.BlockIdsAreDistinct | app/visualization/blocks.py:109-131 | no two blocks share an id |
| Blocks.TextBlocksShow | app/visualization/blocks.py:105-109 | no text block is blank |
| Blocks.FenceIsVisualIff | app/visualization/blocks.py:133-168 | a closed fence becomes a visual block exactly when it is enabled, within the limits, not blank and well formed; otherwise its text is kept |
| Blocks.StreamingIsStable | app/visualization/blocks.py:112-170 | appending whole lines leaves every block but a trailing text block unchanged, provided no JSON spec contains a fence line |
| Blocks.UnsettledIsTrailingText | app/visualization/blocks.py:125-127 | the only block that later lines can change is a trailing text block |
| Traversal.GraphTraversal | app/visualization/manim_templates.py:170-215 | the template is accepted exactly when its checks pass, and then its order is the trace of the chosen traversal of the undirected graph |
| Traversal.BreadthFirst | app/visualization/manim_templates.py:196-206 | the queue loop yields the breadth-first trace |
| Traversal.DepthFirst.Visit | app/visualization/manim_templates.py:208-213 | a nested visit extends the depth-first trace until everything below it is exhausted |
| Traversal.EnteredIsUndirected | app/visualization/manim_templates.py:192-195 | the adjacency lists are exactly the undirected edges |
| Traversal.NoRepeats | app/visualization/manim_templates.py:196-214 | no vertex appears twice in a trace |
| Traversal.VisitsExactlyReachable | app/visualization/manim_templates.py:196-214 | both orders contain exactly the vertices reachable from the start |
| Traversal.OrderIsUnique | app/visualization/manim_templates.py:196-214 | the graph, the start and the algorithm determine the order |
| Traversal.BfsByDistance | app/visualization/manim_templates.py:197-206 | breadth-first order lists vertices by non-decreasing shortest-path distance |

## Left out

* The worker's concurrency, shutdown and media purge; it is modelled over the memory store's queue, one job at a time.
* The Redis job store, Kafka, gRPC, HTTP, provider SDKs, the rendering subprocess, media files and thumbnails: only their
  outcomes appear, as arguments.
* Metrics, logging, tracing, settings, routing and the dependency container.
* The real tokenizer and the 0.97 Gemini multiplier: tokens are counted by the fallback heuristic with multiplier 1.00.
* Floating point: times, ratios and margins are exact reals, so a rounding of the last bit is not modelled.
* Clock readings inside one cache or store call, and in the consumer's check-then-remember pair, are one reading.
* A wait that ends exactly at its deadline counts as in time.
* Exceptions that escape the runner (a crash of the renderer or the store), and a second runner on a job that was
  cancelled and submitted again while the first still runs: a run is one submission.
* `updated_at` and `created_at`; job records are values in the store's map, so the aliasing of a record that was handed out
  and is updated later is not modelled.
* Sections and messages are values: the trimmer works on copies in the source, and the sharing of item lists between
  copies is not modelled.
* A cached value that is itself `None` reads as absent in the source; cached values here are never `None`.
* Kafka concurrency: deliveries are taken in the order of their idempotency checks, and nothing is claimed about
  at-least-once delivery, because offsets are committed out of order.
* `json.loads`, the title pattern of a Mermaid body and the cleaning of titles are arguments of the block parser; SHA-256 is
  any injective function of owner and specification.
* The normalisation of labels and the type checks of template parameters, and the other animation templates (sorting,
  searching, recursion, message flow, state machine, text): their traces would add easier members of the same kind.
* `_ensure_conversation_history` beyond the merge it calls: it chooses between sources and prepends inherited turns.
* The other sections of the prompt builder are arbitrary; only the history section's construction is modelled.
* Deep research, web search, tools, the response merger, the retry manager and error classification: easier than what is
  proved here.
- Fit.FitPrompt: does not claim that the five refit passes converge, because they need not; the outcome is determined all the same.
- Consumer.DuplicateSuppression: counts distinct ids of deliveries, executed or not, since a duplicate also refreshes its entry.
- Runner.RunJob: the identity of the validated spec is not tied to the saved video, which the renderer alone produces, and the polls of the render watcher, which only read, are not store calls of the model.
