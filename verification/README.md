# Durable protocols of Zerokun, verified

This project models the parts of the repository that must keep their promises
through crashes, restarts and concurrent input, and proves those promises for
every run. Each module models one component; each begins with what it stands
for and which contracts it takes from outside.

| module | component |
|---|---|
| `ArchiveLinks` | the check of an application archive before it is expanded, with symbolic links resolved in the order of section 4.13 of the POSIX.1-2017 Base Definitions |
| `AppSwap` | the journaled swap of an installed application for a verification build, and its restore |
| `SlackTime`, `CatchupCycle` | backward-paged channel catch-up with durable positions |
| `ThreadPoll` | polling of owned threads from a durable cursor |
| `RoundRobin`, `MethodBudget` | the fair order of sweeps and the per-method request budget |
| `TurnTrace`, `Executor` | the Claude executor: turns, questions, steers, interrupts, sealing |
| `ContinuedArtifacts` | the declared attachments that a waiting task answers with |
| `ControlSession` | requests and messages waiting for acknowledgement, and the event queue |
| `Utf8`, `Framing` | incremental framing of both byte streams, over UTF-8 as in section 4 of RFC 3629 |
| `DelegationAttempt`, `Delegation` | one delegated attempt, and delegation claims shared by any number of brokers |
| `AdvisorJournal`, `AdvisorRecovery` | the readers of terminal advisor journals, and the finalizer that writes them after an interruption |
| `AdvisorRetry` | the retry loop of one advisor slot |
| `AdvisorRound` | the Claude slot of one advisor round over every start, retry, continuation and crash |
| `WhiteSpace` | white space as `trim` of ECMAScript 2024 has it, shared by the modules that test for blank text |
| `AnswerFile` | the receipt that binds an answer file, found however the terminal wrapped it |
| `SortedStrings`, `Snapshot` | repository snapshots, their difference and their scoping |

Reading guide. Code that updates state in place is a class whose methods are
proved equal to a specification function of the old state; the properties are
then proved about that function over whole runs. A crash is an event, or a bound
on how many durable writes get through. What a run can observe from outside
(Slack pages, foreign processes, the ledger's answers, clocks) is a parameter, so
a lemma about every run quantifies over it. Digests are injective functions:
where only equality of digests matters, the digest of a record is the record.
`key` of the archive check acts on each path component.

Contracts taken from outside: a Slack history page holds the newest messages of
an open interval, up to a delay in visibility of at most the one second that
cycles overlap; a replies page holds the earliest ones after a cursor, without
any delay; a read position commits only when every required event is durable;
the goal of a Claude task changes only while a task turn may be running; a send
receipt is in the request directory before any byte of a prompt is delivered,
and the host reports delivery exactly when there is one; a verified cleanup
names its own generation; `mkdir` of a request directory and creation of a claim
file are exclusive.

Where the code keeps less than its purpose, the exact condition is proved and a
concrete input shows the failure:

- A restore removes the staging directory before the journal. When it dies in
  between and the verification build is put back at the target, it can no longer
  be moved aside, and no restore or install gets any further until it is taken
  away again. A restore completes exactly when a build at the target still has
  its staging directory (`RestoreCompletes`, `StuckWithoutStaging`,
  `StagingCanBeMissing`).
- The finalizer checks each cached Grok slot by itself. In a version 8 journal the
  slots it writes are unreadable exactly when the cached slot names the process of
  an answer retained for the other perspective (`WrittenGrokIsReadable`,
  `SharedProcessIsUnreadable`).
- It takes any verified cleanup outcome. The Claude slot it writes is unreadable
  exactly when nothing was cached or retained and the outcome contradicts its own
  workspace (`WrittenClaudeIsReadable`, `UnpublishableIsUnreadable`). In both
  cases the round is finalized and yet no broker resumes it (`RerunCompletes`,
  `FinalizedYetNotResumed`).
- An answer that was obtained is not always kept: a Claude answer is lost when its
  workspace was not closed and verified in full, for instance closed only
  provisionally, and a version 8 cache of two Grok answers loses both
  (`ClaudeAnswerSurvives`, `ProvisionalAnswerIsLost`, `GrokAnswerSurvives`,
  `TwoCachedAnswersAreLost`).
- Bytes that are not UTF-8 fail a stream whatever its chunks, but a chunk that
  brings such a byte brings none of the lines in front of it. What is received is
  independent of the chunks exactly when the stream is UTF-8 so far or has no
  packet before that byte (`ChunksMatterExactly`, `SessionChunksMatterExactly`);
  of one line and a byte 0xFF nothing is received in one chunk, and the packet in
  two (`ChunksCanMatter`).

## Model

| member | source | states |
|---|---|---|
| ArchiveLinks.CheckedIsKernelResolution | zerokun/app-swap-broker.ts:217-235 | the checker's bounded loop accepts a target exactly when unbounded kernel-order resolution ends inside the root after at most 40 links |
| ArchiveLinks.RootLinkRejected | zerokun/app-swap-broker.ts:215-235 | a link at the application root is never accepted, wherever it points |
| ArchiveLinks.FollowLink | zerokun/app-swap-broker.ts:215-235 | the loop over stack and deque, which terminates, accepts exactly the links the kernel resolves inside |
| ArchiveLinks.ScanEntries | zerokun/app-swap-broker.ts:189-210 | the first pass accepts exactly archives of safe, distinct, supported entries and returns their names and links |
| ArchiveLinks.NoneThroughLink | zerokun/app-swap-broker.ts:211-214 | the second pass accepts exactly when no name passes through a link |
| ArchiveLinks.AllLinksResolve | zerokun/app-swap-broker.ts:215-235 | the third pass accepts exactly when every link resolves inside, in any order of the table |
| ArchiveLinks.ValidateArchive | zerokun/app-swap-broker.ts:177-236 | the whole check accepts exactly the valid archives |
| ArchiveLinks.AcceptedArchiveConfines | zerokun/app-swap-broker.ts:187-235 | in an accepted archive no state of the resolution of any path without ".." is outside the application root |
| ArchiveLinks.AcceptedArchiveWalksEnd | zerokun/app-swap-broker.ts:215-235 | and every such resolution ends, although the kernel machine has no bound |
| ArchiveLinks.AcceptedWalkEnds | zerokun/app-swap-broker.ts:215-235 | from any inside state an accepted table is walked to its end, inside |
| ArchiveLinks.LexicalParentIsPhysical | zerokun/app-swap-broker.ts:211-216 | the directory that an entry's name spells is the one its resolution reaches |
| ArchiveLinks.ArchivedEntryConfined | zerokun/app-swap-broker.ts:187-235 | resolving any archived entry by name stays below the first component of its name |
| AppSwap.ReachableInv | zerokun/app-swap-broker.ts:300-402 | every disk reached by installs, restores, failed renames, crashes after any write and user actions satisfies the swap invariant |
| AppSwap.OriginalSurvives | zerokun/app-swap-broker.ts:300-383 | while the journal exists the original is at the target or in the backup, in every such run |
| AppSwap.RestoreKeepsHeld | zerokun/app-swap-broker.ts:300-329 | a restore, wherever it dies, removes no held bundle but the journal's own verification build |
| AppSwap.InstallKeepsHeld | zerokun/app-swap-broker.ts:343-383 | an install keeps the bundle it found, wherever it dies and whichever rename fails, unless the user removes it while the recovery stops the application |
| AppSwap.ForeignTargetStays | zerokun/app-swap-broker.ts:300-343 | a target that is neither the original nor the build stays, with the rest of the disk, through any run of restores and installs until the user acts |
| AppSwap.RestoreCompletes | zerokun/app-swap-broker.ts:300-329 | from a reachable restorable disk one undisturbed restore ends with the original, no backup and no journal, exactly when a build at the target still has its staging directory |
| AppSwap.StuckWithoutStaging | zerokun/app-swap-broker.ts:314-329 | otherwise no run of restores and installs changes the disk until the user acts |
| AppSwap.StagingCanBeMissing | zerokun/app-swap-broker.ts:314-329 | such a disk is reached by an install, a restore that dies after removing the staging directory, and a user who puts the build back |
| AppSwap.InstallThenRestoreIsIdentity | zerokun/app-swap-broker.ts:331-402 | an install that dies anywhere, any number of restores that die anywhere, then a whole one: the target is what it was |
| AppSwap.InstallPlaces | zerokun/app-swap-broker.ts:340-384 | an install over a disk without journal or backup leaves exactly the disk that its writes so far make: the staged build, the journal, the original in the backup, and at last the build at the target |
| AppSwap.FailedInstallIsUndone | zerokun/app-swap-broker.ts:364-377 | an install whose rename fails leaves the disk as it found it, when its recovery is not stopped and the user leaves the target alone |
| AppSwap.ApplicationSlot.RestoreTransaction | zerokun/app-swap-broker.ts:300-329 | the in-place recovery makes exactly the effects the specification lists, up to the crash, with the source's refusals and the failure to move a build into a staging directory that is gone |
| AppSwap.ApplicationSlot.CarryOut | zerokun/app-swap-broker.ts:314-329 | the recovery writes in their order, stopping at the crash, or at once when the build cannot be moved into its staging directory |
| AppSwap.ApplicationSlot.RestoreInstalledBuild | zerokun/app-swap-broker.ts:387-402 | restore without a journal refuses, with one it runs the recovery and reports its refusal, its death or its end |
| AppSwap.ApplicationSlot.InstallVerificationBuild | zerokun/app-swap-broker.ts:331-384 | an install that is done has the build at the target and what it found as the backup, under the journal; it is done exactly when no rename fails and it does not die; a failed rename is recovered from, and another build staged is refused |
| CatchupCycle.NextCycleLeavesNoGap | server.ts:1956-1981 | starting one second before the last start, rounding included, leaves no wanted message between two cycles |
| CatchupCycle.RunKeepsInv | server.ts:1956-2026 | in any run of sweeps everything below the bound and above the cursor is handled |
| CatchupCycle.NothingSkipped | server.ts:2402-2552 | whenever a cycle has committed complete, every wanted message since the first bound that was visible by then is handled |
| CatchupCycle.NothingSkippedBelowBound | server.ts:1956-2026 | at any moment every wanted message up to the running cycle's bound is handled |
| CatchupCycle.CommitMakesProgress | server.ts:1982-2026 | each commit that does not finish a cycle leaves strictly less of it to read |
| CatchupCycle.CycleCommitsBounded | server.ts:1982-2026 | so a cycle over k messages finishes within k + 1 commits |
| CatchupCycle.PageMessagesPassBound | gate.ts:499-536 | the planner's millisecond bound drops no message of a page, whatever the rounding |
| CatchupCycle.RetreatReadCursor | gate.ts:573-579 | the minimum of the page and the previous position |
| CatchupCycle.ChannelCatchup.BeginCatchupReadCycle | server.ts:1956-1981 | an unfinished cycle is resumed, a complete one restarts one second before its start |
| CatchupCycle.ChannelCatchup.ChannelHistory | server.ts:1982-2026 | what one scan has read is a committable position once it is handled; the first page that brings nothing older ends it, as complete or without progress, and otherwise the method budget or the page budget does, whichever is spent first |
| CatchupCycle.ChannelCatchup.CommitIfDurable | server.ts:2020-2026 | a position moves exactly when every required event is durable |
| CatchupCycle.ChannelCatchup.Sweep | server.ts:2402-2552 | one channel of one sweep is a step of the specification, also when it dies; it commits exactly when it read, lives, and every wanted message it read is handled, and then the position the scan came to |
| ThreadPoll.SelectNewReplies | gate.ts:688-704 | exactly the eligible replies after the cursor, oldest first |
| ThreadPoll.AdvanceReadCursor | gate.ts:564-570 | the maximum of the page and the cursor, whoever wrote it |
| ThreadPoll.PlanThreadPoll | gate.ts:594-612 | delivered and skipped together are the new eligible replies, each as often as the page has it, in order |
| ThreadPoll.CommittedIsSettled | server.ts:2796-2812 | what a committed poll has read is durable or was refused by its policy |
| ThreadPoll.NoReplySkipped | server.ts:2672-2830 | in every run every eligible reply after the seed and up to the cursor was handled durably or skipped by policy |
| ThreadPoll.NothingTwice | server.ts:2796-2812 | no reply of a committed page is new to a later poll |
| ThreadPoll.SkippedOnlyByPolicy | server.ts:2746-2750 | nothing counts as skipped that no poll's policy refused |
| ThreadPoll.CursorNeverRetreats | server.ts:2672-2830 | while a thread stays owned its cursor never moves backwards |
| ThreadPoll.OwnedThread.Poll | server.ts:2708-2817 | a poll commits exactly when every reply that the policy lets through was accepted and is durable and the position moves or is the first; then to the newest of the page, and otherwise it holds |
| RoundRobin.OrderIsCycle | gate.ts:249-254 | one sweep's order is the cyclic order from the item after the last completed |
| RoundRobin.LogIsCycle | server.ts:2360-2388 | the completions of any run of sweeps and restarts continue one endless cycle over the list |
| RoundRobin.ConsecutiveCompletionsPermute | server.ts:2360-2388 | any n consecutive completions are a permutation of the n channels |
| RoundRobin.StoppedSweepResumes | server.ts:2360-2388 | a sweep that was stopped resumes at the channel it stopped on |
| RoundRobin.EveryItemServed | server.ts:2360-2388 | with budget b and no rate limit every channel is served within ceil(n / b) sweeps |
| RoundRobin.Scheduler.Sweep | server.ts:2560-2562 | the sweep persists each completion before the next channel |
| MethodBudget.GrantsSpanAMinute | server.ts:171-202 | any 2B + 1 consecutive grants of one key span at least 60000 ms |
| MethodBudget.WindowGrantsAtMostBudget | server.ts:171-202 | no window grants more than B |
| MethodBudget.LanesAreIsolated | server.ts:171-202 | what a method or replies lane has left depends only on its own calls |
| MethodBudget.GrantedByOwnRun | server.ts:187-202 | the next call of a key is granted exactly when its own run grants it |
| MethodBudget.RefusedExactly | server.ts:187-202 | a request is refused exactly when the b grants before it share a window that is not over; otherwise it is granted and counted at its time |
| MethodBudget.GrantedExactly | server.ts:171-202 | over any calls, one is refused exactly when the last 40, 20 or 10 grants of its own method, and for replies of its own lane, have spent its window |
| MethodBudget.SlackBudget.TakeSlackMethodBudget | server.ts:187-202 | the map update refines the specification of one key, and grants exactly while the window of its own calls is not spent |
| TurnTrace.SealedTextAnsweredSealedInput | zerokun/claude-executor.ts:293-355 | whatever is sealed is the text of an uninterrupted successful task turn whose prompt carried the sealed revision, and the latest turn of the task was such a turn on exactly the sealed revision and digest |
| TurnTrace.SealedTextAnsweredExactly | zerokun/claude-executor.ts:293-355 | when one revision is one input, the sealed text itself answered exactly the sealed input |
| TurnTrace.OneMessageInFlight | zerokun/claude-executor.ts:129-179 | between two user messages the first has reached its terminal |
| TurnTrace.PhasesNeverReused | zerokun/claude-executor.ts:129-179 | phase numbers of task prompts strictly increase, whatever questions come between |
| TurnTrace.PromptsMatchTheirProcess | zerokun/claude-executor.ts:92-119 | questions go only to a read-only process, everything else only to a writable one |
| TurnTrace.SteerIsDelivered | zerokun/claude-executor.ts:318-324 | a steer taken between two turns is sent on the revision it made before anything else is looked at, sent or sealed |
| TurnTrace.SealedAfterSteer | zerokun/claude-executor.ts:318-347 | and whatever is sealed after it was answered after it |
| TurnTrace.NothingAfterInterrupt | zerokun/claude-executor.ts:317-345 | after an interrupt taken between two turns, and after a seal, nothing is looked at, opened, sent or sealed |
| TurnTrace.QuestionIsPut | zerokun/claude-executor.ts:311-316 | a question that is taken is put before anything else is decided |
| TurnTrace.SealedWhenDone | zerokun/claude-executor.ts:326-331 | a seal follows a look at a goal that is no longer active and a newest input that is the one answered |
| TurnTrace.PhaseWhenNotDone | zerokun/claude-executor.ts:326-354 | the next phase is sent only after a look that found the latest text not to be sealed |
| TurnTrace.SentWithGoalReset | zerokun/claude-executor.ts:318-354 | a steer and a next phase are sent with the goal made active again since the last look |
| TurnTrace.PromptCarriesNewest | zerokun/claude-executor.ts:288-352 | a first prompt and a next phase carry the newest input as it was read for that prompt, since the last look |
| Executor.ClaudeJob.OpenProcess | zerokun/claude-executor.ts:92-119 | the wanted mode is open afterwards and never two processes at once |
| Executor.ClaudeJob.CloseProcess | zerokun/claude-executor.ts:78-91 | the process is gone or the failure is reported |
| Executor.ClaudeJob.Send | zerokun/claude-executor.ts:129-179 | one message carrying the current snapshot is written once the ledger lets it proceed, twice asked for a phase or a question, or nothing is when the input changed first |
| Executor.ClaudeJob.Receive | zerokun/claude-executor.ts:181-247 | a terminal ends the turn; the turn was interrupted exactly when a control was seen that stops it, and its text is the latest answer exactly when it succeeded uninterrupted |
| Executor.ClaudeJob.Finish | zerokun/claude-executor.ts:248-256 | the turn and its interrupt marks are cleared once the inbound barrier lets it go, and nothing else is |
| Executor.ClaudeJob.AnswerQuestion | zerokun/claude-executor.ts:257-283 | a question is put, its answer delivered, and the kept text dropped exactly when the question became a task update |
| Executor.ClaudeJob.CompleteTurn | zerokun/claude-executor.ts:293-308 | the kept text is that of the turn exactly when it succeeded uninterrupted; an interrupted process is retired |
| Executor.ClaudeJob.SteerTask | zerokun/claude-executor.ts:318-324 | the steer is sent on its revision, with the goal active again, and the old text is dropped |
| Executor.ClaudeJob.ContinueTask | zerokun/claude-executor.ts:351-355 | when the newest input changed before dispatch, the reset goal keeps the old text from being sealed |
| Executor.ClaudeJob.Answer | zerokun/claude-executor.ts:336-336 | the text to seal is the kept one or, for a waiting task whose last text declares nothing, another answer to the same revision |
| Executor.ClaudeJob.CheckGoal | zerokun/claude-executor.ts:326-330 | sealing is due exactly when there is a text, the goal is not active and the newest input is the one answered |
| Executor.ClaudeJob.SealClosed | zerokun/claude-executor.ts:331-346 | a seal is recorded exactly when the ledger seals |
| Executor.ClaudeJob.TrySeal | zerokun/claude-executor.ts:326-347 | a seal is recorded only when the kept text answered the newest input, for that text or the one its attachments call for |
| Executor.ClaudeJob.Decide | zerokun/claude-executor.ts:309-355 | what has come in is recorded and dealt with in the order of question, interrupt, steer, goal |
| Executor.ExecuteClaudeJob | zerokun/claude-executor.ts:285-361 | for every script of outside answers the trace is legal, and a returned result was sealed there: answered by the latest turn on exactly its input, with a text answered for its revision, or for exactly that input when one revision is one input |
| ContinuedArtifacts.LatestStands | zerokun/continued-artifact-message.ts:33-50 | after any messages, pending is the newest declaration if it was in order, has files, and no later message was of another revision; otherwise nothing |
| ContinuedArtifacts.ResolvedIsChosen | zerokun/continued-artifact-message.ts:52-61 | an earlier message is answered with exactly when it stands, its revision is the current one, the task waits, the last message declares nothing and no file has changed |
| ContinuedArtifacts.DeclarationIsRead | zerokun/continued-artifact-message.ts:35-42 | what stands between the tags is read back, whatever their case, the text before them and the white space after |
| ContinuedArtifacts.RetainedExactly | zerokun/continued-artifact-message.ts:38-48 | a declaration of one to ten paths in a message that is not too long gives exactly those of its files that can be read, each once; any other gives none |
| ContinuedArtifacts.ContinuedArtifactMessage.Observe | zerokun/continued-artifact-message.ts:33-50 | the pending message stays that of the messages seen |
| ContinuedArtifacts.ContinuedArtifactMessage.Resolve | zerokun/continued-artifact-message.ts:52-61 | the answer is the message chosen among all seen, or the last one when none is |
| ControlSession.EachWaiterSettlesOnce | zerokun/claude-control-session.ts:92-194 | in every run each waiter is waiting or settled, exactly once, and settled once the session has failed or ended |
| ControlSession.SettledByOwnKey | zerokun/claude-control-session.ts:232-295 | a response settles only the request of its own key, an echo only the message of its own id |
| ControlSession.MessageIdsWrittenOnce | zerokun/claude-control-session.ts:153-177 | no message id is written twice |
| ControlSession.ConsumerSeesPrefix | zerokun/claude-control-session.ts:179-294 | dequeued events are a prefix of accepted ones, also of those queued after a failed answer, and the queued bytes are exact while the session reads or has not failed |
| ControlSession.EventIsQueued | zerokun/claude-control-session.ts:270-294 | an event for the consumer that fits the limit is queued, whole and last |
| ControlSession.ResponseSettles | zerokun/claude-control-session.ts:236-245 | a response settles the request it names with its own success, and a late one changes nothing |
| ControlSession.EchoSettles | zerokun/claude-control-session.ts:286-289 | an echo settles the message it names, and no other event for the consumer settles anything |
| ControlSession.ArrivalFailsExactly | zerokun/claude-control-session.ts:232-294 | an arrival fails the session and stops its reader exactly when it is foreign, malformed, of a model it must not have, refused by its handler, or too large |
| ControlSession.InboundRequestIsIgnored | zerokun/claude-control-session.ts:246-268 | a cancellation and a sound inbound request change neither queue nor waiters |
| ControlSession.RequestWaits | zerokun/claude-control-session.ts:129-145 | a call on a session that stands takes the next number and waits under it once journaled; otherwise it changes nothing |
| ControlSession.MessageWaits | zerokun/claude-control-session.ts:153-177 | likewise a message, whose id is spent with it |
| ControlSession.TimerSettles | zerokun/claude-control-session.ts:119-147 | a timer and a failed write settle their own waiter if it still waits |
| ControlSession.EndingsSettleAll | zerokun/claude-control-session.ts:92-107 | closing, the end of the stream and a failed answer each settle all who wait and leave the queue alone |
| ControlSession.ClaudeControlSession.SettleWaiter | zerokun/claude-control-session.ts:119-147 | a late answer settles nothing, a waiting one is removed and settled |
| ControlSession.ClaudeControlSession.AcceptEvent | zerokun/claude-control-session.ts:232-295 | the classification of one event and its effect, for as long as the reader runs |
| ControlSession.ClaudeControlSession.NextEvent | zerokun/claude-control-session.ts:179-195 | the oldest event is taken with its bytes, or nothing after a failure |
| ControlSession.ClaudeControlSession.Drive | zerokun/claude-control-session.ts:51-295 | any run of the session's methods is the run of its specification |
| Utf8.ScanResumes | zerokun/claude-pane-protocol.ts:31-34 | decoding can stop after any chunk and resume from the bytes left over |
| Utf8.WholeIsEncoded | zerokun/claude-pane-protocol.ts:31-34 | bytes are accepted as whole text exactly when they are the encoding of some Unicode characters |
| Utf8.BadIsNeverText | zerokun/claude-pane-protocol.ts:31-34 | bytes fail exactly when nothing that follows makes them such an encoding |
| Utf8.TextDecoder.Decode | zerokun/claude-pane-protocol.ts:31-34 | each chunk completes exactly the text the whole stream has by then, or fails when the stream is not UTF-8 |
| Framing.ReadResumes | zerokun/claude-pane-protocol.ts:35-45 | splitting can stop after any part of the text and resume from the rest |
| Framing.FrameReader.Push | zerokun/claude-pane-protocol.ts:33-47 | after any chunk the verdict and the packets received are those of the whole stream so far, except that a chunk bringing a byte that is not UTF-8 brings no packet |
| Framing.FrameReader.FinishPane | zerokun/claude-pane-protocol.ts:48-51 | a pane stream is accepted exactly when it ends on a frame boundary with every frame sound |
| Framing.FrameReader.FinishSession | zerokun/claude-control-session.ts:228-229 | a session stream may end in a line without newline, which counts as a line |
| Framing.SessionEndsItsLine | zerokun/claude-control-session.ts:228-229 | a session stream is read as if a newline ended it |
| Framing.ReadPane | zerokun/claude-pane-protocol.ts:29-52 | the verdict depends only on the concatenated bytes; the packets are those of the text up to the last chunk before a byte that is not UTF-8 |
| Framing.ReadSession | zerokun/claude-control-session.ts:206-230 | likewise for the session's reader, with the last line of an accepted stream |
| Framing.ChunksMatterExactly | zerokun/claude-pane-protocol.ts:33-47 | the packets received are independent of the chunks exactly when the stream is UTF-8 so far or has no packet before the byte that is not |
| Framing.SessionChunksMatterExactly | zerokun/claude-control-session.ts:219-229 | likewise for the session's reader |
| Framing.ChunksCanMatter | zerokun/claude-pane-protocol.ts:33-47 | a stream of one line and a byte that is not UTF-8 gives no packet in one chunk and the line's packet in two |
| Framing.WrittenIsRead | zerokun/claude-pane-protocol.ts:29-52 | whatever the chunks, both readers accept the newline-joined encoding of in-limit packets and give them back |
| DelegationAttempt.Observation.Observe | zerokun/claude-delegation-attempt.ts:42-58 | the three fields say of the trace whether there was work, a native error, and which quota the last rate limit named |
| DelegationAttempt.Observation.Failed | zerokun/claude-delegation-attempt.ts:59-66 | a retry is safe exactly when the last rate limit named the Fable quota and no event of the trace was work |
| DelegationAttempt.Execute | zerokun/claude-delegation-attempt.ts:107-117 | the turn ends by its first decisive arrival: its text for a success of the right model, a judgement of what was observed for a failed turn, and otherwise the failure of its kind |
| DelegationAttempt.RunClaudeDelegation | zerokun/claude-delegation-attempt.ts:74-138 | a failed cleanup replaces every result and names what came before; otherwise the result of the turn stands; a retry-safe failure had a verified cleanup and no work observed |
| DelegationAttempt.ClassifiedByTrouble | zerokun/claude-delegation-attempt.ts:117-124 | a failure that no event was judged for has a code of its own for each kind of trouble, and by its stage when it was not expected; none is safe to retry |
| Delegation.LaunchedAtMostOnce | zerokun/claude-delegation-broker.ts:63-163 | over any number of brokers and crashes one id launches the requested model and the fallback at most once each, for one request |
| Delegation.FallbackOnlyAfterCleanRejection | zerokun/claude-delegation-broker.ts:103-122 | the fallback follows only a clean, retry-safe quota rejection of the first model |
| Delegation.ClaimIsNeverReplayed | zerokun/claude-delegation-broker.ts:43-89 | once a claim is on disk and no broker is about to launch, no event launches anything again |
| Delegation.StartLaunches | zerokun/claude-delegation-broker.ts:63-106 | a start of a free id launches the requested model under a claim saved before |
| Delegation.UnsavedClaimLaunchesNothing | zerokun/claude-delegation-broker.ts:93-99 | a claim that cannot be saved launches nothing and gives the id back |
| Delegation.FallbackExactly | zerokun/claude-delegation-broker.ts:103-122 | the fallback follows a first failure exactly when that was a clean quota rejection, nobody aborted, and it could be saved and announced |
| Delegation.EndsAreOver | zerokun/claude-delegation-broker.ts:104-133 | a success ends the attempt under the requested model, and the end of the fallback under the fallback model |
| Delegation.ResultIsRecorded | zerokun/claude-delegation-broker.ts:153-163 | an attempt that is over is recorded with its model and the id given back, at the latest by the next poll |
| Delegation.OrphanIsFinished | zerokun/claude-delegation-broker.ts:50-59 | a poll by another broker ends a running claim exactly when its owner is dead |
| Delegation.Claims.Claim | zerokun/claude-delegation-broker.ts:86-99 | the claim is saved before any launch; a failed save settles and releases |
| Delegation.Claims.ChooseFallback | zerokun/claude-delegation-broker.ts:107-121 | the fallback is saved and announced before it can be launched |
| Delegation.Claims.PollClaim | zerokun/claude-delegation-broker.ts:43-61 | a poll rewrites a settled record or marks an orphan interrupted, and launches nothing |
| Delegation.Claims.Serve | zerokun/claude-delegation-broker.ts:32-176 | any run of the brokers' actions is the run of the specification |
| AdvisorJournal.ValidTerminalGrokAttemptsFor | zerokun/advisor-journal.ts:192-252 | the set-and-counter loop accepts exactly sound slots of the expected perspectives on distinct processes |
| AdvisorJournal.CountsIffNoRepeats | zerokun/advisor-journal.ts:211-240 | comparing the size of the set with the counter detects exactly a repeated process |
| WhiteSpace.BlankIffTrimmedAway | zerokun/advisor-round-recovery.ts:65-71 | a saved text is blank exactly when trimming leaves nothing |
| AdvisorRecovery.RecoveredClaudeIsReadable | zerokun/advisor-round-recovery.ts:610-665 | what the finalizer makes of a cleanup outcome passes the reader exactly when the outcome is publishable |
| AdvisorRecovery.WrittenGrokIsReadable | zerokun/advisor-round-recovery.ts:753-774 | from a valid requested journal the Grok slots written pass the reader, except exactly in version 8 when the cached slot names the process of an answer retained for the other perspective |
| AdvisorRecovery.SharedProcessIsUnreadable | zerokun/advisor-round-recovery.ts:753-774 | such an input: answers of processes 5 and 6 retained and a cached answer of the first perspective from process 6 |
| AdvisorRecovery.WrittenClaudeIsReadable | zerokun/advisor-round-recovery.ts:738-746 | the Claude slot written passes the reader exactly when a cached or a retained slot is taken over, there was no cleanup outcome, or the outcome is publishable |
| AdvisorRecovery.UnpublishableIsUnreadable | zerokun/advisor-round-recovery.ts:610-665 | an outcome with a workspace that was seen and a status that says it was never created gives an unreadable slot |
| AdvisorRecovery.ClaudeAnswerSurvives | zerokun/advisor-round-recovery.ts:46-87 | an answer cached for the round stands in the journal under its own digest exactly when it is contained, says something and its workspace was closed and verified under a receipt |
| AdvisorRecovery.ProvisionalAnswerIsLost | zerokun/advisor-broker.ts:2783-2800 | an answer is adopted without regard to its cleanup status, and one whose workspace was closed provisionally is lost |
| AdvisorRecovery.GrokAnswerSurvives | zerokun/advisor-round-recovery.ts:54-87 | a contained Grok answer in a cache of any length stands in the journal under its own digest exactly when it is the only slot, says something, names its process and has the phase's perspective, or was retained before |
| AdvisorRecovery.TwoCachedAnswersAreLost | zerokun/advisor-round-recovery.ts:74-78 | a version 8 cache of two answers loses both |
| AdvisorRecovery.FinalizedOnce | zerokun/advisor-round-recovery.ts:667-802 | however often it is interrupted and rerun, the journal is rewritten at most once, only the recorded claim is removed, and a finalized receipt holds the digest of the journal on disk |
| AdvisorRecovery.ClaudeAnswerStands | zerokun/advisor-round-recovery.ts:689-797 | after every run that rewrote the journal, a cached Claude answer is on disk under its own digest exactly when it could be kept |
| AdvisorRecovery.GrokAnswerStands | zerokun/advisor-round-recovery.ts:689-797 | likewise for a contained Grok answer, from a cache of any length |
| AdvisorRecovery.DeliveryIsRecorded | zerokun/advisor-round-recovery.ts:610-665 | after every run that rewrote the journal, a delivery the scene knows of is in the Claude slot on disk unless that has the answer, and a slot made from the scene tells what the scene knows and nothing more, and a failure taken over is of the workspace the scene knows of |
| AdvisorRecovery.RewrittenClosesRound | zerokun/advisor-round-recovery.ts:667-774 | the rewritten journal is of the round that was requested, with the status its observations call for, and at each expected perspective that no cached slot took keeps the retained answer or says that it is lost |
| AdvisorRecovery.TerminalIsReadable | zerokun/advisor-broker.ts:1749-1817 | the journal a run writes is read by the broker exactly when the requested journal and the scene are recoverable, said of both by themselves |
| AdvisorRecovery.RerunCompletes | zerokun/advisor-round-recovery.ts:689-797 | an uninterrupted rerun finalizes exactly when there is a receipt, an accounted workspace and no foreign claim; then the broker resumes the round exactly when the journal was recoverable from the scene that closed it |
| AdvisorRecovery.FinalizedYetNotResumed | zerokun/advisor-broker.ts:3046-3074 | after an outcome that is not publishable, with nothing cached or retained, a round is finalized that no broker resumes |
| AdvisorRecovery.RoundFiles.RecordAdvisorExecutorRetirement | zerokun/advisor-round-recovery.ts:417-504 | a receipt binds the requested journal and its claim, once |
| AdvisorRecovery.RoundFiles.ReleaseLockExact | zerokun/advisor-round-recovery.ts:596-608 | the claim is removed only when device, inode and content are the recorded ones |
| AdvisorRecovery.RoundFiles.FinalizeRetiredRound | zerokun/advisor-round-recovery.ts:687-797 | the writes in their order, resumable after each |
| AdvisorRetry.LastRun | zerokun/advisor-retry.ts:24-53 | no slot is run again after an answer, an uncontained run or, for Claude, a run that may have delivered its prompt |
| AdvisorRetry.RunsAreEarned | zerokun/advisor-retry.ts:24-53 | every run follows the invalidation of its slot, and a repeated one a persisted retryable failure, a wait and its retirement |
| AdvisorRetry.RecoverAdvisorSlot | zerokun/advisor-retry.ts:11-53 | the loop keeps to that order, uses the runs in theirs, waits half a minute and then twice as long up to five, and stops exactly at a result that is not to be retried, which it returns as persisted |
| AdvisorRound.NeverRunAfterDelivery | zerokun/advisor-broker.ts:4102-4124 | once a Claude run of a round may have delivered its prompt, the only later run is the one quota fallback |
| AdvisorRound.DeliveredAtMostOnce | zerokun/claude-quota-fallback.ts:27-56 | the prompt of each model is delivered at most once per round |
| AdvisorRound.DeliveryStaysOnRecord | zerokun/advisor-broker.ts:4020-4058 | a delivery always leaves a fallback claim, a send receipt or an outcome that stops the next run |
| AdvisorRound.ContinuedAtMostThreeTimes | zerokun/advisor-broker.ts:3193-3211 | an interrupted round is continued automatically at most three times |
| AdvisorRound.RunKeepsInv | zerokun/advisor-broker.ts:3861-4124 | every world reached by starts, retries, continuations, crashes, reconciliations and finalizations satisfies the round's invariant |
| AdvisorRound.RetiredIsUnsent | zerokun/advisor-round-recovery.ts:242-262 | a retirement that goes through removes only the outcome of a generation that delivered nothing |
| AdvisorRound.RetiresOnlyItsOwn | zerokun/advisor-round-recovery.ts:242-262 | a retirement goes through exactly for a clean outcome of its own generation, or none; otherwise the attempt gives up and the outcome stays |
| AdvisorRound.FirstStartRuns | zerokun/advisor-broker.ts:3861-4124 | the first start of a round sends the prompt under a requested journal |
| AdvisorRound.PlanRuns | zerokun/advisor-broker.ts:4020-4124 | so does a retry whose plan has no answer and sent nothing, once its outcome is retired |
| AdvisorRound.KeptPlanCloses | zerokun/advisor-broker.ts:4102-4124 | a plan with an answer, or with a possible delivery, is kept without a run and closes the round |
| AdvisorRound.RunCloses | zerokun/advisor-broker.ts:2730-2840 | a run that ends without the fallback closes the round with what it came to: an answer exactly when one was obtained, sent for and its workspace verified, and a possible delivery exactly when it was sent or may have been |
| AdvisorRound.QuotaFallsBack | zerokun/claude-quota-fallback.ts:43-50 | a first run that its quota rejected cleanly is followed by the fallback, claimed on disk before |
| AdvisorRound.FallbackIsNotRunAgain | zerokun/claude-quota-fallback.ts:32-43 | a fallback that was claimed is not run again: its result stands, or the slot ends as one that may have delivered |
| AdvisorRound.UnopenedEnds | zerokun/advisor-broker.ts:2608-2618 | a run that was never opened or whose request was discarded ends contained, without workspace, delivery or answer |
| AdvisorRound.ContinuesExactly | zerokun/advisor-broker.ts:3193-3211 | an automatic continuation begins exactly for a recovered round with retries left whose slot was interrupted, is contained and sent nothing |
| AdvisorRound.RetriesRecoveredExactly | zerokun/advisor-broker.ts:3368-3400 | an explicit retry of a recovered round begins exactly while retries are left and its recorded slot is contained |
| AdvisorRound.RetriesFinishedExactly | zerokun/advisor-broker.ts:3324-3366 | and of a finished one exactly when its cache is the one the journal names, both are contained, and retries are left or only the input changed |
| AdvisorRound.FinalizeRecovers | zerokun/advisor-round-recovery.ts:689-797 | a dead attempt is finalized exactly when it is accounted for, and a delivery its files know of is in its slot unless that has the answer |
| AnswerFile.NormalizeKeepsText | zerokun/claude-answer-file.ts:52-52 | normalizing a terminal line removes white space and one leading bullet and nothing else |
| AnswerFile.OneRecord | zerokun/claude-answer-file.ts:51-67 | among lines that hold no other receipt, a receipt wrapped over at most 32 lines gives exactly one record |
| AnswerFile.WrappedMarkerIsSeen | zerokun/claude-answer-file.ts:75-86 | a wrapped request marker is found |
| AnswerFile.FindRecords | zerokun/claude-answer-file.ts:55-67 | the nested folding loops find the records of the specification |
| AnswerFile.FindMarker | zerokun/claude-answer-file.ts:76-86 | found exactly when some bounded run of lines folds to the marker |
| AnswerFile.ReadBody | zerokun/claude-answer-file.ts:88-94 | a body is returned exactly when both boundaries occur once, outermost |
| AnswerFile.ReadClaudeAnswerFile | zerokun/claude-answer-file.ts:39-97 | an answer is returned exactly for one receipt naming the file's digest, a marker after it and a non-empty enclosed body |
| AnswerFile.AnswerSurvivesWrapping | zerokun/claude-answer-file.ts:51-97 | however receipt and marker were wrapped, the decoder accepts the whole body |
| AnswerFile.WrappedTranscriptIsRead | zerokun/claude-answer-file.ts:39-97 | from the raw transcript and file: white space, a bullet and wrapping notwithstanding, the result is the trimmed body and the digest of the file |
| AnswerFile.ClaudeResponseSettling.Exhausted | zerokun/claude-answer-file.ts:20-30 | settled exactly when the evidence has been unchanged for the whole time since the last change or reset |
| Snapshot.ChangedIdentityPaths | zerokun/advisor-snapshot.ts:192-203 | the first differing paths in order, at most 200, and exactly how many were omitted |
| Snapshot.ListsNothingIffEqual | zerokun/advisor-snapshot.ts:192-203 | nothing is listed exactly when the two maps are equal |
| Snapshot.SummarizeAdvisorRepositoryChanges | zerokun/advisor-snapshot.ts:205-286 | one entry for each repository that differs, in order, with its kind, heads and paths |
| Snapshot.SummaryIsEmptyIffUnchanged | zerokun/advisor-snapshot.ts:205-286 | for well-formed snapshots of one layout the summary lists nothing exactly when they are the same |
| Snapshot.NormalizeAdvisorRepositoryScope | zerokun/advisor-snapshot.ts:358-379 | a scope is accepted exactly when it is non-empty, bounded, sorted without repeats and known |
| Snapshot.ScopeAdvisorRepositorySnapshot | zerokun/advisor-snapshot.ts:404-428 | the accumulating loop builds the scoped snapshot, or refuses the scope |
| Snapshot.ScopedIsWellFormed | zerokun/advisor-snapshot.ts:404-428 | a scoped snapshot is a well-formed snapshot, so its summary obeys the same law |
| Snapshot.ScopeSeesExactlyItsRepositories | zerokun/advisor-snapshot.ts:404-435 | the scoped snapshot depends on the root instructions and the repositories in scope and on nothing else |
| Snapshot.DirtyPaths | zerokun/advisor-snapshot.ts:544-561 | the loop over status fields finds the specification's paths, sorted without repeats |
| Snapshot.StatusIsRead | zerokun/advisor-snapshot.ts:544-561 | reading back what git writes gives every path of every record, renames included |

## Left out

- AdvisorRetry.RecoverAdvisorSlot: an abort and the end of the given runs are the same outcome, no result; failure causes are given, not classified from text.
- AdvisorRound: modelled on values, one live attempt at a time. The timing of retries, request validation and the Grok and native slots of a round only restrict which steps are taken and are not part of this model; nor is update in place of the broker's maps.
- AdvisorRecovery: one receipt is followed; that a refusal also leaves later receipts of the same pass for another run is not modelled. What is copied unchanged into the terminal journal (identifiers, native slots) is one yes-or-no answer, and the size bounds of journal and cache files are left out.
- Delegation.Claims.PollClaim: whether the owner of a running record is dead is a parameter, so more rewrites are allowed than a real process table would give.
- Delegation: results, previews and report files of a finished delegation, and `cancel` and `close`, which only abort attempts.
- Executor: usage, progress, monitor text and advisor coverage; the ledger's answers are moves of a script.
- ContinuedArtifacts: reading the JSON list between the tags is a parameter, and the files of one moment are one map from paths to digests, so that a file changing while it is read is not modelled; lengths are of characters.
- ControlSession: inbound control requests (permission prompts) are only checked for shape; the model binding of an init event is one yes-or-no answer. Their answers may fail at any moment, more often than real handlers would. A call cannot re-enter the session from its own `beforeWrite`.
- Framing.ReadSession: a packet is accepted or refused by its line alone; refusals that depend on session state are those of `ControlSession`.
- CatchupCycle: one channel; thread-parent scans and their own cycles follow the same rules and are left out, as are single-flight delivery and Slack's error returns other than the exhausted budget.
- ThreadPoll: one page a poll, as the poller does; notices and presence updates are left out.
- MethodBudget: the clock is a non-decreasing number of milliseconds.
- SlackTime: timestamps are whole microseconds; double-precision parsing of longer fractions is not modelled.
- AppSwap: bundles are identities; hashing, signature checks, process stopping and the copying of payloads are not modelled, nor is the removal of a staging directory when an install fails before its journal. A staging directory is removed as a whole: a removal that dies half-way is not modelled.
- ArchiveLinks: the bytes of the zip format and UTF-8 decoding of link targets; `key` acts on components.
- AnswerFile: file permissions and the size bound; strings are sequences of characters, not UTF-16 units; the digest is any function of the file.
- Snapshot: key order of JSON objects is taken to be determined by their keys, as it is in the snapshots the program builds; a root outside the project is named by a stand-in for its relative path; walking directories and running git are left out.
- AdvisorJournal: ill-typed fields of a JSON record (other than malformed digests) are not representable; the native slots and the binding of a second review to the first are not modelled.
- The SQLite job store, process locks, Herdr panes, sandbox profiles, auto-update, browser tools and the fleet web page are outside this model.
