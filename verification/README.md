# Agent-runtime core, modelled and verified in Dafny

The state machines, protocols and scanners that decide what an agent run does, each next to the law it exists for.

* **Tool loop detector** (`LoopDetector`, `LoopHistory`, `LoopBatches`, `LoopOrder`, `Json`, `CanonicalText`, `Ordering`):
  failure streaks in capped windows and two escalation stages, shown to refine the plain history of rounds.
* **Tool lifecycle journal** (`Journal`, `JournalHistory`, `JournalFrames`, `JournalLaws`): streamed argument deltas are
  coalesced, an assistant frame is written for a batch whose first call is not recorded yet, and terminal events without a
  frame are rejected. The store is an append-only sequence; each event comes with the number of appends that succeed, so
  every failing write is a case.
* **Compaction retries** (`CompactionRetry`): exactly when the retry loop stops, and the stall detector that bounds retries
  caused by the reminder.
* **One-time codes** (`Otp`): challenges, attempts and lockouts with lazy expiry; the time and the new code are inputs.
* **Permission gates and the pausable timeout** (`PermissionGate`, `PermissionProtocol`, `TimeoutClock`, `Watchdog`,
  `GateClocks`): all interleavings of gates, resolvers and session drops of all sessions and runs, with one clock per run.
* **Runner event barrier** (`EventBarrier`): all interleavings of callbacks, forwarder and waiter, one shared access per
  step.
* **Tool-call parser** (`CodeRanges`, `ToolArguments`, `ToolBlocks`, `BareJson`, `CallWrappers`, `ToolCallParser`, over
  `Text` and `Sequences`): four element formats, bare objects and the text around them. `WrittenArguments`,
  `WrittenElements`, `BareNesting` and `PassedElements` say what is read back from what is written.
* **JSON repair** (`JsonRepair`, `NestedText`, `RepairNesting`): the comma and bracket passes, against their own scan and
  against a grammar of well-nested texts.
* **Allowlist globs** (`Glob`).

Objects whose methods update fields are classes; each method's contract equates the new state with a step function of the
old one, and the theorems are about that function over whole runs. Loops are loops, proved against a specification.

Where the code does less than its description suggests, the code is modelled and the exact condition is proved:

* `glob_match` is exact only for patterns with no star or ending in one (`Glob.GlobExact`); `*a` rejects `aa`. For the
  others it accepts exactly the texts that match and of which no shorter beginning does (`Glob.GlobAnswers`).
* Canonical texts do not escape strings, so different arguments with quotes in them can share one
  (`CanonicalText.UnescapedQuotesCollide`); without quotes they decide equality (`CanonicalText.CanonicalTextDecides`).
* A batch gets no frame of its own when it is only ever announced after its first call was recorded with another batch, and
  the results of its calls that no other batch recorded are then refused (`JournalFrames.FramesExactly`, `JournalFrames.RefusedExactly`,
  `JournalFrames.SharedFirstCall`).
* A barrier wait can miss an event sent before its snapshot exactly when some callback is then between sending and
  counting, not everything queued is processed, and the counted part is processed or will be
  (`EventBarrier.WaitMissesExactly`); it can return at all exactly when its target is met or the forwarder still runs
  (`EventBarrier.WaitCanReturn`).
* A bare JSON call starts in code exactly when that code ends before its tool key (`BareJson.StartInCode`).
* Removing trailing commas leaves one exactly when a comma is doubled before a closer (`JsonRepair.CleanedExactly`,
  `JsonRepair.DoubledCommaStays`).
* Bracket balancing fails on a text that ends in a dangling escape, and only there (`JsonRepair.BalancedScansClean`,
  `JsonRepair.DanglingEscapeFails`); in terms of a grammar, `RepairNesting.ClosesToNested`.
* Request keys collide exactly when one call id ends in a colon and the other (`PermissionGate.KeyCollidesExactly`); without
  colons they are injective (`PermissionGate.KeyInjective`).

## Model

| member | source | states |
|---|---|---|
| `Json.CanonicalTextIgnoresKeyOrder` | crates/agents/src/tool_loop_detector.rs:396-416 | JSON values that differ only in the order of object members, at any depth, have the same canonical text |
| `CanonicalText.CanonicalTextDecides` | crates/agents/src/tool_loop_detector.rs:396-416 | for values whose objects have distinct keys, whose strings and keys hold no quote and whose numbers are number texts: canonical texts are equal exactly when the values are equal up to the order of object members |
| `CanonicalText.UnescapedQuotesCollide` | crates/agents/src/tool_loop_detector.rs:401 | strings are not escaped, so an array of one string with quotes and a comma inside shares its canonical text with an array of two strings |
| `LoopDetector.SameArgumentsSameIdentity` | crates/agents/src/tool_loop_detector.rs:43-70 | calls of one tool with the same JSON arguments up to member order share their argument identity, so a success suppresses the failure whatever the order |
| `LoopDetector.EquivalenceIsSharedIdentity` | crates/agents/src/tool_loop_detector.rs:77-92 | without hash collisions, and for arguments with distinct keys and no quotes, two failures share an identity exactly when the tool agrees and either the arguments are equal up to member order or the non-empty error agrees |
| `LoopDetector.IdentityByText` | crates/agents/src/tool_loop_detector.rs:77-92 | for all arguments: exactly when the tool agrees and either the canonical arguments or the non-empty error agree |
| `LoopDetector.SuppressedExactly` | crates/agents/src/tool_loop_detector.rs:205-217 | for such arguments a failure counts exactly when no success of the round has the same tool and arguments equal up to member order |
| `LoopOrder.FingerprintOrder` | crates/agents/src/tool_loop_detector.rs:368-381 | failures are ordered by tool name, canonical arguments, error text with none first, and failed flag, in that order, texts by their first differing character |
| `LoopOrder.IdentityOrder` | crates/agents/src/tool_loop_detector.rs:97-101 | argument identities come before error identities, then by tool name, then by hash |
| `LoopDetector.PickIsEarliestLeast` | crates/agents/src/tool_loop_detector.rs:222-232 | the representative kept for an identity is the earliest among the least failures carrying it, and exists exactly when some failure carries it |
| `LoopOrder.RepresentativeIsFirstLeast` | crates/agents/src/tool_loop_detector.rs:222-232 | the observation of an identity is the first of its failures, in batch order, than which no other failure carrying it comes earlier in the order |
| `LoopDetector.SortKeepsPick` | crates/agents/src/tool_loop_detector.rs:219 | the stable sort changes neither the set of failures nor the representative of any identity |
| `LoopDetector.DedupKeepsPick` | crates/agents/src/tool_loop_detector.rs:220 | dropping equal neighbours changes neither the set of failures nor the representative of any identity |
| `LoopDetector.ReduceRound` | crates/agents/src/tool_loop_detector.rs:205-232 | the filter, sort, dedup and double loop over failures and identities compute exactly one representative per observed identity, an exact success in the round suppressing its failure |
| `LoopDetector.FindFirst` | crates/agents/src/tool_loop_detector.rs:255-259 | iterating an ordered identity set finds its least element, and nothing on an empty set |
| `LoopDetector.PushObservation` | crates/agents/src/tool_loop_detector.rs:115-120 | pushing keeps exactly the newest `window` observations, oldest dropped first |
| `LoopDetector.ToolLoopDetector.constructor` | crates/agents/src/tool_loop_detector.rs:163-172 | a new detector has no streaks, stage None and no evidence |
| `LoopDetector.ToolLoopDetector.Reset` | crates/agents/src/tool_loop_detector.rs:185-190 | forgets streaks and escalation, keeps the configuration |
| `LoopDetector.ToolLoopDetector.ExtendStreaks` | crates/agents/src/tool_loop_detector.rs:239-248 | streaks not observed in this round are dropped, observed ones get one entry each, and nothing else changes |
| `LoopDetector.ToolLoopDetector.RecordRound` | crates/agents/src/tool_loop_detector.rs:200-296 | the whole new state and the action of one round, as a step on detector states |
| `LoopDetector.ToolLoopDetector.EscalateRound` | crates/agents/src/tool_loop_detector.rs:250-276 | the escalation part: silent after stripping, strip on a repeated named identity, otherwise a new cycle |
| `LoopDetector.ToolLoopDetector.BeginCycle` | crates/agents/src/tool_loop_detector.rs:278-295 | a nudge names every full streak and takes the least identity's streak as evidence |
| `LoopDetector.ToolLoopDetector.ClearStripTools` | crates/agents/src/tool_loop_detector.rs:300-304 | resets exactly when tools were stripped |
| `LoopHistory.RunRefinesHistory` | crates/agents/src/tool_loop_detector.rs:200-304 | after every run of rounds, clears and resets the detector agrees with a specification that keeps the whole history of rounds and looks only at streak lengths; the action of each round is the one the history calls for |
| `LoopHistory.ActiveStreaks` | crates/agents/src/tool_loop_detector.rs:238-248 | an identity is active exactly when the last round since the clear observed it, and its window holds its representatives of the last min(window, streak) rounds |
| `LoopHistory.EvidenceShape` | crates/agents/src/tool_loop_detector.rs:250-296 | while an intervention is in force the evidence is the representatives of one identity in `window` consecutive rounds of the history; otherwise evidence and named identities are empty |
| `LoopHistory.EvidenceAtIntervention` | crates/agents/src/tool_loop_detector.rs:254-295 | at a nudge the evidence is the last `window` representatives of the least identity whose streak is full, and the named identities are all such; at a strip it is those of the least named identity observed in this round, and the named identities stay |
| `LoopHistory.StripFollowsNudge` | crates/agents/src/tool_loop_detector.rs:254-270 | tools are stripped only when the last round before nudged, with no effective clear between, and one named identity failed in window + 1 consecutive rounds ending now |
| `LoopBatches.RoundsAreBatches` | crates/agents/src/tool_loop_detector.rs:205-248 | the rounds of the history are exactly what the latest batches of outcomes observed, in order |
| `LoopBatches.EvidenceIsFailures` | crates/agents/src/tool_loop_detector.rs:254-295 | while an intervention is in force the evidence is `window` failures that share one identity, one from each of `window` consecutive batches, none suppressed by a success of its batch |
| `LoopBatches.StripNeedsFailures` | crates/agents/src/tool_loop_detector.rs:254-270 | tools are stripped only when one identity the nudge named has an unsuppressed failure in each of the last window + 1 batches |
| `LoopHistory.SilentAfterStrip` | crates/agents/src/tool_loop_detector.rs:250-252 | after stripping, every further failing round returns no action until a clear or a failure-free round |
| `LoopHistory.NudgedOncePerStreak` | crates/agents/src/tool_loop_detector.rs:254-295 | two nudges naming the same identity are separated by a point at which its streak was broken |
| `LoopHistory.DisabledDetector` | crates/agents/src/tool_loop_detector.rs:200-203 | with window 0 no run ever changes the state or raises an action |
| `LoopHistory.OrderInsensitive` | crates/agents/src/tool_loop_detector.rs:194-248 | permuting or duplicating outcomes inside rounds changes no action, stage, active identity, streak length or named identity, over whole runs |
| `LoopHistory.OrderInsensitiveExactly` | crates/agents/src/tool_loop_detector.rs:368-381 | when unsuppressed failures that compare equal are equal, the whole state including evidence is independent of the order |
| `Journal.ToolJournal.constructor` | crates/chat/src/run_with_tools.rs:939-942 | a run starts with nothing pending, no recorded batch and no active invocation |
| `Journal.ToolJournal.AppendEntry` | crates/chat/src/run_with_tools.rs:111-116 | an append adds one entry at the end or fails and changes nothing |
| `Journal.ToolJournal.AccumulateInput` | crates/chat/src/run_with_tools.rs:188-212 | a delta joins the pending input of its call, the latest sequence, time and budget kept; anything but a streaming event is an error; `JournalLaws.JournalCoalescesStreams` says what that makes of a stream |
| `Journal.ToolJournal.PersistPendingInput` | crates/chat/src/run_with_tools.rs:215-236 | the pending input leaves the table and is written once when there is a store |
| `Journal.ToolJournal.PersistToolSegment` | crates/chat/src/run_with_tools.rs:66-126 | a known batch key writes nothing; otherwise one frame is written and its index recorded under every call id of the batch |
| `Journal.ToolJournal.TrackInvocation` | crates/chat/src/run_with_tools.rs:328-362 | an ended call leaves the active list; any other event replaces or appends its snapshot |
| `Journal.ToolJournal.ProcessEvent` | crates/chat/src/run_with_tools.rs:239-362 | the whole new state and error of one event, including what a failure half-way leaves behind |
| `JournalHistory.Effect` | crates/chat/src/run_with_tools.rs:251-326 | an accepted event adds the coalesced input of its call, at most one frame, then itself; terminal events have a recorded frame |
| `JournalHistory.JournalIsMergedStream` | crates/chat/src/run_with_tools.rs:188-236 | for every successful run and every call, its journalled lifecycle entries followed by its pending input are its event stream, stamped with the run, with adjacent streaming events merged one by one |
| `JournalLaws.JournalCoalescesStreams` | crates/chat/src/run_with_tools.rs:188-236 | so they have one entry for each event that does not stream and for each longest stretch of streaming events: its delta is the deltas of the stretch concatenated, its sequence, time and budget are those of the last event, its call, tool name and run those of the first |
| `JournalLaws.MergeCoalesces` | crates/chat/src/run_with_tools.rs:188-212 | the same of every stream of events, whatever journal it goes to |
| `JournalHistory.AccumulatedIsPending` | crates/chat/src/run_with_tools.rs:341-351 | with or without a store, the separately kept accumulated arguments of a call always equal its pending delta |
| `JournalHistory.JournalsAreFramed` | crates/chat/src/run_with_tools.rs:300-310 | in every reachable journal, failed steps included, each Completed or Rejected entry comes after a frame listing its call, and every recorded index points at that exact frame |
| `JournalLaws.FrameContents` | crates/chat/src/run_with_tools.rs:66-126 | an accepted announcement of a batch whose first call is not recorded writes a frame of the draft, the calls and the usage after the flushed input, records its index under every call of the batch and no other, and leaves the draft its header and no content; any other accepted event leaves draft and records alone |
| `JournalLaws.FaultExactly` | crates/chat/src/run_with_tools.rs:239-326 | which error an event gets, for every configuration, state and number of writes that succeed; an event of an ended run changes nothing |
| `JournalLaws.EndedCallLeaves` | crates/chat/src/run_with_tools.rs:328-333 | Completed, Rejected and Cancelled remove exactly the active entry of their call |
| `JournalLaws.LiveCallShows` | crates/chat/src/run_with_tools.rs:334-362 | any other event shows its call once, in its old place or else last, with the event, its budget, and accumulated text only while input streams; other calls stay as they are |
| `JournalLaws.ActiveCalls` | crates/chat/src/run_with_tools.rs:328-362 | over every successful run each call is shown at most once and each event is taken up stamped with the run id |
| `JournalFrames.FramesExactly` | crates/chat/src/run_with_tools.rs:66-126 | over every successful run a batch has exactly one frame if it was ever announced while its first call was not recorded, and otherwise none |
| `JournalFrames.RecordedExactly` | crates/chat/src/run_with_tools.rs:122-124 | a call is recorded exactly when some batch listing it was announced while the first call of that batch was not recorded |
| `JournalFrames.OneFramePerNewBatch` | crates/chat/src/run_with_tools.rs:270-298 | a batch whose first call no earlier batch lists, so any batch disjoint from earlier ones, has exactly one frame, however many events announce it and whatever later batches share with it |
| `JournalFrames.RefusedExactly` | crates/chat/src/run_with_tools.rs:300-310 | a terminal event is refused for want of a frame exactly when no batch listing its call was announced while the first call of that batch was not recorded, and its pending input, if any, could be written |
| `JournalFrames.SharedFirstCall` | crates/chat/src/run_with_tools.rs:75-77 | the batch [x] and then the batch [x, y]: both events succeed, the second batch gets no frame, and the completion of y is refused |
| `CompactionRetry.DriveAgent` | crates/chat/src/run_with_tools.rs:1193-1283 | the retry loop computes the outcome of the step-by-step definition on every sequence of agent results |
| `CompactionRetry.RetriesShrink` | crates/chat/src/run_with_tools.rs:626-655 | consecutive reminder-caused retries have strictly smaller prompts, each in [available, available + reminder tokens) |
| `CompactionRetry.RetriesAreBounded` | crates/chat/src/run_with_tools.rs:1267-1278 | a run of such retries is no longer than the reminder has tokens (plus any drop of the limit) |
| `CompactionRetry.DriveStopsFirst` | crates/chat/src/run_with_tools.rs:1201-1283 | the loop returns what stops it at the first result that does |
| `CompactionRetry.StopsExactly` | crates/chat/src/run_with_tools.rs:618-655 | from every state the loop reaches from its start, exactly when the next result makes it report a reminder too large (not for the first request; without the reminder it fits, with it it cannot), missing progress (two requests in a row caused by the reminder, the later no smaller), a failed compaction, an error, an end, or go on; a request with provider calls started, or whose prompt is over the limit even without the reminder, is not caused by it |
| `CompactionRetry.ExcessRetriesStop` | crates/chat/src/run_with_tools.rs:1267-1278 | with limit and reminder fixed, on more such requests than reminder tokens the loop returns the no-progress error or a compaction failure |
| `CompactionRetry.StretchStops` | crates/chat/src/run_with_tools.rs:1201-1283 | no run of the loop from its start gets past a stretch of more such requests than reminder tokens, whatever comes before and after: it stopped earlier, or returns the no-progress error or a compaction failure in the stretch |
| `CompactionRetry.TotalsAreConserved` | crates/chat/src/run_with_tools.rs:1237-1281 | a finished run reports the true totals of iterations and tool calls over all checkpoints, capped once |
| `Otp.OtpState.constructor` | crates/channels/src/otp.rs:85-91 | an empty state with the given cooldown |
| `Otp.OtpState.SetCooldown` | crates/channels/src/otp.rs:94-96 | changes the cooldown and nothing else |
| `Otp.OtpState.InitiateChallenge` | crates/channels/src/otp.rs:99-135 | the whole new state and result of issuing a challenge |
| `Otp.OtpState.VerifyCode` | crates/channels/src/otp.rs:139-180 | the whole new state and result of verifying a code |
| `Otp.OtpState.EvictExpired` | crates/channels/src/otp.rs:225-229 | drops exactly the expired challenges and elapsed lockouts |
| `Otp.RunKeepsValid` | crates/channels/src/otp.rs:99-180 | over every run challenges and lockouts have disjoint keys, stored attempts stay below 3 and each expiry is 300 seconds after its creation |
| `Otp.ChallengeAnswers` | crates/channels/src/otp.rs:99-180 | after a fresh challenge and up to two wrong guesses: the code is approved for 300 seconds and expired from then on, a further wrong guess answers how many are left and the third locks, and a second challenge is refused for those 300 seconds |
| `Otp.LockoutAnswers` | crates/channels/src/otp.rs:139-180 | after three wrong guesses both calls answer locked out until the cooldown has passed since the third, and then no pending challenge and a new one |
| `Otp.ClassesAreOutcomes` | crates/channels/src/otp.rs:99-180 | the classes counted below are exactly the results Created, code compared and Approved of the calls |
| `Otp.GuessBound` | crates/channels/src/otp.rs:20-23 | without an approval at most 3 * (T / min(300, c) + 1) codes are compared for a peer in the T seconds after its first challenge, over every interleaving with other peers, evictions and cooldown changes not below c |
| `Otp.LazyRefinesLive` | crates/channels/src/otp.rs:99-180 | the lazy state, cut to what is in force, is the state of a machine that keeps only live entries; results agree except that Expired may stand for NoPending |
| `Otp.EvictionIsInvisible` | crates/channels/src/otp.rs:225-229 | inserting an eviction anywhere changes no later result except Expired into NoPending |
| `Otp.ApprovalNeedsLatestCode` | crates/channels/src/otp.rs:139-164 | Approved needs the code of the latest challenge issued to the peer, unexpired and not yet used |
| `TimeoutClock.AgentTimeoutClock.constructor` | crates/chat/src/tool_permission.rs:43-50 | a new clock is unpaused with zero paused time |
| `TimeoutClock.AgentTimeoutClock.EnterPause` | crates/chat/src/tool_permission.rs:52-58 | counts the pause and starts the interval on the first |
| `TimeoutClock.AgentTimeoutClock.LeavePause` | crates/chat/src/tool_permission.rs:60-68 | uncounts the pause and books the interval on the last; with no pause held the counter wraps |
| `TimeoutClock.PausedDurationIsExact` | crates/chat/src/tool_permission.rs:52-82 | for every balanced run of pauses and resumes the paused duration is exactly the time at which the count was positive |
| `TimeoutClock.TimeIsConserved` | crates/chat/src/tool_permission.rs:76-82 | paused and running time add up to the elapsed time |
| `TimeoutClock.UnpausedIsRunningTime` | crates/chat/src/tool_permission.rs:379 | the watchdog's subtraction never saturates and equals the time nobody held a pause |
| `TimeoutClock.FiresExactlyAtTimeout` | crates/chat/src/tool_permission.rs:375-393 | the watchdog fires exactly when the run has been unpaused for the timeout |
| `TimeoutClock.WatchMissesNothing` | crates/chat/src/tool_permission.rs:375-393 | while paused the unpaused time is frozen, so waiting misses nothing; while running it advances one for one, so the sleep ends exactly at the deadline |
| `Watchdog.Reading` | crates/chat/src/tool_permission.rs:375-382 | at every instant what the watchdog reads off the clock is the true running time of the whole history, and whether a pause is then held |
| `Watchdog.SteadyRunning` | crates/chat/src/tool_permission.rs:52-68 | between notifications running time stands still or advances one for one, because the clock notifies exactly where a pause begins or the last one ends |
| `Watchdog.AwaitTimeout` | crates/chat/src/tool_permission.rs:375-393 | the watchdog loop, woken by notifications and by its own sleep, returns at the first instant at which the run has been unpaused for the timeout, and never if there is none |
| `TimeoutClock.UnmatchedResume` | crates/chat/src/tool_permission.rs:60-68 | a resume no pause precedes makes the watchdog wait although nobody holds a pause, so balance is needed |
| `PermissionGate.KeyInjective` | crates/chat/src/tool_permission.rs:143-145 | with no colon in call ids the request key determines session, call and phase |
| `PermissionGate.KeyCollides` | crates/chat/src/tool_permission.rs:143-145 | with a colon in a call id two different requests share a key |
| `PermissionGate.KeyCollidesExactly` | crates/chat/src/tool_permission.rs:143-145 | requests for two call ids can share a key exactly when one id ends in a colon and the other |
| `PermissionGate.ToolPermissionManager.constructor` | crates/chat/src/tool_permission.rs:137-141 | an empty table |
| `PermissionGate.ToolPermissionManager.RegisterRequest` | crates/chat/src/tool_permission.rs:201-224 | inserts the slot under its key with a new open channel, dropping the sender of a replaced slot |
| `PermissionGate.ToolPermissionManager.ResolveRequest` | crates/chat/src/tool_permission.rs:164-183 | blank denial and missing request change nothing; otherwise the slot goes and its channel carries the decision; `PermissionProtocol.ResolveDelivers` says what becomes of it |
| `PermissionGate.RegisterInstalls` | crates/chat/src/tool_permission.rs:201-224 | the request's key, session, call and phase joined by colons, holds a slot with a new open channel; a replaced slot's waiter is cancelled unless already answered; nothing else changes |
| `PermissionGate.ForgetRemoves` | crates/chat/src/tool_permission.rs:226-241 | forgetting a key removes its slot, cancels its waiter unless already answered, and changes nothing else |
| `PermissionGate.ToolPermissionManager.DropSessionSlots` | crates/chat/src/tool_permission.rs:185-199 | removes exactly the session's slots, drops exactly their senders and returns exactly their requests |
| `PermissionGate.ToolPermissionManager.RemoveKey` | crates/chat/src/tool_permission.rs:226-241 | removes one key after reception, dropping its sender if still there |
| `PermissionProtocol.StepKeepsInv` | crates/chat/src/tool_permission.rs:276-337 | every step of gates, resolvers and drops, of all sessions and runs, keeps table, channels, gates, log and each run's pause count in agreement |
| `PermissionProtocol.RunKeepsInv` | crates/chat/src/tool_permission.rs:276-337 | so they agree in every reachable state |
| `PermissionProtocol.ReachableGates` | crates/chat/src/tool_permission.rs:164-242 | a decided gate got its decision from exactly one resolve naming its session, call and phase; a finished gate leaves no slot; the pause count of every run is the number of its own gates in flight |
| `PermissionProtocol.ResolveDelivers` | crates/chat/src/tool_permission.rs:164-183 | in every reachable state a resolve naming a gate that holds its slot is refused as blank exactly when it is a denial of nothing but whitespace; otherwise it returns that gate's request, logs the decision, frees the slot, and a waiting gate can receive exactly that decision |
| `PermissionProtocol.ResolveFindsNothing` | crates/chat/src/tool_permission.rs:164-183 | a resolve naming no such gate changes nothing and answers that there is no such request, or that the denial is blank |
| `PermissionProtocol.DropCancelsExactly` | crates/chat/src/tool_permission.rs:185-199 | dropping a session cancels exactly its open waits and touches no other gate's channel |
| `GateClocks.CountIsGatesInFlight` | crates/chat/src/tool_permission.rs:95-112 | at every instant the pause count of a run is the number of its gates then in flight, whatever other runs do |
| `GateClocks.PausedWhileGatesFly` | crates/chat/src/tool_permission.rs:95-112 | the paused duration of a run's clock is exactly the time some gate of that run was in flight |
| `GateClocks.RunningIsGateFree` | crates/chat/src/tool_permission.rs:95-112 | the running time of a run's clock is its time without a gate of its own |
| `GateClocks.WatchdogSparesWaits` | crates/chat/src/tool_permission.rs:360-393 | the watchdog of a run fires exactly when its time without a gate of its own reaches the timeout |
| `EventBarrier.StepConserves` | crates/chat/src/agent_loop.rs:92-96 | queue, forwarder and counters lose and reorder nothing |
| `EventBarrier.StepKeepsInv` | crates/chat/src/agent_loop.rs:27-59 | every step keeps conservation, the waiter's goal and the absence of lost wake-ups |
| `EventBarrier.RunKeepsInv` | crates/chat/src/agent_loop.rs:27-59 | so they hold in every reachable state: a blocked waiter with no newer notification has processed < target or a mark under way |
| `EventBarrier.WaitCoversSnapshot` | crates/chat/src/agent_loop.rs:42-50 | on return the first `target` events are processed, in order; all events enqueued before the snapshot are if no callback was then between its two steps |
| `EventBarrier.WaitMissesExactly` | crates/chat/src/agent_loop.rs:28-50 | the wait can return with an earlier event unprocessed exactly when at the snapshot some callback has sent but not counted, not everything queued is processed, and the counted events are processed or the forwarder still runs |
| `EventBarrier.WaitCanReturn` | crates/chat/src/agent_loop.rs:42-50 | a wait can still return exactly when its target is met or the forwarder still runs |
| `EventBarrier.GoalIsSnapshot` | crates/chat/src/agent_loop.rs:28-31 | the waiter's goal and target are those of the latest snapshot, one per checkpoint |
| `EventBarrier.SatisfiedWaiterWakes` | crates/chat/src/agent_loop.rs:33-50 | a blocked waiter whose target is met can wake now or right after the mark under way |
| `EventBarrier.MidSendSnapshotMisses` | crates/chat/src/agent_loop.rs:116-122 | a snapshot between a callback's send and its count can return before that event is processed |
| `Glob.GlobMatch` | crates/channels/src/gating.rs:24-52 | the loop computes the leftmost search over the literal segments with both ends checked |
| `Glob.MatchesIsLaid` | crates/channels/src/gating.rs:24-52 | the declarative meaning of a pattern is that its segments occur in order, first and last anchored |
| `Glob.GreedyEndsFirst` | crates/channels/src/gating.rs:30-45 | the leftmost search succeeds whenever any placement does and ends no later |
| `Glob.GlobSound` | crates/channels/src/gating.rs:24-52 | the search accepts only texts the pattern matches |
| `Glob.GlobComplete` | crates/channels/src/gating.rs:24-52 | for patterns without a star or ending in one it accepts every matching text |
| `Glob.TrailingLiteralFails` | crates/channels/src/gating.rs:46-52 | every other pattern wrongly rejects a text it matches: the one with its last segment written twice |
| `Glob.GlobExact` | crates/channels/src/gating.rs:24-52 | the search decides the meaning on all texts exactly when the pattern has no star or ends in one |
| `Glob.GlobAnswers` | crates/channels/src/gating.rs:24-52 | the exact answer on all patterns and texts: the text matches and, for a pattern with a star but none at its end, no shorter beginning of the text matches |
| `Glob.AllowedByMatch` | crates/channels/src/gating.rs:8-21 | everybody is admitted by an empty list, and otherwise exactly those for whom some entry, case folded, gives that answer |
| `JsonRepair.RemoveTrailingCommas` | crates/agents/src/json_repair.rs:58-98 | removes exactly the commas outside strings that only whitespace separates from a closer |
| `JsonRepair.LooksAtCloser` | crates/agents/src/json_repair.rs:84-91 | the look-ahead finds whether only whitespace precedes a closer |
| `JsonRepair.CommasDoNotMatter` | crates/agents/src/json_repair.rs:58-98 | removing them leaves string state, escape state and closer stack of the scan unchanged at every cut |
| `JsonRepair.OnlyCommasGo` | crates/agents/src/json_repair.rs:58-98 | nothing but commas disappears and nothing is reordered |
| `JsonRepair.CleanedExactly` | crates/agents/src/json_repair.rs:82-95 | the cleaned text still has a trailing comma exactly when, outside strings, only whitespace separates some comma of the text from a trailing one |
| `JsonRepair.DoubledCommaStays` | crates/agents/src/json_repair.rs:82-95 | one of the two commas of `[,,]` stays and then trails |
| `JsonRepair.CloseBrackets` | crates/agents/src/json_repair.rs:105-138 | appends a quote for an open string, then the owed closers, innermost first; `RepairNesting.ClosesToNested` says which those are |
| `JsonRepair.BalancedScansClean` | crates/agents/src/json_repair.rs:105-138 | on every text, well nested or not: the result rescans to outside a string with an empty stack exactly when the text does not end on a dangling escape; escapes as in section 7 of RFC 8259 |
| `JsonRepair.DanglingEscapeFails` | crates/agents/src/json_repair.rs:129-132 | a quote and a backslash: the appended quote is escaped, so the result does not scan clean |
| `JsonRepair.ClosingIsShortest` | crates/agents/src/json_repair.rs:105-138 | no shorter suffix closes the text |
| `JsonRepair.RepairScansClean` | crates/agents/src/json_repair.rs:58-138 | both passes together: same closing as for the original text, and a clean scan |
| `RepairNesting.ClosesToNested` | crates/agents/src/json_repair.rs:105-138 | against a grammar of string literals, other characters, braces and brackets: a text that some suffix makes well nested is closed to a well-nested text exactly when it does not end on a backslash parted from the character it takes |
| `RepairNesting.NestedStaysClosed` | crates/agents/src/json_repair.rs:105-138 | a well-nested text is left as it is |
| `RepairNesting.StripsNested` | crates/agents/src/json_repair.rs:58-98 | on a well-nested text pass 2 drops exactly the commas that only whitespace separates from the end of the brackets they are in, and nothing in string literals |
| `CodeRanges.MarkdownCodeRanges` | crates/agents/src/tool_parsing.rs:179-200 | code ranges are ordered, disjoint, non-empty, open at a backtick, end where the next run of that length ends or with the text, and cover every backtick |
| `CodeRanges.EndsAtTick` | crates/agents/src/tool_parsing.rs:191-195 | a code range ends just after a backtick or with the text |
| `CodeRanges.StripCode` | crates/agents/src/tool_parsing.rs:208-227 | what is left is every character outside code, in order, so no backtick |
| `CodeRanges.NoTicksOutside` | crates/agents/src/tool_parsing.rs:208-227 | no character outside the code ranges is a backtick |
| `ToolArguments.PairsApart` | crates/agents/src/tool_parsing.rs:302-339 | the argument pairs in a body are in order, non-empty, disjoint and in bounds |
| `ToolArguments.PairsAreItems` | crates/agents/src/tool_parsing.rs:302-339 | every pair found is the complete item at its position; what the items mean is `WrittenArguments.WrittenBodyIsRead` |
| `WrittenArguments.WrittenBodyIsRead` | crates/agents/src/tool_parsing.rs:302-554 | reading back: in each of the three styles a body written from names and values without tag text, plain text before each, gives exactly those names with those values, JSON values parsed and others as text, in order |
| `WrittenArguments.PairsAsWritten` | crates/agents/src/tool_parsing.rs:302-554 | how the three styles write an argument |
| `WrittenArguments.LaterValueWins` | crates/agents/src/tool_parsing.rs:336-337 | a name written twice takes the later value |
| `ToolArguments.UnclosedIsBarren` | crates/agents/src/tool_parsing.rs:328-330 | stopping at a tag that is never closed loses no later pair |
| `ToolArguments.ValuelessIsBarren` | crates/agents/src/tool_parsing.rs:539-546 | stopping at a key whose value is missing or never closed loses no later pair |
| `ToolArguments.ReadTag` | crates/agents/src/tool_parsing.rs:410-447 | one turn of the parameter and arg loops reads what the position-by-position definition reads |
| `ToolArguments.ReadKeyValue` | crates/agents/src/tool_parsing.rs:529-554 | one turn of the key and value loop reads what the position-by-position definition reads, and `WrittenArguments.WrittenBodyIsRead` what that is |
| `ToolArguments.CollectArguments` | crates/agents/src/tool_parsing.rs:302-339 | each of the three loops inserts exactly the pairs that reading position by position finds |
| `ToolArguments.LastPairWins` | crates/agents/src/tool_parsing.rs:336-337 | argument keys are distinct, each holds the value of the last pair naming it, and there are none exactly when no pair is found |
| `ToolBlocks.SelectedDisjoint` | crates/agents/src/tool_parsing.rs:231-565 | blocks of one format are in order, non-empty, disjoint and in bounds |
| `ToolBlocks.SelectedElements` | crates/agents/src/tool_parsing.rs:258-565 | every block is the complete element at its position with a non-empty argument list, and starts outside code unless fenced |
| `ToolBlocks.SkipToMarker` | crates/agents/src/tool_parsing.rs:266-267 | jumping to the next marker skips no element |
| `ToolBlocks.ReadFenced` | crates/agents/src/tool_parsing.rs:235-253 | one turn of the fenced collector reads what the position-by-position definition reads |
| `ToolBlocks.ReadFunction` | crates/agents/src/tool_parsing.rs:266-349 | one turn of the function collector, with every resume position and the early stop, loses no element |
| `ToolBlocks.ReadInvoke` | crates/agents/src/tool_parsing.rs:374-457 | one turn of the invoke collector loses no element |
| `ToolBlocks.ReadToolCall` | crates/agents/src/tool_parsing.rs:491-564 | one turn of the tool_call collector loses no element |
| `ToolBlocks.Collect` | crates/agents/src/tool_parsing.rs:231-565 | each collector finds exactly the elements that reading position by position finds |
| `WrittenElements.WrittenElementIsRead` | crates/agents/src/tool_parsing.rs:258-565 | reading back: a function, invoke or tool_call element written outside code, with plain text around it, gives one block with its name and arguments over exactly its own text, and none without arguments |
| `WrittenElements.WrittenFenceIsRead` | crates/agents/src/tool_parsing.rs:231-254 | a fenced element gives the call its trimmed JSON stands for, over exactly its own text |
| `WrittenElements.WrapperBelongs` | crates/agents/src/tool_parsing.rs:295-300 | a closing tool_call tag after a function element, past whitespace, belongs to the element |
| `PassedElements.FunctionIsPassed` | crates/agents/src/tool_parsing.rs:275-291 | a function element without a name of letters, digits, underscores and hyphens, or never closed, is none |
| `PassedElements.InvokeIsPassed` | crates/agents/src/tool_parsing.rs:384-405 | of an invoke element without a name, or never closed, only the opening tag is passed over |
| `PassedElements.MisnamedInvokeIsPassed` | crates/agents/src/tool_parsing.rs:393-396 | so is one whose name has other characters |
| `PassedElements.UnclosedToolCallIsPassed` | crates/agents/src/tool_parsing.rs:498-500 | a tool_call element that is never closed is none |
| `PassedElements.JsonBodyIsPassed` | crates/agents/src/tool_parsing.rs:504-508 | a tool_call element with a JSON body is passed over whole, without a call |
| `PassedElements.UnnamedToolCallIsPassed` | crates/agents/src/tool_parsing.rs:510-519 | a tool_call element whose body is neither JSON nor begins with a tool name is none |
| `BareJson.FindObjectEnd` | crates/agents/src/tool_parsing.rs:597-623 | brace counting outside strings ends where the object first balances, or with the text |
| `BareJson.FewerFree` | crates/agents/src/tool_parsing.rs:627-633 | claiming an object leaves fewer uncovered opening braces: the measure that makes the scan end although its cursor can move back |
| `BareJson.OverlappingHits` | crates/agents/src/tool_parsing.rs:576-582 | tool keys can overlap only in a shared quote; resuming past the first loses nothing |
| `BareJson.CollectBareJson` | crates/agents/src/tool_parsing.rs:569-643 | the scan ends on every text; it claims only uncovered objects, up to where they balance or the text ends, that parse as calls, and misses no tool key outside code whose object is a call in no block |
| `BareNesting.ObjectEndsWhereWritten` | crates/agents/src/tool_parsing.rs:597-623 | an object whose inside is well nested ends at its own closing brace, whatever strings, escapes and brackets are inside and whatever follows |
| `BareNesting.WrittenObjectIsRead` | crates/agents/src/tool_parsing.rs:569-643 | a written object that begins with its tool key, outside code, is a bare call over exactly its own text, and the scan leaves its brace in a block |
| `BareJson.StartInCode` | crates/agents/src/tool_parsing.rs:578-588 | a bare call starts in code exactly when code holds its brace but ends before a tool key read from it |
| `BareJson.CallsOutsideCode` | crates/agents/src/tool_parsing.rs:569-643 | if no code range ends between a tool key outside code and its brace, no bare call of the scan starts in code |
| `BareJson.OverlookedIsClaimed` | crates/agents/src/tool_parsing.rs:578-588 | otherwise a brace in code is claimed by a block whenever its object is a call |
| `BareJson.CallStartingInCode` | crates/agents/src/tool_parsing.rs:578-588 | a concrete text whose call starts in code |
| `CallWrappers.TrimToolCallWrappers` | crates/agents/src/tool_parsing.rs:675-696 | both loops compute the recursive peeling of wrapper tags and whitespace |
| `CallWrappers.UnwrapPeels` | crates/agents/src/tool_parsing.rs:675-696 | the result is the text minus whitespace and wrapper tags at its two ends, with none left at either end |
| `CallWrappers.UnwrapsToNothing` | crates/agents/src/tool_parsing.rs:675-696 | the result is empty exactly when the text is nothing but whitespace and wrapper tags |
| `ToolCallParser.MergeBlocks` | crates/agents/src/tool_parsing.rs:86-97 | the loop keeps what the recursive definition keeps |
| `ToolCallParser.MergedBlocks` | crates/agents/src/tool_parsing.rs:86-97 | kept blocks are ordered, non-empty, disjoint and in bounds; every dropped block starts inside a kept one; of blocks starting together the first collected wins |
| `ToolCallParser.GapsPartitionText` | crates/agents/src/tool_parsing.rs:99-112 | gaps and kept blocks, interleaved, are the whole text |
| `ToolCallParser.RemainingFragments` | crates/agents/src/tool_parsing.rs:99-112 | the fragments are the unwrapped non-empty gaps, in order |
| `ToolCallParser.FragmentsUnwrapGaps` | crates/agents/src/tool_parsing.rs:99-112 | the fragments are, in order, the gaps that are not mere wrapping, each without wrapping at its two ends and with none left there |
| `ToolCallParser.JoinedByLineFeeds` | crates/agents/src/tool_parsing.rs:99-121 | the fragments are joined with one line feed between neighbours and nothing else |
| `ToolCallParser.ParseToolCalls` | crates/agents/src/tool_parsing.rs:63-121 | kept blocks are disjoint and genuine, come from merging all collected blocks, cover the start of every element of every format; calls are theirs in order; the remaining text is exactly the unwrapped gaps joined by newlines, or the text itself when nothing is kept |

## Left out

- JSON parsing (of a value, and of a call with its repair fallback), hashing, identifiers, random codes, clocks and case folding: parameters; an element's synthetic call id is not modelled. Times are whole units.
- Byte offsets: texts are sequences of characters, so offsets count characters. JSON repair is modelled where bytes and characters coincide (ASCII); its comment-stripping pass and the parse attempts between passes are not modelled.
- `Vec::dedup` compares argument objects without regard to key order, the model structurally; the observations are the same, because what it drops compares equal to an earlier failure and so represents no identity (`LoopDetector.PickIsEarliestLeast`).
- LoopHistory.OrderInsensitive: does not fix which of several failures that compare equal is kept as evidence, because the code keeps the first in the batch; `LoopHistory.OrderInsensitiveExactly` covers batches without such ties.
- TimeoutClock.AgentTimeoutClock.EnterPause: does not wrap at 2^64 pauses held at once. Pause and resume are atomic steps.
- Watchdog.AwaitTimeout: each evaluation sees every pause and resume up to its instant, and a notification wakes the loop at its own instant; scheduling delay is not modelled.
- PermissionProtocol.StepKeepsInv: callers owe call ids without colons, and a request no gate in flight is already making. The automatic-approval exits, broadcasts and a gate future dropped from outside are not modelled.
- EventBarrier.WaitCoversSnapshot: atomics are taken as sequentially consistent; an event counts as processed when its guard drops, whether or not handling it succeeded.
- CompactionRetry.DriveAgent: how the agent loop, the checkpoint write and its reload come out is an input; a missing session store is one of the failed results. Usage totals and raw responses are not carried.
- Active invocations of other sessions, channel and push side effects of lifecycle events, and the text of errors.
- `has_pending`, `is_locked_out`, `list_pending`, `pending_for_session`, `window_snapshot` and the intervention messages: plain reads and formatting.
- `i32` depth in brace counting and machine-word counters other than the retry totals are unbounded here.
- Provider calls, prompt building, delivery, checkpoint writing, registries and configuration: plumbing around these cores.
- WrittenElements.WrittenElementIsRead: reads back one element with plain text around it; texts with several elements are covered position by position (`ToolBlocks.SelectedElements`, `ToolCallParser.MergedBlocks`). Attributes other than the name are not written.
