/** The compaction retry loop of an agent run: the stall detector that bounds reminder-caused retries,
    and the saturating totals carried across checkpoints. */
module CompactionRetry {
  import opened Ordering
  import opened Sequences

  /** Minimum prompt sizes after a checkpoint, with and without the reminder. */
  datatype Floor = Floor(withReminder: nat, withoutReminder: nat)

  datatype Request = Request(
    promptTokens: nat, availableInputTokens: nat, providerCallsStarted: nat,
    completedIterations: nat, toolCallsMade: nat)

  /** One pass of the agent loop as the driver sees it. `floor` is what the reminder contributes when it
      is active; `compacted` says whether writing and reloading the checkpoint succeeds. */
  datatype AgentResult =
    | Completed(iterations: nat, toolCalls: nat)
    | NeedsCompaction(request: Request, floor: Option<Floor>, compacted: bool)
    | Failed

  datatype Outcome =
    | Finished(iterations: nat, toolCalls: nat)
    | ReminderTooLarge
    | NoProgress(previous: nat, current: nat)
    | NotCompacted
    | RunFailed
    | StillRunning

  /** The counters a machine word holds. */
  datatype Loop = Loop(previous: Option<nat>, resumed: bool, iterations: nat, toolCalls: nat)

  const START := Loop(None, false, 0, 0)

  function SaturatingAdd(a: nat, b: nat, max: nat): nat {
    Min(max, a + b)
  }

  predicate MinimumOverflow(r: Request, f: Floor) {
    f.withoutReminder < r.availableInputTokens && f.withReminder >= r.availableInputTokens
  }

  /** The prompt size, when only the reminder pushed the prompt over the limit before any provider call. */
  function RetryPromptTokens(r: Request, f: Floor): Option<nat> {
    if r.providerCallsStarted != 0 || f.withReminder >= r.availableInputTokens then None
    else if f.withReminder < f.withoutReminder then None
    else
      var reminder := f.withReminder - f.withoutReminder;
      if r.promptTokens < reminder then None
      else if r.promptTokens - reminder < r.availableInputTokens <= r.promptTokens then Some(r.promptTokens)
      else None
  }

  /** Two consecutive retries without a smaller prompt. */
  predicate Stalls(previous: Option<nat>, current: Option<nat>) {
    previous.Some? && current.Some? && current.value >= previous.value
  }

  function ActiveFloor(l: Loop, res: AgentResult): Option<Floor>
    requires res.NeedsCompaction?
  {
    if l.resumed then res.floor else None
  }

  function RetryTokens(l: Loop, res: AgentResult): Option<nat>
    requires res.NeedsCompaction?
  {
    var f := ActiveFloor(l, res);
    if f.Some? then RetryPromptTokens(res.request, f.value) else None
  }

  /** Why the loop stops at this result, if it does. */
  function StopsWith(l: Loop, res: AgentResult, max: nat): Option<Outcome> {
    match res
    case Completed(iterations, toolCalls) =>
      Some(Finished(SaturatingAdd(iterations, l.iterations, max), SaturatingAdd(toolCalls, l.toolCalls, max)))
    case Failed => Some(RunFailed)
    case NeedsCompaction(request, _, compacted) =>
      var f, current := ActiveFloor(l, res), RetryTokens(l, res);
      if f.Some? && MinimumOverflow(request, f.value) then Some(ReminderTooLarge)
      else if Stalls(l.previous, current) then Some(NoProgress(l.previous.value, current.value))
      else if !compacted then Some(NotCompacted)
      else None
  }

  function Continue(l: Loop, res: AgentResult, max: nat): Loop
    requires res.NeedsCompaction?
  {
    Loop(RetryTokens(l, res), true,
         SaturatingAdd(l.iterations, res.request.completedIterations, max),
         SaturatingAdd(l.toolCalls, res.request.toolCallsMade, max))
  }

  function Drive(l: Loop, results: seq<AgentResult>, max: nat): Outcome
    decreases |results|
  {
    if results == [] then StillRunning
    else
      var stop := StopsWith(l, results[0], max);
      if stop.Some? then stop.value else Drive(Continue(l, results[0], max), results[1..], max)
  }

  method DriveAgent(results: seq<AgentResult>, max: nat) returns (outcome: Outcome)
    ensures outcome == Drive(START, results, max)
  {
    var resumed := false;
    var iterations: nat, toolCalls: nat := 0, 0;
    var previous: Option<nat> := None;
    for i := 0 to |results|
      invariant Drive(START, results, max) == Drive(Loop(previous, resumed, iterations, toolCalls), results[i..], max)
    {
      assert results[i..][0] == results[i] && results[i..][1..] == results[i + 1..];
      match results[i]
      case Completed(its, calls) =>
        return Finished(SaturatingAdd(its, iterations, max), SaturatingAdd(calls, toolCalls, max));
      case Failed =>
        return RunFailed;
      case NeedsCompaction(request, given, compacted) =>
        var floor := if resumed then given else None;
        if floor.Some? && MinimumOverflow(request, floor.value) {
          return ReminderTooLarge;
        }
        var current := if floor.Some? then RetryPromptTokens(request, floor.value) else None;
        var before := previous;
        previous := current;
        if Stalls(before, current) {
          return NoProgress(before.value, current.value);
        }
        if !compacted {
          return NotCompacted;
        }
        iterations := SaturatingAdd(iterations, request.completedIterations, max);
        toolCalls := SaturatingAdd(toolCalls, request.toolCallsMade, max);
        resumed := true;
    }
    outcome := StillRunning;
  }

  // ----- which requests count -------------------------------------------------------------------

  /** A request made before any provider call, whose prompt only the reminder pushed over the limit and whose minimum with
      the reminder still fits. */
  predicate CausedByReminder(res: AgentResult) {
    && res.NeedsCompaction? && res.floor.Some? && res.request.providerCallsStarted == 0
    && var available, floor := res.request.availableInputTokens, res.floor.value;
       && floor.withoutReminder <= floor.withReminder < available
       && available <= res.request.promptTokens < available + (floor.withReminder - floor.withoutReminder)
  }

  lemma RetryExactly(res: AgentResult)
    requires res.NeedsCompaction? && res.floor.Some?
    ensures RetryPromptTokens(res.request, res.floor.value) ==
            if CausedByReminder(res) then Some(res.request.promptTokens) else None
  {
  }

  // ----- the bound on reminder-caused retries -----------------------------------------------------

  /** The loop state before result `i`, all earlier ones having continued. */
  function StateAt(l: Loop, results: seq<AgentResult>, i: nat, max: nat): Loop
    requires i <= |results| && forall j :: 0 <= j < |results| ==> results[j].NeedsCompaction?
  {
    if i == 0 then l else Continue(StateAt(l, results, i - 1, max), results[i - 1], max)
  }

  ghost predicate Passes(l: Loop, results: seq<AgentResult>, i: nat, max: nat)
    requires i < |results| && forall j :: 0 <= j < |results| ==> results[j].NeedsCompaction?
  {
    StopsWith(StateAt(l, results, i, max), results[i], max).None?
  }

  /** All the results passed, each a retry that only the reminder caused. */
  ghost predicate RemindedRun(l: Loop, results: seq<AgentResult>, max: nat) {
    && l.resumed
    && (forall j :: 0 <= j < |results| ==> results[j].NeedsCompaction?)
    && (forall j :: 0 <= j < |results| ==> CausedByReminder(results[j]))
    && (forall j {:trigger Passes(l, results, j, max)} :: 0 <= j < |results| ==> Passes(l, results, j, max))
  }

  function ReminderTokens(res: AgentResult): int
    requires res.NeedsCompaction? && res.floor.Some?
  {
    res.floor.value.withReminder - res.floor.value.withoutReminder
  }

  lemma {:induction false} ResumedThroughout(l: Loop, results: seq<AgentResult>, i: nat, max: nat)
    requires RemindedRun(l, results, max) && i <= |results|
    ensures StateAt(l, results, i, max).resumed
    ensures i > 0 ==> StateAt(l, results, i, max).previous == Some(results[i - 1].request.promptTokens)
  {
    if i > 0 {
      ResumedThroughout(l, results, i - 1, max);
      RetryExactly(results[i - 1]);
    }
  }

  /** Consecutive reminder-caused retries have strictly smaller prompts, each within the reminder of the limit. */
  lemma RetriesShrink(l: Loop, results: seq<AgentResult>, i: nat, max: nat)
    requires RemindedRun(l, results, max) && i < |results|
    ensures var r := results[i].request;
            r.availableInputTokens <= r.promptTokens < r.availableInputTokens + ReminderTokens(results[i])
    ensures i > 0 ==> results[i].request.promptTokens < results[i - 1].request.promptTokens
  {
    ResumedThroughout(l, results, i, max);
    RetryExactly(results[i]);
    assert Passes(l, results, i, max);
  }

  lemma {:induction false} PromptFalls(l: Loop, results: seq<AgentResult>, i: nat, max: nat)
    requires RemindedRun(l, results, max) && i < |results|
    ensures results[i].request.promptTokens + i <= results[0].request.promptTokens
  {
    if i > 0 {
      PromptFalls(l, results, i - 1, max);
      RetriesShrink(l, results, i, max);
    }
  }

  /** However the limit and the reminder vary, such a run is no longer than this; with both fixed it is at
      most the reminder's size in tokens. */
  lemma RetriesAreBounded(l: Loop, results: seq<AgentResult>, max: nat)
    requires RemindedRun(l, results, max) && results != []
    ensures |results| <= ReminderTokens(results[0])
                         + results[0].request.availableInputTokens - Last(results).request.availableInputTokens
    ensures Last(results).request.availableInputTokens == results[0].request.availableInputTokens ==>
              |results| <= ReminderTokens(results[0])
  {
    PromptFalls(l, results, |results| - 1, max);
    RetriesShrink(l, results, 0, max);
    RetriesShrink(l, results, |results| - 1, max);
  }

  /** All of the results ask for compaction. */
  ghost predicate AllCompact(results: seq<AgentResult>) {
    forall j :: 0 <= j < |results| ==> results[j].NeedsCompaction?
  }

  lemma {:induction false} StateAtShifts(l: Loop, results: seq<AgentResult>, i: nat, max: nat)
    requires i < |results| && AllCompact(results)
    ensures AllCompact(results[1..])
    ensures StateAt(l, results, i + 1, max) == StateAt(Continue(l, results[0], max), results[1..], i, max)
  {
    if i > 0 {
      StateAtShifts(l, results, i - 1, max);
      assert results[i] == results[1..][i - 1];
    }
  }

  /** The loop returns what stops it first. */
  lemma {:induction false} DriveStopsFirst(l: Loop, results: seq<AgentResult>, i: nat, max: nat)
    requires i < |results| && AllCompact(results)
    requires StopsWith(StateAt(l, results, i, max), results[i], max).Some?
    requires forall j :: 0 <= j < i ==> Passes(l, results, j, max)
    ensures Drive(l, results, max) == StopsWith(StateAt(l, results, i, max), results[i], max).value
    decreases i
  {
    if i > 0 {
      assert Passes(l, results, 0, max);
      var next, rest := Continue(l, results[0], max), results[1..];
      StateAtShifts(l, results, i - 1, max);
      forall j | 0 <= j < i - 1 ensures Passes(next, rest, j, max) {
        assert Passes(l, results, j + 1, max);
        StateAtShifts(l, results, j, max);
      }
      DriveStopsFirst(next, rest, i - 1, max);
    }
  }

  lemma {:induction false} FirstStop(l: Loop, results: seq<AgentResult>, bound: nat, max: nat) returns (i: nat)
    requires AllCompact(results) && bound < |results| && !Passes(l, results, bound, max)
    ensures i < |results| && !Passes(l, results, i, max) && forall j :: 0 <= j < i ==> Passes(l, results, j, max)
  {
    if j :| 0 <= j < bound && !Passes(l, results, j, max) {
      i := FirstStop(l, results, j, max);
    } else {
      i := bound;
    }
  }

  /** So after more reminder-caused requests than the reminder has tokens the loop has stopped: it reported missing
      progress, or compaction itself failed. */
  lemma ExcessRetriesStop(l: Loop, results: seq<AgentResult>, max: nat, available: nat, reminder: nat)
    requires l.resumed && |results| > reminder
    requires forall j :: 0 <= j < |results| ==>
               && results[j].NeedsCompaction? && results[j].floor.Some?
               && results[j].request.availableInputTokens == available && ReminderTokens(results[j]) == reminder
               && CausedByReminder(results[j])
    ensures Drive(l, results, max).NoProgress? || Drive(l, results, max).NotCompacted?
  {
    if forall j {:trigger Passes(l, results, j, max)} :: 0 <= j < |results| ==> Passes(l, results, j, max) {
      assert RemindedRun(l, results, max);
      RetriesAreBounded(l, results, max);
      assert false;
    }
    var j :| 0 <= j < |results| && !Passes(l, results, j, max);
    var i := FirstStop(l, results, j, max);
    DriveStopsFirst(l, results, i, max);
    RetryExactly(results[i]);
  }

  /** The prompt size the loop remembers having passed `results`. */
  function Remembered(previous: Option<nat>, resumed: bool, results: seq<AgentResult>): Option<nat> {
    if results == [] then previous
    else if (resumed || |results| > 1) && CausedByReminder(Last(results)) then Some(Last(results).request.promptTokens)
    else None
  }

  /** Having passed `results`, the loop goes on from this state. */
  lemma {:induction false} DriveRemembers(l: Loop, results: seq<AgentResult>, more: seq<AgentResult>, max: nat) returns (m: Loop)
    requires Drive(l, results, max).StillRunning?
    ensures Drive(l, results + more, max) == Drive(m, more, max)
    ensures m.resumed == (l.resumed || results != [])
    ensures m.previous == Remembered(l.previous, l.resumed, results)
    decreases |results|
  {
    if results == [] {
      assert results + more == more;
      m := l;
    } else {
      var res := results[0];
      m := DriveRemembers(Continue(l, res, max), results[1..], more, max);
      assert (results + more)[1..] == results[1..] + more;
      if res.floor.Some? {
        RetryExactly(res);
      }
      if |results| > 1 {
        assert Last(results[1..]) == Last(results);
      }
    }
  }

  /** What stops the loop stops it whatever would come later. */
  lemma {:induction false} DriveStopped(l: Loop, results: seq<AgentResult>, more: seq<AgentResult>, max: nat)
    requires !Drive(l, results, max).StillRunning?
    ensures Drive(l, results + more, max) == Drive(l, results, max)
    decreases |results|
  {
    assert (results + more)[0] == results[0] && (results + more)[1..] == results[1..] + more;
    if StopsWith(l, results[0], max).None? {
      DriveStopped(Continue(l, results[0], max), results[1..], more, max);
    }
  }

  /** A reminder-caused request under the given limit and reminder. */
  predicate RemindedRequest(res: AgentResult, available: nat, reminder: nat) {
    && res.NeedsCompaction? && res.floor.Some?
    && res.request.availableInputTokens == available && ReminderTokens(res) == reminder
    && CausedByReminder(res)
  }

  /** No run of the loop from its start gets past a stretch of more such requests than the reminder has tokens: it stopped
      before the stretch, or it stops in it with the no-progress error or a failed compaction, whatever would follow. */
  lemma StretchStops(before: seq<AgentResult>, stretch: seq<AgentResult>, later: seq<AgentResult>, max: nat,
                     available: nat, reminder: nat)
    requires before != [] && |stretch| > reminder && forall res :: res in stretch ==> RemindedRequest(res, available, reminder)
    ensures var outcome, early := Drive(START, before + stretch + later, max), Drive(START, before, max);
            if early.StillRunning? then outcome.NoProgress? || outcome.NotCompacted? else outcome == early
  {
    assert before + stretch + later == before + (stretch + later);
    if Drive(START, before, max).StillRunning? {
      var m := DriveRemembers(START, before, stretch + later, max);
      forall j | 0 <= j < |stretch| ensures RemindedRequest(stretch[j], available, reminder) {
        assert stretch[j] in stretch;
      }
      ExcessRetriesStop(m, stretch, max, available, reminder);
      DriveStopped(m, stretch, later, max);
    } else {
      DriveStopped(START, before, stretch + later, max);
    }
  }

  // ----- conservation of the totals ------------------------------------------------------------------

  function TotalIterations(results: seq<AgentResult>): nat {
    if results == [] then 0
    else (match results[0]
          case Completed(iterations, _) => iterations
          case NeedsCompaction(request, _, _) => request.completedIterations
          case Failed => 0) + TotalIterations(results[1..])
  }

  function TotalToolCalls(results: seq<AgentResult>): nat {
    if results == [] then 0
    else (match results[0]
          case Completed(_, toolCalls) => toolCalls
          case NeedsCompaction(request, _, _) => request.toolCallsMade
          case Failed => 0) + TotalToolCalls(results[1..])
  }

  /** A finished run reports the true totals over all its checkpoints, capped once at the machine word. */
  lemma {:induction false} TotalsAreConserved(l: Loop, results: seq<AgentResult>, max: nat)
    requires results != [] && Last(results).Completed? && Drive(l, results, max).Finished?
    requires forall j :: 0 <= j < |results| - 1 ==> results[j].NeedsCompaction?
    requires l.iterations <= max && l.toolCalls <= max
    ensures Drive(l, results, max) ==
            var iterations, toolCalls := l.iterations + TotalIterations(results), l.toolCalls + TotalToolCalls(results);
            Finished(if iterations > max then max else iterations, if toolCalls > max then max else toolCalls)
    decreases |results|
  {
    if |results| > 1 {
      assert Last(results[1..]) == Last(results);
      TotalsAreConserved(Continue(l, results[0], max), results[1..], max);
    } else {
      assert results[1..] == [];
    }
  }

  // ----- when the loop stops ------------------------------------------------------------------------

  /** Even without the reminder the next request fits, but with it it cannot; the first request of a run never says so. */
  predicate TooLarge(before: seq<AgentResult>, res: AgentResult) {
    && before != [] && res.NeedsCompaction? && res.floor.Some?
    && res.floor.value.withoutReminder < res.request.availableInputTokens <= res.floor.value.withReminder
  }

  /** Two requests in a row, neither the first of the run, are caused by the reminder, the later no smaller. */
  predicate Stalled(before: seq<AgentResult>, res: AgentResult) {
    && |before| > 1 && CausedByReminder(Last(before)) && CausedByReminder(res)
    && res.request.promptTokens >= Last(before).request.promptTokens
  }

  /** Exactly when the loop stops at the next result, and how. */
  lemma StopsExactly(before: seq<AgentResult>, res: AgentResult, max: nat)
    requires Drive(START, before, max).StillRunning?
    ensures var outcome := Drive(START, before + [res], max);
            && (outcome.Finished? <==> res.Completed?)
            && (outcome.RunFailed? <==> res.Failed?)
            && (outcome.ReminderTooLarge? <==> TooLarge(before, res))
            && (outcome.NoProgress? <==> Stalled(before, res))
            && (outcome.NoProgress? ==>
                  outcome == NoProgress(Last(before).request.promptTokens, res.request.promptTokens))
            && (outcome.NotCompacted? <==>
                  res.NeedsCompaction? && !res.compacted && !TooLarge(before, res) && !Stalled(before, res))
            && (outcome.StillRunning? <==>
                  res.NeedsCompaction? && res.compacted && !TooLarge(before, res) && !Stalled(before, res))
  {
    var m := DriveRemembers(START, before, [res], max);
    assert [res][1..] == [];
    if res.NeedsCompaction? && res.floor.Some? {
      RetryExactly(res);
    }
  }
}
