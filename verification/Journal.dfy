/** Journalling of tool lifecycle events: streamed argument deltas are coalesced, one assistant frame is
    written per batch, and a terminal event without a frame is rejected. The store is an append-only sequence. */
module Journal {
  import opened Ordering
  import opened Json

  /** Context-budget metadata and token usage are carried, never looked into. */
  type Budget = nat
  type Usage = nat

  datatype Update =
    | Created(providerIndex: Option<nat>)
    | InputStreaming(delta: string)
    | InputReady(arguments: Value)
    | WaitingForExecution(arguments: Value)
    | Executing(arguments: Value, startedAt: nat)
    | ExecutionProgress(arguments: Value, elapsed: nat, message: string)
    | ResultReady(arguments: Value, success: bool, result: Option<string>, error: Option<string>)
    | Completed(arguments: Value, success: bool, result: Option<string>, error: Option<string>)
    | Rejected(arguments: Value, reason: string, rejection: string)
    | Cancelled(lastArguments: Option<Value>, reason: string)

  datatype Lifecycle = Lifecycle(
    callId: string, toolName: string, sequence: nat, emittedAt: nat,
    runId: Option<string>, budget: Option<Budget>, update: Update)

  datatype ToolCall = ToolCall(id: string, name: string, arguments: Value)

  datatype RunnerEvent = RunnerEvent(
    lifecycle: Lifecycle, batch: Option<seq<ToolCall>>, usage: Option<Usage>, budget: Option<Budget>)

  datatype Draft = Draft(header: string, content: string)

  datatype Frame = Frame(draft: Draft, calls: seq<ToolCall>, usage: Usage)

  datatype Entry = AssistantFrame(frame: Frame) | LifecycleEntry(event: Lifecycle) | Other(note: string)

  datatype Invocation = Invocation(lifecycle: Lifecycle, accumulated: Option<string>, budget: Option<Budget>)

  datatype Error =
    | NotStreaming | InvalidPendingStage | MissingBatch | MissingUsage | EmptyBatch | InconsistentStores | MissingDraft
    | AppendFailed | NoCanonicalFrame

  /** Which collaborators the run was given. */
  datatype Config = Config(runId: string, hasStore: bool, hasDrafts: bool, tracksActive: bool)

  /** `batches` maps each call id of a persisted batch to its frame and the frame's index. */
  datatype State = State(
    entries: seq<Entry>,
    draft: Option<Draft>,
    pending: map<string, Lifecycle>,
    batches: map<string, (nat, Frame)>,
    active: seq<Invocation>)

  /** A state on the way through one event: `left` appends will still succeed. */
  datatype Progress = Progress(state: State, left: nat, error: Option<Error>)

  predicate Ends(u: Update) {
    u.Completed? || u.Rejected? || u.Cancelled?
  }

  predicate NeedsFrame(u: Update) {
    u.Completed? || u.Rejected?
  }

  function NextSegment(d: Draft): Draft {
    d.(content := "")
  }

  function Combine(p: Lifecycle, e: Lifecycle): Lifecycle
    requires p.update.InputStreaming? && e.update.InputStreaming?
  {
    p.(update := InputStreaming(p.update.delta + e.update.delta),
       sequence := e.sequence, emittedAt := e.emittedAt, budget := e.budget)
  }

  function Append(p: Progress, entry: Entry): Progress {
    if p.left == 0 then p.(error := Some(AppendFailed))
    else p.(state := p.state.(entries := p.state.entries + [entry]), left := p.left - 1)
  }

  function Accumulate(p: Progress, e: Lifecycle): Progress {
    var pending := p.state.pending;
    if !e.update.InputStreaming? then p.(error := Some(NotStreaming))
    else if e.callId !in pending then p.(state := p.state.(pending := pending[e.callId := e]))
    else if !pending[e.callId].update.InputStreaming? then p.(error := Some(InvalidPendingStage))
    else p.(state := p.state.(pending := pending[e.callId := Combine(pending[e.callId], e)]))
  }

  function Flush(c: Config, p: Progress, id: string): Progress {
    if id !in p.state.pending then p
    else
      var removed := p.(state := p.state.(pending := p.state.pending - {id}));
      if c.hasStore then Append(removed, LifecycleEntry(p.state.pending[id])) else removed
  }

  function Recorded(batches: map<string, (nat, Frame)>, calls: seq<ToolCall>, index: nat, frame: Frame)
    : map<string, (nat, Frame)>
  {
    if calls == [] then batches
    else Recorded(batches, calls[..|calls| - 1], index, frame)[calls[|calls| - 1].id := (index, frame)]
  }

  function PersistSegment(c: Config, p: Progress, calls: seq<ToolCall>, usage: Usage, key: string): Progress {
    if key in p.state.batches || (!c.hasStore && !c.hasDrafts) then p
    else if !c.hasStore || !c.hasDrafts then p.(error := Some(InconsistentStores))
    else if p.state.draft.None? then p.(error := Some(MissingDraft))
    else
      var frame := Frame(p.state.draft.value, calls, usage);
      var q := Append(p, AssistantFrame(frame));
      if q.error.Some? then q
      else q.(state := q.state.(draft := Some(NextSegment(p.state.draft.value)),
                                batches := Recorded(p.state.batches, calls, |p.state.entries|, frame)))
  }

  function PersistBatch(c: Config, p: Progress, e: RunnerEvent): Progress {
    if e.batch.None? then p.(error := Some(MissingBatch))
    else if e.usage.None? then p.(error := Some(MissingUsage))
    else if e.batch.value == [] then p.(error := Some(EmptyBatch))
    else PersistSegment(c, p, e.batch.value, e.usage.value, e.batch.value[0].id)
  }

  function Position(active: seq<Invocation>, id: string): (i: Option<nat>)
    ensures i.Some? ==> i.value < |active| && active[i.value].lifecycle.callId == id
    ensures i.Some? ==> forall k :: 0 <= k < i.value ==> active[k].lifecycle.callId != id
    ensures i.None? ==> forall k :: 0 <= k < |active| ==> active[k].lifecycle.callId != id
  {
    if active == [] then None
    else if active[0].lifecycle.callId == id then Some(0)
    else var r := Position(active[1..], id); if r.Some? then Some(r.value + 1) else None
  }

  function Without(active: seq<Invocation>, id: string): seq<Invocation> {
    if active == [] then []
    else (if active[0].lifecycle.callId == id then [] else [active[0]]) + Without(active[1..], id)
  }

  function Track(active: seq<Invocation>, e: Lifecycle, budget: Option<Budget>): seq<Invocation> {
    if Ends(e.update) then Without(active, e.callId)
    else
      var at := Position(active, e.callId);
      var before := if at.Some? && active[at.value].accumulated.Some? then active[at.value].accumulated.value else "";
      var snapshot := Invocation(e, if e.update.InputStreaming? then Some(before + e.update.delta) else None, budget);
      if at.Some? then active[at.value := snapshot] else active + [snapshot]
  }

  function Stamped(c: Config, e: Lifecycle): Lifecycle {
    e.(runId := Some(c.runId))
  }

  function Absorb(c: Config, p: Progress, e: Lifecycle): Progress {
    if e.update.InputStreaming? then Accumulate(p, e) else Flush(c, p, e.callId)
  }

  function Frames(c: Config, p: Progress, e: RunnerEvent): Progress {
    if p.error.Some? || !e.lifecycle.update.InputReady? then p else PersistBatch(c, p, e)
  }

  function Commit(c: Config, p: Progress, e: Lifecycle): Progress {
    if p.error.Some? then p
    else if NeedsFrame(e.update) && c.hasStore && e.callId !in p.state.batches then p.(error := Some(NoCanonicalFrame))
    else if !e.update.InputStreaming? && c.hasStore then Append(p, LifecycleEntry(e))
    else p
  }

  function Snapshot(c: Config, p: Progress, e: Lifecycle, budget: Option<Budget>): Progress {
    if p.error.Some? || !c.tracksActive then p
    else p.(state := p.state.(active := Track(p.state.active, e, budget)))
  }

  /** One event. `appends` is how many writes the store accepts before one fails. */
  function Process(c: Config, s: State, e: RunnerEvent, terminalRun: bool, appends: nat): Progress {
    if terminalRun then Progress(s, appends, None)
    else
      var l := Stamped(c, e.lifecycle);
      Snapshot(c, Commit(c, Frames(c, Absorb(c, Progress(s, appends, None), l), e), l), l, e.budget)
  }

  class ToolJournal {
    const config: Config
    var entries: seq<Entry>
    var draft: Option<Draft>
    var pendingInputs: map<string, Lifecycle>
    var persistedToolBatches: map<string, (nat, Frame)>
    var activeInvocations: seq<Invocation>
    var left: nat

    ghost function View(error: Option<Error>): Progress
      reads this
    {
      Progress(State(entries, draft, pendingInputs, persistedToolBatches, activeInvocations), left, error)
    }

    constructor (config: Config, prior: seq<Entry>, draft: Option<Draft>)
      ensures this.config == config
      ensures View(None).state == State(prior, draft, map[], map[], [])
    {
      this.config := config;
      entries, this.draft := prior, draft;
      pendingInputs, persistedToolBatches, activeInvocations := map[], map[], [];
      left := 0;
    }

    method AppendEntry(entry: Entry) returns (error: Option<Error>)
      modifies this`entries, this`left
      ensures View(error) == Append(old(View(None)), entry)
    {
      if left == 0 {
        return Some(AppendFailed);
      }
      entries := entries + [entry];
      left := left - 1;
      error := None;
    }

    method AccumulateInput(e: Lifecycle) returns (error: Option<Error>)
      modifies this`pendingInputs
      ensures View(error) == Accumulate(old(View(None)), e)
    {
      if !e.update.InputStreaming? {
        return Some(NotStreaming);
      }
      error := None;
      if e.callId in pendingInputs {
        var pending := pendingInputs[e.callId];
        if !pending.update.InputStreaming? {
          return Some(InvalidPendingStage);
        }
        var delta := pending.update.delta + e.update.delta;
        pending := pending.(update := InputStreaming(delta));
        pending := pending.(sequence := e.sequence);
        pending := pending.(emittedAt := e.emittedAt);
        pending := pending.(budget := e.budget);
        pendingInputs := pendingInputs[e.callId := pending];
      } else {
        pendingInputs := pendingInputs[e.callId := e];
      }
    }

    method PersistPendingInput(id: string) returns (error: Option<Error>)
      modifies this`pendingInputs, this`entries, this`left
      ensures View(error) == Flush(config, old(View(None)), id)
    {
      if id !in pendingInputs {
        return None;
      }
      var lifecycle := pendingInputs[id];
      pendingInputs := pendingInputs - {id};
      if !config.hasStore {
        return None;
      }
      error := AppendEntry(LifecycleEntry(lifecycle));
    }

    method PersistToolSegment(calls: seq<ToolCall>, usage: Usage, key: string) returns (error: Option<Error>)
      modifies this`entries, this`left, this`draft, this`persistedToolBatches
      ensures View(error) == PersistSegment(config, old(View(None)), calls, usage, key)
    {
      if key in persistedToolBatches || (!config.hasStore && !config.hasDrafts) {
        return None;
      }
      if !config.hasStore || !config.hasDrafts {
        return Some(InconsistentStores);
      }
      if draft.None? {
        return Some(MissingDraft);
      }
      var frame, index := Frame(draft.value, calls, usage), |entries|;
      error := AppendEntry(AssistantFrame(frame));
      if error.Some? {
        return;
      }
      draft := Some(NextSegment(draft.value));
      ghost var before := persistedToolBatches;
      for i := 0 to |calls|
        invariant persistedToolBatches == Recorded(before, calls[..i], index, frame)
        invariant View(None) == old(Append(View(None), AssistantFrame(frame))).(state :=
                                  State(entries, draft, pendingInputs, persistedToolBatches, activeInvocations))
        invariant entries == old(entries) + [AssistantFrame(frame)] && draft == Some(NextSegment(old(draft).value))
      {
        persistedToolBatches := persistedToolBatches[calls[i].id := (index, frame)];
        assert calls[..i + 1][..i] == calls[..i];
      }
      assert calls[..|calls|] == calls;
    }

    method TrackInvocation(e: Lifecycle, budget: Option<Budget>)
      modifies this`activeInvocations
      ensures activeInvocations == Track(old(activeInvocations), e, budget)
    {
      if Ends(e.update) {
        activeInvocations := Without(activeInvocations, e.callId);
        return;
      }
      var existing := Position(activeInvocations, e.callId);
      var accumulated: Option<string> := None;
      if e.update.InputStreaming? {
        var soFar := "";
        if existing.Some? && activeInvocations[existing.value].accumulated.Some? {
          soFar := activeInvocations[existing.value].accumulated.value;
        }
        accumulated := Some(soFar + e.update.delta);
      }
      var snapshot := Invocation(e, accumulated, budget);
      if existing.Some? {
        activeInvocations := activeInvocations[existing.value := snapshot];
      } else {
        activeInvocations := activeInvocations + [snapshot];
      }
    }

    method ProcessEvent(e: RunnerEvent, terminalRun: bool, appends: nat) returns (error: Option<Error>)
      modifies this
      ensures View(error) == Process(config, old(View(None)).state, e, terminalRun, appends)
    {
      left := appends;
      if terminalRun {
        return None;
      }
      var lifecycle := e.lifecycle.(runId := Some(config.runId));
      if lifecycle.update.InputStreaming? {
        error := AccumulateInput(lifecycle);
      } else {
        error := PersistPendingInput(lifecycle.callId);
      }
      if error.Some? {
        return;
      }
      if lifecycle.update.InputReady? {
        if e.batch.None? {
          return Some(MissingBatch);
        }
        if e.usage.None? {
          return Some(MissingUsage);
        }
        if e.batch.value == [] {
          return Some(EmptyBatch);
        }
        error := PersistToolSegment(e.batch.value, e.usage.value, e.batch.value[0].id);
        if error.Some? {
          return;
        }
      }
      if NeedsFrame(lifecycle.update) && config.hasStore && lifecycle.callId !in persistedToolBatches {
        return Some(NoCanonicalFrame);
      }
      if !lifecycle.update.InputStreaming? && config.hasStore {
        error := AppendEntry(LifecycleEntry(lifecycle));
        if error.Some? {
          return;
        }
      }
      if config.tracksActive {
        TrackInvocation(lifecycle, e.budget);
      }
    }
  }
}
