/** Which batches get an assistant frame, and which calls can therefore end. */
module JournalFrames {
  import opened Ordering
  import opened Sequences
  import opened Json
  import opened Journal
  import opened JournalHistory

  function Ids(calls: seq<ToolCall>): seq<string> {
    seq(|calls|, i requires 0 <= i < |calls| => calls[i].id)
  }

  /** How many frames after the first `prior` entries list exactly the calls `ids`. */
  function FramesOf(entries: seq<Entry>, prior: nat, ids: seq<string>): nat {
    if |entries| <= prior then 0
    else FramesOf(Front(entries), prior, ids) +
         if Last(entries).AssistantFrame? && Ids(Last(entries).frame.calls) == ids then 1 else 0
  }

  /** The batch an input announces. */
  function BatchOf(i: Input): Option<seq<ToolCall>> {
    if i.Tool? && !i.terminalRun && i.event.lifecycle.update.InputReady? then i.event.batch else None
  }

  predicate Announces(i: Input, ids: seq<string>) {
    BatchOf(i).Some? && Ids(BatchOf(i).value) == ids
  }

  /** The input announces a batch whose first call is not recorded yet: all that the code looks at. */
  predicate Opens(s: State, i: Input) {
    BatchOf(i).Some? && BatchOf(i).value != [] && BatchOf(i).value[0].id !in s.batches
  }

  // ----- one step -----------------------------------------------------------------------------------------

  lemma FramesAppend(entries: seq<Entry>, prior: nat, ids: seq<string>, x: Entry)
    requires prior <= |entries|
    ensures FramesOf(entries + [x], prior, ids) ==
            FramesOf(entries, prior, ids) + if x.AssistantFrame? && Ids(x.frame.calls) == ids then 1 else 0
  {
    FrontAppend(entries, x);
  }

  lemma FramesFlush(s: State, prior: nat, flushed: string, ids: seq<string>)
    requires prior <= |s.entries|
    ensures FramesOf(s.entries + Flushed(s, flushed), prior, ids) == FramesOf(s.entries, prior, ids)
  {
    if flushed in s.pending {
      FramesAppend(s.entries, prior, ids, LifecycleEntry(s.pending[flushed]));
    } else {
      assert s.entries + [] == s.entries;
    }
  }

  lemma FramesPlain(s: State, l: Lifecycle, prior: nat, ids: seq<string>)
    requires prior <= |s.entries|
    ensures FramesOf(s.entries + Flushed(s, l.callId) + [LifecycleEntry(l)], prior, ids) == FramesOf(s.entries, prior, ids)
  {
    FramesFlush(s, prior, l.callId, ids);
    FramesAppend(s.entries + Flushed(s, l.callId), prior, ids, LifecycleEntry(l));
  }

  lemma FramesWritten(s: State, l: Lifecycle, frame: Frame, prior: nat, ids: seq<string>)
    requires prior <= |s.entries|
    ensures FramesOf(s.entries + Flushed(s, l.callId) + [AssistantFrame(frame), LifecycleEntry(l)], prior, ids) ==
            FramesOf(s.entries, prior, ids) + if Ids(frame.calls) == ids then 1 else 0
  {
    var flush := s.entries + Flushed(s, l.callId);
    FramesFlush(s, prior, l.callId, ids);
    FramesAppend(flush, prior, ids, AssistantFrame(frame));
    FramesAppend(flush + [AssistantFrame(frame)], prior, ids, LifecycleEntry(l));
    assert flush + [AssistantFrame(frame), LifecycleEntry(l)] == flush + [AssistantFrame(frame)] + [LifecycleEntry(l)];
  }

  /** What one accepted input does to frames and records. */
  ghost predicate StepFrames(s: State, i: Input, t: State, prior: nat, ids: seq<string>) {
    && PendingOk(t) && prior <= |t.entries|
    && FramesOf(t.entries, prior, ids) ==
       FramesOf(s.entries, prior, ids) + (if Opens(s, i) && Announces(i, ids) then 1 else 0)
    && forall id :: id in t.batches <==> id in s.batches || (Opens(s, i) && Lists(BatchOf(i).value, id))
  }

  lemma ToolStepFrames(c: Config, s: State, e: RunnerEvent, appends: nat, prior: nat, ids: seq<string>)
    requires c.hasStore && PendingOk(s) && prior <= |s.entries| && Process(c, s, e, false, appends).error.None?
    ensures StepFrames(s, Tool(e, false, appends), Process(c, s, e, false, appends).state, prior, ids)
  {
    var t, l := Process(c, s, e, false, appends).state, Stamped(c, e.lifecycle);
    Effect(c, s, e, appends);
    if !l.update.InputStreaming? {
      if WritesFrame(c, s, e, t) {
        var frame := Frame(s.draft.value, e.batch.value, e.usage.value);
        FramesWritten(s, l, frame, prior, ids);
        RecordedKeys(s.batches, e.batch.value, |s.entries + Flushed(s, l.callId)|, frame);
      } else {
        FramesPlain(s, l, prior, ids);
      }
    }
  }

  lemma HandleFrames(c: Config, s: State, i: Input, prior: nat, ids: seq<string>)
    requires c.hasStore && PendingOk(s) && prior <= |s.entries| && Handle(c, s, i).error.None?
    ensures StepFrames(s, i, Handle(c, s, i).state, prior, ids)
  {
    match i
    case Tool(event, terminalRun, appends) =>
      if !terminalRun {
        ToolStepFrames(c, s, event, appends, prior, ids);
      }
    case Note(text) =>
      FramesAppend(s.entries, prior, ids, Other(text));
    case Redraft(_) =>
  }

  // ----- whole runs ---------------------------------------------------------------------------------------

  ghost predicate OpensAt(c: Config, s: State, inputs: seq<Input>, k: int) {
    0 <= k < |inputs| && Opens(Run(c, s, inputs[..k]), inputs[k])
  }

  /** Input `k` opens the batch `ids`. */
  ghost predicate OpensBatch(c: Config, s: State, inputs: seq<Input>, k: int, ids: seq<string>) {
    OpensAt(c, s, inputs, k) && Announces(inputs[k], ids)
  }

  /** Input `k` opens a batch that lists `id`. */
  ghost predicate OpensCall(c: Config, s: State, inputs: seq<Input>, k: int, id: string) {
    OpensAt(c, s, inputs, k) && Lists(BatchOf(inputs[k]).value, id)
  }

  lemma OpensAtFront(c: Config, s: State, inputs: seq<Input>, k: int)
    requires inputs != [] && 0 <= k < |inputs|
    ensures k < |inputs| - 1 ==> inputs[k] == Front(inputs)[k] && (OpensAt(c, s, inputs, k) <==> OpensAt(c, s, Front(inputs), k))
    ensures k == |inputs| - 1 ==> (OpensAt(c, s, inputs, k) <==> Opens(Run(c, s, Front(inputs)), Last(inputs)))
  {
    if k < |inputs| - 1 {
      assert inputs[..k] == Front(inputs)[..k];
    } else {
      assert inputs[..k] == Front(inputs);
    }
  }

  lemma OpensBatchStep(c: Config, s: State, inputs: seq<Input>, ids: seq<string>)
    requires inputs != []
    ensures (exists k :: OpensBatch(c, s, inputs, k, ids)) <==>
            (exists k :: OpensBatch(c, s, Front(inputs), k, ids))
            || (Opens(Run(c, s, Front(inputs)), Last(inputs)) && Announces(Last(inputs), ids))
  {
    var n := |inputs| - 1;
    if k :| OpensBatch(c, s, inputs, k, ids) {
      OpensAtFront(c, s, inputs, k);
      assert k < n ==> OpensBatch(c, s, Front(inputs), k, ids);
    }
    if k :| OpensBatch(c, s, Front(inputs), k, ids) {
      OpensAtFront(c, s, inputs, k);
      assert OpensBatch(c, s, inputs, k, ids);
    }
    OpensAtFront(c, s, inputs, n);
    assert OpensBatch(c, s, inputs, n, ids) <==> Opens(Run(c, s, Front(inputs)), Last(inputs)) && Announces(Last(inputs), ids);
  }

  lemma OpensCallStep(c: Config, s: State, inputs: seq<Input>, id: string)
    requires inputs != []
    ensures (exists k :: OpensCall(c, s, inputs, k, id)) <==>
            (exists k :: OpensCall(c, s, Front(inputs), k, id))
            || (Opens(Run(c, s, Front(inputs)), Last(inputs)) && Lists(BatchOf(Last(inputs)).value, id))
  {
    var n := |inputs| - 1;
    if k :| OpensCall(c, s, inputs, k, id) {
      OpensAtFront(c, s, inputs, k);
      assert k < n ==> OpensCall(c, s, Front(inputs), k, id);
    }
    if k :| OpensCall(c, s, Front(inputs), k, id) {
      OpensAtFront(c, s, inputs, k);
      assert OpensCall(c, s, inputs, k, id);
    }
    OpensAtFront(c, s, inputs, n);
    assert OpensCall(c, s, inputs, n, id) <==>
           Opens(Run(c, s, Front(inputs)), Last(inputs)) && Lists(BatchOf(Last(inputs)).value, id);
  }

  lemma {:induction false} RunFrames(c: Config, prior: seq<Entry>, draft: Option<Draft>, inputs: seq<Input>)
    requires c.hasStore && Succeeds(c, Begin(prior, draft), inputs)
    ensures PendingOk(Run(c, Begin(prior, draft), inputs)) && |prior| <= |Run(c, Begin(prior, draft), inputs).entries|
  {
    if inputs != [] {
      RunFrames(c, prior, draft, Front(inputs));
      HandleFrames(c, Run(c, Begin(prior, draft), Front(inputs)), Last(inputs), |prior|, []);
    }
  }

  /** A call id is recorded exactly when some batch listing it was announced while its first call was not recorded. */
  lemma {:induction false} RecordedExactly(c: Config, prior: seq<Entry>, draft: Option<Draft>, inputs: seq<Input>, id: string)
    requires c.hasStore && Succeeds(c, Begin(prior, draft), inputs)
    ensures id in Run(c, Begin(prior, draft), inputs).batches <==> exists k :: OpensCall(c, Begin(prior, draft), inputs, k, id)
  {
    if inputs != [] {
      RecordedExactly(c, prior, draft, Front(inputs), id);
      RunFrames(c, prior, draft, Front(inputs));
      HandleFrames(c, Run(c, Begin(prior, draft), Front(inputs)), Last(inputs), |prior|, []);
      OpensCallStep(c, Begin(prior, draft), inputs, id);
    }
  }

  lemma FirstListed(calls: seq<ToolCall>, ids: seq<string>)
    requires ids != [] && Ids(calls) == ids
    ensures calls != [] && calls[0].id == ids[0] && Lists(calls, ids[0])
  {
    assert Ids(calls)[0] == calls[0].id;
    assert calls[0] in calls;
  }

  /** Over every successful run a batch has exactly one frame if it was ever announced while its first call was not
      recorded, and otherwise none, however its calls recur in other batches. */
  lemma {:induction false} FramesExactly(c: Config, prior: seq<Entry>, draft: Option<Draft>, inputs: seq<Input>, ids: seq<string>)
    requires c.hasStore && ids != [] && Succeeds(c, Begin(prior, draft), inputs)
    ensures FramesOf(Run(c, Begin(prior, draft), inputs).entries, |prior|, ids) ==
            if exists k :: OpensBatch(c, Begin(prior, draft), inputs, k, ids) then 1 else 0
  {
    if inputs != [] {
      var s0, past := Begin(prior, draft), Front(inputs);
      FramesExactly(c, prior, draft, past, ids);
      RunFrames(c, prior, draft, past);
      HandleFrames(c, Run(c, s0, past), Last(inputs), |prior|, ids);
      OpensBatchStep(c, s0, inputs, ids);
      if k :| OpensBatch(c, s0, past, k, ids) {
        FirstListed(BatchOf(past[k]).value, ids);
        assert OpensCall(c, s0, past, k, ids[0]);
        RecordedExactly(c, prior, draft, past, ids[0]);
        if Announces(Last(inputs), ids) {
          FirstListed(BatchOf(Last(inputs)).value, ids);
        }
      }
    }
  }

  /** No batch before input `k` lists the first call of this one, unless it is this one. */
  ghost predicate NewAt(inputs: seq<Input>, k: int, ids: seq<string>)
    requires ids != []
  {
    && 0 <= k < |inputs| && Announces(inputs[k], ids)
    && forall j :: 0 <= j < k && BatchOf(inputs[j]).Some? ==>
         Ids(BatchOf(inputs[j]).value) == ids || !Lists(BatchOf(inputs[j]).value, ids[0])
  }

  lemma {:induction false} PrefixSucceeds(c: Config, s: State, inputs: seq<Input>, k: nat)
    requires Succeeds(c, s, inputs) && k <= |inputs|
    ensures Succeeds(c, s, inputs[..k])
  {
    if k < |inputs| {
      PrefixSucceeds(c, s, Front(inputs), k);
      assert Front(inputs)[..k] == inputs[..k];
    } else {
      assert inputs[..k] == inputs;
    }
  }

  lemma OpensPrefix(c: Config, s: State, inputs: seq<Input>, k: nat, j: int, id: string)
    requires k <= |inputs| && OpensCall(c, s, inputs[..k], j, id)
    ensures inputs[..k][j] == inputs[j] && OpensAt(c, s, inputs, j)
  {
    assert inputs[..k][..j] == inputs[..j];
  }

  /** A batch disjoint from earlier batches, or only new in its first call, has exactly one frame, however many events
      announce it and whatever later batches share with it. */
  lemma OneFramePerNewBatch(c: Config, prior: seq<Entry>, draft: Option<Draft>, inputs: seq<Input>, k: nat, ids: seq<string>)
    requires c.hasStore && ids != [] && Succeeds(c, Begin(prior, draft), inputs) && NewAt(inputs, k, ids)
    ensures FramesOf(Run(c, Begin(prior, draft), inputs).entries, |prior|, ids) == 1
  {
    var s0 := Begin(prior, draft);
    FramesExactly(c, prior, draft, inputs, ids);
    FirstListed(BatchOf(inputs[k]).value, ids);
    if ids[0] in Run(c, s0, inputs[..k]).batches {
      PrefixSucceeds(c, s0, inputs, k);
      RecordedExactly(c, prior, draft, inputs[..k], ids[0]);
      var j :| OpensCall(c, s0, inputs[..k], j, ids[0]);
      OpensPrefix(c, s0, inputs, k, j, ids[0]);
      assert OpensBatch(c, s0, inputs, j, ids);
    } else {
      assert OpensBatch(c, s0, inputs, k, ids);
    }
  }

  /** A terminal event is refused for want of a frame exactly when no batch listing its call was ever announced while the
      first call of that batch was not recorded, and its pending input, if any, could be written. */
  lemma RefusedExactly(c: Config, prior: seq<Entry>, draft: Option<Draft>, inputs: seq<Input>, e: RunnerEvent, appends: nat)
    requires c.hasStore && Succeeds(c, Begin(prior, draft), inputs)
    requires e.lifecycle.update.Completed? || e.lifecycle.update.Rejected?
    ensures var s, id := Run(c, Begin(prior, draft), inputs), e.lifecycle.callId;
            Process(c, s, e, false, appends).error == Some(NoCanonicalFrame) <==>
            !(exists k :: OpensCall(c, Begin(prior, draft), inputs, k, id)) && (id in s.pending ==> appends > 0)
  {
    RecordedExactly(c, prior, draft, inputs, e.lifecycle.callId);
  }

  // ----- a batch that gets no frame -----------------------------------------------------------------------

  function Ready(calls: seq<ToolCall>): Input
    requires calls != []
  {
    Tool(RunnerEvent(Lifecycle(calls[0].id, calls[0].name, 0, 0, None, None, InputReady(calls[0].arguments)),
                     Some(calls), Some(0), None), false, 2)
  }

  function Done(call: ToolCall): RunnerEvent {
    RunnerEvent(Lifecycle(call.id, call.name, 0, 0, None, None, Completed(call.arguments, true, None, None)), None, None, None)
  }

  lemma ReadyWrites(c: Config, s: State, calls: seq<ToolCall>)
    requires c.hasStore && c.hasDrafts && s.draft.Some? && s.pending == map[] && calls != []
    ensures var p := Handle(c, s, Ready(calls));
            p.error.None? && p.state.pending == map[] && p.state.draft.Some?
  {
  }

  /** The batch [x], then the batch [x, y]: the second gets no frame, and the result of y is refused. */
  lemma SharedFirstCall(c: Config, prior: seq<Entry>, draft: Draft, x: ToolCall, y: ToolCall)
    requires c.hasStore && c.hasDrafts && x.id != y.id
    ensures var s0, inputs := Begin(prior, Some(draft)), [Ready([x]), Ready([x, y])];
            && Succeeds(c, s0, inputs)
            && FramesOf(Run(c, s0, inputs).entries, |prior|, [x.id, y.id]) == 0
            && Process(c, Run(c, s0, inputs), Done(y), false, 2).error == Some(NoCanonicalFrame)
  {
    var s0, inputs := Begin(prior, Some(draft)), [Ready([x]), Ready([x, y])];
    assert Front(inputs) == [Ready([x])] && Front([Ready([x])]) == [];
    assert Run(c, s0, []) == s0;
    ReadyWrites(c, s0, [x]);
    ReadyWrites(c, Run(c, s0, Front(inputs)), [x, y]);
    SharedBatchOpens(c, s0, inputs, x, y);
    FramesExactly(c, prior, Some(draft), inputs, [x.id, y.id]);
    RefusedExactly(c, prior, Some(draft), inputs, Done(y), 2);
  }

  lemma SharedBatchOpens(c: Config, s0: State, inputs: seq<Input>, x: ToolCall, y: ToolCall)
    requires inputs == [Ready([x]), Ready([x, y])] && x.id != y.id && c.hasStore
    requires s0.batches == map[] && PendingOk(s0) && Handle(c, s0, Ready([x])).error.None?
    ensures forall k :: !OpensBatch(c, s0, inputs, k, [x.id, y.id])
    ensures forall k :: !OpensCall(c, s0, inputs, k, y.id)
  {
    HandleFrames(c, s0, Ready([x]), 0, []);
    assert inputs[..0] == [] && inputs[..1] == [Ready([x])];
    assert Front([Ready([x])]) == [] && Last([Ready([x])]) == Ready([x]);
    assert Run(c, s0, inputs[..1]) == Handle(c, s0, Ready([x])).state;
    assert [x][0] in [x];
    assert Lists([x], x.id);
    assert !Lists([x], y.id);
    assert |Ids([x])| == 1;
    forall k ensures OpensAt(c, s0, inputs, k) ==> k == 0 {
    }
  }
}
