/** What the journal holds after any run of the event forwarder. */
module JournalHistory {
  import opened Ordering
  import opened Sequences
  import opened Journal

  /** What reaches the forwarder: tool events, notices it also writes, and draft changes by other events. */
  datatype Input =
    | Tool(event: RunnerEvent, terminalRun: bool, appends: nat)
    | Note(text: string)
    | Redraft(draft: Option<Draft>)

  function Handle(c: Config, s: State, i: Input): Progress {
    match i
    case Tool(event, terminalRun, appends) => Process(c, s, event, terminalRun, appends)
    case Note(text) => Progress(if c.hasStore then s.(entries := s.entries + [Other(text)]) else s, 0, None)
    case Redraft(draft) => Progress(s.(draft := draft), 0, None)
  }

  function Begin(prior: seq<Entry>, draft: Option<Draft>): State {
    State(prior, draft, map[], map[], [])
  }

  /** The state after `inputs`; the forwarder stops at the first error, so runs are the successful ones. */
  function Run(c: Config, s: State, inputs: seq<Input>): State {
    if inputs == [] then s else Handle(c, Run(c, s, Front(inputs)), Last(inputs)).state
  }

  predicate Succeeds(c: Config, s: State, inputs: seq<Input>) {
    inputs == [] ||
    (Succeeds(c, s, Front(inputs)) && Handle(c, Run(c, s, Front(inputs)), Last(inputs)).error.None?)
  }

  // ----- one step, seen from outside ---------------------------------------------------------------

  ghost predicate PendingOk(s: State) {
    forall id :: id in s.pending ==> s.pending[id].update.InputStreaming? && s.pending[id].callId == id
  }

  function Flushed(s: State, id: string): seq<Entry> {
    if id in s.pending then [LifecycleEntry(s.pending[id])] else []
  }

  /** What an accepted event adds to the store: the coalesced input, at most one frame, then itself. */
  lemma Effect(c: Config, s: State, e: RunnerEvent, appends: nat)
    requires c.hasStore && PendingOk(s) && Process(c, s, e, false, appends).error.None?
    ensures var t, l := Process(c, s, e, false, appends).state, Stamped(c, e.lifecycle);
            && PendingOk(t)
            && (l.update.InputStreaming? ==>
                  && t.entries == s.entries && t.batches == s.batches
                  && t.pending == s.pending[l.callId := if l.callId in s.pending then Combine(s.pending[l.callId], l) else l])
            && (!l.update.InputStreaming? ==>
                  && t.pending == s.pending - {l.callId}
                  && ((t.entries == s.entries + Flushed(s, l.callId) + [LifecycleEntry(l)] && t.batches == s.batches)
                      || WritesFrame(c, s, e, t)))
            && t.active == (if c.tracksActive then Track(s.active, l, e.budget) else s.active)
            && (NeedsFrame(l.update) ==> l.callId in t.batches)
            && (l.update.InputReady? ==> e.batch.Some? && e.batch.value != [] && e.batch.value[0].id in t.batches)
  {
    var l := Stamped(c, e.lifecycle);
    var p := Progress(s, appends, None);
    var a := Absorb(c, p, l);
    assert s.entries + [] == s.entries;
    if !l.update.InputStreaming? {
      assert a.state.entries == s.entries + Flushed(s, l.callId);
      assert s.pending - {l.callId} == a.state.pending;
    }
    if l.update.InputReady? {
      var key := e.batch.value[0].id;
      if key !in s.batches {
        RecordedKeys(s.batches, e.batch.value, |a.state.entries|, Frame(a.state.draft.value, e.batch.value, e.usage.value));
      }
    }
  }

  /** The event wrote the one frame of a batch whose key was new, and recorded it under every call id. */
  ghost predicate WritesFrame(c: Config, s: State, e: RunnerEvent, t: State) {
    && e.lifecycle.update.InputReady? && e.batch.Some? && e.usage.Some? && s.draft.Some?
    && e.batch.value != [] && e.batch.value[0].id !in s.batches
    && var frame := Frame(s.draft.value, e.batch.value, e.usage.value);
       var before := s.entries + Flushed(s, e.lifecycle.callId);
       && t.entries == before + [AssistantFrame(frame), LifecycleEntry(Stamped(c, e.lifecycle))]
       && t.batches == Recorded(s.batches, e.batch.value, |before|, frame)
  }

  predicate Lists(calls: seq<ToolCall>, id: string) {
    exists call :: call in calls && call.id == id
  }

  lemma {:induction false} RecordedKeys(batches: map<string, (nat, Frame)>, calls: seq<ToolCall>, index: nat, frame: Frame)
    ensures forall id :: id in Recorded(batches, calls, index, frame) <==> id in batches || Lists(calls, id)
    ensures forall id :: Lists(calls, id) ==> Recorded(batches, calls, index, frame)[id] == (index, frame)
    ensures forall id :: !Lists(calls, id) && id in batches ==> Recorded(batches, calls, index, frame)[id] == batches[id]
  {
    if calls != [] {
      var front, last := calls[..|calls| - 1], calls[|calls| - 1];
      RecordedKeys(batches, front, index, frame);
      assert calls == front + [last];
      assert forall id :: Lists(calls, id) <==> Lists(front, id) || last.id == id;
    }
  }

  // ----- coalescing: the journal is the merged event stream -----------------------------------------

  /** The accepted events of one call, stamped with the run. */
  function Stream(c: Config, inputs: seq<Input>, id: string): seq<Lifecycle> {
    if inputs == [] then []
    else
      var past, i := Stream(c, Front(inputs), id), Last(inputs);
      if i.Tool? && !i.terminalRun && i.event.lifecycle.callId == id
      then past + [i.event.lifecycle.(runId := Some(c.runId))] else past
  }

  /** Adjacent streaming events become one: deltas concatenated, the last sequence kept. */
  function Merge(events: seq<Lifecycle>): seq<Lifecycle> {
    if events == [] then []
    else
      var past, e := Merge(Front(events)), Last(events);
      if e.update.InputStreaming? && past != [] && Last(past).update.InputStreaming?
      then Front(past) + [Combine(Last(past), e)]
      else past + [e]
  }

  /** The lifecycle entries of `id` among those written after the first `prior`. */
  function Written(entries: seq<Entry>, prior: nat, id: string): seq<Lifecycle> {
    if |entries| <= prior then []
    else
      var past, x := Written(Front(entries), prior, id), Last(entries);
      if x.LifecycleEntry? && x.event.callId == id then past + [x.event] else past
  }

  function PendingOf(s: State, id: string): seq<Lifecycle> {
    if id in s.pending then [s.pending[id]] else []
  }

  lemma WrittenAppend(entries: seq<Entry>, prior: nat, id: string, x: Entry)
    requires prior <= |entries|
    ensures Written(entries + [x], prior, id) ==
            Written(entries, prior, id) + if x.LifecycleEntry? && x.event.callId == id then [x.event] else []
  {
    FrontAppend(entries, x);
  }

  ghost predicate StreamKept(s: State, prior: nat, events: seq<Lifecycle>, id: string) {
    && prior <= |s.entries|
    && Written(s.entries, prior, id) + PendingOf(s, id) == Merge(events)
    && (id in s.pending <==> Merge(events) != [] && Last(Merge(events)).update.InputStreaming?)
  }

  lemma StreamGrows(s: State, t: State, l: Lifecycle, prior: nat, events: seq<Lifecycle>, id: string)
    requires PendingOk(s) && StreamKept(s, prior, events, id) && l.update.InputStreaming? && t.entries == s.entries
    requires t.pending == s.pending[l.callId := if l.callId in s.pending then Combine(s.pending[l.callId], l) else l]
    ensures StreamKept(t, prior, if l.callId == id then events + [l] else events, id)
  {
    if l.callId == id {
      var grown, w := events + [l], Written(s.entries, prior, id);
      FrontAppend(events, l);
      if id in s.pending {
        FrontAppend(w, s.pending[id]);
      }
    }
  }

  lemma WrittenCommits(s: State, l: Lifecycle, frames: seq<Entry>, prior: nat, id: string)
    requires prior <= |s.entries| && PendingOk(s)
    requires frames == [] || (|frames| == 1 && frames[0].AssistantFrame?)
    ensures Written(s.entries + Flushed(s, l.callId) + frames + [LifecycleEntry(l)], prior, id) ==
            Written(s.entries, prior, id) + if l.callId == id then PendingOf(s, id) + [l] else []
  {
    var flush := s.entries + Flushed(s, l.callId);
    WrittenFlush(s, prior, l.callId, id);
    if frames == [] {
      assert flush + frames == flush;
    } else {
      WrittenAppend(flush, prior, id, frames[0]);
      assert flush + frames == flush + [frames[0]];
    }
    WrittenAppend(flush + frames, prior, id, LifecycleEntry(l));
  }

  lemma StreamCommits(s: State, t: State, l: Lifecycle, frames: seq<Entry>, prior: nat, events: seq<Lifecycle>, id: string)
    requires PendingOk(s) && StreamKept(s, prior, events, id) && !l.update.InputStreaming?
    requires t.pending == s.pending - {l.callId}
    requires frames == [] || (|frames| == 1 && frames[0].AssistantFrame?)
    requires t.entries == s.entries + Flushed(s, l.callId) + frames + [LifecycleEntry(l)]
    ensures StreamKept(t, prior, if l.callId == id then events + [l] else events, id)
  {
    WrittenCommits(s, l, frames, prior, id);
    if l.callId == id {
      FrontAppend(events, l);
      assert Written(t.entries, prior, id) == Merge(events) + [l];
    }
  }

  lemma StreamStep(c: Config, s: State, e: RunnerEvent, appends: nat, prior: nat, events: seq<Lifecycle>, id: string)
    requires c.hasStore && PendingOk(s) && Process(c, s, e, false, appends).error.None?
    requires StreamKept(s, prior, events, id)
    ensures PendingOk(Process(c, s, e, false, appends).state)
    ensures StreamKept(Process(c, s, e, false, appends).state, prior,
                       if e.lifecycle.callId == id then events + [Stamped(c, e.lifecycle)] else events, id)
  {
    var t, l := Process(c, s, e, false, appends).state, Stamped(c, e.lifecycle);
    Effect(c, s, e, appends);
    if l.update.InputStreaming? {
      StreamGrows(s, t, l, prior, events, id);
    } else {
      var flush := s.entries + Flushed(s, l.callId);
      if t.entries == flush + [LifecycleEntry(l)] {
        assert flush + [] == flush;
        StreamCommits(s, t, l, [], prior, events, id);
      } else {
        var frame := AssistantFrame(Frame(s.draft.value, e.batch.value, e.usage.value));
        assert flush + [frame, LifecycleEntry(l)] == flush + [frame] + [LifecycleEntry(l)];
        StreamCommits(s, t, l, [frame], prior, events, id);
      }
    }
  }

  lemma WrittenFlush(s: State, prior: nat, flushed: string, id: string)
    requires prior <= |s.entries| && PendingOk(s)
    ensures Written(s.entries + Flushed(s, flushed), prior, id) ==
            Written(s.entries, prior, id) + if flushed == id then PendingOf(s, id) else []
  {
    if flushed in s.pending {
      WrittenAppend(s.entries, prior, id, LifecycleEntry(s.pending[flushed]));
    } else {
      assert s.entries + [] == s.entries;
    }
  }

  /** For every successful run and every call: what the journal gained for it, followed by its pending input,
      is its event stream with adjacent streaming events merged. */
  lemma {:induction false} JournalIsMergedStream(c: Config, prior: seq<Entry>, draft: Option<Draft>, inputs: seq<Input>, id: string)
    requires c.hasStore && Succeeds(c, Begin(prior, draft), inputs)
    ensures PendingOk(Run(c, Begin(prior, draft), inputs))
    ensures StreamKept(Run(c, Begin(prior, draft), inputs), |prior|, Stream(c, inputs, id), id)
  {
    if inputs != [] {
      var past, i := Run(c, Begin(prior, draft), Front(inputs)), Last(inputs);
      JournalIsMergedStream(c, prior, draft, Front(inputs), id);
      match i
      case Tool(event, terminalRun, appends) =>
        if !terminalRun {
          StreamStep(c, past, event, appends, |prior|, Stream(c, Front(inputs), id), id);
        }
      case Note(text) =>
        WrittenAppend(past.entries, |prior|, id, Other(text));
      case Redraft(_) =>
    }
  }

  // ----- the separately kept accumulated arguments ---------------------------------------------------

  /** The accumulated arguments of the first invocation of `id`. */
  function AccumulatedFor(active: seq<Invocation>, id: string): Option<string> {
    if active == [] then None
    else if active[0].lifecycle.callId == id then active[0].accumulated
    else AccumulatedFor(active[1..], id)
  }

  lemma {:induction false} AccumulatedAt(active: seq<Invocation>, id: string)
    ensures var at := Position(active, id);
            AccumulatedFor(active, id) == if at.Some? then active[at.value].accumulated else None
  {
    if active != [] && active[0].lifecycle.callId != id {
      AccumulatedAt(active[1..], id);
    }
  }

  lemma {:induction false} WithoutForgets(active: seq<Invocation>, id: string, other: string)
    ensures AccumulatedFor(Without(active, id), other) == if other == id then None else AccumulatedFor(active, other)
  {
    if active != [] {
      WithoutForgets(active[1..], id, other);
      var kept := Without(active[1..], id);
      if active[0].lifecycle.callId != id {
        assert Without(active, id) == [active[0]] + kept && ([active[0]] + kept)[1..] == kept;
      } else {
        assert Without(active, id) == kept;
      }
    }
  }

  lemma {:induction false} ReplacedAccumulates(active: seq<Invocation>, x: Invocation, id: string)
    requires Position(active, x.lifecycle.callId).Some?
    ensures AccumulatedFor(active[Position(active, x.lifecycle.callId).value := x], id) ==
            if id == x.lifecycle.callId then x.accumulated else AccumulatedFor(active, id)
  {
    var at := Position(active, x.lifecycle.callId).value;
    if at > 0 {
      ReplacedAccumulates(active[1..], x, id);
      assert active[at := x][1..] == active[1..][at - 1 := x];
    } else {
      assert active[0 := x][1..] == active[1..];
    }
  }

  lemma {:induction false} AppendedAccumulates(active: seq<Invocation>, x: Invocation, id: string)
    requires Position(active, x.lifecycle.callId).None?
    ensures AccumulatedFor(active + [x], id) ==
            if id == x.lifecycle.callId then x.accumulated else AccumulatedFor(active, id)
  {
    if active != [] {
      assert (active + [x])[1..] == active[1..] + [x];
      AppendedAccumulates(active[1..], x, id);
    } else {
      assert [x][1..] == [];
    }
  }

  lemma TrackAccumulates(active: seq<Invocation>, e: Lifecycle, budget: Option<Budget>, id: string)
    ensures AccumulatedFor(Track(active, e, budget), id) ==
            if id != e.callId then AccumulatedFor(active, id)
            else if !e.update.InputStreaming? then None
            else Some((if AccumulatedFor(active, id).Some? then AccumulatedFor(active, id).value else "") + e.update.delta)
  {
    if Ends(e.update) {
      WithoutForgets(active, e.callId, id);
    } else {
      AccumulatedAt(active, e.callId);
      var at := Position(active, e.callId);
      var before := if at.Some? && active[at.value].accumulated.Some? then active[at.value].accumulated.value else "";
      var x := Invocation(e, if e.update.InputStreaming? then Some(before + e.update.delta) else None, budget);
      if at.Some? {
        ReplacedAccumulates(active, x, id);
      } else {
        AppendedAccumulates(active, x, id);
      }
    }
  }

  ghost predicate Accumulates(s: State, id: string) {
    PendingOk(s) && AccumulatedFor(s.active, id) == if id in s.pending then Some(s.pending[id].update.delta) else None
  }

  /** With or without a store, an accepted event is pending, or takes its call's pending input away, and is tracked. */
  lemma PendingEffect(c: Config, s: State, e: RunnerEvent, appends: nat)
    requires PendingOk(s) && Process(c, s, e, false, appends).error.None?
    ensures var t, l := Process(c, s, e, false, appends).state, Stamped(c, e.lifecycle);
            && t.pending == (if !l.update.InputStreaming? then s.pending - {l.callId}
                             else s.pending[l.callId := if l.callId in s.pending then Combine(s.pending[l.callId], l) else l])
            && t.active == (if c.tracksActive then Track(s.active, l, e.budget) else s.active)
  {
    var l := Stamped(c, e.lifecycle);
    assert l.callId !in s.pending ==> s.pending - {l.callId} == s.pending;
  }

  lemma AccumulateStep(c: Config, s: State, e: RunnerEvent, appends: nat, id: string)
    requires c.tracksActive && Accumulates(s, id) && Process(c, s, e, false, appends).error.None?
    ensures Accumulates(Process(c, s, e, false, appends).state, id)
  {
    PendingEffect(c, s, e, appends);
    TrackAccumulates(s.active, Stamped(c, e.lifecycle), e.budget, id);
    if e.lifecycle.update.InputStreaming? {
      assert "" + e.lifecycle.update.delta == e.lifecycle.update.delta;
    }
  }

  /** After every successful run the accumulated arguments shown for a call are exactly its pending delta. */
  lemma {:induction false} AccumulatedIsPending(c: Config, prior: seq<Entry>, draft: Option<Draft>, inputs: seq<Input>, id: string)
    requires c.tracksActive && Succeeds(c, Begin(prior, draft), inputs)
    ensures Accumulates(Run(c, Begin(prior, draft), inputs), id)
  {
    if inputs != [] {
      AccumulatedIsPending(c, prior, draft, Front(inputs), id);
      var past, i := Run(c, Begin(prior, draft), Front(inputs)), Last(inputs);
      if i.Tool? && !i.terminalRun {
        AccumulateStep(c, past, i.event, i.appends, id);
      }
    }
  }

  // ----- frames --------------------------------------------------------------------------------------

  ghost predicate FrameBefore(entries: seq<Entry>, k: nat, id: string) {
    exists i :: 0 <= i < k && i < |entries| && entries[i].AssistantFrame? && Lists(entries[i].frame.calls, id)
  }

  predicate IsTerminal(x: Entry) {
    x.LifecycleEntry? && (x.event.update.Completed? || x.event.update.Rejected?)
  }

  /** Completed and rejected calls come after a frame that lists them. */
  ghost predicate TerminalsFramed(entries: seq<Entry>, prior: nat) {
    forall k :: prior <= k < |entries| && IsTerminal(entries[k]) ==>
      FrameBefore(entries, k, entries[k].event.callId)
  }

  /** Every recorded batch index points at the very frame recorded for it. */
  ghost predicate BatchesPoint(s: State) {
    forall id :: id in s.batches ==>
      && s.batches[id].0 < |s.entries|
      && s.entries[s.batches[id].0] == AssistantFrame(s.batches[id].1)
      && Lists(s.batches[id].1.calls, id)
  }

  ghost predicate Framed(s: State, prior: nat) {
    TerminalsFramed(s.entries, prior) && BatchesPoint(s) && PendingOk(s)
  }

  lemma FramedAppend(p: Progress, x: Entry, prior: nat)
    requires Framed(p.state, prior)
    requires IsTerminal(x) ==> x.event.callId in p.state.batches
    ensures Framed(Append(p, x).state, prior)
  {
    if p.left > 0 {
      var s, t := p.state, Append(p, x).state;
      forall k | prior <= k < |t.entries| && IsTerminal(t.entries[k])
        ensures FrameBefore(t.entries, k, t.entries[k].event.callId)
      {
        var id := t.entries[k].event.callId;
        if k < |s.entries| {
          assert FrameBefore(s.entries, k, id);
          var i :| 0 <= i < k && i < |s.entries| && s.entries[i].AssistantFrame? && Lists(s.entries[i].frame.calls, id);
          assert t.entries[i] == s.entries[i];
        } else {
          var i := s.batches[id].0;
          assert t.entries[i] == AssistantFrame(s.batches[id].1);
        }
      }
    }
  }

  lemma FramedSegment(c: Config, p: Progress, calls: seq<ToolCall>, usage: Usage, key: string, prior: nat)
    requires Framed(p.state, prior)
    ensures Framed(PersistSegment(c, p, calls, usage, key).state, prior)
  {
    var q := PersistSegment(c, p, calls, usage, key);
    if key !in p.state.batches && c.hasStore && c.hasDrafts && p.state.draft.Some? {
      var frame := Frame(p.state.draft.value, calls, usage);
      FramedAppend(p, AssistantFrame(frame), prior);
      RecordedKeys(p.state.batches, calls, |p.state.entries|, frame);
    }
  }

  /** Holds whether or not the step fails: an error leaves no unframed terminal behind. */
  lemma FramedStep(c: Config, s: State, i: Input, prior: nat)
    requires Framed(s, prior)
    ensures Framed(Handle(c, s, i).state, prior)
  {
    match i
    case Tool(event, terminalRun, appends) =>
      if !terminalRun {
        FramedProcess(c, s, event, appends, prior);
      }
    case Note(text) =>
      FramedAppend(Progress(s, 1, None), Other(text), prior);
    case Redraft(_) =>
  }

  lemma FramedAbsorb(c: Config, p: Progress, e: Lifecycle, prior: nat)
    requires Framed(p.state, prior) && p.error.None?
    ensures Framed(Absorb(c, p, e).state, prior)
  {
    if !e.update.InputStreaming? && e.callId in p.state.pending && c.hasStore {
      var pending := p.state.pending;
      FramedAppend(p.(state := p.state.(pending := pending - {e.callId})), LifecycleEntry(pending[e.callId]), prior);
    }
  }

  lemma FramedFrames(c: Config, p: Progress, e: RunnerEvent, prior: nat)
    requires Framed(p.state, prior)
    ensures Framed(Frames(c, p, e).state, prior)
  {
    if e.batch.Some? && e.usage.Some? && e.batch.value != [] {
      FramedSegment(c, p, e.batch.value, e.usage.value, e.batch.value[0].id, prior);
    }
  }

  lemma FramedCommit(c: Config, p: Progress, e: Lifecycle, prior: nat)
    requires Framed(p.state, prior)
    ensures Framed(Commit(c, p, e).state, prior)
  {
    if NeedsFrame(e.update) ==> e.callId in p.state.batches {
      FramedAppend(p, LifecycleEntry(e), prior);
    }
  }

  lemma FramedProcess(c: Config, s: State, event: RunnerEvent, appends: nat, prior: nat)
    requires Framed(s, prior)
    ensures Framed(Process(c, s, event, false, appends).state, prior)
  {
    var p, l := Progress(s, appends, None), Stamped(c, event.lifecycle);
    FramedAbsorb(c, p, l, prior);
    FramedFrames(c, Absorb(c, p, l), event, prior);
    FramedCommit(c, Frames(c, Absorb(c, p, l), event), l, prior);
  }

  /** In every journal reachable by successful steps and at most one failing step, terminal entries are framed
      and recorded indices are exact. */
  lemma {:induction false} JournalsAreFramed(c: Config, prior: seq<Entry>, draft: Option<Draft>, inputs: seq<Input>)
    ensures var s := Run(c, Begin(prior, draft), inputs); TerminalsFramed(s.entries, |prior|) && BatchesPoint(s)
    ensures Framed(Run(c, Begin(prior, draft), inputs), |prior|)
  {
    if inputs != [] {
      JournalsAreFramed(c, prior, draft, Front(inputs));
      FramedStep(c, Run(c, Begin(prior, draft), Front(inputs)), Last(inputs), |prior|);
    }
  }
}
