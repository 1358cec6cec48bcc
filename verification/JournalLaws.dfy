/** What a journal reader relies on: coalesced input, frame contents, error answers and the list of active calls. */
module JournalLaws {
  import opened Ordering
  import opened Sequences
  import opened Journal
  import opened JournalHistory

  // ----- coalesced input ------------------------------------------------------------------------------------

  function Deltas(run: seq<Lifecycle>): string
    requires forall e :: e in run ==> e.update.InputStreaming?
  {
    if run == [] then "" else Deltas(Front(run)) + Last(run).update.delta
  }

  /** The entry for a run of streaming events: all deltas in order, identity from the first, the rest from the last. */
  ghost predicate Coalesces(x: Lifecycle, run: seq<Lifecycle>) {
    && run != [] && (forall e :: e in run ==> e.update.InputStreaming?)
    && x.update.InputStreaming? && x.update.delta == Deltas(run)
    && x.callId == run[0].callId && x.toolName == run[0].toolName && x.runId == run[0].runId
    && x.sequence == Last(run).sequence && x.emittedAt == Last(run).emittedAt && x.budget == Last(run).budget
  }

  function Flatten(runs: seq<seq<Lifecycle>>): seq<Lifecycle> {
    if runs == [] then [] else Flatten(Front(runs)) + Last(runs)
  }

  ghost predicate EntryFor(x: Lifecycle, run: seq<Lifecycle>) {
    Coalesces(x, run) || (run == [x] && !x.update.InputStreaming?)
  }

  /** `runs` cuts the events into single events and longest stretches of streaming, and `merged` has one entry for each. */
  ghost predicate IsMerged(events: seq<Lifecycle>, merged: seq<Lifecycle>, runs: seq<seq<Lifecycle>>) {
    && Flatten(runs) == events && |runs| == |merged|
    && (forall k :: 0 <= k < |runs| ==> EntryFor(merged[k], runs[k]))
    && (forall k :: 0 < k < |runs| ==> !(merged[k - 1].update.InputStreaming? && merged[k].update.InputStreaming?))
  }

  lemma CoalescesOne(e: Lifecycle)
    requires e.update.InputStreaming?
    ensures Coalesces(e, [e])
  {
    assert Front([e]) == [] && Deltas([]) == "";
    assert "" + e.update.delta == e.update.delta;
  }

  lemma CoalescesMore(x: Lifecycle, run: seq<Lifecycle>, e: Lifecycle)
    requires Coalesces(x, run) && e.update.InputStreaming?
    ensures Coalesces(Combine(x, e), run + [e])
  {
    FrontAppend(run, e);
    assert (run + [e])[0] == run[0];
  }

  lemma FlattenAppend(runs: seq<seq<Lifecycle>>, run: seq<Lifecycle>)
    ensures Flatten(runs + [run]) == Flatten(runs) + run
  {
    FrontAppend(runs, run);
  }

  lemma MergedApart(events: seq<Lifecycle>, merged: seq<Lifecycle>, runs: seq<seq<Lifecycle>>, e: Lifecycle)
    requires IsMerged(events, merged, runs)
    requires e.update.InputStreaming? ==> merged == [] || !Last(merged).update.InputStreaming?
    ensures IsMerged(events + [e], merged + [e], runs + [[e]])
  {
    FlattenAppend(runs, [e]);
    if e.update.InputStreaming? {
      CoalescesOne(e);
    }
    assert forall k :: 0 <= k < |merged| ==> (merged + [e])[k] == merged[k] && (runs + [[e]])[k] == runs[k];
  }

  lemma MergedOn(events: seq<Lifecycle>, merged: seq<Lifecycle>, runs: seq<seq<Lifecycle>>, e: Lifecycle)
    requires IsMerged(events, merged, runs) && e.update.InputStreaming? && merged != [] && Last(merged).update.InputStreaming?
    ensures IsMerged(events + [e], Front(merged) + [Combine(Last(merged), e)], Front(runs) + [Last(runs) + [e]])
  {
    var n := |runs| - 1;
    assert EntryFor(merged[n], runs[n]);
    CoalescesMore(Last(merged), Last(runs), e);
    FlattenAppend(Front(runs), Last(runs) + [e]);
    assert Flatten(Front(runs)) + (Last(runs) + [e]) == Flatten(Front(runs)) + Last(runs) + [e];
    var m, r := Front(merged) + [Combine(Last(merged), e)], Front(runs) + [Last(runs) + [e]];
    assert forall k :: 0 <= k < n ==> m[k] == merged[k] && r[k] == runs[k];
  }

  lemma {:induction false} MergeCoalesces(events: seq<Lifecycle>) returns (runs: seq<seq<Lifecycle>>)
    ensures IsMerged(events, Merge(events), runs)
  {
    if events == [] {
      runs := [];
    } else {
      var past, e := Merge(Front(events)), Last(events);
      var before := MergeCoalesces(Front(events));
      assert events == Front(events) + [e];
      if e.update.InputStreaming? && past != [] && Last(past).update.InputStreaming? {
        runs := Front(before) + [Last(before) + [e]];
        MergedOn(Front(events), past, before, e);
      } else {
        runs := before + [[e]];
        MergedApart(Front(events), past, before, e);
      }
    }
  }

  /** For every successful run and every call: its journalled entries and then its pending input have one entry for each
      longest stretch of streaming events, holding the stretch's deltas in order, and one for each other event. */
  lemma JournalCoalescesStreams(c: Config, prior: seq<Entry>, draft: Option<Draft>, inputs: seq<Input>, id: string)
    returns (runs: seq<seq<Lifecycle>>)
    requires c.hasStore && Succeeds(c, Begin(prior, draft), inputs)
    ensures var s := Run(c, Begin(prior, draft), inputs);
            IsMerged(Stream(c, inputs, id), Written(s.entries, |prior|, id) + PendingOf(s, id), runs)
  {
    JournalIsMergedStream(c, prior, draft, inputs, id);
    runs := MergeCoalesces(Stream(c, inputs, id));
  }

  // ----- frames -----------------------------------------------------------------------------------------------

  /** A frame holds the draft as it stands, the announced calls and their usage; its index is recorded for each of them;
      and the draft goes on with the same header and no content. Nothing else touches draft or records. */
  lemma FrameContents(c: Config, s: State, e: RunnerEvent, appends: nat)
    requires c.hasStore && PendingOk(s) && Process(c, s, e, false, appends).error.None?
    ensures var t := Process(c, s, e, false, appends).state;
            if e.lifecycle.update.InputReady? && e.batch.value[0].id !in s.batches then
              var at, calls := |s.entries| + |Flushed(s, e.lifecycle.callId)|, e.batch.value;
              && s.draft.Some? && e.usage.Some? && at < |t.entries|
              && t.entries[at] == AssistantFrame(Frame(s.draft.value, calls, e.usage.value))
              && t.draft == Some(Draft(s.draft.value.header, ""))
              && (forall call :: call in calls ==>
                    call.id in t.batches && t.batches[call.id] == (at, Frame(s.draft.value, calls, e.usage.value)))
              && (forall id :: id in s.batches && (forall call :: call in calls ==> call.id != id) ==>
                    id in t.batches && t.batches[id] == s.batches[id])
            else t.draft == s.draft && t.batches == s.batches
  {
    Effect(c, s, e, appends);
    if e.lifecycle.update.InputReady? && e.batch.value[0].id !in s.batches {
      var calls := e.batch.value;
      var at, frame := |s.entries| + |Flushed(s, e.lifecycle.callId)|, Frame(s.draft.value, calls, e.usage.value);
      RecordedKeys(s.batches, calls, at, frame);
      forall call | call in calls ensures Lists(calls, call.id) {}
    }
  }

  // ----- which events fail, and how ---------------------------------------------------------------------------

  ghost function BatchFault(c: Config, s: State, e: RunnerEvent): Option<Error> {
    if e.batch.None? then Some(MissingBatch)
    else if e.usage.None? then Some(MissingUsage)
    else if |e.batch.value| == 0 then Some(EmptyBatch)
    else if e.batch.value[0].id in s.batches then None
    else if c.hasStore != c.hasDrafts then Some(InconsistentStores)
    else if c.hasStore && s.draft.None? then Some(MissingDraft)
    else None
  }

  /** The pending input is written first, then the frame if the batch needs one, then the event. */
  ghost function Fault(c: Config, s: State, e: RunnerEvent, appends: nat): Option<Error> {
    var u, id := e.lifecycle.update, e.lifecycle.callId;
    var flush := if c.hasStore && id in s.pending then 1 else 0;
    if u.InputStreaming? then None
    else if appends < flush then Some(AppendFailed)
    else if u.InputReady? && BatchFault(c, s, e).Some? then BatchFault(c, s, e)
    else
      var frame := if u.InputReady? && c.hasStore && e.batch.value[0].id !in s.batches then 1 else 0;
      if appends < flush + frame then Some(AppendFailed)
      else if (u.Completed? || u.Rejected?) && c.hasStore && id !in s.batches then Some(NoCanonicalFrame)
      else if c.hasStore && appends < flush + frame + 1 then Some(AppendFailed)
      else None
  }

  /** The error of an event, for every configuration, state and number of writes that succeed; events of a run that has
      ended change nothing. */
  lemma FaultExactly(c: Config, s: State, e: RunnerEvent, appends: nat)
    requires PendingOk(s)
    ensures Process(c, s, e, false, appends).error == Fault(c, s, e, appends)
    ensures Process(c, s, e, true, appends).state == s && Process(c, s, e, true, appends).error.None?
  {
  }

  // ----- active calls -------------------------------------------------------------------------------------------

  ghost predicate OnePerCall(active: seq<Invocation>) {
    forall i, j :: 0 <= i < j < |active| ==> active[i].lifecycle.callId != active[j].lifecycle.callId
  }

  /** The invocations of all other calls, in order. */
  function Others(active: seq<Invocation>, id: string): seq<Invocation> {
    if active == [] then []
    else Others(Front(active), id) + if Last(active).lifecycle.callId == id then [] else [Last(active)]
  }

  lemma {:induction false} OthersConcat(a: seq<Invocation>, b: seq<Invocation>, id: string)
    ensures Others(a + b, id) == Others(a, id) + Others(b, id)
  {
    if b == [] {
      assert a + b == a;
    } else {
      FrontConcat(a, b);
      OthersConcat(a, Front(b), id);
    }
  }

  lemma OthersOne(x: Invocation, id: string)
    ensures Others([x], id) == if x.lifecycle.callId == id then [] else [x]
  {
    assert Front([x]) == [];
  }

  lemma {:induction false} WithoutIsOthers(active: seq<Invocation>, id: string)
    ensures Without(active, id) == Others(active, id)
  {
    if active != [] {
      WithoutIsOthers(active[1..], id);
      OthersConcat([active[0]], active[1..], id);
      OthersOne(active[0], id);
      assert active == [active[0]] + active[1..];
    }
  }

  ghost predicate Absent(active: seq<Invocation>, id: string) {
    forall x :: x in active ==> x.lifecycle.callId != id
  }

  lemma {:induction false} OthersWhenAbsent(active: seq<Invocation>, id: string)
    requires Absent(active, id)
    ensures Others(active, id) == active
  {
    if active != [] {
      assert Last(active) in active;
      assert Absent(Front(active), id) by {
        forall x | x in Front(active) ensures x in active {}
      }
      OthersWhenAbsent(Front(active), id);
      FrontLast(active);
    }
  }

  lemma FrontLast(active: seq<Invocation>)
    requires active != []
    ensures active == Front(active) + [Last(active)]
  {
  }

  lemma OthersReplaced(active: seq<Invocation>, x: Invocation, i: nat)
    requires i < |active| && active[i].lifecycle.callId == x.lifecycle.callId
    ensures Others(active[i := x], x.lifecycle.callId) == Others(active, x.lifecycle.callId)
  {
    var id := x.lifecycle.callId;
    assert active == active[..i] + [active[i]] + active[i + 1..];
    assert active[i := x] == active[..i] + [x] + active[i + 1..];
    OthersConcat(active[..i] + [active[i]], active[i + 1..], id);
    OthersConcat(active[..i] + [x], active[i + 1..], id);
    OthersConcat(active[..i], [active[i]], id);
    OthersConcat(active[..i], [x], id);
    OthersOne(active[i], id);
    OthersOne(x, id);
  }

  lemma {:induction false} WithoutIsUnique(active: seq<Invocation>, id: string)
    requires OnePerCall(active)
    ensures OnePerCall(Without(active, id))
    ensures forall x :: x in Without(active, id) <==> x in active && x.lifecycle.callId != id
  {
    if active != [] {
      var rest := Without(active[1..], id);
      WithoutIsUnique(active[1..], id);
      if active[0].lifecycle.callId != id {
        forall j | 0 <= j < |rest| ensures rest[j].lifecycle.callId != active[0].lifecycle.callId {
          assert rest[j] in rest;
        }
      }
    }
  }

  /** Ended calls leave the list and nothing else changes. */
  lemma EndedCallLeaves(active: seq<Invocation>, e: Lifecycle, budget: Option<Budget>)
    requires OnePerCall(active) && (e.update.Completed? || e.update.Rejected? || e.update.Cancelled?)
    ensures OnePerCall(Track(active, e, budget)) && Track(active, e, budget) == Others(active, e.callId)
    ensures Absent(Track(active, e, budget), e.callId)
  {
    WithoutIsOthers(active, e.callId);
    WithoutIsUnique(active, e.callId);
  }

  /** The call is shown at `i` with the event, the budget, and accumulated text only while input streams. */
  ghost predicate ShowsAt(shown: seq<Invocation>, i: nat, e: Lifecycle, budget: Option<Budget>) {
    && i < |shown| && shown[i].lifecycle == e && shown[i].budget == budget
    && (shown[i].accumulated.Some? <==> e.update.InputStreaming?)
  }

  lemma ReplacedOnce(active: seq<Invocation>, x: Invocation, i: nat)
    requires OnePerCall(active) && i < |active| && active[i].lifecycle.callId == x.lifecycle.callId
    ensures OnePerCall(active[i := x])
  {
  }

  lemma AppendedOnce(active: seq<Invocation>, x: Invocation)
    requires OnePerCall(active) && Position(active, x.lifecycle.callId).None?
    ensures OnePerCall(active + [x])
  {
  }

  /** Any other event shows its call once, in its old place or else last. All other calls stay as they are, in order. */
  lemma LiveCallShows(active: seq<Invocation>, e: Lifecycle, budget: Option<Budget>) returns (i: nat)
    requires OnePerCall(active) && !(e.update.Completed? || e.update.Rejected? || e.update.Cancelled?)
    ensures OnePerCall(Track(active, e, budget)) && ShowsAt(Track(active, e, budget), i, e, budget)
    ensures Others(Track(active, e, budget), e.callId) == Others(active, e.callId)
    ensures if Absent(active, e.callId) then i == |active| else i < |active| && active[i].lifecycle.callId == e.callId
  {
    var shown, at := Track(active, e, budget), Position(active, e.callId);
    if at.Some? {
      i := at.value;
      assert active[i] in active;
      OthersReplaced(active, shown[i], i);
      ReplacedOnce(active, shown[i], i);
    } else {
      i := |active|;
      AppendedOnce(active, shown[i]);
      OthersConcat(active, [shown[i]], e.callId);
      OthersOne(shown[i], e.callId);
      forall x | x in active ensures x.lifecycle.callId != e.callId {
        var k :| 0 <= k < |active| && active[k] == x;
      }
    }
  }

  /** The list of active calls shows every call at most once, and takes up each accepted event stamped with the run. */
  lemma {:induction false} ActiveCalls(c: Config, prior: seq<Entry>, draft: Option<Draft>, inputs: seq<Input>)
    requires c.tracksActive && Succeeds(c, Begin(prior, draft), inputs)
    ensures OnePerCall(Run(c, Begin(prior, draft), inputs).active)
    ensures inputs != [] && Last(inputs).Tool? && !Last(inputs).terminalRun ==>
              Run(c, Begin(prior, draft), inputs).active ==
              Track(Run(c, Begin(prior, draft), Front(inputs)).active,
                    Last(inputs).event.lifecycle.(runId := Some(c.runId)), Last(inputs).event.budget)
  {
    if inputs != [] {
      ActiveCalls(c, prior, draft, Front(inputs));
      var past, i := Run(c, Begin(prior, draft), Front(inputs)), Last(inputs);
      if i.Tool? && !i.terminalRun {
        AlwaysPendingOk(c, prior, draft, Front(inputs));
        PendingEffect(c, past, i.event, i.appends);
        var l := i.event.lifecycle.(runId := Some(c.runId));
        if l.update.Completed? || l.update.Rejected? || l.update.Cancelled? {
          EndedCallLeaves(past.active, l, i.event.budget);
        } else {
          var at := LiveCallShows(past.active, l, i.event.budget);
        }
      }
    }
  }

  lemma AlwaysPendingOk(c: Config, prior: seq<Entry>, draft: Option<Draft>, inputs: seq<Input>)
    ensures PendingOk(Run(c, Begin(prior, draft), inputs))
  {
    JournalsAreFramed(c, prior, draft, inputs);
  }
}
