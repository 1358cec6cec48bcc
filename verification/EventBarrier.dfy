/** The barrier between runner callbacks, the event forwarder and a waiter that checkpoints.

    Every shared access is its own step, so a run is any interleaving of callbacks, forwarder and waiter. */
module EventBarrier {
  import opened Sequences

  /** `Handling` holds an event and its drop guard; `Marked` is inside the guard's drop, between
      counting the event and notifying. */
  datatype Forwarder = Idle | Handling(event: nat) | Marked | Stopped

  /** The waiting loop, once per checkpoint: take the target, arm a notification, check the counter, block. `goal` and `quiet`
      record what was enqueued at the snapshot and whether no callback was between its two steps. */
  datatype Waiter =
    | NotStarted
    | Looping(target: nat, goal: seq<nat>, quiet: bool)
    | Armed(target: nat, goal: seq<nat>, quiet: bool, seen: nat)
    | Blocked(target: nat, goal: seq<nat>, quiet: bool, seen: nat)
    | Returned(target: nat, goal: seq<nat>, quiet: bool)

  /** `enqueued` and `handled` are the events ever queued and ever processed, in order; `midSend` counts
      callbacks that queued an event but have not counted it; `notified` numbers the notifications. */
  datatype Barrier = Barrier(
    sent: nat, processed: nat, notified: nat,
    queue: seq<nat>, midSend: nat, forwarder: Forwarder, waiter: Waiter,
    enqueued: seq<nat>, handled: seq<nat>)

  const START := Barrier(0, 0, 0, [], 0, Idle, NotStarted, [], [])

  datatype Step =
    | Enqueue(event: nat)
    | CountSent
    | Dequeue
    | CountProcessed
    | Notify(stop: bool)
    | Snapshot
    | Arm
    | Check
    | Wake

  predicate Enabled(b: Barrier, s: Step) {
    match s
    case Enqueue(_) => true
    case CountSent => b.midSend > 0
    case Dequeue => b.forwarder.Idle? && b.queue != []
    case CountProcessed => b.forwarder.Handling?
    case Notify(_) => b.forwarder.Marked?
    case Snapshot => b.waiter.NotStarted? || b.waiter.Returned?
    case Arm => b.waiter.Looping?
    case Check => b.waiter.Armed?
    case Wake => b.waiter.Blocked? && b.notified > b.waiter.seen
  }

  function Next(b: Barrier, s: Step): Barrier
    requires Enabled(b, s)
  {
    match s
    case Enqueue(e) =>
      // sending to a closed queue fails: the event is dropped and never counted
      if b.forwarder.Stopped? then b
      else b.(queue := b.queue + [e], enqueued := b.enqueued + [e], midSend := b.midSend + 1)
    case CountSent => b.(midSend := b.midSend - 1, sent := b.sent + 1)
    case Dequeue => b.(queue := b.queue[1..], forwarder := Handling(b.queue[0]))
    case CountProcessed =>
      b.(processed := b.processed + 1, handled := b.handled + [b.forwarder.event], forwarder := Marked)
    case Notify(stop) => b.(notified := b.notified + 1, forwarder := if stop then Stopped else Idle)
    case Snapshot => b.(waiter := Looping(b.sent, b.enqueued, b.midSend == 0))
    case Arm => b.(waiter := Armed(b.waiter.target, b.waiter.goal, b.waiter.quiet, b.notified))
    case Check =>
      var w := b.waiter;
      b.(waiter := if b.processed >= w.target then Returned(w.target, w.goal, w.quiet)
                   else Blocked(w.target, w.goal, w.quiet, w.seen))
    case Wake => b.(waiter := Looping(b.waiter.target, b.waiter.goal, b.waiter.quiet))
  }

  ghost predicate StepAt(states: seq<Barrier>, steps: seq<Step>, i: int) {
    && 0 <= i < |steps| && |states| == |steps| + 1
    && Enabled(states[i], steps[i]) && states[i + 1] == Next(states[i], steps[i])
  }

  ghost predicate IsRun(states: seq<Barrier>, steps: seq<Step>) {
    && |states| == |steps| + 1 && states[0] == START
    && forall i {:trigger StepAt(states, steps, i)} :: 0 <= i < |steps| ==> StepAt(states, steps, i)
  }

  // ----- what every step keeps --------------------------------------------------------------

  /** Nothing is lost or reordered between callbacks and forwarder. */
  ghost predicate Conserved(b: Barrier) {
    && b.sent + b.midSend == |b.enqueued|
    && b.processed == |b.handled|
    && b.handled <= b.enqueued
    && (!b.forwarder.Stopped? ==>
          b.enqueued == b.handled + (if b.forwarder.Handling? then [b.forwarder.event] else []) + b.queue)
  }

  ghost predicate WaiterSound(b: Barrier) {
    !b.waiter.NotStarted? ==>
      && b.waiter.goal <= b.enqueued
      && b.waiter.target <= |b.waiter.goal|
      && (b.waiter.quiet <==> b.waiter.target == |b.waiter.goal|)
      && (b.waiter.Returned? ==> b.processed >= b.waiter.target)
  }

  /** A waiter that no later notification will release is waiting for work, or for the second half
      of a mark that is under way. */
  ghost predicate NoLostWakeUp(b: Barrier) {
    && (b.waiter.Armed? || b.waiter.Blocked? ==> b.waiter.seen <= b.notified)
    && (b.waiter.Blocked? && b.waiter.seen == b.notified ==> b.processed < b.waiter.target || b.forwarder.Marked?)
  }

  ghost predicate Inv(b: Barrier) {
    Conserved(b) && WaiterSound(b) && NoLostWakeUp(b)
  }

  lemma StepConserves(b: Barrier, s: Step)
    requires Conserved(b) && Enabled(b, s)
    ensures Conserved(Next(b, s)) && b.enqueued <= Next(b, s).enqueued && b.processed <= Next(b, s).processed
  {
    match s
    case Enqueue(e) =>
      if !b.forwarder.Stopped? {
        var held := if b.forwarder.Handling? then [b.forwarder.event] else [];
        assert b.handled + held + b.queue + [e] == b.handled + held + (b.queue + [e]);
      }
    case Dequeue =>
      assert b.queue == [b.queue[0]] + b.queue[1..];
      assert b.handled + [] + b.queue == b.handled + [b.queue[0]] + b.queue[1..];
    case CountProcessed =>
      assert b.handled + [b.forwarder.event] <= b.enqueued;
    case _ =>
  }

  lemma StepKeepsInv(b: Barrier, s: Step)
    requires Inv(b) && Enabled(b, s)
    ensures Inv(Next(b, s))
  {
    StepConserves(b, s);
  }

  lemma {:induction false} RunKeepsInv(states: seq<Barrier>, steps: seq<Step>, n: nat)
    requires IsRun(states, steps) && n < |states|
    ensures Inv(states[n])
  {
    if n > 0 {
      RunKeepsInv(states, steps, n - 1);
      assert StepAt(states, steps, n - 1);
      StepKeepsInv(states[n - 1], steps[n - 1]);
    }
  }

  /** Once the waiter returns, the first `target` events are processed; if no callback was between its two steps at
      the snapshot, those are all the events enqueued before it. `WaitMissesExactly` is the exact condition. */
  lemma WaitCoversSnapshot(states: seq<Barrier>, steps: seq<Step>, n: nat)
    requires IsRun(states, steps) && n < |states| && states[n].waiter.Returned?
    ensures var b := states[n];
            && b.waiter.target <= |b.waiter.goal|
            && b.waiter.goal[..b.waiter.target] <= b.handled
            && (b.waiter.quiet ==> b.waiter.goal <= b.handled)
            && (b.waiter.quiet <==> b.waiter.target == |b.waiter.goal|)
  {
    RunKeepsInv(states, steps, n);
    var b := states[n];
    assert b.waiter.goal[..b.waiter.target] == b.enqueued[..b.waiter.target] == b.handled[..b.waiter.target];
  }

  /** Step `m` took the snapshot the waiter now goes by. */
  ghost predicate SnapshotAt(states: seq<Barrier>, steps: seq<Step>, n: nat, m: int)
    requires |states| == |steps| + 1 && n < |states| && !states[n].waiter.NotStarted?
  {
    && 0 <= m < n && steps[m] == Snapshot && (forall k :: m < k < n ==> steps[k] != Snapshot)
    && states[n].waiter.goal == states[m].enqueued && states[n].waiter.target == states[m].sent
    && (states[n].waiter.quiet <==> states[m].midSend == 0)
  }

  /** The waiter's goal and target are what had been enqueued and counted at the latest snapshot. */
  lemma {:induction false} GoalIsSnapshot(states: seq<Barrier>, steps: seq<Step>, n: nat) returns (m: nat)
    requires IsRun(states, steps) && n < |states| && !states[n].waiter.NotStarted?
    ensures SnapshotAt(states, steps, n, m)
  {
    assert StepAt(states, steps, n - 1);
    if steps[n - 1] == Snapshot {
      m := n - 1;
    } else {
      m := GoalIsSnapshot(states, steps, n - 1);
    }
  }

  /** In every reachable state a waiter whose target is met is never stuck: it can wake now, or as soon as the
      forwarder finishes the mark it has started. */
  lemma SatisfiedWaiterWakes(states: seq<Barrier>, steps: seq<Step>, n: nat, stop: bool)
    requires IsRun(states, steps) && n < |states|
    requires states[n].waiter.Blocked? && states[n].processed >= states[n].waiter.target
    ensures Enabled(states[n], Wake) ||
            (Enabled(states[n], Notify(stop)) && Enabled(Next(states[n], Notify(stop)), Wake))
  {
    RunKeepsInv(states, steps, n);
  }

  /** A snapshot taken while a callback is between its steps can return before that event is processed. */
  lemma MidSendSnapshotMisses(e: nat)
    ensures exists states, steps :: IsRun(states, steps) && Last(states).waiter.Returned?
                                    && Last(states).waiter.goal == [e] && Last(states).handled == []
  {
    var b1 := Next(START, Enqueue(e));
    var b2 := Next(b1, Snapshot);
    var b3 := Next(b2, Arm);
    var b4 := Next(b3, Check);
    var states, steps := [START, b1, b2, b3, b4], [Enqueue(e), Snapshot, Arm, Check];
    assert IsRun(states, steps);
    assert Last(states).waiter.Returned? && Last(states).waiter.goal == [e] && Last(states).handled == [];
  }

  // ----- what can still happen to a wait ----------------------------------------------------

  /** `steps` lead from `b` to `c` within one wait. */
  ghost predicate Leads(b: Barrier, steps: seq<Step>, c: Barrier)
    decreases |steps|
  {
    if steps == [] then b == c
    else steps[0] != Snapshot && Enabled(b, steps[0]) && Leads(Next(b, steps[0]), steps[1..], c)
  }

  lemma LeadsBy(b: Barrier, s: Step, rest: seq<Step>, c: Barrier)
    requires s != Snapshot && Enabled(b, s) && Leads(Next(b, s), rest, c)
    ensures Leads(b, [s] + rest, c)
  {
    assert ([s] + rest)[1..] == rest;
  }

  lemma {:induction false} LeadsOn(b: Barrier, first: seq<Step>, c: Barrier, second: seq<Step>, d: Barrier)
    requires Leads(b, first, c) && Leads(c, second, d)
    ensures Leads(b, first + second, d)
    decreases |first|
  {
    if first == [] {
      assert first + second == second;
    } else {
      LeadsOn(Next(b, first[0]), first[1..], c, second, d);
      assert (first + second)[1..] == first[1..] + second;
    }
  }

  /** Along a wait events are only added and handled, the goal stays, and once the forwarder has stopped
      nothing more is queued or handled. */
  ghost predicate Follows(b: Barrier, c: Barrier) {
    && b.enqueued <= c.enqueued && b.handled <= c.handled
    && !b.waiter.NotStarted? && !c.waiter.NotStarted? && c.waiter.goal == b.waiter.goal && c.waiter.target == b.waiter.target
    && (b.forwarder.Stopped? ==> c.forwarder.Stopped? && c.handled == b.handled && c.enqueued == b.enqueued)
  }

  lemma StepFollows(b: Barrier, s: Step)
    requires Enabled(b, s) && s != Snapshot && !b.waiter.NotStarted?
    ensures Follows(b, Next(b, s))
  {
  }

  lemma {:induction false} LeadsFollows(b: Barrier, steps: seq<Step>, c: Barrier)
    requires Inv(b) && !b.waiter.NotStarted? && Leads(b, steps, c)
    ensures Inv(c) && Follows(b, c)
    decreases |steps|
  {
    if steps != [] {
      StepKeepsInv(b, steps[0]);
      StepFollows(b, steps[0]);
      LeadsFollows(Next(b, steps[0]), steps[1..], c);
    }
  }

  /** A running forwarder can handle exactly the first `n` events enqueued. */
  lemma {:induction false} ForwarderCanReach(b: Barrier, n: nat) returns (steps: seq<Step>, c: Barrier)
    requires Inv(b) && !b.forwarder.Stopped? && b.processed <= n <= |b.enqueued|
    ensures Leads(b, steps, c) && Inv(c) && c.processed == n && c.waiter == b.waiter && c.enqueued == b.enqueued
    decreases n - b.processed, if b.forwarder.Marked? then 2 else if b.forwarder.Idle? then 1 else 0
  {
    if b.processed == n {
      return [], b;
    }
    var s := if b.forwarder.Marked? then Notify(false) else if b.forwarder.Idle? then Dequeue else CountProcessed;
    assert b.forwarder.Idle? ==> b.queue != [];
    StepKeepsInv(b, s);
    var rest;
    rest, c := ForwarderCanReach(Next(b, s), n);
    LeadsBy(b, s, rest, c);
    steps := [s] + rest;
  }

  predicate Waiting(b: Barrier) {
    b.waiter.Looping? || b.waiter.Armed? || b.waiter.Blocked?
  }

  /** A waiter whose target is met can return without another event being handled. */
  lemma {:induction false} SatisfiedCanReturn(b: Barrier) returns (steps: seq<Step>, c: Barrier)
    requires Inv(b) && Waiting(b) && b.processed >= b.waiter.target
    ensures Leads(b, steps, c) && c.waiter.Returned? && c.handled == b.handled && c.waiter.goal == b.waiter.goal
    decreases if b.waiter.Armed? then 0 else if b.waiter.Looping? then 1 else if b.notified > b.waiter.seen then 2 else 3
  {
    var s := if b.waiter.Armed? then Check else if b.waiter.Looping? then Arm
             else if b.notified > b.waiter.seen then Wake else Notify(false);
    StepKeepsInv(b, s);
    if b.waiter.Armed? {
      c := Next(b, s);
      LeadsBy(b, s, [], c);
      return [s], c;
    }
    var rest;
    rest, c := SatisfiedCanReturn(Next(b, s));
    LeadsBy(b, s, rest, c);
    steps := [s] + rest;
  }

  ghost predicate CanReturn(b: Barrier) {
    exists steps, c :: Leads(b, steps, c) && c.waiter.Returned?
  }

  /** A wait can still return exactly when its target is met or the forwarder still runs. */
  lemma WaitCanReturn(b: Barrier)
    requires Inv(b) && Waiting(b)
    ensures CanReturn(b) <==> b.processed >= b.waiter.target || !b.forwarder.Stopped?
  {
    if b.processed >= b.waiter.target {
      var steps, c := SatisfiedCanReturn(b);
    } else if !b.forwarder.Stopped? {
      var first, m := ForwarderCanReach(b, b.waiter.target);
      var second, c := SatisfiedCanReturn(m);
      LeadsOn(b, first, m, second, c);
    } else if CanReturn(b) {
      var steps, c :| Leads(b, steps, c) && c.waiter.Returned?;
      LeadsFollows(b, steps, c);
    }
  }

  ghost predicate CanMiss(b: Barrier) {
    exists steps, c :: Leads(b, steps, c) && c.waiter.Returned? && !(c.waiter.goal <= c.handled)
  }

  /** What the snapshot can miss: some callback has queued an event it has not counted, not everything queued is
      handled, and the counted part is handled or still will be. */
  predicate AtRisk(b: Barrier) {
    b.midSend > 0 && b.processed < |b.enqueued| && (b.processed >= b.sent || !b.forwarder.Stopped?)
  }

  lemma MissNeedsRisk(b: Barrier, steps: seq<Step>, c: Barrier)
    requires Inv(b) && Enabled(b, Snapshot) && Leads(Next(b, Snapshot), steps, c)
    requires c.waiter.Returned? && !(c.waiter.goal <= c.handled)
    ensures AtRisk(b)
  {
    StepKeepsInv(b, Snapshot);
    LeadsFollows(Next(b, Snapshot), steps, c);
    PrefixesNest(c.waiter.goal, c.handled, c.enqueued);
  }

  lemma PrefixesNest(a: seq<nat>, b: seq<nat>, all: seq<nat>)
    requires a <= all && b <= all
    ensures a <= b || |b| < |a|
  {
    assert |a| <= |b| ==> a == all[..|a|] == b[..|a|];
  }

  lemma RiskCanMiss(b: Barrier)
    requires Inv(b) && Enabled(b, Snapshot) && AtRisk(b)
    ensures CanMiss(Next(b, Snapshot))
  {
    var w := Next(b, Snapshot);
    StepKeepsInv(b, Snapshot);
    var first, m := [], w;
    if b.processed < b.sent {
      first, m := ForwarderCanReach(w, b.sent);
    }
    var second, c := SatisfiedCanReturn(m);
    LeadsOn(w, first, m, second, c);
    assert |c.handled| < |c.waiter.goal|;
  }

  /** In every reachable state: the wait that starts now can return with an event missing that was queued before its
      snapshot exactly when the snapshot is at risk. */
  lemma WaitMissesExactly(states: seq<Barrier>, steps: seq<Step>, n: nat)
    requires IsRun(states, steps) && n < |states| && Enabled(states[n], Snapshot)
    ensures CanMiss(Next(states[n], Snapshot)) <==> AtRisk(states[n])
  {
    var b := states[n];
    RunKeepsInv(states, steps, n);
    if AtRisk(b) {
      RiskCanMiss(b);
    }
    if CanMiss(Next(b, Snapshot)) {
      var more, c :| Leads(Next(b, Snapshot), more, c) && c.waiter.Returned? && !(c.waiter.goal <= c.handled);
      MissNeedsRisk(b, more, c);
    }
  }
}
