/** Every interleaving of permission gates, resolvers and session drops, over all sessions and runs.

    A gate pauses the clock of its run, registers, waits, and on any exit resumes that clock. */
module PermissionProtocol {
  import opened Sequences
  import opened PermissionGate
  import opened Text
  import TimeoutClock

  datatype GateResult = Decided(decision: Decision) | Cancelled

  /** `Received` has left the channel but not yet removed its key; `Cancelling` has dropped its
      receiver but not yet dropped its session's slots. */
  datatype GateState =
    | Entered
    | Waiting
    | Received(result: GateResult)
    | Cancelling
    | Leaving(result: GateResult)
    | Finished(result: GateResult)

  datatype Gate = Gate(view: Request, state: GateState)

  /** A resolve call that reached the channel of `gate`. */
  datatype Resolution = Resolution(session: string, call: string, phase: Phase, decision: Decision, gate: nat)

  datatype System = System(
    manager: Manager,
    gates: map<nat, Gate>,
    marks: map<string, seq<TimeoutClock.Mark>>,
    log: seq<Resolution>)

  datatype Action =
    | Enter(gate: nat, view: Request)
    | RegisterGate(gate: nat)
    | ResolveCall(session: string, call: string, phase: Phase, decision: Decision)
    | DropCall(session: string)
    | Receive(gate: nat)
    | Cleanup(gate: nat)
    | Cancel(gate: nat)
    | CancelDrop(gate: nat)
    | Leave(gate: nat)

  const START := System(Manager(map[], map[]), map[], map[], [])

  predicate InFlight(g: Gate) {
    !g.state.Finished?
  }

  /** The gates of one run that are in flight. */
  function Flying(gates: map<nat, Gate>, run: string): set<nat> {
    set g | g in gates && InFlight(gates[g]) && gates[g].view.runId == run
  }

  /** What happened to the clock of a run. */
  function MarksOf(s: System, run: string): seq<TimeoutClock.Mark> {
    if run in s.marks then s.marks[run] else []
  }

  function MarkRun(s: System, run: string, m: TimeoutClock.Mark): System {
    s.(marks := s.marks[run := MarksOf(s, run) + [m]])
  }

  predicate SameRequest(a: Request, b: Request) {
    a.session == b.session && a.call == b.call && a.phase == b.phase
  }

  predicate At(s: System, g: nat, state: GateState) {
    g in s.gates && s.gates[g].state == state
  }

  /** When an action can happen. Callers owe colon-free call ids and, on `Enter`, a request that no gate
      in flight is already making. */
  predicate Enabled(s: System, a: Action) {
    match a
    case Enter(g, view) =>
      g !in s.gates && ':' !in view.call
      && forall h :: h in s.gates && InFlight(s.gates[h]) ==> !SameRequest(s.gates[h].view, view)
    case RegisterGate(g) => At(s, g, Entered)
    case ResolveCall(_, call, _, _) => ':' !in call
    case DropCall(_) => true
    case Receive(g) => At(s, g, Waiting) && g in s.manager.channels && !s.manager.channels[g].Open?
    case Cleanup(g) => g in s.gates && s.gates[g].state.Received?
    case Cancel(g) => At(s, g, Waiting) || (g in s.gates && s.gates[g].state.Received?)
    case CancelDrop(g) => At(s, g, Cancelling)
    case Leave(g) => g in s.gates && s.gates[g].state.Leaving?
  }

  function MoveGate(s: System, g: nat, state: GateState): System
    requires g in s.gates
  {
    s.(gates := s.gates[g := s.gates[g].(state := state)])
  }

  function Next(s: System, a: Action, now: nat): System
    requires Enabled(s, a)
  {
    match a
    case Enter(g, view) =>
      MarkRun(s.(gates := s.gates[g := Gate(view, Entered)]), view.runId, TimeoutClock.Mark(now, true))
    case RegisterGate(g) =>
      MoveGate(s.(manager := Register(s.manager, s.gates[g].view, g)), g, Waiting)
    case ResolveCall(session, call, phase, decision) =>
      var (m, r) := Resolve(s.manager, session, call, phase, decision);
      if r.Resolved?
      then s.(manager := m,
              log := s.log + [Resolution(session, call, phase, decision,
                                         s.manager.pending[RequestKey(session, call, phase)].channel)])
      else s
    case DropCall(session) => s.(manager := DropSession(s.manager, session))
    case Receive(g) =>
      var ch := s.manager.channels[g];
      MoveGate(s, g, Received(if ch.Sent? then Decided(ch.decision) else Cancelled))
    case Cleanup(g) =>
      MoveGate(s.(manager := Forget(s.manager, KeyOf(s.gates[g].view))), g, Leaving(s.gates[g].state.result))
    case Cancel(g) => MoveGate(s, g, Cancelling)
    case CancelDrop(g) =>
      MoveGate(s.(manager := DropSession(s.manager, s.gates[g].view.session)), g, Leaving(Cancelled))
    case Leave(g) =>
      MarkRun(MoveGate(s, g, Finished(s.gates[g].state.result)), s.gates[g].view.runId, TimeoutClock.Mark(now, false))
  }

  // ----- the invariant --------------------------------------------------------------------

  /** Gates in flight make different requests, so they use different keys. */
  ghost predicate Distinct(s: System) {
    && (forall g :: g in s.gates ==> ':' !in s.gates[g].view.call)
    && (forall g, h :: g in s.gates && h in s.gates && g != h && InFlight(s.gates[g]) && InFlight(s.gates[h]) ==>
          !SameRequest(s.gates[g].view, s.gates[h].view))
  }

  /** The slot under `k` belongs to a gate that waits, or is about to drop it, with an untouched channel. */
  ghost predicate SlotOwned(s: System, k: string)
    requires k in s.manager.pending
  {
    var slot := s.manager.pending[k];
    && slot.channel in s.gates && s.gates[slot.channel].view == slot.view && k == KeyOf(slot.view)
    && (s.gates[slot.channel].state.Waiting? || s.gates[slot.channel].state.Cancelling?)
    && slot.channel in s.manager.channels && s.manager.channels[slot.channel].Open?
  }

  ghost predicate Owned(s: System) {
    forall k :: k in s.manager.pending ==> SlotOwned(s, k)
  }

  /** A gate and its channel agree; an open channel of a waiting or cancelling gate still has its slot. */
  ghost predicate GateTracked(s: System, g: nat)
    requires g in s.gates
  {
    var gate := s.gates[g];
    && (gate.state.Entered? <==> g !in s.manager.channels)
    && (gate.state.Received? ==> !s.manager.channels[g].Open?)
    && ((gate.state.Waiting? || gate.state.Cancelling?) && s.manager.channels[g].Open? ==>
          KeyOf(gate.view) in s.manager.pending && s.manager.pending[KeyOf(gate.view)].channel == g)
    && (gate.state.Received? || gate.state.Leaving? || gate.state.Finished? ==>
          (gate.state.result.Decided? ==> s.manager.channels[g] == Sent(gate.state.result.decision)))
  }

  ghost predicate Tracked(s: System) {
    && (forall g :: g in s.gates ==> GateTracked(s, g))
    && s.manager.channels.Keys <= s.gates.Keys
  }

  /** Each logged resolution names the request of the one gate whose channel it filled. */
  ghost predicate Logged(s: System) {
    && (forall i :: 0 <= i < |s.log| ==>
          && s.log[i].gate in s.gates
          && Names(s.log[i], s.gates[s.log[i].gate].view)
          && s.log[i].gate in s.manager.channels && s.manager.channels[s.log[i].gate] == Sent(s.log[i].decision))
    && (forall i, j :: 0 <= i < j < |s.log| ==> s.log[i].gate != s.log[j].gate)
    && (forall g :: g in s.manager.channels && s.manager.channels[g].Sent? ==>
          exists i :: 0 <= i < |s.log| && s.log[i].gate == g)
  }

  predicate Names(r: Resolution, view: Request) {
    r.session == view.session && r.call == view.call && r.phase == view.phase
  }

  /** The clock of a run is paused once per gate of that run in flight. */
  ghost predicate CountedRun(s: System, run: string) {
    TimeoutClock.Balanced(MarksOf(s, run)) && TimeoutClock.Net(MarksOf(s, run)) == |Flying(s.gates, run)|
  }

  ghost predicate Counted(s: System) {
    forall run :: CountedRun(s, run)
  }

  ghost predicate MarkedBy(s: System, now: nat) {
    forall run :: MarksOf(s, run) != [] ==> Last(MarksOf(s, run)).now <= now
  }

  ghost predicate Inv(s: System) {
    Distinct(s) && Owned(s) && Tracked(s) && Logged(s) && Counted(s)
  }

  /** Slots found under a gate's key while it is in flight are its own. */
  lemma KeyIsMine(s: System, g: nat)
    requires Distinct(s) && Owned(s) && g in s.gates && InFlight(s.gates[g])
    ensures KeyOf(s.gates[g].view) in s.manager.pending ==>
              && s.manager.pending[KeyOf(s.gates[g].view)].channel == g
              && (s.gates[g].state.Waiting? || s.gates[g].state.Cancelling?)
  {
    var key := KeyOf(s.gates[g].view);
    if key in s.manager.pending {
      assert SlotOwned(s, key);
      var v, w := s.gates[g].view, s.manager.pending[key].view;
      KeyInjective(v.session, v.call, v.phase, w.session, w.call, w.phase);
    }
  }

  lemma DistinctKept(s: System, a: Action, now: nat)
    requires Distinct(s) && Enabled(s, a)
    ensures Distinct(Next(s, a, now))
  {
  }

  lemma MarkAppends(marks: seq<TimeoutClock.Mark>, m: TimeoutClock.Mark)
    requires TimeoutClock.Balanced(marks) && (marks != [] ==> Last(marks).now <= m.now)
    requires m.up || TimeoutClock.Net(marks) > 0
    ensures TimeoutClock.Balanced(marks + [m])
    ensures TimeoutClock.Net(marks + [m]) == TimeoutClock.Net(marks) + if m.up then 1 else -1
  {
    var grown := marks + [m];
    assert Front(grown) == marks && Last(grown) == m;
    forall i | 0 <= i <= |grown| ensures TimeoutClock.Net(grown[..i]) >= 0 {
      if i < |grown| {
        assert grown[..i] == marks[..i];
      } else {
        assert grown[..i] == grown && marks[..|marks|] == marks;
      }
    }
  }

  /** The action pauses or resumes the clock of this run. */
  predicate Touches(s: System, a: Action, run: string) {
    || (a.Enter? && a.view.runId == run)
    || (a.Leave? && a.gate in s.gates && s.gates[a.gate].view.runId == run)
  }

  /** Only entering and leaving change who is in flight, and only in the gate's own run. */
  lemma FlyingAfter(s: System, a: Action, now: nat, run: string)
    requires Enabled(s, a)
    ensures var before, after := Flying(s.gates, run), Flying(Next(s, a, now).gates, run);
            if !Touches(s, a, run) then after == before
            else if a.Enter? then after == before + {a.gate} && a.gate !in before
            else after == before - {a.gate} && a.gate in before
  {
  }

  lemma MarksAfter(s: System, a: Action, now: nat, run: string)
    requires Enabled(s, a)
    ensures MarksOf(Next(s, a, now), run) ==
            MarksOf(s, run) + if Touches(s, a, run) then [TimeoutClock.Mark(now, a.Enter?)] else []
  {
  }

  lemma CountedRunKept(s: System, a: Action, now: nat, run: string)
    requires CountedRun(s, run) && Enabled(s, a) && (MarksOf(s, run) != [] ==> Last(MarksOf(s, run)).now <= now)
    ensures CountedRun(Next(s, a, now), run)
    ensures var marks := MarksOf(Next(s, a, now), run); marks != [] ==> Last(marks).now <= now
  {
    FlyingAfter(s, a, now, run);
    MarksAfter(s, a, now, run);
    if Touches(s, a, run) {
      MarkAppends(MarksOf(s, run), TimeoutClock.Mark(now, a.Enter?));
    }
  }

  lemma CountedKept(s: System, a: Action, now: nat)
    requires Counted(s) && Enabled(s, a) && MarkedBy(s, now)
    ensures Counted(Next(s, a, now)) && MarkedBy(Next(s, a, now), now)
  {
    forall run ensures CountedRun(Next(s, a, now), run) {
      CountedRunKept(s, a, now, run);
    }
    forall run | MarksOf(Next(s, a, now), run) != [] ensures Last(MarksOf(Next(s, a, now), run)).now <= now {
      CountedRunKept(s, a, now, run);
    }
  }

  /** Table, channels, gates and log agree. */
  ghost predicate Linked(s: System) {
    Distinct(s) && Owned(s) && Tracked(s) && Logged(s)
  }

  /** Actions that leave the table and the channels alone. */
  predicate MovesGate(a: Action) {
    a.Enter? || a.Receive? || a.Cancel? || a.Leave?
  }

  lemma GateMovesOwned(s: System, a: Action, now: nat)
    requires Owned(s) && Enabled(s, a) && MovesGate(a)
    ensures Owned(Next(s, a, now))
  {
    var t := Next(s, a, now);
    assert t.manager == s.manager;
    forall k | k in t.manager.pending ensures SlotOwned(t, k) {
      assert SlotOwned(s, k);
    }
  }

  lemma GateMovesTracked(s: System, a: Action, now: nat)
    requires Tracked(s) && Enabled(s, a) && MovesGate(a)
    ensures Tracked(Next(s, a, now))
  {
    var t := Next(s, a, now);
    assert t.manager == s.manager;
    forall h | h in t.gates ensures GateTracked(t, h) {
      if h in s.gates {
        assert GateTracked(s, h);
      }
    }
  }

  lemma GateMovesLogged(s: System, a: Action, now: nat)
    requires Logged(s) && Enabled(s, a) && MovesGate(a)
    ensures Logged(Next(s, a, now))
  {
    var t := Next(s, a, now);
    assert t.manager == s.manager && t.log == s.log;
    assert forall g :: g in s.gates ==> g in t.gates && t.gates[g].view == s.gates[g].view;
  }

  lemma GateMovesKept(s: System, a: Action, now: nat)
    requires Linked(s) && Enabled(s, a) && MovesGate(a)
    ensures Owned(Next(s, a, now)) && Tracked(Next(s, a, now)) && Logged(Next(s, a, now))
  {
    GateMovesOwned(s, a, now);
    GateMovesTracked(s, a, now);
    GateMovesLogged(s, a, now);
  }

  /** What registering gate `g` leaves behind. */
  ghost predicate Registers(s: System, t: System, g: nat) {
    && At(s, g, Entered) && t.log == s.log
    && t.gates == s.gates[g := s.gates[g].(state := Waiting)]
    && t.manager == Manager(s.manager.pending[KeyOf(s.gates[g].view) := Slot(s.gates[g].view, g)], s.manager.channels[g := Open])
  }

  lemma RegisterOwned(s: System, t: System, g: nat)
    requires Owned(s) && Registers(s, t, g)
    ensures Owned(t)
  {
    forall k | k in t.manager.pending ensures SlotOwned(t, k) {
      if k != KeyOf(s.gates[g].view) {
        assert SlotOwned(s, k);
      }
    }
  }

  lemma RegisterTracked(s: System, t: System, g: nat)
    requires Tracked(s) && Registers(s, t, g) && KeyOf(s.gates[g].view) !in s.manager.pending
    ensures Tracked(t)
  {
    forall h | h in t.gates ensures GateTracked(t, h) {
      assert GateTracked(s, h);
    }
  }

  lemma RegisterLogged(s: System, t: System, g: nat)
    requires Logged(s) && Registers(s, t, g) && g !in s.manager.channels
    ensures Logged(t)
  {
  }

  lemma RegisterKept(s: System, g: nat, now: nat)
    requires Linked(s) && At(s, g, Entered)
    ensures var t := Next(s, RegisterGate(g), now); Owned(t) && Tracked(t) && Logged(t)
  {
    var t := Next(s, RegisterGate(g), now);
    KeyIsMine(s, g);
    assert GateTracked(s, g);
    assert Registers(s, t, g);
    RegisterOwned(s, t, g);
    RegisterTracked(s, t, g);
    RegisterLogged(s, t, g);
  }

  /** What a resolve that reaches slot `key` leaves behind. */
  ghost predicate Resolves(s: System, t: System, key: string, r: Resolution) {
    && key in s.manager.pending && r.gate == s.manager.pending[key].channel
    && t.gates == s.gates && t.log == s.log + [r]
    && t.manager == Manager(s.manager.pending - {key}, s.manager.channels[r.gate := Sent(r.decision)])
  }

  lemma ResolveOwned(s: System, t: System, key: string, r: Resolution)
    requires Owned(s) && Resolves(s, t, key, r)
    ensures Owned(t)
  {
    assert SlotOwned(s, key);
    forall k | k in t.manager.pending ensures SlotOwned(t, k) {
      assert SlotOwned(s, k);
    }
  }

  lemma ResolveTracked(s: System, t: System, key: string, r: Resolution)
    requires Owned(s) && Tracked(s) && Resolves(s, t, key, r)
    ensures Tracked(t)
  {
    assert SlotOwned(s, key);
    forall h | h in t.gates ensures GateTracked(t, h) {
      assert GateTracked(s, h);
    }
  }

  lemma ResolveKept(s: System, session: string, call: string, phase: Phase, decision: Decision, now: nat)
    requires Linked(s) && ':' !in call
    ensures var t := Next(s, ResolveCall(session, call, phase, decision), now); Owned(t) && Tracked(t) && Logged(t)
  {
    var key := RequestKey(session, call, phase);
    if Resolve(s.manager, session, call, phase, decision).1.Resolved? {
      var t := Next(s, ResolveCall(session, call, phase, decision), now);
      var r := Resolution(session, call, phase, decision, s.manager.pending[key].channel);
      assert Resolves(s, t, key, r);
      ResolveOwned(s, t, key, r);
      ResolveTracked(s, t, key, r);
      assert SlotOwned(s, key);
      ResolvedNames(s, key, session, call, phase);
      ResolveLogged(s, t, r.gate);
    }
  }

  lemma ResolveLogged(s: System, t: System, g: nat)
    requires Logged(s) && t.gates == s.gates && |t.log| == |s.log| + 1 && t.log[..|s.log|] == s.log
    requires g in s.gates && g in s.manager.channels && s.manager.channels[g].Open?
    requires Last(t.log).gate == g && Names(Last(t.log), s.gates[g].view)
    requires t.manager.channels == s.manager.channels[g := Sent(Last(t.log).decision)]
    ensures Logged(t)
  {
    assert forall i :: 0 <= i < |s.log| ==> t.log[i] == s.log[i];
    forall h | h in t.manager.channels && t.manager.channels[h].Sent?
      ensures exists i :: 0 <= i < |t.log| && t.log[i].gate == h
    {
      if h == g {
        assert t.log[|s.log|].gate == h;
      } else {
        var i :| 0 <= i < |s.log| && s.log[i].gate == h;
        assert t.log[i].gate == h;
      }
    }
  }

  /** A slot found under a caller's key belongs to the request the caller named. */
  lemma ResolvedNames(s: System, key: string, session: string, call: string, phase: Phase)
    requires Distinct(s) && key in s.manager.pending && SlotOwned(s, key) && key == RequestKey(session, call, phase)
    requires ':' !in call
    ensures var v := s.manager.pending[key].view; v.session == session && v.call == call && v.phase == phase
  {
    var v := s.manager.pending[key].view;
    KeyInjective(v.session, v.call, v.phase, session, call, phase);
  }

  /** Dropping a session closes exactly the open channels of its slots. */
  lemma DropChannels(s: System, session: string, h: nat)
    requires Owned(s) && h in s.manager.channels
    ensures HoldsSender(s.manager.pending, SessionKeys(s.manager, session), h) <==>
              && h in s.gates && s.gates[h].view.session == session
              && KeyOf(s.gates[h].view) in s.manager.pending
              && s.manager.pending[KeyOf(s.gates[h].view)].channel == h
  {
    if HoldsSender(s.manager.pending, SessionKeys(s.manager, session), h) {
      var k :| k in SessionKeys(s.manager, session) && k in s.manager.pending && s.manager.pending[k].channel == h;
      assert SlotOwned(s, k);
    }
    if h in s.gates && s.gates[h].view.session == session && KeyOf(s.gates[h].view) in s.manager.pending
       && s.manager.pending[KeyOf(s.gates[h].view)].channel == h {
      var k := KeyOf(s.gates[h].view);
      assert SlotOwned(s, k);
      assert k in SessionKeys(s.manager, session);
    }
  }

  lemma DropKept(s: System, session: string)
    requires Linked(s)
    ensures var t := s.(manager := DropSession(s.manager, session)); Owned(t) && Tracked(t) && Logged(t)
  {
    var t := s.(manager := DropSession(s.manager, session));
    forall k | k in t.manager.pending ensures SlotOwned(t, k) {
      assert SlotOwned(s, k);
      DropChannels(s, session, s.manager.pending[k].channel);
    }
    forall h | h in t.gates ensures GateTracked(t, h) {
      assert GateTracked(s, h);
      if h in s.manager.channels {
        DropChannels(s, session, h);
        if s.manager.channels[h].Open? && (s.gates[h].state.Waiting? || s.gates[h].state.Cancelling?) {
          assert SlotOwned(s, KeyOf(s.gates[h].view));
        }
      }
    }
    assert forall h :: h in t.manager.channels ==>
                         (t.manager.channels[h].Sent? <==> s.manager.channels[h].Sent?);
  }

  lemma CleanupKept(s: System, g: nat, now: nat)
    requires Linked(s) && g in s.gates && s.gates[g].state.Received?
    ensures var t := Next(s, Cleanup(g), now); Owned(t) && Tracked(t) && Logged(t)
    ensures Next(s, Cleanup(g), now).manager == s.manager
  {
    var t, key := Next(s, Cleanup(g), now), KeyOf(s.gates[g].view);
    KeyIsMine(s, g);
    assert key !in s.manager.pending;
    forall k | k in t.manager.pending ensures SlotOwned(t, k) {
      assert SlotOwned(s, k);
    }
    forall h | h in t.gates ensures GateTracked(t, h) {
      assert GateTracked(s, h);
    }
  }

  /** A cancelling gate whose slot is gone may move on. */
  lemma MoveOnKept(d: System, g: nat)
    requires Owned(d) && Tracked(d) && At(d, g, Cancelling)
    requires KeyOf(d.gates[g].view) !in d.manager.pending
    ensures var t := MoveGate(d, g, Leaving(Cancelled)); Owned(t) && Tracked(t)
  {
    var t := MoveGate(d, g, Leaving(Cancelled));
    forall k | k in t.manager.pending ensures SlotOwned(t, k) {
      assert SlotOwned(d, k);
    }
    forall h | h in t.gates ensures GateTracked(t, h) {
      assert GateTracked(d, h);
    }
  }

  lemma MoveOnLogged(d: System, g: nat)
    requires Logged(d) && g in d.gates
    ensures Logged(MoveGate(d, g, Leaving(Cancelled)))
  {
  }

  lemma OwnSlotDropped(s: System, g: nat)
    requires Linked(s) && At(s, g, Cancelling)
    ensures KeyOf(s.gates[g].view) !in DropSession(s.manager, s.gates[g].view.session).pending
  {
    KeyIsMine(s, g);
    var key := KeyOf(s.gates[g].view);
    assert key in s.manager.pending ==> SlotOwned(s, key);
  }

  lemma CancelDropKept(s: System, g: nat, now: nat)
    requires Linked(s) && At(s, g, Cancelling)
    ensures var t := Next(s, CancelDrop(g), now); Owned(t) && Tracked(t) && Logged(t)
  {
    var session := s.gates[g].view.session;
    var d := s.(manager := DropSession(s.manager, session));
    DropKept(s, session);
    OwnSlotDropped(s, g);
    MoveOnKept(d, g);
    MoveOnLogged(d, g);
    assert Next(s, CancelDrop(g), now) == MoveGate(d, g, Leaving(Cancelled));
  }

  lemma StepKeepsInv(s: System, a: Action, now: nat)
    requires Inv(s) && Enabled(s, a) && MarkedBy(s, now)
    ensures Inv(Next(s, a, now)) && MarkedBy(Next(s, a, now), now)
  {
    DistinctKept(s, a, now);
    CountedKept(s, a, now);
    match a
    case RegisterGate(g) => RegisterKept(s, g, now);
    case ResolveCall(session, call, phase, decision) => ResolveKept(s, session, call, phase, decision, now);
    case DropCall(session) => DropKept(s, session);
    case Cleanup(g) => CleanupKept(s, g, now);
    case CancelDrop(g) => CancelDropKept(s, g, now);
    case _ => GateMovesKept(s, a, now);
  }

  // ----- runs --------------------------------------------------------------------------------

  datatype Moment = Moment(action: Action, now: nat)

  ghost predicate StepAt(states: seq<System>, moments: seq<Moment>, i: int) {
    && 0 <= i < |moments| && |states| == |moments| + 1
    && Enabled(states[i], moments[i].action) && states[i + 1] == Next(states[i], moments[i].action, moments[i].now)
  }

  /** `states` is a run: it starts empty and each action is enabled, at instants that never decrease. */
  ghost predicate IsRun(states: seq<System>, moments: seq<Moment>) {
    && |states| == |moments| + 1 && states[0] == START
    && (forall i {:trigger StepAt(states, moments, i)} :: 0 <= i < |moments| ==>
          StepAt(states, moments, i))
    && (forall i, j :: 0 <= i <= j < |moments| ==> moments[i].now <= moments[j].now)
  }

  lemma StartInv()
    ensures Inv(START) && MarkedBy(START, 0)
  {
    forall run ensures CountedRun(START, run) {
      assert Flying(START.gates, run) == {};
    }
  }

  lemma LaterMarked(s: System, now: nat, later: nat)
    requires MarkedBy(s, now) && now <= later
    ensures MarkedBy(s, later)
  {
  }

  lemma {:induction false} RunKeepsInv(states: seq<System>, moments: seq<Moment>, n: nat)
    requires IsRun(states, moments) && n < |states|
    ensures Inv(states[n]) && MarkedBy(states[n], if n == 0 then 0 else moments[n - 1].now)
  {
    if n == 0 {
      StartInv();
    } else {
      RunKeepsInv(states, moments, n - 1);
      var s, m := states[n - 1], moments[n - 1];
      assert StepAt(states, moments, n - 1);
      LaterMarked(s, if n == 1 then 0 else moments[n - 2].now, m.now);
      StepKeepsInv(s, m.action, m.now);
    }
  }

  /** In every reachable state: a gate that got a decision got it from exactly one resolve, which named its
      session, call and phase; slots belong to live waits only; and the clock of every run is paused once per gate of
      that run in flight, whatever other runs do. */
  lemma ReachableGates(states: seq<System>, moments: seq<Moment>, n: nat, g: nat)
    requires IsRun(states, moments) && n < |states| && g in states[n].gates
    ensures var s, gate := states[n], states[n].gates[g];
            && ((gate.state.Received? || gate.state.Leaving? || gate.state.Finished?) && gate.state.result.Decided? ==>
                  exists i :: 0 <= i < |s.log| && s.log[i].gate == g && Names(s.log[i], gate.view)
                              && s.log[i].decision == gate.state.result.decision)
            && (forall i, j :: 0 <= i < j < |s.log| && s.log[i].gate == g ==> s.log[j].gate != g)
            && (gate.state.Leaving? || gate.state.Finished? ==>
                  forall k :: k in s.manager.pending ==> s.manager.pending[k].channel != g)
            && forall run :: TimeoutClock.Net(MarksOf(s, run)) == |Flying(s.gates, run)|
  {
    RunKeepsInv(states, moments, n);
    var s := states[n];
    assert GateTracked(s, g);
    forall k | k in s.manager.pending ensures SlotOwned(s, k) {}
    forall run ensures TimeoutClock.Net(MarksOf(s, run)) == |Flying(s.gates, run)| {
      assert CountedRun(s, run);
    }
  }

  /** Gate `g` still holds the slot for this request: it waits, or has given up waiting but not dropped its slot. */
  ghost predicate Holds(s: System, g: nat, session: string, call: string, phase: Phase) {
    && g in s.gates && (s.gates[g].state.Waiting? || s.gates[g].state.Cancelling?)
    && g in s.manager.channels && s.manager.channels[g].Open?
    && s.gates[g].view.session == session && s.gates[g].view.call == call && s.gates[g].view.phase == phase
  }

  /** A denial that says nothing. */
  predicate IsBlank(decision: Decision) {
    decision.Deny? && forall i :: 0 <= i < |decision.feedback| ==> IsWhitespace(decision.feedback[i])
  }

  lemma BlankFeedbackOnly(decision: Decision)
    ensures IsBlank(decision) <==> decision.Deny? && AllWhitespace(decision.feedback)
  {
    if IsBlank(decision) {
      forall c | c in decision.feedback ensures IsWhitespace(c) {
        var i :| 0 <= i < |decision.feedback| && decision.feedback[i] == c;
      }
    }
  }

  lemma HolderHasSlot(s: System, g: nat, session: string, call: string, phase: Phase)
    requires Linked(s) && Holds(s, g, session, call, phase)
    ensures var key := RequestKey(session, call, phase);
            key in s.manager.pending && s.manager.pending[key] == Slot(s.gates[g].view, g)
  {
    assert GateTracked(s, g);
    assert SlotOwned(s, KeyOf(s.gates[g].view));
  }

  lemma SlotHasHolder(s: System, session: string, call: string, phase: Phase)
    requires Linked(s) && ':' !in call && RequestKey(session, call, phase) in s.manager.pending
    ensures Holds(s, s.manager.pending[RequestKey(session, call, phase)].channel, session, call, phase)
  {
    var key := RequestKey(session, call, phase);
    assert SlotOwned(s, key);
    ResolvedNames(s, key, session, call, phase);
  }

  /** A decision for a request some gate holds is delivered, in every reachable state: unless it is a blank denial the call
      returns that request, the decision is logged for that gate, the slot goes, and a gate that waits can receive it. */
  lemma ResolveDelivers(states: seq<System>, moments: seq<Moment>, n: nat, g: nat,
                        session: string, call: string, phase: Phase, decision: Decision, now: nat)
    requires IsRun(states, moments) && n < |states| && ':' !in call
    requires Holds(states[n], g, session, call, phase)
    ensures var s, a := states[n], ResolveCall(session, call, phase, decision);
            var t, answer := Next(s, a, now), Resolve(s.manager, session, call, phase, decision).1;
            && (IsBlank(decision) ==> answer == BlankFeedback && t == s)
            && (!IsBlank(decision) ==>
                  && answer == Resolved(s.gates[g].view)
                  && t.log == s.log + [Resolution(session, call, phase, decision, g)]
                  && t.gates == s.gates && !Holds(t, g, session, call, phase)
                  && (s.gates[g].state.Waiting? ==>
                        Enabled(t, Receive(g)) && Next(t, Receive(g), now).gates[g].state == Received(Decided(decision))))
  {
    RunKeepsInv(states, moments, n);
    HolderHasSlot(states[n], g, session, call, phase);
    BlankFeedbackOnly(decision);
  }

  /** A decision for a request no gate holds changes nothing and is answered as such. */
  lemma ResolveFindsNothing(states: seq<System>, moments: seq<Moment>, n: nat,
                            session: string, call: string, phase: Phase, decision: Decision, now: nat)
    requires IsRun(states, moments) && n < |states| && ':' !in call
    requires forall g :: !Holds(states[n], g, session, call, phase)
    ensures var s := states[n];
            && Next(s, ResolveCall(session, call, phase, decision), now) == s
            && Resolve(s.manager, session, call, phase, decision).1 ==
               if IsBlank(decision) then BlankFeedback else NoSuchRequest
  {
    RunKeepsInv(states, moments, n);
    BlankFeedbackOnly(decision);
    if RequestKey(session, call, phase) in states[n].manager.pending {
      SlotHasHolder(states[n], session, call, phase);
    }
  }

  /** Dropping a session cancels exactly the open waits of that session and touches no other gate. */
  lemma DropCancelsExactly(states: seq<System>, moments: seq<Moment>, n: nat, session: string, g: nat)
    requires IsRun(states, moments) && n < |states| && At(states[n], g, Waiting)
    ensures var s, t := states[n], Next(states[n], DropCall(session), 0);
            && t.gates == s.gates && g in s.manager.channels && g in t.manager.channels
            && (s.manager.channels[g].Open? && s.gates[g].view.session == session ==>
                  && t.manager.channels[g] == SenderDropped && KeyOf(s.gates[g].view) !in t.manager.pending
                  && Enabled(t, Receive(g)) && Next(t, Receive(g), 0).gates[g].state == Received(Cancelled))
            && (!(s.manager.channels[g].Open? && s.gates[g].view.session == session) ==>
                  t.manager.channels[g] == s.manager.channels[g])
  {
    RunKeepsInv(states, moments, n);
    var s := states[n];
    assert GateTracked(s, g);
    DropChannels(s, session, g);
    if s.manager.channels[g].Open? && s.gates[g].view.session == session {
      assert SlotOwned(s, KeyOf(s.gates[g].view));
      assert KeyOf(s.gates[g].view) in SessionKeys(s.manager, session);
    }
  }
}
