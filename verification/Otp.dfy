/** One-time-code challenges and lockouts for unknown peers. Time is a parameter, in seconds. */
module Otp {
  import opened Ordering
  import opened Sequences

  const OTP_TTL: nat := 300
  const MAX_ATTEMPTS: nat := 3

  datatype Challenge = Challenge(
    code: string, peerId: string, username: Option<string>, senderName: Option<string>,
    createdAt: nat, expiresAt: nat, attempts: nat)

  datatype InitResult = Created(code: string) | AlreadyPending | InitLockedOut

  datatype VerifyResult = Approved | WrongCode(attemptsLeft: nat) | LockedOut | NoPending | Expired

  /** `lockouts` maps a peer to the instant its lockout ends. */
  datatype State = State(challenges: map<string, Challenge>, lockouts: map<string, nat>, cooldown: nat)

  function Empty(cooldown: nat): State {
    State(map[], map[], cooldown)
  }

  /** Everything the state holds about one peer. */
  datatype Slot = Slot(challenge: Option<Challenge>, lockedUntil: Option<nat>)

  function SlotOf(s: State, peer: string): Slot {
    Slot(if peer in s.challenges then Some(s.challenges[peer]) else None,
         if peer in s.lockouts then Some(s.lockouts[peer]) else None)
  }

  function Put<V>(m: map<string, V>, peer: string, v: Option<V>): map<string, V> {
    if v.Some? then m[peer := v.value] else m - {peer}
  }

  function WithSlot(s: State, peer: string, x: Slot): (t: State)
    ensures forall q :: SlotOf(t, q) == if q == peer then x else SlotOf(s, q)
  {
    State(Put(s.challenges, peer, x.challenge), Put(s.lockouts, peer, x.lockedUntil), s.cooldown)
  }

  predicate Locked(x: Slot, now: nat) {
    x.lockedUntil.Some? && now < x.lockedUntil.value
  }

  predicate Pending(x: Slot, now: nat) {
    x.challenge.Some? && now < x.challenge.value.expiresAt
  }

  function NewChallenge(peer: string, username: Option<string>, senderName: Option<string>, now: nat, newCode: string): Challenge {
    Challenge(newCode, peer, username, senderName, now, now + OTP_TTL, 0)
  }

  function InitiateSlot(x: Slot, issue: Challenge, now: nat): (Slot, InitResult) {
    if Locked(x, now) then (x, InitLockedOut)
    else if Pending(x, now) then (x.(lockedUntil := None), AlreadyPending)
    else (Slot(Some(issue), None), Created(issue.code))
  }

  function VerifySlot(x: Slot, code: string, now: nat, cooldown: nat): (Slot, VerifyResult) {
    if Locked(x, now) then (x, LockedOut)
    else if x.challenge.None? then (Slot(None, None), NoPending)
    else if now >= x.challenge.value.expiresAt then (Slot(None, None), Expired)
    else if x.challenge.value.code == code then (Slot(None, None), Approved)
    else
      var attempts := x.challenge.value.attempts + 1;
      if attempts >= MAX_ATTEMPTS then (Slot(None, Some(now + cooldown)), LockedOut)
      else (Slot(Some(x.challenge.value.(attempts := attempts)), None), WrongCode(MAX_ATTEMPTS - attempts))
  }

  function EvictSlot(x: Slot, now: nat): Slot {
    Slot(if Pending(x, now) then x.challenge else None, if Locked(x, now) then x.lockedUntil else None)
  }

  function Initiate(s: State, peer: string, username: Option<string>, senderName: Option<string>, now: nat, newCode: string)
    : (State, InitResult)
  {
    var (x, r) := InitiateSlot(SlotOf(s, peer), NewChallenge(peer, username, senderName, now, newCode), now);
    (WithSlot(s, peer, x), r)
  }

  function Verify(s: State, peer: string, code: string, now: nat): (State, VerifyResult) {
    var (x, r) := VerifySlot(SlotOf(s, peer), code, now, s.cooldown);
    (WithSlot(s, peer, x), r)
  }

  /** Drops expired challenges and elapsed lockouts. */
  function Evict(s: State, now: nat): (t: State)
    ensures forall q :: SlotOf(t, q) == EvictSlot(SlotOf(s, q), now)
  {
    State(map p | p in s.challenges && now < s.challenges[p].expiresAt :: s.challenges[p],
          map p | p in s.lockouts && now < s.lockouts[p] :: s.lockouts[p],
          s.cooldown)
  }

  lemma SameSlotsSameState(s: State, t: State)
    requires s.cooldown == t.cooldown && forall p :: SlotOf(s, p) == SlotOf(t, p)
    ensures s == t
  {
    forall p ensures (p in s.challenges <==> p in t.challenges) && (p in s.lockouts <==> p in t.lockouts) {
      assert SlotOf(s, p) == SlotOf(t, p);
    }
    forall p | p in s.challenges ensures s.challenges[p] == t.challenges[p] {
      assert SlotOf(s, p) == SlotOf(t, p);
    }
    forall p | p in s.lockouts ensures s.lockouts[p] == t.lockouts[p] {
      assert SlotOf(s, p) == SlotOf(t, p);
    }
    assert s.challenges == t.challenges && s.lockouts == t.lockouts;
  }

  lemma UpdatedSlot(s: State, peer: string, t: State)
    requires s.cooldown == t.cooldown && forall q :: q != peer ==> SlotOf(s, q) == SlotOf(t, q)
    ensures WithSlot(s, peer, SlotOf(t, peer)) == t
  {
    SameSlotsSameState(WithSlot(s, peer, SlotOf(t, peer)), t);
  }

  class OtpState {
    var challenges: map<string, Challenge>
    var lockouts: map<string, nat>
    var cooldown: nat

    ghost function View(): State
      reads this
    {
      State(challenges, lockouts, cooldown)
    }

    constructor (cooldown: nat)
      ensures View() == Empty(cooldown)
    {
      challenges, lockouts := map[], map[];
      this.cooldown := cooldown;
    }

    method SetCooldown(secs: nat)
      modifies this`cooldown
      ensures View() == old(View()).(cooldown := secs)
    {
      cooldown := secs;
    }

    method InitiateChallenge(peer: string, username: Option<string>, senderName: Option<string>, now: nat, newCode: string)
      returns (r: InitResult)
      modifies this
      ensures (View(), r) == Initiate(old(View()), peer, username, senderName, now, newCode)
    {
      if peer in lockouts {
        if now < lockouts[peer] {
          UpdatedSlot(old(View()), peer, View());
          return InitLockedOut;
        }
        lockouts := lockouts - {peer};
      }
      if peer in challenges {
        if now < challenges[peer].expiresAt {
          UpdatedSlot(old(View()), peer, View());
          return AlreadyPending;
        }
        challenges := challenges - {peer};
      }
      challenges := challenges[peer := NewChallenge(peer, username, senderName, now, newCode)];
      UpdatedSlot(old(View()), peer, View());
      r := Created(newCode);
    }

    method VerifyCode(peer: string, code: string, now: nat) returns (r: VerifyResult)
      modifies this
      ensures (View(), r) == Verify(old(View()), peer, code, now)
    {
      if peer in lockouts {
        if now < lockouts[peer] {
          UpdatedSlot(old(View()), peer, View());
          return LockedOut;
        }
        lockouts := lockouts - {peer};
      }
      if peer !in challenges {
        UpdatedSlot(old(View()), peer, View());
        return NoPending;
      }
      if now >= challenges[peer].expiresAt {
        challenges := challenges - {peer};
        UpdatedSlot(old(View()), peer, View());
        return Expired;
      }
      if challenges[peer].code == code {
        challenges := challenges - {peer};
        UpdatedSlot(old(View()), peer, View());
        return Approved;
      }
      var attempts := challenges[peer].attempts + 1;
      challenges := challenges[peer := challenges[peer].(attempts := attempts)];
      if attempts >= MAX_ATTEMPTS {
        challenges := challenges - {peer};
        lockouts := lockouts[peer := now + cooldown];
        UpdatedSlot(old(View()), peer, View());
        return LockedOut;
      }
      UpdatedSlot(old(View()), peer, View());
      r := WrongCode(MAX_ATTEMPTS - attempts);
    }

    method EvictExpired(now: nat)
      modifies this
      ensures View() == Evict(old(View()), now)
    {
      challenges := map p | p in challenges && now < challenges[p].expiresAt :: challenges[p];
      lockouts := map p | p in lockouts && now < lockouts[p] :: lockouts[p];
    }
  }

  // ----- runs ---------------------------------------------------------------------

  datatype Op =
    | DoInitiate(peer: string, username: Option<string>, senderName: Option<string>, newCode: string)
    | DoVerify(peer: string, code: string)
    | DoEvict
    | DoSetCooldown(secs: nat)

  datatype Event = Event(now: nat, op: Op)

  datatype Outcome = Initiated(init: InitResult) | Verified(verdict: VerifyResult) | Quiet

  function Step(s: State, e: Event): (State, Outcome) {
    match e.op
    case DoInitiate(peer, username, senderName, newCode) =>
      var (t, r) := Initiate(s, peer, username, senderName, e.now, newCode);
      (t, Initiated(r))
    case DoVerify(peer, code) => var (t, r) := Verify(s, peer, code, e.now); (t, Verified(r))
    case DoEvict => (Evict(s, e.now), Quiet)
    case DoSetCooldown(secs) => (s.(cooldown := secs), Quiet)
  }

  /** The effect of one event on the slot of `peer`. */
  function SlotStep(x: Slot, cooldown: nat, e: Event, peer: string): (Slot, Outcome) {
    match e.op
    case DoInitiate(p, username, senderName, newCode) =>
      if p != peer then (x, Quiet)
      else
        var (y, r) := InitiateSlot(x, NewChallenge(p, username, senderName, e.now, newCode), e.now);
        (y, Initiated(r))
    case DoVerify(p, code) =>
      if p != peer then (x, Quiet) else var (y, r) := VerifySlot(x, code, e.now, cooldown); (y, Verified(r))
    case DoEvict => (EvictSlot(x, e.now), Quiet)
    case DoSetCooldown(_) => (x, Quiet)
  }

  lemma StepAtPeer(s: State, e: Event, peer: string)
    ensures SlotOf(Step(s, e).0, peer) == SlotStep(SlotOf(s, peer), s.cooldown, e, peer).0
    ensures About(e, peer) ==> Step(s, e).1 == SlotStep(SlotOf(s, peer), s.cooldown, e, peer).1
    ensures Step(s, e).0.cooldown == if e.op.DoSetCooldown? then e.op.secs else s.cooldown
  {
  }

  function Run(s: State, events: seq<Event>): State {
    if events == [] then s else Step(Run(s, Front(events)), Last(events)).0
  }

  /** The outcome of the last event. */
  function OutcomeAt(s: State, events: seq<Event>): Outcome
    requires events != []
  {
    Step(Run(s, Front(events)), Last(events)).1
  }

  ghost predicate Monotone(events: seq<Event>) {
    forall i, j :: 0 <= i <= j < |events| ==> events[i].now <= events[j].now
  }

  function About(e: Event, peer: string): bool {
    (e.op.DoInitiate? || e.op.DoVerify?) && e.op.peer == peer
  }

  // ----- what every step keeps ----------------------------------------------------------

  ghost predicate ValidSlot(x: Slot, peer: string) {
    && (x.challenge.None? || x.lockedUntil.None?)
    && (x.challenge.Some? ==>
          && x.challenge.value.peerId == peer
          && x.challenge.value.attempts < 3
          && x.challenge.value.expiresAt == x.challenge.value.createdAt + 300)
  }

  /** Challenges and lockouts stay disjoint and stored attempts stay below the limit. */
  lemma {:induction false} RunKeepsValid(cooldown: nat, events: seq<Event>)
    ensures forall peer :: ValidSlot(SlotOf(Run(Empty(cooldown), events), peer), peer)
    ensures Run(Empty(cooldown), events).challenges.Keys !! Run(Empty(cooldown), events).lockouts.Keys
  {
    var t := Run(Empty(cooldown), events);
    forall peer ensures ValidSlot(SlotOf(t, peer), peer) {
      if events != [] {
        RunKeepsValid(cooldown, Front(events));
        StepAtPeer(Run(Empty(cooldown), Front(events)), Last(events), peer);
      }
    }
    forall peer ensures !(peer in t.challenges && peer in t.lockouts) {
      assert ValidSlot(SlotOf(t, peer), peer);
    }
  }

  // ----- the bound on guesses -------------------------------------------------------------

  /** This event compares a submitted code with the stored one for `peer`. */
  predicate Compares(x: Slot, e: Event, peer: string) {
    e.op.DoVerify? && e.op.peer == peer && !Locked(x, e.now) && Pending(x, e.now)
  }

  predicate Issues(x: Slot, e: Event, peer: string) {
    e.op.DoInitiate? && e.op.peer == peer && !Locked(x, e.now) && !Pending(x, e.now)
  }

  predicate Approves(x: Slot, e: Event, peer: string) {
    Compares(x, e, peer) && x.challenge.value.code == e.op.code
  }

  /** These three classes are the outcomes `Created`, the code comparisons and `Approved` of the real calls. */
  lemma ClassesAreOutcomes(s: State, e: Event, peer: string)
    requires About(e, peer)
    ensures Issues(SlotOf(s, peer), e, peer) <==> Step(s, e).1.Initiated? && Step(s, e).1.init.Created?
    ensures Approves(SlotOf(s, peer), e, peer) <==> Step(s, e).1 == Verified(Approved)
    ensures Compares(SlotOf(s, peer), e, peer) <==>
              && Step(s, e).1.Verified?
              && (Step(s, e).1.verdict.Approved? || Step(s, e).1.verdict.WrongCode?
                  || (Step(s, e).1.verdict.LockedOut? && !Locked(SlotOf(s, peer), e.now)))
  {
    StepAtPeer(s, e, peer);
  }

  /** What a run did for one peer: challenges issued, first and latest issue time, codes compared. */
  datatype Ledger = Ledger(issued: nat, first: nat, latest: nat, compared: nat)

  function Book(l: Ledger, x: Slot, e: Event, peer: string): Ledger {
    if Issues(x, e, peer) then Ledger(l.issued + 1, if l.issued == 0 then e.now else l.first, e.now, l.compared)
    else if Compares(x, e, peer) then l.(compared := l.compared + 1)
    else l
  }

  function Tally(s: State, events: seq<Event>, peer: string): Ledger {
    if events == [] then Ledger(0, 0, 0, 0)
    else Book(Tally(s, Front(events), peer), SlotOf(Run(s, Front(events)), peer), Last(events), peer)
  }

  /** No event of the run approves `peer` and no cooldown falls below `c`. */
  ghost predicate Guessing(s: State, events: seq<Event>, peer: string, c: nat) {
    forall i :: 0 <= i < |events| ==>
      && !Approves(SlotOf(Run(s, events[..i]), peer), events[i], peer)
      && (events[i].op.DoSetCooldown? ==> events[i].op.secs >= c)
  }

  /** The ledger never runs ahead of the slot; `gap` is the least time between two challenges. */
  ghost predicate Accounted(l: Ledger, x: Slot, c: nat, gap: nat, now: nat) {
    && (l.issued == 0 ==> l.compared == 0 && x == Slot(None, None))
    && (l.issued > 0 ==>
          && l.first <= l.latest <= now
          && l.compared <= 3 * l.issued
          && (x.challenge.Some? ==>
                && x.challenge.value.expiresAt == l.latest + OTP_TTL
                && x.challenge.value.attempts < MAX_ATTEMPTS
                && l.compared <= 3 * (l.issued - 1) + x.challenge.value.attempts)
          && (x.lockedUntil.Some? ==> x.challenge.None? && x.lockedUntil.value >= l.latest + c)
          && (x == Slot(None, None) ==> now >= l.latest + gap))
  }

  /** Issued challenges are at least `gap` apart. */
  ghost predicate Spaced(l: Ledger, gap: nat) {
    l.issued > 0 ==> l.first <= l.latest && (l.issued - 1) * gap <= l.latest - l.first
  }

  lemma AccountStep(l: Ledger, x: Slot, cooldown: nat, e: Event, peer: string, c: nat, gap: nat, now: nat)
    requires now <= e.now && c <= cooldown && gap == Min(OTP_TTL, c)
    requires Accounted(l, x, c, gap, now) && !Approves(x, e, peer)
    ensures Accounted(Book(l, x, e, peer), SlotStep(x, cooldown, e, peer).0, c, gap, e.now)
    ensures Issues(x, e, peer) && l.issued > 0 ==> e.now >= l.latest + gap
  {
  }

  lemma SpacedStep(l: Ledger, x: Slot, e: Event, peer: string, gap: nat)
    requires Spaced(l, gap)
    requires Issues(x, e, peer) && l.issued > 0 ==> e.now >= l.latest + gap
    ensures Spaced(Book(l, x, e, peer), gap)
  {
    if Issues(x, e, peer) && l.issued > 0 {
      assert l.issued * gap == (l.issued - 1) * gap + gap;
    }
  }

  lemma {:induction false} RunAccounted(s: State, events: seq<Event>, peer: string, c: nat)
    requires s.challenges == map[] && s.lockouts == map[] && s.cooldown >= c
    requires Monotone(events) && Guessing(s, events, peer, c)
    ensures Run(s, events).cooldown >= c
    ensures Accounted(Tally(s, events, peer), SlotOf(Run(s, events), peer), c, Min(OTP_TTL, c),
                      if events == [] then 0 else Last(events).now)
    ensures Spaced(Tally(s, events, peer), Min(OTP_TTL, c))
  {
    if events != [] {
      var n, past, e := |events| - 1, Front(events), Last(events);
      forall i | 0 <= i < n
        ensures !Approves(SlotOf(Run(s, past[..i]), peer), past[i], peer)
        ensures past[i].op.DoSetCooldown? ==> past[i].op.secs >= c
      {
        assert past[..i] == events[..i] && past[i] == events[i];
      }
      RunAccounted(s, past, peer, c);
      assert events[..n] == past && e == events[n];
      var l, x := Tally(s, past, peer), SlotOf(Run(s, past), peer);
      AccountStep(l, x, Run(s, past).cooldown, e, peer, c, Min(OTP_TTL, c), if n == 0 then 0 else Last(past).now);
      SpacedStep(l, x, e, peer, Min(OTP_TTL, c));
      StepAtPeer(Run(s, past), e, peer);
    }
  }

  lemma TimesMonotone(a: nat, b: nat, d: nat)
    requires a <= b
    ensures a * d <= b * d
  {
  }

  lemma QuotientBound(k: nat, d: nat, n: nat)
    requires d > 0 && k * d <= n
    ensures k <= n / d
  {
    var q := n / d;
    assert n == q * d + n % d;
    assert (q + 1) * d == q * d + d;
    if q + 1 <= k {
      TimesMonotone(q + 1, k, d);
      assert false;
    }
  }

  lemma LedgerBound(l: Ledger, gap: nat, T: nat)
    requires gap > 0 && Spaced(l, gap)
    requires l.issued == 0 ==> l.compared == 0
    requires l.issued > 0 ==> l.latest <= l.first + T && l.compared <= 3 * l.issued
    ensures l.compared <= MAX_ATTEMPTS * (T / gap + 1)
  {
    QuotientBound(if l.issued == 0 then 0 else l.issued - 1, gap, T);
  }

  /** From an empty state, without an approval, at most 3 * (T / min(300, c) + 1) codes are compared for
      a peer in the T seconds after its first challenge, whatever else happens. */
  lemma GuessBound(cooldown: nat, events: seq<Event>, peer: string, c: nat, T: nat)
    requires 0 < c <= cooldown && Monotone(events) && Guessing(Empty(cooldown), events, peer, c)
    requires Tally(Empty(cooldown), events, peer).issued > 0 ==>
               events != [] && Last(events).now <= Tally(Empty(cooldown), events, peer).first + T
    ensures Tally(Empty(cooldown), events, peer).compared <= 3 * (T / (if c < 300 then c else 300) + 1)
  {
    RunAccounted(Empty(cooldown), events, peer, c);
    LedgerBound(Tally(Empty(cooldown), events, peer), Min(OTP_TTL, c), T);
  }

  // ----- lazy expiry against a machine of live entries -----------------------------------------

  /** What is still in force at `now`. */
  function Live(s: State, now: nat): State {
    Evict(s, now)
  }

  /** The simple machine: no entry it holds has lapsed, so it never looks at the clock to decide. */
  function LiveSlotStep(x: Slot, cooldown: nat, e: Event, peer: string): (Slot, Outcome) {
    match e.op
    case DoInitiate(p, username, senderName, newCode) =>
      if p != peer then (x, Quiet)
      else if x.lockedUntil.Some? then (x, Initiated(InitLockedOut))
      else if x.challenge.Some? then (x, Initiated(AlreadyPending))
      else (Slot(Some(Challenge(newCode, p, username, senderName, e.now, e.now + 300, 0)), None), Initiated(Created(newCode)))
    case DoVerify(p, code) =>
      if p != peer then (x, Quiet)
      else if x.lockedUntil.Some? then (x, Verified(LockedOut))
      else if x.challenge.None? then (x, Verified(NoPending))
      else if x.challenge.value.code == code then (Slot(None, None), Verified(Approved))
      else
        var c := x.challenge.value.(attempts := x.challenge.value.attempts + 1);
        if c.attempts >= 3 then
          (Slot(None, if cooldown == 0 then None else Some(e.now + cooldown)), Verified(LockedOut))
        else (Slot(Some(c), None), Verified(WrongCode(3 - c.attempts)))
    case DoEvict => (x, Quiet)
    case DoSetCooldown(_) => (x, Quiet)
  }

  function LiveStep(s: State, e: Event): (State, Outcome) {
    match e.op
    case DoEvict => (s, Quiet)
    case DoSetCooldown(secs) => (s.(cooldown := secs), Quiet)
    case _ =>
      var (x, r) := LiveSlotStep(SlotOf(s, e.op.peer), s.cooldown, e, e.op.peer);
      (WithSlot(s, e.op.peer, x), r)
  }

  /** Entries lapse by themselves between events. */
  function LiveRun(s: State, events: seq<Event>): State {
    if events == [] then s
    else LiveStep(Live(LiveRun(s, Front(events)), Last(events).now), Last(events)).0
  }

  /** Equal, except that forgetting a lapsed challenge turns `Expired` into `NoPending`. */
  predicate Forgets(lazy: Outcome, eager: Outcome) {
    lazy == eager || (lazy == Verified(Expired) && eager == Verified(NoPending))
  }

  lemma SlotRefines(x: Slot, cooldown: nat, e: Event, peer: string)
    ensures EvictSlot(SlotStep(x, cooldown, e, peer).0, e.now)
         == LiveSlotStep(EvictSlot(x, e.now), cooldown, e, peer).0
    ensures Forgets(SlotStep(x, cooldown, e, peer).1, LiveSlotStep(EvictSlot(x, e.now), cooldown, e, peer).1)
  {
  }

  lemma LiveStepAtPeer(s: State, e: Event, peer: string)
    ensures SlotOf(LiveStep(s, e).0, peer) == LiveSlotStep(SlotOf(s, peer), s.cooldown, e, peer).0
    ensures About(e, peer) ==> LiveStep(s, e).1 == LiveSlotStep(SlotOf(s, peer), s.cooldown, e, peer).1
  {
  }

  lemma StepRefines(s: State, e: Event)
    ensures Live(Step(s, e).0, e.now) == LiveStep(Live(s, e.now), e).0
    ensures Forgets(Step(s, e).1, LiveStep(Live(s, e.now), e).1)
  {
    forall p ensures SlotOf(Live(Step(s, e).0, e.now), p) == SlotOf(LiveStep(Live(s, e.now), e).0, p) {
      StepAtPeer(s, e, p);
      LiveStepAtPeer(Live(s, e.now), e, p);
      SlotRefines(SlotOf(s, p), s.cooldown, e, p);
    }
    SameSlotsSameState(Live(Step(s, e).0, e.now), LiveStep(Live(s, e.now), e).0);
    if e.op.DoInitiate? || e.op.DoVerify? {
      StepAtPeer(s, e, e.op.peer);
      LiveStepAtPeer(Live(s, e.now), e, e.op.peer);
      SlotRefines(SlotOf(s, e.op.peer), s.cooldown, e, e.op.peer);
    }
  }

  lemma LiveTwice(s: State, now: nat, later: nat)
    requires now <= later
    ensures Live(Live(s, now), later) == Live(s, later)
  {
    SameSlotsSameState(Live(Live(s, now), later), Live(s, later));
  }

  /** The lazy state refines the machine that keeps only live entries, over every run. */
  lemma {:induction false} LazyRefinesLive(s: State, events: seq<Event>)
    requires Monotone(events)
    ensures events != [] ==> Live(Run(s, events), Last(events).now) == LiveRun(s, events)
    ensures events != [] ==>
              Forgets(OutcomeAt(s, events),
                      LiveStep(Live(LiveRun(s, Front(events)), Last(events).now), Last(events)).1)
  {
    if events != [] {
      var now, past := Last(events).now, Front(events);
      LazyRefinesLive(s, past);
      if past != [] {
        LiveTwice(Run(s, past), Last(past).now, now);
      }
      StepRefines(Run(s, past), Last(events));
    }
  }

  /** `eager` has forgotten some lapsed entries of `lazy` and nothing else. */
  ghost predicate Trimmed(eager: State, lazy: State, now: nat) {
    && eager.cooldown == lazy.cooldown
    && forall p :: TrimmedSlot(SlotOf(eager, p), SlotOf(lazy, p), now)
  }

  ghost predicate TrimmedSlot(eager: Slot, lazy: Slot, now: nat) {
    && EvictSlot(eager, now) == EvictSlot(lazy, now)
    && (eager.challenge.None? || eager.challenge == lazy.challenge)
  }

  lemma TrimmedSlotStep(eager: Slot, lazy: Slot, cooldown: nat, e: Event, peer: string)
    requires TrimmedSlot(eager, lazy, e.now)
    ensures TrimmedSlot(SlotStep(eager, cooldown, e, peer).0, SlotStep(lazy, cooldown, e, peer).0, e.now)
    ensures Forgets(SlotStep(lazy, cooldown, e, peer).1, SlotStep(eager, cooldown, e, peer).1)
  {
    assert Locked(eager, e.now) == EvictSlot(eager, e.now).lockedUntil.Some?;
    assert Locked(lazy, e.now) == EvictSlot(lazy, e.now).lockedUntil.Some?;
    assert Pending(eager, e.now) == EvictSlot(eager, e.now).challenge.Some?;
    assert Pending(lazy, e.now) == EvictSlot(lazy, e.now).challenge.Some?;
  }

  lemma TrimmedStep(eager: State, lazy: State, e: Event, now: nat)
    requires Trimmed(eager, lazy, now) && now <= e.now
    ensures Trimmed(Step(eager, e).0, Step(lazy, e).0, e.now)
    ensures Forgets(Step(lazy, e).1, Step(eager, e).1)
  {
    forall p
      ensures TrimmedSlot(SlotOf(Step(eager, e).0, p), SlotOf(Step(lazy, e).0, p), e.now)
      ensures About(e, p) ==> Forgets(Step(lazy, e).1, Step(eager, e).1)
    {
      assert TrimmedSlot(SlotOf(eager, p), SlotOf(lazy, p), now);
      TrimmedLater(SlotOf(eager, p), SlotOf(lazy, p), now, e.now);
      StepAtPeer(eager, e, p);
      StepAtPeer(lazy, e, p);
      TrimmedSlotStep(SlotOf(eager, p), SlotOf(lazy, p), eager.cooldown, e, p);
    }
    if e.op.DoInitiate? || e.op.DoVerify? {
      assert About(e, e.op.peer);
    }
  }

  lemma TrimmedLater(eager: Slot, lazy: Slot, now: nat, later: nat)
    requires TrimmedSlot(eager, lazy, now) && now <= later
    ensures TrimmedSlot(eager, lazy, later)
  {
    assert EvictSlot(EvictSlot(eager, now), later) == EvictSlot(eager, later);
    assert EvictSlot(EvictSlot(lazy, now), later) == EvictSlot(lazy, later);
  }

  lemma {:induction false} TrimmedRun(eager: State, lazy: State, events: seq<Event>, now: nat)
    requires Trimmed(eager, lazy, now) && Monotone(events) && (events != [] ==> now <= events[0].now)
    ensures Trimmed(Run(eager, events), Run(lazy, events), if events == [] then now else Last(events).now)
    ensures events != [] ==> Forgets(OutcomeAt(lazy, events), OutcomeAt(eager, events))
  {
    if events != [] {
      var past := Front(events);
      TrimmedRun(eager, lazy, past, now);
      TrimmedStep(Run(eager, past), Run(lazy, past), Last(events), if past == [] then now else Last(past).now);
    }
  }

  lemma {:induction false} RunConcat(s: State, a: seq<Event>, b: seq<Event>)
    ensures Run(s, a + b) == Run(Run(s, a), b)
  {
    if b == [] {
      assert a + b == a;
    } else {
      RunConcat(s, a, Front(b));
      FrontConcat(a, b);
    }
  }

  lemma OutcomeConcat(s: State, a: seq<Event>, b: seq<Event>)
    requires b != []
    ensures OutcomeAt(s, a + b) == OutcomeAt(Run(s, a), b)
  {
    RunConcat(s, a, Front(b));
    FrontConcat(a, b);
  }

  lemma RunAppend(s: State, events: seq<Event>, e: Event)
    ensures Run(s, events + [e]) == Step(Run(s, events), e).0
  {
    FrontAppend(events, e);
  }

  lemma EvictTrims(s: State, now: nat)
    ensures Trimmed(Evict(s, now), s, now)
  {
  }

  /** An eviction inserted anywhere changes no later outcome except `Expired` into `NoPending`. */
  lemma EvictionIsInvisible(s: State, before: seq<Event>, now: nat, after: seq<Event>)
    requires Monotone(after) && after != [] && now <= after[0].now
    ensures Forgets(OutcomeAt(s, before + after), OutcomeAt(s, before + [Event(now, DoEvict)] + after))
  {
    var lazy := Run(s, before);
    RunAppend(s, before, Event(now, DoEvict));
    OutcomeConcat(s, before, after);
    OutcomeConcat(s, before + [Event(now, DoEvict)], after);
    EvictTrims(lazy, now);
    TrimmedRun(Evict(lazy, now), lazy, after, now);
  }

  // ----- approval ----------------------------------------------------------------------------

  /** Event `i` issued the code now in force: nothing later issued to, or approved, the peer. */
  ghost predicate IssuedAt(s: State, events: seq<Event>, peer: string, i: nat) {
    && i < |events|
    && Issues(SlotOf(Run(s, events[..i]), peer), events[i], peer)
    && forall j :: i < j < |events| ==> Uneventful(s, events, peer, j)
  }

  ghost predicate Uneventful(s: State, events: seq<Event>, peer: string, j: nat)
    requires j < |events|
  {
    var x := SlotOf(Run(s, events[..j]), peer);
    !Issues(x, events[j], peer) && !Approves(x, events[j], peer)
  }

  ghost predicate BackedBy(x: Slot, e: Event)
    requires e.op.DoInitiate?
  {
    x.challenge.Some? ==>
      var c := x.challenge.value;
      && c.code == e.op.newCode && c.peerId == e.op.peer && c.username == e.op.username && c.senderName == e.op.senderName
      && c.createdAt == e.now && c.expiresAt == e.now + 300
  }

  lemma IssuedLast(s: State, events: seq<Event>, peer: string)
    requires events != [] && Issues(SlotOf(Run(s, Front(events)), peer), Last(events), peer)
    ensures IssuedAt(s, events, peer, |events| - 1)
  {
    assert events[..|events| - 1] == Front(events);
  }

  /** A slot that holds a challenge after an event got it from that event, or held it before. */
  lemma SlotBacked(x: Slot, cooldown: nat, e: Event, peer: string)
    requires SlotStep(x, cooldown, e, peer).0.challenge.Some?
    ensures Issues(x, e, peer) ==> BackedBy(SlotStep(x, cooldown, e, peer).0, e)
    ensures !Issues(x, e, peer) ==> !Approves(x, e, peer) && x.challenge.Some?
    ensures !Issues(x, e, peer) ==> forall i: Event :: i.op.DoInitiate? && BackedBy(x, i) ==> BackedBy(SlotStep(x, cooldown, e, peer).0, i)
  {
  }

  lemma {:induction false} ChallengesAreBacked(cooldown: nat, events: seq<Event>, peer: string) returns (i: nat)
    requires SlotOf(Run(Empty(cooldown), events), peer).challenge.Some?
    ensures IssuedAt(Empty(cooldown), events, peer, i)
    ensures BackedBy(SlotOf(Run(Empty(cooldown), events), peer), events[i])
  {
    var s, past, e := Empty(cooldown), Front(events), Last(events);
    var x := SlotOf(Run(s, past), peer);
    StepAtPeer(Run(s, past), e, peer);
    SlotBacked(x, Run(s, past).cooldown, e, peer);
    if Issues(x, e, peer) {
      i := |events| - 1;
      IssuedLast(s, events, peer);
    } else {
      i := ChallengesAreBacked(cooldown, past, peer);
      assert events[..|past|] == past;
      IssuedExtends(s, events, peer, i);
      assert past[i] == events[i];
    }
  }

  lemma IssuedExtends(s: State, events: seq<Event>, peer: string, i: nat)
    requires events != [] && IssuedAt(s, Front(events), peer, i)
    requires Uneventful(s, events, peer, |events| - 1)
    ensures IssuedAt(s, events, peer, i)
  {
    var past := Front(events);
    assert past[..i] == events[..i] && past[i] == events[i];
    forall j | i < j < |events| ensures Uneventful(s, events, peer, j) {
      if j < |past| {
        assert past[..j] == events[..j] && past[j] == events[j];
        assert Uneventful(s, past, peer, j);
      }
    }
  }

  /** Approval needs the latest code issued to the peer, unexpired and never used before. */
  lemma ApprovalNeedsLatestCode(cooldown: nat, events: seq<Event>, peer: string)
    requires events != [] && About(Last(events), peer) && OutcomeAt(Empty(cooldown), events) == Verified(Approved)
    ensures exists i: nat ::
              && IssuedAt(Empty(cooldown), Front(events), peer, i)
              && Last(events).op.DoVerify?
              && Last(events).op.code == events[i].op.newCode
              && Last(events).now < events[i].now + 300
  {
    var s, past := Empty(cooldown), Front(events);
    ClassesAreOutcomes(Run(s, past), Last(events), peer);
    var i := ChallengesAreBacked(cooldown, past, peer);
    assert past[i] == events[i];
  }

  // ----- the life of a challenge -----------------------------------------------------------------

  /** Guesses answered one after another, all of them wrong. */
  function AfterWrong(s: State, peer: string, guesses: seq<(string, nat)>): State {
    if guesses == [] then s
    else Verify(AfterWrong(s, peer, Front(guesses)), peer, Last(guesses).0, Last(guesses).1).0
  }

  /** The guesses differ from the code and come while it is in force. */
  ghost predicate WrongGuesses(guesses: seq<(string, nat)>, code: string, issuedAt: nat) {
    forall g :: g in guesses ==> g.0 != code && g.1 < issuedAt + 300
  }

  /** A fresh challenge and what up to two wrong guesses leave of it. */
  lemma {:induction false} WrongGuessesCount(
      s: State, peer: string, username: Option<string>, senderName: Option<string>, code: string, t: nat,
      guesses: seq<(string, nat)>)
    requires Initiate(s, peer, username, senderName, t, code).1 == Created(code)
    requires |guesses| <= 2 && WrongGuesses(guesses, code, t)
    ensures var now := AfterWrong(Initiate(s, peer, username, senderName, t, code).0, peer, guesses);
            && now.cooldown == s.cooldown
            && SlotOf(now, peer) == Slot(Some(Challenge(code, peer, username, senderName, t, t + 300, |guesses|)), None)
    decreases |guesses|
  {
    if guesses != [] {
      assert Last(guesses) in guesses && forall g :: g in Front(guesses) ==> g in guesses;
      WrongGuessesCount(s, peer, username, senderName, code, t, Front(guesses));
    }
  }

  /** After up to two wrong guesses: the code is approved for 300 seconds and then expired, another guess is counted down and
      the third locks, and a second challenge is refused while this one is in force. */
  lemma ChallengeAnswers(
      s: State, peer: string, username: Option<string>, senderName: Option<string>, code: string, t: nat,
      guesses: seq<(string, nat)>, guess: string, now: nat, newCode: string)
    requires Initiate(s, peer, username, senderName, t, code).1 == Created(code)
    requires |guesses| <= 2 && WrongGuesses(guesses, code, t)
    ensures var after := AfterWrong(Initiate(s, peer, username, senderName, t, code).0, peer, guesses);
            && Verify(after, peer, guess, now).1 ==
               (if now >= t + 300 then Expired
                else if guess == code then Approved
                else if |guesses| == 2 then LockedOut
                else WrongCode(2 - |guesses|))
            && Initiate(after, peer, username, senderName, now, newCode).1 ==
               (if now < t + 300 then AlreadyPending else Created(newCode))
  {
    WrongGuessesCount(s, peer, username, senderName, code, t, guesses);
  }

  /** The third wrong guess locks the peer for the cooldown, and leaves nothing to verify. */
  lemma LockoutAnswers(
      s: State, peer: string, username: Option<string>, senderName: Option<string>, code: string, t: nat,
      guesses: seq<(string, nat)>, guess: string, now: nat, newCode: string)
    requires Initiate(s, peer, username, senderName, t, code).1 == Created(code)
    requires |guesses| == 3 && WrongGuesses(guesses, code, t)
    ensures var after := AfterWrong(Initiate(s, peer, username, senderName, t, code).0, peer, guesses);
            var locked := now < guesses[2].1 + s.cooldown;
            && Verify(after, peer, guess, now).1 == (if locked then LockedOut else NoPending)
            && Initiate(after, peer, username, senderName, now, newCode).1 ==
               (if locked then InitLockedOut else Created(newCode))
  {
    assert Last(guesses) in guesses && forall g :: g in Front(guesses) ==> g in guesses;
    WrongGuessesCount(s, peer, username, senderName, code, t, Front(guesses));
  }
}
