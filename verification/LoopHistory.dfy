/** What the loop detector means over a whole run: the capped windows and the escalation
    stages are determined by the plain history of rounds since the last clear. */
module LoopHistory {
  import opened LoopDetector
  import opened Sequences

  datatype Config = Config(window: nat, strip: bool)

  /** What one completed round observed: a representative failure per observed identity. */
  type Observation = map<Identity, Fingerprint>

  datatype Op = Round(obs: Observation) | ClearStripTools | Reset

  ghost function Apply(d: Detector, op: Op): (Detector, Action) {
    match op
    case Round(obs) => ObserveStep(d, obs)
    case ClearStripTools => (if d.stage == Stripped then Fresh(d.window, d.stripOnSecondFire) else d, NoAction)
    case Reset => (Fresh(d.window, d.stripOnSecondFire), NoAction)
  }

  /** The detector after `ops`, starting fresh. */
  ghost function Run(c: Config, ops: seq<Op>): Detector {
    if ops == [] then Fresh(c.window, c.strip) else Apply(Run(c, Front(ops)), Last(ops)).0
  }

  /** The action returned by the last operation of `ops`. */
  ghost function ActionAt(c: Config, ops: seq<Op>): Action
    requires ops != []
  {
    Apply(Run(c, Front(ops)), Last(ops)).1
  }

  // ----- the specification: unbounded history -------------------------------------

  /** How many of the latest rounds, without a gap, observed `id`. */
  ghost function Streak(rounds: seq<Observation>, id: Identity): nat {
    if rounds == [] || id !in Last(rounds) then 0 else 1 + Streak(Front(rounds), id)
  }

  ghost function LongStreaks(rounds: seq<Observation>, window: nat): set<Identity>
    requires rounds != []
  {
    set id | id in Last(rounds) && Streak(rounds, id) >= window
  }

  datatype Summary = Summary(rounds: seq<Observation>, stage: Stage, named: set<Identity>)

  ghost function Summarize(c: Config, ops: seq<Op>): Summary {
    if ops == [] then Summary([], NoIntervention, {})
    else
      var before := Summarize(c, Front(ops));
      match Last(ops)
      case Reset => Summary([], NoIntervention, {})
      case ClearStripTools => if before.stage == Stripped then Summary([], NoIntervention, {}) else before
      case Round(obs) => SummarizeRound(c, before, obs)
  }

  ghost function SummarizeRound(c: Config, before: Summary, obs: Observation): Summary {
    var rounds := before.rounds + [obs];
    var long := LongStreaks(rounds, c.window);
    if obs == map[] then Summary(rounds, NoIntervention, {})
    else if before.stage == Stripped then before.(rounds := rounds)
    else if before.stage == Nudged && before.named * obs.Keys != {} then
      before.(rounds := rounds, stage := if c.strip then Stripped else Nudged)
    else if long != {} then Summary(rounds, Nudged, long)
    else Summary(rounds, NoIntervention, {})
  }

  /** The action the history calls for when one more round completes. */
  ghost function RoundAction(c: Config, before: Summary, obs: Observation): Action {
    if obs == map[] || before.stage == Stripped then NoAction
    else if before.stage == Nudged && before.named * obs.Keys != {} then (if c.strip then StripTools else NoAction)
    else if LongStreaks(before.rounds + [obs], c.window) != {} then InjectNudge
    else NoAction
  }

  /** The representatives `id` had in the last `k` rounds. */
  ghost function Recent(rounds: seq<Observation>, id: Identity, k: nat): (reps: seq<Fingerprint>)
    requires k <= Streak(rounds, id)
    ensures |reps| == k
  {
    if k == 0 then [] else Recent(Front(rounds), id, k - 1) + [Last(rounds)[id]]
  }

  lemma {:induction false} StreakIndex(rounds: seq<Observation>, id: Identity, i: nat)
    requires i < Streak(rounds, id)
    ensures Streak(rounds, id) <= |rounds|
    ensures id in rounds[|rounds| - 1 - i]
  {
    if i > 0 {
      StreakIndex(Front(rounds), id, i - 1);
    } else if Streak(Front(rounds), id) > 0 {
      StreakIndex(Front(rounds), id, 0);
    }
  }

  lemma {:induction false} RecentAt(rounds: seq<Observation>, id: Identity, k: nat, i: nat)
    requires k <= Streak(rounds, id) && i < k
    ensures k <= |rounds| && id in rounds[|rounds| - k + i]
    ensures Recent(rounds, id, k)[i] == rounds[|rounds| - k + i][id]
  {
    StreakIndex(rounds, id, k - 1 - i);
    if i < k - 1 {
      RecentAt(Front(rounds), id, k - 1, i);
    }
  }

  lemma {:induction false} RecentDropsOldest(rounds: seq<Observation>, id: Identity, k: nat)
    requires 0 < k <= Streak(rounds, id)
    ensures Recent(rounds, id, k)[1..] == Recent(rounds, id, k - 1)
  {
    if k > 1 {
      RecentDropsOldest(Front(rounds), id, k - 1);
    }
  }

  lemma PushExtendsRecent(rounds: seq<Observation>, obs: Observation, id: Identity, window: nat)
    requires window > 0 && id in obs
    ensures Streak(rounds + [obs], id) == Streak(rounds, id) + 1
    ensures Push(Recent(rounds, id, Min(window, Streak(rounds, id))), obs[id], window)
         == Recent(rounds + [obs], id, Min(window, Streak(rounds + [obs], id)))
  {
    var grown := rounds + [obs];
    assert Front(grown) == rounds && Last(grown) == obs;
    if Streak(rounds, id) >= window {
      RecentDropsOldest(rounds, id, window);
    }
  }

  /** `window` representatives of one identity, one from each of `window` consecutive rounds
      the last of which is the `n`-th. */
  ghost predicate EvidenceUpTo(evidence: seq<Fingerprint>, rounds: seq<Observation>, id: Identity, window: nat, n: nat) {
    && window <= n <= |rounds|
    && |evidence| == window
    && forall i :: n - window <= i < n ==> id in rounds[i] && evidence[i - (n - window)] == rounds[i][id]
  }

  ghost predicate Evident(evidence: seq<Fingerprint>, rounds: seq<Observation>, window: nat) {
    exists id, n: nat :: EvidenceUpTo(evidence, rounds, id, window, n)
  }

  ghost predicate ActiveMatches(d: Detector, rounds: seq<Observation>) {
    && (forall id :: id in d.active <==> Streak(rounds, id) > 0)
    && (forall id :: id in d.active ==> d.active[id] == Recent(rounds, id, Min(d.window, Streak(rounds, id))))
  }

  ghost predicate Refines(d: Detector, c: Config, s: Summary) {
    && d.window == c.window && d.stripOnSecondFire == c.strip
    && d.stage == s.stage && d.named == s.named
    && ActiveMatches(d, s.rounds)
    && (if s.stage == NoIntervention then d.evidence == [] && d.named == {}
        else Evident(d.evidence, s.rounds, c.window))
  }

  lemma ExtendMatches(d: Detector, rounds: seq<Observation>, obs: Observation)
    requires d.window > 0 && ActiveMatches(d, rounds)
    ensures ActiveMatches(d.(active := Extend(d.active, obs, d.window)), rounds + [obs])
  {
    var grown := rounds + [obs];
    assert Front(grown) == rounds && Last(grown) == obs;
    var active := Extend(d.active, obs, d.window);
    forall id | id in obs
      ensures active[id] == Recent(grown, id, Min(d.window, Streak(grown, id)))
    {
      PushExtendsRecent(rounds, obs, id, d.window);
    }
  }

  lemma FullIsLong(d: Detector, rounds: seq<Observation>)
    requires rounds != [] && d.window > 0 && ActiveMatches(d, rounds)
    ensures Full(d.active, d.window) == LongStreaks(rounds, d.window)
    ensures forall id :: id in Full(d.active, d.window) ==> Evident(d.active[id], rounds, d.window)
  {
    assert forall id :: Streak(rounds, id) > 0 <==> id in Last(rounds);
    forall id | id in Full(d.active, d.window) ensures Evident(d.active[id], rounds, d.window) {
      RecentIsEvidence(rounds, id, d.window);
    }
  }

  lemma RecentIsEvidence(rounds: seq<Observation>, id: Identity, window: nat)
    requires 0 < window <= Streak(rounds, id)
    ensures EvidenceUpTo(Recent(rounds, id, window), rounds, id, window, |rounds|)
  {
    StreakIndex(rounds, id, window - 1);
    forall i | |rounds| - window <= i < |rounds|
      ensures id in rounds[i] && Recent(rounds, id, window)[i - (|rounds| - window)] == rounds[i][id]
    {
      RecentAt(rounds, id, window, i - (|rounds| - window));
    }
  }

  lemma EvidencePersists(evidence: seq<Fingerprint>, rounds: seq<Observation>, obs: Observation, window: nat)
    requires Evident(evidence, rounds, window)
    ensures Evident(evidence, rounds + [obs], window)
  {
    var id, n: nat :| EvidenceUpTo(evidence, rounds, id, window, n);
    assert EvidenceUpTo(evidence, rounds + [obs], id, window, n);
  }

  lemma EmptyRoundBreaksAll(rounds: seq<Observation>, obs: Observation)
    requires obs == map[]
    ensures forall id :: Streak(rounds + [obs], id) == 0
  {
    assert Last(rounds + [obs]) == obs;
  }

  /** Every named identity of a nudged detector still has a long streak unless stripping is off. */
  ghost predicate NamedAreLong(c: Config, s: Summary) {
    s.stage == Nudged && c.strip ==> forall id :: id in s.named ==> Streak(s.rounds, id) >= c.window
  }

  /** The detector, its streaks extended by a round, before escalation. */
  ghost predicate Extended(e: Detector, c: Config, s: Summary, rounds: seq<Observation>) {
    && e.window == c.window && e.stripOnSecondFire == c.strip && e.stage == s.stage && e.named == s.named
    && ActiveMatches(e, rounds)
    && (if s.stage == NoIntervention then e.evidence == [] && e.named == {} else Evident(e.evidence, rounds, c.window))
  }

  lemma ExtendRefines(d: Detector, c: Config, s: Summary, obs: Observation)
    requires c.window > 0 && Refines(d, c, s)
    ensures Extended(d.(active := Extend(d.active, obs, d.window)), c, s, s.rounds + [obs])
  {
    ExtendMatches(d, s.rounds, obs);
    if s.stage != NoIntervention {
      EvidencePersists(d.evidence, s.rounds, obs, c.window);
    }
  }

  /** Every named identity that recurs has failed for more than a window. */
  lemma RepeatedIsLong(c: Config, s: Summary, obs: Observation, id: Identity)
    requires c.window > 0 && NamedAreLong(c, s) && s.stage == Nudged && c.strip && id in s.named && id in obs
    ensures Streak(s.rounds + [obs], id) > c.window
  {
    PushExtendsRecent(s.rounds, obs, id, c.window);
  }

  lemma EscalateRefines(e: Detector, c: Config, s: Summary, obs: Observation)
    requires c.window > 0 && obs.Keys != {} && NamedAreLong(c, s) && Extended(e, c, s, s.rounds + [obs])
    ensures Refines(Escalate(e, obs.Keys).0, c, SummarizeRound(c, s, obs))
    ensures NamedAreLong(c, SummarizeRound(c, s, obs))
    ensures Escalate(e, obs.Keys).1 == RoundAction(c, s, obs)
  {
    var rounds := s.rounds + [obs];
    FullIsLong(e, rounds);
    assert obs != map[];
    var repeated := e.named * obs.Keys;
    if s.stage == Nudged && repeated != {} && c.strip {
      RepeatedIsLong(c, s, obs, Least(repeated));
      assert Least(repeated) in Full(e.active, e.window);
    }
  }

  lemma RoundRefines(d: Detector, c: Config, s: Summary, obs: Observation)
    requires c.window > 0 && Refines(d, c, s) && NamedAreLong(c, s)
    ensures Refines(ObserveStep(d, obs).0, c, SummarizeRound(c, s, obs))
    ensures NamedAreLong(c, SummarizeRound(c, s, obs))
    ensures ObserveStep(d, obs).1 == RoundAction(c, s, obs)
  {
    if obs == map[] {
      EmptyRoundBreaksAll(s.rounds, obs);
    } else {
      assert obs.Keys != {};
      ExtendRefines(d, c, s, obs);
      EscalateRefines(d.(active := Extend(d.active, obs, d.window)), c, s, obs);
    }
  }

  /** The detector refines the unbounded history after every run. */
  lemma {:induction false} RunRefinesHistory(c: Config, ops: seq<Op>)
    requires c.window > 0
    ensures Refines(Run(c, ops), c, Summarize(c, ops))
    ensures NamedAreLong(c, Summarize(c, ops))
    ensures ops != [] && Last(ops).Round? ==>
              ActionAt(c, ops) == RoundAction(c, Summarize(c, Front(ops)), Last(ops).obs)
  {
    if ops != [] {
      RunRefinesHistory(c, Front(ops));
      match Last(ops)
      case Round(obs) =>
        RoundRefines(Run(c, Front(ops)), c, Summarize(c, Front(ops)), obs);
      case ClearStripTools =>
      case Reset =>
    }
  }

  /** Streak lengths after any run: active exactly when the last round since the clear observed the
      identity, with min(window, consecutive observing rounds) entries, newest last. */
  lemma ActiveStreaks(c: Config, ops: seq<Op>, id: Identity)
    requires c.window > 0
    ensures var rounds := Summarize(c, ops).rounds;
            && (id in Run(c, ops).active <==> rounds != [] && id in Last(rounds))
            && (id in Run(c, ops).active ==>
                  && |Run(c, ops).active[id]| == Min(c.window, Streak(rounds, id))
                  && Run(c, ops).active[id] == Recent(rounds, id, Min(c.window, Streak(rounds, id))))
  {
    RunRefinesHistory(c, ops);
  }

  /** While an intervention is in force the evidence is one failure per consecutive round of one identity. */
  lemma EvidenceShape(c: Config, ops: seq<Op>)
    requires c.window > 0
    ensures Run(c, ops).stage != NoIntervention ==>
              && |Run(c, ops).evidence| == c.window
              && exists id, n: nat :: EvidenceUpTo(Run(c, ops).evidence, Summarize(c, ops).rounds, id, c.window, n)
    ensures Run(c, ops).stage == NoIntervention ==> Run(c, ops).evidence == [] && Run(c, ops).named == {}
  {
    RunRefinesHistory(c, ops);
  }

  /** The evidence is what `id` was represented by in the latest `window` rounds. */
  ghost predicate LatestEvidence(evidence: seq<Fingerprint>, rounds: seq<Observation>, id: Identity, window: nat) {
    window <= Streak(rounds, id) && evidence == Recent(rounds, id, window)
  }

  lemma EscalationEvidence(e: Detector, c: Config, s: Summary, obs: Observation)
    requires c.window > 0 && obs.Keys != {} && NamedAreLong(c, s) && Extended(e, c, s, s.rounds + [obs])
    ensures var rounds, after := s.rounds + [obs], Escalate(e, obs.Keys);
            && (after.1 == InjectNudge ==>
                  && LongStreaks(rounds, c.window) != {} && after.0.named == LongStreaks(rounds, c.window)
                  && LatestEvidence(after.0.evidence, rounds, Least(LongStreaks(rounds, c.window)), c.window))
            && (after.1 == StripTools ==>
                  && s.named * obs.Keys != {} && after.0.named == s.named
                  && LatestEvidence(after.0.evidence, rounds, Least(s.named * obs.Keys), c.window))
  {
    var rounds := s.rounds + [obs];
    FullIsLong(e, rounds);
    var repeated := s.named * obs.Keys;
    if s.stage == Nudged && repeated != {} && c.strip {
      RepeatedIsLong(c, s, obs, Least(repeated));
    }
  }

  /** A nudge names every long streak and shows the first of them, by its failures in the latest `window` rounds. A strip
      shows the first named identity that recurs, by its failures in the latest `window` rounds, this one included. */
  lemma EvidenceAtIntervention(c: Config, ops: seq<Op>)
    requires c.window > 0 && ops != [] && Last(ops).Round?
    ensures var s, obs, after := Summarize(c, Front(ops)), Last(ops).obs, Run(c, ops);
            var rounds := s.rounds + [obs];
            && (ActionAt(c, ops) == InjectNudge ==>
                  && LongStreaks(rounds, c.window) != {} && after.named == LongStreaks(rounds, c.window)
                  && LatestEvidence(after.evidence, rounds, Least(LongStreaks(rounds, c.window)), c.window))
            && (ActionAt(c, ops) == StripTools ==>
                  && s.named * obs.Keys != {} && after.named == s.named
                  && LatestEvidence(after.evidence, rounds, Least(s.named * obs.Keys), c.window))
  {
    var d, s, obs := Run(c, Front(ops)), Summarize(c, Front(ops)), Last(ops).obs;
    RunRefinesHistory(c, Front(ops));
    if obs != map[] {
      assert obs.Keys != {};
      ExtendRefines(d, c, s, obs);
      EscalationEvidence(d.(active := Extend(d.active, obs, d.window)), c, s, obs);
    }
  }

  // ----- safety of escalation -------------------------------------------------------

  /** Position `n` is a round that nudged and only ineffective clears follow it. */
  ghost predicate NudgedBy(c: Config, ops: seq<Op>, n: nat) {
    && n < |ops| && ops[n].Round? && ActionAt(c, ops[..n + 1]) == InjectNudge
    && forall k :: n < k < |ops| ==> ops[k] == ClearStripTools
  }

  lemma RoundIntoNudged(d: Detector, obs: Observation)
    requires d.window > 0 && d.stripOnSecondFire && ObserveStep(d, obs).0.stage == Nudged
    ensures ObserveStep(d, obs).1 == InjectNudge
  {
  }

  lemma LastNudges(c: Config, ops: seq<Op>)
    requires ops != [] && Last(ops).Round? && ActionAt(c, ops) == InjectNudge
    ensures NudgedBy(c, ops, |ops| - 1)
  {
    assert ops[..|ops| - 1 + 1] == ops;
  }

  lemma NudgedByExtends(c: Config, ops: seq<Op>, n: nat)
    requires ops != [] && Last(ops) == ClearStripTools && NudgedBy(c, Front(ops), n)
    ensures NudgedBy(c, ops, n)
  {
    var past := Front(ops);
    assert past[..n + 1] == ops[..n + 1];
    forall k | n < k < |ops| ensures ops[k] == ClearStripTools {
      if k < |past| {
        assert past[k] == ops[k];
      }
    }
  }

  lemma {:induction false} NudgedHasNudge(c: Config, ops: seq<Op>) returns (n: nat)
    requires c.window > 0 && c.strip && Run(c, ops).stage == Nudged
    ensures NudgedBy(c, ops, n)
  {
    if Last(ops).Round? {
      RunKeepsConfig(c, Front(ops));
      RoundIntoNudged(Run(c, Front(ops)), Last(ops).obs);
      LastNudges(c, ops);
      n := |ops| - 1;
    } else {
      n := NudgedHasNudge(c, Front(ops));
      NudgedByExtends(c, ops, n);
    }
  }

  lemma {:induction false} RunKeepsConfig(c: Config, ops: seq<Op>)
    ensures Run(c, ops).window == c.window && Run(c, ops).stripOnSecondFire == c.strip
  {
    if ops != [] {
      RunKeepsConfig(c, Front(ops));
    }
  }

  /** Tools are stripped only right after a nudge round, with no clear taking effect between, and only
      when one identity failed in window + 1 consecutive rounds ending now. */
  lemma StripFollowsNudge(c: Config, ops: seq<Op>)
    requires ops != [] && ActionAt(c, ops) == StripTools
    ensures c.window > 0 && c.strip && Last(ops).Round?
    ensures exists n: nat :: NudgedBy(c, Front(ops), n)
    ensures exists id :: id in Run(c, Front(ops)).named && Streak(Summarize(c, ops).rounds, id) >= c.window + 1
    ensures Summarize(c, ops).rounds == Summarize(c, Front(ops)).rounds + [Last(ops).obs]
  {
    RunKeepsConfig(c, Front(ops));
    RunRefinesHistory(c, Front(ops));
    var n := NudgedHasNudge(c, Front(ops));
    var obs := Last(ops).obs;
    var repeated := Run(c, Front(ops)).named * obs.Keys;
    var id := Least(repeated);
    PushExtendsRecent(Summarize(c, Front(ops)).rounds, obs, id, c.window);
    assert id in Run(c, Front(ops)).named;
  }

  /** After tools are stripped nothing more is raised until a clear or a failure-free round. */
  lemma {:induction false} SilentAfterStrip(c: Config, ops: seq<Op>, more: seq<Op>)
    requires ops != [] && ActionAt(c, ops) == StripTools
    requires forall op :: op in more ==> op.Round? && op.obs != map[]
    ensures Run(c, ops + more).stage == Stripped
    ensures more != [] ==> ActionAt(c, ops + more) == NoAction
  {
    RunKeepsConfig(c, Front(ops));
    if more == [] {
      assert ops + more == ops;
    } else {
      FrontConcat(ops, more);
      assert Last(more) in more;
      forall op | op in Front(more) ensures op in more {}
      SilentAfterStrip(c, ops, Front(more));
      RunKeepsConfig(c, Front(ops + more));
    }
  }

  ghost predicate ActiveAfter(c: Config, ops: seq<Op>, id: Identity, k: nat)
    requires k < |ops|
  {
    id in Run(c, ops[..k + 1]).active
  }

  /** `id` stays observed without a gap from after position `i` through position `j`. */
  ghost predicate Unbroken(c: Config, ops: seq<Op>, id: Identity, i: nat, j: nat) {
    j < |ops| && forall k :: i < k <= j ==> ActiveAfter(c, ops, id, k)
  }

  lemma StepKeepsNamed(d: Detector, op: Op, id: Identity)
    requires d.window > 0 && d.stage != NoIntervention && id in d.named
    requires id in Apply(d, op).0.active
    ensures Apply(d, op).0.stage != NoIntervention && id in Apply(d, op).0.named
    ensures Apply(d, op).1 != InjectNudge
  {
    if op.Round? {
      assert id in op.obs.Keys;
      assert id in d.named * op.obs.Keys;
    }
  }

  ghost predicate NamedIn(d: Detector, id: Identity) {
    d.stage != NoIntervention && id in d.named
  }

  lemma NamedStep(c: Config, ops: seq<Op>, id: Identity, j: nat)
    requires j < |ops| && c.window > 0 && ActiveAfter(c, ops, id, j) && NamedIn(Run(c, ops[..j]), id)
    ensures NamedIn(Run(c, ops[..j + 1]), id) && ActionAt(c, ops[..j + 1]) != InjectNudge
  {
    FrontPrefix(ops, j);
    RunKeepsConfig(c, ops[..j]);
    StepKeepsNamed(Run(c, ops[..j]), ops[j], id);
  }

  lemma {:induction false} NamedPersists(c: Config, ops: seq<Op>, id: Identity, i: nat, j: nat)
    requires c.window > 0 && i <= j && Unbroken(c, ops, id, i, j) && NamedIn(Run(c, ops[..i + 1]), id)
    ensures NamedIn(Run(c, ops[..j + 1]), id)
    ensures j > i ==> ActionAt(c, ops[..j + 1]) != InjectNudge
    decreases j
  {
    if j > i {
      NamedPersists(c, ops, id, i, j - 1);
      assert ActiveAfter(c, ops, id, j);
      NamedStep(c, ops, id, j);
    }
  }

  lemma NudgeNames(c: Config, ops: seq<Op>)
    requires ops != [] && ActionAt(c, ops) == InjectNudge
    ensures c.window > 0 && Run(c, ops).stage == Nudged
  {
    RunKeepsConfig(c, Front(ops));
  }

  /** The operation at position `i` nudges and names `id`. */
  ghost predicate NudgesAt(c: Config, ops: seq<Op>, id: Identity, i: nat) {
    i < |ops| && ActionAt(c, ops[..i + 1]) == InjectNudge && id in Run(c, ops[..i + 1]).named
  }

  /** One uninterrupted streak is named by at most one nudge over the whole run. */
  lemma NudgedOncePerStreak(c: Config, ops: seq<Op>, id: Identity, i: nat, j: nat)
    ensures i < j && NudgesAt(c, ops, id, i) && NudgesAt(c, ops, id, j) ==>
              exists k :: i < k <= j && !ActiveAfter(c, ops, id, k)
  {
    if i < j && NudgesAt(c, ops, id, i) && NudgesAt(c, ops, id, j) {
      NudgeNames(c, ops[..i + 1]);
      if Unbroken(c, ops, id, i, j) {
        NamedPersists(c, ops, id, i, j);
      }
    }
  }

  lemma {:induction false} DisabledDetector(c: Config, ops: seq<Op>)
    requires c.window == 0
    ensures Run(c, ops) == Fresh(0, c.strip)
    ensures ops != [] ==> ActionAt(c, ops) == NoAction
  {
    if ops != [] {
      DisabledDetector(c, Front(ops));
    }
  }

  // ----- insensitivity to sibling order ------------------------------------------------

  /** A call as the agent loop makes it, before the batch is reduced. */
  datatype Call = Batch(outcomes: seq<Fingerprint>) | Clear | ResetAll

  ghost function Reduced(call: Call): Op {
    match call
    case Batch(outcomes) => Round(Observations(outcomes))
    case Clear => ClearStripTools
    case ResetAll => Reset
  }

  ghost function Digest(calls: seq<Call>): (ops: seq<Op>)
    ensures |ops| == |calls|
  {
    seq(|calls|, i requires 0 <= i < |calls| => Reduced(calls[i]))
  }

  ghost predicate SameBatch(a: seq<Fingerprint>, b: seq<Fingerprint>) {
    forall o :: o in a <==> o in b
  }

  ghost predicate SameCall(a: Call, b: Call) {
    if a.Batch? && b.Batch? then SameBatch(a.outcomes, b.outcomes) else a == b
  }

  ghost predicate SameCalls(a: seq<Call>, b: seq<Call>) {
    |a| == |b| && forall i :: 0 <= i < |a| ==> SameCall(a[i], b[i])
  }

  lemma SameBatchObserves(a: seq<Fingerprint>, b: seq<Fingerprint>)
    requires SameBatch(a, b)
    ensures SuccessfulOperations(a) == SuccessfulOperations(b) && Observed(a) == Observed(b)
  {
    assert SuccessfulOperations(a) == SuccessfulOperations(b);
    forall id ensures ObservedIn(id, a) <==> ObservedIn(id, b) {}
  }

  /** The two operations see the same identities. */
  ghost predicate SameKeys(a: Op, b: Op) {
    if a.Round? && b.Round? then a.obs.Keys == b.obs.Keys else a == b
  }

  /** Agreement on everything but which of several tied failures represents a round. */
  ghost predicate Alike(d: Detector, e: Detector) {
    && d.window == e.window && d.stripOnSecondFire == e.stripOnSecondFire
    && d.stage == e.stage && d.named == e.named
    && d.active.Keys == e.active.Keys
    && forall id :: id in d.active ==> |d.active[id]| == |e.active[id]|
  }

  lemma ExtendAlike(d: Detector, e: Detector, x: Observation, y: Observation)
    requires Alike(d, e) && x.Keys == y.Keys && d.window > 0
    ensures Alike(d.(active := Extend(d.active, x, d.window)), e.(active := Extend(e.active, y, e.window)))
  {
  }

  lemma EscalateAlike(d: Detector, e: Detector, observed: set<Identity>)
    requires Alike(d, e)
    ensures Alike(Escalate(d, observed).0, Escalate(e, observed).0) && Escalate(d, observed).1 == Escalate(e, observed).1
  {
    assert Full(d.active, d.window) == Full(e.active, e.window);
  }

  lemma RoundAlike(d: Detector, e: Detector, x: Observation, y: Observation)
    requires Alike(d, e) && x.Keys == y.Keys
    ensures Alike(ObserveStep(d, x).0, ObserveStep(e, y).0) && ObserveStep(d, x).1 == ObserveStep(e, y).1
  {
    assert x == map[] <==> x.Keys == {};
    assert y == map[] <==> y.Keys == {};
    if d.window > 0 {
      ExtendAlike(d, e, x, y);
      EscalateAlike(d.(active := Extend(d.active, x, d.window)), e.(active := Extend(e.active, y, e.window)), x.Keys);
    }
  }

  lemma {:induction false} RunsAlike(c: Config, a: seq<Op>, b: seq<Op>)
    requires |a| == |b| && forall i :: 0 <= i < |a| ==> SameKeys(a[i], b[i])
    ensures Alike(Run(c, a), Run(c, b))
    ensures a != [] ==> ActionAt(c, a) == ActionAt(c, b)
  {
    if a != [] {
      RunsAlike(c, Front(a), Front(b));
      assert SameKeys(Last(a), Last(b));
      if Last(a).Round? && Last(b).Round? {
        RoundAlike(Run(c, Front(a)), Run(c, Front(b)), Last(a).obs, Last(b).obs);
      }
    }
  }

  /** Permuting or duplicating the outcomes inside rounds changes no action, stage, active identity,
      streak length or named identity, over whole runs. */
  lemma OrderInsensitive(c: Config, a: seq<Call>, b: seq<Call>)
    requires SameCalls(a, b)
    ensures Alike(Run(c, Digest(a)), Run(c, Digest(b)))
    ensures a != [] ==> ActionAt(c, Digest(a)) == ActionAt(c, Digest(b))
  {
    forall i | 0 <= i < |a| ensures SameKeys(Digest(a)[i], Digest(b)[i]) {
      assert SameCall(a[i], b[i]);
      if a[i].Batch? && b[i].Batch? {
        SameBatchObserves(a[i].outcomes, b[i].outcomes);
      }
    }
    RunsAlike(c, Digest(a), Digest(b));
  }

  /** Failures that compare equal are equal. */
  ghost predicate TieFree(failures: seq<Fingerprint>) {
    forall f, g {:trigger CompareFingerprints(f, g)} ::
      f in failures && g in failures && CompareFingerprints(f, g).Equal? ==> f == g
  }

  /** The failures of a batch that no success suppresses. */
  ghost function Unsuppressed(outcomes: seq<Fingerprint>): seq<Fingerprint> {
    Failures(outcomes, SuccessfulOperations(outcomes))
  }

  lemma LeastPickIsUnique(x: seq<Fingerprint>, y: seq<Fingerprint>, id: Identity)
    requires SameBatch(x, y) && TieFree(x)
    ensures Pick(x, id) == Pick(y, id)
  {
    PickIsEarliestLeast(x, id);
    PickIsEarliestLeast(y, id);
    if Pick(x, id).Some? {
      var i: nat :| EarliestLeast(x, id, i) && x[i] == Pick(x, id).value;
      var j: nat :| EarliestLeast(y, id, j) && y[j] == Pick(y, id).value;
      assert x[i] in y && y[j] in x;
      FingerprintFlip(x[i], y[j]);
    }
  }

  lemma SameUnsuppressed(a: seq<Fingerprint>, b: seq<Fingerprint>)
    requires SameBatch(a, b)
    ensures SameBatch(Unsuppressed(a), Unsuppressed(b))
  {
    SameBatchObserves(a, b);
  }

  lemma SameRepresentative(a: seq<Fingerprint>, b: seq<Fingerprint>, id: Identity)
    requires SameBatch(a, b) && TieFree(Unsuppressed(a)) && id in Observed(a) && id in Observed(b)
    ensures Representative(a, id) == Representative(b, id)
  {
    SameUnsuppressed(a, b);
    LeastPickIsUnique(Unsuppressed(a), Unsuppressed(b), id);
  }

  lemma SameRepresentatives(a: seq<Fingerprint>, b: seq<Fingerprint>)
    requires SameBatch(a, b) && TieFree(Unsuppressed(a))
    ensures Observations(a) == Observations(b)
  {
    SameBatchObserves(a, b);
    forall id | id in Observed(a) ensures Representative(a, id) == Representative(b, id) {
      SameRepresentative(a, b, id);
    }
  }

  /** With no ties among unsuppressed failures the whole state, evidence included, is independent of sibling order. */
  lemma OrderInsensitiveExactly(c: Config, a: seq<Call>, b: seq<Call>)
    requires SameCalls(a, b)
    requires forall i :: 0 <= i < |a| && a[i].Batch? ==> TieFree(Unsuppressed(a[i].outcomes))
    ensures Digest(a) == Digest(b)
    ensures Run(c, Digest(a)) == Run(c, Digest(b))
  {
    forall i | 0 <= i < |a| ensures Digest(a)[i] == Digest(b)[i] {
      assert SameCall(a[i], b[i]);
      if a[i].Batch? && b[i].Batch? {
        SameRepresentatives(a[i].outcomes, b[i].outcomes);
      }
    }
    assert Digest(a) == Digest(b);
  }
}
