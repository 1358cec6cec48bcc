/** What interventions mean for the batches of outcomes themselves. */
module LoopBatches {
  import opened LoopDetector
  import opened LoopHistory
  import opened Sequences

  /** The batches of a run of calls, in order. */
  ghost function Batches(calls: seq<Call>): seq<seq<Fingerprint>> {
    if calls == [] then []
    else Batches(Front(calls)) + if Last(calls).Batch? then [Last(calls).outcomes] else []
  }

  /** Round `i` is what its batch observed, counting both from the latest. */
  ghost predicate RoundOf(rounds: seq<Observation>, batches: seq<seq<Fingerprint>>, i: int) {
    0 <= i < |rounds| <= |batches| && rounds[i] == Observations(batches[|batches| - |rounds| + i])
  }

  /** The rounds of the history are what the latest batches observed. */
  ghost predicate FromLatest(rounds: seq<Observation>, batches: seq<seq<Fingerprint>>) {
    |rounds| <= |batches| && forall i {:trigger RoundOf(rounds, batches, i)} :: 0 <= i < |rounds| ==> RoundOf(rounds, batches, i)
  }

  lemma FromLatestGrows(rounds: seq<Observation>, batches: seq<seq<Fingerprint>>, outcomes: seq<Fingerprint>)
    requires FromLatest(rounds, batches)
    ensures FromLatest(rounds + [Observations(outcomes)], batches + [outcomes])
  {
    var more, all := rounds + [Observations(outcomes)], batches + [outcomes];
    forall i | 0 <= i < |more| ensures RoundOf(more, all, i) {
      if i < |rounds| {
        assert RoundOf(rounds, batches, i);
        assert all[|all| - |more| + i] == batches[|batches| - |rounds| + i];
      }
    }
  }

  lemma DigestStep(calls: seq<Call>)
    requires calls != []
    ensures Digest(calls) != [] && Front(Digest(calls)) == Digest(Front(calls)) && Last(Digest(calls)) == Reduced(Last(calls))
  {
  }

  lemma RoundsStep(c: Config, ops: seq<Op>)
    requires ops != []
    ensures var before, after := Summarize(c, Front(ops)).rounds, Summarize(c, ops).rounds;
            if Last(ops).Round? then after == before + [Last(ops).obs] else after == before || after == []
  {
  }

  lemma {:induction false} RoundsAreBatches(c: Config, calls: seq<Call>)
    ensures FromLatest(Summarize(c, Digest(calls)).rounds, Batches(calls))
  {
    if calls != [] {
      RoundsAreBatches(c, Front(calls));
      DigestStep(calls);
      RoundsStep(c, Digest(calls));
      var before, batches := Summarize(c, Digest(Front(calls))).rounds, Batches(Front(calls));
      if Last(calls).Batch? {
        FromLatestGrows(before, batches, Last(calls).outcomes);
      } else {
        assert batches + [] == batches;
      }
    }
  }

  /** The failure is in the batch, no success of the batch suppresses it, and it carries the identity. */
  ghost predicate FailsIn(f: Fingerprint, outcomes: seq<Fingerprint>, id: Identity) {
    f in outcomes && Counts(f, SuccessfulOperations(outcomes)) && id in Identities(f)
  }

  /** One unsuppressed failure of `id` from each of `window` consecutive batches, the last of them the `n`-th. */
  ghost predicate EvidenceFrom(evidence: seq<Fingerprint>, batches: seq<seq<Fingerprint>>, id: Identity, window: nat, n: nat) {
    && window <= n <= |batches|
    && |evidence| == window
    && forall k :: 0 <= k < window ==> FailsIn(evidence[k], batches[n - window + k], id)
  }

  /** An identity found in a round has an unsuppressed failure in the batch behind it. */
  lemma RoundEntry(rounds: seq<Observation>, batches: seq<seq<Fingerprint>>, id: Identity, i: nat)
    requires FromLatest(rounds, batches) && i < |rounds| && id in rounds[i]
    ensures FailsIn(rounds[i][id], batches[|batches| - |rounds| + i], id)
    ensures ObservedIn(id, batches[|batches| - |rounds| + i])
  {
    var outcomes := batches[|batches| - |rounds| + i];
    assert RoundOf(rounds, batches, i);
    assert rounds[i][id] == Representative(outcomes, id);
  }

  lemma EvidenceInBatches(evidence: seq<Fingerprint>, rounds: seq<Observation>, batches: seq<seq<Fingerprint>>,
                          id: Identity, window: nat, n: nat)
    requires FromLatest(rounds, batches) && EvidenceUpTo(evidence, rounds, id, window, n)
    ensures EvidenceFrom(evidence, batches, id, window, n + |batches| - |rounds|)
  {
    forall k | 0 <= k < window ensures FailsIn(evidence[k], batches[n + |batches| - |rounds| - window + k], id) {
      var i := n - window + k;
      assert id in rounds[i] && evidence[i - (n - window)] == rounds[i][id];
      RoundEntry(rounds, batches, id, i);
    }
  }

  ghost predicate AllFailWith(evidence: seq<Fingerprint>, id: Identity) {
    forall f :: f in evidence ==> f.failed && id in Identities(f)
  }

  lemma EvidenceShares(evidence: seq<Fingerprint>, batches: seq<seq<Fingerprint>>, id: Identity, window: nat, n: nat)
    requires EvidenceFrom(evidence, batches, id, window, n)
    ensures AllFailWith(evidence, id)
  {
    forall f | f in evidence ensures f.failed && id in Identities(f) {
      var k :| 0 <= k < |evidence| && evidence[k] == f;
      assert FailsIn(evidence[k], batches[n - window + k], id);
    }
  }

  /** While an intervention is in force its evidence is `window` unsuppressed failures that share one identity, one from
      each of `window` consecutive batches. */
  lemma EvidenceIsFailures(c: Config, calls: seq<Call>)
    requires c.window > 0 && Run(c, Digest(calls)).stage != NoIntervention
    ensures exists id, n: nat :: EvidenceFrom(Run(c, Digest(calls)).evidence, Batches(calls), id, c.window, n)
    ensures exists id :: AllFailWith(Run(c, Digest(calls)).evidence, id)
  {
    var evidence, rounds, batches := Run(c, Digest(calls)).evidence, Summarize(c, Digest(calls)).rounds, Batches(calls);
    EvidenceShape(c, Digest(calls));
    RoundsAreBatches(c, calls);
    var id, n: nat :| EvidenceUpTo(evidence, rounds, id, c.window, n);
    EvidenceInBatches(evidence, rounds, batches, id, c.window, n);
    EvidenceShares(evidence, batches, id, c.window, n + |batches| - |rounds|);
  }

  lemma {:induction false} StreakInBatch(rounds: seq<Observation>, batches: seq<seq<Fingerprint>>, id: Identity, n: nat)
    requires FromLatest(rounds, batches) && n < Streak(rounds, id)
    ensures n < |batches| && ObservedIn(id, batches[|batches| - 1 - n])
  {
    StreakIndex(rounds, id, n);
    RoundEntry(rounds, batches, id, |rounds| - 1 - n);
  }

  /** An unsuppressed failure carries `id` in each of the last `n` batches. */
  ghost predicate FailsLately(batches: seq<seq<Fingerprint>>, id: Identity, n: nat) {
    n <= |batches| && forall i :: |batches| - n <= i < |batches| ==> ObservedIn(id, batches[i])
  }

  lemma {:induction false} StreakFailsLately(rounds: seq<Observation>, batches: seq<seq<Fingerprint>>, id: Identity, n: nat)
    requires FromLatest(rounds, batches) && 0 < n <= Streak(rounds, id)
    ensures FailsLately(batches, id, n)
  {
    StreakInBatch(rounds, batches, id, n - 1);
    forall i | |batches| - n <= i < |batches| ensures ObservedIn(id, batches[i]) {
      StreakInBatch(rounds, batches, id, |batches| - 1 - i);
    }
  }

  /** Tools are stripped only when one identity the nudge named has an unsuppressed failure in each of the last
      window + 1 batches. */
  lemma {:induction false} StripNeedsFailures(c: Config, calls: seq<Call>)
    ensures calls != [] && ActionAt(c, Digest(calls)) == StripTools ==>
              exists id :: id in Run(c, Digest(Front(calls))).named && FailsLately(Batches(calls), id, c.window + 1)
  {
    if calls != [] && ActionAt(c, Digest(calls)) == StripTools {
      DigestStep(calls);
      StripFollowsNudge(c, Digest(calls));
      RoundsAreBatches(c, calls);
      var rounds := Summarize(c, Digest(calls)).rounds;
      var id :| id in Run(c, Digest(Front(calls))).named && Streak(rounds, id) >= c.window + 1;
      StreakFailsLately(rounds, Batches(calls), id, c.window + 1);
    }
  }
}
