/** Round-aware detector of equivalent tool failures.

    One model response is one round; a failure is equivalent to another when the
    tool agrees and either the argument hash or the non-empty error hash agrees. */
module LoopDetector {
  import opened Ordering
  import opened Json
  import opened CanonicalText

  datatype Fingerprint = Fingerprint(
    toolName: string,
    argsHash: nat,
    failed: bool,
    errorHash: Option<nat>,
    errorText: Option<string>,
    arguments: Value)

  datatype Identity =
    | ArgumentsIdentity(toolName: string, argsHash: nat)
    | ErrorIdentity(toolName: string, errorHash: nat)

  datatype Stage = NoIntervention | Nudged | Stripped

  datatype Action = NoAction | InjectNudge | StripTools

  /** Hashing is a parameter: only that it is a function of the canonical text matters. */
  function Success(toolName: string, arguments: Value, hash: string -> nat): Fingerprint {
    Fingerprint(toolName, hash(Canonicalize(arguments)), false, None, None, arguments)
  }

  function Failure(toolName: string, arguments: Value, error: Option<string>, hash: string -> nat): Fingerprint {
    var nonEmpty := if error.Some? && error.value != "" then error else None;
    Fingerprint(toolName, hash(Canonicalize(arguments)), true,
                if nonEmpty.Some? then Some(hash(nonEmpty.value)) else None, nonEmpty, arguments)
  }

  function ArgumentIdentity(f: Fingerprint): Identity {
    ArgumentsIdentity(f.toolName, f.argsHash)
  }

  function Identities(f: Fingerprint): seq<Identity> {
    [ArgumentIdentity(f)] + if f.errorHash.Some? then [ErrorIdentity(f.toolName, f.errorHash.value)] else []
  }

  /** Hashes stand for the texts: two calls of one tool share an argument identity when their arguments are the same
      JSON value, whatever the order of object members. */
  lemma SameArgumentsSameIdentity(tool: string, a: Value, b: Value, error: Option<string>, hash: string -> nat)
    requires SameValue(a, b)
    ensures ArgumentIdentity(Success(tool, a, hash)) == ArgumentIdentity(Failure(tool, b, error, hash))
    ensures Identities(Failure(tool, a, error, hash)) == Identities(Failure(tool, b, error, hash))
  {
    CanonicalTextIgnoresKeyOrder(a, b);
  }

  ghost predicate Injective(hash: string -> nat) {
    forall x, y :: hash(x) == hash(y) ==> x == y
  }

  /** Failures are equivalent when the tool agrees and either the arguments are the same JSON value or the non-empty
      error is the same. */
  ghost predicate Equivalent(tool: string, a: Value, e: Option<string>, other: string, b: Value, d: Option<string>) {
    tool == other && (SameValue(a, b) || (e.Some? && e.value != "" && e == d))
  }

  /** Without hash collisions, sharing an identity is a matter of tool, canonical text and error. */
  lemma IdentityByText(tool: string, a: Value, e: Option<string>, other: string, b: Value, d: Option<string>, hash: string -> nat)
    requires Injective(hash)
    ensures (exists id :: id in Identities(Failure(tool, a, e, hash)) && id in Identities(Failure(other, b, d, hash))) <==>
            tool == other && (Canonicalize(a) == Canonicalize(b) || (e.Some? && e.value != "" && e == d))
  {
    var f, g := Failure(tool, a, e, hash), Failure(other, b, d, hash);
    if tool == other && Canonicalize(a) == Canonicalize(b) {
      assert Identities(f)[0] == Identities(g)[0] && Identities(f)[0] in Identities(f);
    } else if tool == other && e.Some? && e.value != "" && e == d {
      assert Identities(f)[1] == Identities(g)[1] && Identities(f)[1] in Identities(f);
    }
  }

  /** On plain arguments sharing an identity is exactly the equivalence the detector is for. */
  lemma EquivalenceIsSharedIdentity(tool: string, a: Value, e: Option<string>, other: string, b: Value, d: Option<string>,
                                    hash: string -> nat)
    requires Injective(hash) && Plain(a) && Plain(b)
    ensures (exists id :: id in Identities(Failure(tool, a, e, hash)) && id in Identities(Failure(other, b, d, hash)))
            <==> Equivalent(tool, a, e, other, b, d)
  {
    IdentityByText(tool, a, e, other, b, d, hash);
    CanonicalTextDecides(a, b);
  }

  /** A failure is suppressed exactly by a success of the same tool on the same arguments. */
  lemma SuppressedExactly(outcomes: seq<Fingerprint>, tool: string, a: Value, e: Option<string>, hash: string -> nat)
    requires Injective(hash) && Plain(a)
    requires forall o :: o in outcomes && !o.failed ==> Plain(o.arguments) && o == Success(o.toolName, o.arguments, hash)
    ensures Counts(Failure(tool, a, e, hash), SuccessfulOperations(outcomes)) <==>
            forall o :: o in outcomes && !o.failed ==> !(o.toolName == tool && SameValue(o.arguments, a))
  {
    forall o | o in outcomes && !o.failed
      ensures ArgumentIdentity(o) == ArgumentIdentity(Failure(tool, a, e, hash)) <==>
              o.toolName == tool && SameValue(o.arguments, a)
    {
      CanonicalTextDecides(o.arguments, a);
    }
  }

  // ----- orders ---------------------------------------------------------------

  function CompareFingerprints(a: Fingerprint, b: Fingerprint): Order {
    Then(CompareText(a.toolName, b.toolName),
         Then(CompareText(Canonicalize(a.arguments), Canonicalize(b.arguments)),
              Then(CompareOptionalText(a.errorText, b.errorText), CompareBool(a.failed, b.failed))))
  }

  function CompareIdentities(a: Identity, b: Identity): Order {
    match (a, b)
    case (ArgumentsIdentity(t, h), ArgumentsIdentity(u, k)) => Then(CompareText(t, u), CompareNat(h, k))
    case (ErrorIdentity(t, h), ErrorIdentity(u, k)) => Then(CompareText(t, u), CompareNat(h, k))
    case (ArgumentsIdentity(_, _), ErrorIdentity(_, _)) => Less
    case (ErrorIdentity(_, _), ArgumentsIdentity(_, _)) => Greater
  }

  predicate AtMost(a: Fingerprint, b: Fingerprint) {
    !CompareFingerprints(a, b).Greater?
  }

  predicate Before(a: Identity, b: Identity) {
    !CompareIdentities(a, b).Greater?
  }

  lemma FingerprintFlip(a: Fingerprint, b: Fingerprint)
    ensures CompareFingerprints(b, a) == Flip(CompareFingerprints(a, b))
  {
    TextFlip(a.toolName, b.toolName);
    TextFlip(Canonicalize(a.arguments), Canonicalize(b.arguments));
    OptionalTextFlip(a.errorText, b.errorText);
  }

  lemma FingerprintChain(a: Fingerprint, b: Fingerprint, c: Fingerprint)
    requires AtMost(a, b) && AtMost(b, c)
    ensures CompareFingerprints(a, c) == Then(CompareFingerprints(a, b), CompareFingerprints(b, c))
  {
    TextChain(a.toolName, b.toolName, c.toolName);
    if CompareText(a.toolName, b.toolName).Equal? && CompareText(b.toolName, c.toolName).Equal? {
      var x, y, z := Canonicalize(a.arguments), Canonicalize(b.arguments), Canonicalize(c.arguments);
      TextChain(x, y, z);
      if CompareText(x, y).Equal? && CompareText(y, z).Equal? {
        OptionalTextChain(a.errorText, b.errorText, c.errorText);
      }
    }
  }

  lemma IdentityLaws(a: Identity, b: Identity)
    ensures CompareIdentities(b, a) == Flip(CompareIdentities(a, b))
    ensures CompareIdentities(a, b).Equal? <==> a == b
  {
    TextFlip(a.toolName, b.toolName);
    TextTie(a.toolName, b.toolName);
  }

  lemma IdentityChain(a: Identity, b: Identity, c: Identity)
    requires Before(a, b) && Before(b, c)
    ensures Before(a, c)
  {
    if !CompareText(a.toolName, b.toolName).Greater? && !CompareText(b.toolName, c.toolName).Greater? {
      TextChain(a.toolName, b.toolName, c.toolName);
    }
  }

  ghost predicate IsLeast(id: Identity, ids: set<Identity>) {
    id in ids && forall other :: other in ids ==> Before(id, other)
  }

  lemma LeastExists(ids: set<Identity>)
    requires ids != {}
    ensures exists id :: IsLeast(id, ids)
  {
    var pick :| pick in ids;
    var rest := ids - {pick};
    if rest == {} {
      IdentityLaws(pick, pick);
      assert ids == {pick};
      assert IsLeast(pick, ids);
    } else {
      LeastExists(rest);
      var low :| IsLeast(low, rest);
      var best := if Before(low, pick) then low else pick;
      IdentityLaws(low, pick);
      IdentityLaws(pick, pick);
      forall other | other in ids ensures Before(best, other) {
        if other != pick && best == pick {
          IdentityChain(pick, low, other);
        }
      }
      assert IsLeast(best, ids);
    }
  }

  lemma LeastIsUnique(a: Identity, b: Identity, ids: set<Identity>)
    requires IsLeast(a, ids) && IsLeast(b, ids)
    ensures a == b
  {
    IdentityLaws(a, b);
  }

  /** The identity an ordered set yields first. */
  ghost function Least(ids: set<Identity>): (id: Identity)
    requires ids != {}
    ensures IsLeast(id, ids)
  {
    LeastExists(ids);
    var id :| IsLeast(id, ids);
    id
  }

  // ----- what one round observes ------------------------------------------------

  function SuccessfulOperations(outcomes: seq<Fingerprint>): set<Identity> {
    set o | o in outcomes && !o.failed :: ArgumentIdentity(o)
  }

  /** A failure that no exact success in the same round suppresses. */
  predicate Counts(o: Fingerprint, succeeded: set<Identity>) {
    o.failed && ArgumentIdentity(o) !in succeeded
  }

  ghost predicate ObservedIn(id: Identity, outcomes: seq<Fingerprint>) {
    exists o :: o in outcomes && Counts(o, SuccessfulOperations(outcomes)) && id in Identities(o)
  }

  ghost function Observed(outcomes: seq<Fingerprint>): (ids: set<Identity>)
    ensures forall id :: id in ids <==> ObservedIn(id, outcomes)
  {
    var succeeded := SuccessfulOperations(outcomes);
    set o, id | o in outcomes && Counts(o, succeeded) && id in Identities(o) :: id
  }

  function Failures(outcomes: seq<Fingerprint>, succeeded: set<Identity>): (kept: seq<Fingerprint>)
    ensures forall o :: o in kept <==> o in outcomes && Counts(o, succeeded)
  {
    if outcomes == [] then []
    else (if Counts(outcomes[0], succeeded) then [outcomes[0]] else []) + Failures(outcomes[1..], succeeded)
  }

  /** The earliest of the least failures carrying `id`. */
  function Pick(failures: seq<Fingerprint>, id: Identity): Option<Fingerprint> {
    if failures == [] then None
    else
      var later := Pick(failures[1..], id);
      if id in Identities(failures[0]) && (later.None? || AtMost(failures[0], later.value))
      then Some(failures[0]) else later
  }

  /** Position `i` holds the first of the least failures carrying `id`. */
  ghost predicate EarliestLeast(failures: seq<Fingerprint>, id: Identity, i: nat) {
    && i < |failures|
    && id in Identities(failures[i])
    && (forall j :: 0 <= j < |failures| && id in Identities(failures[j]) ==> AtMost(failures[i], failures[j]))
    && (forall j :: 0 <= j < i && id in Identities(failures[j]) ==>
          CompareFingerprints(failures[i], failures[j]).Less?)
  }

  lemma {:induction false} PickIsEarliestLeast(failures: seq<Fingerprint>, id: Identity)
    ensures Pick(failures, id).None? <==> forall f :: f in failures ==> id !in Identities(f)
    ensures Pick(failures, id).Some? ==>
              exists i: nat :: EarliestLeast(failures, id, i) && failures[i] == Pick(failures, id).value
  {
    if failures != [] {
      var head, tail := failures[0], failures[1..];
      PickIsEarliestLeast(tail, id);
      var later := Pick(tail, id);
      FingerprintFlip(head, head);
      if later.Some? {
        var i: nat :| EarliestLeast(tail, id, i) && tail[i] == later.value;
        PickStep(failures, id, i);
      } else if id in Identities(head) {
        assert EarliestLeast(failures, id, 0);
      }
    }
  }

  lemma PickStep(failures: seq<Fingerprint>, id: Identity, i: nat)
    requires failures != [] && EarliestLeast(failures[1..], id, i)
    ensures id in Identities(failures[0]) && AtMost(failures[0], failures[1..][i]) ==> EarliestLeast(failures, id, 0)
    ensures !(id in Identities(failures[0]) && AtMost(failures[0], failures[1..][i])) ==>
              EarliestLeast(failures, id, i + 1)
  {
    var head, tail := failures[0], failures[1..];
    FingerprintFlip(head, head);
    FingerprintFlip(head, tail[i]);
    if AtMost(head, tail[i]) {
      forall j | 0 <= j < |failures| && id in Identities(failures[j]) ensures AtMost(head, failures[j]) {
        if j > 0 {
          FingerprintChain(head, tail[i], tail[j - 1]);
        }
      }
    }
    if !(id in Identities(head) && AtMost(head, tail[i])) {
      forall j | 0 <= j < |failures| && id in Identities(failures[j])
        ensures AtMost(failures[i + 1], failures[j])
        ensures j < i + 1 ==> CompareFingerprints(failures[i + 1], failures[j]).Less?
      {
        if j > 0 {
          assert failures[j] == tail[j - 1];
        }
      }
    }
  }

  /** One representative per observed identity. */
  ghost function Observations(outcomes: seq<Fingerprint>): (m: map<Identity, Fingerprint>)
    ensures m.Keys == Observed(outcomes)
  {
    map id | id in Observed(outcomes) :: Representative(outcomes, id)
  }

  /** It is a failure of the batch that no success suppresses, and it carries the identity. */
  ghost function Representative(outcomes: seq<Fingerprint>, id: Identity): (f: Fingerprint)
    requires id in Observed(outcomes)
    ensures f in outcomes && Counts(f, SuccessfulOperations(outcomes)) && id in Identities(f)
  {
    var failures := Failures(outcomes, SuccessfulOperations(outcomes));
    PickIsEarliestLeast(failures, id);
    Pick(failures, id).value
  }

  // ----- the transition function --------------------------------------------------

  datatype Detector = Detector(
    window: nat,
    stripOnSecondFire: bool,
    active: map<Identity, seq<Fingerprint>>,
    stage: Stage,
    named: set<Identity>,
    evidence: seq<Fingerprint>)

  function Fresh(window: nat, strip: bool): Detector {
    Detector(window, strip, map[], NoIntervention, {}, [])
  }

  function Push(streak: seq<Fingerprint>, f: Fingerprint, window: nat): seq<Fingerprint> {
    var grown := streak + [f];
    if |grown| > window then grown[|grown| - window..] else grown
  }

  ghost function Extend(active: map<Identity, seq<Fingerprint>>, obs: map<Identity, Fingerprint>, window: nat)
    : (m: map<Identity, seq<Fingerprint>>)
  {
    map id | id in obs :: if id in active then Push(active[id], obs[id], window) else [obs[id]]
  }

  function Full(active: map<Identity, seq<Fingerprint>>, window: nat): set<Identity> {
    set id | id in active && |active[id]| >= window
  }

  ghost function RoundStep(d: Detector, outcomes: seq<Fingerprint>): (Detector, Action) {
    ObserveStep(d, Observations(outcomes))
  }

  ghost function ObserveStep(d: Detector, obs: map<Identity, Fingerprint>): (Detector, Action) {
    if d.window == 0 then (d, NoAction)
    else if obs == map[] then (Fresh(d.window, d.stripOnSecondFire), NoAction)
    else Escalate(d.(active := Extend(d.active, obs, d.window)), obs.Keys)
  }

  ghost function Escalate(d: Detector, observed: set<Identity>): (Detector, Action) {
    var repeated := d.named * observed;
    if d.stage == Stripped then (d, NoAction)
    else if d.stage == Nudged && repeated != {} then
      if !d.stripOnSecondFire then (d, NoAction)
      else
        var id := Least(repeated);
        (d.(stage := Stripped, evidence := if id in d.active then d.active[id] else d.evidence), StripTools)
    else StartCycle(if d.stage == Nudged then d.(stage := NoIntervention, named := {}, evidence := []) else d)
  }

  ghost function StartCycle(d: Detector): (Detector, Action) {
    var full := Full(d.active, d.window);
    if full == {} then (d, NoAction)
    else (d.(stage := Nudged, named := full, evidence := d.active[Least(full)]), InjectNudge)
  }

  // ----- reducing a batch ------------------------------------------------------------

  function InsertInOrder(f: Fingerprint, sorted: seq<Fingerprint>): seq<Fingerprint> {
    if sorted == [] || AtMost(f, sorted[0]) then [f] + sorted
    else [sorted[0]] + InsertInOrder(f, sorted[1..])
  }

  /** Stable sort by `CompareFingerprints`. */
  function StableSort(failures: seq<Fingerprint>): seq<Fingerprint> {
    if failures == [] then [] else InsertInOrder(failures[0], StableSort(failures[1..]))
  }

  /** Drops every element equal to its predecessor. */
  function Dedup(s: seq<Fingerprint>): seq<Fingerprint> {
    if |s| <= 1 then s
    else if s[0] == s[1] then Dedup(s[1..])
    else [s[0]] + Dedup(s[1..])
  }

  lemma {:induction false} InsertKeepsPick(f: Fingerprint, sorted: seq<Fingerprint>, id: Identity)
    ensures Pick(InsertInOrder(f, sorted), id) == Pick([f] + sorted, id)
    ensures forall x :: x in InsertInOrder(f, sorted) <==> x == f || x in sorted
  {
    assert ([f] + sorted)[1..] == sorted;
    if sorted != [] && !AtMost(f, sorted[0]) {
      var head, tail := sorted[0], sorted[1..];
      InsertKeepsPick(f, tail, id);
      assert ([f] + tail)[1..] == tail;
      assert ([head] + InsertInOrder(f, tail))[1..] == InsertInOrder(f, tail);
      FingerprintFlip(f, head);
      var later := Pick(tail, id);
      if later.Some? {
        FingerprintFlip(f, later.value);
        FingerprintFlip(head, later.value);
        if AtMost(f, later.value) {
          FingerprintChain(head, f, later.value);
        }
        if AtMost(later.value, f) && !AtMost(head, later.value) {
          FingerprintFlip(later.value, head);
        }
      }
    }
  }

  lemma {:induction false} SortKeepsPick(failures: seq<Fingerprint>, id: Identity)
    ensures Pick(StableSort(failures), id) == Pick(failures, id)
    ensures forall x :: x in StableSort(failures) <==> x in failures
  {
    if failures != [] {
      var head, tail := failures[0], failures[1..];
      SortKeepsPick(tail, id);
      InsertKeepsPick(head, StableSort(tail), id);
      assert ([head] + StableSort(tail))[1..] == StableSort(tail);
    }
  }

  lemma {:induction false} DedupKeepsPick(s: seq<Fingerprint>, id: Identity)
    ensures Pick(Dedup(s), id) == Pick(s, id)
    ensures forall x :: x in Dedup(s) <==> x in s
  {
    if |s| > 1 {
      DedupKeepsPick(s[1..], id);
      FingerprintFlip(s[0], s[0]);
      if s[0] != s[1] {
        assert ([s[0]] + Dedup(s[1..]))[1..] == Dedup(s[1..]);
      }
      assert s == [s[0]] + s[1..];
    }
  }

  lemma {:induction false} PickAppend(s: seq<Fingerprint>, x: Fingerprint, id: Identity)
    ensures Pick(s + [x], id) ==
            if id in Identities(x) && (Pick(s, id).None? || !AtMost(Pick(s, id).value, x)) then Some(x)
            else Pick(s, id)
  {
    if s == [] {
      assert [x][1..] == [];
    } else {
      var head, tail := s[0], s[1..];
      PickAppend(tail, x, id);
      assert (s + [x])[1..] == tail + [x];
      FingerprintFlip(head, x);
      var later := Pick(tail, id);
      if later.Some? {
        FingerprintFlip(later.value, x);
        FingerprintFlip(head, later.value);
        if AtMost(head, later.value) && AtMost(later.value, x) {
          FingerprintChain(head, later.value, x);
        }
        if AtMost(head, x) && AtMost(x, later.value) {
          FingerprintChain(head, x, later.value);
        }
      }
    }
  }

  ghost predicate Reflects(obs: map<Identity, Fingerprint>, seen: seq<Fingerprint>, id: Identity) {
    if id in obs then Pick(seen, id) == Some(obs[id]) else Pick(seen, id).None?
  }

  method MergeFailure(obs: map<Identity, Fingerprint>, failure: Fingerprint, ghost seen: seq<Fingerprint>)
    returns (merged: map<Identity, Fingerprint>)
    requires forall id :: Reflects(obs, seen, id)
    ensures forall id :: Reflects(merged, seen + [failure], id)
  {
    merged := obs;
    var identities := Identities(failure);
    assert forall k :: 0 < k < |identities| ==> identities[k] != identities[0];
    for k := 0 to |identities|
      invariant forall id :: id !in identities[..k] ==> Reflects(merged, seen, id)
      invariant forall id :: id in identities[..k] ==> Reflects(merged, seen + [failure], id)
    {
      var id := identities[k];
      assert id !in identities[..k];
      PickAppend(seen, failure, id);
      if id in merged && AtMost(merged[id], failure) {
      } else {
        merged := merged[id := failure];
      }
      assert identities[..k + 1] == identities[..k] + [id];
    }
    forall id ensures Reflects(merged, seen + [failure], id) {
      PickAppend(seen, failure, id);
      assert identities[..|identities|] == identities;
    }
  }

  /** Keeps the first least failure per identity. */
  method MergeFailures(failures: seq<Fingerprint>) returns (obs: map<Identity, Fingerprint>)
    ensures forall id :: Reflects(obs, failures, id)
  {
    obs := map[];
    for i := 0 to |failures|
      invariant forall id :: Reflects(obs, failures[..i], id)
    {
      obs := MergeFailure(obs, failures[i], failures[..i]);
      assert failures[..i + 1] == failures[..i] + [failures[i]];
    }
    assert failures[..|failures|] == failures;
  }

  /** Reduces one batch: filter, stable sort, dedup, then keep the first least failure per identity. */
  method ReduceRound(outcomes: seq<Fingerprint>) returns (obs: map<Identity, Fingerprint>)
    ensures obs == Observations(outcomes)
  {
    var succeeded := SuccessfulOperations(outcomes);
    var failures := Dedup(StableSort(Failures(outcomes, succeeded)));
    obs := MergeFailures(failures);
    ReducedIsObservations(outcomes, obs);
  }

  lemma ReducedIsObservations(outcomes: seq<Fingerprint>, obs: map<Identity, Fingerprint>)
    requires forall id :: Reflects(obs, Dedup(StableSort(Failures(outcomes, SuccessfulOperations(outcomes)))), id)
    ensures obs == Observations(outcomes)
  {
    forall id ensures id in obs <==> id in Observed(outcomes) {
      ReducedEntry(outcomes, obs, id);
    }
    forall id | id in obs ensures obs[id] == Observations(outcomes)[id] {
      ReducedEntry(outcomes, obs, id);
    }
  }

  lemma ReducedEntry(outcomes: seq<Fingerprint>, obs: map<Identity, Fingerprint>, id: Identity)
    requires Reflects(obs, Dedup(StableSort(Failures(outcomes, SuccessfulOperations(outcomes)))), id)
    ensures id in obs <==> id in Observed(outcomes)
    ensures id in obs ==> obs[id] == Representative(outcomes, id)
  {
    var counted := Failures(outcomes, SuccessfulOperations(outcomes));
    SortKeepsPick(counted, id);
    DedupKeepsPick(StableSort(counted), id);
    PickIsEarliestLeast(counted, id);
  }

  /** First element in identity order, as iterating an ordered set finds it. */
  method FindFirst(ids: set<Identity>) returns (first: Option<Identity>)
    ensures ids == {} ==> first.None?
    ensures ids != {} ==> first == Some(Least(ids))
  {
    first := None;
    var rest := ids;
    while rest != {}
      invariant rest <= ids
      invariant first.None? ==> rest == ids
      invariant first.Some? ==> IsLeast(first.value, ids - rest)
      decreases rest
    {
      var id :| id in rest;
      IdentityLaws(id, id);
      if first.Some? {
        IdentityLaws(first.value, id);
        if !Before(first.value, id) {
          forall other | other in ids - rest ensures Before(id, other) {
            IdentityChain(id, first.value, other);
          }
          first := Some(id);
        }
      } else {
        first := Some(id);
      }
      rest := rest - {id};
    }
    if ids != {} {
      assert ids - rest == ids;
      LeastIsUnique(first.value, Least(ids), ids);
    }
  }

  method PushObservation(streak: seq<Fingerprint>, f: Fingerprint, window: nat)
    returns (observations: seq<Fingerprint>)
    ensures observations == Push(streak, f, window)
  {
    observations := streak + [f];
    ghost var grown := observations;
    while |observations| > window
      invariant |observations| <= |grown| && observations == grown[|grown| - |observations|..]
      invariant |observations| < |grown| ==> |observations| >= window
    {
      observations := observations[1..];
    }
  }

  class ToolLoopDetector {
    var active: map<Identity, seq<Fingerprint>>
    const window: nat
    const stripOnSecondFire: bool
    var stage: Stage
    var interventionIdentities: set<Identity>
    var interventionEvidence: seq<Fingerprint>

    ghost function State(): Detector
      reads this
    {
      Detector(window, stripOnSecondFire, active, stage, interventionIdentities, interventionEvidence)
    }

    constructor (window: nat, strip: bool)
      ensures State() == Fresh(window, strip)
    {
      this.window, stripOnSecondFire := window, strip;
      active, stage, interventionIdentities, interventionEvidence := map[], NoIntervention, {}, [];
    }

    method Reset()
      modifies this
      ensures State() == Fresh(window, stripOnSecondFire)
    {
      active, stage, interventionIdentities, interventionEvidence := map[], NoIntervention, {}, [];
    }

    method ExtendStreaks(obs: map<Identity, Fingerprint>)
      modifies this
      ensures State() == old(State()).(active := Extend(old(active), obs, window))
    {
      active := map id | id in active && id in obs :: active[id];
      var rest := obs.Keys;
      while rest != {}
        invariant rest <= obs.Keys
        invariant State() == old(State()).(active := active)
        invariant forall id :: id in active <==> id in obs && (id !in rest || id in old(active))
        invariant forall id :: id in active && id in rest ==> active[id] == old(active)[id]
        invariant forall id :: id in active && id !in rest ==> active[id] == Extend(old(active), obs, window)[id]
        decreases rest
      {
        var id :| id in rest;
        if id in active {
          var pushed := PushObservation(active[id], obs[id], window);
          active := active[id := pushed];
        } else {
          active := active[id := [obs[id]]];
        }
        rest := rest - {id};
      }
    }

    method RecordRound(outcomes: seq<Fingerprint>) returns (action: Action)
      modifies this
      ensures (State(), action) == RoundStep(old(State()), outcomes)
    {
      if window == 0 {
        return NoAction;
      }
      var obs := ReduceRound(outcomes);
      if obs == map[] {
        Reset();
        return NoAction;
      }
      ExtendStreaks(obs);
      action := EscalateRound(obs.Keys);
    }

    method EscalateRound(observed: set<Identity>) returns (action: Action)
      modifies this
      ensures (State(), action) == Escalate(old(State()), observed)
    {
      if stage == Stripped {
        return NoAction;
      }
      if stage == Nudged {
        var repeated := FindFirst(interventionIdentities * observed);
        if repeated.Some? {
          if stripOnSecondFire {
            stage := Stripped;
            if repeated.value in active {
              interventionEvidence := active[repeated.value];
            }
            return StripTools;
          }
          return NoAction;
        }
        stage, interventionIdentities, interventionEvidence := NoIntervention, {}, [];
      }
      action := BeginCycle();
    }

    method BeginCycle() returns (action: Action)
      modifies this
      ensures (State(), action) == StartCycle(old(State()))
    {
      var full := Full(active, window);
      var candidate := FindFirst(full);
      if candidate.None? {
        return NoAction;
      }
      interventionIdentities, interventionEvidence, stage := full, active[candidate.value], Nudged;
      return InjectNudge;
    }

    method ClearStripTools()
      modifies this
      ensures State() == if old(stage) == Stripped then Fresh(window, stripOnSecondFire) else old(State())
    {
      if stage == Stripped {
        Reset();
      }
    }
  }
}
