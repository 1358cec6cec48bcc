/** The orders by which the detector picks: representatives among failures, and identities among themselves. */
module LoopOrder {
  import opened Ordering
  import opened Json
  import opened LoopDetector

  /** `a` is a proper prefix of `b`, or has the smaller character where they first differ. */
  ghost predicate TextBefore(a: string, b: string) {
    exists k :: FirstDifference(a, b, k)
  }

  ghost predicate FirstDifference(a: string, b: string, k: nat) {
    k <= |a| && k < |b| && a[..k] == b[..k] && (k == |a| || a[k] < b[k])
  }

  lemma {:induction false} TextOrder(a: string, b: string)
    ensures CompareText(a, b).Less? <==> TextBefore(a, b)
    ensures CompareText(a, b).Equal? <==> a == b
  {
    TextTie(a, b);
    if CompareText(a, b).Less? {
      var k := Difference(a, b);
    } else if k: nat :| FirstDifference(a, b, k) {
      NotBefore(a, b, k);
    }
  }

  lemma {:induction false} Difference(a: string, b: string) returns (k: nat)
    requires CompareText(a, b).Less?
    ensures FirstDifference(a, b, k)
  {
    if a == [] || a[0] < b[0] {
      k := 0;
    } else {
      k := Difference(a[1..], b[1..]);
      k := k + 1;
      assert a[..k] == [a[0]] + a[1..][..k - 1] && b[..k] == [b[0]] + b[1..][..k - 1];
    }
  }

  lemma {:induction false} NotBefore(a: string, b: string, k: nat)
    requires FirstDifference(a, b, k)
    ensures CompareText(a, b).Less?
    decreases k
  {
    if k > 0 {
      assert a[0] == a[..k][0] && b[0] == b[..k][0];
      assert a[1..][..k - 1] == a[..k][1..] && b[1..][..k - 1] == b[..k][1..];
      NotBefore(a[1..], b[1..], k - 1);
    }
  }

  ghost predicate ErrorBefore(a: Option<string>, b: Option<string>) {
    b.Some? && (a.None? || TextBefore(a.value, b.value))
  }

  /** Failures are ordered by tool name, canonical arguments, error text and failure flag, in this order. */
  lemma FingerprintOrder(a: Fingerprint, b: Fingerprint)
    ensures CompareFingerprints(a, b).Less? <==>
              var x, y := Canonicalize(a.arguments), Canonicalize(b.arguments);
              || TextBefore(a.toolName, b.toolName)
              || (a.toolName == b.toolName && TextBefore(x, y))
              || (a.toolName == b.toolName && x == y && ErrorBefore(a.errorText, b.errorText))
              || (a.toolName == b.toolName && x == y && a.errorText == b.errorText && !a.failed && b.failed)
    ensures CompareFingerprints(a, b).Equal? <==>
              && a.toolName == b.toolName && Canonicalize(a.arguments) == Canonicalize(b.arguments)
              && a.errorText == b.errorText && a.failed == b.failed
  {
    TextOrder(a.toolName, b.toolName);
    TextOrder(Canonicalize(a.arguments), Canonicalize(b.arguments));
    if a.errorText.Some? && b.errorText.Some? {
      TextOrder(a.errorText.value, b.errorText.value);
    }
  }

  /** Argument identities come before error identities; within a kind tool name and hash decide. */
  lemma IdentityOrder(a: Identity, b: Identity)
    ensures CompareIdentities(a, b).Less? <==>
              || (a.ArgumentsIdentity? && b.ErrorIdentity?)
              || (a.ArgumentsIdentity? && b.ArgumentsIdentity?
                  && (TextBefore(a.toolName, b.toolName) || (a.toolName == b.toolName && a.argsHash < b.argsHash)))
              || (a.ErrorIdentity? && b.ErrorIdentity?
                  && (TextBefore(a.toolName, b.toolName) || (a.toolName == b.toolName && a.errorHash < b.errorHash)))
  {
    TextOrder(a.toolName, b.toolName);
  }

  /** What a round keeps for an identity: an unsuppressed failure of the batch carrying it, with none before it in the
      order, and among those that tie the first of the batch. */
  lemma RepresentativeIsFirstLeast(outcomes: seq<Fingerprint>, id: Identity)
    requires id in Observed(outcomes)
    ensures exists i: nat :: i < |Failures(outcomes, SuccessfulOperations(outcomes))|
              && EarliestLeast(Failures(outcomes, SuccessfulOperations(outcomes)), id, i)
              && Failures(outcomes, SuccessfulOperations(outcomes))[i] == Observations(outcomes)[id]
  {
    var failures := Failures(outcomes, SuccessfulOperations(outcomes));
    PickIsEarliestLeast(failures, id);
    assert Pick(failures, id).Some?;
    var i: nat :| EarliestLeast(failures, id, i) && failures[i] == Pick(failures, id).value;
    assert Observations(outcomes)[id] == Representative(outcomes, id);
  }
}
