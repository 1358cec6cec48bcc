/** The watchdog loop over a whole run of pauses and resumes. */
module Watchdog {
  import opened Ordering
  import opened Sequences
  import opened TimeoutClock

  /** How many marks lie at or before the instant `t`. */
  function UpTo(marks: seq<Mark>, t: nat): (n: nat)
    ensures n <= |marks|
  {
    if marks == [] || Last(marks).now <= t then |marks| else UpTo(Front(marks), t)
  }

  ghost predicate InOrder(marks: seq<Mark>) {
    forall i, j :: 0 <= i <= j < |marks| ==> marks[i].now <= marks[j].now
  }

  lemma {:induction false} UpToSplits(marks: seq<Mark>, t: nat)
    requires InOrder(marks)
    ensures forall i :: 0 <= i < |marks| ==> (marks[i].now <= t <==> i < UpTo(marks, t))
  {
    if marks != [] && Last(marks).now > t {
      UpToSplits(Front(marks), t);
      assert forall i :: 0 <= i < |marks| - 1 ==> Front(marks)[i] == marks[i];
    }
  }

  lemma UpToGrows(marks: seq<Mark>, t: nat, later: nat)
    requires InOrder(marks) && t <= later
    ensures UpTo(marks, t) <= UpTo(marks, later)
  {
    UpToSplits(marks, t);
    UpToSplits(marks, later);
    var n := UpTo(marks, t);
    assert n > 0 ==> marks[n - 1].now <= later;
  }

  lemma BalancedPrefix(marks: seq<Mark>, n: nat)
    requires Balanced(marks) && n <= |marks|
    ensures Balanced(marks[..n])
  {
    forall i | 0 <= i <= n ensures Net(marks[..n][..i]) >= 0 {
      assert marks[..n][..i] == marks[..i];
    }
  }

  /** The clock as it stands at the instant `t`. */
  function ClockAt(marks: seq<Mark>, t: nat): Clock
    requires Balanced(marks)
  {
    BalancedPrefix(marks, UpTo(marks, t));
    Run(marks[..UpTo(marks, t)])
  }

  // ----- later marks do not matter yet ----------------------------------------------------------------

  lemma {:induction false} CountIgnoresLater(marks: seq<Mark>, n: nat, t: nat)
    requires n <= |marks| && forall i :: n <= i < |marks| ==> marks[i].now > t
    ensures CountAt(marks, t) == CountAt(marks[..n], t)
    decreases |marks|
  {
    if n < |marks| {
      CountIgnoresLater(Front(marks), n, t);
      assert Front(marks)[..n] == marks[..n];
    } else {
      assert marks[..n] == marks;
    }
  }

  lemma {:induction false} RunningIgnoresLater(marks: seq<Mark>, n: nat, from: nat, upto: nat)
    requires n <= |marks| && forall i :: n <= i < |marks| ==> marks[i].now >= upto
    ensures RunningTime(marks, from, upto) == RunningTime(marks[..n], from, upto)
    decreases upto
  {
    if upto > from {
      RunningIgnoresLater(marks, n, from, upto - 1);
      CountIgnoresLater(marks, n, upto - 1);
    }
  }

  /** All marks of the run come after its start. */
  ghost predicate Since(marks: seq<Mark>, started: nat) {
    Balanced(marks) && forall i :: 0 <= i < |marks| ==> started <= marks[i].now
  }

  /** What the watchdog reads off the clock is the true running time, and whether a pause is then held. */
  lemma Reading(marks: seq<Mark>, started: nat, t: nat)
    requires Since(marks, started) && started <= t
    ensures Unpaused(ClockAt(marks, t), started, t) == RunningTime(marks, started, t)
    ensures ClockAt(marks, t).pausedCount == CountAt(marks, t)
  {
    var n := UpTo(marks, t);
    UpToSplits(marks, t);
    BalancedPrefix(marks, n);
    UnpausedIsRunningTime(marks[..n], started, t);
    RunningIgnoresLater(marks, n, started, t);
    CountIgnoresLater(marks, n, t);
    CountAfterAll(marks[..n], t);
  }

  // ----- between notifications --------------------------------------------------------------------------

  /** The mark at which a pause begins or the last one ends: the clock notifies exactly there. */
  predicate Notifies(marks: seq<Mark>, i: nat)
    requires i < |marks|
  {
    Net(marks[..i]) == if marks[i].up then 0 else 1
  }

  function NextNotice(marks: seq<Mark>, i: nat): (j: Option<nat>)
    requires i <= |marks|
    ensures j.Some? ==> i <= j.value < |marks| && Notifies(marks, j.value)
    ensures forall k :: i <= k < (if j.Some? then j.value else |marks|) ==> !Notifies(marks, k)
    decreases |marks| - i
  {
    if i == |marks| then None else if Notifies(marks, i) then Some(i) else NextNotice(marks, i + 1)
  }

  lemma NetStep(marks: seq<Mark>, i: nat)
    requires i < |marks|
    ensures Net(marks[..i + 1]) == Net(marks[..i]) + if marks[i].up then 1 else -1
  {
    FrontPrefix(marks, i);
  }

  lemma {:induction false} SteadyNet(marks: seq<Mark>, n: nat, m: nat)
    requires Balanced(marks) && n <= m <= |marks| && forall k :: n <= k < m ==> !Notifies(marks, k)
    ensures Net(marks[..m]) > 0 <==> Net(marks[..n]) > 0
  {
    if n < m {
      SteadyNet(marks, n, m - 1);
      NetStep(marks, m - 1);
      assert !Notifies(marks, m - 1);
      assert Net(marks[..m]) >= 0 && Net(marks[..m - 1]) >= 0;
    }
  }

  /** `until` comes no later than the next notification after `t`. */
  ghost predicate Undisturbed(marks: seq<Mark>, t: nat, until: nat) {
    var notice := NextNotice(marks, UpTo(marks, t));
    t <= until && (notice.Some? ==> until <= marks[notice.value].now)
  }

  lemma SteadyCount(marks: seq<Mark>, t: nat, u: nat, until: nat)
    requires Balanced(marks) && Undisturbed(marks, t, until) && t <= u < until
    ensures CountAt(marks, u) > 0 <==> CountAt(marks, t) > 0
  {
    var n, m := UpTo(marks, t), UpTo(marks, u);
    UpToSplits(marks, t);
    UpToSplits(marks, u);
    UpToGrows(marks, t, u);
    CountIgnoresLater(marks, n, t);
    CountIgnoresLater(marks, m, u);
    CountAfterAll(marks[..n], t);
    CountAfterAll(marks[..m], u);
    SteadyNet(marks, n, m);
  }

  /** Until the next notification running time stands still, or advances one for one. */
  lemma {:induction false} SteadyRunning(marks: seq<Mark>, started: nat, t: nat, u: nat, until: nat)
    requires Balanced(marks) && Undisturbed(marks, t, until) && started <= t <= u <= until
    ensures RunningTime(marks, started, u) == RunningTime(marks, started, t) + if CountAt(marks, t) > 0 then 0 else u - t
    decreases u
  {
    if u > t {
      SteadyRunning(marks, started, t, u - 1, until);
      SteadyCount(marks, t, u - 1, until);
    }
  }

  lemma NoticeAdvances(marks: seq<Mark>, t: nat)
    requires InOrder(marks)
    ensures var notice := NextNotice(marks, UpTo(marks, t));
            notice.Some? ==> t < marks[notice.value].now && UpTo(marks, t) < UpTo(marks, marks[notice.value].now)
  {
    var notice := NextNotice(marks, UpTo(marks, t));
    UpToSplits(marks, t);
    if notice.Some? {
      UpToSplits(marks, marks[notice.value].now);
    }
  }

  // ----- the loop --------------------------------------------------------------------------------------------

  ghost predicate NotYet(marks: seq<Mark>, started: nat, timeout: nat, until: nat) {
    forall u :: started <= u < until ==> RunningTime(marks, started, u) < timeout
  }

  lemma NotYetExtends(marks: seq<Mark>, started: nat, timeout: nat, t: nat, until: nat)
    requires Balanced(marks) && Undisturbed(marks, t, until) && started <= t && NotYet(marks, started, timeout, t)
    requires RunningTime(marks, started, t) < timeout
    requires CountAt(marks, t) > 0 || until - t <= timeout - RunningTime(marks, started, t)
    ensures NotYet(marks, started, timeout, until)
  {
    forall u | started <= u < until ensures RunningTime(marks, started, u) < timeout {
      if t <= u {
        SteadyRunning(marks, started, t, u, until);
      }
    }
  }

  /** The loop evaluates the clock, then waits for a notification, while running at most for the remaining time. It returns
      at the first instant at which the run has been unpaused for the timeout, and never if there is none. */
  method AwaitTimeout(marks: seq<Mark>, started: nat, timeout: nat) returns (fired: Option<nat>)
    requires Since(marks, started)
    ensures fired.Some? ==>
              && started <= fired.value && RunningTime(marks, started, fired.value) >= timeout
              && NotYet(marks, started, timeout, fired.value)
    ensures fired.None? ==> forall until: nat :: NotYet(marks, started, timeout, until)
  {
    var t := started;
    while true
      invariant started <= t && NotYet(marks, started, timeout, t)
      decreases |marks| - UpTo(marks, t), if RunningTime(marks, started, t) >= timeout then 0 else 1
    {
      Reading(marks, started, t);
      NoticeAdvances(marks, t);
      var unpaused := Unpaused(ClockAt(marks, t), started, t);
      if unpaused >= timeout {
        return Some(t);
      }
      var notice := NextNotice(marks, UpTo(marks, t));
      if ClockAt(marks, t).pausedCount > 0 {
        if notice.None? {
          forall until: nat ensures NotYet(marks, started, timeout, until) {
            StillNotYet(marks, started, timeout, t, until);
          }
          return None;
        }
        NotYetExtends(marks, started, timeout, t, marks[notice.value].now);
        t := marks[notice.value].now;
      } else {
        var wake := t + (timeout - unpaused);
        if notice.Some? && marks[notice.value].now < wake {
          wake := marks[notice.value].now;
        }
        NotYetExtends(marks, started, timeout, t, wake);
        SteadyRunning(marks, started, t, wake, wake);
        UpToGrows(marks, t, wake);
        t := wake;
      }
    }
  }

  lemma StillNotYet(marks: seq<Mark>, started: nat, timeout: nat, t: nat, until: nat)
    requires Balanced(marks) && started <= t && NotYet(marks, started, timeout, t)
    requires RunningTime(marks, started, t) < timeout && CountAt(marks, t) > 0 && NextNotice(marks, UpTo(marks, t)).None?
    ensures NotYet(marks, started, timeout, until)
  {
    if until >= t {
      NotYetExtends(marks, started, timeout, t, until);
    }
  }
}
