/** The reference-counted pause clock behind the agent-run timeout watchdog.
    Each call is one atomic step at a given instant. */
module TimeoutClock {
  import opened Ordering
  import opened Sequences

  datatype Clock = Clock(pausedCount: nat, pausedTotal: nat, pauseStarted: Option<nat>)

  const NEW_CLOCK := Clock(0, 0, None)

  function Elapsed(since: nat, now: nat): nat {
    if now < since then 0 else now - since
  }

  function Pause(c: Clock, now: nat): Clock {
    c.(pausedCount := c.pausedCount + 1, pauseStarted := if c.pausedCount == 0 then Some(now) else c.pauseStarted)
  }

  /** A machine word counts pauses. */
  const WORD_MAX: nat := 0xFFFF_FFFF_FFFF_FFFF

  function Resume(c: Clock, now: nat): Clock {
    var d := c.(pausedCount := if c.pausedCount == 0 then WORD_MAX else c.pausedCount - 1);
    if c.pausedCount == 1 && c.pauseStarted.Some?
    then d.(pauseStarted := None, pausedTotal := c.pausedTotal + Elapsed(c.pauseStarted.value, now))
    else d
  }

  function PausedDuration(c: Clock, now: nat): nat {
    c.pausedTotal + if c.pauseStarted.Some? then Elapsed(c.pauseStarted.value, now) else 0
  }

  class AgentTimeoutClock {
    var pausedCount: nat
    var pausedTotal: nat
    var pauseStarted: Option<nat>

    ghost function View(): Clock
      reads this
    {
      Clock(pausedCount, pausedTotal, pauseStarted)
    }

    constructor ()
      ensures View() == NEW_CLOCK
    {
      pausedCount, pausedTotal, pauseStarted := 0, 0, None;
    }

    method EnterPause(now: nat)
      modifies this
      ensures View() == Pause(old(View()), now)
    {
      var previous := pausedCount;
      pausedCount := pausedCount + 1;
      if previous == 0 {
        pauseStarted := Some(now);
      }
    }

    method LeavePause(now: nat)
      modifies this
      ensures View() == Resume(old(View()), now)
    {
      var previous := pausedCount;
      pausedCount := if pausedCount == 0 then WORD_MAX else pausedCount - 1;
      if previous == 1 {
        if pauseStarted.Some? {
          pausedTotal := pausedTotal + Elapsed(pauseStarted.value, now);
          pauseStarted := None;
        }
      }
    }
  }

  // ----- histories ------------------------------------------------------------------

  /** One pause (`up`) or resume at an instant. */
  datatype Mark = Mark(now: nat, up: bool)

  function Net(marks: seq<Mark>): int {
    if marks == [] then 0 else Net(Front(marks)) + if Last(marks).up then 1 else -1
  }

  /** Instants never decrease and no resume outruns the pauses before it. */
  ghost predicate Balanced(marks: seq<Mark>) {
    && (forall i, j :: 0 <= i <= j < |marks| ==> marks[i].now <= marks[j].now)
    && (forall i :: 0 <= i <= |marks| ==> Net(marks[..i]) >= 0)
  }

  lemma BalancedFront(marks: seq<Mark>)
    requires Balanced(marks) && marks != []
    ensures Balanced(Front(marks)) && Net(marks) >= 0 && Net(Front(marks)) >= 0
  {
    assert marks[..|marks|] == marks && marks[..|marks| - 1] == Front(marks);
    forall i | 0 <= i <= |marks| - 1 ensures Net(Front(marks)[..i]) >= 0 {
      assert Front(marks)[..i] == marks[..i];
    }
  }

  function Run(marks: seq<Mark>): (c: Clock)
    requires Balanced(marks)
    ensures c.pausedCount == Net(marks)
    decreases |marks|
  {
    if marks == [] then NEW_CLOCK
    else
      BalancedFront(marks);
      if Last(marks).up then Pause(Run(Front(marks)), Last(marks).now)
      else Resume(Run(Front(marks)), Last(marks).now)
  }

  /** The pause count in force during the unit of time starting at `t`. */
  function CountAt(marks: seq<Mark>, t: nat): int {
    if marks == [] then 0
    else CountAt(Front(marks), t) + if Last(marks).now > t then 0 else if Last(marks).up then 1 else -1
  }

  /** How many units of [from, upto) passed with a positive pause count. */
  function PausedTime(marks: seq<Mark>, from: nat, upto: nat): nat
    decreases upto
  {
    if upto <= from then 0
    else PausedTime(marks, from, upto - 1) + if CountAt(marks, upto - 1) > 0 then 1 else 0
  }

  function RunningTime(marks: seq<Mark>, from: nat, upto: nat): nat
    decreases upto
  {
    if upto <= from then 0
    else RunningTime(marks, from, upto - 1) + if CountAt(marks, upto - 1) > 0 then 0 else 1
  }

  lemma {:induction false} CountBeforeLast(marks: seq<Mark>, from: nat, upto: nat)
    requires marks != [] && upto <= Last(marks).now
    ensures PausedTime(marks, from, upto) == PausedTime(Front(marks), from, upto)
    decreases upto
  {
    if upto > from {
      CountBeforeLast(marks, from, upto - 1);
    }
  }

  lemma {:induction false} CountAfterAll(marks: seq<Mark>, t: nat)
    requires forall i :: 0 <= i < |marks| ==> marks[i].now <= t
    ensures CountAt(marks, t) == Net(marks)
  {
    if marks != [] {
      CountAfterAll(Front(marks), t);
    }
  }

  /** A later mark leaves the count at `t` alone. */
  lemma CountAppend(marks: seq<Mark>, added: seq<Mark>, t: nat)
    requires added == [] || (|added| == 1 && added[0].now > t)
    ensures CountAt(marks + added, t) == CountAt(marks, t)
  {
    if added == [] {
      assert marks + added == marks;
    } else {
      assert marks + added == marks + [added[0]];
      FrontAppend(marks, added[0]);
    }
  }

  /** Past the last mark the count is constant. */
  lemma {:induction false} TailTime(marks: seq<Mark>, from: nat, at: nat, upto: nat)
    requires from <= at <= upto && forall i :: 0 <= i < |marks| ==> marks[i].now <= at
    ensures PausedTime(marks, from, upto) == PausedTime(marks, from, at) + if Net(marks) > 0 then upto - at else 0
    ensures RunningTime(marks, from, upto) == RunningTime(marks, from, at) + if Net(marks) > 0 then 0 else upto - at
    decreases upto
  {
    if upto > at {
      TailTime(marks, from, at, upto - 1);
      CountAfterAll(marks, upto - 1);
    }
  }

  lemma {:induction false} Unstarted(from: nat, upto: nat)
    ensures PausedTime([], from, upto) == 0
    decreases upto
  {
    if upto > from {
      Unstarted(from, upto - 1);
    }
  }

  ghost predicate Started(c: Clock, latest: nat) {
    (c.pauseStarted.Some? <==> c.pausedCount > 0) && (c.pauseStarted.Some? ==> c.pauseStarted.value <= latest)
  }

  lemma {:induction false} RunStarted(marks: seq<Mark>)
    requires Balanced(marks)
    ensures Started(Run(marks), if marks == [] then 0 else Last(marks).now)
  {
    if marks != [] {
      BalancedFront(marks);
      RunStarted(Front(marks));
    }
  }

  /** The clock's paused duration is exactly the time during which somebody held a pause. */
  lemma {:induction false} PausedDurationIsExact(marks: seq<Mark>, started: nat, now: nat)
    requires Balanced(marks) && started <= now
    requires forall i :: 0 <= i < |marks| ==> started <= marks[i].now <= now
    ensures PausedDuration(Run(marks), now) == PausedTime(marks, started, now)
    decreases |marks|
  {
    if marks == [] {
      Unstarted(started, now);
    } else {
      var at, past := Last(marks).now, Front(marks);
      BalancedFront(marks);
      forall i | 0 <= i < |past| ensures started <= past[i].now <= at {
        assert past[i] == marks[i];
        assert marks[i].now <= marks[|marks| - 1].now;
      }
      PausedDurationIsExact(past, started, at);
      RunStarted(past);
      RunStarted(marks);
      CountBeforeLast(marks, started, at);
      TailTime(marks, started, at, now);
    }
  }

  lemma {:induction false} TimeIsConserved(marks: seq<Mark>, from: nat, upto: nat)
    requires from <= upto
    ensures PausedTime(marks, from, upto) + RunningTime(marks, from, upto) == upto - from
    decreases upto
  {
    if upto > from {
      TimeIsConserved(marks, from, upto - 1);
    }
  }

  // ----- the watchdog ---------------------------------------------------------------------

  function Unpaused(c: Clock, started: nat, now: nat): nat {
    var elapsed, paused := Elapsed(started, now), PausedDuration(c, now);
    if elapsed < paused then 0 else elapsed - paused
  }

  datatype Decision = Fire | AwaitNotification | SleepFor(remaining: nat)

  /** One turn of the watchdog loop. */
  function Watch(c: Clock, started: nat, timeout: nat, now: nat): Decision {
    var unpaused := Unpaused(c, started, now);
    if unpaused >= timeout then Fire
    else if c.pausedCount > 0 then AwaitNotification
    else SleepFor(timeout - unpaused)
  }

  ghost predicate During(marks: seq<Mark>, started: nat, now: nat) {
    Balanced(marks) && started <= now && forall i :: 0 <= i < |marks| ==> started <= marks[i].now <= now
  }

  /** The subtraction never saturates: unpaused time is the time nobody held a pause. */
  lemma UnpausedIsRunningTime(marks: seq<Mark>, started: nat, now: nat)
    requires During(marks, started, now)
    ensures PausedDuration(Run(marks), now) <= now - started
    ensures Unpaused(Run(marks), started, now) == RunningTime(marks, started, now)
  {
    PausedDurationIsExact(marks, started, now);
    TimeIsConserved(marks, started, now);
  }

  /** The watchdog fires exactly when the run has been unpaused for the timeout. */
  lemma FiresExactlyAtTimeout(marks: seq<Mark>, started: nat, timeout: nat, now: nat)
    requires During(marks, started, now)
    ensures Watch(Run(marks), started, timeout, now).Fire? <==> RunningTime(marks, started, now) >= timeout
  {
    UnpausedIsRunningTime(marks, started, now);
  }

  /** With no further mark: while paused unpaused time is frozen, so waiting for a notification misses
      nothing; while running it advances one for one, so the sleep ends exactly at the deadline. */
  lemma WatchMissesNothing(marks: seq<Mark>, started: nat, timeout: nat, now: nat, later: nat)
    requires During(marks, started, now) && now <= later
    ensures Watch(Run(marks), started, timeout, now).AwaitNotification? ==>
              && Unpaused(Run(marks), started, later) == Unpaused(Run(marks), started, now)
              && !Watch(Run(marks), started, timeout, later).Fire?
    ensures Watch(Run(marks), started, timeout, now).SleepFor? ==>
              && Unpaused(Run(marks), started, later) == Unpaused(Run(marks), started, now) + (later - now)
              && (Watch(Run(marks), started, timeout, later).Fire? <==>
                    later >= now + Watch(Run(marks), started, timeout, now).remaining)
  {
    UnpausedIsRunningTime(marks, started, now);
    UnpausedIsRunningTime(marks, started, later);
    TailTime(marks, started, now, later);
  }

  /** Balance is needed: a resume that no pause precedes wraps the counter, so the watchdog waits for a notification
      instead of sleeping although nobody holds a pause and no paused time accrues. */
  lemma UnmatchedResume(c: Clock, started: nat, timeout: nat, now: nat, later: nat)
    requires c.pausedCount == 0 && c.pauseStarted.None? && Unpaused(c, started, later) < timeout
    ensures var d := Resume(c, now);
            && PausedDuration(d, later) == PausedDuration(c, later)
            && Watch(c, started, timeout, later).SleepFor? && Watch(d, started, timeout, later).AwaitNotification?
  {
  }
}
