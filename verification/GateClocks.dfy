/** The timeout clocks of the runs, as the permission gates drive them over time. */
module GateClocks {
  import opened Sequences
  import opened PermissionProtocol
  import TimeoutClock
  import Watchdog

  /** The actions as instants. */
  function Ticks(moments: seq<Moment>): (ticks: seq<TimeoutClock.Mark>)
    ensures |ticks| == |moments|
  {
    seq(|moments|, i requires 0 <= i < |moments| => TimeoutClock.Mark(moments[i].now, true))
  }

  /** How many actions happened up to and including the instant `t`. */
  function Reached(moments: seq<Moment>, t: nat): (n: nat)
    ensures n <= |moments|
  {
    Watchdog.UpTo(Ticks(moments), t)
  }

  lemma ReachedSplits(moments: seq<Moment>, t: nat)
    requires forall i, j :: 0 <= i <= j < |moments| ==> moments[i].now <= moments[j].now
    ensures forall i :: 0 <= i < |moments| ==> (moments[i].now <= t <==> i < Reached(moments, t))
  {
    Watchdog.UpToSplits(Ticks(moments), t);
    forall i | 0 <= i < |moments| ensures moments[i].now <= t <==> i < Reached(moments, t) {
      assert Ticks(moments)[i].now == moments[i].now;
    }
  }

  lemma RunStep(states: seq<System>, moments: seq<Moment>, n: nat, run: string)
    requires IsRun(states, moments) && n < |moments|
    ensures Enabled(states[n], moments[n].action) && states[n + 1] == Next(states[n], moments[n].action, moments[n].now)
    ensures MarksOf(states[n + 1], run) == MarksOf(states[n], run) +
            if Touches(states[n], moments[n].action, run) then [TimeoutClock.Mark(moments[n].now, moments[n].action.Enter?)] else []
  {
    assert StepAt(states, moments, n);
    MarksAfter(states[n], moments[n].action, moments[n].now, run);
  }

  lemma CountStep(states: seq<System>, moments: seq<Moment>, n: nat, run: string, t: nat)
    requires IsRun(states, moments) && n < |moments| && moments[n].now > t
    ensures TimeoutClock.CountAt(MarksOf(states[n + 1], run), t) == TimeoutClock.CountAt(MarksOf(states[n], run), t)
  {
    RunStep(states, moments, n, run);
    var added := if Touches(states[n], moments[n].action, run)
                 then [TimeoutClock.Mark(moments[n].now, moments[n].action.Enter?)] else [];
    TimeoutClock.CountAppend(MarksOf(states[n], run), added, t);
  }

  /** Actions after `t` do not change the count in force at `t`. */
  lemma {:induction false} LaterActionsKeepCount(states: seq<System>, moments: seq<Moment>, m: nat, n: nat, run: string, t: nat)
    requires IsRun(states, moments) && m <= n < |states|
    requires forall i :: m <= i < n ==> moments[i].now > t
    ensures TimeoutClock.CountAt(MarksOf(states[n], run), t) == TimeoutClock.CountAt(MarksOf(states[m], run), t)
  {
    if m < n {
      LaterActionsKeepCount(states, moments, m, n - 1, run, t);
      CountStep(states, moments, n - 1, run, t);
    }
  }

  lemma MarksUpTo(marks: seq<TimeoutClock.Mark>, t: nat)
    requires TimeoutClock.Balanced(marks) && (marks != [] ==> Last(marks).now <= t)
    ensures forall i :: 0 <= i < |marks| ==> marks[i].now <= t
  {
    forall i | 0 <= i < |marks| ensures marks[i].now <= t {
      assert marks[i].now <= marks[|marks| - 1].now;
    }
  }

  /** At every instant the pause count of a run is the number of its gates then in flight. */
  lemma CountIsGatesInFlight(states: seq<System>, moments: seq<Moment>, run: string, t: nat)
    requires IsRun(states, moments)
    ensures TimeoutClock.CountAt(MarksOf(Last(states), run), t) == |Flying(states[Reached(moments, t)].gates, run)|
  {
    var n := Reached(moments, t);
    ReachedSplits(moments, t);
    LaterActionsKeepCount(states, moments, n, |moments|, run, t);
    RunKeepsInv(states, moments, n);
    assert CountedRun(states[n], run);
    var marks := MarksOf(states[n], run);
    assert marks != [] ==> Last(marks).now <= t;
    MarksUpTo(marks, t);
    TimeoutClock.CountAfterAll(marks, t);
  }

  /** How many units of [from, upto) passed with some gate of the run in flight. */
  function FlightTime(states: seq<System>, moments: seq<Moment>, run: string, from: nat, upto: nat): nat
    requires |states| == |moments| + 1
    decreases upto
  {
    if upto <= from then 0
    else FlightTime(states, moments, run, from, upto - 1)
         + if Flying(states[Reached(moments, upto - 1)].gates, run) != {} then 1 else 0
  }

  lemma {:induction false} PausedTimeIsFlightTime(states: seq<System>, moments: seq<Moment>, run: string, from: nat, upto: nat)
    requires IsRun(states, moments)
    ensures TimeoutClock.PausedTime(MarksOf(Last(states), run), from, upto) == FlightTime(states, moments, run, from, upto)
    decreases upto
  {
    if upto > from {
      PausedTimeIsFlightTime(states, moments, run, from, upto - 1);
      CountIsGatesInFlight(states, moments, run, upto - 1);
    }
  }

  /** No gate of the run is entered before it starts. */
  ghost predicate StartsAt(moments: seq<Moment>, run: string, started: nat) {
    forall i :: 0 <= i < |moments| && moments[i].action.Enter? && moments[i].action.view.runId == run ==>
      started <= moments[i].now
  }

  /** A clock nobody has touched is first touched by a gate that enters. */
  lemma FirstTouchEnters(s: System, a: Action, now: nat, run: string)
    requires CountedRun(s, run) && MarksOf(s, run) == [] && Enabled(s, a) && Touches(s, a, run)
    ensures a.Enter?
  {
    FlyingAfter(s, a, now, run);
  }

  ghost predicate StartsLate(marks: seq<TimeoutClock.Mark>, started: nat) {
    marks != [] ==> started <= marks[0].now
  }

  lemma StartsLateStep(marks: seq<TimeoutClock.Mark>, added: seq<TimeoutClock.Mark>, started: nat)
    requires StartsLate(marks, started) && (marks == [] ==> StartsLate(added, started))
    ensures StartsLate(marks + added, started)
  {
  }

  lemma FirstTouchAt(states: seq<System>, moments: seq<Moment>, n: nat, run: string)
    requires IsRun(states, moments) && n < |moments|
    requires MarksOf(states[n], run) == [] && Touches(states[n], moments[n].action, run)
    ensures moments[n].action.Enter? && moments[n].action.view.runId == run
  {
    assert StepAt(states, moments, n);
    RunKeepsInv(states, moments, n);
    assert CountedRun(states[n], run);
    FirstTouchEnters(states[n], moments[n].action, moments[n].now, run);
  }

  lemma StartsLateAt(states: seq<System>, moments: seq<Moment>, n: nat, run: string, started: nat)
    requires IsRun(states, moments) && n < |moments| && StartsAt(moments, run, started)
    requires StartsLate(MarksOf(states[n], run), started)
    ensures StartsLate(MarksOf(states[n + 1], run), started)
  {
    RunStep(states, moments, n, run);
    var m := moments[n];
    var added := if Touches(states[n], m.action, run) then [TimeoutClock.Mark(m.now, m.action.Enter?)] else [];
    if MarksOf(states[n], run) == [] && added != [] {
      FirstTouchAt(states, moments, n, run);
    }
    StartsLateStep(MarksOf(states[n], run), added, started);
  }

  lemma {:induction false} MarksStartLate(states: seq<System>, moments: seq<Moment>, n: nat, run: string, started: nat)
    requires IsRun(states, moments) && n < |states| && StartsAt(moments, run, started)
    ensures StartsLate(MarksOf(states[n], run), started)
  {
    if n > 0 {
      MarksStartLate(states, moments, n - 1, run, started);
      StartsLateAt(states, moments, n - 1, run, started);
    }
  }

  lemma ClockSpans(states: seq<System>, moments: seq<Moment>, run: string, started: nat, now: nat)
    requires IsRun(states, moments) && started <= now && StartsAt(moments, run, started)
    requires forall i :: 0 <= i < |moments| ==> moments[i].now <= now
    ensures TimeoutClock.During(MarksOf(Last(states), run), started, now)
    ensures TimeoutClock.Net(MarksOf(Last(states), run)) == |Flying(Last(states).gates, run)|
  {
    var n, marks := |moments|, MarksOf(Last(states), run);
    RunKeepsInv(states, moments, n);
    assert CountedRun(states[n], run);
    MarksStartLate(states, moments, n, run, started);
    MarksUpTo(marks, now);
    forall i | 0 <= i < |marks| ensures started <= marks[i].now {
      assert marks[0].now <= marks[i].now;
    }
  }

  /** The paused duration of a run's clock is exactly the time some gate of that run was in flight, over every
      interleaving with the gates of other runs. */
  lemma PausedWhileGatesFly(states: seq<System>, moments: seq<Moment>, run: string, started: nat, now: nat)
    requires IsRun(states, moments) && started <= now && StartsAt(moments, run, started)
    requires forall i :: 0 <= i < |moments| ==> moments[i].now <= now
    ensures TimeoutClock.Balanced(MarksOf(Last(states), run))
    ensures var clock := TimeoutClock.Run(MarksOf(Last(states), run));
            && TimeoutClock.PausedDuration(clock, now) == FlightTime(states, moments, run, started, now)
            && clock.pausedCount == |Flying(Last(states).gates, run)|
  {
    ClockSpans(states, moments, run, started, now);
    TimeoutClock.PausedDurationIsExact(MarksOf(Last(states), run), started, now);
    PausedTimeIsFlightTime(states, moments, run, started, now);
  }

  /** Running time of a run's clock is its time without a gate of its own. */
  lemma RunningIsGateFree(states: seq<System>, moments: seq<Moment>, run: string, started: nat, now: nat)
    requires IsRun(states, moments) && started <= now
    ensures TimeoutClock.RunningTime(MarksOf(Last(states), run), started, now) ==
            now - started - FlightTime(states, moments, run, started, now)
  {
    TimeoutClock.TimeIsConserved(MarksOf(Last(states), run), started, now);
    PausedTimeIsFlightTime(states, moments, run, started, now);
  }

  /** So the watchdog of a run fires exactly when the run's time without a gate of its own reaches the timeout. */
  lemma WatchdogSparesWaits(states: seq<System>, moments: seq<Moment>, run: string, started: nat, timeout: nat, now: nat)
    requires IsRun(states, moments) && started <= now && StartsAt(moments, run, started)
    requires forall i :: 0 <= i < |moments| ==> moments[i].now <= now
    ensures TimeoutClock.Balanced(MarksOf(Last(states), run))
    ensures TimeoutClock.Watch(TimeoutClock.Run(MarksOf(Last(states), run)), started, timeout, now).Fire?
            <==> now - started - FlightTime(states, moments, run, started, now) >= timeout
  {
    var marks := MarksOf(Last(states), run);
    ClockSpans(states, moments, run, started, now);
    TimeoutClock.FiresExactlyAtTimeout(marks, started, timeout, now);
    RunningIsGateFree(states, moments, run, started, now);
  }
}
