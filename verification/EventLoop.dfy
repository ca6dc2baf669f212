/**
 The periodic event loop of lesson 9, for any tasks and any number of seconds: at each second the
 tasks are looked at in order, and a task runs if its interval has passed since it last ran.
 */
module EventLoop {

  /** What the schedule should be: multiples of the interval, from the first one after zero on; a task
      with a non-positive interval runs every second. */
  predicate Due(interval: int, time: nat) {
    interval <= 0 || (time > 0 && time % interval == 0)
  }

  datatype Run = Run(time: nat, task: nat)

  /** The tasks before k that are due at a time, in order. */
  function RunsAt(intervals: seq<int>, time: nat, k: nat): seq<Run>
    requires k <= |intervals|
  {
    if k == 0 then []
    else RunsAt(intervals, time, k - 1) + (if Due(intervals[k - 1], time) then [Run(time, k - 1)] else [])
  }

  function Schedule(intervals: seq<int>, horizon: nat): seq<Run> {
    if horizon == 0 then []
    else Schedule(intervals, horizon - 1) + RunsAt(intervals, horizon - 1, |intervals|)
  }

  /** The last time before now that is a multiple of the interval. */
  predicate LastMultiple(interval: int, last: int, now: nat) {
    if interval <= 0 then last == if now == 0 then 0 else now - 1
    else last >= 0 && last % interval == 0 && (if now == 0 then last == 0 else last < now <= last + interval)
  }

  /** The scheduler's test, on its own state, is the arithmetic one. */
  lemma TestIsDue(interval: int, last: int, now: nat)
    requires LastMultiple(interval, last, now)
    ensures now - last >= interval <==> Due(interval, now)
    ensures LastMultiple(interval, if now - last >= interval then now else last, now + 1)
  {
    if interval > 0 {
      var q := last / interval;
      assert last == q * interval;
      if now - last >= interval {
        assert now == (q + 1) * interval;
        ModOfMultiple(q + 1, interval, 0);
      } else {
        ModOfMultiple(q, interval, now - last);
      }
    }
  }

  lemma ModOfMultiple(q: nat, d: int, r: nat)
    requires r < d
    ensures (q * d + r) % d == r
  {
    var n := q * d + r;
    var k := n / d;
    assert k * d + n % d == n;
    assert k < q ==> k * d <= (q - 1) * d;
    assert k > q ==> k * d >= (q + 1) * d;
  }

  /** The loop of main, with the tasks' last_run fields updated in place. */
  method Loop(intervals: seq<int>, lastRun: array<int>, horizon: nat) returns (runs: seq<Run>)
    requires lastRun.Length == |intervals| && forall i :: 0 <= i < lastRun.Length ==> lastRun[i] == 0
    modifies lastRun
    ensures runs == Schedule(intervals, horizon)
    ensures forall t: nat, k: nat ::
              Run(t, k) in runs <==> t < horizon && k < |intervals| && (intervals[k] <= 0 || (t > 0 && t % intervals[k] == 0))
    ensures Ordered(runs)
    ensures forall i :: 0 <= i < |intervals| ==> LastMultiple(intervals[i], lastRun[i], horizon)
  {
    runs := [];
    var time := 0;
    while time < horizon
      invariant 0 <= time <= horizon
      invariant runs == Schedule(intervals, time)
      invariant forall i :: 0 <= i < |intervals| ==> LastMultiple(intervals[i], lastRun[i], time)
    {
      for i := 0 to |intervals|
        invariant runs == Schedule(intervals, time) + RunsAt(intervals, time, i)
        invariant forall j :: 0 <= j < i ==> LastMultiple(intervals[j], lastRun[j], time + 1)
        invariant forall j :: i <= j < |intervals| ==> LastMultiple(intervals[j], lastRun[j], time)
      {
        TestIsDue(intervals[i], lastRun[i], time);
        if time - lastRun[i] >= intervals[i] {
          runs := runs + [Run(time, i)];
          lastRun[i] := time;
        }
      }
      time := time + 1;
    }
    forall t: nat, k: nat
      ensures Run(t, k) in runs <==> t < horizon && k < |intervals| && (intervals[k] <= 0 || (t > 0 && t % intervals[k] == 0))
    {
      ScheduleHas(intervals, horizon, t, k);
    }
    ScheduleOrdered(intervals, horizon);
  }

  // ----- The schedule, without its recursion -----

  predicate Earlier(a: Run, b: Run) {
    a.time < b.time || (a.time == b.time && a.task < b.task)
  }

  /** By time, and tasks of the same second in order; so no run occurs twice. */
  predicate Ordered(runs: seq<Run>) {
    forall i, j :: 0 <= i < j < |runs| ==> Earlier(runs[i], runs[j])
  }

  lemma {:induction false} RunsAtHas(intervals: seq<int>, time: nat, k: nat, r: Run)
    requires k <= |intervals|
    ensures r in RunsAt(intervals, time, k) <==> r.time == time && r.task < k && Due(intervals[r.task], time)
  {
    if k > 0 {
      RunsAtHas(intervals, time, k - 1, r);
    }
  }

  lemma {:induction false} ScheduleHasDue(intervals: seq<int>, horizon: nat, r: Run)
    ensures r in Schedule(intervals, horizon) <==> r.time < horizon && r.task < |intervals| && Due(intervals[r.task], r.time)
    decreases horizon
  {
    if horizon > 0 {
      ScheduleHasDue(intervals, horizon - 1, r);
      RunsAtHas(intervals, horizon - 1, |intervals|, r);
    }
  }

  /** A task runs at exactly the positive multiples of its interval below the horizon, or every second. */
  lemma ScheduleHas(intervals: seq<int>, horizon: nat, t: nat, k: nat)
    ensures Run(t, k) in Schedule(intervals, horizon) <==>
            t < horizon && k < |intervals| && (intervals[k] <= 0 || (t > 0 && t % intervals[k] == 0))
  {
    ScheduleHasDue(intervals, horizon, Run(t, k));
  }

  lemma OrderedConcat(a: seq<Run>, b: seq<Run>)
    requires Ordered(a) && Ordered(b)
    requires forall x, y :: x in a && y in b ==> Earlier(x, y)
    ensures Ordered(a + b)
  {
    var c := a + b;
    forall i, j | 0 <= i < j < |c| ensures Earlier(c[i], c[j]) {
      if i < |a| <= j {
        assert c[i] == a[i] && c[j] == b[j - |a|];
        assert a[i] in a && b[j - |a|] in b;
      }
    }
  }

  lemma {:induction false} RunsAtOrdered(intervals: seq<int>, time: nat, k: nat)
    requires k <= |intervals|
    ensures Ordered(RunsAt(intervals, time, k))
  {
    if k > 0 {
      RunsAtOrdered(intervals, time, k - 1);
      forall x | x in RunsAt(intervals, time, k - 1) ensures x.time == time && x.task < k - 1 {
        RunsAtHas(intervals, time, k - 1, x);
      }
      OrderedConcat(RunsAt(intervals, time, k - 1), if Due(intervals[k - 1], time) then [Run(time, k - 1)] else []);
    }
  }

  lemma RunsAtTime(intervals: seq<int>, time: nat, k: nat, r: Run)
    requires k <= |intervals| && r in RunsAt(intervals, time, k)
    ensures r.time == time
  {
    RunsAtHas(intervals, time, k, r);
  }

  lemma ScheduleTime(intervals: seq<int>, horizon: nat, r: Run)
    requires r in Schedule(intervals, horizon)
    ensures r.time < horizon
  {
    ScheduleHasDue(intervals, horizon, r);
  }

  lemma {:induction false} ScheduleOrdered(intervals: seq<int>, horizon: nat)
    ensures Ordered(Schedule(intervals, horizon))
    decreases horizon
  {
    if horizon > 0 {
      var earlier, now := Schedule(intervals, horizon - 1), RunsAt(intervals, horizon - 1, |intervals|);
      ScheduleOrdered(intervals, horizon - 1);
      RunsAtOrdered(intervals, horizon - 1, |intervals|);
      forall x, y | x in earlier && y in now ensures Earlier(x, y) {
        ScheduleTime(intervals, horizon - 1, x);
        RunsAtTime(intervals, horizon - 1, |intervals|, y);
      }
      OrderedConcat(earlier, now);
    }
  }

  // ----- How often a task runs -----

  function CountOf(runs: seq<Run>, task: nat): nat {
    if runs == [] then 0
    else CountOf(runs[..|runs| - 1], task) + if runs[|runs| - 1].task == task then 1 else 0
  }

  lemma {:induction false} CountConcat(a: seq<Run>, b: seq<Run>, task: nat)
    ensures CountOf(a + b, task) == CountOf(a, task) + CountOf(b, task)
    decreases |b|
  {
    if b == [] {
      assert a + b == a;
    } else {
      CountConcat(a, b[..|b| - 1], task);
      assert (a + b)[..|a + b| - 1] == a + b[..|b| - 1];
    }
  }

  lemma {:induction false} CountAt(intervals: seq<int>, time: nat, k: nat, task: nat)
    requires k <= |intervals|
    ensures CountOf(RunsAt(intervals, time, k), task) == if task < k && Due(intervals[task], time) then 1 else 0
  {
    if k > 0 {
      CountAt(intervals, time, k - 1, task);
      var one := if Due(intervals[k - 1], time) then [Run(time, k - 1)] else [];
      CountConcat(RunsAt(intervals, time, k - 1), one, task);
      assert one != [] ==> one[..0] == [];
    }
  }

  lemma QuotientStep(n: nat, d: int)
    requires d > 0
    ensures (n + 1) / d == n / d + if (n + 1) % d == 0 then 1 else 0
  {
    var q, r := n / d, n % d;
    assert n == q * d + r;
    if r + 1 == d {
      assert n + 1 == (q + 1) * d;
      ModOfMultiple(q + 1, d, 0);
      assert (n + 1) / d * d == (q + 1) * d;
      QuotientUnique((n + 1) / d, q + 1, d);
    } else {
      ModOfMultiple(q, d, r + 1);
      assert (n + 1) / d * d == q * d;
      QuotientUnique((n + 1) / d, q, d);
    }
  }

  lemma QuotientUnique(a: int, b: int, d: int)
    requires d > 0 && a * d == b * d
    ensures a == b
  {
  }

  /** Over a horizon a task with interval k > 0 runs (horizon - 1) / k times, any other every second. */
  lemma {:induction false} RunCount(intervals: seq<int>, horizon: nat, task: nat)
    requires task < |intervals|
    ensures CountOf(Schedule(intervals, horizon), task) ==
            if intervals[task] <= 0 || horizon == 0 then horizon else (horizon - 1) / intervals[task]
    decreases horizon
  {
    if horizon > 0 {
      var now := horizon - 1;
      RunCount(intervals, now, task);
      CountConcat(Schedule(intervals, now), RunsAt(intervals, now, |intervals|), task);
      CountAt(intervals, now, |intervals|, task);
      if intervals[task] > 0 && now > 0 {
        QuotientStep(now - 1, intervals[task]);
      }
    }
  }
}
