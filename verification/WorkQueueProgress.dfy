/**
 The work queue's producers and workers get through their work: between spurious wake-ups and
 shutdown only so many steps are possible, and when no more are, everything has been executed.
 */
module WorkQueueProgress {
  import opened Sums
  import opened WorkQueues
  import opened Projections
  import opened WorkQueueProtocol

  /** How many submissions are still to be made. */
  ghost function Total(todo: map<Tid, seq<int>>): nat
    decreases |todo|
  {
    if todo == map[] then 0
    else
      var p :| p in todo;
      |todo[p]| + Total(todo - {p})
  }

  lemma {:induction false} TotalWithout(todo: map<Tid, seq<int>>, p: Tid)
    requires p in todo
    ensures Total(todo) == |todo[p]| + Total(todo - {p})
    decreases |todo|
  {
    var q :| q in todo && Total(todo) == |todo[q]| + Total(todo - {q});
    if q != p {
      TotalWithout(todo - {q}, p);
      TotalWithout(todo - {p}, q);
      assert todo - {q} - {p} == todo - {p} - {q};
    }
  }

  lemma TotalSubmit(todo: map<Tid, seq<int>>, p: Tid)
    requires p in todo && todo[p] != []
    ensures Total(todo[p := todo[p][1..]]) == Total(todo) - 1
  {
    var todo' := todo[p := todo[p][1..]];
    TotalWithout(todo, p);
    TotalWithout(todo', p);
    assert todo - {p} == todo' - {p};
  }

  // ----- The measure -----

  /** Steps the threads can make before they submit or take another task. */
  function RestlessOf(ready: set<Tid>, woken: set<Tid>, running: set<Tid>, asleep: set<Tid>, producers: nat): int {
    |ready| + |woken| + 2 * |running| + producers - |asleep|
  }

  function Restless(s: State, producers: nat): int {
    RestlessOf(s.ready, s.woken, s.running.Keys, s.sleepingProducers, producers)
  }

  /** n times k, by addition. */
  function Times(n: nat, k: nat): nat {
    if n == 0 then 0 else k + Times(n - 1, k)
  }

  lemma {:induction false} TimesIsProduct(n: nat, k: nat)
    ensures Times(n, k) == k * n
  {
    if n > 0 {
      TimesIsProduct(n - 1, k);
      assert k * n == k + k * (n - 1);
    }
  }

  /** A submission can set off a step of every worker, and a hand-out one of every producer. */
  function Weigh(producers: nat, workers: nat, total: nat, queued: nat, restless: int): int {
    Times(total, producers + workers + 3) + Times(queued, producers + 2) + restless
  }

  /** A bound on the steps the producers and workers can make. */
  ghost function Ahead(s: State, producers: nat, workers: nat): int {
    Weigh(producers, workers, Total(s.todo), |s.monitor.queue|, Restless(s, producers))
  }

  /** One step of a producer or a worker: a thread settles down, a task is submitted, or one is handed out. */
  predicate MovesOn(P: nat, W: nat, total: nat, queued: nat, restless: int, total': nat, queued': nat, restless': int) {
    || (total' == total && queued' == queued && restless' == restless - 1)
    || (total' == total - 1 && queued <= queued' <= queued + 1 && restless' <= restless + W)
    || (total' == total && queued' == queued - 1 && restless' <= restless + 1 + P)
  }

  lemma WeighFalls(P: nat, W: nat, total: nat, queued: nat, restless: int, total': nat, queued': nat, restless': int)
    requires MovesOn(P, W, total, queued, restless, total', queued', restless')
    ensures Weigh(P, W, total', queued', restless') < Weigh(P, W, total, queued, restless)
  {
  }

  ghost predicate Progress(s: State, s': State, P: nat, W: nat) {
    MovesOn(P, W, Total(s.todo), |s.monitor.queue|, Restless(s, P), Total(s'.todo), |s'.monitor.queue|, Restless(s', P))
  }

  lemma AheadFalls(s: State, s': State, P: nat, W: nat)
    requires Progress(s, s', P, W)
    ensures Ahead(s', P, W) < Ahead(s, P, W)
  {
    WeighFalls(P, W, Total(s.todo), |s.monitor.queue|, Restless(s, P), Total(s'.todo), |s'.monitor.queue|, Restless(s', P));
  }

  lemma RestlessWoken(ready: set<Tid>, woken: set<Tid>, running: set<Tid>, asleep: set<Tid>, producers: nat, wake: set<Tid>)
    requires wake !! woken
    ensures RestlessOf(ready, woken + wake, running, asleep, producers)
            == RestlessOf(ready, woken, running, asleep, producers) + |wake|
  {
  }

  lemma RestlessTaken(ready: set<Tid>, woken: set<Tid>, running: set<Tid>, asleep: set<Tid>, producers: nat, w: Tid, wake: set<Tid>)
    requires w in ready + woken && ready !! woken && w !in running && wake <= asleep
    ensures RestlessOf(ready - {w}, woken - {w}, running + {w}, asleep - wake, producers)
            == RestlessOf(ready, woken, running, asleep, producers) + 1 + |wake|
  {
    LeaveReady(ready, woken, w);
    assert asleep == (asleep - wake) + wake;
  }

  lemma ProgressWait(s: State, p: Tid, wake: set<Tid>, P: nat, W: nat)
    requires Can(s, Enqueue(p, wake)) && EnqueueSection(s.monitor, Offer(s, p)).1.WaitNotFull?
    ensures Progress(s, DoEnqueue(s, p, wake), P, W)
  {
    assert |s.sleepingProducers + {p}| == |s.sleepingProducers| + 1;
  }

  lemma ProgressSubmission(s: State, p: Tid, wake: set<Tid>, P: nat, W: nat)
    requires Can(s, Enqueue(p, wake)) && !EnqueueSection(s.monitor, Offer(s, p)).1.WaitNotFull?
    requires wake !! s.woken && |wake| <= W
    ensures Progress(s, DoEnqueue(s, p, wake), P, W)
  {
    TotalSubmit(s.todo, p);
    RestlessWoken(s.ready, s.woken, s.running.Keys, s.sleepingProducers, P, wake);
  }

  lemma ProgressHandOut(s: State, w: Tid, wake: set<Tid>, P: nat, W: nat)
    requires Can(s, Dequeue(w, wake)) && s.monitor.queue != [] && s.ready !! s.woken && w !in s.running
    requires wake <= s.sleepingProducers && |wake| <= P
    ensures Progress(s, DoDequeue(s, w, wake), P, W)
  {
    RestlessTaken(s.ready, s.woken, s.running.Keys, s.sleepingProducers, P, w, wake);
    KeysTaken(s.running, w, |s.handedOut|);
  }

  lemma ProgressNothingToTake(s: State, w: Tid, wake: set<Tid>, P: nat, W: nat)
    requires Can(s, Dequeue(w, wake)) && s.monitor.queue == [] && s.ready !! s.woken
    ensures Progress(s, DoDequeue(s, w, wake), P, W)
  {
    LeaveReady(s.ready, s.woken, w);
  }

  lemma ProgressFinish(s: State, w: Tid, script: map<Tid, seq<int>>, workers: set<Tid>)
    requires Threads(s, workers) && Can(s, Finish(w))
    ensures Progress(s, Do(s, Finish(w)), |script.Keys|, |workers|)
  {
    assert Do(s, Finish(w)).running.Keys == s.running.Keys - {w};
  }

  lemma ProgressStep(s: State, step: Step, script: map<Tid, seq<int>>, workers: set<Tid>)
    requires Threads(s, workers) && s.todo.Keys == script.Keys && Can(s, step) && IsProgramStep(step)
    ensures Progress(s, Do(s, step), |script.Keys|, |workers|)
  {
    match step
    case Enqueue(p, wake) =>
      if EnqueueSection(s.monitor, Offer(s, p)).1.WaitNotFull? {
        ProgressWait(s, p, wake, |script.Keys|, |workers|);
      } else {
        SubsetSize(wake, workers);
        ProgressSubmission(s, p, wake, |script.Keys|, |workers|);
      }
    case Dequeue(w, wake) =>
      if s.monitor.queue != [] {
        SubsetSize(wake, script.Keys);
        ProgressHandOut(s, w, wake, |script.Keys|, |workers|);
      } else {
        ProgressNothingToTake(s, w, wake, |script.Keys|, |workers|);
      }
    case Finish(w) => ProgressFinish(s, w, script, workers);
  }

  // ----- Whole runs -----

  predicate IsProgramStep(step: Step) {
    step.Enqueue? || step.Dequeue? || step.Finish?
  }

  function ProgramSteps(steps: seq<Step>): nat {
    if steps == [] then 0 else (if IsProgramStep(steps[0]) then 1 else 0) + ProgramSteps(steps[1..])
  }

  /** How many threads the spurious wake-ups and shutdowns of a schedule can wake. */
  function Disturbance(steps: seq<Step>, threads: nat): nat {
    if steps == [] then 0
    else (if IsProgramStep(steps[0]) then 0 else if steps[0].Shutdown? then threads else 1)
         + Disturbance(steps[1..], threads)
  }

  lemma AheadDisturbed(s: State, step: Step, script: map<Tid, seq<int>>, workers: set<Tid>)
    requires Threads(s, workers) && s.todo.Keys == script.Keys && Can(s, step) && !IsProgramStep(step)
    ensures var P, W := |script.Keys|, |workers|;
            Ahead(Do(s, step), P, W) <= Ahead(s, P, W) + if step.Shutdown? then P + W else 1
  {
    SubsetSize(s.sleeping, workers);
    SubsetSize(s.sleepingProducers, script.Keys);
    if step.Shutdown? {
      assert |s.woken + s.sleeping| == |s.woken| + |s.sleeping|;
    }
  }

  lemma {:induction false} AheadRun(s: State, steps: seq<Step>, script: map<Tid, seq<int>>, workers: set<Tid>)
    requires Inv(s, script, workers) && Valid(s, steps)
    ensures var P, W := |script.Keys|, |workers|;
            ProgramSteps(steps) + Ahead(Exec(s, steps), P, W) <= Ahead(s, P, W) + Disturbance(steps, P + W)
    decreases |steps|
  {
    if steps != [] {
      if IsProgramStep(steps[0]) {
        ProgressStep(s, steps[0], script, workers);
        AheadFalls(s, Do(s, steps[0]), |script.Keys|, |workers|);
      } else {
        AheadDisturbed(s, steps[0], script, workers);
      }
      InvStep(s, steps[0], script, workers);
      AheadRun(Do(s, steps[0]), steps[1..], script, workers);
    }
  }

  lemma AheadNeverNegative(script: map<Tid, seq<int>>, workers: set<Tid>, steps: seq<Step>)
    requires Valid(Start(script, workers), steps)
    ensures Ahead(Exec(Start(script, workers), steps), |script.Keys|, |workers|) >= 0
  {
    RunFromStart(script, workers, steps);
    SubsetSize(Exec(Start(script, workers), steps).sleepingProducers, script.Keys);
  }

  function MostSteps(P: nat, W: nat, total: nat): nat {
    (P + W + 3) * total + P + W
  }

  lemma WeighAtStart(P: nat, W: nat, total: nat)
    ensures Weigh(P, W, total, 0, P + W) == MostSteps(P, W, total)
  {
    TimesIsProduct(total, P + W + 3);
  }

  lemma BoundedByAhead(script: map<Tid, seq<int>>, workers: set<Tid>, steps: seq<Step>)
    requires Valid(Start(script, workers), steps)
    ensures var P, W := |script.Keys|, |workers|;
            ProgramSteps(steps) <= Ahead(Start(script, workers), P, W) + Disturbance(steps, P + W)
  {
    RunFromStart(script, workers, []);
    AheadRun(Start(script, workers), steps, script, workers);
    AheadNeverNegative(script, workers, steps);
  }

  lemma AheadFresh(s: State, P: nat, W: nat)
    requires |s.monitor.queue| == 0 && Restless(s, P) == P + W
    ensures Ahead(s, P, W) == Weigh(P, W, Total(s.todo), 0, P + W)
  {
  }

  lemma RestlessAtStart(script: map<Tid, seq<int>>, workers: set<Tid>, P: nat)
    ensures Restless(Start(script, workers), P) == P + |workers|
  {
  }

  lemma AheadAtStart(script: map<Tid, seq<int>>, workers: set<Tid>, P: nat)
    ensures Ahead(Start(script, workers), P, |workers|) == MostSteps(P, |workers|, Total(script))
  {
    RestlessAtStart(script, workers, P);
    AheadFresh(Start(script, workers), P, |workers|);
    WeighAtStart(P, |workers|, Total(script));
  }

  /**
   Every run is bounded: producers and workers make at most P + W + 3 steps for each submission in the
   scripts, one for each of them besides, and one for each wake-up that no submission or hand-out caused.
   */
  lemma RunsAreBounded(script: map<Tid, seq<int>>, workers: set<Tid>, steps: seq<Step>)
    requires Valid(Start(script, workers), steps)
    ensures var P, W := |script.Keys|, |workers|;
            ProgramSteps(steps) <= MostSteps(P, W, Total(script)) + Disturbance(steps, P + W)
  {
    BoundedByAhead(script, workers, steps);
    AheadAtStart(script, workers, |script.Keys|);
  }

  /**
   Where the program cannot go on, every submission has been dealt with, every accepted task has been
   executed, and without a shutdown every submission was accepted, in its producer's order.
   */
  lemma StoppedMeansAllExecuted(script: map<Tid, seq<int>>, workers: set<Tid>, steps: seq<Step>)
    requires Valid(Start(script, workers), steps) && workers != {}
    requires Stuck(Exec(Start(script, workers), steps))
    ensures var s := Exec(Start(script, workers), steps);
            && s.handedOut == s.accepted
            && (forall i: nat :: i in s.finished <==> i < |s.accepted|)
            && (forall p :: p in script ==> From(s.accepted, p) + From(s.refused, p) == script[p])
            && (!s.monitor.shutdown ==> forall p :: p in script ==> From(s.accepted, p) == script[p])
  {
    RunFromStart(script, workers, steps);
    StuckIffQuiescent(script, workers, steps);
    var s := Exec(Start(script, workers), steps);
    assert forall w :: w in s.running.Keys ==> w in workers && w !in s.exited && w !in s.sleeping;
    forall i: nat | i < |s.accepted| ensures i in s.finished {
      assert i < |s.handedOut|;
    }
    forall p | p in script ensures From(s.accepted, p) + From(s.refused, p) == script[p]
      ensures !s.monitor.shutdown ==> From(s.accepted, p) == script[p]
    {
      assert From(s.accepted, p) + From(s.refused, p) + s.todo[p] == script[p];
      assert s.todo[p] == [];
    }
  }
}
