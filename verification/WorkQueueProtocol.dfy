/**
 Any number of producers and workers sharing the work queue. A step is one critical section
 (lock to unlock or to the wait), the execution of a task, or a wake-up the condition variable
 makes on its own. pthread_cond_wait releases the mutex and sleeps in one step;
 pthread_cond_signal wakes at least one sleeper, if there is one, of the implementation's choice.
 */
module WorkQueueProtocol {
  import opened WorkQueues
  import opened Projections

  type Tid = nat

  datatype State = State(
    monitor: Monitor<Item>,
    todo: map<Tid, seq<int>>,       // what each producer has still to submit
    sleepingProducers: set<Tid>,    // asleep on not_full
    wokenProducers: set<Tid>,       // woken, not yet holding the mutex again
    ready: set<Tid>,                // workers about to call dequeue_task
    sleeping: set<Tid>,             // workers asleep on not_empty
    woken: set<Tid>,                // workers woken, not yet holding the mutex again
    running: map<Tid, nat>,         // workers executing a task, by its position in handedOut
    exited: set<Tid>,               // workers that got NULL and left their loop
    accepted: seq<Item>,            // history: submissions that enqueue_task accepted
    refused: seq<Item>,             // history: submissions it refused
    handedOut: seq<Item>,           // history: what dequeue_task returned
    finished: set<nat>)             // history: positions of handedOut whose execution is over

  datatype Step =
    | Enqueue(p: Tid, wake: set<Tid>)
    | Dequeue(w: Tid, wake: set<Tid>)
    | Finish(w: Tid)
    | Shutdown
    | WakeProducer(p: Tid)          // spurious
    | WakeWorker(w: Tid)            // spurious

  function Start(script: map<Tid, seq<int>>, workers: set<Tid>): State {
    State(Monitor([], false), script, {}, {}, workers, {}, {}, map[], {}, [], [], [], {})
  }

  predicate Signals(wake: set<Tid>, waiters: set<Tid>) {
    wake <= waiters && (waiters != {} ==> wake != {})
  }

  function Offer(s: State, p: Tid): Item
    requires p in s.todo && s.todo[p] != []
  {
    Item(p, s.todo[p][0])
  }

  predicate Can(s: State, step: Step) {
    match step
    case Enqueue(p, wake) =>
      && p in s.todo && s.todo[p] != [] && p !in s.sleepingProducers
      && (if EnqueueSection(s.monitor, Offer(s, p)).1.Added? then Signals(wake, s.sleeping) else wake == {})
    case Dequeue(w, wake) =>
      && w in s.ready + s.woken
      && (if DequeueSection(s.monitor).1.Got? then Signals(wake, s.sleepingProducers) else wake == {})
    case Finish(w) => w in s.running
    case Shutdown => true
    case WakeProducer(p) => p in s.sleepingProducers
    case WakeWorker(w) => w in s.sleeping
  }

  function Do(s: State, step: Step): State
    requires Can(s, step)
  {
    match step
    case Enqueue(p, wake) => DoEnqueue(s, p, wake)
    case Dequeue(w, wake) => DoDequeue(s, w, wake)
    case Finish(w) =>
      s.(running := s.running - {w}, ready := s.ready + {w}, finished := s.finished + {s.running[w]})
    case Shutdown =>
      s.(monitor := s.monitor.(shutdown := true),
         sleeping := {}, woken := s.woken + s.sleeping,
         sleepingProducers := {}, wokenProducers := s.wokenProducers + s.sleepingProducers)
    case WakeProducer(p) =>
      s.(sleepingProducers := s.sleepingProducers - {p}, wokenProducers := s.wokenProducers + {p})
    case WakeWorker(w) =>
      s.(sleeping := s.sleeping - {w}, woken := s.woken + {w})
  }

  function DoEnqueue(s: State, p: Tid, wake: set<Tid>): State
    requires Can(s, Enqueue(p, wake))
  {
    var item := Offer(s, p);
    var (m, outcome) := EnqueueSection(s.monitor, item);
    var rest := s.todo[p := s.todo[p][1..]];
    match outcome
    case WaitNotFull =>
      s.(sleepingProducers := s.sleepingProducers + {p}, wokenProducers := s.wokenProducers - {p})
    case Refused =>
      s.(todo := rest, wokenProducers := s.wokenProducers - {p}, refused := s.refused + [item])
    case Added =>
      s.(monitor := m, todo := rest, wokenProducers := s.wokenProducers - {p},
         accepted := s.accepted + [item], sleeping := s.sleeping - wake, woken := s.woken + wake)
  }

  function DoDequeue(s: State, w: Tid, wake: set<Tid>): State
    requires Can(s, Dequeue(w, wake))
  {
    var (m, outcome) := DequeueSection(s.monitor);
    var left := s.(ready := s.ready - {w}, woken := s.woken - {w});
    match outcome
    case WaitNotEmpty => left.(sleeping := s.sleeping + {w})
    case Drained => left.(exited := s.exited + {w})
    case Got(item) =>
      left.(monitor := m, running := s.running[w := |s.handedOut|], handedOut := s.handedOut + [item],
            sleepingProducers := s.sleepingProducers - wake, wokenProducers := s.wokenProducers + wake)
  }

  predicate Valid(s: State, steps: seq<Step>)
    decreases |steps|
  {
    steps == [] || (Can(s, steps[0]) && Valid(Do(s, steps[0]), steps[1..]))
  }

  /** The state after a schedule: every run of the program is Exec of some valid schedule. */
  function Exec(s: State, steps: seq<Step>): State
    requires Valid(s, steps)
    decreases |steps|
  {
    if steps == [] then s else Exec(Do(s, steps[0]), steps[1..])
  }

  // ----- Invariants -----

  predicate Threads(s: State, workers: set<Tid>) {
    && s.ready !! s.sleeping !! s.woken !! s.running.Keys !! s.exited
    && s.ready + s.sleeping + s.woken + s.running.Keys + s.exited == workers
    && s.sleepingProducers !! s.wokenProducers
    && (forall p :: p in s.sleepingProducers + s.wokenProducers ==> p in s.todo && s.todo[p] != [])
  }

  /** Sleepers are covered: no more items (or free places) than woken threads to deal with them. */
  predicate Covered(sleepers: set<Tid>, woken: set<Tid>, amount: int, shutdown: bool) {
    sleepers != {} ==> !shutdown && amount <= |woken|
  }

  predicate Wakeups(s: State) {
    && |s.monitor.queue| <= MAX_QUEUE_SIZE
    && Covered(s.sleeping, s.woken, |s.monitor.queue|, s.monitor.shutdown)
    && Covered(s.sleepingProducers, s.wokenProducers, MAX_QUEUE_SIZE - |s.monitor.queue|, s.monitor.shutdown)
  }

  /** Each producer's script is what was accepted of it, what was refused, and what is left, in order. */
  predicate Scripts(s: State, script: map<Tid, seq<int>>) {
    s.todo.Keys == script.Keys && forall p :: p in script ==> Splits(s, p, script[p])
  }

  predicate Splits(s: State, p: Tid, submissions: seq<int>) {
    p in s.todo && From(s.accepted, p) + From(s.refused, p) + s.todo[p] == submissions
  }

  predicate Flow(s: State, script: map<Tid, seq<int>>) {
    && s.handedOut + s.monitor.queue == s.accepted
    && (forall i :: 0 <= i < |s.accepted| ==> s.accepted[i].sender in script)
    && (s.refused != [] ==> s.monitor.shutdown)
    && (s.exited != {} ==> s.monitor.shutdown && s.monitor.queue == [])
  }

  predicate History(s: State, script: map<Tid, seq<int>>) {
    Scripts(s, script) && Flow(s, script)
  }

  /** Every position below n is finished, or being executed by exactly one worker. */
  predicate Positions(running: map<Tid, nat>, finished: set<nat>, n: nat) {
    && (forall i :: i in finished ==> i < n)
    && (forall w :: w in running ==> running[w] < n && running[w] !in finished)
    && (forall v, w :: v in running && w in running && running[v] == running[w] ==> v == w)
    && (forall i: nat :: i < n ==> i in finished || exists w :: w in running && running[w] == i)
  }

  predicate Executions(s: State) {
    Positions(s.running, s.finished, |s.handedOut|)
  }

  predicate Inv(s: State, script: map<Tid, seq<int>>, workers: set<Tid>) {
    Threads(s, workers) && Wakeups(s) && History(s, script) && Executions(s)
  }

  lemma ThreadsStep(s: State, step: Step, workers: set<Tid>)
    requires Threads(s, workers) && Can(s, step)
    ensures Threads(Do(s, step), workers)
  {
  }

  lemma WakeupsEnqueue(s: State, p: Tid, wake: set<Tid>)
    requires s.sleeping !! s.woken && Wakeups(s) && Can(s, Enqueue(p, wake))
    ensures Wakeups(DoEnqueue(s, p, wake))
  {
  }

  lemma WakeupsDequeue(s: State, w: Tid, wake: set<Tid>)
    requires s.sleepingProducers !! s.wokenProducers && Wakeups(s) && Can(s, Dequeue(w, wake))
    ensures Wakeups(DoDequeue(s, w, wake))
  {
  }

  lemma WakeupsStep(s: State, step: Step, workers: set<Tid>)
    requires Threads(s, workers) && Wakeups(s) && Can(s, step)
    ensures Wakeups(Do(s, step))
  {
    match step
    case Enqueue(p, wake) => WakeupsEnqueue(s, p, wake);
    case Dequeue(w, wake) => WakeupsDequeue(s, w, wake);
    case WakeProducer(p) => assert |s.wokenProducers + {p}| == |s.wokenProducers| + 1;
    case WakeWorker(w) => assert |s.woken + {w}| == |s.woken| + 1;
    case _ =>
  }

  lemma Shift(a: seq<int>, r: seq<int>, t: seq<int>)
    requires t != []
    ensures a + (r + [t[0]]) + t[1..] == a + r + t
    ensures r == [] ==> (a + [t[0]]) + r + t[1..] == a + r + t
  {
  }

  lemma SplitsEnqueue(s: State, p: Tid, wake: set<Tid>, q: Tid, submissions: seq<int>)
    requires Splits(s, q, submissions) && (s.refused != [] ==> s.monitor.shutdown) && Can(s, Enqueue(p, wake))
    ensures Splits(DoEnqueue(s, p, wake), q, submissions)
  {
    var item := Offer(s, p);
    var a, r := From(s.accepted, q), From(s.refused, q);
    match EnqueueSection(s.monitor, item).1
    case WaitNotFull =>
    case Refused =>
      FromSnoc(s.refused, item, q);
      if q == p {
        Shift(a, r, s.todo[p]);
      } else {
        assert r + [] == r;
      }
    case Added =>
      FromSnoc(s.accepted, item, q);
      assert r == [];
      if q == p {
        Shift(a, r, s.todo[p]);
      } else {
        assert a + [] == a;
      }
  }

  lemma TodoKeys(s: State, p: Tid, wake: set<Tid>)
    requires Can(s, Enqueue(p, wake))
    ensures DoEnqueue(s, p, wake).todo.Keys == s.todo.Keys
  {
  }

  lemma SplitsEach(s: State, s': State, p: Tid, wake: set<Tid>, script: map<Tid, seq<int>>)
    requires forall q :: q in script ==> Splits(s, q, script[q])
    requires (s.refused != [] ==> s.monitor.shutdown) && Can(s, Enqueue(p, wake)) && s' == DoEnqueue(s, p, wake)
    ensures forall q :: q in script ==> Splits(s', q, script[q])
  {
    forall q | q in script ensures Splits(s', q, script[q]) {
      SplitsEnqueue(s, p, wake, q, script[q]);
    }
  }

  lemma ScriptsEnqueue(s: State, p: Tid, wake: set<Tid>, script: map<Tid, seq<int>>)
    requires Scripts(s, script) && (s.refused != [] ==> s.monitor.shutdown) && Can(s, Enqueue(p, wake))
    ensures Scripts(DoEnqueue(s, p, wake), script)
  {
    TodoKeys(s, p, wake);
    SplitsEach(s, DoEnqueue(s, p, wake), p, wake, script);
  }

  lemma FlowEnqueue(s: State, p: Tid, wake: set<Tid>, script: map<Tid, seq<int>>)
    requires Flow(s, script) && s.todo.Keys == script.Keys && Can(s, Enqueue(p, wake))
    ensures Flow(DoEnqueue(s, p, wake), script)
  {
  }

  lemma HistoryEnqueue(s: State, p: Tid, wake: set<Tid>, script: map<Tid, seq<int>>)
    requires History(s, script) && Can(s, Enqueue(p, wake))
    ensures History(DoEnqueue(s, p, wake), script)
  {
    ScriptsEnqueue(s, p, wake, script);
    FlowEnqueue(s, p, wake, script);
  }

  lemma HistoryStep(s: State, step: Step, script: map<Tid, seq<int>>)
    requires History(s, script) && Can(s, step)
    ensures History(Do(s, step), script)
  {
    if step.Enqueue? {
      HistoryEnqueue(s, step.p, step.wake, script);
    } else {
      var s' := Do(s, step);
      assert s'.handedOut + s'.monitor.queue == s.handedOut + s.monitor.queue;
    }
  }

  lemma PositionsHandOut(running: map<Tid, nat>, finished: set<nat>, n: nat, w: Tid)
    requires Positions(running, finished, n) && w !in running
    ensures Positions(running[w := n], finished, n + 1)
  {
    var running' := running[w := n];
    forall i: nat | i < n + 1 && i !in finished
      ensures exists v :: v in running' && running'[v] == i
    {
      var v :| if i == n then v == w else v in running && running[v] == i;
      assert running'[v] == i;
    }
  }

  lemma PositionsFinish(running: map<Tid, nat>, finished: set<nat>, n: nat, w: Tid)
    requires Positions(running, finished, n) && w in running
    ensures Positions(running - {w}, finished + {running[w]}, n)
  {
    forall i: nat | i < n && i !in finished + {running[w]}
      ensures exists v :: v in running - {w} && (running - {w})[v] == i
    {
      var v :| v in running && running[v] == i;
      assert (running - {w})[v] == i;
    }
  }

  lemma ExecutionsStep(s: State, step: Step, workers: set<Tid>)
    requires Threads(s, workers) && Executions(s) && Can(s, step)
    ensures Executions(Do(s, step))
  {
    match step
    case Dequeue(w, wake) => PositionsHandOut(s.running, s.finished, |s.handedOut|, w);
    case Finish(w) => PositionsFinish(s.running, s.finished, |s.handedOut|, w);
    case _ =>
  }

  lemma InvStep(s: State, step: Step, script: map<Tid, seq<int>>, workers: set<Tid>)
    requires Inv(s, script, workers) && Can(s, step)
    ensures Inv(Do(s, step), script, workers)
  {
    ThreadsStep(s, step, workers);
    WakeupsStep(s, step, workers);
    HistoryStep(s, step, script);
    ExecutionsStep(s, step, workers);
  }

  lemma {:induction false} RunKeepsInv(s: State, steps: seq<Step>, script: map<Tid, seq<int>>, workers: set<Tid>)
    requires Inv(s, script, workers) && Valid(s, steps)
    ensures Inv(Exec(s, steps), script, workers)
    decreases |steps|
  {
    if steps != [] {
      InvStep(s, steps[0], script, workers);
      RunKeepsInv(Do(s, steps[0]), steps[1..], script, workers);
    }
  }

  lemma RunFromStart(script: map<Tid, seq<int>>, workers: set<Tid>, steps: seq<Step>)
    requires Valid(Start(script, workers), steps)
    ensures Inv(Exec(Start(script, workers), steps), script, workers)
  {
    var s := Start(script, workers);
    assert forall p :: p in script ==> From([], p) + From([], p) + script[p] == script[p];
    RunKeepsInv(s, steps, script, workers);
  }

  // ----- Theorems over every run -----

  /**
   No wake-up is ever lost: no run leaves workers asleep while items outnumber woken workers, or
   producers asleep while free places outnumber woken producers; a full house of sleepers on
   both sides is impossible; and nobody sleeps after shutdown.
   */
  lemma NoLostWakeup(script: map<Tid, seq<int>>, workers: set<Tid>, steps: seq<Step>)
    requires Valid(Start(script, workers), steps)
    ensures var s := Exec(Start(script, workers), steps);
            && (s.sleeping != {} ==> |s.monitor.queue| <= |s.woken|)
            && (s.sleepingProducers != {} ==> MAX_QUEUE_SIZE <= |s.wokenProducers| + |s.monitor.queue|)
            && (s.sleeping != {} && s.sleepingProducers != {} ==> s.woken != {} || s.wokenProducers != {})
            && (s.monitor.shutdown ==> s.sleeping == {} && s.sleepingProducers == {})
  {
    RunFromStart(script, workers, steps);
  }

  /**
   Conservation and order: what was handed out followed by what is queued is what was accepted;
   each producer's submissions were accepted in its own order, up to the first refusal; nothing is
   refused before shutdown, and a worker got NULL only from an empty queue after it.
   */
  lemma FifoConservation(script: map<Tid, seq<int>>, workers: set<Tid>, steps: seq<Step>)
    requires Valid(Start(script, workers), steps)
    ensures var s := Exec(Start(script, workers), steps);
            && s.handedOut + s.monitor.queue == s.accepted
            && |s.monitor.queue| <= MAX_QUEUE_SIZE
            && s.todo.Keys == script.Keys
            && (forall p :: p in script ==> From(s.accepted, p) + From(s.refused, p) + s.todo[p] == script[p])
            && (forall i :: 0 <= i < |s.accepted| ==> s.accepted[i].sender in script)
            && (s.refused != [] ==> s.monitor.shutdown)
            && (s.exited != {} ==> s.monitor.shutdown && s.monitor.queue == [])
  {
    RunFromStart(script, workers, steps);
  }

  /** No task is executed twice: a task being executed has not finished, and nobody else has it. */
  lemma ExecutedAtMostOnce(script: map<Tid, seq<int>>, workers: set<Tid>, steps: seq<Step>, v: Tid, w: Tid)
    requires Valid(Start(script, workers), steps)
    requires v in Exec(Start(script, workers), steps).running && w in Exec(Start(script, workers), steps).running
    ensures var s := Exec(Start(script, workers), steps);
            && s.running[w] !in s.finished && s.running[w] < |s.handedOut|
            && (v != w ==> s.running[v] != s.running[w])
  {
    RunFromStart(script, workers, steps);
  }

  /** A signal may wake any one sleeper, or any more of them. */
  lemma EnqueueMayWake(s: State, p: Tid, wake: set<Tid>)
    requires p in s.todo && s.todo[p] != [] && p !in s.sleepingProducers
    requires |s.monitor.queue| < MAX_QUEUE_SIZE && !s.monitor.shutdown && wake <= s.sleeping && wake != {}
    ensures Can(s, Enqueue(p, wake))
    ensures var s' := DoEnqueue(s, p, wake); s'.woken == s.woken + wake && s'.sleeping == s.sleeping - wake
  {
  }

  lemma DequeueMayWake(s: State, w: Tid, wake: set<Tid>)
    requires w in s.ready + s.woken && s.monitor.queue != [] && wake <= s.sleepingProducers && wake != {}
    ensures Can(s, Dequeue(w, wake))
    ensures var s' := DoDequeue(s, w, wake);
            s'.wokenProducers == s.wokenProducers + wake && s'.sleepingProducers == s.sleepingProducers - wake
  {
  }

  /** A sleeper may wake without a signal. */
  lemma SleeperMayWake(s: State, t: Tid)
    ensures t in s.sleeping ==> Can(s, WakeWorker(t)) && t in Do(s, WakeWorker(t)).woken && t !in Do(s, WakeWorker(t)).sleeping
    ensures t in s.sleepingProducers ==>
              Can(s, WakeProducer(t)) && t in Do(s, WakeProducer(t)).wokenProducers && t !in Do(s, WakeProducer(t)).sleepingProducers
  {
  }

  /** No thread of the program can move; only a shutdown or a spurious wake-up could come. */
  ghost predicate Stuck(s: State) {
    forall step :: Can(s, step) ==> step.Shutdown? || step.WakeProducer? || step.WakeWorker?
  }

  predicate Quiescent(s: State, workers: set<Tid>) {
    && (forall p :: p in s.todo ==> s.todo[p] == [])
    && if s.monitor.shutdown then s.exited == workers else s.sleeping == workers && s.monitor.queue == []
  }

  /** A producer with work left can move unless it sleeps; a worker unless it sleeps or has exited. */
  lemma AwakeCanMove(s: State, t: Tid)
    ensures t in s.todo && s.todo[t] != [] && t !in s.sleepingProducers ==> !Stuck(s)
    ensures t in s.ready + s.woken || t in s.running ==> !Stuck(s)
  {
    if t in s.todo && s.todo[t] != [] && t !in s.sleepingProducers {
      var wake := if EnqueueSection(s.monitor, Offer(s, t)).1.Added? then s.sleeping else {};
      assert Can(s, Enqueue(t, wake));
    }
    if t in s.ready + s.woken {
      var wake := if DequeueSection(s.monitor).1.Got? then s.sleepingProducers else {};
      assert Can(s, Dequeue(t, wake));
    }
    if t in s.running {
      assert Can(s, Finish(t));
    }
  }

  /**
   With at least one worker the program stops exactly when it should: every producer is through
   its script, and the workers are asleep at an empty queue or, after shutdown, have all exited.
   */
  lemma StuckIffQuiescent(script: map<Tid, seq<int>>, workers: set<Tid>, steps: seq<Step>)
    requires Valid(Start(script, workers), steps) && workers != {}
    ensures var s := Exec(Start(script, workers), steps);
            Stuck(s) <==> Quiescent(s, workers)
  {
    RunFromStart(script, workers, steps);
    var s := Exec(Start(script, workers), steps);
    if Stuck(s) {
      forall t: Tid
        ensures t !in s.ready + s.woken + s.running.Keys
        ensures t in s.todo && s.todo[t] != [] ==> t in s.sleepingProducers
      {
        AwakeCanMove(s, t);
      }
      assert s.woken == {} && s.wokenProducers == {};
      assert s.sleeping + s.exited == workers;
    }
  }

  // ----- Shutdown -----

  predicate IsWorkerStep(step: Step) {
    step.Dequeue? || step.Finish?
  }

  function WorkerSteps(steps: seq<Step>): nat {
    if steps == [] then 0 else (if IsWorkerStep(steps[0]) then 1 else 0) + WorkerSteps(steps[1..])
  }

  /** A bound on what the workers still have to do once shutdown is set. */
  function Remaining(s: State): nat {
    2 * |s.monitor.queue| + |s.ready| + |s.woken| + 2 * |s.running.Keys|
  }

  lemma LeaveReady(ready: set<Tid>, woken: set<Tid>, w: Tid)
    requires w in ready + woken && ready !! woken
    ensures |ready - {w}| + |woken - {w}| + 1 == |ready| + |woken|
  {
  }

  lemma KeysTaken(running: map<Tid, nat>, w: Tid, i: nat)
    requires w !in running
    ensures running[w := i].Keys == running.Keys + {w} && |running[w := i].Keys| == |running.Keys| + 1
  {
    assert running[w := i].Keys == running.Keys + {w};
  }

  lemma RemainingDequeue(s: State, w: Tid, wake: set<Tid>)
    requires s.ready !! s.woken && w !in s.running && Can(s, Dequeue(w, wake)) && s.monitor.shutdown
    ensures Remaining(DoDequeue(s, w, wake)) < Remaining(s)
  {
    LeaveReady(s.ready, s.woken, w);
    KeysTaken(s.running, w, |s.handedOut|);
  }

  lemma RemainingFinish(s: State, w: Tid)
    requires s.ready !! s.running.Keys && Can(s, Finish(w))
    ensures Remaining(Do(s, Finish(w))) < Remaining(s)
  {
  }

  lemma RemainingStep(s: State, step: Step)
    requires s.ready !! s.woken && s.running.Keys !! s.ready && s.running.Keys !! s.woken
    requires s.monitor.shutdown && s.sleeping == {} && s.sleepingProducers == {} && Can(s, step)
    ensures Remaining(Do(s, step)) + (if IsWorkerStep(step) then 1 else 0) <= Remaining(s)
  {
    if step.Dequeue? {
      RemainingDequeue(s, step.w, step.wake);
    } else if step.Finish? {
      RemainingFinish(s, step.w);
    } else {
      var s' := Do(s, step);
      assert s'.woken == s.woken && s'.ready == s.ready && s'.running == s.running;
      assert s'.monitor.queue == s.monitor.queue;
    }
  }

  /** The flag is set exactly by a call of shutdown_work_queue. */
  lemma {:induction false} ShutdownIff(s: State, steps: seq<Step>)
    requires Valid(s, steps)
    ensures Exec(s, steps).monitor.shutdown <==> s.monitor.shutdown || exists i :: 0 <= i < |steps| && steps[i].Shutdown?
    decreases |steps|
  {
    if steps != [] {
      ShutdownIff(Do(s, steps[0]), steps[1..]);
      assert forall i :: 0 <= i < |steps| - 1 ==> steps[1..][i] == steps[i + 1];
      assert forall i :: 1 <= i < |steps| ==> steps[i] == steps[1..][i - 1];
    }
  }

  /** And it wakes everybody: in every run, whoever slept before the call is woken after it, and the queue and
      all histories are as they were. */
  lemma ShutdownWakesAll(script: map<Tid, seq<int>>, workers: set<Tid>, steps: seq<Step>)
    requires Valid(Start(script, workers), steps)
    ensures var s := Exec(Start(script, workers), steps);
            var s' := Do(s, Shutdown);
            && s'.monitor.shutdown && s'.sleeping == {} && s'.sleepingProducers == {}
            && s.sleeping <= s'.woken && s.sleepingProducers <= s'.wokenProducers
            && s'.monitor.queue == s.monitor.queue && s'.todo == s.todo && s'.ready == s.ready && s'.running == s.running
            && s'.exited == s.exited && s'.accepted == s.accepted && s'.refused == s.refused
            && s'.handedOut == s.handedOut && s'.finished == s.finished
            && Inv(s', script, workers)
  {
    RunFromStart(script, workers, steps);
    InvStep(Exec(Start(script, workers), steps), Shutdown, script, workers);
  }

  lemma ShutdownStays(s: State, step: Step)
    requires s.monitor.shutdown && Can(s, step)
    ensures Do(s, step).monitor.shutdown && Do(s, step).accepted == s.accepted
  {
  }

  lemma {:induction false} RemainingRun(s: State, steps: seq<Step>, script: map<Tid, seq<int>>, workers: set<Tid>)
    requires Inv(s, script, workers) && s.monitor.shutdown && Valid(s, steps)
    ensures var s' := Exec(s, steps);
            && s'.monitor.shutdown && s'.accepted == s.accepted
            && WorkerSteps(steps) + Remaining(s') <= Remaining(s)
    decreases |steps|
  {
    if steps != [] {
      RemainingStep(s, steps[0]);
      ShutdownStays(s, steps[0]);
      InvStep(s, steps[0], script, workers);
      RemainingRun(Do(s, steps[0]), steps[1..], script, workers);
    }
  }

  /**
   Shutdown terminates: from the moment it is set nothing more is accepted and, whatever the
   producers do meanwhile, the workers make at most Remaining further steps.
   */
  lemma ShutdownTerminates(script: map<Tid, seq<int>>, workers: set<Tid>, before: seq<Step>, after: seq<Step>)
    requires Valid(Start(script, workers), before)
    requires Exec(Start(script, workers), before).monitor.shutdown
    requires Valid(Exec(Start(script, workers), before), after)
    ensures var s := Exec(Start(script, workers), before);
            var s' := Exec(s, after);
            && s'.monitor.shutdown && s'.accepted == s.accepted
            && WorkerSteps(after) + Remaining(s') <= Remaining(s)
  {
    RunFromStart(script, workers, before);
    RemainingRun(Exec(Start(script, workers), before), after, script, workers);
  }

  /** After shutdown a worker that has not exited can always move: it never blocks again. */
  lemma ShutdownNeverBlocks(script: map<Tid, seq<int>>, workers: set<Tid>, steps: seq<Step>, w: Tid)
    requires Valid(Start(script, workers), steps) && w in workers
    ensures var s := Exec(Start(script, workers), steps);
            s.monitor.shutdown && w !in s.exited ==> exists step :: IsWorkerStep(step) && step.w == w && Can(s, step)
  {
    RunFromStart(script, workers, steps);
    var s := Exec(Start(script, workers), steps);
    if w in s.running {
      assert Can(s, Finish(w));
    } else if s.monitor.shutdown && w !in s.exited {
      assert Can(s, Dequeue(w, {}));
    }
  }

  /**
   When every worker has been joined, every accepted task has been handed out and executed, and
   destroy_work_queue finds an empty queue.
   */
  lemma JoinMeansAllExecuted(script: map<Tid, seq<int>>, workers: set<Tid>, steps: seq<Step>)
    requires Valid(Start(script, workers), steps) && workers != {}
    requires Exec(Start(script, workers), steps).exited == workers
    ensures var s := Exec(Start(script, workers), steps);
            && s.monitor == Monitor([], true)
            && s.handedOut == s.accepted
            && (forall i: nat :: i in s.finished <==> i < |s.accepted|)
  {
    RunFromStart(script, workers, steps);
    var s := Exec(Start(script, workers), steps);
    assert forall w :: w in s.running.Keys ==> w in workers && w !in s.exited;
    assert forall i: nat :: i < |s.accepted| ==> i in s.finished;
  }
}
