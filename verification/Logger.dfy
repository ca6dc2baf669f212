/**
 The message-queue logger of lesson 5: any number of workers send their entries, in order, into a
 bounded first-in first-out queue; one I/O thread appends what it receives to the log until it
 receives EXIT; main joins the workers one after the other, sends EXIT, and joins the I/O thread.
 Sending blocks on a full queue and receiving on an empty one, and the queue is empty at the
 start. If the I/O thread cannot open its files it returns at once (alive == false).
 */
module Logger {
  import opened Sums
  import opened Projections

  datatype Message = Entry(item: Item) | EXIT

  datatype MainPhase = Joining(k: nat) | SendingExit | JoiningLogger | Returned

  datatype IoPhase = Receiving | Closing | Unlinked | NotStarted

  datatype State = State(
    queue: seq<Message>,
    sent: seq<nat>,         // how many entries each worker has sent
    closed: seq<bool>,      // which workers have closed the queue and returned
    main: MainPhase,
    io: IoPhase,
    log: seq<Item>)

  datatype Step = Send(w: nat) | Close(w: nat) | Main | Io

  /** The entries of each worker, and the capacity of the queue. */
  datatype Setup = Setup(scripts: seq<seq<int>>, capacity: nat)

  function Start(g: Setup, alive: bool): State {
    State([], seq(|g.scripts|, _ => 0), seq(|g.scripts|, _ => false), Joining(0),
          if alive then Receiving else NotStarted, [])
  }

  predicate Shape(g: Setup, s: State) {
    |s.sent| == |s.closed| == |g.scripts|
  }

  predicate Can(g: Setup, s: State, step: Step) {
    && Shape(g, s)
    && match step
       case Send(w) => w < |g.scripts| && s.sent[w] < |g.scripts[w]| && |s.queue| < g.capacity
       case Close(w) => w < |g.scripts| && s.sent[w] >= |g.scripts[w]| && !s.closed[w]
       case Main =>
         (match s.main
          case Joining(k) => k >= |g.scripts| || s.closed[k]
          case SendingExit => |s.queue| < g.capacity
          case JoiningLogger => s.io.Unlinked? || s.io.NotStarted?
          case Returned => false)
       case Io => (s.io.Receiving? && s.queue != []) || s.io.Closing?
  }

  function Do(g: Setup, s: State, step: Step): State
    requires Can(g, s, step)
  {
    match step
    case Send(w) =>
      s.(queue := s.queue + [Entry(Item(w, g.scripts[w][s.sent[w]]))], sent := s.sent[w := s.sent[w] + 1])
    case Close(w) => s.(closed := s.closed[w := true])
    case Main =>
      (match s.main
       case Joining(k) => s.(main := if k >= |g.scripts| then SendingExit else Joining(k + 1))
       case SendingExit => s.(queue := s.queue + [EXIT], main := JoiningLogger)
       case JoiningLogger => s.(main := Returned))
    case Io =>
      if s.io.Closing? then s.(io := Unlinked)
      else match s.queue[0]
        case Entry(item) => s.(queue := s.queue[1..], log := s.log + [item])
        case EXIT => s.(queue := s.queue[1..], io := Closing)
  }

  predicate Valid(g: Setup, s: State, steps: seq<Step>)
    decreases |steps|
  {
    steps == [] || (Can(g, s, steps[0]) && Valid(g, Do(g, s, steps[0]), steps[1..]))
  }

  function Exec(g: Setup, s: State, steps: seq<Step>): State
    requires Valid(g, s, steps)
    decreases |steps|
  {
    if steps == [] then s else Exec(g, Do(g, s, steps[0]), steps[1..])
  }

  // ----- Invariants -----

  function Entries(q: seq<Message>): seq<Item> {
    if q == [] then []
    else (if q[0].Entry? then [q[0].item] else []) + Entries(q[1..])
  }

  lemma {:induction false} EntriesSnoc(q: seq<Message>, m: Message)
    ensures Entries(q + [m]) == Entries(q) + (if m.Entry? then [m.item] else [])
  {
    if q != [] {
      EntriesSnoc(q[1..], m);
      assert (q + [m])[1..] == q[1..] + [m];
    }
  }

  predicate NoExit(q: seq<Message>) {
    forall i :: 0 <= i < |q| ==> q[i].Entry?
  }

  predicate ExitSent(s: State) {
    s.main.JoiningLogger? || s.main.Returned?
  }

  /** EXIT is sent once, behind every entry, and nothing is left once it has been received. */
  predicate QueueOk(g: Setup, s: State) {
    && |s.queue| <= g.capacity
    && (if s.io.Closing? || s.io.Unlinked? then ExitSent(s) && s.queue == []
        else if ExitSent(s) then s.queue != [] && s.queue[|s.queue| - 1] == EXIT && NoExit(s.queue[..|s.queue| - 1])
        else NoExit(s.queue))
  }

  /** Workers close at the end of their script; main gets past a worker only once it has closed. */
  predicate JoinsOk(g: Setup, s: State)
    requires Shape(g, s)
  {
    && (forall w :: 0 <= w < |g.scripts| ==> s.sent[w] <= |g.scripts[w]| && (s.closed[w] ==> s.sent[w] == |g.scripts[w]|))
    && (s.main.Joining? ==> s.main.k <= |g.scripts|)
    && (forall w :: 0 <= w < |g.scripts| && (s.main.Joining? ==> w < s.main.k) ==> s.closed[w])
    && (s.main.Returned? ==> s.io.Unlinked? || s.io.NotStarted?)
    && (s.io.NotStarted? ==> s.log == [])
  }

  /** The entries logged and then queued. */
  function Flow(s: State): seq<Item> {
    s.log + Entries(s.queue)
  }

  /** What each worker has sent so far is in the flow, in order, and nothing else is. */
  predicate OrderOk(g: Setup, flow: seq<Item>, sent: seq<nat>) {
    && |sent| == |g.scripts|
    && (forall w :: 0 <= w < |sent| ==> sent[w] <= |g.scripts[w]| && From(flow, w) == g.scripts[w][..sent[w]])
    && |flow| == Sum(sent)
  }

  predicate Inv(g: Setup, s: State) {
    Shape(g, s) && QueueOk(g, s) && JoinsOk(g, s) && OrderOk(g, Flow(s), s.sent)
  }

  lemma FlowSend(g: Setup, s: State, w: nat)
    requires Can(g, s, Send(w))
    ensures Flow(Do(g, s, Send(w))) == Flow(s) + [Item(w, g.scripts[w][s.sent[w]])]
  {
    EntriesSnoc(s.queue, Entry(Item(w, g.scripts[w][s.sent[w]])));
  }

  lemma FlowOther(g: Setup, s: State, step: Step)
    requires Can(g, s, step) && !step.Send?
    ensures Flow(Do(g, s, step)) == Flow(s)
  {
    if step.Main? && s.main.SendingExit? {
      EntriesSnoc(s.queue, EXIT);
    }
  }

  lemma OrderSend(g: Setup, flow: seq<Item>, sent: seq<nat>, w: nat)
    requires OrderOk(g, flow, sent) && w < |sent| && sent[w] < |g.scripts[w]|
    ensures OrderOk(g, flow + [Item(w, g.scripts[w][sent[w]])], sent[w := sent[w] + 1])
  {
    var item, sent' := Item(w, g.scripts[w][sent[w]]), sent[w := sent[w] + 1];
    SumUpdate(sent, w, sent[w] + 1);
    forall v | 0 <= v < |sent| ensures From(flow + [item], v) == g.scripts[v][..sent'[v]] {
      FromSnoc(flow, item, v);
      assert g.scripts[w][..sent[w]] + [item.payload] == g.scripts[w][..sent[w] + 1];
    }
  }

  lemma ReceiveKeepsQueue(g: Setup, s: State)
    requires QueueOk(g, s) && Can(g, s, Io)
    ensures QueueOk(g, Do(g, s, Io))
  {
    if s.io.Receiving? && ExitSent(s) && |s.queue| > 1 {
      assert s.queue[0] == s.queue[..|s.queue| - 1][0];
      assert s.queue[1..][..|s.queue| - 2] == s.queue[..|s.queue| - 1][1..];
    }
  }

  lemma QueueKeeps(g: Setup, s: State, step: Step)
    requires Shape(g, s) && QueueOk(g, s) && JoinsOk(g, s) && Can(g, s, step)
    ensures QueueOk(g, Do(g, s, step))
  {
    if step.Io? {
      ReceiveKeepsQueue(g, s);
    } else if step.Main? && s.main.SendingExit? {
      assert (s.queue + [EXIT])[..|s.queue|] == s.queue;
    }
  }

  lemma StepKeeps(g: Setup, s: State, step: Step)
    requires Inv(g, s) && Can(g, s, step)
    ensures Inv(g, Do(g, s, step))
  {
    QueueKeeps(g, s, step);
    if step.Send? {
      FlowSend(g, s, step.w);
      OrderSend(g, Flow(s), s.sent, step.w);
    } else {
      FlowOther(g, s, step);
    }
  }

  // ----- Runs are finite -----

  function WorkerLeft(g: Setup, s: State): seq<nat>
    requires Shape(g, s) && JoinsOk(g, s)
  {
    seq(|g.scripts|, w requires 0 <= w < |g.scripts| =>
      2 * (|g.scripts[w]| - s.sent[w]) + if s.closed[w] then 0 else 1)
  }

  function Left(g: Setup, s: State): nat
    requires Shape(g, s) && JoinsOk(g, s)
  {
    Sum(WorkerLeft(g, s)) + |s.queue|
    + (match s.main
       case Joining(k) => |g.scripts| - k + 4
       case SendingExit => 3
       case JoiningLogger => 1
       case Returned => 0)
    + (match s.io case Receiving => 2 case Closing => 1 case _ => 0)
  }

  lemma WorkerLeftStep(g: Setup, s: State, step: Step)
    requires Shape(g, s) && JoinsOk(g, s) && Can(g, s, step) && JoinsOk(g, Do(g, s, step))
    ensures Sum(WorkerLeft(g, Do(g, s, step))) + (match step case Send(_) => 2 case Close(_) => 1 case _ => 0)
            == Sum(WorkerLeft(g, s))
  {
    var left, left' := WorkerLeft(g, s), WorkerLeft(g, Do(g, s, step));
    if step.Send? || step.Close? {
      SumUpdate(left, step.w, left'[step.w]);
      assert left' == left[step.w := left'[step.w]];
    } else {
      assert left' == left;
    }
  }

  lemma LeftStep(g: Setup, s: State, step: Step)
    requires Shape(g, s) && JoinsOk(g, s) && Can(g, s, step) && JoinsOk(g, Do(g, s, step))
    ensures Left(g, Do(g, s, step)) < Left(g, s)
  {
    WorkerLeftStep(g, s, step);
  }

  lemma {:induction false} RunKeeps(g: Setup, s: State, steps: seq<Step>)
    requires Inv(g, s) && Valid(g, s, steps)
    ensures Inv(g, Exec(g, s, steps)) && |steps| + Left(g, Exec(g, s, steps)) <= Left(g, s)
    decreases |steps|
  {
    if steps != [] {
      StepKeeps(g, s, steps[0]);
      LeftStep(g, s, steps[0]);
      RunKeeps(g, Do(g, s, steps[0]), steps[1..]);
    }
  }

  lemma StartOk(g: Setup, alive: bool)
    ensures Inv(g, Start(g, alive))
  {
    SumUniform(Start(g, alive).sent, 0);
  }

  // ----- Theorems over every run -----

  function Lengths(g: Setup): seq<nat> {
    seq(|g.scripts|, w requires 0 <= w < |g.scripts| => |g.scripts[w]|)
  }

  /**
   When the I/O thread has received EXIT the log is complete: it is an order-preserving
   interleaving of all the workers' entries, nothing lost, nothing doubled; and the queue is
   unlinked only after every worker has closed it.
   */
  lemma LogComplete(g: Setup, steps: seq<Step>)
    requires Valid(g, Start(g, true), steps)
    ensures var s := Exec(g, Start(g, true), steps);
            Shape(g, s) && (s.io.Closing? || s.io.Unlinked? ==>
              && (forall w :: 0 <= w < |g.scripts| ==> From(s.log, w) == g.scripts[w] && s.closed[w])
              && |s.log| == Sum(Lengths(g))
              && s.queue == [])
  {
    StartOk(g, true);
    RunKeeps(g, Start(g, true), steps);
    var s := Exec(g, Start(g, true), steps);
    if s.io.Closing? || s.io.Unlinked? {
      assert Flow(s) == s.log;
      assert forall w :: 0 <= w < |g.scripts| ==> s.sent[w] == |g.scripts[w]|;
      assert s.sent == Lengths(g);
    }
  }

  lemma LogPrefix(g: Setup, log: seq<Item>, queued: seq<Item>, sent: seq<nat>, w: nat)
    requires OrderOk(g, log + queued, sent) && w < |g.scripts|
    ensures From(log, w) <= g.scripts[w]
  {
    FromConcat(log, queued, w);
    assert From(log, w) <= From(log + queued, w) == g.scripts[w][..sent[w]];
  }

  /** Every worker's log so far is a prefix of its script, at every moment of every run. */
  lemma LogInOrder(g: Setup, alive: bool, steps: seq<Step>, w: nat)
    requires Valid(g, Start(g, alive), steps) && w < |g.scripts|
    ensures From(Exec(g, Start(g, alive), steps).log, w) <= g.scripts[w]
  {
    StartOk(g, alive);
    RunKeeps(g, Start(g, alive), steps);
    var s := Exec(g, Start(g, alive), steps);
    LogPrefix(g, s.log, Entries(s.queue), s.sent, w);
  }

  lemma {:induction false} NoExitLength(q: seq<Message>)
    requires NoExit(q)
    ensures |Entries(q)| == |q|
  {
    if q != [] {
      NoExitLength(q[1..]);
    }
  }

  lemma QueueLength(g: Setup, s: State)
    requires Inv(g, s) && (s.io.Receiving? || s.io.NotStarted?)
    ensures |s.queue| == |Entries(s.queue)| + if ExitSent(s) then 1 else 0
  {
    if ExitSent(s) {
      var entries := s.queue[..|s.queue| - 1];
      NoExitLength(entries);
      EntriesSnoc(entries, EXIT);
      assert s.queue == entries + [EXIT];
    } else {
      NoExitLength(s.queue);
    }
  }

  /** No step is possible any more. */
  ghost predicate Halted(g: Setup, s: State) {
    forall step :: !Can(g, s, step)
  }

  /** With room in the queue a halted program has all workers closed, main past them and EXIT sent. */
  lemma HaltedWithRoom(g: Setup, s: State)
    requires Inv(g, s) && Halted(g, s) && |s.queue| < g.capacity
    ensures ExitSent(s)
  {
    forall w | 0 <= w < |g.scripts| ensures s.closed[w] {
      assert !Can(g, s, Send(w)) && !Can(g, s, Close(w));
    }
    assert !Can(g, s, Main);
  }

  lemma AllSent(g: Setup, s: State)
    requires Inv(g, s) && ExitSent(s)
    ensures Sum(s.sent) == Sum(Lengths(g))
  {
    assert forall w :: 0 <= w < |g.scripts| ==> s.closed[w];
    assert s.sent == Lengths(g);
  }

  lemma HaltedAlive(g: Setup, s: State)
    requires Inv(g, s) && Halted(g, s) && g.capacity >= 1 && !s.io.NotStarted?
    ensures s.main.Returned? && s.io.Unlinked?
  {
    assert !Can(g, s, Io) && !Can(g, s, Main);
    if s.io.Receiving? {
      HaltedWithRoom(g, s);
    }
  }

  lemma HaltedNotStarted(g: Setup, s: State)
    requires Inv(g, s) && Halted(g, s) && s.io.NotStarted?
    ensures s.main.Returned? <==> Sum(Lengths(g)) + 1 <= g.capacity
  {
    QueueLength(g, s);
    assert Flow(s) == Entries(s.queue);
    SumMonotone(s.sent, Lengths(g));
    assert !Can(g, s, Main);
    if ExitSent(s) {
      AllSent(g, s);
    } else if Sum(Lengths(g)) + 1 <= g.capacity {
      HaltedWithRoom(g, s);
    }
  }

  /**
   No run deadlocks on the bounded queue: a run that cannot go on has main back from its last join,
   with the queue unlinked. Without the I/O thread that holds exactly when the queue has room for
   every entry and EXIT; otherwise every run ends with somebody blocked in mq_send.
   */
  lemma HaltsIff(g: Setup, alive: bool, steps: seq<Step>)
    requires g.capacity >= 1 && Valid(g, Start(g, alive), steps)
    requires Halted(g, Exec(g, Start(g, alive), steps))
    ensures var s := Exec(g, Start(g, alive), steps);
            && (s.main.Returned? <==> alive || Sum(Lengths(g)) + 1 <= g.capacity)
            && (alive ==> s.io.Unlinked?)
  {
    StartOk(g, alive);
    RunKeeps(g, Start(g, alive), steps);
    AliveStays(g, Start(g, alive), steps);
    if alive {
      HaltedAlive(g, Exec(g, Start(g, alive), steps));
    } else {
      HaltedNotStarted(g, Exec(g, Start(g, alive), steps));
    }
  }

  /** With the source's numbers, four workers of five entries each and a queue of ten, main never returns if
      the I/O thread has not started. */
  lemma SourceHangs(g: Setup, steps: seq<Step>)
    requires g.capacity == 10 && |g.scripts| == 4 && forall w :: 0 <= w < 4 ==> |g.scripts[w]| == 5
    requires Valid(g, Start(g, false), steps) && Halted(g, Exec(g, Start(g, false), steps))
    ensures !Exec(g, Start(g, false), steps).main.Returned?
  {
    HaltsIff(g, false, steps);
    SumUniform(Lengths(g), 5);
  }

  lemma {:induction false} AliveStays(g: Setup, s: State, steps: seq<Step>)
    requires Valid(g, s, steps)
    ensures Exec(g, s, steps).io.NotStarted? <==> s.io.NotStarted?
    decreases |steps|
  {
    if steps != [] {
      AliveStays(g, Do(g, s, steps[0]), steps[1..]);
    }
  }

  /** Every run is finite: with W workers and E entries it has at most 2E + 2W + 6 steps. */
  lemma RunsAreFinite(g: Setup, alive: bool, steps: seq<Step>)
    requires Valid(g, Start(g, alive), steps)
    ensures |steps| <= 2 * Sum(Lengths(g)) + 2 * |g.scripts| + 6
  {
    StartOk(g, alive);
    RunKeeps(g, Start(g, alive), steps);
    StartLeft(WorkerLeft(g, Start(g, alive)), Lengths(g));
  }

  lemma {:induction false} StartLeft(left: seq<nat>, lengths: seq<nat>)
    requires |left| == |lengths|
    requires forall w :: 0 <= w < |left| ==> left[w] == 2 * lengths[w] + 1
    ensures Sum(left) == 2 * Sum(lengths) + |left|
  {
    if left != [] {
      StartLeft(left[1..], lengths[1..]);
    }
  }
}
