/**
 The eventfd multicast of lesson 5: T1 posts a message for a set of receivers, signals each of
 them through its eventfd, and waits on its own eventfd until ack_mask equals the posted mask.
 Masks are sets of receiver indices. A step is one access to shared memory or to an eventfd;
 reading an eventfd blocks at zero and resets it, writing adds one. With atomic == false the
 receivers' update of ack_mask is a load and a later store, as compiled from `ack_mask |= mask`;
 with atomic == true it is one step. Memory is sequentially consistent; msync has no effect.
 */
module Multicast {
  import opened Sums

  datatype Round = Round(mask: set<nat>, message: int)

  datatype Sender =
    | Reading                                // at fgets
    | Posting(mask: set<nat>)                // message written, about to set receivers_mask
    | Clearing(mask: set<nat>)               // about to clear ack_mask
    | Signalling(mask: set<nat>, next: nat)  // in the signalling loop, at index next
    | Waiting(mask: set<nat>)                // about to read T1's eventfd
    | Checking(mask: set<nat>)               // about to compare ack_mask with the mask
    | Quit

  datatype Receiver =
    | Blocked                                // about to read its eventfd
    | Woken                                  // about to look at receivers_mask
    | Targeted                               // about to read the message
    | Acking                                 // about to set its bit in ack_mask
    | Storing(seen: set<nat>)                // ack_mask loaded, not yet stored back
    | Announcing                             // about to signal T1

  datatype State = State(
    message: int, receivers: set<nat>, ack: set<nat>,
    senderFd: nat, receiverFd: seq<nat>,
    sender: Sender, receiver: seq<Receiver>,
    rounds: seq<Round>,                      // history: the rounds posted
    log: seq<seq<int>>)                      // history: what each receiver has read

  datatype Step = Input(mask: set<nat>, message: int) | Exit | T1 | Rx(i: nat)

  function Start(n: nat): State {
    State(0, {}, {}, 0, seq(n, _ => 0), Reading, seq(n, _ => Blocked), [], seq(n, _ => []))
  }

  predicate Shape(n: nat, s: State) {
    |s.receiverFd| == |s.receiver| == |s.log| == n
  }

  predicate Can(n: nat, s: State, step: Step) {
    && Shape(n, s)
    && match step
       case Input(_, _) => s.sender.Reading?
       case Exit => s.sender.Reading?
       case T1 => !s.sender.Reading? && !s.sender.Quit? && (s.sender.Waiting? ==> s.senderFd > 0)
       case Rx(i) => i < n && (s.receiver[i].Blocked? ==> s.receiverFd[i] > 0)
  }

  predicate ValidMask(n: nat, mask: set<nat>) {
    forall i :: i in mask ==> i < n
  }

  function Do(n: nat, atomic: bool, s: State, step: Step): State
    requires Can(n, s, step)
  {
    match step
    case Input(mask, message) =>
      s.(message := message, sender := if ValidMask(n, mask) then Posting(mask) else Reading)
    case Exit => s.(sender := Quit)
    case T1 => DoSender(n, s)
    case Rx(i) => DoReceiver(n, atomic, s, i)
  }

  function DoSender(n: nat, s: State): State
    requires Can(n, s, T1)
  {
    match s.sender
    case Posting(mask) =>
      s.(receivers := mask, sender := Clearing(mask), rounds := s.rounds + [Round(mask, s.message)])
    case Clearing(mask) => s.(ack := {}, sender := Signalling(mask, 0))
    case Signalling(mask, k) =>
      if k >= n then s.(sender := Waiting(mask))
      else if k in mask then s.(receiverFd := s.receiverFd[k := s.receiverFd[k] + 1], sender := Signalling(mask, k + 1))
      else s.(sender := Signalling(mask, k + 1))
    case Waiting(mask) => s.(senderFd := 0, sender := Checking(mask))
    case Checking(mask) => s.(sender := if s.ack == mask then Reading else Waiting(mask))
  }

  function DoReceiver(n: nat, atomic: bool, s: State, i: nat): State
    requires Can(n, s, Rx(i))
  {
    match s.receiver[i]
    case Blocked => s.(receiverFd := s.receiverFd[i := 0], receiver := s.receiver[i := Woken])
    case Woken => s.(receiver := s.receiver[i := if i in s.receivers then Targeted else Blocked])
    case Targeted => s.(log := s.log[i := s.log[i] + [s.message]], receiver := s.receiver[i := Acking])
    case Acking =>
      if atomic then s.(ack := s.ack + {i}, receiver := s.receiver[i := Announcing])
      else s.(receiver := s.receiver[i := Storing(s.ack)])
    case Storing(seen) => s.(ack := seen + {i}, receiver := s.receiver[i := Announcing])
    case Announcing => s.(senderFd := s.senderFd + 1, receiver := s.receiver[i := Blocked])
  }

  predicate Valid(n: nat, atomic: bool, s: State, steps: seq<Step>)
    decreases |steps|
  {
    steps == [] || (Can(n, s, steps[0]) && Valid(n, atomic, Do(n, atomic, s, steps[0]), steps[1..]))
  }

  function Exec(n: nat, atomic: bool, s: State, steps: seq<Step>): State
    requires Valid(n, atomic, s, steps)
    decreases |steps|
  {
    if steps == [] then s else Exec(n, atomic, Do(n, atomic, s, steps[0]), steps[1..])
  }

  // ----- Safety -----

  /** The messages of the rounds that were addressed to receiver i, in order. */
  function Addressed(rounds: seq<Round>, i: nat): seq<int> {
    if rounds == [] then []
    else
      var last := rounds[|rounds| - 1];
      Addressed(rounds[..|rounds| - 1], i) + (if i in last.mask then [last.message] else [])
  }

  predicate InRound(t: Sender) {
    t.Clearing? || t.Signalling? || t.Waiting? || t.Checking?
  }

  function Mask(t: Sender): set<nat> {
    if InRound(t) then t.mask else {}
  }

  /** The receivers below this index have been signalled if they are addressed. */
  function Signalled(n: nat, t: Sender): nat {
    if t.Signalling? then t.next else if t.Clearing? then 0 else n
  }

  predicate Quiet(r: Receiver) {
    r.Blocked? || r.Announcing?
  }

  predicate Caught(s: State, i: nat)
    requires i < |s.log|
  {
    s.log[i] == Addressed(s.rounds, i)
  }

  predicate Lagging(s: State, i: nat)
    requires i < |s.log|
  {
    s.log[i] + [s.message] == Addressed(s.rounds, i)
  }

  /** Receiver i is where the round allows it to be, and has read exactly what it should have. */
  predicate ReceiverOk(n: nat, s: State, i: nat)
    requires Shape(n, s) && i < n
  {
    var r, fd := s.receiver[i], s.receiverFd[i];
    if i !in Mask(s.sender) then Quiet(r) && fd == 0 && Caught(s, i)
    else if i >= Signalled(n, s.sender) then Quiet(r) && fd == 0 && Lagging(s, i)
    else if Quiet(r) then (fd == 1 && Lagging(s, i)) || (fd == 0 && Caught(s, i))
    else fd == 0 && if r.Woken? || r.Targeted? then Lagging(s, i) else Caught(s, i)
  }

  /** Receiver i is addressed in this round and has stored its acknowledgement. */
  predicate Stored(n: nat, s: State, i: nat)
    requires Shape(n, s)
  {
    i < n && i in Mask(s.sender) && Quiet(s.receiver[i]) && Caught(s, i)
  }

  predicate AllStored(n: nat, s: State, xs: set<nat>)
    requires Shape(n, s)
  {
    forall i :: i in xs ==> Stored(n, s, i)
  }

  /** ack_mask, and every stale copy of it, only ever names receivers that have stored this round. */
  predicate AcksOk(n: nat, s: State)
    requires Shape(n, s)
  {
    && (InRound(s.sender) && !s.sender.Clearing? ==> AllStored(n, s, s.ack))
    && (forall i :: 0 <= i < n && s.receiver[i].Storing? ==> AllStored(n, s, s.receiver[i].seen))
  }

  /** If the OR is atomic, or one receiver alone is addressed, no acknowledgement is lost. */
  predicate NoneLost(n: nat, atomic: bool, s: State)
    requires Shape(n, s)
  {
    && (atomic ==> forall i :: 0 <= i < n ==> !s.receiver[i].Storing?)
    && ((atomic || |Mask(s.sender)| <= 1) && InRound(s.sender) && !s.sender.Clearing? ==>
          forall i :: 0 <= i < n && Stored(n, s, i) ==> i in s.ack)
  }

  /** The last acknowledgement of a round still has its signal to T1 outstanding. */
  predicate SignalDue(n: nat, s: State)
    requires Shape(n, s)
  {
    (s.sender.Signalling? || s.sender.Waiting?) && s.ack == Mask(s.sender) != {} ==>
      s.senderFd > 0 || exists i :: 0 <= i < n && s.receiver[i].Announcing?
  }

  predicate RoundOk(n: nat, s: State) {
    && (s.sender.Posting? ==> ValidMask(n, s.sender.mask))
    && (InRound(s.sender) ==> s.receivers == Mask(s.sender) && ValidMask(n, Mask(s.sender)))
    && (s.sender.Signalling? ==> s.sender.next <= n)
  }

  predicate ReceiversOk(n: nat, s: State)
    requires Shape(n, s)
  {
    forall i :: 0 <= i < n ==> ReceiverOk(n, s, i)
  }

  predicate Inv(n: nat, atomic: bool, s: State) {
    && Shape(n, s) && RoundOk(n, s) && ReceiversOk(n, s) && AcksOk(n, s)
    && NoneLost(n, atomic, s) && SignalDue(n, s)
  }

  lemma AddressedSnoc(rounds: seq<Round>, r: Round, i: nat)
    ensures Addressed(rounds + [r], i) == Addressed(rounds, i) + (if i in r.mask then [r.message] else [])
  {
  }

  lemma NotBoth(s: State, i: nat)
    requires i < |s.log|
    ensures !(Caught(s, i) && Lagging(s, i))
  {
  }

  lemma PostingKeeps(n: nat, s: State)
    requires Shape(n, s) && RoundOk(n, s) && ReceiversOk(n, s) && s.sender.Posting?
    ensures ReceiversOk(n, DoSender(n, s))
  {
    var s' := DoSender(n, s);
    forall i | 0 <= i < n ensures ReceiverOk(n, s', i) {
      assert ReceiverOk(n, s, i);
      AddressedSnoc(s.rounds, Round(s.sender.mask, s.message), i);
    }
  }

  lemma SenderKeepsReceivers(n: nat, s: State)
    requires Shape(n, s) && RoundOk(n, s) && ReceiversOk(n, s) && AcksOk(n, s) && Can(n, s, T1)
    ensures ReceiversOk(n, DoSender(n, s))
  {
    if s.sender.Posting? {
      PostingKeeps(n, s);
    } else {
      var s' := DoSender(n, s);
      forall i | 0 <= i < n ensures ReceiverOk(n, s', i) {
        assert ReceiverOk(n, s, i);
        NotBoth(s, i);
        assert s.sender.Checking? && s.ack == s.sender.mask && i in s.ack ==> Stored(n, s, i);
      }
    }
  }

  lemma SenderKeeps(n: nat, atomic: bool, s: State)
    requires Inv(n, atomic, s) && Can(n, s, T1)
    ensures Inv(n, atomic, DoSender(n, s))
  {
    var s' := DoSender(n, s);
    SenderKeepsReceivers(n, s);
    forall i | 0 <= i < n
      ensures s.sender.Clearing? ==> !Stored(n, s', i)
      ensures !s.sender.Clearing? && InRound(s'.sender) ==> (Stored(n, s', i) <==> Stored(n, s, i))
    {
      assert ReceiverOk(n, s, i);
      NotBoth(s, i);
    }
    forall i | 0 <= i < n && s'.receiver[i].Storing?
      ensures AllStored(n, s', s'.receiver[i].seen)
    {
      assert ReceiverOk(n, s, i) && ReceiverOk(n, s', i);
      assert AllStored(n, s, s.receiver[i].seen);
    }
  }

  lemma InputKeeps(n: nat, atomic: bool, s: State, step: Step)
    requires Inv(n, atomic, s) && Can(n, s, step) && (step.Input? || step.Exit?)
    ensures Inv(n, atomic, Do(n, atomic, s, step))
  {
    var s' := Do(n, atomic, s, step);
    forall i | 0 <= i < n ensures ReceiverOk(n, s', i) {
      assert ReceiverOk(n, s, i);
    }
  }

  /** A receiver's step moves only that receiver, keeps it in line, and undoes no acknowledgement. */
  lemma ReceiverKeepsReceivers(n: nat, atomic: bool, s: State, i: nat)
    requires Shape(n, s) && RoundOk(n, s) && ReceiversOk(n, s) && Can(n, s, Rx(i))
    ensures ReceiversOk(n, DoReceiver(n, atomic, s, i))
    ensures forall j :: Stored(n, s, j) ==> Stored(n, DoReceiver(n, atomic, s, i), j)
    ensures forall j :: j != i && Stored(n, DoReceiver(n, atomic, s, i), j) ==> Stored(n, s, j)
  {
    var s' := DoReceiver(n, atomic, s, i);
    assert ReceiverOk(n, s, i);
    NotBoth(s, i);
    forall j | 0 <= j < n ensures ReceiverOk(n, s', j) {
      assert ReceiverOk(n, s, j);
    }
  }

  /** Receiver i's step sets its own bit exactly when it passes from Acking or Storing to Announcing. */
  lemma ReceiverStores(n: nat, atomic: bool, s: State, i: nat)
    requires Shape(n, s) && RoundOk(n, s) && ReceiversOk(n, s) && AcksOk(n, s) && Can(n, s, Rx(i))
    ensures AcksOk(n, DoReceiver(n, atomic, s, i))
    ensures Stored(n, DoReceiver(n, atomic, s, i), i) ==> Stored(n, s, i) || i in DoReceiver(n, atomic, s, i).ack
  {
    var s' := DoReceiver(n, atomic, s, i);
    ReceiverKeepsReceivers(n, atomic, s, i);
    assert ReceiverOk(n, s, i) && ReceiverOk(n, s', i);
    NotBoth(s, i);
    assert s'.ack != s.ack ==> Stored(n, s', i);
    forall j | 0 <= j < n && s'.receiver[j].Storing?
      ensures AllStored(n, s', s'.receiver[j].seen)
    {
      assert j != i ==> AllStored(n, s, s.receiver[j].seen);
      assert j == i ==> s'.receiver[j].seen == s.ack;
    }
  }

  lemma OnlyElement(xs: set<nat>, a: nat, b: nat)
    requires |xs| <= 1 && a in xs && b in xs
    ensures a == b
  {
    assert |xs - {a}| == 0;
    assert b !in xs - {a};
  }

  lemma ReceiverKeeps(n: nat, atomic: bool, s: State, i: nat)
    requires Inv(n, atomic, s) && Can(n, s, Rx(i))
    ensures Inv(n, atomic, DoReceiver(n, atomic, s, i))
  {
    var s' := DoReceiver(n, atomic, s, i);
    ReceiverKeepsReceivers(n, atomic, s, i);
    ReceiverStores(n, atomic, s, i);
    assert ReceiverOk(n, s, i);
    if (atomic || |Mask(s.sender)| <= 1) && InRound(s.sender) && !s.sender.Clearing? {
      forall j | 0 <= j < n && Stored(n, s', j) ensures j in s'.ack {
        if !atomic && s.receiver[i].Storing? {
          OnlyElement(Mask(s.sender), i, j);
        }
      }
    }
    assert s'.receiver[i].Announcing? || s'.ack == s.ack;
  }

  lemma {:induction false} RunKeeps(n: nat, atomic: bool, s: State, steps: seq<Step>)
    requires Inv(n, atomic, s) && Valid(n, atomic, s, steps)
    ensures Inv(n, atomic, Exec(n, atomic, s, steps))
    decreases |steps|
  {
    if steps != [] {
      match steps[0] {
        case T1 => SenderKeeps(n, atomic, s);
        case Rx(i) => ReceiverKeeps(n, atomic, s, i);
        case _ => InputKeeps(n, atomic, s, steps[0]);
      }
      RunKeeps(n, atomic, Do(n, atomic, s, steps[0]), steps[1..]);
    }
  }

  /** A receiver's eventfd never counts past one, and no receiver finds itself not addressed. */
  lemma NeverOverSignalled(n: nat, atomic: bool, steps: seq<Step>, i: nat)
    requires Valid(n, atomic, Start(n), steps) && i < n
    ensures var s := Exec(n, atomic, Start(n), steps);
            && Shape(n, s)
            && s.receiverFd[i] <= 1
            && (s.receiver[i].Woken? ==> i in s.receivers)
  {
    assert Inv(n, atomic, Start(n));
    RunKeeps(n, atomic, Start(n), steps);
    var s := Exec(n, atomic, Start(n), steps);
    assert ReceiverOk(n, s, i);
  }

  // ----- Progress -----

  /** T1 waits for an acknowledgement, and nothing in the program can move any more. */
  ghost predicate Hung(n: nat, s: State) {
    s.sender.Waiting? && forall step :: !Can(n, s, step)
  }

  lemma AcknowledgerMoves(n: nat, atomic: bool, s: State, i: nat)
    requires Inv(n, atomic, s) && s.sender.Waiting? && i in s.sender.mask && i !in s.ack
    requires atomic || |s.sender.mask| <= 1
    ensures Can(n, s, Rx(i))
  {
    assert ReceiverOk(n, s, i);
  }

  /** While T1 waits for an acknowledgement that cannot get lost, somebody can move. */
  lemma WaitingMovesOn(n: nat, atomic: bool, s: State)
    requires Inv(n, atomic, s) && s.sender.Waiting? && s.sender.mask != {}
    requires atomic || |s.sender.mask| == 1
    ensures !Hung(n, s)
  {
    if s.ack == s.sender.mask {
      if s.senderFd > 0 {
        assert Can(n, s, T1);
      } else {
        var i :| 0 <= i < n && s.receiver[i].Announcing?;
        assert Can(n, s, Rx(i));
      }
    } else {
      assert forall i :: i in s.ack ==> Stored(n, s, i);
      assert s.ack <= s.sender.mask;
      var i: nat :| i in s.sender.mask && i !in s.ack;
      AcknowledgerMoves(n, atomic, s, i);
    }
  }

  /** A round that addresses somebody never hangs if the OR is atomic or one receiver is addressed. */
  lemma RoundNeverHangs(n: nat, atomic: bool, steps: seq<Step>)
    requires Valid(n, atomic, Start(n), steps)
    ensures var s := Exec(n, atomic, Start(n), steps);
            s.sender.Waiting? && s.sender.mask != {} && (atomic || |s.sender.mask| == 1) ==> !Hung(n, s)
  {
    assert Inv(n, atomic, Start(n));
    RunKeeps(n, atomic, Start(n), steps);
    var s := Exec(n, atomic, Start(n), steps);
    if s.sender.Waiting? && s.sender.mask != {} && (atomic || |s.sender.mask| == 1) {
      WaitingMovesOn(n, atomic, s);
    }
  }

  // ----- Every round is finite -----

  function ReceiverWork(r: Receiver, fd: nat): nat {
    9 * fd + match r
             case Blocked => 0
             case Announcing => 4
             case Storing(_) => 5
             case Acking => 6
             case Targeted => 7
             case Woken => 8
  }

  function SenderWork(n: nat, t: Sender): nat {
    match t
    case Posting(_) => 10 * n + 3
    case Clearing(_) => 10 * n + 2
    case Signalling(_, k) => if k <= n then 10 * (n - k) + 1 else 1
    case Checking(_) => 1
    case _ => 0
  }

  function Works(n: nat, s: State): seq<nat>
    requires Shape(n, s)
  {
    seq(n, i requires 0 <= i < n => ReceiverWork(s.receiver[i], s.receiverFd[i]))
  }

  /** A bound on the steps left until T1 is back at its prompt, or hangs. */
  function Work(n: nat, s: State): nat
    requires Shape(n, s)
  {
    Sum(Works(n, s)) + 3 * s.senderFd + SenderWork(n, s.sender)
  }

  lemma WorkSender(n: nat, s: State)
    requires Can(n, s, T1)
    ensures Shape(n, DoSender(n, s)) && Work(n, DoSender(n, s)) < Work(n, s)
  {
    var s' := DoSender(n, s);
    var k := if s.sender.Signalling? && s.sender.next < n && s.sender.next in s.sender.mask then s.sender.next else n;
    if k < n {
      SumUpdate(Works(n, s), k, Works(n, s)[k] + 9);
      assert Works(n, s') == Works(n, s)[k := Works(n, s)[k] + 9];
    } else {
      assert Works(n, s') == Works(n, s);
    }
  }

  lemma WorkReceiver(n: nat, atomic: bool, s: State, i: nat)
    requires Can(n, s, Rx(i))
    ensures var s' := DoReceiver(n, atomic, s, i); Shape(n, s') && Work(n, s') < Work(n, s)
  {
    var s' := DoReceiver(n, atomic, s, i);
    SumUpdate(Works(n, s), i, Works(n, s')[i]);
    assert Works(n, s') == Works(n, s)[i := Works(n, s')[i]];
  }

  function Inputs(steps: seq<Step>): nat {
    if steps == [] then 0 else (if steps[0].Input? || steps[0].Exit? then 1 else 0) + Inputs(steps[1..])
  }

  /** k for each line typed. */
  function Budget(steps: seq<Step>, k: nat): nat {
    if steps == [] then 0 else (if steps[0].Input? || steps[0].Exit? then k else 0) + Budget(steps[1..], k)
  }

  lemma {:induction false} BudgetIsProduct(steps: seq<Step>, k: nat)
    ensures Budget(steps, k) == Inputs(steps) * k
  {
    if steps != [] {
      BudgetIsProduct(steps[1..], k);
      assert (Inputs(steps[1..]) + 1) * k == Inputs(steps[1..]) * k + k;
    }
  }

  lemma {:induction false} WorkRun(n: nat, atomic: bool, s: State, steps: seq<Step>)
    requires Valid(n, atomic, s, steps) && Shape(n, s)
    ensures |steps| <= Work(n, s) + Budget(steps, 10 * n + 4)
    decreases |steps|
  {
    if steps != [] {
      var s' := Do(n, atomic, s, steps[0]);
      match steps[0] {
        case T1 => WorkSender(n, s);
        case Rx(i) => WorkReceiver(n, atomic, s, i);
        case _ => assert Works(n, s') == Works(n, s);
      }
      WorkRun(n, atomic, s', steps[1..]);
    }
  }

  /**
   Each line typed at the prompt is dealt with in at most 10n + 4 steps, whatever the interleaving:
   a round either completes or hangs within that many.
   */
  lemma RoundsAreFinite(n: nat, atomic: bool, steps: seq<Step>)
    requires Valid(n, atomic, Start(n), steps)
    ensures |steps| <= Inputs(steps) * (10 * n + 4)
  {
    SumUniform(Works(n, Start(n)), 0);
    WorkRun(n, atomic, Start(n), steps);
    BudgetIsProduct(steps, 10 * n + 4);
  }
}
