/**
 When can the next round of the multicast hang? At every prompt of every run: exactly when the bitmask
 is empty and no late signal of an earlier round is left to wake T1, or when it addresses two receivers
 or more and the update of ack_mask is a separate load and store.
 */
module MulticastHang {
  import opened Multicast

  predicate Reaches(n: nat, atomic: bool, s: State, steps: seq<Step>, s': State) {
    Valid(n, atomic, s, steps) && Inputs(steps) == 0 && Exec(n, atomic, s, steps) == s'
  }

  /** A run of T1 and receiver steps from s to s'. */
  ghost predicate Leads(n: nat, atomic: bool, s: State, s': State) {
    exists steps :: Reaches(n, atomic, s, steps, s')
  }

  lemma LeadsNowhere(n: nat, atomic: bool, s: State)
    ensures Leads(n, atomic, s, s)
  {
    assert Reaches(n, atomic, s, [], s);
  }

  lemma {:induction false} ReachesOn(n: nat, atomic: bool, s: State, steps: seq<Step>, s': State, step: Step)
    requires Reaches(n, atomic, s, steps, s') && Can(n, s', step) && (step.T1? || step.Rx?)
    ensures Reaches(n, atomic, s, steps + [step], Do(n, atomic, s', step))
    decreases |steps|
  {
    var more := steps + [step];
    if steps == [] {
      assert more == [step] && more[1..] == [];
    } else {
      ReachesOn(n, atomic, Do(n, atomic, s, steps[0]), steps[1..], s', step);
      assert more[1..] == steps[1..] + [step];
    }
  }

  /** A run carried on by one step. */
  lemma LeadsOn(n: nat, atomic: bool, s0: State, s: State, step: Step) returns (s': State)
    requires Leads(n, atomic, s0, s) && Can(n, s, step) && (step.T1? || step.Rx?)
    ensures Leads(n, atomic, s0, s') && s' == Do(n, atomic, s, step)
  {
    var steps :| Reaches(n, atomic, s0, steps, s);
    s' := Do(n, atomic, s, step);
    ReachesOn(n, atomic, s0, steps, s, step);
  }

  // ----- A quiet start: acknowledgements of earlier rounds have all been announced -----

  predicate AnyAnnouncing(s: State) {
    exists i :: 0 <= i < |s.receiver| && s.receiver[i].Announcing?
  }

  /** T1 is about to post mask and every receiver waits for a signal; T1's eventfd may hold old ones. */
  predicate Quiescent(n: nat, s: State, mask: set<nat>) {
    && Shape(n, s) && ValidMask(n, mask) && s.sender == Posting(mask)
    && s.receiver == seq(n, _ => Blocked) && s.receiverFd == seq(n, _ => 0)
  }

  /** The receivers still to announce an earlier acknowledgement do so, from the k-th on. */
  lemma {:induction false} Flush(n: nat, atomic: bool, s0: State, s: State, k: nat) returns (b: State)
    requires Leads(n, atomic, s0, s) && Inv(n, atomic, s) && s.sender.Posting? && k <= n
    requires forall i :: 0 <= i < k ==> s.receiver[i].Blocked?
    ensures Leads(n, atomic, s0, b) && Quiescent(n, b, s.sender.mask)
    ensures !AnyAnnouncing(s) ==> b == s
    decreases n - k
  {
    if k == n {
      forall i | 0 <= i < n ensures s.receiver[i] == Blocked && s.receiverFd[i] == 0 {
        assert ReceiverOk(n, s, i);
      }
      return s;
    }
    assert ReceiverOk(n, s, k);
    var s' := s;
    if s.receiver[k].Announcing? {
      ReceiverKeeps(n, atomic, s, k);
      s' := LeadsOn(n, atomic, s0, s, Rx(k));
    }
    b := Flush(n, atomic, s0, s', k + 1);
  }

  // ----- The states of a round, begun at a quiet b, in which every update is lost -----

  /** T1 has signalled the addressed receivers below k; nobody else has moved. */
  function SignalledUpTo(n: nat, b: State, mask: set<nat>, k: nat): State {
    b.(receivers := mask, ack := {}, sender := Signalling(mask, k),
       receiverFd := seq(n, i => if i < k && i in mask then 1 else 0),
       rounds := b.rounds + [Round(mask, b.message)])
  }

  /** T1 waits; the receivers in loaded have read the message and loaded an empty ack_mask. */
  function Stale(n: nat, b: State, mask: set<nat>, loaded: set<nat>): State
    requires |b.log| == n
  {
    SignalledUpTo(n, b, mask, n).(
      sender := Waiting(mask),
      receiverFd := seq(n, i => if i in mask - loaded then 1 else 0),
      receiver := seq(n, i => if i in loaded then Storing({}) else Blocked),
      log := seq(n, i requires 0 <= i < n => if i in loaded then b.log[i] + [b.message] else b.log[i]))
  }

  /** The receivers in stored have written their stale copies back, so only the last bit survives. */
  function Overwritten(n: nat, b: State, mask: set<nat>, stored: set<nat>, ack: set<nat>): State
    requires |b.log| == n
  {
    Stale(n, b, mask, mask).(
      ack := ack, senderFd := b.senderFd + |stored|,
      receiver := seq(n, i => if i in mask - stored then Storing({}) else Blocked))
  }

  lemma {:induction false} SignalAll(n: nat, atomic: bool, s0: State, b: State, mask: set<nat>, k: nat)
    requires k <= n && Quiescent(n, b, mask) && Leads(n, atomic, s0, SignalledUpTo(n, b, mask, k))
    ensures Leads(n, atomic, s0, Stale(n, b, mask, {}))
    decreases n - k
  {
    var s := LeadsOn(n, atomic, s0, SignalledUpTo(n, b, mask, k), T1);
    if k == n {
      assert s == Stale(n, b, mask, {});
    } else {
      assert s == SignalledUpTo(n, b, mask, k + 1);
      SignalAll(n, atomic, s0, b, mask, k + 1);
    }
  }

  lemma ReachWaiting(n: nat, atomic: bool, s0: State, b: State, mask: set<nat>)
    requires Leads(n, atomic, s0, b) && Quiescent(n, b, mask)
    ensures Leads(n, atomic, s0, Stale(n, b, mask, {}))
  {
    var s1 := LeadsOn(n, atomic, s0, b, T1);
    var s2 := LeadsOn(n, atomic, s0, s1, T1);
    assert s2 == SignalledUpTo(n, b, mask, 0);
    SignalAll(n, atomic, s0, b, mask, 0);
  }

  lemma LoadOne(n: nat, s0: State, b: State, mask: set<nat>, loaded: set<nat>, x: nat)
    requires Quiescent(n, b, mask) && loaded <= mask && x in mask - loaded
    requires Leads(n, false, s0, Stale(n, b, mask, loaded))
    ensures Leads(n, false, s0, Stale(n, b, mask, loaded + {x}))
  {
    var s1 := LeadsOn(n, false, s0, Stale(n, b, mask, loaded), Rx(x));
    var s2 := LeadsOn(n, false, s0, s1, Rx(x));
    var s3 := LeadsOn(n, false, s0, s2, Rx(x));
    var s4 := LeadsOn(n, false, s0, s3, Rx(x));
    var target := Stale(n, b, mask, loaded + {x});
    assert s4.log[x] == b.log[x] + [b.message];
    assert s4.log == target.log && s4.receiver == target.receiver && s4.receiverFd == target.receiverFd;
  }

  lemma {:induction false} LoadAll(n: nat, s0: State, b: State, mask: set<nat>, loaded: set<nat>)
    requires Quiescent(n, b, mask) && loaded <= mask
    requires Leads(n, false, s0, Stale(n, b, mask, loaded))
    ensures Leads(n, false, s0, Stale(n, b, mask, mask))
    decreases mask - loaded
  {
    if mask - loaded == {} {
      assert forall x :: x in mask && x !in loaded ==> x in mask - loaded;
      assert loaded == mask;
    } else {
      var x :| x in mask - loaded;
      LoadOne(n, s0, b, mask, loaded, x);
      LoadAll(n, s0, b, mask, loaded + {x});
    }
  }

  lemma StoreOne(n: nat, s0: State, b: State, mask: set<nat>, stored: set<nat>, ack: set<nat>, x: nat)
    requires Quiescent(n, b, mask) && stored <= mask && x in mask - stored
    requires Leads(n, false, s0, Overwritten(n, b, mask, stored, ack))
    ensures Leads(n, false, s0, Overwritten(n, b, mask, stored + {x}, {x}))
  {
    var s1 := LeadsOn(n, false, s0, Overwritten(n, b, mask, stored, ack), Rx(x));
    var s2 := LeadsOn(n, false, s0, s1, Rx(x));
    assert |stored + {x}| == |stored| + 1;
    assert s2 == Overwritten(n, b, mask, stored + {x}, {x});
  }

  lemma {:induction false} StoreAll(n: nat, s0: State, b: State, mask: set<nat>, stored: set<nat>, ack: set<nat>)
    returns (last: set<nat>)
    requires Quiescent(n, b, mask) && stored <= mask && |ack| <= 1
    requires Leads(n, false, s0, Overwritten(n, b, mask, stored, ack))
    ensures |last| <= 1 && Leads(n, false, s0, Overwritten(n, b, mask, mask, last))
    decreases mask - stored
  {
    if mask - stored == {} {
      assert forall x :: x in mask && x !in stored ==> x in mask - stored;
      assert stored == mask;
      return ack;
    }
    var x :| x in mask - stored;
    StoreOne(n, s0, b, mask, stored, ack, x);
    last := StoreAll(n, s0, b, mask, stored + {x}, {x});
  }

  // ----- A signal left over from an earlier round -----

  /** A signal to T1 is there, or on its way. */
  predicate Leftover(s: State) {
    s.senderFd > 0 || AnyAnnouncing(s)
  }

  /** T1 deals with an empty mask and has, or has had, a signal that gets it past its wait. */
  predicate Rescued(s: State) {
    || s.sender.Reading?
    || (s.sender.Checking? && s.sender.mask == {})
    || ((s.sender.Posting? || (InRound(s.sender) && !s.sender.Checking?)) && s.sender.mask == {} && Leftover(s))
  }

  lemma RescuedStep(n: nat, atomic: bool, s: State, step: Step)
    requires Inv(n, atomic, s) && Rescued(s) && Can(n, s, step) && (step.T1? || step.Rx?)
    ensures Inv(n, atomic, Do(n, atomic, s, step)) && Rescued(Do(n, atomic, s, step))
  {
    var s' := Do(n, atomic, s, step);
    if step.T1? {
      SenderKeeps(n, atomic, s);
      assert s.sender.Checking? ==> forall i :: i in s.ack ==> Stored(n, s, i);
      assert s.sender.Checking? ==> s.ack == {};
      assert s'.receiver == s.receiver;
    } else {
      ReceiverKeeps(n, atomic, s, step.i);
      if i :| 0 <= i < n && s.receiver[i].Announcing? {
        assert i != step.i ==> s'.receiver[i].Announcing?;
      }
    }
  }

  lemma {:induction false} RescuedRun(n: nat, atomic: bool, s: State, steps: seq<Step>)
    requires Inv(n, atomic, s) && Rescued(s) && Valid(n, atomic, s, steps) && Inputs(steps) == 0
    ensures Rescued(Exec(n, atomic, s, steps)) && !Hung(n, Exec(n, atomic, s, steps))
    decreases |steps|
  {
    if steps != [] {
      RescuedStep(n, atomic, s, steps[0]);
      RescuedRun(n, atomic, Do(n, atomic, s, steps[0]), steps[1..]);
    } else if s.sender.Waiting? && s.senderFd == 0 {
      var i :| 0 <= i < n && s.receiver[i].Announcing?;
      assert Can(n, s, Rx(i));
    } else {
      assert s.sender.Waiting? ==> Can(n, s, T1);
    }
  }

  // ----- The theorem -----

  /** T1 is at its prompt after the run before. */
  predicate Prompt(n: nat, atomic: bool, before: seq<Step>, s: State) {
    Valid(n, atomic, Start(n), before) && s == Exec(n, atomic, Start(n), before) && s.sender.Reading?
  }

  /** Typing mask and message at the prompt, and this continuation of it, ends hung. */
  ghost predicate HangsUnder(n: nat, atomic: bool, s: State, mask: set<nat>, message: int, steps: seq<Step>) {
    && Inputs(steps) == 0 && Can(n, s, Input(mask, message))
    && Valid(n, atomic, Do(n, atomic, s, Input(mask, message)), steps)
    && Hung(n, Exec(n, atomic, Do(n, atomic, s, Input(mask, message)), steps))
  }

  /** The state after the line has been typed keeps the invariant. */
  lemma Typed(n: nat, atomic: bool, before: seq<Step>, s: State, mask: set<nat>, message: int) returns (s0: State)
    requires Prompt(n, atomic, before, s)
    ensures Can(n, s, Input(mask, message)) && s0 == Do(n, atomic, s, Input(mask, message))
    ensures Inv(n, atomic, s0) && s0.sender == if ValidMask(n, mask) then Posting(mask) else Reading
  {
    assert Inv(n, atomic, Start(n));
    RunKeeps(n, atomic, Start(n), before);
    s0 := Do(n, atomic, s, Input(mask, message));
    InputKeeps(n, atomic, s, Input(mask, message));
  }

  /** From the typed line to T1's wait, by way of a state b in which all announcements are out. */
  lemma TypedToWaiting(n: nat, atomic: bool, s0: State) returns (b: State)
    requires Inv(n, atomic, s0) && s0.sender.Posting?
    ensures Quiescent(n, b, s0.sender.mask) && Leads(n, atomic, s0, Stale(n, b, s0.sender.mask, {}))
    ensures !AnyAnnouncing(s0) ==> b == s0
  {
    LeadsNowhere(n, atomic, s0);
    b := Flush(n, atomic, s0, s0, 0);
    ReachWaiting(n, atomic, s0, b, s0.sender.mask);
  }

  lemma HangsFrom(n: nat, atomic: bool, s: State, mask: set<nat>, message: int, h: State)
    requires Can(n, s, Input(mask, message)) && Hung(n, h)
    requires Leads(n, atomic, Do(n, atomic, s, Input(mask, message)), h)
    ensures exists steps :: HangsUnder(n, atomic, s, mask, message, steps)
  {
    var steps :| Reaches(n, atomic, Do(n, atomic, s, Input(mask, message)), steps, h);
    assert HangsUnder(n, atomic, s, mask, message, steps);
  }

  lemma EmptyMaskHangs(n: nat, atomic: bool, before: seq<Step>, s: State, message: int)
    requires Prompt(n, atomic, before, s) && !Leftover(s)
    ensures exists steps :: HangsUnder(n, atomic, s, {}, message, steps)
  {
    var s0 := Typed(n, atomic, before, s, {}, message);
    var b := TypedToWaiting(n, atomic, s0);
    HangsFrom(n, atomic, s, {}, message, Stale(n, b, {}, {}));
  }

  /** At every prompt a program run can come to, a split OR lets two addressees hang the next round. */
  lemma LostUpdateHangs(n: nat, before: seq<Step>, s: State, mask: set<nat>, message: int)
    requires Prompt(n, false, before, s) && ValidMask(n, mask) && |mask| >= 2
    ensures exists steps :: HangsUnder(n, false, s, mask, message, steps)
  {
    var s0 := Typed(n, false, before, s, mask, message);
    var b := TypedToWaiting(n, false, s0);
    LoadAll(n, s0, b, mask, {});
    assert Stale(n, b, mask, mask) == Overwritten(n, b, mask, {}, {});
    var last := StoreAll(n, s0, b, mask, {}, {});
    var s1 := LeadsOn(n, false, s0, Overwritten(n, b, mask, mask, last), T1);
    var s2 := LeadsOn(n, false, s0, s1, T1);
    assert last != mask;
    assert Hung(n, s2);
    HangsFrom(n, false, s, mask, message, s2);
  }

  /** Without further input the round T1 is in stays the round of the given mask. */
  lemma {:induction false} MaskStays(n: nat, atomic: bool, s: State, steps: seq<Step>, mask: set<nat>)
    requires Valid(n, atomic, s, steps) && Inputs(steps) == 0
    requires s.sender.Posting? || InRound(s.sender) ==> s.sender.mask == mask
    ensures var s' := Exec(n, atomic, s, steps); s'.sender.Posting? || InRound(s'.sender) ==> s'.sender.mask == mask
    decreases |steps|
  {
    if steps != [] {
      MaskStays(n, atomic, Do(n, atomic, s, steps[0]), steps[1..], mask);
    }
  }

  lemma HangNeeds(n: nat, atomic: bool, before: seq<Step>, s: State, mask: set<nat>, message: int, steps: seq<Step>)
    requires Prompt(n, atomic, before, s) && HangsUnder(n, atomic, s, mask, message, steps)
    ensures ValidMask(n, mask) && ((mask == {} && !Leftover(s)) || (!atomic && |mask| >= 2))
  {
    var s0 := Typed(n, atomic, before, s, mask, message);
    if !ValidMask(n, mask) || mask == {} {
      if Rescued(s0) {
        RescuedRun(n, atomic, s0, steps);
      }
    } else {
      RunKeeps(n, atomic, s0, steps);
      MaskStays(n, atomic, s0, steps, mask);
      var h := Exec(n, atomic, s0, steps);
      if atomic || |mask| == 1 {
        WaitingMovesOn(n, atomic, h);
      }
    }
  }

  /** A signalled addressee reads the message and sets its bit, undisturbed; it has yet to signal T1. */
  lemma Acknowledge(n: nat, atomic: bool, s0: State, s: State, x: nat) returns (s': State)
    requires Leads(n, atomic, s0, s) && Shape(n, s) && x < n && x in s.receivers
    requires s.receiver[x].Blocked? && s.receiverFd[x] > 0
    ensures Leads(n, atomic, s0, s')
    ensures s' == s.(receiverFd := s.receiverFd[x := 0], receiver := s.receiver[x := Announcing],
                     log := s.log[x := s.log[x] + [s.message]], ack := s.ack + {x})
  {
    var s1 := LeadsOn(n, atomic, s0, s, Rx(x));
    var s2 := LeadsOn(n, atomic, s0, s1, Rx(x));
    var s3 := LeadsOn(n, atomic, s0, s2, Rx(x));
    s' := LeadsOn(n, atomic, s0, s3, Rx(x));
    if !atomic {
      s' := LeadsOn(n, atomic, s0, s', Rx(x));
    }
  }

  /** Late signals do occur: receiver 1 stores its bit between T1's read of its eventfd and its comparison. */
  lemma LateSignal() returns (before: seq<Step>, s: State)
    ensures Prompt(2, true, before, s) && AnyAnnouncing(s)
  {
    var s0 := Typed(2, true, [], Start(2), {0, 1}, 7);
    var b := TypedToWaiting(2, true, s0);
    var s1 := Acknowledge(2, true, s0, Stale(2, b, {0, 1}, {}), 0);
    var s2 := LeadsOn(2, true, s0, s1, Rx(0));
    var s3 := LeadsOn(2, true, s0, s2, T1);
    var s4 := Acknowledge(2, true, s0, s3, 1);
    s := LeadsOn(2, true, s0, s4, T1);
    assert s.receiver[1].Announcing?;
    var steps :| Reaches(2, true, s0, steps, s);
    before := [Input({0, 1}, 7)] + steps;
    assert before[1..] == steps;
  }

  /**
   At every prompt of every run, the line typed next can hang T1 exactly when its mask is accepted and
   is empty with no signal of an earlier round still counted or to come, or addresses two or more
   with the OR split.
   */
  lemma HangPossibleIff(n: nat, atomic: bool, before: seq<Step>, s: State, mask: set<nat>, message: int)
    requires Prompt(n, atomic, before, s)
    ensures (exists steps :: HangsUnder(n, atomic, s, mask, message, steps)) <==>
            && ValidMask(n, mask)
            && ((mask == {} && s.senderFd == 0 && !AnyAnnouncing(s)) || (!atomic && |mask| >= 2))
  {
    if mask == {} && !Leftover(s) {
      EmptyMaskHangs(n, atomic, before, s, message);
    } else if ValidMask(n, mask) && !atomic && |mask| >= 2 {
      LostUpdateHangs(n, before, s, mask, message);
    }
    forall steps | HangsUnder(n, atomic, s, mask, message, steps)
      ensures ValidMask(n, mask) && ((mask == {} && !Leftover(s)) || (!atomic && |mask| >= 2))
    {
      HangNeeds(n, atomic, before, s, mask, message, steps);
    }
  }
}
