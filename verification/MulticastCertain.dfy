/**
 When is a hang of the multicast certain? At every prompt of every run: exactly when the bitmask is empty
 and no late signal of an earlier round is left to wake T1. Every other round can be served, by letting
 the receivers acknowledge one after the other.
 */
module MulticastCertain {
  import opened Multicast
  import opened MulticastHang

  /** The line typed at the prompt, carried on by steps of T1 and the receivers until none is possible. */
  ghost predicate RunsOut(n: nat, atomic: bool, s: State, mask: set<nat>, message: int, steps: seq<Step>) {
    && Inputs(steps) == 0 && Can(n, s, Input(mask, message))
    && Valid(n, atomic, Do(n, atomic, s, Input(mask, message)), steps)
    && Idle(n, Exec(n, atomic, Do(n, atomic, s, Input(mask, message)), steps))
  }

  ghost predicate Idle(n: nat, s: State) {
    !Can(n, s, T1) && forall i :: !Can(n, s, Rx(i))
  }

  // ----- An empty mask with nothing left over -----

  /** T1 is on its way to a wait that nobody will end. */
  predicate Doomed(n: nat, s: State) {
    && Shape(n, s) && s.senderFd == 0
    && (s.sender.Posting? || s.sender.Clearing? || s.sender.Signalling? || s.sender.Waiting?) && s.sender.mask == {}
    && forall i :: 0 <= i < n ==> s.receiver[i].Blocked? && s.receiverFd[i] == 0
  }

  lemma {:induction false} DoomedRun(n: nat, atomic: bool, s: State, steps: seq<Step>)
    requires Doomed(n, s) && Valid(n, atomic, s, steps) && Inputs(steps) == 0
    ensures Doomed(n, Exec(n, atomic, s, steps))
    ensures Idle(n, Exec(n, atomic, s, steps)) ==> Hung(n, Exec(n, atomic, s, steps))
    decreases |steps|
  {
    if steps != [] {
      DoomedRun(n, atomic, Do(n, atomic, s, steps[0]), steps[1..]);
    }
  }

  // ----- One receiver after the other -----

  /** The receivers in served have read the message, set their bits and signalled T1. */
  function Served(n: nat, b: State, mask: set<nat>, served: set<nat>): State
    requires |b.log| == n
  {
    Stale(n, b, mask, served).(
      ack := served, senderFd := b.senderFd + |served|, receiver := seq(n, _ => Blocked))
  }

  /** One receiver's whole round, with the OR split or not. */
  lemma ServeOne(n: nat, atomic: bool, s0: State, b: State, mask: set<nat>, served: set<nat>, x: nat)
    requires Quiescent(n, b, mask) && served <= mask && x in mask - served
    requires Leads(n, atomic, s0, Served(n, b, mask, served))
    ensures Leads(n, atomic, s0, Served(n, b, mask, served + {x}))
  {
    var s := Acknowledge(n, atomic, s0, Served(n, b, mask, served), x);
    s := LeadsOn(n, atomic, s0, s, Rx(x));
    var target := Served(n, b, mask, served + {x});
    assert |served + {x}| == |served| + 1;
    assert s.log[x] == b.log[x] + [b.message];
    assert s.log == target.log && s.receiver == target.receiver && s.receiverFd == target.receiverFd;
  }

  lemma {:induction false} ServeAll(n: nat, atomic: bool, s0: State, b: State, mask: set<nat>, served: set<nat>)
    requires Quiescent(n, b, mask) && served <= mask
    requires Leads(n, atomic, s0, Served(n, b, mask, served))
    ensures Leads(n, atomic, s0, Served(n, b, mask, mask))
    decreases mask - served
  {
    if mask - served == {} {
      assert forall x :: x in mask && x !in served ==> x in mask - served;
      assert served == mask;
    } else {
      var x :| x in mask - served;
      ServeOne(n, atomic, s0, b, mask, served, x);
      ServeAll(n, atomic, s0, b, mask, served + {x});
    }
  }

  /** A round that addresses somebody can be served: T1 is back at its prompt and everybody waits. */
  lemma CanBeServed(n: nat, atomic: bool, s0: State) returns (s: State)
    requires Inv(n, atomic, s0) && s0.sender.Posting? && s0.sender.mask != {}
    ensures Leads(n, atomic, s0, s) && s.sender.Reading? && Idle(n, s)
  {
    var mask := s0.sender.mask;
    var b := TypedToWaiting(n, atomic, s0);
    assert Stale(n, b, mask, {}) == Served(n, b, mask, {});
    ServeAll(n, atomic, s0, b, mask, {});
    var s1 := LeadsOn(n, atomic, s0, Served(n, b, mask, mask), T1);
    s := LeadsOn(n, atomic, s0, s1, T1);
  }

  // ----- Every run can be run out -----

  lemma {:induction false} RunOut(n: nat, atomic: bool, s0: State, s: State) returns (s': State)
    requires Leads(n, atomic, s0, s) && Shape(n, s)
    ensures Leads(n, atomic, s0, s') && Idle(n, s')
    decreases Work(n, s)
  {
    if Can(n, s, T1) {
      s' := LeadsOn(n, atomic, s0, s, T1);
      WorkSender(n, s);
      s' := RunOut(n, atomic, s0, s');
    } else if i: nat :| Can(n, s, Rx(i)) {
      s' := LeadsOn(n, atomic, s0, s, Rx(i));
      WorkReceiver(n, atomic, s, i);
      s' := RunOut(n, atomic, s0, s');
    } else {
      s' := s;
    }
  }

  // ----- The theorem -----

  lemma EscapeRunsOut(n: nat, atomic: bool, s: State, mask: set<nat>, message: int, e: State)
    requires Can(n, s, Input(mask, message)) && Idle(n, e) && !Hung(n, e)
    requires Leads(n, atomic, Do(n, atomic, s, Input(mask, message)), e)
    ensures exists steps :: RunsOut(n, atomic, s, mask, message, steps) && !HangsUnder(n, atomic, s, mask, message, steps)
  {
    var steps :| Reaches(n, atomic, Do(n, atomic, s, Input(mask, message)), steps, e);
    assert RunsOut(n, atomic, s, mask, message, steps);
  }

  /** A mask that is refused, or empty but with a signal left over: every way of running out escapes. */
  lemma RescuedEscapes(n: nat, atomic: bool, s: State, mask: set<nat>, message: int, s0: State)
    requires Can(n, s, Input(mask, message)) && s0 == Do(n, atomic, s, Input(mask, message))
    requires Inv(n, atomic, s0) && Rescued(s0)
    ensures exists steps :: RunsOut(n, atomic, s, mask, message, steps) && !HangsUnder(n, atomic, s, mask, message, steps)
  {
    LeadsNowhere(n, atomic, s0);
    var e := RunOut(n, atomic, s0, s0);
    var steps :| Reaches(n, atomic, s0, steps, e);
    RescuedRun(n, atomic, s0, steps);
    EscapeRunsOut(n, atomic, s, mask, message, e);
  }

  /**
   At every prompt of every run, the line typed next hangs T1 however the threads are scheduled, exactly
   when its mask is empty and no signal of an earlier round is still counted or to come.
   */
  lemma HangCertainIff(n: nat, atomic: bool, before: seq<Step>, s: State, mask: set<nat>, message: int)
    requires Prompt(n, atomic, before, s)
    ensures (forall steps :: RunsOut(n, atomic, s, mask, message, steps) ==> HangsUnder(n, atomic, s, mask, message, steps))
            <==> mask == {} && s.senderFd == 0 && !AnyAnnouncing(s)
  {
    var s0 := Typed(n, atomic, before, s, mask, message);
    if mask == {} && !Leftover(s) {
      forall i | 0 <= i < n ensures s0.receiver[i].Blocked? && s0.receiverFd[i] == 0 {
        assert ReceiverOk(n, s0, i);
      }
      forall steps | RunsOut(n, atomic, s, mask, message, steps) ensures HangsUnder(n, atomic, s, mask, message, steps) {
        DoomedRun(n, atomic, s0, steps);
      }
    } else if !ValidMask(n, mask) || mask == {} {
      RescuedEscapes(n, atomic, s, mask, message, s0);
    } else {
      var e := CanBeServed(n, atomic, s0);
      EscapeRunsOut(n, atomic, s, mask, message, e);
    }
  }
}
