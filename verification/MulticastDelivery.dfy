/**
 What the multicast delivers, compared with what was typed at T1's prompt: the lines of the schedule
 itself, not what T1 made of them.
 */
module MulticastDelivery {
  import opened Multicast

  /** The lines typed in a schedule whose mask was accepted, in order. */
  function TypedRounds(n: nat, steps: seq<Step>): seq<Round> {
    if steps == [] then []
    else
      (if steps[0].Input? && ValidMask(n, steps[0].mask) then [Round(steps[0].mask, steps[0].message)] else [])
      + TypedRounds(n, steps[1..])
  }

  /** The round T1 has read but not yet posted. */
  function Unposted(s: State): seq<Round> {
    if s.sender.Posting? then [Round(s.sender.mask, s.message)] else []
  }

  lemma {:induction false} RoundsAreTyped(n: nat, atomic: bool, s: State, steps: seq<Step>)
    requires Valid(n, atomic, s, steps)
    ensures var s' := Exec(n, atomic, s, steps);
            s'.rounds + Unposted(s') == s.rounds + Unposted(s) + TypedRounds(n, steps)
    decreases |steps|
  {
    if steps != [] {
      RoundsAreTyped(n, atomic, Do(n, atomic, s, steps[0]), steps[1..]);
    }
  }

  /** The rounds posted are the lines typed, but for the last while T1 is about to post it. */
  lemma PostedIsTyped(n: nat, atomic: bool, steps: seq<Step>)
    requires Valid(n, atomic, Start(n), steps)
    ensures var s, typed := Exec(n, atomic, Start(n), steps), TypedRounds(n, steps);
            if s.sender.Posting? then typed != [] && s.rounds == typed[..|typed| - 1] else s.rounds == typed
  {
    RoundsAreTyped(n, atomic, Start(n), steps);
    var s, typed := Exec(n, atomic, Start(n), steps), TypedRounds(n, steps);
    assert s.rounds + Unposted(s) == typed;
    if s.sender.Posting? {
      assert typed[..|typed| - 1] == s.rounds;
    }
  }

  /** T1 leaves its loop exactly when exit is typed, and reads nothing more. */
  lemma {:induction false} QuitsIff(n: nat, atomic: bool, s: State, steps: seq<Step>)
    requires Valid(n, atomic, s, steps) && !s.sender.Quit?
    ensures Exec(n, atomic, s, steps).sender.Quit? <==> exists k :: 0 <= k < |steps| && steps[k].Exit?
    ensures forall k, m :: 0 <= k < m < |steps| && steps[k].Exit? ==> steps[m].Rx?
    decreases |steps|
  {
    if steps != [] {
      var s', rest := Do(n, atomic, s, steps[0]), steps[1..];
      if steps[0].Exit? {
        QuitStays(n, atomic, s', rest);
        assert forall m :: 1 <= m < |steps| ==> steps[m] == rest[m - 1];
      } else {
        QuitsIff(n, atomic, s', rest);
        assert forall k :: 1 <= k < |steps| ==> steps[k] == rest[k - 1];
        assert forall k :: 0 <= k < |rest| ==> rest[k] == steps[k + 1];
      }
    }
  }

  lemma {:induction false} QuitStays(n: nat, atomic: bool, s: State, steps: seq<Step>)
    requires Valid(n, atomic, s, steps) && s.sender.Quit?
    ensures Exec(n, atomic, s, steps).sender.Quit? && forall m :: 0 <= m < |steps| ==> steps[m].Rx?
    decreases |steps|
  {
    if steps != [] {
      QuitStays(n, atomic, Do(n, atomic, s, steps[0]), steps[1..]);
      assert forall m :: 1 <= m < |steps| ==> steps[m] == steps[1..][m - 1];
    }
  }

  // ----- Theorems over every run -----

  /**
   Exactly-once, in-order delivery, split OR or not: whenever T1 is back at its prompt, every
   receiver has read exactly the messages that were typed for it, none is still in the middle of one,
   and so overwriting message and mask disturbs nobody. While a round is on, a receiver is behind by
   that round's message at most, and the message is still in place.
   */
  lemma MulticastSafety(n: nat, atomic: bool, steps: seq<Step>, i: nat)
    requires Valid(n, atomic, Start(n), steps) && i < n
    ensures var s, typed := Exec(n, atomic, Start(n), steps), TypedRounds(n, steps);
            && Shape(n, s)
            && (!InRound(s.sender) && !s.sender.Posting? ==>
                  s.log[i] == Addressed(typed, i) && Quiet(s.receiver[i]) && s.receiverFd[i] == 0)
            && (s.sender.Posting? ==>
                  typed != [] && s.log[i] == Addressed(typed[..|typed| - 1], i) && Quiet(s.receiver[i]) && s.receiverFd[i] == 0)
            && (InRound(s.sender) ==>
                  s.log[i] == Addressed(typed, i) || s.log[i] + [s.message] == Addressed(typed, i))
            && (InRound(s.sender) && i in s.sender.mask && s.receiver[i].Targeted? ==>
                  s.log[i] + [s.message] == Addressed(typed, i))
  {
    assert Inv(n, atomic, Start(n));
    RunKeeps(n, atomic, Start(n), steps);
    PostedIsTyped(n, atomic, steps);
    assert ReceiverOk(n, Exec(n, atomic, Start(n), steps), i);
  }
}
