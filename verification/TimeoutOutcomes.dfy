/**
 What comes of the timeout demonstration's attempts: when a trylock succeeds, why a thread gives up, and
 that threads which lock in the same order never do.
 */
module TimeoutOutcomes {
  import opened Deadlock
  import opened TimeoutLocks

  /** The mutex the thread tries for is held by somebody else. */
  predicate HeldByAnother(bodies: seq<Body>, s: State, t: nat)
    requires t < |bodies|
  {
    Other(bodies[t]) in s.owner && s.owner[Other(bodies[t])] != t
  }

  /** In every run, an attempt gets the second mutex exactly if nobody holds it; whoever holds it is another. */
  lemma TrySucceedsIff(bodies: seq<Body>, now: nat, steps: seq<Step>, t: nat)
    requires Valid(bodies, Begins(bodies, now), steps)
    requires var s := Exec(bodies, Begins(bodies, now), steps); CanMove(bodies, s, t) && s.phase[t].Trying?
    ensures var s := Exec(bodies, Begins(bodies, now), steps);
            var s', m := Do(bodies, s, Move(t)), Other(bodies[t]);
            && |s'.phase| == |bodies|
            && (m !in s.owner <==> s'.phase[t].HasBoth?)
            && (m !in s.owner <==> m in s'.owner && s'.owner[m] == t)
            && (m in s.owner ==> HeldByAnother(bodies, s, t) && s'.phase[t].Failed? && s'.owner == s.owner)
  {
    var s0 := Begins(bodies, now);
    assert Inv(bodies, s0);
    InvRun(bodies, s0, steps);
    var s := Exec(bodies, s0, steps);
    assert !Holds(bodies, s, t, Other(bodies[t]));
  }

  /** What thread t's last attempt in the run found; before the first one, what was passed in. */
  predicate LastTryBlocked(bodies: seq<Body>, s: State, steps: seq<Step>, t: nat, blocked: bool)
    requires Valid(bodies, s, steps) && t < |bodies|
    decreases |steps|
  {
    if steps == [] then blocked
    else LastTryBlocked(bodies, Do(bodies, s, steps[0]), steps[1..], t,
                        if steps[0] == Move(t) && s.phase[t].Trying? then HeldByAnother(bodies, s, t) else blocked)
  }

  lemma {:induction false} BlockedRun(bodies: seq<Body>, s: State, steps: seq<Step>, t: nat, blocked: bool)
    requires Inv(bodies, s) && Valid(bodies, s, steps) && t < |bodies|
    requires s.phase[t].Failed? || s.phase[t].Napping? || s.phase[t].GaveUp? ==> blocked
    ensures var s' := Exec(bodies, s, steps);
            && |s'.phase| == |bodies|
            && (s'.phase[t].Failed? || s'.phase[t].Napping? || s'.phase[t].GaveUp? ==> LastTryBlocked(bodies, s, steps, t, blocked))
    decreases |steps|
  {
    if steps != [] {
      InvStep(bodies, s, steps[0]);
      assert s.phase[t].Trying? ==> !Holds(bodies, s, t, Other(bodies[t]));
      BlockedRun(bodies, Do(bodies, s, steps[0]), steps[1..], t,
                 if steps[0] == Move(t) && s.phase[t].Trying? then HeldByAnother(bodies, s, t) else blocked);
    }
  }

  /** Whoever has given up found the second mutex in another thread's hands at its last attempt. */
  lemma GivesUpOnlyIfBlocked(bodies: seq<Body>, now: nat, steps: seq<Step>, t: nat)
    requires Valid(bodies, Begins(bodies, now), steps) && t < |bodies|
    ensures var s := Exec(bodies, Begins(bodies, now), steps);
            |s.phase| == |bodies| && (s.phase[t].GaveUp? ==> LastTryBlocked(bodies, Begins(bodies, now), steps, t, false))
  {
    assert Inv(bodies, Begins(bodies, now));
    BlockedRun(bodies, Begins(bodies, now), steps, t, false);
  }

  /** At some moment of the run thread t works with both resources. */
  predicate UsesBoth(bodies: seq<Body>, s: State, steps: seq<Step>, t: nat)
    requires Valid(bodies, s, steps)
    decreases |steps|
  {
    || (t < |s.phase| && s.phase[t].HasBoth?)
    || (steps != [] && UsesBoth(bodies, Do(bodies, s, steps[0]), steps[1..], t))
  }

  predicate GivesUp(bodies: seq<Body>, s: State, steps: seq<Step>, t: nat)
    requires Valid(bodies, s, steps)
    decreases |steps|
  {
    || (t < |s.phase| && s.phase[t].GaveUp?)
    || (steps != [] && GivesUp(bodies, Do(bodies, s, steps[0]), steps[1..], t))
  }

  predicate Before(p: Phase) {
    p.Begin? || p.HasFirst? || p.Trying? || p.Failed? || p.Napping?
  }

  lemma {:induction false} AfterTrying(bodies: seq<Body>, s: State, steps: seq<Step>, t: nat)
    requires Valid(bodies, s, steps) && |s.phase| == |bodies| && t < |bodies| && !Before(s.phase[t])
    ensures UsesBoth(bodies, s, steps, t) ==> s.phase[t].HasBoth?
    ensures GivesUp(bodies, s, steps, t) ==> s.phase[t].GaveUp?
    ensures var s' := Exec(bodies, s, steps); |s'.phase| == |bodies| && !Before(s'.phase[t])
    decreases |steps|
  {
    if steps != [] {
      AfterTrying(bodies, Do(bodies, s, steps[0]), steps[1..], t);
    }
  }

  lemma {:induction false} DoneRun(bodies: seq<Body>, s: State, steps: seq<Step>, t: nat)
    requires Valid(bodies, s, steps) && |s.phase| == |bodies| && t < |bodies| && Before(s.phase[t])
    ensures var s' := Exec(bodies, s, steps);
            && |s'.phase| == |bodies|
            && (Before(s'.phase[t]) <==> !UsesBoth(bodies, s, steps, t) && !GivesUp(bodies, s, steps, t))
            && !(UsesBoth(bodies, s, steps, t) && GivesUp(bodies, s, steps, t))
    decreases |steps|
  {
    if steps != [] {
      var s' := Do(bodies, s, steps[0]);
      if Before(s'.phase[t]) {
        DoneRun(bodies, s', steps[1..], t);
      } else {
        AfterTrying(bodies, s', steps[1..], t);
      }
    }
  }

  /** A thread that is done has used both resources or given up, and not both. */
  lemma DoneMeansUsedOrGaveUp(bodies: seq<Body>, now: nat, steps: seq<Step>, t: nat)
    requires Valid(bodies, Begins(bodies, now), steps) && t < |bodies|
    ensures var s0 := Begins(bodies, now);
            var s := Exec(bodies, s0, steps);
            && |s.phase| == |bodies|
            && (s.phase[t].Done? ==> (UsesBoth(bodies, s0, steps, t) <==> !GivesUp(bodies, s0, steps, t)))
  {
    DoneRun(bodies, Begins(bodies, now), steps, t);
  }

  predicate SameBodies(bodies: seq<Body>) {
    forall t, u :: 0 <= t < |bodies| && 0 <= u < |bodies| ==> bodies[t] == bodies[u]
  }

  predicate Unhindered(p: Phase) {
    !p.Failed? && !p.Napping? && !p.GaveUp?
  }

  /** Threads that lock in the same order: who has the first mutex finds the second one free. */
  lemma SecondIsFree(bodies: seq<Body>, s: State, t: nat)
    requires Inv(bodies, s) && SameBodies(bodies) && t < |bodies| && s.phase[t].Trying?
    ensures Other(bodies[t]) !in s.owner
  {
    var m := Other(bodies[t]);
    assert Holds(bodies, s, t, Mine(bodies[t]));
    if m in s.owner {
      var u := s.owner[m];
      assert Holds(bodies, s, u, m);
      assert Holds(bodies, s, u, Mine(bodies[u]));
    }
  }

  lemma {:induction false} UnhinderedRun(bodies: seq<Body>, s: State, steps: seq<Step>, t: nat)
    requires Inv(bodies, s) && SameBodies(bodies) && Valid(bodies, s, steps) && t < |bodies| && Unhindered(s.phase[t])
    ensures !GivesUp(bodies, s, steps, t)
    decreases |steps|
  {
    if steps != [] {
      InvStep(bodies, s, steps[0]);
      if steps[0] == Move(t) && s.phase[t].Trying? {
        SecondIsFree(bodies, s, t);
      }
      UnhinderedRun(bodies, Do(bodies, s, steps[0]), steps[1..], t);
    }
  }

  /** Threads that all run the same body never give up, so each that is done has used both resources. */
  lemma SameOrderNeverGivesUp(bodies: seq<Body>, now: nat, steps: seq<Step>, t: nat)
    requires SameBodies(bodies) && Valid(bodies, Begins(bodies, now), steps) && t < |bodies|
    ensures var s0 := Begins(bodies, now);
            var s := Exec(bodies, s0, steps);
            && !GivesUp(bodies, s0, steps, t)
            && |s.phase| == |bodies| && (s.phase[t].Done? ==> UsesBoth(bodies, s0, steps, t))
  {
    assert Inv(bodies, Begins(bodies, now));
    UnhinderedRun(bodies, Begins(bodies, now), steps, t);
    DoneRun(bodies, Begins(bodies, now), steps, t);
  }

  // ----- When giving up is possible -----

  /** Some thread gives up in this run. */
  predicate GivesUpUnder(bodies: seq<Body>, now: nat, steps: seq<Step>, t: nat) {
    t < |bodies| && Valid(bodies, Begins(bodies, now), steps) && GivesUp(bodies, Begins(bodies, now), steps, t)
  }

  predicate Reaches(bodies: seq<Body>, s: State, steps: seq<Step>, s': State) {
    Valid(bodies, s, steps) && Exec(bodies, s, steps) == s'
  }

  lemma First(bodies: seq<Body>, s: State, step: Step, steps: seq<Step>, s': State)
    requires Can(bodies, s, step) && Reaches(bodies, Do(bodies, s, step), steps, s')
    ensures Reaches(bodies, s, [step] + steps, s')
  {
  }

  lemma {:induction false} EndsGivenUp(bodies: seq<Body>, s: State, steps: seq<Step>, s': State, t: nat)
    requires Reaches(bodies, s, steps, s') && t < |s'.phase| && s'.phase[t].GaveUp?
    ensures GivesUp(bodies, s, steps, t)
    decreases |steps|
  {
    if steps != [] {
      EndsGivenUp(bodies, Do(bodies, s, steps[0]), steps[1..], s', t);
    }
  }

  /** Each takes its own mutex, and t tries for the other's until its time is up. */
  lemma Contend(bodies: seq<Body>, now: nat, t: nat, u: nat) returns (steps: seq<Step>)
    requires t < |bodies| && u < |bodies| && bodies[t] != bodies[u]
    ensures GivesUpUnder(bodies, now, steps, t)
  {
    var s0 := Begins(bodies, now);
    var s1 := Do(bodies, s0, Move(t));
    var s2 := Do(bodies, s1, Move(u));
    var s3 := Do(bodies, s2, Move(t));
    var s4 := Do(bodies, s3, Move(t));
    var s5 := Do(bodies, s4, Tick(3000));
    var s6 := Do(bodies, s5, Move(t));
    assert (now + 3000) / 1000 - now / 1000 >= TIMEOUT_SECONDS;
    assert Reaches(bodies, s6, [], s6);
    First(bodies, s5, Move(t), [], s6);
    steps := [Move(t)];
    First(bodies, s4, Tick(3000), steps, s6);
    steps := [Tick(3000)] + steps;
    First(bodies, s3, Move(t), steps, s6);
    steps := [Move(t)] + steps;
    First(bodies, s2, Move(t), steps, s6);
    steps := [Move(t)] + steps;
    First(bodies, s1, Move(u), steps, s6);
    steps := [Move(u)] + steps;
    First(bodies, s0, Move(t), steps, s6);
    steps := [Move(t)] + steps;
    EndsGivenUp(bodies, s0, steps, s6, t);
  }

  lemma BothOrSame(bodies: seq<Body>)
    ensures SameBodies(bodies) <==> !(Thread1 in bodies && Thread2 in bodies)
  {
    if Thread1 in bodies && Thread2 in bodies {
      var t: nat :| t < |bodies| && bodies[t] == Thread1;
      var u: nat :| u < |bodies| && bodies[u] == Thread2;
      assert bodies[t] != bodies[u];
    }
  }

  /** Giving up is possible exactly when the two bodies, which lock in opposite orders, both occur. */
  lemma GivingUpPossibleIff(bodies: seq<Body>, now: nat)
    ensures (exists steps, t :: GivesUpUnder(bodies, now, steps, t)) <==> Thread1 in bodies && Thread2 in bodies
  {
    if Thread1 in bodies && Thread2 in bodies {
      var t: nat :| t < |bodies| && bodies[t] == Thread1;
      var u: nat :| u < |bodies| && bodies[u] == Thread2;
      var steps := Contend(bodies, now, t, u);
    }
    forall steps, t | GivesUpUnder(bodies, now, steps, t) ensures !SameBodies(bodies) {
      if SameBodies(bodies) {
        SameOrderNeverGivesUp(bodies, now, steps, t);
      }
    }
    BothOrSame(bodies);
  }
}
