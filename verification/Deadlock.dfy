/**
 The lock-ordering demonstration of lesson 9, for any number of threads running either of the two
 bodies. Mutex 0 is resource_A and mutex 1 is resource_B.
 */
module Deadlock {
  import opened LockPrograms

  const A: nat := 0
  const B: nat := 1

  datatype Body = Thread1 | Thread2

  /** The mutex operations of thread1_function and thread2_function in the two modes. */
  function ProgramOf(body: Body, prevention: bool): Program {
    if body.Thread1? || prevention
    then [Lock(A), Lock(B), Unlock(B), Unlock(A)]
    else [Lock(B), Lock(A), Unlock(A), Unlock(B)]
  }

  function Programs(bodies: seq<Body>, prevention: bool): seq<Program> {
    seq(|bodies|, t requires 0 <= t < |bodies| => ProgramOf(bodies[t], prevention))
  }

  function First(body: Body, prevention: bool): nat {
    if body.Thread1? || prevention then A else B
  }

  /** What a thread holds, position by position. */
  lemma BodyHolds(body: Body, prevention: bool)
    ensures var p, f := ProgramOf(body, prevention), First(body, prevention);
            && HeldAt(p, 0) == {} && HeldAt(p, 1) == {f} && HeldAt(p, 2) == {A, B}
            && HeldAt(p, 3) == {f} && HeldAt(p, 4) == {}
            && WellBracketed(p)
            && (f == A ==> Hierarchical(p))
  {
  }

  lemma AllHierarchicalWithPrevention(bodies: seq<Body>)
    ensures AllHierarchical(Programs(bodies, true))
  {
    var progs := Programs(bodies, true);
    forall t | 0 <= t < |progs| ensures Hierarchical(progs[t]) {
      BodyHolds(bodies[t], true);
    }
  }

  /** Nothing is left to do exactly when every thread is at its end. */
  lemma FinishedIffNothingLeft(progs: seq<Program>, s: State)
    requires InRange(progs, s)
    ensures Finished(progs, s) <==> Sums.Sum(Left(progs, s)) == 0
  {
    var left := Left(progs, s);
    if Finished(progs, s) {
      Sums.SumUniform(left, 0);
    }
    if Sums.Sum(left) == 0 {
      Sums.SumZero(left);
      assert forall t :: 0 <= t < |progs| ==> |progs[t]| - s.pc[t] == left[t];
    }
  }

  /** With prevention on, every interleaving runs to the end and leaves both mutexes free. */
  lemma PreventionNeverDeadlocks(bodies: seq<Body>, sched: seq<nat>)
    requires Valid(Programs(bodies, true), Start(Programs(bodies, true)), sched)
    ensures var progs := Programs(bodies, true);
            var s := Exec(progs, Start(progs), sched);
            && !Stuck(progs, s)
            && (Finished(progs, s) <==> |sched| == 4 * |bodies|)
            && (Finished(progs, s) ==> s.owner == map[])
  {
    var progs := Programs(bodies, true);
    AllHierarchicalWithPrevention(bodies);
    HierarchyNeverStuck(progs, sched);
    RunLength(progs, Start(progs), sched);
    FinishedIffNothingLeft(progs, Exec(progs, Start(progs), sched));
    WorkAtStart(bodies, true);
  }

  lemma WorkAtStart(bodies: seq<Body>, prevention: bool)
    ensures var progs := Programs(bodies, prevention);
            Sums.Sum(Left(progs, Start(progs))) == 4 * |bodies|
  {
    var progs := Programs(bodies, prevention);
    Sums.SumUniform(Left(progs, Start(progs)), 4);
  }

  /** Thread t holds mutex h and wants mutex m. */
  predicate HoldsWants(bodies: seq<Body>, s: State, t: nat, h: nat, m: nat)
    requires InRange(Programs(bodies, false), s)
  {
    t < |bodies| && s.pc[t] == 1 && First(bodies[t], false) == h && h + m == A + B
  }

  ghost predicate Cycle(bodies: seq<Body>, s: State)
    requires InRange(Programs(bodies, false), s)
  {
    exists t: nat, u: nat :: HoldsWants(bodies, s, t, A, B) && HoldsWants(bodies, s, u, B, A)
  }

  lemma UnorderedOwned(bodies: seq<Body>, sched: seq<nat>)
    requires Valid(Programs(bodies, false), Start(Programs(bodies, false)), sched)
    ensures var progs := Programs(bodies, false);
            AllBracketed(progs) && Owned(progs, Exec(progs, Start(progs), sched))
  {
    var progs := Programs(bodies, false);
    forall t | 0 <= t < |progs| ensures WellBracketed(progs[t]) {
      BodyHolds(bodies[t], false);
    }
    ReachedOwned(progs, sched);
  }

  /** In a stuck state the owner of either mutex has just that one and waits for the other. */
  lemma StuckOwnerWaits(bodies: seq<Body>, s: State, m: nat)
    requires Owned(Programs(bodies, false), s) && Stuck(Programs(bodies, false), s)
    requires m == A || m == B
    requires m in s.owner
    ensures HoldsWants(bodies, s, s.owner[m], m, A + B - m) && (A + B - m) in s.owner
  {
    var progs, t := Programs(bodies, false), s.owner[m];
    assert Holds(progs, s, t, m);
    BodyHolds(bodies[t], false);
    assert !Can(progs, s, t);
  }

  lemma StuckHasCycle(bodies: seq<Body>, s: State)
    requires Owned(Programs(bodies, false), s) && Stuck(Programs(bodies, false), s)
    ensures Cycle(bodies, s)
  {
    var progs := Programs(bodies, false);
    var t: nat :| t < |progs| && s.pc[t] != |progs[t]|;
    assert !Can(progs, s, t);
    var m := progs[t][s.pc[t]].m;
    StuckOwnerWaits(bodies, s, m);
    StuckOwnerWaits(bodies, s, A + B - m);
    assert HoldsWants(bodies, s, s.owner[A], A, B);
  }

  /** Without prevention, stuck is exactly: one thread holds A and wants B, another holds B and wants A. */
  lemma StuckIffCycle(bodies: seq<Body>, sched: seq<nat>)
    requires Valid(Programs(bodies, false), Start(Programs(bodies, false)), sched)
    ensures var progs := Programs(bodies, false);
            var s := Exec(progs, Start(progs), sched);
            Stuck(progs, s) <==> Cycle(bodies, s)
  {
    var progs := Programs(bodies, false);
    var s := Exec(progs, Start(progs), sched);
    UnorderedOwned(bodies, sched);
    if Stuck(progs, s) {
      StuckHasCycle(bodies, s);
    }
    if Cycle(bodies, s) {
      CycleIsStuck(bodies, s);
    }
  }

  lemma CycleNeedsBoth(bodies: seq<Body>, s: State)
    requires InRange(Programs(bodies, false), s) && Cycle(bodies, s)
    ensures Thread1 in bodies && Thread2 in bodies
  {
  }

  lemma CycleIsStuck(bodies: seq<Body>, s: State)
    requires Owned(Programs(bodies, false), s) && Cycle(bodies, s)
    ensures Stuck(Programs(bodies, false), s)
  {
    var progs := Programs(bodies, false);
    var t: nat, u: nat :| HoldsWants(bodies, s, t, A, B) && HoldsWants(bodies, s, u, B, A);
    BodyHolds(bodies[t], false);
    BodyHolds(bodies[u], false);
    assert Holds(progs, s, t, A) && Holds(progs, s, u, B);
    forall v: nat ensures !Can(progs, s, v) {
      if v < |bodies| && s.pc[v] < 4 {
        BodyHolds(bodies[v], false);
        assert Holds(progs, s, v, A) ==> v == t;
        assert Holds(progs, s, v, B) ==> v == u;
      }
    }
    assert s.pc[t] != |progs[t]|;
  }

  ghost predicate DeadlocksUnder(bodies: seq<Body>, sched: seq<nat>) {
    var progs := Programs(bodies, false);
    Valid(progs, Start(progs), sched) && Stuck(progs, Exec(progs, Start(progs), sched))
  }

  /** Some interleaving deadlocks exactly when both bodies are present. */
  lemma DeadlockPossibleIff(bodies: seq<Body>)
    ensures (exists sched :: DeadlocksUnder(bodies, sched)) <==> Thread1 in bodies && Thread2 in bodies
  {
    if Thread1 in bodies && Thread2 in bodies {
      var t: nat :| t < |bodies| && bodies[t] == Thread1;
      var u: nat :| u < |bodies| && bodies[u] == Thread2;
      TwoStepsDeadlock(bodies, t, u);
    }
    forall sched | DeadlocksUnder(bodies, sched)
      ensures Thread1 in bodies && Thread2 in bodies
    {
      StuckIffCycle(bodies, sched);
      CycleNeedsBoth(bodies, Exec(Programs(bodies, false), Start(Programs(bodies, false)), sched));
    }
  }

  lemma TwoStepsDeadlock(bodies: seq<Body>, t: nat, u: nat)
    requires t < |bodies| && u < |bodies| && bodies[t] == Thread1 && bodies[u] == Thread2
    ensures DeadlocksUnder(bodies, [t, u])
  {
    var progs := Programs(bodies, false);
    var s0 := Start(progs);
    var s1 := Do(progs, s0, t);
    assert Can(progs, s1, u);
    var s2 := Do(progs, s1, u);
    assert [t, u][1..] == [u] && [u][1..] == [];
    assert Valid(progs, s1, [u]);
    assert Exec(progs, s1, [u]) == s2;
    assert Exec(progs, s0, [t, u]) == s2;
    assert HoldsWants(bodies, s2, t, A, B) && HoldsWants(bodies, s2, u, B, A);
    StuckIffCycle(bodies, [t, u]);
  }
}
