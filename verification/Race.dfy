/**
 The race demonstration of lesson 9, for any number of threads and iterations: each iteration of
 increment_counter is a load of the shared counter followed by a store of the loaded value plus
 one, with any other thread's steps in between.
 */
module Race {
  import opened Sums

  datatype Register = Empty | Loaded(value: nat)

  datatype State = State(counter: nat, done: seq<nat>, reg: seq<Register>)

  datatype Step = Load(t: nat) | Store(t: nat)

  function Start(threads: nat): State {
    State(0, seq(threads, _ => 0), seq(threads, _ => Empty))
  }

  predicate Can(n: nat, s: State, step: Step) {
    && step.t < |s.done| == |s.reg|
    && s.done[step.t] < n
    && (step.Load? <==> s.reg[step.t].Empty?)
  }

  function Do(n: nat, s: State, step: Step): State
    requires Can(n, s, step)
  {
    match step
    case Load(t) => s.(reg := s.reg[t := Loaded(s.counter)])
    case Store(t) => State(s.reg[t].value + 1, s.done[t := s.done[t] + 1], s.reg[t := Empty])
  }

  predicate Valid(n: nat, s: State, steps: seq<Step>)
    decreases |steps|
  {
    steps == [] || (Can(n, s, steps[0]) && Valid(n, Do(n, s, steps[0]), steps[1..]))
  }

  function Exec(n: nat, s: State, steps: seq<Step>): State
    requires Valid(n, s, steps)
    decreases |steps|
  {
    if steps == [] then s else Exec(n, Do(n, s, steps[0]), steps[1..])
  }

  predicate Complete(n: nat, s: State) {
    forall t :: 0 <= t < |s.done| ==> s.done[t] == n
  }

  // ----- Bounds on every run -----

  predicate Shape(n: nat, s: State) {
    && |s.done| == |s.reg|
    && (forall t :: 0 <= t < |s.done| ==> s.done[t] <= n && (s.done[t] == n ==> s.reg[t].Empty?))
  }

  /** Nothing in memory or in a register exceeds the number of stores so far. */
  predicate Upper(s: State) {
    && s.counter <= Sum(s.done)
    && (forall t :: 0 <= t < |s.reg| && s.reg[t].Loaded? ==> s.reg[t].value <= Sum(s.done))
  }

  /** After a store the counter is positive; so is whatever a thread loads after its own first store. */
  predicate Lower(n: nat, s: State)
    requires |s.done| == |s.reg|
  {
    && (Sum(s.done) > 0 ==> s.counter >= 1)
    && (forall t :: 0 <= t < |s.reg| && s.reg[t].Loaded? && s.done[t] >= 1 ==> s.reg[t].value >= 1)
    && (Complete(n, s) && |s.done| > 0 && n >= 2 ==> s.counter >= 2)
  }

  predicate Inv(n: nat, s: State) {
    Shape(n, s) && Upper(s) && Lower(n, s)
  }

  lemma InvStep(n: nat, s: State, step: Step)
    requires Inv(n, s) && Can(n, s, step)
    ensures Inv(n, Do(n, s, step))
  {
    var t := step.t;
    SumUpdate(s.done, t, s.done[t] + 1);
    if step.Load? {
      SumAtLeast(s.done, t);
    }
    var s' := Do(n, s, step);
    assert Complete(n, s') ==> s'.done[t] == n;
  }

  lemma {:induction false} InvRun(n: nat, s: State, steps: seq<Step>)
    requires Inv(n, s) && Valid(n, s, steps)
    ensures Inv(n, Exec(n, s, steps)) && |Exec(n, s, steps).done| == |s.done|
    decreases |steps|
  {
    if steps != [] {
      InvStep(n, s, steps[0]);
      InvRun(n, Do(n, s, steps[0]), steps[1..]);
    }
  }

  /** Whatever the interleaving, a complete run ends between min(n, 2) and threads * n. */
  lemma RacyBounds(threads: nat, n: nat, steps: seq<Step>)
    requires threads >= 1 && Valid(n, Start(threads), steps) && Complete(n, Exec(n, Start(threads), steps))
    ensures var final := Exec(n, Start(threads), steps).counter;
            (if n < 2 then n else 2) <= final <= threads * n
  {
    var s0 := Start(threads);
    SumUniform(s0.done, 0);
    assert n >= 2 ==> s0.done[0] != n;
    InvRun(n, s0, steps);
    SumUniform(Exec(n, s0, steps).done, n);
  }

  // ----- Runs that reach a given value -----

  predicate Reaches(n: nat, s: State, steps: seq<Step>, s': State) {
    Valid(n, s, steps) && Exec(n, s, steps) == s'
  }

  ghost predicate Leads(n: nat, s: State, s': State) {
    exists steps :: Reaches(n, s, steps, s')
  }

  lemma LeadsStep(n: nat, s: State, step: Step)
    requires Can(n, s, step)
    ensures Leads(n, s, Do(n, s, step))
  {
    var steps, s' := [step], Do(n, s, step);
    assert steps[0] == step && steps[1..] == [];
    assert Valid(n, s', []) && Exec(n, s', []) == s';
    assert Reaches(n, s, steps, s');
  }

  lemma LeadsNowhere(n: nat, s: State)
    ensures Leads(n, s, s)
  {
    assert Reaches(n, s, [], s);
  }

  lemma {:induction false} ReachesThen(n: nat, s: State, a: seq<Step>, s': State, b: seq<Step>, s'': State)
    requires Reaches(n, s, a, s') && Reaches(n, s', b, s'')
    ensures Reaches(n, s, a + b, s'')
    decreases |a|
  {
    if a == [] {
      assert a + b == b;
    } else {
      ReachesThen(n, Do(n, s, a[0]), a[1..], s', b, s'');
      assert (a + b)[1..] == a[1..] + b;
    }
  }

  lemma LeadsThen(n: nat, s: State, s': State, s'': State)
    requires Leads(n, s, s') && Leads(n, s', s'')
    ensures Leads(n, s, s'')
  {
    var a :| Reaches(n, s, a, s');
    var b :| Reaches(n, s', b, s'');
    ReachesThen(n, s, a, s', b, s'');
  }

  /** A run from s0 carried on by one step. */
  lemma LeadsOn(n: nat, s0: State, s: State, step: Step) returns (s': State)
    requires Leads(n, s0, s) && Can(n, s, step)
    ensures Leads(n, s0, s') && s' == Do(n, s, step)
  {
    s' := Do(n, s, step);
    LeadsStep(n, s, step);
    LeadsThen(n, s0, s, s');
  }

  /** Thread t makes k undisturbed iterations. */
  function Advanced(s: State, t: nat, k: nat): State
    requires t < |s.done|
  {
    s.(counter := s.counter + k, done := s.done[t := s.done[t] + k])
  }

  lemma {:induction false} Solo(n: nat, s: State, t: nat, k: nat)
    requires t < |s.done| == |s.reg| && s.reg[t].Empty? && s.done[t] + k <= n
    ensures Leads(n, s, Advanced(s, t, k))
    decreases k
  {
    if k == 0 {
      LeadsNowhere(n, s);
      assert Advanced(s, t, 0) == s;
    } else {
      LeadsNowhere(n, s);
      var s1 := LeadsOn(n, s, s, Load(t));
      var s2 := LeadsOn(n, s, s1, Store(t));
      assert s2 == Advanced(s, t, 1);
      Solo(n, s2, t, k - 1);
      assert Advanced(s2, t, k - 1) == Advanced(s, t, k);
      LeadsThen(n, s, s2, Advanced(s, t, k));
    }
  }

  /** A run from s0 carried on by k undisturbed iterations of thread t. */
  lemma SoloOn(n: nat, s0: State, s: State, t: nat, k: nat) returns (s': State)
    requires Leads(n, s0, s) && t < |s.done| == |s.reg| && s.reg[t].Empty? && s.done[t] + k <= n
    ensures Leads(n, s0, s') && s' == Advanced(s, t, k)
  {
    s' := Advanced(s, t, k);
    Solo(n, s, t, k);
    LeadsThen(n, s0, s, s');
  }

  /** Threads from..|done| run to the end one after the other, the others standing still. */
  lemma {:induction false} FinishFrom(n: nat, s: State, from: nat) returns (s': State)
    requires from <= |s.done| == |s.reg|
    requires forall t :: from <= t < |s.done| ==> s.reg[t].Empty? && s.done[t] <= n
    ensures Leads(n, s, s') && s'.reg == s.reg && |s'.done| == |s.done|
    ensures s'.done[..from] == s.done[..from]
    ensures forall t :: from <= t < |s.done| ==> s'.done[t] == n
    ensures s'.counter + Sum(s.done) == s.counter + Sum(s'.done)
    decreases |s.done| - from
  {
    if from == |s.done| {
      LeadsNowhere(n, s);
      return s;
    }
    var k := n - s.done[from];
    Solo(n, s, from, k);
    var mid := Advanced(s, from, k);
    SumUpdate(s.done, from, n);
    s' := FinishFrom(n, mid, from + 1);
    LeadsThen(n, s, mid, s');
    assert s'.done[..from] == s'.done[..from + 1][..from];
    assert s'.done[from] == s'.done[..from + 1][from];
  }

  ghost predicate CanEndAt(threads: nat, n: nat, v: nat) {
    exists s :: Leads(n, Start(threads), s) && Complete(n, s) && s.counter == v
  }

  /** Every iteration undisturbed: nothing is lost. */
  lemma NothingLost(threads: nat, n: nat)
    ensures CanEndAt(threads, n, threads * n)
  {
    var s0 := Start(threads);
    var s := FinishFrom(n, s0, 0);
    SumUniform(s0.done, 0);
    SumUniform(s.done, n);
    assert Leads(n, s0, s) && Complete(n, s) && s.counter == threads * n;
  }

  /** Every iteration but the last one of threads 0 and 1, undisturbed. */
  lemma OneShort(threads: nat, n: nat) returns (s: State)
    requires threads >= 2 && n >= 1
    ensures Leads(n, Start(threads), s) && s.reg == Start(threads).reg && |s.done| == threads
    ensures s.done[0] == s.done[1] == n - 1 && s.counter == Sum(s.done)
    ensures forall t :: 2 <= t < threads ==> s.done[t] == n
  {
    var s0 := Start(threads);
    SumUniform(s0.done, 0);
    var s1 := FinishFrom(n, s0, 2);
    assert s1.done[0] == s1.done[..2][0] == 0 && s1.done[1] == s1.done[..2][1] == 0;
    var s2 := SoloOn(n, s0, s1, 0, n - 1);
    SumUpdate(s1.done, 0, n - 1);
    s := SoloOn(n, s0, s2, 1, n - 1);
    SumUpdate(s2.done, 1, n - 1);
  }

  /** The last iterations of threads 0 and 1 overlap: one increment is lost. */
  lemma OneLost(threads: nat, n: nat)
    requires threads >= 2 && n >= 1
    ensures CanEndAt(threads, n, threads * n - 1)
  {
    var s0 := Start(threads);
    var s1 := OneShort(threads, n);
    var s := Overlap(n, s0, s1);
    SumUpdate(s1.done, 0, n);
    SumUpdate(s1.done[0 := n], 1, n);
    SumUniform(s.done, n);
    assert Leads(n, s0, s) && Complete(n, s) && s.counter == threads * n - 1;
  }

  /** Two threads load before either stores. */
  lemma Overlap(n: nat, s0: State, s: State) returns (s': State)
    requires Leads(n, s0, s) && |s.done| == |s.reg| >= 2
    requires s.done[0] < n && s.done[1] < n && s.reg[0].Empty? && s.reg[1].Empty?
    ensures Leads(n, s0, s') && s'.counter == s.counter + 1
    ensures s'.done == s.done[0 := s.done[0] + 1][1 := s.done[1] + 1]
  {
    var a := LeadsOn(n, s0, s, Load(0));
    var b := LeadsOn(n, s0, a, Load(1));
    var c := LeadsOn(n, s0, b, Store(0));
    s' := LeadsOn(n, s0, c, Store(1));
  }

  /** Room for undisturbed iterations that leave threads 0 and 1 at least two each. */
  function Room(threads: nat, n: nat): seq<nat>
    requires threads >= 2 && n >= 2
  {
    seq(threads, t => if t < 2 then n - 2 else n)
  }

  lemma RoomSum(threads: nat, n: nat)
    requires threads >= 2 && n >= 2
    ensures Sum(Room(threads, n)) == threads * n - 4
  {
    var full := seq(threads, _ => n);
    SumUniform(full, n);
    SumUpdate(full, 0, n - 2);
    SumUpdate(full[0 := n - 2], 1, n - 2);
    assert Room(threads, n) == full[0 := n - 2][1 := n - 2];
  }

  lemma {:induction false} Prelude(threads: nat, n: nat, k: nat) returns (s: State)
    requires threads >= 2 && n >= 2 && k + 4 <= threads * n
    ensures Leads(n, Start(threads), s) && s.reg == Start(threads).reg && |s.done| == threads
    ensures s.counter == k == Sum(s.done)
    ensures forall t :: 0 <= t < threads ==> s.done[t] <= Room(threads, n)[t]
  {
    var s0 := Start(threads);
    if k == 0 {
      LeadsNowhere(n, s0);
      SumUniform(s0.done, 0);
      return s0;
    }
    var p := Prelude(threads, n, k - 1);
    var room := Room(threads, n);
    RoomSum(threads, n);
    if forall t :: 0 <= t < threads ==> p.done[t] >= room[t] {
      SumMonotone(room, p.done);
      assert false;
    }
    var t: nat :| t < threads && p.done[t] < room[t];
    s := SoloOn(n, s0, p, t, 1);
    SumUpdate(p.done, t, p.done[t] + 1);
  }

  /**
   From k undisturbed increments to a final value of k + 2: thread 0 loads k and sits on it while
   all others run, thread 1 up to its last iteration; thread 0's store throws that away, thread 1
   loads k + 1 and sits on it while thread 0 finishes; thread 1's store throws that away too.
   */
  lemma AllButTwoLost(threads: nat, n: nat, k: nat)
    requires threads >= 2 && n >= 2 && k + 4 <= threads * n
    ensures CanEndAt(threads, n, k + 2)
  {
    var s0 := Start(threads);
    var s1 := Prelude(threads, n, k);
    var s2 := LeadsOn(n, s0, s1, Load(0));
    var s3 := FinishFrom(n, s2, 2);
    LeadsThen(n, s0, s2, s3);
    assert s3.done[0] == s3.done[..2][0] == s1.done[0] && s3.done[1] == s3.done[..2][1] == s1.done[1];
    var s4 := SoloOn(n, s0, s3, 1, n - 1 - s3.done[1]);
    var s := SecondHalf(n, s0, s4, k);
    assert Leads(n, s0, s) && Complete(n, s) && s.counter == k + 2;
  }

  lemma SecondHalf(n: nat, s0: State, s4: State, k: nat) returns (s: State)
    requires Leads(n, s0, s4) && |s4.done| == |s4.reg| >= 2
    requires s4.done[0] + 2 <= n && s4.done[1] + 1 == n && s4.reg[0] == Loaded(k) && s4.reg[1].Empty?
    requires forall t :: 2 <= t < |s4.done| ==> s4.done[t] == n
    ensures Leads(n, s0, s) && Complete(n, s) && s.counter == k + 2
  {
    var s5 := LeadsOn(n, s0, s4, Store(0));
    var s6 := LeadsOn(n, s0, s5, Load(1));
    var s7 := SoloOn(n, s0, s6, 0, n - s6.done[0]);
    s := LeadsOn(n, s0, s7, Store(1));
  }

  /** Threads below m, one iteration short of the end, all load the same value. */
  lemma {:induction false} LoadFirst(n: nat, s0: State, s: State, m: nat) returns (s': State)
    requires Leads(n, s0, s) && m <= |s.done| == |s.reg|
    requires forall t :: 0 <= t < m ==> s.reg[t].Empty? && s.done[t] + 1 == n
    ensures Leads(n, s0, s') && s'.done == s.done && s'.counter == s.counter && |s'.reg| == |s.reg|
    ensures forall t :: 0 <= t < |s.reg| ==> s'.reg[t] == if t < m then Loaded(s.counter) else s.reg[t]
    decreases m
  {
    if m == 0 {
      return s;
    }
    var s1 := LoadFirst(n, s0, s, m - 1);
    s' := LeadsOn(n, s0, s1, Load(m - 1));
  }

  /** Then all of them store: together they count as one increment. */
  lemma {:induction false} StoreFirst(n: nat, s0: State, s: State, m: nat, v: nat) returns (s': State)
    requires Leads(n, s0, s) && m <= |s.done| == |s.reg|
    requires forall t :: 0 <= t < m ==> s.reg[t] == Loaded(v) && s.done[t] + 1 == n
    ensures Leads(n, s0, s') && |s'.done| == |s.done|
    ensures s'.counter == if m == 0 then s.counter else v + 1
    ensures forall t :: 0 <= t < |s.done| ==> s'.done[t] == if t < m then n else s.done[t]
    decreases m
  {
    if m == 0 {
      return s;
    }
    var s1 := LeadsOn(n, s0, s, Store(m - 1));
    s' := StoreFirst(n, s0, s1, m - 1, v);
  }

  /** One iteration each: k threads run undisturbed, and all the others coincide. */
  lemma OneIterationEach(threads: nat, k: nat)
    requires k < threads
    ensures CanEndAt(threads, 1, k + 1)
  {
    var s0, m := Start(threads), threads - k;
    SumUniform(s0.done, 0);
    var s1 := FinishFrom(1, s0, m);
    assert forall t :: 0 <= t < m ==> s1.done[t] == s1.done[..m][t] == 0;
    LastOnes(s1.done, m);
    var s2 := LoadFirst(1, s0, s1, m);
    var s := StoreFirst(1, s0, s2, m, k);
    assert Leads(1, s0, s) && Complete(1, s) && s.counter == k + 1;
  }

  lemma {:induction false} LastOnes(xs: seq<nat>, m: nat)
    requires m <= |xs| && forall i :: 0 <= i < |xs| ==> xs[i] == if i < m then 0 else 1
    ensures Sum(xs) == |xs| - m
  {
    if xs != [] {
      LastOnes(xs[1..], if m == 0 then 0 else m - 1);
    }
  }

  /** The exact range of the racy counter: with two threads or more, a value can be the final one
      exactly when it lies between min(n, 2) and threads * n. */
  lemma RacyRange(threads: nat, n: nat, v: nat)
    requires threads >= 2
    ensures CanEndAt(threads, n, v) <==> (if n < 2 then n else 2) <= v <= threads * n
  {
    if CanEndAt(threads, n, v) {
      var s :| Leads(n, Start(threads), s) && Complete(n, s) && s.counter == v;
      var steps :| Reaches(n, Start(threads), steps, s);
      RacyBounds(threads, n, steps);
    }
    if (if n < 2 then n else 2) <= v <= threads * n {
      if v == threads * n {
        NothingLost(threads, n);
      } else if n == 1 {
        OneIterationEach(threads, v - 1);
      } else if v == threads * n - 1 {
        OneLost(threads, n);
      } else {
        AllButTwoLost(threads, n, v - 2);
      }
    }
  }
}

/** The synchronised version: increment_counter_safe, with the mutex taken and released step by step. */
module SafeCounter {
  import opened Sums

  datatype Phase = Outside | Locked | Read(value: nat) | Written

  datatype State = State(counter: nat, done: seq<nat>, phase: seq<Phase>, locked: bool)

  function Start(threads: nat): State {
    State(0, seq(threads, _ => 0), seq(threads, _ => Outside), false)
  }

  predicate Can(n: nat, s: State, t: nat) {
    && t < |s.done| == |s.phase|
    && (s.phase[t].Outside? ==> s.done[t] < n && !s.locked)
  }

  /** The next step of thread t: lock, load, store, unlock, and round again. */
  function Do(n: nat, s: State, t: nat): State
    requires Can(n, s, t)
  {
    match s.phase[t]
    case Outside => s.(locked := true, phase := s.phase[t := Locked])
    case Locked => s.(phase := s.phase[t := Read(s.counter)])
    case Read(v) => s.(counter := v + 1, done := s.done[t := s.done[t] + 1], phase := s.phase[t := Written])
    case Written => s.(locked := false, phase := s.phase[t := Outside])
  }

  predicate Valid(n: nat, s: State, sched: seq<nat>)
    decreases |sched|
  {
    sched == [] || (Can(n, s, sched[0]) && Valid(n, Do(n, s, sched[0]), sched[1..]))
  }

  function Exec(n: nat, s: State, sched: seq<nat>): State
    requires Valid(n, s, sched)
    decreases |sched|
  {
    if sched == [] then s else Exec(n, Do(n, s, sched[0]), sched[1..])
  }

  /** The mutex admits one thread, so no increment is ever lost. */
  predicate Inv(n: nat, s: State) {
    && |s.done| == |s.phase|
    && s.counter == Sum(s.done)
    && (forall t, u :: 0 <= t < |s.phase| && 0 <= u < |s.phase| && !s.phase[t].Outside? && !s.phase[u].Outside? ==> t == u)
    && (s.locked <==> exists t :: 0 <= t < |s.phase| && !s.phase[t].Outside?)
    && (forall t :: 0 <= t < |s.phase| && s.phase[t].Read? ==> s.phase[t].value == s.counter)
    && (forall t :: 0 <= t < |s.done| ==> s.done[t] <= n && (s.phase[t].Locked? || s.phase[t].Read? ==> s.done[t] < n))
  }

  lemma InvStep(n: nat, s: State, t: nat)
    requires Inv(n, s) && Can(n, s, t)
    ensures Inv(n, Do(n, s, t))
  {
    var s' := Do(n, s, t);
    SumUpdate(s.done, t, s.done[t] + 1);
    if s.phase[t].Outside? {
      assert forall u :: 0 <= u < |s.phase| ==> s.phase[u].Outside?;
    }
    if !s.phase[t].Written? {
      assert !s'.phase[t].Outside?;
    }
  }

  lemma {:induction false} InvRun(n: nat, s: State, sched: seq<nat>)
    requires Inv(n, s) && Valid(n, s, sched)
    ensures Inv(n, Exec(n, s, sched)) && |Exec(n, s, sched).done| == |s.done|
    decreases |sched|
  {
    if sched != [] {
      InvStep(n, s, sched[0]);
      InvRun(n, Do(n, s, sched[0]), sched[1..]);
    }
  }

  /** Every complete interleaving of the synchronised threads ends at exactly threads * n, and an
      incomplete one can always go on. */
  lemma SafeIsExact(threads: nat, n: nat, sched: seq<nat>)
    requires Valid(n, Start(threads), sched)
    ensures var s := Exec(n, Start(threads), sched);
            && s.counter == Sum(s.done) && |s.done| == threads
            && ((forall t :: 0 <= t < threads ==> s.done[t] == n) ==> s.counter == threads * n)
            && (s.counter < threads * n ==> exists t :: Can(n, s, t))
  {
    var s0 := Start(threads);
    SumUniform(s0.done, 0);
    InvRun(n, s0, sched);
    var s := Exec(n, s0, sched);
    if forall t :: 0 <= t < threads ==> s.done[t] == n {
      SumUniform(s.done, n);
    }
    if s.counter < threads * n {
      SumBelow(s.done, n);
      var t: nat :| t < threads && s.done[t] < n;
      if s.locked {
        var u: nat :| u < |s.phase| && !s.phase[u].Outside?;
        assert Can(n, s, u);
      } else {
        assert Can(n, s, t);
      }
    }
  }
}
