/**
 Any number of threads, each running a straight-line program of mutex operations over any number
 of mutexes. A mutex is its number; locking blocks while the mutex is owned.
 */
module LockPrograms {
  import opened Sums

  datatype Op = Lock(m: nat) | Unlock(m: nat)
  type Program = seq<Op>

  /** The mutexes a thread holds after the first k operations of its program. */
  function HeldAt(p: Program, k: nat): set<nat>
    requires k <= |p|
  {
    if k == 0 then {}
    else match p[k - 1]
      case Lock(m) => HeldAt(p, k - 1) + {m}
      case Unlock(m) => HeldAt(p, k - 1) - {m}
  }

  /** Operation k locks a mutex not held, or unlocks one that is held. */
  predicate Bracketed(p: Program, k: nat)
    requires k < |p|
  {
    p[k].Lock? <==> p[k].m !in HeldAt(p, k)
  }

  /** If operation k is a lock, it is higher than every mutex held at that moment. */
  predicate Ascending(p: Program, k: nat)
    requires k < |p|
  {
    p[k].Lock? ==> forall h :: h in HeldAt(p, k) ==> h < p[k].m
  }

  predicate WellBracketed(p: Program) {
    (forall k :: 0 <= k < |p| ==> Bracketed(p, k)) && HeldAt(p, |p|) == {}
  }

  predicate Hierarchical(p: Program) {
    WellBracketed(p) && forall k :: 0 <= k < |p| ==> Ascending(p, k)
  }

  datatype State = State(pc: seq<nat>, owner: map<nat, nat>)

  function Start(progs: seq<Program>): State {
    State(seq(|progs|, _ => 0), map[])
  }

  predicate InRange(progs: seq<Program>, s: State) {
    |s.pc| == |progs| && forall t :: 0 <= t < |progs| ==> s.pc[t] <= |progs[t]|
  }

  predicate Can(progs: seq<Program>, s: State, t: nat)
    requires InRange(progs, s)
  {
    t < |progs| && s.pc[t] < |progs[t]| && (progs[t][s.pc[t]].Lock? ==> progs[t][s.pc[t]].m !in s.owner)
  }

  function Do(progs: seq<Program>, s: State, t: nat): (r: State)
    requires InRange(progs, s) && Can(progs, s, t)
    ensures InRange(progs, r)
  {
    State(s.pc[t := s.pc[t] + 1],
          match progs[t][s.pc[t]]
          case Lock(m) => s.owner[m := t]
          case Unlock(m) => s.owner - {m})
  }

  /** A schedule names the thread that moves at each step. */
  predicate Valid(progs: seq<Program>, s: State, sched: seq<nat>)
    requires InRange(progs, s)
    decreases |sched|
  {
    sched == [] || (Can(progs, s, sched[0]) && Valid(progs, Do(progs, s, sched[0]), sched[1..]))
  }

  function Exec(progs: seq<Program>, s: State, sched: seq<nat>): (r: State)
    requires InRange(progs, s) && Valid(progs, s, sched)
    ensures InRange(progs, r)
    decreases |sched|
  {
    if sched == [] then s else Exec(progs, Do(progs, s, sched[0]), sched[1..])
  }

  predicate Finished(progs: seq<Program>, s: State)
    requires InRange(progs, s)
  {
    forall t :: 0 <= t < |progs| ==> s.pc[t] == |progs[t]|
  }

  ghost predicate Stuck(progs: seq<Program>, s: State)
    requires InRange(progs, s)
  {
    !Finished(progs, s) && forall t :: !Can(progs, s, t)
  }

  // ----- Ownership -----

  predicate Holds(progs: seq<Program>, s: State, t: nat, m: nat)
    requires InRange(progs, s)
  {
    t < |progs| && m in HeldAt(progs[t], s.pc[t])
  }

  /** The owner table says exactly who holds what, so no mutex has two holders. */
  ghost predicate Owned(progs: seq<Program>, s: State) {
    && InRange(progs, s)
    && (forall m :: m in s.owner ==> Holds(progs, s, s.owner[m], m))
    && (forall t, m :: Holds(progs, s, t, m) ==> m in s.owner && s.owner[m] == t)
  }

  predicate AllBracketed(progs: seq<Program>) {
    forall t :: 0 <= t < |progs| ==> WellBracketed(progs[t])
  }

  predicate AllHierarchical(progs: seq<Program>) {
    forall t :: 0 <= t < |progs| ==> Hierarchical(progs[t])
  }

  lemma HoldsStep(progs: seq<Program>, s: State, t: nat, u: nat, m: nat)
    requires InRange(progs, s) && Can(progs, s, t)
    ensures var op := progs[t][s.pc[t]];
            Holds(progs, Do(progs, s, t), u, m) <==>
            if u == t && m == op.m then op.Lock? else Holds(progs, s, u, m)
  {
  }

  lemma OwnedStep(progs: seq<Program>, s: State, t: nat)
    requires AllBracketed(progs) && Owned(progs, s) && Can(progs, s, t)
    ensures Owned(progs, Do(progs, s, t))
  {
    var s', op := Do(progs, s, t), progs[t][s.pc[t]];
    assert Bracketed(progs[t], s.pc[t]);
    assert op.Unlock? ==> Holds(progs, s, t, op.m);
    forall u: nat, m: nat
      ensures Holds(progs, s', u, m) <==> m in s'.owner && s'.owner[m] == u
    {
      HoldsStep(progs, s, t, u, m);
      assert Holds(progs, s, u, m) <==> m in s.owner && s.owner[m] == u;
    }
  }

  lemma {:induction false} OwnedRun(progs: seq<Program>, s: State, sched: seq<nat>)
    requires AllBracketed(progs) && Owned(progs, s) && Valid(progs, s, sched)
    ensures Owned(progs, Exec(progs, s, sched))
    decreases |sched|
  {
    if sched != [] {
      OwnedStep(progs, s, sched[0]);
      OwnedRun(progs, Do(progs, s, sched[0]), sched[1..]);
    }
  }

  // ----- Length of runs -----

  function Left(progs: seq<Program>, s: State): seq<nat>
    requires InRange(progs, s)
  {
    seq(|progs|, t requires 0 <= t < |progs| => |progs[t]| - s.pc[t])
  }

  lemma LeftStep(progs: seq<Program>, s: State, t: nat)
    requires InRange(progs, s) && Can(progs, s, t)
    ensures Sum(Left(progs, Do(progs, s, t))) + 1 == Sum(Left(progs, s))
  {
    var left := Left(progs, s);
    SumUpdate(left, t, left[t] - 1);
    assert Left(progs, Do(progs, s, t)) == left[t := left[t] - 1];
  }

  lemma {:induction false} RunLength(progs: seq<Program>, s: State, sched: seq<nat>)
    requires InRange(progs, s) && Valid(progs, s, sched)
    ensures |sched| + Sum(Left(progs, Exec(progs, s, sched))) == Sum(Left(progs, s))
    decreases |sched|
  {
    if sched != [] {
      LeftStep(progs, s, sched[0]);
      RunLength(progs, Do(progs, s, sched[0]), sched[1..]);
    }
  }

  // ----- The hierarchy theorem -----

  /**
   Follow a blocked thread to the owner of the mutex it wants: the owner either can move, or wants
   a still higher mutex. Mutexes in use are bounded, so the search ends at a thread that can move.
   */
  lemma {:induction false} FindMover(progs: seq<Program>, s: State, t: nat, top: nat) returns (u: nat)
    requires AllHierarchical(progs) && Owned(progs, s)
    requires t < |progs| && s.pc[t] < |progs[t]|
    requires forall v, k :: 0 <= v < |progs| && 0 <= k < |progs[v]| ==> progs[v][k].m <= top
    ensures Can(progs, s, u)
    decreases top - progs[t][s.pc[t]].m
  {
    if Can(progs, s, t) {
      return t;
    }
    var m := progs[t][s.pc[t]].m;
    var holder := s.owner[m];
    assert Holds(progs, s, holder, m);
    assert WellBracketed(progs[holder]);
    if Can(progs, s, holder) {
      return holder;
    }
    assert Ascending(progs[holder], s.pc[holder]);
    u := FindMover(progs, s, holder, top);
  }

  function Highest(p: Program): (h: nat)
    ensures forall k :: 0 <= k < |p| ==> p[k].m <= h
  {
    if p == [] then 0
    else var h := Highest(p[..|p| - 1]); if p[|p| - 1].m > h then p[|p| - 1].m else h
  }

  function HighestOf(progs: seq<Program>): (h: nat)
    ensures forall v, k :: 0 <= v < |progs| && 0 <= k < |progs[v]| ==> progs[v][k].m <= h
  {
    if progs == [] then 0
    else
      var h, g := HighestOf(progs[..|progs| - 1]), Highest(progs[|progs| - 1]);
      if g > h then g else h
  }

  lemma FinishedFree(progs: seq<Program>, s: State)
    requires AllBracketed(progs) && Owned(progs, s) && Finished(progs, s)
    ensures s.owner == map[]
  {
  }

  lemma UnfinishedMoves(progs: seq<Program>, s: State)
    requires AllHierarchical(progs) && Owned(progs, s)
    ensures !Stuck(progs, s)
  {
    if !Finished(progs, s) {
      var t :| 0 <= t < |progs| && s.pc[t] != |progs[t]|;
      var u := FindMover(progs, s, t, HighestOf(progs));
    }
  }

  lemma ReachedOwned(progs: seq<Program>, sched: seq<nat>)
    requires AllBracketed(progs) && Valid(progs, Start(progs), sched)
    ensures Owned(progs, Exec(progs, Start(progs), sched))
  {
    var s := Start(progs);
    assert Owned(progs, s);
    OwnedRun(progs, s, sched);
  }

  /**
   If every program takes its mutexes in increasing order, no reachable state is stuck, whatever
   the interleaving; an unfinished run always has a thread to move, and a finished one leaves
   every mutex free.
   */
  lemma HierarchyNeverStuck(progs: seq<Program>, sched: seq<nat>)
    requires AllHierarchical(progs) && Valid(progs, Start(progs), sched)
    ensures var s := Exec(progs, Start(progs), sched);
            !Stuck(progs, s) && (Finished(progs, s) ==> s.owner == map[])
  {
    ReachedOwned(progs, sched);
    var s := Exec(progs, Start(progs), sched);
    UnfinishedMoves(progs, s);
    if Finished(progs, s) {
      FinishedFree(progs, s);
    }
  }

  /** Every run of hierarchical programs can be carried on to the end. */
  lemma {:induction false} HierarchyCompletes(progs: seq<Program>, s: State) returns (more: seq<nat>)
    requires AllHierarchical(progs) && Owned(progs, s)
    ensures Valid(progs, s, more) && Finished(progs, Exec(progs, s, more))
    decreases Sum(Left(progs, s))
  {
    if Finished(progs, s) {
      return [];
    }
    var t :| 0 <= t < |progs| && s.pc[t] != |progs[t]|;
    var u := FindMover(progs, s, t, HighestOf(progs));
    OwnedStep(progs, s, u);
    LeftStep(progs, s, u);
    var rest := HierarchyCompletes(progs, Do(progs, s, u));
    more := [u] + rest;
    assert more[1..] == rest;
  }
}
