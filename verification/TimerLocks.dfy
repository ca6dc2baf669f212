/**
 The mutexes of lesson 12's timer code. Mutex 0 is timers_mutex, mutex i + 1 that of slot i. Every
 operation is at most one scan of slots under timers_mutex followed by visits to single slots: init
 and cleanup take timers_mutex alone; create scans, then configures its slot; the handler scans;
 delete visits one slot. A thread calls any operations one after the other; a callback thread visits
 its slot before and after the callback, which may itself call any operations.
 */
module TimerLocks {
  import opened LockPrograms

  datatype Operation =
    | Init
    | Cleanup
    | Create(slot: nat)                           // finds the slot, later configures it
    | CreateFails(slots: nat)                     // scans all slots and finds none
    | Handle(last: nat)                           // the handler, leaving its loop after this slot
    | Delete(slot: nat)

  datatype Thread = Caller(calls: seq<Operation>) | CallbackThread(slot: nat, calls: seq<Operation>)

  /** The slots locked under timers_mutex, if it is taken at all, and those locked without it. */
  datatype Footprint = Footprint(scans: bool, scanned: seq<nat>, visited: seq<nat>)

  function FootprintOf(op: Operation): Footprint {
    match op
    case Init => Footprint(true, [], [])
    case Cleanup => Footprint(true, [], [])
    case Create(slot) => Footprint(true, seq(slot + 1, i => i), [slot])
    case CreateFails(slots) => Footprint(true, seq(slots, i => i), [])
    case Handle(last) => Footprint(true, seq(last + 1, i => i), [])
    case Delete(slot) => Footprint(false, [], [slot])
  }

  function FootprintsOf(calls: seq<Operation>): seq<Footprint> {
    seq(|calls|, i requires 0 <= i < |calls| => FootprintOf(calls[i]))
  }

  function Visits(slots: seq<nat>): Program {
    if slots == [] then [] else [Lock(slots[0] + 1), Unlock(slots[0] + 1)] + Visits(slots[1..])
  }

  function ProgramOf(op: Footprint): Program {
    if op.scans then [Lock(0)] + (Visits(op.scanned) + ([Unlock(0)] + Visits(op.visited)))
    else Visits(op.visited)
  }

  function ProgramOfAll(ops: seq<Footprint>): Program {
    if ops == [] then [] else ProgramOf(ops[0]) + ProgramOfAll(ops[1..])
  }

  function ThreadProgram(thread: Thread): Program {
    var calls := ProgramOfAll(FootprintsOf(thread.calls));
    match thread
    case Caller(_) => calls
    case CallbackThread(slot, _) => Visits([slot]) + (calls + Visits([slot]))
  }

  // ----- The mutex operations of each call, one by one -----

  lemma {:induction false} VisitsAt(slots: seq<nat>, i: nat)
    requires i < |slots|
    ensures |Visits(slots)| == 2 * |slots|
    ensures Visits(slots)[2 * i] == Lock(slots[i] + 1) && Visits(slots)[2 * i + 1] == Unlock(slots[i] + 1)
  {
    if |slots| > 1 {
      VisitsAt(slots[1..], if i == 0 then 0 else i - 1);
    }
  }

  /** The table's mutex is taken, the first k slots are visited in order under it, and it is released. */
  predicate ScansFirst(p: Program, k: nat) {
    && |p| >= 2 * k + 2 && p[0] == Lock(0) && p[2 * k + 1] == Unlock(0)
    && forall i :: 0 <= i < k ==> p[2 * i + 1] == Lock(i + 1) && p[2 * i + 2] == Unlock(i + 1)
  }

  lemma ScanProgram(k: nat, visited: seq<nat>)
    ensures var p := ProgramOf(Footprint(true, seq(k, i => i), visited));
            |p| == 2 * k + 2 + |Visits(visited)| && ScansFirst(p, k) && p[2 * k + 2..] == Visits(visited)
  {
    var scanned := seq(k, i => i);
    var p := ProgramOf(Footprint(true, scanned, visited));
    assert |Visits(scanned)| == 2 * k by {
      if k > 0 {
        VisitsAt(scanned, 0);
      }
    }
    forall i: nat | i < k ensures p[2 * i + 1] == Lock(i + 1) && p[2 * i + 2] == Unlock(i + 1) {
      VisitsAt(scanned, i);
    }
  }

  lemma OneVisit(slot: nat)
    ensures Visits([slot]) == [Lock(slot + 1), Unlock(slot + 1)]
  {
    assert [slot][1..] == [] && Visits([]) == [];
  }

  /** init and cleanup only take the table's mutex. */
  lemma TableProgram(op: Operation)
    requires op.Init? || op.Cleanup?
    ensures ProgramOf(FootprintOf(op)) == [Lock(0), Unlock(0)]
  {
    assert Visits([]) == [];
  }

  /** create scans the slots up to its own under the table's mutex, and then takes its slot's mutex again. */
  lemma CreateProgram(slot: nat)
    ensures var p := ProgramOf(FootprintOf(Create(slot)));
            |p| == 2 * slot + 6 && ScansFirst(p, slot + 1) && p[2 * slot + 4..] == [Lock(slot + 1), Unlock(slot + 1)]
  {
    OneVisit(slot);
    ScanProgram(slot + 1, [slot]);
  }

  /** A create that finds no slot, and the handler, scan and no more. */
  lemma ScanOnlyProgram(op: Operation)
    requires op.CreateFails? || op.Handle?
    ensures var p, k := ProgramOf(FootprintOf(op)), if op.Handle? then op.last + 1 else op.slots;
            |p| == 2 * k + 2 && ScansFirst(p, k)
  {
    ScanProgram(if op.Handle? then op.last + 1 else op.slots, []);
  }

  /** delete takes one slot's mutex. */
  lemma DeleteProgram(slot: nat)
    ensures ProgramOf(FootprintOf(Delete(slot))) == [Lock(slot + 1), Unlock(slot + 1)]
  {
    OneVisit(slot);
  }

  lemma ProgramOfCons(op: Footprint, rest: seq<Footprint>)
    ensures ProgramOfAll([op] + rest) == ProgramOf(op) + ProgramOfAll(rest)
  {
    assert ([op] + rest)[1..] == rest;
  }

  /** A thread's calls follow one another. */
  lemma CallerProgram(op: Operation, calls: seq<Operation>)
    ensures ThreadProgram(Caller([op] + calls)) == ProgramOf(FootprintOf(op)) + ThreadProgram(Caller(calls))
  {
    assert FootprintsOf([op] + calls) == [FootprintOf(op)] + FootprintsOf(calls);
    ProgramOfCons(FootprintOf(op), FootprintsOf(calls));
  }

  /** A callback thread takes its slot's mutex before and after what the callback calls. */
  lemma CallbackProgram(slot: nat, calls: seq<Operation>)
    ensures ThreadProgram(CallbackThread(slot, calls))
            == [Lock(slot + 1), Unlock(slot + 1)] + (ThreadProgram(Caller(calls)) + [Lock(slot + 1), Unlock(slot + 1)])
  {
    OneVisit(slot);
  }

  // ----- Lock order -----

  /** Run from the given mutexes on, a program only locks upwards, unlocks what it holds, and ends with none. */
  predicate Climbs(p: Program, held: set<nat>) {
    if p == [] then held == {}
    else match p[0]
      case Lock(m) => m !in held && (forall h :: h in held ==> h < m) && Climbs(p[1..], held + {m})
      case Unlock(m) => m in held && Climbs(p[1..], held - {m})
  }

  lemma {:induction false} ClimbsAt(p: Program, k: nat)
    requires Climbs(p, {}) && k <= |p|
    ensures Climbs(p[k..], HeldAt(p, k))
  {
    if k == 0 {
      assert p[0..] == p;
    } else {
      ClimbsAt(p, k - 1);
      assert p[k - 1..][0] == p[k - 1] && p[k - 1..][1..] == p[k..];
    }
  }

  lemma ClimbsIsHierarchical(p: Program)
    requires Climbs(p, {})
    ensures Hierarchical(p)
  {
    forall k | 0 <= k < |p| ensures Bracketed(p, k) && Ascending(p, k) {
      ClimbsAt(p, k);
      assert p[k..][0] == p[k];
    }
    ClimbsAt(p, |p|);
  }

  /** Visits can come before anything, with or without the table's mutex in hand. */
  lemma {:induction false} VisitsClimb(slots: seq<nat>, rest: Program, held: set<nat>)
    requires held <= {0} && Climbs(rest, held)
    ensures Climbs(Visits(slots) + rest, held)
  {
    var p := Visits(slots) + rest;
    if slots == [] {
      assert p == rest;
    } else {
      var m, tail := slots[0] + 1, Visits(slots[1..]) + rest;
      VisitsClimb(slots[1..], rest, held);
      assert p == [Lock(m)] + ([Unlock(m)] + tail);
      assert p[1..] == [Unlock(m)] + tail && p[1..][1..] == tail;
      assert held + {m} - {m} == held;
    }
  }

  lemma FootprintClimbs(op: Footprint, rest: Program)
    requires Climbs(rest, {})
    ensures Climbs(ProgramOf(op) + rest, {})
  {
    var visits := Visits(op.visited) + rest;
    VisitsClimb(op.visited, rest, {});
    if op.scans {
      var unlock := [Unlock(0)] + visits;
      assert unlock[1..] == visits && {0} - {0} == {};
      VisitsClimb(op.scanned, unlock, {0});
      var p := [Lock(0)] + (Visits(op.scanned) + unlock);
      assert p[1..] == Visits(op.scanned) + unlock && {} + {0} == {0};
      assert ProgramOf(op) + rest == p;
    }
  }

  lemma Regroup(a: Program, b: Program, c: Program)
    ensures (a + b) + c == a + (b + c)
  {
  }

  lemma {:induction false} FootprintsClimb(ops: seq<Footprint>, rest: Program)
    requires Climbs(rest, {})
    ensures Climbs(ProgramOfAll(ops) + rest, {})
  {
    if ops == [] {
      assert ProgramOfAll(ops) + rest == rest;
    } else {
      FootprintsClimb(ops[1..], rest);
      FootprintClimbs(ops[0], ProgramOfAll(ops[1..]) + rest);
      Regroup(ProgramOf(ops[0]), ProgramOfAll(ops[1..]), rest);
    }
  }

  /** Any sequence of timer operations takes its mutexes table first, then one slot at a time. */
  lemma FootprintsAreHierarchical(ops: seq<Footprint>)
    ensures Hierarchical(ProgramOfAll(ops))
  {
    FootprintsClimb(ops, []);
    assert ProgramOfAll(ops) + [] == ProgramOfAll(ops);
    ClimbsIsHierarchical(ProgramOfAll(ops));
  }

  lemma ThreadIsHierarchical(thread: Thread)
    ensures Hierarchical(ThreadProgram(thread))
  {
    if thread.Caller? {
      FootprintsAreHierarchical(FootprintsOf(thread.calls));
    } else {
      var visit, inner := Visits([thread.slot]), FootprintsOf(thread.calls);
      VisitsClimb([thread.slot], [], {});
      assert visit + [] == visit;
      FootprintsClimb(inner, visit);
      VisitsClimb([thread.slot], ProgramOfAll(inner) + visit, {});
      ClimbsIsHierarchical(visit + (ProgramOfAll(inner) + visit));
    }
  }

  function Programs(threads: seq<Thread>): seq<Program> {
    seq(|threads|, t requires 0 <= t < |threads| => ThreadProgram(threads[t]))
  }

  /** However many threads use the timers, and however their operations interleave, they never deadlock. */
  lemma TimersNeverDeadlock(threads: seq<Thread>, sched: seq<nat>)
    requires Valid(Programs(threads), Start(Programs(threads)), sched)
    ensures var s := Exec(Programs(threads), Start(Programs(threads)), sched);
            !Stuck(Programs(threads), s) && (Finished(Programs(threads), s) ==> s.owner == map[])
  {
    var progs := Programs(threads);
    forall t | 0 <= t < |progs| ensures Hierarchical(progs[t]) {
      ThreadIsHierarchical(threads[t]);
    }
    HierarchyNeverStuck(progs, sched);
  }
}
