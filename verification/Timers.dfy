/**
 The timer slots of lesson 12: MAX_TIMERS slots, each with an active and a thread_running flag, a
 mutex for the table and one for each slot. A creator looks at the static flag initialized and, if it
 is not set, clears the slots under the table's mutex and sets it; then it scans for a free slot,
 configures it, and gets its index as the timer's id. Expiry signals mark the slot as running and spawn
 a callback thread. A step is one critical section of a slot's mutex, one slot cleared, an acquisition
 of the table's mutex, or an access to the flag. The signal handler runs as a thread of its own.
 */
module Timers {
  const MAX_TIMERS: nat := 10

  datatype Creator =
    | Calling              // about to look at initialized
    | Starting             // found it unset, about to call timer_system_init
    | Clearing(i: nat)     // in timer_system_init, at slot i
    | Cleared              // about to set initialized
    | Ready                // about to search
    | Scanning(i: nat)     // searching, at slot i
    | Claimed(slot: nat)   // about to configure its slot
    | Returned(id: int)

  datatype State = State(
    initialized: bool,
    active: seq<bool>,
    running: seq<bool>,            // thread_running
    armed: seq<bool>,              // a POSIX timer exists for the slot
    scanner: set<nat>,             // who holds timers_mutex to clear or to search
    creators: map<nat, Creator>,
    owned: set<nat>,               // ids returned by create and not yet deleted
    toSpawn: seq<nat>,             // handlers past their scan, about to create a callback thread
    inFlight: seq<nat>,            // callback threads not yet done
    expiries: seq<nat>)            // history: expiry signals handled

  datatype Step =
    | Look(c: nat, installed: bool)        // installed: sigaction succeeds, if it is called
    | TakeToClear(c: nat)
    | Clear(c: nat)                        // one turn of timer_system_init's loop, or its end
    | SetInitialized(c: nat)
    | TakeTable(c: nat)
    | Visit(c: nat)                        // one turn of the creator's slot search
    | Configure(c: nat, ok: bool)          // timer_create and timer_settime; ok: both succeed
    | Delete(id: int)                      // any id: what is not an active slot is refused
    | Expire(v: nat)                       // the handler's visit to the expired slot
    | Spawn(v: nat, ok: bool)              // ok: malloc and pthread_create succeed
    | Finish(v: nat)                       // the callback thread clears thread_running

  function Start(creators: set<nat>): State {
    var no, zero := seq(MAX_TIMERS, _ => false), seq(MAX_TIMERS, _ => 0);
    State(false, no, no, no, {}, map c | c in creators :: Calling, {}, zero, zero, zero)
  }

  predicate Shape(s: State) {
    && |s.active| == |s.running| == |s.armed| == MAX_TIMERS
    && |s.toSpawn| == |s.inFlight| == |s.expiries| == MAX_TIMERS
  }

  /** The id is in range and its slot active: what delete asks before it returns 0. */
  predicate IsActive(s: State, id: int)
    requires Shape(s)
  {
    0 <= id < MAX_TIMERS && s.active[id]
  }

  /** What the handler's loop does to the expired slot's flag, and whether it goes on to spawn. The
      written code records the slot before it looks at thread_running; guarded spawns only if it set it. */
  function ExpirySection(guarded: bool, active: bool, running: bool): (bool, bool) {
    (running || active, active && (!guarded || !running))
  }

  predicate Can(s: State, step: Step) {
    && Shape(s)
    && match step
       case Look(c, _) => c in s.creators && s.creators[c].Calling?
       case TakeToClear(c) => c in s.creators && s.creators[c].Starting? && s.scanner == {}
       case Clear(c) => c in s.creators && s.creators[c].Clearing?
       case SetInitialized(c) => c in s.creators && s.creators[c].Cleared?
       case TakeTable(c) => c in s.creators && s.creators[c].Ready? && s.scanner == {}
       case Visit(c) => c in s.creators && s.creators[c].Scanning?
       case Configure(c, _) => c in s.creators && s.creators[c].Claimed? && s.creators[c].slot < MAX_TIMERS
       case Delete(_) => true
       case Expire(v) => v < MAX_TIMERS && s.scanner == {}
       case Spawn(v, _) => v < MAX_TIMERS && s.toSpawn[v] > 0
       case Finish(v) => v < MAX_TIMERS && s.inFlight[v] > 0
  }

  function Do(guarded: bool, s: State, step: Step): State
    requires Can(s, step)
  {
    match step
    case Look(c, installed) =>
      s.(creators := s.creators[c := if s.initialized then Ready else if installed then Starting else Returned(-1)])
    case TakeToClear(c) => s.(scanner := {c}, creators := s.creators[c := Clearing(0)])
    case Clear(c) =>
      var i := s.creators[c].i;
      if i >= MAX_TIMERS then s.(scanner := {}, creators := s.creators[c := Cleared])
      else s.(active := s.active[i := false], running := s.running[i := false], creators := s.creators[c := Clearing(i + 1)])
    case SetInitialized(c) => s.(initialized := true, creators := s.creators[c := Ready])
    case TakeTable(c) => s.(scanner := {c}, creators := s.creators[c := Scanning(0)])
    case Visit(c) =>
      var i := s.creators[c].i;
      if i >= MAX_TIMERS then s.(scanner := {}, creators := s.creators[c := Returned(-1)])
      else if s.active[i] then s.(creators := s.creators[c := Scanning(i + 1)])
      else s.(active := s.active[i := true], scanner := {}, creators := s.creators[c := Claimed(i)])
    case Configure(c, ok) =>
      var i := s.creators[c].slot;
      if ok then s.(armed := s.armed[i := true], owned := s.owned + {i}, creators := s.creators[c := Returned(i)])
      else s.(active := s.active[i := false], creators := s.creators[c := Returned(-1)])
    case Delete(id) =>
      if IsActive(s, id) then s.(active := s.active[id := false], armed := s.armed[id := false], owned := s.owned - {id})
      else s
    case Expire(v) =>
      var (running, spawn) := ExpirySection(guarded, s.active[v], s.running[v]);
      s.(running := s.running[v := running],
         toSpawn := if spawn then s.toSpawn[v := s.toSpawn[v] + 1] else s.toSpawn,
         expiries := s.expiries[v := s.expiries[v] + 1])
    case Spawn(v, ok) =>
      s.(toSpawn := s.toSpawn[v := s.toSpawn[v] - 1],
         inFlight := if ok then s.inFlight[v := s.inFlight[v] + 1] else s.inFlight)
    case Finish(v) =>
      s.(inFlight := s.inFlight[v := s.inFlight[v] - 1], running := s.running[v := false])
  }

  predicate Valid(guarded: bool, s: State, steps: seq<Step>)
    decreases |steps|
  {
    steps == [] || (Can(s, steps[0]) && Valid(guarded, Do(guarded, s, steps[0]), steps[1..]))
  }

  function Exec(guarded: bool, s: State, steps: seq<Step>): State
    requires Valid(guarded, s, steps)
    decreases |steps|
  {
    if steps == [] then s else Exec(guarded, Do(guarded, s, steps[0]), steps[1..])
  }

  /** The step is a clear of this slot. */
  predicate ClearsSlot(s: State, step: Step, i: nat) {
    step.Clear? && step.c in s.creators && s.creators[step.c] == Clearing(i)
  }

  // ----- Runs built step by step -----

  predicate Reaches(guarded: bool, s: State, steps: seq<Step>, s': State) {
    Valid(guarded, s, steps) && Exec(guarded, s, steps) == s'
  }

  ghost predicate Leads(guarded: bool, s: State, s': State) {
    exists steps :: Reaches(guarded, s, steps, s')
  }

  lemma LeadsNowhere(guarded: bool, s: State)
    ensures Leads(guarded, s, s)
  {
    assert Reaches(guarded, s, [], s);
  }

  lemma {:induction false} ReachesOn(guarded: bool, s: State, steps: seq<Step>, s': State, step: Step)
    requires Reaches(guarded, s, steps, s') && Can(s', step)
    ensures Reaches(guarded, s, steps + [step], Do(guarded, s', step))
    decreases |steps|
  {
    var more := steps + [step];
    if steps == [] {
      assert more == [step] && more[1..] == [];
    } else {
      ReachesOn(guarded, Do(guarded, s, steps[0]), steps[1..], s', step);
      assert more[1..] == steps[1..] + [step];
    }
  }

  lemma LeadsOn(guarded: bool, s0: State, s: State, step: Step) returns (s': State)
    requires Leads(guarded, s0, s) && Can(s, step)
    ensures Leads(guarded, s0, s') && s' == Do(guarded, s, step)
  {
    var steps :| Reaches(guarded, s0, steps, s);
    s' := Do(guarded, s, step);
    ReachesOn(guarded, s0, steps, s, step);
  }

  /** What timer_system_init leaves: the flags of every slot from i on cleared. */
  function ClearedFrom(flags: seq<bool>, i: nat): seq<bool> {
    seq(|flags|, k requires 0 <= k < |flags| => k < i && flags[k])
  }

  lemma {:induction false} ClearSlots(guarded: bool, s0: State, s: State, c: nat) returns (s': State)
    requires Leads(guarded, s0, s) && Shape(s) && c in s.creators && s.creators[c].Clearing?
    ensures Leads(guarded, s0, s')
    ensures s' == s.(active := ClearedFrom(s.active, s.creators[c].i), running := ClearedFrom(s.running, s.creators[c].i),
                     scanner := {}, creators := s.creators[c := Cleared])
    decreases MAX_TIMERS - s.creators[c].i
  {
    var i := s.creators[c].i;
    var s1 := LeadsOn(guarded, s0, s, Clear(c));
    if i >= MAX_TIMERS {
      s' := s1;
    } else {
      s' := ClearSlots(guarded, s0, s1, c);
      assert s1.creators[c := Cleared] == s.creators[c := Cleared];
    }
    assert s'.active == ClearedFrom(s.active, i) && s'.running == ClearedFrom(s.running, i);
  }

  /** A creator that found initialized unset clears all slots and sets it. */
  lemma Initialise(guarded: bool, s0: State, s: State, c: nat) returns (s': State)
    requires Leads(guarded, s0, s) && Shape(s) && s.scanner == {} && c in s.creators && s.creators[c].Starting?
    ensures Leads(guarded, s0, s')
    ensures s' == s.(initialized := true, active := ClearedFrom(s.active, 0), running := ClearedFrom(s.running, 0),
                     creators := s.creators[c := Ready])
  {
    var s1 := LeadsOn(guarded, s0, s, TakeToClear(c));
    var s2 := ClearSlots(guarded, s0, s1, c);
    s' := LeadsOn(guarded, s0, s2, SetInitialized(c));
    assert s2.creators[c := Ready] == s.creators[c := Ready];
  }

  /** A creator gets ready to search; the first one clears slots that are clear already. */
  lemma GetReady(guarded: bool, s0: State, s: State, c: nat) returns (s': State)
    requires Leads(guarded, s0, s) && Shape(s) && s.scanner == {} && c in s.creators && s.creators[c].Calling?
    requires !s.initialized ==> s.active == ClearedFrom(s.active, 0) && s.running == ClearedFrom(s.running, 0)
    ensures Leads(guarded, s0, s') && s' == s.(initialized := true, creators := s.creators[c := Ready])
  {
    s' := LeadsOn(guarded, s0, s, Look(c, true));
    if !s.initialized {
      var s1 := s';
      s' := Initialise(guarded, s0, s1, c);
      assert s1.creators[c := Ready] == s.creators[c := Ready];
    }
  }

  /** A search passes the taken slots and claims the first free one. */
  lemma {:induction false} Search(guarded: bool, s0: State, s: State, c: nat, m: nat) returns (s': State)
    requires Leads(guarded, s0, s) && Shape(s) && c in s.creators && s.creators[c].Scanning? && s.creators[c].i <= m < MAX_TIMERS
    requires !s.active[m] && forall i :: 0 <= i < m ==> s.active[i]
    ensures Leads(guarded, s0, s')
    ensures s' == s.(active := s.active[m := true], scanner := {}, creators := s.creators[c := Claimed(m)])
    decreases m - s.creators[c].i
  {
    var s1 := LeadsOn(guarded, s0, s, Visit(c));
    if s.creators[c].i == m {
      s' := s1;
    } else {
      s' := Search(guarded, s0, s1, c, m);
      assert s1.creators[c := Claimed(m)] == s.creators[c := Claimed(m)];
    }
  }

  lemma Claim(guarded: bool, s0: State, s: State, c: nat, m: nat) returns (s': State)
    requires Leads(guarded, s0, s) && Shape(s) && s.scanner == {} && c in s.creators && s.creators[c].Ready?
    requires m < MAX_TIMERS && !s.active[m] && forall i :: 0 <= i < m ==> s.active[i]
    ensures Leads(guarded, s0, s') && s' == s.(active := s.active[m := true], creators := s.creators[c := Claimed(m)])
  {
    var s1 := LeadsOn(guarded, s0, s, TakeTable(c));
    s' := Search(guarded, s0, s1, c, m);
    assert s1.creators[c := Claimed(m)] == s.creators[c := Claimed(m)];
  }

  /** A search that ends in a timer: its slot is live, armed and owned. */
  lemma Create(guarded: bool, s0: State, s: State, c: nat, m: nat) returns (s': State)
    requires Leads(guarded, s0, s) && Shape(s) && s.scanner == {} && c in s.creators && s.creators[c].Ready?
    requires m < MAX_TIMERS && !s.active[m] && forall i :: 0 <= i < m ==> s.active[i]
    ensures Leads(guarded, s0, s')
    ensures s' == s.(active := s.active[m := true], armed := s.armed[m := true], owned := s.owned + {m},
                     creators := s.creators[c := Returned(m)])
  {
    var s1 := Claim(guarded, s0, s, c, m);
    s' := LeadsOn(guarded, s0, s1, Configure(c, true));
    assert s1.creators[c := Returned(m)] == s.creators[c := Returned(m)];
  }

  /** Two creators make their first call at once: both see the flag unset before either has set it. */
  lemma BothLook(guarded: bool) returns (s: State)
    ensures Leads(guarded, Start({0, 1}), s)
    ensures s == Start({0, 1}).(creators := map[0 := Starting, 1 := Starting])
  {
    var s0 := Start({0, 1});
    LeadsNowhere(guarded, s0);
    var s1 := LeadsOn(guarded, s0, s0, Look(0, true));
    s := LeadsOn(guarded, s0, s1, Look(1, true));
    assert s.creators == map[0 := Starting, 1 := Starting];
  }
}
