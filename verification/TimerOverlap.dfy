/**
 Callbacks of one timer that overlap, in spite of thread_running: which runs of the handler as written
 have them, which systems of creators can come to have them, and what guarding the spawn would change.
 */
module TimerOverlap {
  import opened Sums
  import opened Timers

  // ----- From expiry to the end of the callback -----

  lemma {:induction false} ShapeRun(guarded: bool, s: State, steps: seq<Step>)
    requires Shape(s) && Valid(guarded, s, steps)
    ensures Shape(Exec(guarded, s, steps))
    decreases |steps|
  {
    if steps != [] {
      ShapeRun(guarded, Do(guarded, s, steps[0]), steps[1..]);
    }
  }

  lemma SpawnStep(guarded: bool, s: State, v: nat, ok: bool)
    requires Shape(s) && v < MAX_TIMERS && s.toSpawn[v] > 0
    ensures Can(s, Spawn(v, ok))
    ensures Do(guarded, s, Spawn(v, ok)) ==
            s.(toSpawn := s.toSpawn[v := s.toSpawn[v] - 1], inFlight := s.inFlight[v := s.inFlight[v] + if ok then 1 else 0])
  {
    assert s.inFlight[v := s.inFlight[v] + 0] == s.inFlight;
  }

  /** In every run a handler past its scan can go on to create its callback thread, or fail to, which leaves
      thread_running as it is; and a callback thread can always end, and clears it. */
  lemma CallbackLife(guarded: bool, creators: set<nat>, steps: seq<Step>, v: nat, ok: bool)
    requires Valid(guarded, Start(creators), steps) && v < MAX_TIMERS
    ensures var s := Exec(guarded, Start(creators), steps);
            && Shape(s)
            && (s.scanner == {} ==> Can(s, Expire(v)))
            && (s.toSpawn[v] > 0 ==>
                  && Can(s, Spawn(v, ok))
                  && Do(guarded, s, Spawn(v, ok)) ==
                     s.(toSpawn := s.toSpawn[v := s.toSpawn[v] - 1],
                        inFlight := s.inFlight[v := s.inFlight[v] + if ok then 1 else 0]))
            && (s.inFlight[v] > 0 ==>
                  && Can(s, Finish(v))
                  && Do(guarded, s, Finish(v)) ==
                     s.(inFlight := s.inFlight[v := s.inFlight[v] - 1], running := s.running[v := false]))
  {
    ShapeRun(guarded, Start(creators), steps);
    var s := Exec(guarded, Start(creators), steps);
    if s.toSpawn[v] > 0 {
      SpawnStep(guarded, s, v, ok);
    }
  }

  // ----- Which runs overlap -----

  /** Callback threads of slot v that are in flight or about to be created. */
  function Outstanding(s: State, v: nat): nat
    requires Shape(s) && v < MAX_TIMERS
  {
    s.toSpawn[v] + s.inFlight[v]
  }

  /** At some moment of the run two callbacks of slot v are outstanding. */
  predicate OverlapsDuring(guarded: bool, s: State, steps: seq<Step>, v: nat)
    requires Shape(s) && v < MAX_TIMERS && Valid(guarded, s, steps)
    decreases |steps|
  {
    Outstanding(s, v) >= 2 || (steps != [] && OverlapsDuring(guarded, Do(guarded, s, steps[0]), steps[1..], v))
  }

  /** A timer_system_init has cleared the flag of slot v while it was set, and no callback has ended since. */
  predicate HiddenAfter(s: State, step: Step, v: nat, hidden: bool)
    requires Shape(s) && v < MAX_TIMERS
  {
    step != Finish(v) && (hidden || (ClearsSlot(s, step, v) && s.running[v]))
  }

  /** Some expiry of the run finds slot v active, and its callback thread running: by the flag, which only the
      code as written disregards, or although the flag has been cleared. */
  predicate ExpiresTooSoon(guarded: bool, s: State, steps: seq<Step>, v: nat, hidden: bool)
    requires Shape(s) && v < MAX_TIMERS && Valid(guarded, s, steps)
    decreases |steps|
  {
    && steps != []
    && ((steps[0] == Expire(v) && s.active[v] && (hidden || (s.running[v] && !guarded)))
        || ExpiresTooSoon(guarded, Do(guarded, s, steps[0]), steps[1..], v, HiddenAfter(s, steps[0], v, hidden)))
  }

  /** The step is one of timer_system_init, and clears slot v while a callback of it is outstanding. */
  predicate Uncovers(s: State, step: Step, v: nat)
    requires Shape(s) && v < MAX_TIMERS
  {
    ClearsSlot(s, step, v) && Outstanding(s, v) > 0
  }

  predicate UncoversDuring(guarded: bool, s: State, steps: seq<Step>, v: nat)
    requires Shape(s) && v < MAX_TIMERS && Valid(guarded, s, steps)
    decreases |steps|
  {
    && steps != []
    && (Uncovers(s, steps[0], v) || UncoversDuring(guarded, Do(guarded, s, steps[0]), steps[1..], v))
  }

  predicate SpawnsSucceed(steps: seq<Step>) {
    forall i :: 0 <= i < |steps| && steps[i].Spawn? ==> steps[i].ok
  }

  /** A callback is outstanding only under thread_running, and alone. */
  predicate Covered(s: State, v: nat)
    requires Shape(s) && v < MAX_TIMERS
  {
    Outstanding(s, v) <= if s.running[v] then 1 else 0
  }

  /** What a step does to the callbacks of slot v and to its flag. */
  lemma CallbackStep(guarded: bool, s: State, step: Step, v: nat)
    requires Can(s, step) && v < MAX_TIMERS
    ensures var s' := Do(guarded, s, step);
            && Shape(s')
            && (s'.running[v] <==>
                  if step == Expire(v) then s.running[v] || s.active[v] else s.running[v] && step != Finish(v) && !ClearsSlot(s, step, v))
            && Outstanding(s', v) == Outstanding(s, v)
                                     + (if step == Expire(v) && s.active[v] && (!guarded || !s.running[v]) then 1 else 0)
                                     - (if step == Finish(v) || step == Spawn(v, false) then 1 else 0)
  {
  }

  lemma {:induction false} OverlapsOnlyIf(guarded: bool, s: State, steps: seq<Step>, v: nat, hidden: bool)
    requires Shape(s) && v < MAX_TIMERS && Valid(guarded, s, steps)
    requires Outstanding(s, v) <= if s.running[v] || hidden then 1 else 0
    ensures OverlapsDuring(guarded, s, steps, v) ==> ExpiresTooSoon(guarded, s, steps, v, hidden)
    decreases |steps|
  {
    if steps != [] && !(steps[0] == Expire(v) && s.active[v] && (hidden || (s.running[v] && !guarded))) {
      CallbackStep(guarded, s, steps[0], v);
      OverlapsOnlyIf(guarded, Do(guarded, s, steps[0]), steps[1..], v, HiddenAfter(s, steps[0], v, hidden));
    }
  }

  lemma {:induction false} OverlapsIf(guarded: bool, s: State, steps: seq<Step>, v: nat, hidden: bool)
    requires Shape(s) && v < MAX_TIMERS && Valid(guarded, s, steps) && SpawnsSucceed(steps)
    requires s.running[v] || hidden ==> Outstanding(s, v) > 0
    requires !(s.running[v] && hidden)
    ensures ExpiresTooSoon(guarded, s, steps, v, hidden) ==> OverlapsDuring(guarded, s, steps, v)
    decreases |steps|
  {
    if steps != [] {
      CallbackStep(guarded, s, steps[0], v);
      if !(steps[0] == Expire(v) && s.active[v] && (hidden || (s.running[v] && !guarded))) {
        OverlapsIf(guarded, Do(guarded, s, steps[0]), steps[1..], v, HiddenAfter(s, steps[0], v, hidden));
      }
    }
  }

  /**
   "Don't start a new thread if one is already running" fails in a run only if an expiry comes too soon,
   and, when every callback thread is created, in exactly those runs: for the code as written, if the
   expiry finds thread_running set; with the spawn guarded as without, if a late timer_system_init has
   cleared the flag under a callback that is still to end.
   */
  lemma OverlapsIff(guarded: bool, creators: set<nat>, steps: seq<Step>, v: nat)
    requires Valid(guarded, Start(creators), steps) && v < MAX_TIMERS
    ensures OverlapsDuring(guarded, Start(creators), steps, v) ==> ExpiresTooSoon(guarded, Start(creators), steps, v, false)
    ensures SpawnsSucceed(steps) ==>
              (OverlapsDuring(guarded, Start(creators), steps, v) <==> ExpiresTooSoon(guarded, Start(creators), steps, v, false))
  {
    OverlapsOnlyIf(guarded, Start(creators), steps, v, false);
    if SpawnsSucceed(steps) {
      OverlapsIf(guarded, Start(creators), steps, v, false);
    }
  }

  // ----- The spawn guarded by the flag -----

  predicate CoveredThroughout(guarded: bool, s: State, steps: seq<Step>, v: nat)
    requires Shape(s) && v < MAX_TIMERS && Valid(guarded, s, steps)
    decreases |steps|
  {
    Covered(s, v) && (steps != [] ==> CoveredThroughout(guarded, Do(guarded, s, steps[0]), steps[1..], v))
  }

  lemma {:induction false} GuardedRun(s: State, steps: seq<Step>, v: nat)
    requires Shape(s) && v < MAX_TIMERS && Covered(s, v) && Valid(true, s, steps)
    ensures CoveredThroughout(true, s, steps, v) <==> !UncoversDuring(true, s, steps, v)
    ensures !UncoversDuring(true, s, steps, v) ==>
              var s' := Exec(true, s, steps); Shape(s') && Covered(s', v)
    decreases |steps|
  {
    if steps != [] {
      var s' := Do(true, s, steps[0]);
      CallbackStep(true, s, steps[0], v);
      if Uncovers(s, steps[0], v) {
        assert !Covered(s', v);
      } else {
        GuardedRun(s', steps[1..], v);
      }
    }
  }

  /** With the spawn guarded, thread_running covers the one callback of a slot all through a run exactly if
      no timer_system_init clears it meanwhile; and then two callbacks of the slot are never in flight. */
  lemma GuardedNeverOverlaps(creators: set<nat>, steps: seq<Step>, v: nat)
    requires Valid(true, Start(creators), steps) && v < MAX_TIMERS
    ensures CoveredThroughout(true, Start(creators), steps, v) <==> !UncoversDuring(true, Start(creators), steps, v)
    ensures !UncoversDuring(true, Start(creators), steps, v) ==>
              var s := Exec(true, Start(creators), steps); Shape(s) && Outstanding(s, v) <= 1
  {
    GuardedRun(Start(creators), steps, v);
  }

  lemma {:induction false} FlagRun(s: State, steps: seq<Step>, v: nat)
    requires Shape(s) && v < MAX_TIMERS && Valid(true, s, steps) && SpawnsSucceed(steps)
    requires !UncoversDuring(true, s, steps, v) && Outstanding(s, v) == if s.running[v] then 1 else 0
    ensures var s' := Exec(true, s, steps); Shape(s') && Outstanding(s', v) == if s'.running[v] then 1 else 0
    decreases |steps|
  {
    if steps != [] {
      CallbackStep(true, s, steps[0], v);
      FlagRun(Do(true, s, steps[0]), steps[1..], v);
    }
  }

  /** And with every callback thread created, the flag then says exactly whether a callback is on its way or
      in flight; so an expiry of an active slot with none starts one. */
  lemma GuardedFlagIsExact(creators: set<nat>, steps: seq<Step>, v: nat)
    requires Valid(true, Start(creators), steps) && SpawnsSucceed(steps) && v < MAX_TIMERS
    ensures !UncoversDuring(true, Start(creators), steps, v) ==>
              var s := Exec(true, Start(creators), steps);
              && Shape(s) && (s.running[v] <==> Outstanding(s, v) == 1)
              && (Can(s, Expire(v)) && s.active[v] && Outstanding(s, v) == 0 ==> Outstanding(Do(true, s, Expire(v)), v) == 1)
  {
    if !UncoversDuring(true, Start(creators), steps, v) {
      FlagRun(Start(creators), steps, v);
    }
  }

  /** A late init makes callbacks overlap even with the spawn guarded: the slower of two first calls clears
      slot 0 while the callback of the faster one's timer is in flight, and its own timer expires. */
  lemma LateInitOverlaps(guarded: bool) returns (s: State)
    ensures Leads(guarded, Start({0, 1}), s) && Shape(s) && Outstanding(s, 0) == 2
  {
    var s0 := Start({0, 1});
    var s1 := BothLook(guarded);
    var s2 := Initialise(guarded, s0, s1, 0);
    var s3 := Create(guarded, s0, s2, 0, 0);
    var s4 := LeadsOn(guarded, s0, s3, Expire(0));
    var s5 := LeadsOn(guarded, s0, s4, Spawn(0, true));
    var s6 := Initialise(guarded, s0, s5, 1);
    var s7 := Create(guarded, s0, s6, 1, 0);
    s := LeadsOn(guarded, s0, s7, Expire(0));
  }

  // ----- What an overlap takes -----

  predicate OnePerExpiry(s: State) {
    Shape(s) && forall v :: 0 <= v < MAX_TIMERS ==> s.toSpawn[v] + s.inFlight[v] <= s.expiries[v]
  }

  lemma {:induction false} WrittenRun(guarded: bool, s: State, steps: seq<Step>)
    requires OnePerExpiry(s) && Valid(guarded, s, steps)
    ensures OnePerExpiry(Exec(guarded, s, steps))
    decreases |steps|
  {
    if steps != [] {
      WrittenRun(guarded, Do(guarded, s, steps[0]), steps[1..]);
    }
  }

  predicate Over(c: Creator) {
    c.Claimed? || c.Returned?
  }

  /** The creators whose search for a slot is over. */
  function Searched(creators: map<nat, Creator>): set<nat> {
    set c | c in creators && Over(creators[c])
  }

  lemma SearchedUpdate(creators: map<nat, Creator>, c: nat, next: Creator)
    requires c in creators && (Over(creators[c]) ==> Over(next))
    ensures |Searched(creators[c := next])| == |Searched(creators)| + if Over(next) && !Over(creators[c]) then 1 else 0
  {
    assert Searched(creators[c := next]) == Searched(creators) + if Over(next) then {c} else {};
  }

  /** A search gets as far as slot i only after i others are over. */
  predicate SearchesOk(s: State) {
    forall c :: c in s.creators && s.creators[c].Scanning? ==> s.creators[c].i <= |Searched(s.creators)|
  }

  /** A slot is used only after as many searches are over as there are slots up to it. */
  predicate UsesOk(s: State)
    requires Shape(s)
  {
    forall v :: 0 <= v < MAX_TIMERS && (s.active[v] || Outstanding(s, v) > 0) ==> v < |Searched(s.creators)|
  }

  predicate SearchedEnough(s: State) {
    Shape(s) && SearchesOk(s) && UsesOk(s)
  }

  predicate EndsSearch(s: State, step: Step)
    requires Can(s, step)
  {
    step.Visit? && s.creators[step.c].i < MAX_TIMERS && !s.active[s.creators[step.c].i]
  }

  lemma SearchedGrows(s: State, step: Step)
    requires Can(s, step)
    ensures var n, n' := |Searched(s.creators)|, |Searched(Do(false, s, step).creators)|;
            n <= n' && (EndsSearch(s, step) ==> n' == n + 1)
    ensures Do(false, s, step).creators.Keys == s.creators.Keys
  {
    if !step.Delete? && !step.Expire? && !step.Spawn? && !step.Finish? {
      SearchedUpdate(s.creators, step.c, Do(false, s, step).creators[step.c]);
    }
  }

  lemma SearchesStep(s: State, step: Step)
    requires SearchedEnough(s) && Can(s, step)
    ensures SearchesOk(Do(false, s, step))
  {
    SearchedGrows(s, step);
  }

  lemma UsesStep(s: State, step: Step)
    requires SearchedEnough(s) && Can(s, step)
    ensures Shape(Do(false, s, step)) && UsesOk(Do(false, s, step))
  {
    SearchedGrows(s, step);
    forall v: nat | v < MAX_TIMERS
      ensures Shape(Do(false, s, step))
      ensures Outstanding(Do(false, s, step), v) > 0 ==> Outstanding(s, v) > 0 || s.active[v]
    {
      CallbackStep(false, s, step, v);
    }
  }

  lemma {:induction false} SearchedRun(s: State, steps: seq<Step>)
    requires SearchedEnough(s) && Valid(false, s, steps)
    ensures SearchedEnough(Exec(false, s, steps)) && Exec(false, s, steps).creators.Keys == s.creators.Keys
    decreases |steps|
  {
    if steps != [] {
      SearchesStep(s, steps[0]);
      UsesStep(s, steps[0]);
      SearchedGrows(s, steps[0]);
      SearchedRun(Do(false, s, steps[0]), steps[1..]);
    }
  }

  // ----- A run that overlaps -----

  /** The first m slots have timers, nothing has expired, and the creators in free have yet to call. */
  predicate Filled(s: State, m: nat, free: set<nat>) {
    && Shape(s) && m <= MAX_TIMERS && s.scanner == {} && (m > 0 ==> s.initialized)
    && (forall i :: 0 <= i < MAX_TIMERS ==> (s.active[i] <==> i < m))
    && (forall i :: 0 <= i < MAX_TIMERS ==> !s.running[i] && s.toSpawn[i] == s.inFlight[i] == s.expiries[i] == 0)
    && (forall c :: c in free ==> c in s.creators && s.creators[c].Calling?)
  }

  lemma FillOne(s0: State, s: State, m: nat, free: set<nat>, c: nat) returns (s': State)
    requires Leads(false, s0, s) && Filled(s, m, free) && m < MAX_TIMERS && c in free
    ensures Leads(false, s0, s') && Filled(s', m + 1, free - {c})
  {
    var s1 := GetReady(false, s0, s, c);
    s' := Create(false, s0, s1, c, m);
  }

  lemma {:induction false} Fill(s0: State, s: State, m: nat, free: set<nat>, v: nat) returns (s': State)
    requires Leads(false, s0, s) && Filled(s, m, free) && m <= v < MAX_TIMERS && v - m < |free|
    ensures Leads(false, s0, s') && Filled(s', v + 1, {})
    decreases v - m
  {
    var c :| c in free;
    s' := FillOne(s0, s, m, free, c);
    if m < v {
      s' := Fill(s0, s', m + 1, free - {c}, v);
    }
  }

  /** Two expiries before either callback thread is created. */
  lemma ExpireTwice(s0: State, s: State, v: nat) returns (s': State)
    requires Leads(false, s0, s) && Filled(s, v + 1, {}) && v < MAX_TIMERS
    ensures Leads(false, s0, s') && Shape(s') && s'.scanner == {} && s'.inFlight[v] == 2 && s'.expiries[v] == 2
  {
    var s1 := LeadsOn(false, s0, s, Expire(v));
    var s2 := LeadsOn(false, s0, s1, Expire(v));
    var s3 := LeadsOn(false, s0, s2, Spawn(v, true));
    s' := LeadsOn(false, s0, s3, Spawn(v, true));
  }

  lemma {:induction false} MoreExpiries(s0: State, s: State, v: nat, k: nat) returns (s': State)
    requires Leads(false, s0, s) && Shape(s) && s.scanner == {} && v < MAX_TIMERS
    ensures Leads(false, s0, s') && Shape(s') && s'.inFlight == s.inFlight && s'.expiries[v] == s.expiries[v] + k
    decreases k
  {
    if k == 0 {
      return s;
    }
    s' := LeadsOn(false, s0, s, Expire(v));
    s' := MoreExpiries(s0, s', v, k - 1);
  }

  // ----- The theorem -----

  function Expiries(steps: seq<Step>, v: nat): nat {
    if steps == [] then 0 else (if steps[0] == Expire(v) then 1 else 0) + Expiries(steps[1..], v)
  }

  lemma ExpiryStep(guarded: bool, s: State, step: Step, v: nat)
    requires Can(s, step) && v < MAX_TIMERS
    ensures var s' := Do(guarded, s, step);
            Shape(s') && s'.expiries[v] == s.expiries[v] + if step == Expire(v) then 1 else 0
  {
  }

  lemma {:induction false} ExpiriesCounted(guarded: bool, s: State, steps: seq<Step>, v: nat)
    requires Shape(s) && Valid(guarded, s, steps) && v < MAX_TIMERS
    ensures var s' := Exec(guarded, s, steps); Shape(s') && s'.expiries[v] == s.expiries[v] + Expiries(steps, v)
    decreases |steps|
  {
    if steps != [] {
      ExpiryStep(guarded, s, steps[0], v);
      ExpiriesCounted(guarded, Do(guarded, s, steps[0]), steps[1..], v);
    }
  }

  /** A run of the code as written has two callbacks of slot v in flight after k of its expiries. */
  predicate OverlapsUnder(creators: set<nat>, v: nat, k: nat, steps: seq<Step>) {
    && v < MAX_TIMERS && Valid(false, Start(creators), steps)
    && var s := Exec(false, Start(creators), steps);
       Shape(s) && Expiries(steps, v) == k && s.inFlight[v] >= 2
  }

  lemma OverlapReachable(creators: set<nat>, v: nat, k: nat)
    requires v < MAX_TIMERS && v < |creators| && k >= 2
    ensures exists steps :: OverlapsUnder(creators, v, k, steps)
  {
    var s0 := Start(creators);
    LeadsNowhere(false, s0);
    var s := Fill(s0, s0, 0, creators, v);
    s := ExpireTwice(s0, s, v);
    s := MoreExpiries(s0, s, v, k - 2);
    var steps :| Reaches(false, s0, steps, s);
    ExpiriesCounted(false, s0, steps, v);
    assert OverlapsUnder(creators, v, k, steps);
  }

  lemma OverlapNeeds(creators: set<nat>, v: nat, k: nat, steps: seq<Step>)
    requires OverlapsUnder(creators, v, k, steps)
    ensures v < |creators| && k >= 2
  {
    var s0 := Start(creators);
    WrittenRun(false, s0, steps);
    ExpiriesCounted(false, s0, steps, v);
    SearchedRun(s0, steps);
    assert s0.creators.Keys == creators;
    SubsetSize(Searched(Exec(false, s0, steps).creators), creators);
    assert Outstanding(Exec(false, s0, steps), v) > 0;
  }

  /** Two callbacks of a slot can be in flight after k of its expiries exactly when some timer can come
      to have the slot, which takes a creator for it and one for each slot below, and k is at least two. */
  lemma OverlapPossibleIff(creators: set<nat>, v: nat, k: nat)
    requires v < MAX_TIMERS
    ensures (exists steps :: OverlapsUnder(creators, v, k, steps)) <==> v < |creators| && k >= 2
  {
    if v < |creators| && k >= 2 {
      OverlapReachable(creators, v, k);
    }
    forall steps | OverlapsUnder(creators, v, k, steps) ensures v < |creators| && k >= 2 {
      OverlapNeeds(creators, v, k, steps);
    }
  }
}
