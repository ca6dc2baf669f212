/**
 Who has which timer slot: when every timer keeps a slot of its own, and when ids are fresh.
 */
module TimerSlots {
  import opened Timers

  predicate Claims(s: State, c: nat, i: nat) {
    c in s.creators && s.creators[c] == Claimed(i)
  }

  /** The slots of live timers and of timers being configured are active, and nobody shares one. */
  ghost predicate Exclusive(s: State) {
    && Shape(s)
    && (forall i :: i in s.owned ==> i < MAX_TIMERS && s.active[i])
    && (forall c: nat, i: nat :: Claims(s, c, i) ==> i < MAX_TIMERS && s.active[i] && i !in s.owned)
    && (forall c: nat, d: nat, i: nat :: Claims(s, c, i) && Claims(s, d, i) ==> c == d)
  }

  /** Moreover every active slot is owned or being configured. */
  ghost predicate SlotsOk(s: State) {
    && Exclusive(s)
    && (forall i :: 0 <= i < MAX_TIMERS && s.active[i] ==> i in s.owned || exists c :: Claims(s, c, i))
    && (forall i :: 0 <= i < MAX_TIMERS ==> (s.armed[i] <==> i in s.owned))
    && (forall c :: c in s.creators && (s.creators[c].Scanning? || s.creators[c].Clearing?) ==> s.scanner == {c})
  }

  /** The step deletes a timer whose id create has not returned yet: a slot being configured. */
  predicate EarlyDelete(s: State, step: Step)
    requires Shape(s)
  {
    step.Delete? && IsActive(s, step.id) && step.id !in s.owned
  }

  /** The step is one of timer_system_init, and clears a slot that is in use. */
  predicate LateClear(s: State, step: Step)
    requires Shape(s)
  {
    exists i :: 0 <= i < MAX_TIMERS && s.active[i] && ClearsSlot(s, step, i)
  }

  predicate Orderly(s: State, step: Step)
    requires Shape(s)
  {
    !EarlyDelete(s, step) && !LateClear(s, step)
  }

  /** No step of the run deletes early or clears late. */
  predicate OrderlyThroughout(guarded: bool, s: State, steps: seq<Step>)
    requires Valid(guarded, s, steps)
    decreases |steps|
  {
    steps == [] || (Orderly(s, steps[0]) && OrderlyThroughout(guarded, Do(guarded, s, steps[0]), steps[1..]))
  }

  lemma ClaimsStep(guarded: bool, s: State, step: Step, c: nat, i: nat)
    requires SlotsOk(s) && Can(s, step)
    ensures var s' := Do(guarded, s, step);
            Claims(s', c, i) <==>
            if step.Visit? && c == step.c then i < MAX_TIMERS && i == s.creators[c].i && !s.active[i]
            else Claims(s, c, i) && !(step.Configure? && c == step.c)
  {
  }

  lemma OwnedStep(guarded: bool, s: State, step: Step, i: nat)
    requires SlotsOk(s) && Can(s, step) && Orderly(s, step)
    ensures var s' := Do(guarded, s, step); Shape(s') && (i in s'.owned ==> i < MAX_TIMERS && s'.active[i])
  {
    assert step.Configure? ==> Claims(s, step.c, s.creators[step.c].slot);
    assert i < MAX_TIMERS && s.active[i] ==> !ClearsSlot(s, step, i);
  }

  lemma ArmedStep(guarded: bool, s: State, step: Step, i: nat)
    requires SlotsOk(s) && Can(s, step) && Orderly(s, step) && i < MAX_TIMERS
    ensures var s' := Do(guarded, s, step); Shape(s') && (s'.armed[i] <==> i in s'.owned)
  {
  }

  lemma ScannerStep(guarded: bool, s: State, step: Step)
    requires SlotsOk(s) && Can(s, step)
    ensures var s' := Do(guarded, s, step);
            forall c :: c in s'.creators && (s'.creators[c].Scanning? || s'.creators[c].Clearing?) ==> s'.scanner == {c}
  {
  }

  lemma ClaimedStep(guarded: bool, s: State, step: Step, c: nat, d: nat, i: nat)
    requires SlotsOk(s) && Can(s, step) && Orderly(s, step) && Claims(Do(guarded, s, step), c, i)
    ensures var s' := Do(guarded, s, step); i < MAX_TIMERS && s'.active[i] && i !in s'.owned
    ensures Claims(Do(guarded, s, step), d, i) ==> c == d
  {
    ClaimsStep(guarded, s, step, c, i);
    ClaimsStep(guarded, s, step, d, i);
    assert step.Configure? ==> Claims(s, step.c, s.creators[step.c].slot);
  }

  lemma SlotsStep(guarded: bool, s: State, step: Step)
    requires SlotsOk(s) && Can(s, step) && Orderly(s, step)
    ensures SlotsOk(Do(guarded, s, step))
  {
    var s' := Do(guarded, s, step);
    forall i: nat
      ensures Shape(s') && (i in s'.owned ==> i < MAX_TIMERS && s'.active[i])
      ensures i < MAX_TIMERS ==> (s'.armed[i] <==> i in s'.owned)
    {
      OwnedStep(guarded, s, step, i);
      if i < MAX_TIMERS {
        ArmedStep(guarded, s, step, i);
      }
    }
    ScannerStep(guarded, s, step);
    forall c: nat, d: nat, i: nat | Claims(s', c, i)
      ensures i < MAX_TIMERS && s'.active[i] && i !in s'.owned && (Claims(s', d, i) ==> c == d)
    {
      ClaimedStep(guarded, s, step, c, d, i);
    }
    forall i: nat | i < MAX_TIMERS && s'.active[i] && i !in s'.owned
      ensures exists c :: Claims(s', c, i)
    {
      ActiveAccounted(guarded, s, step, i);
    }
  }

  lemma ActiveAccounted(guarded: bool, s: State, step: Step, i: nat)
    requires SlotsOk(s) && Can(s, step) && Orderly(s, step) && i < MAX_TIMERS
    requires var s' := Do(guarded, s, step); s'.active[i] && i !in s'.owned
    ensures exists c :: Claims(Do(guarded, s, step), c, i)
  {
    if s.active[i] {
      var c: nat :| Claims(s, c, i);
      ClaimsStep(guarded, s, step, c, i);
      assert Claims(Do(guarded, s, step), c, i);
    } else {
      assert Claims(Do(guarded, s, step), step.c, i);
    }
  }

  lemma {:induction false} SlotsRun(guarded: bool, s: State, steps: seq<Step>)
    requires SlotsOk(s) && Valid(guarded, s, steps) && OrderlyThroughout(guarded, s, steps)
    ensures SlotsOk(Exec(guarded, s, steps))
    decreases |steps|
  {
    if steps != [] {
      SlotsStep(guarded, s, steps[0]);
      SlotsRun(guarded, Do(guarded, s, steps[0]), steps[1..]);
    }
  }

  /** The step makes create return this to c. */
  predicate Returns(guarded: bool, s: State, step: Step, c: nat, id: int)
    requires Can(s, step)
  {
    c in s.creators && !s.creators[c].Returned? && Do(guarded, s, step).creators[c] == Returned(id)
  }

  lemma ReturnIsFresh(guarded: bool, s: State, step: Step, c: nat, id: int)
    requires SlotsOk(s) && Can(s, step) && Returns(guarded, s, step, c, id)
    ensures var s' := Do(guarded, s, step);
            && Shape(s')
            && if id == -1 then s'.owned == s.owned && (step.Configure? ==> !s'.active[s.creators[c].slot])
               else 0 <= id < MAX_TIMERS && id !in s.owned && s'.owned == s.owned + {id} && s'.active[id] && s'.armed[id]
    ensures step.Configure? && step.c == c ==> id == if step.ok then s.creators[c].slot else -1
  {
    assert step.Configure? ==> Claims(s, step.c, s.creators[step.c].slot);
  }

  /** Whenever create returns it is with -1 and no timer, its slot free again if it had one, or with an id in
      range that no live timer has; and the second exactly if the slot it had found could be configured. */
  lemma IdsAreFresh(guarded: bool, creators: set<nat>, steps: seq<Step>, step: Step, c: nat, id: int)
    requires Valid(guarded, Start(creators), steps) && OrderlyThroughout(guarded, Start(creators), steps)
    requires var s := Exec(guarded, Start(creators), steps); Can(s, step) && Returns(guarded, s, step, c, id)
    ensures var s := Exec(guarded, Start(creators), steps);
            var s' := Do(guarded, s, step);
            && Shape(s')
            && (if id == -1 then s'.owned == s.owned && (step.Configure? ==> !s'.active[s.creators[c].slot])
                else 0 <= id < MAX_TIMERS && id !in s.owned && s'.owned == s.owned + {id} && s'.active[id] && s'.armed[id])
            && (id != -1 <==> step == Configure(c, true))
  {
    SlotsRun(guarded, Start(creators), steps);
    ReturnIsFresh(guarded, Exec(guarded, Start(creators), steps), step, c, id);
  }

  /** A delete succeeds exactly for the id of a live timer, which it ends; one that is refused changes nothing. */
  lemma DeletesExactly(guarded: bool, creators: set<nat>, steps: seq<Step>, id: int)
    requires Valid(guarded, Start(creators), steps) && OrderlyThroughout(guarded, Start(creators), steps)
    requires var s := Exec(guarded, Start(creators), steps); Shape(s) && !EarlyDelete(s, Delete(id))
    ensures var s := Exec(guarded, Start(creators), steps);
            && (IsActive(s, id) <==> id in s.owned)
            && Do(guarded, s, Delete(id)) ==
               if id in s.owned then s.(active := s.active[id := false], armed := s.armed[id := false], owned := s.owned - {id})
               else s
  {
    SlotsRun(guarded, Start(creators), steps);
  }

  ghost predicate ExclusiveThroughout(guarded: bool, s: State, steps: seq<Step>)
    requires Valid(guarded, s, steps)
    decreases |steps|
  {
    Exclusive(s) && (steps != [] ==> ExclusiveThroughout(guarded, Do(guarded, s, steps[0]), steps[1..]))
  }

  /** Deleting a slot that is being configured frees it under its creator. */
  lemma EarlyDeleteShares(guarded: bool, s: State, step: Step)
    requires SlotsOk(s) && Can(s, step) && EarlyDelete(s, step)
    ensures !Exclusive(Do(guarded, s, step))
  {
    var c: nat :| Claims(s, c, step.id);
    assert Claims(Do(guarded, s, step), c, step.id);
  }

  /** Clearing a slot that is in use takes it from its timer, or from the creator configuring it. */
  lemma LateClearShares(guarded: bool, s: State, step: Step)
    requires SlotsOk(s) && Can(s, step) && LateClear(s, step)
    ensures !Exclusive(Do(guarded, s, step))
  {
    var i: nat :| i < MAX_TIMERS && s.active[i] && ClearsSlot(s, step, i);
    if i !in s.owned {
      var c: nat :| Claims(s, c, i);
      assert Claims(Do(guarded, s, step), c, i);
    }
  }

  lemma {:induction false} ExclusiveRun(guarded: bool, s: State, steps: seq<Step>)
    requires SlotsOk(s) && Valid(guarded, s, steps)
    ensures ExclusiveThroughout(guarded, s, steps) <==> OrderlyThroughout(guarded, s, steps)
    decreases |steps|
  {
    if steps != [] {
      if EarlyDelete(s, steps[0]) {
        EarlyDeleteShares(guarded, s, steps[0]);
      } else if LateClear(s, steps[0]) {
        LateClearShares(guarded, s, steps[0]);
      } else {
        SlotsStep(guarded, s, steps[0]);
        ExclusiveRun(guarded, Do(guarded, s, steps[0]), steps[1..]);
      }
    }
  }

  /** Nobody loses or shares a slot, all through the run, exactly if no delete guesses an id early and no
      timer_system_init comes late, to slots already in use. */
  lemma ExclusiveIff(guarded: bool, creators: set<nat>, steps: seq<Step>)
    requires Valid(guarded, Start(creators), steps)
    ensures ExclusiveThroughout(guarded, Start(creators), steps) <==> OrderlyThroughout(guarded, Start(creators), steps)
  {
    ExclusiveRun(guarded, Start(creators), steps);
  }

  /** An early delete does harm: two creators are given the same slot, and both get its id. */
  lemma IdReturnedTwice() returns (s: State)
    ensures Leads(false, Start({0, 1}), s) && s.creators == map[0 := Returned(0), 1 := Returned(0)]
  {
    var s0 := Start({0, 1});
    LeadsNowhere(false, s0);
    var s1 := GetReady(false, s0, s0, 0);
    var s2 := Claim(false, s0, s1, 0, 0);
    var s3 := LeadsOn(false, s0, s2, Delete(0));
    var s4 := GetReady(false, s0, s3, 1);
    var s5 := Create(false, s0, s4, 1, 0);
    s := LeadsOn(false, s0, s5, Configure(0, true));
  }

  /** So does a late init, without any delete: of two first calls at once, the slower one clears the slot
      of the faster one's timer, and takes it. */
  lemma RacingFirstCalls() returns (s: State)
    ensures Leads(false, Start({0, 1}), s) && s.creators == map[0 := Returned(0), 1 := Returned(0)]
  {
    var s0 := Start({0, 1});
    var s1 := BothLook(false);
    var s2 := Initialise(false, s0, s1, 0);
    var s3 := Create(false, s0, s2, 0, 0);
    var s4 := Initialise(false, s0, s3, 1);
    s := Create(false, s0, s4, 1, 0);
  }
}
