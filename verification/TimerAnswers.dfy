/**
 What create answers: every answer traced back to what happened to this creator in the run.
 */
module TimerAnswers {
  import opened Timers

  /** What a creator's search found, slot after slot (was it active?), and which of its calls failed. */
  datatype Story = Story(found: seq<bool>, uninstalled: bool, unconfigured: bool)

  function Told(s: State, step: Step, c: nat, h: Story): Story
    requires Can(s, step)
  {
    if step == Visit(c) && s.creators[c].i < MAX_TIMERS then h.(found := h.found + [s.active[s.creators[c].i]])
    else if step == Look(c, false) && !s.initialized then h.(uninstalled := true)
    else if step == Configure(c, false) then h.(unconfigured := true)
    else h
  }

  function StoryOf(guarded: bool, s: State, steps: seq<Step>, c: nat, h: Story): Story
    requires Valid(guarded, s, steps)
    decreases |steps|
  {
    if steps == [] then h else StoryOf(guarded, Do(guarded, s, steps[0]), steps[1..], c, Told(s, steps[0], c, h))
  }

  /** The search passed k slots, all of them active. */
  predicate Passed(found: seq<bool>, k: nat) {
    |found| == k && forall i :: 0 <= i < k ==> found[i]
  }

  /** The search passed k active slots and found the next one free. */
  predicate Stopped(found: seq<bool>, k: nat) {
    |found| == k + 1 && !found[k] && Passed(found[..k], k)
  }

  /** Where the creator is fits what has happened to it. */
  predicate Fits(p: Creator, h: Story) {
    match p
    case Scanning(i) => !h.uninstalled && !h.unconfigured && i <= MAX_TIMERS && Passed(h.found, i)
    case Claimed(i) => !h.uninstalled && !h.unconfigured && i < MAX_TIMERS && Stopped(h.found, i)
    case Returned(id) =>
      if h.uninstalled then id == -1 && h.found == []
      else if h.unconfigured then id == -1 && 0 < |h.found| <= MAX_TIMERS && Stopped(h.found, |h.found| - 1)
      else if id == -1 then Passed(h.found, MAX_TIMERS)
      else 0 <= id < MAX_TIMERS && Stopped(h.found, id)
    case _ => h == Story([], false, false)
  }

  predicate IsStepOf(step: Step, c: nat) {
    !step.Delete? && !step.Expire? && !step.Spawn? && !step.Finish? && step.c == c
  }

  lemma StepOfAnother(guarded: bool, s: State, step: Step, c: nat, h: Story)
    requires Can(s, step) && c in s.creators && !IsStepOf(step, c)
    ensures c in Do(guarded, s, step).creators && Do(guarded, s, step).creators[c] == s.creators[c] && Told(s, step, c, h) == h
  {
  }

  lemma FitsVisit(guarded: bool, s: State, c: nat, h: Story)
    requires Can(s, Visit(c)) && Fits(s.creators[c], h)
    ensures Fits(Do(guarded, s, Visit(c)).creators[c], Told(s, Visit(c), c, h))
  {
    var i := s.creators[c].i;
    if i < MAX_TIMERS {
      assert (h.found + [s.active[i]])[..i] == h.found;
    }
  }

  lemma FitsStep(guarded: bool, s: State, step: Step, c: nat, h: Story)
    requires Can(s, step) && c in s.creators && Fits(s.creators[c], h)
    ensures c in Do(guarded, s, step).creators && Fits(Do(guarded, s, step).creators[c], Told(s, step, c, h))
  {
    if !IsStepOf(step, c) {
      StepOfAnother(guarded, s, step, c, h);
    } else if step.Visit? {
      FitsVisit(guarded, s, c, h);
    }
  }

  lemma {:induction false} FitsRun(guarded: bool, s: State, steps: seq<Step>, c: nat, h: Story)
    requires Valid(guarded, s, steps) && c in s.creators && Fits(s.creators[c], h)
    ensures c in Exec(guarded, s, steps).creators && Fits(Exec(guarded, s, steps).creators[c], StoryOf(guarded, s, steps, c, h))
    decreases |steps|
  {
    if steps != [] {
      FitsStep(guarded, s, steps[0], c, h);
      FitsRun(guarded, Do(guarded, s, steps[0]), steps[1..], c, Told(s, steps[0], c, h));
    }
  }

  /**
   In every run, orderly or not: an id other than -1 is that of the slot this creator's search found free,
   after finding every slot below it active, and its calls succeeded. The answer is -1 exactly if sigaction
   failed, if the slot found could not be configured, or if the search found every slot active and is over.
   */
  lemma CreateAnswers(guarded: bool, creators: set<nat>, steps: seq<Step>, c: nat)
    requires Valid(guarded, Start(creators), steps) && c in creators
    ensures var s, h := Exec(guarded, Start(creators), steps), StoryOf(guarded, Start(creators), steps, c, Story([], false, false));
            && c in s.creators
            && (forall id :: s.creators[c] == Returned(id) && id != -1 ==>
                  0 <= id < MAX_TIMERS && Stopped(h.found, id) && !h.uninstalled && !h.unconfigured)
            && (s.creators[c] == Returned(-1) <==>
                  h.uninstalled || h.unconfigured || (Passed(h.found, MAX_TIMERS) && s.creators[c] != Scanning(MAX_TIMERS)))
  {
    FitsRun(guarded, Start(creators), steps, c, Story([], false, false));
  }

  // ----- Every create returns -----

  /** Whoever holds timers_mutex is clearing or searching, and a claimed slot exists. */
  ghost predicate HoldersOk(s: State) {
    && Shape(s)
    && (s.scanner != {} ==> exists d: nat :: s.scanner == {d} && d in s.creators && Holding(s.creators[d]))
    && (forall c :: c in s.creators && Holding(s.creators[c]) ==> s.scanner == {c})
    && (forall c :: c in s.creators && s.creators[c].Claimed? ==> s.creators[c].slot < MAX_TIMERS)
  }

  predicate Holding(p: Creator) {
    p.Clearing? || p.Scanning?
  }

  lemma HolderKnown(guarded: bool, s: State, step: Step)
    requires HoldersOk(s) && Can(s, step) && Do(guarded, s, step).scanner != {}
    ensures var s' := Do(guarded, s, step); exists d: nat :: s'.scanner == {d} && d in s'.creators && Holding(s'.creators[d])
  {
    var s' := Do(guarded, s, step);
    var d: nat :| if s.scanner == {} then s'.scanner == {d} else s.scanner == {d} && d in s.creators && Holding(s.creators[d]);
    assert s'.scanner == {d} && d in s'.creators && Holding(s'.creators[d]);
  }

  lemma HoldersStep(guarded: bool, s: State, step: Step)
    requires HoldersOk(s) && Can(s, step)
    ensures HoldersOk(Do(guarded, s, step))
  {
    if Do(guarded, s, step).scanner != {} {
      HolderKnown(guarded, s, step);
    }
  }

  lemma {:induction false} HoldersRun(guarded: bool, s: State, steps: seq<Step>)
    requires HoldersOk(s) && Valid(guarded, s, steps)
    ensures HoldersOk(Exec(guarded, s, steps))
    decreases |steps|
  {
    if steps != [] {
      HoldersStep(guarded, s, steps[0]);
      HoldersRun(guarded, Do(guarded, s, steps[0]), steps[1..]);
    }
  }

  /** The step creator d takes next. */
  function NextStep(p: Creator, d: nat): Step {
    match p
    case Starting => TakeToClear(d)
    case Clearing(_) => Clear(d)
    case Cleared => SetInitialized(d)
    case Ready => TakeTable(d)
    case Scanning(_) => Visit(d)
    case Claimed(_) => Configure(d, true)
    case _ => Look(d, true)
  }

  /** A bound on the steps a creator still takes. */
  function StepsLeft(p: Creator): nat {
    match p
    case Calling => 2 * MAX_TIMERS + 8
    case Starting => 2 * MAX_TIMERS + 7
    case Clearing(i) => MAX_TIMERS + 6 + if i <= MAX_TIMERS then MAX_TIMERS - i else 0
    case Cleared => MAX_TIMERS + 5
    case Ready => MAX_TIMERS + 4
    case Scanning(i) => 2 + if i <= MAX_TIMERS then MAX_TIMERS - i else 0
    case Claimed(_) => 1
    case Returned(_) => 0
  }

  function StepsOf(steps: seq<Step>, c: nat): nat {
    if steps == [] then 0 else (if IsStepOf(steps[0], c) then 1 else 0) + StepsOf(steps[1..], c)
  }

  lemma OwnStepCounts(guarded: bool, s: State, step: Step, c: nat)
    requires Can(s, step) && c in s.creators && IsStepOf(step, c)
    ensures c in Do(guarded, s, step).creators && StepsLeft(Do(guarded, s, step).creators[c]) < StepsLeft(s.creators[c])
  {
  }

  lemma {:induction false} StepsRun(guarded: bool, s: State, steps: seq<Step>, c: nat)
    requires Valid(guarded, s, steps) && c in s.creators
    ensures c in Exec(guarded, s, steps).creators
    ensures StepsOf(steps, c) + StepsLeft(Exec(guarded, s, steps).creators[c]) <= StepsLeft(s.creators[c])
    decreases |steps|
  {
    if steps != [] {
      if IsStepOf(steps[0], c) {
        OwnStepCounts(guarded, s, steps[0], c);
      } else {
        StepOfAnother(guarded, s, steps[0], c, Story([], false, false));
      }
      StepsRun(guarded, Do(guarded, s, steps[0]), steps[1..], c);
    }
  }

  /**
   Every create returns: in every run a creator takes at most 2 * MAX_TIMERS + 8 steps, and one that has not
   returned can take its next step, or waits for timers_mutex, whose holder can take its own.
   */
  lemma CreateReturns(guarded: bool, creators: set<nat>, steps: seq<Step>, c: nat)
    requires Valid(guarded, Start(creators), steps) && c in creators
    ensures var s := Exec(guarded, Start(creators), steps);
            && c in s.creators && StepsOf(steps, c) <= 2 * MAX_TIMERS + 8
            && (!s.creators[c].Returned? ==>
                  || Can(s, NextStep(s.creators[c], c))
                  || exists d: nat :: d in s.creators && s.scanner == {d} && Can(s, NextStep(s.creators[d], d)))
  {
    HoldersRun(guarded, Start(creators), steps);
    StepsRun(guarded, Start(creators), steps, c);
    var s := Exec(guarded, Start(creators), steps);
    if !s.creators[c].Returned? && !Can(s, NextStep(s.creators[c], c)) {
      var d: nat :| s.scanner == {d} && d in s.creators && Holding(s.creators[d]);
      assert Can(s, NextStep(s.creators[d], d));
    }
  }
}
