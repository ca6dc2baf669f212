/**
 The timeout demonstration of lesson 9: any number of threads running thread1_function_timeout or
 thread2_function_timeout. The first mutex is taken with a blocking lock, the second through
 mutex_lock_with_timeout, a trylock loop. The clock counts milliseconds and moves on its own;
 time(NULL) is the clock divided by 1000, and usleep(10000) returns no earlier than 10 ms later.
 */
module TimeoutLocks {
  import opened Sums
  import opened Deadlock

  const TIMEOUT_SECONDS: nat := 3
  const NAP_MS: nat := 10

  datatype Phase =
    | Begin                              // about to lock the first mutex
    | HasFirst                           // about to call mutex_lock_with_timeout
    | Trying(begun: nat, since: nat)     // at the trylock; begun: the time of the call; since: no later than now
    | Failed(begun: nat, since: nat)     // trylock failed, about to look at the clock
    | Napping(begun: nat, until: nat)    // in usleep
    | HasBoth                            // working with both resources
    | Leaving                            // done with both, about to unlock the first mutex
    | GaveUp(begun: nat, at: nat)        // timed out at this time, about to unlock the first mutex
    | Done

  datatype State = State(phase: seq<Phase>, owner: map<nat, nat>, now: nat)

  datatype Step = Move(t: nat) | Tick(ms: nat)

  function Begins(bodies: seq<Body>, now: nat): State {
    State(seq(|bodies|, _ => Begin), map[], now)
  }

  function Mine(body: Body): nat { First(body, false) }

  function Other(body: Body): nat { A + B - Mine(body) }

  predicate CanMove(bodies: seq<Body>, s: State, t: nat) {
    && |s.phase| == |bodies| && t < |bodies|
    && match s.phase[t]
       case Begin => Mine(bodies[t]) !in s.owner
       case Napping(_, until) => until <= s.now
       case Done => false
       case _ => true
  }

  predicate Can(bodies: seq<Body>, s: State, step: Step) {
    match step
    case Move(t) => CanMove(bodies, s, t)
    case Tick(_) => |s.phase| == |bodies|
  }

  function Later(s: State, ms: nat): State {
    s.(now := s.now + ms)
  }

  function Do(bodies: seq<Body>, s: State, step: Step): State
    requires Can(bodies, s, step)
  {
    match step
    case Tick(ms) => Later(s, ms)
    case Move(t) =>
      var mine, other := Mine(bodies[t]), Other(bodies[t]);
      match s.phase[t]
      case Begin => s.(phase := s.phase[t := HasFirst], owner := s.owner[mine := t])
      case HasFirst => s.(phase := s.phase[t := Trying(s.now, s.now)])
      case Trying(begun, since) =>
        if other !in s.owner then s.(phase := s.phase[t := HasBoth], owner := s.owner[other := t])
        else s.(phase := s.phase[t := Failed(begun, since)])
      case Failed(begun, _) =>
        if s.now / 1000 - begun / 1000 >= TIMEOUT_SECONDS then s.(phase := s.phase[t := GaveUp(begun, s.now)])
        else s.(phase := s.phase[t := Napping(begun, s.now + NAP_MS)])
      case Napping(begun, until) => s.(phase := s.phase[t := Trying(begun, until)])
      case HasBoth => s.(phase := s.phase[t := Leaving], owner := s.owner - {other})
      case Leaving => s.(phase := s.phase[t := Done], owner := s.owner - {mine})
      case GaveUp(_, _) => s.(phase := s.phase[t := Done], owner := s.owner - {mine})
  }

  predicate Valid(bodies: seq<Body>, s: State, steps: seq<Step>)
    decreases |steps|
  {
    steps == [] || (Can(bodies, s, steps[0]) && Valid(bodies, Do(bodies, s, steps[0]), steps[1..]))
  }

  function Exec(bodies: seq<Body>, s: State, steps: seq<Step>): State
    requires Valid(bodies, s, steps)
    decreases |steps|
  {
    if steps == [] then s else Exec(bodies, Do(bodies, s, steps[0]), steps[1..])
  }

  // ----- Who holds what -----

  predicate Holds(bodies: seq<Body>, s: State, t: nat, m: nat) {
    && t < |bodies| == |s.phase|
    && !s.phase[t].Begin? && !s.phase[t].Done?
    && (m == Mine(bodies[t]) || (m == Other(bodies[t]) && s.phase[t].HasBoth?))
  }

  ghost predicate Inv(bodies: seq<Body>, s: State) {
    && |s.phase| == |bodies|
    && (forall m :: m in s.owner ==> Holds(bodies, s, s.owner[m], m))
    && (forall t, m :: Holds(bodies, s, t, m) ==> m in s.owner && s.owner[m] == t)
    && (forall t :: 0 <= t < |bodies| && (s.phase[t].Trying? || s.phase[t].Failed?) ==> s.phase[t].since <= s.now)
  }

  lemma InvMove(bodies: seq<Body>, s: State, t: nat)
    requires Inv(bodies, s) && CanMove(bodies, s, t)
    ensures Inv(bodies, Do(bodies, s, Move(t)))
  {
    var s' := Do(bodies, s, Move(t));
    forall u: nat, m: nat ensures Holds(bodies, s', u, m) <==> m in s'.owner && s'.owner[m] == u {
      assert Holds(bodies, s, u, m) <==> m in s.owner && s.owner[m] == u;
      assert u < |bodies| && u != t ==> (Holds(bodies, s', u, m) <==> Holds(bodies, s, u, m));
      assert s.phase[t].HasBoth? ==> Holds(bodies, s, t, Other(bodies[t]));
      assert s.phase[t].Leaving? || s.phase[t].GaveUp? ==> Holds(bodies, s, t, Mine(bodies[t]));
    }
  }

  lemma InvStep(bodies: seq<Body>, s: State, step: Step)
    requires Inv(bodies, s) && Can(bodies, s, step)
    ensures Inv(bodies, Do(bodies, s, step))
  {
    match step
    case Move(t) => InvMove(bodies, s, t);
    case Tick(ms) =>
      var s' := Do(bodies, s, step);
      assert forall u, m :: Holds(bodies, s', u, m) <==> Holds(bodies, s, u, m);
  }

  lemma {:induction false} InvRun(bodies: seq<Body>, s: State, steps: seq<Step>)
    requires Inv(bodies, s) && Valid(bodies, s, steps)
    ensures Inv(bodies, Exec(bodies, s, steps))
    decreases |steps|
  {
    if steps != [] {
      InvStep(bodies, s, steps[0]);
      InvRun(bodies, Do(bodies, s, steps[0]), steps[1..]);
    }
  }

  // ----- Every run ends -----

  /** How many more trylocks fit before the deadline, counted from time x. */
  function Attempts(begun: nat, x: nat): nat {
    var deadline := (begun / 1000 + TIMEOUT_SECONDS) * 1000;
    if x >= deadline then 0 else (deadline - x) / NAP_MS + 1
  }

  const MAX_MOVES: nat := 3 * 301 + 6

  /** A bound on the moves a thread still makes. */
  function Rank(p: Phase): nat {
    match p
    case Begin => MAX_MOVES
    case HasFirst => MAX_MOVES - 1
    case Napping(begun, until) => 3 * Attempts(begun, until) + 5
    case Trying(begun, since) => 3 * Attempts(begun, since) + 4
    case Failed(begun, since) => 3 * Attempts(begun, since) + 3
    case HasBoth => 2
    case Leaving => 1
    case GaveUp(_, _) => 1
    case Done => 0
  }

  lemma NapCostsAnAttempt(begun: nat, since: nat, now: nat)
    requires since <= now && now / 1000 - begun / 1000 < TIMEOUT_SECONDS
    ensures Attempts(begun, now + NAP_MS) < Attempts(begun, since)
  {
  }

  lemma FirstAttempts(now: nat)
    ensures Attempts(now, now) <= 301
  {
  }

  lemma RankMove(bodies: seq<Body>, s: State, t: nat)
    requires Inv(bodies, s) && CanMove(bodies, s, t)
    ensures |Do(bodies, s, Move(t)).phase| == |s.phase|
    ensures Rank(Do(bodies, s, Move(t)).phase[t]) < Rank(s.phase[t])
  {
    match s.phase[t]
    case HasFirst => FirstAttempts(s.now);
    case Failed(begun, since) =>
      if s.now / 1000 - begun / 1000 < TIMEOUT_SECONDS {
        NapCostsAnAttempt(begun, since, s.now);
      }
    case _ =>
  }

  function Ranks(s: State): seq<nat> {
    seq(|s.phase|, t requires 0 <= t < |s.phase| => Rank(s.phase[t]))
  }

  lemma RanksMove(bodies: seq<Body>, s: State, t: nat)
    requires Inv(bodies, s) && CanMove(bodies, s, t)
    ensures Sum(Ranks(Do(bodies, s, Move(t)))) < Sum(Ranks(s))
  {
    var s' := Do(bodies, s, Move(t));
    RankMove(bodies, s, t);
    assert s'.phase == s.phase[t := s'.phase[t]];
    assert Ranks(s') == Ranks(s)[t := Rank(s'.phase[t])];
    SumUpdate(Ranks(s), t, Rank(s'.phase[t]));
  }

  function Moves(steps: seq<Step>): nat {
    if steps == [] then 0 else (if steps[0].Move? then 1 else 0) + Moves(steps[1..])
  }

  lemma {:induction false} MovesBounded(bodies: seq<Body>, s: State, steps: seq<Step>)
    requires Inv(bodies, s) && Valid(bodies, s, steps)
    ensures Moves(steps) + Sum(Ranks(Exec(bodies, s, steps))) <= Sum(Ranks(s))
    decreases |steps|
  {
    if steps != [] {
      var s' := Do(bodies, s, steps[0]);
      InvStep(bodies, s, steps[0]);
      if steps[0].Move? {
        RanksMove(bodies, s, steps[0].t);
      } else {
        assert Ranks(s') == Ranks(s);
      }
      MovesBounded(bodies, s', steps[1..]);
    }
  }

  // ----- Theorems over every run -----

  predicate Finished(s: State) {
    forall t :: 0 <= t < |s.phase| ==> s.phase[t].Done?
  }

  /** Some thread can move now, or will be able to once the clock has moved on. */
  ghost predicate WillMove(bodies: seq<Body>, s: State) {
    exists t: nat, ms: nat :: CanMove(bodies, Later(s, ms), t)
  }

  lemma HolderWillMove(bodies: seq<Body>, s: State, t: nat)
    requires |s.phase| == |bodies| && t < |bodies| && !s.phase[t].Begin? && !s.phase[t].Done?
    ensures WillMove(bodies, s)
  {
    var ms := if s.phase[t].Napping? then s.phase[t].until else 0;
    assert CanMove(bodies, Later(s, ms), t);
  }

  lemma BlockedHasHolder(bodies: seq<Body>, s: State, t: nat)
    requires Inv(bodies, s) && t < |bodies| && s.phase[t].Begin?
    ensures WillMove(bodies, s)
  {
    var m := Mine(bodies[t]);
    if m in s.owner {
      assert Holds(bodies, s, s.owner[m], m);
      HolderWillMove(bodies, s, s.owner[m]);
    } else {
      assert CanMove(bodies, Later(s, 0), t);
    }
  }

  /**
   Timeouts prevent deadlock: every interleaving makes at most MAX_MOVES moves per thread, an
   unfinished one never hangs, a thread that is done holds neither mutex, so a finished run leaves both
   free, and no two threads are ever in the section that uses both resources.
   */
  lemma TimeoutAlwaysFinishes(bodies: seq<Body>, now: nat, steps: seq<Step>)
    requires Valid(bodies, Begins(bodies, now), steps)
    ensures var s := Exec(bodies, Begins(bodies, now), steps);
            && |s.phase| == |bodies|
            && Moves(steps) <= |bodies| * MAX_MOVES
            && (forall m :: m in s.owner ==> s.owner[m] < |bodies| && !s.phase[s.owner[m]].Done?)
            && (Finished(s) ==> s.owner == map[])
            && (!Finished(s) ==> WillMove(bodies, s))
            && (forall t, u :: 0 <= t < |bodies| && 0 <= u < |bodies| && s.phase[t].HasBoth? && s.phase[u].HasBoth? ==> t == u)
  {
    var s0 := Begins(bodies, now);
    var s := Exec(bodies, s0, steps);
    assert Inv(bodies, s0);
    InvRun(bodies, s0, steps);
    MovesBounded(bodies, s0, steps);
    SumUniform(Ranks(s0), MAX_MOVES);
    if !Finished(s) {
      var t: nat :| t < |s.phase| && !s.phase[t].Done?;
      if s.phase[t].Begin? {
        BlockedHasHolder(bodies, s, t);
      } else {
        HolderWillMove(bodies, s, t);
      }
    }
    BothIsExclusive(bodies, s);
  }

  // ----- How long a thread tries -----

  /** Who gave up had tried for more than two seconds; who tries again looked at the clock before three were over. */
  predicate InTime(p: Phase, now: nat) {
    match p
    case GaveUp(begun, at) => begun + (TIMEOUT_SECONDS - 1) * 1000 < at <= now
    case Napping(begun, until) => begun <= now && until < begun + TIMEOUT_SECONDS * 1000 + NAP_MS
    case Trying(begun, since) => begun <= now && since < begun + TIMEOUT_SECONDS * 1000 + NAP_MS
    case Failed(begun, since) => begun <= now && since < begun + TIMEOUT_SECONDS * 1000 + NAP_MS
    case _ => true
  }

  lemma WholeSeconds(begun: nat, now: nat)
    ensures now / 1000 - begun / 1000 >= TIMEOUT_SECONDS ==> now > begun + (TIMEOUT_SECONDS - 1) * 1000
    ensures now / 1000 - begun / 1000 < TIMEOUT_SECONDS ==> now < begun + TIMEOUT_SECONDS * 1000
  {
  }

  lemma {:induction false} InTimeRun(bodies: seq<Body>, s: State, steps: seq<Step>)
    requires Valid(bodies, s, steps) && |s.phase| == |bodies|
    requires forall t :: 0 <= t < |bodies| ==> InTime(s.phase[t], s.now)
    ensures var s' := Exec(bodies, s, steps);
            |s'.phase| == |bodies| && forall t :: 0 <= t < |bodies| ==> InTime(s'.phase[t], s'.now)
    decreases |steps|
  {
    if steps != [] {
      if steps[0].Move? && s.phase[steps[0].t].Failed? {
        WholeSeconds(s.phase[steps[0].t].begun, s.now);
      }
      InTimeRun(bodies, Do(bodies, s, steps[0]), steps[1..]);
    }
  }

  /** When thread t called mutex_lock_with_timeout and when it last looked at the clock after a failed attempt,
      and how many times it has tried and looked. */
  datatype Clock = Clock(called: nat, looked: nat, tries: nat, looks: nat)

  function ClockOf(bodies: seq<Body>, s: State, steps: seq<Step>, t: nat, c: Clock): Clock
    requires Valid(bodies, s, steps) && t < |bodies|
    decreases |steps|
  {
    if steps == [] then c
    else ClockOf(bodies, Do(bodies, s, steps[0]), steps[1..], t, Tock(s, steps[0], t, c))
  }

  function Tock(s: State, step: Step, t: nat, c: Clock): Clock {
    if step != Move(t) || t >= |s.phase| then c
    else if s.phase[t].HasFirst? then c.(called := s.now)
    else if s.phase[t].Trying? then c.(tries := c.tries + 1)
    else if s.phase[t].Failed? then c.(looked := s.now, looks := c.looks + 1)
    else c
  }

  predicate OnClock(p: Phase, c: Clock) {
    && (p.Trying? || p.Failed? || p.Napping? || p.GaveUp? ==> p.begun == c.called)
    && (p.Napping? ==> p.until == c.looked + NAP_MS)
    && (p.GaveUp? ==> p.at == c.looked)
    && (p.Begin? || p.HasFirst? ==> c.tries == c.looks == 0)
    && (p.Trying? || p.Napping? || p.GaveUp? ==> c.tries == c.looks)
    && (p.Failed? || p.HasBoth? ==> c.tries == c.looks + 1)
  }

  lemma {:induction false} ClockRun(bodies: seq<Body>, s: State, steps: seq<Step>, t: nat, c: Clock)
    requires Valid(bodies, s, steps) && |s.phase| == |bodies| && t < |bodies| && OnClock(s.phase[t], c)
    ensures var s' := Exec(bodies, s, steps); |s'.phase| == |bodies| && OnClock(s'.phase[t], ClockOf(bodies, s, steps, t, c))
    decreases |steps|
  {
    if steps != [] {
      ClockRun(bodies, Do(bodies, s, steps[0]), steps[1..], t, Tock(s, steps[0], t, c));
    }
  }

  /**
   In every run: because mutex_lock_with_timeout counts whole seconds of time(NULL), a thread gives up
   only if more than two seconds had gone by since the call when it looked at the clock, and naps for
   another attempt, until NAP_MS later, only if less than three had. Each look follows an attempt of its
   own, and the attempt that succeeds follows as many looks as there were failures.
   */
  lemma GivesUpInTime(bodies: seq<Body>, now: nat, steps: seq<Step>, t: nat)
    requires Valid(bodies, Begins(bodies, now), steps) && t < |bodies|
    ensures var s := Exec(bodies, Begins(bodies, now), steps);
            var c := ClockOf(bodies, Begins(bodies, now), steps, t, Clock(0, 0, 0, 0));
            && |s.phase| == |bodies|
            && (s.phase[t].GaveUp? ==> c.called + 2000 < c.looked <= s.now)
            && (s.phase[t].Napping? ==> c.looked < c.called + 3000 && s.phase[t].until == c.looked + 10)
            && (s.phase[t].GaveUp? || s.phase[t].Napping? ==> c.tries == c.looks)
            && (s.phase[t].HasBoth? ==> c.tries == c.looks + 1)
  {
    InTimeRun(bodies, Begins(bodies, now), steps);
    ClockRun(bodies, Begins(bodies, now), steps, t, Clock(0, 0, 0, 0));
  }

  lemma BothIsExclusive(bodies: seq<Body>, s: State)
    requires Inv(bodies, s)
    ensures forall t, u :: 0 <= t < |bodies| && 0 <= u < |bodies| && s.phase[t].HasBoth? && s.phase[u].HasBoth? ==> t == u
  {
    forall t: nat, u: nat | t < |bodies| && u < |bodies| && s.phase[t].HasBoth? && s.phase[u].HasBoth?
      ensures t == u
    {
      assert Holds(bodies, s, t, A) && Holds(bodies, s, u, A);
    }
  }
}
