/** The slot loops of lesson 12's timer code, run by one thread. */
module TimerTable {
  import opened Timers

  class Table {
    const active: array<bool>
    const running: array<bool>

    ghost predicate Valid()
      reads this
    {
      active.Length == MAX_TIMERS && running.Length == MAX_TIMERS && active != running
    }

    constructor ()
      ensures Valid() && fresh(active) && fresh(running)
      ensures forall i :: 0 <= i < MAX_TIMERS ==> !active[i] && !running[i]
    {
      active := new bool[MAX_TIMERS](_ => false);
      running := new bool[MAX_TIMERS](_ => false);
    }

    /** timer_system_init: every flag is cleared, whatever it was. */
    method Init()
      requires Valid()
      modifies active, running
      ensures forall i :: 0 <= i < MAX_TIMERS ==> !active[i] && !running[i]
    {
      for i := 0 to MAX_TIMERS
        invariant forall j :: 0 <= j < i ==> !active[j] && !running[j]
      {
        active[i] := false;
        running[i] := false;
      }
    }

    /** The creator's search: the first free slot becomes active, and no other flag changes. */
    method Claim() returns (slot: int)
      requires Valid()
      modifies active
      ensures -1 <= slot < MAX_TIMERS
      ensures slot == -1 <==> forall i :: 0 <= i < MAX_TIMERS ==> old(active[i])
      ensures slot >= 0 ==> !old(active[slot]) && forall i :: 0 <= i < slot ==> old(active[i])
      ensures active[..] == if slot >= 0 then old(active[..])[slot := true] else old(active[..])
    {
      slot := -1;
      var i := 0;
      while i < MAX_TIMERS
        invariant 0 <= i <= MAX_TIMERS && slot == -1
        invariant forall j :: 0 <= j < i ==> active[j]
        invariant active[..] == old(active[..])
      {
        if !active[i] {
          slot := i;
          active[i] := true;
          break;
        }
        i := i + 1;
      }
    }

    /** The handler's loop over all slots comes down to one visit of the expired slot. */
    method HandleExpiry(v: int) returns (spawn: bool)
      requires Valid()
      modifies running
      ensures 0 <= v < MAX_TIMERS ==>
                (running[v], spawn) == ExpirySection(false, active[v], old(running[v]))
      ensures !(0 <= v < MAX_TIMERS) ==> !spawn
      ensures forall i :: 0 <= i < MAX_TIMERS && i != v ==> running[i] == old(running[i])
    {
      var found := -1;
      var i := 0;
      while i < MAX_TIMERS
        invariant 0 <= i <= MAX_TIMERS
        invariant found == if 0 <= v < i && active[v] then v else -1
        invariant found >= 0 ==> old(running[v])
        invariant running[..] == old(running[..])
      {
        if active[i] && v == i {
          found := i;
          if !running[i] {
            running[i] := true;
            break;
          }
        }
        i := i + 1;
      }
      spawn := found >= 0;
    }
  }
}
