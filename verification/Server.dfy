/**
 The event-driven server of lesson 9: a table of MAX_CLIENTS client slots, the set of descriptors
 registered with epoll, and the descriptors that are open. What the kernel answers (the result of
 accept, read, write, epoll_ctl, malloc) is a parameter. A dispatch deals with the flags of an event
 in turn. If one of them closes the client and another is still to come, the source goes on with the
 freed structure; Dangling says exactly when, and what follows is not modelled.
 */
module Server {
  import opened Echo
  import opened ClientTable

  class EpollServer {
    const serverFd: int
    const clients: array<Slot>
    var epoll: map<int, bool>           // registered descriptors; is EPOLLOUT in the interest set?
    var open: set<int>
    ghost var table: map<int, Connection>

    ghost predicate SlotsOk()
      reads this, clients
    {
      clients.Length == MAX_CLIENTS && Matches(clients[..], table) && AllRuns(table)
    }

    ghost predicate Valid()
      reads this, clients
    {
      SlotsOk() && Registered(serverFd, epoll, open, table)
    }

    constructor (serverFd: int)
      ensures Valid() && this.serverFd == serverFd && table == map[] && fresh(clients)
    {
      this.serverFd := serverFd;
      clients := new Slot[MAX_CLIENTS](_ => Free);
      epoll := map[serverFd := false];
      open := {serverFd};
      table := map[];
    }

    /** The search of the dispatch loop. */
    method FindSlot(fd: int) returns (slot: int)
      requires SlotsOk()
      ensures -1 <= slot < MAX_CLIENTS
      ensures slot >= 0 <==> fd in table
      ensures slot >= 0 ==> IsSlotOf(clients[slot], fd)
    {
      slot := 0;
      while slot < MAX_CLIENTS
        invariant 0 <= slot <= MAX_CLIENTS
        invariant forall j :: 0 <= j < slot ==> !IsSlotOf(clients[j], fd)
      {
        if clients[slot].Live? && clients[slot].socket == fd {
          return;
        }
        slot := slot + 1;
      }
      assert fd in table ==> HasSlot(clients[..], fd);
      slot := -1;
    }

    /** close_client: unregister, close, and clear the slot if there is one. */
    method CloseClient(fd: int) returns (ghost slot: int)
      requires SlotsOk()
      modifies this, clients
      ensures SlotsOk()
      ensures table == old(table) - {fd} && epoll == old(epoll) - {fd} && open == old(open) - {fd}
      ensures -1 <= slot < MAX_CLIENTS && (slot >= 0 ==> IsSlotOf(old(clients[slot]), fd))
      ensures clients[..] == if slot >= 0 then old(clients[..])[slot := Free] else old(clients[..])
    {
      epoll := epoll - {fd};
      open := open - {fd};
      var i := FindSlot(fd);
      slot := i;
      if i >= 0 {
        MatchesRemove(clients[..], table, i);
        ghost var before := clients[..];
        clients[i] := Free;
        assert clients[..] == before[i := Free];
      }
      RunsRemove(table, fd);
      table := table - {fd};
    }

    /** Put a new client into the first free slot, if there is one. */
    method ClaimSlot(fd: int) returns (slot: int)
      requires SlotsOk() && fd !in table
      modifies this`table, clients
      ensures SlotsOk()
      ensures -1 <= slot < MAX_CLIENTS
      ensures slot >= 0 <==> |old(table)| < MAX_CLIENTS
      ensures table == if slot >= 0 then old(table)[fd := Fresh()] else old(table)
    {
      FullIff(clients[..], table);
      ghost var before := clients[..];
      slot := 0;
      while slot < MAX_CLIENTS && clients[slot].Live?
        invariant 0 <= slot <= MAX_CLIENTS
        invariant forall k :: 0 <= k < slot ==> before[k].Live?
      {
        slot := slot + 1;
      }
      if slot == MAX_CLIENTS {
        return -1;
      }
      assert !before[slot].Live?;
      MatchesAdd(before, table, slot, fd, Fresh());
      clients[slot] := Live(fd, Fresh());
      assert clients[..] == before[slot := Live(fd, Fresh())];
      FreshIsRun();
      RunsUpdate(table, fd, Fresh());
      table := table[fd := Fresh()];
    }

    /** EPOLL_CTL_ADD, for input only, of a client that has its slot. */
    method Register(fd: int, ghost open0: set<int>, ghost table0: map<int, Connection>)
      requires SlotsOk() && Registered(serverFd, epoll, open0, table0) && fd !in open0
      requires open == open0 + {fd} && table == table0[fd := Fresh()]
      modifies this`epoll
      ensures Valid()
    {
      RegisteredAdd(serverFd, epoll, open0, table0, fd, Fresh());
      epoll := epoll[fd := false];
    }

    /** Closing a connection that was not fully set up leaves the server as it was without it. */
    method Withdraw(fd: int, ghost open0: set<int>, ghost table0: map<int, Connection>)
      requires SlotsOk() && Registered(serverFd, epoll, open0, table0) && fd !in open0
      requires open == open0 + {fd} && (table == table0 || table == table0[fd := Fresh()])
      modifies this, clients
      ensures Valid() && table == table0
    {
      RegisteredUndo(epoll, open0, table0, fd, Fresh());
      var _ := CloseClient(fd);
    }

    /** Slot, then registration with epoll; if either fails the connection is closed again. */
    method Admit(fd: int, added: bool) returns (accepted: bool)
      requires Valid() && fd !in open
      modifies this, clients
      ensures Valid()
      ensures accepted <==> added && |old(table)| < MAX_CLIENTS
      ensures table == if accepted then old(table)[fd := Fresh()] else old(table)
    {
      open := open + {fd};
      var slot := ClaimSlot(fd);
      accepted := slot != -1 && added;
      if accepted {
        Register(fd, old(open), old(table));
      } else {
        Withdraw(fd, old(open), old(table));
      }
    }

    /** One turn of the accept loop, for a connection the kernel has just opened. */
    method Accept(a: Arrival) returns (accepted: bool)
      requires Valid() && a.fd !in open
      modifies this, clients
      ensures Valid()
      ensures accepted <==> a.nonblocking && a.created && a.added && |old(table)| < MAX_CLIENTS
      ensures table == if accepted then old(table)[a.fd := Fresh()] else old(table)
    {
      if !a.nonblocking || !a.created {
        return false;
      }
      accepted := Admit(a.fd, a.added);
    }

    /** handle_read_event for the client in a slot. */
    method HandleRead(slot: nat, call: ReadCall)
      requires Valid() && slot < MAX_CLIENTS && clients[slot].Live?
      requires PlausibleRead(call)
      modifies this, clients
      ensures Valid()
      ensures table == AfterInput(old(table), old(clients[slot].socket), call)
      ensures var fd := old(clients[slot].socket);
              if call.result.Bytes? && call.modified
              then fd in table && Pending(table[fd]) == call.result.data && table[fd].sent == old(table)[fd].sent
              else fd !in table && fd !in open
      ensures old(clients[slot].socket) in table ==> IsSlotOf(clients[slot], old(clients[slot].socket))
    {
      var fd, c := clients[slot].socket, clients[slot].connection;
      if !call.result.Bytes? {
        var _ := CloseClient(fd);
        return;
      }
      var c' := AfterRead(c, call.result.data);
      ReadEffect(c, call.result.data);
      RunsGoOn(table, fd, Read(call.result.data));
      Store(slot, c');
      if !call.modified {
        var _ := CloseClient(fd);
        assert table == old(table) - {fd};
        return;
      }
      epoll := epoll[fd := true];
    }

    /** handle_write_event for the client in a slot. */
    method HandleWrite(slot: nat, call: WriteCall)
      requires Valid() && slot < MAX_CLIENTS && clients[slot].Live?
      requires PlausibleWrite(call)
      modifies this, clients
      ensures Valid()
      ensures table == AfterOutput(old(table), old(clients[slot].socket), call)
      ensures old(clients[slot].socket) in table ==> IsSlotOf(clients[slot], old(clients[slot].socket))
    {
      var fd, c := clients[slot].socket, clients[slot].connection;
      if c.writeOffset >= c.writeSize || call.result.WouldBlock? {
        return;
      }
      if call.result.WriteError? {
        var _ := CloseClient(fd);
        return;
      }
      var k := Min(call.result.limit, c.writeSize - c.writeOffset);
      var c' := AfterWrite(c, k);
      WriteEffect(c, k);
      RunsGoOn(table, fd, Write(k));
      Store(slot, c');
      if c'.writeSize == 0 {
        if !call.modified {
          var _ := CloseClient(fd);
          assert table == old(table) - {fd};
          return;
        }
        epoll := epoll[fd := false];
      }
    }

    /** The handlers' updates of a client's buffers, in place. */
    method Store(slot: nat, c: Connection)
      requires SlotsOk() && slot < MAX_CLIENTS && clients[slot].Live? && IsRun(c)
      modifies this`table, clients
      ensures SlotsOk()
      ensures clients[slot] == old(clients[slot]).(connection := c)
      ensures table == old(table)[clients[slot].socket := c]
    {
      ghost var before := clients[..];
      MatchesUpdate(before, table, slot, c);
      clients[slot] := clients[slot].(connection := c);
      assert clients[..] == before[slot := before[slot].(connection := c)];
      RunsUpdate(table, clients[slot].socket, c);
      table := table[clients[slot].socket := c];
    }

    /**
     The client branch of the event loop. unknown reports the branch that should not happen; dangling
     that the source would now use a client it has freed, and nothing is said of what comes then.
     */
    method Dispatch(e: ClientEvent) returns (unknown: bool, dangling: bool)
      requires Valid() && e.fd != serverFd && Plausible(e)
      modifies this, clients
      ensures unknown <==> e.fd !in old(epoll)
      ensures dangling <==> !unknown && Dangling(old(table)[e.fd], e)
      ensures !dangling ==> Valid()
      ensures !dangling ==> table == if unknown then old(table) else AfterEvent(old(table), e)
    {
      unknown, dangling := false, false;
      var slot := FindSlot(e.fd);
      if slot == -1 {
        epoll := epoll - {e.fd};
        open := open - {e.fd};
        return true, false;
      }
      dangling := HandleFlags(slot, e);
    }

    /** The three tests of the event's flags, for the client in a slot. */
    method HandleFlags(slot: nat, e: ClientEvent) returns (dangling: bool)
      requires Valid() && slot < MAX_CLIENTS && IsSlotOf(clients[slot], e.fd) && Plausible(e)
      modifies this, clients
      ensures dangling <==> Dangling(old(table)[e.fd], e)
      ensures !dangling ==> Valid() && table == AfterEvent(old(table), e)
    {
      if e.input.Some? {
        HandleRead(slot, e.input.value);
        if !IsSlotOf(clients[slot], e.fd) {
          return e.output.Some? || e.hangup;
        }
      }
      dangling := HandleRest(slot, e);
    }

    method HandleRest(slot: nat, e: ClientEvent) returns (dangling: bool)
      requires Valid() && slot < MAX_CLIENTS && IsSlotOf(clients[slot], e.fd) && Plausible(e)
      modifies this, clients
      ensures dangling <==> e.hangup && e.output.Some? && OutputCloses(old(table)[e.fd], e.output.value)
      ensures !dangling ==> Valid() && table == AfterRest(old(table), e)
    {
      if e.output.Some? {
        HandleWrite(slot, e.output.value);
      }
      if e.hangup {
        if !IsSlotOf(clients[slot], e.fd) {
          return true;
        }
        var _ := CloseClient(e.fd);
      }
      dangling := false;
    }

    /** Closing everything at the end leaves no descriptor open and none registered. */
    method ShutDown()
      requires Valid()
      modifies this, clients
      ensures SlotsOk() && table == map[] && open == {} && epoll == map[]
    {
      var i := 0;
      while i < MAX_CLIENTS
        invariant 0 <= i <= MAX_CLIENTS && Valid()
        invariant forall j :: 0 <= j < i ==> clients[j].Free?
      {
        if clients[i].Live? {
          var slot := CloseClient(clients[i].socket);
          assert slot == i;
        }
        i := i + 1;
      }
      assert forall j :: 0 <= j < MAX_CLIENTS ==> clients[..][j].Free?;
      assert forall fd :: !HasSlot(clients[..], fd);
      assert forall fd :: fd in table ==> HasSlot(clients[..], fd);
      assert forall fd :: fd !in table;
      epoll := epoll - {serverFd};
      open := open - {serverFd};
    }

    method AcceptNext(a: Arrival)
      requires Valid()
      modifies this, clients
      ensures Valid()
      ensures table == AfterArrival(old(table), a, serverFd)
    {
      if a.fd !in open {
        var accepted := Accept(a);
      }
    }

    /** The accept loop. An arrival on a descriptor that is still open is not something accept returns. */
    method AcceptAll(arrivals: seq<Arrival>)
      requires Valid()
      modifies this, clients
      ensures Valid()
      ensures table == AfterArrivals(old(table), arrivals, |arrivals|, serverFd)
    {
      for i := 0 to |arrivals|
        invariant Valid()
        invariant table == AfterArrivals(old(table), arrivals, i, serverFd)
      {
        AcceptNext(arrivals[i]);
      }
    }

    /** One event of a batch: it touches no client but its own. */
    method HandleEvent(event: Reported) returns (unknown: bool, dangling: bool)
      requires Valid()
      requires event.ClientReady? ==> event.event.fd in table && Plausible(event.event)
      modifies this, clients
      ensures !unknown
      ensures dangling <==> event.ClientReady? && Dangling(old(table)[event.event.fd], event.event)
      ensures !dangling ==> Valid()
      ensures !dangling && event.ClientReady? ==> Outcome(table, old(table), event.event)
      ensures !dangling ==> OthersKept(table, old(table), event)
      ensures !dangling ==> table == AfterOne(old(table), event, serverFd)
    {
      match event {
        case Arrivals(arrivals) =>
          WhoIsAdmitted(table, arrivals, |arrivals|, serverFd);
          AcceptAll(arrivals);
          unknown, dangling := false, false;
        case ClientReady(e) =>
          if !Dangling(table[e.fd], e) {
            EventLocal(table, e);
          }
          unknown, dangling := Dispatch(e);
      }
    }

    /**
     One batch of events from epoll_wait: each descriptor at most once, all of them registered when
     the batch was fetched. Handling one event never unregisters the descriptor of a later one, so the
     unknown-client branch is not taken, and each client event meets the very connection it was
     reported for, as it was when the batch was fetched. So whether the batch would use a freed client
     can be told from its events beforehand; it is followed up to there.
     */
    method HandleBatch(events: seq<Reported>) returns (unknown: bool, dangling: bool)
      requires Valid() && IsBatch(events, table)
      modifies this, clients
      ensures !unknown
      ensures dangling <==> exists i :: 0 <= i < |events| && Dangles(events[i], old(table))
      ensures !dangling ==> Valid()
      ensures !dangling ==> forall i :: 0 <= i < |events| && events[i].ClientReady? ==>
                Outcome(table, old(table), events[i].event)
      ensures !dangling ==> table == AfterBatch(old(table), events, |events|, serverFd)
    {
      unknown, dangling := false, false;
      for n := 0 to |events|
        invariant Valid() && !unknown && !dangling
        invariant Kept(events, n, table, old(table)) && Handled(events, n, table, old(table))
        invariant table == AfterBatch(old(table), events, n, serverFd)
      {
        ghost var before := table;
        unknown, dangling := HandleEvent(events[n]);
        if dangling {
          assert Dangles(events[n], old(table));
          return;
        }
        BatchStep(events, n, table, before, old(table));
      }
    }
  }
}
