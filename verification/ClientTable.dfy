/**
 The table of connections of lesson 9's event-driven server, as a value: how client slots represent it,
 and what accepted connections, events and whole batches of events make of it. What the kernel answers
 (the results of accept, read, write, epoll_ctl, malloc) is part of the events.
 */
module ClientTable {
  import opened Echo

  const MAX_CLIENTS: nat := 1024

  datatype Slot = Free | Live(socket: int, connection: Connection)

  /** The slots hold exactly the connections of the table, one slot each. */
  ghost predicate Matches(slots: seq<Slot>, table: map<int, Connection>) {
    && (forall i :: 0 <= i < |slots| && slots[i].Live? ==>
          slots[i].socket in table && table[slots[i].socket] == slots[i].connection)
    && Distinct(slots)
    && (forall fd :: fd in table ==> HasSlot(slots, fd))
  }

  predicate Distinct(slots: seq<Slot>) {
    forall i, j :: 0 <= i < |slots| && 0 <= j < |slots| && slots[i].Live? && IsSlotOf(slots[j], slots[i].socket) ==> i == j
  }

  predicate HasSlot(slots: seq<Slot>, fd: int) {
    exists i :: 0 <= i < |slots| && IsSlotOf(slots[i], fd)
  }

  predicate IsSlotOf(slot: Slot, fd: int) {
    slot.Live? && slot.socket == fd
  }

  lemma MatchesAdd(slots: seq<Slot>, table: map<int, Connection>, i: nat, fd: int, c: Connection)
    requires Matches(slots, table) && i < |slots| && slots[i].Free? && fd !in table
    ensures Matches(slots[i := Live(fd, c)], table[fd := c])
  {
    var slots' := slots[i := Live(fd, c)];
    assert IsSlotOf(slots'[i], fd);
    forall g | g in table ensures HasSlot(slots', g) {
      var j :| 0 <= j < |slots| && IsSlotOf(slots[j], g);
      assert IsSlotOf(slots'[j], g);
    }
  }

  lemma MatchesUpdate(slots: seq<Slot>, table: map<int, Connection>, i: nat, c: Connection)
    requires Matches(slots, table) && i < |slots| && slots[i].Live?
    ensures Matches(slots[i := slots[i].(connection := c)], table[slots[i].socket := c])
  {
    var slots' := slots[i := slots[i].(connection := c)];
    forall g | g in table[slots[i].socket := c] ensures HasSlot(slots', g) {
      var j :| 0 <= j < |slots| && IsSlotOf(slots[j], g);
      assert IsSlotOf(slots'[j], g);
    }
  }

  lemma MatchesRemove(slots: seq<Slot>, table: map<int, Connection>, i: nat)
    requires Matches(slots, table) && i < |slots| && slots[i].Live?
    ensures Matches(slots[i := Free], table - {slots[i].socket})
  {
    var slots' := slots[i := Free];
    forall g | g in table - {slots[i].socket} ensures HasSlot(slots', g) {
      var j :| 0 <= j < |slots| && IsSlotOf(slots[j], g);
      assert IsSlotOf(slots'[j], g);
    }
  }

  /** Each connection is what some run of reads and writes makes of a fresh one. */
  ghost predicate AllRuns(table: map<int, Connection>) {
    forall fd {:trigger IsRun(table[fd])} :: fd in table ==> IsRun(table[fd])
  }

  lemma RunsUpdate(table: map<int, Connection>, fd: int, c: Connection)
    requires AllRuns(table) && IsRun(c)
    ensures AllRuns(table[fd := c])
  {
    var table' := table[fd := c];
    forall g | g in table' ensures IsRun(table'[g]) {
      assert g != fd ==> IsRun(table[g]);
    }
  }

  lemma RunsRemove(table: map<int, Connection>, fd: int)
    requires AllRuns(table)
    ensures AllRuns(table - {fd})
  {
    forall g | g in table - {fd} ensures IsRun((table - {fd})[g]) {
      assert IsRun(table[g]);
    }
  }

  lemma RunsGoOn(table: map<int, Connection>, fd: int, e: Echo.Event)
    requires AllRuns(table) && fd in table && Can(table[fd], e)
    ensures IsRun(Do(table[fd], e))
  {
    assert IsRun(table[fd]);
    RunOn(table[fd], e);
  }

  function Sockets(slots: seq<Slot>): set<int> {
    if slots == [] then {}
    else Sockets(slots[..|slots| - 1]) + (if slots[|slots| - 1].Live? then {slots[|slots| - 1].socket} else {})
  }

  lemma {:induction false} SocketsAre(slots: seq<Slot>, fd: int)
    ensures fd in Sockets(slots) <==> HasSlot(slots, fd)
  {
    if slots != [] {
      var init := slots[..|slots| - 1];
      SocketsAre(init, fd);
      if HasSlot(init, fd) {
        var i :| 0 <= i < |init| && IsSlotOf(init[i], fd);
        assert IsSlotOf(slots[i], fd);
      }
      if HasSlot(slots, fd) {
        var i :| 0 <= i < |slots| && IsSlotOf(slots[i], fd);
        assert i < |init| ==> IsSlotOf(init[i], fd);
      }
    }
  }

  lemma {:induction false} SocketsCount(slots: seq<Slot>)
    requires Distinct(slots)
    ensures |Sockets(slots)| <= |slots|
    ensures |Sockets(slots)| == |slots| <==> forall i :: 0 <= i < |slots| ==> slots[i].Live?
  {
    if slots != [] {
      var init, last := slots[..|slots| - 1], slots[|slots| - 1];
      SocketsCount(init);
      if last.Live? {
        SocketsAre(init, last.socket);
        assert forall i :: 0 <= i < |init| && IsSlotOf(init[i], last.socket) ==> i == |init|;
      }
      assert forall i :: 0 <= i < |slots| ==> slots[i] == if i < |init| then init[i] else last;
    }
  }

  /** The table is full exactly when MAX_CLIENTS clients are connected. */
  lemma FullIff(slots: seq<Slot>, table: map<int, Connection>)
    requires Matches(slots, table)
    ensures |table| <= |slots|
    ensures |table| == |slots| <==> forall i :: 0 <= i < |slots| ==> slots[i].Live?
  {
    SocketsCount(slots);
    forall fd ensures fd in table <==> fd in Sockets(slots) {
      SocketsAre(slots, fd);
    }
    assert table.Keys == Sockets(slots);
  }

  /**
   Between events: exactly the server socket and the table's sockets are open and registered, and
   EPOLLOUT is asked for exactly where bytes are waiting.
   */
  ghost predicate Registered(serverFd: int, epoll: map<int, bool>, open: set<int>, table: map<int, Connection>) {
    && serverFd !in table
    && epoll.Keys == open == {serverFd} + table.Keys
    && !epoll[serverFd]
    && (forall fd :: fd in table ==> WellFormed(table[fd]) && (epoll[fd] <==> Pending(table[fd]) != []))
  }

  lemma RegisteredAdd(serverFd: int, epoll: map<int, bool>, open: set<int>, table: map<int, Connection>, fd: int, c: Connection)
    requires Registered(serverFd, epoll, open, table) && fd !in open && WellFormed(c) && Pending(c) == []
    ensures Registered(serverFd, epoll[fd := false], open + {fd}, table[fd := c])
  {
  }

  lemma RegisteredUndo(epoll: map<int, bool>, open: set<int>, table: map<int, Connection>, fd: int, c: Connection)
    requires fd !in open && fd !in epoll && fd !in table
    ensures epoll - {fd} == epoll && open + {fd} - {fd} == open
    ensures table - {fd} == table && table[fd := c] - {fd} == table
  {
  }

  datatype ReadResult = Bytes(data: seq<int>) | Disconnected | ReadError
  datatype WriteResult = Took(limit: nat) | WouldBlock | WriteError

  /** A call of read or write, and whether the change of the interest set after it succeeds. */
  datatype ReadCall = ReadCall(result: ReadResult, modified: bool)
  datatype WriteCall = WriteCall(result: WriteResult, modified: bool)

  datatype Option<T> = None | Some(value: T)

  /** An event for a client: EPOLLIN, EPOLLOUT, and EPOLLRDHUP, EPOLLHUP or EPOLLERR, in any combination. */
  datatype ClientEvent = ClientEvent(fd: int, input: Option<ReadCall>, output: Option<WriteCall>, hangup: bool)

  /** One return of accept, and whether fcntl, malloc and epoll_ctl then succeed. */
  datatype Arrival = Arrival(fd: int, nonblocking: bool, created: bool, added: bool)

  datatype Reported = Arrivals(arrivals: seq<Arrival>) | ClientReady(event: ClientEvent)

  /** read never returns more than it was asked for. */
  predicate PlausibleRead(call: ReadCall) {
    call.result.Bytes? ==> 0 < |call.result.data| <= BUFFER_SIZE
  }

  /** write, asked for at least one byte, does not take zero. */
  predicate PlausibleWrite(call: WriteCall) {
    call.result.Took? ==> call.result.limit >= 1
  }

  predicate Plausible(e: ClientEvent) {
    (e.input.Some? ==> PlausibleRead(e.input.value)) && (e.output.Some? ==> PlausibleWrite(e.output.value))
  }

  function Min(a: nat, b: nat): nat {
    if a < b then a else b
  }

  /** What handle_read_event makes of the table: the connection goes on with the bytes read waiting to be sent,
      in their order, or it is closed. */
  function AfterInput(table: map<int, Connection>, fd: int, call: ReadCall): (r: map<int, Connection>)
    requires fd in table && WellFormed(table[fd]) && PlausibleRead(call)
    ensures r - {fd} == table - {fd}
    ensures fd in r <==> call.result.Bytes? && call.modified
    ensures fd in r ==>
              && WellFormed(r[fd]) && Pending(r[fd]) == call.result.data
              && r[fd].received == table[fd].received + call.result.data && r[fd].sent == table[fd].sent
  {
    if call.result.Bytes? && call.modified
    then ReadEffect(table[fd], call.result.data); table[fd := AfterRead(table[fd], call.result.data)]
    else table - {fd}
  }

  /** What handle_write_event makes of it: the first bytes waiting are sent, as many as write takes, or the
      connection is closed. */
  function AfterOutput(table: map<int, Connection>, fd: int, call: WriteCall): (r: map<int, Connection>)
    requires fd in table && WellFormed(table[fd]) && PlausibleWrite(call)
    ensures r - {fd} == table - {fd}
    ensures fd !in r <==> Pending(table[fd]) != [] &&
                          (call.result.WriteError? || (call.result.Took? && call.result.limit >= |Pending(table[fd])| && !call.modified))
    ensures fd in r ==>
              var c := table[fd];
              var k := if !call.result.Took? then 0 else if call.result.limit < |Pending(c)| then call.result.limit else |Pending(c)|;
              && WellFormed(r[fd]) && r[fd].received == c.received
              && r[fd].sent == c.sent + Pending(c)[..k] && Pending(r[fd]) == Pending(c)[k..]
  {
    var c := table[fd];
    if Pending(c) == [] || call.result.WouldBlock? then table
    else if call.result.WriteError? then table - {fd}
    else if call.result.limit >= |Pending(c)| && !call.modified then table - {fd}
    else
      WriteEffect(c, Min(call.result.limit, |Pending(c)|));
      table[fd := AfterWrite(c, Min(call.result.limit, |Pending(c)|))]
  }

  predicate InputCloses(call: ReadCall) {
    !call.result.Bytes? || !call.modified
  }

  predicate OutputCloses(c: Connection, call: WriteCall)
    requires WellFormed(c)
  {
    && Pending(c) != []
    && (call.result.WriteError? || (call.result.Took? && call.result.limit >= |Pending(c)| && !call.modified))
  }

  /** The connection as the output flag finds it. */
  function ConnectionAfterInput(c: Connection, e: ClientEvent): (r: Connection)
    requires WellFormed(c) && Plausible(e)
    ensures WellFormed(r)
  {
    if e.input.Some? && e.input.value.result.Bytes?
    then ReadEffect(c, e.input.value.result.data); AfterRead(c, e.input.value.result.data)
    else c
  }

  /** A flag of the event closes the client, and a later flag of the same event is still to be dealt with. */
  predicate Dangling(c: Connection, e: ClientEvent)
    requires WellFormed(c) && Plausible(e)
  {
    if e.input.Some? && InputCloses(e.input.value) then e.output.Some? || e.hangup
    else e.hangup && e.output.Some? && OutputCloses(ConnectionAfterInput(c, e), e.output.value)
  }

  /** The bytes waiting when the output flag of an event is dealt with, and how many of them are sent. */
  function Waiting(c: Connection, e: ClientEvent): seq<int>
    requires WellFormed(c)
  {
    if e.input.Some? && e.input.value.result.Bytes? then e.input.value.result.data else Pending(c)
  }

  function Written(waiting: seq<int>, e: ClientEvent): (k: nat)
    ensures k <= |waiting|
  {
    if e.output.Some? && e.output.value.result.Took? then Min(e.output.value.result.limit, |waiting|) else 0
  }

  /** All the flags of an event, in the order of the source: the connection survives exactly if none of them
      closes it, and then has the bytes just read, or else those waiting before, sent as far as write took them. */
  function AfterEvent(table: map<int, Connection>, e: ClientEvent): (r: map<int, Connection>)
    requires e.fd in table && WellFormed(table[e.fd]) && Plausible(e) && !Dangling(table[e.fd], e)
    ensures r - {e.fd} == table - {e.fd}
    ensures e.fd in r <==>
            && !e.hangup
            && (e.input.Some? ==> e.input.value.result.Bytes? && e.input.value.modified)
            && (e.output.Some? && Waiting(table[e.fd], e) != [] ==>
                  && !e.output.value.result.WriteError?
                  && (e.output.value.result.Took? && e.output.value.result.limit >= |Waiting(table[e.fd], e)| ==> e.output.value.modified))
    ensures e.fd in r ==>
              var c, c', waiting := table[e.fd], r[e.fd], Waiting(table[e.fd], e);
              && WellFormed(c')
              && c'.received == c.received + (if e.input.Some? then e.input.value.result.data else [])
              && c'.sent == c.sent + waiting[..Written(waiting, e)] && Pending(c') == waiting[Written(waiting, e)..]
  {
    var t1 := if e.input.Some? then AfterInput(table, e.fd, e.input.value) else table;
    if e.fd in t1 then AfterRest(t1, e) else t1
  }

  /** The flags after the input flag. */
  function AfterRest(table: map<int, Connection>, e: ClientEvent): (r: map<int, Connection>)
    requires e.fd in table && WellFormed(table[e.fd]) && Plausible(e)
    ensures r - {e.fd} == table - {e.fd}
    ensures e.fd in r <==> !e.hangup && (e.output.Some? ==> !OutputCloses(table[e.fd], e.output.value))
    ensures e.fd in r ==>
              var c := table[e.fd];
              var k := Written(Pending(c), e);
              && WellFormed(r[e.fd]) && r[e.fd].received == c.received
              && r[e.fd].sent == c.sent + Pending(c)[..k] && Pending(r[e.fd]) == Pending(c)[k..]
  {
    var t2 := if e.output.Some? then AfterOutput(table, e.fd, e.output.value) else table;
    if e.hangup then t2 - {e.fd} else t2
  }

  // ----- What a client of the server gets back -----

  /** Every connection of the server sends a subsequence of what it received. */
  lemma ClientsAreEchoed(table: map<int, Connection>, fd: int)
    requires AllRuns(table) && fd in table
    ensures WellFormed(table[fd]) && Subsequence(table[fd].sent + Pending(table[fd]), table[fd].received)
    ensures Faithful(table[fd]) <==> |table[fd].sent| + |Pending(table[fd])| == |table[fd].received|
  {
    assert IsRun(table[fd]);
    RunEchoes(table[fd]);
  }

  /** An event a faithful connection survives leaves it faithful exactly if it did not read while bytes
      were waiting; as input is dealt with before output, EPOLLOUT in the same event does not help. */
  lemma EventFaithfulIff(table: map<int, Connection>, e: ClientEvent)
    requires e.fd in table && Faithful(table[e.fd]) && Plausible(e) && !Dangling(table[e.fd], e)
    requires e.fd in AfterEvent(table, e)
    ensures Faithful(AfterEvent(table, e)[e.fd]) <==> e.input.None? || Pending(table[e.fd]) == []
  {
    var c := table[e.fd];
    var t1 := if e.input.Some? then AfterInput(table, e.fd, e.input.value) else table;
    if e.input.Some? {
      ReadFaithfulIff(c, e.input.value.result.data);
    }
    if e.output.Some? && Pending(t1[e.fd]) != [] && e.output.value.result.Took? {
      WriteFaithfulIff(t1[e.fd], Min(e.output.value.result.limit, |Pending(t1[e.fd])|));
    }
  }

  lemma ReadFaithfulIff(c: Connection, data: seq<int>)
    requires Faithful(c) && 0 < |data| <= BUFFER_SIZE
    ensures Faithful(AfterRead(c, data)) <==> Pending(c) == []
  {
    ReadEffect(c, data);
    if Pending(c) != [] {
      assert |c.sent + data| != |c.received + data|;
    }
  }

  lemma WriteFaithfulIff(c: Connection, k: nat)
    requires WellFormed(c) && 1 <= k <= |Pending(c)|
    ensures Faithful(AfterWrite(c, k)) <==> Faithful(c)
  {
    WriteEffect(c, k);
    assert Pending(c)[..k] + Pending(c)[k..] == Pending(c);
  }

  // ----- Arrivals -----

  /** Everything succeeds for the new connection. */
  predicate Sound(a: Arrival, serverFd: int) {
    a.nonblocking && a.created && a.added && a.fd != serverFd
  }

  function AfterArrival(table: map<int, Connection>, a: Arrival, serverFd: int): map<int, Connection> {
    if a.fd !in table && Sound(a, serverFd) && |table| < MAX_CLIENTS then table[a.fd := Fresh()] else table
  }

  lemma ArrivalSize(table: map<int, Connection>, a: Arrival, serverFd: int)
    ensures |table| <= |AfterArrival(table, a, serverFd)| <= |table| + 1
  {
    var r := AfterArrival(table, a, serverFd);
    assert r.Keys == table.Keys || (a.fd !in table && r.Keys == table.Keys + {a.fd});
    assert |r| == |r.Keys| && |table| == |table.Keys|;
  }

  /** The table after the first n turns of the accept loop. */
  function AfterArrivals(table: map<int, Connection>, arrivals: seq<Arrival>, n: nat, serverFd: int): map<int, Connection>
    requires n <= |arrivals|
  {
    if n == 0 then table else AfterArrival(AfterArrivals(table, arrivals, n - 1, serverFd), arrivals[n - 1], serverFd)
  }

  predicate Arrived(arrivals: seq<Arrival>, n: nat, fd: int, serverFd: int) {
    exists i :: 0 <= i < n && i < |arrivals| && arrivals[i].fd == fd && Sound(arrivals[i], serverFd)
  }

  lemma {:induction false} ArrivalsKeep(table: map<int, Connection>, arrivals: seq<Arrival>, n: nat, serverFd: int, fd: int)
    requires n <= |arrivals| && fd in table
    ensures var r := AfterArrivals(table, arrivals, n, serverFd); fd in r && r[fd] == table[fd]
  {
    if n > 0 {
      ArrivalsKeep(table, arrivals, n - 1, serverFd, fd);
    }
  }

  lemma {:induction false} ArrivalsSize(table: map<int, Connection>, arrivals: seq<Arrival>, n: nat, serverFd: int)
    requires n <= |arrivals|
    ensures |table| <= |AfterArrivals(table, arrivals, n, serverFd)| <= |table| + n
  {
    if n > 0 {
      ArrivalsSize(table, arrivals, n - 1, serverFd);
      ArrivalSize(AfterArrivals(table, arrivals, n - 1, serverFd), arrivals[n - 1], serverFd);
    }
  }

  lemma {:induction false} ArrivalAdmitted(table: map<int, Connection>, arrivals: seq<Arrival>, n: nat, serverFd: int, fd: int)
    requires n <= |arrivals|
    ensures var r := AfterArrivals(table, arrivals, n, serverFd);
            && (fd in r && fd !in table ==> r[fd] == Fresh() && Arrived(arrivals, n, fd, serverFd))
            && (Arrived(arrivals, n, fd, serverFd) ==> fd in r || (|r| >= MAX_CLIENTS && |table| + n > MAX_CLIENTS))
  {
    if n > 0 {
      ArrivalAdmitted(table, arrivals, n - 1, serverFd, fd);
      ArrivalsSize(table, arrivals, n - 1, serverFd);
      ArrivalSize(AfterArrivals(table, arrivals, n - 1, serverFd), arrivals[n - 1], serverFd);
      ArrivedNext(arrivals, n, fd, serverFd);
    }
  }

  /** Old clients stay as they were; who is new is a sound arrival, as a fresh client; and a sound arrival is
      left out only if the table is full. */
  lemma WhoIsAdmitted(table: map<int, Connection>, arrivals: seq<Arrival>, n: nat, serverFd: int)
    requires n <= |arrivals|
    ensures var r := AfterArrivals(table, arrivals, n, serverFd);
            && (forall fd :: fd in table ==> fd in r && r[fd] == table[fd])
            && (forall fd :: fd in r && fd !in table ==> r[fd] == Fresh() && Arrived(arrivals, n, fd, serverFd))
            && (forall fd :: Arrived(arrivals, n, fd, serverFd) ==> fd in r || (|r| >= MAX_CLIENTS && |table| + n > MAX_CLIENTS))
            && |table| <= |r| <= |table| + n
  {
    var r := AfterArrivals(table, arrivals, n, serverFd);
    ArrivalsSize(table, arrivals, n, serverFd);
    forall fd | fd in table ensures fd in r && r[fd] == table[fd] {
      ArrivalsKeep(table, arrivals, n, serverFd, fd);
    }
    forall fd
      ensures fd in r && fd !in table ==> r[fd] == Fresh() && Arrived(arrivals, n, fd, serverFd)
      ensures Arrived(arrivals, n, fd, serverFd) ==> fd in r || (|r| >= MAX_CLIENTS && |table| + n > MAX_CLIENTS)
    {
      ArrivalAdmitted(table, arrivals, n, serverFd, fd);
    }
  }

  lemma ArrivedNext(arrivals: seq<Arrival>, n: nat, fd: int, serverFd: int)
    requires 0 < n <= |arrivals|
    ensures Arrived(arrivals, n, fd, serverFd) <==>
            Arrived(arrivals, n - 1, fd, serverFd) || (arrivals[n - 1].fd == fd && Sound(arrivals[n - 1], serverFd))
  {
  }

  // ----- Batches -----

  predicate Proper(event: Reported, table: map<int, Connection>) {
    && event.ClientReady? && event.event.fd in table && WellFormed(table[event.event.fd]) && Plausible(event.event)
    && !Dangling(table[event.event.fd], event.event)
  }

  /** What one event makes of the table, if it does not use a freed client. */
  function AfterOne(table: map<int, Connection>, event: Reported, serverFd: int): map<int, Connection> {
    if event.Arrivals? then AfterArrivals(table, event.arrivals, |event.arrivals|, serverFd)
    else if Proper(event, table) then AfterEvent(table, event.event)
    else table
  }

  function AfterBatch(table: map<int, Connection>, events: seq<Reported>, n: nat, serverFd: int): map<int, Connection>
    requires n <= |events|
  {
    if n == 0 then table else AfterOne(AfterBatch(table, events, n - 1, serverFd), events[n - 1], serverFd)
  }

  /** Some event before the n-th brings a sound arrival on this descriptor. */
  predicate Newcomer(events: seq<Reported>, n: nat, fd: int, serverFd: int) {
    exists i :: 0 <= i < n && i < |events| && BringsIn(events[i], fd, serverFd)
  }

  predicate BringsIn(event: Reported, fd: int, serverFd: int) {
    event.Arrivals? && Arrived(event.arrivals, |event.arrivals|, fd, serverFd)
  }

  function ArrivalCount(events: seq<Reported>, n: nat): nat
    requires n <= |events|
  {
    if n == 0 then 0 else ArrivalCount(events, n - 1) + if events[n - 1].Arrivals? then |events[n - 1].arrivals| else 0
  }

  /** Who is new, and if there is room for all who might come, who must be. */
  ghost predicate NewcomersOk(events: seq<Reported>, n: nat, t: map<int, Connection>, first: map<int, Connection>, serverFd: int)
    requires n <= |events|
  {
    && |t| <= |first| + ArrivalCount(events, n)
    && (forall fd :: fd in t && fd !in first ==> t[fd] == Fresh() && Newcomer(events, n, fd, serverFd))
    && (|first| + ArrivalCount(events, n) <= MAX_CLIENTS ==>
          forall fd :: fd !in first && Newcomer(events, n, fd, serverFd) ==> fd in t)
  }

  lemma NewcomerNext(events: seq<Reported>, n: nat, fd: int, serverFd: int)
    requires 0 < n <= |events|
    ensures Newcomer(events, n, fd, serverFd) <==> Newcomer(events, n - 1, fd, serverFd) || BringsIn(events[n - 1], fd, serverFd)
  {
  }

  lemma SameButOne(r: map<int, Connection>, table: map<int, Connection>, one: int)
    requires r - {one} == table - {one} && one in table
    ensures |r| <= |table|
    ensures forall fd :: fd != one ==> (fd in r <==> fd in table) && (fd in table ==> r[fd] == table[fd])
  {
    forall fd | fd != one ensures (fd in r <==> fd in table) && (fd in table ==> r[fd] == table[fd]) {
      assert fd in r <==> fd in r - {one};
      assert fd in table <==> fd in table - {one};
      assert fd in table ==> (r - {one})[fd] == (table - {one})[fd];
    }
    assert r.Keys <= table.Keys;
    assert table.Keys == r.Keys + (table.Keys - r.Keys);
    assert |r| == |r.Keys| && |table| == |table.Keys|;
  }

  lemma ClientEventSize(table: map<int, Connection>, e: ClientEvent)
    requires e.fd in table && WellFormed(table[e.fd]) && Plausible(e) && !Dangling(table[e.fd], e)
    ensures |AfterEvent(table, e)| <= |table|
    ensures forall fd :: fd != e.fd ==> (fd in AfterEvent(table, e) <==> fd in table) && (fd in table ==> AfterEvent(table, e)[fd] == table[fd])
  {
    SameButOne(AfterEvent(table, e), table, e.fd);
  }

  /**
   Over a batch: whoever is new at its end is a fresh client that arrived in it; and with room for all
   clients and arrivals together, everybody who arrived soundly on a new descriptor is there.
   */
  lemma {:induction false} WhoIsNew(first: map<int, Connection>, events: seq<Reported>, n: nat, serverFd: int)
    requires n <= |events| && IsBatch(events, first)
    ensures NewcomersOk(events, n, AfterBatch(first, events, n, serverFd), first, serverFd)
  {
    if n > 0 {
      var before, event := AfterBatch(first, events, n - 1, serverFd), events[n - 1];
      WhoIsNew(first, events, n - 1, serverFd);
      forall fd ensures Newcomer(events, n, fd, serverFd) <==>
                        Newcomer(events, n - 1, fd, serverFd) || BringsIn(event, fd, serverFd)
      {
        NewcomerNext(events, n, fd, serverFd);
      }
      if event.Arrivals? {
        WhoIsAdmitted(before, event.arrivals, |event.arrivals|, serverFd);
      } else if Proper(event, before) {
        ClientEventSize(before, event.event);
      }
    }
  }

  /** The event is one for a connected client, and would use it after closing it. */
  predicate Dangles(event: Reported, table: map<int, Connection>) {
    && event.ClientReady? && event.event.fd in table && WellFormed(table[event.event.fd]) && Plausible(event.event)
    && Dangling(table[event.event.fd], event.event)
  }

  /** After a batch: the client is as its own event left it, or its descriptor was closed (and may be a new client's). */
  predicate Outcome(table: map<int, Connection>, before: map<int, Connection>, e: ClientEvent)
    requires e.fd in before && WellFormed(before[e.fd]) && Plausible(e)
  {
    && !Dangling(before[e.fd], e)
    && var after := AfterEvent(before, e);
       e.fd in after ==> e.fd in table && table[e.fd] == after[e.fd]
  }

  predicate Same(table: map<int, Connection>, before: map<int, Connection>, fd: int) {
    fd in before ==> fd in table && table[fd] == before[fd]
  }

  ghost predicate OthersKept(table: map<int, Connection>, before: map<int, Connection>, event: Reported) {
    forall fd :: !(event.ClientReady? && event.event.fd == fd) ==> Same(table, before, fd)
  }

  /** Plausible events for connected clients, no client twice. */
  predicate IsBatch(events: seq<Reported>, table: map<int, Connection>) {
    && (forall i :: 0 <= i < |events| && events[i].ClientReady? ==>
          events[i].event.fd in table && WellFormed(table[events[i].event.fd]) && Plausible(events[i].event))
    && (forall i, j :: 0 <= i < j < |events| && events[i].ClientReady? && events[j].ClientReady? ==>
          events[i].event.fd != events[j].event.fd)
  }

  /** From the n-th on, the clients of the batch are as they were when it was fetched. */
  predicate Kept(events: seq<Reported>, n: nat, table: map<int, Connection>, first: map<int, Connection>)
    requires IsBatch(events, first)
  {
    forall i :: n <= i < |events| && events[i].ClientReady? ==> Same(table, first, events[i].event.fd)
  }

  predicate Handled(events: seq<Reported>, n: nat, table: map<int, Connection>, first: map<int, Connection>)
    requires IsBatch(events, first) && n <= |events|
  {
    forall i :: 0 <= i < n && events[i].ClientReady? ==> Outcome(table, first, events[i].event)
  }

  lemma EventLocal(table: map<int, Connection>, e: ClientEvent)
    requires e.fd in table && WellFormed(table[e.fd]) && Plausible(e) && !Dangling(table[e.fd], e)
    ensures OthersKept(AfterEvent(table, e), table, ClientReady(e)) && Outcome(AfterEvent(table, e), table, e)
  {
  }

  /** The outcome of an event for a client depends on that client alone. */
  lemma OutcomeLocal(table: map<int, Connection>, table': map<int, Connection>, before: map<int, Connection>,
                     first: map<int, Connection>, e: ClientEvent)
    requires e.fd in first && WellFormed(first[e.fd]) && e.fd in before && before[e.fd] == first[e.fd] && Plausible(e)
    requires Outcome(table, before, e) && Same(table', table, e.fd)
    ensures Outcome(table', first, e)
  {
    EventDependsOn(before, first, e);
  }

  lemma InputDependsOn(a: map<int, Connection>, b: map<int, Connection>, fd: int, call: ReadCall)
    requires fd in a && fd in b && a[fd] == b[fd] && WellFormed(a[fd]) && PlausibleRead(call)
    ensures var x, y := AfterInput(a, fd, call), AfterInput(b, fd, call); (fd in x <==> fd in y) && (fd in x ==> x[fd] == y[fd])
  {
  }

  lemma RestDependsOn(a: map<int, Connection>, b: map<int, Connection>, e: ClientEvent)
    requires e.fd in a && e.fd in b && a[e.fd] == b[e.fd] && WellFormed(a[e.fd]) && Plausible(e)
    ensures var x, y := AfterRest(a, e), AfterRest(b, e); (e.fd in x <==> e.fd in y) && (e.fd in x ==> x[e.fd] == y[e.fd])
  {
  }

  lemma EventDependsOn(a: map<int, Connection>, b: map<int, Connection>, e: ClientEvent)
    requires e.fd in a && e.fd in b && a[e.fd] == b[e.fd] && WellFormed(a[e.fd]) && Plausible(e) && !Dangling(a[e.fd], e)
    ensures var x, y := AfterEvent(a, e), AfterEvent(b, e); (e.fd in x <==> e.fd in y) && (e.fd in x ==> x[e.fd] == y[e.fd])
  {
    var a1 := if e.input.Some? then AfterInput(a, e.fd, e.input.value) else a;
    var b1 := if e.input.Some? then AfterInput(b, e.fd, e.input.value) else b;
    if e.input.Some? {
      InputDependsOn(a, b, e.fd, e.input.value);
    }
    if e.fd in a1 {
      RestDependsOn(a1, b1, e);
    }
  }

  lemma BatchStep(events: seq<Reported>, n: nat, table: map<int, Connection>, before: map<int, Connection>,
                  first: map<int, Connection>)
    requires IsBatch(events, first) && n < |events|
    requires Kept(events, n, before, first) && Handled(events, n, before, first)
    requires OthersKept(table, before, events[n])
    requires events[n].ClientReady? ==> Outcome(table, before, events[n].event)
    ensures Kept(events, n + 1, table, first) && Handled(events, n + 1, table, first)
  {
    forall i | n + 1 <= i < |events| && events[i].ClientReady? ensures Same(table, first, events[i].event.fd) {
      assert Same(before, first, events[i].event.fd) && Same(table, before, events[i].event.fd);
    }
    forall i | 0 <= i < n + 1 && events[i].ClientReady? ensures Outcome(table, first, events[i].event) {
      if i == n {
        OutcomeLocal(table, table, before, first, events[i].event);
      } else {
        OutcomeLocal(before, table, first, first, events[i].event);
      }
    }
  }
}
