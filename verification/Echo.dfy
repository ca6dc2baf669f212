/**
 One connection of the echo server of lesson 9: the buffers of a Client, and the bytes that have
 gone in and out. A read that delivers bytes moves them into the write buffer at once; writes
 drain the write buffer, any number of bytes at a time.
 */
module Echo {
  const BUFFER_SIZE: nat := 1024

  datatype Connection = Connection(
    readBuffer: seq<int>, readSize: nat,
    writeBuffer: seq<int>, writeSize: nat, writeOffset: nat,
    received: seq<int>,     // history: the bytes read from the socket
    sent: seq<int>)         // history: the bytes written to the socket

  /** create_client: everything zeroed. */
  function Fresh(): (c: Connection)
    ensures WellFormed(c) && c.sent == c.received == Pending(c) == []
  {
    var zeros := seq(BUFFER_SIZE, _ => 0);
    Connection(zeros, 0, zeros, 0, 0, [], [])
  }

  /** The offsets are in bounds and, between events, the write buffer is empty or has bytes left. */
  predicate WellFormed(c: Connection) {
    && |c.readBuffer| == |c.writeBuffer| == BUFFER_SIZE
    && c.readSize == 0
    && c.writeOffset <= c.writeSize <= BUFFER_SIZE
    && (c.writeOffset == c.writeSize ==> c.writeSize == 0)
  }

  function Pending(c: Connection): seq<int>
    requires WellFormed(c)
  {
    c.writeBuffer[c.writeOffset..c.writeSize]
  }

  function Overwrite(buffer: seq<int>, at: nat, data: seq<int>): (r: seq<int>)
    requires at + |data| <= |buffer|
    ensures |r| == |buffer| && r[at..at + |data|] == data && r[..at] == buffer[..at]
  {
    buffer[..at] + data + buffer[at + |data|..]
  }

  /** handle_read_event when read returns the bytes of data. */
  function AfterRead(c: Connection, data: seq<int>): Connection
    requires WellFormed(c) && 0 < |data| <= BUFFER_SIZE - c.readSize
  {
    var readBuffer := Overwrite(c.readBuffer, c.readSize, data);
    var readSize := c.readSize + |data|;
    Connection(readBuffer, 0, Overwrite(c.writeBuffer, 0, readBuffer[..readSize]), readSize, 0, c.received + data, c.sent)
  }

  /** handle_write_event when write takes k bytes. */
  function AfterWrite(c: Connection, k: nat): Connection
    requires WellFormed(c) && 1 <= k <= |Pending(c)|
  {
    var offset := c.writeOffset + k;
    var done := offset >= c.writeSize;
    c.(writeSize := if done then 0 else c.writeSize,
       writeOffset := if done then 0 else offset,
       sent := c.sent + c.writeBuffer[c.writeOffset..offset])
  }

  lemma ReadEffect(c: Connection, data: seq<int>)
    requires WellFormed(c) && 0 < |data| <= BUFFER_SIZE
    ensures var r := AfterRead(c, data);
            WellFormed(r) && Pending(r) == data && r.sent == c.sent && r.received == c.received + data
  {
  }

  lemma WriteEffect(c: Connection, k: nat)
    requires WellFormed(c) && 1 <= k <= |Pending(c)|
    ensures var w := AfterWrite(c, k);
            && WellFormed(w) && w.received == c.received
            && w.sent == c.sent + Pending(c)[..k] && Pending(w) == Pending(c)[k..]
  {
  }

  // ----- Whole runs of a connection -----

  datatype Event = Read(data: seq<int>) | Write(k: nat)

  predicate Can(c: Connection, e: Event) {
    && WellFormed(c)
    && match e
       case Read(data) => 0 < |data| <= BUFFER_SIZE
       case Write(k) => 1 <= k <= |Pending(c)|
  }

  function Do(c: Connection, e: Event): (c': Connection)
    requires Can(c, e)
    ensures WellFormed(c')
  {
    match e
    case Read(data) => ReadEffect(c, data); AfterRead(c, data)
    case Write(k) => WriteEffect(c, k); AfterWrite(c, k)
  }

  predicate Valid(c: Connection, events: seq<Event>)
    decreases |events|
  {
    events == [] || (Can(c, events[0]) && Valid(Do(c, events[0]), events[1..]))
  }

  function Exec(c: Connection, events: seq<Event>): (c': Connection)
    requires WellFormed(c) && Valid(c, events)
    ensures WellFormed(c')
    decreases |events|
  {
    if events == [] then c else Exec(Do(c, events[0]), events[1..])
  }

  /** Every byte received has been sent or is waiting to be sent, in order. */
  predicate Faithful(c: Connection) {
    WellFormed(c) && c.sent + Pending(c) == c.received
  }

  /** The bytes the reads of a run delivered, and how many its writes took. */
  function Delivered(events: seq<Event>): seq<int> {
    if events == [] then [] else (if events[0].Read? then events[0].data else []) + Delivered(events[1..])
  }

  function Taken(events: seq<Event>): nat {
    if events == [] then 0 else (if events[0].Write? then events[0].k else 0) + Taken(events[1..])
  }

  /** The histories are those of the run's reads and writes. */
  lemma {:induction false} HistoryIsOfEvents(c: Connection, events: seq<Event>)
    requires WellFormed(c) && Valid(c, events)
    ensures Exec(c, events).received == c.received + Delivered(events)
    ensures |Exec(c, events).sent| == |c.sent| + Taken(events)
    decreases |events|
  {
    if events == [] {
      assert c.received + [] == c.received;
    } else {
      var first, rest := if events[0].Read? then events[0].data else [], Delivered(events[1..]);
      StepHistory(c, events[0]);
      HistoryIsOfEvents(Do(c, events[0]), events[1..]);
      Regroup(c.received, first, rest);
    }
  }

  lemma Regroup(a: seq<int>, b: seq<int>, c: seq<int>)
    ensures (a + b) + c == a + (b + c)
  {
  }

  lemma StepHistory(c: Connection, e: Event)
    requires Can(c, e)
    ensures Do(c, e).received == c.received + if e.Read? then e.data else []
    ensures |Do(c, e).sent| == |c.sent| + if e.Write? then e.k else 0
  {
    StepEffect(c, e);
  }

  /** How many unsent bytes the reads of a run threw away. */
  function Overwritten(c: Connection, events: seq<Event>): nat
    requires Valid(c, events)
    decreases |events|
  {
    if events == [] then 0
    else (if events[0].Read? then |Pending(c)| else 0) + Overwritten(Do(c, events[0]), events[1..])
  }

  /** Bytes are conserved: what is neither sent nor pending was overwritten by a read. */
  lemma {:induction false} BytesConserved(c: Connection, events: seq<Event>)
    requires WellFormed(c) && Valid(c, events)
    ensures var r := Exec(c, events);
            |r.received| + |c.sent| + |Pending(c)| == |c.received| + |r.sent| + |Pending(r)| + Overwritten(c, events)
    decreases |events|
  {
    if events != [] {
      StepEffect(c, events[0]);
      BytesConserved(Do(c, events[0]), events[1..]);
    }
  }

  lemma StepEffect(c: Connection, e: Event)
    requires Can(c, e)
    ensures var r := Do(c, e);
            && (e.Read? ==> Pending(r) == e.data && r.sent == c.sent && r.received == c.received + e.data)
            && (e.Write? ==> r.sent + Pending(r) == c.sent + Pending(c) && r.received == c.received
                             && |r.sent| == |c.sent| + e.k)
  {
  }

  lemma {:induction false} NothingOverwritten(c: Connection, events: seq<Event>)
    requires Faithful(c) && Valid(c, events) && Overwritten(c, events) == 0
    ensures Faithful(Exec(c, events))
    decreases |events|
  {
    if events != [] {
      StepEffect(c, events[0]);
      NothingOverwritten(Do(c, events[0]), events[1..]);
    }
  }

  /** A run echoes faithfully exactly when no read came while bytes were still unsent. */
  lemma FaithfulIff(events: seq<Event>)
    requires Valid(Fresh(), events)
    ensures Faithful(Exec(Fresh(), events)) <==> Overwritten(Fresh(), events) == 0
    ensures var r := Exec(Fresh(), events);
            Overwritten(Fresh(), events) == 0 ==> r.sent + Pending(r) == Delivered(events) && |r.sent| == Taken(events)
  {
    BytesConserved(Fresh(), events);
    HistoryIsOfEvents(Fresh(), events);
    if Overwritten(Fresh(), events) == 0 {
      NothingOverwritten(Fresh(), events);
    } else {
      var r := Exec(Fresh(), events);
      assert |r.sent + Pending(r)| == |r.sent| + |Pending(r)|;
    }
  }

  // ----- What comes out, whatever happens -----

  /** a is what remains of b when some elements are dropped. */
  predicate Subsequence(a: seq<int>, b: seq<int>) {
    if a == [] then true
    else if b == [] then false
    else if a[|a| - 1] == b[|b| - 1] then Subsequence(a[..|a| - 1], b[..|b| - 1])
    else Subsequence(a, b[..|b| - 1])
  }

  lemma {:induction false} SubsequenceAppend(a: seq<int>, b: seq<int>, d: seq<int>)
    requires Subsequence(a, b)
    ensures Subsequence(a + d, b + d)
    decreases |d|
  {
    if d == [] {
      assert a + d == a && b + d == b;
    } else {
      var init := d[..|d| - 1];
      SubsequenceAppend(a, b, init);
      assert (a + d)[..|a + d| - 1] == a + init && (b + d)[..|b + d| - 1] == b + init;
    }
  }

  lemma {:induction false} SubsequenceDropLast(a: seq<int>, b: seq<int>)
    requires a != [] && Subsequence(a, b)
    ensures Subsequence(a[..|a| - 1], b)
    decreases |b|
  {
    var init, shorter := a[..|a| - 1], b[..|b| - 1];
    if a[|a| - 1] == b[|b| - 1] {
      SubsequenceLonger(init, b);
    } else {
      SubsequenceDropLast(a, shorter);
      SubsequenceLonger(init, b);
    }
  }

  lemma {:induction false} SubsequenceLonger(a: seq<int>, b: seq<int>)
    requires b != [] && Subsequence(a, b[..|b| - 1])
    ensures Subsequence(a, b)
    decreases |b|, 0
  {
    if a != [] && a[|a| - 1] == b[|b| - 1] {
      SubsequenceDropLast(a, b[..|b| - 1]);
    }
  }

  lemma {:induction false} SubsequencePrefix(a: seq<int>, p: seq<int>, b: seq<int>)
    requires Subsequence(a + p, b)
    ensures Subsequence(a, b)
    decreases |p|
  {
    if p == [] {
      assert a + p == a;
    } else {
      SubsequenceDropLast(a + p, b);
      assert (a + p)[..|a + p| - 1] == a + p[..|p| - 1];
      SubsequencePrefix(a, p[..|p| - 1], b);
    }
  }

  /** Bytes may be dropped, but never invented, repeated or reordered. */
  lemma {:induction false} OutputIsSubsequence(c: Connection, events: seq<Event>)
    requires WellFormed(c) && Valid(c, events) && Subsequence(c.sent + Pending(c), c.received)
    ensures var r := Exec(c, events); Subsequence(r.sent + Pending(r), r.received) && Subsequence(r.sent, r.received)
    decreases |events|
  {
    SubsequencePrefix(c.sent, Pending(c), c.received);
    if events != [] {
      StepEffect(c, events[0]);
      if events[0].Read? {
        SubsequenceAppend(c.sent, c.received, events[0].data);
      }
      OutputIsSubsequence(Do(c, events[0]), events[1..]);
    }
  }

  // ----- Connections a server can have -----

  predicate RunsTo(events: seq<Event>, c: Connection) {
    Valid(Fresh(), events) && Exec(Fresh(), events) == c
  }

  /** Some run of reads and writes makes the connection what it is. */
  ghost predicate IsRun(c: Connection) {
    exists events :: RunsTo(events, c)
  }

  lemma FreshIsRun()
    ensures IsRun(Fresh())
  {
    assert RunsTo([], Fresh());
  }

  lemma {:induction false} ExecOn(c: Connection, events: seq<Event>, e: Event)
    requires WellFormed(c) && Valid(c, events) && Can(Exec(c, events), e)
    ensures Valid(c, events + [e]) && Exec(c, events + [e]) == Do(Exec(c, events), e)
    decreases |events|
  {
    var more := events + [e];
    if events == [] {
      assert more == [e] && more[1..] == [];
    } else {
      ExecOn(Do(c, events[0]), events[1..], e);
      assert more[1..] == events[1..] + [e];
    }
  }

  lemma RunOn(c: Connection, e: Event)
    requires IsRun(c) && Can(c, e)
    ensures IsRun(Do(c, e))
  {
    var events :| RunsTo(events, c);
    ExecOn(Fresh(), events, e);
    assert RunsTo(events + [e], Do(c, e));
  }

  /** What a run leaves says by its lengths alone whether it was faithful; it never sends what it did not get. */
  lemma RunEchoes(c: Connection)
    requires IsRun(c)
    ensures WellFormed(c) && Subsequence(c.sent + Pending(c), c.received)
    ensures Faithful(c) <==> |c.sent| + |Pending(c)| == |c.received|
    ensures exists events :: RunsTo(events, c) && c.received == Delivered(events)
  {
    var events :| RunsTo(events, c);
    OutputIsSubsequence(Fresh(), events);
    BytesConserved(Fresh(), events);
    FaithfulIff(events);
    HistoryIsOfEvents(Fresh(), events);
  }
}
