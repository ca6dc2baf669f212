/**
 The bounded work queue of lesson 9: a ring buffer of MAX_QUEUE_SIZE task pointers guarded by
 one mutex. A Monitor is what the mutex protects, seen from outside; every critical section of
 the C code is one function on Monitors, and one method of the class that carries it out on
 the ring buffer.
 */
module WorkQueues {

  const MAX_QUEUE_SIZE: nat := 100

  datatype Monitor<T> = Monitor(queue: seq<T>, shutdown: bool)

  datatype EnqueueOutcome = WaitNotFull | Refused | Added
  datatype DequeueOutcome<T> = WaitNotEmpty | Drained | Got(task: T)

  /** One pass through the critical section of enqueue_task, up to a wait or the return. */
  function EnqueueSection<T>(m: Monitor<T>, task: T): (Monitor<T>, EnqueueOutcome) {
    if |m.queue| == MAX_QUEUE_SIZE && !m.shutdown then (m, WaitNotFull)
    else if m.shutdown then (m, Refused)
    else (m.(queue := m.queue + [task]), Added)
  }

  /** One pass through the critical section of dequeue_task, up to a wait or the return. */
  function DequeueSection<T>(m: Monitor<T>): (Monitor<T>, DequeueOutcome<T>) {
    if m.queue == [] && !m.shutdown then (m, WaitNotEmpty)
    else if m.queue == [] then (m, Drained)
    else (m.(queue := m.queue[1..]), Got(m.queue[0]))
  }

  /** The live part of a ring buffer, oldest first. */
  function Ring<T>(buffer: seq<T>, front: nat, count: nat): seq<T>
    requires |buffer| > 0
  {
    seq(count, i requires 0 <= i < count => buffer[(front + i) % |buffer|])
  }

  /** Advancing front by one slot drops exactly the oldest element. */
  lemma RingAdvance<T>(buffer: seq<T>, front: nat, count: nat)
    requires |buffer| == MAX_QUEUE_SIZE && front < |buffer| && 0 < count <= |buffer|
    ensures Ring(buffer, front, count) == [buffer[front]] + Ring(buffer, (front + 1) % |buffer|, count - 1)
    ensures ((front + 1) % |buffer| + count - 1) % |buffer| == (front + count) % |buffer|
  {
  }

  /** Writing one past the end appends exactly that element, provided the ring is not full. */
  lemma RingExtend<T>(buffer: seq<T>, front: nat, count: nat, rear: nat, x: T)
    requires |buffer| == MAX_QUEUE_SIZE && front < |buffer| && count < |buffer|
    requires rear == (front + count) % |buffer|
    ensures Ring(buffer[rear := x], front, count + 1) == Ring(buffer, front, count) + [x]
  {
  }

  class WorkQueue<T(0)> {
    const tasks: array<T>
    var front: int
    var rear: int
    var count: int
    var shutdown: bool

    ghost predicate Valid()
      reads this, tasks
    {
      && tasks.Length == MAX_QUEUE_SIZE
      && 0 <= front < MAX_QUEUE_SIZE
      && -1 <= rear < MAX_QUEUE_SIZE
      && 0 <= count <= MAX_QUEUE_SIZE
      && (rear + 1) % MAX_QUEUE_SIZE == (front + count) % MAX_QUEUE_SIZE
    }

    ghost function Abstract(): Monitor<T>
      reads this, tasks
      requires Valid()
    {
      Monitor(Ring(tasks[..], front, count), shutdown)
    }

    constructor ()
      ensures Valid() && fresh(tasks)
      ensures Abstract() == Monitor([], false)
      ensures rear == -1
    {
      tasks := new T[MAX_QUEUE_SIZE];
      front, rear, count, shutdown := 0, -1, 0, false;
    }

    method Enqueue(task: T) returns (outcome: EnqueueOutcome)
      requires Valid()
      modifies this, tasks
      ensures Valid()
      ensures (Abstract(), outcome) == EnqueueSection(old(Abstract()), task)
    {
      if count == MAX_QUEUE_SIZE && !shutdown {
        return WaitNotFull;
      }
      if shutdown {
        return Refused;
      }
      ghost var before := tasks[..];
      rear := (rear + 1) % MAX_QUEUE_SIZE;
      tasks[rear] := task;
      RingExtend(before, front, count, rear, task);
      assert tasks[..] == before[rear := task];
      count := count + 1;
      outcome := Added;
    }

    method Dequeue() returns (outcome: DequeueOutcome<T>)
      requires Valid()
      modifies this
      ensures Valid()
      ensures (Abstract(), outcome) == DequeueSection(old(Abstract()))
    {
      if count == 0 && !shutdown {
        return WaitNotEmpty;
      }
      if count == 0 {
        return Drained;
      }
      RingAdvance(tasks[..], front, count);
      var task := tasks[front];
      front := (front + 1) % MAX_QUEUE_SIZE;
      count := count - 1;
      outcome := Got(task);
    }

    method Shutdown()
      requires Valid()
      modifies this
      ensures Valid()
      ensures Abstract() == old(Abstract()).(shutdown := true)
    {
      shutdown := true;
    }

    /** The loop of destroy_work_queue: frees what is left, oldest first, and nothing else. */
    method Destroy() returns (freed: seq<T>)
      requires Valid()
      modifies this
      ensures Valid()
      ensures freed == old(Abstract()).queue
      ensures Abstract() == old(Abstract()).(queue := [])
    {
      freed := [];
      ghost var buffer := tasks[..];
      while count > 0
        invariant Valid() && shutdown == old(shutdown) && tasks[..] == buffer
        invariant freed + Ring(buffer, front, count) == old(Ring(tasks[..], front, count))
      {
        RingAdvance(buffer, front, count);
        ghost var rest := Ring(buffer, (front + 1) % MAX_QUEUE_SIZE, count - 1);
        assert freed + ([tasks[front]] + rest) == (freed + [tasks[front]]) + rest;
        freed := freed + [tasks[front]];
        front := (front + 1) % MAX_QUEUE_SIZE;
        count := count - 1;
      }
    }
  }
}
