/**
 The latency test of lesson 8: sleep until one interval after the last wake-up, measure how late
 the next wake-up is, and keep the minimum, maximum and total of the latencies.
 */
module CyclicTest {
  const NS_PER_SEC: int := 1_000_000_000
  const INTERVAL_NS: int := 1_000_000
  const MIN_SENTINEL: int := 9_999_999

  datatype Timespec = Timespec(sec: int, nsec: int)

  predicate Normal(t: Timespec) {
    0 <= t.nsec < NS_PER_SEC
  }

  function Nanos(t: Timespec): int {
    t.sec * NS_PER_SEC + t.nsec
  }

  /** The target computation: one interval on, with one carry. */
  function Target(t: Timespec): (r: Timespec)
    requires Normal(t)
    ensures Normal(r) && Nanos(r) == Nanos(t) + INTERVAL_NS
  {
    var nsec := t.nsec + INTERVAL_NS;
    if nsec >= NS_PER_SEC then Timespec(t.sec + 1, nsec - NS_PER_SEC) else Timespec(t.sec, nsec)
  }

  function Latency(actual: Timespec, target: Timespec): (ns: int)
    ensures ns == Nanos(actual) - Nanos(target)
  {
    (actual.sec - target.sec) * NS_PER_SEC + (actual.nsec - target.nsec)
  }

  /** The time iteration i starts from: the wake-up before it. */
  function Before(start: Timespec, wakes: seq<Timespec>, i: nat): Timespec
    requires i <= |wakes|
  {
    if i == 0 then start else wakes[i - 1]
  }

  /** How late wake-up i was, in terms of the clock alone. */
  function Late(start: Timespec, wakes: seq<Timespec>, i: nat): int
    requires i < |wakes|
  {
    Nanos(wakes[i]) - Nanos(Before(start, wakes, i)) - INTERVAL_NS
  }

  datatype Report = Report(min: int, max: int, total: int, average: int) | NoAverage

  /**
   The measuring loop over the wake-up times clock_gettime returns. The total telescopes: it is the
   time elapsed beyond the intervals slept. Minimum and maximum are those of the latencies, except
   that the reported minimum cannot exceed its initial value; so it is a latency exactly if some
   latency does not exceed that value. No wake-up at all means a division by zero.
   */
  method Measure(start: Timespec, wakes: seq<Timespec>) returns (r: Report)
    requires Normal(start) && forall i :: 0 <= i < |wakes| ==> Normal(wakes[i])
    requires forall i :: 0 <= i < |wakes| ==> Late(start, wakes, i) >= 0
    ensures r.NoAverage? <==> wakes == []
    ensures r.Report? ==>
              && Nanos(wakes[|wakes| - 1]) == Nanos(start) + |wakes| * INTERVAL_NS + r.total
              && r.min * |wakes| <= r.total <= r.max * |wakes|
              && r.min <= r.average <= r.max && r.average * |wakes| <= r.total < (r.average + 1) * |wakes|
              && (forall i :: 0 <= i < |wakes| ==> r.min <= Late(start, wakes, i) <= r.max)
              && (exists i :: 0 <= i < |wakes| && Late(start, wakes, i) == r.max)
              && ((exists i :: 0 <= i < |wakes| && Late(start, wakes, i) == r.min)
                  <==> exists i :: 0 <= i < |wakes| && Late(start, wakes, i) <= MIN_SENTINEL)
              && ((forall i :: 0 <= i < |wakes| ==> Late(start, wakes, i) > MIN_SENTINEL) ==> r.min == MIN_SENTINEL)
  {
    var tStart, min, max, total := start, MIN_SENTINEL, 0, 0;
    ghost var minAt, maxAt := -1, -1;
    for i := 0 to |wakes|
      invariant tStart == Before(start, wakes, i)
      invariant Nanos(tStart) == Nanos(start) + i * INTERVAL_NS + total
      invariant min * i <= total <= max * i
      invariant forall j :: 0 <= j < i ==> min <= Late(start, wakes, j) <= max
      invariant min <= MIN_SENTINEL && (min < MIN_SENTINEL ==> 0 <= minAt < i && Late(start, wakes, minAt) == min)
      invariant 0 <= max && (max > 0 ==> 0 <= maxAt < i && Late(start, wakes, maxAt) == max)
    {
      var target := Target(tStart);
      var actual := wakes[i];
      var latency := Latency(actual, target);
      assert latency == Late(start, wakes, i);
      TotalsStep(min, max, total, latency, i);
      if latency < min {
        min, minAt := latency, i;
      }
      if latency > max {
        max, maxAt := latency, i;
      }
      total := total + latency;
      tStart := actual;
    }
    if wakes == [] {
      return NoAverage;
    }
    AverageBetween(min, max, total, |wakes|);
    assert Late(start, wakes, 0) <= max;
    r := Report(min, max, total, total / |wakes|);
  }

  lemma TotalsStep(min: int, max: int, total: int, latency: int, i: nat)
    requires min * i <= total <= max * i
    ensures var min' := if latency < min then latency else min;
            var max' := if latency > max then latency else max;
            min' * (i + 1) <= total + latency <= max' * (i + 1)
  {
  }

  lemma AverageBetween(min: int, max: int, total: int, n: nat)
    requires n > 0 && min * n <= total <= max * n
    ensures min <= total / n <= max && total / n * n <= total < (total / n + 1) * n
  {
    var q := total / n;
    assert total == q * n + total % n;
    assert q < min ==> (q + 1) * n <= min * n;
    assert q > max ==> (max + 1) * n <= q * n;
  }
}
