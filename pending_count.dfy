/** PendingPerfCount: the calls currently in flight in one section. It holds their
    number and the sums of their start times and start cpu times. The sums are
    meant to be exact only modulo 2^64, and every update wraps like a Java `long`. */
module PendingCount {
  import opened JavaInts
  import opened CallStacks

  /** The three counters. */
  datatype PendingValue = PendingValue(count: Int32, sumStart: Long, sumStartCpu: Long)

  const NO_PENDING := PendingValue(0, 0, 0)

  /** `addPending(start, cpuStart)`: one more call, its start times added. */
  function WithPending(p: PendingValue, start: Long, cpuStart: Long): PendingValue
  {
    PendingValue(WrapInt(p.count as int + 1), WrapLong(p.sumStart as int + start), WrapLong(p.sumStartCpu as int + cpuStart))
  }

  /** `removePending(start, cpuStart)`: one call less; the negated start times
      (negation wraps as well) are added. */
  function WithoutPending(p: PendingValue, start: Long, cpuStart: Long): PendingValue
  {
    PendingValue(WrapInt(p.count as int - 1),
      WrapLong(p.sumStart as int + WrapLong(-(start as int))), WrapLong(p.sumStartCpu as int + WrapLong(-(cpuStart as int))))
  }

  /** `incr(src)`: field-wise sum. */
  function PendingAdded(p: PendingValue, src: PendingValue): PendingValue
  {
    PendingValue(WrapInt(p.count as int + src.count), WrapLong(p.sumStart as int + src.sumStart),
      WrapLong(p.sumStartCpu as int + src.sumStartCpu))
  }

  /** `getPendingAverageTimeNanosUntilTime(t)`: 0 when nothing is pending, otherwise
      (count * t - sumStart) / count in `long` arithmetic. */
  function PendingAverage(p: PendingValue, t: Long): (r: Long)
    ensures p.count == 0 ==> r == 0
  {
    if p.count == 0 then 0
    else DivLong(WrapLong(WrapLong(p.count as int * t) as int - p.sumStart), p.count)
  }

  /** Removing a call undoes adding it, whatever wrap-around happened in between. */
  lemma RemoveUndoesAdd(p: PendingValue, start: Long, cpuStart: Long)
    ensures WithoutPending(WithPending(p, start, cpuStart), start, cpuStart) == p
    ensures WithPending(WithoutPending(p, start, cpuStart), start, cpuStart) == p
  {
    var q := WithPending(p, start, cpuStart);
    WrapIntUndo(p.count, 1);
    WrapNegCancels(p.sumStart, start);
    WrapNegCancels(p.sumStartCpu, cpuStart);
    var r := WithoutPending(q, start, cpuStart);
    assert r.count == p.count && r.sumStart == p.sumStart && r.sumStartCpu == p.sumStartCpu;
    var u := WithoutPending(p, start, cpuStart);
    WrapIntUndo(p.count, -1);
    WrapNegCancelsBack(p.sumStart, start);
    WrapNegCancelsBack(p.sumStartCpu, cpuStart);
    var w := WithPending(u, start, cpuStart);
    assert w.count == p.count && w.sumStart == p.sumStart && w.sumStartCpu == p.sumStartCpu;
  }

  /** Adding d to an `int` and then subtracting it gives it back. */
  lemma WrapIntUndo(c: Int32, d: int)
    ensures WrapInt(WrapInt(c as int + d) as int - d) == c
  {
    WrapIntAdd(c as int + d, -d);
  }

  /** Adding x and then the wrapped -x to a `long` gives it back. */
  lemma WrapNegCancels(s: Long, x: Long)
    ensures WrapLong(WrapLong(s as int + x) as int + WrapLong(-(x as int))) == s
  {
    var a, nx := s as int + x, -(x as int);
    WrapLongAdd(a, WrapLong(nx));
    WrapLongAdd(a, nx);
    assert a + nx == s as int;
    WrapLongInRange(s);
  }

  /** Adding the wrapped -x and then x to a `long` gives it back. */
  lemma WrapNegCancelsBack(s: Long, x: Long)
    ensures WrapLong(WrapLong(s as int + WrapLong(-(x as int))) as int + x) == s
  {
    var nx := -(x as int);
    var b := s as int + WrapLong(nx);
    WrapLongAdd(b, x);
    WrapLongAdd(s as int + x, nx);
    assert b + x == (s as int + x) + WrapLong(nx);
    assert (s as int + x) + nx == s as int;
    WrapLongInRange(s);
  }

  /** With one call pending since t0, the average at t is t - t0 (as a `long`). */
  lemma AverageOfOne(t0: Long, cpu0: Long, t: Long)
    ensures PendingAverage(WithPending(NO_PENDING, t0, cpu0), t) == WrapLong(t as int - t0)
  {
    var p := WithPending(NO_PENDING, t0, cpu0);
    WrapIntInRange(1);
    WrapLongInRange(t0);
    assert p.count == 1 && p.sumStart == t0;
    WrapLongInRange(t);
    assert WrapLong(p.count as int * t) == t;
    var d := WrapLong(t as int - t0);
    assert TruncDiv(d, 1) == d;
    WrapLongInRange(d);
    assert DivLong(d, 1) == d;
  }

  /** The counters after `addPending` of each start time in `starts`, in order. */
  function AddedAll(p: PendingValue, starts: seq<Long>, cpuStart: Long): PendingValue
    decreases |starts|
  {
    if |starts| == 0 then p
    else WithPending(AddedAll(p, starts[..|starts| - 1], cpuStart), starts[|starts| - 1], cpuStart)
  }

  /** After adding n start times to empty counters, the count is n and the start sum
      is their sum, both wrapped. */
  lemma {:induction false} AddedAllCounters(starts: seq<Long>, cpuStart: Long)
    ensures AddedAll(NO_PENDING, starts, cpuStart).count == WrapInt(|starts|)
    ensures AddedAll(NO_PENDING, starts, cpuStart).sumStart == WrapLong(Sum(starts))
    decreases |starts|
  {
    if |starts| > 0 {
      var n := |starts| - 1;
      AddedAllCounters(starts[..n], cpuStart);
      WrapIntAdd(n, 1);
      WrapLongAdd(Sum(starts[..n]), starts[n]);
    }
  }

  /** The elapsed times t - s of each start time s. */
  function ElapsedSince(starts: seq<Long>, t: Long): (e: seq<int>)
    ensures |e| == |starts| && forall i | 0 <= i < |starts| :: e[i] == t - starts[i]
  {
    seq(|starts|, i requires 0 <= i < |starts| => t - starts[i])
  }

  lemma {:induction false} SumElapsed(starts: seq<Long>, t: Long)
    ensures Sum(ElapsedSince(starts, t)) == |starts| * t - Sum(starts)
    decreases |starts|
  {
    if |starts| > 0 {
      var n := |starts| - 1;
      SumElapsed(starts[..n], t);
      assert ElapsedSince(starts, t)[..n] == ElapsedSince(starts[..n], t);
    }
  }

  /** When nothing overflows, the pending average is the mean time the pending calls
      have been running, rounded toward zero. */
  lemma AverageIsMeanElapsed(starts: seq<Long>, cpuStart: Long, t: Long)
    requires 0 < |starts| <= INT_MAX
    requires LONG_MIN <= |starts| * t <= LONG_MAX
    requires LONG_MIN <= Sum(starts) <= LONG_MAX
    requires LONG_MIN <= |starts| * t - Sum(starts) <= LONG_MAX
    ensures PendingAverage(AddedAll(NO_PENDING, starts, cpuStart), t) == TruncDiv(Sum(ElapsedSince(starts, t)), |starts|)
  {
    AddedAllCounters(starts, cpuStart);
    SumElapsed(starts, t);
    WrapIntInRange(|starts|);
    WrapLongInRange(Sum(starts));
    WrapLongInRange(|starts| * t);
    WrapLongInRange(|starts| * t - Sum(starts));
    var q := TruncDiv(|starts| * t - Sum(starts), |starts|);
    assert LONG_MIN <= q <= LONG_MAX by {
      TruncDivLongRange(|starts| * t - Sum(starts), |starts|);
    }
    WrapLongInRange(q);
  }

  class PendingPerfCount {
    var pendingCount: Int32
    var pendingSumStartTime: Long
    var pendingSumStartCpuTime: Long

    function Value(): PendingValue
      reads this
    {
      PendingValue(pendingCount, pendingSumStartTime, pendingSumStartCpuTime)
    }

    constructor ()
      ensures Value() == NO_PENDING
    {
      pendingCount := 0;
      pendingSumStartTime := 0;
      pendingSumStartCpuTime := 0;
    }

    /** `new PendingPerfCount(src)`. */
    constructor Copy(src: PendingPerfCount)
      ensures Value() == src.Value()
    {
      pendingCount := src.pendingCount;
      pendingSumStartTime := src.pendingSumStartTime;
      pendingSumStartCpuTime := src.pendingSumStartCpuTime;
    }

    /** `getPendingAverageTimeNanosUntilTime(t)`. */
    function AverageTimeNanosUntilTime(t: Long): (r: Long)
      reads this
      ensures r == PendingAverage(Value(), t)
    {
      var count := pendingCount;
      if count == 0 then 0
      else DivLong(WrapLong(WrapLong(count as int * t) as int - pendingSumStartTime), count)
    }

    method Set(src: PendingPerfCount)
      modifies this
      ensures Value() == old(src.Value())
    {
      pendingCount := src.pendingCount;
      pendingSumStartTime := src.pendingSumStartTime;
      pendingSumStartCpuTime := src.pendingSumStartCpuTime;
    }

    method Clear()
      modifies this
      ensures Value() == NO_PENDING
    {
      pendingCount := 0;
      pendingSumStartTime := 0;
      pendingSumStartCpuTime := 0;
    }

    /** `incr(src)`; src may be this object. */
    method Incr(src: PendingPerfCount)
      modifies this
      ensures Value() == PendingAdded(old(Value()), old(src.Value()))
    {
      var incrCount := src.pendingCount;
      var incrPendingSum := src.pendingSumStartTime;
      var incrPendingCpuSum := src.pendingSumStartCpuTime;
      pendingCount := WrapInt(pendingCount as int + incrCount);
      pendingSumStartTime := WrapLong(pendingSumStartTime as int + incrPendingSum);
      pendingSumStartCpuTime := WrapLong(pendingSumStartCpuTime as int + incrPendingCpuSum);
    }

    method AddPending(startTime: Long, startCpuTime: Long)
      modifies this
      ensures Value() == WithPending(old(Value()), startTime, startCpuTime)
    {
      pendingCount := WrapInt(pendingCount as int + 1);
      pendingSumStartTime := WrapLong(pendingSumStartTime as int + startTime);
      pendingSumStartCpuTime := WrapLong(pendingSumStartCpuTime as int + startCpuTime);
    }

    method RemovePending(startTime: Long, startCpuTime: Long)
      modifies this
      ensures Value() == WithoutPending(old(Value()), startTime, startCpuTime)
    {
      pendingCount := WrapInt(pendingCount as int + -1);
      pendingSumStartTime := WrapLong(pendingSumStartTime as int + WrapLong(-(startTime as int)));
      pendingSumStartCpuTime := WrapLong(pendingSumStartCpuTime as int + WrapLong(-(startCpuTime as int)));
    }

    /** `addPending(stackElt)`: the frame's start time and start cpu time. */
    method AddPendingFrame(stackElt: CallStackElt)
      modifies this
      ensures Value() == WithPending(old(Value()), stackElt.startTime, stackElt.threadCpuStartTime)
    {
      AddPending(stackElt.startTime, stackElt.threadCpuStartTime);
    }

    /** `removePending(stackElt)`: the frame's start time and start cpu time. */
    method RemovePendingFrame(stackElt: CallStackElt)
      modifies this
      ensures Value() == WithoutPending(old(Value()), stackElt.startTime, stackElt.threadCpuStartTime)
    {
      RemovePending(stackElt.startTime, stackElt.threadCpuStartTime);
    }
  }
}
