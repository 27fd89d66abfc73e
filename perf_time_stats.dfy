/** PerfTimeStats: the statistics of one call-tree node, made of the pending counters
    and three latency histograms (elapsed time, thread user time, thread cpu time). */
module PerfStats {
  import opened JavaInts
  import opened Options
  import opened Histogram
  import opened PendingCount
  import opened CallStacks

  /** The value of the four parts. */
  datatype TimeStatsValue = TimeStatsValue(
    pending: PendingValue,
    elapsed: HistogramValue,
    threadUser: HistogramValue,
    threadCpu: HistogramValue)


  function EmptyTimeStats(): (v: TimeStatsValue)
  {
    TimeStatsValue(NO_PENDING, EmptyHistogram(), EmptyHistogram(), EmptyHistogram())
  }

  /** `incr(elapsed, user, cpu)`: each duration goes into its histogram; the three
      recordings share one clock reading and one trace. */
  function TimeStatsRecorded(v: TimeStatsValue, elapsed: Long, user: Long, cpu: Long, now: Long, trace: string): (r: TimeStatsValue)
  {
    TimeStatsValue(v.pending, Recorded(v.elapsed, elapsed, now, trace),
      Recorded(v.threadUser, user, now, trace), Recorded(v.threadCpu, cpu, now, trace))
  }

  /** `incrAndRemovePending(start times, end times)`: records the three `long`
      differences and removes the call from the pending counters. */
  function TimeStatsCompleted(v: TimeStatsValue, start: Long, userStart: Long, cpuStart: Long,
    end: Long, userEnd: Long, cpuEnd: Long, now: Long, trace: string): (r: TimeStatsValue)
  {
    var recorded := TimeStatsRecorded(v, WrapLong(end as int - start), WrapLong(userEnd as int - userStart),
      WrapLong(cpuEnd as int - cpuStart), now, trace);
    recorded.(pending := WithoutPending(v.pending, start, cpuStart))
  }

  /** `incr(src)`: part-wise merge. */
  function TimeStatsAdded(v: TimeStatsValue, src: TimeStatsValue): (r: TimeStatsValue)
  {
    TimeStatsValue(PendingAdded(v.pending, src.pending), Added(v.elapsed, src.elapsed),
      Added(v.threadUser, src.threadUser), Added(v.threadCpu, src.threadCpu))
  }

  /** A call added as pending and then completed leaves the pending counters as they
      were, and puts its three durations into the histograms. */
  lemma CompletedCallBalancesPending(v: TimeStatsValue, start: Long, userStart: Long, cpuStart: Long,
    end: Long, userEnd: Long, cpuEnd: Long, now: Long, trace: string)
    ensures var r := TimeStatsCompleted(v.(pending := WithPending(v.pending, start, cpuStart)),
        start, userStart, cpuStart, end, userEnd, cpuEnd, now, trace);
      r.pending == v.pending &&
      r.elapsed == Recorded(v.elapsed, WrapLong(end as int - start), now, trace) &&
      r.threadUser == Recorded(v.threadUser, WrapLong(userEnd as int - userStart), now, trace) &&
      r.threadCpu == Recorded(v.threadCpu, WrapLong(cpuEnd as int - cpuStart), now, trace)
  {
    RemoveUndoesAdd(v.pending, start, cpuStart);
  }

  /** A completed call raises each histogram's total count by one and its total sum
      by the call's duration. */
  lemma CompletedCallCounted(v: TimeStatsValue, start: Long, userStart: Long, cpuStart: Long,
    end: Long, userEnd: Long, cpuEnd: Long, now: Long, trace: string)
    ensures var r := TimeStatsCompleted(v, start, userStart, cpuStart, end, userEnd, cpuEnd, now, trace);
      TotalCount(r.elapsed) == WrapInt(TotalCount(v.elapsed) as int + 1) &&
      TotalCount(r.threadUser) == WrapInt(TotalCount(v.threadUser) as int + 1) &&
      TotalCount(r.threadCpu) == WrapInt(TotalCount(v.threadCpu) as int + 1) &&
      TotalSum(r.elapsed) == WrapLong(TotalSum(v.elapsed) as int + end - start)
  {
    var e := WrapLong(end as int - start);
    TotalCountRecorded(v.elapsed, e, now, trace);
    TotalCountRecorded(v.threadUser, WrapLong(userEnd as int - userStart), now, trace);
    TotalCountRecorded(v.threadCpu, WrapLong(cpuEnd as int - cpuStart), now, trace);
    WrapLongAdd(TotalSum(v.elapsed), end as int - start);
  }

  /** Merging empty statistics changes nothing. */
  lemma AddedEmptyIsIdentity(v: TimeStatsValue)
    ensures TimeStatsAdded(v, EmptyTimeStats()) == v
  {
    AddedEmptyHistogram(v.elapsed);
    AddedEmptyHistogram(v.threadUser);
    AddedEmptyHistogram(v.threadCpu);
  }

  /** Merging an empty histogram changes nothing. */
  lemma AddedEmptyHistogram(h: HistogramValue)
    ensures Added(h, EmptyHistogram()) == h
  {
    var r := Added(h, EmptyHistogram());
    AddedSlots(h, EmptyHistogram());
    assert r.counts == h.counts;
    assert r.sums == h.sums;
  }

  class PerfTimeStats {
    const pendingCounts: PendingPerfCount
    const elapsedTimeStats: LongStatsHistogram
    const threadUserTimeStats: LongStatsHistogram
    const threadCpuTimeStats: LongStatsHistogram

    function Repr(): set<object>
    {
      {this, pendingCounts,
       elapsedTimeStats, elapsedTimeStats.countSlots, elapsedTimeStats.sumSlots,
       threadUserTimeStats, threadUserTimeStats.countSlots, threadUserTimeStats.sumSlots,
       threadCpuTimeStats, threadCpuTimeStats.countSlots, threadCpuTimeStats.sumSlots}
    }

    /** The three histograms are well formed and share no object. */
    ghost predicate Valid()
    {
      elapsedTimeStats.Valid() && threadUserTimeStats.Valid() && threadCpuTimeStats.Valid() &&
      elapsedTimeStats.Repr() !! threadUserTimeStats.Repr() &&
      elapsedTimeStats.Repr() !! threadCpuTimeStats.Repr() &&
      threadUserTimeStats.Repr() !! threadCpuTimeStats.Repr()
    }

    function Value(): (v: TimeStatsValue)
      requires Valid()
      reads Repr()
    {
      TimeStatsValue(pendingCounts.Value(), elapsedTimeStats.Value(), threadUserTimeStats.Value(), threadCpuTimeStats.Value())
    }

    constructor ()
      ensures Valid() && fresh(Repr() - {this})
      ensures Value() == EmptyTimeStats()
    {
      pendingCounts := new PendingPerfCount();
      elapsedTimeStats := new LongStatsHistogram();
      threadUserTimeStats := new LongStatsHistogram();
      threadCpuTimeStats := new LongStatsHistogram();
    }

    /** `new PerfTimeStats(src)`. */
    constructor Copy(src: PerfTimeStats)
      requires src.Valid()
      ensures Valid() && fresh(Repr() - {this})
      ensures Value() == old(src.Value())
    {
      pendingCounts := new PendingPerfCount.Copy(src.pendingCounts);
      elapsedTimeStats := new LongStatsHistogram.Copy(src.elapsedTimeStats);
      threadUserTimeStats := new LongStatsHistogram.Copy(src.threadUserTimeStats);
      threadCpuTimeStats := new LongStatsHistogram.Copy(src.threadCpuTimeStats);
    }

    /** `getPendingCount()`. */
    function PendingCount(): (r: Int32)
      requires Valid()
      reads Repr()
      ensures r == Value().pending.count
    {
      pendingCounts.pendingCount
    }

    /** `getPendingSumStartTime()`. */
    function PendingSumStartTime(): (r: Long)
      requires Valid()
      reads Repr()
      ensures r == Value().pending.sumStart
    {
      pendingCounts.pendingSumStartTime
    }

    /** `copy()`. */
    method Copied() returns (r: PerfTimeStats)
      requires Valid()
      ensures r.Valid() && fresh(r.Repr())
      ensures r.Value() == Value()
    {
      r := new PerfTimeStats.Copy(this);
    }

    method Clear()
      requires Valid()
      modifies Repr()
      ensures Valid() && Value() == EmptyTimeStats()
    {
      elapsedTimeStats.Clear();
      threadUserTimeStats.Clear();
      threadCpuTimeStats.Clear();
      pendingCounts.Clear();
    }

    /** `set(src)`: src may be this object; otherwise the two share no part. */
    method Set(src: PerfTimeStats)
      requires Valid() && src.Valid() && (src == this || src.Repr() !! Repr())
      modifies Repr()
      ensures Valid() && Value() == old(src.Value())
    {
      elapsedTimeStats.Set(src.elapsedTimeStats);
      threadUserTimeStats.Set(src.threadUserTimeStats);
      threadCpuTimeStats.Set(src.threadCpuTimeStats);
      pendingCounts.Set(src.pendingCounts);
    }

    /** `copyTo(dest)`. */
    method CopyTo(dest: PerfTimeStats)
      requires Valid() && dest.Valid() && (dest == this || dest.Repr() !! Repr())
      modifies dest.Repr()
      ensures dest.Valid() && dest.Value() == old(Value())
      ensures Valid() && Value() == old(Value())
    {
      dest.Set(this);
    }

    /** `clearAndCopyTo(dest)`: dest is overwritten with this value, then this is
        cleared; with dest == this the result is empty. */
    method ClearAndCopyTo(dest: PerfTimeStats)
      requires Valid() && dest.Valid() && (dest == this || dest.Repr() !! Repr())
      modifies Repr(), dest.Repr()
      ensures Valid() && Value() == EmptyTimeStats()
      ensures dest.Valid() && (dest != this ==> dest.Value() == old(Value()))
    {
      dest.Set(this);
      Clear();
    }

    method AddPending(currTime: Long, currThreadCpuTime: Long)
      requires Valid()
      modifies pendingCounts
      ensures Valid() && Value() == old(Value()).(pending := WithPending(old(Value()).pending, currTime, currThreadCpuTime))
    {
      pendingCounts.AddPending(currTime, currThreadCpuTime);
    }

    method RemovePending(startedTime: Long, startedThreadCpuTime: Long)
      requires Valid()
      modifies pendingCounts
      ensures Valid() && Value() == old(Value()).(pending := WithoutPending(old(Value()).pending, startedTime, startedThreadCpuTime))
    {
      pendingCounts.RemovePending(startedTime, startedThreadCpuTime);
    }

    /** `incr(elapsed, user, cpu)`, with the clock reading and trace passed in. */
    method Incr(elapsedTime: Long, elapsedThreadUserTime: Long, elapsedThreadCpuTime: Long, now: Long, trace: string)
      requires Valid()
      modifies elapsedTimeStats.Repr(), threadUserTimeStats.Repr(), threadCpuTimeStats.Repr()
      ensures Valid() && Value() == TimeStatsRecorded(old(Value()), elapsedTime, elapsedThreadUserTime, elapsedThreadCpuTime, now, trace)
    {
      elapsedTimeStats.Incr(elapsedTime, now, trace);
      threadUserTimeStats.Incr(elapsedThreadUserTime, now, trace);
      threadCpuTimeStats.Incr(elapsedThreadCpuTime, now, trace);
    }

    method IncrAndRemovePending(startTime: Long, threadUserStartTime: Long, threadCpuStartTime: Long,
      endTime: Long, threadUserEndTime: Long, threadCpuEndTime: Long, now: Long, trace: string)
      requires Valid()
      modifies Repr()
      ensures Valid() && Value() == TimeStatsCompleted(old(Value()), startTime, threadUserStartTime, threadCpuStartTime,
        endTime, threadUserEndTime, threadCpuEndTime, now, trace)
    {
      Incr(WrapLong(endTime as int - startTime), WrapLong(threadUserEndTime as int - threadUserStartTime),
        WrapLong(threadCpuEndTime as int - threadCpuStartTime), now, trace);
      pendingCounts.RemovePending(startTime, threadCpuStartTime);
    }

    /** `incr(src)`: src may be this object; otherwise the two share no part. */
    method IncrFrom(src: PerfTimeStats)
      requires Valid() && src.Valid() && (src == this || src.Repr() !! Repr())
      modifies Repr()
      ensures Valid() && Value() == TimeStatsAdded(old(Value()), old(src.Value()))
    {
      ghost var v, s := Value(), src.Value();
      pendingCounts.Incr(src.pendingCounts);
      ghost var pending := pendingCounts.Value();
      elapsedTimeStats.IncrFrom(src.elapsedTimeStats);
      ghost var elapsed := elapsedTimeStats.Value();
      threadUserTimeStats.IncrFrom(src.threadUserTimeStats);
      ghost var user := threadUserTimeStats.Value();
      threadCpuTimeStats.IncrFrom(src.threadCpuTimeStats);
      assert pending == PendingAdded(v.pending, s.pending) && elapsed == Added(v.elapsed, s.elapsed);
      assert user == Added(v.threadUser, s.threadUser);
      assert Value() == TimeStatsValue(pending, elapsed, user, threadCpuTimeStats.Value());
    }

    /** `addPending(stackElt)`. */
    method AddPendingFrame(stackElt: CallStackElt)
      requires Valid()
      modifies pendingCounts
      ensures Valid() && Value() == old(Value()).(pending := WithPending(old(Value()).pending, stackElt.startTime, stackElt.threadCpuStartTime))
    {
      pendingCounts.AddPendingFrame(stackElt);
    }

    /** `incrAndRemovePending(stackElt)`: the frame's durations, as `long` differences
        of its end and start times. */
    method IncrAndRemovePendingFrame(stackElt: CallStackElt, now: Long, trace: string)
      requires Valid()
      modifies Repr()
      ensures Valid() && Value() == TimeStatsCompleted(old(Value()), stackElt.startTime, stackElt.threadUserStartTime,
        stackElt.threadCpuStartTime, stackElt.endTime, stackElt.threadUserEndTime, stackElt.threadCpuEndTime, now, trace)
      ensures Value().elapsed == Recorded(old(Value()).elapsed, stackElt.ElapsedTime(), now, trace)
    {
      IncrAndRemovePending(stackElt.startTime, stackElt.threadUserStartTime, stackElt.threadCpuStartTime,
        stackElt.endTime, stackElt.threadUserEndTime, stackElt.threadCpuEndTime, now, trace);
    }
  }
}
