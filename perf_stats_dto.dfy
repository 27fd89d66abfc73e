/** PerfStatsDTO: the transfer form of PerfTimeStats, with the three histograms in
    cumulated form and a copy of the pending counters. */
module PerfStatsDto {
  import opened JavaInts
  import opened Histogram
  import opened CumulatedHistogram
  import opened PendingCount
  import opened PerfStats

  /** The value of the four parts. */
  datatype StatsDtoValue = StatsDtoValue(
    pending: PendingValue,
    elapsed: CumulatedValue,
    threadUser: CumulatedValue,
    threadCpu: CumulatedValue)


  function EmptyStatsDto(): (d: StatsDtoValue)
  {
    StatsDtoValue(NO_PENDING, EmptyCumulated(), EmptyCumulated(), EmptyCumulated())
  }

  /** `incr(PerfTimeStats src)`: each cumulated histogram is overwritten with the
      prefix sums of src's histogram, while the pending counters are added. */
  function StatsDtoIncremented(d: StatsDtoValue, src: TimeStatsValue, toMillis: Long -> Long): (r: StatsDtoValue)
  {
    StatsDtoValue(PendingAdded(d.pending, src.pending), CumulatedOf(src.elapsed, toMillis),
      CumulatedOf(src.threadUser, toMillis), CumulatedOf(src.threadCpu, toMillis))
  }

  /** Because the histograms are assigned and not added, incrementing twice from the
      same statistics leaves the histogram part as after one increment, while the
      pending counters are added twice. */
  lemma IncrementedTwice(d: StatsDtoValue, src: TimeStatsValue, toMillis: Long -> Long)
    ensures var once := StatsDtoIncremented(d, src, toMillis);
      var twice := StatsDtoIncremented(once, src, toMillis);
      twice.elapsed == once.elapsed && twice.threadUser == once.threadUser && twice.threadCpu == once.threadCpu &&
      twice.pending == PendingAdded(PendingAdded(d.pending, src.pending), src.pending)
  {
  }

  /** A DTO built from statistics carries, in its last elapsed-time slot, the total
      count of the elapsed-time histogram, and the statistics' pending counters. */
  lemma FromTimeStatsTotals(src: TimeStatsValue, toMillis: Long -> Long)
    ensures var d := StatsDtoIncremented(EmptyStatsDto(), src, toMillis);
      d.elapsed.counts[SLOT_LEN - 1] == TotalCount(src.elapsed) &&
      d.threadUser.counts[SLOT_LEN - 1] == TotalCount(src.threadUser) &&
      d.threadCpu.counts[SLOT_LEN - 1] == TotalCount(src.threadCpu) &&
      d.pending == src.pending
  {
    CumulatedTotals(src.elapsed, toMillis);
    CumulatedTotals(src.threadUser, toMillis);
    CumulatedTotals(src.threadCpu, toMillis);
    WrapIntInRange(src.pending.count);
    WrapLongInRange(src.pending.sumStart);
    WrapLongInRange(src.pending.sumStartCpu);
  }

  class PerfStatsDTO {
    /** The pending counters (held by a `PendingPerfCountDTO` in the Java class). */
    const pendingCounts: PendingPerfCount
    const elapsedTimeStats: CumulatedLongStatsHistogramDTO
    const threadUserTimeStats: CumulatedLongStatsHistogramDTO
    const threadCpuTimeStats: CumulatedLongStatsHistogramDTO

    function Repr(): set<object>
    {
      {this, pendingCounts,
       elapsedTimeStats, elapsedTimeStats.cumulatedCountSlots, elapsedTimeStats.cumulatedSumSlots,
       threadUserTimeStats, threadUserTimeStats.cumulatedCountSlots, threadUserTimeStats.cumulatedSumSlots,
       threadCpuTimeStats, threadCpuTimeStats.cumulatedCountSlots, threadCpuTimeStats.cumulatedSumSlots}
    }

    /** The three cumulated histograms are well formed and share no object. */
    ghost predicate Valid()
    {
      elapsedTimeStats.Valid() && threadUserTimeStats.Valid() && threadCpuTimeStats.Valid() &&
      elapsedTimeStats.Repr() !! threadUserTimeStats.Repr() &&
      elapsedTimeStats.Repr() !! threadCpuTimeStats.Repr() &&
      threadUserTimeStats.Repr() !! threadCpuTimeStats.Repr()
    }

    function Value(): (d: StatsDtoValue)
      requires Valid()
      reads Repr()
    {
      StatsDtoValue(pendingCounts.Value(), elapsedTimeStats.Value(), threadUserTimeStats.Value(), threadCpuTimeStats.Value())
    }

    constructor ()
      ensures Valid() && fresh(Repr() - {this})
      ensures Value() == EmptyStatsDto()
    {
      pendingCounts := new PendingPerfCount();
      elapsedTimeStats := new CumulatedLongStatsHistogramDTO();
      threadUserTimeStats := new CumulatedLongStatsHistogramDTO();
      threadCpuTimeStats := new CumulatedLongStatsHistogramDTO();
    }

    /** `new PerfStatsDTO(PerfStatsDTO src)`. */
    constructor Copy(src: PerfStatsDTO)
      requires src.Valid()
      ensures Valid() && fresh(Repr() - {this})
      ensures Value() == old(src.Value())
    {
      pendingCounts := new PendingPerfCount.Copy(src.pendingCounts);
      elapsedTimeStats := new CumulatedLongStatsHistogramDTO.Copy(src.elapsedTimeStats);
      threadUserTimeStats := new CumulatedLongStatsHistogramDTO.Copy(src.threadUserTimeStats);
      threadCpuTimeStats := new CumulatedLongStatsHistogramDTO.Copy(src.threadCpuTimeStats);
    }

    /** `new PerfStatsDTO(PerfTimeStats src)`: an empty DTO incremented from src. */
    constructor FromTimeStats(src: PerfTimeStats, toMillis: Long -> Long)
      requires src.Valid()
      ensures Valid() && fresh(Repr() - {this})
      ensures Value() == StatsDtoIncremented(EmptyStatsDto(), old(src.Value()), toMillis)
    {
      var elapsed := new CumulatedLongStatsHistogramDTO();
      var user := new CumulatedLongStatsHistogramDTO();
      assert elapsed.Repr() !! user.Repr();
      var cpu := new CumulatedLongStatsHistogramDTO();
      assert elapsed.Repr() !! cpu.Repr() && user.Repr() !! cpu.Repr();
      pendingCounts := new PendingPerfCount();
      elapsedTimeStats, threadUserTimeStats, threadCpuTimeStats := elapsed, user, cpu;
      new;
      assert Valid() && fresh(Repr() - {this});
      assert src.Repr() !! Repr();
      Incr(src, toMillis);
    }

    /** `getPendingCount()`. */
    function PendingCount(): (r: Int32)
      requires Valid()
      reads Repr()
      ensures r == Value().pending.count
    {
      pendingCounts.pendingCount
    }

    /** `getPendingSumStartTime()`. */
    function PendingSumStartTime(): (r: Long)
      requires Valid()
      reads Repr()
      ensures r == Value().pending.sumStart
    {
      pendingCounts.pendingSumStartTime
    }

    /** `set(src)`: src may be this object; otherwise the two share no part. */
    method Set(src: PerfStatsDTO)
      requires Valid() && src.Valid() && (src == this || src.Repr() !! Repr())
      modifies Repr()
      ensures Valid() && Value() == old(src.Value())
    {
      elapsedTimeStats.Set(src.elapsedTimeStats);
      threadUserTimeStats.Set(src.threadUserTimeStats);
      threadCpuTimeStats.Set(src.threadCpuTimeStats);
      pendingCounts.Set(src.pendingCounts);
    }

    /** `incr(PerfTimeStats src)`, with the nanosecond-to-millisecond conversion
        passed in. */
    method Incr(src: PerfTimeStats, toMillis: Long -> Long)
      requires Valid() && src.Valid() && src.Repr() !! Repr()
      modifies Repr()
      ensures Valid() && Value() == StatsDtoIncremented(old(Value()), old(src.Value()), toMillis)
    {
      ghost var d, s := Value(), src.Value();
      elapsedTimeStats.IncrFromHistogram(src.elapsedTimeStats, toMillis);
      ghost var elapsed := elapsedTimeStats.Value();
      threadUserTimeStats.IncrFromHistogram(src.threadUserTimeStats, toMillis);
      ghost var user := threadUserTimeStats.Value();
      threadCpuTimeStats.IncrFromHistogram(src.threadCpuTimeStats, toMillis);
      ghost var cpu := threadCpuTimeStats.Value();
      pendingCounts.Incr(src.pendingCounts);
      assert elapsed == CumulatedOf(s.elapsed, toMillis) && user == CumulatedOf(s.threadUser, toMillis);
      assert cpu == CumulatedOf(s.threadCpu, toMillis);
      assert Value() == StatsDtoValue(PendingAdded(d.pending, s.pending), elapsed, user, cpu);
    }

    /** `copy()`. */
    method Copied() returns (r: PerfStatsDTO)
      requires Valid()
      ensures r.Valid() && fresh(r.Repr())
      ensures r.Value() == Value()
    {
      r := new PerfStatsDTO.Copy(this);
    }
  }
}
