# perflogstacktrace4j core, modelled in Dafny

perflogstacktrace4j records, per thread, a stack of the application calls in
progress, and keeps latency statistics for them. This project models the core of
that library and proves properties of the model:

- **Latency statistics.** A `LongStatsHistogram` has ten logarithmic slots
  (`<= 0`, then breaks at 1, 32, 64, …, 4096, then `>= 4096`). Each slot holds
  a count and a sum, and the histogram also keeps a min, a max and the time and
  trace of the last new minimum. A `CumulatedLongStatsHistogramDTO` holds the
  prefix sums of those slots. `PendingPerfCount` counts the calls in flight and
  sums their start times. `PerfTimeStats` bundles three histograms (elapsed,
  thread user and thread cpu time) with one pending counter. `PerfStatsDTO` is
  its cumulated snapshot.
- **Call trees.** An `AppCallTreeNode` (live) and an `AppCallTreeNodeDTO`
  (snapshot) each hold an insertion-ordered map of named children and their own
  statistics. Finding or creating a child is idempotent. The path of a node is
  the names from the root down. The recursive operations `addRecursive`,
  `copyTo` and `clearAndCopyTo` merge one tree into another.
- **The call stack.** A `CallStack` is an array of pre-allocated
  `CallStackElt` frames, and each frame links to its parent. The array is grown
  by `DEFAULT_ALLOC_INCR_STACK_LEN` frames when the last frame is pushed. A
  `StackPusher` fills a frame's name and parameters and then pushes it. The
  frame's `StackPopper` records a return value or an exception and pops it.
  Pushing stamps the start times, and popping stamps the end times and resets
  the progress fields.
- **Listeners.** `CallStackListenerSupport` keeps its listeners in a
  copy-on-write array.

The Java `int` and `long` arithmetic is modelled exactly (module `JavaInts`):

- every counter and sum wraps modulo 2^32 or 2^64;
- `long` division truncates toward zero.

The classes whose arrays or fields Java updates in place are Dafny classes over
`array`s. Their methods state the new abstract value (`Value()`) as a function
of the old one, and lemmas about those functions state what the library
promises. For example:

- a slot range matches the slot index;
- the cumulated arrays are prefix sums that end in the totals;
- removing a pending call undoes adding it, whatever wrapped in between;
- a completed call leaves the pending counters as they were before it started;
- the found child is unique;
- `addRecursive` of a tree into itself keeps its shape and, at every node,
  doubles the slot counts, the slot sums and the pending counters, while the
  min, the max and the time and trace of the last new minimum stay as they were.

The model follows the Java code where its behaviour is surprising:

- `incr(long)` stamps `timeReachingMaxValue` and `stackReachingMaxValue` when
  a new **minimum** is reached;
- `incr(LongStatsHistogram)` merges neither the min nor the max;
- `compareHasChangeCount` on cumulated arrays compares only the last count
  (`ChangedCountIsHeuristic` exhibits two different values it calls unchanged).

Files: `options.dfy`, `java_ints.dfy` (helpers), `histogram.dfy`,
`cumulated_histogram.dfy`, `pending_count.dfy`, `perf_time_stats.dfy`,
`perf_stats_dto.dfy`, `tree_values.dfy`, `call_tree.dfy`,
`call_tree_dto.dfy`, `call_stack.dfy`, `listener_support.dfy`.

## Model

| member | source | states |
|---|---|---|
| Histogram.ValueToSlotIndex | perflogstacktrace4j/src/main/java/org/perflogstacktrace4j/model/stats/LongStatsHistogram.java:317-323 | The slot is below SLOT_LEN. It is 0 exactly for values <= 0, and the last slot exactly for values >= 4096. Values 1..31 go to slot 1. |
| Histogram.ValueToSlotIndexBracket | perflogstacktrace4j/src/main/java/org/perflogstacktrace4j/model/stats/LongStatsHistogram.java:267-291 | For 1 <= v < 4096, the slot k is in 1..8 and breaks[k-1] <= v < breaks[k]. |
| Histogram.ValueToSlotIndexIsScan | perflogstacktrace4j/src/main/java/org/perflogstacktrace4j/model/stats/LongStatsHistogram.java:301-310 | The table lookup agrees with the linear scan over the breaks that the initializer's check loop performs. |
| Histogram.SlotByBreaksBracket | perflogstacktrace4j/src/main/java/org/perflogstacktrace4j/model/stats/LongStatsHistogram.java:301-310 | The scan over the breaks brackets every value in 1..4095. |
| Histogram.SlotByBreaksUnique | perflogstacktrace4j/src/main/java/org/perflogstacktrace4j/model/stats/LongStatsHistogram.java:301-310 | A value inside breaks[k-1]..breaks[k]-1 scans to slot k, and to no other. |
| Histogram.SlotByBreaksBlock | perflogstacktrace4j/src/main/java/org/perflogstacktrace4j/model/stats/LongStatsHistogram.java:284-285 | All values with the same v >>> 5 scan to the same slot, so a table indexed by v >>> 5 is sound. |
| Histogram.SlotByBreaksStep | perflogstacktrace4j/src/main/java/org/perflogstacktrace4j/model/stats/LongStatsHistogram.java:277-286 | One step of the initializer loop: the running index advances exactly at a break. |
| Histogram.BuildSlotTables | perflogstacktrace4j/src/main/java/org/perflogstacktrace4j/model/stats/LongStatsHistogram.java:266-291 | The initializer loop yields exactly SLOT_INFOS (the slot ranges) and VALUE_DIV32_TO_SLOT_INDEX (the slot of each 32-value block). |
| Histogram.InitializerBoundaryChecks | perflogstacktrace4j/src/main/java/org/perflogstacktrace4j/model/stats/LongStatsHistogram.java:293-299 | All six boundary checks of the initializer hold, so it never throws. |
| Histogram.SlotRangesContiguous | perflogstacktrace4j/src/main/java/org/perflogstacktrace4j/model/stats/LongStatsHistogram.java:271-291 | Slot 0 is [-LONG_MAX, 0] and the last slot is [4096, LONG_MAX]. Each slot starts where the previous one ends. The middle slots are [breaks[k-1], breaks[k]-1]. |
| Histogram.SlotRangeMatchesIndex | perflogstacktrace4j/src/main/java/org/perflogstacktrace4j/model/stats/LongStatsHistogram.java:271-291 | A value (other than LONG_MIN) lies in slot k's range iff valueToSlotIndex maps it to k. |
| Histogram.MiddleSlotInfo | perflogstacktrace4j/src/main/java/org/perflogstacktrace4j/model/stats/LongStatsHistogram.java:277-282 | The slot info of slot k in 1..8 is exactly (breaks[k-1], breaks[k]-1, 0, 0). |
| Histogram.RecordedTouchesOnlyItsSlot | perflogstacktrace4j/src/main/java/org/perflogstacktrace4j/model/stats/LongStatsHistogram.java:142-145 | incr(v) changes the count and sum of v's slot only. |
| Histogram.RecordedExtrema | perflogstacktrace4j/src/main/java/org/perflogstacktrace4j/model/stats/LongStatsHistogram.java:147-156 | incr(v) makes min the smaller of v and the old min, and max likewise. The time and trace are stamped exactly when the minimum drops. |
| Histogram.TotalCountRecorded | perflogstacktrace4j/src/main/java/org/perflogstacktrace4j/model/stats/LongStatsHistogram.java:142-145 | incr(v) adds one to the total count and v to the total sum, both wrapping. |
| Histogram.Added | perflogstacktrace4j/src/main/java/org/perflogstacktrace4j/model/stats/LongStatsHistogram.java:159-164 | incr(src) keeps min, max, time and trace. |
| Histogram.TotalCountAdded | perflogstacktrace4j/src/main/java/org/perflogstacktrace4j/model/stats/LongStatsHistogram.java:159-164 | incr(src) adds src's total count to the total count, wrapping. |
| Histogram.TotalSumAdded | perflogstacktrace4j/src/main/java/org/perflogstacktrace4j/model/stats/LongStatsHistogram.java:159-164 | incr(src) adds src's total sum to the total sum, wrapping. |
| Histogram.AddedToItselfDoubles | perflogstacktrace4j/src/main/java/org/perflogstacktrace4j/model/stats/LongStatsHistogram.java:159-164 | incr(this) doubles every slot (slots are read before written). |
| Histogram.RecordedAllSlot | perflogstacktrace4j/src/main/java/org/perflogstacktrace4j/model/stats/LongStatsHistogram.java:142-145 | After recording a sequence of values into an empty histogram, slot k holds the number and the sum of the values in its range. |
| Histogram.RecordedAllMinMax | perflogstacktrace4j/src/main/java/org/perflogstacktrace4j/model/stats/LongStatsHistogram.java:147-156 | After recording a non-empty sequence into an empty histogram, min and max are the sequence's min and max. |
| Histogram.RecordedSameValue | perflogstacktrace4j/src/main/java/org/perflogstacktrace4j/model/stats/LongStatsHistogram.java:142-145 | Recording v n times puts count n and sum n*v in v's slot and leaves every other slot 0. |
| Histogram.LongStatsHistogram.constructor | perflogstacktrace4j/src/main/java/org/perflogstacktrace4j/model/stats/LongStatsHistogram.java:59-94 | A new histogram has zero slots, min LONG_MAX and max LONG_MIN. |
| Histogram.LongStatsHistogram.Copy | perflogstacktrace4j/src/main/java/org/perflogstacktrace4j/model/stats/LongStatsHistogram.java:96-98 | The copy constructor has src's value, in fresh arrays. |
| Histogram.LongStatsHistogram.Clear | perflogstacktrace4j/src/main/java/org/perflogstacktrace4j/model/stats/LongStatsHistogram.java:130-139 | clear resets the histogram to the empty value. |
| Histogram.LongStatsHistogram.Incr | perflogstacktrace4j/src/main/java/org/perflogstacktrace4j/model/stats/LongStatsHistogram.java:142-157 | incr(v) updates the arrays to Recorded(old value, v). |
| Histogram.Recorded | perflogstacktrace4j/src/main/java/org/perflogstacktrace4j/model/stats/LongStatsHistogram.java:142-157 | The value `incr(v)` leaves: one more count and v added in v's slot, min and max moved to v when v passes them, and time and trace stamped on a new minimum. RecordedTouchesOnlyItsSlot, RecordedExtrema and TotalCountRecorded state its properties, and LongStatsHistogram.Incr is proved against it. |
| Histogram.LongStatsHistogram.CountAt | perflogstacktrace4j/src/main/java/org/perflogstacktrace4j/model/stats/LongStatsHistogram.java:102-105 | getCount(i) is the count of slot i of the histogram's value. |
| Histogram.LongStatsHistogram.SumAt | perflogstacktrace4j/src/main/java/org/perflogstacktrace4j/model/stats/LongStatsHistogram.java:107-110 | getSum(i) is the sum of slot i of the histogram's value. |
| Histogram.LongStatsHistogram.IncrFrom | perflogstacktrace4j/src/main/java/org/perflogstacktrace4j/model/stats/LongStatsHistogram.java:159-164 | incr(src) updates the arrays to Added(old value, src), src == this included. |
| Histogram.LongStatsHistogram.Set | perflogstacktrace4j/src/main/java/org/perflogstacktrace4j/model/stats/LongStatsHistogram.java:166-175 | set(src) makes the value src's. |
| Histogram.LongStatsHistogram.Copied | perflogstacktrace4j/src/main/java/org/perflogstacktrace4j/model/stats/LongStatsHistogram.java:226-228 | copy() returns a fresh histogram with the same value. |
| Histogram.LongStatsHistogram.GetSum | perflogstacktrace4j/src/main/java/org/perflogstacktrace4j/model/stats/LongStatsHistogram.java:180-186 | The loop returns the wrapped sum of all slot sums. |
| Histogram.LongStatsHistogram.GetCount | perflogstacktrace4j/src/main/java/org/perflogstacktrace4j/model/stats/LongStatsHistogram.java:189-195 | The loop returns the wrapped sum of all slot counts. |
| Histogram.LongStatsHistogram.GetSlotInfoCopy | perflogstacktrace4j/src/main/java/org/perflogstacktrace4j/model/stats/LongStatsHistogram.java:205-212 | A fresh array of SLOT_LEN slot infos, each with its slot range and its current count and sum. |
| Histogram.LongStatsHistogram.GetSlotInfoCopyAt | perflogstacktrace4j/src/main/java/org/perflogstacktrace4j/model/stats/LongStatsHistogram.java:215-219 | An index outside 0..SLOT_LEN-1 is an error. Otherwise the result is the slot's range with its count and sum. |
| Histogram.LongStatsHistogram.CompareHasChangeCount | perflogstacktrace4j/src/main/java/org/perflogstacktrace4j/model/stats/LongStatsHistogram.java:230-237 | The result is true iff some slot count differs. |
| CumulatedHistogram.CumulatedRecurrence | perflogstacktrace4j/src/main/java/org/perflogstacktrace4j/dto/stats/CumulatedLongStatsHistogramDTO.java:97-106 | Cumulated slot 0 is slot 0 (sum in millis). Slot i adds slot i to cumulated slot i-1, wrapping. |
| CumulatedHistogram.CumulatedTotals | perflogstacktrace4j/src/main/java/org/perflogstacktrace4j/dto/stats/CumulatedLongStatsHistogramDTO.java:33-53 | The last cumulated count is the histogram's total count. The last cumulated sum is the wrapped sum of the slot sums in millis. |
| CumulatedHistogram.CumulatedTotalSumIdentity | perflogstacktrace4j/src/main/java/org/perflogstacktrace4j/dto/stats/CumulatedLongStatsHistogramDTO.java:72-74 | With the identity conversion, the last cumulated sum is the histogram's total sum. |
| CumulatedHistogram.CumulatedOf | perflogstacktrace4j/src/main/java/org/perflogstacktrace4j/dto/stats/CumulatedLongStatsHistogramDTO.java:97-106 | The value incr(LongStatsHistogram) writes: entry i is the wrapped running total of the counts, and of the converted sums, of slots 0..i. CumulatedRecurrence and CumulatedTotals state its properties. |
| CumulatedHistogram.CumulatedAdded | perflogstacktrace4j/src/main/java/org/perflogstacktrace4j/dto/stats/CumulatedLongStatsHistogramDTO.java:108-113 | The value incr(CumulatedLongStatsHistogramDTO) leaves: the entry-wise wrapped sums. CumulatedOfAdded shows it is the cumulated view of the added histograms. |
| CumulatedHistogram.ChangedCount | perflogstacktrace4j/src/main/java/org/perflogstacktrace4j/dto/stats/CumulatedLongStatsHistogramDTO.java:129-132 | The comparison compareHasChangeCount makes: the last cumulated counts differ. ChangedCountIsHeuristic shows two different values it calls unchanged. |
| CumulatedHistogram.CumulatedLongStatsHistogramDTO.TotalSum | perflogstacktrace4j/src/main/java/org/perflogstacktrace4j/dto/stats/CumulatedLongStatsHistogramDTO.java:72-74 | totalSum() is the last cumulated sum of the DTO's value. |
| CumulatedHistogram.CumulatedLongStatsHistogramDTO.TotalCount | perflogstacktrace4j/src/main/java/org/perflogstacktrace4j/dto/stats/CumulatedLongStatsHistogramDTO.java:77-79 | totalCount() is the last cumulated count of the DTO's value. |
| CumulatedHistogram.CumulatedLongStatsHistogramDTO.TotalsOfHistogram | perflogstacktrace4j/src/main/java/org/perflogstacktrace4j/dto/stats/CumulatedLongStatsHistogramDTO.java:70-79 | For a DTO filled from a histogram, totalCount() is the histogram's getCount() and totalSum() is the converted sum of all its slots, as the comments promise. |
| CumulatedHistogram.CumulatedOfAdded | perflogstacktrace4j/src/main/java/org/perflogstacktrace4j/dto/stats/CumulatedLongStatsHistogramDTO.java:108-113 | Adding two cumulated DTOs gives the cumulated counts of the added histograms. |
| CumulatedHistogram.ChangedCountIsHeuristic | perflogstacktrace4j/src/main/java/org/perflogstacktrace4j/dto/stats/CumulatedLongStatsHistogramDTO.java:129-132 | compareHasChangeCount compares only the last cumulated count, so two different values can compare as unchanged. |
| CumulatedHistogram.CumulatedLongStatsHistogramDTO.constructor | perflogstacktrace4j/src/main/java/org/perflogstacktrace4j/dto/stats/CumulatedLongStatsHistogramDTO.java:58-59 | A new DTO has zero arrays. |
| CumulatedHistogram.CumulatedLongStatsHistogramDTO.Copy | perflogstacktrace4j/src/main/java/org/perflogstacktrace4j/dto/stats/CumulatedLongStatsHistogramDTO.java:61-63 | The copy constructor has src's value. |
| CumulatedHistogram.CumulatedLongStatsHistogramDTO.FromHistogram | perflogstacktrace4j/src/main/java/org/perflogstacktrace4j/dto/stats/CumulatedLongStatsHistogramDTO.java:65-67 | The histogram constructor holds the cumulated value of src. |
| CumulatedHistogram.CumulatedLongStatsHistogramDTO.CumulatedCountAt | perflogstacktrace4j/src/main/java/org/perflogstacktrace4j/dto/stats/CumulatedLongStatsHistogramDTO.java:85-87 | An index out of range is an error. Otherwise the result is the cumulated count at the index. |
| CumulatedHistogram.CumulatedLongStatsHistogramDTO.CumulatedSumAt | perflogstacktrace4j/src/main/java/org/perflogstacktrace4j/dto/stats/CumulatedLongStatsHistogramDTO.java:81-83 | An index out of range is an error. Otherwise the result is the cumulated sum at the index. |
| CumulatedHistogram.CumulatedLongStatsHistogramDTO.IncrFromHistogram | perflogstacktrace4j/src/main/java/org/perflogstacktrace4j/dto/stats/CumulatedLongStatsHistogramDTO.java:97-106 | The first loop leaves the prefix sums of src, overwriting what was there. |
| CumulatedHistogram.CumulatedLongStatsHistogramDTO.IncrDto | perflogstacktrace4j/src/main/java/org/perflogstacktrace4j/dto/stats/CumulatedLongStatsHistogramDTO.java:108-113 | The arrays become the slot-wise wrapped sum with src, src == this included. |
| CumulatedHistogram.CumulatedLongStatsHistogramDTO.Set | perflogstacktrace4j/src/main/java/org/perflogstacktrace4j/dto/stats/CumulatedLongStatsHistogramDTO.java:124-127 | set(src) makes the value src's. |
| CumulatedHistogram.CumulatedLongStatsHistogramDTO.Copied | perflogstacktrace4j/src/main/java/org/perflogstacktrace4j/dto/stats/CumulatedLongStatsHistogramDTO.java:120-122 | copy() returns a fresh DTO with the same value. |
| CumulatedHistogram.CumulatedLongStatsHistogramDTO.CompareHasChangeCount | perflogstacktrace4j/src/main/java/org/perflogstacktrace4j/dto/stats/CumulatedLongStatsHistogramDTO.java:129-132 | True iff the last cumulated counts differ. |
| PendingCount.PendingAverage | perflogstacktrace4j/src/main/java/org/perflogstacktrace4j/model/stats/PendingPerfCount.java:67-75 | The average is 0 when nothing is pending. |
| PendingCount.WithPending | perflogstacktrace4j/src/main/java/org/perflogstacktrace4j/model/stats/PendingPerfCount.java:114-118 | The value addPending(s, c) leaves: one more call, s and c added to the sums, all wrapping. RemoveUndoesAdd and AddedAllCounters state its properties. |
| PendingCount.WithoutPending | perflogstacktrace4j/src/main/java/org/perflogstacktrace4j/model/stats/PendingPerfCount.java:120-124 | The value removePending(s, c) leaves: one call less, -s and -c added (the negation wraps too). RemoveUndoesAdd shows it undoes WithPending. |
| PendingCount.PendingAdded | perflogstacktrace4j/src/main/java/org/perflogstacktrace4j/model/stats/PendingPerfCount.java:103-111 | The value incr(src) leaves: the three counters added field by field, wrapping. |
| PendingCount.RemoveUndoesAdd | perflogstacktrace4j/src/main/java/org/perflogstacktrace4j/model/stats/PendingPerfCount.java:114-124 | removePending(s, c) undoes addPending(s, c), and the converse, under any wrap-around. |
| PendingCount.AverageOfOne | perflogstacktrace4j/src/main/java/org/perflogstacktrace4j/model/stats/PendingPerfCount.java:67-75 | With one call pending since t0, the average at t is t - t0. |
| PendingCount.AddedAllCounters | perflogstacktrace4j/src/main/java/org/perflogstacktrace4j/model/stats/PendingPerfCount.java:114-118 | After n addPending calls from empty, the count is n and the start sum is the sum of the starts, both wrapped. |
| PendingCount.AverageIsMeanElapsed | perflogstacktrace4j/src/main/java/org/perflogstacktrace4j/model/stats/PendingPerfCount.java:67-75 | When nothing overflows, the average is the mean of t - start over the pending calls, truncated. |
| PendingCount.PendingPerfCount.constructor | perflogstacktrace4j/src/main/java/org/perflogstacktrace4j/model/stats/PendingPerfCount.java:46-47 | All three counters start at 0. |
| PendingCount.PendingPerfCount.Copy | perflogstacktrace4j/src/main/java/org/perflogstacktrace4j/model/stats/PendingPerfCount.java:49-51 | The copy constructor has src's counters. |
| PendingCount.PendingPerfCount.AverageTimeNanosUntilTime | perflogstacktrace4j/src/main/java/org/perflogstacktrace4j/model/stats/PendingPerfCount.java:67-75 | The getter computes PendingAverage of the counters. |
| PendingCount.PendingPerfCount.Set | perflogstacktrace4j/src/main/java/org/perflogstacktrace4j/model/stats/PendingPerfCount.java:91-95 | The counters become src's. |
| PendingCount.PendingPerfCount.Clear | perflogstacktrace4j/src/main/java/org/perflogstacktrace4j/model/stats/PendingPerfCount.java:97-101 | The counters become 0. |
| PendingCount.PendingPerfCount.Incr | perflogstacktrace4j/src/main/java/org/perflogstacktrace4j/model/stats/PendingPerfCount.java:103-110 | The counters become the wrapped field-wise sum with src, src == this included. |
| PendingCount.PendingPerfCount.AddPending | perflogstacktrace4j/src/main/java/org/perflogstacktrace4j/model/stats/PendingPerfCount.java:114-118 | The count grows by one and the start times are added, wrapping. |
| PendingCount.PendingPerfCount.RemovePending | perflogstacktrace4j/src/main/java/org/perflogstacktrace4j/model/stats/PendingPerfCount.java:120-124 | The count drops by one and the start times are subtracted, wrapping. |
| PendingCount.PendingPerfCount.AddPendingFrame | perflogstacktrace4j/src/main/java/org/perflogstacktrace4j/model/stats/PendingPerfCount.java:129-131 | addPending of a frame uses its start time and start cpu time. |
| PendingCount.PendingPerfCount.RemovePendingFrame | perflogstacktrace4j/src/main/java/org/perflogstacktrace4j/model/stats/PendingPerfCount.java:133-135 | removePending of a frame uses its start time and start cpu time. |
| PerfStats.TimeStatsRecorded | perflogstacktrace4j/src/main/java/org/perflogstacktrace4j/model/stats/PerfTimeStats.java:106-110 | The value incr(elapsed, user, cpu) leaves: each duration recorded in its own histogram, the pending counters untouched. PerfTimeStats.Incr is proved against it. |
| PerfStats.TimeStatsCompleted | perflogstacktrace4j/src/main/java/org/perflogstacktrace4j/model/stats/PerfTimeStats.java:99-104 | The value incrAndRemovePending leaves: the three wrapped end-minus-start durations recorded and the call removed from the pending counters. CompletedCallBalancesPending and CompletedCallCounted state its properties. |
| PerfStats.TimeStatsAdded | perflogstacktrace4j/src/main/java/org/perflogstacktrace4j/model/stats/PerfTimeStats.java:112-117 | The value incr(src) leaves: the pending counters and the three histograms each merged with src's. AddedEmptyIsIdentity states that merging empty statistics changes nothing. |
| PerfStats.CompletedCallBalancesPending | perflogstacktrace4j/src/main/java/org/perflogstacktrace4j/model/stats/PerfTimeStats.java:91-104 | addPending then incrAndRemovePending of the same call restores the pending counters. It records end - start in each histogram. |
| PerfStats.CompletedCallCounted | perflogstacktrace4j/src/main/java/org/perflogstacktrace4j/model/stats/PerfTimeStats.java:99-104 | A completed call adds one to each histogram's count and end - start to the elapsed sum. |
| PerfStats.AddedEmptyIsIdentity | perflogstacktrace4j/src/main/java/org/perflogstacktrace4j/model/stats/PerfTimeStats.java:112-117 | incr of empty statistics changes nothing. |
| PerfStats.AddedEmptyHistogram | perflogstacktrace4j/src/main/java/org/perflogstacktrace4j/model/stats/LongStatsHistogram.java:159-164 | Adding an empty histogram changes nothing. |
| PerfStats.PerfTimeStats.constructor | perflogstacktrace4j/src/main/java/org/perflogstacktrace4j/model/stats/PerfTimeStats.java:20-21 | New statistics are empty. |
| PerfStats.PerfTimeStats.Copy | perflogstacktrace4j/src/main/java/org/perflogstacktrace4j/model/stats/PerfTimeStats.java:23-25 | The copy constructor has src's value. |
| PerfStats.PerfTimeStats.PendingCount | perflogstacktrace4j/src/main/java/org/perflogstacktrace4j/model/stats/PerfTimeStats.java:45-47 | The pending count getter. |
| PerfStats.PerfTimeStats.PendingSumStartTime | perflogstacktrace4j/src/main/java/org/perflogstacktrace4j/model/stats/PerfTimeStats.java:49-51 | The pending start-sum getter. |
| PerfStats.PerfTimeStats.Copied | perflogstacktrace4j/src/main/java/org/perflogstacktrace4j/model/stats/PerfTimeStats.java:58-60 | copy() returns fresh statistics with the same value. |
| PerfStats.PerfTimeStats.Clear | perflogstacktrace4j/src/main/java/org/perflogstacktrace4j/model/stats/PerfTimeStats.java:64-70 | All parts become empty. |
| PerfStats.PerfTimeStats.ClearAndCopyTo | perflogstacktrace4j/src/main/java/org/perflogstacktrace4j/model/stats/PerfTimeStats.java:72-76 | dest gets the old value (when it is another object) and this becomes empty. |
| PerfStats.PerfTimeStats.CopyTo | perflogstacktrace4j/src/main/java/org/perflogstacktrace4j/model/stats/PerfTimeStats.java:78-80 | dest gets this value and this is unchanged. |
| PerfStats.PerfTimeStats.Set | perflogstacktrace4j/src/main/java/org/perflogstacktrace4j/model/stats/PerfTimeStats.java:82-88 | The value becomes src's. |
| PerfStats.PerfTimeStats.AddPending | perflogstacktrace4j/src/main/java/org/perflogstacktrace4j/model/stats/PerfTimeStats.java:91-93 | Only the pending counters change, by addPending. |
| PerfStats.PerfTimeStats.RemovePending | perflogstacktrace4j/src/main/java/org/perflogstacktrace4j/model/stats/PerfTimeStats.java:95-97 | Only the pending counters change, by removePending. |
| PerfStats.PerfTimeStats.IncrAndRemovePending | perflogstacktrace4j/src/main/java/org/perflogstacktrace4j/model/stats/PerfTimeStats.java:99-104 | end - start is recorded in each histogram and the call is removed from pending. |
| PerfStats.PerfTimeStats.Incr | perflogstacktrace4j/src/main/java/org/perflogstacktrace4j/model/stats/PerfTimeStats.java:106-110 | The three elapsed times are recorded in the three histograms. |
| PerfStats.PerfTimeStats.IncrFrom | perflogstacktrace4j/src/main/java/org/perflogstacktrace4j/model/stats/PerfTimeStats.java:112-117 | Every part is added from src, src == this included. |
| PerfStats.PerfTimeStats.AddPendingFrame | perflogstacktrace4j/src/main/java/org/perflogstacktrace4j/model/stats/PerfTimeStats.java:122-124 | addPending of the frame's start time and start cpu time. |
| PerfStats.PerfTimeStats.IncrAndRemovePendingFrame | perflogstacktrace4j/src/main/java/org/perflogstacktrace4j/model/stats/PerfTimeStats.java:126-133 | The frame's times are recorded and the frame removed from pending. The elapsed histogram records the frame's elapsed time. |
| PerfStatsDto.StatsDtoIncremented | perflogstacktrace4j/src/main/java/org/perflogstacktrace4j/dto/stats/PerfStatsDTO.java:63-69 | The value incr(PerfTimeStats) leaves: each cumulated histogram overwritten with the prefix sums of src's, the pending counters added. IncrementedTwice and FromTimeStatsTotals state its properties. |
| PerfStatsDto.IncrementedTwice | perflogstacktrace4j/src/main/java/org/perflogstacktrace4j/dto/stats/PerfStatsDTO.java:63-69 | incr(src) twice leaves the same cumulated histograms as once (they are overwritten) and adds the pending counts twice. |
| PerfStatsDto.FromTimeStatsTotals | perflogstacktrace4j/src/main/java/org/perflogstacktrace4j/dto/stats/PerfStatsDTO.java:25-27 | The DTO of some statistics ends each cumulated count array in the histogram's total count, and copies the pending counters. |
| PerfStatsDto.PerfStatsDTO.constructor | perflogstacktrace4j/src/main/java/org/perflogstacktrace4j/dto/stats/PerfStatsDTO.java:18-19 | A new DTO is empty. |
| PerfStatsDto.PerfStatsDTO.Copy | perflogstacktrace4j/src/main/java/org/perflogstacktrace4j/dto/stats/PerfStatsDTO.java:21-23 | The copy constructor has src's value. |
| PerfStatsDto.PerfStatsDTO.FromTimeStats | perflogstacktrace4j/src/main/java/org/perflogstacktrace4j/dto/stats/PerfStatsDTO.java:25-27 | The DTO of src is the cumulated value of src's three histograms, with src's pending counters. |
| PerfStatsDto.PerfStatsDTO.PendingCount | perflogstacktrace4j/src/main/java/org/perflogstacktrace4j/dto/stats/PerfStatsDTO.java:47-49 | The pending count getter. |
| PerfStatsDto.PerfStatsDTO.PendingSumStartTime | perflogstacktrace4j/src/main/java/org/perflogstacktrace4j/dto/stats/PerfStatsDTO.java:51-53 | The pending start-sum getter. |
| PerfStatsDto.PerfStatsDTO.Set | perflogstacktrace4j/src/main/java/org/perflogstacktrace4j/dto/stats/PerfStatsDTO.java:55-61 | The value becomes src's. |
| PerfStatsDto.PerfStatsDTO.Incr | perflogstacktrace4j/src/main/java/org/perflogstacktrace4j/dto/stats/PerfStatsDTO.java:63-69 | The cumulated histograms are refilled from src, and src's pending counters are added. |
| PerfStatsDto.PerfStatsDTO.Copied | perflogstacktrace4j/src/main/java/org/perflogstacktrace4j/dto/stats/PerfStatsDTO.java:77-79 | copy() returns a fresh DTO with the same value. |
| TreeValues.IndexOf | perflogstacktrace4j/src/main/java/org/perflogstacktrace4j/dto/tree/AppCallTreeNodeDTO.java:75-76 | The first child with the name, or the end when there is none (LinkedHashMap.get). |
| TreeValues.KeyIndex | perflogstacktrace4j/src/main/java/org/perflogstacktrace4j/dto/tree/AppCallTreeNodeDTO.java:75-76 | The first map entry with the key, or the end when there is none. |
| TreeValues.WithChild | perflogstacktrace4j/src/main/java/org/perflogstacktrace4j/dto/tree/AppCallTreeNodeDTO.java:75-82 | findOrCreateChild on the child list: a hit leaves the list as is, a miss appends an empty child. In both the name is then found at the same position. |
| TreeValues.MergeTree | perflogstacktrace4j/src/main/java/org/perflogstacktrace4j/model/tree/AppCallTreeNode.java:102-109 | addRecursive (AddStats) or copyTo (SetStats) keep the root's name. Its children are stated by the lemmas below. |
| TreeValues.MergeChildren | perflogstacktrace4j/src/main/java/org/perflogstacktrace4j/dto/tree/AppCallTreeNodeDTO.java:96-99 | The child list the addRecursive loop leaves: the source children merged in, first to last. MergeChildrenNames, MergeChildrenUnique, MergeChildrenKeeps and MergeChildrenFound state its properties. |
| TreeValues.MergeChild | perflogstacktrace4j/src/main/java/org/perflogstacktrace4j/dto/tree/AppCallTreeNodeDTO.java:97-98 | One step of that loop: the same-named child is found or created, then the source child is merged into it. MergeChildNames and MergeChildContents state its properties. |
| TreeValues.MergeChildNames | perflogstacktrace4j/src/main/java/org/perflogstacktrace4j/model/tree/AppCallTreeNode.java:105-107 | Merging one source child adds its name to the names only if it is new. |
| TreeValues.MergeChildrenNames | perflogstacktrace4j/src/main/java/org/perflogstacktrace4j/model/tree/AppCallTreeNode.java:102-109 | After addRecursive, the children's names are the old names followed by the source's new names, in source order. |
| TreeValues.MergeChildrenUnique | perflogstacktrace4j/src/main/java/org/perflogstacktrace4j/model/tree/AppCallTreeNode.java:102-109 | addRecursive keeps children's names pairwise distinct. |
| TreeValues.MergeChildContents | perflogstacktrace4j/src/main/java/org/perflogstacktrace4j/model/tree/AppCallTreeNode.java:105-107 | Merging one source child leaves every other child unchanged. The child of its name becomes that source child merged into the old one, or into an empty one. |
| TreeValues.MergeChildrenKeeps | perflogstacktrace4j/src/main/java/org/perflogstacktrace4j/model/tree/AppCallTreeNode.java:102-109 | The merged list is at least as long as the old one, and every old child whose name no source child has is unchanged at its position. |
| TreeValues.MergeChildrenFound | perflogstacktrace4j/src/main/java/org/perflogstacktrace4j/model/tree/AppCallTreeNode.java:102-109 | When the source children have distinct names, the child named like a source child is that source child merged into the old child of that name, or into an empty one. |
| TreeValues.MergeSelf | perflogstacktrace4j/src/main/java/org/perflogstacktrace4j/dto/tree/AppCallTreeNodeDTO.java:93-100 | addRecursive of a tree into itself keeps the shape of the tree and gives every node its statistics combined with themselves: with `ADD_STATS`, the slot counts, slot sums and pending counters double (wrapping), and min, max, time and trace are kept. |
| TreeValues.CopyIntoEmpty | perflogstacktrace4j/src/main/java/org/perflogstacktrace4j/model/tree/AppCallTreeNode.java:154-161 | copyTo into a new node of the same name reproduces the whole tree. |
| TreeValues.ClearAndCopyTo | perflogstacktrace4j/src/main/java/org/perflogstacktrace4j/model/tree/AppCallTreeNode.java:128-139 | Afterwards the source node has empty statistics and no children, and the destination keeps its name and holds the source's statistics. |
| TreeValues.ClearAndCopyToChildren | perflogstacktrace4j/src/main/java/org/perflogstacktrace4j/model/tree/AppCallTreeNode.java:128-139 | Every source child has a destination child of its name that is the source child copied over the old destination child of that name, or over a new empty node. Destination children the source lacks are unchanged. Copying into a new empty node reproduces the source tree. |
| TreeValues.ChildAt | perflogstacktrace4j/src/main/java/org/perflogstacktrace4j/dto/tree/AppCallTreeNodeDTO.java:84-90 | Following a non-empty path ends at a node named like the path's last element. |
| TreeValues.EnsurePath | perflogstacktrace4j/src/main/java/org/perflogstacktrace4j/dto/tree/AppCallTreeNodeDTO.java:84-90 | findOrCreateChildPath keeps the root's name and statistics. |
| TreeValues.EnsurePathReaches | perflogstacktrace4j/src/main/java/org/perflogstacktrace4j/dto/tree/AppCallTreeNodeDTO.java:84-90 | After findOrCreateChildPath, the path exists. |
| TreeValues.EnsureExistingPath | perflogstacktrace4j/src/main/java/org/perflogstacktrace4j/dto/tree/AppCallTreeNodeDTO.java:84-90 | findOrCreateChildPath on an existing path changes nothing. |
| TreeValues.EnsurePathIdempotent | perflogstacktrace4j/src/main/java/org/perflogstacktrace4j/dto/tree/AppCallTreeNodeDTO.java:84-90 | findOrCreateChildPath twice is the same as once. |
| TreeValues.EnsurePathChildren | perflogstacktrace4j/src/main/java/org/perflogstacktrace4j/dto/tree/AppCallTreeNodeDTO.java:84-90 | Only the first name of the path can be added to the root's children, and only if it is new. Every other child is unchanged. |
| TreeValues.DistinctCard | perflogstacktrace4j/src/main/java/org/perflogstacktrace4j/dto/tree/AppCallTreeNodeDTO.java:63-65 | A map with distinct keys has as many entries as keys. |
| TreeValues.KeyIndexAppended | perflogstacktrace4j/src/main/java/org/perflogstacktrace4j/dto/tree/AppCallTreeNodeDTO.java:79-80 | A key put after a miss is found at the new last entry. |
| CallTreeDto.AppCallTreeNodeDTO.constructor | perflogstacktrace4j/src/main/java/org/perflogstacktrace4j/dto/tree/AppCallTreeNodeDTO.java:38-40 | A new node has the name, no children and empty statistics. |
| CallTreeDto.AppCallTreeNodeDTO.ChildCount | perflogstacktrace4j/src/main/java/org/perflogstacktrace4j/dto/tree/AppCallTreeNodeDTO.java:63-65 | The child count is the number of distinct child names. |
| CallTreeDto.AppCallTreeNodeDTO.FindOrCreateChild | perflogstacktrace4j/src/main/java/org/perflogstacktrace4j/dto/tree/AppCallTreeNodeDTO.java:75-82 | The keys grow exactly as AddName says. The result is the entry of the name. A hit changes nothing. A miss appends a fresh node with that name, no children and empty statistics. Keys stay distinct. |
| CallTreeDto.AppCallTreeNodeDTO.GetCount | perflogstacktrace4j/src/main/java/org/perflogstacktrace4j/dto/tree/AppCallTreeNodeDTO.java:105-107 | The count is the elapsed histogram's total count. |
| CallTreeDto.AppCallTreeNodeDTO.GetElapsedTime | perflogstacktrace4j/src/main/java/org/perflogstacktrace4j/dto/tree/AppCallTreeNodeDTO.java:109-111 | The elapsed time is the elapsed histogram's total sum. |
| CallTree.PathString | perflogstacktrace4j/src/main/java/org/perflogstacktrace4j/model/tree/AppCallTreeNode.java:61-69 | The path string of the root is "". |
| CallTree.PathStringLength | perflogstacktrace4j/src/main/java/org/perflogstacktrace4j/model/tree/AppCallTreeNode.java:61-69 | The path string has one '/' per name plus the names' lengths. |
| CallTree.AppCallTreeNode.constructor | perflogstacktrace4j/src/main/java/org/perflogstacktrace4j/model/tree/AppCallTreeNode.java:32-35 | The new node has the parent and name, no children and empty statistics. |
| CallTree.AppCallTreeNode.InvPath | perflogstacktrace4j/src/main/java/org/perflogstacktrace4j/model/tree/AppCallTreeNode.java:47-53 | The inverse path has one name per ancestor below the root (the depth). |
| CallTree.AppCallTreeNode.Path | perflogstacktrace4j/src/main/java/org/perflogstacktrace4j/model/tree/AppCallTreeNode.java:55-59 | The path has one name per ancestor below the root. |
| CallTree.AppCallTreeNode.InvPathReversed | perflogstacktrace4j/src/main/java/org/perflogstacktrace4j/model/tree/AppCallTreeNode.java:55-59 | The path is the inverse path reversed. |
| CallTree.AppCallTreeNode.ChildPathString | perflogstacktrace4j/src/main/java/org/perflogstacktrace4j/model/tree/AppCallTreeNode.java:61-69 | A child's path string is its parent's, then "/", then its name. |
| CallTree.AppCallTreeNode.GetInvPath | perflogstacktrace4j/src/main/java/org/perflogstacktrace4j/model/tree/AppCallTreeNode.java:47-53 | The loop up the parents returns the names from this node up to below the root. |
| CallTree.AppCallTreeNode.GetPath | perflogstacktrace4j/src/main/java/org/perflogstacktrace4j/model/tree/AppCallTreeNode.java:55-59 | The names from below the root down to this node. |
| CallTree.AppCallTreeNode.GetPathString | perflogstacktrace4j/src/main/java/org/perflogstacktrace4j/model/tree/AppCallTreeNode.java:61-69 | The loop over the inverse path backwards builds the path string. |
| CallTree.AppCallTreeNode.FindOrCreateChild | perflogstacktrace4j/src/main/java/org/perflogstacktrace4j/model/tree/AppCallTreeNode.java:79-96 | Like the DTO's, and a created child has this node as its parent. |
| CallTree.AppCallTreeNode.IncrTimeStats | perflogstacktrace4j/src/main/java/org/perflogstacktrace4j/model/tree/AppCallTreeNode.java:98-100 | The times are recorded in the node's statistics. |
| CallTree.AppCallTreeNode.Clear | perflogstacktrace4j/src/main/java/org/perflogstacktrace4j/model/tree/AppCallTreeNode.java:120-126 | The statistics become empty and the children go. |
| CallStacks.CallStackElt.constructor | perflogstacktrace4j/src/main/java/org/perflogstacktrace4j/model/CallStackElt.java:77-84 | A new frame has its stack, index and parent, and a fresh popper on itself. Everything else is zero or empty. |
| CallStacks.CallStackElt.Path | perflogstacktrace4j/src/main/java/org/perflogstacktrace4j/model/CallStackElt.java:144-151 | The path has one label per frame from the bottom to this one, with this frame's label last. |
| CallStacks.CallStackElt.PathAt | perflogstacktrace4j/src/main/java/org/perflogstacktrace4j/model/CallStackElt.java:144-151 | Entry d of the path is the label of the ancestor at depth d. |
| CallStacks.CallStackElt.GetPath | perflogstacktrace4j/src/main/java/org/perflogstacktrace4j/model/CallStackElt.java:144-151 | The loop fills a fresh array with the path. |
| CallStacks.CallStackElt.LabelsArePath | perflogstacktrace4j/src/main/java/org/perflogstacktrace4j/model/CallStackElt.java:144-151 | An array holding, at each depth, the label of the ancestor at that depth is the path. |
| CallStacks.CallStackElt.ChainProps | perflogstacktrace4j/src/main/java/org/perflogstacktrace4j/model/CallStackElt.java:164-176 | A frame's own inheritable properties override those inherited from its parent chain. |
| CallStacks.CallStackElt.Inherited | perflogstacktrace4j/src/main/java/org/perflogstacktrace4j/model/CallStackElt.java:164-176 | The map getInheritedProps returns: the cached map if there is one, otherwise the parent's inherited map overlaid with the frame's own inheritable properties. GetInheritedProps is proved against it, and InheritedIsChainProps relates it to the chain of properties. |
| CallStacks.CallStackElt.InheritedIsChainProps | perflogstacktrace4j/src/main/java/org/perflogstacktrace4j/model/CallStackElt.java:164-176 | Without a cached map on the chain, the inherited properties are exactly the chain's. |
| CallStacks.CallStackElt.GetInheritedProps | perflogstacktrace4j/src/main/java/org/perflogstacktrace4j/model/CallStackElt.java:164-176 | The result is the inherited map and is cached. Every ancestor's inherited map is the same as before, so later calls anywhere on the chain return what they would have returned. |
| CallStacks.CallStackElt.ElapsedTime | perflogstacktrace4j/src/main/java/org/perflogstacktrace4j/model/CallStackElt.java:198-200 | endTime - startTime, wrapped to a long. |
| CallStacks.CallStackElt.Pusher | perflogstacktrace4j/src/main/java/org/perflogstacktrace4j/model/CallStackElt.java:88-90 | The frame's pusher, with the class name and name set. |
| CallStacks.CallStackElt.OnPushSetStartTime | perflogstacktrace4j/src/main/java/org/perflogstacktrace4j/model/CallStackElt.java:92-96 | The three start times are the clock readings. |
| CallStacks.CallStackElt.OnPushSetParentStartTime | perflogstacktrace4j/src/main/java/org/perflogstacktrace4j/model/CallStackElt.java:98-103 | The three start times are the parent's. |
| CallStacks.CallStackElt.OnPopSetEndTime | perflogstacktrace4j/src/main/java/org/perflogstacktrace4j/model/CallStackElt.java:105-113 | The end times are the clock readings and the progress fields are reset. |
| CallStacks.CallStackElt.OnProgressStep | perflogstacktrace4j/src/main/java/org/perflogstacktrace4j/model/CallStackElt.java:115-118 | The progress index grows by incr, wrapping, and the message is set. |
| CallStacks.CallStackElt.PutParam | perflogstacktrace4j/src/main/java/org/perflogstacktrace4j/model/CallStackElt.java:225-228 | The parameter is put. |
| CallStacks.CallStackElt.PutAllParams | perflogstacktrace4j/src/main/java/org/perflogstacktrace4j/model/CallStackElt.java:231-234 | The parameters are put, overriding old ones. |
| CallStacks.CallStackElt.PutInheritableProp | perflogstacktrace4j/src/main/java/org/perflogstacktrace4j/model/CallStackElt.java:237-240 | The property is put. |
| CallStacks.CallStackElt.PutAllInheritableProps | perflogstacktrace4j/src/main/java/org/perflogstacktrace4j/model/CallStackElt.java:243-246 | The properties are put, overriding old ones. |
| CallStacks.PutParamKeepsOthers | perflogstacktrace4j/src/main/java/org/perflogstacktrace4j/model/CallStackElt.java:225-228 | After put, the key maps to the value and every other key is as before. |
| CallStacks.StackPusher.constructor | perflogstacktrace4j/src/main/java/org/perflogstacktrace4j/model/StackPusher.java:17-19 | The pusher is bound to its frame. |
| CallStacks.StackPusher.WithName | perflogstacktrace4j/src/main/java/org/perflogstacktrace4j/model/StackPusher.java:29-33 | Sets class name and name and returns the pusher. |
| CallStacks.StackPusher.P | perflogstacktrace4j/src/main/java/org/perflogstacktrace4j/model/StackPusher.java:36-38 | Puts a parameter and returns the pusher. |
| CallStacks.StackPusher.WithParam | perflogstacktrace4j/src/main/java/org/perflogstacktrace4j/model/StackPusher.java:40-43 | Puts a parameter and returns the pusher. |
| CallStacks.StackPusher.WithParams | perflogstacktrace4j/src/main/java/org/perflogstacktrace4j/model/StackPusher.java:45-48 | Puts the parameters and returns the pusher. |
| CallStacks.StackPusher.WithInheritableProp | perflogstacktrace4j/src/main/java/org/perflogstacktrace4j/model/StackPusher.java:50-53 | Puts a property and returns the pusher. |
| CallStacks.StackPusher.WithAllInheritableProps | perflogstacktrace4j/src/main/java/org/perflogstacktrace4j/model/StackPusher.java:55-58 | Puts the properties and returns the pusher. |
| CallStacks.StackPusher.WithProgressExpectedCount | perflogstacktrace4j/src/main/java/org/perflogstacktrace4j/model/StackPusher.java:60-63 | Sets the expected count and returns the pusher. |
| CallStacks.StackPusher.Push | perflogstacktrace4j/src/main/java/org/perflogstacktrace4j/model/StackPusher.java:21-23 | The frame becomes current with the clock start times. The stack stays well formed. The frame's popper is returned. The slot array only grows: every old slot stays where it was and any added slot is new. |
| CallStacks.StackPusher.PushWithParentStartTime | perflogstacktrace4j/src/main/java/org/perflogstacktrace4j/model/StackPusher.java:25-27 | As Push, with the parent's start times. The slot array only grows: every old slot stays where it was and any added slot is new. |
| CallStacks.StackPopper.constructor | perflogstacktrace4j/src/main/java/org/perflogstacktrace4j/model/StackPopper.java:16-18 | The popper is bound to its frame. |
| CallStacks.StackPopper.Close | perflogstacktrace4j/src/main/java/org/perflogstacktrace4j/model/StackPopper.java:21-23 | The parent becomes current. The end times are the clock readings and the progress fields are reset. |
| CallStacks.StackPopper.ProgressStep | perflogstacktrace4j/src/main/java/org/perflogstacktrace4j/model/StackPopper.java:25-29 | The progress index and message are updated and the popper is returned. |
| CallStacks.StackPopper.WithParamValue | perflogstacktrace4j/src/main/java/org/perflogstacktrace4j/model/StackPopper.java:31-34 | Puts a parameter and returns the popper. |
| CallStacks.StackPopper.WithReturnValue | perflogstacktrace4j/src/main/java/org/perflogstacktrace4j/model/StackPopper.java:37-39 | Puts "return" and returns the popper. |
| CallStacks.StackPopper.ReturnParamValue | perflogstacktrace4j/src/main/java/org/perflogstacktrace4j/model/StackPopper.java:45-48 | Puts the parameter and returns the value. |
| CallStacks.StackPopper.ReturnValue | perflogstacktrace4j/src/main/java/org/perflogstacktrace4j/model/StackPopper.java:50-69 | Puts "return" and returns the value. |
| CallStacks.StackPopper.NameExceptionFrame | perflogstacktrace4j/src/main/java/org/perflogstacktrace4j/model/StackPopper.java:81-82 | The next frame's pusher is the one bound to the child of this frame. It gets this frame's class name, the given name and the parameter "ex". |
| CallStacks.StackPopper.PushExceptionFrame | perflogstacktrace4j/src/main/java/org/perflogstacktrace4j/model/StackPopper.java:81-82 | The next frame is pushed with "ex", this class name and the given name, at this frame's start times. The slot array only grows: every old slot stays where it was and any added slot is new. |
| CallStacks.StackPopper.ReturnException | perflogstacktrace4j/src/main/java/org/perflogstacktrace4j/model/StackPopper.java:73-77 | A child frame named "exception-" + the exception's class name records ex, is timed from this frame's start, and is popped. The frame stays current and ex is returned. The slot array only grows: every old slot stays where it was and any added slot is new. |
| CallStacks.StackPopper.ReturnExceptionNamed | perflogstacktrace4j/src/main/java/org/perflogstacktrace4j/model/StackPopper.java:80-84 | As ReturnException, with the given frame name. The slot array only grows: every old slot stays where it was and any added slot is new. |
| CallStacks.CallStack.constructor | perflogstacktrace4j/src/main/java/org/perflogstacktrace4j/model/CallStack.java:41-46 | A fresh stack of INITIAL_STACK_LEN linked frames. The bottom frame (no parent) is current. |
| CallStacks.CallStack.Curr | perflogstacktrace4j/src/main/java/org/perflogstacktrace4j/model/CallStack.java:51-53 | The current frame, if any, is one of the stack's frames and has been pushed. |
| CallStacks.CallStack.SlotWellLinked | perflogstacktrace4j/src/main/java/org/perflogstacktrace4j/model/CallStack.java:76-85 | Every frame of a linked stack has a well-formed parent chain. |
| CallStacks.CallStack.CopyOfSlots | perflogstacktrace4j/src/main/java/org/perflogstacktrace4j/model/CallStack.java:77-79 | A fresh array of the new length that starts with the old frames. |
| CallStacks.CallStack.AppendSlot | perflogstacktrace4j/src/main/java/org/perflogstacktrace4j/model/CallStack.java:80-83 | A fresh frame is linked under the previous one, and earlier slots are unchanged. |
| CallStacks.CallStack.GrownSlots | perflogstacktrace4j/src/main/java/org/perflogstacktrace4j/model/CallStack.java:77-83 | The copy and the loop yield a fresh array of the new length. It starts with the old frames, continues with fresh frames, and is linked throughout. |
| CallStacks.CallStack.ReallocStackEltArray | perflogstacktrace4j/src/main/java/org/perflogstacktrace4j/model/CallStack.java:76-85 | The array grows to the new length. Old frames stay where they were and new frames are fresh. The links stay well formed. |
| CallStacks.CallStack.MakeCurrent | perflogstacktrace4j/src/main/java/org/perflogstacktrace4j/model/CallStack.java:89-92 | The frame becomes current with a pusher. The array grows by DEFAULT_ALLOC_INCR_STACK_LEN only when the frame was the last one. Old frames are kept and the stack stays well formed. |
| CallStacks.CallStack.DoPush | perflogstacktrace4j/src/main/java/org/perflogstacktrace4j/model/CallStack.java:88-96 | The pushed frame is current with the clock start times. A first push of the frame grows the array by DEFAULT_ALLOC_INCR_STACK_LEN. The old frames are kept. |
| CallStacks.CallStack.DoPushWithParentStartTime | perflogstacktrace4j/src/main/java/org/perflogstacktrace4j/model/CallStack.java:98-106 | As DoPush, with the parent's start times. |
| CallStacks.CallStack.DoPop | perflogstacktrace4j/src/main/java/org/perflogstacktrace4j/model/CallStack.java:108-112 | The parent becomes current, the end times are stamped, and the progress fields are reset. |
| ListenerSupport.RemoveFirst | perflogstacktrace4j/src/main/java/org/perflogstacktrace4j/spi/CallStackListenerSupport.java:35-41 | The list `ls.remove(l)` leaves: the first occurrence of l taken out. RemoveFirstAt, RemoveAbsent, RemoveFirstCounts and AddThenRemove state its properties. |
| ListenerSupport.RemoveFirstAt | perflogstacktrace4j/src/main/java/org/perflogstacktrace4j/spi/CallStackListenerSupport.java:35-41 | Removing a listener drops its first occurrence and keeps the rest in order. |
| ListenerSupport.RemoveAbsent | perflogstacktrace4j/src/main/java/org/perflogstacktrace4j/spi/CallStackListenerSupport.java:35-41 | Removing an absent listener changes nothing. |
| ListenerSupport.RemoveFirstCounts | perflogstacktrace4j/src/main/java/org/perflogstacktrace4j/spi/CallStackListenerSupport.java:35-41 | Removal takes exactly one copy out when present (length and multiset). |
| ListenerSupport.AddThenRemove | perflogstacktrace4j/src/main/java/org/perflogstacktrace4j/spi/CallStackListenerSupport.java:24-41 | Adding then removing a new listener restores the list. |
| ListenerSupport.CallStackListenerSupport.constructor | perflogstacktrace4j/src/main/java/org/perflogstacktrace4j/spi/CallStackListenerSupport.java:19-22 | No listeners at first. |
| ListenerSupport.CallStackListenerSupport.AddListener | perflogstacktrace4j/src/main/java/org/perflogstacktrace4j/spi/CallStackListenerSupport.java:24-33 | A fresh array equal to the old listeners plus the new one. |
| ListenerSupport.CallStackListenerSupport.RemoveListener | perflogstacktrace4j/src/main/java/org/perflogstacktrace4j/spi/CallStackListenerSupport.java:35-41 | A fresh array without the first occurrence of the listener. |

## Left out

- Concurrency: the CAS, the volatile and unsafe accessors (`UnsafeUtils`), the locks and the double-checked find-or-create. Every operation is modelled as if it ran alone; `UnsafeUtils` is not part of this model.
- Clocks and stack traces: `System.nanoTime`, thread cpu and user times, `currentTimeMillis` and `ExUtils.currentStackTraceShortPath` become parameters (`Clocks`, `now`, `trace`). The three histograms of one `PerfTimeStats.incr` get the same `now` and `trace`.
- Unit conversion: the nanos-to-millis conversion of the cumulated DTOs is a parameter `toMillis`.
- Floating point: `getAverage`-style methods returning `double`, and `getPendingAverageTimeMillisUntilTime`.
- Text and debugging output: `toString`, `recursiveToStringDump`, `dumpHeaderLine`.
- Thread-local and tracer wiring: `ThreadLocalCallStack` and `CallStackTracer` are not part of this model.
- Listener notifications: the `fire*` methods and the `CallStackListener` callbacks are not part of this model. `CallStack.doProgressStep` only notifies listeners, so it has no model beyond `StackPopper.ProgressStep`.
- Other classes: `AppCallTreeDTO`, JSON and `Serializable` support, the JSON constructors, `setPerfTimeStats`, and `getChildList` as a collection view.
- PerfStatsDto: `PendingPerfCountDTO` is modelled by the same three counters as `PendingPerfCount`.
- Reflection: the simple class name of an exception is a field of the exception value.
- Null maps: lazily allocated maps read as empty maps.
- Histogram.BuildSlotTables: the two local arrays the class initializer fills are sequences, because nothing else can see them before they are published.
- CallTree.AppCallTreeNode FindOrCreateChild, AddRecursive, ClearAndCopyTo, CopyTo: the recursive tree operations (`addRecursive` of a node or a DTO, both `clearAndCopyTo`, `copyTo`, `findOrCreateChildPath`) are modelled on tree values (`TreeValues.MergeTree`, `ClearAndCopyTo`, `EnsurePath`), not as methods updating a linked object graph in place. Aliasing between a live tree and its destination, and the identity of descendant nodes, are therefore not captured. The classes check one level: keys match child names, children point back to the parent, and keys are distinct.
- CallTree.AppCallTreeNode.constructor: requires that the parent chain is well founded (`Linked`). Every node built by the constructor satisfies this.
- CallTree.AppCallTreeNode.IncrTimeStats: also takes `now` and `trace` for the histograms' time and trace of the last new minimum.
- PerfStats.PerfTimeStats.Set, CopyTo, ClearAndCopyTo, IncrFrom: require that source and destination are the same object or share no arrays. The Java classes never share arrays between two instances.
- PerfStatsDto.PerfStatsDTO.Set, Incr: the same apartness requirement.
- CumulatedHistogram.CumulatedLongStatsHistogramDTO.IncrFromHistogram: requires that the histogram and the DTO share no arrays, which two distinct objects never do.
- CallStacks.CallStack.DoPop, CallStacks.StackPopper.Close, ReturnException, ReturnExceptionNamed, NameExceptionFrame, PushExceptionFrame: require that the popped frame is the current one (`e == curr`, `callStackElt == ownerStack.curr`). Callers are expected to close poppers in last-in first-out order, but Java does not check this: `StackPopper.close()` (StackPopper.java:20-22) is public and pops whatever frame it is bound to. The model does not describe a pop out of order.
- CallStacks.CallStackElt.Pusher: requires `pusher != null`. Java dereferences the field unchecked, so `pusher(className, name)` on the last slot of an array not yet grown throws NullPointerException. The current frame always has a pusher, since pushing the last slot grows the array first, but the model does not describe the exception on other frames.
- CallStacks.StackPopper.ReturnException: requires the value to be a throwable. The Java signature takes a `Throwable`.
- Histogram.LongStatsHistogram.CountAt, SumAt: `getCount(i)`/`getSum(i)` take an index in range, as the Java methods assert.
