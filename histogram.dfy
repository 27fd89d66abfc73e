/** LongStatsHistogram: a fixed 10-slot logarithmic histogram of `long` values.
    Each slot keeps an occurrence count (`int`) and a sum of values (`long`); the
    histogram also keeps the minimum and maximum recorded value, and the time and a
    capture-site trace recorded when the minimum last moved.

    Slot ranges: [0] up to 0, [1] 1..31, [2] 32..63, [3] 64..127, [4] 128..255,
    [5] 256..511, [6] 512..1023, [7] 1024..2047, [8] 2048..4095, [9] 4096 and above. */
module Histogram {
  import opened JavaInts
  import opened Options

  const SLOT_LEN: nat := 10
  const MAX_SLOT_VALUE: int := 4096

  /** The lower bounds of slots 1..9 (the `breaks` table of the class initializer). */
  const BREAKS: seq<int> := [1, 32, 64, 128, 256, 512, 1024, 2048, 4096]

  // ---------------------------------------------------------------------------
  // Slot selection

  /** Reference definition of the slot of a value in 1..4095: starting at slot `k`,
      move up one slot for every break the value has reached. */
  function ScanSlot(v: int, k: nat): (r: nat)
    requires 1 <= k <= 8
    ensures k <= r <= 8
    decreases 8 - k
  {
    if k < 8 && BREAKS[k] <= v then ScanSlot(v, k + 1) else k
  }

  /** The slot of `v` found by scanning the breaks from slot 1. */
  function SlotByBreaks(v: int): (r: nat)
    ensures 1 <= r <= 8
  {
    ScanSlot(v, 1)
  }

  lemma BreaksIncreasing()
    ensures forall i, j | 0 <= i < j < |BREAKS| :: BREAKS[i] < BREAKS[j]
  {
  }

  lemma {:induction false} ScanSlotBracket(v: int, k: nat)
    requires 1 <= k <= 8 && BREAKS[k - 1] <= v < MAX_SLOT_VALUE
    ensures k <= ScanSlot(v, k) <= 8
    ensures BREAKS[ScanSlot(v, k) - 1] <= v < BREAKS[ScanSlot(v, k)]
    decreases 8 - k
  {
    if k < 8 && BREAKS[k] <= v {
      ScanSlotBracket(v, k + 1);
    }
  }

  /** A value in 1..4095 lies between the break of its slot and the next one. */
  lemma SlotByBreaksBracket(v: int)
    requires 1 <= v < MAX_SLOT_VALUE
    ensures 1 <= SlotByBreaks(v) <= 8
    ensures BREAKS[SlotByBreaks(v) - 1] <= v < BREAKS[SlotByBreaks(v)]
  {
    ScanSlotBracket(v, 1);
  }

  /** The bracket determines the slot. */
  lemma SlotByBreaksUnique(v: int, k: nat)
    requires 1 <= k <= 8 && BREAKS[k - 1] <= v < BREAKS[k]
    ensures SlotByBreaks(v) == k
  {
    SlotByBreaksBracket(v);
    BreaksIncreasing();
  }

  /** All values of one 32-wide block 32q..32q+31 fall into the same slot. */
  lemma SlotByBreaksBlock(v: int)
    requires 1 <= v < MAX_SLOT_VALUE
    ensures SlotByBreaks(32 * (v / 32)) == SlotByBreaks(v)
  {
    var b := 32 * (v / 32);
    if v < 32 {
      assert b == 0;
      assert SlotByBreaks(0) == 1;
      SlotByBreaksUnique(v, 1);
    } else {
      SlotByBreaksBracket(b);
      var r := SlotByBreaks(b);
      assert BREAKS[r] % 32 == 0;
      assert v < BREAKS[r];
      SlotByBreaksUnique(v, r);
    }
  }

  /** The lookup table indexed by `value >>> 5` (value / 32): entry q is the slot of
      the block 32q..32q+31. */
  function ValueDiv32ToSlotIndex(): (t: seq<nat>)
    ensures |t| == MAX_SLOT_VALUE / 32
  {
    seq(MAX_SLOT_VALUE / 32, q requires 0 <= q < MAX_SLOT_VALUE / 32 => SlotByBreaks(32 * q))
  }

  /** The slot of a value: non-positive values go to slot 0, values from 4096 on to
      slot 9, values below 32 to slot 1, the others through the lookup table. */
  function ValueToSlotIndex(value: Long): (r: nat)
    ensures r < SLOT_LEN
    ensures r == 0 <==> value <= 0
    ensures r == SLOT_LEN - 1 <==> value >= MAX_SLOT_VALUE
    ensures 1 <= value < 32 ==> r == 1
  {
    if value <= 0 then 0
    else if value >= MAX_SLOT_VALUE then SLOT_LEN - 1
    else if value < 32 then 1
    else ValueDiv32ToSlotIndex()[value / 32]
  }

  /** For 1 <= v < 4096 the slot k of v satisfies breaks[k-1] <= v < breaks[k]. */
  lemma ValueToSlotIndexBracket(v: Long)
    requires 1 <= v < MAX_SLOT_VALUE
    ensures 1 <= ValueToSlotIndex(v) <= 8
    ensures BREAKS[ValueToSlotIndex(v) - 1] <= v < BREAKS[ValueToSlotIndex(v)]
  {
    if v >= 32 {
      SlotByBreaksBlock(v);
      SlotByBreaksBracket(v);
    }
  }

  /** The table lookup agrees with the linear scan over the breaks. */
  lemma ValueToSlotIndexIsScan(v: Long)
    requires 1 <= v < MAX_SLOT_VALUE
    ensures ValueToSlotIndex(v) == SlotByBreaks(v)
  {
    ValueToSlotIndexBracket(v);
    SlotByBreaksUnique(v, ValueToSlotIndex(v));
  }

  /** The boundary checks the class initializer performs all hold. */
  lemma InitializerBoundaryChecks()
    ensures ValueToSlotIndex(30) == 1 && ValueToSlotIndex(31) == 1
    ensures ValueToSlotIndex(32) == 2 && ValueToSlotIndex(33) == 2
    ensures ValueToSlotIndex(4095) == SLOT_LEN - 2
    ensures ValueToSlotIndex(4096) == SLOT_LEN - 1
  {
    ValueToSlotIndexBracket(32);
    ValueToSlotIndexBracket(33);
    ValueToSlotIndexBracket(4095);
  }

  // ---------------------------------------------------------------------------
  // Slot ranges

  /** One slot described for reporting: its value range and its count and sum. */
  datatype SlotInfo = SlotInfo(from: Long, to: Long, count: Int32, sum: Long)

  /** The static slot descriptions (`SLOT_INFOS`), with count and sum 0. */
  const SLOT_INFOS: seq<SlotInfo> := [
    SlotInfo(-LONG_MAX, 0, 0, 0), SlotInfo(1, 31, 0, 0), SlotInfo(32, 63, 0, 0),
    SlotInfo(64, 127, 0, 0), SlotInfo(128, 255, 0, 0), SlotInfo(256, 511, 0, 0),
    SlotInfo(512, 1023, 0, 0), SlotInfo(1024, 2047, 0, 0), SlotInfo(2048, 4095, 0, 0),
    SlotInfo(MAX_SLOT_VALUE, LONG_MAX, 0, 0)]

  /** The slot ranges tile the values above -Long.MAX_VALUE without gaps:
      slot 0 ends at 0, each slot starts right after the previous one ends, the
      middle slots run from one break to the next, and the last one starts at
      4096 and reaches Long.MAX_VALUE. */
  lemma SlotRangesContiguous()
    ensures SLOT_INFOS[0].from == -LONG_MAX && SLOT_INFOS[0].to == 0
    ensures SLOT_INFOS[SLOT_LEN - 1].from == MAX_SLOT_VALUE && SLOT_INFOS[SLOT_LEN - 1].to == LONG_MAX
    ensures forall k | 0 < k < SLOT_LEN :: SLOT_INFOS[k].from == SLOT_INFOS[k - 1].to + 1
    ensures forall k | 0 < k < SLOT_LEN - 1 :: SLOT_INFOS[k].from == BREAKS[k - 1] && SLOT_INFOS[k].to == BREAKS[k] - 1
  {
  }

  /** A value lies in the range of slot k exactly when it maps to slot k (for every
      value except Long.MIN_VALUE, which maps to slot 0 but lies below its range). */
  lemma SlotRangeMatchesIndex(k: nat, v: Long)
    requires k < SLOT_LEN && v != LONG_MIN
    ensures SLOT_INFOS[k].from <= v <= SLOT_INFOS[k].to <==> ValueToSlotIndex(v) == k
  {
    SlotRangesContiguous();
    if 1 <= v < MAX_SLOT_VALUE {
      ValueToSlotIndexBracket(v);
      if 0 < k < SLOT_LEN - 1 && SLOT_INFOS[k].from <= v <= SLOT_INFOS[k].to {
        SlotByBreaksUnique(v, k);
        ValueToSlotIndexIsScan(v);
      }
    }
  }

  /** A middle slot runs from its break to one below the next break. */
  lemma MiddleSlotInfo(k: nat)
    requires 1 <= k <= 8
    ensures SLOT_INFOS[k] == SlotInfo(BREAKS[k - 1], BREAKS[k] - 1, 0, 0)
  {
    SlotRangesContiguous();
  }

  /** One step of the initializer's scan: the slot of i is the slot of i - 1, moved
      up by one exactly when i is the next break; and 4096 is the last break. */
  lemma SlotByBreaksStep(i: int)
    requires 1 <= i <= MAX_SLOT_VALUE
    ensures (if i == 1 then 1 else SlotByBreaks(i - 1)) <= 8
    ensures i < MAX_SLOT_VALUE ==>
      var index := if i == 1 then 1 else SlotByBreaks(i - 1);
      SlotByBreaks(i) == if BREAKS[index] == i then index + 1 else index
    ensures i == MAX_SLOT_VALUE ==> SlotByBreaks(i - 1) == 8
  {
    if i > 1 {
      SlotByBreaksBracket(i - 1);
      var r := SlotByBreaks(i - 1);
      if i < MAX_SLOT_VALUE {
        if BREAKS[r] == i {
          SlotByBreaksUnique(i, r + 1);
        } else {
          SlotByBreaksUnique(i, r);
        }
      }
    }
  }

  /** The class initializer: fills `SLOT_INFOS` and `VALUE_DIV32_TO_SLOT_INDEX` in
      one pass over the values 1..4096. The two fresh local arrays it fills, which
      nothing else can see until they are published, are sequences here. */
  method BuildSlotTables() returns (slotInfos: seq<SlotInfo>, valueDiv32ToSlotIndex: seq<nat>)
    ensures slotInfos == SLOT_INFOS
    ensures valueDiv32ToSlotIndex == ValueDiv32ToSlotIndex()
  {
    var breaks := BREAKS;
    slotInfos := seq(SLOT_LEN, _ => SlotInfo(0, 0, 0, 0));
    valueDiv32ToSlotIndex := seq(MAX_SLOT_VALUE / 32, _ => 0);
    slotInfos := slotInfos[0 := SlotInfo(-LONG_MAX, 0, 0, 0)];
    var index := 1;
    var from := 1;
    var i := 1;
    while true
      invariant 1 <= i <= MAX_SLOT_VALUE
      invariant |slotInfos| == SLOT_LEN && |valueDiv32ToSlotIndex| == MAX_SLOT_VALUE / 32
      invariant index == if i == 1 then 1 else SlotByBreaks(i - 1)
      invariant 1 <= index <= 8 && from == breaks[index - 1]
      invariant forall k | 0 <= k < index :: slotInfos[k] == SLOT_INFOS[k]
      invariant forall q | 0 <= q < (i + 30) / 32 :: valueDiv32ToSlotIndex[q] == SlotByBreaks(32 * q)
      decreases MAX_SLOT_VALUE - i
    {
      SlotByBreaksStep(i);
      if breaks[index] == i {
        MiddleSlotInfo(index);
        slotInfos := slotInfos[index := SlotInfo(from, i - 1, 0, 0)];
        index := index + 1;
        from := i;
      }
      if i == MAX_SLOT_VALUE {
        break;
      }
      SlotByBreaksBlock(i);
      valueDiv32ToSlotIndex := valueDiv32ToSlotIndex[i / 32 := index];
      i := i + 1;
    }
    slotInfos := slotInfos[SLOT_LEN - 1 := SlotInfo(from, LONG_MAX, 0, 0)];
  }

  // ---------------------------------------------------------------------------
  // The histogram as a value

  /** One `int` count per slot. */
  type SlotCounts = s: seq<Int32> | |s| == SLOT_LEN witness [0, 0, 0, 0, 0, 0, 0, 0, 0, 0]

  /** One `long` sum per slot. */
  type SlotSums = s: seq<Long> | |s| == SLOT_LEN witness [0, 0, 0, 0, 0, 0, 0, 0, 0, 0]

  /** Everything a histogram holds: per-slot counts and sums, min and max, and the
      time and trace recorded when the minimum last moved. */
  datatype HistogramValue = HistogramValue(
    counts: SlotCounts,
    sums: SlotSums,
    minValue: Long,
    maxValue: Long,
    timeReachingMaxValue: Long,
    stackReachingMaxValue: Option<string>)


  /** A new or cleared histogram. */
  function EmptyHistogram(): (h: HistogramValue)
  {
    HistogramValue([0, 0, 0, 0, 0, 0, 0, 0, 0, 0], [0, 0, 0, 0, 0, 0, 0, 0, 0, 0], LONG_MAX, LONG_MIN, 0, None)
  }

  /** `incr(value)` run on its own: the value's slot counts one more occurrence and
      adds the value to its sum; min and max follow the value; when the minimum moves,
      the time and trace are stamped. */
  function Recorded(h: HistogramValue, value: Long, now: Long, trace: string): (r: HistogramValue)
  {
    HistogramValue(
      h.counts[ValueToSlotIndex(value) := WrapInt(h.counts[ValueToSlotIndex(value)] as int + 1)],
      h.sums[ValueToSlotIndex(value) := WrapLong(h.sums[ValueToSlotIndex(value)] as int + value)],
      if value < h.minValue then value else h.minValue,
      if value > h.maxValue then value else h.maxValue,
      if value < h.minValue then now else h.timeReachingMaxValue,
      if value < h.minValue then Some(trace) else h.stackReachingMaxValue)
  }

  /** `incr(src)`: slot-wise sum of counts and sums; min, max, time and trace kept. */
  function Added(h: HistogramValue, src: HistogramValue): (r: HistogramValue)
    ensures r.minValue == h.minValue && r.maxValue == h.maxValue
    ensures r.timeReachingMaxValue == h.timeReachingMaxValue && r.stackReachingMaxValue == h.stackReachingMaxValue
  {
    HistogramValue(AddInts(h.counts, src.counts), AddLongs(h.sums, src.sums), h.minValue, h.maxValue, h.timeReachingMaxValue, h.stackReachingMaxValue)
  }

  /** Slot k of a merge holds the two slots' count and sum, each wrapped. */
  lemma AddedSlots(h: HistogramValue, src: HistogramValue)
    ensures forall k | 0 <= k < SLOT_LEN ::
      Added(h, src).counts[k] == WrapInt(h.counts[k] as int + src.counts[k]) &&
      Added(h, src).sums[k] == WrapLong(h.sums[k] as int + src.sums[k])
  {
  }

  /** `getCount()`: the total count over the slots, as an `int`. */
  function TotalCount(h: HistogramValue): Int32
  {
    WrapInt(Sum(h.counts))
  }

  /** `getSum()`: the total sum over the slots, as a `long`. */
  function TotalSum(h: HistogramValue): Long
  {
    WrapLong(Sum(h.sums))
  }

  /** Recording a value changes exactly the value's slot, by one occurrence and by the
      value; for 1 <= v < 4096 that slot k is the one with breaks[k-1] <= v < breaks[k]. */
  lemma RecordedTouchesOnlyItsSlot(h: HistogramValue, v: Long, now: Long, trace: string, k: nat)
    requires k < SLOT_LEN
    ensures var r := Recorded(h, v, now, trace);
      (r.counts[k] != h.counts[k] || r.sums[k] != h.sums[k]) ==> ValueToSlotIndex(v) == k
    ensures 1 <= v < MAX_SLOT_VALUE && ValueToSlotIndex(v) == k ==>
      BREAKS[k - 1] <= v < BREAKS[k]
  {
    if 1 <= v < MAX_SLOT_VALUE {
      ValueToSlotIndexBracket(v);
    }
  }

  /** Run on its own, `incr(v)` leaves the minimum at min(old minimum, v) and the
      maximum at max(old maximum, v); the time and the trace are restamped exactly
      when the minimum moves, and are otherwise kept. */
  lemma RecordedExtrema(h: HistogramValue, v: Long, now: Long, trace: string)
    ensures var r := Recorded(h, v, now, trace);
      r.minValue <= h.minValue && r.minValue <= v && (r.minValue == h.minValue || r.minValue == v) &&
      r.maxValue >= h.maxValue && r.maxValue >= v && (r.maxValue == h.maxValue || r.maxValue == v)
    ensures var r := Recorded(h, v, now, trace);
      (r.minValue < h.minValue ==> r.timeReachingMaxValue == now && r.stackReachingMaxValue == Some(trace)) &&
      (r.minValue == h.minValue ==> r.timeReachingMaxValue == h.timeReachingMaxValue && r.stackReachingMaxValue == h.stackReachingMaxValue)
  {
  }

  /** Merging a histogram into a structurally equal copy doubles every slot. */
  lemma AddedToItselfDoubles(h: HistogramValue)
    ensures forall i | 0 <= i < SLOT_LEN ::
      Added(h, h).counts[i] == WrapInt(2 * (h.counts[i] as int)) && Added(h, h).sums[i] == WrapLong(2 * (h.sums[i] as int))
  {
    AddedSlots(h, h);
  }

  /** Recording one value raises the total count by one. */
  lemma TotalCountRecorded(h: HistogramValue, v: Long, now: Long, trace: string)
    ensures TotalCount(Recorded(h, v, now, trace)) == WrapInt(TotalCount(h) as int + 1)
    ensures TotalSum(Recorded(h, v, now, trace)) == WrapLong(TotalSum(h) as int + v)
  {
    var k := ValueToSlotIndex(v);
    var r := Recorded(h, v, now, trace);
    SumUpdate(h.counts, k, WrapInt(h.counts[k] as int + 1));
    WrapIntCongruent(Sum(h.counts) - h.counts[k] + WrapInt(h.counts[k] as int + 1), Sum(h.counts) + 1);
    WrapIntAdd(Sum(h.counts), 1);
    SumUpdate(h.sums, k, WrapLong(h.sums[k] as int + v));
    WrapLongCongruent(Sum(h.sums) - h.sums[k] + WrapLong(h.sums[k] as int + v), Sum(h.sums) + v);
    WrapLongAdd(Sum(h.sums), v);
  }

  /** Merging histograms adds their total counts. */
  lemma TotalCountAdded(h: HistogramValue, src: HistogramValue)
    ensures TotalCount(Added(h, src)) == WrapInt(TotalCount(h) as int + TotalCount(src))
  {
    var r := Added(h, src);
    var exact := seq(SLOT_LEN, i requires 0 <= i < SLOT_LEN => h.counts[i] as int + src.counts[i]);
    SumPointwise(h.counts, src.counts, exact);
    WrapIntSum(r.counts, exact);
    WrapIntAdd(Sum(h.counts), Sum(src.counts));
    WrapIntAdd(TotalCount(h), Sum(src.counts));
  }

  /** Merging histograms adds their total sums. */
  lemma TotalSumAdded(h: HistogramValue, src: HistogramValue)
    ensures TotalSum(Added(h, src)) == WrapLong(TotalSum(h) as int + TotalSum(src))
  {
    var r := Added(h, src);
    var exact := seq(SLOT_LEN, i requires 0 <= i < SLOT_LEN => h.sums[i] as int + src.sums[i]);
    SumPointwise(h.sums, src.sums, exact);
    WrapLongSum(r.sums, exact);
    WrapLongAdd(Sum(h.sums), Sum(src.sums));
    WrapLongAdd(TotalSum(h), Sum(src.sums));
  }

  // ---------------------------------------------------------------------------
  // Recording a sequence of values, one after another

  /** The histogram after `incr(vs[0])`, ..., `incr(vs[|vs|-1])`, all at time `now`. */
  function RecordedAll(h: HistogramValue, vs: seq<Long>, now: Long, trace: string): (r: HistogramValue)
    decreases |vs|
  {
    if |vs| == 0 then h else Recorded(RecordedAll(h, vs[..|vs| - 1], now, trace), vs[|vs| - 1], now, trace)
  }

  /** How many of `vs` fall into slot k. */
  function CountInSlot(vs: seq<Long>, k: nat): nat
  {
    if |vs| == 0 then 0
    else CountInSlot(vs[..|vs| - 1], k) + (if ValueToSlotIndex(vs[|vs| - 1]) == k then 1 else 0)
  }

  /** The exact sum of those of `vs` that fall into slot k. */
  function SumInSlot(vs: seq<Long>, k: nat): int
  {
    if |vs| == 0 then 0
    else SumInSlot(vs[..|vs| - 1], k) + (if ValueToSlotIndex(vs[|vs| - 1]) == k then vs[|vs| - 1] else 0)
  }

  function MinOf(vs: seq<Long>): Long
    requires |vs| > 0
  {
    if |vs| == 1 then vs[0]
    else var m := MinOf(vs[..|vs| - 1]); if vs[|vs| - 1] < m then vs[|vs| - 1] else m
  }

  function MaxOf(vs: seq<Long>): Long
    requires |vs| > 0
  {
    if |vs| == 1 then vs[0]
    else var m := MaxOf(vs[..|vs| - 1]); if vs[|vs| - 1] > m then vs[|vs| - 1] else m
  }

  /** Recording values one after another into an empty histogram leaves in slot k
      the number of values that fall into it and their sum (as `int` and `long`). */
  lemma {:induction false} RecordedAllSlot(vs: seq<Long>, now: Long, trace: string, k: nat)
    requires k < SLOT_LEN
    ensures RecordedAll(EmptyHistogram(), vs, now, trace).counts[k] == WrapInt(CountInSlot(vs, k))
    ensures RecordedAll(EmptyHistogram(), vs, now, trace).sums[k] == WrapLong(SumInSlot(vs, k))
    decreases |vs|
  {
    if |vs| > 0 {
      var n := |vs| - 1;
      RecordedAllSlot(vs[..n], now, trace, k);
      WrapIntAdd(CountInSlot(vs[..n], k), 1);
      WrapLongAdd(SumInSlot(vs[..n], k), vs[n]);
    } else {
      WrapIntInRange(0);
      WrapLongInRange(0);
    }
  }

  /** Recording values one after another into an empty histogram leaves min and max
      equal to the smallest and the largest value. */
  lemma {:induction false} RecordedAllMinMax(vs: seq<Long>, now: Long, trace: string)
    requires |vs| > 0
    ensures RecordedAll(EmptyHistogram(), vs, now, trace).minValue == MinOf(vs)
    ensures RecordedAll(EmptyHistogram(), vs, now, trace).maxValue == MaxOf(vs)
    decreases |vs|
  {
    if |vs| > 1 {
      RecordedAllMinMax(vs[..|vs| - 1], now, trace);
    } else {
      assert vs[..0] == [];
    }
  }

  /** The sequential form of "N*M increments of v": recording the same value n times
      into an empty histogram counts n in its slot and n*v in its sum, and nothing
      elsewhere. */
  lemma RecordedSameValue(v: Long, n: nat, now: Long, trace: string)
    ensures var r := RecordedAll(EmptyHistogram(), Repeat(v, n), now, trace);
      var k := ValueToSlotIndex(v);
      r.counts[k] == WrapInt(n) && r.sums[k] == WrapLong(n * v) &&
      forall j | 0 <= j < SLOT_LEN && j != k :: r.counts[j] == 0 && r.sums[j] == 0
  {
    SameValueSlots(v, n);
    WrapIntInRange(0);
    WrapLongInRange(0);
    forall j | 0 <= j < SLOT_LEN {
      RecordedAllSlot(Repeat(v, n), now, trace, j);
    }
  }

  /** n copies of v. */
  function Repeat(v: Long, n: nat): (vs: seq<Long>)
    ensures |vs| == n && forall i | 0 <= i < n :: vs[i] == v
  {
    seq(n, _ => v)
  }

  lemma {:induction false} SameValueSlots(v: Long, n: nat)
    ensures forall k | 0 <= k < SLOT_LEN ::
      CountInSlot(Repeat(v, n), k) == (if k == ValueToSlotIndex(v) then n else 0) &&
      SumInSlot(Repeat(v, n), k) == (if k == ValueToSlotIndex(v) then n * v else 0)
  {
    if n > 0 {
      SameValueSlots(v, n - 1);
      assert Repeat(v, n)[..n - 1] == Repeat(v, n - 1);
    }
  }

  // ---------------------------------------------------------------------------
  // The histogram object

  /** Bounds error of `getSlotInfoCopyAt`. */
  datatype IndexError = ArrayIndexOutOfBounds

  class LongStatsHistogram {
    const countSlots: array<Int32>
    const sumSlots: array<Long>
    var minValue: Long
    var maxValue: Long
    var timeReachingMaxValue: Long
    var stackReachingMaxValue: Option<string>

    /** The objects this histogram consists of. */
    function Repr(): set<object>
    {
      {this, countSlots, sumSlots}
    }

    ghost predicate Valid()
    {
      countSlots.Length == SLOT_LEN && sumSlots.Length == SLOT_LEN && countSlots as object != sumSlots
    }

    /** The value the histogram currently holds. */
    function Value(): (h: HistogramValue)
      requires Valid()
      reads this, countSlots, sumSlots
    {
      HistogramValue(countSlots[..], sumSlots[..], minValue, maxValue, timeReachingMaxValue, stackReachingMaxValue)
    }

    constructor ()
      ensures Valid() && fresh(countSlots) && fresh(sumSlots)
      ensures Value() == EmptyHistogram()
    {
      countSlots := new Int32[SLOT_LEN](_ => 0);
      sumSlots := new Long[SLOT_LEN](_ => 0);
      minValue := LONG_MAX;
      maxValue := LONG_MIN;
      timeReachingMaxValue := 0;
      stackReachingMaxValue := None;
    }

    /** `new LongStatsHistogram(src)`. */
    constructor Copy(src: LongStatsHistogram)
      requires src.Valid()
      ensures Valid() && fresh(countSlots) && fresh(sumSlots)
      ensures Value() == old(src.Value())
    {
      countSlots := new Int32[SLOT_LEN](_ => 0);
      sumSlots := new Long[SLOT_LEN](_ => 0);
      minValue := LONG_MAX;
      maxValue := LONG_MIN;
      new;
      Set(src);
    }

    /** `getCount(index)`; the Java method asserts the index is in range. */
    function CountAt(index: int): (r: Int32)
      requires Valid() && 0 <= index < SLOT_LEN
      reads this, countSlots, sumSlots
      ensures r == Value().counts[index]
    {
      countSlots[index]
    }

    /** `getSum(index)`; the Java method asserts the index is in range. */
    function SumAt(index: int): (r: Long)
      requires Valid() && 0 <= index < SLOT_LEN
      reads this, countSlots, sumSlots
      ensures r == Value().sums[index]
    {
      sumSlots[index]
    }

    method Clear()
      requires Valid()
      modifies Repr()
      ensures Valid() && Value() == EmptyHistogram()
    {
      for i := 0 to SLOT_LEN
        invariant forall j | 0 <= j < i :: countSlots[j] == 0 && sumSlots[j] == 0
      {
        countSlots[i] := 0;
        sumSlots[i] := 0;
      }
      minValue := LONG_MAX;
      maxValue := LONG_MIN;
      timeReachingMaxValue := 0;
      stackReachingMaxValue := None;
    }

    /** `incr(value)`, with the wall-clock time and the capture-site trace passed in.
        Each compare-and-swap is a plain write here (one thread). */
    method Incr(value: Long, now: Long, trace: string)
      requires Valid()
      modifies Repr()
      ensures Valid() && Value() == Recorded(old(Value()), value, now, trace)
    {
      var index := ValueToSlotIndex(value);
      countSlots[index] := WrapInt(countSlots[index] as int + 1);
      sumSlots[index] := WrapLong(sumSlots[index] as int + value);

      var prevMin := minValue;
      if value < prevMin {
        minValue := value;
        timeReachingMaxValue := now;
        stackReachingMaxValue := Some(trace);
      }
      var prevMax := maxValue;
      if value > prevMax {
        maxValue := value;
      }
    }

    /** `incr(LongStatsHistogram src)`: adds src's slots; src may be this histogram. */
    method IncrFrom(src: LongStatsHistogram)
      requires Valid() && src.Valid()
      modifies countSlots, sumSlots
      ensures Valid() && Value() == Added(old(Value()), old(src.Value()))
    {
      ghost var h0, s0 := Value(), src.Value();
      for i := 0 to SLOT_LEN
        invariant forall j | 0 <= j < i ::
          countSlots[j] == WrapInt(h0.counts[j] as int + s0.counts[j]) &&
          sumSlots[j] == WrapLong(h0.sums[j] as int + s0.sums[j])
        invariant forall j | i <= j < SLOT_LEN ::
          countSlots[j] == h0.counts[j] && sumSlots[j] == h0.sums[j] &&
          src.countSlots[j] == s0.counts[j] && src.sumSlots[j] == s0.sums[j]
      {
        var c := src.countSlots[i];
        var s := src.sumSlots[i];
        countSlots[i] := WrapInt(countSlots[i] as int + c);
        sumSlots[i] := WrapLong(sumSlots[i] as int + s);
      }
      AddedSlots(h0, s0);
      assert countSlots[..] == Added(h0, s0).counts;
      assert sumSlots[..] == Added(h0, s0).sums;
    }

    /** `set(src)`: every field becomes src's; src may be this histogram. */
    method Set(src: LongStatsHistogram)
      requires Valid() && src.Valid()
      modifies Repr()
      ensures Valid() && Value() == old(src.Value())
    {
      ghost var s0 := src.Value();
      for i := 0 to SLOT_LEN
        invariant forall j | 0 <= j < i ::
          countSlots[j] == s0.counts[j] && sumSlots[j] == s0.sums[j]
        invariant forall j | i <= j < SLOT_LEN ::
          src.countSlots[j] == s0.counts[j] && src.sumSlots[j] == s0.sums[j]
        invariant src.minValue == s0.minValue && src.maxValue == s0.maxValue
        invariant src.timeReachingMaxValue == s0.timeReachingMaxValue
        invariant src.stackReachingMaxValue == s0.stackReachingMaxValue
      {
        var c := src.countSlots[i];
        var s := src.sumSlots[i];
        countSlots[i] := c;
        sumSlots[i] := s;
      }
      minValue := src.minValue;
      maxValue := src.maxValue;
      timeReachingMaxValue := src.timeReachingMaxValue;
      stackReachingMaxValue := src.stackReachingMaxValue;
    }

    /** `copy()`: a new histogram holding the same value. */
    method Copied() returns (r: LongStatsHistogram)
      requires Valid()
      ensures r.Valid() && fresh(r.Repr())
      ensures r.Value() == Value()
    {
      r := new LongStatsHistogram.Copy(this);
    }

    /** `getSum()`: the `long` sum of the ten slot sums. */
    method GetSum() returns (res: Long)
      requires Valid()
      ensures res == TotalSum(Value())
    {
      res := 0;
      for i := 0 to SLOT_LEN
        invariant res == WrapLong(Sum(sumSlots[..i]))
      {
        assert sumSlots[..i + 1][..i] == sumSlots[..i];
        WrapLongAdd(Sum(sumSlots[..i]), sumSlots[i]);
        res := WrapLong(res as int + sumSlots[i]);
      }
      assert sumSlots[..SLOT_LEN] == sumSlots[..];
    }

    /** `getCount()`: the `int` sum of the ten slot counts. */
    method GetCount() returns (res: Int32)
      requires Valid()
      ensures res == TotalCount(Value())
    {
      res := 0;
      for i := 0 to SLOT_LEN
        invariant res == WrapInt(Sum(countSlots[..i]))
      {
        assert countSlots[..i + 1][..i] == countSlots[..i];
        WrapIntAdd(Sum(countSlots[..i]), countSlots[i]);
        res := WrapInt(res as int + countSlots[i]);
      }
      assert countSlots[..SLOT_LEN] == countSlots[..];
    }

    /** `getSlotInfoCopy()`: the static range of each slot with its current count and sum. */
    method GetSlotInfoCopy() returns (res: array<SlotInfo>)
      requires Valid()
      ensures fresh(res) && res.Length == SLOT_LEN
      ensures forall i | 0 <= i < SLOT_LEN ::
        res[i] == SlotInfo(SLOT_INFOS[i].from, SLOT_INFOS[i].to, Value().counts[i], Value().sums[i])
    {
      res := new SlotInfo[SLOT_LEN](_ => SlotInfo(0, 0, 0, 0));
      for i := 0 to SLOT_LEN
        invariant forall j | 0 <= j < i ::
          res[j] == SlotInfo(SLOT_INFOS[j].from, SLOT_INFOS[j].to, countSlots[j], sumSlots[j])
      {
        var slotInfo := SLOT_INFOS[i];
        res[i] := SlotInfo(slotInfo.from, slotInfo.to, countSlots[i], sumSlots[i]);
      }
    }

    /** `getSlotInfoCopyAt(i)`: slot i's range, count and sum; out of range indexes
        raise ArrayIndexOutOfBoundsException. */
    function GetSlotInfoCopyAt(i: Int32): (r: Result<SlotInfo, IndexError>)
      requires Valid()
      reads Repr()
      ensures r.Success? <==> 0 <= i < SLOT_LEN
      ensures r.Success? ==> r.value.count == Value().counts[i] && r.value.sum == Value().sums[i]
      ensures r.Success? ==> r.value.from == SLOT_INFOS[i].from && r.value.to == SLOT_INFOS[i].to
    {
      if i < 0 || i >= SLOT_LEN as int then Failure(ArrayIndexOutOfBounds)
      else Success(SlotInfo(SLOT_INFOS[i].from, SLOT_INFOS[i].to, countSlots[i], sumSlots[i]))
    }

    /** `compareHasChangeCount(cmp)`: some slot count differs. */
    method CompareHasChangeCount(cmp: LongStatsHistogram) returns (changed: bool)
      requires Valid() && cmp.Valid()
      ensures changed <==> exists i | 0 <= i < SLOT_LEN :: Value().counts[i] != cmp.Value().counts[i]
    {
      for i := 0 to SLOT_LEN
        invariant forall j | 0 <= j < i :: countSlots[j] == cmp.countSlots[j]
      {
        if countSlots[i] != cmp.countSlots[i] {
          assert Value().counts[i] != cmp.Value().counts[i];
          return true;
        }
      }
      return false;
    }
  }
}
