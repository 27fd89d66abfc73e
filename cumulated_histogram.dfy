/** CumulatedLongStatsHistogramDTO: the export view of a histogram. Slot i holds the
    running total of the counts of slots 0..i, and the running total of the slot
    sums of 0..i converted from nanoseconds to milliseconds, so slot 9 holds the
    overall totals. */
module CumulatedHistogram {
  import opened JavaInts
  import opened Options
  import opened Histogram

  /** The two cumulated arrays of a DTO. */
  datatype CumulatedValue = CumulatedValue(counts: SlotCounts, sums: SlotSums)


  /** A new DTO: all zero. */
  function EmptyCumulated(): (c: CumulatedValue)
  {
    CumulatedValue([0, 0, 0, 0, 0, 0, 0, 0, 0, 0], [0, 0, 0, 0, 0, 0, 0, 0, 0, 0])
  }

  /** The slot sums converted with the unit conversion `toMillis`. */
  function Millis(sums: seq<Long>, toMillis: Long -> Long): (m: seq<Long>)
    ensures |m| == |sums| && forall i | 0 <= i < |sums| :: m[i] == toMillis(sums[i])
  {
    seq(|sums|, i requires 0 <= i < |sums| => toMillis(sums[i]))
  }

  /** The cumulated view of a histogram: entry i is the wrapped total of slots 0..i. */
  function CumulatedOf(h: HistogramValue, toMillis: Long -> Long): (c: CumulatedValue)
  {
    CumulatedValue(
      seq(SLOT_LEN, i requires 0 <= i < SLOT_LEN => WrapInt(Sum(h.counts[..i + 1]))),
      seq(SLOT_LEN, i requires 0 <= i < SLOT_LEN => WrapLong(Sum(Millis(h.sums, toMillis)[..i + 1]))))
  }

  /** `incr(CumulatedLongStatsHistogramDTO)`: element-wise sum of both arrays. */
  function CumulatedAdded(c: CumulatedValue, src: CumulatedValue): (r: CumulatedValue)
  {
    CumulatedValue(AddInts(c.counts, src.counts), AddLongs(c.sums, src.sums))
  }

  /** Entry k of a merge holds the two entries' count and sum, each wrapped. */
  lemma CumulatedAddedSlots(c: CumulatedValue, src: CumulatedValue)
    ensures forall k | 0 <= k < SLOT_LEN ::
      CumulatedAdded(c, src).counts[k] == WrapInt(c.counts[k] as int + src.counts[k]) &&
      CumulatedAdded(c, src).sums[k] == WrapLong(c.sums[k] as int + src.sums[k])
  {
  }

  lemma PrefixSumStep(s: seq<int>, i: nat)
    requires 0 < i < |s|
    ensures Sum(s[..i + 1]) == Sum(s[..i]) + s[i]
  {
    assert s[..i + 1][..i] == s[..i];
  }

  /** The recurrence the class comment gives: cumulated[0] = count[0] and
      cumulated[i] = count[i] + cumulated[i-1], for counts and for converted sums. */
  lemma CumulatedRecurrence(h: HistogramValue, toMillis: Long -> Long, i: nat)
    requires i < SLOT_LEN
    ensures var c := CumulatedOf(h, toMillis);
      i == 0 ==> c.counts[0] == h.counts[0] && c.sums[0] == toMillis(h.sums[0])
    ensures var c := CumulatedOf(h, toMillis);
      i > 0 ==>
        c.counts[i] == WrapInt(c.counts[i - 1] as int + h.counts[i]) &&
        c.sums[i] == WrapLong(c.sums[i - 1] as int + toMillis(h.sums[i]))
  {
    var m := Millis(h.sums, toMillis);
    if i == 0 {
      assert h.counts[..1][..0] == [] && m[..1][..0] == [];
      assert Sum(h.counts[..1]) == Sum(h.counts[..1][..0]) + h.counts[..1][0];
      assert Sum(m[..1]) == Sum(m[..1][..0]) + m[..1][0];
      assert Sum(h.counts[..1]) == h.counts[0] && Sum(m[..1]) == m[0];
      assert CumulatedOf(h, toMillis).counts[0] == WrapInt(Sum(h.counts[..1]));
      assert CumulatedOf(h, toMillis).sums[0] == WrapLong(Sum(m[..1]));
    } else {
      var c := CumulatedOf(h, toMillis);
      CumulatedAt(h, toMillis, i);
      CumulatedAt(h, toMillis, i - 1);
      calc {
        c.counts[i];
        WrapInt(Sum(h.counts[..i + 1]));
        { PrefixSumStep(h.counts, i); }
        WrapInt(Sum(h.counts[..i]) + h.counts[i]);
        { WrapIntAdd(Sum(h.counts[..i]), h.counts[i]); }
        WrapInt(c.counts[i - 1] as int + h.counts[i]);
      }
      calc {
        c.sums[i];
        WrapLong(Sum(m[..i + 1]));
        { PrefixSumStep(m, i); }
        WrapLong(Sum(m[..i]) + m[i]);
        { WrapLongAdd(Sum(m[..i]), m[i]); }
        WrapLong(c.sums[i - 1] as int + toMillis(h.sums[i]));
      }
    }
  }

  /** Entry i of the cumulated view, unfolded. */
  lemma CumulatedAt(h: HistogramValue, toMillis: Long -> Long, i: nat)
    requires i < SLOT_LEN
    ensures CumulatedOf(h, toMillis).counts[i] == WrapInt(Sum(h.counts[..i + 1]))
    ensures CumulatedOf(h, toMillis).sums[i] == WrapLong(Sum(Millis(h.sums, toMillis)[..i + 1]))
  {
  }

  /** The last cumulated entry is the histogram's `getCount()`, and the converted
      sum over all slots. */
  lemma CumulatedTotals(h: HistogramValue, toMillis: Long -> Long)
    ensures CumulatedOf(h, toMillis).counts[SLOT_LEN - 1] == TotalCount(h)
    ensures CumulatedOf(h, toMillis).sums[SLOT_LEN - 1] == WrapLong(Sum(Millis(h.sums, toMillis)))
  {
    assert h.counts[..SLOT_LEN] == h.counts;
    assert Millis(h.sums, toMillis)[..SLOT_LEN] == Millis(h.sums, toMillis);
  }

  /** Without conversion (`toMillis` the identity), the last cumulated sum is the
      histogram's `getSum()`. */
  lemma CumulatedTotalSumIdentity(h: HistogramValue)
    ensures CumulatedOf(h, x => x).sums[SLOT_LEN - 1] == TotalSum(h)
  {
    CumulatedTotals(h, x => x);
    assert Millis(h.sums, x => x) == h.sums;
  }

  /** `compareHasChangeCount`: only the two total counts are compared. */
  predicate ChangedCount(c: CumulatedValue, cmp: CumulatedValue)
  {
    c.counts[SLOT_LEN - 1] != cmp.counts[SLOT_LEN - 1]
  }

  /** The comparison is a heuristic: two DTOs whose slots differ but whose totals
      agree compare as unchanged. */
  lemma ChangedCountIsHeuristic()
    ensures var a := CumulatedValue([1, 1, 1, 1, 1, 1, 1, 1, 1, 2], seq(SLOT_LEN, _ => 0));
      var b := CumulatedValue([0, 0, 0, 0, 0, 0, 0, 0, 0, 2], seq(SLOT_LEN, _ => 0));
      a != b && !ChangedCount(a, b)
  {
    var a := CumulatedValue([1, 1, 1, 1, 1, 1, 1, 1, 1, 2], seq(SLOT_LEN, _ => 0));
    var b := CumulatedValue([0, 0, 0, 0, 0, 0, 0, 0, 0, 2], seq(SLOT_LEN, _ => 0));
    assert a.counts[0] != b.counts[0];
  }

  /** Merging two cumulated views of histograms is the cumulated view of their merge:
      prefix sums distribute over the slot-wise sum (for counts). */
  lemma CumulatedOfAdded(h: HistogramValue, src: HistogramValue, toMillis: Long -> Long)
    ensures CumulatedAdded(CumulatedOf(h, toMillis), CumulatedOf(src, toMillis)).counts ==
      CumulatedOf(Added(h, src), toMillis).counts
  {
    var c1, c2 := CumulatedOf(h, toMillis), CumulatedOf(src, toMillis);
    var r := Added(h, src);
    var c3 := CumulatedOf(r, toMillis);
    var lhs := CumulatedAdded(c1, c2);
    AddedSlots(h, src);
    CumulatedAddedSlots(c1, c2);
    forall i | 0 <= i < SLOT_LEN
      ensures lhs.counts[i] == c3.counts[i]
    {
      PrefixOfAdded(h.counts, src.counts, r.counts, i + 1);
      assert lhs.counts[i] == WrapInt(c1.counts[i] as int + c2.counts[i]);
      assert c1.counts[i] == WrapInt(Sum(h.counts[..i + 1]));
      assert c2.counts[i] == WrapInt(Sum(src.counts[..i + 1]));
      assert c3.counts[i] == WrapInt(Sum(r.counts[..i + 1]));
    }
  }

  /** The wrapped total of a prefix of a slot-wise wrapped sum is the wrapped sum of
      the two wrapped prefix totals. */
  lemma PrefixOfAdded(a: seq<Int32>, b: seq<Int32>, w: seq<Int32>, n: nat)
    requires |a| == |b| == |w| && n <= |w|
    requires forall j | 0 <= j < |w| :: w[j] == WrapInt(a[j] as int + b[j])
    ensures WrapInt(WrapInt(Sum(a[..n])) as int + WrapInt(Sum(b[..n]))) == WrapInt(Sum(w[..n]))
  {
    var sa, sb := Sum(a[..n]), Sum(b[..n]);
    var e := seq(n, j requires 0 <= j < n => a[j] as int + b[j]);
    SumPointwise(a[..n], b[..n], e);
    WrapIntSum(w[..n], e);
    WrapIntAdd(sa, sb);
    WrapIntAdd(WrapInt(sa), sb);
  }

  class CumulatedLongStatsHistogramDTO {
    const cumulatedCountSlots: array<Int32>
    const cumulatedSumSlots: array<Long>

    function Repr(): set<object>
    {
      {this, cumulatedCountSlots, cumulatedSumSlots}
    }

    ghost predicate Valid()
    {
      cumulatedCountSlots.Length == SLOT_LEN && cumulatedSumSlots.Length == SLOT_LEN
    }

    function Value(): (c: CumulatedValue)
      requires Valid()
      reads cumulatedCountSlots, cumulatedSumSlots
    {
      CumulatedValue(cumulatedCountSlots[..], cumulatedSumSlots[..])
    }

    constructor ()
      ensures Valid() && fresh(cumulatedCountSlots) && fresh(cumulatedSumSlots)
      ensures Value() == EmptyCumulated()
    {
      cumulatedCountSlots := new Int32[SLOT_LEN](_ => 0);
      cumulatedSumSlots := new Long[SLOT_LEN](_ => 0);
    }

    /** `new CumulatedLongStatsHistogramDTO(src)`. */
    constructor Copy(src: CumulatedLongStatsHistogramDTO)
      requires src.Valid()
      ensures Valid() && fresh(cumulatedCountSlots) && fresh(cumulatedSumSlots)
      ensures Value() == old(src.Value())
    {
      cumulatedCountSlots := new Int32[SLOT_LEN](_ => 0);
      cumulatedSumSlots := new Long[SLOT_LEN](_ => 0);
      new;
      Set(src);
    }

    /** `new CumulatedLongStatsHistogramDTO(LongStatsHistogram src)`. */
    constructor FromHistogram(src: LongStatsHistogram, toMillis: Long -> Long)
      requires src.Valid()
      ensures Valid() && fresh(cumulatedCountSlots) && fresh(cumulatedSumSlots)
      ensures Value() == CumulatedOf(old(src.Value()), toMillis)
    {
      cumulatedCountSlots := new Int32[SLOT_LEN](_ => 0);
      cumulatedSumSlots := new Long[SLOT_LEN](_ => 0);
      new;
      IncrFromHistogram(src, toMillis);
    }

    /** `totalSum()`: the last cumulated sum. */
    function TotalSum(): (r: Long)
      requires Valid()
      reads cumulatedCountSlots, cumulatedSumSlots
      ensures r == Value().sums[SLOT_LEN - 1]
    {
      cumulatedSumSlots[SLOT_LEN - 1]
    }

    /** `totalCount()`: the last cumulated count. */
    function TotalCount(): (r: Int32)
      requires Valid()
      reads cumulatedCountSlots, cumulatedSumSlots
      ensures r == Value().counts[SLOT_LEN - 1]
    {
      cumulatedCountSlots[SLOT_LEN - 1]
    }

    /** A DTO holding the cumulated view of a histogram reports, as its totals, the
        histogram's `getCount()` and the converted sum over all its slots. */
    lemma TotalsOfHistogram(h: HistogramValue, toMillis: Long -> Long)
      requires Valid() && Value() == CumulatedOf(h, toMillis)
      ensures TotalCount() == Histogram.TotalCount(h)
      ensures TotalSum() == WrapLong(Sum(Millis(h.sums, toMillis)))
    {
      CumulatedTotals(h, toMillis);
    }

    /** `cumulatedCountAt(i)`; an index outside the array raises
        ArrayIndexOutOfBoundsException. */
    function CumulatedCountAt(i: Int32): (r: Result<Int32, IndexError>)
      requires Valid()
      reads cumulatedCountSlots
      ensures r.Success? <==> 0 <= i < SLOT_LEN
      ensures r.Success? ==> r.value == Value().counts[i]
    {
      if 0 <= i < cumulatedCountSlots.Length then Success(cumulatedCountSlots[i]) else Failure(ArrayIndexOutOfBounds)
    }

    /** `cumulatedSumAt(i)`; an index outside the array raises
        ArrayIndexOutOfBoundsException. */
    function CumulatedSumAt(i: Int32): (r: Result<Long, IndexError>)
      requires Valid()
      reads cumulatedSumSlots
      ensures r.Success? <==> 0 <= i < SLOT_LEN
      ensures r.Success? ==> r.value == Value().sums[i]
    {
      if 0 <= i < cumulatedSumSlots.Length then Success(cumulatedSumSlots[i]) else Failure(ArrayIndexOutOfBounds)
    }

    /** `incr(LongStatsHistogram src)`: the arrays are overwritten with the running
        totals of src; what they held before is lost. */
    method IncrFromHistogram(src: LongStatsHistogram, toMillis: Long -> Long)
      requires Valid() && src.Valid() && src.Repr() !! Repr()
      modifies cumulatedCountSlots, cumulatedSumSlots
      ensures Valid() && Value() == CumulatedOf(old(src.Value()), toMillis)
    {
      ghost var h := src.Value();
      ghost var target := CumulatedOf(h, toMillis);
      var cumulCount: Int32 := 0;
      var cumulSum: Long := 0;
      for i := 0 to SLOT_LEN
        invariant i == 0 ==> cumulCount == 0 && cumulSum == 0
        invariant i > 0 ==> cumulCount == target.counts[i - 1] && cumulSum == target.sums[i - 1]
        invariant forall j | 0 <= j < i ::
          cumulatedCountSlots[j] == target.counts[j] && cumulatedSumSlots[j] == target.sums[j]
      {
        CumulatedRecurrence(h, toMillis, i);
        var c := src.countSlots[i];
        var s := src.sumSlots[i];
        cumulCount := WrapInt(cumulCount as int + c);
        cumulSum := WrapLong(cumulSum as int + toMillis(s));
        cumulatedCountSlots[i] := cumulCount;
        cumulatedSumSlots[i] := cumulSum;
      }
      assert cumulatedCountSlots[..] == target.counts;
      assert cumulatedSumSlots[..] == target.sums;
    }

    /** `incr(CumulatedLongStatsHistogramDTO src)`: element-wise sum; src may be this. */
    method IncrDto(src: CumulatedLongStatsHistogramDTO)
      requires Valid() && src.Valid()
      modifies cumulatedCountSlots, cumulatedSumSlots
      ensures Valid() && Value() == CumulatedAdded(old(Value()), old(src.Value()))
    {
      ghost var c0, s0 := Value(), src.Value();
      for i := 0 to SLOT_LEN
        invariant forall j | 0 <= j < i ::
          cumulatedCountSlots[j] == WrapInt(c0.counts[j] as int + s0.counts[j]) &&
          cumulatedSumSlots[j] == WrapLong(c0.sums[j] as int + s0.sums[j])
        invariant forall j | i <= j < SLOT_LEN ::
          cumulatedCountSlots[j] == c0.counts[j] && cumulatedSumSlots[j] == c0.sums[j] &&
          src.cumulatedCountSlots[j] == s0.counts[j] && src.cumulatedSumSlots[j] == s0.sums[j]
      {
        var c := src.cumulatedCountSlots[i];
        var s := src.cumulatedSumSlots[i];
        cumulatedCountSlots[i] := WrapInt(cumulatedCountSlots[i] as int + c);
        cumulatedSumSlots[i] := WrapLong(cumulatedSumSlots[i] as int + s);
      }
      CumulatedAddedSlots(c0, s0);
      assert cumulatedCountSlots[..] == CumulatedAdded(c0, s0).counts;
      assert cumulatedSumSlots[..] == CumulatedAdded(c0, s0).sums;
    }

    /** `set(src)`: both arrays copied from src. */
    method Set(src: CumulatedLongStatsHistogramDTO)
      requires Valid() && src.Valid()
      modifies cumulatedCountSlots, cumulatedSumSlots
      ensures Valid() && Value() == old(src.Value())
    {
      ghost var s0 := src.Value();
      for i := 0 to SLOT_LEN
        invariant forall j | 0 <= j < i ::
          cumulatedCountSlots[j] == s0.counts[j] && cumulatedSumSlots[j] == s0.sums[j]
        invariant forall j | i <= j < SLOT_LEN ::
          src.cumulatedCountSlots[j] == s0.counts[j] && src.cumulatedSumSlots[j] == s0.sums[j]
      {
        var c := src.cumulatedCountSlots[i];
        var s := src.cumulatedSumSlots[i];
        cumulatedCountSlots[i] := c;
        cumulatedSumSlots[i] := s;
      }
    }

    /** `copy()`. */
    method Copied() returns (r: CumulatedLongStatsHistogramDTO)
      requires Valid()
      ensures r.Valid() && fresh(r.Repr())
      ensures r.Value() == Value()
    {
      r := new CumulatedLongStatsHistogramDTO.Copy(this);
    }

    /** `compareHasChangeCount(cmp)`: compares the total counts only. */
    function CompareHasChangeCount(cmp: CumulatedLongStatsHistogramDTO): (r: bool)
      requires Valid() && cmp.Valid()
      reads cumulatedCountSlots, cumulatedSumSlots, cmp.cumulatedCountSlots, cmp.cumulatedSumSlots
      ensures r == ChangedCount(Value(), cmp.Value())
    {
      TotalCount() != cmp.TotalCount()
    }
  }
}
