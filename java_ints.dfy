/** Java's fixed-width integers: `int` (32 bits) and `long` (64 bits), with the
    silent two's-complement wrap-around of their `+`, `-`, unary `-` and `*`, and
    Java's division, which truncates toward zero. */
module JavaInts {

  const INT_MIN: int := -0x8000_0000
  const INT_MAX: int := 0x7fff_ffff
  const LONG_MIN: int := -0x8000_0000_0000_0000
  const LONG_MAX: int := 0x7fff_ffff_ffff_ffff

  const TWO_32: int := 0x1_0000_0000
  const TWO_64: int := 0x1_0000_0000_0000_0000

  /** A Java `int`. */
  type Int32 = x: int | INT_MIN <= x <= INT_MAX

  /** A Java `long`. */
  type Long = x: int | LONG_MIN <= x <= LONG_MAX

  /** The `int` that the exact value `x` wraps to. */
  function WrapInt(x: int): (r: Int32)
  {
    (x - INT_MIN) % TWO_32 + INT_MIN
  }

  /** An exact value already in the `int` range wraps to itself. */
  lemma WrapIntInRange(x: int)
    requires INT_MIN <= x <= INT_MAX
    ensures WrapInt(x) == x
  {
  }

  /** Wrapping changes a value by a multiple of 2^32. */
  lemma WrapIntDiff(x: int)
    ensures (x - WrapInt(x)) % TWO_32 == 0
  {
    var q := (x - INT_MIN) / TWO_32;
    assert x - WrapInt(x) == q * TWO_32;
  }

  /** The `long` that the exact value `x` wraps to. */
  function WrapLong(x: int): (r: Long)
  {
    (x - LONG_MIN) % TWO_64 + LONG_MIN
  }

  /** An exact value already in the `long` range wraps to itself. */
  lemma WrapLongInRange(x: int)
    requires LONG_MIN <= x <= LONG_MAX
    ensures WrapLong(x) == x
  {
  }

  /** Wrapping changes a value by a multiple of 2^64. */
  lemma WrapLongDiff(x: int)
    ensures (x - WrapLong(x)) % TWO_64 == 0
  {
    var q := (x - LONG_MIN) / TWO_64;
    assert x - WrapLong(x) == q * TWO_64;
  }

  /** Two exact values that differ by a multiple of 2^64 wrap to the same `long`. */
  lemma WrapLongCongruent(x: int, y: int)
    requires (x - y) % TWO_64 == 0
    ensures WrapLong(x) == WrapLong(y)
  {
    var k := (x - y) / TWO_64;
    assert x == y + k * TWO_64;
    var q, r := (y - LONG_MIN) / TWO_64, (y - LONG_MIN) % TWO_64;
    assert x - LONG_MIN == (q + k) * TWO_64 + r;
    assert (x - LONG_MIN) % TWO_64 == r;
  }

  /** Two exact values that differ by a multiple of 2^32 wrap to the same `int`. */
  lemma WrapIntCongruent(x: int, y: int)
    requires (x - y) % TWO_32 == 0
    ensures WrapInt(x) == WrapInt(y)
  {
    var k := (x - y) / TWO_32;
    assert x == y + k * TWO_32;
    var q, r := (y - INT_MIN) / TWO_32, (y - INT_MIN) % TWO_32;
    assert x - INT_MIN == (q + k) * TWO_32 + r;
    assert (x - INT_MIN) % TWO_32 == r;
  }

  /** Wrapping an intermediate result of a sum does not change the final `long`. */
  lemma WrapLongAdd(a: int, b: int)
    ensures WrapLong(WrapLong(a) + b) == WrapLong(a + b)
    ensures WrapLong(a + WrapLong(b)) == WrapLong(a + b)
  {
    WrapLongDiff(a);
    WrapLongDiff(b);
    WrapLongCongruent(WrapLong(a) + b, a + b);
    WrapLongCongruent(a + WrapLong(b), a + b);
  }

  /** Wrapping an intermediate result of a sum does not change the final `int`. */
  lemma WrapIntAdd(a: int, b: int)
    ensures WrapInt(WrapInt(a) + b) == WrapInt(a + b)
    ensures WrapInt(a + WrapInt(b)) == WrapInt(a + b)
  {
    WrapIntDiff(a);
    WrapIntDiff(b);
    WrapIntCongruent(WrapInt(a) + b, a + b);
    WrapIntCongruent(a + WrapInt(b), a + b);
  }

  /** Java `a / b` on exact values: the quotient truncated toward zero. */
  function TruncDiv(a: int, b: int): (q: int)
    requires b != 0
    ensures (a >= 0) == (b > 0) || a == 0 ==> q >= 0
    ensures -(if b < 0 then -b else b) < a - q * b < (if b < 0 then -b else b)
  {
    var ua := if a < 0 then -a else a;
    var ub := if b < 0 then -b else b;
    var uq := ua / ub;
    if (a < 0) == (b < 0) then uq else -uq
  }

  /** Multiplying by a positive factor does not make a whole number smaller. */
  lemma {:induction false} MulAtLeast(q: nat, d: int)
    requires d >= 1
    ensures q * d >= q
    decreases d
  {
    if d > 1 {
      MulAtLeast(q, d - 1);
      assert q * d == q * (d - 1) + q;
    }
  }

  /** A whole number divided by a positive divisor is no larger than itself. */
  lemma DivAtMost(n: nat, d: int)
    requires d >= 1
    ensures n / d <= n
  {
    var q, r := n / d, n % d;
    assert n == d * q + r && 0 <= r;
    if q > 0 {
      MulAtLeast(q, d);
      assert d * q == q * d;
    }
  }

  /** Dividing a `long` by a positive number stays within the `long` range. */
  lemma TruncDivLongRange(a: Long, b: int)
    requires b > 0
    ensures LONG_MIN <= TruncDiv(a, b) <= LONG_MAX
  {
    var ua: nat := if a < 0 then -(a as int) else a;
    DivAtMost(ua, b);
  }

  /** Java `long` division `a / b`: truncating, and `LONG_MIN / -1` wraps to `LONG_MIN`. */
  function DivLong(a: Long, b: Long): Long
    requires b != 0
  {
    WrapLong(TruncDiv(a, b))
  }

  /** Element-wise sum of two `int` sequences, each element wrapping. */
  function AddInts(a: seq<Int32>, b: seq<Int32>): (r: seq<Int32>)
    requires |a| == |b|
    ensures |r| == |a|
  {
    seq(|a|, i requires 0 <= i < |a| => WrapInt(a[i] as int + b[i]))
  }

  /** Element-wise sum of two `long` sequences, each element wrapping. */
  function AddLongs(a: seq<Long>, b: seq<Long>): (r: seq<Long>)
    requires |a| == |b|
    ensures |r| == |a|
  {
    seq(|a|, i requires 0 <= i < |a| => WrapLong(a[i] as int + b[i]))
  }

  /** The exact sum of a sequence of integers, accumulated from the left. */
  function Sum(s: seq<int>): int
  {
    if |s| == 0 then 0 else Sum(s[..|s| - 1]) + s[|s| - 1]
  }

  /** Replacing one element changes the sum by the difference. */
  lemma {:induction false} SumUpdate(s: seq<int>, k: nat, x: int)
    requires k < |s|
    ensures Sum(s[k := x]) == Sum(s) - s[k] + x
    decreases |s|
  {
    var t := s[k := x];
    if k < |s| - 1 {
      assert t[..|t| - 1] == s[..|s| - 1][k := x];
      SumUpdate(s[..|s| - 1], k, x);
    } else {
      assert t[..|t| - 1] == s[..|s| - 1];
    }
  }

  /** The sum of a pointwise sum is the sum of the sums. */
  lemma {:induction false} SumPointwise(a: seq<int>, b: seq<int>, c: seq<int>)
    requires |a| == |b| == |c|
    requires forall i | 0 <= i < |c| :: c[i] == a[i] + b[i]
    ensures Sum(c) == Sum(a) + Sum(b)
    decreases |c|
  {
    if |c| > 0 {
      var n := |c| - 1;
      SumPointwise(a[..n], b[..n], c[..n]);
    }
  }
  /** Sequences whose elements wrap to each other have sums that wrap to the same `int`. */
  lemma {:induction false} WrapIntSum(w: seq<int>, e: seq<int>)
    requires |w| == |e|
    requires forall i | 0 <= i < |w| :: w[i] == WrapInt(e[i])
    ensures WrapInt(Sum(w)) == WrapInt(Sum(e))
    decreases |w|
  {
    if |w| > 0 {
      var n := |w| - 1;
      var sw, se := Sum(w[..n]), Sum(e[..n]);
      calc {
        WrapInt(Sum(w));
        WrapInt(sw + w[n]);
        { WrapIntAdd(sw, w[n]); }
        WrapInt(WrapInt(sw) + w[n]);
        { WrapIntSum(w[..n], e[..n]); }
        WrapInt(WrapInt(se) + w[n]);
        { WrapIntAdd(se, w[n]); }
        WrapInt(se + WrapInt(e[n]));
        { WrapIntAdd(se, e[n]); }
        WrapInt(se + e[n]);
        WrapInt(Sum(e));
      }
    }
  }

  /** Sequences whose elements wrap to each other have sums that wrap to the same `long`. */
  lemma {:induction false} WrapLongSum(w: seq<int>, e: seq<int>)
    requires |w| == |e|
    requires forall i | 0 <= i < |w| :: w[i] == WrapLong(e[i])
    ensures WrapLong(Sum(w)) == WrapLong(Sum(e))
    decreases |w|
  {
    if |w| > 0 {
      var n := |w| - 1;
      var sw, se := Sum(w[..n]), Sum(e[..n]);
      calc {
        WrapLong(Sum(w));
        WrapLong(sw + w[n]);
        { WrapLongAdd(sw, w[n]); }
        WrapLong(WrapLong(sw) + w[n]);
        { WrapLongSum(w[..n], e[..n]); }
        WrapLong(WrapLong(se) + w[n]);
        { WrapLongAdd(se, w[n]); }
        WrapLong(se + WrapLong(e[n]));
        { WrapLongAdd(se, e[n]); }
        WrapLong(se + e[n]);
        WrapLong(Sum(e));
      }
    }
  }
}
