/** The exponential smoothing of measured times (`filter` in `PTPv2/src/dep/servo.c`). */
module Smoothing {
  import opened Octets
  import opened TimeArithmetic

  const SECOND: int := 1_000_000_000

  function Pow2(k: nat): (p: nat)
    ensures 0 < p
  {
    if k == 0 then 1 else 2 * Pow2(k - 1)
  }

  /** `a >> k` on a signed integer, which rounds down, and `a << k`. */
  function Sar(a: int, k: nat): int
    decreases k
  {
    if k == 0 then a else Sar(a / 2, k - 1)
  }

  function Shl(a: int, k: nat): int
    decreases k
  {
    if k == 0 then a else Shl(2 * a, k - 1)
  }

  /** Position of the highest bit. */
  function FloorLog2(n: nat): (k: nat)
    requires 0 < n
    ensures Pow2(k) <= n < 2 * Pow2(k)
  {
    if n == 1 then 0 else 1 + FloorLog2(n / 2)
  }

  function Order(x: int): nat {
    if x == 0 then 0 else FloorLog2(Abs(x))
  }

  function Max(a: int, b: int): int {
    if a > b then a else b
  }

  function Min(a: int, b: int): int {
    if a < b then a else b
  }

  /** `yPrev` is the smoothed value, `ySum` the same scaled by 2^sPrev, with the rest of the
      division; n counts the samples up to 2^s. */
  datatype Filter = Filter(yPrev: int, ySum: int, s: nat, sPrev: nat, n: nat) {
    predicate Sound() {
      n == 0 || (Abs(yPrev) < SECOND && yPrev == Sar(ySum, sPrev))
    }
  }

  /** The filter takes another sample in; the first one sets it up. */
  function Prepared(f: Filter, x: int): Filter {
    if f.n == 0 then Filter(x, x, f.s, 0, 1) else f.(n := f.n + 1)
  }

  lemma {:induction false} Pow2Grows(a: nat, b: nat)
    requires a <= b
    ensures Pow2(a) <= Pow2(b)
    decreases b
  {
    if a < b {
      Pow2Grows(a, b - 1);
    }
  }

  lemma Pow2Of30()
    ensures Pow2(30) == 0x4000_0000
  {
    assert Pow2(10) == 1024;
    Pow2Sum(10, 10);
    Pow2Sum(20, 10);
  }

  lemma OrderOfNanoseconds(x: int)
    requires Abs(x) < SECOND
    ensures Order(x) <= 29
  {
    Pow2Of30();
    if 30 <= Order(x) {
      Pow2Grows(30, Order(x));
    }
  }

  /** The order that is used: no more than the samples call for, and no more than the larger
      of the old value and the sample leaves room for in 32 bits. */
  function ChosenOrder(f: Filter, x: int): (s: nat)
    requires Abs(f.yPrev) < SECOND && Abs(x) < SECOND
    ensures s <= 30 - Order(Max(f.yPrev, x))
    ensures s <= if Pow2(f.s) > f.n then Order(f.n) else f.s
  {
    OrderOfNanoseconds(Max(f.yPrev, x));
    Min(if Pow2(f.s) > f.n then Order(f.n) else f.s, 30 - Order(Max(f.yPrev, x)))
  }

  /** The scaled value when the order changes; `>>` rounds down. */
  function Rescaled(ySum: int, from: nat, to: nat): int {
    if from > to then Sar(ySum, from - to) else Shl(ySum, to - from)
  }

  function Smoothed(f: Filter, x: int): Filter
    requires f.Sound() && Abs(x) < SECOND
  {
    var p := Prepared(f, x);
    var s := ChosenOrder(p, x);
    var sum := Rescaled(p.ySum, p.sPrev, s) + x - p.yPrev;
    Filter(Sar(sum, s), sum, p.s, s, if Pow2(p.s) > p.n then p.n else Pow2(p.s))
  }

  // ----- The smoothed value stays between the old one and the sample

  lemma MulMonotone(a: int, b: int, n: nat)
    requires a <= b
    ensures a * n <= b * n
  {
    assert 0 <= (b - a) * n;
  }

  /** The quotient is where its multiples say. */
  lemma FloorBounds(a: int, b: int, k: int)
    requires 0 < b
    ensures k <= a / b <==> k * b <= a
  {
    var q := a / b;
    assert q * b <= a < (q + 1) * b;
    if k <= q {
      MulMonotone(k, q, b);
    } else {
      MulMonotone(q + 1, k, b);
    }
  }

  lemma FloorUnique(a: int, b: int, q: int)
    requires 0 < b && q * b <= a < (q + 1) * b
    ensures a / b == q
  {
    FloorBounds(a, b, q);
    FloorBounds(a, b, q + 1);
  }

  lemma {:induction false} Pow2Sum(a: nat, b: nat)
    ensures Pow2(a + b) == Pow2(a) * Pow2(b)
    decreases b
  {
    if b > 0 {
      Pow2Sum(a, b - 1);
      assert Pow2(a + b) == 2 * Pow2(a + b - 1);
      assert Pow2(a) * (2 * Pow2(b - 1)) == 2 * (Pow2(a) * Pow2(b - 1));
    }
  }

  lemma {:induction false} SarTwice(a: int, j: nat, k: nat)
    ensures Sar(Sar(a, j), k) == Sar(a, j + k)
    decreases j
  {
    if 0 < j {
      SarTwice(a / 2, j - 1, k);
    }
  }

  lemma {:induction false} SarUndoesShl(a: int, j: nat, k: nat)
    ensures Sar(Shl(a, j), j + k) == Sar(a, k)
    decreases j
  {
    if 0 < j {
      SarUndoesShl(2 * a, j - 1, k + 1);
    }
  }

  /** Changing the order keeps the value. */
  lemma RescalingKeepsValue(ySum: int, from: nat, to: nat)
    ensures Sar(Rescaled(ySum, from, to), to) == Sar(ySum, from)
  {
    if from > to {
      SarTwice(ySum, from - to, to);
    } else {
      SarUndoesShl(ySum, to - from, from);
    }
  }

  lemma {:induction false} SarIsFloor(a: int, k: nat)
    ensures Sar(a, k) == a / Pow2(k)
    decreases k
  {
    if 0 < k {
      SarIsFloor(a / 2, k - 1);
      NestedFloor(a, 2, Pow2(k - 1));
    }
  }

  lemma Regroup(q: int, d: int, p: int)
    ensures (q * p) * d == q * (d * p)
  {
  }

  lemma NestedFloor(a: int, d: int, p: int)
    requires 0 < d && 0 < p
    ensures 0 < d * p && (a / d) / p == a / (d * p)
  {
    var m := a / d;
    var q := m / p;
    FloorBounds(m, p, q);
    FloorBounds(m, p, q + 1);
    FloorBounds(a, d, q * p);
    FloorBounds(a, d, (q + 1) * p);
    Regroup(q, d, p);
    Regroup(q + 1, d, p);
    FloorUnique(a, d * p, q);
  }

  predicate Between(y: int, a: int, b: int) {
    Min(a, b) <= y <= Max(a, b)
  }

  lemma FloorStaysBetween(sum: int, p: int, y: int, x: int)
    requires 0 < p && y == sum / p
    ensures Between((sum + x - y) / p, x, y)
  {
    FloorBounds(sum, p, y);
    FloorBounds(sum, p, y + 1);
    FloorBounds(sum + x - y, p, y);
    FloorBounds(sum + x - y, p, y + 1);
    FloorBounds(sum + x - y, p, x);
    FloorBounds(sum + x - y, p, x + 1);
    if x >= y {
      MulMonotone(1, p, x - y);
      assert (x + 1) * p == (y + 1) * p + p * (x - y);
    } else {
      MulMonotone(1, p, y - x);
      assert x * p == y * p - p * (y - x);
    }
  }

  /** A sample moves the smoothed value toward itself and never past; the first one is taken
      as it is. */
  lemma SmoothedIsBetween(f: Filter, x: int)
    requires f.Sound() && Abs(x) < SECOND
    ensures var f' := Smoothed(f, x);
      && f'.Sound() && 0 < f'.n
      && (if f.n == 0 then f'.yPrev == x else Between(f'.yPrev, x, f.yPrev))
  {
    var p := Prepared(f, x);
    var s := ChosenOrder(p, x);
    RescalingKeepsValue(p.ySum, p.sPrev, s);
    SarIsFloor(Sums(f, x).0, s);
    SarIsFloor(Sums(f, x).1, s);
    FloorStaysBetween(Rescaled(p.ySum, p.sPrev, s), Pow2(s), p.yPrev, x);
  }

  // ----- What does not overflow

  /** The smoothed sum after the order has changed, and after the sample has been added. */
  function Sums(f: Filter, x: int): (int, int)
    requires f.Sound() && Abs(x) < SECOND
  {
    var p := Prepared(f, x);
    var sum := Rescaled(p.ySum, p.sPrev, ChosenOrder(p, x));
    (sum, sum + x - p.yPrev)
  }

  /** No intermediate result leaves 32 bits. */
  predicate SmoothingFits(f: Filter, x: int)
    requires f.Sound() && Abs(x) < SECOND
  {
    FitsInt32(Sums(f, x).0) && FitsInt32(Sums(f, x).1)
  }

  /** Both sums are the old and the new value, scaled by the order that was chosen. */
  lemma SumsAreScaled(f: Filter, x: int)
    requires f.Sound() && Abs(x) < SECOND
    ensures var (p, s) := (Prepared(f, x), ChosenOrder(Prepared(f, x), x));
      && p.yPrev * Pow2(s) <= Sums(f, x).0 < (p.yPrev + 1) * Pow2(s)
      && Smoothed(f, x).yPrev * Pow2(s) <= Sums(f, x).1 < (Smoothed(f, x).yPrev + 1) * Pow2(s)
  {
    var p := Prepared(f, x);
    var s := ChosenOrder(p, x);
    RescalingKeepsValue(p.ySum, p.sPrev, s);
    SarIsFloor(Sums(f, x).0, s);
    SarIsFloor(Sums(f, x).1, s);
    FloorBounds(Sums(f, x).0, Pow2(s), p.yPrev);
    FloorBounds(Sums(f, x).0, Pow2(s), p.yPrev + 1);
    FloorBounds(Sums(f, x).1, Pow2(s), Smoothed(f, x).yPrev);
    FloorBounds(Sums(f, x).1, Pow2(s), Smoothed(f, x).yPrev + 1);
  }

  /** A value no larger than what the order was chosen for has room. */
  lemma HasRoom(y: int, m: int, s: nat, sum: int)
    requires 0 <= y <= m < SECOND && Order(m) + s <= 30
    requires y * Pow2(s) <= sum < (y + 1) * Pow2(s)
    ensures FitsInt32(sum)
  {
    assert Pow2(0) == 1;
    Pow2Sum(Order(m), s);
    Pow2Grows(Order(m) + s, 30);
    Pow2Of30();
    ScaledRoom(y, Pow2(Order(m)), Pow2(s), sum);
  }

  lemma ScaledRoom(y: int, o: int, p: nat, sum: int)
    requires 0 <= y < 2 * o && o * p <= 0x4000_0000 && y * p <= sum < (y + 1) * p
    ensures 0 <= sum < 0x8000_0000
  {
    MulMonotone(0, y, p);
    MulMonotone(y + 1, 2 * o, p);
    Regroup(2, p, o);
  }

  /** The order is the largest that is configured, that the samples so far call for, and that
      leaves room for the larger of the old value and the sample in 30 bits. */
  lemma ChosenOrderIsLargest(f: Filter, x: int, k: nat)
    requires Abs(f.yPrev) < SECOND && Abs(x) < SECOND && 0 < f.n
    ensures k <= ChosenOrder(f, x) <==> k <= f.s && Pow2(k) <= f.n && k + Order(Max(f.yPrev, x)) <= 30
  {
    OrderOfNanoseconds(Max(f.yPrev, x));
    OrderOfCount(f.n, f.s, k);
  }

  lemma OrderOfCount(n: nat, s: nat, k: nat)
    requires 0 < n
    ensures k <= (if Pow2(s) > n then Order(n) else s) <==> k <= s && Pow2(k) <= n
  {
    if k <= s {
      Pow2Grows(k, s);
    } else {
      Pow2Grows(s, k);
    }
    if k <= Order(n) {
      Pow2Grows(k, Order(n));
    } else {
      Pow2Grows(Order(n) + 1, k);
    }
  }

  /** Once there is a value, the smoothed one moves by the 2^s-th part of the difference to the
      sample, up to rounding, s being the order that is used; and samples are counted until
      there are as many as the configured order averages over. */
  lemma SmoothedIsAverage(f: Filter, x: int)
    requires f.Sound() && Abs(x) < SECOND && 0 < f.n
    ensures var f' := Smoothed(f, x);
      && f'.sPrev == ChosenOrder(f.(n := f.n + 1), x) && f'.s == f.s
      && Abs(Pow2(f'.sPrev) * (f'.yPrev - f.yPrev) - (x - f.yPrev)) < Pow2(f'.sPrev)
      && f'.n == Min(f.n + 1, Pow2(f.s))
  {
    SumsAreScaled(f, x);
    ScaledStep(Sums(f, x).0, x - f.yPrev, f.yPrev, Smoothed(f, x).yPrev, Pow2(Smoothed(f, x).sPrev));
  }

  lemma ScaledStep(sum: int, d: int, y: int, y': int, p: int)
    requires y * p <= sum < (y + 1) * p && y' * p <= sum + d < (y' + 1) * p
    ensures Abs(p * (y' - y) - d) < p
  {
    assert p * (y' - y) == y' * p - y * p;
  }

  /** The guard against overflow does what it is for as long as nothing is negative. */
  lemma NonnegativeNeverOverflows(f: Filter, x: int)
    requires f.Sound() && 0 <= x < SECOND && (f.n == 0 || 0 <= f.yPrev)
    ensures SmoothingFits(f, x)
  {
    var p := Prepared(f, x);
    var s := ChosenOrder(p, x);
    var m := Max(p.yPrev, x);
    SmoothedIsBetween(f, x);
    SumsAreScaled(f, x);
    HasRoom(p.yPrev, m, s, Sums(f, x).0);
    HasRoom(Smoothed(f, x).yPrev, m, s, Sums(f, x).1);
  }

  /** With an order of at most 1, as for the offset, it is never needed. */
  lemma LowOrderNeverOverflows(f: Filter, x: int)
    requires f.Sound() && Abs(x) < SECOND && f.s <= 1
    ensures SmoothingFits(f, x)
  {
    var p := Prepared(f, x);
    var s := ChosenOrder(p, x);
    SmoothedIsBetween(f, x);
    SumsAreScaled(f, x);
    ChosenIsLow(p, x);
    assert Pow2(0) == 1 && Pow2(1) == 2;
  }

  lemma ChosenIsLow(f: Filter, x: int)
    requires Abs(f.yPrev) < SECOND && Abs(x) < SECOND && f.s <= 1 && 0 < f.n
    ensures ChosenOrder(f, x) <= 1
  {
    assert Pow2(0) == 1 && Pow2(1) == 2;
  }

  /** But a value that is more negative than the sample is positive escapes the guard, which
      looks at the larger of the two: after three samples near minus one second the next one
      overflows. */
  lemma NegativeOverflows(f: Filter, x: int)
    requires f.n == 0 && f.s == 6 && x == -999_999_999
    ensures var f1 := Smoothed(f, x);
      && f1.Sound()
      && var f2 := Smoothed(f1, x);
      && f2.Sound()
      && var f3 := Smoothed(f2, x);
      f3.Sound() && !SmoothingFits(f3, 1)
  {
    FirstNegative(f, x);
    var f1 := Smoothed(f, x);
    NextNegative(f1, x);
    var f2 := Smoothed(f1, x);
    NextNegative(f2, x);
    EscapesGuard(Smoothed(f2, x), x, 1);
  }

  lemma OrderIs(x: int, k: nat)
    requires Pow2(k) <= Abs(x) < 2 * Pow2(k)
    ensures Order(x) == k
  {
    var o := Order(x);
    if o < k {
      Pow2Grows(o + 1, k);
    } else if k < o {
      Pow2Grows(k + 1, o);
    }
  }

  lemma FirstNegative(f: Filter, x: int)
    requires f.n == 0 && f.s == 6 && Abs(x) < SECOND
    ensures Smoothed(f, x) == Filter(x, x, 6, 0, 1)
  {
    SmallPowers(f.s);
    OrderIs(1, 0);
  }

  lemma SmallPowers(k: nat)
    ensures k == 0 ==> Pow2(k) == 1
    ensures k == 1 ==> Pow2(k) == 2
    ensures k == 2 ==> Pow2(k) == 4
    ensures k == 6 ==> Pow2(k) == 64
    ensures k == 29 ==> Pow2(k) == 0x2000_0000
  {
    if k == 29 {
      Pow2Of30();
      assert Pow2(k + 1) == 2 * Pow2(k);
    } else if k == 6 {
      assert Pow2(3) == 8;
      Pow2Sum(3, 3);
    }
  }

  lemma NextNegative(f: Filter, x: int)
    requires x == -999_999_999 && f.s == 6 && f.yPrev == x
    requires (f.n == 1 && f.sPrev == 0 && f.ySum == x) || (f.n == 2 && f.sPrev == 1 && f.ySum == 2 * x)
    ensures f.Sound() && Smoothed(f, x) == Filter(x, 2 * x, 6, 1, f.n + 1)
  {
    SmallPowers(0);
    SmallPowers(1);
    SmallPowers(6);
    SmallPowers(29);
    OrderIs(x, 29);
    OrderIs(f.n + 1, 1);
  }

  lemma EscapesGuard(f: Filter, x: int, sample: int)
    requires x == -999_999_999 && f == Filter(x, 2 * x, 6, 1, 3) && sample == 1
    ensures f.Sound() && !SmoothingFits(f, sample)
  {
    SmallPowers(0);
    SmallPowers(1);
    SmallPowers(2);
    SmallPowers(6);
    OrderIs(sample, 0);
    OrderIs(f.n + 1, 2);
  }

  // ----- The object

  class SmoothingFilter {
    var yPrev: Int32
    var ySum: Int32
    var s: nat
    var sPrev: nat
    var n: nat

    function Value(): Filter
      reads this
    {
      Filter(yPrev, ySum, s, sPrev, n)
    }

    constructor (order: nat)
      ensures Value() == Filter(0, 0, order, 0, 0)
    {
      yPrev, ySum, s, sPrev, n := 0, 0, order, 0, 0;
    }

    /** The caller's value is replaced by the smoothed one. */
    method Smooth(nsecCurrent: int) returns (smoothed: int)
      requires Value().Sound() && Abs(nsecCurrent) < SECOND && SmoothingFits(Value(), nsecCurrent)
      modifies this
      ensures Value() == Smoothed(old(Value()), nsecCurrent) && smoothed == Value().yPrev
    {
      ghost var f := Value();
      SmoothedIsBetween(f, nsecCurrent);
      n := n + 1;
      if n == 1 {
        yPrev := nsecCurrent;
        ySum := nsecCurrent;
        sPrev := 0;
      }
      assert Value().(n := Prepared(f, nsecCurrent).n) == Prepared(f, nsecCurrent);
      var order := s;
      if Pow2(order) > n {
        order := Order(n);
      } else {
        n := Pow2(order);
      }
      OrderOfNanoseconds(Max(yPrev, nsecCurrent));
      order := Min(order, 30 - Order(Max(yPrev, nsecCurrent)));
      assert order == ChosenOrder(Prepared(f, nsecCurrent), nsecCurrent);
      if sPrev > order {
        ySum := Sar(ySum, sPrev - order);
      } else if sPrev < order {
        ySum := Shl(ySum, order - sPrev);
      }
      assert ySum == Sums(f, nsecCurrent).0;
      ySum := ySum + (nsecCurrent - yPrev);
      yPrev := Sar(ySum, order);
      sPrev := order;
      smoothed := yPrev;
    }
  }
}
