/** The software bit reversal of `CORE/cmsis_armcc.h`. */
module BitReverse {

  /** The bits of a word, least significant first. */
  type Bits = s: seq<bool> | |s| == 32 witness seq(32, _ => false)

  function BitsOf(w: bv32): Bits {
    [w & 0x1 != 0, w & 0x2 != 0, w & 0x4 != 0, w & 0x8 != 0,
     w & 0x10 != 0, w & 0x20 != 0, w & 0x40 != 0, w & 0x80 != 0,
     w & 0x100 != 0, w & 0x200 != 0, w & 0x400 != 0, w & 0x800 != 0,
     w & 0x1000 != 0, w & 0x2000 != 0, w & 0x4000 != 0, w & 0x8000 != 0,
     w & 0x10000 != 0, w & 0x20000 != 0, w & 0x40000 != 0, w & 0x80000 != 0,
     w & 0x100000 != 0, w & 0x200000 != 0, w & 0x400000 != 0, w & 0x800000 != 0,
     w & 0x1000000 != 0, w & 0x2000000 != 0, w & 0x4000000 != 0, w & 0x8000000 != 0,
     w & 0x10000000 != 0, w & 0x20000000 != 0, w & 0x40000000 != 0, w & 0x80000000 != 0]
  }

  function Zeros(n: nat): seq<bool> {
    seq(n, _ => false)
  }

  /** Bits leave at one end and zeros come in at the other. */
  function ShiftLeft(b: Bits, n: nat): Bits
    requires n <= 32
  {
    Zeros(n) + b[..32 - n]
  }

  function ShiftRight(b: Bits, n: nat): Bits
    requires n <= 32
  {
    b[n..] + Zeros(n)
  }

  function Reversed(b: Bits): Bits {
    seq(32, k requires 0 <= k < 32 => b[31 - k])
  }

  predicate IsZero(b: Bits) {
    forall k :: 0 <= k < 32 ==> !b[k]
  }

  /** The loop with s shifts to go: `value` still holds the upper bits of the argument, and
      the others have come into the result in reverse. */
  ghost predicate Halfway(v: Bits, s: nat, value: Bits, result: Bits) {
    && s <= 31 && value == ShiftRight(v, 32 - s)
    && forall k :: 0 <= k <= 31 - s ==> result[k] == v[31 - s - k]
  }

  /** `value` and `result` after k rounds of the loop. */
  function Rounds(v: bv32, k: nat): (bv32, bv32) {
    if k == 0 then (v >> 1, v)
    else
      var (value, result) := Rounds(v, k - 1);
      (value >> 1, (result << 1) | (value & 1))
  }

  /** The loop counter for a number of shifts to go. */
  function Counter(n: nat): bv6 {
    if n == 0 then 0 else Counter(n - 1) + 1
  }

  method Rbit(v: bv32) returns (result: bv32)
    ensures BitsOf(result) == Reversed(BitsOf(v))
  {
    var s: bv6 := 31;
    result := v;
    var value := v >> 1;
    ghost var k := 0;
    CounterIsSmall(31);
    while value != 0
      invariant k <= 31 && (value, result) == Rounds(v, k) && s == Counter(31 - k)
      decreases 31 - k
    {
      RoundsEnd(v, k, value, result);
      result := result << 1;
      result := result | (value & 1);
      s := s - 1;
      value := value >> 1;
      k := k + 1;
    }
    CounterIsSmall(31 - k);
    LastShift(v, k, result, s, result << s);
    result := result << s;
  }

  lemma {:induction false} CounterIsExact(n: nat)
    requires n <= 31
    ensures Counter(n) as int == n && Counter(n) <= 31
    ensures n == 31 ==> Counter(n) == 31
  {
    if n > 0 {
      CounterIsExact(n - 1);
      OneLess(Counter(n - 1) + 1);
    }
  }

  lemma CounterIsSmall(n: nat)
    requires n <= 31
    ensures Counter(n) <= 31 && (n == 31 ==> Counter(n) == 31)
  {
    CounterIsExact(n);
  }

  lemma {:induction false} RoundsBits(v: bv32, k: nat, value: bv32, result: bv32)
    requires k <= 31 && (value, result) == Rounds(v, k)
    ensures Halfway(BitsOf(v), 31 - k, BitsOf(value), BitsOf(result))
  {
    if k == 0 {
      FirstBits(v, value);
    } else {
      var (value0, result0) := Rounds(v, k - 1);
      RoundsBits(v, k - 1, value0, result0);
      RoundBits(v, 32 - k, value0, result0, value, result);
    }
  }

  lemma FirstBits(v: bv32, value: bv32)
    requires value == v >> 1
    ensures Halfway(BitsOf(v), 31, BitsOf(value), BitsOf(v))
  {
    RightByOne(v);
    Entered(BitsOf(v), BitsOf(value));
  }

  lemma Entered(v: Bits, value: Bits)
    requires value == ShiftRight(v, 1)
    ensures Halfway(v, 31, value, v)
  {
  }

  lemma RoundBits(v: bv32, s: nat, value: bv32, result: bv32, value': bv32, result': bv32)
    requires Halfway(BitsOf(v), s, BitsOf(value), BitsOf(result)) && 0 < s
    requires value' == value >> 1 && result' == (result << 1) | (value & 1)
    ensures Halfway(BitsOf(v), s - 1, BitsOf(value'), BitsOf(result'))
  {
    TakesBit(value, result, value', result');
    OneMore(BitsOf(v), s, BitsOf(value), BitsOf(result), BitsOf(value'), BitsOf(result'));
  }

  lemma TakesBit(value: bv32, result: bv32, value': bv32, result': bv32)
    requires value' == value >> 1 && result' == (result << 1) | (value & 1)
    ensures BitsOf(value') == ShiftRight(BitsOf(value), 1)
    ensures BitsOf(result') == [BitsOf(value)[0]] + BitsOf(result)[..31]
  {
    RightByOne(value);
    LowBit(value);
    PushedBits(result, value & 1);
  }

  lemma RoundsEnd(v: bv32, k: nat, value: bv32, result: bv32)
    requires k <= 31 && (value, result) == Rounds(v, k) && value != 0
    ensures k < 31
  {
    RoundsBits(v, k, value, result);
    if k == 31 {
      ZeroWord(value);
    }
  }

  lemma ZeroWord(w: bv32)
    requires IsZero(BitsOf(w))
    ensures w == 0
  {
    ZeroBits();
    assert BitsOf(w) == BitsOf(0);
    WordsFromBits(w, 0);
  }

  lemma ZeroBits()
    ensures IsZero(BitsOf(0))
  {
  }

  lemma LastShift(v: bv32, k: nat, result: bv32, s: bv6, r: bv32)
    requires k <= 31 && Rounds(v, k) == (0, result) && s == Counter(31 - k) <= 31 && r == result << s
    ensures BitsOf(r) == Reversed(BitsOf(v))
  {
    RoundsBits(v, k, 0, result);
    ZeroBits();
    AllIn(BitsOf(v), 31 - k, BitsOf(0), BitsOf(result));
    CounterIsExact(31 - k);
    LeftBits(result, s, r);
  }

  lemma OneMore(v: Bits, s: nat, value: Bits, result: Bits, value': Bits, result': Bits)
    requires Halfway(v, s, value, result) && 0 < s
    requires value' == ShiftRight(value, 1) && result' == [value[0]] + result[..31]
    ensures Halfway(v, s - 1, value', result')
  {
    assert value[0] == v[32 - s];
  }

  lemma AllIn(v: Bits, s: nat, value: Bits, result: Bits)
    requires Halfway(v, s, value, result) && IsZero(value)
    ensures ShiftLeft(result, s) == Reversed(v)
  {
    forall j | 31 - s < j < 32
      ensures !v[j]
    {
      assert value[j - (32 - s)] == v[j];
    }
  }

  /** Reversal turns shifting left into shifting right, and it is its own inverse, for words
      as for their bits. */
  lemma ReversalLaws(b: Bits, n: nat, v: bv32, r: bv32, r': bv32)
    requires n <= 32 && BitsOf(r) == Reversed(BitsOf(v)) && BitsOf(r') == Reversed(BitsOf(r))
    ensures Reversed(ShiftLeft(b, n)) == ShiftRight(Reversed(b), n)
    ensures Reversed(Reversed(b)) == b && r' == v
  {
    ReversedShift(b, n);
    ReversedTwice(b);
    ReversedTwice(BitsOf(v));
    WordsFromBits(r', v);
  }

  lemma ReversedShift(b: Bits, n: nat)
    requires n <= 32
    ensures Reversed(ShiftLeft(b, n)) == ShiftRight(Reversed(b), n)
  {
    forall k | 0 <= k < 32
      ensures Reversed(ShiftLeft(b, n))[k] == ShiftRight(Reversed(b), n)[k]
    {
    }
  }

  lemma ReversedTwice(b: Bits)
    ensures Reversed(Reversed(b)) == b
  {
    forall k | 0 <= k < 32
      ensures Reversed(Reversed(b))[k] == b[k]
    {
    }
  }

  // ----- Shifts of words and of bits

  lemma RightByOne(w: bv32)
    ensures BitsOf(w >> 1) == ShiftRight(BitsOf(w), 1)
  {
  }

  lemma TopBitCut(w: bv32)
    ensures BitsOf(w & 0x7fff_ffff) == BitsOf(w)[31 := false]
  {
  }

  lemma PushedWord(w: bv32, low: bv32)
    requires low <= 1
    ensures ((w << 1) | low) >> 1 == w & 0x7fff_ffff
    ensures ((w << 1) | low) & 1 == low
  {
  }

  /** Shifting left by one takes a new bit in at the low end. */
  lemma PushedBits(w: bv32, low: bv32)
    requires low <= 1
    ensures BitsOf((w << 1) | low) == [low == 1] + BitsOf(w)[..31]
  {
    var x := (w << 1) | low;
    PushedWord(w, low);
    RightByOne(x);
    TopBitCut(w);
    LowBit(x);
    Pushed(BitsOf(x), BitsOf(x >> 1), BitsOf(w), low == 1);
  }

  lemma LowBit(w: bv32)
    ensures BitsOf(w)[0] <==> w & 1 == 1
  {
  }

  lemma Pushed(x: Bits, moved: Bits, w: Bits, low: bool)
    requires moved == ShiftRight(x, 1) && moved == w[31 := false] && x[0] == low
    ensures x == [low] + w[..31]
  {
    assert x == [x[0]] + x[1..];
    assert moved[..31] == x[1..];
  }

  lemma WordsFromBits(w: bv32, w': bv32)
    ensures BitsOf(w) == BitsOf(w') ==> w == w'
  {
  }

  /** Shifting left step by step. */
  function Doubled(w: bv32, n: nat): bv32 {
    if n == 0 then w else (Doubled(w, n - 1) << 1) | 0
  }

  lemma {:induction false} DoubledBits(w: bv32, n: nat)
    requires n <= 32
    ensures BitsOf(Doubled(w, n)) == ShiftLeft(BitsOf(w), n)
  {
    if n > 0 {
      DoubledBits(w, n - 1);
      PushedBits(Doubled(w, n - 1), 0);
      ShiftLeftOnce(BitsOf(w), n - 1);
    }
  }

  lemma ShiftLeftOnce(b: Bits, n: nat)
    requires n < 32
    ensures [false] + ShiftLeft(b, n)[..31] == ShiftLeft(b, n + 1)
  {
  }

  lemma {:induction false} DoubledIsShifted(w: bv32, n: bv6)
    requires n <= 31
    ensures Doubled(w, n as int) == w << n
    decreases n
  {
    if n > 0 {
      OneLess(n);
      DoubledIsShifted(w, n - 1);
      LeftOnce(w, n);
    }
  }

  lemma OneLess(n: bv6)
    requires n > 0
    ensures n as int == (n - 1) as int + 1
  {
  }

  lemma LeftOnce(w: bv32, n: bv6)
    requires 1 <= n <= 31
    ensures w << n == ((w << (n - 1)) << 1) | 0
  {
  }

  lemma LeftBits(w: bv32, n: bv6, w': bv32)
    requires n <= 31 && w' == w << n
    ensures BitsOf(w') == ShiftLeft(BitsOf(w), n as int)
  {
    DoubledIsShifted(w, n);
    DoubledBits(w, n as int);
  }
}
