/**
 Machine-word arithmetic of the rings: masks and shifts as remainder and quotient, 64-bit subtraction, and the three
 ways the program rounds a capacity up to a power of two.
 */
module Bits {
  const TWO_62: int := 0x4000_0000_0000_0000
  const TWO_63: int := 0x8000_0000_0000_0000
  const TWO_64: int := 0x1_0000_0000_0000_0000

  function Pow2(k: nat): (p: nat)
    ensures p >= 1
  {
    if k == 0 then 1 else 2 * Pow2(k - 1)
  }

  function Bit(n: nat, i: nat): bool
    decreases i
  {
    if i == 0 then n % 2 == 1 else Bit(n / 2, i - 1)
  }

  function And(a: nat, b: nat): nat {
    if a == 0 || b == 0 then 0 else 2 * And(a / 2, b / 2) + (a % 2) * (b % 2)
  }

  function Or(a: nat, b: nat): nat
    decreases a + b
  {
    if a == 0 && b == 0 then 0 else 2 * Or(a / 2, b / 2) + if a % 2 == 1 || b % 2 == 1 then 1 else 0
  }

  function Shr(n: nat, k: nat): nat
    decreases k
  {
    if k == 0 then n else Shr(n / 2, k - 1)
  }

  /** The number of bits of `n`. */
  function Len(n: nat): nat {
    if n == 0 then 0 else 1 + Len(n / 2)
  }

  /** Difference of two 64-bit words. */
  function Sub64(a: int, b: int): (d: nat) {
    (a - b) % TWO_64
  }

  /** Subtracting the larger of two counters wraps round. */
  lemma {:induction false} Behind64(a: nat, b: nat)
    requires a < b
    ensures
      var m := (b - a) % TWO_64;
      Sub64(a, b) == if m == 0 then 0 else TWO_64 - m
  {
    var q, m := (b - a) / TWO_64, (b - a) % TWO_64;
    assert a - b == -q * TWO_64 - m;
    if m == 0 {
      WrapsTo(a - b, -q, 0);
    } else {
      WrapsTo(a - b, -q - 1, TWO_64 - m);
    }
  }

  lemma WrapsTo(n: int, q: int, m: nat)
    requires n == q * TWO_64 + m && m < TWO_64
    ensures n % TWO_64 == m
  {
  }

  /** A mathematical integer as a signed 64-bit word. */
  function Signed64(n: int): int {
    var m := n % TWO_64;
    if m < TWO_63 then m else m - TWO_64
  }

  // ----- Slot and lap -----

  /** The slot of a sequence number in a ring of 2^k slots. */
  function Slot(n: nat, k: nat): nat {
    And(n, Pow2(k) - 1)
  }

  lemma {:induction false} SlotHalves(n: nat, k: nat)
    requires k > 0
    ensures Slot(n, k) == 2 * Slot(n / 2, k - 1) + n % 2
  {
    assert (Pow2(k) - 1) / 2 == Pow2(k - 1) - 1;
  }

  lemma {:induction false} SlotBelow(n: nat, k: nat)
    ensures Slot(n, k) < Pow2(k)
    decreases k
  {
    if k > 0 {
      SlotHalves(n, k);
      SlotBelow(n / 2, k - 1);
    }
  }

  /** Slot and lap together determine the sequence number. */
  lemma {:induction false} SlotAndLapDetermine(a: nat, b: nat, k: nat)
    requires Slot(a, k) == Slot(b, k) && Shr(a, k) == Shr(b, k)
    ensures a == b
    decreases k
  {
    if k > 0 {
      SlotHalves(a, k);
      SlotHalves(b, k);
      SlotAndLapDetermine(a / 2, b / 2, k - 1);
    }
  }

  /** One lap later the same slot comes round, one lap higher. */
  lemma {:induction false} NextLap(n: nat, k: nat)
    ensures Slot(n + Pow2(k), k) == Slot(n, k) && Shr(n + Pow2(k), k) == Shr(n, k) + 1
    decreases k
  {
    if k > 0 {
      var h := Pow2(k - 1);
      assert (n + 2 * h) / 2 == n / 2 + h && (n + 2 * h) % 2 == n % 2;
      SlotHalves(n, k);
      SlotHalves(n + 2 * h, k);
      NextLap(n / 2, k - 1);
    }
  }

  /** Fewer than 2^k apart, two sequence numbers never share a slot. */
  lemma {:induction false} SlotsApart(a: nat, b: nat, k: nat)
    requires a < b < a + Pow2(k)
    ensures Slot(a, k) != Slot(b, k)
    decreases k
  {
    if k > 0 {
      SlotHalves(a, k);
      SlotHalves(b, k);
      if a % 2 == b % 2 {
        SlotsApart(a / 2, b / 2, k - 1);
      }
    }
  }

  lemma {:induction false} FirstLap(n: nat, k: nat)
    requires n < Pow2(k)
    ensures Slot(n, k) == n && Shr(n, k) == 0
    decreases k
  {
    if k > 0 {
      SlotHalves(n, k);
      FirstLap(n / 2, k - 1);
    }
  }

  /** Masking with 2^k - 1 is the remainder and shifting by k the quotient. */
  lemma {:induction false} SlotAndLapDivide(n: nat, k: nat)
    ensures n == Shr(n, k) * Pow2(k) + Slot(n, k)
    ensures Shr(n, k) == n / Pow2(k) && Slot(n, k) == n % Pow2(k)
    decreases k
  {
    SlotBelow(n, k);
    if k > 0 {
      SlotAndLapDivide(n / 2, k - 1);
      SlotHalves(n, k);
      Doubled(Shr(n, k), Pow2(k - 1));
    }
    DivModUnique(n, Pow2(k), Shr(n, k), Slot(n, k));
  }

  lemma Doubled(q: nat, h: nat)
    ensures q * (2 * h) == 2 * (q * h)
  {
  }

  lemma MulAtLeast(e: int, d: int)
    requires e >= 1 && d > 0
    ensures e * d >= d
  {
  }

  lemma {:induction false} DivModUnique(n: int, d: int, q: int, r: int)
    requires d > 0 && n == q * d + r && 0 <= r < d
    ensures n / d == q && n % d == r
  {
    var e := n / d - q;
    assert e * d == (n / d) * d - q * d;
    if e > 0 {
      MulAtLeast(e, d);
    } else if e < 0 {
      MulAtLeast(-e, d);
    }
  }

  /** With at least two slots, the lap of a 64-bit sequence number is never the "never published" mark. */
  lemma {:induction false} LapIsNotNever(n: nat, k: nat)
    requires k >= 1 && n < TWO_64
    ensures Shr(n, k) < TWO_64 - 1
  {
    ShrBelow(n / 2, k - 1);
  }

  // ----- Rounding up to a power of two -----

  ghost predicate IsPow2(p: int) {
    exists k: nat :: p == Pow2(k)
  }

  /** `p` is the least power of two that is at least `n`. */
  ghost predicate LeastPow2(p: int, n: int) {
    IsPow2(p) && n <= p && forall q :: IsPow2(q) && n <= q ==> p <= q
  }

  lemma {:induction false} Pow2Monotone(a: nat, b: nat)
    requires a <= b
    ensures Pow2(a) <= Pow2(b)
    decreases b
  {
    if a < b {
      Pow2Monotone(a, b - 1);
    }
  }

  lemma {:induction false} LenBounds(n: nat)
    ensures n < Pow2(Len(n))
    ensures n > 0 ==> Len(n) > 0 && Pow2(Len(n) - 1) <= n && Bit(n, Len(n) - 1)
  {
    if n > 1 {
      LenBounds(n / 2);
    }
  }

  lemma {:induction false} LenOfPow2(k: nat)
    ensures Len(Pow2(k)) == k + 1
  {
    if k > 0 {
      LenOfPow2(k - 1);
    }
  }

  lemma {:induction false} LenIsLeast(n: int)
    requires n >= 2
    ensures LeastPow2(Pow2(Len(n - 1)), n)
  {
    LenBounds(n - 1);
    forall q | IsPow2(q) && n <= q
      ensures Pow2(Len(n - 1)) <= q
    {
      var k: nat :| q == Pow2(k);
      if k < Len(n - 1) {
        Pow2Monotone(k, Len(n - 1) - 1);
      } else {
        Pow2Monotone(Len(n - 1), k);
      }
    }
  }

  lemma {:induction false} BitOr(a: nat, b: nat, i: nat)
    ensures Bit(Or(a, b), i) <==> Bit(a, i) || Bit(b, i)
    decreases i
  {
    assert Or(a, b) / 2 == Or(a / 2, b / 2);
    if i > 0 {
      BitOr(a / 2, b / 2, i - 1);
    }
  }

  lemma {:induction false} BitShr(n: nat, k: nat, i: nat)
    ensures Bit(Shr(n, k), i) <==> Bit(n, i + k)
    decreases k
  {
    if k > 0 {
      BitShr(n / 2, k - 1, i);
    }
  }

  lemma {:induction false} OrBelow(a: nat, b: nat, k: nat)
    requires a < Pow2(k) && b < Pow2(k)
    ensures Or(a, b) < Pow2(k)
    decreases k
  {
    if k > 0 {
      OrBelow(a / 2, b / 2, k - 1);
    }
  }

  lemma {:induction false} ShrBelow(n: nat, k: nat)
    ensures Shr(n, k) <= n
    decreases k
  {
    if k > 0 {
      ShrBelow(n / 2, k - 1);
    }
  }

  lemma {:induction false} AllOnes(n: nat, k: nat)
    requires n < Pow2(k) && forall i :: 0 <= i < k ==> Bit(n, i)
    ensures n == Pow2(k) - 1
    decreases k
  {
    if k > 0 {
      assert Bit(n, 0);
      forall i | 0 <= i < k - 1
        ensures Bit(n / 2, i)
      {
        assert Bit(n, i + 1);
      }
      AllOnes(n / 2, k - 1);
    }
  }

  /** The top `m` of the `len` bits of `n` are ones, and there are no others. */
  ghost predicate Smeared(n: nat, len: nat, m: nat) {
    n < Pow2(len) && forall i: nat :: len - m <= i < len ==> Bit(n, i)
  }

  /** Or-ing in a copy shifted by `m` doubles the number of leading ones. */
  lemma {:induction false} SmearDoubles(n: nat, len: nat, m: nat)
    requires Smeared(n, len, m)
    ensures Smeared(Or(n, Shr(n, m)), len, 2 * m)
  {
    ShrBelow(n, m);
    OrBelow(n, Shr(n, m), len);
    forall i: nat | len - 2 * m <= i < len
      ensures Bit(Or(n, Shr(n, m)), i)
    {
      BitOr(n, Shr(n, m), i);
      BitShr(n, m, i);
    }
  }

  lemma {:induction false} LenAtMost(n: nat, k: nat)
    requires n < Pow2(k)
    ensures Len(n) <= k
    decreases k
  {
    if n > 0 {
      LenAtMost(n / 2, k - 1);
    }
  }

  lemma {:induction false} Pow2Add(a: nat, b: nat)
    ensures Pow2(a + b) == Pow2(a) * Pow2(b)
    decreases b
  {
    if b > 0 {
      Pow2Add(a, b - 1);
      Doubled(Pow2(a), Pow2(b - 1));
    }
  }

  lemma {:induction false} Pow2Of32()
    ensures Pow2(6) == 0x40 && Pow2(8) == 0x100 && Pow2(16) == 0x1_0000 && Pow2(32) == 0x1_0000_0000
  {
    assert Pow2(3) == 8 && Pow2(5) == 32 && Pow2(6) == 64;
    assert Pow2(7) == 0x80;
    Pow2Add(8, 8);
    Pow2Add(16, 16);
  }

  lemma {:induction false} Pow2Of62()
    ensures Pow2(62) == TWO_62 && Pow2(63) == TWO_63
  {
    Pow2Of32();
    Pow2Add(32, 16);
    Pow2Add(48, 8);
    Pow2Add(56, 6);
  }

  /** A power of two as a signed 64-bit word, up to 2^63. */
  lemma {:induction false} Pow2Signed(k: nat)
    requires k <= 63
    ensures k <= 62 ==> Signed64(Pow2(k)) == Pow2(k)
    ensures k == 63 ==> Signed64(Pow2(k)) == -TWO_63
  {
    Pow2Of62();
    if k <= 62 {
      Pow2Monotone(k, 62);
    }
  }

  lemma {:induction false} LenOf62(n: int)
    requires 2 <= n < TWO_63
    ensures n <= TWO_62 ==> Len(n - 1) <= 62
    ensures n > TWO_62 ==> Len(n - 1) == 63
  {
    Pow2Of62();
    LenBounds(n - 1);
    LenAtMost(n - 1, 63);
    if n <= TWO_62 {
      LenAtMost(n - 1, 62);
    } else if Len(n - 1) <= 62 {
      Pow2Monotone(Len(n - 1), 62);
    }
  }

  /** The result of the rounding, seen as a 64-bit integer: right up to 2^62, and -2^63 beyond. */
  lemma {:induction false} RoundedUp(n: int)
    requires 2 <= n < TWO_63
    ensures n <= TWO_62 ==> LeastPow2(Signed64(Pow2(Len(n - 1))), n)
    ensures n > TWO_62 ==> Signed64(Pow2(Len(n - 1))) == -TWO_63
  {
    LenIsLeast(n);
    LenOf62(n);
    Pow2Signed(Len(n - 1));
  }

  /** Fill every bit below the leading one by six doublings. */
  method Smear(x: int) returns (n: int)
    requires 0 <= x < TWO_63
    ensures n == Pow2(Len(x)) - 1
  {
    ghost var len := Len(x);
    LenBounds(x);
    Pow2Of62();
    LenAtMost(x, 63);
    n := x;
    assert x > 0 ==> Smeared(n, len, 1);
    if x == 0 {
      return;
    }
    SmearDoubles(n, len, 1);
    n := Or(n, Shr(n, 1));
    SmearDoubles(n, len, 2);
    n := Or(n, Shr(n, 2));
    SmearDoubles(n, len, 4);
    n := Or(n, Shr(n, 4));
    SmearDoubles(n, len, 8);
    n := Or(n, Shr(n, 8));
    SmearDoubles(n, len, 16);
    n := Or(n, Shr(n, 16));
    SmearDoubles(n, len, 32);
    n := Or(n, Shr(n, 32));
    AllOnes(n, len);
  }

  /** What the rounding computes: capacities up to `least` give `least`. */
  function RoundUp(n: int, least: nat): int
    requires least >= 1
  {
    if n <= least then least else Signed64(Pow2(Len(n - 1)))
  }

  /**
   The rounding is the least power of two that is at least `n` and the minimum exactly for capacities up to 2^62;
   beyond that the increment overflows a signed 64-bit word.
   */
  lemma {:induction false} RoundUpIsLeastIff(n: int, least: nat)
    requires least in {1, 2} && n < TWO_63
    ensures LeastPow2(RoundUp(n, least), if n < least then least else n) <==> n <= TWO_62
  {
    assert Pow2(0) == 1 && Pow2(1) == 2;
    if n <= least {
      LeastIsItself(least);
    } else {
      RoundedUp(n);
    }
  }

  lemma {:induction false} LeastIsItself(least: nat)
    requires least in {1, 2}
    ensures LeastPow2(least, least)
  {
    assert Pow2(0) == 1 && Pow2(1) == 2;
    assert IsPow2(1) && IsPow2(2);
  }

  /** The two minimums give the same capacity except to those who ask for one slot or fewer. */
  lemma {:induction false} RoundingsAgreeIff(n: int)
    requires n < TWO_63
    ensures RoundUp(n, 1) == RoundUp(n, 2) <==> n >= 2
  {
    assert Len(1) == 1 && Pow2(1) == 2;
  }

  /** The rounding of the pointer ring. */
  method NextPow2Disruptor(capacity: int) returns (n: int)
    requires capacity < TWO_63
    ensures capacity <= TWO_62 <==> LeastPow2(n, if capacity < 1 then 1 else capacity)
    ensures n == RoundUp(capacity, 1)
  {
    RoundUpIsLeastIff(capacity, 1);
    if capacity <= 1 {
      return 1;
    }
    n := Smear(capacity - 1);
    n := Signed64(n + 1);
  }

  /** The rounding of the event ring. */
  method NextPow2Offheap(capacity: int) returns (n: int)
    requires capacity < TWO_63
    ensures capacity <= TWO_62 <==> LeastPow2(n, if capacity < 2 then 2 else capacity)
    ensures n == RoundUp(capacity, 2)
  {
    RoundUpIsLeastIff(capacity, 2);
    if capacity <= 2 {
      return 2;
    }
    n := Smear(capacity - 1);
    n := Signed64(n + 1);
  }

  /** The rounding of the command ring, by counting bits. */
  method NextPow2Mpsc(capacity: int) returns (n: int)
    requires capacity < TWO_63
    ensures capacity <= TWO_62 <==> LeastPow2(n, if capacity < 2 then 2 else capacity)
    ensures n == RoundUp(capacity, 2)
  {
    RoundUpIsLeastIff(capacity, 2);
    if capacity <= 2 {
      return 2;
    }
    n := Signed64(Pow2(Len(capacity - 1)));
  }
}
