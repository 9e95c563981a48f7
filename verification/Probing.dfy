/** Double hashing in a table whose size is a power of two (hash-cons.c). */
module Probing {
  import opened Arithmetic

  const WORD := 0x1_0000_0000

  /** The magic multiplier: the fraction of the golden ratio, as 32 bits. */
  const MULT := 2654435769

  function Pow2(n: nat): (r: nat)
    ensures 0 < r
  {
    if n == 0 then 1 else 2 * Pow2(n - 1)
  }

  lemma {:induction false} Pow2Adds(a: nat, b: nat)
    ensures Pow2(a + b) == Pow2(a) * Pow2(b)
    decreases a
  {
    if a > 0 {
      Pow2Adds(a - 1, b);
      assert a + b - 1 == (a - 1) + b;
      Associates(2, Pow2(a - 1), Pow2(b));
    }
  }

  lemma Associates(x: int, y: int, z: int)
    ensures x * y * z == x * (y * z)
  {
  }

  lemma Pow2Of32()
    ensures Pow2(32) == WORD
  {
    assert Pow2(8) == 256;
    Pow2Adds(8, 8);
    Pow2Adds(16, 16);
  }

  // --------------------------------------------------------------------- probing

  /** The conversion to 32 bits. */
  function Wrap(x: int): int { x % WORD }

  /** Where the search for a hash starts in a table of 2^log2 slots. */
  function FirstSlot(hash: int, log2: nat): int
    requires log2 <= 32
  {
    Wrap(MULT * hash) / Pow2(32 - log2)
  }

  /** The stride is odd; for slot zero the subtraction wraps around. */
  function Stride(slot: int): int {
    if slot % 2 == 1 then slot else Wrap(slot - 1)
  }

  function NextSlot(slot: int, stride: int, size: int): int
    requires 0 < size
  {
    Wrap(slot + stride) % size
  }

  /** The k-th slot that is looked at. */
  function ProbeAt(hash: int, log2: nat, k: nat): int
    requires log2 <= 32
  {
    if k == 0 then FirstSlot(hash, log2)
    else NextSlot(ProbeAt(hash, log2, k - 1), Stride(FirstSlot(hash, log2)), Pow2(log2))
  }

  lemma FirstSlotInTable(hash: int, log2: nat)
    requires log2 <= 32
    ensures 0 <= FirstSlot(hash, log2) < Pow2(log2)
  {
    var x, c := Wrap(MULT * hash), Pow2(32 - log2);
    Pow2Of32();
    Pow2Adds(log2, 32 - log2);
    assert WORD == Pow2(log2) * c;
    QuotientBelow(x, c, Pow2(log2));
  }

  lemma QuotientBelow(x: int, c: int, n: int)
    requires 0 < c && 0 <= x < n * c
    ensures 0 <= x / c < n
  {
    var q, r := x / c, x % c;
    assert x == q * c + r;
    assert (q - n) * c == q * c - n * c;
    if n <= q { NonNegative(q - n, c); }
  }

  lemma StrideIsOdd(slot: int)
    ensures Stride(slot) % 2 == 1
  {
    hide Wrap;
    WrapKeepsParity(slot - 1);
  }

  lemma WrapKeepsParity(x: int)
    ensures Wrap(x) % 2 == x % 2
  {
    var half := 0x8000_0000 * (x / WORD);
    assert x == 2 * half + Wrap(x);
    SameParity(x, half, Wrap(x));
  }

  lemma SameParity(x: int, half: int, r: int)
    requires x == 2 * half + r
    ensures x % 2 == r % 2
  {
  }

  lemma {:induction false} ProbeInTable(hash: int, log2: nat, k: nat)
    requires log2 <= 32
    ensures 0 <= ProbeAt(hash, log2, k) < Pow2(log2)
  {
    FirstSlotInTable(hash, log2);
  }

  /** Going through 32-bit arithmetic makes no difference modulo the size. */
  lemma NextSlotIsModulo(slot: int, stride: int, log2: nat) returns (q: int)
    requires log2 <= 32
    ensures slot + stride == q * Pow2(log2) + NextSlot(slot, stride, Pow2(log2))
  {
    Pow2Of32();
    Pow2Adds(32 - log2, log2);
    q := TwoModulos(slot + stride, Pow2(32 - log2), Pow2(log2));
  }

  lemma TwoModulos(x: int, c: int, n: int) returns (q: int)
    requires 0 < n && 0 < c * n
    ensures x == q * n + x % (c * n) % n
  {
    var w := c * n;
    var a, y := x / w, x % w;
    assert x == a * w + y;
    assert y == y / n * n + y % n;
    q := a * c + y / n;
    Associates(a, c, n);
    Distributes(a * c, y / n, n);
  }

  /** How far probe k is from the first slot, modulo the size. */
  lemma {:induction false} ProbeIsLinear(hash: int, log2: nat, k: nat) returns (q: int)
    requires log2 <= 32
    ensures FirstSlot(hash, log2) + k * Stride(FirstSlot(hash, log2)) == q * Pow2(log2) + ProbeAt(hash, log2, k)
    decreases k
  {
    hide FirstSlot, Stride, NextSlot;
    if k == 0 {
      q := 0;
    } else {
      var first, stride := FirstSlot(hash, log2), Stride(FirstSlot(hash, log2));
      var q0 := ProbeIsLinear(hash, log2, k - 1);
      var q1 := NextSlotIsModulo(ProbeAt(hash, log2, k - 1), stride, log2);
      q := q0 + q1;
      assert k * stride == (k - 1) * stride + stride;
      assert q * Pow2(log2) == q0 * Pow2(log2) + q1 * Pow2(log2);
    }
  }

  /** An odd factor has no share in a power of two. */
  lemma {:induction false} OddFactorCancels(log2: nat, d: int, odd: int, q: int) returns (r: int)
    requires odd % 2 == 1 && d * odd == q * Pow2(log2)
    ensures d == r * Pow2(log2)
    decreases log2
  {
    if log2 == 0 {
      r := d;
    } else {
      var half := Pow2(log2 - 1);
      assert q * Pow2(log2) == 2 * (q * half) by { Swaps(q, half); }
      EvenFactor(d, odd, q * half);
      var e := d / 2;
      assert d == 2 * e;
      assert e * odd == q * half by { Associates(2, e, odd); }
      var s := OddFactorCancels(log2 - 1, e, odd, q);
      r := s;
      assert d == 2 * (s * half);
      Swaps(s, half);
    }
  }

  lemma Swaps(x: int, y: int)
    ensures x * (2 * y) == 2 * (x * y)
  {
  }

  lemma EvenFactor(d: int, odd: int, x: int)
    requires odd % 2 == 1 && d * odd == 2 * x
    ensures d % 2 == 0
  {
    var a := d / 2;
    Distributes(2 * a, d % 2, odd);
    Associates(2, a, odd);
    assert d * odd == 2 * (a * odd) + (d % 2) * odd;
  }

  lemma Distributes(x: int, y: int, z: int)
    ensures (x + y) * z == x * z + y * z
  {
  }

  /** The stride visits every slot before it comes back to one. */
  lemma ProbesDiffer(hash: int, log2: nat, j: nat, k: nat)
    requires log2 <= 32 && j < k < j + Pow2(log2)
    ensures ProbeAt(hash, log2, j) != ProbeAt(hash, log2, k)
  {
    hide FirstSlot, Stride, NextSlot, ProbeAt;
    var n, stride := Pow2(log2), Stride(FirstSlot(hash, log2));
    var a := ProbeIsLinear(hash, log2, j);
    var b := ProbeIsLinear(hash, log2, k);
    StrideIsOdd(FirstSlot(hash, log2));
    Subtracts(k, j, stride);
    Subtracts(b, a, n);
    if ProbeAt(hash, log2, j) == ProbeAt(hash, log2, k) {
      var r := OddFactorCancels(log2, k - j, stride, b - a);
      NotBetweenMultiples(r, n);
    }
  }

  lemma Subtracts(x: int, y: int, z: int)
    ensures (x - y) * z == x * z - y * z
  {
  }

  lemma NotBetweenMultiples(r: int, n: int)
    requires 0 < n
    ensures r * n <= 0 || n <= r * n
  {
    if r <= 0 {
      NonNegative(-r, n);
      assert (-r) * n == -(r * n);
    } else {
      AtLeastOne(r, n);
    }
  }
}
