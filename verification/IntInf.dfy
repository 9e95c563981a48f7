/** How arbitrary-precision integers are represented: as a tagged word when they
    are small, as a vector of a sign word and 64-bit limbs otherwise (int-inf.c). */
module IntInf {
  import opened Arithmetic
  import opened Memory
  import opened Objects
  import opened Layout

  const RADIX := 0x1_0000_0000_0000_0000
  const HIGH_BIT := 0x8000_0000_0000_0000

  /** A tagged word holds the integers from -SMALL_LIMIT up to, not including,
      SMALL_LIMIT. */
  const SMALL_LIMIT := 0x4000_0000_0000_0000

  const WORD64_VECTOR_TYPE_INDEX := 6
  const WORD64_VECTOR_TYPE := ObjectType(ArrayTag, false, 8, 0)

  /** From the start of a bignum to its sign word, which the pointer leads to,
      and to its first limb. */
  const OBJ_OFFSET := ARRAY_HEADER_SIZE
  const LIMBS_OFFSET := ARRAY_HEADER_SIZE + 8

  predicate IsWord(w: int) { 0 <= w < RADIX }

  predicate IsSmall(arg: int) { arg % 2 == 1 }

  // ------------------------------------------------------- GnuMP's own numbers

  function Abs(n: int): nat { if n < 0 then -n else n }

  /** Size is the number of limbs, least significant first; its sign is the
      sign of the number. */
  datatype Mpz = Mpz(size: int, limbs: seq<int>)

  /** What every GnuMP operation delivers. */
  predicate Normal(z: Mpz) {
    && |z.limbs| == Abs(z.size)
    && (forall i :: 0 <= i < |z.limbs| ==> IsWord(z.limbs[i]))
    && (z.limbs != [] ==> z.limbs[|z.limbs| - 1] != 0)
  }

  function Magnitude(limbs: seq<int>): int {
    if limbs == [] then 0 else limbs[0] + RADIX * Magnitude(limbs[1..])
  }

  function Value(z: Mpz): int { if z.size < 0 then -Magnitude(z.limbs) else Magnitude(z.limbs) }

  predicate FitsSmall(value: int) { -SMALL_LIMIT <= value < SMALL_LIMIT }

  lemma {:induction false} TwoLimbsAreLarge(limbs: seq<int>)
    requires |limbs| >= 1 && limbs[|limbs| - 1] != 0 && forall i :: 0 <= i < |limbs| ==> IsWord(limbs[i])
    ensures Magnitude(limbs) >= 1
    ensures |limbs| >= 2 ==> Magnitude(limbs) >= RADIX
    decreases |limbs|
  {
    if |limbs| >= 2 {
      TwoLimbsAreLarge(limbs[1..]);
    } else {
      assert limbs[1..] == [];
    }
  }

  lemma OneLimb(x: int)
    ensures Magnitude([x]) == x && Magnitude([]) == 0
  {
    assert [x][1..] == [];
  }

  // ----------------------------------------------------------------- decoding

  function LimbsAt(m: Mem, a: int, n: int): seq<int> {
    if n <= 0 then [] else seq(n, i => Rd(m, a + 8 * i))
  }

  /** fillIntInfArg: the number an IntInf stands for. */
  function FillIntInfArg(m: Mem, arg: int): Mpz {
    if IsSmall(arg) then
      if arg == 1 then Mpz(0, [])
      else if arg >= HIGH_BIT then Mpz(-1, [RADIX - (arg / 2 + HIGH_BIT)])
      else Mpz(1, [arg / 2])
    else
      var alloc := Rd(m, arg - 16) - 1;
      Mpz(if Rd(m, arg) != 0 then -alloc else alloc, LimbsAt(m, arg + 8, alloc))
  }

  function ValueOf(m: Mem, arg: int): int { Value(FillIntInfArg(m, arg)) }

  /** An IntInf as it may turn up: a tagged word or a pointer to a bignum. */
  predicate WellFormed(m: Mem, arg: int) { IsWord(arg) && Normal(FillIntInfArg(m, arg)) }

  /** Small numbers are always tagged. */
  predicate Canonical(m: Mem, arg: int) { WellFormed(m, arg) && (IsSmall(arg) <==> FitsSmall(ValueOf(m, arg))) }

  /** A tagged word means the number it holds in its upper 63 bits. */
  lemma SmallValue(m: Mem, arg: int)
    requires IsWord(arg) && IsSmall(arg)
    ensures WellFormed(m, arg) && Canonical(m, arg)
    ensures 2 * ValueOf(m, arg) + 1 == if arg >= HIGH_BIT then arg - RADIX else arg
  {
    var z := FillIntInfArg(m, arg);
    assert arg == 2 * (arg / 2) + 1;
    if z.limbs != [] { OneLimb(z.limbs[0]); }
  }

  // ----------------------------------------------------------------- encoding

  class SharedHeap {
    const e: Model
    var mem: Mem
    var sharedFrontier: int

    constructor (e: Model, mem: Mem, sharedFrontier: int)
      ensures this.e == e && this.mem == mem && this.sharedFrontier == sharedFrontier
    {
      this.e := e;
      this.mem := mem;
      this.sharedFrontier := sharedFrontier;
    }

    /** finiIntInfRes, for a result whose limbs were written where a bignum at
        the frontier would have them. */
    method FiniIntInfRes(ghost z: Mpz, size: int, d: int) returns (res: int)
      requires d == sharedFrontier + LIMBS_OFFSET && z.size == size
      requires Normal(z) && z.limbs == LimbsAt(mem, d, Abs(size))
      requires e.alignment % 4 == 0 && IsFrontierAligned(sharedFrontier, e.alignment) && 0 <= sharedFrontier && d < RADIX
      modifies this
      ensures Canonical(mem, res) && ValueOf(mem, res) == Value(z)
      ensures if FitsSmall(Value(z)) then IsWord(res) && IsSmall(res) && sharedFrontier == old(sharedFrontier)
        else res == old(sharedFrontier) + OBJ_OFFSET && !IsSmall(res) && AddedBignum(e, mem, old(sharedFrontier), z, sharedFrontier)
      ensures forall a {:trigger Rd(mem, a)} :: a < old(sharedFrontier) || a >= d ==> Rd(mem, a) == Rd(old(mem), a)
    {
      hide Normal, LimbsAt, Magnitude, FillIntInfArg, Align, IsAligned;
      var bp, n := d - LIMBS_OFFSET, size;
      LimbsAway(mem, d, Abs(size), bp + OBJ_OFFSET, 1);
      LimbsAway(mem, d, Abs(size), bp + OBJ_OFFSET, 0);
      if n < 0 {
        mem := mem[bp + OBJ_OFFSET := 1];
        n := -n;
      } else {
        mem := mem[bp + OBJ_OFFSET := 0];
      }
      if n <= 1 {
        FewLimbs(old(mem), z, d);
        var val := if n == 0 then 0 else Rd(mem, d);
        var ans;
        if Rd(mem, bp + OBJ_OFFSET) != 0 {
          ans := Word64(-val);
          Word64Is(val - 1, 0);
          val := Word64(val - 1);
        } else {
          ans := val;
        }
        if val < SMALL_LIMIT {
          TagMeans(mem, Value(z));
          SmallValue(mem, Word64(2 * ans) + 1);
          res := Word64(2 * ans) + 1;
          return;
        }
      } else {
        ManyLimbs(z);
      }
      PutBignum(z, bp, n);
      res := bp + OBJ_OFFSET;
    }

    /** The last part of finiIntInfRes: makes the limbs into a vector. */
    method PutBignum(ghost z: Mpz, bp: int, n: nat)
      requires bp == sharedFrontier && n == Abs(z.size) && !FitsSmall(Value(z)) && Normal(z)
      requires z.limbs == LimbsAt(mem, bp + LIMBS_OFFSET, n) && Rd(mem, bp + OBJ_OFFSET) == if z.size < 0 then 1 else 0
      requires e.alignment % 4 == 0 && IsFrontierAligned(bp, e.alignment) && 0 <= bp && bp + LIMBS_OFFSET < RADIX
      modifies this
      ensures AddedBignum(e, mem, bp, z, sharedFrontier) && !IsSmall(bp + OBJ_OFFSET)
      ensures Canonical(mem, bp + OBJ_OFFSET) && ValueOf(mem, bp + OBJ_OFFSET) == Value(z)
      ensures forall a {:trigger Rd(mem, a)} :: a < bp || a >= bp + OBJ_OFFSET ==> Rd(mem, a) == Rd(old(mem), a)
    {
      hide Normal, LimbsAt, Magnitude, FillIntInfArg, Align, IsAligned;
      sharedFrontier := AlignWithExtra(e, bp + LIMBS_OFFSET + 8 * n, HEADER_SIZE);
      mem := mem[bp := 0];
      mem := mem[bp + 8 := n + 1];
      mem := mem[bp + 16 := BuildHeader(WORD64_VECTOR_TYPE_INDEX)];
      EvenFrontier(bp, e.alignment);
      NoLimbs(z);
      BignumIs(old(mem), z, bp, mem);
    }
  }

  /** The conversion to 64 bits. */
  function Word64(x: int): int { x % RADIX }

  /** A vector holding z has been put at the frontier, which has moved past it. */
  ghost predicate AddedBignum(e: Model, m: Mem, frontier: int, z: Mpz, frontier': int) {
    && FillIntInfArg(m, frontier + OBJ_OFFSET) == z
    && Rd(m, frontier) == 0
    && Rd(m, frontier + 8) == Abs(z.size) + 1
    && Rd(m, frontier + 16) == BuildHeader(WORD64_VECTOR_TYPE_INDEX)
    && frontier' == AlignWithExtra(e, frontier + LIMBS_OFFSET + 8 * Abs(z.size), HEADER_SIZE)
  }

  lemma LimbsAway(m: Mem, a: int, n: int, x: int, v: int)
    requires x < a
    ensures LimbsAt(m[x := v], a, n) == LimbsAt(m, a, n)
  {
  }

  lemma FewLimbs(m: Mem, z: Mpz, d: int)
    requires Normal(z) && z.limbs == LimbsAt(m, d, Abs(z.size)) && Abs(z.size) <= 1
    ensures z.size == 0 ==> Value(z) == 0
    ensures z.size != 0 ==> 1 <= Rd(m, d) < RADIX && Value(z) == z.size * Rd(m, d)
  {
    if z.size == 0 { assert z.limbs == []; } else { assert z.limbs == [Rd(m, d)]; }
    OneLimb(Rd(m, d));
  }

  lemma NoLimbs(z: Mpz)
    ensures z.size == 0 && Normal(z) ==> FitsSmall(Value(z))
  {
    OneLimb(0);
  }

  lemma ManyLimbs(z: Mpz)
    requires Normal(z) && Abs(z.size) >= 2
    ensures !FitsSmall(Value(z))
  {
    TwoLimbsAreLarge(z.limbs);
  }

  lemma Word64Is(x: int, k: int)
    requires 0 <= x + k * RADIX < RADIX
    ensures Word64(x) == x + k * RADIX
  {
    DivisionIs(x, RADIX, -k, x + k * RADIX);
  }

  /** The tagged word made for a small number means that number. */
  lemma TagMeans(m: Mem, value: int)
    requires FitsSmall(value)
    ensures var arg := Word64(2 * if value < 0 then Word64(value) else value) + 1;
      IsWord(arg) && IsSmall(arg) && ValueOf(m, arg) == value
  {
    hide Word64, FillIntInfArg;
    if value < 0 {
      Word64Is(value, 1);
      Word64Is(2 * (value + RADIX), -1);
      assert 2 * value + RADIX + 1 == 2 * (value + HIGH_BIT) + 1;
      SmallValue(m, 2 * value + RADIX + 1);
    } else {
      Word64Is(2 * value, 0);
      SmallValue(m, 2 * value + 1);
    }
  }

  lemma EvenFrontier(frontier: int, alignment: Positive)
    requires alignment % 4 == 0 && IsFrontierAligned(frontier, alignment)
    ensures !IsSmall(frontier + OBJ_OFFSET)
  {
    var q, k := (frontier + HEADER_SIZE) / alignment, alignment / 4;
    assert frontier + HEADER_SIZE == q * alignment;
    assert q * alignment == 4 * (q * k);
  }

  lemma BignumIs(m: Mem, z: Mpz, bp: int, m': Mem)
    requires Normal(z) && z.limbs == LimbsAt(m, bp + LIMBS_OFFSET, Abs(z.size)) && z.size != 0
    requires Rd(m', bp + OBJ_OFFSET) == (if z.size < 0 then 1 else 0) && Rd(m', bp + 8) == Abs(z.size) + 1
    requires forall a {:trigger Rd(m', a)} :: a >= bp + LIMBS_OFFSET ==> Rd(m', a) == Rd(m, a)
    requires !IsSmall(bp + OBJ_OFFSET)
    ensures FillIntInfArg(m', bp + OBJ_OFFSET) == z
  {
    assert LimbsAt(m', bp + LIMBS_OFFSET, Abs(z.size)) == z.limbs;
  }

  /** The walk over the heap steps over the new vector to exactly the frontier. */
  lemma BignumIsWalkable(e: Model, m: Mem, frontier: int, z: Mpz, frontier': int)
    requires AddedBignum(e, m, frontier, z, frontier') && IsFrontierAligned(frontier, e.alignment)
    requires WORD64_VECTOR_TYPE_INDEX < |e.types| && e.types[WORD64_VECTOR_TYPE_INDEX] == WORD64_VECTOR_TYPE
    ensures frontier' == frontier + SizeofObject(e, m, AdvanceToObjectData(m, frontier))
    ensures IsFrontierAligned(frontier', e.alignment)
  {
    hide FillIntInfArg, Align, IsAligned, ArrayBytes;
    var p, len := frontier + OBJ_OFFSET, Abs(z.size) + 1;
    var h := BuildHeader(WORD64_VECTOR_TYPE_INDEX);
    HeaderOfBignum(e, m, frontier);
    ArrayBytesIsProduct(len, WORD64_VECTOR_TYPE);
    assert ArrayBytes(len, WORD64_VECTOR_TYPE) == 8 * len;
    var body := ARRAY_HEADER_SIZE + 8 * len;
    AlignShift(body, frontier + HEADER_SIZE, e.alignment);
    assert frontier' == Align(body + (frontier + HEADER_SIZE), e.alignment) - HEADER_SIZE;
    AlignIsLeast(body + (frontier + HEADER_SIZE), e.alignment);
  }

  lemma HeaderOfBignum(e: Model, m: Mem, frontier: int)
    requires Rd(m, frontier) == 0 && Rd(m, frontier + 16) == BuildHeader(WORD64_VECTOR_TYPE_INDEX)
    requires WORD64_VECTOR_TYPE_INDEX < |e.types| && e.types[WORD64_VECTOR_TYPE_INDEX] == WORD64_VECTOR_TYPE
    ensures AdvanceToObjectData(m, frontier) == frontier + OBJ_OFFSET
    ensures SizeofObject(e, m, frontier + OBJ_OFFSET) == ARRAY_HEADER_SIZE + ArrayNoHeader(e, Length(Rd(m, frontier + 8)), WORD64_VECTOR_TYPE)
  {
  }

  lemma AlignShift(x: int, shift: int, b: Positive)
    requires IsAligned(shift, b)
    ensures Align(x + shift, b) == Align(x, b) + shift
  {
    AlignedSum(shift, x, b);
    assert x + shift == shift + x;
    if !IsAligned(x, b) {
      var i, j := shift / b, x / b;
      assert shift == i * b && x == j * b + x % b;
      assert (i + j) * b == i * b + j * b;
      DivisionIs(x + shift, b, i + j, x % b);
    }
  }

  // ----------------------------------------------------------------- equality

  /** IntInf_compare, GnuMP's mpz_cmp taken as the order of the integers. */
  function Compare(m: Mem, lhs: int, rhs: int): int {
    var x, y := ValueOf(m, lhs), ValueOf(m, rhs);
    if x < y then -1 else if x > y then 1 else 0
  }

  /** IntInf_equal. Only numbers that are both large are looked into. */
  predicate IntInfEqual(m: Mem, lhs: int, rhs: int) {
    if lhs == rhs then true
    else if IsSmall(lhs) || IsSmall(rhs) then false
    else Compare(m, lhs, rhs) == 0
  }

  /** It is right on canonical numbers, and wrong exactly on a number given once
      tagged and once as a vector. */
  lemma EqualOfNumbers(m: Mem, lhs: int, rhs: int)
    requires WellFormed(m, lhs) && WellFormed(m, rhs)
    ensures (IntInfEqual(m, lhs, rhs) <==> ValueOf(m, lhs) == ValueOf(m, rhs))
      <==> !(IsSmall(lhs) != IsSmall(rhs) && ValueOf(m, lhs) == ValueOf(m, rhs))
    ensures Canonical(m, lhs) && Canonical(m, rhs) ==> (IntInfEqual(m, lhs, rhs) <==> ValueOf(m, lhs) == ValueOf(m, rhs))
  {
    hide FillIntInfArg, Normal;
    if IsSmall(lhs) { SmallValue(m, lhs); }
    if IsSmall(rhs) { SmallValue(m, rhs); }
  }

  /** The tagged word for a small number. */
  function Tagged(v: int): int { if 0 <= v then 2 * v + 1 else 2 * v + 1 + RADIX }

  lemma TaggedIs(m: Mem, v: int)
    requires FitsSmall(v)
    ensures IsSmall(Tagged(v)) && Canonical(m, Tagged(v)) && ValueOf(m, Tagged(v)) == v
  {
    hide FillIntInfArg, Normal;
    SmallValue(m, Tagged(v));
  }

  /** Given a number, IntInf_equal tells rightly which canonical ones are equal to
      it if and only if it is canonical itself: a small number in a vector is
      not found equal to the tagged word for it. */
  lemma EqualDecides(m: Mem, lhs: int)
    requires WellFormed(m, lhs)
    ensures Canonical(m, lhs) <==>
      forall rhs {:trigger Canonical(m, rhs)} :: Canonical(m, rhs) ==> (IntInfEqual(m, lhs, rhs) <==> ValueOf(m, lhs) == ValueOf(m, rhs))
  {
    hide FillIntInfArg, Normal, ValueOf, IntInfEqual;
    if Canonical(m, lhs) {
      forall rhs | Canonical(m, rhs) ensures IntInfEqual(m, lhs, rhs) <==> ValueOf(m, lhs) == ValueOf(m, rhs) { EqualOfNumbers(m, lhs, rhs); }
    } else {
      if IsSmall(lhs) { SmallValue(m, lhs); }
      var v := ValueOf(m, lhs);
      TaggedIs(m, v);
      NotEqual(m, lhs, Tagged(v));
    }
  }

  lemma NotEqual(m: Mem, lhs: int, rhs: int)
    requires IsSmall(rhs) && !IsSmall(lhs)
    ensures !IntInfEqual(m, lhs, rhs)
  {
  }

  /** A vector holding five is not found equal to the tagged word for five. */
  lemma UncanonicalFive() returns (m: Mem, lhs: int, rhs: int)
    ensures WellFormed(m, lhs) && WellFormed(m, rhs)
    ensures ValueOf(m, lhs) == 5 == ValueOf(m, rhs) && !IntInfEqual(m, lhs, rhs)
  {
    lhs, rhs := 11, 32;
    m := map[16 := 2, 24 := BuildHeader(WORD64_VECTOR_TYPE_INDEX), 32 := 0, 40 := 5];
    assert LimbsAt(m, 40, 1) == [5];
    OneLimb(5);
  }
}
