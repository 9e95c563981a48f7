/** Sizes, slots and the walk over a range of objects (object-size.c,
    foreach.c, align.c). */
module Layout {
  import opened Arithmetic
  import opened Memory
  import opened Objects

  // --------------------------------------------------------------- alignment

  predicate IsAligned(a: int, b: Positive) { a % b == 0 }

  /** The least multiple of b that is not below a. */
  function Align(a: int, b: Positive): int {
    if IsAligned(a, b) then a else a + (b - a % b)
  }

  /** An object put at the frontier a has aligned data. */
  predicate IsFrontierAligned(a: int, b: Positive) { IsAligned(a + HEADER_SIZE, b) }

  function AlignWithExtra(e: Model, bytes: int, extra: int): int {
    Align(bytes + extra, e.alignment) - extra
  }

  lemma AlignIsLeast(a: int, b: Positive)
    ensures a <= Align(a, b) < a + b
    ensures IsAligned(Align(a, b), b)
    ensures IsAligned(a, b) ==> Align(a, b) == a
  {
    if !IsAligned(a, b) {
      assert Align(a, b) == (a / b + 1) * b by { assert a == a / b * b + a % b; }
      DivisionIs(Align(a, b), b, a / b + 1, 0);
    }
  }

  lemma AlignedSum(x: int, y: int, b: Positive)
    requires IsAligned(x, b)
    ensures IsAligned(x + y, b) == IsAligned(y, b) && IsAligned(y - x, b) == IsAligned(y, b)
  {
    var i, j, r := x / b, y / b, y % b;
    assert x == i * b && y == j * b + r;
    assert (i + j) * b == i * b + j * b && (j - i) * b == j * b - i * b;
    DivisionIs(x + y, b, i + j, r);
    DivisionIs(y - x, b, j - i, r);
  }

  // ------------------------------------------------------------------- sizes

  /** len elements of the size of t. */
  function ArrayBytes(len: nat, t: ObjectType): nat {
    if len == 0 then 0 else FixedBytes(t) + ArrayBytes(len - 1, t)
  }

  lemma {:induction false} ArrayBytesIsProduct(len: nat, t: ObjectType)
    ensures ArrayBytes(len, t) == len * FixedBytes(t)
  {
    if len > 0 {
      ArrayBytesIsProduct(len - 1, t);
      assert len * FixedBytes(t) == (len - 1) * FixedBytes(t) + FixedBytes(t);
    }
  }

  lemma {:induction false} ArrayBytesMonotone(k: nat, len: nat, t: ObjectType)
    requires k <= len
    ensures ArrayBytes(k, t) <= ArrayBytes(len, t)
    ensures k < len && FixedBytes(t) > 0 ==> ArrayBytes(k, t) < ArrayBytes(len, t)
    decreases len
  {
    if k < len { ArrayBytesMonotone(k, len - 1, t); }
  }

  /** Very small arrays keep room for a forwarding pointer. */
  function ArrayNoHeader(e: Model, len: nat, t: ObjectType): int {
    AlignWithExtra(e, Max(ArrayBytes(len, t), OBJPTR_SIZE), ARRAY_HEADER_SIZE)
  }

  /** A word read as an unsigned length. */
  function Length(w: int): nat { Max(w, 0) }

  function HeaderBytes(t: ObjectType): int {
    if t.tag == ArrayTag then ARRAY_HEADER_SIZE else HEADER_SIZE
  }

  /** Bytes taken by an object of type t with header, given the two words that
      sizes may depend on: an array's length and a fill object's gap size. */
  function SizeByType(e: Model, t: ObjectType, len: nat, gap: nat): int {
    match t.tag
    case ArrayTag => ARRAY_HEADER_SIZE + ArrayNoHeader(e, len, t)
    case HeaderOnlyTag => HEADER_SIZE
    case FillTag => HEADER_SIZE + SMALL_GAP_SIZE_SIZE + gap
    case _ => HEADER_SIZE + FixedBytes(t)
  }

  /** The size of the object at p, read through the header h that belongs to it. */
  function SizeWithHeader(e: Model, m: Mem, p: int, h: int): int {
    SizeByType(e, TypeOf(e, h), Length(Rd(m, p - 16)), Length(Rd(m, p)))
  }

  /** The size of the object at p. A forwarded object is measured where it went. */
  function SizeofObject(e: Model, m: Mem, p: int): int {
    var q := if Rd(m, p - HEADER_SIZE) == FORWARDED then Rd(m, p) else p;
    SizeWithHeader(e, m, q, Rd(m, q - HEADER_SIZE))
  }

  /** An array starts with its counter, which is zero outside marking. */
  function AdvanceToObjectData(m: Mem, front: int): int {
    if Rd(m, front) == 0 then front + ARRAY_HEADER_SIZE else front + HEADER_SIZE
  }

  // ------------------------------------------------------------------- slots

  /** n consecutive pointer slots starting at a. */
  function SlotRun(a: int, n: nat): (s: seq<int>)
    ensures |s| == n && forall k :: 0 <= k < n ==> s[k] == a + OBJPTR_SIZE * k
  {
    seq(n, k => a + OBJPTR_SIZE * k)
  }

  function ArraySlots(a: int, len: nat, t: ObjectType): seq<int>
    decreases len
  {
    if len == 0 then []
    else SlotRun(a + t.bytesNonObjptrs, t.numObjptrs) + ArraySlots(a + FixedBytes(t), len - 1, t)
  }

  /** The addresses of all pointer slots of the object at p, in walk order. */
  function Slots(t: ObjectType, p: int, len: nat): seq<int> {
    match t.tag
    case NormalTag => SlotRun(p + t.bytesNonObjptrs, t.numObjptrs)
    case WeakTag => if t.numObjptrs == 1 then [p + t.bytesNonObjptrs] else []
    case ArrayTag => if t.numObjptrs == 0 then [] else ArraySlots(p, len, t)
    case _ => []
  }

  /** Slots lie in [lo, hi), eight bytes apart, at addresses a header never has. */
  ghost predicate Spaced(s: seq<int>, lo: int, hi: int) {
    && (forall k :: 0 <= k < |s| ==> lo <= s[k] && s[k] + OBJPTR_SIZE <= hi && IsObjptr(s[k]))
    && (forall j, k :: 0 <= j < k < |s| ==> s[j] + OBJPTR_SIZE <= s[k])
  }

  lemma {:induction false} ArraySlotsSpaced(a: int, len: nat, t: ObjectType)
    requires IsObjptr(a) && t.bytesNonObjptrs % 4 == 0
    ensures Spaced(ArraySlots(a, len, t), a, a + ArrayBytes(len, t))
    decreases len
  {
    if len > 0 {
      var next := a + FixedBytes(t);
      ArraySlotsSpaced(next, len - 1, t);
    }
  }

  lemma ArrayNoHeaderCovers(e: Model, len: nat, t: ObjectType)
    ensures Max(ArrayBytes(len, t), OBJPTR_SIZE) <= ArrayNoHeader(e, len, t)
    ensures IsAligned(ARRAY_HEADER_SIZE + ArrayNoHeader(e, len, t), e.alignment)
  {
    AlignIsLeast(Max(ArrayBytes(len, t), OBJPTR_SIZE) + ARRAY_HEADER_SIZE, e.alignment);
  }

  /** Every slot of an object lies inside it, past its header. */
  lemma SlotsSpaced(e: Model, t: ObjectType, p: int, len: nat, gap: nat)
    requires IsObjptr(p) && (t.numObjptrs > 0 ==> t.bytesNonObjptrs % 4 == 0)
    ensures Spaced(Slots(t, p, len), p, p - HeaderBytes(t) + SizeByType(e, t, len, gap))
  {
    hide ArrayNoHeader;
    if t.tag == ArrayTag && t.numObjptrs > 0 {
      ArraySlotsSpaced(p, len, t);
      ArrayNoHeaderCovers(e, len, t);
    }
  }

  // -------------------------------------------------------------------- walk

  /** foreachObjptrInObject. The visitor is represented by the slots it is
      offered, in order. */
  method ForeachObjptrInObject(e: Model, m: Mem, data: int, skipWeaks: bool) returns (end: int, offered: seq<int>)
    requires ValidModel(e)
    requires var t := TypeOf(e, Rd(m, data - HEADER_SIZE));
      ValidType(e, t) && t.tag != StackTag
    ensures var t := TypeOf(e, Rd(m, data - HEADER_SIZE));
      && end == data - HeaderBytes(t) + SizeWithHeader(e, m, data, Rd(m, data - HEADER_SIZE))
      && offered == if skipWeaks && t.tag == WeakTag then [] else Slots(t, data, Length(Rd(m, data - 16)))
  {
    var t := TypeOf(e, Rd(m, data - HEADER_SIZE));
    var p := data;
    offered := [];
    if t.tag == NormalTag {
      p := p + t.bytesNonObjptrs;
      p, offered := OfferRun(p, t.numObjptrs);
    } else if t.tag == WeakTag {
      p := p + t.bytesNonObjptrs;
      if t.numObjptrs == 1 {
        if !skipWeaks { offered := [p]; }
        p := p + OBJPTR_SIZE;
      }
    } else if t.tag == ArrayTag {
      p, offered := OfferArray(e, t, data, Length(Rd(m, data - 16)));
    } else if t.tag == FillTag {
      p := p + SMALL_GAP_SIZE_SIZE + Length(Rd(m, data));
    }
    end := p;
  }

  method OfferRun(start: int, n: nat) returns (p: int, offered: seq<int>)
    ensures p == start + n * OBJPTR_SIZE && offered == SlotRun(start, n)
  {
    p, offered := start, [];
    var max := start + n * OBJPTR_SIZE;
    while p < max
      invariant |offered| <= n && p == start + OBJPTR_SIZE * |offered|
      invariant forall k :: 0 <= k < |offered| ==> offered[k] == start + OBJPTR_SIZE * k
    {
      offered := offered + [p];
      p := p + OBJPTR_SIZE;
    }
  }

  method OfferArray(e: Model, t: ObjectType, data: int, len: nat) returns (p: int, offered: seq<int>)
    requires ValidModel(e) && ValidType(e, t) && t.tag == ArrayTag
    ensures p == data + ArrayNoHeader(e, len, t) && offered == Slots(t, data, len)
  {
    p, offered := data, [];
    var dataBytes := ArrayBytes(len, t);
    if dataBytes < OBJPTR_SIZE {
      SmallArrayHasNoSlots(t, data, len);
      dataBytes := OBJPTR_SIZE;
    } else if t.numObjptrs == 0 {
    } else {
      var last := p + dataBytes;
      if t.bytesNonObjptrs == 0 {
        PointerArraySlots(t, data, len);
        p, offered := OfferRun(p, len * t.numObjptrs);
      } else {
        p, offered := OfferMixed(t, data, len, last);
      }
      p := p - dataBytes;
    }
    p := p + AlignWithExtra(e, dataBytes, ARRAY_HEADER_SIZE);
  }

  method OfferMixed(t: ObjectType, data: int, len: nat, last: int) returns (p: int, offered: seq<int>)
    requires last == data + ArrayBytes(len, t) && t.numObjptrs > 0
    ensures p == last && offered == ArraySlots(data, len, t)
  {
    hide ArraySlots, ArrayBytes, FixedBytes, SlotRun;
    p, offered := data, [];
    ghost var left: nat := len;
    while p < last
      invariant left <= len && p == last - ArrayBytes(left, t)
      invariant offered + ArraySlots(p, left, t) == ArraySlots(data, len, t)
      decreases left
    {
      var more;
      NextElement(t, p, left, offered);
      p, more := OfferRun(p + t.bytesNonObjptrs, t.numObjptrs);
      offered := offered + more;
      left := left - 1;
    }
    NextElement(t, p, left, offered);
  }

  lemma NextElement(t: ObjectType, p: int, left: nat, offered: seq<int>)
    requires t.numObjptrs > 0
    ensures left == 0 ==> ArrayBytes(left, t) == 0 && offered + ArraySlots(p, left, t) == offered
    ensures left > 0 ==>
      && ArrayBytes(left, t) == t.bytesNonObjptrs + t.numObjptrs * OBJPTR_SIZE + ArrayBytes(left - 1, t) > 0
      && offered + ArraySlots(p, left, t) ==
           offered + SlotRun(p + t.bytesNonObjptrs, t.numObjptrs) + ArraySlots(p + t.bytesNonObjptrs + t.numObjptrs * OBJPTR_SIZE, left - 1, t)
  {
    if left > 0 {
      var run, rest := SlotRun(p + t.bytesNonObjptrs, t.numObjptrs), ArraySlots(p + FixedBytes(t), left - 1, t);
      assert offered + (run + rest) == offered + run + rest;
    }
  }

  lemma {:induction false} SmallArrayHasNoSlots(t: ObjectType, data: int, len: nat)
    requires t.tag == ArrayTag && ArrayBytes(len, t) < OBJPTR_SIZE
    ensures Slots(t, data, len) == []
  {
  }

  lemma {:induction false} PointerArraySlots(t: ObjectType, data: int, len: nat)
    requires t.bytesNonObjptrs == 0
    ensures ArraySlots(data, len, t) == SlotRun(data, len * t.numObjptrs)
    ensures ArrayBytes(len, t) == len * t.numObjptrs * OBJPTR_SIZE
    decreases len
  {
    if len > 0 {
      PointerArraySlots(t, data + FixedBytes(t), len - 1);
      assert len * t.numObjptrs == t.numObjptrs + (len - 1) * t.numObjptrs;
    }
  }
}
