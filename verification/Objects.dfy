/** Headers, object types, object sizes and the walk over an object, for the
    64-bit native model: object pointers, headers and array lengths all take
    eight bytes. */
module Objects {
  import opened Memory

  const OBJPTR_SIZE := 8
  const HEADER_SIZE := 8
  const ARRAY_HEADER_SIZE := 24
  const SMALL_GAP_SIZE_SIZE := 4
  const BONUS_SLOP := HEADER_SIZE + SMALL_GAP_SIZE_SIZE

  /** The all-ones header left behind by an object that has moved away. */
  const FORWARDED := 0xFFFF_FFFF_FFFF_FFFF
  const BOGUS_OBJPTR := 1

  const WORD8_VECTOR_TYPE_INDEX := 3
  const HEADER_ONLY_TYPE_INDEX := 7
  const FILL_TYPE_INDEX := 8
  const MAX_OBJPTRS_PER_COUNTER := 0x800

  // ------------------------------------------------------------- header bits

  predicate IsHeader(w: int) { w % 2 == 1 }

  predicate IsObjptr(w: int) { w % 4 == 0 }

  function TypeIndex(h: int): int { (h / 2) % 0x1_0000 }

  predicate IsMarked(h: int) { (h / 0x8000_0000) % 2 == 1 }

  function ToggleMark(h: int): int {
    if IsMarked(h) then h - 0x8000_0000 else h + 0x8000_0000
  }

  predicate IsLifted(h: int) { h != FORWARDED && (h / 0x8_0000) % 2 == 1 }

  function Counter(h: int): int { (h / 0x10_0000) % 0x800 }

  function SetCounter(h: int, i: int): int { h + (i - Counter(h)) * 0x10_0000 }

  function BuildHeader(typeIndex: int): int { 1 + 2 * typeIndex }

  lemma ToggleMarkKeepsTheRest(h: int)
    ensures IsMarked(ToggleMark(h)) == !IsMarked(h)
    ensures IsHeader(ToggleMark(h)) == IsHeader(h)
    ensures TypeIndex(ToggleMark(h)) == TypeIndex(h)
    ensures Counter(ToggleMark(h)) == Counter(h)
    ensures ToggleMark(ToggleMark(h)) == h
  {
    var low, high := h % 0x8000_0000, h / 0x8000_0000;
    var g := ToggleMark(h);
    var high' := if high % 2 == 1 then high - 1 else high + 1;
    assert g == low + high' * 0x8000_0000;
    assert g / 0x8000_0000 == high' && g % 0x8000_0000 == low;
    LowBitsOnly(h, g);
  }

  lemma LowBitsOnly(h: int, g: int)
    requires h % 0x8000_0000 == g % 0x8000_0000
    ensures IsHeader(h) == IsHeader(g) && TypeIndex(h) == TypeIndex(g) && Counter(h) == Counter(g)
  {
    LowBits(h);
    LowBits(g);
  }

  lemma LowBits(h: int)
    ensures var low := h % 0x8000_0000;
      h % 2 == low % 2 && TypeIndex(h) == low / 2 % 0x1_0000 && Counter(h) == low / 0x10_0000
  {
    var low, high := h % 0x8000_0000, h / 0x8000_0000;
    LowTypeIndex(low, high);
    LowCounter(low, high);
  }

  lemma LowTypeIndex(low: int, high: int)
    requires 0 <= low < 0x8000_0000
    ensures (low + high * 0x8000_0000) % 2 == low % 2
    ensures TypeIndex(low + high * 0x8000_0000) == low / 2 % 0x1_0000
  {
    var h, half := low + high * 0x8000_0000, low / 2;
    assert h == 2 * (half + high * 0x4000_0000) + low % 2;
    assert h / 2 == half + high * 0x4000_0000;
    Mod16Bits(half, high * 0x4000);
  }

  lemma Mod16Bits(x: int, y: int)
    ensures (x + 0x1_0000 * y) % 0x1_0000 == x % 0x1_0000
  {
    assert x + 0x1_0000 * y == 0x1_0000 * (x / 0x1_0000 + y) + x % 0x1_0000;
  }

  lemma LowCounter(low: int, high: int)
    requires 0 <= low < 0x8000_0000
    ensures Counter(low + high * 0x8000_0000) == low / 0x10_0000
  {
    var h := low + high * 0x8000_0000;
    assert h / 0x10_0000 == low / 0x10_0000 + 0x800 * high;
  }

  /** A counter that fits its eleven bits leaves every other header field alone. */
  lemma SetCounterKeepsTheRest(h: int, i: int)
    requires 0 <= i < MAX_OBJPTRS_PER_COUNTER
    ensures Counter(SetCounter(h, i)) == i
    ensures IsHeader(SetCounter(h, i)) == IsHeader(h)
    ensures TypeIndex(SetCounter(h, i)) == TypeIndex(h)
    ensures IsMarked(SetCounter(h, i)) == IsMarked(h)
    ensures SetCounter(SetCounter(h, i), Counter(h)) == h
  {
    hide Counter, TypeIndex;
    var low, high := FieldsOf(h);
    CounterFields(low, Counter(h), high);
    CounterFields(low, i, high);
  }

  lemma FieldsOf(h: int) returns (low: int, high: int)
    ensures 0 <= low < 0x10_0000 && 0 <= Counter(h) < 0x800
    ensures h == low + Counter(h) * 0x10_0000 + high * 0x8000_0000
  {
    var q := h / 0x10_0000;
    low, high := h % 0x10_0000, q / 0x800;
    assert q == Counter(h) + high * 0x800;
  }

  lemma CounterFields(low: int, mid: int, high: int)
    requires 0 <= low < 0x10_0000 && 0 <= mid < 0x800
    ensures var g := low + mid * 0x10_0000 + high * 0x8000_0000;
      Counter(g) == mid && g / 0x8000_0000 == high && g % 2 == low % 2 && TypeIndex(g) == low / 2 % 0x1_0000
  {
    var sub := low + mid * 0x10_0000;
    LowCounter(sub, high);
    LowTypeIndex(sub, high);
    SubTypeIndex(low, mid);
    assert sub / 0x10_0000 == mid;
  }

  lemma SubTypeIndex(low: int, mid: int)
    requires 0 <= low < 0x10_0000 && 0 <= mid
    ensures (low + mid * 0x10_0000) % 2 == low % 2
    ensures (low + mid * 0x10_0000) / 2 % 0x1_0000 == low / 2 % 0x1_0000
  {
    var g := low + mid * 0x10_0000;
    assert g == 2 * (low / 2 + mid * 0x8_0000) + low % 2;
    assert g / 2 == low / 2 + mid * 0x8_0000;
    Mod16Bits(low / 2, mid * 8);
  }

  // ------------------------------------------------------------ object types

  datatype Tag = ArrayTag | NormalTag | StackTag | WeakTag | HeaderOnlyTag | FillTag

  datatype ObjectType = ObjectType(tag: Tag, hasIdentity: bool, bytesNonObjptrs: nat, numObjptrs: nat)

  const HEADER_ONLY_TYPE := ObjectType(HeaderOnlyTag, false, 0, 0)
  const FILL_TYPE := ObjectType(FillTag, false, 0, 0)
  const WORD8_VECTOR_TYPE := ObjectType(ArrayTag, false, 1, 0)

  type Positive = n: int | 0 < n witness 1

  /** The compiled program's object types and the alignment it was built for. */
  datatype Model = Model(types: seq<ObjectType>, alignment: Positive)

  /** splitHeader looks a type up in the table; a forwarding header has none. */
  predicate HasType(e: Model, h: int) { TypeIndex(h) < |e.types| }

  /** What splitHeader reads. Header bits it masks out do not take part. */
  function TypeOf(e: Model, h: int): ObjectType {
    if TypeIndex(h) < |e.types| then e.types[TypeIndex(h)] else HEADER_ONLY_TYPE
  }

  predicate ValidType(e: Model, t: ObjectType) {
    match t.tag
    case NormalTag => (HEADER_SIZE + FixedBytes(t)) % e.alignment == 0 && OBJPTR_SIZE <= FixedBytes(t) && t.bytesNonObjptrs % 4 == 0
    case WeakTag => (HEADER_SIZE + FixedBytes(t)) % e.alignment == 0 && OBJPTR_SIZE <= FixedBytes(t) && t.bytesNonObjptrs % 4 == 0 && t.numObjptrs <= 1
    case ArrayTag => t.numObjptrs > 0 ==> t.bytesNonObjptrs % 4 == 0
    case _ => t.numObjptrs == 0
  }

  predicate ValidModel(e: Model)
  {
    && e.alignment % 4 == 0
    && FILL_TYPE_INDEX < |e.types| <= 0xFFFF
    && e.types[WORD8_VECTOR_TYPE_INDEX] == WORD8_VECTOR_TYPE
    && e.types[HEADER_ONLY_TYPE_INDEX] == HEADER_ONLY_TYPE
    && e.types[FILL_TYPE_INDEX] == FILL_TYPE
    && (forall t :: t in e.types ==> ValidType(e, t) && t.numObjptrs <= MAX_OBJPTRS_PER_COUNTER)
  }

  function FixedBytes(t: ObjectType): nat { t.bytesNonObjptrs + t.numObjptrs * OBJPTR_SIZE }
}
