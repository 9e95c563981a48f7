/** Filling unused heap space with one dead object (garbage-collection.c). */
module FillGap {
  import opened Memory
  import opened Objects
  import opened Layout

  /** The gaps that fillGap has an object for. */
  predicate Fillable(gap: int) { gap == 0 || gap == HEADER_SIZE || BONUS_SLOP <= gap }

  /** One pointer-free object starts at start, and both walks, sizeofObject and
      foreachObjptrInObject, step from it to end. */
  predicate WalksTo(e: Model, m: Mem, start: int, end: int) {
    var p := AdvanceToObjectData(m, start);
    var h := Rd(m, p - HEADER_SIZE);
    var t := TypeOf(e, h);
    && IsHeader(h) && !IsMarked(h)
    && ValidType(e, t) && t.tag != StackTag && t.numObjptrs == 0
    && p - HeaderBytes(t) == start
    && start + SizeofObject(e, m, p) == end
    && p - HeaderBytes(t) + SizeWithHeader(e, m, p, h) == end
  }

  lemma ByteVectorSize(e: Model, len: nat)
    requires ValidModel(e)
    ensures OBJPTR_SIZE <= len ==> ArrayNoHeader(e, len, WORD8_VECTOR_TYPE) == Align(len + ARRAY_HEADER_SIZE, e.alignment) - ARRAY_HEADER_SIZE
    ensures len < OBJPTR_SIZE ==> ArrayNoHeader(e, len, WORD8_VECTOR_TYPE) == ArrayNoHeader(e, OBJPTR_SIZE, WORD8_VECTOR_TYPE)
  {
    hide Align;
    ArrayBytesIsProduct(len, WORD8_VECTOR_TYPE);
    ArrayBytesIsProduct(OBJPTR_SIZE, WORD8_VECTOR_TYPE);
  }

  /** The words of a filler, as fillGap writes them. */
  predicate HoldsFiller(m: Mem, start: int, end: int) {
    var diff := end - start;
    if ARRAY_HEADER_SIZE + OBJPTR_SIZE <= diff then
      Rd(m, start) == 0 && Rd(m, start + 8) == diff - ARRAY_HEADER_SIZE && Rd(m, start + 16) == BuildHeader(WORD8_VECTOR_TYPE_INDEX)
    else if diff == HEADER_SIZE then Rd(m, start) == BuildHeader(HEADER_ONLY_TYPE_INDEX)
    else BONUS_SLOP <= diff && Rd(m, start) == BuildHeader(FILL_TYPE_INDEX) && Rd(m, start + HEADER_SIZE) == diff - BONUS_SLOP
  }

  /** A filler is walked to its end exactly if it is small or its size is a
      multiple of the alignment. */
  lemma FillerWalks(e: Model, m: Mem, start: int, end: int)
    requires ValidModel(e) && HoldsFiller(m, start, end)
    ensures WalksTo(e, m, start, end) <==> end - start < ARRAY_HEADER_SIZE + OBJPTR_SIZE || IsAligned(end - start, e.alignment)
  {
    hide Align, ArrayNoHeader;
    var diff := end - start;
    if ARRAY_HEADER_SIZE + OBJPTR_SIZE <= diff {
      var p := start + ARRAY_HEADER_SIZE;
      ByteVectorSize(e, diff - ARRAY_HEADER_SIZE);
      AlignIsLeast(diff, e.alignment);
      assert TypeOf(e, Rd(m, p - HEADER_SIZE)) == WORD8_VECTOR_TYPE;
      assert SizeofObject(e, m, p) == Align(diff, e.alignment);
    }
  }

  /** fillGap. It gives up on a gap too small for any filler; a gap of a whole
      vector is walked to its end exactly when it is a multiple of the
      alignment. */
  method FillGap(e: Model, m: Mem, start: int, end: int) returns (r: Mem, filled: int, fatal: bool)
    requires ValidModel(e) && start <= end
    ensures fatal <==> start != 0 && !Fillable(end - start)
    ensures !fatal ==> filled == if start == 0 then 0 else end - start
    ensures !fatal && start != 0 && start < end ==>
      && HoldsFiller(r, start, end)
      && (WalksTo(e, r, start, end) <==> end - start < ARRAY_HEADER_SIZE + OBJPTR_SIZE || IsAligned(end - start, e.alignment))
    ensures forall a {:trigger Rd(r, a)} :: !(start <= a < end) ==> Rd(r, a) == Rd(m, a)
  {
    var diff := end - start;
    r, filled, fatal := m, 0, false;
    if diff == 0 || start == 0 {
      return;
    }
    filled := diff;
    if ARRAY_HEADER_SIZE + OBJPTR_SIZE <= diff {
      r := FilledWithVector(m, start, diff);
    } else if diff == HEADER_SIZE {
      r := r[start := BuildHeader(HEADER_ONLY_TYPE_INDEX)];
    } else if BONUS_SLOP <= diff {
      r := r[start := BuildHeader(FILL_TYPE_INDEX)];
      r := r[start + HEADER_SIZE := diff - BONUS_SLOP];
    } else {
      fatal := true;
      return;
    }
    FillerWalks(e, r, start, end);
  }

  /** Counter, length and header of a byte vector that takes diff bytes. */
  function FilledWithVector(m: Mem, start: int, diff: int): (r: Mem)
    ensures Rd(r, start) == 0 && Rd(r, start + 8) == diff - ARRAY_HEADER_SIZE
    ensures Rd(r, start + 16) == BuildHeader(WORD8_VECTOR_TYPE_INDEX)
    ensures forall a {:trigger Rd(r, a)} :: a != start && a != start + 8 && a != start + 16 ==> Rd(r, a) == Rd(m, a)
  {
    m[start := 0][start + 8 := diff - ARRAY_HEADER_SIZE][start + 16 := BuildHeader(WORD8_VECTOR_TYPE_INDEX)]
  }

  lemma VectorWalks(e: Model, m: Mem, start: int, diff: int)
    requires ValidModel(e) && ARRAY_HEADER_SIZE + OBJPTR_SIZE <= diff
    ensures WalksTo(e, FilledWithVector(m, start, diff), start, start + diff) <==> IsAligned(diff, e.alignment)
  {
    hide FilledWithVector, WalksTo;
    FillerWalks(e, FilledWithVector(m, start, diff), start, start + diff);
  }
}
