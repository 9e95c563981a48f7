/** A heap seen as the sequence of objects that tile it. */
module HeapObjects {
  import opened Memory
  import opened Objects
  import opened Layout

  /** An object of a tiled heap. Only live objects have slots of interest. */
  datatype Object = Object(start: int, data: int, size: int, slots: seq<int>, live: bool) {
    function End(): int { start + size }
  }

  predicate IsLiveHeader(h: int) { IsHeader(h) && IsMarked(h) && h != FORWARDED }

  /** o is what the words of m say is at o.start. */
  ghost predicate Describes(e: Model, m: Mem, o: Object) {
    var h := Rd(m, o.data - HEADER_SIZE);
    && o.data == AdvanceToObjectData(m, o.start)
    && IsHeader(h)
    && o.live == IsLiveHeader(h)
    && 0 < o.size && o.data <= o.End()
    && IsAligned(o.size, e.alignment)
    && IsObjptr(o.data)
    && if o.live then DescribesLive(e, m, o, h) else DescribesDead(e, m, o)
  }

  ghost predicate DescribesLive(e: Model, m: Mem, o: Object, h: int) {
    var t := TypeOf(e, h);
    && t.tag in {NormalTag, WeakTag, ArrayTag}
    && ValidType(e, t)
    && o.data == o.start + HeaderBytes(t)
    && o.size == SizeWithHeader(e, m, o.data, h)
    && o.slots == Slots(t, o.data, Length(Rd(m, o.data - 16)))
  }

  ghost predicate DescribesDead(e: Model, m: Mem, o: Object) {
    && o.slots == []
    && o.size == SizeofObject(e, m, o.data)
    && var h := Rd(m, o.data - HEADER_SIZE);
      if h == FORWARDED then o.data < o.End() else o.data == o.start + HeaderBytes(TypeOf(e, h))
  }

  /** The start of the i-th object, or the end of them all. */
  ghost function Edge(objs: seq<Object>, hi: int, i: nat): int {
    if i < |objs| then objs[i].start else hi
  }

  ghost predicate Tiled(objs: seq<Object>, lo: int, hi: int) {
    && Edge(objs, hi, 0) == lo
    && forall i {:trigger objs[i].size} :: 0 <= i < |objs| ==> 0 < objs[i].size && objs[i].End() == Edge(objs, hi, i + 1)
  }

  lemma {:induction false} EdgesIncrease(objs: seq<Object>, lo: int, hi: int, i: nat, j: nat)
    requires Tiled(objs, lo, hi) && i < j <= |objs|
    ensures objs[i].End() <= Edge(objs, hi, j)
    decreases j - i
  {
    if i + 1 < j { EdgesIncrease(objs, lo, hi, i + 1, j); }
  }

  /** Where an object lies is all there is to know about which one it is. */
  lemma ObjectOfAddress(objs: seq<Object>, lo: int, hi: int, i: nat, j: nat, a: int)
    requires Tiled(objs, lo, hi) && i < |objs| && j < |objs|
    requires objs[i].start <= a < objs[i].End() && objs[j].start <= a < objs[j].End()
    ensures i == j
  {
    if i < j { EdgesIncrease(objs, lo, hi, i, j); }
    if j < i { EdgesIncrease(objs, lo, hi, j, i); }
  }

  lemma TiledRange(objs: seq<Object>, lo: int, hi: int, i: nat)
    requires Tiled(objs, lo, hi) && i < |objs|
    ensures lo <= objs[i].start < objs[i].End() <= hi
  {
    EdgesIncrease(objs, lo, hi, i, |objs|);
    if i > 0 { EdgesIncrease(objs, lo, hi, 0, i); }
  }

  lemma TiledAppend(objs: seq<Object>, lo: int, mid: int, more: seq<Object>, hi: int)
    requires Tiled(objs, lo, mid) && Tiled(more, mid, hi)
    ensures Tiled(objs + more, lo, hi)
  {
    var all := objs + more;
    forall i {:trigger all[i].size} | 0 <= i < |all| ensures 0 < all[i].size && all[i].End() == Edge(all, hi, i + 1) {
      if i < |objs| { assert all[i] == objs[i]; } else { assert all[i] == more[i - |objs|]; }
    }
  }

  lemma TiledSlice(objs: seq<Object>, lo: int, hi: int, i: nat, j: nat)
    requires Tiled(objs, lo, hi) && i <= j <= |objs|
    ensures Tiled(objs[i..j], Edge(objs, hi, i), Edge(objs, hi, j))
  {
    var part := objs[i..j];
    forall k {:trigger part[k].size} | 0 <= k < |part| ensures 0 < part[k].size && part[k].End() == Edge(part, Edge(objs, hi, j), k + 1) {
      assert part[k] == objs[i + k];
    }
  }

  /** The cells outside the heap that the size of a forwarded object is read from. */
  ghost predicate ForwardingCell(m: Mem, o: Object, a: int) {
    && Rd(m, o.data - HEADER_SIZE) == FORWARDED
    && (a == Rd(m, o.data) || a == Rd(m, o.data) - 8 || a == Rd(m, o.data) - 16)
  }

  /** The cells that say what an object is: those before its data, the gap size
      of a filler and, once it is forwarded, those of the object it became. */
  ghost predicate DescriptionCell(m: Mem, o: Object, a: int) {
    || o.start <= a < o.data
    || (!o.live && o.start <= a < o.End())
    || ForwardingCell(m, o, a)
  }

  lemma DescribesFrame(e: Model, m: Mem, m': Mem, o: Object)
    requires ValidModel(e) && Describes(e, m, o)
    requires forall a {:trigger Rd(m', a)} :: DescriptionCell(m, o, a) ==> Rd(m', a) == Rd(m, a)
    ensures Describes(e, m', o)
  {
    hide ArrayNoHeader, IsAligned, IsMarked, TypeIndex;
    assert Rd(m', o.start) == Rd(m, o.start);
    assert o.data == o.start + HEADER_SIZE || o.data == o.start + ARRAY_HEADER_SIZE;
    assert Rd(m', o.data - HEADER_SIZE) == Rd(m, o.data - HEADER_SIZE);
    var h := Rd(m, o.data - HEADER_SIZE);
    var t := TypeOf(e, h);
    if h == FORWARDED {
      var q := Rd(m, o.data);
      assert Rd(m', o.data) == q;
      assert Rd(m', q) == Rd(m, q) && Rd(m', q - 8) == Rd(m, q - 8) && Rd(m', q - 16) == Rd(m, q - 16);
    } else {
      assert t.tag == ArrayTag ==> Rd(m', o.data - 16) == Rd(m, o.data - 16);
      assert t.tag == FillTag ==> Rd(m', o.data) == Rd(m, o.data);
    }
  }
}
