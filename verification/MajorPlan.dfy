/** From a marked heap to the plan of its compaction. */
module MajorPlan {
  import opened Memory
  import opened Objects
  import opened Layout
  import opened HeapObjects
  import opened CompactionPlan
  import MarkGraph
  import MarkState
  import MarkSteps
  import opened MarkRoots
  import opened MarkWeaks

  // ------------------------------------------------------- slots and the cursor

  lemma {:induction false} ArraySlotsAre(base: int, t: ObjectType, p: int, len: nat, from: nat, x: int)
    requires from <= len && base == p + ArrayBytes(from, t)
    ensures x in ArraySlots(base, len - from, t) <==>
      exists a: nat, j: nat {:trigger MarkGraph.SlotAt(p, t, a, j)} :: from <= a < len && j < t.numObjptrs && x == MarkGraph.SlotAt(p, t, a, j)
    decreases len - from
  {
    if from < len {
      ArraySlotsAre(base + FixedBytes(t), t, p, len, from + 1, x);
      var run := SlotRun(base + t.bytesNonObjptrs, t.numObjptrs);
      if x in run {
        var j :| 0 <= j < |run| && run[j] == x;
        assert x == MarkGraph.SlotAt(p, t, from, j);
      }
      if a: nat, j: nat :| from <= a < len && j < t.numObjptrs && x == MarkGraph.SlotAt(p, t, a, j) {
        if a == from { assert run[j] == x; }
      }
    }
  }

  lemma SlotsAre(s: MarkGraph.Shape, p: int, x: int)
    requires s.t.tag in {NormalTag, ArrayTag}
    ensures x in Slots(s.t, p, s.len) <==> exists a, j {:trigger MarkGraph.SlotAt(p, s.t, a, j)} :: MarkGraph.IsCursor(s, a, j) && x == MarkGraph.SlotAt(p, s.t, a, j)
  {
    if s.t.tag == ArrayTag {
      if s.t.numObjptrs > 0 { ArraySlotsAre(p, s.t, p, s.len, 0, x); }
    } else {
      var run := SlotRun(p + s.t.bytesNonObjptrs, s.t.numObjptrs);
      if x in run {
        var j :| 0 <= j < |run| && run[j] == x;
        assert x == MarkGraph.SlotAt(p, s.t, 0, j);
      }
      if a, j :| MarkGraph.IsCursor(s, a, j) && x == MarkGraph.SlotAt(p, s.t, a, j) { assert run[j] == x; }
    }
  }

  // ---------------------------------------------------------- the tiled heap

  /** The heap of c is tiled by objs, none of them marked. */
  ghost predicate TiledHeap(c: Major, objs: seq<Object>, lo: int, hi: int) {
    && Tiled(objs, lo, hi) && 0 < lo
    && (forall o {:trigger o in objs} :: o in objs ==> Describes(c.e, c.m0, o) && !o.live)
    && (forall p {:trigger p in c.g} :: p in c.g ==> exists i {:trigger objs[i]} :: 0 <= i < |objs| && objs[i].data == p)
    && (forall o, a {:trigger ForwardingCell(c.m0, o, a)} :: o in objs && ForwardingCell(c.m0, o, a) ==> !(lo <= a < hi) && a !in c.roots)
  }

  ghost predicate RootCells(c: Major, lo: int, hi: int) {
    && (forall s {:trigger s in c.roots} :: s in c.roots ==> !(lo <= s < hi) && IsObjptr(s) && s != 0)
    && forall i, j :: 0 <= i < j < |c.roots| ==> c.roots[i] != c.roots[j]
  }

  predicate WeakGoneOk(e: Model) {
    && WEAK_GONE_TYPE_INDEX < |e.types|
    && e.types[WEAK_GONE_TYPE_INDEX].tag == WeakTag && e.types[WEAK_GONE_TYPE_INDEX].numObjptrs == 0
    && HEADER_SIZE + FixedBytes(e.types[WEAK_GONE_TYPE_INDEX]) == MarkGraph.WeakSize(e)
  }

  /** The object of the graph at p occupies one tile. */
  lemma NodeTile(c: Major, objs: seq<Object>, lo: int, hi: int, o: Object)
    requires ValidMajor(c) && TiledHeap(c, objs, lo, hi) && o in objs && o.data in c.g
    ensures var s := c.g[o.data];
      && o.start == o.data - HeaderBytes(s.t) && o.size == SizeByType(c.e, s.t, s.len, 0)
      && forall x {:trigger MarkGraph.InExtent(c.e, c.g, o.data, x)} :: MarkGraph.InExtent(c.e, c.g, o.data, x) <==> o.start <= x < o.End()
  {
    hide ArrayNoHeader, IsAligned, IsMarked, TypeIndex, MarkGraph.Apart, TargetsOk, Tiled, RootOk;
    assert MarkGraph.IsNode(c.e, c.m0, o.data, c.g[o.data]);
    NotForwarded(Rd(c.m0, o.data - HEADER_SIZE));
  }

  lemma NotForwarded(h: int)
    ensures Counter(h) == 0 ==> h != FORWARDED
  {
  }

  /** Nothing of the graph lies in the tile of an object that is not part of it,
      nor in the cells outside the heap. */
  lemma OtherCells(c: Major, objs: seq<Object>, lo: int, hi: int, x: int)
    requires ValidMajor(c) && TiledHeap(c, objs, lo, hi)
    requires (exists o :: o in objs && o.data !in c.g && o.start <= x < o.End()) || !(lo <= x < hi)
    ensures MarkGraph.Outside(c.e, c.g, x)
  {
    hide ValidMajor, Describes, MarkGraph.InObject;
    forall p {:trigger MarkGraph.InExtent(c.e, c.g, p, x)} ensures !MarkGraph.InExtent(c.e, c.g, p, x) {
      if p in c.g {
        var i :| 0 <= i < |objs| && objs[i].data == p;
        assert objs[i] in objs;
        NodeTile(c, objs, lo, hi, objs[i]);
        TiledRange(objs, lo, hi, i);
        if o :| o in objs && o.data !in c.g && o.start <= x < o.End() {
          var j :| 0 <= j < |objs| && objs[j] == o;
          if objs[i].start <= x < objs[i].End() { ObjectOfAddress(objs, lo, hi, i, j, x); }
        }
      }
    }
  }

  // ---------------------------------------------- the words before compaction

  /** m is the marked heap with its weak pointers settled. */
  ghost predicate Marked(c: Major, order: seq<int>, m1: Mem, weaks: int, m: Mem) {
    && MarkedUpTo(c, m1, weaks, order, |c.roots|)
    && Settled(c, m1, order, Linked(c, order), m)
  }

  /** The weak object p is marked but its target is not. */
  ghost predicate LostTarget(c: Major, order: seq<int>, p: int) {
    && p in order && p in c.g && c.g[p].t.tag == WeakTag
    && IsObjptr(Rd(c.m0, MarkGraph.WeakCell(c.e, p))) && !ReadsMarked(c, order, Rd(c.m0, MarkGraph.WeakCell(c.e, p)))
  }

  lemma LostIsCleared(c: Major, order: seq<int>, m1: Mem, weaks: int, p: int)
    requires ValidMajor(c) && MarkedUpTo(c, m1, weaks, order, |c.roots|) && p in c.g
    ensures Cleared(c, order, Linked(c, order), p) <==> LostTarget(c, order, p)
  {
    hide ValidMajor, MarkedUpTo;
    if p in Linked(c, order) { LinkedIs(c, m1, weaks, order, p); }
    if LostTarget(c, order, p) { LinkedIfReached(MarkRoots.TaskFrom(c, 0), order, p); }
  }

  lemma {:induction false} LinkedIfReached(t: MarkState.Task, order: seq<int>, p: int)
    requires p in order && MarkState.LinksWeak(t, p)
    ensures p in MarkState.WeaksOf(t, order)
    decreases |order|
  {
    hide MarkState.LinksWeak;
    if order[|order| - 1] != p { LinkedIfReached(t, order[..|order| - 1], p); }
  }

  /** A cell of an object of the graph, before compaction. */
  lemma NodeCell(c: Major, order: seq<int>, m1: Mem, weaks: int, m: Mem, p: int, x: int)
    requires ValidMajor(c) && Marked(c, order, m1, weaks, m) && MarkGraph.InExtent(c.e, c.g, p, x)
    requires !(c.g[p].t.tag == WeakTag && x == MarkGraph.LinkCell(c.e, p))
    ensures Rd(m, x) ==
      if x == p - HEADER_SIZE && LostTarget(c, order, p) then MARKED_WEAK_GONE
      else if x == MarkGraph.WeakCell(c.e, p) && LostTarget(c, order, p) then BOGUS_OBJPTR
      else if x == p - HEADER_SIZE && p in order then ToggleMark(Rd(c.m0, x))
      else Rd(c.m0, x)
  {
    hide MarkGraph.Nodes, MarkGraph.Apart, TargetsOk, MarkGraph.InExtent, MarkState.WeaksLinked, MarkGraph.ClosedSet, MarkState.Toggled, Survives, Linked, WordAfter, ToggleMark, LostTarget, Cleared;
    forall q {:trigger q in Linked(c, order)} | q in Linked(c, order) ensures q in order { LinkedIs(c, m1, weaks, order, q); }
    assert p in c.g by { InGraph(c, p, x); }
    OwnCell(c, m1, weaks, order, Linked(c, order), p, x);
    LostIsCleared(c, order, m1, weaks, p);
    TaskIsValid(c, p, order);
    AnyRoot(c, p, m1, weaks, order);
    MarkSteps.ToggledCell(TaskFrom(c, p), m1, order, p, x);
  }

  lemma InGraph(c: Major, p: int, x: int)
    requires MarkGraph.InExtent(c.e, c.g, p, x)
    ensures p in c.g
  {
  }

  /** A cell that is part of no object. */
  lemma OutsideCell(c: Major, order: seq<int>, m1: Mem, weaks: int, m: Mem, x: int)
    requires ValidMajor(c) && Marked(c, order, m1, weaks, m)
    requires MarkGraph.Outside(c.e, c.g, x)
    ensures Rd(m, x) == Rd(c.m0, x)
  {
    hide ValidMajor, MarkedUpTo, MarkGraph.InExtent, Linked, MarkGraph.OffsetOfWeak;
    OutsideKept(c, m1, weaks, order, |c.roots|, x);
    var q, r := x + HEADER_SIZE, x - MarkGraph.WeakCell(c.e, 0);
    if q in Linked(c, order) {
      LinkedIs(c, m1, weaks, order, q);
      WeakCells(c, q);
    }
    if r in Linked(c, order) {
      LinkedIs(c, m1, weaks, order, r);
      WeakCells(c, r);
    }
  }

  lemma UnmarkedCell(c: Major, order: seq<int>, m1: Mem, weaks: int, m: Mem, p: int, x: int)
    requires ValidMajor(c) && Marked(c, order, m1, weaks, m) && MarkGraph.InExtent(c.e, c.g, p, x) && p !in order
    ensures Rd(m, x) == Rd(c.m0, x)
  {
    hide MarkGraph.Nodes, MarkGraph.Apart, TargetsOk, MarkGraph.InExtent, MarkState.WeaksLinked, MarkGraph.ClosedSet, Survives, Linked, WordAfter, ToggleMark, LostTarget, Cleared, MarkState.LinksWeak, MarkGraph.OffsetOfWeak;
    InGraph(c, p, x);
    forall q {:trigger q in Linked(c, order)} | q in Linked(c, order) ensures q in order { LinkedIs(c, m1, weaks, order, q); }
    OwnCell(c, m1, weaks, order, Linked(c, order), p, x);
    LostIsCleared(c, order, m1, weaks, p);
    NotLost(c, order, p);
    var t := TaskFrom(c, 0);
    if MarkState.IsLinkCell(t, order, x) {
      var q := x - MarkGraph.OffsetOfWeak(c.e);
      MarkSteps.WeaksAreReached(t, order, q);
      MarkSteps.WeakIsNode(t, q);
      CellOf(c, p, q, x);
    }
    if x + HEADER_SIZE in order { CellOf(c, p, x + HEADER_SIZE, x); }
  }

  lemma NotLost(c: Major, order: seq<int>, p: int)
    ensures p !in order ==> !LostTarget(c, order, p)
  {
  }

  // -------------------------------------------------------- the objects marked

  /** What a tile is once marking is over. */
  ghost function Promoted(c: Major, order: seq<int>, m: Mem, o: Object): Object {
    if o.data in order
    then o.(slots := Slots(TypeOf(c.e, Rd(m, o.data - HEADER_SIZE)), o.data, Length(Rd(m, o.data - 16))), live := true)
    else o
  }

  /** The header, and the array cells, of a marked object. */
  lemma MarkedReads(c: Major, objs: seq<Object>, lo: int, hi: int, order: seq<int>, m1: Mem, weaks: int, m: Mem, o: Object)
    requires ValidMajor(c) && WeakGoneOk(c.e) && TiledHeap(c, objs, lo, hi) && Marked(c, order, m1, weaks, m) && o in objs && o.data in order
    ensures o.data in c.g
    ensures var s, h := c.g[o.data], Rd(m, o.data - HEADER_SIZE);
      && h == (if LostTarget(c, order, o.data) then MARKED_WEAK_GONE else ToggleMark(Rd(c.m0, o.data - HEADER_SIZE)))
      && IsLiveHeader(h)
      && TypeOf(c.e, h) == (if LostTarget(c, order, o.data) then c.e.types[WEAK_GONE_TYPE_INDEX] else s.t)
      && (s.t.tag == ArrayTag ==> Rd(m, o.data - 24) == 0 && Rd(m, o.data - 16) == Rd(c.m0, o.data - 16) && Length(Rd(m, o.data - 16)) == s.len)
  {
    hide MarkedUpTo, Settled, Linked, MarkGraph.Apart, TargetsOk, Describes, ToggleMark, Counter, TypeIndex, IsMarked, LostTarget, ArrayNoHeader, MarkGraph.ValidShape;
    var p := o.data;
    OrderIn(c, order, m1, weaks, m, p);
    var h0 := Rd(c.m0, p - HEADER_SIZE);
    assert MarkGraph.IsNode(c.e, c.m0, p, c.g[p]);
    MarkGraph.CellsInExtent(c.e, c.m0, c.g, p);
    WeakCellsPlace(c, p);
    NodeCell(c, order, m1, weaks, m, p, p - HEADER_SIZE);
    ToggleMarkKeepsTheRest(h0);
    NotForwarded(ToggleMark(h0));
    GoneHeader(c.e);
    if c.g[p].t.tag == ArrayTag {
      LostIsWeak(c, order, p);
      NodeCell(c, order, m1, weaks, m, p, p - 16);
      NodeCell(c, order, m1, weaks, m, p, p - 24);
    }
  }

  lemma OrderIn(c: Major, order: seq<int>, m1: Mem, weaks: int, m: Mem, p: int)
    requires Marked(c, order, m1, weaks, m) && p in order
    ensures p in c.g
  {
    hide MarkState.Toggled, MarkState.WeaksLinked, MarkGraph.ClosedSet, Settled, Survives;
  }

  lemma WeakCellsPlace(c: Major, p: int)
    ensures p <= MarkGraph.LinkCell(c.e, p) < MarkGraph.WeakCell(c.e, p)
  {
    OffsetIsPositive(c.e);
  }

  lemma LostIsWeak(c: Major, order: seq<int>, p: int)
    ensures LostTarget(c, order, p) ==> p in c.g && c.g[p].t.tag == WeakTag
  {
  }

  lemma GoneHeader(e: Model)
    requires WeakGoneOk(e)
    ensures IsLiveHeader(MARKED_WEAK_GONE) && TypeOf(e, MARKED_WEAK_GONE) == e.types[WEAK_GONE_TYPE_INDEX]
  {
  }

  lemma PromotedIsDescribed(c: Major, objs: seq<Object>, lo: int, hi: int, order: seq<int>, m1: Mem, weaks: int, m: Mem, o: Object)
    requires ValidMajor(c) && WeakGoneOk(c.e) && TiledHeap(c, objs, lo, hi) && Marked(c, order, m1, weaks, m) && o in objs && o.data in order
    ensures Describes(c.e, m, Promoted(c, order, m, o))
  {
    hide MarkedUpTo, Settled, MarkGraph.Apart, TargetsOk, IsAligned, ToggleMark, LostTarget, ArrayNoHeader, IsLiveHeader, TypeOf, IsMarked, Counter, Tiled, RootOk;
    var p := o.data;
    MarkedReads(c, objs, lo, hi, order, m1, weaks, m, o);
    NodeTile(c, objs, lo, hi, o);
    LostIsWeak(c, order, p);
    assert MarkGraph.IsNode(c.e, c.m0, p, c.g[p]);
    LiveHeaderIs(Rd(m, p - HEADER_SIZE));
    assert Describes(c.e, c.m0, o);
    DescribedSize(c.e, c.m0, o);
    assert ValidType(c.e, TypeOf(c.e, Rd(m, p - HEADER_SIZE)));
  }

  lemma LiveHeaderIs(h: int)
    ensures IsLiveHeader(h) ==> IsHeader(h) && h != 0
  {
  }

  lemma DescribedSize(e: Model, m: Mem, o: Object)
    requires Describes(e, m, o)
    ensures 0 < o.size && o.data <= o.End() && IsAligned(o.size, e.alignment) && IsObjptr(o.data)
  {
  }

  lemma UnmarkedIsDescribed(c: Major, objs: seq<Object>, lo: int, hi: int, order: seq<int>, m1: Mem, weaks: int, m: Mem, o: Object)
    requires ValidMajor(c) && TiledHeap(c, objs, lo, hi) && Marked(c, order, m1, weaks, m) && o in objs && o.data !in order
    ensures Describes(c.e, m, o) && (forall a {:trigger ForwardingCell(m, o, a)} :: ForwardingCell(m, o, a) ==> ForwardingCell(c.m0, o, a))
  {
    hide MarkedUpTo, Settled, MarkGraph.Apart, TargetsOk, MarkGraph.Nodes, Tiled, RootOk, Describes;
    assert Describes(c.e, c.m0, o) && !o.live;
    forall a {:trigger Rd(m, a)} | DescriptionCell(c.m0, o, a) ensures Rd(m, a) == Rd(c.m0, a) {
      if o.start <= a < o.End() && o.data in c.g {
        NodeTile(c, objs, lo, hi, o);
        UnmarkedCell(c, order, m1, weaks, m, o.data, a);
      } else {
        PlainCell(c, objs, lo, hi, o, a);
        OutsideCell(c, order, m1, weaks, m, a);
      }
    }
    DescribesFrame(c.e, c.m0, m, o);
    SameForwarding(c.e, c.m0, m, o);
  }

  lemma PlainCell(c: Major, objs: seq<Object>, lo: int, hi: int, o: Object, a: int)
    requires ValidMajor(c) && TiledHeap(c, objs, lo, hi) && o in objs && DescriptionCell(c.m0, o, a)
    requires !(o.start <= a < o.End() && o.data in c.g)
    ensures MarkGraph.Outside(c.e, c.g, a)
  {
    hide ValidMajor, MarkGraph.InExtent, Tiled;
    assert Describes(c.e, c.m0, o) && !o.live;
    DescribedSize(c.e, c.m0, o);
    OtherCells(c, objs, lo, hi, a);
  }

  lemma SameForwarding(e: Model, m0: Mem, m: Mem, o: Object)
    requires Describes(e, m0, o) && !o.live
    requires forall a {:trigger Rd(m, a)} :: DescriptionCell(m0, o, a) ==> Rd(m, a) == Rd(m0, a)
    ensures forall a {:trigger ForwardingCell(m, o, a)} :: ForwardingCell(m, o, a) ==> ForwardingCell(m0, o, a)
  {
    hide ArrayNoHeader, IsAligned, IsMarked, TypeOf, SizeofObject;
    assert DescriptionCell(m0, o, o.data - HEADER_SIZE);
    if Rd(m0, o.data - HEADER_SIZE) == FORWARDED { assert DescriptionCell(m0, o, o.data); }
  }

  // ------------------------------------------------------------------ the plan

  ghost function PromotedAll(c: Major, order: seq<int>, m: Mem, objs: seq<Object>): (r: seq<Object>)
    ensures |r| == |objs| && forall i {:trigger r[i]} :: 0 <= i < |r| ==> r[i] == Promoted(c, order, m, objs[i])
  {
    seq(|objs|, i requires 0 <= i < |objs| => Promoted(c, order, m, objs[i]))
  }

  /** Where the first n objects go. */
  ghost function Destinations(objs: seq<Object>, n: nat): map<int, int>
    requires n <= |objs|
  {
    if n == 0 then map[]
    else
      var to := Destinations(objs, n - 1);
      if objs[n - 1].live then to[objs[n - 1].data := objs[n - 1].data - DeadBefore(objs, n - 1)] else to
  }

  lemma {:induction false} DestinationsAre(objs: seq<Object>, lo: int, hi: int, n: nat)
    requires Tiled(objs, lo, hi) && n <= |objs|
    requires forall i {:trigger objs[i]} :: 0 <= i < |objs| ==> objs[i].start <= objs[i].data <= objs[i].End()
    requires forall i, j {:trigger objs[i], objs[j]} :: 0 <= i < |objs| && 0 <= j < |objs| && objs[i].data == objs[j].data ==> i == j
    ensures forall i {:trigger objs[i]} :: 0 <= i < n && objs[i].live ==>
      objs[i].data in Destinations(objs, n) && Destinations(objs, n)[objs[i].data] == objs[i].data - DeadBefore(objs, i)
    ensures forall x {:trigger x in Destinations(objs, n)} :: x in Destinations(objs, n) ==> exists i {:trigger objs[i]} :: 0 <= i < n && objs[i].live && objs[i].data == x
    decreases n
  {
    hide Tiled, DeadBefore;
    if n > 0 { DestinationsAre(objs, lo, hi, n - 1); }
  }

  ghost function PlanOf(c: Major, order: seq<int>, m: Mem, objs: seq<Object>, lo: int, hi: int): Plan {
    var all := PromotedAll(c, order, m, objs);
    var roots := set s | s in c.roots;
    Plan(all, lo, hi, roots, roots + LiveSlots(all), LiveData(all), Destinations(all, |all|), ForwardsOf(c, objs))
  }

  ghost function DataOf(objs: seq<Object>): set<int> { set o | o in objs :: o.data }

  /** The lifted objects whose forwarding pointers are in the heap. */
  ghost function ForwardsOf(c: Major, objs: seq<Object>): map<int, int> {
    map x | x in DataOf(objs) && Lifted(c, x) :: Rd(c.m0, x)
  }

  /** The data of a tile lies in it, or at its end if it has none. */
  lemma DataInTile(c: Major, objs: seq<Object>, lo: int, hi: int, i: nat)
    requires TiledHeap(c, objs, lo, hi) && i < |objs|
    ensures objs[i].start < objs[i].data <= objs[i].End()
  {
    hide Tiled, ArrayNoHeader, IsAligned, IsMarked, TypeIndex;
    assert objs[i] in objs;
  }

  lemma DataApart(c: Major, objs: seq<Object>, lo: int, hi: int, i: nat, j: nat)
    requires TiledHeap(c, objs, lo, hi) && i < |objs| && j < |objs| && objs[i].data == objs[j].data
    ensures i == j
  {
    hide Describes, ForwardingCell;
    DataInTile(c, objs, lo, hi, i);
    DataInTile(c, objs, lo, hi, j);
    ObjectOfAddress(objs, lo, hi, i, j, objs[i].data - 1);
  }

  lemma PromotedTiles(c: Major, order: seq<int>, m: Mem, objs: seq<Object>, lo: int, hi: int)
    requires Tiled(objs, lo, hi)
    ensures Tiled(PromotedAll(c, order, m, objs), lo, hi)
  {
    var all := PromotedAll(c, order, m, objs);
    forall i {:trigger all[i].size} | 0 <= i < |all| ensures 0 < all[i].size && all[i].End() == Edge(all, hi, i + 1) {
      assert all[i] == Promoted(c, order, m, objs[i]) && objs[i].size == all[i].size;
    }
  }

  /** The marked slots of the heap lie in the tiles of marked objects. */
  lemma SlotInTile(c: Major, objs: seq<Object>, lo: int, hi: int, order: seq<int>, m1: Mem, weaks: int, m: Mem, s: int) returns (i: nat)
    requires ValidMajor(c) && WeakGoneOk(c.e) && TiledHeap(c, objs, lo, hi) && Marked(c, order, m1, weaks, m)
    requires s in LiveSlots(PromotedAll(c, order, m, objs))
    ensures i < |objs| && objs[i].data in order && objs[i].start <= s < objs[i].End() && s in Promoted(c, order, m, objs[i]).slots
    ensures lo <= s < hi
  {
    hide ValidMajor, MarkedUpTo, Settled, Describes, TiledHeap;
    var all := PromotedAll(c, order, m, objs);
    var o :| o in all && o.live && s in o.slots;
    i :| 0 <= i < |all| && all[i] == o;
    assert o == Promoted(c, order, m, objs[i]);
    NotLiveYet(c, objs, lo, hi, i);
    PromotedIsDescribed(c, objs, lo, hi, order, m1, weaks, m, objs[i]);
    LiveShape(c.e, m, o);
    SlotInside(o, s);
    TiledRange(objs, lo, hi, i);
  }

  lemma NotLiveYet(c: Major, objs: seq<Object>, lo: int, hi: int, i: nat)
    requires TiledHeap(c, objs, lo, hi) && i < |objs|
    ensures objs[i] in objs && !objs[i].live && Tiled(objs, lo, hi)
  {
    hide Describes, ForwardingCell;
  }

  lemma InertTile(c: Major, objs: seq<Object>, lo: int, hi: int, order: seq<int>, m1: Mem, weaks: int, m: Mem, i: nat)
    requires ValidMajor(c) && WeakGoneOk(c.e) && TiledHeap(c, objs, lo, hi) && RootCells(c, lo, hi) && Marked(c, order, m1, weaks, m)
    requires i < |objs| && objs[i].data !in order
    ensures Inert(m, PlanOf(c, order, m, objs, lo, hi), objs[i])
  {
    hide ValidMajor, MarkedUpTo, Settled, Describes, LiveSlots, LiveData, Destinations, ForwardingCell;
    var pl := PlanOf(c, order, m, objs, lo, hi);
    NotLiveYet(c, objs, lo, hi, i);
    TiledRange(objs, lo, hi, i);
    UnmarkedIsDescribed(c, objs, lo, hi, order, m1, weaks, m, objs[i]);
    forall a {:trigger a in pl.slots} | a in pl.slots ensures !(objs[i].start <= a < objs[i].End()) {
      if a !in c.roots {
        var j := SlotInTile(c, objs, lo, hi, order, m1, weaks, m, a);
        if objs[i].start <= a < objs[i].End() { ObjectOfAddress(objs, lo, hi, i, j, a); }
      }
    }
    forall a {:trigger ForwardingCell(m, objs[i], a)} | ForwardingCell(m, objs[i], a) ensures !(lo <= a < hi) && a !in pl.slots {
      assert ForwardingCell(c.m0, objs[i], a);
      if a in pl.slots { var j := SlotInTile(c, objs, lo, hi, order, m1, weaks, m, a); }
    }
  }

  lemma PlanIsWell(c: Major, objs: seq<Object>, lo: int, hi: int, order: seq<int>, m1: Mem, weaks: int, m: Mem)
    requires ValidMajor(c) && WeakGoneOk(c.e) && TiledHeap(c, objs, lo, hi) && RootCells(c, lo, hi) && Marked(c, order, m1, weaks, m)
    ensures WellPlanned(c.e, m, PlanOf(c, order, m, objs, lo, hi))
  {
    hide ValidMajor, MarkedUpTo, Settled, Describes, LiveSlots, Destinations, Inert, Tiled, DeadBefore, ForwardingCell;
    var pl := PlanOf(c, order, m, objs, lo, hi);
    var all := pl.objs;
    PromotedTiles(c, order, m, objs, lo, hi);
    forall o {:trigger o in all} | o in all ensures Describes(c.e, m, o) && (!o.live ==> Inert(m, pl, o)) {
      var i :| 0 <= i < |all| && all[i] == o;
      assert o == Promoted(c, order, m, objs[i]);
      NotLiveYet(c, objs, lo, hi, i);
      if objs[i].data in order {
        PromotedIsDescribed(c, objs, lo, hi, order, m1, weaks, m, objs[i]);
      } else {
        UnmarkedIsDescribed(c, objs, lo, hi, order, m1, weaks, m, objs[i]);
        InertTile(c, objs, lo, hi, order, m1, weaks, m, i);
      }
    }
    forall i, j {:trigger all[i], all[j]} | 0 <= i < |all| && 0 <= j < |all| && all[i].data == all[j].data ensures i == j {
      assert all[i] == Promoted(c, order, m, objs[i]) && all[j] == Promoted(c, order, m, objs[j]);
      DataApart(c, objs, lo, hi, i, j);
    }
    forall i {:trigger all[i]} | 0 <= i < |all| ensures all[i].start <= all[i].data <= all[i].End() {
      assert all[i] == Promoted(c, order, m, objs[i]);
      DataInTile(c, objs, lo, hi, i);
    }
    DestinationsAre(all, lo, hi, |all|);
    AllDestined(all);
  }

  lemma AllDestined(objs: seq<Object>)
    requires forall i {:trigger objs[i]} :: 0 <= i < |objs| && objs[i].live ==>
      objs[i].data in Destinations(objs, |objs|) && Destinations(objs, |objs|)[objs[i].data] == objs[i].data - DeadBefore(objs, i)
    requires forall x {:trigger x in Destinations(objs, |objs|)} :: x in Destinations(objs, |objs|) ==> exists i {:trigger objs[i]} :: 0 <= i < |objs| && objs[i].live && objs[i].data == x
    ensures Destined(objs, Destinations(objs, |objs|)) && LiveData(objs) == Destinations(objs, |objs|).Keys
  {
    hide Destinations, DeadBefore;
    var to := Destinations(objs, |objs|);
    forall x ensures x in LiveData(objs) <==> x in to {
      if x in LiveData(objs) {
        var o :| o in objs && o.live && o.data == x;
        var i :| 0 <= i < |objs| && objs[i] == o;
      }
      if x in to {
        var i :| 0 <= i < |objs| && objs[i].live && objs[i].data == x;
        assert objs[i] in objs;
      }
    }
  }
}
