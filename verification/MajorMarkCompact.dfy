/** A whole mark-compact collection of a local heap (majorMarkCompactGC). */
module MajorMarkCompact {
  import opened Sequences
  import opened Memory
  import opened Objects
  import opened Layout
  import opened HeapObjects
  import opened CompactionPlan
  import opened ForwardPass
  import opened Forwarding
  import opened Compacted
  import MarkCompact
  import Threading
  import MarkGraph
  import MarkState
  import DfsMark
  import opened MarkRoots
  import opened MarkWeaks
  import opened MajorPlan

  /** x is the cell of a pointer of the object at p, strong or weak. */
  ghost predicate IsPointerCell(c: Major, p: int, x: int) {
    && p in c.g
    && if c.g[p].t.tag == WeakTag then c.g[p].t.numObjptrs == 1 && x == MarkGraph.WeakCell(c.e, p)
       else exists a, j {:trigger MarkGraph.SlotAt(p, c.g[p].t, a, j)} :: MarkGraph.IsCursor(c.g[p], a, j) && x == MarkGraph.SlotAt(p, c.g[p].t, a, j)
  }

  /** A pointer to a lifted object leads to one of the tiles. */
  ghost predicate LiftedTiled(c: Major, objs: seq<Object>) {
    forall p, x {:trigger IsPointerCell(c, p, x)} :: IsPointerCell(c, p, x) && Lifted(c, Rd(c.m0, x)) ==> Rd(c.m0, x) in DataOf(objs)
  }

  /** Everything a collection relies on. The objects tile the used part of the
      local heap, which the shared heap does not overlap. */
  ghost predicate Ready(c: Major, objs: seq<Object>, lo: int, hi: int, heapStart: int, heapSize: nat) {
    && ValidMajor(c) && WeaksOk(c) && WeakGoneOk(c.e)
    && TiledHeap(c, objs, lo, hi) && RootCells(c, lo, hi) && LiftedTiled(c, objs)
    && heapStart <= lo && hi <= heapStart + heapSize
    && forall w {:trigger c.sc.InShared(w)} :: heapStart <= w < heapStart + heapSize ==> !c.sc.InShared(w)
  }

  // --------------------------------------------------------- what is preserved

  /** Bytes of the objects among the first n that no root reaches. */
  ghost function Garbage(c: Major, objs: seq<Object>, n: nat): int
    requires n <= |objs|
  {
    if n == 0 then 0
    else Garbage(c, objs, n - 1) + if Survives(c, objs[n - 1].data) then 0 else objs[n - 1].size
  }

  /** A pointer to a surviving object has become one to its new place, a pointer
      to a lifted one leads to where it was lifted; any other word is as it was. */
  ghost predicate Rehomed(c: Major, objs: seq<Object>, w: int, w': int) {
    if Survives(c, w) then exists i {:trigger objs[i]} :: 0 <= i < |objs| && objs[i].data == w && w' == w - Garbage(c, objs, i)
    else if Lifted(c, w) then w' == Rd(c.m0, w)
    else w' == w
  }

  /** The weak object at p survives but its target does not. */
  ghost predicate LosesTarget(c: Major, p: int) {
    && p in c.g && c.g[p].t.tag == WeakTag
    && IsObjptr(Rd(c.m0, MarkGraph.WeakCell(c.e, p)))
    && !Survives(c, Rd(c.m0, MarkGraph.WeakCell(c.e, p))) && !Lifted(c, Rd(c.m0, MarkGraph.WeakCell(c.e, p)))
  }

  /** A cell of an object that is neither its header, nor a pointer, nor, in a
      weak object, the link. */
  ghost predicate IsPayload(c: Major, p: int, x: int) {
    && MarkGraph.InExtent(c.e, c.g, p, x) && x != p - HEADER_SIZE
    && (forall a, j {:trigger MarkGraph.SlotAt(p, c.g[p].t, a, j)} :: MarkGraph.IsCursor(c.g[p], a, j) ==> x != MarkGraph.SlotAt(p, c.g[p].t, a, j))
    && (c.g[p].t.tag == WeakTag ==> x != MarkGraph.LinkCell(c.e, p) && x != MarkGraph.WeakCell(c.e, p))
  }

  /** The surviving object p has moved down by gap bytes, with its contents. */
  ghost predicate MovedIntact(c: Major, objs: seq<Object>, p: int, gap: int, m: Mem)
    requires p in c.g
  {
    && Rd(m, p - HEADER_SIZE - gap) == (if LosesTarget(c, p) then BuildHeader(WEAK_GONE_TYPE_INDEX) else Rd(c.m0, p - HEADER_SIZE))
    && (forall a, j {:trigger MarkGraph.SlotAt(p, c.g[p].t, a, j)} :: MarkGraph.IsCursor(c.g[p], a, j) ==>
          Rehomed(c, objs, Rd(c.m0, MarkGraph.SlotAt(p, c.g[p].t, a, j)), Rd(m, MarkGraph.SlotAt(p, c.g[p].t, a, j) - gap)))
    && (c.g[p].t.tag == WeakTag ==>
          var w, w' := Rd(c.m0, MarkGraph.WeakCell(c.e, p)), Rd(m, MarkGraph.WeakCell(c.e, p) - gap);
          if LosesTarget(c, p) then w' == BOGUS_OBJPTR else Rehomed(c, objs, w, w'))
    && (forall x {:trigger IsPayload(c, p, x)} :: IsPayload(c, p, x) ==> Rd(m, x - gap) == Rd(c.m0, x))
  }

  /** The objects reached from the roots, and only they, are packed in their old
      order, with every pointer to them and between them redirected. */
  ghost predicate Collected(c: Major, objs: seq<Object>, lo: int, hi: int, m: Mem) {
    && (forall i {:trigger objs[i]} :: 0 <= i < |objs| && Survives(c, objs[i].data) ==>
          objs[i].data in c.g && MovedIntact(c, objs, objs[i].data, Garbage(c, objs, i), m))
    && (forall s {:trigger s in c.roots} :: s in c.roots ==> Rehomed(c, objs, Rd(c.m0, s), Rd(m, s)))
    && (forall a {:trigger Rd(m, a)} :: !(lo <= a < hi) && a !in c.roots ==> Rd(m, a) == Rd(c.m0, a))
  }

  // ------------------------------------------------------------ what is lost

  /** The objects with those that survive called live. */
  ghost function Surviving(c: Major, objs: seq<Object>): (r: seq<Object>)
    ensures |r| == |objs| && forall i {:trigger r[i]} :: 0 <= i < |r| ==> r[i] == objs[i].(live := Survives(c, objs[i].data))
  {
    seq(|objs|, i requires 0 <= i < |objs| => objs[i].(live := Survives(c, objs[i].data)))
  }

  /** Pointer x of the surviving object i leads back to a lifted object whose
      header is among the words that the vectors over the runs of garbage before
      object i take up. */
  ghost predicate LosesLiftedAt(c: Major, objs: seq<Object>, i: nat, x: int)
    requires i < |objs|
  {
    && Survives(c, objs[i].data) && IsPointerCell(c, objs[i].data, x)
    && Lifted(c, Rd(c.m0, x)) && Rd(c.m0, x) - HEADER_SIZE in VectorCells(Surviving(c, objs), i + 1)
  }

  ghost predicate LosesLifted(c: Major, objs: seq<Object>) {
    exists i, x {:trigger LosesLiftedAt(c, objs, i, x)} :: 0 <= i < |objs| && LosesLiftedAt(c, objs, i, x)
  }

  /** Such a pointer has been threaded to a vector: the vector's header holds the
      address of the pointer, the pointer a word of the header. */
  ghost predicate Misthreaded(c: Major, objs: seq<Object>, m: Mem) {
    exists i, x {:trigger LosesLiftedAt(c, objs, i, x)} :: 0 <= i < |objs| && LosesLiftedAt(c, objs, i, x)
      && Rd(m, Rd(c.m0, x) - HEADER_SIZE) == x && IsVectorWord(Rd(m, x))
  }

  // --------------------------------------------------- the plan and the pointers

  /** All the facts about the heap just before it is compacted. */
  ghost predicate Before(c: Major, objs: seq<Object>, lo: int, hi: int, heapStart: int, heapSize: nat, order: seq<int>, m1: Mem, weaks: int, m: Mem) {
    && Ready(c, objs, lo, hi, heapStart, heapSize)
    && (forall s {:trigger s in c.roots} :: s in c.roots ==> !Lifted(c, Rd(c.m0, s)))
    && Marked(c, order, m1, weaks, m)
    && forall x {:trigger x in order} {:trigger Survives(c, x)} :: x in order <==> Survives(c, x)
  }

  lemma TileOf(c: Major, objs: seq<Object>, lo: int, hi: int, p: int) returns (i: nat)
    requires TiledHeap(c, objs, lo, hi) && p in c.g
    ensures i < |objs| && objs[i].data == p && objs[i] in objs
  {
    hide Describes, ForwardingCell, Tiled;
    i :| 0 <= i < |objs| && objs[i].data == p;
  }

  lemma LiveIsMarked(c: Major, objs: seq<Object>, lo: int, hi: int, order: seq<int>, m1: Mem, weaks: int, m: Mem, x: int)
    requires ValidMajor(c) && TiledHeap(c, objs, lo, hi) && Marked(c, order, m1, weaks, m)
    ensures x in LiveData(PromotedAll(c, order, m, objs)) <==> x in order
  {
    hide ValidMajor, Settled, Describes, MarkedUpTo, TiledHeap;
    var all := PromotedAll(c, order, m, objs);
    if x in LiveData(all) {
      var o :| o in all && o.live && o.data == x;
      var i :| 0 <= i < |all| && all[i] == o;
      assert o == Promoted(c, order, m, objs[i]);
      NotLiveYet(c, objs, lo, hi, i);
    }
    if x in order {
      OrderIn(c, order, m1, weaks, m, x);
      var i := TileOf(c, objs, lo, hi, x);
      assert all[i] == Promoted(c, order, m, objs[i]);
      assert all[i] in all && all[i].live;
    }
  }

  /** A marked object is an object pointer into the heap. */
  lemma MarkedInHeap(c: Major, objs: seq<Object>, lo: int, hi: int, order: seq<int>, m1: Mem, weaks: int, m: Mem, w: int)
    requires ValidMajor(c) && TiledHeap(c, objs, lo, hi) && Marked(c, order, m1, weaks, m) && w in order
    ensures w in c.g && IsObjptr(w) && lo <= w < hi
  {
    hide Settled, Describes, MarkedUpTo, ForwardingCell, Tiled, MarkGraph.ValidShape, MarkGraph.Apart, TargetsOk;
    OrderIn(c, order, m1, weaks, m, w);
    assert MarkGraph.IsNode(c.e, c.m0, w, c.g[w]);
    var i := TileOf(c, objs, lo, hi, w);
    NodeTile(c, objs, lo, hi, objs[i]);
    MarkGraph.DataInExtent(c.e, c.m0, c.g, w);
    TiledRange(objs, lo, hi, i);
  }

  /** What a pointer of a marked object leads to in the local heap is marked. */
  lemma TargetMarked(c: Major, order: seq<int>, m1: Mem, weaks: int, m: Mem, p: int, a: nat, j: nat)
    requires ValidMajor(c) && Marked(c, order, m1, weaks, m) && p in order && p in c.g && MarkGraph.IsCursor(c.g[p], a, j)
    ensures var w := Rd(c.m0, MarkGraph.SlotAt(p, c.g[p].t, a, j)); w in c.g ==> w in order
    ensures TargetOk(c, Rd(c.m0, MarkGraph.SlotAt(p, c.g[p].t, a, j)))
  {
    hide Settled, MarkGraph.Apart, MarkState.Toggled, MarkState.WeaksLinked, Survives, MarkGraph.SlotAt, MarkGraph.IsCursor, RootOk, MarkGraph.IsFresh, TargetOk, MarkGraph.ValidShape;
    var w := Rd(c.m0, MarkGraph.SlotAt(p, c.g[p].t, a, j));
    if w in c.g {
      assert MarkGraph.IsNode(c.e, c.m0, w, c.g[w]);
      assert MarkGraph.Edge(c.m0, c.g, c.sc, p, w);
      FreshAtFirst(c, w);
    }
  }

  /** Where the pointers of a marked object are. */
  lemma MarkedSlots(c: Major, objs: seq<Object>, lo: int, hi: int, order: seq<int>, m1: Mem, weaks: int, m: Mem, i: nat, x: int)
    requires ValidMajor(c) && WeakGoneOk(c.e) && WeaksOk(c) && TiledHeap(c, objs, lo, hi) && Marked(c, order, m1, weaks, m) && i < |objs| && objs[i].data in order
    ensures objs[i].data in c.g
    ensures x in Promoted(c, order, m, objs[i]).slots <==> IsPointerCell(c, objs[i].data, x) && !LostTarget(c, order, objs[i].data)
  {
    hide Settled, MarkedUpTo, TiledHeap, MarkGraph.SlotAt, MarkGraph.IsCursor, LostTarget, TypeOf, IsLiveHeader, ToggleMark, RootOk, MarkGraph.Apart, TargetsOk, WeaksOk;
    NotLiveYet(c, objs, lo, hi, i);
    var p := objs[i].data;
    MarkedReads(c, objs, lo, hi, order, m1, weaks, m, objs[i]);
    assert MarkGraph.IsNode(c.e, c.m0, p, c.g[p]);
    LostIsWeak(c, order, p);
    if c.g[p].t.tag != WeakTag { SlotsOfShape(c.e, m, c.g[p], p, x); }
  }

  lemma SlotsOfShape(e: Model, m: Mem, s: MarkGraph.Shape, p: int, x: int)
    requires s.t.tag in {NormalTag, ArrayTag} && (s.t.tag == ArrayTag ==> Length(Rd(m, p - 16)) == s.len)
    ensures x in Slots(s.t, p, Length(Rd(m, p - 16))) <==> exists a, j {:trigger MarkGraph.SlotAt(p, s.t, a, j)} :: MarkGraph.IsCursor(s, a, j) && x == MarkGraph.SlotAt(p, s.t, a, j)
  {
    hide MarkGraph.SlotAt, MarkGraph.IsCursor;
    SlotsAre(s, p, x);
  }

  /** The words that a collection finds in its slots, and what it will do. */
  ghost predicate WordFits(c: Major, objs: seq<Object>, order: seq<int>, m: Mem, lo: int, hi: int, heapStart: int, heapSize: nat, w: int) {
    WordOk(PlanOf(c, order, m, objs, lo, hi), m, heapStart, heapStart + heapSize, w)
  }

  /** A pointer into the shared heap is left as it is. */
  lemma SharedIsPassive(c: Major, objs: seq<Object>, lo: int, hi: int, heapStart: int, heapSize: nat, order: seq<int>, m1: Mem, weaks: int, m: Mem, w: int)
    requires Before(c, objs, lo, hi, heapStart, heapSize, order, m1, weaks, m) && SharedObject(c, w)
    ensures Passive(PlanOf(c, order, m, objs, lo, hi), m, heapStart, heapStart + heapSize, w)
    ensures w !in c.g && w !in order
  {
    hide Settled, MarkedUpTo, TiledHeap, WeaksOk, Survives, LiveSlots, LiveData, Destinations, MarkGraph.Outside, TargetsOk, MarkGraph.Nodes, MarkGraph.Apart, RootOk, LiftedTiled, RootCells;
    var x := w - HEADER_SIZE;
    OutsideCell(c, order, m1, weaks, m, x);
    var pl := PlanOf(c, order, m, objs, lo, hi);
    if x in pl.slots && x !in c.roots { var i := SlotInTile(c, objs, lo, hi, order, m1, weaks, m, x); }
    if w in order { OrderIn(c, order, m1, weaks, m, w); }
  }

  lemma LiftedIsTiled(c: Major, objs: seq<Object>, lo: int, hi: int, x: int) returns (i: nat)
    requires TiledHeap(c, objs, lo, hi) && Lifted(c, x) && x in DataOf(objs)
    ensures i < |objs| && objs[i].data == x && objs[i] in objs && lo <= x < hi
  {
    hide ForwardingCell, Tiled, SharedObject, Steady;
    var o :| o in objs && o.data == x;
    i :| 0 <= i < |objs| && objs[i] == o;
    TiledRange(objs, lo, hi, i) by { hide Describes; }
    DescribedShape(c.e, c.m0, o);
  }

  lemma LiftedIsNotMarked(c: Major, order: seq<int>, m1: Mem, weaks: int, m: Mem, x: int)
    requires ValidMajor(c) && Marked(c, order, m1, weaks, m) && Lifted(c, x)
    ensures x !in c.g && x !in order && Rd(m, x - HEADER_SIZE) == FORWARDED && Rd(m, x) == Rd(c.m0, x)
  {
    hide Settled, MarkedUpTo, ValidMajor, SharedObject, MarkGraph.Outside;
    if x in c.g { NotLifted(c, x); }
    if x in order { OrderIn(c, order, m1, weaks, m, x); }
    OutsideCell(c, order, m1, weaks, m, x - HEADER_SIZE);
    OutsideCell(c, order, m1, weaks, m, x);
  }

  /** Each kind of target is dealt with in its own way. */
  lemma TargetFits(c: Major, objs: seq<Object>, lo: int, hi: int, heapStart: int, heapSize: nat, order: seq<int>, m1: Mem, weaks: int, m: Mem, w: int)
    requires Before(c, objs, lo, hi, heapStart, heapSize, order, m1, weaks, m)
    requires TargetOk(c, w) && (w in c.g ==> w in order) && (Lifted(c, w) ==> w in DataOf(objs))
    ensures WordFits(c, objs, order, m, lo, hi, heapStart, heapSize, w)
  {
    hide Settled, MarkedUpTo, TiledHeap, WeaksOk, Survives, LiveSlots, LiveData, Destinations, Passive, SharedObject, ValidMajor, LiftedTiled, RootCells, Steady;
    var pl := PlanOf(c, order, m, objs, lo, hi);
    LiveIsMarked(c, objs, lo, hi, order, m1, weaks, m, w);
    if w in order {
      MarkedInHeap(c, objs, lo, hi, order, m1, weaks, m, w);
    } else if Lifted(c, w) {
      var i := LiftedIsTiled(c, objs, lo, hi, w);
      SharedIsPassive(c, objs, lo, hi, heapStart, heapSize, order, m1, weaks, m, Rd(c.m0, w));
    } else if IsObjptr(w) {
      SharedIsPassive(c, objs, lo, hi, heapStart, heapSize, order, m1, weaks, m, w);
    } else {
      NoPointerIsPassive(pl, m, heapStart, heapStart + heapSize, w);
    }
  }

  lemma NoPointerIsPassive(pl: Plan, m: Mem, heapLo: int, heapHi: int, w: int)
    requires !IsObjptr(w)
    ensures Passive(pl, m, heapLo, heapHi, w)
  {
  }

  /** A root leads to a marked object or out of the heap. */
  lemma RootThreads(c: Major, objs: seq<Object>, lo: int, hi: int, heapStart: int, heapSize: nat, order: seq<int>, m1: Mem, weaks: int, m: Mem, s: int)
    requires Before(c, objs, lo, hi, heapStart, heapSize, order, m1, weaks, m) && s in c.roots
    ensures Rd(m, s) == Rd(c.m0, s) && WordFits(c, objs, order, m, lo, hi, heapStart, heapSize, Rd(m, s))
  {
    hide Settled, MarkGraph.Nodes, MarkGraph.Apart, TargetsOk, MarkState.Toggled, MarkState.WeaksLinked, Survives, TiledHeap, WeaksOk, MarkGraph.ClosedSet, MarkGraph.InExtent, WordFits, Lifted, SharedObject, LiftedTiled;
    var k :| 0 <= k < |c.roots| && c.roots[k] == s;
    assert RootOk(c, c.roots[k]);
    OutsideCell(c, order, m1, weaks, m, s);
    TargetFits(c, objs, lo, hi, heapStart, heapSize, order, m1, weaks, m, Rd(m, s));
  }

  /** The words in the slots of a marked object. */
  lemma SlotWord(c: Major, objs: seq<Object>, lo: int, hi: int, heapStart: int, heapSize: nat, order: seq<int>, m1: Mem, weaks: int, m: Mem, i: nat, x: int)
    requires Before(c, objs, lo, hi, heapStart, heapSize, order, m1, weaks, m) && i < |objs| && objs[i].data in order
    requires x in Promoted(c, order, m, objs[i]).slots
    ensures Rd(m, x) == Rd(c.m0, x) && WordFits(c, objs, order, m, lo, hi, heapStart, heapSize, Rd(m, x))
    ensures Lifted(c, Rd(m, x)) ==> Rd(m, x) in DataOf(objs)
  {
    hide Settled, MarkGraph.Nodes, MarkGraph.Apart, TargetsOk, MarkedUpTo, TiledHeap, WeaksOk, MarkGraph.InExtent, MarkGraph.SlotAt, LostTarget, RootOk, Survives, Promoted, WordFits, Lifted, SharedObject;
    var p := objs[i].data;
    MarkedSlots(c, objs, lo, hi, order, m1, weaks, m, i, x);
    var s := c.g[p];
    WeakCellsPlace(c, p);
    MarkGraph.CellsInExtent(c.e, c.m0, c.g, p);
    if s.t.tag == WeakTag {
      NodeCell(c, order, m1, weaks, m, p, x);
      WeakTarget(c, order, p);
    } else {
      var a, j :| MarkGraph.IsCursor(s, a, j) && x == MarkGraph.SlotAt(p, s.t, a, j);
      CursorCell(c, p, a, j);
      LostIsWeak(c, order, p);
      NodeCell(c, order, m1, weaks, m, p, x);
      TargetMarked(c, order, m1, weaks, m, p, a, j);
    }
    TargetFits(c, objs, lo, hi, heapStart, heapSize, order, m1, weaks, m, Rd(m, x));
  }

  lemma CursorCell(c: Major, p: int, a: int, j: int)
    requires ValidMajor(c) && p in c.g && MarkGraph.IsCursor(c.g[p], a, j)
    ensures MarkGraph.InExtent(c.e, c.g, p, MarkGraph.SlotAt(p, c.g[p].t, a, j)) && p <= MarkGraph.SlotAt(p, c.g[p].t, a, j)
    ensures c.g[p].t.tag in {NormalTag, ArrayTag}
  {
    hide MarkGraph.Apart, TargetsOk, RootOk, MarkGraph.Nodes;
    MarkGraph.SlotInExtent(c.e, c.m0, c.g, p, a, j);
  }

  lemma WeakTarget(c: Major, order: seq<int>, p: int)
    requires ValidMajor(c) && WeaksOk(c) && p in c.g && c.g[p].t.tag == WeakTag && p in order && !LostTarget(c, order, p)
    ensures var w := Rd(c.m0, MarkGraph.WeakCell(c.e, p)); TargetOk(c, w) && (w in c.g ==> w in order)
  {
    hide MarkGraph.Nodes, MarkGraph.Apart, TargetsOk, RootOk, Lifted, SharedObject;
    assert WeakOk(c, p);
    var w := Rd(c.m0, MarkGraph.WeakCell(c.e, p));
    if w in c.g {
      NotLifted(c, w);
      PointerToNode(c, w);
    }
  }

  lemma PointerToNode(c: Major, w: int)
    requires ValidMajor(c) && w in c.g
    ensures IsObjptr(w)
  {
    hide MarkGraph.Apart, TargetsOk, RootOk, MarkGraph.ValidShape;
    assert MarkGraph.IsNode(c.e, c.m0, w, c.g[w]);
  }

  lemma AllThread(c: Major, objs: seq<Object>, lo: int, hi: int, heapStart: int, heapSize: nat, order: seq<int>, m1: Mem, weaks: int, m: Mem)
    requires Before(c, objs, lo, hi, heapStart, heapSize, order, m1, weaks, m)
    ensures WordsOk(PlanOf(c, order, m, objs, lo, hi), m, heapStart, heapStart + heapSize)
  {
    hide Settled, ValidMajor, MarkedUpTo, TiledHeap, WeaksOk, Survives, Promoted, Destinations, LiveData, LiveSlots, WordOk;
    var pl := PlanOf(c, order, m, objs, lo, hi);
    forall s {:trigger s in pl.slots} | s in pl.slots ensures WordOk(pl, m, heapStart, heapStart + heapSize, Rd(m, s)) {
      if s in c.roots {
        RootThreads(c, objs, lo, hi, heapStart, heapSize, order, m1, weaks, m, s);
      } else {
        var i := SlotInTile(c, objs, lo, hi, order, m1, weaks, m, s);
        SlotWord(c, objs, lo, hi, heapStart, heapSize, order, m1, weaks, m, i, s);
      }
    }
  }

  lemma ForwardsAreGood(c: Major, objs: seq<Object>, lo: int, hi: int, heapStart: int, heapSize: nat, order: seq<int>, m1: Mem, weaks: int, m: Mem)
    requires Before(c, objs, lo, hi, heapStart, heapSize, order, m1, weaks, m)
    ensures GoodForwards(PlanOf(c, order, m, objs, lo, hi), m)
  {
    hide Settled, ValidMajor, MarkedUpTo, TiledHeap, WeaksOk, Survives, Promoted, Destinations, LiveData, LiveSlots, LiftedTiled, SharedObject, Steady;
    var pl := PlanOf(c, order, m, objs, lo, hi);
    forall x {:trigger x in pl.fwd} | x in pl.fwd
      ensures x !in pl.live && pl.fwd[x] !in pl.live && Rd(m, x - HEADER_SIZE) == FORWARDED && Rd(m, x) == pl.fwd[x]
      ensures exists i {:trigger pl.objs[i]} :: 0 <= i < |pl.objs| && !pl.objs[i].live && pl.objs[i].data == x
    {
      LiftedIsNotMarked(c, order, m1, weaks, m, x);
      LiveIsMarked(c, objs, lo, hi, order, m1, weaks, m, x);
      LiveIsMarked(c, objs, lo, hi, order, m1, weaks, m, pl.fwd[x]);
      SharedIsPassive(c, objs, lo, hi, heapStart, heapSize, order, m1, weaks, m, pl.fwd[x]);
      var i := LiftedIsTiled(c, objs, lo, hi, x);
      DeadTile(c, objs, lo, hi, order, m, i);
      assert pl.objs[i].data == x;
    }
  }

  lemma DeadTile(c: Major, objs: seq<Object>, lo: int, hi: int, order: seq<int>, m: Mem, i: nat)
    requires TiledHeap(c, objs, lo, hi) && i < |objs| && objs[i].data !in order
    ensures PromotedAll(c, order, m, objs)[i] == objs[i] && !objs[i].live
  {
    hide TiledHeap;
    NotLiveYet(c, objs, lo, hi, i);
    assert PromotedAll(c, order, m, objs)[i] == Promoted(c, order, m, objs[i]);
  }

  // ------------------------------------------------------------- after the slide

  lemma {:induction false} GarbageIsDead(c: Major, objs: seq<Object>, lo: int, hi: int, order: seq<int>, m: Mem, n: nat)
    requires TiledHeap(c, objs, lo, hi) && n <= |objs|
    requires forall x {:trigger x in order} {:trigger Survives(c, x)} :: x in order <==> Survives(c, x)
    ensures Garbage(c, objs, n) == DeadBefore(PromotedAll(c, order, m, objs), n)
    decreases n
  {
    hide Survives, TiledHeap;
    if n > 0 {
      GarbageIsDead(c, objs, lo, hi, order, m, n - 1);
      NotLiveYet(c, objs, lo, hi, n - 1);
      assert PromotedAll(c, order, m, objs)[n - 1] == Promoted(c, order, m, objs[n - 1]);
    }
  }

  /** Redirecting a word is what its target's move makes of it. */
  lemma RedirectedIsRehomed(c: Major, objs: seq<Object>, lo: int, hi: int, heapStart: int, heapSize: nat, order: seq<int>, m1: Mem, weaks: int, m: Mem, w: int)
    requires Before(c, objs, lo, hi, heapStart, heapSize, order, m1, weaks, m) && (Lifted(c, w) ==> w in DataOf(objs))
    ensures Rehomed(c, objs, w, Redirected(PlanOf(c, order, m, objs, lo, hi), w))
  {
    hide Settled, ValidMajor, MarkedUpTo, TiledHeap, WeaksOk, Survives, LiveData, LiveSlots, Destinations, Lifted, LiftedTiled;
    var pl := PlanOf(c, order, m, objs, lo, hi);
    LiveIsMarked(c, objs, lo, hi, order, m1, weaks, m, w);
    if w in order {
      OrderIn(c, order, m1, weaks, m, w);
      var i := TileOf(c, objs, lo, hi, w);
      assert pl.objs[i] == Promoted(c, order, m, objs[i]);
      PlanIsWell(c, objs, lo, hi, order, m1, weaks, m);
      ToIs(c.e, m, pl, i);
      GarbageIsDead(c, objs, lo, hi, order, m, i);
    }
  }

  lemma ToIs(e: Model, m: Mem, pl: Plan, i: nat)
    requires WellPlanned(e, m, pl) && i < |pl.objs| && pl.objs[i].live
    ensures pl.objs[i].data in pl.to && pl.to[pl.objs[i].data] == pl.objs[i].data - DeadBefore(pl.objs, i)
  {
    hide Describes, Inert, Tiled, LiveSlots, LiveData, DeadBefore;
  }

  lemma ModelIsValid(c: Major)
    requires ValidMajor(c)
    ensures ValidModel(c.e)
  {
  }

  /** A word of a marked object's tile, after the compaction. */
  lemma TileWord(c: Major, objs: seq<Object>, lo: int, hi: int, heapStart: int, heapSize: nat, order: seq<int>, m1: Mem, weaks: int, m: Mem, m3: Mem, i: nat, x: int)
    requires Before(c, objs, lo, hi, heapStart, heapSize, order, m1, weaks, m)
    requires IsCompacted(PlanOf(c, order, m, objs, lo, hi), m, m3)
    requires i < |objs| && objs[i].data in order && objs[i].start <= x < objs[i].End()
    ensures var p := objs[i].data; var pl := PlanOf(c, order, m, objs, lo, hi);
      Rd(m3, x - Garbage(c, objs, i)) ==
        if x == p - HEADER_SIZE then ToggleMark(Rd(m, x))
        else if x in Promoted(c, order, m, objs[i]).slots then Redirected(pl, Rd(m, x))
        else Rd(m, x)
  {
    hide Settled, ValidMajor, MarkedUpTo, TiledHeap, WeaksOk, Survives, LiveData, LiveSlots, Destinations, ToggleMark, Redirected, DeadBefore, Garbage, WellPlanned, IsCompacted;
    var pl := PlanOf(c, order, m, objs, lo, hi);
    assert pl.objs[i] == Promoted(c, order, m, objs[i]);
    PlanIsWell(c, objs, lo, hi, order, m1, weaks, m);
    GarbageIsDead(c, objs, lo, hi, order, m, i);
    ModelIsValid(c);
    CompactedCell(c.e, pl, m, m3, i, x);
  }

  lemma SameLoss(c: Major, objs: seq<Object>, lo: int, hi: int, heapStart: int, heapSize: nat, order: seq<int>, m1: Mem, weaks: int, m: Mem, p: int)
    requires Before(c, objs, lo, hi, heapStart, heapSize, order, m1, weaks, m) && p in order
    ensures LostTarget(c, order, p) <==> LosesTarget(c, p)
  {
    hide Settled, MarkedUpTo, Ready, Survives;
    OrderIn(c, order, m1, weaks, m, p);
  }

  lemma MovedHeader(c: Major, objs: seq<Object>, lo: int, hi: int, heapStart: int, heapSize: nat, order: seq<int>, m1: Mem, weaks: int, m: Mem, m3: Mem, i: nat)
    requires Before(c, objs, lo, hi, heapStart, heapSize, order, m1, weaks, m)
    requires IsCompacted(PlanOf(c, order, m, objs, lo, hi), m, m3) && i < |objs| && objs[i].data in order
    ensures var p := objs[i].data;
      Rd(m3, p - HEADER_SIZE - Garbage(c, objs, i)) == if LosesTarget(c, p) then BuildHeader(WEAK_GONE_TYPE_INDEX) else Rd(c.m0, p - HEADER_SIZE)
  {
    hide Settled, ValidMajor, MarkedUpTo, TiledHeap, WeaksOk, Survives, IsCompacted, PlanOf, ToggleMark, Garbage, IsLiveHeader, LosesTarget, LostTarget, TypeOf;
    var p := objs[i].data;
    NotLiveYet(c, objs, lo, hi, i);
    MarkedReads(c, objs, lo, hi, order, m1, weaks, m, objs[i]);
    HeaderInTile(c, objs, lo, hi, i);
    TileWord(c, objs, lo, hi, heapStart, heapSize, order, m1, weaks, m, m3, i, p - HEADER_SIZE);
    SameLoss(c, objs, lo, hi, heapStart, heapSize, order, m1, weaks, m, p);
    ToggleMarkKeepsTheRest(Rd(c.m0, p - HEADER_SIZE));
    GoneUnmarked();
  }

  lemma GoneUnmarked()
    ensures ToggleMark(MARKED_WEAK_GONE) == BuildHeader(WEAK_GONE_TYPE_INDEX)
  {
  }

  lemma HeaderInTile(c: Major, objs: seq<Object>, lo: int, hi: int, i: nat)
    requires ValidMajor(c) && TiledHeap(c, objs, lo, hi) && i < |objs| && objs[i].data in c.g
    ensures var p := objs[i].data;
      forall x {:trigger MarkGraph.InExtent(c.e, c.g, p, x)} :: MarkGraph.InExtent(c.e, c.g, p, x) <==> objs[i].start <= x < objs[i].End()
    ensures objs[i].start <= objs[i].data - HEADER_SIZE < objs[i].End()
  {
    hide MarkGraph.Nodes, MarkGraph.Apart, TargetsOk, TiledHeap, MarkGraph.InExtent, RootOk;
    NotLiveYet(c, objs, lo, hi, i);
    NodeTile(c, objs, lo, hi, objs[i]);
    MarkGraph.CellsInExtent(c.e, c.m0, c.g, objs[i].data);
  }

  lemma MovedCursor(c: Major, objs: seq<Object>, lo: int, hi: int, heapStart: int, heapSize: nat, order: seq<int>, m1: Mem, weaks: int, m: Mem, m3: Mem, i: nat, a: nat, j: nat)
    requires Before(c, objs, lo, hi, heapStart, heapSize, order, m1, weaks, m)
    requires IsCompacted(PlanOf(c, order, m, objs, lo, hi), m, m3) && i < |objs| && objs[i].data in order
    requires objs[i].data in c.g && MarkGraph.IsCursor(c.g[objs[i].data], a, j)
    ensures var p := objs[i].data; var x := MarkGraph.SlotAt(p, c.g[p].t, a, j);
      Rehomed(c, objs, Rd(c.m0, x), Rd(m3, x - Garbage(c, objs, i)))
  {
    hide Settled, ValidMajor, MarkedUpTo, TiledHeap, WeaksOk, Survives, IsCompacted, PlanOf, ToggleMark, Garbage, Promoted, MarkGraph.SlotAt, MarkGraph.InExtent, Rehomed, LostTarget;
    var p := objs[i].data;
    var x := MarkGraph.SlotAt(p, c.g[p].t, a, j);
    HeaderInTile(c, objs, lo, hi, i);
    CursorCell(c, p, a, j);
    LostIsWeak(c, order, p);
    MarkedSlots(c, objs, lo, hi, order, m1, weaks, m, i, x);
    SlotWord(c, objs, lo, hi, heapStart, heapSize, order, m1, weaks, m, i, x);
    TileWord(c, objs, lo, hi, heapStart, heapSize, order, m1, weaks, m, m3, i, x);
    RedirectedIsRehomed(c, objs, lo, hi, heapStart, heapSize, order, m1, weaks, m, Rd(m, x));
  }

  lemma MovedWeak(c: Major, objs: seq<Object>, lo: int, hi: int, heapStart: int, heapSize: nat, order: seq<int>, m1: Mem, weaks: int, m: Mem, m3: Mem, i: nat)
    requires Before(c, objs, lo, hi, heapStart, heapSize, order, m1, weaks, m)
    requires IsCompacted(PlanOf(c, order, m, objs, lo, hi), m, m3) && i < |objs| && objs[i].data in order
    requires objs[i].data in c.g && c.g[objs[i].data].t.tag == WeakTag
    ensures var p := objs[i].data; var x := MarkGraph.WeakCell(c.e, p); var w, w' := Rd(c.m0, x), Rd(m3, x - Garbage(c, objs, i));
      if LosesTarget(c, p) then w' == BOGUS_OBJPTR else Rehomed(c, objs, w, w')
  {
    hide Settled, ValidMajor, MarkedUpTo, TiledHeap, Survives, IsCompacted, PlanOf, ToggleMark, Garbage, Promoted, MarkGraph.InExtent, LostTarget, LosesTarget, MarkGraph.OffsetOfWeak, WeaksOk, Lifted, LiftedTiled;
    var p := objs[i].data;
    var x := MarkGraph.WeakCell(c.e, p);
    SameLoss(c, objs, lo, hi, heapStart, heapSize, order, m1, weaks, m, p);
    HeaderInTile(c, objs, lo, hi, i);
    WeakCellsPlace(c, p);
    PointerCell(c, p);
    NodeCell(c, order, m1, weaks, m, p, x);
    MarkedSlots(c, objs, lo, hi, order, m1, weaks, m, i, x);
    TileWord(c, objs, lo, hi, heapStart, heapSize, order, m1, weaks, m, m3, i, x);
    NoPointer(c, objs, lo, hi, order, m1, weaks, m, p);
    if x in Promoted(c, order, m, objs[i]).slots {
      SlotWord(c, objs, lo, hi, heapStart, heapSize, order, m1, weaks, m, i, x);
      RedirectedIsRehomed(c, objs, lo, hi, heapStart, heapSize, order, m1, weaks, m, Rd(m, x));
    }
  }

  lemma PointerCell(c: Major, p: int)
    requires ValidMajor(c) && p in c.g && c.g[p].t.tag == WeakTag
    ensures MarkGraph.InExtent(c.e, c.g, p, MarkGraph.WeakCell(c.e, p)) && MarkGraph.InExtent(c.e, c.g, p, MarkGraph.LinkCell(c.e, p))
  {
    hide MarkGraph.Apart, TargetsOk, RootOk, MarkGraph.Nodes;
    MarkGraph.CellsInExtent(c.e, c.m0, c.g, p);
  }

  /** A weak object without a pointer of its own holds no pointer. */
  lemma NoPointer(c: Major, objs: seq<Object>, lo: int, hi: int, order: seq<int>, m1: Mem, weaks: int, m: Mem, p: int)
    requires ValidMajor(c) && WeaksOk(c) && TiledHeap(c, objs, lo, hi) && Marked(c, order, m1, weaks, m)
    requires p in c.g && c.g[p].t.tag == WeakTag
    ensures var w := Rd(c.m0, MarkGraph.WeakCell(c.e, p)); c.g[p].t.numObjptrs != 1 ==> w !in order && !Lifted(c, w)
  {
    hide Settled, ValidMajor, MarkedUpTo, TiledHeap, MarkGraph.OffsetOfWeak;
    assert WeakOk(c, p);
    var w := Rd(c.m0, MarkGraph.WeakCell(c.e, p));
    if w in order { MarkedInHeap(c, objs, lo, hi, order, m1, weaks, m, w); }
  }

  lemma MovedPayload(c: Major, objs: seq<Object>, lo: int, hi: int, heapStart: int, heapSize: nat, order: seq<int>, m1: Mem, weaks: int, m: Mem, m3: Mem, i: nat, x: int)
    requires Before(c, objs, lo, hi, heapStart, heapSize, order, m1, weaks, m)
    requires IsCompacted(PlanOf(c, order, m, objs, lo, hi), m, m3) && i < |objs| && objs[i].data in order
    requires objs[i].data in c.g && IsPayload(c, objs[i].data, x)
    ensures Rd(m3, x - Garbage(c, objs, i)) == Rd(c.m0, x)
  {
    hide Settled, ValidMajor, MarkedUpTo, TiledHeap, Survives, IsCompacted, PlanOf, ToggleMark, Garbage, Promoted, MarkGraph.InExtent, LostTarget, LosesTarget, MarkGraph.OffsetOfWeak, WeaksOk, MarkGraph.SlotAt;
    var p := objs[i].data;
    HeaderInTile(c, objs, lo, hi, i);
    LostIsWeak(c, order, p);
    NodeCell(c, order, m1, weaks, m, p, x);
    MarkedSlots(c, objs, lo, hi, order, m1, weaks, m, i, x);
    TileWord(c, objs, lo, hi, heapStart, heapSize, order, m1, weaks, m, m3, i, x);
  }

  lemma ObjectMoved(c: Major, objs: seq<Object>, lo: int, hi: int, heapStart: int, heapSize: nat, order: seq<int>, m1: Mem, weaks: int, m: Mem, m3: Mem, i: nat)
    requires Before(c, objs, lo, hi, heapStart, heapSize, order, m1, weaks, m)
    requires IsCompacted(PlanOf(c, order, m, objs, lo, hi), m, m3) && i < |objs| && Survives(c, objs[i].data)
    ensures objs[i].data in c.g && MovedIntact(c, objs, objs[i].data, Garbage(c, objs, i), m3)
  {
    hide Settled, Ready, MarkedUpTo, Survives, IsCompacted, PlanOf, Garbage, LosesTarget, MarkGraph.OffsetOfWeak, MarkGraph.SlotAt, Rehomed, IsPayload;
    var p, gap := objs[i].data, Garbage(c, objs, i);
    OrderIn(c, order, m1, weaks, m, p);
    MovedHeader(c, objs, lo, hi, heapStart, heapSize, order, m1, weaks, m, m3, i);
    forall a, j {:trigger MarkGraph.SlotAt(p, c.g[p].t, a, j)} | MarkGraph.IsCursor(c.g[p], a, j)
      ensures Rehomed(c, objs, Rd(c.m0, MarkGraph.SlotAt(p, c.g[p].t, a, j)), Rd(m3, MarkGraph.SlotAt(p, c.g[p].t, a, j) - gap))
    {
      MovedCursor(c, objs, lo, hi, heapStart, heapSize, order, m1, weaks, m, m3, i, a, j);
    }
    if c.g[p].t.tag == WeakTag { MovedWeak(c, objs, lo, hi, heapStart, heapSize, order, m1, weaks, m, m3, i); }
    forall x {:trigger IsPayload(c, p, x)} | IsPayload(c, p, x) ensures Rd(m3, x - gap) == Rd(c.m0, x) {
      MovedPayload(c, objs, lo, hi, heapStart, heapSize, order, m1, weaks, m, m3, i, x);
    }
  }

  lemma OutsideMoved(c: Major, objs: seq<Object>, lo: int, hi: int, heapStart: int, heapSize: nat, order: seq<int>, m1: Mem, weaks: int, m: Mem, m3: Mem, a: int)
    requires Before(c, objs, lo, hi, heapStart, heapSize, order, m1, weaks, m)
    requires IsCompacted(PlanOf(c, order, m, objs, lo, hi), m, m3)
    ensures a in c.roots ==> Rehomed(c, objs, Rd(c.m0, a), Rd(m3, a))
    ensures !(lo <= a < hi) && a !in c.roots ==> Rd(m3, a) == Rd(c.m0, a)
  {
    hide Settled, ValidMajor, MarkedUpTo, Survives, Redirected, NewWord, TiledHeap, WeaksOk, Rehomed;
    var pl := PlanOf(c, order, m, objs, lo, hi);
    if a in c.roots {
      RootThreads(c, objs, lo, hi, heapStart, heapSize, order, m1, weaks, m, a);
      assert a in pl.roots;
      RedirectedIsRehomed(c, objs, lo, hi, heapStart, heapSize, order, m1, weaks, m, Rd(m, a));
    } else if !(lo <= a < hi) {
      OtherCells(c, objs, lo, hi, a);
      OutsideCell(c, order, m1, weaks, m, a);
      assert a !in pl.roots;
    }
  }

  /** A mark-compact collection preserves the object graph. */
  lemma CollectionPreservesGraph(c: Major, objs: seq<Object>, lo: int, hi: int, heapStart: int, heapSize: nat, order: seq<int>, m1: Mem, weaks: int, m: Mem, m3: Mem)
    requires Before(c, objs, lo, hi, heapStart, heapSize, order, m1, weaks, m)
    requires IsCompacted(PlanOf(c, order, m, objs, lo, hi), m, m3)
    ensures Collected(c, objs, lo, hi, m3)
  {
    hide Before, Survives, IsCompacted, PlanOf, MovedIntact, Rehomed;
    forall i {:trigger objs[i]} | 0 <= i < |objs| && Survives(c, objs[i].data)
      ensures objs[i].data in c.g && MovedIntact(c, objs, objs[i].data, Garbage(c, objs, i), m3)
    {
      ObjectMoved(c, objs, lo, hi, heapStart, heapSize, order, m1, weaks, m, m3, i);
    }
    forall a ensures (a in c.roots ==> Rehomed(c, objs, Rd(c.m0, a), Rd(m3, a))) && (!(lo <= a < hi) && a !in c.roots ==> Rd(m3, a) == Rd(c.m0, a)) {
      OutsideMoved(c, objs, lo, hi, heapStart, heapSize, order, m1, weaks, m, m3, a);
    }
  }

  lemma ReadyToCompact(c: Major, objs: seq<Object>, lo: int, hi: int, heapStart: int, heapSize: nat, order: seq<int>, m1: Mem, weaks: int, m: Mem)
    requires Before(c, objs, lo, hi, heapStart, heapSize, order, m1, weaks, m)
    ensures var pl := PlanOf(c, order, m, objs, lo, hi);
      && ValidModel(c.e) && WellPlanned(c.e, m, pl) && pl.lo == lo && pl.hi == hi
      && (forall s: int {:trigger s in pl.roots} :: s in c.roots <==> s in pl.roots)
      && GoodForwards(pl, m) && WordsOk(pl, m, heapStart, heapStart + heapSize)
      && DeadBefore(pl.objs, |pl.objs|) == Garbage(c, objs, |objs|) && |pl.objs| == |objs|
  {
    hide Settled, ValidMajor, MarkedUpTo, Survives, TiledHeap, WeaksOk, Garbage, DeadBefore, WellPlanned, LiveSlots, LiveData, Destinations, GoodForwards, WordsOk, LiftedTiled;
    PlanIsWell(c, objs, lo, hi, order, m1, weaks, m);
    ModelIsValid(c);
    GarbageIsDead(c, objs, lo, hi, order, m, |objs|);
    ForwardsAreGood(c, objs, lo, hi, heapStart, heapSize, order, m1, weaks, m);
    AllThread(c, objs, lo, hi, heapStart, heapSize, order, m1, weaks, m);
  }

  // ---------------------------------------------------------------- what is lost

  lemma {:induction false} SameVectors(a: seq<Object>, b: seq<Object>, n: nat)
    requires |a| == |b| && n <= |a|
    requires forall i {:trigger a[i]} {:trigger b[i]} :: 0 <= i < |a| ==> a[i].live == b[i].live && a[i].start == b[i].start
    ensures RunStart(a, n) == RunStart(b, n) && VectorCells(a, n) == VectorCells(b, n)
    decreases n
  {
    if n > 0 {
      SameVectors(a, b, n - 1);
      assert a[n - 1].live == b[n - 1].live;
    }
  }

  lemma PlanFields(c: Major, order: seq<int>, m: Mem, objs: seq<Object>, lo: int, hi: int)
    ensures var pl := PlanOf(c, order, m, objs, lo, hi);
      && pl.objs == PromotedAll(c, order, m, objs)
      && forall x {:trigger x in pl.fwd} :: x in pl.fwd <==> x in DataOf(objs) && Lifted(c, x)
  {
    hide LiveSlots, LiveData, Destinations, Lifted;
  }

  lemma LostIs(c: Major, objs: seq<Object>, lo: int, hi: int, heapStart: int, heapSize: nat, order: seq<int>, m1: Mem, weaks: int, m: Mem, i: nat, x: int)
    requires Before(c, objs, lo, hi, heapStart, heapSize, order, m1, weaks, m) && i < |objs|
    ensures Lost(PlanOf(c, order, m, objs, lo, hi), m, i, x) <==> LosesLiftedAt(c, objs, i, x)
    ensures LosesLiftedAt(c, objs, i, x) ==> Rd(m, x) == Rd(c.m0, x)
  {
    hide Settled, Marked, Ready, Survives, PlanOf, DataOf, Promoted, Lifted, VectorCells, IsPointerCell, LostTarget, WordFits;
    PlanFields(c, order, m, objs, lo, hi);
    PromotedLive(c, objs, lo, hi, heapStart, heapSize, order, m1, weaks, m, i);
    SurvivorsAreLive(c, objs, lo, hi, order, m) by { TiledFromReady(c, objs, lo, hi, heapStart, heapSize); }
    SameVectors(PromotedAll(c, order, m, objs), Surviving(c, objs), i + 1);
    if objs[i].data in order { LostSlot(c, objs, lo, hi, heapStart, heapSize, order, m1, weaks, m, i, x); }
  }

  lemma TiledFromReady(c: Major, objs: seq<Object>, lo: int, hi: int, heapStart: int, heapSize: nat)
    requires Ready(c, objs, lo, hi, heapStart, heapSize)
    ensures TiledHeap(c, objs, lo, hi) && ValidMajor(c) && WeaksOk(c) && WeakGoneOk(c.e) && LiftedTiled(c, objs)
  {
    hide TiledHeap, ValidMajor, WeaksOk, LiftedTiled, WeakGoneOk;
  }

  lemma PromotedLive(c: Major, objs: seq<Object>, lo: int, hi: int, heapStart: int, heapSize: nat, order: seq<int>, m1: Mem, weaks: int, m: Mem, i: nat)
    requires Before(c, objs, lo, hi, heapStart, heapSize, order, m1, weaks, m) && i < |objs|
    ensures var o := PromotedAll(c, order, m, objs)[i]; o == Promoted(c, order, m, objs[i]) && (o.live <==> Survives(c, objs[i].data))
    ensures objs[i].data in order <==> Survives(c, objs[i].data)
  {
    hide Settled, Marked, Ready, Survives;
    TiledFromReady(c, objs, lo, hi, heapStart, heapSize);
    NotLiveYet(c, objs, lo, hi, i);
    assert PromotedAll(c, order, m, objs)[i] == Promoted(c, order, m, objs[i]);
  }

  /** The slots of a marked object that lead to lifted ones. */
  lemma LostSlot(c: Major, objs: seq<Object>, lo: int, hi: int, heapStart: int, heapSize: nat, order: seq<int>, m1: Mem, weaks: int, m: Mem, i: nat, x: int)
    requires Before(c, objs, lo, hi, heapStart, heapSize, order, m1, weaks, m) && i < |objs| && objs[i].data in order
    ensures x in Promoted(c, order, m, objs[i]).slots && Rd(m, x) in DataOf(objs) && Lifted(c, Rd(m, x)) <==>
      IsPointerCell(c, objs[i].data, x) && Lifted(c, Rd(c.m0, x))
    ensures x in Promoted(c, order, m, objs[i]).slots ==> Rd(m, x) == Rd(c.m0, x)
    ensures IsPointerCell(c, objs[i].data, x) && Lifted(c, Rd(c.m0, x)) ==> Rd(m, x) == Rd(c.m0, x)
  {
    hide Settled, Marked, Ready, Survives, DataOf, Promoted, Lifted, IsPointerCell, LostTarget, WordFits;
    TiledFromReady(c, objs, lo, hi, heapStart, heapSize);
    MarkedSlots(c, objs, lo, hi, order, m1, weaks, m, i, x);
    if x in Promoted(c, order, m, objs[i]).slots {
      SlotWord(c, objs, lo, hi, heapStart, heapSize, order, m1, weaks, m, i, x);
    } else if IsPointerCell(c, objs[i].data, x) && Lifted(c, Rd(c.m0, x)) {
      LiftedIsKept(c, order, objs[i].data, x);
      assert false;
    }
  }

  lemma SurvivorsAreLive(c: Major, objs: seq<Object>, lo: int, hi: int, order: seq<int>, m: Mem)
    requires TiledHeap(c, objs, lo, hi)
    requires forall x {:trigger x in order} {:trigger Survives(c, x)} :: x in order <==> Survives(c, x)
    ensures var a, b := PromotedAll(c, order, m, objs), Surviving(c, objs);
      |a| == |b| && forall i {:trigger a[i]} {:trigger b[i]} :: 0 <= i < |a| ==> a[i].live == b[i].live && a[i].start == b[i].start
  {
    hide Survives, TiledHeap;
    var a, b := PromotedAll(c, order, m, objs), Surviving(c, objs);
    forall i {:trigger a[i]} {:trigger b[i]} | 0 <= i < |a| ensures a[i].live == b[i].live && a[i].start == b[i].start {
      NotLiveYet(c, objs, lo, hi, i);
      assert a[i] == Promoted(c, order, m, objs[i]) && b[i] == objs[i].(live := Survives(c, objs[i].data));
    }
  }

  /** A weak pointer to a lifted object is not cleared. */
  lemma LiftedIsKept(c: Major, order: seq<int>, p: int, x: int)
    requires IsPointerCell(c, p, x) && Lifted(c, Rd(c.m0, x))
    ensures !LostTarget(c, order, p)
  {
    hide Lifted;
  }

  lemma NoneLostIs(c: Major, objs: seq<Object>, lo: int, hi: int, heapStart: int, heapSize: nat, order: seq<int>, m1: Mem, weaks: int, m: Mem, m': Mem)
    requires Before(c, objs, lo, hi, heapStart, heapSize, order, m1, weaks, m)
    ensures var pl := PlanOf(c, order, m, objs, lo, hi);
      && (NoneLost(pl, m, |pl.objs|) <==> !LosesLifted(c, objs))
      && (Miswritten(pl, m, m') ==> Misthreaded(c, objs, m'))
  {
    hide Before, Lost, LosesLiftedAt, IsVectorWord;
    var pl := PlanOf(c, order, m, objs, lo, hi);
    forall i, x | 0 <= i < |objs|
      ensures Lost(pl, m, i, x) <==> LosesLiftedAt(c, objs, i, x)
      ensures LosesLiftedAt(c, objs, i, x) ==> Rd(m, x) == Rd(c.m0, x)
    {
      LostIs(c, objs, lo, hi, heapStart, heapSize, order, m1, weaks, m, i, x);
    }
  }

  // -------------------------------------------------------------- the roots fixed

  /** What is known of the heap once its roots have been fixed. */
  lemma FixedHeap(c: Major, cf: Major)
    requires ValidMajor(c) && FixedUpTo(c, cf, |c.roots|)
    ensures cf == c.(m0 := cf.m0) && ValidMajor(cf)
    ensures forall x {:trigger Rd(cf.m0, x)} :: x !in c.roots ==> Rd(cf.m0, x) == Rd(c.m0, x)
    ensures forall s {:trigger Rd(cf.m0, s)} :: s in c.roots ==> Rd(cf.m0, s) == Followed(c.m0, Rd(c.m0, s), 1)
    ensures forall x {:trigger Survives(cf, x)} :: Survives(cf, x) <==> Survives(c, x)
    ensures forall w {:trigger Lifted(cf, w)} :: Lifted(cf, w) <==> Lifted(c, w)
    ensures forall w {:trigger SharedObject(cf, w)} :: SharedObject(cf, w) <==> SharedObject(c, w)
    ensures forall s {:trigger s in c.roots} :: s in c.roots ==> !Lifted(cf, Rd(cf.m0, s))
  {
    hide ValidMajor, Survives, Lifted, SharedObject, Followed;
    assert c.roots[..|c.roots|] == c.roots;
    forall s {:trigger s in c.roots} | s in c.roots ensures !Lifted(cf, Rd(cf.m0, s)) {
      var k :| 0 <= k < |c.roots| && c.roots[k] == s;
    }
  }

  /** A root is no cell of an object. */
  lemma CellIsNoRoot(c: Major, p: int, x: int)
    requires ValidMajor(c) && MarkGraph.InExtent(c.e, c.g, p, x)
    ensures x !in c.roots
  {
    hide MarkGraph.Nodes, MarkGraph.Apart, TargetsOk, MarkGraph.InExtent, TargetOk;
    forall k {:trigger c.roots[k]} | 0 <= k < |c.roots| ensures c.roots[k] != x { assert RootOk(c, c.roots[k]); }
  }

  lemma PointerCellKept(c: Major, cf: Major, p: int, x: int)
    requires ValidMajor(c) && FixedUpTo(c, cf, |c.roots|)
    ensures IsPointerCell(cf, p, x) <==> IsPointerCell(c, p, x)
    ensures IsPointerCell(c, p, x) ==> Rd(cf.m0, x) == Rd(c.m0, x)
  {
    hide ValidMajor, Survives, Lifted, SharedObject, MarkGraph.SlotAt, MarkGraph.InExtent, FixedUpTo, MarkGraph.OffsetOfWeak;
    FixedHeap(c, cf);
    if IsPointerCell(c, p, x) {
      if c.g[p].t.tag == WeakTag {
        PointerCell(c, p);
      } else {
        var a, j :| MarkGraph.IsCursor(c.g[p], a, j) && x == MarkGraph.SlotAt(p, c.g[p].t, a, j);
        CursorCell(c, p, a, j);
      }
      CellIsNoRoot(c, p, x);
    }
  }

  lemma WeaksOkFixed(c: Major, cf: Major)
    requires ValidMajor(c) && WeaksOk(c) && FixedUpTo(c, cf, |c.roots|)
    ensures WeaksOk(cf)
  {
    hide ValidMajor, Survives, Lifted, FixedUpTo, MarkGraph.OffsetOfWeak;
    FixedHeap(c, cf);
    forall p {:trigger p in c.g} | p in c.g ensures WeakOk(cf, p) {
      assert WeakOk(c, p);
      if c.g[p].t.tag == WeakTag {
        PointerCell(c, p);
        CellIsNoRoot(c, p, MarkGraph.WeakCell(c.e, p));
        var w := Rd(c.m0, MarkGraph.WeakCell(c.e, p));
        if SharedObject(c, w) { assert SharedObject(cf, w) && w - HEADER_SIZE !in c.roots; }
      }
    }
  }

  lemma TilesFixed(c: Major, cf: Major, objs: seq<Object>, lo: int, hi: int)
    requires ValidMajor(c) && TiledHeap(c, objs, lo, hi) && RootCells(c, lo, hi) && FixedUpTo(c, cf, |c.roots|)
    ensures TiledHeap(cf, objs, lo, hi)
  {
    hide ValidMajor, FixedUpTo, Describes, Tiled, Survives, Lifted, SharedObject, Followed;
    FixedHeap(c, cf);
    ModelIsValid(c);
    forall o {:trigger o in objs} | o in objs
      ensures Describes(cf.e, cf.m0, o) && !o.live
      ensures forall a {:trigger ForwardingCell(cf.m0, o, a)} :: ForwardingCell(cf.m0, o, a) ==> !(lo <= a < hi) && a !in cf.roots
    {
      var i :| 0 <= i < |objs| && objs[i] == o;
      TiledRange(objs, lo, hi, i);
      DescribedShape(c.e, c.m0, o);
      forall a {:trigger Rd(cf.m0, a)} | DescriptionCell(c.m0, o, a) ensures Rd(cf.m0, a) == Rd(c.m0, a) {
        assert a !in c.roots;
      }
      DescribesFrame(c.e, c.m0, cf.m0, o);
      SameForwarding(c.e, c.m0, cf.m0, o);
    }
  }

  lemma ReadyFixed(c: Major, cf: Major, objs: seq<Object>, lo: int, hi: int, heapStart: int, heapSize: nat)
    requires Ready(c, objs, lo, hi, heapStart, heapSize) && FixedUpTo(c, cf, |c.roots|)
    ensures Ready(cf, objs, lo, hi, heapStart, heapSize)
  {
    hide ValidMajor, WeaksOk, TiledHeap, Survives, Lifted, SharedObject, FixedUpTo, IsPointerCell;
    FixedHeap(c, cf);
    WeaksOkFixed(c, cf);
    TilesFixed(c, cf, objs, lo, hi);
    forall p, x {:trigger IsPointerCell(cf, p, x)} | IsPointerCell(cf, p, x) && Lifted(cf, Rd(cf.m0, x)) ensures Rd(cf.m0, x) in DataOf(objs) {
      PointerCellKept(c, cf, p, x);
    }
  }

  lemma {:induction false} GarbageFixed(c: Major, cf: Major, objs: seq<Object>, n: nat)
    requires n <= |objs| && forall x {:trigger Survives(cf, x)} :: Survives(cf, x) <==> Survives(c, x)
    ensures Garbage(cf, objs, n) == Garbage(c, objs, n)
    decreases n
  {
    hide Survives;
    if n > 0 { GarbageFixed(c, cf, objs, n - 1); }
  }

  lemma LosesFixed(c: Major, cf: Major, objs: seq<Object>, m: Mem)
    requires ValidMajor(c) && FixedUpTo(c, cf, |c.roots|)
    ensures LosesLifted(cf, objs) <==> LosesLifted(c, objs)
    ensures Misthreaded(cf, objs, m) <==> Misthreaded(c, objs, m)
  {
    hide ValidMajor, Survives, Lifted, SharedObject, FixedUpTo, IsPointerCell, VectorCells, IsVectorWord;
    FixedHeap(c, cf);
    assert Surviving(cf, objs) == Surviving(c, objs);
    forall i, x | 0 <= i < |objs|
      ensures LosesLiftedAt(cf, objs, i, x) <==> LosesLiftedAt(c, objs, i, x)
      ensures LosesLiftedAt(c, objs, i, x) ==> Rd(cf.m0, x) == Rd(c.m0, x)
    {
      PointerCellKept(c, cf, objs[i].data, x);
    }
  }

  lemma RehomedFixed(c: Major, cf: Major, objs: seq<Object>, w: int, w': int)
    requires ValidMajor(c) && FixedUpTo(c, cf, |c.roots|) && Rehomed(cf, objs, w, w')
    ensures Rehomed(c, objs, w, w')
  {
    hide ValidMajor, Survives, SharedObject, FixedUpTo, Garbage;
    FixedHeap(c, cf);
    if Survives(c, w) {
      var i :| 0 <= i < |objs| && objs[i].data == w && w' == w - Garbage(cf, objs, i);
      GarbageFixed(c, cf, objs, i);
    }
  }

  lemma MovedFixed(c: Major, cf: Major, objs: seq<Object>, p: int, gap: int, m: Mem)
    requires ValidMajor(c) && FixedUpTo(c, cf, |c.roots|) && p in c.g && MovedIntact(cf, objs, p, gap, m)
    ensures MovedIntact(c, objs, p, gap, m)
  {
    hide ValidMajor, Survives, SharedObject, Lifted, FixedUpTo, Garbage, MarkGraph.InExtent, MarkGraph.SlotAt, MarkGraph.OffsetOfWeak, Rehomed;
    FixedHeap(c, cf);
    HeaderIsNoRoot(c, p);
    forall a, j {:trigger MarkGraph.SlotAt(p, c.g[p].t, a, j)} | MarkGraph.IsCursor(c.g[p], a, j)
      ensures Rehomed(c, objs, Rd(c.m0, MarkGraph.SlotAt(p, c.g[p].t, a, j)), Rd(m, MarkGraph.SlotAt(p, c.g[p].t, a, j) - gap))
    {
      var x := MarkGraph.SlotAt(p, c.g[p].t, a, j);
      CursorCell(c, p, a, j);
      CellIsNoRoot(c, p, x);
      RehomedFixed(c, cf, objs, Rd(c.m0, x), Rd(m, x - gap));
    }
    if c.g[p].t.tag == WeakTag {
      PointerCell(c, p);
      CellIsNoRoot(c, p, MarkGraph.WeakCell(c.e, p));
      if !LosesTarget(c, p) { RehomedFixed(c, cf, objs, Rd(c.m0, MarkGraph.WeakCell(c.e, p)), Rd(m, MarkGraph.WeakCell(c.e, p) - gap)); }
    }
    forall x {:trigger IsPayload(c, p, x)} | IsPayload(c, p, x) ensures Rd(m, x - gap) == Rd(c.m0, x) {
      CellIsNoRoot(c, p, x);
      assert IsPayload(cf, p, x);
    }
  }

  lemma HeaderIsNoRoot(c: Major, p: int)
    requires ValidMajor(c) && p in c.g
    ensures p - HEADER_SIZE !in c.roots
  {
    hide MarkGraph.Apart, TargetsOk, RootOk, MarkGraph.InExtent, MarkGraph.Nodes;
    MarkGraph.CellsInExtent(c.e, c.m0, c.g, p);
    CellIsNoRoot(c, p, p - HEADER_SIZE);
  }

  lemma RootRehomed(c: Major, cf: Major, objs: seq<Object>, s: int, w': int)
    requires ValidMajor(c) && FixedUpTo(c, cf, |c.roots|) && s in c.roots && Rehomed(cf, objs, Rd(cf.m0, s), w')
    ensures Rehomed(c, objs, Rd(c.m0, s), w')
  {
    hide MarkGraph.Nodes, MarkGraph.Apart, TargetsOk, Survives, FixedUpTo, Garbage, Followed, Steady;
    FixedHeap(c, cf);
    RehomedFixed(c, cf, objs, Rd(cf.m0, s), w');
    var k :| 0 <= k < |c.roots| && c.roots[k] == s;
    assert RootOk(c, c.roots[k]);
    var w := Rd(c.m0, s);
    FollowedOnce(c.m0, w);
    if IsObjptr(w) {
      RootSettles(c, s);
      if Lifted(c, w) { LiftedDoesNotSurvive(c, w, Rd(c.m0, w)); }
    }
  }

  lemma LiftedDoesNotSurvive(c: Major, w: int, r: int)
    requires ValidMajor(c) && Lifted(c, w) && r == Rd(c.m0, w)
    ensures !Survives(c, w) && !Survives(c, r) && !Lifted(c, r)
  {
    hide MarkGraph.Nodes, MarkGraph.Apart, TargetsOk, RootOk, MarkGraph.IsPath;
    NotLifted1(c, w);
    OnlyNodesSurvive(c, w);
    OnlyNodesSurvive(c, r);
  }

  lemma NotLifted1(c: Major, w: int)
    requires ValidMajor(c) && Lifted(c, w)
    ensures w !in c.g
  {
    hide ValidMajor;
    if w in c.g { NotLifted(c, w); }
  }

  lemma OnlyNodesSurvive(c: Major, x: int)
    ensures Survives(c, x) ==> x in c.g
  {
    hide MarkGraph.Edge, MarkGraph.IsFresh;
    if k :| FromRoot(c, k, x) {
      var path :| MarkGraph.IsPath(c.m0, c.g, c.sc, false, Rd(c.m0, c.roots[k]), path) && path[|path| - 1] == x;
      assert path[|path| - 1] in c.g;
    }
  }

  /** What has been collected with the roots fixed has been collected. */
  lemma CollectedFixed(c: Major, cf: Major, objs: seq<Object>, lo: int, hi: int, m: Mem)
    requires ValidMajor(c) && FixedUpTo(c, cf, |c.roots|) && Collected(cf, objs, lo, hi, m)
    ensures Collected(c, objs, lo, hi, m)
  {
    hide ValidMajor, Survives, SharedObject, Lifted, FixedUpTo, Garbage, Rehomed, MovedIntact;
    FixedHeap(c, cf);
    forall i {:trigger objs[i]} | 0 <= i < |objs| && Survives(c, objs[i].data)
      ensures objs[i].data in c.g && MovedIntact(c, objs, objs[i].data, Garbage(c, objs, i), m)
    {
      assert Survives(cf, objs[i].data);
      GarbageFixed(c, cf, objs, i);
      MovedFixed(c, cf, objs, objs[i].data, Garbage(c, objs, i), m);
    }
    forall s {:trigger s in c.roots} | s in c.roots ensures Rehomed(c, objs, Rd(c.m0, s), Rd(m, s)) {
      RootRehomed(c, cf, objs, s, Rd(m, s));
    }
  }

  // ------------------------------------------------------------ the collection

  lemma RootsDistinct(c: Major, objs: seq<Object>, lo: int, hi: int, heapStart: int, heapSize: nat)
    requires Ready(c, objs, lo, hi, heapStart, heapSize)
    ensures Distinct(c.roots) && ValidMajor(c) && WeaksOk(c)
  {
    hide ValidMajor, WeaksOk, TiledHeap, LiftedTiled;
  }

  lemma IsBefore(c: Major, cf: Major, objs: seq<Object>, lo: int, hi: int, heapStart: int, heapSize: nat, order: seq<int>, m1: Mem, weaks: int, m: Mem)
    requires Ready(c, objs, lo, hi, heapStart, heapSize) && FixedUpTo(c, cf, |c.roots|)
    requires Marked(cf, order, m1, weaks, m) && forall x :: x in order <==> Survives(c, x)
    ensures Before(cf, objs, lo, hi, heapStart, heapSize, order, m1, weaks, m)
  {
    hide ValidMajor, WeaksOk, TiledHeap, LiftedTiled, Survives, Lifted, FixedUpTo, Marked, SharedObject;
    ReadyFixed(c, cf, objs, lo, hi, heapStart, heapSize);
    FixedHeap(c, cf);
  }

  /** majorMarkCompactGC: marks from the roots, settles the weak pointers, and
      compacts what is marked. mk carries the memory of the collector's state.
      ok is false if a pointer is threaded to a vector. */
  method MajorMarkCompactGC(mk: DfsMark.Marker, roots: seq<int>, start: int, heapStart: int, heapSize: nat, oldGenSize: int, ghost c: Major, ghost objs: seq<Object>)
    returns (ok: bool, oldGenSize': int)
    requires Ready(c, objs, start, heapStart + oldGenSize, heapStart, heapSize)
    requires mk.e == c.e && mk.mem == c.m0 && mk.weaks == 0 && roots == c.roots
    requires c.sc == MarkGraph.Scope(true, mk.sharedLo, mk.sharedHi)
    modifies mk
    ensures ok <==> !LosesLifted(c, objs)
    ensures ok ==> Collected(c, objs, start, heapStart + oldGenSize, mk.mem) && mk.weaks == 0
    ensures ok ==> oldGenSize' == oldGenSize - Garbage(c, objs, |objs|)
    ensures !ok ==> Misthreaded(c, objs, mk.mem)
  {
    hide *;
    ghost var lo, hi := start, heapStart + oldGenSize;
    RootsDistinct(c, objs, lo, hi, heapStart, heapSize);
    ghost var cf, order := MarkFromRoots(mk, roots, c);
    FixedHeap(c, cf);
    WeaksOkFixed(c, cf);
    ghost var m1, weaks := mk.mem, mk.weaks;
    UpdateWeaksForMarkCompact(mk, cf, order);
    ghost var m := mk.mem;
    MarkedHolds(cf, order, m1, weaks, m);
    IsBefore(c, cf, objs, lo, hi, heapStart, heapSize, order, m1, weaks, m);
    ReadyToCompact(cf, objs, lo, hi, heapStart, heapSize, order, m1, weaks, m);
    var compactor := new MarkCompact.Compactor(mk.e, heapStart, heapSize, oldGenSize, mk.mem);
    ok := compactor.CompactMarked(roots, start, PlanOf(cf, order, m, objs, lo, hi));
    NoneLostIs(cf, objs, lo, hi, heapStart, heapSize, order, m1, weaks, m, compactor.mem);
    LosesFixed(c, cf, objs, compactor.mem);
    GarbageFixed(c, cf, objs, |objs|);
    if ok {
      CollectionPreservesGraph(cf, objs, lo, hi, heapStart, heapSize, order, m1, weaks, m, compactor.mem);
      CollectedFixed(c, cf, objs, lo, hi, compactor.mem);
    }
    mk.mem := compactor.mem;
    oldGenSize' := compactor.oldGenSize;
  }

  lemma MarkedHolds(c: Major, order: seq<int>, m1: Mem, weaks: int, m: Mem)
    requires MarkedUpTo(c, m1, weaks, order, |c.roots|) && Settled(c, m1, order, Linked(c, order), m)
    ensures Marked(c, order, m1, weaks, m)
  {
  }
}
