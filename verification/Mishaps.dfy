/** Small heaps on which operations that accept them do not do what they are
    for: a cross map with a wrong last entry, weak pointers that are cleared or
    left behind, and a forwarder whose assertion fails. */
module Mishaps {
  import opened Memory
  import opened Objects
  import opened Layout
  import opened HeapObjects
  import MarkGraph
  import opened MarkRoots
  import opened MarkWeaks
  import opened MajorPlan
  import opened MajorMarkCompact
  import opened SmallHeap
  import Cleanliness
  import CopyJob
  import CopySteps
  import CopyScan
  import CrossMap
  import LiftRanges
  import Lift

  // ------------------------------------------------------------- the cross map

  /** One vector of 232 bytes fills the first card of an old generation. */
  const VECTOR: Mem := map[1024 := 0, 1032 := 232, 1040 := 7]

  lemma VectorFillsCard()
    ensures CrossMap.Boundaries(MODEL, VECTOR, 1024, [0, 256])
  {
    assert TypeOf(MODEL, 7) == WORD8_VECTOR_TYPE;
    assert AdvanceToObjectData(VECTOR, 1024) == 1048;
    VectorBytes(232);
    assert ArrayNoHeader(MODEL, 232, WORD8_VECTOR_TYPE) == 232;
    assert SizeofObject(MODEL, VECTOR, 1048) == 256;
    assert CrossMap.Object(MODEL, VECTOR, 1024, [0, 256], 0);
  }

  lemma {:induction false} VectorBytes(n: nat)
    ensures ArrayBytes(n, WORD8_VECTOR_TYPE) == n
    decreases n
  {
    if n > 0 { VectorBytes(n - 1); }
  }

  /** The map ends up with the offset zero for the card, whose last boundary is
      at its end, at offset 64. */
  method CrossMapGoesWrong() returns (entry: int)
    ensures entry == 0 && CrossMap.Entry([0, 256], 0) == 64
  {
    hide CrossMap.Boundaries;
    VectorFillsCard();
    ModelOk();
    var maps := new CrossMap.GenerationalMaps(MODEL, 1024, 2);
    maps.UpdateCrossMap(VECTOR, 256, [], [0, 256]);
    entry := maps.crossMap[0];
    assert CrossMap.CardOf(256) == 0 && CrossMap.EntryOf(256) == 64;
  }

  // ------------------------------------------------------------- weak pointers

  /** A weak object at 24 whose pointer is w, and a pair at 48; another pair is at
      5016 in the shared heap. */
  function WeakWords(w: int): Mem {
    map[16 := 9, 24 := 0, 32 := w, 40 := 1, 48 := 48, ROOT := 24, 5008 := 1, 5016 := 5016]
  }

  const WEAK_GRAPH: MarkGraph.Graph := map[24 := MarkGraph.Shape(LINK, 0), 48 := MarkGraph.Shape(PAIR, 0)]

  const WEAK_OBJECTS := [Object(16, 24, 24, [], false), Object(40, 48, 16, [], false)]

  ghost const WEAK_HEAP := Major(MODEL, WEAK_GRAPH, WeakWords(5016), MarkGraph.Scope(true, 5000, 6000), [ROOT])

  lemma WeakExtent(p: int, x: int)
    ensures MarkGraph.InExtent(MODEL, WEAK_GRAPH, p, x) <==> (p == 24 && 16 <= x < 40) || (p == 48 && 40 <= x < 56)
  {
  }

  lemma WeakCursor(p: int, a: int, j: int)
    requires p in WEAK_GRAPH
    ensures MarkGraph.IsCursor(WEAK_GRAPH[p], a, j) <==> p == 48 && a == 0 && j == 0
    ensures a == 0 && j == 0 ==> MarkGraph.SlotAt(48, PAIR, a, j) == 48
    ensures MarkGraph.WeakCell(MODEL, 24) == 32
  {
  }

  lemma WeakNodes(w: int)
    ensures MarkGraph.Nodes(MODEL, WeakWords(w), WEAK_GRAPH) && Cleanliness.NoneMarked(WeakWords(w), WEAK_GRAPH)
  {
    hide MarkGraph.IsNode, IsMarked;
    forall p {:trigger p in WEAK_GRAPH} | p in WEAK_GRAPH
      ensures MarkGraph.IsNode(MODEL, WeakWords(w), p, WEAK_GRAPH[p]) && !IsMarked(Rd(WeakWords(w), p - HEADER_SIZE))
    {
      WeakNode(w, p);
    }
  }

  lemma WeakNode(w: int, p: int)
    requires p in WEAK_GRAPH
    ensures MarkGraph.IsNode(MODEL, WeakWords(w), p, WEAK_GRAPH[p]) && !IsMarked(Rd(WeakWords(w), p - HEADER_SIZE))
  {
    hide ValidType;
    ModelOk();
    TypeOk(LINK);
    assert Rd(WeakWords(w), p - HEADER_SIZE) == if p == 24 then 9 else 1;
  }

  lemma WeakApart()
    ensures MarkGraph.Apart(MODEL, WEAK_GRAPH)
  {
    hide MarkGraph.InExtent;
    forall p, q, x {:trigger MarkGraph.InExtent(MODEL, WEAK_GRAPH, p, x), MarkGraph.InExtent(MODEL, WEAK_GRAPH, q, x)}
      | MarkGraph.InExtent(MODEL, WEAK_GRAPH, p, x) && MarkGraph.InExtent(MODEL, WEAK_GRAPH, q, x) ensures p == q
    {
      WeakExtent(p, x);
      WeakExtent(q, x);
    }
  }

  lemma WeakOutside(x: int)
    requires !(16 <= x < 56)
    ensures MarkGraph.Outside(MODEL, WEAK_GRAPH, x)
  {
    hide MarkGraph.InExtent;
    forall p {:trigger MarkGraph.InExtent(MODEL, WEAK_GRAPH, p, x)} ensures !MarkGraph.InExtent(MODEL, WEAK_GRAPH, p, x) { WeakExtent(p, x); }
  }

  lemma TargetIsShared()
    ensures SharedObject(WEAK_HEAP, 5016) && !Lifted(WEAK_HEAP, 5016) && !Lifted(WEAK_HEAP, 48) && !Lifted(WEAK_HEAP, 24)
    ensures WeaksOk(WEAK_HEAP)
  {
    WeakOutside(5008);
    WeakCursor(24, 0, 0);
  }

  lemma WeakTargets()
    ensures TargetsOk(WEAK_HEAP) && RootOk(WEAK_HEAP, ROOT)
  {
    hide MarkGraph.SlotAt, MarkGraph.Outside, Lifted, SharedObject;
    WeakOutside(ROOT);
    forall p, a, j {:trigger MarkGraph.SlotAt(p, WEAK_GRAPH[p].t, a, j)} | p in WEAK_GRAPH && MarkGraph.IsCursor(WEAK_GRAPH[p], a, j)
      ensures TargetOk(WEAK_HEAP, Rd(WEAK_HEAP.m0, MarkGraph.SlotAt(p, WEAK_GRAPH[p].t, a, j)))
    {
      WeakCursor(p, a, j);
    }
  }

  lemma WeakTile(i: int)
    requires 0 <= i < |WEAK_OBJECTS|
    ensures Describes(MODEL, WEAK_HEAP.m0, WEAK_OBJECTS[i])
    ensures forall a {:trigger ForwardingCell(WEAK_HEAP.m0, WEAK_OBJECTS[i], a)} :: !ForwardingCell(WEAK_HEAP.m0, WEAK_OBJECTS[i], a)
  {
    var o := WEAK_OBJECTS[i];
    assert Rd(WEAK_HEAP.m0, o.start) == if i == 0 then 9 else 1;
    assert TypeOf(MODEL, 9) == LINK && TypeOf(MODEL, 1) == PAIR;
    assert SizeofObject(MODEL, WEAK_HEAP.m0, o.data) == o.size;
  }

  lemma WeakTiles()
    ensures TiledHeap(WEAK_HEAP, WEAK_OBJECTS, 16, 56)
  {
    hide Describes, ForwardingCell;
    forall i {:trigger WEAK_OBJECTS[i]} | 0 <= i < |WEAK_OBJECTS|
      ensures Describes(MODEL, WEAK_HEAP.m0, WEAK_OBJECTS[i])
      ensures forall a {:trigger ForwardingCell(WEAK_HEAP.m0, WEAK_OBJECTS[i], a)} :: !ForwardingCell(WEAK_HEAP.m0, WEAK_OBJECTS[i], a)
    {
      WeakTile(i);
    }
    assert Tiled(WEAK_OBJECTS, 16, 56);
    assert WEAK_OBJECTS[0].data == 24 && WEAK_OBJECTS[1].data == 48;
    forall p {:trigger p in WEAK_GRAPH} | p in WEAK_GRAPH ensures exists i {:trigger WEAK_OBJECTS[i]} :: 0 <= i < |WEAK_OBJECTS| && WEAK_OBJECTS[i].data == p {
      assert p == WEAK_OBJECTS[0].data || p == WEAK_OBJECTS[1].data;
    }
  }

  lemma WeakPointer(p: int, x: int)
    requires IsPointerCell(WEAK_HEAP, p, x)
    ensures Rd(WEAK_HEAP.m0, x) == if p == 24 then 5016 else 48
  {
    hide MarkGraph.SlotAt;
    WeakCursor(p, 0, 0);
    if p == 48 {
      var a, j :| MarkGraph.IsCursor(WEAK_GRAPH[p], a, j) && x == MarkGraph.SlotAt(p, WEAK_GRAPH[p].t, a, j);
      WeakCursor(p, a, j);
    }
  }

  /** A collection accepts this heap and does not lose anything lifted. */
  lemma WeakHeapIsReady()
    ensures Ready(WEAK_HEAP, WEAK_OBJECTS, 16, 56, 0, 4096) && !LosesLifted(WEAK_HEAP, WEAK_OBJECTS)
  {
    hide MarkGraph.Nodes, MarkGraph.Apart, TargetsOk, Cleanliness.NoneMarked, ValidModel, WeakGoneOk, TiledHeap, RootOk, IsPointerCell, Lifted, Survives, WeaksOk, SharedObject;
    ModelOk();
    WeakNodes(5016);
    WeakApart();
    WeakTargets();
    WeakTiles();
    TargetIsShared();
    forall p, x {:trigger IsPointerCell(WEAK_HEAP, p, x)} | IsPointerCell(WEAK_HEAP, p, x) ensures !Lifted(WEAK_HEAP, Rd(WEAK_HEAP.m0, x)) { WeakPointer(p, x); }
  }

  lemma WeakSurvives()
    ensures Survives(WEAK_HEAP, 24) && !Survives(WEAK_HEAP, 5016)
    ensures Garbage(WEAK_HEAP, WEAK_OBJECTS, 0) == 0
  {
    hide MarkGraph.Edge;
    assert MarkGraph.IsPath(WEAK_HEAP.m0, WEAK_GRAPH, WEAK_HEAP.sc, false, 24, [24]);
    assert FromRoot(WEAK_HEAP, 0, 24);
  }

  /** So the weak object, which a root leads to, is gone after the collection,
      though its target is in the shared heap and stays there. */
  lemma SharedTargetIsLost(m: Mem)
    requires Collected(WEAK_HEAP, WEAK_OBJECTS, 16, 56, m)
    ensures Rd(m, 16) == BuildHeader(WEAK_GONE_TYPE_INDEX) && Rd(m, 32) == BOGUS_OBJPTR
    ensures Rd(m, 5008) == 1 && Rd(m, 5016) == 5016
  {
    hide Survives, Lifted, SharedObject, WeaksOk, Rehomed, IsPayload, MarkGraph.SlotAt;
    WeakSurvives();
    TargetIsShared();
    WeakCursor(24, 0, 0);
    assert WEAK_OBJECTS[0].data == 24;
    assert LosesTarget(WEAK_HEAP, 24);
    assert MovedIntact(WEAK_HEAP, WEAK_OBJECTS, 24, 0, m);
  }

  // ---------------------------------------------------------- lifting a weak object

  /** Lifting the weak object at 24, which points to the pair at 48. */
  ghost const WEAK_LIFT := CopyJob.Job(MODEL, WEAK_GRAPH, WeakWords(48), map[], 16, 56, 5024, 6000, {ROOT}, false, true, false)

  lemma WeakTraced(p: int, x: int)
    requires p in WEAK_GRAPH
    ensures x in CopyJob.Traced(WEAK_GRAPH[p], p) <==> p == 48 && x == 48
  {
    assert SlotRun(48, 1) == [48];
  }

  lemma WeakLiftIsReady()
    ensures CopyJob.ValidJob(WEAK_LIFT) && CopyScan.Within(WEAK_LIFT, 16, 56) && Lift.ValidShared(WEAK_LIFT, 5000, 6000)
  {
    hide MarkGraph.Nodes, MarkGraph.Apart, ValidModel, MarkGraph.InExtent, CopyJob.Traced;
    ModelOk();
    WeakNodes(48);
    WeakApart();
    WeakUnlifted();
    forall p, x {:trigger MarkGraph.InExtent(MODEL, WEAK_GRAPH, p, x)} ensures MarkGraph.InExtent(MODEL, WEAK_GRAPH, p, x) ==> 16 <= x < 56 { WeakExtent(p, x); }
    forall p, s {:trigger s in CopyJob.Traced(WEAK_GRAPH[p], p)} | p in WEAK_GRAPH ensures s in CopyJob.Traced(WEAK_GRAPH[p], p) <==> p == 48 && s == 48 { WeakTraced(p, s); }
    forall x | Lift.IsTraced(WEAK_LIFT, x) ensures CopyJob.Takes(WEAK_LIFT, Rd(WEAK_LIFT.m0, x)) {
      if x != ROOT {
        var p :| p in WEAK_GRAPH && x in CopyJob.Traced(WEAK_GRAPH[p], p);
        WeakTraced(p, x);
      }
    }
  }

  lemma WeakUnlifted()
    ensures forall p {:trigger p in WEAK_GRAPH} :: p in WEAK_GRAPH ==> !IsLifted(Rd(WeakWords(48), p - HEADER_SIZE))
  {
  }

  /** The lift gives a copy in the shared heap whose weak pointer leads into the
      local heap, to an object that has not been lifted. */
  method WeakPointerIsLeftBehind() returns (copy: int, target: int)
    ensures 5000 <= copy < 6000 && target == 48
  {
    hide CopyJob.Inv, CopyScan.AllUpdated, CopyJob.ValidJob, CopyScan.Within, Lift.ValidShared, Lift.Lifted, Lift.ClosureShared, CopyJob.Reaches, CopyJob.Traced;
    WeakLiftIsReady();
    var l := new Lift.Lifter(MODEL, 16, 56, 16, 56, 5000, 6000, 5024, false, [], WeakWords(48), 0);
    l.MoveTransitiveClosure(ROOT, WEAK_LIFT, 16, 56);
    copy := Rd(l.mem, ROOT);
    target := Rd(l.mem, copy + 8);
    ghost var s := l.st;
    assert 24 in s.objs by {
      CopyJob.RootReaches(WEAK_LIFT, 24) by { assert CopyJob.FromRoot(WEAK_LIFT, 24); }
      CopyScan.CopiedExactly(WEAK_LIFT, s);
    }
    Lift.WeakPointerStays(WEAK_LIFT, s, 24);
    assert Lift.Lifted(WEAK_LIFT, s, l.mem);
    Lift.LiftedRoot(WEAK_LIFT, s, ROOT);
    CellAfterLink(s.fwd[24]);
    RootLandsShared(l.mem, s);
  }

  lemma CellAfterLink(p: int)
    ensures MarkGraph.WeakCell(MODEL, p) == p + 8
  {
  }

  lemma RootLandsShared(m: Mem, s: CopyJob.State)
    requires Lift.ClosureShared(WEAK_LIFT, s, m, 5000, 6000)
    ensures 5000 <= Rd(m, ROOT) < 6000
  {
  }

  // ------------------------------------------------- the assertion of the forwarder

  /** The object at 24 has been lifted before, and a root still leads to it. */
  const STALE: Mem := map[16 := FORWARDED, 24 := 5016, ROOT := 24, 5008 := 1, 5016 := 1]

  ghost const STALE_LIFT := CopyJob.Job(MODEL, map[], STALE, map[24 := 5016], 16, 32, 5024, 6000, {ROOT}, false, true, true)

  lemma StaleLiftIsReady()
    ensures CopyJob.ValidJob(STALE_LIFT) && CopyScan.Within(STALE_LIFT, 16, 32) && Lift.ValidShared(STALE_LIFT, 5000, 6000)
  {
    hide ValidModel;
    ModelOk();
    forall x | Lift.IsTraced(STALE_LIFT, x) ensures CopyJob.Takes(STALE_LIFT, Rd(STALE, x)) {
      assert x == ROOT;
    }
    assert Lift.InPlace(STALE_LIFT, 5000, 6000, 5016);
  }

  /** Called on that root while immutable objects are being copied, without the
      forwarding pointer having been followed, the forwarder's assertion fails. */
  method ForwarderAssertionFails() returns (ok: bool)
    ensures !ok
  {
    hide CopyJob.Inv, CopyJob.ValidJob, CopyScan.Within, Lift.ValidShared, LiftRanges.Gaps, CopySteps.SlotOf, CopySteps.Here;
    StaleLiftIsReady();
    var l := new Lift.Lifter(MODEL, 16, 32, 16, 32, 5000, 6000, 5024, true, [], STALE, 0);
    l.st := CopyJob.State(STALE, STALE_LIFT.forwarded, [], [], 5024, {});
    Lift.NothingLiftedYet(l, STALE_LIFT, 16, 32, ROOT);
    ghost var start, m1;
    ok, start, m1 := l.ForwardObjptrToSharedHeap(ROOT, 0, ROOT, STALE_LIFT, 16, 32);
  }
}
