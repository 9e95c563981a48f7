/** A heap of three objects, two of which point to each other, that a collection
    can start from. It shows that what collections ask for can be met. */
module SmallHeap {
  import opened Memory
  import opened Objects
  import opened Layout
  import opened HeapObjects
  import MarkGraph
  import opened MarkRoots
  import opened MarkWeaks
  import opened MajorPlan
  import opened MajorMarkCompact
  import Cleanliness
  import CopyJob
  import CopyScan
  import CheneyCopy
  import CheneyWeaks
  import Lift

  const PAIR := ObjectType(NormalTag, false, 0, 1)
  const GONE := ObjectType(WeakTag, false, 16, 0)

  const LINK := ObjectType(WeakTag, false, 8, 1)

  const MODEL := Model([PAIR, HEADER_ONLY_TYPE, GONE, WORD8_VECTOR_TYPE, LINK, PAIR, PAIR, HEADER_ONLY_TYPE, FILL_TYPE], 8)

  const ROOT := 1000

  /** Objects at 24, 40 and 56; the first and the last point to each other, the
      middle one points to the first. */
  const WORDS: Mem := map[16 := 1, 24 := 56, 32 := 1, 40 := 24, 48 := 1, 56 := 24, ROOT := 24]

  const GRAPH: MarkGraph.Graph := map[24 := MarkGraph.Shape(PAIR, 0), 40 := MarkGraph.Shape(PAIR, 0), 56 := MarkGraph.Shape(PAIR, 0)]

  const OBJECTS := [Object(16, 24, 16, [], false), Object(32, 40, 16, [], false), Object(48, 56, 16, [], false)]

  ghost const HEAP := Major(MODEL, GRAPH, WORDS, MarkGraph.Scope(true, 5000, 6000), [ROOT])

  lemma TypeOk(t: ObjectType)
    requires t in {PAIR, GONE, LINK, HEADER_ONLY_TYPE, WORD8_VECTOR_TYPE, FILL_TYPE}
    ensures ValidType(MODEL, t) && t.numObjptrs <= MAX_OBJPTRS_PER_COUNTER
  {
  }

  lemma ModelOk()
    ensures ValidModel(MODEL) && WeakGoneOk(MODEL) && ValidType(MODEL, PAIR)
  {
    hide ValidType;
    forall t | t in MODEL.types ensures ValidType(MODEL, t) && t.numObjptrs <= MAX_OBJPTRS_PER_COUNTER {
      TypeOk(t);
    }
  }

  lemma ExtentIs(p: int, x: int)
    ensures MarkGraph.InExtent(MODEL, GRAPH, p, x) <==> p in {24, 40, 56} && p - 8 <= x < p + 8
  {
  }

  lemma CursorIs(p: int, a: int, j: int)
    requires p in GRAPH
    ensures MarkGraph.IsCursor(GRAPH[p], a, j) <==> a == 0 && j == 0
    ensures a == 0 && j == 0 ==> MarkGraph.SlotAt(p, GRAPH[p].t, a, j) == p
  {
  }

  lemma ObjectsApart()
    ensures MarkGraph.Apart(MODEL, GRAPH)
  {
    hide MarkGraph.InExtent;
    forall p, q, x {:trigger MarkGraph.InExtent(MODEL, GRAPH, p, x), MarkGraph.InExtent(MODEL, GRAPH, q, x)}
      | MarkGraph.InExtent(MODEL, GRAPH, p, x) && MarkGraph.InExtent(MODEL, GRAPH, q, x) ensures p == q
    {
      ExtentIs(p, x);
      ExtentIs(q, x);
    }
  }

  lemma PointersOk()
    ensures TargetsOk(HEAP)
  {
    hide MarkGraph.SlotAt, Lifted, SharedObject;
    forall p, a, j {:trigger MarkGraph.SlotAt(p, GRAPH[p].t, a, j)} | p in GRAPH && MarkGraph.IsCursor(GRAPH[p], a, j)
      ensures Rd(WORDS, MarkGraph.SlotAt(p, GRAPH[p].t, a, j)) in GRAPH
    {
      CursorIs(p, a, j);
    }
  }

  /** No pointer of this heap leads to a lifted object. */
  lemma NoneLifted(p: int, x: int)
    ensures IsPointerCell(HEAP, p, x) ==> !Lifted(HEAP, Rd(WORDS, x))
    ensures !Lifted(HEAP, 24) && !Lifted(HEAP, 40) && !Lifted(HEAP, 56)
  {
    hide MarkGraph.SlotAt;
    if IsPointerCell(HEAP, p, x) {
      var a, j :| MarkGraph.IsCursor(GRAPH[p], a, j) && x == MarkGraph.SlotAt(p, GRAPH[p].t, a, j);
      CursorIs(p, a, j);
    }
  }

  lemma NodesOk()
    ensures MarkGraph.Nodes(MODEL, WORDS, GRAPH) && Cleanliness.NoneMarked(WORDS, GRAPH)
  {
    hide MarkGraph.IsNode, IsMarked;
    forall p {:trigger p in GRAPH} | p in GRAPH ensures MarkGraph.IsNode(MODEL, WORDS, p, GRAPH[p]) && !IsMarked(Rd(WORDS, p - HEADER_SIZE)) {
      NodeOk(p);
    }
  }

  lemma NodeOk(p: int)
    requires p in {24, 40, 56}
    ensures MarkGraph.IsNode(MODEL, WORDS, p, GRAPH[p]) && !IsMarked(Rd(WORDS, p - HEADER_SIZE))
  {
    hide ValidType;
    ModelOk();
    assert Rd(WORDS, p - HEADER_SIZE) == 1;
  }

  lemma RootIsOk()
    ensures RootOk(HEAP, ROOT)
  {
    hide MarkGraph.InExtent;
    forall p {:trigger MarkGraph.InExtent(MODEL, GRAPH, p, ROOT)} ensures !MarkGraph.InExtent(MODEL, GRAPH, p, ROOT) { ExtentIs(p, ROOT); }
  }

  lemma HeapIsReady()
    ensures Ready(HEAP, OBJECTS, 16, 64, 0, 4096)
  {
    hide MarkGraph.Nodes, MarkGraph.Apart, TargetsOk, Cleanliness.NoneMarked, ValidModel, WeakGoneOk, TiledHeap, RootOk, IsPointerCell, Lifted;
    ModelOk();
    NodesOk();
    ObjectsApart();
    PointersOk();
    forall p, x {:trigger IsPointerCell(HEAP, p, x)} ensures IsPointerCell(HEAP, p, x) ==> !Lifted(HEAP, Rd(WORDS, x)) { NoneLifted(p, x); }
    RootIsOk();
    TilesOk();
  }

  lemma EdgesAre(p: int, q: int)
    ensures MarkGraph.Edge(WORDS, GRAPH, HEAP.sc, p, q) <==> (p == 24 && q == 56) || (p in {40, 56} && q == 24)
  {
    hide MarkGraph.SlotAt;
    if p in GRAPH {
      CursorIs(p, 0, 0);
      assert Rd(WORDS, MarkGraph.SlotAt(p, GRAPH[p].t, 0, 0)) == if p == 24 then 56 else 24;
      if MarkGraph.Edge(WORDS, GRAPH, HEAP.sc, p, q) {
        var a, j :| MarkGraph.IsCursor(GRAPH[p], a, j) && Rd(WORDS, MarkGraph.SlotAt(p, GRAPH[p].t, a, j)) == q;
        CursorIs(p, a, j);
      }
    }
  }

  lemma {:induction false} OnlyThePair(path: seq<int>)
    requires MarkGraph.IsPath(WORDS, GRAPH, HEAP.sc, false, 24, path)
    ensures path[|path| - 1] in {24, 56}
    decreases |path|
  {
    hide MarkGraph.Edge, MarkGraph.IsFresh;
    if |path| > 1 {
      var front := path[..|path| - 1];
      assert MarkGraph.IsPath(WORDS, GRAPH, HEAP.sc, false, 24, front);
      OnlyThePair(front);
      assert path[|path| - 1] in GRAPH;
      EdgesAre(path[|path| - 2], path[|path| - 1]);
    }
  }

  /** The cycle survives, the object that nothing points to does not. */
  lemma PairSurvives()
    ensures Survives(HEAP, 24) && Survives(HEAP, 56) && !Survives(HEAP, 40)
    ensures Garbage(HEAP, OBJECTS, 3) == 16
  {
    hide MarkGraph.Edge;
    EdgesAre(24, 56);
    assert MarkGraph.IsPath(WORDS, GRAPH, HEAP.sc, false, 24, [24]);
    assert MarkGraph.IsPath(WORDS, GRAPH, HEAP.sc, false, 24, [24, 56]);
    assert FromRoot(HEAP, 0, 24) && FromRoot(HEAP, 0, 56);
    if k :| FromRoot(HEAP, k, 40) {
      var path :| MarkGraph.IsPath(WORDS, GRAPH, HEAP.sc, false, 24, path) && path[|path| - 1] == 40;
      OnlyThePair(path);
      assert false;
    }
    assert Garbage(HEAP, OBJECTS, 1) == 0 && Garbage(HEAP, OBJECTS, 2) == 16;
  }

  /** So after a collection of this heap the last object is at 40, the root still
      holds 24, and the pair still points to each other. */
  lemma AfterCollection(m: Mem)
    requires Collected(HEAP, OBJECTS, 16, 64, m)
    ensures Rd(m, ROOT) == 24 && Rd(m, 24) == 40 && Rd(m, 40) == 24 && Rd(m, 32) == 1
  {
    hide Survives, MovedIntact, Rehomed;
    PairSurvives();
    Places();
    NoneLifted(24, 24);
    assert OBJECTS[0].data == 24 && OBJECTS[2].data == 56;
    assert ROOT in HEAP.roots;
    Lands(24, 0, Rd(m, ROOT));
    Intact(0, m);
    Intact(2, m);
    Lands(56, 2, Rd(m, 24));
    Lands(24, 0, Rd(m, 40));
  }

  lemma Lands(w: int, i: int, w': int)
    requires 0 <= i < |OBJECTS| && OBJECTS[i].data == w && Survives(HEAP, w) && Rehomed(HEAP, OBJECTS, w, w')
    ensures w' == w - Garbage(HEAP, OBJECTS, i)
  {
    hide Survives, Garbage;
    Places();
  }

  lemma Intact(i: int, m: Mem)
    requires 0 <= i < |OBJECTS| && MovedIntact(HEAP, OBJECTS, OBJECTS[i].data, Garbage(HEAP, OBJECTS, i), m)
    ensures var p, gap := OBJECTS[i].data, Garbage(HEAP, OBJECTS, i);
      Rd(m, p - 8 - gap) == 1 && Rehomed(HEAP, OBJECTS, Rd(WORDS, p), Rd(m, p - gap))
  {
    hide Survives, MarkGraph.SlotAt, Rehomed, Garbage;
    Places();
    CursorIs(OBJECTS[i].data, 0, 0);
  }

  lemma Places()
    ensures Garbage(HEAP, OBJECTS, 0) == 0 && Garbage(HEAP, OBJECTS, 2) == 16
    ensures forall i {:trigger OBJECTS[i]} :: 0 <= i < |OBJECTS| ==> OBJECTS[i].data == 24 + 16 * i
  {
    hide Survives;
    PairSurvives();
    assert Garbage(HEAP, OBJECTS, 1) == 0;
  }

  lemma TilesOk()
    ensures TiledHeap(HEAP, OBJECTS, 16, 64)
  {
    hide Describes, ForwardingCell;
    forall i {:trigger OBJECTS[i]} | 0 <= i < |OBJECTS|
      ensures Describes(MODEL, WORDS, OBJECTS[i]) && forall a {:trigger ForwardingCell(WORDS, OBJECTS[i], a)} :: !ForwardingCell(WORDS, OBJECTS[i], a)
    {
      TileOk(i);
    }
    assert Tiled(OBJECTS, 16, 64);
    assert OBJECTS[0].data == 24 && OBJECTS[1].data == 40 && OBJECTS[2].data == 56;
    forall p {:trigger p in GRAPH} | p in GRAPH ensures exists i {:trigger OBJECTS[i]} :: 0 <= i < |OBJECTS| && OBJECTS[i].data == p {
      assert p == OBJECTS[0].data || p == OBJECTS[1].data || p == OBJECTS[2].data;
    }
  }

  lemma TileOk(i: int)
    requires 0 <= i < |OBJECTS|
    ensures Describes(MODEL, WORDS, OBJECTS[i]) && forall a {:trigger ForwardingCell(WORDS, OBJECTS[i], a)} :: !ForwardingCell(WORDS, OBJECTS[i], a)
  {
    var o := OBJECTS[i];
    assert o.data == o.start + 8 && o.size == 16 && Rd(WORDS, o.start) == 1;
    assert SizeofObject(MODEL, WORDS, o.data) == 16;
  }

  // ------------------------------------------------ copying and lifting the heap

  /** Copying the heap to 2048 and up, or lifting it there. */
  ghost function CopyOf(lifting: bool, copyImmutable: bool): CopyJob.Job {
    CopyJob.Job(MODEL, GRAPH, WORDS, map[], 16, 64, 2048, 4096, {ROOT}, false, lifting, copyImmutable)
  }

  lemma TracedIs(p: int, s: int)
    requires p in GRAPH
    ensures s in CopyJob.Traced(GRAPH[p], p) <==> s == p
  {
    assert SlotRun(p, 1) == [p];
  }

  lemma ExtentInHeap(p: int, x: int)
    ensures MarkGraph.InExtent(MODEL, GRAPH, p, x) ==> 16 <= x < 64
  {
    hide MarkGraph.InExtent;
    ExtentIs(p, x);
  }

  lemma FromSpaceOk(c: CopyJob.Job)
    requires c == CopyOf(c.lifting, c.copyImmutable)
    ensures CopyJob.ValidFrom(c) && CopyScan.Within(c, 16, 64)
  {
    hide MarkGraph.Nodes, MarkGraph.Apart, ValidModel, MarkGraph.InExtent, IsLifted;
    ModelOk();
    NodesOk();
    ObjectsApart();
    NotLifted();
    forall p, x {:trigger MarkGraph.InExtent(MODEL, GRAPH, p, x)} ensures MarkGraph.InExtent(MODEL, GRAPH, p, x) ==> 16 <= x < 64 { ExtentInHeap(p, x); }
  }

  lemma SlotsOk(c: CopyJob.Job)
    requires c == CopyOf(c.lifting, c.copyImmutable)
    ensures CopyJob.ValidSlots(c) && CheneyWeaks.ValidWeaks(c)
  {
    hide MarkGraph.InExtent, CopyJob.Traced;
    forall p {:trigger MarkGraph.InExtent(MODEL, GRAPH, p, ROOT)} ensures !MarkGraph.InExtent(MODEL, GRAPH, p, ROOT) { ExtentIs(p, ROOT); }
    forall p, s {:trigger s in CopyJob.Traced(GRAPH[p], p)} | p in GRAPH ensures s in CopyJob.Traced(GRAPH[p], p) <==> s == p { TracedIs(p, s); }
    assert forall p {:trigger CheneyCopy.LinksWeak(c, p)} :: !CheneyCopy.LinksWeak(c, p);
  }

  lemma SharedOk(c: CopyJob.Job)
    requires c == CopyOf(c.lifting, c.copyImmutable)
    ensures Lift.ValidShared(c, 2048, 4096)
  {
    hide CopyJob.Traced;
    forall x | Lift.IsTraced(c, x) ensures CopyJob.Takes(c, Rd(c.m0, x)) {
      if x != ROOT {
        var p :| p in GRAPH && x in CopyJob.Traced(GRAPH[p], p);
        TracedIs(p, x);
      }
    }
  }

  /** The heap meets what copying and lifting ask for. */
  lemma CopyIsReady(lifting: bool, copyImmutable: bool)
    ensures var c := CopyOf(lifting, copyImmutable);
      && CopyJob.ValidJob(c) && CopyScan.Within(c, 16, 64) && CheneyWeaks.ValidWeaks(c) && Lift.ValidShared(c, 2048, 4096)
  {
    hide CopyJob.ValidFrom, CopyJob.ValidSlots, CopyScan.Within, CheneyWeaks.ValidWeaks, Lift.ValidShared;
    var c := CopyOf(lifting, copyImmutable);
    FromSpaceOk(c);
    SlotsOk(c);
    SharedOk(c);
  }

  lemma NotLifted()
    ensures forall p {:trigger p in GRAPH} :: p in GRAPH ==> !IsLifted(Rd(WORDS, p - HEADER_SIZE))
  {
  }
}
