/** A heap in which an object has been lifted to the shared heap while another
    one still points to where it was. It shows two walks going wrong on a heap
    that they accept. */
module LiftedHeap {
  import opened Memory
  import opened Objects
  import opened Layout
  import opened HeapObjects
  import opened CompactionPlan
  import MarkGraph
  import MarkState
  import opened MarkRoots
  import opened MarkWeaks
  import opened MajorPlan
  import opened MajorMarkCompact
  import opened SmallHeap
  import Cleanliness

  /** The object at 24 has been lifted to 5016. Between it and the object at 56,
      which points to it, is garbage. */
  const LIFTED: Mem := map[16 := FORWARDED, 24 := 5016, 32 := 1, 40 := 1, 48 := 1, 56 := 24, ROOT := 56, 5008 := 1, 5016 := 1]

  const LEFT: MarkGraph.Graph := map[40 := MarkGraph.Shape(PAIR, 0), 56 := MarkGraph.Shape(PAIR, 0)]

  ghost const LIFTED_HEAP := Major(MODEL, LEFT, LIFTED, MarkGraph.Scope(true, 5000, 6000), [ROOT])

  lemma LeftExtent(p: int, x: int)
    ensures MarkGraph.InExtent(MODEL, LEFT, p, x) <==> p in {40, 56} && p - 8 <= x < p + 8
  {
  }

  lemma LeftCursor(p: int, a: int, j: int)
    requires p in LEFT
    ensures MarkGraph.IsCursor(LEFT[p], a, j) <==> a == 0 && j == 0
    ensures a == 0 && j == 0 ==> MarkGraph.SlotAt(p, LEFT[p].t, a, j) == p
  {
  }

  lemma Beside(x: int)
    requires x !in {ROOT} && !(32 <= x < 64)
    ensures Steady(LIFTED_HEAP, x)
  {
    hide MarkGraph.InExtent;
    forall p {:trigger MarkGraph.InExtent(MODEL, LEFT, p, x)} ensures !MarkGraph.InExtent(MODEL, LEFT, p, x) { LeftExtent(p, x); }
  }

  lemma TargetsAre()
    ensures Lifted(LIFTED_HEAP, 24) && SharedObject(LIFTED_HEAP, 5016)
    ensures MarkGraph.MovedAway(MODEL, LIFTED, LEFT, 24)
  {
    hide Steady, MarkGraph.Outside;
    Beside(16);
    Beside(24);
    Beside(5008);
    assert MarkGraph.Outside(MODEL, LEFT, 16) by { SteadyIs(16); }
  }

  lemma SteadyIs(x: int)
    requires Steady(LIFTED_HEAP, x)
    ensures MarkGraph.Outside(MODEL, LEFT, x)
  {
  }

  lemma LeftNodes()
    ensures MarkGraph.Nodes(MODEL, LIFTED, LEFT) && Cleanliness.NoneMarked(LIFTED, LEFT)
  {
    hide MarkGraph.IsNode, IsMarked;
    forall p {:trigger p in LEFT} | p in LEFT ensures MarkGraph.IsNode(MODEL, LIFTED, p, LEFT[p]) && !IsMarked(Rd(LIFTED, p - HEADER_SIZE)) {
      LeftNode(p);
    }
  }

  lemma LeftNode(p: int)
    requires p in {40, 56}
    ensures MarkGraph.IsNode(MODEL, LIFTED, p, LEFT[p]) && !IsMarked(Rd(LIFTED, p - HEADER_SIZE))
  {
    hide ValidType;
    ModelOk();
    assert Rd(LIFTED, p - HEADER_SIZE) == 1;
  }

  lemma LeftApart()
    ensures MarkGraph.Apart(MODEL, LEFT)
  {
    hide MarkGraph.InExtent;
    forall p, q, x {:trigger MarkGraph.InExtent(MODEL, LEFT, p, x), MarkGraph.InExtent(MODEL, LEFT, q, x)}
      | MarkGraph.InExtent(MODEL, LEFT, p, x) && MarkGraph.InExtent(MODEL, LEFT, q, x) ensures p == q
    {
      LeftExtent(p, x);
      LeftExtent(q, x);
    }
  }

  lemma LeftTargets()
    ensures TargetsOk(LIFTED_HEAP)
  {
    hide MarkGraph.SlotAt, Lifted, SharedObject;
    TargetsAre();
    forall p, a, j {:trigger MarkGraph.SlotAt(p, LEFT[p].t, a, j)} | p in LEFT && MarkGraph.IsCursor(LEFT[p], a, j)
      ensures TargetOk(LIFTED_HEAP, Rd(LIFTED, MarkGraph.SlotAt(p, LEFT[p].t, a, j)))
    {
      LeftCursor(p, a, j);
    }
  }

  lemma LeftRoot()
    ensures RootOk(LIFTED_HEAP, ROOT)
  {
    hide MarkGraph.InExtent;
    forall p {:trigger MarkGraph.InExtent(MODEL, LEFT, p, ROOT)} ensures !MarkGraph.InExtent(MODEL, LEFT, p, ROOT) { LeftExtent(p, ROOT); }
  }

  lemma LeftTile(i: int)
    requires 0 <= i < |OBJECTS|
    ensures Describes(MODEL, LIFTED, OBJECTS[i])
    ensures forall a {:trigger ForwardingCell(LIFTED, OBJECTS[i], a)} :: ForwardingCell(LIFTED, OBJECTS[i], a) ==> !(16 <= a < 64) && a != ROOT
  {
    var o := OBJECTS[i];
    assert o.data == o.start + 8 && o.size == 16 && Rd(LIFTED, o.start) == if i == 0 then FORWARDED else 1;
    assert SizeofObject(MODEL, LIFTED, o.data) == 16;
  }

  lemma LeftTiles()
    ensures TiledHeap(LIFTED_HEAP, OBJECTS, 16, 64)
  {
    hide Describes, ForwardingCell;
    forall i {:trigger OBJECTS[i]} | 0 <= i < |OBJECTS|
      ensures Describes(MODEL, LIFTED, OBJECTS[i])
      ensures forall a {:trigger ForwardingCell(LIFTED, OBJECTS[i], a)} :: ForwardingCell(LIFTED, OBJECTS[i], a) ==> !(16 <= a < 64) && a != ROOT
    {
      LeftTile(i);
    }
    assert Tiled(OBJECTS, 16, 64);
    assert OBJECTS[0].data == 24 && OBJECTS[1].data == 40 && OBJECTS[2].data == 56;
    forall p {:trigger p in LEFT} | p in LEFT ensures exists i {:trigger OBJECTS[i]} :: 0 <= i < |OBJECTS| && OBJECTS[i].data == p {
      assert p == OBJECTS[1].data || p == OBJECTS[2].data;
    }
  }

  /** Only the pointer at 56 leads to a lifted object. */
  lemma PointerIs(p: int, x: int)
    ensures IsPointerCell(LIFTED_HEAP, p, x) <==> p in {40, 56} && x == p
  {
    hide MarkGraph.SlotAt;
    if p in LEFT {
      LeftCursor(p, 0, 0);
      if IsPointerCell(LIFTED_HEAP, p, x) {
        var a, j :| MarkGraph.IsCursor(LEFT[p], a, j) && x == MarkGraph.SlotAt(p, LEFT[p].t, a, j);
        LeftCursor(p, a, j);
      }
    }
  }

  lemma LiftedHeapIsReady()
    ensures Ready(LIFTED_HEAP, OBJECTS, 16, 64, 0, 4096)
  {
    hide MarkGraph.Nodes, MarkGraph.Apart, TargetsOk, Cleanliness.NoneMarked, ValidModel, WeakGoneOk, TiledHeap, RootOk, IsPointerCell, Lifted;
    ModelOk();
    LeftNodes();
    LeftApart();
    LeftTargets();
    LeftRoot();
    LeftTiles();
    assert OBJECTS[0] in OBJECTS && OBJECTS[0].data == 24;
    forall p, x {:trigger IsPointerCell(LIFTED_HEAP, p, x)} | IsPointerCell(LIFTED_HEAP, p, x) && Lifted(LIFTED_HEAP, Rd(LIFTED, x))
      ensures Rd(LIFTED, x) in DataOf(OBJECTS)
    {
      PointerIs(p, x);
      NotToOne();
    }
  }

  lemma NotToOne()
    ensures !Lifted(LIFTED_HEAP, 1)
  {
  }

  lemma Survivors()
    ensures Survives(LIFTED_HEAP, 56) && !Survives(LIFTED_HEAP, 40) && !Survives(LIFTED_HEAP, 24)
  {
    hide MarkGraph.Edge;
    assert MarkGraph.IsPath(LIFTED, LEFT, LIFTED_HEAP.sc, false, 56, [56]);
    assert FromRoot(LIFTED_HEAP, 0, 56);
    forall x | x in {24, 40} ensures !Survives(LIFTED_HEAP, x) {
      forall path ensures !(MarkGraph.IsPath(LIFTED, LEFT, LIFTED_HEAP.sc, false, 56, path) && path[|path| - 1] == x) {
        if MarkGraph.IsPath(LIFTED, LEFT, LIFTED_HEAP.sc, false, 56, path) { NoEdge(path); }
      }
    }
  }

  lemma NoEdge(path: seq<int>)
    requires MarkGraph.IsPath(LIFTED, LEFT, LIFTED_HEAP.sc, false, 56, path)
    ensures path == [56]
  {
    hide MarkGraph.SlotAt;
    if |path| > 1 {
      assert path[1] in LEFT && MarkGraph.Edge(LIFTED, LEFT, LIFTED_HEAP.sc, path[0], path[1]);
      var a, j :| MarkGraph.IsCursor(LEFT[56], a, j) && Rd(LIFTED, MarkGraph.SlotAt(56, LEFT[56].t, a, j)) == path[1];
      LeftCursor(56, a, j);
      assert false;
    }
  }

  /** The first pass makes a vector of the first 32 bytes, and then threads the
      pointer to it. */
  lemma CollectionGoesWrong()
    ensures LosesLifted(LIFTED_HEAP, OBJECTS)
  {
    hide Survives, Lifted, IsPointerCell;
    Survivors();
    TargetsAre();
    PointerIs(56, 56);
    var s := Surviving(LIFTED_HEAP, OBJECTS);
    assert !s[0].live && !s[1].live && s[2].live && s[0].start == 16 && s[2].start == 48;
    RunStartIs(s, 0, 2);
    assert RunCells(s, 0, 2) == {16, 24, 32};
    assert VectorCells(s, 3) == VectorCells(s, 2) + RunCells(s, 0, 2);
    assert LosesLiftedAt(LIFTED_HEAP, OBJECTS, 2, 56);
  }

  /** Marking from the object and unmarking again. */
  ghost function Walk(): MarkState.Task {
    MarkState.Task(MODEL, LEFT, LIFTED, LIFTED_HEAP.sc, 56, false, MarkState.Always, true, false, false, 0)
  }

  lemma WalkGoesWrong()
    ensures Cleanliness.Startable(Walk()) && MarkGraph.Reachable(LIFTED, LEFT, LIFTED_HEAP.sc, false, 56, 56)
    ensures !Cleanliness.NothingLeadsAway(Walk())
  {
    hide MarkGraph.Nodes, MarkGraph.Apart, MarkGraph.Closed, Cleanliness.NoneMarked, ValidModel, MarkGraph.Edge, MarkGraph.SlotAt, TargetsOk;
    ModelOk();
    LeftNodes();
    LeftApart();
    LeftTargets();
    TargetsClosed(LIFTED_HEAP);
    LeftCursor(56, 0, 0);
    assert MarkGraph.IsPath(LIFTED, LEFT, LIFTED_HEAP.sc, false, 56, [56]);
    assert MarkState.LeadsAwayAt(Walk(), 56, 0, 0);
  }
}
