/** Walks that mark and unmark again (object-cleanliness.c, size.c). */
module Cleanliness {
  import opened Memory
  import opened Objects
  import opened Layout
  import opened MarkGraph
  import opened PointerReversal
  import opened MarkState
  import opened MarkSteps
  import DepthFirst
  import opened DfsMark
  import opened Forwarding

  /** Outside a collection no object is marked. */
  ghost predicate NoneMarked(m: Mem, g: Graph) {
    forall p {:trigger p in g} :: p in g ==> !IsMarked(Rd(m, p - HEADER_SIZE))
  }

  /** A marking that nothing has cut short has reached exactly what there is to
      reach, and its flag says whether all of that is clean. A cut-short one is
      told by its flag, and has met something unclean. */
  lemma MarkingIsExact(c: Task, m: Mem, flag: bool, weaks: int, size: int, order: seq<int>)
    requires MarkingDone(c, m, flag, weaks, size, order) && IsFresh(c.m0, c.root, c.unmark)
    requires !(c.sc.ignoreShared && c.sc.InShared(c.root))
    ensures Going(c, flag) ==>
      forall x {:trigger Reachable(c.m0, c.g, c.sc, c.unmark, c.root, x)} :: x in order <==> Reachable(c.m0, c.g, c.sc, c.unmark, c.root, x)
    ensures forall x {:trigger x in order} :: x in order ==> Reachable(c.m0, c.g, c.sc, c.unmark, c.root, x)
    ensures flag <==> c.flag0 && forall x {:trigger Reachable(c.m0, c.g, c.sc, c.unmark, c.root, x)} ::
        Reachable(c.m0, c.g, c.sc, c.unmark, c.root, x) ==> IsClean(c.e, c.vis, Header0(c, x), x)
  {
    hide IsTraversal, ClosedSet, Toggled, WeaksLinked, TotalSize, Reachable, IsClean, IsFresh;
    if Going(c, flag) { TraversalIsExact(c.m0, c.g, c.sc, c.unmark, c.root, order); }
    forall x {:trigger x in order} | x in order ensures Reachable(c.m0, c.g, c.sc, c.unmark, c.root, x) {
      var i :| 0 <= i < |order| && order[i] == x;
      TraversalIsReachable(c.m0, c.g, c.sc, c.unmark, c.root, order, i);
    }
    if c.vis.Always? {
      forall x ensures IsClean(c.e, c.vis, Header0(c, x), x) { AlwaysClean(c, x); }
    }
  }

  lemma AlwaysClean(c: Task, x: int)
    requires c.vis.Always?
    ensures IsClean(c.e, c.vis, Header0(c, x), x)
  {
  }

  /** A marked heap is still a graph, with the same pointers. */
  lemma StillAGraph(c: Task, m: Mem, order: seq<int>)
    requires ValidTask(c) && Toggled(c, m, order) && (forall q {:trigger q in order} :: q in order ==> q in c.g)
    ensures Nodes(c.e, m, c.g) && Closed(c.e, m, c.g, c.sc)
    ensures forall p, q {:trigger Edge(m, c.g, c.sc, p, q)} :: Edge(c.m0, c.g, c.sc, p, q) ==> Edge(m, c.g, c.sc, p, q)
  {
    hide Toggled, IsNode, InObject, SlotAt, Apart, Elements;
    NodesToggled(c, m, order);
    forall p, a, j {:trigger SlotAt(p, c.g[p].t, a, j)}
      | p in c.g && IsCursor(c.g[p], a, j) && c.sc.Follows(Rd(m, SlotAt(p, c.g[p].t, a, j)))
      ensures Rd(m, SlotAt(p, c.g[p].t, a, j)) in c.g || MovedAway(c.e, m, c.g, Rd(m, SlotAt(p, c.g[p].t, a, j)))
    {
      ToggledSlot(c, m, order, p, a, j);
      var w := Rd(m, SlotAt(p, c.g[p].t, a, j));
      if w !in c.g { StillMovedAway(c, m, order, w); }
    }
    forall p, q {:trigger Edge(m, c.g, c.sc, p, q)} | Edge(c.m0, c.g, c.sc, p, q) ensures Edge(m, c.g, c.sc, p, q) {
      SameEdge(c, m, order, p, q);
    }
  }

  lemma StillMovedAway(c: Task, m: Mem, order: seq<int>, w: int)
    requires Nodes(c.e, c.m0, c.g) && Toggled(c, m, order) && (forall q {:trigger q in order} :: q in order ==> q in c.g)
    ensures MovedAway(c.e, c.m0, c.g, w) ==> MovedAway(c.e, m, c.g, w)
  {
    hide Toggled, Outside, Nodes;
    if MovedAway(c.e, c.m0, c.g, w) { OutsideToggled(c, m, order, w - HEADER_SIZE); }
  }

  lemma SameEdge(c: Task, m: Mem, order: seq<int>, p: int, q: int)
    requires ValidTask(c) && Toggled(c, m, order) && (forall q {:trigger q in order} :: q in order ==> q in c.g)
    requires Edge(c.m0, c.g, c.sc, p, q)
    ensures Edge(m, c.g, c.sc, p, q)
  {
    hide Toggled, IsNode, InObject, SlotAt, Apart, Elements, Closed, Nodes;
    var a, j :| IsCursor(c.g[p], a, j) && Rd(c.m0, SlotAt(p, c.g[p].t, a, j)) == q;
    ToggledSlot(c, m, order, p, a, j);
  }

  /** Unmarking what c has marked. */
  function Undo(c: Task, m: Mem, flag: bool): Task {
    c.(m0 := m, unmark := true, vis := Always, flag0 := flag)
  }

  /** What a pruned marking has marked, unmarking reaches again. */
  lemma {:induction false} UnmarkReaches(c: Task, m: Mem, flag: bool, order: seq<int>, order': seq<int>, i: nat)
    requires ValidTask(c) && IsTraversal(c.m0, c.g, c.sc, false, c.root, order) && Toggled(c, m, order)
    requires ClosedSet(m, c.g, c.sc, true, order') && c.root in order' && i < |order| && !c.unmark
    ensures order[i] in order'
    decreases i
  {
    hide Toggled, Apart, Nodes, Closed, HasParent, ClosedSet, Edge, IsMarked;
    OrderInGraph1(c, order);
    StillAGraph(c, m, order);
    assert order[i] in order;
    if i > 0 {
      assert order[i] in c.g;
      var k := ParentOf(c.m0, c.g, c.sc, order, i);
      UnmarkReaches(c, m, flag, order, order', k);
      ToggledHeader(c, m, order, order[i]);
      FreshAgain(c.m0, m, order[i]);
      assert Edge(m, c.g, c.sc, order[k], order[i]);
      ClosedStep(m, c.g, c.sc, true, order', order[k], order[i]);
    }
  }

  lemma FreshAgain(m0: Mem, m: Mem, p: int)
    requires IsFresh(m0, p, false) && !IsFresh(m, p, false)
    ensures IsFresh(m, p, true)
  {
  }

  lemma ClosedStep(m: Mem, g: Graph, sc: Scope, unmark: bool, order: seq<int>, p: int, q: int)
    requires ClosedSet(m, g, sc, unmark, order) && p in order && Edge(m, g, sc, p, q) && IsFresh(m, q, unmark)
    ensures q in order
  {
  }

  /** What unmarking reaches has been marked. */
  lemma OnlyMarkedReached(c: Task, m1: Mem, flag1: bool, order1: seq<int>, p: int)
    requires ValidTask(c) && NoneMarked(c.m0, c.g) && !c.unmark && Toggled(c, m1, order1) && (forall q {:trigger q in order1} :: q in order1 ==> q in c.g)
    requires Reachable(m1, c.g, c.sc, true, c.root, p)
    ensures p in order1
  {
    hide Apart, Nodes, Closed, Toggled, IsFresh, Edge, NoneMarked;
    var path :| IsPath(m1, c.g, c.sc, true, c.root, path) && path[|path| - 1] == p;
    assert path[|path| - 1] in c.g;
    assert IsFresh(m1, p, true);
    ToggledHeader(c, m1, order1, p);
    OnlyMarkedOnes(c, m1, order1, p);
  }

  /** Marking changes no pointer, so the same objects lead away as before. */
  lemma SameLeads(c: Task, m1: Mem, flag1: bool, order1: seq<int>, p: int, a: int, j: int)
    requires ValidTask(c) && Toggled(c, m1, order1) && (forall q {:trigger q in order1} :: q in order1 ==> q in c.g)
    ensures LeadsAwayAt(Undo(c, m1, flag1), p, a, j) <==> LeadsAwayAt(c, p, a, j)
  {
    hide ValidTask, Toggled, SlotAt;
    if p in c.g && IsCursor(c.g[p], a, j) { ToggledSlot(c, m1, order1, p, a, j); }
  }

  /** Going wrong, the unmarking has met an object that leads away, and has
      changed a word for good. */
  lemma StrayedFromMarked(c: Task, m1: Mem, flag1: bool, order1: seq<int>, m2: Mem)
    requires ValidTask(c) && NoneMarked(c.m0, c.g) && !c.unmark && Toggled(c, m1, order1) && (forall q {:trigger q in order1} :: q in order1 ==> q in c.g)
    requires Strayed(Undo(c, m1, flag1), m2)
    ensures !NoneLeadAway(c, order1)
    ensures exists x {:trigger Rd(m2, x)} :: Rd(m2, x) != Rd(c.m0, x)
  {
    hide ValidTask, Toggled, SlotAt, Reachable, LeadsAwayAt, ToggleMark, NoneMarked, MovedAway;
    var u := Undo(c, m1, flag1);
    var p, a, j := StrayedWhere(u, m2);
    OnlyMarkedReached(c, m1, flag1, order1, p);
    SameLeads(c, m1, flag1, order1, p, a, j);
    LeadsToForwarding(c, m1, order1, p, a, j);
    ForwardingHeader(c.e);
  }

  lemma LeadsToForwarding(c: Task, m1: Mem, order1: seq<int>, p: int, a: int, j: int)
    requires ValidTask(c) && Toggled(c, m1, order1) && (forall q {:trigger q in order1} :: q in order1 ==> q in c.g) && LeadsAwayAt(c, p, a, j)
    ensures Rd(m1, SlotAt(p, c.g[p].t, a, j)) == Rd(c.m0, SlotAt(p, c.g[p].t, a, j))
    ensures Rd(c.m0, Rd(c.m0, SlotAt(p, c.g[p].t, a, j)) - HEADER_SIZE) == FORWARDED
  {
    hide Toggled, SlotAt, Nodes, Apart, Outside;
    ToggledSlot(c, m1, order1, p, a, j);
    WMovedAway(c, p, a, j);
  }

  lemma SameNoneLeadAway(c: Task, m1: Mem, flag1: bool, order1: seq<int>, order2: seq<int>)
    requires ValidTask(c) && Toggled(c, m1, order1) && (forall q {:trigger q in order1} :: q in order1 ==> q in c.g)
    requires NoneLeadAway(Undo(c, m1, flag1), order2) && forall x: int {:trigger x in order1} :: x in order1 ==> x in order2
    ensures NoneLeadAway(c, order1)
  {
    hide ValidTask, Toggled, LeadsAwayAt;
    var u := Undo(c, m1, flag1);
    forall p {:trigger p in order1} | p in order1 ensures !LeadsAway(c, p) {
      assert !LeadsAway(u, p);
      forall a, j ensures LeadsAwayAt(u, p, a, j) <==> LeadsAwayAt(c, p, a, j) { SameLeads(c, m1, flag1, order1, p, a, j); }
    }
  }

  /** Of the objects that marking comes to, however early its visitor makes it
      stop, none has a pointer to a lifted one. */
  ghost predicate WalkStaysHome(c: Task) {
    c.root in c.g && NoneLeadAway(c, DepthFirst.WholeWalk(c).order)
  }

  /** Marking and then unmarking from the same root leaves every word as it was
      if and only if none of the objects to be marked has a pointer to a lifted
      one. */
  lemma MarkThenUnmark(c: Task, m1: Mem, flag1: bool, size1: int, order1: seq<int>, ok: bool, m2: Mem, flag2: bool, size2: int, order2: seq<int>)
    requires ValidTask(c) && NoneMarked(c.m0, c.g) && !c.unmark && !c.linkWeaks && !(c.sc.ignoreShared && c.sc.InShared(c.root))
    requires MarkingDone(c, m1, flag1, c.weaks0, size1, order1)
    requires if ok then MarkingDone(Undo(c, m1, flag1), m2, flag2, c.weaks0, size2, order2) else Strayed(Undo(c, m1, flag1), m2)
    ensures WalkStaysHome(c) <==> forall x {:trigger Rd(m2, x)} :: Rd(m2, x) == Rd(c.m0, x)
    ensures ok <==> WalkStaysHome(c)
    ensures ok ==> flag2 == flag1
  {
    hide Apart, Nodes, Closed, IsTraversal, ClosedSet, WeaksLinked, TotalSize, Toggled, IsMarked, IsClean, NoneLeadAway, Strayed;
    RootIsFresh(c);
    OrderInGraph1(c, order1);
    if ok {
      SameOrders(c, m1, flag1, size1, order1, m2, flag2, size2, order2);
      forall x {:trigger Rd(m2, x)} ensures Rd(m2, x) == Rd(c.m0, x) {
        ToggledTwice(c, m1, order1, flag1, m2, order2, x);
      }
      forall x ensures IsClean(c.e, Always, Header0(Undo(c, m1, flag1), x), x) { AlwaysClean(Undo(c, m1, flag1), x); }
      SameNoneLeadAway(c, m1, flag1, order1, order2);
    } else {
      StrayedFromMarked(c, m1, flag1, order1, m2);
    }
  }

  lemma RootIsFresh(c: Task)
    requires NoneMarked(c.m0, c.g) && c.root in c.g && !c.unmark
    ensures IsFresh(c.m0, c.root, c.unmark)
  {
  }

  lemma ToggledTwice(c: Task, m1: Mem, order1: seq<int>, flag1: bool, m2: Mem, order2: seq<int>, x: int)
    requires Toggled(c, m1, order1) && Toggled(Undo(c, m1, flag1), m2, order2) && !c.linkWeaks
    requires x + HEADER_SIZE in order1 <==> x + HEADER_SIZE in order2
    ensures Rd(m2, x) == Rd(c.m0, x)
  {
    hide ToggleMark;
    ToggleMarkKeepsTheRest(Rd(c.m0, x));
  }

  lemma SameOrders(c: Task, m1: Mem, flag1: bool, size1: int, order1: seq<int>, m2: Mem, flag2: bool, size2: int, order2: seq<int>)
    requires ValidTask(c) && NoneMarked(c.m0, c.g) && !c.unmark && !c.linkWeaks
    requires MarkingDone(c, m1, flag1, c.weaks0, size1, order1)
    requires MarkingDone(Undo(c, m1, flag1), m2, flag2, c.weaks0, size2, order2)
    requires IsFresh(c.m0, c.root, c.unmark) && !(c.sc.ignoreShared && c.sc.InShared(c.root))
    ensures Toggled(Undo(c, m1, flag1), m2, order2)
    ensures forall x: int {:trigger x in order1} {:trigger x in order2} :: x in order1 <==> x in order2
    ensures NoneLeadAway(Undo(c, m1, flag1), order2)
  {
    hide Apart, Nodes, Closed, ClosedSet, WeaksLinked, TotalSize, Toggled, IsMarked, IsClean, HasParent, FlagOk;
    OrderInGraph1(c, order1);
    ToggledHeader(c, m1, order1, c.root);
    FreshAgain(c.m0, m1, c.root);
    OrderInGraph1(Undo(c, m1, flag1), order2);
    forall x: int | x in order1 ensures x in order2 {
      var i :| 0 <= i < |order1| && order1[i] == x;
      UnmarkReaches(c, m1, flag1, order1, order2, i);
    }
    forall x: int | x in order2 ensures x in order1 {
      ToggledHeader(c, m1, order1, x);
      OnlyMarkedOnes(c, m1, order1, x);
    }
  }

  lemma OnlyMarkedOnes(c: Task, m1: Mem, order1: seq<int>, x: int)
    requires NoneMarked(c.m0, c.g) && !c.unmark && x in c.g && IsFresh(m1, x, true)
    requires IsFresh(m1, x, c.unmark) <==> (IsFresh(c.m0, x, c.unmark) == (x !in order1))
    ensures x in order1
  {
    assert !IsMarked(Rd(c.m0, x - HEADER_SIZE));
  }

  // --------------------------------------------------------------- the callers

  ghost function TaskOf(mk: Marker, g: Graph, root: int, vis: Visitor, flag: bool, ignoreShared: bool, sizeEstimation: bool): Task
    reads mk
  {
    Task(mk.e, g, mk.mem, Scope(ignoreShared, mk.sharedLo, mk.sharedHi), root, false, vis, flag, false, sizeEstimation, mk.weaks)
  }

  /** The root is an object of the heap, or one that has been lifted. */
  ghost predicate Walkable(mk: Marker, g: Graph, root: int, ignoreShared: bool)
    reads mk
  {
    && ValidModel(mk.e) && Nodes(mk.e, mk.mem, g) && Apart(mk.e, g) && Closed(mk.e, mk.mem, g, Scope(ignoreShared, mk.sharedLo, mk.sharedHi))
    && NoneMarked(mk.mem, g)
    && if root in g then !(ignoreShared && mk.sharedLo <= root < mk.sharedHi) else LiftedRoot(mk, g, root, ignoreShared)
  }

  ghost predicate LiftedRoot(mk: Marker, g: Graph, root: int, ignoreShared: bool)
    reads mk
  {
    && IsObjptr(root) && root != 0 && MovedAway(mk.e, mk.mem, g, root) && !IsForwarded(mk.mem, Rd(mk.mem, root))
    && if ignoreShared then mk.sharedLo <= Rd(mk.mem, root) < mk.sharedHi else Rd(mk.mem, root) in g
  }

  ghost predicate SameWords(m: Mem, m': Mem) {
    forall x {:trigger Rd(m', x)} :: Rd(m', x) == Rd(m, x)
  }

  /** The objects that order lists, once each, are those that can be reached. */
  ghost predicate Enumerates(c: Task, order: seq<int>) {
    && (forall i, j :: 0 <= i < j < |order| ==> order[i] != order[j])
    && (forall x {:trigger x in order} :: x in order ==> x in c.g)
    && (forall x {:trigger Reachable(c.m0, c.g, c.sc, c.unmark, c.root, x)} :: x in order <==> Reachable(c.m0, c.g, c.sc, c.unmark, c.root, x))
  }

  ghost predicate AllClean(c: Task) {
    forall x {:trigger Reachable(c.m0, c.g, c.sc, c.unmark, c.root, x)} ::
      Reachable(c.m0, c.g, c.sc, c.unmark, c.root, x) ==> IsClean(c.e, c.vis, Header0(c, x), x)
  }

  /** Nothing that can be reached has a pointer to a lifted object. */
  ghost predicate NothingLeadsAway(c: Task) {
    forall x {:trigger Reachable(c.m0, c.g, c.sc, c.unmark, c.root, x)} ::
      Reachable(c.m0, c.g, c.sc, c.unmark, c.root, x) ==> !LeadsAway(c, x)
  }

  /** Marks with the visitor, notes the outcome, and unmarks. */
  method MarkAndUnmark(mk: Marker, p: int, vis: Visitor, ignoreShared: bool, sizeEstimation: bool, ghost g: Graph)
    returns (ok: bool, flag: bool, size: int, ghost order: seq<int>)
    requires Walkable(mk, g, p, ignoreShared)
    modifies mk
    ensures SameWords(old(mk.mem), mk.mem) <==> ok
    ensures ok ==> mk.weaks == old(mk.weaks) && mk.tmpBool == flag
    ensures var c := old(TaskOf(mk, g, p, vis, mk.tmpBool, ignoreShared, sizeEstimation));
      if p in g then
        && (ok <==> WalkStaysHome(c)) && order == DepthFirst.WholeWalk(c).order
        && (flag <==> c.flag0 && AllClean(c))
        && (Going(c, flag) ==> Enumerates(c, order) && size == TotalSize(c, order) && (ok <==> NothingLeadsAway(c)))
      else size == 0 && flag == c.flag0 && (ok <==> ignoreShared)
  {
    hide Nodes, Apart, Closed, ValidModel, MarkingDone, Reachable, IsClean, TotalSize, IsTraversal, NoneMarked, Strayed, MovedAway, Outside, WalkStaysHome, LeadsAway, SameWords;
    ghost var c := TaskOf(mk, g, p, vis, mk.tmpBool, ignoreShared, sizeEstimation);
    RootForMarking(c);
    ok, size, order := mk.DfsMarkByMode(p, vis, false, false, ignoreShared, sizeEstimation, g);
    flag := mk.tmpBool;
    ghost var m1, weaks1 := mk.mem, mk.weaks;
    if p in g { AfterMarking(c, m1, flag, weaks1, size, order); } else { NothingMarked(c, m1, flag, weaks1, size, order); }
    var size2;
    ghost var order2;
    ok, size2, order2 := mk.DfsMarkByMode(p, Always, true, false, ignoreShared, sizeEstimation, g);
    if p in g {
      UnlinkedWeaks(c, m1, flag, ok, mk.mem, mk.tmpBool, mk.weaks, size2, order2);
      MarkThenUnmark(c, m1, flag, size, order, ok, mk.mem, mk.tmpBool, size2, order2);
      SameWordsIs(c.m0, mk.mem);
    } else {
      UnmarkingFromLifted(c, p, m1, flag, ok, mk.mem, mk.tmpBool, mk.weaks, size2, order2);
    }
  }

  lemma SameWordsIs(m: Mem, m': Mem)
    ensures SameWords(m, m') <==> forall x {:trigger Rd(m', x)} :: Rd(m', x) == Rd(m, x)
  {
  }

  /** c starts at an object, or where one has been. */
  ghost predicate Startable(c: Task) {
    && ValidModel(c.e) && Nodes(c.e, c.m0, c.g) && Apart(c.e, c.g) && Closed(c.e, c.m0, c.g, c.sc) && NoneMarked(c.m0, c.g) && !c.unmark && !c.linkWeaks
    && if c.root in c.g then !(c.sc.ignoreShared && c.sc.InShared(c.root))
       else
         && IsObjptr(c.root) && c.root != 0 && MovedAway(c.e, c.m0, c.g, c.root) && !IsForwarded(c.m0, Rd(c.m0, c.root))
         && if c.sc.ignoreShared then c.sc.InShared(Rd(c.m0, c.root)) else Rd(c.m0, c.root) in c.g
  }

  lemma RootForMarking(c: Task)
    requires Startable(c)
    ensures StartOk(c.e, c.m0, c.g, c.sc, c.root, false)
  {
    hide Apart, Closed, NoneMarked, MovedAway, ValidShape;
    if c.root in c.g { assert IsNode(c.e, c.m0, c.root, c.g[c.root]); }
  }

  /** A forwarding header reads as a marked one, so marking stops at once. */
  lemma NothingMarked(c: Task, m: Mem, flag: bool, weaks: int, size: int, order: seq<int>)
    requires Startable(c) && c.root !in c.g && MarkingDone(c, m, flag, weaks, size, order)
    ensures m == c.m0 && flag == c.flag0 && weaks == c.weaks0 && size == 0 && order == []
    ensures StartOk(c.e, m, c.g, c.sc, c.root, true) && Rd(m, c.root - HEADER_SIZE) == FORWARDED
  {
    hide Apart, Closed, NoneMarked, Outside, Nodes;
    ForwardingHeader(c.e);
  }

  /** Unmarking from a lifted root goes to where it was lifted, and does nothing
      only if it is to stay out of the shared heap. */
  lemma UnmarkingFromLifted(c: Task, p: int, m1: Mem, flag1: bool, ok: bool, m2: Mem, flag2: bool, weaks: int, size2: int, order2: seq<int>)
    requires Startable(c) && c.root !in c.g && p == c.root && m1 == c.m0 && flag1 == c.flag0 && Rd(m1, p - HEADER_SIZE) == FORWARDED
    requires var u := Undo(c, m1, flag1).(root := RootOf(m1, p, true));
      if ok then MarkingDone(u, m2, flag2, weaks, size2, order2) && !RootMistaken(u, p)
      else Strayed(u, m2) || (RootMistaken(u, p) && Rd(m2, u.root - HEADER_SIZE) == ToggleMark(Header0(u, u.root)))
    ensures ok <==> c.sc.ignoreShared
    ensures SameWords(c.m0, m2) <==> ok
    ensures ok ==> flag2 == flag1 && weaks == c.weaks0
  {
    hide Apart, Closed, Outside, Nodes, Strayed, IsMarked, ToggleMark;
    var r := Rd(c.m0, c.root);
    if c.sc.ignoreShared {
      if !ok { NothingToUnmark(c, m1, flag1, r, m2); }
    } else {
      assert !IsMarked(Rd(c.m0, r - HEADER_SIZE));
      if ok { assert false; }
      if Strayed(Undo(c, m1, flag1).(root := r), m2) {
        NothingToUnmark(c, m1, flag1, r, m2);
      } else {
        ToggleMarkKeepsTheRest(Rd(c.m0, r - HEADER_SIZE));
        assert Rd(m2, r - HEADER_SIZE) != Rd(c.m0, r - HEADER_SIZE);
      }
    }
  }

  /** Where nothing is marked, unmarking has nowhere to stray from. */
  lemma NothingToUnmark(c: Task, m1: Mem, flag1: bool, r: int, m2: Mem)
    requires NoneMarked(c.m0, c.g) && m1 == c.m0
    ensures !Strayed(Undo(c, m1, flag1).(root := r), m2)
  {
    hide Edge, LeadsAwayAt, ToggleMark, Strayed;
    var u := Undo(c, m1, flag1).(root := r);
    forall path ensures !IsPath(u.m0, u.g, u.sc, true, r, path) {
      if path != [] && path[0] in c.g { assert !IsMarked(Rd(c.m0, path[0] - HEADER_SIZE)) && !IsFresh(u.m0, path[0], true); }
    }
    if Strayed(u, m2) { var p, a, j := StrayedWhere(u, m2); }
  }

  lemma AfterMarking(c: Task, m: Mem, flag: bool, weaks: int, size: int, order: seq<int>)
    requires Startable(c) && c.root in c.g && MarkingDone(c, m, flag, weaks, size, order)
    ensures ValidTask(c) && Nodes(c.e, m, c.g) && Closed(c.e, m, c.g, c.sc) && weaks == c.weaks0
    ensures StartOk(c.e, m, c.g, c.sc, c.root, true) && RootOf(m, c.root, true) == c.root && Rd(m, c.root - HEADER_SIZE) != FORWARDED
    ensures flag <==> c.flag0 && AllClean(c)
    ensures order == DepthFirst.WholeWalk(c).order
    ensures Going(c, flag) ==> Enumerates(c, order) && size == TotalSize(c, order) && (WalkStaysHome(c) <==> NothingLeadsAway(c))
  {
    hide Nodes, Apart, Closed, ValidModel, Reachable, IsClean, TotalSize, HasParent, Toggled, NoneMarked, ClosedSet, LeadsAway, MovedAway;
    RootIsFresh(c);
    OrderInGraph1(c, order);
    StillAGraph(c, m, order);
    MarkingIsExact(c, m, flag, weaks, size, order);
    NodeIsNotForwarded(c.e, m, c.g, c.root);
  }

  lemma NodeIsNotForwarded(e: Model, m: Mem, g: Graph, p: int)
    requires Nodes(e, m, g) && p in g
    ensures Rd(m, p - HEADER_SIZE) != FORWARDED && !IsForwarded(m, p) && IsObjptr(p) && 0 < p
  {
    hide ValidShape;
    assert IsNode(e, m, p, g[p]);
    ForwardingHeader(e);
  }

  lemma UnlinkedWeaks(c: Task, m1: Mem, flag1: bool, ok: bool, m2: Mem, flag2: bool, weaks: int, size2: int, order2: seq<int>)
    requires ok ==> MarkingDone(Undo(c, m1, flag1), m2, flag2, weaks, size2, order2) && !c.linkWeaks
    ensures ok ==> weaks == c.weaks0
  {
  }

  /** GC_isObjectClosureClean, for an object that is not a stack: no object of
      the closure is referred to from elsewhere. */
  method IsObjectClosureClean(mk: Marker, p: int, useIdentity: bool, ghost g: Graph) returns (ok: bool, isClosureVirgin: bool)
    requires Walkable(mk, g, p, true) && p in g
    modifies mk
    ensures var c := old(TaskOf(mk, g, p, WriteClean(p, useIdentity), true, true, false));
      (isClosureVirgin <==> AllClean(c)) && (ok <==> WalkStaysHome(c))
    ensures SameWords(old(mk.mem), mk.mem) <==> ok
  {
    mk.tmpBool := true;
    var size;
    ghost var order;
    ok, isClosureVirgin, size, order := MarkAndUnmark(mk, p, WriteClean(p, useIdentity), true, false, g);
  }

  /** __GC_isThreadClosureClean, which also tells the size of a clean closure. */
  method IsThreadClosureClean(mk: Marker, p: int, useIdentity: bool, sessionStart: int, frontier: int, ghost g: Graph)
    returns (ok: bool, isClosureVirgin: bool, size: int, ghost order: seq<int>)
    requires Walkable(mk, g, p, true) && p in g
    modifies mk
    ensures mk.tmpBool
    ensures var c := old(TaskOf(mk, g, p, SpawnClean(p, useIdentity, sessionStart, frontier), true, true, false));
      && (isClosureVirgin <==> AllClean(c))
      && (isClosureVirgin ==> Enumerates(c, order) && size == TotalSize(c, order))
      && (ok <==> WalkStaysHome(c))
    ensures SameWords(old(mk.mem), mk.mem) <==> ok
  {
    mk.tmpBool := true;
    ok, isClosureVirgin, size, order := MarkAndUnmark(mk, p, SpawnClean(p, useIdentity, sessionStart, frontier), true, false, g);
    mk.tmpBool := true;
  }

  /** GC_sizeInLocalHeap: the bytes of everything reachable in the local heap,
      none if the root has been lifted. */
  method SizeInLocalHeap(mk: Marker, root: int, ghost g: Graph) returns (ok: bool, res: int, ghost order: seq<int>)
    requires Walkable(mk, g, root, true)
    modifies mk
    ensures var c := old(TaskOf(mk, g, root, Always, mk.tmpBool, true, false));
      if root in g then Enumerates(c, order) && res == TotalSize(c, order) && (ok <==> NothingLeadsAway(c)) else res == 0 && ok
    ensures SameWords(old(mk.mem), mk.mem) <==> ok
  {
    var flag;
    ok, flag, res, order := MarkAndUnmark(mk, root, Always, true, false, g);
  }

  /** estimateSizeForLifting: the walk goes through both heaps, the bytes are
      those of the local one. A lifted root counts for nothing, but the object
      it was lifted to is left marked. */
  method EstimateSizeForLifting(mk: Marker, root: int, ghost g: Graph) returns (ok: bool, res: int, ghost order: seq<int>)
    requires Walkable(mk, g, root, false)
    modifies mk
    ensures var c := old(TaskOf(mk, g, root, Always, mk.tmpBool, false, true));
      if root in g then Enumerates(c, order) && res == TotalSize(c, order) && (ok <==> NothingLeadsAway(c)) else res == 0 && !ok
    ensures SameWords(old(mk.mem), mk.mem) <==> ok
  {
    var flag;
    ok, flag, res, order := MarkAndUnmark(mk, root, Always, false, true, g);
  }
}
