/** Marking from all roots of a heap, one after the other
    (foreachGlobalObjptrInScope with dfsMarkWithoutHashConsWithLinkWeaks). */
module MarkRoots {
  import opened Memory
  import opened Objects
  import opened Layout
  import opened MarkGraph
  import opened PointerReversal
  import opened MarkState
  import opened MarkSteps
  import opened DfsMark
  import opened Cleanliness
  import opened Forwarding

  /** A local heap as a collection finds it: its objects, the memory they are
      in, and the cells that hold the roots. */
  datatype Major = Major(e: Model, g: Graph, m0: Mem, sc: Scope, roots: seq<int>)

  /** x is neither part of an object nor a root. */
  ghost predicate Steady(c: Major, x: int) { Outside(c.e, c.g, x) && x !in c.roots }

  /** w points to an object of the shared heap. */
  ghost predicate SharedObject(c: Major, w: int) {
    && IsObjptr(w) && w != 0 && c.sc.InShared(w) && c.sc.InShared(w - HEADER_SIZE)
    && Rd(c.m0, w - HEADER_SIZE) != FORWARDED && Steady(c, w - HEADER_SIZE)
  }

  /** w points to where an object has been that was lifted to the shared heap. */
  ghost predicate Lifted(c: Major, w: int) {
    && IsForwarded(c.m0, w) && !c.sc.InShared(w)
    && Steady(c, w - HEADER_SIZE) && Steady(c, w) && SharedObject(c, Rd(c.m0, w))
  }

  /** A pointer leads to an object of the heap or of the shared heap, or to where
      one has been. */
  ghost predicate TargetOk(c: Major, w: int) {
    IsObjptr(w) ==> w in c.g || SharedObject(c, w) || Lifted(c, w)
  }

  ghost predicate TargetsOk(c: Major) {
    forall p, a, j {:trigger SlotAt(p, c.g[p].t, a, j)} ::
      p in c.g && IsCursor(c.g[p], a, j) ==> TargetOk(c, Rd(c.m0, SlotAt(p, c.g[p].t, a, j)))
  }

  /** A root is not itself part of an object. */
  ghost predicate RootOk(c: Major, s: int) { TargetOk(c, Rd(c.m0, s)) && Outside(c.e, c.g, s) }

  ghost predicate ValidMajor(c: Major) {
    && ValidModel(c.e) && Nodes(c.e, c.m0, c.g) && Apart(c.e, c.g) && TargetsOk(c) && NoneMarked(c.m0, c.g)
    && c.sc.ignoreShared
    && (forall p {:trigger p in c.g} :: p in c.g ==> !c.sc.InShared(p))
    && forall k {:trigger c.roots[k]} :: 0 <= k < |c.roots| ==> RootOk(c, c.roots[k])
  }

  lemma TargetsClosed(c: Major)
    requires TargetsOk(c) && c.sc.ignoreShared
    ensures Closed(c.e, c.m0, c.g, c.sc)
  {
    hide Outside, SlotAt, IsCursor;
  }

  ghost function TaskAt(c: Major, root: int, m: Mem, flag: bool, weaks: int): Task {
    Task(c.e, c.g, m, c.sc, root, false, Always, flag, true, false, weaks)
  }

  /** Marking from one root of the untouched heap. */
  ghost function TaskFrom(c: Major, root: int): Task { TaskAt(c, root, c.m0, true, 0) }

  ghost predicate FromRoot(c: Major, k: int, x: int) {
    && 0 <= k < |c.roots| && IsObjptr(Rd(c.m0, c.roots[k]))
    && Reachable(c.m0, c.g, c.sc, false, Rd(c.m0, c.roots[k]), x)
  }

  /** x can be reached from some root. */
  ghost predicate Survives(c: Major, x: int) {
    exists k {:trigger FromRoot(c, k, x)} :: FromRoot(c, k, x)
  }

  /** Marking has been done from the first n roots. */
  ghost predicate MarkedUpTo(c: Major, m: Mem, weaks: int, order: seq<int>, n: nat) {
    && n <= |c.roots|
    && (forall p {:trigger p in order} :: p in order ==> p in c.g && Survives(c, p))
    && (forall i, j :: 0 <= i < j < |order| ==> order[i] != order[j])
    && Toggled(TaskFrom(c, 0), m, order)
    && WeaksLinked(TaskFrom(c, 0), m, weaks, order)
    && ClosedSet(c.m0, c.g, c.sc, false, order)
    && forall k {:trigger c.roots[k]} :: 0 <= k < n && Rd(c.m0, c.roots[k]) in c.g ==> Rd(c.m0, c.roots[k]) in order
  }

  lemma NothingMarkedYet(c: Major)
    ensures MarkedUpTo(c, c.m0, 0, [], 0)
  {
  }

  lemma TaskIsValid(c: Major, root: int, order: seq<int>)
    requires ValidMajor(c) && root in c.g
    ensures ValidTask(TaskFrom(c, root))
  {
    hide Nodes, Apart, Closed, NoneMarked, TargetsOk;
    TargetsClosed(c);
  }

  lemma AnyRoot(c: Major, root: int, m: Mem, weaks: int, order: seq<int>)
    ensures Toggled(TaskFrom(c, 0), m, order) <==> Toggled(TaskFrom(c, root), m, order)
    ensures WeaksLinked(TaskFrom(c, 0), m, weaks, order) <==> WeaksLinked(TaskFrom(c, root), m, weaks, order)
  {
    SameWeaks(c, root, order);
  }

  lemma {:induction false} SameWeaks(c: Major, root: int, order: seq<int>)
    ensures WeaksOf(TaskFrom(c, 0), order) == WeaksOf(TaskFrom(c, root), order)
    decreases |order|
  {
    if order != [] { SameWeaks(c, root, order[..|order| - 1]); }
  }

  /** What is fresh is what has not been marked, and the pointers are those of
      the untouched heap. */
  lemma MarkedHeap(c: Major, m: Mem, weaks: int, order: seq<int>, n: nat, root: int)
    requires ValidMajor(c) && MarkedUpTo(c, m, weaks, order, n) && root in c.g
    ensures Nodes(c.e, m, c.g) && Closed(c.e, m, c.g, c.sc)
    ensures forall p {:trigger p in c.g} :: p in c.g ==> (IsFresh(m, p, false) <==> p !in order)
    ensures forall p, q {:trigger Edge(m, c.g, c.sc, p, q)} {:trigger Edge(c.m0, c.g, c.sc, p, q)} ::
      Edge(m, c.g, c.sc, p, q) <==> Edge(c.m0, c.g, c.sc, p, q)
  {
    hide Nodes, Apart, Closed, TargetsOk, NoneMarked, Toggled, WeaksLinked, ClosedSet, Edge, IsFresh, Survives;
    var t := TaskFrom(c, root);
    TaskIsValid(c, root, order);
    AnyRoot(c, root, m, weaks, order);
    StillAGraph(t, m, order);
    forall p {:trigger p in c.g} | p in c.g ensures IsFresh(m, p, false) <==> p !in order {
      ToggledHeader(t, m, order, p);
      FreshAtFirst(c, p);
    }
    forall p, q {:trigger Edge(m, c.g, c.sc, p, q)} | Edge(m, c.g, c.sc, p, q) ensures Edge(c.m0, c.g, c.sc, p, q) {
      EdgeBefore(c, m, order, root, p, q);
    }
  }

  lemma FreshAtFirst(c: Major, p: int)
    requires NoneMarked(c.m0, c.g) && p in c.g
    ensures IsFresh(c.m0, p, false)
  {
  }

  lemma EdgeBefore(c: Major, m: Mem, order: seq<int>, root: int, p: int, q: int)
    requires ValidTask(TaskFrom(c, root)) && Toggled(TaskFrom(c, root), m, order) && (forall q {:trigger q in order} :: q in order ==> q in c.g)
    requires Edge(m, c.g, c.sc, p, q)
    ensures Edge(c.m0, c.g, c.sc, p, q)
  {
    hide Toggled, SlotAt, ValidTask;
    var a, j :| IsCursor(c.g[p], a, j) && Rd(m, SlotAt(p, c.g[p].t, a, j)) == q;
    ToggledSlot(TaskFrom(c, root), m, order, p, a, j);
  }

  /** What the next marking reaches could be reached from the start. */
  lemma ReachesBefore(c: Major, m: Mem, weaks: int, order: seq<int>, n: nat, root: int, x: int)
    requires ValidMajor(c) && MarkedUpTo(c, m, weaks, order, n) && root in c.g
    requires Reachable(m, c.g, c.sc, false, root, x)
    ensures Reachable(c.m0, c.g, c.sc, false, root, x)
  {
    hide Nodes, Apart, Closed, TargetsOk, NoneMarked, Toggled, WeaksLinked, ClosedSet, Edge, IsFresh, Survives;
    MarkedHeap(c, m, weaks, order, n, root);
    var path :| IsPath(m, c.g, c.sc, false, root, path) && path[|path| - 1] == x;
    forall i {:trigger path[i]} | 0 <= i < |path| ensures IsFresh(c.m0, path[i], false) { FreshAtFirst(c, path[i]); }
    assert IsPath(c.m0, c.g, c.sc, false, root, path);
  }

  // ------------------------------------------------------------- one root more

  lemma {:induction false} WeaksOfBoth(t: Task, order: seq<int>, more: seq<int>)
    ensures WeaksOf(t, order + more) == WeaksOf(t, more) + WeaksOf(t, order)
    decreases |more|
  {
    hide LinksWeak;
    if more == [] {
      assert order + more == order;
    } else {
      var front, p := more[..|more| - 1], more[|more| - 1];
      WeaksOfBoth(t, order, front);
      assert order + more == (order + front) + [p];
      MarkSteps.WeaksOfSnoc(t, order + front, p);
    }
  }

  /** Marking does not change which weak objects there are to link. */
  lemma {:induction false} SameLinks(c: Major, root: int, m: Mem, flag: bool, weaks: int, order: seq<int>, more: seq<int>)
    requires ValidTask(TaskFrom(c, root)) && Toggled(TaskFrom(c, root), m, order) && (forall q {:trigger q in order} :: q in order ==> q in c.g)
    requires forall p {:trigger p in more} :: p in more ==> p in c.g
    ensures WeaksOf(TaskAt(c, root, m, flag, weaks), more) == WeaksOf(TaskFrom(c, root), more)
    decreases |more|
  {
    hide ValidTask, Toggled;
    if more != [] {
      var front, p := more[..|more| - 1], more[|more| - 1];
      assert p in more;
      assert forall q {:trigger q in front} :: q in front ==> q in more;
      SameLinks(c, root, m, flag, weaks, order, front);
      if c.g[p].t.tag == WeakTag { ToggledWeakCell(TaskFrom(c, root), m, order, p); }
    }
  }

  /** What is known about two markings of which the second follows the first. */
  ghost predicate Follow(c: Major, root: int, m: Mem, flag: bool, weaks: int, order: seq<int>, m': Mem, more: seq<int>) {
    && ValidTask(TaskFrom(c, root))
    && Toggled(TaskFrom(c, root), m, order) && Toggled(TaskAt(c, root, m, flag, weaks), m', more)
    && (forall q {:trigger q in order} :: q in order ==> q in c.g && q !in more)
    && (forall q {:trigger q in more} :: q in more ==> q in c.g)
  }

  lemma ToggledTogether(c: Major, root: int, m: Mem, flag: bool, weaks: int, order: seq<int>, m': Mem, more: seq<int>)
    requires Follow(c, root, m, flag, weaks, order, m', more)
    ensures Toggled(TaskFrom(c, root), m', order + more)
  {
    hide ValidTask, LinksWeak, ToggleMark;
    WeaksOfBoth(TaskFrom(c, root), order, more);
    SameLinks(c, root, m, flag, weaks, order, more);
    forall x {:trigger Rd(m', x)} | !IsLinkCell(TaskFrom(c, root), order + more, x)
      ensures Rd(m', x) == if x + HEADER_SIZE in order + more then ToggleMark(Rd(c.m0, x)) else Rd(c.m0, x)
    {
      assert !IsLinkCell(TaskFrom(c, root), order, x) && !IsLinkCell(TaskAt(c, root, m, flag, weaks), more, x);
      assert Rd(m, x) == if x + HEADER_SIZE in order then ToggleMark(Rd(c.m0, x)) else Rd(c.m0, x);
    }
  }

  lemma OldLinksKept(c: Major, root: int, m: Mem, flag: bool, weaks: int, order: seq<int>, m': Mem, more: seq<int>, q: int)
    requires Follow(c, root, m, flag, weaks, order, m', more) && q in WeaksOf(TaskFrom(c, root), order)
    ensures Rd(m', LinkCell(c.e, q)) == Rd(m, LinkCell(c.e, q))
  {
    hide LinksWeak, Closed, ValidModel, InObject;
    var x := LinkCell(c.e, q);
    WeaksAreReached(TaskFrom(c, root), order, q);
    WeakIsNode(TaskFrom(c, root), q);
    CellsInExtent(c.e, c.m0, c.g, q);
    if x + HEADER_SIZE in more {
      CellsInExtent(c.e, c.m0, c.g, x + HEADER_SIZE);
      assert x + HEADER_SIZE - HEADER_SIZE == x;
    }
    if q in WeaksOf(TaskAt(c, root, m, flag, weaks), more) { WeaksAreReached(TaskAt(c, root, m, flag, weaks), more, q); }
    assert !IsLinkCell(TaskAt(c, root, m, flag, weaks), more, x);
  }

  lemma ChainsJoin(e: Model, m: Mem, weaks: int, linked: seq<int>, m': Mem, weaks': int, more: seq<int>, last: int)
    requires WeakChain(e, m, weaks, linked, last) && WeakChain(e, m', weaks', more, weaks)
    requires forall i {:trigger linked[i]} :: 0 <= i < |linked| ==> Rd(m', LinkCell(e, linked[i])) == Rd(m, LinkCell(e, linked[i]))
    ensures WeakChain(e, m', weaks', more + linked, last)
  {
    hide LinkCell;
    var all := more + linked;
    forall i {:trigger all[i]} | 0 <= i < |all|
      ensures Rd(m', LinkCell(e, all[i])) == if i + 1 < |all| then LinkCell(e, all[i + 1]) else last
    {
      if i < |more| { assert all[i] == more[i]; } else { assert all[i] == linked[i - |more|]; }
    }
  }

  lemma LinkedTogether(c: Major, root: int, m: Mem, flag: bool, weaks: int, order: seq<int>, m': Mem, weaks': int, more: seq<int>)
    requires Follow(c, root, m, flag, weaks, order, m', more)
    requires WeaksLinked(TaskFrom(c, root), m, weaks, order) && WeaksLinked(TaskAt(c, root, m, flag, weaks), m', weaks', more)
    ensures WeaksLinked(TaskFrom(c, root), m', weaks', order + more)
  {
    hide LinksWeak, Toggled, ValidTask, WeakChain;
    var linked := WeaksOf(TaskFrom(c, root), order);
    WeaksOfBoth(TaskFrom(c, root), order, more);
    SameLinks(c, root, m, flag, weaks, order, more);
    forall i {:trigger linked[i]} | 0 <= i < |linked| ensures Rd(m', LinkCell(c.e, linked[i])) == Rd(m, LinkCell(c.e, linked[i])) {
      OldLinksKept(c, root, m, flag, weaks, order, m', more, linked[i]);
    }
    ChainsJoin(c.e, m, weaks, linked, m', weaks', WeaksOf(TaskFrom(c, root), more), 0);
  }

  lemma ClosedTogether(c: Major, m: Mem, weaks: int, order: seq<int>, n: nat, root: int, more: seq<int>)
    requires ValidMajor(c) && MarkedUpTo(c, m, weaks, order, n) && root in c.g
    requires ClosedSet(m, c.g, c.sc, false, more) && forall p {:trigger p in more} :: p in more ==> p in c.g
    ensures ClosedSet(c.m0, c.g, c.sc, false, order + more)
  {
    hide Nodes, Apart, Closed, TargetsOk, NoneMarked, Toggled, WeaksLinked, Edge, IsFresh, Survives;
    MarkedHeap(c, m, weaks, order, n, root);
    forall p, q {:trigger Edge(c.m0, c.g, c.sc, p, q)}
      | p in order + more && Edge(c.m0, c.g, c.sc, p, q) && IsFresh(c.m0, q, false)
      ensures q in order + more
    {
      EdgeEnds(c.m0, c.g, c.sc, p, q);
      assert Edge(m, c.g, c.sc, p, q);
    }
  }

  lemma MarkedFromRoot(c: Major, m: Mem, weaks: int, order: seq<int>, n: nat, flag: bool, m': Mem, flag': bool, weaks': int, size: int, more: seq<int>)
    requires ValidMajor(c) && MarkedUpTo(c, m, weaks, order, n) && n < |c.roots|
    requires var root := Rd(c.m0, c.roots[n]);
      && IsObjptr(root) && root in c.g && IsFresh(m, root, false)
      && MarkingDone(TaskAt(c, root, m, flag, weaks), m', flag', weaks', size, more)
    ensures MarkedUpTo(c, m', weaks', order + more, n + 1)
  {
    hide Nodes, Apart, Closed, TargetsOk, NoneMarked, Toggled, WeaksLinked, ClosedSet, Edge, IsFresh, Reachable, HasParent, FlagOk, TotalSize, RootOk;
    var root := Rd(c.m0, c.roots[n]);
    var t := TaskAt(c, root, m, flag, weaks);
    MarkedHeap(c, m, weaks, order, n, root);
    assert !c.sc.InShared(root);
    OrderInGraph1(t, more);
    TaskIsValid(c, root, order);
    AnyRoot(c, root, m, weaks, order);
    FollowsOn(c, root, m, flag, weaks, order, m', more);
    ToggledTogether(c, root, m, flag, weaks, order, m', more);
    LinkedTogether(c, root, m, flag, weaks, order, m', weaks', more);
    AnyRoot(c, root, m', weaks', order + more);
    ClosedTogether(c, m, weaks, order, n, root, more);
    forall p {:trigger p in more} | p in more ensures Survives(c, p) {
      var i :| 0 <= i < |more| && more[i] == p;
      TraversalIsReachable(m, c.g, c.sc, false, root, more, i);
      ReachesBefore(c, m, weaks, order, n, root, p);
      assert FromRoot(c, n, p);
    }
    var all := order + more;
    assert forall i, j :: 0 <= i < |order| && 0 <= j < |more| ==> order[i] != more[j];
    assert forall i, j :: 0 <= i < j < |all| ==> all[i] != all[j];
  }

  lemma FollowsOn(c: Major, root: int, m: Mem, flag: bool, weaks: int, order: seq<int>, m': Mem, more: seq<int>)
    requires ValidTask(TaskFrom(c, root)) && Toggled(TaskFrom(c, root), m, order) && Toggled(TaskAt(c, root, m, flag, weaks), m', more)
    requires forall p {:trigger p in c.g} :: p in c.g ==> (IsFresh(m, p, false) <==> p !in order)
    requires forall p {:trigger p in order} :: p in order ==> p in c.g
    requires forall p {:trigger p in more} :: p in more ==> p in c.g && IsFresh(m, p, false)
    ensures Follow(c, root, m, flag, weaks, order, m', more)
  {
    hide IsFresh;
  }

  lemma NextRoot(c: Major, m: Mem, weaks: int, order: seq<int>, n: nat, flag: bool, m': Mem, flag': bool, weaks': int, size: int, more: seq<int>)
    requires ValidMajor(c) && MarkedUpTo(c, m, weaks, order, n) && n < |c.roots| && IsObjptr(Rd(c.m0, c.roots[n]))
    requires MarkingDone(TaskAt(c, Rd(c.m0, c.roots[n]), m, flag, weaks), m', flag', weaks', size, more)
    requires Rd(c.m0, c.roots[n]) in c.g || c.sc.InShared(Rd(c.m0, c.roots[n]))
    ensures MarkedUpTo(c, m', weaks', order + more, n + 1)
  {
    hide Nodes, Apart, Closed, TargetsOk, NoneMarked, Toggled, WeaksLinked, ClosedSet, Edge, IsFresh, HasParent, FlagOk, TotalSize, IsTraversal;
    var root := Rd(c.m0, c.roots[n]);
    assert RootOk(c, c.roots[n]);
    if root in c.g {
      MarkedHeap(c, m, weaks, order, n, root);
      if IsFresh(m, root, false) {
        MarkedFromRoot(c, m, weaks, order, n, flag, m', flag', weaks', size, more);
      } else {
        assert order + more == order;
      }
    } else {
      assert order + more == order;
    }
  }

  lemma SkipRoot(c: Major, m: Mem, weaks: int, order: seq<int>, n: nat)
    requires ValidMajor(c) && MarkedUpTo(c, m, weaks, order, n) && n < |c.roots| && !IsObjptr(Rd(c.m0, c.roots[n]))
    ensures MarkedUpTo(c, m, weaks, order, n + 1)
  {
    hide Apart, Closed, TargetsOk, NoneMarked, Toggled, WeaksLinked, ClosedSet, ValidShape;
    var w := Rd(c.m0, c.roots[n]);
    assert w in c.g ==> IsNode(c.e, c.m0, w, c.g[w]);
  }

  /** Marking leaves the roots, and all that is not part of an object, alone. */
  lemma OutsideKept(c: Major, m: Mem, weaks: int, order: seq<int>, n: nat, x: int)
    requires ValidMajor(c) && MarkedUpTo(c, m, weaks, order, n) && Outside(c.e, c.g, x)
    ensures Rd(m, x) == Rd(c.m0, x)
  {
    hide Nodes, Apart, Closed, TargetsOk, NoneMarked, WeaksLinked, ClosedSet, Outside, Survives, Toggled, RootOk;
    OutsideToggled(TaskFrom(c, 0), m, order, x);
  }

  /** When all roots have been marked from, what is marked is what can be
      reached from any of them. */
  lemma MarkedIsReached(c: Major, m: Mem, weaks: int, order: seq<int>, x: int)
    requires ValidMajor(c) && MarkedUpTo(c, m, weaks, order, |c.roots|)
    ensures x in order <==> Survives(c, x)
  {
    hide Nodes, Apart, Closed, TargetsOk, NoneMarked, Toggled, WeaksLinked, ClosedSet, Edge, IsFresh;
    if Survives(c, x) {
      var k :| FromRoot(c, k, x);
      var root := Rd(c.m0, c.roots[k]);
      var path :| IsPath(c.m0, c.g, c.sc, false, root, path) && path[|path| - 1] == x;
      assert path[0] in c.g;
      assert c.roots[k] == c.roots[k];
      PathStaysIn(c.m0, c.g, c.sc, false, root, order, path);
    }
  }

  // ------------------------------------------------------------- lifted roots

  /** The root at s with its forwarding pointer followed. */
  function RootFixed(m: Mem, s: int): (r: Mem)
    ensures forall x {:trigger Rd(r, x)} :: Rd(r, x) == if x == s then Followed(m, Rd(m, s), 1) else Rd(m, x)
  {
    assert Followed(m, Rd(m, Rd(m, s)), 0) == Rd(m, Rd(m, s));
    if IsForwarded(m, Rd(m, s)) then m[s := Rd(m, Rd(m, s))] else m
  }

  /** What a root holds once it has been fixed. */
  lemma RootSettles(c: Major, s: int)
    requires Nodes(c.e, c.m0, c.g) && RootOk(c, s) && IsObjptr(Rd(c.m0, s))
    ensures Settles(c.m0, Rd(c.m0, s), 1)
    ensures var w, w' := Rd(c.m0, s), Followed(c.m0, Rd(c.m0, s), 1);
      if Lifted(c, w) then w' == Rd(c.m0, w) && w !in c.g && SharedObject(c, w') else w' == w && (w in c.g || SharedObject(c, w))
  {
    hide Nodes, Outside;
    var w := Rd(c.m0, s);
    FollowedOnce(c.m0, w);
    if w in c.g { NodeIsNotForwarded(c.e, c.m0, c.g, w); }
  }

  /** c with its n-th root fixed. */
  ghost function FixRoot(c: Major, n: nat): Major
    requires n < |c.roots|
  {
    c.(m0 := RootFixed(c.m0, c.roots[n]))
  }

  /** A root is part of no object: fixing it changes none of them. */
  lemma FixedCells(c: Major, n: nat)
    requires ValidMajor(c) && n < |c.roots|
    ensures forall p, x {:trigger InExtent(c.e, c.g, p, x)} :: InExtent(c.e, c.g, p, x) ==> Rd(FixRoot(c, n).m0, x) == Rd(c.m0, x)
    ensures forall x {:trigger Steady(c, x)} :: Steady(c, x) ==> Rd(FixRoot(c, n).m0, x) == Rd(c.m0, x)
    ensures forall x {:trigger Rd(FixRoot(c, n).m0, x)} :: Rd(c.m0, x) == FORWARDED ==> Rd(FixRoot(c, n).m0, x) == FORWARDED
  {
    hide Nodes, Apart, Closed, TargetsOk, NoneMarked, InExtent;
    assert RootOk(c, c.roots[n]);
    NoPointer(c.m0);
  }

  lemma NoPointer(m: Mem)
    ensures !IsObjptr(FORWARDED) && Followed(m, FORWARDED, 1) == FORWARDED
  {
  }

  lemma FixedGraph(c: Major, n: nat)
    requires ValidMajor(c) && n < |c.roots|
    ensures var m := FixRoot(c, n).m0; Nodes(c.e, m, c.g) && NoneMarked(m, c.g)
    ensures forall p, q {:trigger Edge(FixRoot(c, n).m0, c.g, c.sc, p, q)} {:trigger Edge(c.m0, c.g, c.sc, p, q)} ::
      Edge(FixRoot(c, n).m0, c.g, c.sc, p, q) <==> Edge(c.m0, c.g, c.sc, p, q)
    ensures forall p {:trigger IsFresh(FixRoot(c, n).m0, p, false)} :: p in c.g ==> (IsFresh(FixRoot(c, n).m0, p, false) <==> IsFresh(c.m0, p, false))
  {
    hide InObject, SlotAt, Elements, ValidShape, IsMarked, Outside, Apart, Steady, RootOk, FixRoot, TargetsOk;
    FixedCells(c, n);
    var m := FixRoot(c, n).m0;
    forall p {:trigger p in c.g} | p in c.g ensures IsNode(c.e, m, p, c.g[p]) && Rd(m, p - HEADER_SIZE) == Rd(c.m0, p - HEADER_SIZE) {
      CellsInExtent(c.e, c.m0, c.g, p);
      assert IsNode(c.e, c.m0, p, c.g[p]);
    }
    forall p, a, j {:trigger SlotAt(p, c.g[p].t, a, j)} | p in c.g && IsCursor(c.g[p], a, j)
      ensures Rd(m, SlotAt(p, c.g[p].t, a, j)) == Rd(c.m0, SlotAt(p, c.g[p].t, a, j))
    {
      SlotInExtent(c.e, c.m0, c.g, p, a, j);
    }
  }

  /** Where a pointer leads does not change. */
  lemma SameTargets(c: Major, n: nat, w: int)
    requires ValidMajor(c) && n < |c.roots|
    ensures SharedObject(FixRoot(c, n), w) <==> SharedObject(c, w)
    ensures Lifted(FixRoot(c, n), w) <==> Lifted(c, w)
    ensures TargetOk(FixRoot(c, n), w) <==> TargetOk(c, w)
  {
    hide Nodes, Apart, NoneMarked, Outside, TargetsOk, RootOk;
    var c' := FixRoot(c, n);
    FixedCells(c, n);
    forall x {:trigger Steady(c', x)} ensures Steady(c', x) <==> Steady(c, x) {}
    assert forall x {:trigger Steady(c, x)} :: Steady(c, x) ==> Rd(c'.m0, x) == Rd(c.m0, x);
    assert Steady(c, w - HEADER_SIZE) ==> Rd(c'.m0, w - HEADER_SIZE) == Rd(c.m0, w - HEADER_SIZE);
    var r := Rd(c.m0, w);
    assert Steady(c, w) ==> Rd(c'.m0, w) == r;
    assert Steady(c, r - HEADER_SIZE) ==> Rd(c'.m0, r - HEADER_SIZE) == Rd(c.m0, r - HEADER_SIZE);
  }

  lemma FixedRoots(c: Major, n: nat, k: nat)
    requires ValidMajor(c) && n < |c.roots| && k < |c.roots|
    ensures RootOk(FixRoot(c, n), c.roots[k])
  {
    hide Nodes, Apart, NoneMarked, Outside, TargetsOk, SharedObject, Lifted;
    var c' := FixRoot(c, n);
    assert RootOk(c, c.roots[k]) && RootOk(c, c.roots[n]);
    forall w ensures TargetOk(c', w) <==> TargetOk(c, w) { SameTargets(c, n, w); }
    if c.roots[k] == c.roots[n] {
      if IsObjptr(Rd(c.m0, c.roots[n])) { RootSettles(c, c.roots[n]); } else { FollowedOnce(c.m0, Rd(c.m0, c.roots[n])); }
    }
  }

  lemma FixedTargets(c: Major, n: nat)
    requires ValidMajor(c) && n < |c.roots|
    ensures TargetsOk(FixRoot(c, n))
  {
    hide Nodes, Apart, NoneMarked, RootOk, InExtent, SlotAt, TargetOk, Outside;
    var c' := FixRoot(c, n);
    FixedCells(c, n);
    forall p, a, j {:trigger SlotAt(p, c.g[p].t, a, j)} | p in c.g && IsCursor(c.g[p], a, j)
      ensures TargetOk(c', Rd(c'.m0, SlotAt(p, c.g[p].t, a, j)))
    {
      SlotInExtent(c.e, c.m0, c.g, p, a, j);
      SameTargets(c, n, Rd(c.m0, SlotAt(p, c.g[p].t, a, j)));
    }
  }

  lemma FixedIsValid(c: Major, n: nat)
    requires ValidMajor(c) && n < |c.roots|
    ensures ValidMajor(FixRoot(c, n))
  {
    hide Nodes, Apart, NoneMarked, RootOk, TargetsOk;
    FixedGraph(c, n);
    FixedTargets(c, n);
    forall k {:trigger c.roots[k]} | 0 <= k < |c.roots| ensures RootOk(FixRoot(c, n), c.roots[k]) { FixedRoots(c, n, k); }
  }

  lemma SamePaths(c: Major, n: nat, root: int, path: seq<int>)
    requires ValidMajor(c) && n < |c.roots|
    ensures IsPath(FixRoot(c, n).m0, c.g, c.sc, false, root, path) <==> IsPath(c.m0, c.g, c.sc, false, root, path)
  {
    hide ValidMajor, Edge, IsFresh, FixRoot;
    FixedGraph(c, n);
  }

  /** Fixing a root neither adds to what is reached nor takes away from it. */
  lemma SameSurvivors(c: Major, n: nat, x: int)
    requires ValidMajor(c) && n < |c.roots|
    ensures Survives(FixRoot(c, n), x) <==> Survives(c, x)
  {
    hide Nodes, Apart, Closed, TargetsOk, NoneMarked, Edge, IsFresh, Outside, Lifted, SharedObject;
    var c' := FixRoot(c, n);
    FixedIsValid(c, n);
    forall root, path ensures IsPath(c'.m0, c.g, c.sc, false, root, path) <==> IsPath(c.m0, c.g, c.sc, false, root, path) { SamePaths(c, n, root, path); }
    forall k ensures FromRoot(c', k, x) <==> FromRoot(c, k, x) {
      if 0 <= k < |c.roots| {
        assert RootOk(c, c.roots[n]) && RootOk(c, c.roots[k]);
        if c.roots[k] == c.roots[n] { SameFromRoot(c, n, k, x); }
      }
    }
  }

  lemma SameFromRoot(c: Major, n: nat, k: int, x: int)
    requires ValidMajor(c) && n < |c.roots| && 0 <= k < |c.roots| && c.roots[k] == c.roots[n]
    requires forall root, path {:trigger IsPath(c.m0, c.g, c.sc, false, root, path)} ::
      IsPath(FixRoot(c, n).m0, c.g, c.sc, false, root, path) <==> IsPath(c.m0, c.g, c.sc, false, root, path)
    ensures FromRoot(FixRoot(c, n), k, x) <==> FromRoot(c, k, x)
  {
    hide Nodes, Apart, Closed, TargetsOk, NoneMarked, Edge, IsFresh, Outside;
    var s := c.roots[n];
    var c' := FixRoot(c, n);
    assert RootOk(c, s);
    var w, w' := Rd(c.m0, s), Rd(c'.m0, s);
    FollowedOnce(c.m0, w);
    if IsObjptr(w) {
      RootSettles(c, s);
      if w' != w {
        NotReached(c.m0, c.g, c.sc, w, x);
        NotReached(c'.m0, c.g, c.sc, w', x);
      }
    }
  }

  lemma NotReached(m: Mem, g: Graph, sc: Scope, root: int, x: int)
    requires root !in g
    ensures !Reachable(m, g, sc, false, root, x)
  {
    hide Edge, IsFresh;
    forall path ensures !IsPath(m, g, sc, false, root, path) {
      if path != [] { assert path[0] == path[0]; }
    }
  }

  /** What has been marked so far stays marked when the next root is fixed. */
  lemma MarkedStill(c: Major, m: Mem, weaks: int, order: seq<int>, n: nat, m': Mem)
    requires ValidMajor(c) && MarkedUpTo(c, m, weaks, order, n) && n < |c.roots|
    requires forall x {:trigger Rd(m', x)} :: Rd(m', x) == Rd(if x == c.roots[n] then FixRoot(c, n).m0 else m, x)
    ensures MarkedUpTo(FixRoot(c, n), m', weaks, order, n)
  {
    hide Nodes, Apart, Closed, TargetsOk, NoneMarked, Edge, IsFresh, Survives, Toggled, WeaksLinked, ClosedSet, RootOk;
    var c' := FixRoot(c, n);
    FixedGraph(c, n);
    forall p {:trigger p in order} | p in order ensures Survives(c', p) { SameSurvivors(c, n, p); }
    RootApart(c, m, weaks, order, n);
    ToggledStill(c, m, order, n, m');
    WeaksStill(c, m, weaks, order, n, m');
    ClosedStill(c, order, n);
    forall k {:trigger c.roots[k]} | 0 <= k < n && Rd(c'.m0, c.roots[k]) in c.g ensures Rd(c'.m0, c.roots[k]) in order {
      if c.roots[k] == c.roots[n] { SameRoot(c, n); }
    }
  }

  /** Fixing a root does not make it lead to an object. */
  lemma SameRoot(c: Major, n: nat)
    requires ValidMajor(c) && n < |c.roots|
    ensures var w' := Rd(FixRoot(c, n).m0, c.roots[n]); w' in c.g ==> w' == Rd(c.m0, c.roots[n])
  {
    hide Nodes, Apart, Closed, TargetsOk, NoneMarked, Outside;
    var s := c.roots[n];
    assert RootOk(c, s);
    FollowedOnce(c.m0, Rd(c.m0, s));
    if IsObjptr(Rd(c.m0, s)) { RootSettles(c, s); }
  }

  lemma ClosedStill(c: Major, order: seq<int>, n: nat)
    requires ValidMajor(c) && n < |c.roots| && ClosedSet(c.m0, c.g, c.sc, false, order)
    ensures ClosedSet(FixRoot(c, n).m0, c.g, c.sc, false, order)
  {
    hide ValidMajor, Edge, IsFresh, FixRoot;
    FixedGraph(c, n);
    forall p, q {:trigger Edge(FixRoot(c, n).m0, c.g, c.sc, p, q)}
      | p in order && Edge(FixRoot(c, n).m0, c.g, c.sc, p, q) && IsFresh(FixRoot(c, n).m0, q, false) ensures q in order
    {
      EdgeEnds(FixRoot(c, n).m0, c.g, c.sc, p, q);
      assert Edge(c.m0, c.g, c.sc, p, q);
    }
  }

  lemma {:induction false} SameLinksFixed(c: Major, n: nat, order: seq<int>)
    requires ValidMajor(c) && n < |c.roots|
    ensures WeaksOf(TaskFrom(FixRoot(c, n), 0), order) == WeaksOf(TaskFrom(c, 0), order)
    decreases |order|
  {
    hide Nodes, Apart, Closed, TargetsOk, NoneMarked, RootOk, InExtent;
    if order != [] {
      SameLinksFixed(c, n, order[..|order| - 1]);
      var p := order[|order| - 1];
      if p in c.g && c.g[p].t.tag == WeakTag {
        CellsInExtent(c.e, c.m0, c.g, p);
        FixedCells(c, n);
      }
    }
  }

  /** A root is no cell that marking has changed. */
  lemma RootApart(c: Major, m: Mem, weaks: int, order: seq<int>, n: nat)
    requires ValidMajor(c) && MarkedUpTo(c, m, weaks, order, n) && n < |c.roots|
    ensures c.roots[n] + HEADER_SIZE !in order && !IsLinkCell(TaskFrom(c, 0), order, c.roots[n])
  {
    hide Apart, Closed, TargetsOk, NoneMarked, WeaksLinked, ClosedSet, InExtent, LinksWeak, Survives, Toggled;
    var x := c.roots[n];
    assert RootOk(c, x);
    var t := TaskFrom(c, 0);
    if IsLinkCell(t, order, x) {
      var q := x - OffsetOfWeak(c.e);
      WeaksAreReached(t, order, q);
      WeakIsNode(t, q);
      CellsInExtent(c.e, c.m0, c.g, q);
    }
    if x + HEADER_SIZE in order { CellsInExtent(c.e, c.m0, c.g, x + HEADER_SIZE); }
  }

  lemma ToggledStill(c: Major, m: Mem, order: seq<int>, n: nat, m': Mem)
    requires ValidMajor(c) && n < |c.roots| && Toggled(TaskFrom(c, 0), m, order)
    requires forall x {:trigger Rd(m', x)} :: Rd(m', x) == Rd(if x == c.roots[n] then FixRoot(c, n).m0 else m, x)
    requires c.roots[n] + HEADER_SIZE !in order
    ensures Toggled(TaskFrom(FixRoot(c, n), 0), m', order)
  {
    hide ValidMajor, ToggleMark, WeaksOf;
    SameLinksFixed(c, n, order);
  }

  lemma WeaksStill(c: Major, m: Mem, weaks: int, order: seq<int>, n: nat, m': Mem)
    requires ValidMajor(c) && MarkedUpTo(c, m, weaks, order, n) && n < |c.roots|
    requires forall x {:trigger Rd(m', x)} :: Rd(m', x) == Rd(if x == c.roots[n] then FixRoot(c, n).m0 else m, x)
    ensures WeaksLinked(TaskFrom(FixRoot(c, n), 0), m', weaks, order)
  {
    hide ValidMajor, Toggled, ClosedSet, Survives, LinkCell, LinksWeak, RootFixed, WeaksOf;
    SameLinksFixed(c, n, order);
    var t, s := TaskFrom(c, 0), c.roots[n];
    var linked := WeaksOf(t, order);
    forall i {:trigger linked[i]} | 0 <= i < |linked| ensures LinkCell(c.e, linked[i]) != s {
      assert linked[i] in linked;
      LinkIsNoRoot(c, order, n, linked[i]);
    }
  }

  lemma LinkIsNoRoot(c: Major, order: seq<int>, n: nat, q: int)
    requires ValidMajor(c) && n < |c.roots| && q in WeaksOf(TaskFrom(c, 0), order)
    ensures LinkCell(c.e, q) != c.roots[n]
  {
    hide Apart, Closed, TargetsOk, NoneMarked, InExtent, LinksWeak, OffsetOfWeak;
    assert RootOk(c, c.roots[n]);
    WeaksAreReached(TaskFrom(c, 0), order, q);
    WeakIsNode(TaskFrom(c, 0), q);
    CellsInExtent(c.e, c.m0, c.g, q);
  }

  /** cn is c with its first n roots fixed. */
  ghost predicate FixedUpTo(c: Major, cn: Major, n: nat) {
    && n <= |c.roots| && cn == c.(m0 := cn.m0) && ValidMajor(cn)
    && (forall x {:trigger Rd(cn.m0, x)} :: Rd(cn.m0, x) == if x in c.roots[..n] then Followed(c.m0, Rd(c.m0, x), 1) else Rd(c.m0, x))
    && (forall x {:trigger Survives(cn, x)} :: Survives(cn, x) <==> Survives(c, x))
    && (forall w {:trigger Lifted(cn, w)} :: Lifted(cn, w) <==> Lifted(c, w))
    && (forall w {:trigger SharedObject(cn, w)} :: SharedObject(cn, w) <==> SharedObject(c, w))
    && forall k {:trigger c.roots[k]} :: 0 <= k < n ==> !Lifted(cn, Rd(cn.m0, c.roots[k]))
  }

  lemma NoneFixed(c: Major)
    requires ValidMajor(c)
    ensures FixedUpTo(c, c, 0)
  {
    hide ValidMajor, Survives, Lifted, SharedObject;
    assert c.roots[..0] == [];
  }

  /** Following a root twice leads no further than once. */
  lemma FollowedAgain(c: Major, cn: Major, n: nat)
    requires ValidMajor(c) && FixedUpTo(c, cn, n) && n < |c.roots|
    ensures var s := c.roots[n]; Followed(cn.m0, Rd(cn.m0, s), 1) == Followed(c.m0, Rd(c.m0, s), 1)
  {
    hide Nodes, Apart, Closed, TargetsOk, NoneMarked, Outside, Survives;
    var s := c.roots[n];
    assert RootOk(c, s) && RootOk(cn, cn.roots[n]);
    var w := Rd(c.m0, s);
    FollowedOnce(c.m0, w);
    FollowedOnce(cn.m0, Rd(cn.m0, s));
    assert forall x {:trigger Steady(c, x)} :: Steady(c, x) ==> x !in c.roots[..n];
    if IsObjptr(w) {
      RootSettles(c, s);
      if IsObjptr(Rd(cn.m0, s)) { RootSettles(cn, s); }
    }
  }

  lemma OneMoreFixed(c: Major, cn: Major, n: nat)
    requires ValidMajor(c) && FixedUpTo(c, cn, n) && n < |c.roots|
    ensures FixedUpTo(c, FixRoot(cn, n), n + 1)
  {
    hide ValidMajor, Survives, Followed, Lifted, SharedObject;
    var cn' := FixRoot(cn, n);
    FixedIsValid(cn, n);
    FollowedAgain(c, cn, n);
    forall x ensures Survives(cn', x) <==> Survives(c, x) { SameSurvivors(cn, n, x); }
    forall w ensures (Lifted(cn', w) <==> Lifted(c, w)) && (SharedObject(cn', w) <==> SharedObject(c, w)) { SameTargets(cn, n, w); }
    forall k {:trigger c.roots[k]} | 0 <= k < n + 1 ensures !Lifted(cn', Rd(cn'.m0, c.roots[k])) {
      if c.roots[k] == c.roots[n] { RootIsSettled(cn, n); }
    }
    assert c.roots[..n + 1] == c.roots[..n] + [c.roots[n]];
  }

  lemma RootIsSettled(c: Major, n: nat)
    requires ValidMajor(c) && n < |c.roots|
    ensures !Lifted(FixRoot(c, n), Rd(FixRoot(c, n).m0, c.roots[n]))
  {
    hide Nodes, Apart, NoneMarked, TargetsOk, Outside, Steady;
    var s := c.roots[n];
    assert RootOk(c, s);
    SameTargets(c, n, Rd(FixRoot(c, n).m0, s));
    FollowedOnce(c.m0, Rd(c.m0, s));
    if IsObjptr(Rd(c.m0, s)) {
      RootSettles(c, s);
      var w' := Followed(c.m0, Rd(c.m0, s), 1);
      if w' in c.g { NodeIsNotForwarded(c.e, c.m0, c.g, w'); }
    }
  }

  /** What the walk over the roots reads at the n-th. */
  lemma RootReads(c: Major, m: Mem, weaks: int, order: seq<int>, n: nat)
    requires ValidMajor(c) && MarkedUpTo(c, m, weaks, order, n) && n < |c.roots|
    ensures var s := c.roots[n]; var w := Rd(c.m0, s);
      && Rd(m, s) == w && Rd(FixRoot(c, n).m0, s) == Followed(c.m0, w, 1)
      && (IsObjptr(w) ==> Settles(m, w, 1) && Followed(m, w, 1) == Followed(c.m0, w, 1))
      && (!IsObjptr(w) ==> Followed(c.m0, w, 1) == w)
  {
    hide Apart, Closed, TargetsOk, NoneMarked, MarkedUpTo, Nodes, Outside;
    var s := c.roots[n];
    var w := Rd(c.m0, s);
    assert RootOk(c, s);
    OutsideKept(c, m, weaks, order, n, s);
    FollowedOnce(c.m0, w);
    FollowedOnce(m, w);
    if IsObjptr(w) {
      RootSettles(c, s);
      if w in c.g {
        MarkedHeap(c, m, weaks, order, n, w);
        NodeIsNotForwarded(c.e, m, c.g, w);
      } else {
        OutsideKept(c, m, weaks, order, n, w - HEADER_SIZE);
        if Lifted(c, w) {
          OutsideKept(c, m, weaks, order, n, w);
          OutsideKept(c, m, weaks, order, n, Rd(c.m0, w) - HEADER_SIZE);
        }
      }
    }
  }

  lemma HeapForMarking(c: Major, m: Mem, weaks: int, order: seq<int>, n: nat)
    requires ValidMajor(c) && MarkedUpTo(c, m, weaks, order, n)
    ensures ValidModel(c.e) && Apart(c.e, c.g)
    ensures Nodes(c.e, m, c.g) && Closed(c.e, m, c.g, c.sc)
  {
    hide NoneMarked, MarkedUpTo, InExtent, IsNode, SlotAt, Apart;
    if p :| p in c.g { MarkedHeap(c, m, weaks, order, n, p); }
  }

  /** A root that has been fixed is one that marking can start from. */
  lemma FixedRootStarts(c: Major, m: Mem, weaks: int, order: seq<int>, n: nat)
    requires ValidMajor(c) && n < |c.roots| && MarkedUpTo(FixRoot(c, n), m, weaks, order, n) && IsObjptr(Rd(FixRoot(c, n).m0, c.roots[n]))
    ensures var w := Rd(FixRoot(c, n).m0, c.roots[n]); StartOk(c.e, m, c.g, c.sc, w, false) && (w in c.g || c.sc.InShared(w))
  {
    hide Nodes, Apart, Closed, TargetsOk, NoneMarked, MarkedUpTo, Outside;
    var s := c.roots[n];
    assert RootOk(c, s);
    FollowedOnce(c.m0, Rd(c.m0, s));
    if IsObjptr(Rd(c.m0, s)) {
      RootSettles(c, s);
      if Rd(c.m0, s) in c.g { NodeIsNotForwarded(c.e, c.m0, c.g, Rd(c.m0, s)); }
    }
  }

  /** foreachGlobalObjptrInScope with dfsMarkWithoutHashConsWithLinkWeaks, which
      fixes each root before it marks from it; fixed is the heap with its roots
      fixed and nothing marked. */
  method MarkFromRoots(mk: Marker, roots: seq<int>, ghost c: Major) returns (ghost fixed: Major, ghost order: seq<int>)
    requires ValidMajor(c) && mk.e == c.e && mk.mem == c.m0 && mk.weaks == 0 && roots == c.roots
    requires c.sc == Scope(true, mk.sharedLo, mk.sharedHi)
    modifies mk
    ensures FixedUpTo(c, fixed, |c.roots|)
    ensures MarkedUpTo(fixed, mk.mem, mk.weaks, order, |c.roots|)
    ensures forall x :: x in order <==> Survives(c, x)
  {
    hide ValidMajor, MarkedUpTo, FixedUpTo, Nodes, Apart, Closed, ValidModel, MarkingDone, Survives, Followed, FixRoot, StartOk, RootFixed;
    fixed, order := c, [];
    NothingMarkedYet(c);
    NoneFixed(c);
    var n := 0;
    while n < |roots|
      invariant n <= |roots|
      invariant FixedUpTo(c, fixed, n) && MarkedUpTo(fixed, mk.mem, mk.weaks, order, n)
    {
      FixedIs(c, fixed, n);
      RootReads(fixed, mk.mem, mk.weaks, order, n);
      OneMoreFixed(c, fixed, n);
      ghost var before, m0 := fixed, mk.mem;
      fixed := FixRoot(fixed, n);
      FixedIs(c, fixed, n + 1);
      var w := Rd(mk.mem, roots[n]);
      if IsObjptr(w) {
        w := FixFwdObjptr(mk.mem, w, 1);
        if w != Rd(mk.mem, roots[n]) { mk.mem := mk.mem[roots[n] := w]; }
      }
      MarkedStill(before, m0, mk.weaks, order, n, mk.mem);
      if IsObjptr(w) {
        HeapForMarking(fixed, mk.mem, mk.weaks, order, n);
        FixedRootStarts(before, mk.mem, mk.weaks, order, n);
        ghost var m, flag, weaks := mk.mem, mk.tmpBool, mk.weaks;
        var ok, size;
        ghost var more;
        ok, size, more := mk.DfsMarkByMode(w, Always, false, true, true, false, c.g);
        NextRoot(fixed, m, weaks, order, n, flag, mk.mem, mk.tmpBool, mk.weaks, size, more);
        order := order + more;
      } else {
        SkipRoot(fixed, mk.mem, mk.weaks, order, n);
      }
      n := n + 1;
    }
    FixedIs(c, fixed, n);
    forall x ensures x in order <==> Survives(c, x) {
      MarkedIsReached(fixed, mk.mem, mk.weaks, order, x);
    }
  }

  lemma FixedIs(c: Major, cn: Major, n: nat)
    requires FixedUpTo(c, cn, n)
    ensures cn == c.(m0 := cn.m0) && ValidMajor(cn) && n <= |c.roots|
    ensures forall x {:trigger Survives(cn, x)} :: Survives(cn, x) <==> Survives(c, x)
  {
    hide ValidMajor, Survives, Lifted, SharedObject;
  }
}
