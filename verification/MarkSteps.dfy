/** What each step of a depth-first marking does to its state. */
module MarkSteps {
  import opened Memory
  import opened Objects
  import opened Layout
  import opened MarkGraph
  import opened PointerReversal
  import opened MarkState

  // ------------------------------------------------------- cells and the marks

  lemma {:induction false} WeaksAreReached(c: Task, order: seq<int>, p: int)
    requires p in WeaksOf(c, order)
    ensures p in order && LinksWeak(c, p)
    decreases |order|
  {
    hide LinksWeak;
    if order != [] {
      var front := order[..|order| - 1];
      if p in WeaksOf(c, front) { WeaksAreReached(c, front, p); }
    }
  }

  /** Of the cells of an object only its header and a weak object's link differ
      from the start. */
  lemma ToggledCell(c: Task, lm: Mem, order: seq<int>, p: int, x: int)
    requires ValidTask(c) && Toggled(c, lm, order) && (forall q {:trigger q in order} :: q in order ==> q in c.g)
    requires InExtent(c.e, c.g, p, x) && !(c.g[p].t.tag == WeakTag && x == LinkCell(c.e, p))
    ensures Rd(lm, x) == if x == p - HEADER_SIZE && p in order then ToggleMark(Rd(c.m0, x)) else Rd(c.m0, x)
  {
    hide InObject, ToggleMark, Closed, ValidModel, IsNode, LinksWeak, OffsetOfWeak;
    if IsLinkCell(c, order, x) {
      var q := x - OffsetOfWeak(c.e);
      WeaksAreReached(c, order, q);
      WeakIsNode(c, q);
      CellsInExtent(c.e, c.m0, c.g, q);
    }
    if x + HEADER_SIZE in order {
      CellsInExtent(c.e, c.m0, c.g, x + HEADER_SIZE);
      assert x + HEADER_SIZE - HEADER_SIZE == x;
      assert InExtent(c.e, c.g, x + HEADER_SIZE, x);
    }
  }

  lemma WeakIsNode(c: Task, p: int)
    requires LinksWeak(c, p)
    ensures p in c.g && c.g[p].t.tag == WeakTag
  {
  }

  lemma ToggledHeader(c: Task, lm: Mem, order: seq<int>, p: int)
    requires ValidTask(c) && Toggled(c, lm, order) && (forall q {:trigger q in order} :: q in order ==> q in c.g) && p in c.g
    ensures Rd(lm, p - HEADER_SIZE) == if p in order then ToggleMark(Header0(c, p)) else Header0(c, p)
    ensures IsFresh(lm, p, c.unmark) <==> (IsFresh(c.m0, p, c.unmark) == (p !in order))
  {
    hide InObject, ToggleMark, Closed, ValidModel, IsNode, LinksWeak, OffsetOfWeak, Toggled, IsMarked;
    CellsInExtent(c.e, c.m0, c.g, p);
    ToggledCell(c, lm, order, p, p - HEADER_SIZE);
    ToggleMarkKeepsTheRest(Header0(c, p));
  }

  lemma ToggledSlot(c: Task, lm: Mem, order: seq<int>, p: int, a: nat, j: nat)
    requires ValidTask(c) && Toggled(c, lm, order) && (forall q {:trigger q in order} :: q in order ==> q in c.g)
    requires p in c.g && IsCursor(c.g[p], a, j)
    ensures Rd(lm, SlotAt(p, c.g[p].t, a, j)) == Rd(c.m0, SlotAt(p, c.g[p].t, a, j))
  {
    hide InObject, ToggleMark, Closed, ValidModel, IsNode, LinksWeak, OffsetOfWeak, Toggled, SlotAt;
    SlotInExtent(c.e, c.m0, c.g, p, a, j);
    ToggledCell(c, lm, order, p, SlotAt(p, c.g[p].t, a, j));
  }

  lemma ToggledWeakCell(c: Task, lm: Mem, order: seq<int>, p: int)
    requires ValidTask(c) && Toggled(c, lm, order) && (forall q {:trigger q in order} :: q in order ==> q in c.g)
    requires p in c.g && c.g[p].t.tag == WeakTag
    ensures Rd(lm, WeakCell(c.e, p)) == Rd(c.m0, WeakCell(c.e, p))
  {
    hide InObject, ToggleMark, Closed, ValidModel, IsNode, LinksWeak, OffsetOfWeak, Toggled;
    CellsInExtent(c.e, c.m0, c.g, p);
    ToggledCell(c, lm, order, p, WeakCell(c.e, p));
  }

  /** What is part of no object is as it was at the start. */
  lemma OutsideToggled(c: Task, lm: Mem, order: seq<int>, x: int)
    requires Nodes(c.e, c.m0, c.g) && Toggled(c, lm, order) && (forall q {:trigger q in order} :: q in order ==> q in c.g) && Outside(c.e, c.g, x)
    ensures Rd(lm, x) == Rd(c.m0, x)
  {
    hide InObject, LinksWeak, ToggleMark;
    if IsLinkCell(c, order, x) {
      var q := x - OffsetOfWeak(c.e);
      WeaksAreReached(c, order, q);
      WeakIsNode(c, q);
      CellsInExtent(c.e, c.m0, c.g, q);
    }
    if x + HEADER_SIZE in order { CellsInExtent(c.e, c.m0, c.g, x + HEADER_SIZE); }
  }

  lemma NodesToggled(c: Task, lm: Mem, order: seq<int>)
    requires ValidTask(c) && Toggled(c, lm, order) && (forall q {:trigger q in order} :: q in order ==> q in c.g)
    ensures Nodes(c.e, lm, c.g)
  {
    hide InObject, ToggleMark, Closed, ValidModel, IsNode, LinksWeak, Toggled, ValidTask, InExtent;
    forall p {:trigger p in c.g} | p in c.g ensures IsNode(c.e, lm, p, c.g[p]) {
      NodeToggled(c, lm, order, p);
    }
  }

  lemma NodeToggled(c: Task, lm: Mem, order: seq<int>, p: int)
    requires ValidTask(c) && Toggled(c, lm, order) && (forall q {:trigger q in order} :: q in order ==> q in c.g) && p in c.g
    ensures IsNode(c.e, lm, p, c.g[p])
  {
    hide InObject, ToggleMark, Closed, ValidModel, LinksWeak, Toggled, Counter, ValidShape, TypeIndex;
    CellsInExtent(c.e, c.m0, c.g, p);
    ToggledHeader(c, lm, order, p);
    ToggleMarkKeepsTheRest(Header0(c, p));
    assert IsNode(c.e, c.m0, p, c.g[p]);
    if c.g[p].t.tag == ArrayTag {
      ToggledCell(c, lm, order, p, p - 16);
      ToggledCell(c, lm, order, p, p - 24);
    }
  }

  lemma OrderInGraph(c: Task, s: State)
    requires OrderOk(c, s)
    ensures forall q {:trigger q in s.order} :: q in s.order ==> q in c.g && IsFresh(c.m0, q, c.unmark)
  {
  }

  // ------------------------------------------------------------------- marking

  /** The next object to mark is on top of the stack but not yet marked. */
  ghost predicate Poised(c: Task, s: State) {
    && ValidTask(c) && MemoryOk(c, s) && OrderOk(c, s)
    && Top(s) !in s.order && Top(s) in s.act && s.act[Top(s)] == Running(0, 0)
    && IsTraversal(c.m0, c.g, c.sc, c.unmark, c.root, s.order + [Top(s)])
    && (forall p {:trigger p in s.act} :: p in s.act ==> p in s.order || p == Top(s))
    && (Going(c, s.flag) ==> Progress(c, s.order, s.act))
  }

  function StartState(m: Mem, root: int, flag: bool, weaks: int): State {
    State(m, m, [root], map[root := Running(0, 0)], [], flag, 0, weaks)
  }

  lemma Start(c: Task)
    requires ValidTask(c) && IsFresh(c.m0, c.root, c.unmark)
    ensures Poised(c, StartState(c.m0, c.root, c.flag0, c.weaks0))
  {
    hide ValidTask, MemoryOk, OrderOk, IsTraversal;
    StartMemory(c);
    StartOrder(c);
    assert [] + [c.root] == [c.root];
  }

  lemma StartMemory(c: Task)
    requires ValidTask(c)
    ensures MemoryOk(c, StartState(c.m0, c.root, c.flag0, c.weaks0))
  {
    hide InObject, ToggleMark, Closed, ValidModel, IsNode, Apart, Counter;
    var none := map[];
    assert Rep(c.e, c.g, c.m0, c.m0, none);
    JoinKeepsRep(c.e, c.g, c.m0, c.m0, none, c.root);
    assert none[c.root := Running(0, 0)] == map[c.root := Running(0, 0)];
  }

  lemma StartOrder(c: Task)
    requires ValidTask(c) && IsFresh(c.m0, c.root, c.unmark)
    ensures OrderOk(c, StartState(c.m0, c.root, c.flag0, c.weaks0))
    ensures IsTraversal(c.m0, c.g, c.sc, c.unmark, c.root, [c.root])
  {
    hide InObject, ToggleMark, Closed, ValidModel, Nodes, Apart, LinksWeak;
  }

  ghost predicate LinksTop(c: Task, p: int) { c.linkWeaks && LinksWeak(c, p) }

  function Marked(m: Mem, e: Model, p: int, links: bool, weaks: int): Mem {
    var m1 := m[p - HEADER_SIZE := ToggleMark(Rd(m, p - HEADER_SIZE))];
    if links then m1[LinkCell(e, p) := weaks] else m1
  }

  /** Visiting the top object, marking it and, if it is weak, linking it. */
  ghost function AfterMark(c: Task, s: State): State
    requires Top(s) in c.g
  {
    var p := Top(s);
    var links := LinksTop(c, p);
    s.(m := Marked(s.m, c.e, p, links, s.weaks), lm := Marked(s.lm, c.e, p, links, s.weaks),
       order := s.order + [p],
       flag := s.flag && IsClean(c.e, c.vis, Header0(c, p), p),
       size := s.size + Counted(c, p),
       weaks := if links then LinkCell(c.e, p) else s.weaks)
  }

  lemma MarkTop(c: Task, s: State)
    requires Poised(c, s)
    ensures Top(s) in c.g && Inv(c, AfterMark(c, s)) && Header0(c, Top(s)) == Rd(s.m, Top(s) - HEADER_SIZE)
    ensures Rd(AfterMark(c, s).m, Top(s) - HEADER_SIZE) == ToggleMark(Header0(c, Top(s)))
  {
    hide Apart, Nodes, Rep, Closed, ValidModel, ToggleMark, IsClean, Toggled, WeaksLinked, IsTraversal, Counted, StackOk, Marked, LinksTop, FlagOk, Progress;
    TopInGraph(c, s);
    var p := Top(s);
    var s' := AfterMark(c, s);
    OrderInGraph(c, s);
    MarkTopMemory(c, s);
    MarkTopToggled(c, s);
    NodesToggled(c, s'.lm, s'.order) by { OrderInGraph1(c, s.order + [p]); }
    MarkTopStack(c, s);
    MarkTopWeaks(c, s);
    MarkTopFlag(c, s);
    MarkTopSize(c, s);
    MarkTopProgress(c, s);
    assert s'.order == s.order + [p];
  }

  lemma OrderInGraph1(c: Task, order: seq<int>)
    requires IsTraversal(c.m0, c.g, c.sc, c.unmark, c.root, order)
    ensures forall q {:trigger q in order} :: q in order ==> q in c.g && IsFresh(c.m0, q, c.unmark)
  {
  }

  lemma TopInGraph(c: Task, s: State)
    requires StackOk(c.g, s.lm, s.fs, s.act)
    ensures s.fs != [] && Top(s) in c.g && Top(s) in s.act && Top(s) in s.fs
  {
  }

  lemma MarkTopMemory(c: Task, s: State)
    requires Poised(c, s) && Top(s) in c.g
    ensures Rep(c.e, c.g, AfterMark(c, s).m, AfterMark(c, s).lm, s.act)
    ensures Header0(c, Top(s)) == Rd(s.m, Top(s) - HEADER_SIZE) == Rd(s.lm, Top(s) - HEADER_SIZE)
    ensures Rd(AfterMark(c, s).m, Top(s) - HEADER_SIZE) == ToggleMark(Header0(c, Top(s)))
  {
    hide Apart, Nodes, Rep, Closed, ValidModel, ToggleMark, IsClean, WeaksLinked, IsTraversal, Counted, StackOk, FlagOk, Progress, Toggled, OffsetOfWeak;
    var p := Top(s);
    TopInGraph(c, s);
    OrderInGraph(c, s);
    ToggledHeader(c, s.lm, s.order, p);
    ToggleKeepsRep(c.e, c.g, s.m, s.lm, s.act, p);
    if LinksTop(c, p) {
      var h := ToggleMark(Rd(s.lm, p - HEADER_SIZE));
      var lm1 := s.lm[p - HEADER_SIZE := h];
      CellsInExtent(c.e, c.m0, c.g, p);
      ToggledOnce(c, s.lm, s.order, p, lm1);
      LinkKeepsRep(c.e, c.g, s.m[p - HEADER_SIZE := h], lm1, s.act, p, s.weaks);
    }
  }

  lemma ToggledOnce(c: Task, lm: Mem, order: seq<int>, p: int, lm1: Mem)
    requires ValidTask(c) && Nodes(c.e, lm, c.g) && p in c.g
    requires lm1 == lm[p - HEADER_SIZE := ToggleMark(Rd(lm, p - HEADER_SIZE))]
    ensures Nodes(c.e, lm1, c.g)
  {
    hide InObject, ToggleMark, Closed, ValidModel, LinksWeak, Toggled, Counter, ValidShape, TypeIndex;
    ToggleMarkKeepsTheRest(Rd(lm, p - HEADER_SIZE));
    forall q {:trigger q in c.g} | q in c.g ensures IsNode(c.e, lm1, q, c.g[q]) {
      assert IsNode(c.e, lm, q, c.g[q]);
      CellsInExtent(c.e, lm, c.g, q);
      CellsInExtent(c.e, lm, c.g, p);
    }
  }

  lemma MarkTopToggled(c: Task, s: State)
    requires Poised(c, s) && Top(s) in c.g
    ensures Toggled(c, AfterMark(c, s).lm, s.order + [Top(s)])
  {
    hide Apart, Nodes, Rep, Closed, ValidModel, ToggleMark, IsClean, WeaksLinked, IsTraversal, Counted, StackOk, FlagOk, Progress, LinksWeak;
    var p := Top(s);
    var lm := AfterMark(c, s).lm;
    var order := s.order + [p];
    OrderInGraph(c, s);
    ToggledHeader(c, s.lm, s.order, p);
    WeaksOfSnoc(c, s.order, p);
    forall x {:trigger Rd(lm, x)} | !IsLinkCell(c, order, x)
      ensures Rd(lm, x) == if x + HEADER_SIZE in order then ToggleMark(Rd(c.m0, x)) else Rd(c.m0, x)
    {
      assert !IsLinkCell(c, s.order, x);
      assert LinksTop(c, p) ==> x != LinkCell(c.e, p);
      assert x != p - HEADER_SIZE ==> Rd(lm, x) == Rd(s.lm, x);
    }
  }

  lemma WeaksOfSnoc(c: Task, order: seq<int>, p: int)
    ensures WeaksOf(c, order + [p]) == (if LinksWeak(c, p) then [p] else []) + WeaksOf(c, order)
  {
    assert (order + [p])[..|order|] == order;
  }

  lemma MarkTopStack(c: Task, s: State)
    requires Poised(c, s) && Top(s) in c.g
    ensures StackOk(c.g, AfterMark(c, s).lm, s.fs, s.act)
  {
    hide Apart, Nodes, Rep, Closed, ValidModel, ToggleMark, IsClean, WeaksLinked, IsTraversal, Counted, FlagOk, Progress, LinksWeak, Toggled, InExtent, LinksTop, SlotAt, IsCursor, Marked;
    var p := Top(s);
    var lm := AfterMark(c, s).lm;
    forall i | 0 <= i < |s.fs| - 1 ensures IsLink(c.g, lm, s.fs, s.act, i) {
      assert IsLink(c.g, s.lm, s.fs, s.act, i);
      var q, f := s.fs[i], s.act[s.fs[i]];
      SlotKept(c, s, q, f.a, f.j);
    }
  }

  /** Marking the top object changes no pointer. */
  lemma SlotKept(c: Task, s: State, q: int, a: nat, j: nat)
    requires Poised(c, s) && Top(s) in c.g && q in c.g && IsCursor(c.g[q], a, j)
    ensures Rd(AfterMark(c, s).lm, SlotAt(q, c.g[q].t, a, j)) == Rd(s.lm, SlotAt(q, c.g[q].t, a, j))
  {
    hide Nodes, Rep, Closed, ValidModel, ToggleMark, IsClean, WeaksLinked, IsTraversal, Counted, FlagOk, Progress, Toggled, InObject, SlotAt, StackOk, OffsetOfWeak;
    var p := Top(s);
    var slot := SlotAt(q, c.g[q].t, a, j);
    SlotInExtent(c.e, c.m0, c.g, q, a, j);
    CellsInExtent(c.e, c.m0, c.g, p);
    assert q == p ==> c.g[p].t.tag != WeakTag;
    assert slot != p - HEADER_SIZE;
    assert LinksTop(c, p) ==> slot != LinkCell(c.e, p);
  }

  lemma MarkTopWeaks(c: Task, s: State)
    requires Poised(c, s) && Top(s) in c.g
    ensures WeaksLinked(c, AfterMark(c, s).lm, AfterMark(c, s).weaks, s.order + [Top(s)])
  {
    hide Apart, Nodes, Rep, Closed, ValidModel, ToggleMark, IsClean, IsTraversal, Counted, FlagOk, Progress, LinksWeak, Toggled, InExtent, StackOk, LinkCell;
    var p := Top(s);
    var lm := AfterMark(c, s).lm;
    var old_ := WeaksOf(c, s.order);
    WeaksOfSnoc(c, s.order, p);
    if c.linkWeaks {
      forall i {:trigger old_[i]} | 0 <= i < |old_| ensures Rd(lm, LinkCell(c.e, old_[i])) == Rd(s.lm, LinkCell(c.e, old_[i])) {
        assert old_[i] in old_;
        WeaksAreReached(c, s.order, old_[i]);
        LinkCellsApart(c, s, old_[i]);
      }
      if LinksWeak(c, p) {
        ChainCons(c.e, s.lm, lm, old_, s.weaks, p, c.weaks0);
      } else {
        assert [] + old_ == old_;
      }
    }
  }

  lemma ChainCons(e: Model, lm: Mem, lm': Mem, linked: seq<int>, weaks: int, p: int, last: int)
    requires WeakChain(e, lm, weaks, linked, last)
    requires forall i {:trigger linked[i]} :: 0 <= i < |linked| ==> Rd(lm', LinkCell(e, linked[i])) == Rd(lm, LinkCell(e, linked[i]))
    requires Rd(lm', LinkCell(e, p)) == weaks
    ensures WeakChain(e, lm', LinkCell(e, p), [p] + linked, last)
  {
    hide LinkCell;
    var linked' := [p] + linked;
    forall i {:trigger linked'[i]} | 0 <= i < |linked'|
      ensures Rd(lm', LinkCell(e, linked'[i])) == if i + 1 < |linked'| then LinkCell(e, linked'[i + 1]) else last
    {
      if i > 0 { assert linked'[i] == linked[i - 1]; }
    }
  }

  lemma LinkCellsApart(c: Task, s: State, q: int)
    requires Poised(c, s) && Top(s) in c.g && q in s.order && LinksWeak(c, q)
    ensures Rd(AfterMark(c, s).lm, LinkCell(c.e, q)) == Rd(s.lm, LinkCell(c.e, q))
  {
    hide Nodes, Rep, Closed, ValidModel, ToggleMark, IsClean, WeaksLinked, IsTraversal, Counted, FlagOk, Progress, Toggled, InObject, SlotAt, StackOk, OffsetOfWeak;
    var p := Top(s);
    CellsInExtent(c.e, c.m0, c.g, q);
    CellsInExtent(c.e, c.m0, c.g, p);
  }

  lemma MarkTopFlag(c: Task, s: State)
    requires Poised(c, s) && Top(s) in c.g
    ensures FlagOk(c, s.order + [Top(s)], AfterMark(c, s).flag)
  {
    hide Apart, Nodes, Rep, Closed, ValidModel, ToggleMark, IsClean, IsTraversal, Counted, Progress, Toggled, StackOk, WeaksLinked, Marked, LinksTop;
    var p := Top(s);
    var order := s.order + [p];
    assert p in order;
    assert forall q {:trigger q in order} :: q in order <==> q in s.order || q == p;
    assert forall q {:trigger q in s.order} :: q in s.order ==> q in order;
  }

  lemma MarkTopSize(c: Task, s: State)
    requires Poised(c, s) && Top(s) in c.g
    ensures forall q {:trigger q in s.order + [Top(s)]} :: q in s.order + [Top(s)] ==> q in c.g
    ensures AfterMark(c, s).size == TotalSize(c, s.order + [Top(s)])
  {
    hide Apart, Nodes, Rep, Closed, ValidModel, ToggleMark, IsClean, Counted, Progress, Toggled, StackOk, WeaksLinked, Marked, LinksTop, FlagOk, IsTraversal;
    OrderInGraph(c, s);
    assert (s.order + [Top(s)])[..|s.order|] == s.order;
  }

  lemma MarkTopProgress(c: Task, s: State)
    requires Poised(c, s) && Top(s) in c.g
    ensures Going(c, AfterMark(c, s).flag) ==> Progress(c, s.order + [Top(s)], s.act)
  {
    hide Apart, Nodes, Rep, Closed, ValidModel, ToggleMark, IsClean, Counted, Toggled, WeaksLinked, Marked, LinksTop, FlagOk, IsTraversal, ScannedUpTo, AllScanned;
    if Going(c, s.flag) { ProgressGrows(c, s.order, s.order + [Top(s)], s.act); }
  }

  /** More objects reached, none of them idle: what was scanned stays so. */
  lemma ProgressGrows(c: Task, order: seq<int>, order': seq<int>, act: map<int, Activity>)
    requires Progress(c, order, act)
    requires forall p {:trigger p in order} :: p in order ==> p in order'
    requires forall p {:trigger p in order'} :: p in order' ==> p in order || p in act
    ensures Progress(c, order', act)
  {
    hide Taken;
    forall w {:trigger Taken(c, order', w)} | Taken(c, order, w) ensures Taken(c, order', w) {
      TakenGrows(c, order, order', w);
    }
  }

  lemma TakenGrows(c: Task, order: seq<int>, order': seq<int>, w: int)
    requires Taken(c, order, w) && forall p {:trigger p in order} :: p in order ==> p in order'
    ensures Taken(c, order', w)
  {
  }

  // ------------------------------------------------------------------ scanning

  /** What the marker reads at the cursor. */
  lemma CursorReads(c: Task, s: State, a: nat, j: nat)
    requires Scanning(c, s, a, j)
    ensures var w := Rd(c.m0, SlotAt(Top(s), c.g[Top(s)].t, a, j));
      && Rd(s.m, SlotAt(Top(s), c.g[Top(s)].t, a, j)) == w
      && (w in c.g ==> (IsFresh(s.m, w, c.unmark) <==> IsFresh(c.m0, w, c.unmark) && w !in s.order))
      && (c.sc.Follows(w) && w !in c.g ==> MovedAway(c.e, c.m0, c.g, w) && Rd(s.m, w - HEADER_SIZE) == FORWARDED)
  {
    hide Apart, Nodes, Rep, Toggled, WeaksLinked, Counted, FlagOk, Progress, SlotAt, IsMarked, ScannedUpTo, ValidModel, IsTraversal, Closed, StackOk, SetCounter, Counter, TypeOf, IsCursor, TotalSize;
    var p := Top(s);
    TopInGraph(c, s);
    TopCounterBound(c, s);
    OrderInGraph(c, s);
    ToggledSlot(c, s.lm, s.order, p, a, j);
    RunningSlotReads(c.e, c.g, s.m, s.lm, s.act, p, a, j);
    var w := Rd(c.m0, SlotAt(p, c.g[p].t, a, j));
    if w in c.g {
      ToggledHeader(c, s.lm, s.order, w);
      if w in s.act { CounterBound(c, s, w); }
      RepReads(c.e, c.g, s.m, s.lm, s.act, w);
    } else if c.sc.Follows(w) {
      WMovedAway(c, p, a, j);
      OutsideReads(c, s, w - HEADER_SIZE);
    }
  }

  lemma WMovedAway(c: Task, p: int, a: nat, j: nat)
    requires ValidTask(c) && p in c.g && IsCursor(c.g[p], a, j)
    requires c.sc.Follows(Rd(c.m0, SlotAt(p, c.g[p].t, a, j))) && Rd(c.m0, SlotAt(p, c.g[p].t, a, j)) !in c.g
    ensures MovedAway(c.e, c.m0, c.g, Rd(c.m0, SlotAt(p, c.g[p].t, a, j)))
  {
    hide SlotAt, Nodes, Apart, MovedAway;
  }

  lemma OutsideReads(c: Task, s: State, x: int)
    requires Inv(c, s) && Outside(c.e, c.g, x)
    ensures Rd(s.m, x) == Rd(c.m0, x)
  {
    hide Apart, Toggled, WeaksLinked, Counted, FlagOk, Progress, ValidModel, IsTraversal, Closed, StackOk, TotalSize, InExtent, Nodes;
    OrderInGraph(c, s);
    OutsideToggled(c, s.lm, s.order, x);
    assert !Owned(c.e, c.g, x);
  }

  lemma CounterBound(c: Task, s: State, p: int)
    requires StackOk(c.g, s.lm, s.fs, s.act) && p in s.act
    ensures p in c.g && s.act[p].j < MAX_OBJPTRS_PER_COUNTER
  {
    var i :| 0 <= i < |s.fs| && s.fs[i] == p;
  }

  /** The type, the counters and the length of the running object. */
  lemma TopReads(c: Task, s: State)
    requires Inv(c, s)
    ensures var p := Top(s);
      && p in c.g && p in s.act && 0 < p && p in s.order
      && TypeOf(c.e, Rd(s.m, p - HEADER_SIZE)) == c.g[p].t
      && Counter(Rd(s.m, p - HEADER_SIZE)) == s.act[p].j
      && (c.g[p].t.tag == ArrayTag ==> Rd(s.m, p - 24) == s.act[p].a)
      && (s.act[p].Running? && c.g[p].t.tag == ArrayTag ==> Length(Rd(s.m, p - 16)) == c.g[p].len)
      && ValidShape(c.e, c.g[p])
      && (c.g[p].t.tag == WeakTag ==> Rd(s.m, WeakCell(c.e, p)) == Rd(c.m0, WeakCell(c.e, p)))
      && SetCounter(Rd(s.m, p - HEADER_SIZE), 0) == if p in s.order then ToggleMark(Header0(c, p)) else Header0(c, p)
  {
    hide Apart, Rep, Toggled, WeaksLinked, Counted, FlagOk, Progress, SlotAt, IsMarked, ValidModel, IsTraversal, Closed, Counter, SetCounter, OffsetOfWeak, TypeIndex, ToggleMark;
    var p := Top(s);
    TopInGraph(c, s);
    OrderInGraph(c, s);
    CounterBound(c, s, p);
    RepReads(c.e, c.g, s.m, s.lm, s.act, p);
    ToggledHeader(c, s.lm, s.order, p);
    assert IsNode(c.e, c.m0, p, c.g[p]);
    if c.g[p].t.tag == WeakTag {
      ToggledWeakCell(c, s.lm, s.order, p);
      CellsInExtent(c.e, c.m0, c.g, p);
      WeakCellReads(c, s, p);
    }
  }

  lemma WeakCellReads(c: Task, s: State, p: int)
    requires Rep(c.e, c.g, s.m, s.lm, s.act) && p in c.g && c.g[p].t.tag == WeakTag && InExtent(c.e, c.g, p, WeakCell(c.e, p)) && p <= LinkCell(c.e, p)
    requires p in s.act ==> s.act[p].Running?
    ensures Rd(s.m, WeakCell(c.e, p)) == Rd(s.lm, WeakCell(c.e, p))
  {
    hide InObject, OffsetOfWeak;
  }

  /** Following the pointer at the cursor. */
  function AfterDescend(c: Task, s: State, a: nat, j: nat, next: int): State
    requires Top(s) in c.g && IsCursor(c.g[Top(s)], a, j) && |s.fs| > 0
  {
    var p := Top(s);
    var prev := Below(s.fs, |s.fs| - 1);
    s.(m := Suspend(s.m, c.g[p], p, a, j, Rd(s.m, p - HEADER_SIZE), prev),
       act := s.act[p := Suspended(a, j, prev)][next := Running(0, 0)],
       fs := s.fs + [next])
  }

  lemma Descend(c: Task, s: State, a: nat, j: nat)
    requires Scanning(c, s, a, j)
    requires var w := Rd(c.m0, SlotAt(Top(s), c.g[Top(s)].t, a, j)); c.sc.Follows(w) && w in c.g && IsFresh(c.m0, w, c.unmark) && w !in s.order
    ensures |s.fs| > 0 && Poised(c, AfterDescend(c, s, a, j, Rd(c.m0, SlotAt(Top(s), c.g[Top(s)].t, a, j))))
  {
    hide Apart, Nodes, Rep, Toggled, WeaksLinked, Counted, FlagOk, Progress, SlotAt, IsMarked, ScannedUpTo, ValidModel, IsTraversal, Closed, IsFresh, StackOk, Suspend, IsCursor, TotalSize, Edge, Below, SetCounter, Counter, Rd;
    TopInGraph(c, s);
    OrderInGraph(c, s);
    var p := Top(s);
    var w := Rd(c.m0, SlotAt(p, c.g[p].t, a, j));
    var s' := AfterDescend(c, s, a, j, w);
    WInGraph(c, p, a, j);
    TopCounterBound(c, s);
    SuspendKeepsRep(c.e, c.g, s.m, s.lm, s.act, p, a, j, Below(s.fs, |s.fs| - 1));
    JoinKeepsRep(c.e, c.g, s'.m, s.lm, s.act[p := Suspended(a, j, Below(s.fs, |s.fs| - 1))], w);
    DescendStack(c, s, a, j);
    ExtendTraversal(c.m0, c.g, c.sc, c.unmark, c.root, s.order, p, w);
    if Going(c, s.flag) { DescendProgress(c, s, a, j, w); }
  }

  lemma TopCounterBound(c: Task, s: State)
    requires StackOk(c.g, s.lm, s.fs, s.act)
    ensures Top(s) in s.act && s.act[Top(s)].Running? && s.act[Top(s)].j < MAX_OBJPTRS_PER_COUNTER
  {
    assert s.fs[|s.fs| - 1] in s.act;
  }

  lemma WInGraph(c: Task, p: int, a: nat, j: nat)
    requires ValidTask(c) && p in c.g && IsCursor(c.g[p], a, j)
    requires c.sc.Follows(Rd(c.m0, SlotAt(p, c.g[p].t, a, j))) && Rd(c.m0, SlotAt(p, c.g[p].t, a, j)) in c.g
    ensures Edge(c.m0, c.g, c.sc, p, Rd(c.m0, SlotAt(p, c.g[p].t, a, j)))
  {
    hide SlotAt, Nodes, Apart;
  }

  lemma DescendStack(c: Task, s: State, a: nat, j: nat)
    requires Scanning(c, s, a, j) && |s.fs| > 0
    requires var w := Rd(c.m0, SlotAt(Top(s), c.g[Top(s)].t, a, j)); w in c.g && w !in s.order
    ensures var w := Rd(c.m0, SlotAt(Top(s), c.g[Top(s)].t, a, j));
      StackOk(c.g, s.lm, s.fs + [w], s.act[Top(s) := Suspended(a, j, Below(s.fs, |s.fs| - 1))][w := Running(0, 0)])
  {
    hide Apart, Nodes, Rep, Toggled, WeaksLinked, Counted, FlagOk, Progress, SlotAt, ScannedUpTo, ValidModel, Closed, IsTraversal, ValidShape;
    OrderInGraph(c, s);
    var p := Top(s);
    ToggledSlot(c, s.lm, s.order, p, a, j);
    var w := Rd(c.m0, SlotAt(p, c.g[p].t, a, j));
    assert c.g[p].t.numObjptrs <= MAX_OBJPTRS_PER_COUNTER by { assert IsNode(c.e, c.m0, p, c.g[p]) by { NodeAt(c, p); } ShapeBound(c.e, c.g[p]); }
    PushKeepsStack(c.g, s.lm, s.fs, s.act, a, j, w);
  }

  lemma NodeAt(c: Task, p: int)
    requires ValidTask(c) && p in c.g
    ensures IsNode(c.e, c.m0, p, c.g[p])
  {
  }

  lemma ShapeBound(e: Model, s: Shape)
    requires ValidShape(e, s)
    ensures s.t.numObjptrs <= MAX_OBJPTRS_PER_COUNTER
  {
  }

  lemma PushKeepsStack(g: Graph, lm: Mem, fs: seq<int>, act: map<int, Activity>, a: nat, j: nat, w: int)
    requires StackOk(g, lm, fs, act) && w in g && w !in act && j < MAX_OBJPTRS_PER_COUNTER
    requires var p := fs[|fs| - 1]; p in g && IsCursor(g[p], a, j) && Rd(lm, SlotAt(p, g[p].t, a, j)) == w
    ensures StackOk(g, lm, fs + [w], act[fs[|fs| - 1] := Suspended(a, j, Below(fs, |fs| - 1))][w := Running(0, 0)])
  {
    hide SlotAt, IsCursor;
    var p := fs[|fs| - 1];
    var fs' := fs + [w];
    var act' := act[p := Suspended(a, j, Below(fs, |fs| - 1))][w := Running(0, 0)];
    forall i | 0 <= i < |fs| ensures fs[i] != w { assert fs[i] in act; }
    forall i {:trigger fs'[i]} | 0 <= i < |fs'| ensures fs'[i] in g && fs'[i] in act' && act'[fs'[i]].j < MAX_OBJPTRS_PER_COUNTER {
      if i < |fs| { assert fs'[i] == fs[i] && fs[i] in act; }
    }
    forall i | 0 <= i < |fs'| - 1 ensures IsLink(g, lm, fs', act', i) {
      assert fs'[i] == fs[i];
      if i < |fs| - 1 {
        assert IsLink(g, lm, fs, act, i);
        assert fs[i] != p && fs[i] != w && fs'[i + 1] == fs[i + 1];
      }
    }
  }

  lemma DescendProgress(c: Task, s: State, a: nat, j: nat, w: int)
    requires Scanning(c, s, a, j) && |s.fs| > 0 && Going(c, s.flag) && w !in s.order
    ensures Progress(c, s.order, s.act[Top(s) := Suspended(a, j, Below(s.fs, |s.fs| - 1))][w := Running(0, 0)])
  {
    hide Apart, Nodes, Rep, Toggled, WeaksLinked, Counted, FlagOk, SlotAt, ScannedUpTo, ValidModel, IsTraversal, Closed, StackOk, AllScanned;
  }

  /** The cursor after (a, j). */
  predicate NextCursor(s: Shape, a: int, j: int, a': int, j': int) {
    if j + 1 < s.t.numObjptrs then a' == a && j' == j + 1 else a' == a + 1 && j' == 0
  }

  /** What the cursor has passed has been dealt with. */
  lemma Advance(c: Task, s: State, a: nat, j: nat, a': nat, j': nat)
    requires Scanning(c, s, a, j) && NextCursor(c.g[Top(s)], a, j, a', j')
    requires Going(c, s.flag) ==> Taken(c, s.order, Rd(c.m0, SlotAt(Top(s), c.g[Top(s)].t, a, j)))
    ensures a' < Elements(c.g[Top(s)]) ==> Scanning(c, s, a', j')
    ensures a' == Elements(c.g[Top(s)]) && Going(c, s.flag) ==> AllScanned(c, s.order, Top(s))
    ensures a' <= Elements(c.g[Top(s)])
  {
    hide Inv, Taken, Elements;
    if Going(c, s.flag) { ScannedNext(c, s.order, Top(s), a, j, a', j'); }
  }

  lemma ScannedNext(c: Task, order: seq<int>, p: int, a: nat, j: nat, a': nat, j': nat)
    requires p in c.g && IsCursor(c.g[p], a, j) && NextCursor(c.g[p], a, j, a', j')
    requires ScannedUpTo(c, order, p, a, j) && Taken(c, order, Rd(c.m0, SlotAt(p, c.g[p].t, a, j)))
    ensures ScannedUpTo(c, order, p, a', j')
  {
    hide Taken, SlotAt, Elements;
  }

  /** Nothing is left to scan: the counters go back to rest. */
  lemma Finish(c: Task, s: State)
    requires Inv(c, s) && Top(s) in c.g && s.fs != []
    requires Going(c, s.flag) ==> AllScanned(c, s.order, Top(s))
    ensures Returning(c, s.(m := ClearCounters(s.m, c.g[Top(s)], Top(s), Rd(s.m, Top(s) - HEADER_SIZE)), act := s.act[Top(s) := Running(0, 0)]))
  {
    hide Apart, Nodes, Rep, Toggled, WeaksLinked, Counted, FlagOk, SlotAt, ScannedUpTo, ValidModel, IsTraversal, Closed, StackOk, AllScanned, ClearCounters, TotalSize, TypeOf, SetCounter, Counter, Rd;
    TopInGraph(c, s);
    TopCounterBound(c, s);
    ClearKeepsRep(c.e, c.g, s.m, s.lm, s.act, Top(s));
    RestKeepsStack(c.g, s.lm, s.fs, s.act);
  }

  lemma RestKeepsStack(g: Graph, lm: Mem, fs: seq<int>, act: map<int, Activity>)
    requires StackOk(g, lm, fs, act)
    ensures StackOk(g, lm, fs, act[fs[|fs| - 1] := Running(0, 0)])
  {
    hide SlotAt, IsCursor;
    var act' := act[fs[|fs| - 1] := Running(0, 0)];
    forall i | 0 <= i < |fs| - 1 ensures IsLink(g, lm, fs, act', i) {
      assert IsLink(g, lm, fs, act, i);
      assert fs[i] != fs[|fs| - 1];
    }
  }

  /** Back to the object the finished one was reached from. */
  function AfterReturn(c: Task, s: State): State
    requires |s.fs| > 1 && s.fs[|s.fs| - 2] in s.act && s.fs[|s.fs| - 2] in c.g
  {
    var p := s.fs[|s.fs| - 2];
    s.(m := s.m[SlotAt(p, c.g[p].t, s.act[p].a, s.act[p].j) := Top(s)],
       act := (s.act - {Top(s)})[p := Running(s.act[p].a, s.act[p].j)],
       fs := s.fs[..|s.fs| - 1])
  }

  lemma Return(c: Task, s: State)
    requires Returning(c, s) && |s.fs| > 1
    ensures var p := s.fs[|s.fs| - 2];
      && p in s.act && p in c.g && c.g[p].t.tag in {NormalTag, ArrayTag} && 0 < p && IsCursor(c.g[p], s.act[p].a, s.act[p].j)
      && Counter(Rd(s.m, p - HEADER_SIZE)) == s.act[p].j && TypeOf(c.e, Rd(s.m, p - HEADER_SIZE)) == c.g[p].t
      && (c.g[p].t.tag == ArrayTag ==> Rd(s.m, p - 24) == s.act[p].a)
      && (c.g[p].t.tag == NormalTag ==> s.act[p].a == 0)
      && Rd(s.m, SlotAt(p, c.g[p].t, s.act[p].a, s.act[p].j)) == Below(s.fs, |s.fs| - 2)
      && Scanning(c, AfterReturn(c, s), s.act[p].a, s.act[p].j)
      && Taken(c, s.order, Rd(c.m0, SlotAt(p, c.g[p].t, s.act[p].a, s.act[p].j)))
      && Top(AfterReturn(c, s)) == p
  {
    hide Apart, Nodes, Rep, Toggled, WeaksLinked, Counted, FlagOk, SlotAt, ScannedUpTo, ValidModel, IsTraversal, Closed, StackOk, AllScanned, Progress, IsCursor, Counter, TypeIndex;
    var p := s.fs[|s.fs| - 2];
    PopReads(c, s);
    ReturnMemory(c, s);
    PopKeepsStack(c.g, s.lm, s.fs, s.act);
    if Going(c, s.flag) { ReturnProgress(c, s); }
  }

  lemma PopReads(c: Task, s: State)
    requires Returning(c, s) && |s.fs| > 1
    ensures var p, n := s.fs[|s.fs| - 2], |s.fs| - 2;
      && p in s.act && p in c.g && p != Top(s) && c.g[p].t.tag in {NormalTag, ArrayTag} && 0 < p
      && s.act[p].Suspended? && s.act[p].prev == Below(s.fs, n) && IsCursor(c.g[p], s.act[p].a, s.act[p].j)
      && Counter(Rd(s.m, p - HEADER_SIZE)) == s.act[p].j && TypeOf(c.e, Rd(s.m, p - HEADER_SIZE)) == c.g[p].t
      && (c.g[p].t.tag == ArrayTag ==> Rd(s.m, p - 24) == s.act[p].a)
      && (c.g[p].t.tag == NormalTag ==> s.act[p].a == 0)
      && Rd(s.lm, SlotAt(p, c.g[p].t, s.act[p].a, s.act[p].j)) == Top(s)
      && Rd(c.m0, SlotAt(p, c.g[p].t, s.act[p].a, s.act[p].j)) == Top(s)
  {
    hide Apart, Nodes, Rep, Toggled, WeaksLinked, Counted, FlagOk, SlotAt, ScannedUpTo, ValidModel, IsTraversal, Closed, AllScanned, Progress, Counter, TypeIndex, SetCounter;
    var i := |s.fs| - 2;
    var p := s.fs[i];
    assert IsLink(c.g, s.lm, s.fs, s.act, i);
    assert s.fs[i] != s.fs[i + 1];
    OrderInGraph(c, s);
    NodeAt(c, p);
    ToggledSlot(c, s.lm, s.order, p, s.act[p].a, s.act[p].j);
    CounterBound(c, s, p);
    RepReads(c.e, c.g, s.m, s.lm, s.act, p);
  }

  lemma ReturnMemory(c: Task, s: State)
    requires Returning(c, s) && |s.fs| > 1 && s.fs[|s.fs| - 2] in s.act && s.fs[|s.fs| - 2] in c.g
    requires var p := s.fs[|s.fs| - 2];
      && p != Top(s) && s.act[p].Suspended? && IsCursor(c.g[p], s.act[p].a, s.act[p].j)
      && Rd(s.lm, SlotAt(p, c.g[p].t, s.act[p].a, s.act[p].j)) == Top(s)
    ensures var p := s.fs[|s.fs| - 2];
      && Rep(c.e, c.g, AfterReturn(c, s).m, s.lm, AfterReturn(c, s).act)
      && Rd(s.m, SlotAt(p, c.g[p].t, s.act[p].a, s.act[p].j)) == s.act[p].prev
  {
    hide Apart, Nodes, Rep, Toggled, WeaksLinked, Counted, FlagOk, SlotAt, ScannedUpTo, ValidModel, IsTraversal, Closed, AllScanned, Progress, StackOk, IsCursor;
    var p := s.fs[|s.fs| - 2];
    LeaveKeepsRep(c.e, c.g, s.m, s.lm, s.act, Top(s));
    ResumeKeepsRep(c.e, c.g, s.m, s.lm, s.act - {Top(s)}, p);
  }

  lemma PopKeepsStack(g: Graph, lm: Mem, fs: seq<int>, act: map<int, Activity>)
    requires StackOk(g, lm, fs, act) && |fs| > 1
    ensures fs[|fs| - 2] in act && fs[|fs| - 2] != fs[|fs| - 1]
    ensures var p := fs[|fs| - 2];
      StackOk(g, lm, fs[..|fs| - 1], (act - {fs[|fs| - 1]})[p := Running(act[p].a, act[p].j)])
  {
    hide SlotAt, IsCursor;
    var p, top := fs[|fs| - 2], fs[|fs| - 1];
    var fs' := fs[..|fs| - 1];
    var act' := (act - {top})[p := Running(act[p].a, act[p].j)];
    forall q {:trigger q in act'} | q in act' ensures q in fs' {
      assert q in act && q in fs;
      var i :| 0 <= i < |fs| && fs[i] == q;
      assert fs'[i] == q;
    }
    forall i {:trigger fs'[i]} | 0 <= i < |fs'| ensures fs'[i] in g && fs'[i] in act' && act'[fs'[i]].j < MAX_OBJPTRS_PER_COUNTER {
      assert fs'[i] == fs[i] && fs[i] != top && fs[i] in act;
    }
    forall i | 0 <= i < |fs'| - 1 ensures IsLink(g, lm, fs', act', i) {
      assert IsLink(g, lm, fs, act, i);
      assert fs'[i] == fs[i] && fs'[i + 1] == fs[i + 1] && fs[i] != p && fs[i] != top;
    }
  }

  lemma ReturnProgress(c: Task, s: State)
    requires Returning(c, s) && |s.fs| > 1 && Going(c, s.flag)
    requires s.fs[|s.fs| - 2] in s.act && s.fs[|s.fs| - 2] in c.g && s.fs[|s.fs| - 2] != Top(s) && s.act[s.fs[|s.fs| - 2]].Suspended?
    ensures Progress(c, s.order, AfterReturn(c, s).act)
    ensures var p := s.fs[|s.fs| - 2]; ScannedUpTo(c, s.order, p, s.act[p].a, s.act[p].j)
  {
    hide Apart, Nodes, Rep, Toggled, WeaksLinked, Counted, FlagOk, SlotAt, ScannedUpTo, ValidModel, IsTraversal, Closed, AllScanned, StackOk;
  }

  // -------------------------------------------------------------------- the end

  /** Nothing is left on the stack. */
  lemma Done(c: Task, s: State)
    requires Returning(c, s) && |s.fs| == 1
    ensures forall x {:trigger Rd(s.m, x)} :: Rd(s.m, x) == Rd(s.lm, x)
    ensures c.root in s.order
    ensures Going(c, s.flag) ==> ClosedSet(c.m0, c.g, c.sc, c.unmark, s.order) && (c.unmark ==> NoneLeadAway(c, s.order))
  {
    hide ValidTask, Rep, Nodes, OrderOk, Progress, AllScanned, ClosedSet, StackOk;
    var p := Top(s);
    OnlyOne(c, s);
    RootReached(c, s.order) by { Traversal(c, s); }
    LeaveKeepsRep(c.e, c.g, s.m, s.lm, s.act, p) by { Separate(c); }
    NothingStored(c.e, c.g, s.m, s.lm, s.act - {p});
    if Going(c, s.flag) {
      AllClosed(c, s);
      if c.unmark { NoStrays(c, s); }
    }
  }

  lemma OnlyOne(c: Task, s: State)
    requires StackOk(c.g, s.lm, s.fs, s.act) && |s.fs| == 1
    ensures Top(s) in s.act && forall q {:trigger q in s.act} :: q in s.act ==> q == Top(s)
  {
    assert s.fs[0] == Top(s);
  }

  lemma Traversal(c: Task, s: State)
    requires OrderOk(c, s)
    ensures IsTraversal(c.m0, c.g, c.sc, c.unmark, c.root, s.order)
  {
  }

  lemma Separate(c: Task)
    requires ValidTask(c)
    ensures Apart(c.e, c.g)
  {
  }

  lemma NothingStored(e: Model, g: Graph, m: Mem, lm: Mem, act: map<int, Activity>)
    requires Rep(e, g, m, lm, act) && forall p {:trigger p in act} :: p !in act
    ensures forall x {:trigger Rd(m, x)} :: Rd(m, x) == Rd(lm, x)
  {
    hide InObject;
    forall x {:trigger Rd(m, x)} ensures Rd(m, x) == Rd(lm, x) {
      if Owned(e, g, x) {
        var p :| InExtent(e, g, p, x);
      }
    }
  }

  lemma AllClosed(c: Task, s: State)
    requires Returning(c, s) && |s.fs| == 1 && Going(c, s.flag)
    ensures ClosedSet(c.m0, c.g, c.sc, c.unmark, s.order)
  {
    hide ValidTask, MemoryOk, OrderOk, AllScanned, IsFresh, Edge;
    forall q, r {:trigger Edge(c.m0, c.g, c.sc, q, r)} | q in s.order && Edge(c.m0, c.g, c.sc, q, r) && IsFresh(c.m0, r, c.unmark)
      ensures r in s.order
    {
      OnlyOne(c, s) by { StackOf(c, s); }
      EdgeEnds(c.m0, c.g, c.sc, q, r);
      ScannedEdge(c, s.order, q, r);
    }
  }

  lemma NoStrays(c: Task, s: State)
    requires Returning(c, s) && |s.fs| == 1 && Going(c, s.flag) && c.unmark
    ensures NoneLeadAway(c, s.order)
  {
    hide ValidTask, MemoryOk, OrderOk, AllScanned, LeadsAwayAt;
    forall p {:trigger p in s.order} | p in s.order ensures !LeadsAway(c, p) {
      OnlyOne(c, s) by { StackOf(c, s); }
      if a, j :| LeadsAwayAt(c, p, a, j) {
        ScannedSlot(c, s, p, a, j);
        assert false;
      }
    }
  }

  /** The slot would not have been passed over. */
  lemma ScannedSlot(c: Task, s: State, p: int, a: int, j: int)
    requires Inv(c, s) && p in c.g && AllScanned(c, s.order, p) && c.unmark
    ensures !LeadsAwayAt(c, p, a, j)
  {
    hide MemoryOk, SlotAt, Progress, Toggled, WeaksLinked, TotalSize, FlagOk;
    if IsCursor(c.g[p], a, j) && c.sc.Follows(Rd(c.m0, SlotAt(p, c.g[p].t, a, j))) {
      assert Taken(c, s.order, Rd(c.m0, SlotAt(p, c.g[p].t, a, j)));
      ForwardingHeader(c.e);
      OrderInGraph(c, s);
      if LeadsAwayAt(c, p, a, j) { WMovedAway(c, p, a, j); }
    }
  }

  lemma StackOf(c: Task, s: State)
    requires MemoryOk(c, s)
    ensures StackOk(c.g, s.lm, s.fs, s.act)
  {
  }

  lemma RootReached(c: Task, order: seq<int>)
    requires IsTraversal(c.m0, c.g, c.sc, c.unmark, c.root, order) && order != []
    ensures c.root in order
  {
    assert order[0] == c.root;
  }

  lemma ScannedEdge(c: Task, order: seq<int>, q: int, r: int)
    requires q in c.g && AllScanned(c, order, q) && Edge(c.m0, c.g, c.sc, q, r) && IsFresh(c.m0, r, c.unmark)
    ensures r in order
  {
    hide SlotAt, IsFresh;
    var a, j :| IsCursor(c.g[q], a, j) && Rd(c.m0, SlotAt(q, c.g[q].t, a, j)) == r;
    assert Taken(c, order, r);
  }
}
