/** Whether the number of bytes a marking returns is the number of bytes it has
    marked (dfs-mark.c). */
module MarkSize {
  import opened Sequences
  import opened Memory
  import opened Objects
  import opened Layout
  import opened MarkGraph
  import opened MarkState
  import opened MarkSteps
  import opened DfsMark
  import opened Cleanliness
  import DepthFirst

  /** The bytes the objects of order occupy. */
  function BytesOf(c: Task, order: seq<int>): int
    requires forall p :: p in order ==> p in c.g
  {
    if order == [] then 0
    else
      var p := order[|order| - 1];
      assert p in order;
      BytesOf(c, order[..|order| - 1]) + SizeByType(c.e, c.g[p].t, c.g[p].len, 0)
  }

  /** Objects whose bytes are passed over: weak ones always, and those of the
      shared heap when only the local ones are to be estimated. */
  predicate PassedOver(c: Task, p: int)
    requires p in c.g
  {
    c.g[p].t.tag == WeakTag || (c.sizeEstimation && c.sc.InShared(p))
  }

  lemma {:induction false} CountsAllButPassedOver(c: Task, order: seq<int>)
    requires Nodes(c.e, c.m0, c.g) && forall p :: p in order ==> p in c.g
    ensures TotalSize(c, order) <= BytesOf(c, order)
    ensures TotalSize(c, order) == BytesOf(c, order) <==> forall p :: p in order ==> !PassedOver(c, p)
    decreases |order|
  {
    hide SizeByType, Nodes;
    if order != [] {
      var front, p := order[..|order| - 1], order[|order| - 1];
      CountsAllButPassedOver(c, front);
      DataInExtent(c.e, c.m0, c.g, p);
      assert forall q :: q in order <==> q in front || q == p;
    }
  }

  /** The size a marking returns is that of the objects it has marked exactly
      when it has passed none of them over; when nothing has cut it short, that
      is when none of those that can be reached is to be passed over. */
  lemma SizeIsExact(c: Task, m: Mem, flag: bool, weaks: int, size: int, order: seq<int>)
    requires MarkingDone(c, m, flag, weaks, size, order) && ValidTask(c)
    requires IsFresh(c.m0, c.root, c.unmark) && !(c.sc.ignoreShared && c.sc.InShared(c.root))
    ensures order == DepthFirst.WholeWalk(c).order && forall p :: p in order ==> p in c.g
    ensures size <= BytesOf(c, order)
    ensures size == BytesOf(c, order) <==> forall p :: p in order ==> !PassedOver(c, p)
    ensures Going(c, flag) ==>
      (size == BytesOf(c, order) <==>
       forall p {:trigger Reachable(c.m0, c.g, c.sc, c.unmark, c.root, p)} ::
         Reachable(c.m0, c.g, c.sc, c.unmark, c.root, p) ==> p in c.g && !PassedOver(c, p))
  {
    hide Nodes, Apart, Closed, IsFresh, Toggled, WeaksLinked, FlagOk, ClosedSet, TotalSize, HasParent, PassedOver, Reachable, IsTraversal, NoneLeadAway;
    OrderInGraph1(c, order);
    CountsAllButPassedOver(c, order);
    MarkingIsExact(c, m, flag, weaks, size, order);
  }

  const WEAK_TYPE := ObjectType(WeakTag, false, 8, 1)

  /** One weak object of 24 bytes, at 24. */
  function WeakAlone(): Task {
    var types := [WEAK_TYPE, HEADER_ONLY_TYPE, HEADER_ONLY_TYPE, WORD8_VECTOR_TYPE, FILL_TYPE, FILL_TYPE, FILL_TYPE, HEADER_ONLY_TYPE, FILL_TYPE];
    Task(Model(types, 8), map[24 := Shape(WEAK_TYPE, 0)], map[16 := 1], Scope(true, 0, 0), 24, false, Always, true, false, false, 0)
  }

  lemma WeakAloneIsValid()
    ensures ValidTask(WeakAlone()) && IsFresh(WeakAlone().m0, 24, false)
  {
    var c := WeakAlone();
    assert Elements(c.g[24]) == 0;
    assert forall p {:trigger p in c.g} :: p in c.g ==> c.g[p] == c.g[24];
    assert ValidType(c.e, WEAK_TYPE) && ValidShape(c.e, c.g[24]);
    assert Rd(c.m0, 16) == 1 && TypeIndex(1) == 0 && Counter(1) == 0;
  }

  /** A weak object, alone in the heap, is marked, and zero returned for it: any
      outcome of that marking says so. */
  lemma WeakAddsNothing(m: Mem, flag: bool, weaks: int, size: int, order: seq<int>)
    requires MarkingDone(WeakAlone(), m, flag, weaks, size, order)
    ensures order == [24] && IsMarked(Rd(m, 16))
    ensures size == 0 && BytesOf(WeakAlone(), order) == 24
  {
    hide IsMarked, HasParent, ToggleMark, DepthFirst.WholeWalk, ClosedSet, Edge, FlagOk, NoneLeadAway, WeaksLinked, ValidTask;
    WeakAloneIsValid();
    var c := WeakAlone();
    OrderInGraph1(c, order);
    OneElement(order, 24);
    ToggleMarkKeepsTheRest(1);
    assert [24][..0] == [];
    assert Rd(m, 16) == ToggleMark(Rd(c.m0, 16));
  }

  lemma OneElement(s: seq<int>, x: int)
    requires x in s && (forall y {:trigger y in s} :: y in s ==> y == x) && forall i, j :: 0 <= i < j < |s| ==> s[i] != s[j]
    ensures s == [x]
  {
    forall i {:trigger s[i]} | 0 <= i < |s| ensures s[i] in {x} { assert s[i] in s; }
    DistinctFits(s, {x});
  }

  /** There is such an outcome. */
  lemma WeakIsMarked()
    ensures MarkingDone(WeakAlone(), map[16 := ToggleMark(1)], true, 0, 0, [24])
  {
    WeakAloneIsValid();
    var c := WeakAlone();
    assert [24][..0] == [];
    assert forall a, j :: !IsCursor(c.g[24], a, j);
    DepthFirst.VisitMarks(c, 24, DepthFirst.Walk([], true));
    assert [] + [24] == [24];
  }
}
