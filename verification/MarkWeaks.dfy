/** Clearing the weak pointers to objects that are not marked
    (updateWeaksForMarkCompact in mark-compact.c). */
module MarkWeaks {
  import opened Memory
  import opened Objects
  import opened Layout
  import opened MarkGraph
  import opened PointerReversal
  import opened MarkState
  import opened MarkSteps
  import opened DfsMark
  import opened Cleanliness
  import opened MarkRoots

  const WEAK_GONE_TYPE_INDEX := 2

  /** GC_WEAK_GONE_HEADER with the mark set. */
  const MARKED_WEAK_GONE := 1 + 2 * WEAK_GONE_TYPE_INDEX + 0x8000_0000

  /** A weak pointer that has not been cleared leads to an object of the heap,
      to an unmarked one of the shared heap or to where one has been. */
  ghost predicate WeakOk(c: Major, p: int)
    requires p in c.g
  {
    var w := Rd(c.m0, WeakCell(c.e, p));
    c.g[p].t.tag == WeakTag && IsObjptr(w) ==>
      && c.g[p].t.numObjptrs == 1
      && (w in c.g || (SharedObject(c, w) && !IsMarked(Rd(c.m0, w - HEADER_SIZE))) || Lifted(c, w))
  }

  ghost predicate WeaksOk(c: Major) {
    forall p {:trigger p in c.g} :: p in c.g ==> WeakOk(c, p)
  }

  ghost function Linked(c: Major, order: seq<int>): seq<int> { WeaksOf(TaskFrom(c, 0), order) }

  /** w leads to an object whose header is marked, be it a forwarding header. */
  ghost predicate ReadsMarked(c: Major, order: seq<int>, w: int) { w in order || Lifted(c, w) }

  /** p is a linked weak object, among those dealt with, whose target is not
      marked. */
  ghost predicate Cleared(c: Major, order: seq<int>, done: seq<int>, p: int) {
    p in done && !ReadsMarked(c, order, Rd(c.m0, WeakCell(c.e, p)))
  }

  ghost function WordAfter(c: Major, m1: Mem, order: seq<int>, done: seq<int>, x: int): int {
    if Cleared(c, order, done, x + HEADER_SIZE) then MARKED_WEAK_GONE
    else if Cleared(c, order, done, x - WeakCell(c.e, 0)) then BOGUS_OBJPTR
    else Rd(m1, x)
  }

  ghost predicate Settled(c: Major, m1: Mem, order: seq<int>, done: seq<int>, m: Mem) {
    forall x {:trigger Rd(m, x)} :: Rd(m, x) == WordAfter(c, m1, order, done, x)
  }

  lemma LinkedIs(c: Major, m1: Mem, weaks: int, order: seq<int>, p: int)
    requires ValidMajor(c) && MarkedUpTo(c, m1, weaks, order, |c.roots|) && p in Linked(c, order)
    ensures p in order && p in c.g && c.g[p].t.tag == WeakTag && IsObjptr(Rd(c.m0, WeakCell(c.e, p))) && 0 < p
    ensures Rd(m1, WeakCell(c.e, p)) == Rd(c.m0, WeakCell(c.e, p))
  {
    hide Nodes, Apart, TargetsOk, NoneMarked, WeaksLinked, ClosedSet, Toggled, Survives, OffsetOfWeak;
    WeaksAreReached(TaskFrom(c, 0), order, p);
    TaskIsValid(c, p, order);
    AnyRoot(c, p, m1, weaks, order);
    ToggledWeakCell(TaskFrom(c, p), m1, order, p);
    NodeAt(TaskFrom(c, p), p);
  }

  /** Each cell of an object is a cell of no other. */
  lemma CellOf(c: Major, p: int, q: int, x: int)
    requires ValidMajor(c) && InExtent(c.e, c.g, p, x) && q in c.g
    requires x == q - HEADER_SIZE || (c.g[q].t.tag == WeakTag && (x == WeakCell(c.e, q) || x == LinkCell(c.e, q)))
    ensures p == q
  {
    hide InExtent, TargetsOk, NoneMarked, ValidModel, OffsetOfWeak, Nodes;
    CellsInExtent(c.e, c.m0, c.g, q);
  }

  /** Only its own clearing changes a cell of an object. */
  lemma OwnCell(c: Major, m1: Mem, weaks: int, order: seq<int>, done: seq<int>, p: int, x: int)
    requires ValidMajor(c) && MarkedUpTo(c, m1, weaks, order, |c.roots|) && InExtent(c.e, c.g, p, x)
    requires forall q {:trigger q in done} :: q in done ==> q in Linked(c, order)
    ensures WordAfter(c, m1, order, done, x) ==
      if Cleared(c, order, done, p) && x == p - HEADER_SIZE then MARKED_WEAK_GONE
      else if Cleared(c, order, done, p) && x == WeakCell(c.e, p) then BOGUS_OBJPTR
      else Rd(m1, x)
  {
    hide ValidMajor, MarkedUpTo, InExtent, Linked, OffsetOfWeak, ReadsMarked;
    var q, r := x + HEADER_SIZE, x - WeakCell(c.e, 0);
    if q in done {
      LinkedIs(c, m1, weaks, order, q);
      CellOf(c, p, q, x);
    }
    if r in done {
      LinkedIs(c, m1, weaks, order, r);
      CellOf(c, p, r, x);
    }
  }

  lemma TargetHeader(c: Major, m1: Mem, weaks: int, order: seq<int>, done: seq<int>, m: Mem, w: int)
    requires ValidMajor(c) && MarkedUpTo(c, m1, weaks, order, |c.roots|) && Settled(c, m1, order, done, m)
    requires forall q {:trigger q in done} :: q in done ==> q in Linked(c, order)
    requires w in c.g
    ensures IsMarked(Rd(m, w - HEADER_SIZE)) <==> w in order
  {
    hide Apart, TargetsOk, NoneMarked, WeaksLinked, ClosedSet, Toggled, Survives, Linked, InExtent;
    CellsInExtent(c.e, c.m0, c.g, w);
    OwnCell(c, m1, weaks, order, done, w, w - HEADER_SIZE);
    MarkedHeap(c, m1, weaks, order, |c.roots|, w);
    if w in done { LinkedIs(c, m1, weaks, order, w); }
    assert IsFresh(m1, w, false) <==> w !in order;
  }

  /** A header that is part of no object keeps its mark, or the lack of one. */
  lemma OutsideTarget(c: Major, m1: Mem, weaks: int, order: seq<int>, done: seq<int>, m: Mem, w: int)
    requires ValidMajor(c) && MarkedUpTo(c, m1, weaks, order, |c.roots|) && Settled(c, m1, order, done, m)
    requires forall q {:trigger q in done} :: q in done ==> q in Linked(c, order)
    requires Outside(c.e, c.g, w - HEADER_SIZE)
    ensures Rd(m, w - HEADER_SIZE) == Rd(c.m0, w - HEADER_SIZE)
  {
    hide MarkedUpTo, InExtent, Linked, Nodes, Apart, TargetsOk, NoneMarked, OffsetOfWeak, ReadsMarked;
    var x := w - HEADER_SIZE;
    OutsideKept(c, m1, weaks, order, |c.roots|, x);
    var r := x - WeakCell(c.e, 0);
    if x + HEADER_SIZE in done {
      LinkedIs(c, m1, weaks, order, x + HEADER_SIZE);
      CellsInExtent(c.e, c.m0, c.g, x + HEADER_SIZE);
    }
    if r in done {
      LinkedIs(c, m1, weaks, order, r);
      CellsInExtent(c.e, c.m0, c.g, r);
    }
  }

  /** A weak pointer into the shared heap is found unmarked, since marking stays
      out of there. */
  lemma SharedTarget(c: Major, m1: Mem, weaks: int, order: seq<int>, done: seq<int>, m: Mem, w: int)
    requires ValidMajor(c) && MarkedUpTo(c, m1, weaks, order, |c.roots|) && Settled(c, m1, order, done, m)
    requires forall q {:trigger q in done} :: q in done ==> q in Linked(c, order)
    requires SharedObject(c, w) && !IsMarked(Rd(c.m0, w - HEADER_SIZE))
    ensures !IsMarked(Rd(m, w - HEADER_SIZE)) && !ReadsMarked(c, order, w)
  {
    hide MarkedUpTo, Linked, Nodes, Apart, TargetsOk, NoneMarked, IsMarked, Outside, Settled;
    OutsideTarget(c, m1, weaks, order, done, m, w);
    NotShared(c, m1, weaks, order, w);
  }

  /** One to a lifted object is found marked, since a forwarding header is all
      ones. */
  lemma LiftedTarget(c: Major, m1: Mem, weaks: int, order: seq<int>, done: seq<int>, m: Mem, w: int)
    requires ValidMajor(c) && MarkedUpTo(c, m1, weaks, order, |c.roots|) && Settled(c, m1, order, done, m)
    requires forall q {:trigger q in done} :: q in done ==> q in Linked(c, order)
    requires Lifted(c, w)
    ensures IsMarked(Rd(m, w - HEADER_SIZE)) && ReadsMarked(c, order, w)
  {
    hide MarkedUpTo, Linked, ValidMajor, Outside, Settled;
    OutsideTarget(c, m1, weaks, order, done, m, w);
    ForwardingHeader(c.e);
  }

  lemma NotShared(c: Major, m1: Mem, weaks: int, order: seq<int>, w: int)
    requires ValidMajor(c) && MarkedUpTo(c, m1, weaks, order, |c.roots|) && c.sc.InShared(w)
    ensures w !in order && w !in c.g
  {
  }

  /** What the loop reads at the n-th linked weak object. */
  lemma AtWeak(c: Major, m1: Mem, weaks: int, order: seq<int>, n: nat, m: Mem)
    requires ValidMajor(c) && WeaksOk(c) && MarkedUpTo(c, m1, weaks, order, |c.roots|)
    requires n < |Linked(c, order)| && Settled(c, m1, order, Linked(c, order)[..n], m)
    ensures var linked := Linked(c, order); var p := linked[n]; var w := Rd(m, WeakCell(c.e, p));
      && LinkCell(c.e, p) != 0
      && Rd(m, LinkCell(c.e, p)) == (if n + 1 < |linked| then LinkCell(c.e, linked[n + 1]) else 0)
      && w == Rd(c.m0, WeakCell(c.e, p))
      && (IsMarked(Rd(m, w - HEADER_SIZE)) <==> ReadsMarked(c, order, w))
  {
    hide ValidMajor, Linked, Toggled, ClosedSet, Survives, InExtent, LinksWeak, IsMarked;
    var linked := Linked(c, order);
    var p, done := linked[n], linked[..n];
    LinkedIs(c, m1, weaks, order, p);
    assert WeakOk(c, p);
    LinkedOnce(c, m1, weaks, order);
    assert p !in done;
    WeakCells(c, p);
    OwnCell(c, m1, weaks, order, done, p, WeakCell(c.e, p));
    OwnCell(c, m1, weaks, order, done, p, LinkCell(c.e, p));
    ChainAt(c, m1, weaks, order, n);
    var w := Rd(c.m0, WeakCell(c.e, p));
    if w in c.g {
      TargetHeader(c, m1, weaks, order, done, m, w);
      NotLifted(c, w);
    } else if Lifted(c, w) {
      LiftedTarget(c, m1, weaks, order, done, m, w);
    } else {
      SharedTarget(c, m1, weaks, order, done, m, w);
    }
  }

  lemma NotLifted(c: Major, w: int)
    requires ValidMajor(c) && w in c.g
    ensures !Lifted(c, w)
  {
    hide Nodes, Apart, TargetsOk, NoneMarked, RootOk;
    NodeIsNotForwarded(c.e, c.m0, c.g, w);
  }

  lemma WeakCells(c: Major, p: int)
    requires ValidMajor(c) && p in c.g && c.g[p].t.tag == WeakTag && 0 < p
    ensures InExtent(c.e, c.g, p, WeakCell(c.e, p)) && InExtent(c.e, c.g, p, LinkCell(c.e, p)) && InExtent(c.e, c.g, p, p - HEADER_SIZE)
    ensures p <= LinkCell(c.e, p)
  {
    hide InExtent, Apart, TargetsOk, NoneMarked;
    CellsInExtent(c.e, c.m0, c.g, p);
  }

  lemma ChainAt(c: Major, m1: Mem, weaks: int, order: seq<int>, n: nat)
    requires MarkedUpTo(c, m1, weaks, order, |c.roots|) && n < |Linked(c, order)|
    ensures var linked := Linked(c, order);
      Rd(m1, LinkCell(c.e, linked[n])) == if n + 1 < |linked| then LinkCell(c.e, linked[n + 1]) else 0
  {
    hide Toggled, ClosedSet, Survives;
  }

  lemma {:induction false} LinkedDistinct(t: Task, order: seq<int>)
    requires forall i, j :: 0 <= i < j < |order| ==> order[i] != order[j]
    ensures var l := WeaksOf(t, order); forall i, j :: 0 <= i < j < |l| ==> l[i] != l[j]
    decreases |order|
  {
    hide LinksWeak;
    if order != [] {
      var front, p := order[..|order| - 1], order[|order| - 1];
      LinkedDistinct(t, front);
      var l := WeaksOf(t, front);
      forall i | 0 <= i < |l| ensures l[i] != p {
        WeaksAreReached(t, front, l[i]);
      }
    }
  }

  lemma LinkedOnce(c: Major, m1: Mem, weaks: int, order: seq<int>)
    requires MarkedUpTo(c, m1, weaks, order, |c.roots|)
    ensures var l := Linked(c, order); forall i, j :: 0 <= i < j < |l| ==> l[i] != l[j]
  {
    hide Toggled, ClosedSet, Survives, WeaksLinked, LinksWeak, WeaksOf;
    LinkedDistinct(TaskFrom(c, 0), order);
    var l := Linked(c, order);
    assert l == WeaksOf(TaskFrom(c, 0), order);
  }

  /** One weak object more has been dealt with. */
  lemma SettleOne(c: Major, m1: Mem, weaks: int, order: seq<int>, n: nat, m: Mem, m': Mem)
    requires ValidMajor(c) && MarkedUpTo(c, m1, weaks, order, |c.roots|) && n < |Linked(c, order)|
    requires Settled(c, m1, order, Linked(c, order)[..n], m)
    requires var p := Linked(c, order)[n];
      m' == if ReadsMarked(c, order, Rd(c.m0, WeakCell(c.e, p))) then m
            else m[p - HEADER_SIZE := MARKED_WEAK_GONE][WeakCell(c.e, p) := BOGUS_OBJPTR]
    ensures Settled(c, m1, order, Linked(c, order)[..n + 1], m')
  {
    hide ValidMajor, MarkedUpTo, Linked, OffsetOfWeak, InExtent, ReadsMarked;
    var p, done, more := Linked(c, order)[n], Linked(c, order)[..n], Linked(c, order)[..n + 1];
    assert more == done + [p];
    LinkedIs(c, m1, weaks, order, p);
    WeakCells(c, p);
    var q := WeakCell(c.e, p) + HEADER_SIZE;
    if q in more {
      LinkedIs(c, m1, weaks, order, q);
      CellOf(c, p, q, WeakCell(c.e, p));
      OffsetIsPositive(c.e);
    }
    forall x {:trigger Rd(m', x)} ensures Rd(m', x) == WordAfter(c, m1, order, more, x) {
      assert Rd(m, x) == WordAfter(c, m1, order, done, x);
      assert Cleared(c, order, more, x + HEADER_SIZE) <==> Cleared(c, order, done, x + HEADER_SIZE) || (x + HEADER_SIZE == p && Cleared(c, order, more, p));
    }
  }

  /** updateWeaksForMarkCompact. */
  method UpdateWeaksForMarkCompact(mk: Marker, ghost c: Major, ghost order: seq<int>)
    requires ValidMajor(c) && WeaksOk(c) && mk.e == c.e && MarkedUpTo(c, mk.mem, mk.weaks, order, |c.roots|)
    modifies mk
    ensures Settled(c, old(mk.mem), order, Linked(c, order), mk.mem) && mk.weaks == 0
  {
    hide ValidMajor, WeaksOk, MarkedUpTo, Settled, Linked, IsMarked, ReadsMarked;
    ghost var m1, weaks, linked, n := mk.mem, mk.weaks, Linked(c, order), 0;
    var w := mk.weaks;
    NothingSettled(c, m1, weaks, order);
    while w != 0
      invariant n <= |linked| && w == (if n < |linked| then LinkCell(c.e, linked[n]) else 0)
      invariant Settled(c, m1, order, linked[..n], mk.mem)
      decreases |linked| - n
    {
      AtWeak(c, m1, weaks, order, n, mk.mem);
      ghost var m := mk.mem;
      var objptr := Rd(mk.mem, w + 8);
      var next := Rd(mk.mem, w);
      if !IsMarked(Rd(mk.mem, objptr - HEADER_SIZE)) {
        mk.mem := mk.mem[w - OffsetOfWeak(mk.e) - HEADER_SIZE := MARKED_WEAK_GONE];
        mk.mem := mk.mem[w + 8 := BOGUS_OBJPTR];
      }
      SettleOne(c, m1, weaks, order, n, m, mk.mem);
      w := next;
      n := n + 1;
    }
    if n < |linked| { AtWeak(c, m1, weaks, order, n, mk.mem); }
    assert linked[..|linked|] == linked;
    mk.weaks := 0;
  }

  lemma OffsetIsPositive(e: Model)
    ensures 0 <= OffsetOfWeak(e)
  {
    AlignIsLeast(24, e.alignment);
  }

  lemma NothingSettled(c: Major, m1: Mem, weaks: int, order: seq<int>)
    requires MarkedUpTo(c, m1, weaks, order, |c.roots|)
    ensures Settled(c, m1, order, [], m1)
    ensures weaks == if |Linked(c, order)| > 0 then LinkCell(c.e, Linked(c, order)[0]) else 0
  {
    hide Toggled, ClosedSet, Survives;
  }
}
