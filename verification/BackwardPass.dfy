/** The state kept by the second pass of the compaction
    (updateBackwardPointersAndSlideForMarkCompact). */
module BackwardPass {
  import opened Memory
  import opened Objects
  import opened Layout
  import opened HeapObjects
  import opened Threading
  import opened CompactionPlan
  import opened ForwardPass

  /** The first pass leaves threaded only slots that point back, or at their
      own object. */
  ghost predicate PointsBack(pl: Plan, lm1: Mem, ch1: Chains) {
    forall s {:trigger Pending(lm1, ch1, s)} :: Pending(lm1, ch1, s) ==>
      s in pl.slots && pl.lo <= s < pl.hi && Rd(lm1, s) in pl.live && Rd(lm1, s) <= s
  }

  /** The contents of cell a once every pointer to an object below f is updated. */
  ghost function ResolvedCell(pl: Plan, lm1: Mem, ch1: Chains, a: int, f: int): int {
    if Pending(lm1, ch1, a) && Rd(lm1, a) < f then To(pl, Rd(lm1, a)) else Rd(lm1, a)
  }

  /** The word that cell a of object o ends up as, wherever o ends up. */
  ghost function FinalCell(pl: Plan, lm1: Mem, ch1: Chains, o: Object, a: int): int {
    if a == o.data - HEADER_SIZE then ToggleMark(Rd(lm1, a)) else ResolvedCell(pl, lm1, ch1, a, o.End())
  }

  ghost predicate PendingAhead(pl: Plan, lm1: Mem, ch1: Chains, lm: Mem, ch: Chains, f: int) {
    && (forall x {:trigger x in ch} :: x in ch <==> x in pl.live && f <= x)
    && (forall s {:trigger Pending(lm, ch, s)} :: s in pl.slots ==> (Pending(lm, ch, s) <==> Pending(lm1, ch1, s) && f <= Rd(lm1, s)))
  }

  ghost predicate CellsAhead(pl: Plan, lm1: Mem, ch1: Chains, lm: Mem, from: int, f: int) {
    forall a {:trigger Rd(lm, a)} :: a < pl.lo || from <= a ==> Rd(lm, a) == ResolvedCell(pl, lm1, ch1, a, f)
  }

  /** Object k has been moved to its place. */
  ghost predicate Moved(pl: Plan, lm1: Mem, ch1: Chains, lm: Mem, k: nat)
    requires k < |pl.objs|
  {
    forall a {:trigger FinalCell(pl, lm1, ch1, pl.objs[k], a)} :: pl.objs[k].start <= a < pl.objs[k].End() ==>
      Rd(lm, a - DeadBefore(pl.objs, k)) == FinalCell(pl, lm1, ch1, pl.objs[k], a)
  }

  ghost predicate AllMoved(pl: Plan, lm1: Mem, ch1: Chains, lm: Mem, n: nat) {
    forall k {:trigger pl.objs[k]} :: 0 <= k < n && k < |pl.objs| && pl.objs[k].live ==> Moved(pl, lm1, ch1, lm, k)
  }

  ghost predicate Pass2(e: Model, pl: Plan, lm1: Mem, ch1: Chains, m: Mem, lm: Mem, ch: Chains, n: nat) {
    && n <= |pl.objs|
    && Rep(m, lm, ch, pl.slots)
    && PendingAhead(pl, lm1, ch1, lm, ch, Edge(pl.objs, pl.hi, n))
    && CellsAhead(pl, lm1, ch1, lm, Edge(pl.objs, pl.hi, n), Edge(pl.objs, pl.hi, n))
    && AllMoved(pl, lm1, ch1, lm, n)
  }

  /** The gap only grows by the dead bytes that are passed. */
  lemma {:induction false} DeadBeforeBound(objs: seq<Object>, lo: int, hi: int, k: nat, n: nat)
    requires Tiled(objs, lo, hi) && k <= n <= |objs|
    ensures 0 <= DeadBefore(objs, n) - DeadBefore(objs, k) <= Edge(objs, hi, n) - Edge(objs, hi, k)
    decreases n - k
  {
    if k < n { DeadBeforeBound(objs, lo, hi, k, n - 1); }
  }

  /** No object starts or ends inside the header of another. */
  lemma DataAhead(e: Model, lm: Mem, pl: Plan, n: nat, x: int)
    requires ValidModel(e) && WellPlanned(e, lm, pl) && n < |pl.objs| && x in pl.live
    ensures pl.objs[n].start <= x <==> (pl.objs[n].live && x == pl.objs[n].data) || pl.objs[n].End() <= x
    ensures pl.objs[n].End() <= x ==> pl.objs[n].End() <= x - HEADER_SIZE
  {
    hide Inert, Destined, LiveSlots, LiveData, Describes, Spaced;
    var j := OwnerOfData(e, lm, pl, x);
    TiledRange(pl.objs, pl.lo, pl.hi, n);
    if pl.objs[n].live { LiveObjectIsGood(e, lm, pl, n); }
    if j < n { EdgesIncrease(pl.objs, pl.lo, pl.hi, j, n); }
    if n < j { EdgesIncrease(pl.objs, pl.lo, pl.hi, n, j); }
  }

  lemma Pass2Dead(e: Model, pl: Plan, lm1: Mem, ch1: Chains, m: Mem, lm: Mem, ch: Chains, n: nat)
    requires ValidModel(e) && WellPlanned(e, lm1, pl) && PointsBack(pl, lm1, ch1)
    requires Pass2(e, pl, lm1, ch1, m, lm, ch, n) && n < |pl.objs| && !pl.objs[n].live
    ensures Pass2(e, pl, lm1, ch1, m, lm, ch, n + 1)
  {
    hide WellPlanned, Rep, Pending, Moved;
    var o := pl.objs[n];
    NextEdge(e, lm1, pl, n);
    forall x | x in pl.live ensures o.start <= x <==> o.End() <= x { DataAhead(e, lm1, pl, n, x); }
    forall a ensures ResolvedCell(pl, lm1, ch1, a, o.End()) == ResolvedCell(pl, lm1, ch1, a, o.start) {
      assert Pending(lm1, ch1, a) ==> Rd(lm1, a) in pl.live;
    }
  }

  /** A dead object still reads as the first pass left it. */
  lemma Pass2DeadReads(e: Model, pl: Plan, lm1: Mem, ch1: Chains, m: Mem, lm: Mem, ch: Chains, n: nat)
    requires ValidModel(e) && WellPlanned(e, lm1, pl) && PointsBack(pl, lm1, ch1)
    requires Pass2(e, pl, lm1, ch1, m, lm, ch, n) && n < |pl.objs| && !pl.objs[n].live
    ensures Describes(e, m, pl.objs[n])
  {
    hide Describes, LiveSlots, LiveData, Destined, Rep, Inert, Pending, AllMoved;
    var o := pl.objs[n];
    assert o in pl.objs;
    TiledRange(pl.objs, pl.lo, pl.hi, n);
    forall a {:trigger Rd(m, a)} | DescriptionCell(lm1, o, a) ensures Rd(m, a) == Rd(lm1, a) {
      DescriptionCellOfDead(e, pl, lm1, n, a);
      assert !Pending(lm1, ch1, a);
      assert Rd(lm, a) == Rd(lm1, a);
      ReadsPlainCell(m, lm, ch, pl.slots, a);
    }
    DescribesFrame(e, lm1, m, o);
  }

  // --------------------------------------------------------------- a live object

  /** Object n with nothing threaded to it any more, before it is moved. */
  ghost predicate Pass2Settled(e: Model, pl: Plan, lm1: Mem, ch1: Chains, m: Mem, lm: Mem, ch: Chains, n: nat) {
    && n < |pl.objs| && pl.objs[n].live
    && Rep(m, lm, ch, pl.slots)
    && PendingAhead(pl, lm1, ch1, lm, ch, pl.objs[n].End())
    && CellsAhead(pl, lm1, ch1, lm, pl.objs[n].start, pl.objs[n].End())
    && AllMoved(pl, lm1, ch1, lm, n)
  }

  lemma MovedBelow(pl: Plan, k: nat, n: nat)
    requires Tiled(pl.objs, pl.lo, pl.hi) && k < n < |pl.objs| && pl.objs[k].live
    ensures pl.objs[k].End() - DeadBefore(pl.objs, k) <= pl.objs[n].start - DeadBefore(pl.objs, n)
    ensures 0 <= DeadBefore(pl.objs, n) <= pl.objs[n].start - pl.lo
  {
    assert DeadBefore(pl.objs, k + 1) == DeadBefore(pl.objs, k);
    DeadBeforeBound(pl.objs, pl.lo, pl.hi, k + 1, n);
    DeadBeforeBound(pl.objs, pl.lo, pl.hi, 0, n);
  }

  /** Changing cells from the current object on leaves the moved objects alone. */
  lemma AllMovedFrame(pl: Plan, lm1: Mem, ch1: Chains, lm: Mem, lm': Mem, n: nat)
    requires Tiled(pl.objs, pl.lo, pl.hi) && n < |pl.objs| && AllMoved(pl, lm1, ch1, lm, n)
    requires forall a {:trigger Rd(lm', a)} :: a < pl.objs[n].start - DeadBefore(pl.objs, n) ==> Rd(lm', a) == Rd(lm, a)
    ensures AllMoved(pl, lm1, ch1, lm', n)
  {
    hide FinalCell;
    forall k {:trigger pl.objs[k]} | 0 <= k < n && pl.objs[k].live ensures Moved(pl, lm1, ch1, lm', k) {
      MovedBelow(pl, k, n);
      assert Moved(pl, lm1, ch1, lm, k);
    }
  }

  /** After the loop over the slots threaded to object n. */
  lemma Pass2Settle(e: Model, pl: Plan, lm1: Mem, ch1: Chains, m: Mem, lm: Mem, ch: Chains, n: nat, m': Mem, lm': Mem, ch': Chains)
    requires ValidModel(e) && WellPlanned(e, lm1, pl) && PointsBack(pl, lm1, ch1)
    requires Pass2(e, pl, lm1, ch1, m, lm, ch, n) && n < |pl.objs| && pl.objs[n].live
    requires var p := pl.objs[n].data;
      && p in ch && Rep(m', lm', ch[p := []], pl.slots) && ch' == ch[p := []] - {p}
      && forall a {:trigger Rd(lm', a)} :: Rd(lm', a) == if a in ch[p] then p - DeadBefore(pl.objs, n) else Rd(lm, a)
    ensures Pass2Settled(e, pl, lm1, ch1, m', lm', ch', n)
  {
    hide WellPlanned, Rep, Moved, AllMoved, ValidModel, PendingAhead, CellsAhead;
    var p := pl.objs[n].data;
    DropKeepsRep(m', lm', ch[p := []], pl.slots, p);
    ReleasedChain(m, lm, ch, pl.slots, p, lm', p - DeadBefore(pl.objs, n));
    SettledPending(e, pl, lm1, ch1, m, lm, ch, n, lm', ch');
    SettledCells(e, pl, lm1, ch1, m, lm, ch, n, lm');
    forall a {:trigger Rd(lm', a)} | a < pl.objs[n].start - DeadBefore(pl.objs, n) ensures Rd(lm', a) == Rd(lm, a) {
      ChainAhead(e, pl, lm1, ch1, m, lm, ch, n);
    }
    assert Tiled(pl.objs, pl.lo, pl.hi) by { Tiles(e, lm1, pl); }
    AllMovedFrame(pl, lm1, ch1, lm, lm', n);
  }

  lemma Tiles(e: Model, lm: Mem, pl: Plan)
    requires WellPlanned(e, lm, pl)
    ensures Tiled(pl.objs, pl.lo, pl.hi)
  {
  }

  lemma ChainAhead(e: Model, pl: Plan, lm1: Mem, ch1: Chains, m: Mem, lm: Mem, ch: Chains, n: nat)
    requires ValidModel(e) && WellPlanned(e, lm1, pl) && PointsBack(pl, lm1, ch1)
    requires Pass2(e, pl, lm1, ch1, m, lm, ch, n) && n < |pl.objs| && pl.objs[n].live && pl.objs[n].data in ch
    ensures forall a {:trigger a in ch[pl.objs[n].data]} ::
      a in ch[pl.objs[n].data] ==> pl.objs[n].data <= a && a in pl.slots && Pending(lm, ch, a) && Rd(lm, a) == pl.objs[n].data
    ensures 0 <= DeadBefore(pl.objs, n) && pl.objs[n].start + HEADER_SIZE <= pl.objs[n].data < pl.objs[n].End()
  {
    hide WellPlanned, AllMoved;
    var p := pl.objs[n].data;
    Tiles(e, lm1, pl);
    LiveObjectIsGood(e, lm1, pl, n);
    DeadBeforeBound(pl.objs, pl.lo, pl.hi, 0, n);
    assert ChainOk(m, lm, p, ch[p], pl.slots);
    forall a {:trigger a in ch[p]} | a in ch[p] ensures p <= a && Pending(lm, ch, a) {
      assert a in pl.slots && Pending(lm, ch, a);
      assert Pending(lm1, ch1, a) && pl.lo <= a < pl.hi;
      assert pl.objs[n].start <= Rd(lm1, a) <= a;
      assert Rd(lm, a) == ResolvedCell(pl, lm1, ch1, a, pl.objs[n].start);
    }
  }

  lemma SettledPending(e: Model, pl: Plan, lm1: Mem, ch1: Chains, m: Mem, lm: Mem, ch: Chains, n: nat, lm': Mem, ch': Chains)
    requires ValidModel(e) && WellPlanned(e, lm1, pl) && PointsBack(pl, lm1, ch1)
    requires Pass2(e, pl, lm1, ch1, m, lm, ch, n) && n < |pl.objs| && pl.objs[n].live
    requires var p := pl.objs[n].data;
      && p in ch && ch' == ch[p := []] - {p}
      && (forall s {:trigger Pending(lm', ch', s)} :: Pending(lm', ch', s) <==> Pending(lm, ch, s) && Rd(lm, s) != p)
    ensures PendingAhead(pl, lm1, ch1, lm', ch', pl.objs[n].End())
  {
    hide WellPlanned, Rep, Pending, AllMoved, CellsAhead;
    var o := pl.objs[n];
    forall x {:trigger x in ch'} ensures x in ch' <==> x in pl.live && o.End() <= x {
      if x in pl.live { DataAhead(e, lm1, pl, n, x); }
      ChainAhead(e, pl, lm1, ch1, m, lm, ch, n);
    }
    forall s {:trigger Pending(lm', ch', s)} | s in pl.slots
      ensures Pending(lm', ch', s) <==> Pending(lm1, ch1, s) && o.End() <= Rd(lm1, s)
    {
      PendingValue(e, pl, lm1, ch1, m, lm, ch, n, s);
      if Rd(lm1, s) in pl.live { DataAhead(e, lm1, pl, n, Rd(lm1, s)); }
      ChainAhead(e, pl, lm1, ch1, m, lm, ch, n);
    }
  }

  /** A slot that is still threaded still holds its old target logically. */
  lemma PendingValue(e: Model, pl: Plan, lm1: Mem, ch1: Chains, m: Mem, lm: Mem, ch: Chains, n: nat, s: int)
    requires PointsBack(pl, lm1, ch1) && Pass2(e, pl, lm1, ch1, m, lm, ch, n) && n < |pl.objs| && s in pl.slots
    ensures Pending(lm, ch, s) ==> Rd(lm, s) == Rd(lm1, s) && Rd(lm1, s) in pl.live
    ensures Pending(lm, ch, s) <==> Pending(lm1, ch1, s) && pl.objs[n].start <= Rd(lm1, s)
  {
    if Pending(lm, ch, s) {
      assert Pending(lm1, ch1, s) && pl.objs[n].start <= Rd(lm1, s) <= s;
      assert Rd(lm, s) == ResolvedCell(pl, lm1, ch1, s, pl.objs[n].start);
    }
  }

  lemma SettledCells(e: Model, pl: Plan, lm1: Mem, ch1: Chains, m: Mem, lm: Mem, ch: Chains, n: nat, lm': Mem)
    requires ValidModel(e) && WellPlanned(e, lm1, pl) && PointsBack(pl, lm1, ch1)
    requires Pass2(e, pl, lm1, ch1, m, lm, ch, n) && n < |pl.objs| && pl.objs[n].live
    requires var p := pl.objs[n].data;
      p in ch && forall a {:trigger Rd(lm', a)} :: Rd(lm', a) == if a in ch[p] then p - DeadBefore(pl.objs, n) else Rd(lm, a)
    ensures CellsAhead(pl, lm1, ch1, lm', pl.objs[n].start, pl.objs[n].End())
  {
    hide WellPlanned, Rep, AllMoved, PendingAhead, ValidModel;
    var o := pl.objs[n];
    var p := o.data;
    assert To(pl, p) == p - DeadBefore(pl.objs, n) by { WellPlannedIsGood(e, lm1, pl); PlannedTo(pl, n); }
    forall a {:trigger Rd(lm', a)} | a < pl.lo || o.start <= a ensures Rd(lm', a) == ResolvedCell(pl, lm1, ch1, a, o.End()) {
      assert Rd(lm, a) == ResolvedCell(pl, lm1, ch1, a, o.start);
      SettledCell(e, pl, lm1, ch1, m, lm, ch, n, a);
    }
  }

  lemma PlannedTo(pl: Plan, n: nat)
    requires GoodLive(pl) && n < |pl.objs| && pl.objs[n].live
    ensures To(pl, pl.objs[n].data) == pl.objs[n].data - DeadBefore(pl.objs, n)
  {
  }

  lemma SettledCell(e: Model, pl: Plan, lm1: Mem, ch1: Chains, m: Mem, lm: Mem, ch: Chains, n: nat, a: int)
    requires ValidModel(e) && WellPlanned(e, lm1, pl) && PointsBack(pl, lm1, ch1)
    requires Pass2(e, pl, lm1, ch1, m, lm, ch, n) && n < |pl.objs| && pl.objs[n].live && pl.objs[n].data in ch
    requires a < pl.lo || pl.objs[n].start <= a
    ensures ResolvedCell(pl, lm1, ch1, a, pl.objs[n].End()) ==
      if a in ch[pl.objs[n].data] then To(pl, pl.objs[n].data) else ResolvedCell(pl, lm1, ch1, a, pl.objs[n].start)
  {
    hide WellPlanned, Rep, AllMoved, To, ValidModel;
    var o := pl.objs[n];
    ChainAhead(e, pl, lm1, ch1, m, lm, ch, n);
    if Pending(lm1, ch1, a) {
      DataAhead(e, lm1, pl, n, Rd(lm1, a));
      PendingValue(e, pl, lm1, ch1, m, lm, ch, n, a);
    }
    if a in ch[o.data] { PendingValue(e, pl, lm1, ch1, m, lm, ch, n, a); }
  }

  /** The cells before a live object's data still read as the first pass left them. */
  lemma Pass2LiveReads(e: Model, pl: Plan, lm1: Mem, ch1: Chains, m: Mem, lm: Mem, ch: Chains, n: nat, f: int)
    requires ValidModel(e) && WellPlanned(e, lm1, pl) && PointsBack(pl, lm1, ch1)
    requires n < |pl.objs| && pl.objs[n].live && Rep(m, lm, ch, pl.slots) && CellsAhead(pl, lm1, ch1, lm, pl.objs[n].start, f)
    requires forall x {:trigger x in ch} :: x in ch ==> x in pl.live
    ensures var o := pl.objs[n];
      && Describes(e, lm, o)
      && (forall a {:trigger Rd(lm, a)} :: o.start <= a < o.data ==> Rd(lm, a) == Rd(lm1, a) && a !in pl.slots)
      && (forall a {:trigger Rd(m, a)} :: o.start <= a < o.data && a + HEADER_SIZE != o.data ==> Rd(m, a) == Rd(lm, a))
  {
    hide Describes, Inert, Rep, WellPlanned;
    var o := pl.objs[n];
    LiveObjectIsGood(e, lm1, pl, n);
    DescribedObject(e, lm1, pl, n);
    LiveHeaderNotForwarded(e, lm1, o);
    forall a {:trigger Rd(lm, a)} | o.start <= a < o.data ensures Rd(lm, a) == Rd(lm1, a) && a !in pl.slots {
      SlotOwner(e, lm1, pl, n, a);
      assert !Pending(lm1, ch1, a);
    }
    DescribesFrame(e, lm1, lm, o);
    forall a {:trigger Rd(m, a)} | o.start <= a < o.data && a + HEADER_SIZE != o.data ensures Rd(m, a) == Rd(lm, a) {
      if a + HEADER_SIZE in pl.live { HeaderOwner(e, lm1, pl, n, a + HEADER_SIZE); }
      assert Rd(lm, a) == Rd(lm1, a);
      ReadsPlainCell(m, lm, ch, pl.slots, a);
    }
  }

  /** The header has been unmarked and the object copied down by the gap. */
  lemma Pass2Move(e: Model, pl: Plan, lm1: Mem, ch1: Chains, m: Mem, lm: Mem, ch: Chains, n: nat, m': Mem, lm': Mem)
    requires ValidModel(e) && WellPlanned(e, lm1, pl) && PointsBack(pl, lm1, ch1)
    requires Pass2Settled(e, pl, lm1, ch1, m, lm, ch, n)
    requires var o := pl.objs[n]; var gap := DeadBefore(pl.objs, n);
      && (forall a {:trigger Rd(m', a)} :: Rd(m', a) == if o.start - gap <= a < o.End() then Rd(lm', a) else Rd(m, a))
      && (forall a {:trigger Rd(lm', a)} ::
            Rd(lm', a) == if o.start <= a + gap < o.End() then (if a + gap == o.data - HEADER_SIZE then ToggleMark(Rd(lm, a + gap)) else Rd(lm, a + gap))
                          else if a == o.data - HEADER_SIZE then ToggleMark(Rd(lm, a)) else Rd(lm, a))
    ensures Pass2(e, pl, lm1, ch1, m', lm', ch, n + 1)
  {
    hide WellPlanned, Rep, Pending, Moved, AllMoved, ValidModel, ToggleMark, DeadBefore, CellsAhead, PendingAhead, Spaced;
    var o := pl.objs[n];
    var from := o.start - DeadBefore(pl.objs, n);
    MoveBounds(e, pl, lm1, n);
    assert forall a {:trigger Rd(lm', a)} :: !(from <= a < o.End()) ==> Rd(lm', a) == Rd(lm, a);
    MovedCellsAhead(pl, lm1, ch1, lm, lm', o, from);
    AllMovedFrame(pl, lm1, ch1, lm, lm', n);
    HeaderKept(e, pl, lm1, ch1, m, lm, ch, n);
    MovedHere(pl, lm1, ch1, lm, lm', n);
    AllMovedNext(pl, lm1, ch1, lm', n);
    MoveKeepsRep(e, pl, lm1, ch1, m, lm, ch, n, m', lm');
  }

  lemma MoveBounds(e: Model, pl: Plan, lm: Mem, n: nat)
    requires ValidModel(e) && WellPlanned(e, lm, pl) && n < |pl.objs| && pl.objs[n].live
    ensures Tiled(pl.objs, pl.lo, pl.hi) && GoodObject(pl, n)
    ensures 0 <= DeadBefore(pl.objs, n) <= pl.objs[n].start - pl.lo
    ensures pl.objs[n].End() == Edge(pl.objs, pl.hi, n + 1)
  {
    hide Describes, Inert, LiveSlots, LiveData, Destined;
    NextEdge(e, lm, pl, n);
    LiveObjectIsGood(e, lm, pl, n);
    DeadBeforeBound(pl.objs, pl.lo, pl.hi, 0, n);
  }

  lemma HeaderKept(e: Model, pl: Plan, lm1: Mem, ch1: Chains, m: Mem, lm: Mem, ch: Chains, n: nat)
    requires ValidModel(e) && WellPlanned(e, lm1, pl) && PointsBack(pl, lm1, ch1)
    requires Pass2Settled(e, pl, lm1, ch1, m, lm, ch, n)
    ensures var headerp := pl.objs[n].data - HEADER_SIZE;
      Rd(lm, headerp) == Rd(lm1, headerp) && Describes(e, lm, pl.objs[n])
  {
    hide WellPlanned, Rep, AllMoved, ValidModel, CellsAhead, Describes;
    Pass2LiveReads(e, pl, lm1, ch1, m, lm, ch, n, pl.objs[n].End());
    DescribedShape(e, lm, pl.objs[n]);
  }

  lemma AllMovedNext(pl: Plan, lm1: Mem, ch1: Chains, lm: Mem, n: nat)
    requires n < |pl.objs| && AllMoved(pl, lm1, ch1, lm, n) && Moved(pl, lm1, ch1, lm, n)
    ensures AllMoved(pl, lm1, ch1, lm, n + 1)
  {
    hide Moved;
  }

  lemma MovedCellsAhead(pl: Plan, lm1: Mem, ch1: Chains, lm: Mem, lm': Mem, o: Object, from: int)
    requires CellsAhead(pl, lm1, ch1, lm, o.start, o.End()) && pl.lo <= from && o.start < o.End()
    requires forall a {:trigger Rd(lm', a)} :: !(from <= a < o.End()) ==> Rd(lm', a) == Rd(lm, a)
    ensures CellsAhead(pl, lm1, ch1, lm', o.End(), o.End())
  {
    hide ResolvedCell;
  }

  lemma MovedHere(pl: Plan, lm1: Mem, ch1: Chains, lm: Mem, lm': Mem, n: nat)
    requires n < |pl.objs| && CellsAhead(pl, lm1, ch1, lm, pl.objs[n].start, pl.objs[n].End())
    requires var o := pl.objs[n]; var gap := DeadBefore(pl.objs, n);
      && o.start <= o.data - HEADER_SIZE < o.End()
      && Rd(lm, o.data - HEADER_SIZE) == Rd(lm1, o.data - HEADER_SIZE)
      && (forall a {:trigger Rd(lm', a)} :: o.start <= a + gap < o.End() ==>
            Rd(lm', a) == if a + gap == o.data - HEADER_SIZE then ToggleMark(Rd(lm, a + gap)) else Rd(lm, a + gap))
    ensures Moved(pl, lm1, ch1, lm', n)
  {
    hide ResolvedCell, ToggleMark, DeadBefore;
    var o := pl.objs[n];
    forall a {:trigger FinalCell(pl, lm1, ch1, o, a)} | o.start <= a < o.End()
      ensures Rd(lm', a - DeadBefore(pl.objs, n)) == FinalCell(pl, lm1, ch1, o, a)
    {
      assert Rd(lm', a - DeadBefore(pl.objs, n)) == if a == o.data - HEADER_SIZE then ToggleMark(Rd(lm, a)) else Rd(lm, a);
    }
  }

  lemma MoveKeepsRep(e: Model, pl: Plan, lm1: Mem, ch1: Chains, m: Mem, lm: Mem, ch: Chains, n: nat, m': Mem, lm': Mem)
    requires ValidModel(e) && WellPlanned(e, lm1, pl) && PointsBack(pl, lm1, ch1)
    requires Pass2Settled(e, pl, lm1, ch1, m, lm, ch, n)
    requires var o := pl.objs[n]; var from := o.start - DeadBefore(pl.objs, n);
      && (forall a {:trigger Rd(m', a)} :: Rd(m', a) == if from <= a < o.End() then Rd(lm', a) else Rd(m, a))
      && (forall a {:trigger Rd(lm', a)} :: !(from <= a < o.End()) ==> Rd(lm', a) == Rd(lm, a))
    ensures Rep(m', lm', ch, pl.slots)
    ensures PendingAhead(pl, lm1, ch1, lm', ch, pl.objs[n].End())
  {
    hide WellPlanned, Rep, Pending, AllMoved, CellsAhead, ValidModel;
    var o := pl.objs[n];
    var from := o.start - DeadBefore(pl.objs, n);
    forall s {:trigger s in pl.slots} | s in pl.slots && from <= s < o.End() ensures !Pending(lm, ch, s) {
      assert Pending(lm, ch, s) <==> Pending(lm1, ch1, s) && o.End() <= Rd(lm1, s);
    }
    forall x {:trigger x in ch} | x in ch ensures !(from <= x - HEADER_SIZE < o.End()) {
      DataAhead(e, lm1, pl, n, x);
    }
    RewriteKeepsRep(m, lm, ch, pl.slots, m', lm', from, o.End());
  }

  /** Around object n nothing is threaded, so memory is what it should be. */
  lemma ObjectInPlace(e: Model, pl: Plan, lm1: Mem, ch1: Chains, m: Mem, lm: Mem, ch: Chains, n: nat, a: int)
    requires ValidModel(e) && WellPlanned(e, lm1, pl) && PointsBack(pl, lm1, ch1)
    requires Pass2Settled(e, pl, lm1, ch1, m, lm, ch, n)
    requires a < pl.objs[n].End()
    ensures a in pl.slots && pl.lo <= a ==> Rd(m, a) == Rd(lm, a)
    ensures a !in pl.slots ==> Rd(m, a) == Rd(lm, a)
  {
    hide WellPlanned, AllMoved, CellsAhead, ValidModel, Pending;
    if a + HEADER_SIZE in ch { DataAhead(e, lm1, pl, n, a + HEADER_SIZE); }
    if a !in pl.slots {
      ReadsPlainCell(m, lm, ch, pl.slots, a);
    } else {
      assert Pending(lm, ch, a) <==> Pending(lm1, ch1, a) && pl.objs[n].End() <= Rd(lm1, a);
    }
  }

  /** The header is unmarked where it stands and the object then copied down. */
  ghost function Slid(m: Mem, o: Object, gap: nat, header: int): (r: Mem)
    requires 0 < o.size
    ensures forall a {:trigger Rd(r, a)} ::
      Rd(r, a) == if o.start <= a + gap < o.End() then (if a + gap == o.data - HEADER_SIZE then header else Rd(m, a + gap))
                  else if a == o.data - HEADER_SIZE then header else Rd(m, a)
  {
    var unmarked := m[o.data - HEADER_SIZE := header];
    assert forall a {:trigger Rd(unmarked, a)} :: Rd(unmarked, a) == if a == o.data - HEADER_SIZE then header else Rd(m, a);
    CopyCells(unmarked, o.start - gap, gap, o.size)
  }

  lemma Pass2Slide(e: Model, pl: Plan, lm1: Mem, ch1: Chains, m: Mem, lm: Mem, ch: Chains, n: nat)
    requires ValidModel(e) && WellPlanned(e, lm1, pl) && PointsBack(pl, lm1, ch1)
    requires Pass2Settled(e, pl, lm1, ch1, m, lm, ch, n)
    requires 0 <= DeadBefore(pl.objs, n) && 0 < pl.objs[n].size
    ensures var o := pl.objs[n]; var gap := DeadBefore(pl.objs, n); var h := ToggleMark(Rd(lm, o.data - HEADER_SIZE));
      Pass2(e, pl, lm1, ch1, Slid(m, o, gap, h), Slid(lm, o, gap, h), ch, n + 1)
  {
    hide WellPlanned, Rep, Pending, AllMoved, CellsAhead, PendingAhead, ValidModel, ToggleMark, DeadBefore, Slid, Pass2, Spaced, Tiled;
    var o := pl.objs[n];
    var gap := DeadBefore(pl.objs, n);
    MoveBounds(e, pl, lm1, n);
    forall a {:trigger Rd(m, a)} | o.start - gap <= a < o.End() ensures Rd(m, a) == Rd(lm, a) {
      ObjectInPlace(e, pl, lm1, ch1, m, lm, ch, n, a);
    }
    var h := ToggleMark(Rd(lm, o.data - HEADER_SIZE));
    SlidAgrees(m, lm, o, gap, h);
    Pass2Move(e, pl, lm1, ch1, m, lm, ch, n, Slid(m, o, gap, h), Slid(lm, o, gap, h));
  }

  lemma SlidAgrees(m: Mem, lm: Mem, o: Object, gap: nat, h: int)
    requires 0 < o.size && o.start <= o.data - HEADER_SIZE < o.End()
    requires forall a {:trigger Rd(m, a)} :: o.start - gap <= a < o.End() ==> Rd(m, a) == Rd(lm, a)
    ensures var m', lm' := Slid(m, o, gap, h), Slid(lm, o, gap, h);
      forall a {:trigger Rd(m', a)} :: Rd(m', a) == if o.start - gap <= a < o.End() then Rd(lm', a) else Rd(m, a)
  {
    hide Slid;
    var m', lm' := Slid(m, o, gap, h), Slid(lm, o, gap, h);
    forall a {:trigger Rd(m', a)} ensures Rd(m', a) == if o.start - gap <= a < o.End() then Rd(lm', a) else Rd(m, a) {
      assert o.start <= a + gap < o.End() ==> Rd(m, a + gap) == Rd(lm, a + gap);
      assert o.start - gap <= a < o.End() ==> Rd(m, a) == Rd(lm, a);
    }
  }
}
