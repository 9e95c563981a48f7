/** What a finished compaction guarantees, stated against the heap it started
    from. */
module Compacted {
  import opened Memory
  import opened Objects
  import opened Layout
  import opened HeapObjects
  import opened Threading
  import opened CompactionPlan
  import opened ForwardPass
  import opened BackwardPass

  /** A pointer to a live object becomes the object's new address, one to a
      lifted object leads to where it was lifted, any other word stays. */
  ghost function Redirected(pl: Plan, w: int): int {
    if w in pl.live then To(pl, w) else Fixed(pl, w)
  }

  /** The word of a live object after the collection, by its old address. */
  ghost function NewWord(pl: Plan, m0: Mem, o: Object, a: int): int {
    if a == o.data - HEADER_SIZE then ToggleMark(Rd(m0, a))
    else if a in pl.slots then Redirected(pl, Rd(m0, a))
    else Rd(m0, a)
  }

  /** Every live object has moved down by the dead bytes below it, unmarked and
      with its pointers redirected; so have the roots; nothing else outside the
      heap has changed. */
  ghost predicate IsCompacted(pl: Plan, m0: Mem, m: Mem) {
    && (forall i, a {:trigger NewWord(pl, m0, pl.objs[i], a)} ::
          0 <= i < |pl.objs| && pl.objs[i].live && pl.objs[i].start <= a < pl.objs[i].End() ==>
          Rd(m, a - DeadBefore(pl.objs, i)) == NewWord(pl, m0, pl.objs[i], a))
    && (forall s {:trigger s in pl.roots} :: s in pl.roots ==> Rd(m, s) == Redirected(pl, Rd(m0, s)))
    && (forall a {:trigger Rd(m, a)} :: !(pl.lo <= a < pl.hi) && a !in pl.roots ==> Rd(m, a) == Rd(m0, a))
  }

  lemma PointsBackAfterPass1(e: Model, pl: Plan, lm0: Mem, m: Mem, lm: Mem, ch: Chains, done: seq<Object>)
    requires ValidModel(e) && WellPlanned(e, lm0, pl) && FixedApart(pl) && Pass1Done(e, pl, lm0, m, lm, ch, done)
    ensures PointsBack(pl.(objs := done), lm, ch)
  {
    hide WellPlanned, CellsKept;
    WellPlannedIsGood(e, lm0, pl);
    forall s {:trigger Pending(lm, ch, s)} | Pending(lm, ch, s)
      ensures s in pl.slots && pl.lo <= s < pl.hi && Rd(lm, s) in pl.live && Rd(lm, s) <= s
    {
      assert ChainOk(m, lm, Rd(lm, s), ch[Rd(lm, s)], pl.slots);
      assert SlotState(pl, lm0, lm, ch, s, pl.hi, pl.hi);
    }
  }

  /** The slots that the first pass left alone are exactly those the second
      pass updates. */
  lemma ResolvedSlot(pl: Plan, lm0: Mem, lm: Mem, ch: Chains, s: int, f: int)
    requires GoodSlots(pl) && GoodLive(pl) && FixedApart(pl) && s in pl.slots
    requires SlotState(pl, lm0, lm, ch, s, pl.hi, pl.hi)
    requires s !in pl.roots ==> s < f
    ensures ResolvedCell(pl, lm, ch, s, f) == Redirected(pl, Rd(lm0, s))
  {
    hide Pending;
  }

  lemma CompactionIsCorrect(e: Model, pl: Plan, lm0: Mem, m1: Mem, lm1: Mem, ch1: Chains, done: seq<Object>, m: Mem, lm: Mem, ch: Chains)
    requires ValidModel(e) && WellPlanned(e, lm0, pl) && FixedApart(pl) && Pass1Done(e, pl, lm0, m1, lm1, ch1, done)
    requires Pass2(e, pl.(objs := done), lm1, ch1, m, lm, ch, |done|)
    ensures IsCompacted(pl, lm0, m)
  {
    hide WellPlanned, Describes, Rep, NewWord, Pass1Done, Pass2;
    NothingThreadedAtEnd(e, pl, lm0, m1, lm1, ch1, done, m, lm, ch);
    forall i, a {:trigger NewWord(pl, lm0, pl.objs[i], a)}
      | 0 <= i < |pl.objs| && pl.objs[i].live && pl.objs[i].start <= a < pl.objs[i].End()
      ensures Rd(m, a - DeadBefore(pl.objs, i)) == NewWord(pl, lm0, pl.objs[i], a)
    {
      MovedWord(e, pl, lm0, m1, lm1, ch1, done, m, lm, ch, i, a);
    }
    forall a {:trigger Rd(m, a)} | !(pl.lo <= a < pl.hi)
      ensures Rd(m, a) == if a in pl.roots then Redirected(pl, Rd(lm0, a)) else Rd(lm0, a)
    {
      OutsideWord(e, pl, lm0, m1, lm1, ch1, done, m, lm, ch, a);
    }
    RootsOutside(e, lm0, pl);
  }

  lemma RootsOutside(e: Model, lm0: Mem, pl: Plan)
    requires WellPlanned(e, lm0, pl)
    ensures forall s {:trigger s in pl.roots} :: s in pl.roots ==> !(pl.lo <= s < pl.hi)
  {
  }

  lemma NothingThreadedAtEnd(e: Model, pl: Plan, lm0: Mem, m1: Mem, lm1: Mem, ch1: Chains, done: seq<Object>, m: Mem, lm: Mem, ch: Chains)
    requires ValidModel(e) && WellPlanned(e, lm0, pl) && FixedApart(pl) && Pass1Done(e, pl, lm0, m1, lm1, ch1, done)
    requires Pass2(e, pl.(objs := done), lm1, ch1, m, lm, ch, |done|)
    ensures forall a {:trigger Rd(m, a)} :: Rd(m, a) == Rd(lm, a)
  {
    hide WellPlanned, CellsAhead, AllMoved;
    WellPlannedIsGood(e, lm0, pl);
    assert forall x {:trigger x in ch} :: x !in ch;
  }

  lemma OutsideWord(e: Model, pl: Plan, lm0: Mem, m1: Mem, lm1: Mem, ch1: Chains, done: seq<Object>, m: Mem, lm: Mem, ch: Chains, a: int)
    requires ValidModel(e) && WellPlanned(e, lm0, pl) && FixedApart(pl) && Pass1Done(e, pl, lm0, m1, lm1, ch1, done)
    requires Pass2(e, pl.(objs := done), lm1, ch1, m, lm, ch, |done|)
    requires !(pl.lo <= a < pl.hi)
    ensures Rd(lm, a) == if a in pl.roots then Redirected(pl, Rd(lm0, a)) else Rd(lm0, a)
  {
    hide WellPlanned, AllMoved, PendingAhead, Rep;
    WellPlannedIsGood(e, lm0, pl);
    PointsBackAfterPass1(e, pl, lm0, m1, lm1, ch1, done);
    hide Pending;
    assert Rd(lm, a) == ResolvedCell(pl.(objs := done), lm1, ch1, a, pl.hi);
    if a in pl.roots {
      assert SlotState(pl, lm0, lm1, ch1, a, pl.hi, pl.hi);
      ResolvedSlot(pl, lm0, lm1, ch1, a, pl.hi);
    }
  }

  lemma MovedWord(e: Model, pl: Plan, lm0: Mem, m1: Mem, lm1: Mem, ch1: Chains, done: seq<Object>, m: Mem, lm: Mem, ch: Chains, i: nat, a: int)
    requires ValidModel(e) && WellPlanned(e, lm0, pl) && FixedApart(pl) && Pass1Done(e, pl, lm0, m1, lm1, ch1, done)
    requires Pass2(e, pl.(objs := done), lm1, ch1, m, lm, ch, |done|)
    requires i < |pl.objs| && pl.objs[i].live && pl.objs[i].start <= a < pl.objs[i].End()
    ensures Rd(lm, a - DeadBefore(pl.objs, i)) == NewWord(pl, lm0, pl.objs[i], a)
  {
    hide WellPlanned, Rep, Pending, PendingAhead, CellsAhead, ToggleMark, DeadBefore, FinalCell;
    var o := pl.objs[i];
    assert o in pl.objs && o in done;
    var k :| 0 <= k < |done| && done[k] == o;
    SameGap(e, pl, lm0, lm1, done, i, k);
    assert Moved(pl.(objs := done), lm1, ch1, lm, k);
    assert Rd(lm, a - DeadBefore(done, k)) == FinalCell(pl.(objs := done), lm1, ch1, o, a);
    FinalWord(e, pl, lm0, m1, lm1, ch1, done, i, a);
  }

  lemma SameGap(e: Model, pl: Plan, lm0: Mem, lm1: Mem, done: seq<Object>, i: nat, k: nat)
    requires WellPlanned(e, lm0, pl) && WellPlanned(e, lm1, pl.(objs := done))
    requires i < |pl.objs| && k < |done| && done[k] == pl.objs[i] && pl.objs[i].live
    ensures DeadBefore(done, k) == DeadBefore(pl.objs, i)
  {
    hide Tiled, Describes, LiveData, LiveSlots, Inert, DeadBefore;
  }

  lemma FinalWord(e: Model, pl: Plan, lm0: Mem, m1: Mem, lm1: Mem, ch1: Chains, done: seq<Object>, i: nat, a: int)
    requires ValidModel(e) && WellPlanned(e, lm0, pl) && FixedApart(pl) && Pass1Done(e, pl, lm0, m1, lm1, ch1, done)
    requires i < |pl.objs| && pl.objs[i].live && pl.objs[i].start <= a < pl.objs[i].End()
    ensures FinalCell(pl.(objs := done), lm1, ch1, pl.objs[i], a) == NewWord(pl, lm0, pl.objs[i], a)
  {
    hide WellPlanned, Rep, ToggleMark, DeadBefore, CellsKept;
    var o := pl.objs[i];
    WellPlannedIsGood(e, lm0, pl);
    LiveObjectIsGood(e, lm0, pl, i);
    PointsBackAfterPass1(e, pl, lm0, m1, lm1, ch1, done);
    hide Pending;
    if a in pl.slots {
      assert SlotState(pl, lm0, lm1, ch1, a, pl.hi, pl.hi);
      ResolvedSlot(pl, lm0, lm1, ch1, a, o.End());
      assert a in o.slots;
    } else {
      KeptCell(pl, lm0, lm1, pl.hi, i, a);
    }
  }

  lemma KeptCell(pl: Plan, lm0: Mem, lm: Mem, from: int, i: nat, a: int)
    requires CellsKept(pl, lm0, lm, from) && i < |pl.objs| && pl.objs[i].live
    requires pl.objs[i].start <= a < pl.objs[i].End() && a !in pl.slots
    ensures Rd(lm, a) == Rd(lm0, a)
  {
  }

  /** The roots in done have been fixed and threaded, and nothing else has
      changed. */
  ghost predicate RootsThreaded(pl: Plan, lm0: Mem, lm: Mem, ch: Chains, done: set<int>) {
    && (forall s {:trigger Pending(lm, ch, s)} {:trigger s in pl.slots} ::
          s in pl.slots ==> (Pending(lm, ch, s) <==> s in done && Rd(lm0, s) in pl.live))
    && (forall a {:trigger Rd(lm, a)} :: Rd(lm, a) == if a in done then Fixed(pl, Rd(lm0, a)) else Rd(lm0, a))
  }

  lemma EmptyChains(e: Model, pl: Plan, lm0: Mem) returns (ch: Chains)
    requires ValidModel(e) && WellPlanned(e, lm0, pl)
    ensures Rep(lm0, lm0, ch, pl.slots) && ch.Keys == pl.live && RootsThreaded(pl, lm0, lm0, ch, {})
  {
    hide WellPlanned, Describes, Slots, Spaced;
    ch := map x | x in pl.live :: [];
    WellPlannedIsGood(e, lm0, pl);
    forall x | x in ch ensures ChainOk(lm0, lm0, x, ch[x], pl.slots) {
      HeaderInHeap(e, lm0, pl, x);
      var j := OwnerOfData(e, lm0, pl, x);
      DescribedObject(e, lm0, pl, j);
      LiveHeaderNotForwarded(e, lm0, pl.objs[j]);
    }
  }

  lemma AllRootsThreaded(pl: Plan, lm0: Mem, lm: Mem, ch: Chains)
    requires GoodSlots(pl) && GoodLive(pl) && FixedApart(pl) && RootsThreaded(pl, lm0, lm, ch, pl.roots)
    ensures SlotStates(pl, lm0, lm, ch, pl.lo, pl.lo)
    ensures forall a {:trigger Rd(lm, a)} :: a !in pl.slots ==> Rd(lm, a) == Rd(lm0, a)
  {
    hide Pending;
    forall s {:trigger Rd(lm, s)} | s in pl.slots ensures SlotState(pl, lm0, lm, ch, s, pl.lo, pl.lo) {
      assert Pending(lm, ch, s) <==> s in pl.roots && Rd(lm0, s) in pl.live;
    }
  }

  lemma RootThreaded(pl: Plan, lm0: Mem, lm: Mem, ch: Chains, done: set<int>, s: int, lm': Mem, ch': Chains)
    requires RootsThreaded(pl, lm0, lm, ch, done) && FixedApart(pl) && s !in done && ch.Keys == pl.live
    requires ch' == if Rd(lm, s) in ch then ch[Rd(lm, s) := [s] + ch[Rd(lm, s)]] else ch
    requires forall a {:trigger Rd(lm', a)} :: Rd(lm', a) == if a == s then Fixed(pl, Rd(lm, a)) else Rd(lm, a)
    ensures RootsThreaded(pl, lm0, lm', ch', done + {s}) && ch'.Keys == pl.live
  {
    forall t {:trigger Pending(lm', ch', t)} | t in pl.slots
      ensures Pending(lm', ch', t) <==> t in done + {s} && Rd(lm0, t) in pl.live
    {
      ThreadedPending(lm, ch, s, lm', ch', t);
      assert Pending(lm, ch, t) <==> t in done && Rd(lm0, t) in pl.live;
    }
  }

  // ---------------------------------------------------------- the heap afterwards

  /** The live objects at their new places. */
  ghost function MovedObjects(objs: seq<Object>, n: nat): seq<Object>
    requires n <= |objs|
  {
    if n == 0 then []
    else MovedObjects(objs, n - 1) + if objs[n - 1].live then [MovedObject(objs[n - 1], DeadBefore(objs, n - 1))] else []
  }

  ghost function MovedObject(o: Object, gap: int): Object {
    Object(o.start - gap, o.data - gap, o.size, seq(|o.slots|, k requires 0 <= k < |o.slots| => o.slots[k] - gap), false)
  }

  lemma {:induction false} MovedObjectsTile(objs: seq<Object>, lo: int, hi: int, n: nat)
    requires Tiled(objs, lo, hi) && n <= |objs|
    ensures Tiled(MovedObjects(objs, n), lo, Edge(objs, hi, n) - DeadBefore(objs, n))
  {
    hide Tiled, Edge;
    if n == 0 {
      TiledFrom(objs, lo, hi);
      assert MovedObjects(objs, n) == [] && DeadBefore(objs, n) == 0;
    } else {
      MovedObjectsTile(objs, lo, hi, n - 1);
      TiledAt(objs, lo, hi, n - 1);
      if objs[n - 1].live {
        var o := MovedObject(objs[n - 1], DeadBefore(objs, n - 1));
        TiledOne(o);
        TiledAppend(MovedObjects(objs, n - 1), lo, o.start, [o], o.End());
      } else {
        assert MovedObjects(objs, n) == MovedObjects(objs, n - 1);
      }
    }
  }

  lemma TiledFrom(objs: seq<Object>, lo: int, hi: int)
    requires Tiled(objs, lo, hi)
    ensures Tiled([], lo, lo) && Edge(objs, hi, 0) == lo
  {
  }

  lemma TiledAt(objs: seq<Object>, lo: int, hi: int, i: nat)
    requires Tiled(objs, lo, hi) && i < |objs|
    ensures Edge(objs, hi, i) == objs[i].start && Edge(objs, hi, i + 1) == objs[i].End() && 0 < objs[i].size
  {
  }

  lemma TiledOne(o: Object)
    requires 0 < o.size
    ensures Tiled([o], o.start, o.End())
  {
  }

  /** Each live object reads, at its new place, as an unmarked object of its
      old type and size whose pointers lead where their old targets went. */
  lemma CompactedObject(e: Model, pl: Plan, m0: Mem, m: Mem, i: nat)
    requires ValidModel(e) && WellPlanned(e, m0, pl) && IsCompacted(pl, m0, m)
    requires i < |pl.objs| && pl.objs[i].live
    ensures var o := pl.objs[i]; var moved := MovedObject(o, DeadBefore(pl.objs, i));
      && ReadsUnmarked(e, m0, m, o, moved)
      && (forall k :: 0 <= k < |o.slots| ==> Rd(m, moved.slots[k]) == Redirected(pl, Rd(m0, o.slots[k])))
  {
    hide WellPlanned, Describes, ToggleMark, DeadBefore, IsCompacted, ReadsUnmarked, Redirected;
    var o := pl.objs[i];
    var gap := DeadBefore(pl.objs, i);
    LiveObjectIsGood(e, m0, pl, i);
    WellPlannedIsGood(e, m0, pl);
    DescribedObject(e, m0, pl, i);
    DescribedShape(e, m0, o);
    forall a {:trigger Rd(m0, a)} | o.start <= a < o.data
      ensures Rd(m, a - gap) == if a == o.data - HEADER_SIZE then ToggleMark(Rd(m0, a)) else Rd(m0, a)
    {
      CompactedWord(pl, m0, m, i, a);
      SlotOwner(e, m0, pl, i, a);
    }
    MovedReads(e, m0, m, o, gap);
    forall k | 0 <= k < |o.slots| ensures Rd(m, o.slots[k] - gap) == Redirected(pl, Rd(m0, o.slots[k])) {
      assert o.slots[k] in o.slots;
      CompactedWord(pl, m0, m, i, o.slots[k]);
    }
  }

  lemma CompactedWord(pl: Plan, m0: Mem, m: Mem, i: nat, a: int)
    requires IsCompacted(pl, m0, m) && i < |pl.objs| && pl.objs[i].live && pl.objs[i].start <= a < pl.objs[i].End()
    ensures Rd(m, a - DeadBefore(pl.objs, i)) == NewWord(pl, m0, pl.objs[i], a)
  {
  }

  lemma CompactedCell(e: Model, pl: Plan, m0: Mem, m: Mem, i: nat, a: int)
    requires ValidModel(e) && WellPlanned(e, m0, pl) && IsCompacted(pl, m0, m)
    requires i < |pl.objs| && pl.objs[i].live && pl.objs[i].start <= a < pl.objs[i].End()
    ensures Rd(m, a - DeadBefore(pl.objs, i)) ==
      if a == pl.objs[i].data - HEADER_SIZE then ToggleMark(Rd(m0, a))
      else if a in pl.objs[i].slots then Redirected(pl, Rd(m0, a))
      else Rd(m0, a)
  {
    hide WellPlanned, IsCompacted, DeadBefore, Redirected, ToggleMark;
    CompactedWord(pl, m0, m, i, a);
    SlotOwner(e, m0, pl, i, a);
  }

  /** o in m0 and moved in m agree on everything but the place and the mark. */
  ghost predicate ReadsUnmarked(e: Model, m0: Mem, m: Mem, o: Object, moved: Object) {
    var h := Rd(m0, o.data - HEADER_SIZE);
    var h' := Rd(m, moved.data - HEADER_SIZE);
    && AdvanceToObjectData(m, moved.start) == moved.data
    && h' == ToggleMark(h) && IsHeader(h') && !IsMarked(h') && TypeOf(e, h') == TypeOf(e, h)
    && SizeofObject(e, m, moved.data) == o.size
    && (TypeOf(e, h).tag == ArrayTag ==> Rd(m, moved.data - 16) == Rd(m0, o.data - 16))
  }

  lemma MovedReads(e: Model, m0: Mem, m: Mem, o: Object, gap: int)
    requires Describes(e, m0, o) && o.live
    requires forall a {:trigger Rd(m0, a)} :: o.start <= a < o.data ==>
      Rd(m, a - gap) == if a == o.data - HEADER_SIZE then ToggleMark(Rd(m0, a)) else Rd(m0, a)
    ensures ReadsUnmarked(e, m0, m, o, MovedObject(o, gap))
  {
    hide ToggleMark, ArrayNoHeader, IsAligned, Slots, TypeIndex;
    var h := Rd(m0, o.data - HEADER_SIZE);
    ToggleMarkKeepsTheRest(h);
    assert Rd(m, o.data - HEADER_SIZE - gap) == ToggleMark(h);
    assert Rd(m, o.start - gap) == if o.start == o.data - HEADER_SIZE then ToggleMark(h) else Rd(m0, o.start);
    assert ToggleMark(h) != FORWARDED && ToggleMark(h) != 0;
    assert TypeOf(e, h).tag == ArrayTag ==> Rd(m, o.data - 16 - gap) == Rd(m0, o.data - 16);
  }
}
