/** What a compaction is going to do, stated before it starts: which objects
    survive, where they go and which slots have to follow them. */
module CompactionPlan {
  import opened Memory
  import opened Objects
  import opened Layout
  import opened HeapObjects
  import opened Threading

  /** Bytes of the dead objects among the first n. */
  ghost function DeadBefore(objs: seq<Object>, n: nat): int
    requires n <= |objs|
  {
    if n == 0 then 0
    else DeadBefore(objs, n - 1) + if objs[n - 1].live then 0 else objs[n - 1].size
  }

  /** objs tile [lo, hi). Pointers sit in slots, of which roots lie outside the
      heap; live are the objects that stay and to where each of them goes; fwd
      says where those dead objects are that have been lifted. */
  datatype Plan = Plan(
    objs: seq<Object>, lo: int, hi: int,
    roots: set<int>, slots: set<int>, live: set<int>, to: map<int, int>, fwd: map<int, int>)

  ghost predicate GoodSlots(pl: Plan) {
    && (forall s :: s in pl.slots ==> IsObjptr(s) && s != 0)
    && (forall s :: s in pl.slots ==> s in pl.roots || pl.lo <= s < pl.hi)
    && (forall s :: s in pl.roots ==> s in pl.slots && !(pl.lo <= s < pl.hi))
    && (forall i, s {:trigger pl.objs[i], s in pl.slots} ::
          0 <= i < |pl.objs| && pl.objs[i].start <= s < pl.objs[i].End() ==> (s in pl.slots <==> s in pl.objs[i].slots))
  }

  ghost predicate GoodLive(pl: Plan) {
    && pl.to.Keys == pl.live
    && (forall x :: x in pl.live ==> pl.lo <= x < pl.hi)
    && (forall i, x {:trigger pl.objs[i], x in pl.live} ::
          0 <= i < |pl.objs| && pl.objs[i].start <= x < pl.objs[i].End() ==> (x in pl.live <==> pl.objs[i].live && x == pl.objs[i].data))
    && (forall i {:trigger pl.objs[i]} :: 0 <= i < |pl.objs| && pl.objs[i].live ==>
          pl.objs[i].data in pl.live && pl.to[pl.objs[i].data] == pl.objs[i].data - DeadBefore(pl.objs, i))
  }

  ghost function LiveData(objs: seq<Object>): set<int> {
    set o | o in objs && o.live :: o.data
  }

  ghost function LiveSlots(objs: seq<Object>): set<int> {
    set o, s | o in objs && o.live && s in o.slots :: s
  }

  /** A dead object holds no slot, nor does the object it was forwarded to. */
  ghost predicate Inert(lm: Mem, pl: Plan, o: Object) {
    && (forall a {:trigger a in pl.slots} :: a in pl.slots ==> !(o.start <= a < o.End()))
    && (forall a {:trigger ForwardingCell(lm, o, a)} :: ForwardingCell(lm, o, a) ==> !(pl.lo <= a < pl.hi) && a !in pl.slots)
  }

  ghost predicate Destined(objs: seq<Object>, to: map<int, int>) {
    forall i {:trigger objs[i]} :: 0 <= i < |objs| && objs[i].live ==>
      objs[i].data in to && to[objs[i].data] == objs[i].data - DeadBefore(objs, i)
  }

  ghost predicate WellPlanned(e: Model, lm: Mem, pl: Plan) {
    && Tiled(pl.objs, pl.lo, pl.hi)
    && (forall o {:trigger o in pl.objs} :: o in pl.objs ==> Describes(e, lm, o) && (!o.live ==> Inert(lm, pl, o)))
    && (forall s :: s in pl.roots ==> !(pl.lo <= s < pl.hi) && IsObjptr(s) && s != 0)
    && 0 < pl.lo
    && pl.slots == pl.roots + LiveSlots(pl.objs)
    && pl.live == LiveData(pl.objs) == pl.to.Keys
    && Destined(pl.objs, pl.to)
  }

  lemma LiveObjectIsGood(e: Model, lm: Mem, pl: Plan, i: nat)
    requires ValidModel(e) && WellPlanned(e, lm, pl) && i < |pl.objs| && pl.objs[i].live
    ensures GoodObject(pl, i)
  {
    hide Describes, Inert, LiveSlots, LiveData, Destined, Spaced;
    var o := pl.objs[i];
    assert o in pl.objs;
    TiledRange(pl.objs, pl.lo, pl.hi, i);
    LiveShape(e, lm, o);
  }

  lemma LiveShape(e: Model, lm: Mem, o: Object)
    requires Describes(e, lm, o) && o.live
    ensures o.start + HEADER_SIZE <= o.data < o.End() && Spaced(o.slots, o.data, o.End())
  {
    hide ArrayNoHeader, Slots, IsAligned, IsMarked, TypeIndex, Spaced, SizeByType;
    var t := TypeOf(e, Rd(lm, o.data - HEADER_SIZE));
    SlotsSpaced(e, t, o.data, Length(Rd(lm, o.data - 16)), Length(Rd(lm, o.data)));
    SizeCoversHeader(e, t, Length(Rd(lm, o.data - 16)), Length(Rd(lm, o.data)));
  }

  lemma SizeCoversHeader(e: Model, t: ObjectType, len: nat, gap: nat)
    requires ValidType(e, t) && t.tag in {NormalTag, WeakTag, ArrayTag}
    ensures HeaderBytes(t) + OBJPTR_SIZE <= SizeByType(e, t, len, gap)
  {
    ArrayNoHeaderCovers(e, len, t);
  }

  lemma OwnerOfSlot(e: Model, lm: Mem, pl: Plan, s: int) returns (j: nat)
    requires ValidModel(e) && WellPlanned(e, lm, pl) && s in pl.slots && s !in pl.roots
    ensures j < |pl.objs| && pl.objs[j].live && s in pl.objs[j].slots && GoodObject(pl, j)
    ensures pl.objs[j].start <= s < pl.objs[j].End() && IsObjptr(s) && 0 < s
  {
    hide Describes, Inert, Destined, Spaced;
    var o :| o in pl.objs && o.live && s in o.slots;
    j :| 0 <= j < |pl.objs| && pl.objs[j] == o;
    LiveObjectIsGood(e, lm, pl, j);
    SlotInside(o, s);
  }

  lemma SlotInside(o: Object, s: int)
    requires Spaced(o.slots, o.data, o.End()) && s in o.slots
    ensures o.data <= s < o.End() && IsObjptr(s)
  {
  }

  lemma OwnerOfData(e: Model, lm: Mem, pl: Plan, x: int) returns (j: nat)
    requires ValidModel(e) && WellPlanned(e, lm, pl) && x in pl.live
    ensures j < |pl.objs| && pl.objs[j].live && x == pl.objs[j].data && GoodObject(pl, j)
  {
    hide Describes, Inert, Destined, Spaced;
    var o :| o in pl.objs && o.live && x == o.data;
    j :| 0 <= j < |pl.objs| && pl.objs[j] == o;
    LiveObjectIsGood(e, lm, pl, j);
  }

  lemma WellPlannedIsGood(e: Model, lm: Mem, pl: Plan)
    requires ValidModel(e) && WellPlanned(e, lm, pl)
    ensures GoodSlots(pl) && GoodLive(pl)
  {
    hide Describes, Inert, LiveSlots, LiveData, Spaced;
    forall s | s in pl.slots && s !in pl.roots ensures IsObjptr(s) && 0 < s && pl.lo <= s < pl.hi {
      var j := OwnerOfSlot(e, lm, pl, s);
    }
    forall i, s {:trigger pl.objs[i], s in pl.slots} | 0 <= i < |pl.objs| && pl.objs[i].start <= s < pl.objs[i].End()
      ensures s in pl.slots <==> s in pl.objs[i].slots
    {
      SlotOwner(e, lm, pl, i, s);
    }
    forall x | x in pl.live ensures pl.lo <= x < pl.hi {
      var j := OwnerOfData(e, lm, pl, x);
    }
    forall i, x {:trigger pl.objs[i], x in pl.live} | 0 <= i < |pl.objs| && pl.objs[i].start <= x < pl.objs[i].End()
      ensures x in pl.live <==> pl.objs[i].live && x == pl.objs[i].data
    {
      DataOwner(e, lm, pl, i, x);
    }
    forall i {:trigger pl.objs[i]} | 0 <= i < |pl.objs| && pl.objs[i].live ensures pl.objs[i].data in pl.live {
      LiveIsInLiveData(pl.objs, i);
    }
  }

  lemma LiveIsInLiveData(objs: seq<Object>, i: nat)
    requires i < |objs| && objs[i].live
    ensures objs[i].data in LiveData(objs)
    ensures forall s {:trigger s in LiveSlots(objs)} :: s in objs[i].slots ==> s in LiveSlots(objs)
  {
    assert objs[i] in objs;
  }

  lemma SlotOwner(e: Model, lm: Mem, pl: Plan, i: nat, s: int)
    requires ValidModel(e) && WellPlanned(e, lm, pl) && i < |pl.objs| && pl.objs[i].start <= s < pl.objs[i].End()
    ensures s in pl.slots <==> s in pl.objs[i].slots
  {
    hide Inert, Destined, LiveSlots, LiveData, Describes, Spaced;
    TiledRange(pl.objs, pl.lo, pl.hi, i);
    if s in pl.slots {
      var j := OwnerOfSlot(e, lm, pl, s);
      ObjectOfAddress(pl.objs, pl.lo, pl.hi, i, j, s);
    }
    if s in pl.objs[i].slots {
      SlotsMeanLive(e, lm, pl, i);
      LiveIsInLiveData(pl.objs, i);
    }
  }

  lemma SlotsMeanLive(e: Model, lm: Mem, pl: Plan, i: nat)
    requires WellPlanned(e, lm, pl) && i < |pl.objs|
    ensures !pl.objs[i].live ==> pl.objs[i].slots == []
  {
    assert pl.objs[i] in pl.objs;
  }

  lemma DataOwner(e: Model, lm: Mem, pl: Plan, i: nat, x: int)
    requires ValidModel(e) && WellPlanned(e, lm, pl) && i < |pl.objs| && pl.objs[i].start <= x < pl.objs[i].End()
    ensures x in pl.live <==> pl.objs[i].live && x == pl.objs[i].data
  {
    hide Inert, Destined, LiveSlots, LiveData, Describes, Spaced;
    if x in pl.live {
      var j := OwnerOfData(e, lm, pl, x);
      ObjectOfAddress(pl.objs, pl.lo, pl.hi, i, j, x);
    }
    if pl.objs[i].live { LiveIsInLiveData(pl.objs, i); }
  }

  /** Only object i has its header among the cells of object i. */
  lemma HeaderOwner(e: Model, lm: Mem, pl: Plan, i: nat, x: int)
    requires ValidModel(e) && WellPlanned(e, lm, pl) && i < |pl.objs| && x in pl.live
    requires pl.objs[i].start <= x - HEADER_SIZE < pl.objs[i].End()
    ensures pl.objs[i].live && x == pl.objs[i].data
  {
    hide Inert, Destined, LiveSlots, LiveData, Describes, Spaced;
    var j := OwnerOfData(e, lm, pl, x);
    ObjectOfAddress(pl.objs, pl.lo, pl.hi, i, j, x - HEADER_SIZE);
  }

  lemma HeaderInHeap(e: Model, lm: Mem, pl: Plan, x: int)
    requires ValidModel(e) && WellPlanned(e, lm, pl) && x in pl.live
    ensures pl.lo <= x - HEADER_SIZE < pl.hi && x - HEADER_SIZE !in pl.slots
  {
    hide Inert, Destined, LiveSlots, LiveData, Describes;
    var j := OwnerOfData(e, lm, pl, x);
    SlotOwner(e, lm, pl, j, x - HEADER_SIZE);
  }

  /** A slot points at a later object, or from outside the heap: the first pass
      can update it as soon as it reaches the target. */
  ghost predicate Forward(pl: Plan, s: int, x: int) {
    s in pl.roots || s < x
  }

  ghost predicate Visited(pl: Plan, s: int, v: int) {
    s in pl.roots || s < v
  }

  ghost function To(pl: Plan, x: int): int {
    if x in pl.to then pl.to[x] else x
  }

  /** Where a pointer to a lifted object leads, once followed. */
  ghost function Fixed(pl: Plan, x: int): int {
    if x in pl.fwd then pl.fwd[x] else x
  }

  ghost predicate FixedApart(pl: Plan) {
    forall x {:trigger x in pl.fwd} :: x in pl.fwd ==> x !in pl.live && pl.fwd[x] !in pl.live
  }

  /** Slot s, holding x, has been updated by a pass that has threaded the slots
      below v and resolved the pointers to objects below r. */
  ghost predicate Resolved(pl: Plan, s: int, x: int, v: int, r: int) {
    x in pl.live && Visited(pl, s, v) && Forward(pl, s, x) && x < r
  }

  ghost predicate Threaded(pl: Plan, s: int, x: int, v: int, r: int) {
    x in pl.live && Visited(pl, s, v) && !(Forward(pl, s, x) && x < r)
  }

  ghost predicate SlotState(pl: Plan, lm0: Mem, lm: Mem, ch: Chains, s: int, v: int, r: int) {
    var x := Rd(lm0, s);
    && Rd(lm, s) == (if Resolved(pl, s, x, v, r) then To(pl, x) else if Visited(pl, s, v) then Fixed(pl, x) else x)
    && (Pending(lm, ch, s) <==> Threaded(pl, s, x, v, r))
  }

  ghost predicate SlotStates(pl: Plan, lm0: Mem, lm: Mem, ch: Chains, v: int, r: int) {
    forall s {:trigger Rd(lm, s)} {:trigger s in pl.slots} :: s in pl.slots ==> SlotState(pl, lm0, lm, ch, s, v, r)
  }

  lemma SkipDead(pl: Plan, lm0: Mem, lm: Mem, ch: Chains, i: nat)
    requires i < |pl.objs| && GoodSlots(pl) && GoodLive(pl) && !pl.objs[i].live && pl.objs[i].slots == []
    requires SlotStates(pl, lm0, lm, ch, pl.objs[i].start, pl.objs[i].start) && 0 <= pl.objs[i].size
    ensures SlotStates(pl, lm0, lm, ch, pl.objs[i].End(), pl.objs[i].End())
  {
    hide Pending;
    var o := pl.objs[i];
    forall s {:trigger Rd(lm, s)} | s in pl.slots ensures SlotState(pl, lm0, lm, ch, s, o.End(), o.End()) {
      var x := Rd(lm0, s);
      assert !(o.start <= s < o.End());
      assert x in pl.live ==> !(o.start <= x < o.End());
      assert SlotState(pl, lm0, lm, ch, s, o.start, o.start);
    }
  }

  /** Updating the chain of object i resolves exactly the forward slots to it. */
  lemma ResolveObject(pl: Plan, lm0: Mem, m: Mem, lm: Mem, ch: Chains, i: nat, lm': Mem)
    requires i < |pl.objs| && GoodSlots(pl) && GoodLive(pl) && FixedApart(pl) && pl.objs[i].live
    requires Rep(m, lm, ch, pl.slots) && ch.Keys == pl.live
    requires pl.objs[i].start <= pl.objs[i].data < pl.objs[i].End()
    requires SlotStates(pl, lm0, lm, ch, pl.objs[i].start, pl.objs[i].start)
    requires forall a {:trigger Rd(lm', a)} :: Rd(lm', a) == if a in ch[pl.objs[i].data] then To(pl, pl.objs[i].data) else Rd(lm, a)
    ensures SlotStates(pl, lm0, lm', ch[pl.objs[i].data := []], pl.objs[i].start, pl.objs[i].End())
  {
    var o := pl.objs[i];
    var x := o.data;
    ReleasedChain(m, lm, ch, pl.slots, x, lm', To(pl, x));
    var ch' := ch[x := []];
    forall s {:trigger Rd(lm', s)} | s in pl.slots ensures SlotState(pl, lm0, lm', ch', s, o.start, o.End()) {
      assert SlotState(pl, lm0, lm, ch, s, o.start, o.start);
      assert Pending(lm', ch', s) <==> Pending(lm, ch, s) && Rd(lm, s) != x;
      ResolveSlot(pl, lm0, m, lm, ch, i, lm', ch', s);
    }
  }

  lemma ResolveSlot(pl: Plan, lm0: Mem, m: Mem, lm: Mem, ch: Chains, i: nat, lm': Mem, ch': Chains, s: int)
    requires i < |pl.objs| && GoodLive(pl) && GoodSlots(pl) && FixedApart(pl) && pl.objs[i].live && s in pl.slots
    requires var o := pl.objs[i]; o.start <= o.data < o.End() && o.data in ch && ChainOk(m, lm, o.data, ch[o.data], pl.slots)
    requires SlotState(pl, lm0, lm, ch, s, pl.objs[i].start, pl.objs[i].start)
    requires Rd(lm', s) == if s in ch[pl.objs[i].data] then To(pl, pl.objs[i].data) else Rd(lm, s)
    requires Pending(lm', ch', s) <==> Pending(lm, ch, s) && Rd(lm, s) != pl.objs[i].data
    ensures SlotState(pl, lm0, lm', ch', s, pl.objs[i].start, pl.objs[i].End())
  {
    var o := pl.objs[i];
    var y := Rd(lm0, s);
    assert y in pl.live && o.start <= y < o.End() ==> y == o.data;
    assert s in ch[o.data] <==> Pending(lm, ch, s) && Rd(lm, s) == o.data;
    if s !in ch[o.data] && y == o.data {
      assert !Pending(lm, ch, s);
    }
  }

  /** The part of object i that the first pass has threaded after k slots. */
  ghost function ThreadedUpTo(o: Object, k: nat): int
    requires k <= |o.slots|
  {
    if k == 0 then o.start else o.slots[k - 1] + OBJPTR_SIZE
  }

  ghost predicate GoodObject(pl: Plan, i: nat) {
    && i < |pl.objs| && pl.objs[i].live
    && pl.objs[i].start + HEADER_SIZE <= pl.objs[i].data < pl.objs[i].End()
    && pl.lo <= pl.objs[i].start && pl.objs[i].End() <= pl.hi
    && Spaced(pl.objs[i].slots, pl.objs[i].data, pl.objs[i].End())
  }

  lemma NextSlotAlone(pl: Plan, i: nat, k: nat, s: int)
    requires GoodSlots(pl) && GoodObject(pl, i) && k < |pl.objs[i].slots| && s in pl.slots
    requires ThreadedUpTo(pl.objs[i], k) <= s < ThreadedUpTo(pl.objs[i], k + 1)
    ensures s == pl.objs[i].slots[k]
  {
    var o := pl.objs[i];
    assert o.start <= s < o.End();
    assert s in o.slots;
  }

  /** A slot that points elsewhere is passed over, one that points to a lifted
      object is fixed, one that points to a live object joins its chain. */
  lemma ThreadNextSlot(pl: Plan, lm0: Mem, lm: Mem, ch: Chains, i: nat, k: nat, lm': Mem, ch': Chains)
    requires GoodSlots(pl) && GoodLive(pl) && FixedApart(pl) && GoodObject(pl, i) && k < |pl.objs[i].slots|
    requires SlotStates(pl, lm0, lm, ch, ThreadedUpTo(pl.objs[i], k), pl.objs[i].End())
    requires ch.Keys == pl.live
    requires var s := pl.objs[i].slots[k]; var x := Rd(lm, s);
      && ch' == (if x in pl.live then ch[x := [s] + ch[x]] else ch)
      && forall a {:trigger Rd(lm', a)} :: Rd(lm', a) == if a == s then Fixed(pl, x) else Rd(lm, a)
    ensures SlotStates(pl, lm0, lm', ch', ThreadedUpTo(pl.objs[i], k + 1), pl.objs[i].End())
  {
    var o := pl.objs[i];
    var v, v', r := ThreadedUpTo(o, k), ThreadedUpTo(o, k + 1), o.End();
    var here := o.slots[k];
    assert here in o.slots && here in pl.slots;
    assert SlotState(pl, lm0, lm, ch, here, v, r);
    forall s {:trigger Rd(lm', s)} | s in pl.slots ensures SlotState(pl, lm0, lm', ch', s, v', r) {
      assert SlotState(pl, lm0, lm, ch, s, v, r);
      if v <= s < v' { NextSlotAlone(pl, i, k, s); }
      ThreadedPending(lm, ch, here, lm', ch', s);
      if s == here { OwnSlotIsNotResolved(pl, i, s, Rd(lm0, s)); }
    }
  }

  lemma ThreadedPending(lm: Mem, ch: Chains, here: int, lm': Mem, ch': Chains, s: int)
    requires ch' == if Rd(lm, here) in ch then ch[Rd(lm, here) := [here] + ch[Rd(lm, here)]] else ch
    requires Rd(lm', s) == Rd(lm, s) || (s == here && Rd(lm, s) !in ch && Rd(lm', s) !in ch)
    ensures Pending(lm', ch', s) <==> Pending(lm, ch, s) || (s == here && Rd(lm, here) in ch)
  {
  }

  lemma OwnSlotIsNotResolved(pl: Plan, i: nat, s: int, x: int)
    requires GoodSlots(pl) && GoodLive(pl) && GoodObject(pl, i) && s in pl.objs[i].slots
    ensures x in pl.live && Forward(pl, s, x) ==> pl.objs[i].End() <= x
  {
    var o := pl.objs[i];
    assert o.start <= s < o.End();
    assert x in pl.live && o.start <= x < o.End() ==> x == o.data;
  }

  lemma AllSlotsThreaded(pl: Plan, lm0: Mem, lm: Mem, ch: Chains, i: nat)
    requires GoodSlots(pl) && GoodObject(pl, i)
    requires SlotStates(pl, lm0, lm, ch, ThreadedUpTo(pl.objs[i], |pl.objs[i].slots|), pl.objs[i].End())
    ensures SlotStates(pl, lm0, lm, ch, pl.objs[i].End(), pl.objs[i].End())
  {
    hide Pending;
    var o := pl.objs[i];
    var v, r := ThreadedUpTo(o, |o.slots|), o.End();
    forall s {:trigger Rd(lm, s)} | s in pl.slots ensures SlotState(pl, lm0, lm, ch, s, r, r) {
      assert SlotState(pl, lm0, lm, ch, s, v, r);
      assert o.start <= s < o.End() ==> s in o.slots;
      assert !(v <= s < r);
    }
  }

  lemma UnvisitedSlot(pl: Plan, lm0: Mem, lm: Mem, ch: Chains, i: nat, k: nat)
    requires GoodSlots(pl) && GoodObject(pl, i) && k < |pl.objs[i].slots|
    requires SlotStates(pl, lm0, lm, ch, ThreadedUpTo(pl.objs[i], k), pl.objs[i].End())
    ensures var s := pl.objs[i].slots[k];
      s in pl.slots && Rd(lm, s) == Rd(lm0, s) && !Pending(lm, ch, s)
  {
    hide Pending;
    var o := pl.objs[i];
    var s := o.slots[k];
    assert s in o.slots && o.start <= s < o.End();
    assert s in pl.slots && s !in pl.roots;
    assert SlotState(pl, lm0, lm, ch, s, ThreadedUpTo(o, k), o.End());
  }

  // ------------------------------------------------------------ compressed runs

  /** The run is long enough for updateForwardPointersForMarkCompact to
      compress it into one vector. */
  predicate Compressible(run: int) { ARRAY_HEADER_SIZE + OBJPTR_SIZE <= run }

  /** Where the dead run begins that ends before object n. */
  ghost function RunStart(objs: seq<Object>, n: nat): (d: nat)
    requires n <= |objs|
    ensures d <= n
  {
    if n == 0 || objs[n - 1].live then n else RunStart(objs, n - 1)
  }

  /** The words written over the dead run from d to n: those of the header of a
      vector, if there is room for one. */
  ghost function RunCells(objs: seq<Object>, d: nat, n: nat): set<int>
    requires d <= n < |objs|
  {
    var from := objs[d].start;
    if Compressible(objs[n].start - from) then {from, from + 8, from + 16} else {}
  }

  /** All words that are written over once n objects have been passed. */
  ghost function VectorCells(objs: seq<Object>, n: nat): set<int>
    requires n <= |objs|
  {
    if n == 0 then {}
    else VectorCells(objs, n - 1) + if objs[n - 1].live then RunCells(objs, RunStart(objs, n - 1), n - 1) else {}
  }

  lemma {:induction false} RunStartIs(objs: seq<Object>, d: nat, n: nat)
    requires d <= n <= |objs| && (d == 0 || objs[d - 1].live)
    requires forall k {:trigger objs[k]} :: d <= k < n ==> !objs[k].live
    ensures RunStart(objs, n) == d && VectorCells(objs, n) == VectorCells(objs, d)
    decreases n - d
  {
    if d < n { RunStartIs(objs, d, n - 1); }
  }

  /** A word of a vector's header. */
  predicate IsVectorWord(w: int) {
    w == BuildHeader(WORD8_VECTOR_TYPE_INDEX) || (0 <= w && w % 4 == 0)
  }
}
