/** The state kept by the first pass of the compaction
    (updateForwardPointersForMarkCompact). */
module ForwardPass {
  import opened Arithmetic
  import opened Memory
  import opened Objects
  import opened Layout
  import opened FillGap
  import opened HeapObjects
  import opened Forwarding
  import opened Threading
  import opened CompactionPlan

  /** n objects have been passed, of which those from d on are dead and not yet
      compressed; gap bytes of all of them are dead. The second pass will find
      the objects done where the first d objects were. */
  datatype Progress = Progress(n: nat, d: nat, gap: int, done: seq<Object>)

  ghost predicate Rebuilt(e: Model, lm: Mem, pl: Plan, d: nat, done: seq<Object>)
    requires d <= |pl.objs|
  {
    && Tiled(done, pl.lo, Edge(pl.objs, pl.hi, d))
    && (forall o {:trigger o in done} :: o in done ==> Describes(e, lm, o) && (!o.live ==> Inert(lm, pl, o)))
    && (forall o: Object {:trigger o in done} :: o.live ==> (o in done <==> o in pl.objs[..d]))
    && Destined(done, pl.to)
  }

  /** Only slots, and dead objects below from, have changed. */
  ghost predicate CellsKept(pl: Plan, lm0: Mem, lm: Mem, from: int) {
    && (forall a {:trigger Rd(lm, a)} :: a !in pl.slots && (a < pl.lo || from <= a) ==> Rd(lm, a) == Rd(lm0, a))
    && (forall i, a {:trigger pl.objs[i], Rd(lm, a)} ::
          0 <= i < |pl.objs| && pl.objs[i].live && pl.objs[i].start <= a < pl.objs[i].End() && a !in pl.slots ==> Rd(lm, a) == Rd(lm0, a))
  }

  /** All but the threading. */
  ghost predicate Pass1Cells(e: Model, pl: Plan, lm0: Mem, lm: Mem, pr: Progress) {
    && pr.d <= pr.n <= |pl.objs|
    && (forall k {:trigger pl.objs[k]} :: pr.d <= k < pr.n ==> !pl.objs[k].live)
    && CellsKept(pl, lm0, lm, Edge(pl.objs, pl.hi, pr.d))
    && Rebuilt(e, lm, pl, pr.d, pr.done)
    && pr.gap == DeadBefore(pl.objs, pr.n)
    && Edge(pl.objs, pl.hi, pr.d) <= Edge(pl.objs, pl.hi, pr.n)
    && DeadBefore(pr.done, |pr.done|) + Edge(pl.objs, pl.hi, pr.n) - Edge(pl.objs, pl.hi, pr.d) == pr.gap
    && IsAligned(Edge(pl.objs, pl.hi, pr.n) - Edge(pl.objs, pl.hi, pr.d), e.alignment)
  }

  /** Of the words of dead objects only those have changed that the vectors of
      compressed runs have been written over. */
  ghost predicate VectorsOk(pl: Plan, lm0: Mem, lm: Mem, d: nat)
    requires d <= |pl.objs|
  {
    && (d == 0 || pl.objs[d - 1].live)
    && (forall i, a {:trigger pl.objs[i], Rd(lm, a)} ::
          0 <= i < |pl.objs| && !pl.objs[i].live && pl.objs[i].start <= a < pl.objs[i].End() && a !in VectorCells(pl.objs, d) ==> Rd(lm, a) == Rd(lm0, a))
    && (forall a {:trigger a in VectorCells(pl.objs, d)} :: a in VectorCells(pl.objs, d) ==>
          IsVectorWord(Rd(lm, a)) && a !in pl.slots && a + HEADER_SIZE !in pl.live)
  }

  ghost predicate Pass1(e: Model, pl: Plan, lm0: Mem, m: Mem, lm: Mem, ch: Chains, pr: Progress) {
    && Pass1Cells(e, pl, lm0, lm, pr) && VectorsOk(pl, lm0, lm, pr.d)
    && Rep(m, lm, ch, pl.slots) && ch.Keys == pl.live
    && SlotStates(pl, lm0, lm, ch, Edge(pl.objs, pl.hi, pr.n), Edge(pl.objs, pl.hi, pr.n))
  }

  lemma ReadsPlainCell(m: Mem, lm: Mem, ch: Chains, slots: set<int>, a: int)
    requires Rep(m, lm, ch, slots) && a !in slots && a + HEADER_SIZE !in ch
    ensures Rd(m, a) == Rd(lm, a) && !Pending(lm, ch, a)
  {
  }

  /** A dead object that is not compressed yet still reads as it did. */
  lemma DeadObjectReads(e: Model, pl: Plan, lm0: Mem, lm: Mem, pr: Progress, k: nat)
    requires ValidModel(e) && WellPlanned(e, lm0, pl) && Pass1Cells(e, pl, lm0, lm, pr)
    requires pr.d <= k < |pl.objs| && !pl.objs[k].live
    ensures forall a {:trigger Rd(lm, a)} :: DescriptionCell(lm0, pl.objs[k], a) ==> Rd(lm, a) == Rd(lm0, a)
    ensures Describes(e, lm, pl.objs[k]) && Inert(lm, pl, pl.objs[k])
  {
    hide Describes, Inert, LiveSlots, LiveData, Destined, Rebuilt, IsAligned;
    var o := pl.objs[k];
    assert o in pl.objs;
    TiledRange(pl.objs, pl.lo, pl.hi, k);
    if pr.d < k { EdgesIncrease(pl.objs, pl.lo, pl.hi, pr.d, k); }
    forall a {:trigger Rd(lm, a)} | DescriptionCell(lm0, o, a) ensures Rd(lm, a) == Rd(lm0, a) {
      DescriptionCellOfDead(e, pl, lm0, k, a);
    }
    DescribesFrame(e, lm0, lm, o);
    DescribedShape(e, lm0, o);
    InertFrame(lm0, pl, lm, o);
  }

  /** What the first pass reads at a dead object. */
  lemma DeadObjectInMemory(e: Model, pl: Plan, lm0: Mem, m: Mem, lm: Mem, ch: Chains, pr: Progress)
    requires ValidModel(e) && WellPlanned(e, lm0, pl) && Pass1(e, pl, lm0, m, lm, ch, pr)
    requires pr.n < |pl.objs| && !pl.objs[pr.n].live
    ensures Describes(e, m, pl.objs[pr.n])
  {
    hide Describes, LiveSlots, LiveData, Destined, Rebuilt, IsAligned, Rep, CellsKept, SlotStates;
    var o := pl.objs[pr.n];
    DeadObjectReads(e, pl, lm0, lm, pr, pr.n);
    forall a {:trigger Rd(m, a)} | DescriptionCell(lm0, o, a) ensures Rd(m, a) == Rd(lm0, a) {
      DescriptionCellOfDead(e, pl, lm0, pr.n, a);
      ReadsPlainCell(m, lm, ch, pl.slots, a);
      assert Rd(lm, a) == Rd(lm0, a);
    }
    assert o in pl.objs;
    DescribesFrame(e, lm0, m, o);
  }

  lemma DescribedShape(e: Model, m: Mem, o: Object)
    requires Describes(e, m, o)
    ensures o.start + HEADER_SIZE <= o.data <= o.End()
    ensures !o.live && Rd(m, o.data - HEADER_SIZE) == FORWARDED ==> o.data < o.End()
  {
  }

  lemma InertFrame(lm0: Mem, pl: Plan, lm: Mem, o: Object)
    requires Inert(lm0, pl, o)
    requires forall a {:trigger Rd(lm, a)} :: DescriptionCell(lm0, o, a) ==> Rd(lm, a) == Rd(lm0, a)
    requires o.start <= o.data - HEADER_SIZE && !o.live
    requires Rd(lm0, o.data - HEADER_SIZE) == FORWARDED ==> o.data < o.End()
    ensures Inert(lm, pl, o)
  {
    assert Rd(lm, o.data - HEADER_SIZE) == Rd(lm0, o.data - HEADER_SIZE);
    assert o.data < o.End() ==> Rd(lm, o.data) == Rd(lm0, o.data);
    assert forall a {:trigger ForwardingCell(lm, o, a)} :: ForwardingCell(lm, o, a) <==> ForwardingCell(lm0, o, a);
  }

  lemma DescriptionCellOfDead(e: Model, pl: Plan, lm: Mem, i: nat, a: int)
    requires ValidModel(e) && WellPlanned(e, lm, pl) && i < |pl.objs| && !pl.objs[i].live
    requires DescriptionCell(lm, pl.objs[i], a)
    ensures a !in pl.slots && a + HEADER_SIZE !in pl.live
    ensures !(pl.lo <= a < pl.hi) || pl.objs[i].start <= a < pl.objs[i].End()
  {
    hide LiveSlots, LiveData, Destined;
    var o := pl.objs[i];
    assert o in pl.objs;
    assert Describes(e, lm, o) && Inert(lm, pl, o);
    if a + HEADER_SIZE in pl.live {
      HeaderInHeap(e, lm, pl, a + HEADER_SIZE);
      if o.start <= a < o.End() { HeaderOwner(e, lm, pl, i, a + HEADER_SIZE); }
    }
  }

  /** Passing a dead object. */
  lemma PassDead(e: Model, pl: Plan, lm0: Mem, m: Mem, lm: Mem, ch: Chains, pr: Progress)
    requires ValidModel(e) && WellPlanned(e, lm0, pl) && Pass1(e, pl, lm0, m, lm, ch, pr)
    requires pr.n < |pl.objs| && !pl.objs[pr.n].live
    ensures Pass1(e, pl, lm0, m, lm, ch, pr.(n := pr.n + 1, gap := pr.gap + pl.objs[pr.n].size))
  {
    hide Rep, SlotStates, Pass1Cells, WellPlanned, GoodSlots, GoodLive, VectorsOk;
    RunOfPass(e, pl, lm0, lm, pr);
    WellPlannedIsGood(e, lm0, pl);
    NextEdge(e, lm0, pl, pr.n);
    SkipDead(pl, lm0, lm, ch, pr.n);
    PassDeadCells(e, pl, lm0, lm, pr);
  }

  lemma NextEdge(e: Model, lm: Mem, pl: Plan, n: nat)
    requires WellPlanned(e, lm, pl) && n < |pl.objs|
    ensures pl.objs[n].End() == Edge(pl.objs, pl.hi, n + 1) && 0 < pl.objs[n].size
    ensures IsAligned(pl.objs[n].size, e.alignment) && IsObjptr(pl.objs[n].start)
    ensures !pl.objs[n].live ==> pl.objs[n].slots == []
  {
    assert pl.objs[n] in pl.objs;
    DescribedAlignment(e, lm, pl.objs[n]);
  }

  lemma PassDeadCells(e: Model, pl: Plan, lm0: Mem, lm: Mem, pr: Progress)
    requires WellPlanned(e, lm0, pl) && Pass1Cells(e, pl, lm0, lm, pr)
    requires pr.n < |pl.objs| && !pl.objs[pr.n].live
    ensures Pass1Cells(e, pl, lm0, lm, pr.(n := pr.n + 1, gap := pr.gap + pl.objs[pr.n].size))
  {
    hide CellsKept, Rebuilt, WellPlanned, IsAligned;
    NextEdge(e, lm0, pl, pr.n);
    AlignedSum(pl.objs[pr.n].size, Edge(pl.objs, pl.hi, pr.n) - Edge(pl.objs, pl.hi, pr.d), e.alignment);
  }

  lemma DescribedAlignment(e: Model, m: Mem, o: Object)
    requires Describes(e, m, o)
    ensures IsAligned(o.size, e.alignment) && IsObjptr(o.start)
  {
  }

  /** The cells that describe a rebuilt object are neither slots nor ahead. */
  lemma DoneCell(e: Model, pl: Plan, lm0: Mem, lm: Mem, d: nat, done: seq<Object>, o: Object, a: int)
    requires ValidModel(e) && WellPlanned(e, lm0, pl) && d <= |pl.objs| && Rebuilt(e, lm, pl, d, done)
    requires o in done && DescriptionCell(lm, o, a)
    ensures a !in pl.slots && !(Edge(pl.objs, pl.hi, d) <= a < pl.hi)
  {
    hide LiveSlots, LiveData, Destined;
    var k :| 0 <= k < |done| && done[k] == o;
    TiledRange(done, pl.lo, Edge(pl.objs, pl.hi, d), k);
    EdgeInHeap(pl.objs, pl.lo, pl.hi, d);
    assert Describes(e, lm, o);
    if o.live {
      assert o in pl.objs[..d];
      var i :| 0 <= i < |pl.objs| && pl.objs[i] == o;
      LiveObjectIsGood(e, lm0, pl, i);
      SlotOwner(e, lm0, pl, i, a);
    }
  }

  lemma EdgeInHeap(objs: seq<Object>, lo: int, hi: int, d: nat)
    requires Tiled(objs, lo, hi) && d <= |objs|
    ensures lo <= Edge(objs, hi, d) <= hi
  {
    if d > 0 { EdgesIncrease(objs, lo, hi, 0, d); }
    if d < |objs| { EdgesIncrease(objs, lo, hi, d, |objs|); }
  }

  /** Changing slots, or cells ahead, leaves the rebuilt objects as they are. */
  lemma RebuiltFrame(e: Model, pl: Plan, lm0: Mem, lm: Mem, lm': Mem, d: nat, done: seq<Object>)
    requires ValidModel(e) && WellPlanned(e, lm0, pl) && d <= |pl.objs| && Rebuilt(e, lm, pl, d, done)
    requires forall a {:trigger Rd(lm', a)} ::
      a !in pl.slots && !(Edge(pl.objs, pl.hi, d) <= a < pl.hi) ==> Rd(lm', a) == Rd(lm, a)
    ensures Rebuilt(e, lm', pl, d, done)
  {
    hide Describes, Inert, WellPlanned, Tiled, Destined;
    forall o {:trigger o in done} | o in done ensures Describes(e, lm', o) && (!o.live ==> Inert(lm', pl, o)) {
      forall a {:trigger Rd(lm', a)} | DescriptionCell(lm, o, a) ensures Rd(lm', a) == Rd(lm, a) {
        DoneCell(e, pl, lm0, lm, d, done, o, a);
      }
      DescribesFrame(e, lm, lm', o);
      DescribedShape(e, lm, o);
      if !o.live { InertFrame(lm, pl, lm', o); }
    }
  }

  // ------------------------------------------------------- the dead run ahead of a live object

  lemma {:induction false} DeadBeforeAppend(a: seq<Object>, b: seq<Object>, n: nat)
    requires n <= |b|
    ensures DeadBefore(a + b, |a| + n) == DeadBefore(a, |a|) + DeadBefore(b, n)
    decreases |a| + n
  {
    if n > 0 {
      DeadBeforeAppend(a, b, n - 1);
      assert (a + b)[|a| + n - 1] == b[n - 1];
    } else if |a| > 0 {
      DeadBeforePrefix(a, b, |a|);
    }
  }

  lemma {:induction false} DeadBeforePrefix(a: seq<Object>, b: seq<Object>, n: nat)
    requires n <= |a|
    ensures DeadBefore(a + b, n) == DeadBefore(a, n)
  {
    if n > 0 {
      DeadBeforePrefix(a, b, n - 1);
      assert (a + b)[n - 1] == a[n - 1];
    }
  }

  lemma {:induction false} DeadRunBytes(run: seq<Object>, lo: int, hi: int, n: nat)
    requires Tiled(run, lo, hi) && n <= |run| && forall k :: 0 <= k < |run| ==> !run[k].live
    ensures DeadBefore(run, n) == Edge(run, hi, n) - lo
  {
    if n > 0 { DeadRunBytes(run, lo, hi, n - 1); }
  }

  /** What stands for the dead run between the last live object and the next. */
  ghost predicate StandsForRun(e: Model, pl: Plan, lm: Mem, mid: seq<Object>, lo: int, hi: int) {
    && Tiled(mid, lo, hi)
    && (forall o {:trigger o in mid} :: o in mid ==> !o.live && Describes(e, lm, o) && Inert(lm, pl, o))
  }

  lemma RunIsDead(objs: seq<Object>, lo: int, hi: int)
    requires Tiled(objs, lo, hi) && forall o {:trigger o in objs} :: o in objs ==> !o.live
    ensures DeadBefore(objs, |objs|) == hi - lo
  {
    assert forall k :: 0 <= k < |objs| ==> objs[k] in objs;
    DeadRunBytes(objs, lo, hi, |objs|);
  }

  /** Appending the run and the live object after it. */
  lemma RebuiltAppend(e: Model, pl: Plan, lm: Mem, d: nat, n: nat, done: seq<Object>, mid: seq<Object>)
    requires d <= n < |pl.objs| && Tiled(pl.objs, pl.lo, pl.hi) && Rebuilt(e, lm, pl, d, done)
    requires StandsForRun(e, pl, lm, mid, Edge(pl.objs, pl.hi, d), pl.objs[n].start)
    requires forall k {:trigger pl.objs[k]} :: d <= k < n ==> !pl.objs[k].live
    requires pl.objs[n].live && Describes(e, lm, pl.objs[n])
    requires Destined(pl.objs, pl.to)
    requires DeadBefore(done, |done|) + pl.objs[n].start - Edge(pl.objs, pl.hi, d) == DeadBefore(pl.objs, n)
    ensures var done' := done + mid + [pl.objs[n]];
      Rebuilt(e, lm, pl, n + 1, done') && DeadBefore(done', |done'|) == DeadBefore(pl.objs, n)
  {
    hide Describes, Inert, DeadBefore, Tiled, Destined;
    var o := pl.objs[n];
    var front := done + mid;
    RunBytes(pl, d, n, done, mid);
    DestinedAt(pl.objs, pl.to, n);
    RebuiltTiles(pl, d, n, done, mid);
    RebuiltMembers(pl.objs, d, n, done, mid);
    RebuiltDestined(pl.to, done, mid, o);
  }

  lemma DestinedAt(objs: seq<Object>, to: map<int, int>, n: nat)
    requires Destined(objs, to) && n < |objs| && objs[n].live
    ensures objs[n].data in to && to[objs[n].data] == objs[n].data - DeadBefore(objs, n)
  {
  }

  lemma RunBytes(pl: Plan, d: nat, n: nat, done: seq<Object>, mid: seq<Object>)
    requires d <= n < |pl.objs| && Tiled(mid, Edge(pl.objs, pl.hi, d), pl.objs[n].start)
    requires forall o {:trigger o in mid} :: o in mid ==> !o.live
    requires pl.objs[n].live
    ensures var front := done + mid;
      && DeadBefore(front, |front|) == DeadBefore(done, |done|) + pl.objs[n].start - Edge(pl.objs, pl.hi, d)
      && DeadBefore(front + [pl.objs[n]], |front| + 1) == DeadBefore(front, |front|)
  {
    var front := done + mid;
    RunIsDead(mid, Edge(pl.objs, pl.hi, d), pl.objs[n].start);
    DeadBeforeAppend(done, mid, |mid|);
    DeadBeforePrefix(front, [pl.objs[n]], |front|);
  }

  lemma RebuiltTiles(pl: Plan, d: nat, n: nat, done: seq<Object>, mid: seq<Object>)
    requires d <= n < |pl.objs| && Tiled(pl.objs, pl.lo, pl.hi)
    requires Tiled(done, pl.lo, Edge(pl.objs, pl.hi, d)) && Tiled(mid, Edge(pl.objs, pl.hi, d), pl.objs[n].start)
    ensures Tiled(done + mid + [pl.objs[n]], pl.lo, Edge(pl.objs, pl.hi, n + 1))
  {
    var o := pl.objs[n];
    TiledAppend(done, pl.lo, Edge(pl.objs, pl.hi, d), mid, o.start);
    TiledAppend(done + mid, pl.lo, o.start, [o], o.End());
  }

  lemma RebuiltMembers(objs: seq<Object>, d: nat, n: nat, done: seq<Object>, mid: seq<Object>)
    requires d <= n < |objs|
    requires forall o: Object {:trigger o in done} :: o.live ==> (o in done <==> o in objs[..d])
    requires forall o {:trigger o in mid} :: o in mid ==> !o.live
    requires forall k {:trigger objs[k]} :: d <= k < n ==> !objs[k].live
    ensures forall o: Object {:trigger o in done + mid + [objs[n]]} :: o.live ==> (o in done + mid + [objs[n]] <==> o in objs[..n + 1])
  {
    forall o: Object | o.live ensures o in done + mid + [objs[n]] <==> o in objs[..n + 1] {
      if o in objs[..n + 1] {
        var k :| 0 <= k < n + 1 && objs[k] == o;
        if k < d { assert objs[..d][k] == o; }
      }
      if o in objs[..d] { var k :| 0 <= k < d && objs[k] == o; assert objs[..n + 1][k] == o; }
      assert objs[..n + 1][n] == objs[n];
    }
  }

  lemma RebuiltDestined(to: map<int, int>, done: seq<Object>, mid: seq<Object>, o: Object)
    requires Destined(done, to)
    requires forall q {:trigger q in mid} :: q in mid ==> !q.live
    requires o.data in to && to[o.data] == o.data - DeadBefore(done + mid, |done + mid|)
    ensures Destined(done + mid + [o], to)
  {
    var all := done + mid + [o];
    forall i {:trigger all[i]} | 0 <= i < |all| && all[i].live
      ensures all[i].data in to && to[all[i].data] == all[i].data - DeadBefore(all, i)
    {
      RebuiltDestinedAt(to, done, mid, o, i);
    }
  }

  lemma RebuiltDestinedAt(to: map<int, int>, done: seq<Object>, mid: seq<Object>, o: Object, i: nat)
    requires Destined(done, to) && i < |done + mid + [o]| && (done + mid + [o])[i].live
    requires forall q {:trigger q in mid} :: q in mid ==> !q.live
    requires o.data in to && to[o.data] == o.data - DeadBefore(done + mid, |done + mid|)
    ensures var all := done + mid + [o];
      all[i].data in to && to[all[i].data] == all[i].data - DeadBefore(all, i)
  {
    var front := done + mid;
    assert forall k :: 0 <= k < |mid| ==> mid[k] in mid && (front + [o])[|done| + k] == mid[k];
    DeadBeforePrefix(front, [o], i);
    if i < |done| {
      assert (front + [o])[i] == done[i];
      DeadBeforePrefix(done, mid, i);
    }
  }

  // ------------------------------------------------------------ passing a live object

  ghost function CompressedCells(lm: Mem, from: int, to: int): (r: Mem)
    ensures forall a {:trigger Rd(r, a)} :: !(from <= a < to) ==> Rd(r, a) == Rd(lm, a)
  {
    if Compressible(to - from) then FilledWithVector(lm, from, to - from) else lm
  }

  ghost function CompressedRun(objs: seq<Object>, d: nat, n: nat): seq<Object>
    requires d <= n < |objs|
  {
    var from, to := objs[d].start, objs[n].start;
    if Compressible(to - from) then [Object(from, from + ARRAY_HEADER_SIZE, to - from, [], false)] else objs[d..n]
  }

  lemma RunHoldsNoSlots(e: Model, lm: Mem, pl: Plan, d: nat, n: nat, a: int)
    requires ValidModel(e) && WellPlanned(e, lm, pl) && d <= n < |pl.objs|
    requires forall k {:trigger pl.objs[k]} :: d <= k < n ==> !pl.objs[k].live
    requires pl.objs[d].start <= a < pl.objs[n].start
    ensures a !in pl.slots && a + HEADER_SIZE !in pl.live
  {
    hide LiveSlots, LiveData, Destined, Describes, Inert, Spaced;
    TiledRange(pl.objs, pl.lo, pl.hi, d);
    TiledRange(pl.objs, pl.lo, pl.hi, n);
    if a in pl.slots {
      var j := OwnerOfSlot(e, lm, pl, a);
      LiveOutsideRun(pl, d, n, j, a);
      assert false;
    }
    if a + HEADER_SIZE in pl.live {
      var j := OwnerOfData(e, lm, pl, a + HEADER_SIZE);
      LiveOutsideRun(pl, d, n, j, a);
      assert false;
    }
  }

  lemma LiveOutsideRun(pl: Plan, d: nat, n: nat, j: nat, a: int)
    requires Tiled(pl.objs, pl.lo, pl.hi) && d <= n < |pl.objs| && j < |pl.objs| && pl.objs[j].live
    requires forall k {:trigger pl.objs[k]} :: d <= k < n ==> !pl.objs[k].live
    requires pl.objs[j].start <= a < pl.objs[j].End()
    ensures !(pl.objs[d].start <= a < pl.objs[n].start)
  {
    if j < d { EdgesIncrease(pl.objs, pl.lo, pl.hi, j, d); }
    if n < j { EdgesIncrease(pl.objs, pl.lo, pl.hi, n, j); }
  }

  lemma CompressedRunStands(e: Model, pl: Plan, lm0: Mem, lm: Mem, pr: Progress)
    requires ValidModel(e) && WellPlanned(e, lm0, pl) && Pass1Cells(e, pl, lm0, lm, pr)
    requires pr.n < |pl.objs| && pl.objs[pr.n].live
    ensures var from, to := pl.objs[pr.d].start, pl.objs[pr.n].start;
      StandsForRun(e, pl, CompressedCells(lm, from, to), CompressedRun(pl.objs, pr.d, pr.n), from, to)
  {
    hide WellPlanned, CellsKept, Rebuilt, FilledWithVector, Describes, Inert, Tiled;
    var from, to := pl.objs[pr.d].start, pl.objs[pr.n].start;
    if Compressible(to - from) {
      NextEdge(e, lm0, pl, pr.d);
      forall a {:trigger a in pl.slots} | a in pl.slots ensures !(from <= a < to) {
        if from <= a < to { RunHoldsNoSlots(e, lm0, pl, pr.d, pr.n, a); }
      }
      CompressedVector(e, pl, lm, from, to);
    } else {
      UncompressedRunStands(e, pl, lm0, lm, pr);
    }
  }

  lemma UncompressedRunStands(e: Model, pl: Plan, lm0: Mem, lm: Mem, pr: Progress)
    requires ValidModel(e) && WellPlanned(e, lm0, pl) && Pass1Cells(e, pl, lm0, lm, pr) && pr.n < |pl.objs|
    ensures StandsForRun(e, pl, lm, pl.objs[pr.d..pr.n], pl.objs[pr.d].start, pl.objs[pr.n].start)
  {
    hide CellsKept, Rebuilt, Describes, Inert, IsAligned, LiveSlots, LiveData, Destined;
    TiledSlice(pl.objs, pl.lo, pl.hi, pr.d, pr.n);
    hide Tiled;
    forall o {:trigger o in pl.objs[pr.d..pr.n]} | o in pl.objs[pr.d..pr.n]
      ensures !o.live && Describes(e, lm, o) && Inert(lm, pl, o)
    {
      var k :| pr.d <= k < pr.n && pl.objs[k] == o;
      DeadObjectReads(e, pl, lm0, lm, pr, k);
    }
  }

  lemma CompressedVector(e: Model, pl: Plan, lm: Mem, from: int, to: int)
    requires ValidModel(e) && Compressible(to - from) && IsAligned(to - from, e.alignment) && IsObjptr(from)
    requires forall a {:trigger a in pl.slots} :: a in pl.slots ==> !(from <= a < to)
    ensures var v := Object(from, from + ARRAY_HEADER_SIZE, to - from, [], false);
      StandsForRun(e, pl, FilledWithVector(lm, from, to - from), [v], from, to)
  {
    hide ArrayNoHeader, FilledWithVector;
    VectorWalks(e, lm, from, to - from);
  }

  lemma CellsKeptUnderSlots(e: Model, pl: Plan, lm0: Mem, lm: Mem, lm': Mem, pr: Progress)
    requires ValidModel(e) && WellPlanned(e, lm0, pl) && Pass1Cells(e, pl, lm0, lm, pr)
    requires forall a {:trigger Rd(lm', a)} :: a !in pl.slots ==> Rd(lm', a) == Rd(lm, a)
    ensures Pass1Cells(e, pl, lm0, lm', pr)
  {
    hide WellPlanned, Rebuilt;
    RebuiltFrame(e, pl, lm0, lm, lm', pr.d, pr.done);
  }

  lemma LiveObjectDescribed(e: Model, pl: Plan, lm0: Mem, lm: Mem, from: int, n: nat)
    requires ValidModel(e) && WellPlanned(e, lm0, pl) && CellsKept(pl, lm0, lm, from)
    requires n < |pl.objs| && pl.objs[n].live
    ensures Describes(e, lm, pl.objs[n])
    ensures forall a {:trigger Rd(lm, a)} :: pl.objs[n].start <= a < pl.objs[n].data ==> Rd(lm, a) == Rd(lm0, a) && a !in pl.slots
  {
    hide LiveSlots, LiveData, Destined, Inert, Describes;
    var o := pl.objs[n];
    assert o in pl.objs;
    LiveObjectIsGood(e, lm0, pl, n);
    forall a {:trigger Rd(lm, a)} | o.start <= a < o.data ensures Rd(lm, a) == Rd(lm0, a) && a !in pl.slots {
      SlotOwner(e, lm0, pl, n, a);
    }
    LiveHeaderNotForwarded(e, lm0, o);
    DescribesFrame(e, lm0, lm, o);
  }

  lemma LiveHeaderNotForwarded(e: Model, m: Mem, o: Object)
    requires Describes(e, m, o) && o.live
    ensures forall a {:trigger ForwardingCell(m, o, a)} :: !ForwardingCell(m, o, a)
    ensures IsLiveHeader(Rd(m, o.data - HEADER_SIZE))
  {
  }

  lemma CompressedCellsKept(pl: Plan, lm0: Mem, lm: Mem, d: nat, n: nat)
    requires Tiled(pl.objs, pl.lo, pl.hi) && d <= n < |pl.objs|
    requires forall k {:trigger pl.objs[k]} :: d <= k < n ==> !pl.objs[k].live
    requires CellsKept(pl, lm0, lm, pl.objs[d].start)
    ensures CellsKept(pl, lm0, CompressedCells(lm, pl.objs[d].start, pl.objs[n].start), pl.objs[n].End())
  {
    hide CompressedCells;
    var from, to := pl.objs[d].start, pl.objs[n].start;
    var lm' := CompressedCells(lm, from, to);
    TiledRange(pl.objs, pl.lo, pl.hi, d);
    TiledRange(pl.objs, pl.lo, pl.hi, n);
    if d < n { EdgesIncrease(pl.objs, pl.lo, pl.hi, d, n); }
    forall i, a {:trigger pl.objs[i], Rd(lm', a)}
      | 0 <= i < |pl.objs| && pl.objs[i].live && pl.objs[i].start <= a < pl.objs[i].End() && a !in pl.slots
      ensures Rd(lm', a) == Rd(lm0, a)
    {
      LiveOutsideRun(pl, d, n, i, a);
    }
  }

  /** Compressing the dead run before live object n and passing it. */
  lemma PassLiveCells(e: Model, pl: Plan, lm0: Mem, lm: Mem, pr: Progress)
    requires ValidModel(e) && WellPlanned(e, lm0, pl) && Pass1Cells(e, pl, lm0, lm, pr)
    requires pr.n < |pl.objs| && pl.objs[pr.n].live
    ensures var run := CompressedRun(pl.objs, pr.d, pr.n);
      Pass1Cells(e, pl, lm0, CompressedCells(lm, pl.objs[pr.d].start, pl.objs[pr.n].start),
                 Progress(pr.n + 1, pr.n + 1, pr.gap, pr.done + run + [pl.objs[pr.n]]))
  {
    hide CellsKept, CompressedCells, CompressedRun, Rebuilt, StandsForRun, Describes, Tiled;
    var from, to := pl.objs[pr.d].start, pl.objs[pr.n].start;
    var lm' := CompressedCells(lm, from, to);
    var run := CompressedRun(pl.objs, pr.d, pr.n);
    assert Tiled(pl.objs, pl.lo, pl.hi) && Destined(pl.objs, pl.to) by { hide Destined, LiveSlots, LiveData; }
    hide WellPlanned, Destined;
    CompressedCellsKept(pl, lm0, lm, pr.d, pr.n);
    NextEdge(e, lm0, pl, pr.n);
    assert to <= pl.hi by { TiledRange(pl.objs, pl.lo, pl.hi, pr.n); }
    RebuiltFrame(e, pl, lm0, lm, lm', pr.d, pr.done);
    CompressedRunStands(e, pl, lm0, lm, pr);
    LiveObjectDescribed(e, pl, lm0, lm', pl.objs[pr.n].End(), pr.n);
    RebuiltAppend(e, pl, lm', pr.d, pr.n, pr.done, run);
  }

  // ----------------------------------------------------------- lifted objects

  lemma NoVectors(pl: Plan, lm0: Mem, lm: Mem)
    requires GoodSlots(pl)
    requires forall i {:trigger pl.objs[i]} :: 0 <= i < |pl.objs| && !pl.objs[i].live ==> pl.objs[i].slots == []
    requires forall a {:trigger Rd(lm, a)} :: a !in pl.slots ==> Rd(lm, a) == Rd(lm0, a)
    ensures VectorsOk(pl, lm0, lm, 0)
  {
    forall i, a {:trigger pl.objs[i], Rd(lm, a)} | 0 <= i < |pl.objs| && !pl.objs[i].live && pl.objs[i].start <= a < pl.objs[i].End()
      ensures Rd(lm, a) == Rd(lm0, a)
    {
      assert a in pl.slots ==> a in pl.objs[i].slots;
    }
  }

  /** Changing slots changes no dead object. */
  lemma VectorsUnderSlots(pl: Plan, lm0: Mem, lm: Mem, d: nat, lm': Mem)
    requires GoodSlots(pl) && d <= |pl.objs| && VectorsOk(pl, lm0, lm, d)
    requires forall i {:trigger pl.objs[i]} :: 0 <= i < |pl.objs| && !pl.objs[i].live ==> pl.objs[i].slots == []
    requires forall a {:trigger Rd(lm', a)} :: a !in pl.slots ==> Rd(lm', a) == Rd(lm, a)
    ensures VectorsOk(pl, lm0, lm', d)
  {
    hide VectorCells;
    forall i, a {:trigger pl.objs[i], Rd(lm', a)}
      | 0 <= i < |pl.objs| && !pl.objs[i].live && pl.objs[i].start <= a < pl.objs[i].End() && a !in VectorCells(pl.objs, d)
      ensures Rd(lm', a) == Rd(lm0, a)
    {
      assert a in pl.slots ==> a in pl.objs[i].slots;
      assert Rd(lm, a) == Rd(lm0, a);
    }
    forall a {:trigger a in VectorCells(pl.objs, d)} | a in VectorCells(pl.objs, d) ensures IsVectorWord(Rd(lm', a)) {
      assert Rd(lm', a) == Rd(lm, a);
    }
  }

  lemma DeadHaveNoSlots(e: Model, pl: Plan, lm0: Mem)
    requires WellPlanned(e, lm0, pl)
    ensures forall i {:trigger pl.objs[i]} :: 0 <= i < |pl.objs| && !pl.objs[i].live ==> pl.objs[i].slots == []
  {
    hide Describes, Inert, LiveSlots, LiveData, Destined, Tiled;
    forall i {:trigger pl.objs[i]} | 0 <= i < |pl.objs| && !pl.objs[i].live ensures pl.objs[i].slots == [] {
      assert pl.objs[i] in pl.objs;
      DeadHasNoSlots(e, lm0, pl.objs[i]);
    }
  }

  lemma DeadHasNoSlots(e: Model, m: Mem, o: Object)
    requires Describes(e, m, o) && !o.live
    ensures o.slots == []
  {
  }

  /** The vector over one more run. */
  lemma VectorsAfterRun(e: Model, pl: Plan, lm0: Mem, lm: Mem, d: nat, n: nat)
    requires ValidModel(e) && WellPlanned(e, lm0, pl) && d <= n < |pl.objs| && VectorsOk(pl, lm0, lm, d)
    requires (forall k {:trigger pl.objs[k]} :: d <= k < n ==> !pl.objs[k].live) && pl.objs[n].live
    requires IsAligned(pl.objs[n].start - pl.objs[d].start, e.alignment)
    ensures VectorCells(pl.objs, n + 1) == VectorCells(pl.objs, d) + RunCells(pl.objs, d, n)
    ensures VectorsOk(pl, lm0, CompressedCells(lm, pl.objs[d].start, pl.objs[n].start), n + 1)
  {
    hide WellPlanned, VectorCells, FilledWithVector, IsAligned;
    var from, to := pl.objs[d].start, pl.objs[n].start;
    var lm' := CompressedCells(lm, from, to);
    RunStartIs(pl.objs, d, n);
    NextVectors(pl.objs, n);
    AlignedByFour(e, to - from);
    forall a {:trigger a in VectorCells(pl.objs, n + 1)} | a in VectorCells(pl.objs, n + 1)
      ensures IsVectorWord(Rd(lm', a)) && a !in pl.slots && a + HEADER_SIZE !in pl.live
    {
      if a in RunCells(pl.objs, d, n) { RunHoldsNoSlots(e, lm0, pl, d, n, a); }
    }
  }

  lemma NextVectors(objs: seq<Object>, n: nat)
    requires n < |objs| && objs[n].live
    ensures VectorCells(objs, n + 1) == VectorCells(objs, n) + RunCells(objs, RunStart(objs, n), n)
  {
  }

  lemma AlignedByFour(e: Model, bytes: int)
    requires ValidModel(e) && IsAligned(bytes, e.alignment)
    ensures bytes % 4 == 0
  {
    var q := e.alignment / 4;
    assert bytes == bytes / e.alignment * e.alignment && e.alignment == 4 * q;
    assert bytes / e.alignment * (4 * q) == 4 * (bytes / e.alignment * q);
  }

  /** What the heap holds where the lifted objects have been. */
  ghost predicate GoodForwards(pl: Plan, lm0: Mem) {
    forall x {:trigger x in pl.fwd} :: x in pl.fwd ==>
      && x !in pl.live && pl.fwd[x] !in pl.live
      && Rd(lm0, x - HEADER_SIZE) == FORWARDED && Rd(lm0, x) == pl.fwd[x]
      && exists i {:trigger pl.objs[i]} :: 0 <= i < |pl.objs| && !pl.objs[i].live && pl.objs[i].data == x
  }

  lemma ForwardedTile(e: Model, pl: Plan, lm0: Mem, x: int) returns (i: nat)
    requires WellPlanned(e, lm0, pl) && GoodForwards(pl, lm0) && x in pl.fwd
    ensures i < |pl.objs| && !pl.objs[i].live && pl.objs[i].data == x
    ensures pl.objs[i].start <= x - HEADER_SIZE && x < pl.objs[i].End()
  {
    hide Describes, Inert, LiveSlots, LiveData, Destined, Tiled;
    i :| 0 <= i < |pl.objs| && !pl.objs[i].live && pl.objs[i].data == x;
    assert pl.objs[i] in pl.objs;
    DescribedShape(e, lm0, pl.objs[i]);
  }

  /** A word that is left as it is: it leads out of the heap, and not to a
      forwarding header. */
  ghost predicate Passive(pl: Plan, lm0: Mem, heapLo: int, heapHi: int, w: int) {
    && !(IsObjptr(w) && heapLo <= w < heapHi)
    && (IsObjptr(w) && w != 0 ==> Rd(lm0, w - HEADER_SIZE) != FORWARDED && !(pl.lo <= w - HEADER_SIZE < pl.hi) && w - HEADER_SIZE !in pl.slots)
  }

  /** A slot leads to a live object, to where one has been that was lifted out
      of the heap, or nowhere in it. */
  ghost predicate WordOk(pl: Plan, lm0: Mem, heapLo: int, heapHi: int, w: int) {
    if w in pl.live then IsObjptr(w) && heapLo <= w < heapHi
    else if w in pl.fwd then IsObjptr(w) && w != 0 && heapLo <= w < heapHi && Passive(pl, lm0, heapLo, heapHi, pl.fwd[w])
    else Passive(pl, lm0, heapLo, heapHi, w)
  }

  ghost predicate WordsOk(pl: Plan, lm0: Mem, heapLo: int, heapHi: int) {
    forall s {:trigger s in pl.slots} :: s in pl.slots ==> WordOk(pl, lm0, heapLo, heapHi, Rd(lm0, s))
  }

  /** What threadInternalObjptrIfInLocalHeap finds at a slot that holds w, with
      vectors written over the words in written. */
  ghost predicate ReadsOk(m: Mem, ch: Chains, fwd: map<int, int>, written: set<int>, heapLo: int, heapHi: int, w: int) {
    if w in ch then IsObjptr(w) && heapLo <= w < heapHi && !IsForwarded(m, w) && w - HEADER_SIZE !in written
    else if w in fwd then
      && IsObjptr(w) && heapLo <= w < heapHi && fwd[w] !in ch
      && if w - HEADER_SIZE in written then !IsForwarded(m, w) && IsVectorWord(Rd(m, w - HEADER_SIZE))
         else IsForwarded(m, w) && Rd(m, w) == fwd[w] && !IsForwarded(m, fwd[w]) && !(IsObjptr(fwd[w]) && heapLo <= fwd[w] < heapHi)
    else !IsForwarded(m, w) && !(IsObjptr(w) && heapLo <= w < heapHi)
  }

  /** Object i has in slot s a pointer back to a lifted object whose header the
      vector of a compressed run has been written over by then. */
  ghost predicate Lost(pl: Plan, lm0: Mem, i: nat, s: int)
    requires i < |pl.objs|
  {
    pl.objs[i].live && s in pl.objs[i].slots && Rd(lm0, s) in pl.fwd && Rd(lm0, s) - HEADER_SIZE in VectorCells(pl.objs, i + 1)
  }

  ghost predicate NoneLost(pl: Plan, lm0: Mem, n: nat)
    requires n <= |pl.objs|
  {
    forall i, s {:trigger Lost(pl, lm0, i, s)} :: 0 <= i < n ==> !Lost(pl, lm0, i, s)
  }

  /** The slot of such a pointer has been threaded to the vector, as if that was
      a live object: it holds a word of the vector's header, which holds the
      address of the slot. */
  ghost predicate Miswritten(pl: Plan, lm0: Mem, m: Mem) {
    exists i, s {:trigger Lost(pl, lm0, i, s)} :: 0 <= i < |pl.objs| && Lost(pl, lm0, i, s)
      && Rd(m, Rd(lm0, s) - HEADER_SIZE) == s && IsVectorWord(Rd(m, s))
  }

  lemma OutsideHeapReads(e: Model, pl: Plan, lm0: Mem, m: Mem, lm: Mem, ch: Chains, from: int, a: int)
    requires ValidModel(e) && WellPlanned(e, lm0, pl) && Rep(m, lm, ch, pl.slots) && ch.Keys == pl.live
    requires CellsKept(pl, lm0, lm, from) && from <= pl.hi && !(pl.lo <= a < pl.hi) && a !in pl.slots
    ensures Rd(m, a) == Rd(lm0, a)
  {
    hide WellPlanned, Rep;
    if a + HEADER_SIZE in ch { HeaderInHeap(e, lm0, pl, a + HEADER_SIZE); }
    ReadsPlainCell(m, lm, ch, pl.slots, a);
  }

  lemma DeadCellReads(e: Model, pl: Plan, lm0: Mem, m: Mem, lm: Mem, ch: Chains, i: nat, a: int)
    requires ValidModel(e) && WellPlanned(e, lm0, pl) && Rep(m, lm, ch, pl.slots) && ch.Keys == pl.live
    requires i < |pl.objs| && !pl.objs[i].live && pl.objs[i].start <= a < pl.objs[i].End()
    ensures Rd(m, a) == Rd(lm, a)
  {
    hide WellPlanned, Rep;
    DescriptionCellOfDead(e, pl, lm0, i, a);
    ReadsPlainCell(m, lm, ch, pl.slots, a);
  }

  lemma LiveHeaderReads(e: Model, pl: Plan, lm0: Mem, m: Mem, lm: Mem, ch: Chains, from: int, w: int)
    requires ValidModel(e) && WellPlanned(e, lm0, pl) && Rep(m, lm, ch, pl.slots) && ch.Keys == pl.live
    requires CellsKept(pl, lm0, lm, from) && w in pl.live
    ensures Rd(m, w - HEADER_SIZE) != FORWARDED
  {
    hide WellPlanned, Rep, Describes;
    var j := OwnerOfData(e, lm0, pl, w);
    HeaderInHeap(e, lm0, pl, w);
    DescribedObject(e, lm0, pl, j);
    LiveHeaderNotForwarded(e, lm0, pl.objs[j]);
    HeaderInPlace(m, lm, ch, pl.slots, w);
    assert Rd(lm, w - HEADER_SIZE) == Rd(lm0, w - HEADER_SIZE);
  }

  lemma DescribedObject(e: Model, lm: Mem, pl: Plan, i: nat)
    requires WellPlanned(e, lm, pl) && i < |pl.objs|
    ensures Describes(e, lm, pl.objs[i])
  {
    assert pl.objs[i] in pl.objs;
  }

  lemma SlotReads(e: Model, pl: Plan, lm0: Mem, m: Mem, lm: Mem, ch: Chains, d: nat, from: int, heapLo: int, heapHi: int, w: int)
    requires ValidModel(e) && WellPlanned(e, lm0, pl) && Rep(m, lm, ch, pl.slots) && ch.Keys == pl.live && d <= |pl.objs|
    requires CellsKept(pl, lm0, lm, from) && from <= pl.hi && VectorsOk(pl, lm0, lm, d) && GoodForwards(pl, lm0)
    requires WordOk(pl, lm0, heapLo, heapHi, w)
    ensures ReadsOk(m, ch, pl.fwd, VectorCells(pl.objs, d), heapLo, heapHi, w)
  {
    hide WellPlanned, Rep, CellsKept, VectorCells, RunStart;
    if w in pl.live {
      LiveHeaderReads(e, pl, lm0, m, lm, ch, from, w);
      assert w - HEADER_SIZE + HEADER_SIZE == w;
    } else if w in pl.fwd {
      LiftedReads(e, pl, lm0, m, lm, ch, d, w);
      if IsObjptr(pl.fwd[w]) && pl.fwd[w] != 0 { OutsideHeapReads(e, pl, lm0, m, lm, ch, from, pl.fwd[w] - HEADER_SIZE); }
    } else {
      if IsObjptr(w) && w != 0 { OutsideHeapReads(e, pl, lm0, m, lm, ch, from, w - HEADER_SIZE); }
    }
  }

  /** The forwarding header of a lifted object can be read, and its forwarding
      pointer, unless a vector has been written over the header. */
  lemma LiftedReads(e: Model, pl: Plan, lm0: Mem, m: Mem, lm: Mem, ch: Chains, d: nat, x: int)
    requires ValidModel(e) && WellPlanned(e, lm0, pl) && Rep(m, lm, ch, pl.slots) && ch.Keys == pl.live && d <= |pl.objs|
    requires VectorsOk(pl, lm0, lm, d) && GoodForwards(pl, lm0) && x in pl.fwd
    ensures pl.fwd[x] !in pl.live && x !in pl.live
    ensures if x - HEADER_SIZE in VectorCells(pl.objs, d) then Rd(m, x - HEADER_SIZE) != FORWARDED && IsVectorWord(Rd(m, x - HEADER_SIZE))
            else Rd(m, x - HEADER_SIZE) == FORWARDED && Rd(m, x) == pl.fwd[x]
  {
    hide WellPlanned, Rep, VectorCells;
    var i := ForwardedTile(e, pl, lm0, x);
    DeadCellReads(e, pl, lm0, m, lm, ch, i, x - HEADER_SIZE);
    DeadCellReads(e, pl, lm0, m, lm, ch, i, x);
    if x in VectorCells(pl.objs, d) { HeaderGoesFirst(e, pl, lm0, d, x); }
  }

  /** A vector begins where an object did: it cannot be written over a
      forwarding pointer without being written over the header before it. */
  lemma HeaderGoesFirst(e: Model, pl: Plan, lm0: Mem, d: nat, x: int)
    requires WellPlanned(e, lm0, pl) && GoodForwards(pl, lm0) && d <= |pl.objs| && x in pl.fwd
    requires x in VectorCells(pl.objs, d)
    ensures x - HEADER_SIZE in VectorCells(pl.objs, d)
  {
    hide Describes, Inert, LiveSlots, LiveData, Destined, GoodForwards;
    var i := ForwardedTile(e, pl, lm0, x);
    var k, n := VectorRun(pl.objs, d, x);
    if x == pl.objs[k].start {
      TiledRange(pl.objs, pl.lo, pl.hi, k);
      ObjectOfAddress(pl.objs, pl.lo, pl.hi, i, k, x);
    }
  }

  lemma {:induction false} VectorRun(objs: seq<Object>, d: nat, a: int) returns (k: nat, n: nat)
    requires d <= |objs| && a in VectorCells(objs, d)
    ensures k <= n < d && a in RunCells(objs, k, n) && RunCells(objs, k, n) <= VectorCells(objs, d)
    decreases d
  {
    if a in VectorCells(objs, d - 1) { k, n := VectorRun(objs, d - 1, a); } else { k, n := RunStart(objs, d - 1), d - 1; }
  }

  /** Compression touches neither slots nor headers of live objects. */
  lemma CompressionKeepsRep(e: Model, pl: Plan, lm0: Mem, m: Mem, lm: Mem, ch: Chains, d: nat, n: nat, v: int, r: int)
    requires ValidModel(e) && WellPlanned(e, lm0, pl) && d <= n < |pl.objs|
    requires forall k {:trigger pl.objs[k]} :: d <= k < n ==> !pl.objs[k].live
    requires Rep(m, lm, ch, pl.slots) && ch.Keys == pl.live && SlotStates(pl, lm0, lm, ch, v, r)
    requires Compressible(pl.objs[n].start - pl.objs[d].start)
    ensures var from, to := pl.objs[d].start, pl.objs[n].start;
      && Rep(FilledWithVector(m, from, to - from), CompressedCells(lm, from, to), ch, pl.slots)
      && SlotStates(pl, lm0, CompressedCells(lm, from, to), ch, v, r)
  {
    hide WellPlanned, ValidModel, Rep, Pending, FilledWithVector, SlotStates;
    var from, to := pl.objs[d].start, pl.objs[n].start;
    VectorKeepsRep(e, pl, lm0, m, lm, ch, d, n);
    SlotStatesFrame(pl, lm0, lm, FilledWithVector(lm, from, to - from), ch, ch, v, r);
  }

  lemma VectorKeepsRep(e: Model, pl: Plan, lm0: Mem, m: Mem, lm: Mem, ch: Chains, d: nat, n: nat)
    requires ValidModel(e) && WellPlanned(e, lm0, pl) && d <= n < |pl.objs|
    requires forall k {:trigger pl.objs[k]} :: d <= k < n ==> !pl.objs[k].live
    requires Rep(m, lm, ch, pl.slots) && ch.Keys == pl.live && Compressible(pl.objs[n].start - pl.objs[d].start)
    ensures var from, to := pl.objs[d].start, pl.objs[n].start;
      && Rep(FilledWithVector(m, from, to - from), FilledWithVector(lm, from, to - from), ch, pl.slots)
      && (forall s {:trigger Rd(FilledWithVector(lm, from, to - from), s)} :: s in pl.slots ==> Rd(FilledWithVector(lm, from, to - from), s) == Rd(lm, s))
      && (forall s {:trigger Pending(FilledWithVector(lm, from, to - from), ch, s)} ::
            Pending(FilledWithVector(lm, from, to - from), ch, s) <==> Pending(lm, ch, s))
  {
    hide WellPlanned, Rep, Pending, FilledWithVector;
    var from, to := pl.objs[d].start, pl.objs[n].start;
    var m', lm' := FilledWithVector(m, from, to - from), FilledWithVector(lm, from, to - from);
    forall s {:trigger s in pl.slots} | s in pl.slots ensures !(from <= s < to) {
      if from <= s < to { RunHoldsNoSlots(e, lm0, pl, d, n, s); }
    }
    forall x {:trigger x in ch} | x in ch ensures !(from <= x - HEADER_SIZE < to) {
      if from <= x - HEADER_SIZE < to { RunHoldsNoSlots(e, lm0, pl, d, n, x - HEADER_SIZE); }
    }
    forall a {:trigger Rd(m', a)} ensures Rd(m', a) == if from <= a < to then Rd(lm', a) else Rd(m, a) {
      if from <= a < to {
        RunHoldsNoSlots(e, lm0, pl, d, n, a);
        ReadsPlainCell(m, lm, ch, pl.slots, a);
      }
    }
    RewriteKeepsRep(m, lm, ch, pl.slots, m', lm', from, to);
  }

  lemma SlotStatesFrame(pl: Plan, lm0: Mem, lm: Mem, lm': Mem, ch: Chains, ch': Chains, v: int, r: int)
    requires SlotStates(pl, lm0, lm, ch, v, r)
    requires forall s {:trigger Rd(lm', s)} :: s in pl.slots ==> Rd(lm', s) == Rd(lm, s)
    requires forall s {:trigger Pending(lm', ch', s)} :: s in pl.slots ==> (Pending(lm', ch', s) <==> Pending(lm, ch, s))
    ensures SlotStates(pl, lm0, lm', ch', v, r)
  {
    forall s {:trigger Rd(lm', s)} | s in pl.slots ensures SlotState(pl, lm0, lm', ch', s, v, r) {
      assert SlotState(pl, lm0, lm, ch, s, v, r);
      assert Pending(lm', ch', s) <==> Pending(lm, ch, s);
    }
  }

  lemma RunOfPass(e: Model, pl: Plan, lm0: Mem, lm: Mem, pr: Progress)
    requires Pass1Cells(e, pl, lm0, lm, pr)
    ensures pr.d <= pr.n <= |pl.objs|
    ensures forall k {:trigger pl.objs[k]} :: pr.d <= k < pr.n ==> !pl.objs[k].live
  {
  }

  /** What the first pass reads at a live object. */
  lemma LiveObjectReads(e: Model, pl: Plan, lm0: Mem, m: Mem, lm: Mem, ch: Chains, pr: Progress)
    requires ValidModel(e) && WellPlanned(e, lm0, pl) && Pass1Cells(e, pl, lm0, lm, pr)
    requires Rep(m, lm, ch, pl.slots) && ch.Keys == pl.live
    requires pr.n < |pl.objs| && pl.objs[pr.n].live
    ensures var o := pl.objs[pr.n];
      && Describes(e, lm, o)
      && o.data in ch
      && AdvanceToObjectData(m, o.start) == o.data
      && IsLiveHeader(Rd(lm, o.data - HEADER_SIZE))
      && (TypeOf(e, Rd(lm, o.data - HEADER_SIZE)).tag == ArrayTag ==> Rd(m, o.data - 16) == Rd(lm, o.data - 16))
  {
    hide Rebuilt, CellsKept, Inert, Describes, IsAligned, Rep, WellPlanned;
    var o := pl.objs[pr.n];
    LiveObjectDescribed(e, pl, lm0, lm, Edge(pl.objs, pl.hi, pr.d), pr.n);
    assert o.data in pl.live by { WellPlannedIsGood(e, lm0, pl); }
    LiveHeaderNotForwarded(e, lm, o);
    forall a {:trigger Rd(m, a)} | o.start <= a < o.data && a + HEADER_SIZE != o.data ensures Rd(m, a) == Rd(lm, a) {
      if a + HEADER_SIZE in pl.live {
        DescribedShape(e, lm, o);
        HeaderOwner(e, lm0, pl, pr.n, a + HEADER_SIZE);
      }
      assert Rd(lm, a) == Rd(lm0, a);
      ReadsPlainCell(m, lm, ch, pl.slots, a);
    }
    FirstCell(e, m, lm, ch, pl.slots, o);
  }

  lemma FirstCell(e: Model, m: Mem, lm: Mem, ch: Chains, slots: set<int>, o: Object)
    requires Describes(e, lm, o) && o.live && o.data in ch && Rep(m, lm, ch, slots)
    requires forall a {:trigger Rd(m, a)} :: o.start <= a < o.data && a + HEADER_SIZE != o.data ==> Rd(m, a) == Rd(lm, a)
    ensures AdvanceToObjectData(m, o.start) == o.data
    ensures TypeOf(e, Rd(lm, o.data - HEADER_SIZE)).tag == ArrayTag ==> Rd(m, o.data - 16) == Rd(lm, o.data - 16)
  {
    HeaderInPlace(m, lm, ch, slots, o.data);
    assert ChainOk(m, lm, o.data, ch[o.data], slots);
    assert ch[o.data] != [] ==> ch[o.data][0] in ch[o.data] && ch[o.data][0] in slots;
  }

  /** The second pass walks the same live objects over a heap of the same extent. */
  lemma RebuiltIsWellPlanned(e: Model, pl: Plan, lm0: Mem, lm: Mem, done: seq<Object>)
    requires ValidModel(e) && WellPlanned(e, lm0, pl) && Rebuilt(e, lm, pl, |pl.objs|, done)
    ensures WellPlanned(e, lm, pl.(objs := done))
    ensures forall o: Object {:trigger o in done} :: o.live ==> (o in done <==> o in pl.objs)
  {
    hide Describes, Tiled, Destined;
    assert pl.objs[..|pl.objs|] == pl.objs;
    SameLive(pl.objs, done);
    assert forall o {:trigger Inert(lm, pl, o)} :: Inert(lm, pl, o) ==> Inert(lm, pl.(objs := done), o);
  }

  lemma SameLive(a: seq<Object>, b: seq<Object>)
    requires forall o: Object {:trigger o in b} :: o.live ==> (o in b <==> o in a)
    ensures LiveData(a) == LiveData(b) && LiveSlots(a) == LiveSlots(b)
  {
    forall x ensures x in LiveData(a) <==> x in LiveData(b) {
      if x in LiveData(a) { var o :| o in a && o.live && o.data == x; assert o in b; }
      if x in LiveData(b) { var o :| o in b && o.live && o.data == x; assert o in a; }
    }
    forall x ensures x in LiveSlots(a) <==> x in LiveSlots(b) {
      if x in LiveSlots(a) { var o :| o in a && o.live && x in o.slots; assert o in b; }
      if x in LiveSlots(b) { var o :| o in b && o.live && x in o.slots; assert o in a; }
    }
  }

  /** What is left for the second pass to do. */
  ghost predicate Pass1Done(e: Model, pl: Plan, lm0: Mem, m: Mem, lm: Mem, ch: Chains, done: seq<Object>) {
    && WellPlanned(e, lm, pl.(objs := done))
    && (forall o: Object {:trigger o in done} :: o.live ==> (o in done <==> o in pl.objs))
    && Rep(m, lm, ch, pl.slots) && ch.Keys == pl.live
    && SlotStates(pl, lm0, lm, ch, pl.hi, pl.hi)
    && CellsKept(pl, lm0, lm, pl.hi)
    && DeadBefore(done, |done|) == DeadBefore(pl.objs, |pl.objs|)
  }

  lemma Pass1Start(e: Model, pl: Plan, lm0: Mem, m: Mem, lm: Mem, ch: Chains)
    requires WellPlanned(e, lm0, pl) && ValidModel(e) && Rep(m, lm, ch, pl.slots) && ch.Keys == pl.live
    requires SlotStates(pl, lm0, lm, ch, pl.lo, pl.lo)
    requires forall a {:trigger Rd(lm, a)} :: a !in pl.slots ==> Rd(lm, a) == Rd(lm0, a)
    ensures Pass1(e, pl, lm0, m, lm, ch, Progress(0, 0, 0, []))
  {
    hide Describes, Inert, LiveSlots, LiveData, Destined, Rep, SlotStates, IsAligned, VectorsOk;
    DivisionIs(0, e.alignment, 0, 0);
    NothingAligned(e.alignment);
    NothingRebuilt(e, lm, pl);
    WellPlannedIsGood(e, lm0, pl);
    DeadHaveNoSlots(e, pl, lm0);
    NoVectors(pl, lm0, lm);
  }

  lemma NothingRebuilt(e: Model, lm: Mem, pl: Plan)
    requires Edge(pl.objs, pl.hi, 0) == pl.lo
    ensures Rebuilt(e, lm, pl, 0, [])
  {
    hide Describes, Inert;
    assert pl.objs[..0] == [];
  }

  lemma NothingAligned(b: Positive)
    ensures IsAligned(0, b)
  {
  }

  /** At the end of the heap a trailing dead run stays as it is. */
  lemma Pass1End(e: Model, pl: Plan, lm0: Mem, m: Mem, lm: Mem, ch: Chains, pr: Progress)
    requires ValidModel(e) && WellPlanned(e, lm0, pl) && Pass1(e, pl, lm0, m, lm, ch, pr) && pr.n == |pl.objs|
    ensures Pass1Done(e, pl, lm0, m, lm, ch, pr.done + pl.objs[pr.d..])
  {
    hide Describes, Inert, Rep, SlotStates, CellsKept, WellPlanned, Rebuilt, DeadBefore;
    TrailingRun(e, pl, lm0, lm, pr);
    RebuiltIsWellPlanned(e, pl, lm0, lm, pr.done + pl.objs[pr.d..]);
    KeptFurther(e, pl, lm0, lm, pr);
    TrailingGap(e, pl, lm0, lm, pr);
  }

  lemma TrailingGap(e: Model, pl: Plan, lm0: Mem, lm: Mem, pr: Progress)
    requires ValidModel(e) && WellPlanned(e, lm0, pl) && Pass1Cells(e, pl, lm0, lm, pr) && pr.n == |pl.objs|
    ensures var done := pr.done + pl.objs[pr.d..]; DeadBefore(done, |done|) == DeadBefore(pl.objs, |pl.objs|)
  {
    hide Describes, Inert, CellsKept, LiveSlots, LiveData, Destined, DeadBefore, Rebuilt, IsAligned;
    var run := pl.objs[pr.d..];
    assert run == pl.objs[pr.d..|pl.objs|];
    TiledSlice(pl.objs, pl.lo, pl.hi, pr.d, |pl.objs|);
    TrailingRunIsDead(e, pl, lm0, lm, pr);
    RunIsDead(run, Edge(pl.objs, pl.hi, pr.d), pl.hi);
    DeadBeforeAppend(pr.done, run, |run|);
  }

  lemma KeptFurther(e: Model, pl: Plan, lm0: Mem, lm: Mem, pr: Progress)
    requires Pass1Cells(e, pl, lm0, lm, pr) && pr.n == |pl.objs|
    ensures CellsKept(pl, lm0, lm, pl.hi)
  {
  }

  lemma TrailingRun(e: Model, pl: Plan, lm0: Mem, lm: Mem, pr: Progress)
    requires ValidModel(e) && WellPlanned(e, lm0, pl) && Pass1Cells(e, pl, lm0, lm, pr) && pr.n == |pl.objs|
    ensures Rebuilt(e, lm, pl, |pl.objs|, pr.done + pl.objs[pr.d..])
  {
    hide Describes, Inert, CellsKept, LiveSlots, LiveData, Tiled, Destined, DeadBefore, IsAligned;
    var run := pl.objs[pr.d..];
    assert run == pl.objs[pr.d..|pl.objs|];
    TiledSlice(pl.objs, pl.lo, pl.hi, pr.d, |pl.objs|);
    TiledAppend(pr.done, pl.lo, Edge(pl.objs, pl.hi, pr.d), run, pl.hi);
    TrailingRunIsDead(e, pl, lm0, lm, pr);
    TrailingMembers(pl.objs, pr.d, pr.done);
    TrailingDestined(pl.to, pr.done, run);
  }

  lemma TrailingRunIsDead(e: Model, pl: Plan, lm0: Mem, lm: Mem, pr: Progress)
    requires ValidModel(e) && WellPlanned(e, lm0, pl) && Pass1Cells(e, pl, lm0, lm, pr) && pr.n == |pl.objs|
    ensures forall o {:trigger o in pl.objs[pr.d..]} :: o in pl.objs[pr.d..] ==> !o.live && Describes(e, lm, o) && Inert(lm, pl, o)
  {
    hide Describes, Inert, CellsKept, WellPlanned, Rebuilt;
    forall o {:trigger o in pl.objs[pr.d..]} | o in pl.objs[pr.d..] ensures !o.live && Describes(e, lm, o) && Inert(lm, pl, o) {
      var k :| pr.d <= k < |pl.objs| && pl.objs[k] == o;
      DeadObjectReads(e, pl, lm0, lm, pr, k);
    }
  }

  lemma TrailingDestined(to: map<int, int>, done: seq<Object>, run: seq<Object>)
    requires Destined(done, to) && forall o {:trigger o in run} :: o in run ==> !o.live
    ensures Destined(done + run, to)
  {
    var all := done + run;
    forall i {:trigger all[i]} | 0 <= i < |all| && all[i].live
      ensures all[i].data in to && to[all[i].data] == all[i].data - DeadBefore(all, i)
    {
      assert forall k :: 0 <= k < |run| ==> run[k] in run && all[|done| + k] == run[k];
      assert i < |done| && all[i] == done[i];
      DeadBeforePrefix(done, run, i);
    }
  }

  lemma TrailingMembers(objs: seq<Object>, d: nat, done: seq<Object>)
    requires d <= |objs|
    requires forall o: Object {:trigger o in done} :: o.live ==> (o in done <==> o in objs[..d])
    requires forall o {:trigger o in objs[d..]} :: o in objs[d..] ==> !o.live
    ensures forall o: Object {:trigger o in done + objs[d..]} :: o.live ==> (o in done + objs[d..] <==> o in objs[..|objs|])
  {
    assert objs[..|objs|] == objs[..d] + objs[d..];
  }
}
