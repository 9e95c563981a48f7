/** Jonkers' mark-compact collection of a local heap (mark-compact.c). */
module MarkCompact {
  import opened Sequences
  import opened Memory
  import opened Objects
  import opened Layout
  import opened FillGap
  import opened HeapObjects
  import opened Forwarding
  import opened Threading
  import opened CompactionPlan
  import opened ForwardPass
  import opened BackwardPass
  import opened Compacted

  class Compactor {
    const e: Model
    const heapStart: int
    const heapSize: nat
    var mem: Mem
    var oldGenSize: int
    /** The words that vectors over dead runs have been written to: a record kept
        to tell when a slot is threaded through one of them. */
    var vectors: set<int>
    ghost var lm: Mem
    ghost var ch: Chains

    constructor (e: Model, heapStart: int, heapSize: nat, oldGenSize: int, mem: Mem)
      ensures this.e == e && this.heapStart == heapStart && this.heapSize == heapSize
      ensures this.oldGenSize == oldGenSize && this.mem == mem && vectors == {}
    {
      this.e, this.heapStart, this.heapSize := e, heapStart, heapSize;
      this.oldGenSize, this.mem, this.vectors := oldGenSize, mem, {};
      this.lm, this.ch := mem, map[];
    }

    predicate InHeap(p: int) { heapStart <= p < heapStart + heapSize }

    /** A word that threadInternalObjptrIfInLocalHeap acts upon. */
    predicate Threads(w: int) { IsObjptr(w) && InHeap(w) }

    /** The do loop that gives every slot threaded to p its new value and ends
        with p's header back in place. */
    method UpdateThreadedPointers(p: int, to: int, ghost slots: set<int>)
      requires Rep(mem, lm, ch, slots) && p in ch && ch[p] != []
      modifies this`mem, this`lm, this`ch
      ensures Rep(mem, lm, ch, slots) && ch == old(ch)[p := []]
      ensures forall a {:trigger Rd(lm, a)} :: Rd(lm, a) == if a in old(ch)[p] then to else Rd(old(lm), a)
    {
      hide Rep, Pending;
      ghost var l0, lm0, ch0 := ch[p], lm, ch;
      ghost var k := 0;
      var headerp := p - HEADER_SIZE;
      var header := Rd(mem, headerp);
      HeaderInPlace(mem, lm, ch, slots, p);
      while !IsHeader(header)
        invariant k <= |l0| && p in ch && ch == ch0[p := l0[k..]]
        invariant Rep(mem, lm, ch, slots) && header == Rd(mem, headerp)
        invariant IsHeader(header) <==> ch[p] == []
        invariant forall a {:trigger Rd(lm, a)} :: Rd(lm, a) == if a in l0[..k] then to else Rd(lm0, a)
        decreases |l0| - k
      {
        UnthreadFirstKeepsRep(mem, lm, ch, slots, p, to);
        ghost var next := UnthreadFirst(mem, p, ch[p][0], to);
        ghost var lm' := lm[ch[p][0] := to];
        assert forall a {:trigger Rd(lm', a)} :: Rd(lm', a) == if a == ch[p][0] then to else Rd(lm, a);
        assert l0[..k + 1] == l0[..k] + [ch[p][0]];
        var cur := Rd(mem, headerp);
        mem := mem[headerp := Rd(mem, cur)];
        mem := mem[cur := to];
        assert mem == next;
        lm, ch, k := lm', ch[p := ch[p][1..]], k + 1;
        HeaderInPlace(mem, lm, ch, slots, p);
        header := Rd(mem, headerp);
      }
      assert k == |l0| && l0[..k] == l0;
    }

    /** threadInternalObjptrIfInLocalHeap. It goes wrong, and ok is false, on a
        pointer to a lifted object whose header has been written over. */
    method ThreadInternalObjptr(s: int, ghost slots: set<int>, ghost fwd: map<int, int>) returns (ok: bool)
      requires Rep(mem, lm, ch, slots) && s in slots && !Pending(lm, ch, s)
      requires ReadsOk(mem, ch, fwd, vectors, heapStart, heapStart + heapSize, Rd(lm, s))
      modifies this`mem, this`lm, this`ch
      ensures var w := Rd(old(lm), s); ok <==> w in old(ch) || !(w in fwd && w - HEADER_SIZE in vectors)
      ensures var w := Rd(old(lm), s); ok ==>
        && Rep(mem, lm, ch, slots)
        && ch == (if w in old(ch) then old(ch)[w := [s] + old(ch)[w]] else old(ch))
        && forall a {:trigger Rd(lm, a)} :: Rd(lm, a) == if a == s && w !in old(ch) && w in fwd then fwd[w] else Rd(old(lm), a)
      ensures var w := Rd(old(lm), s); !ok ==>
        s != w - HEADER_SIZE ==> Rd(mem, w - HEADER_SIZE) == s && Rd(mem, s) == old(Rd(mem, w - HEADER_SIZE))
    {
      hide Rep, Pending;
      RepReadsSlot(mem, lm, ch, slots, s);
      ghost var m0, lm0, w0 := mem, lm, Rd(mem, s);
      FollowedOnce(mem, w0);
      var w := FixFwdObjptr(mem, Rd(mem, s), 1);
      if w != Rd(mem, s) {
        RedirectKeepsRep(mem, lm, ch, slots, s, w);
        mem, lm := mem[s := w], lm[s := w];
      }
      ok := true;
      if Threads(w) {
        var headerp := w - HEADER_SIZE;
        ok := headerp !in vectors;
        if ok {
          ThreadSlotKeepsRep(mem, lm, ch, slots, s);
          ch := ch[w := [s] + ch[w]];
        }
        ghost var next := ThreadSlot(mem, s, w);
        mem := mem[s := Rd(mem, headerp)];
        mem := mem[headerp := s];
        assert mem == next;
      }
    }

    /** foreachObjptrInObject over a live object of the first pass. */
    method ThreadObject(slots: seq<int>, ghost pl: Plan, ghost lm0: Mem, ghost i: nat, ghost pr: Progress) returns (ok: bool)
      requires ValidModel(e) && WellPlanned(e, lm0, pl) && GoodForwards(pl, lm0) && WordsOk(pl, lm0, heapStart, heapStart + heapSize)
      requires i < |pl.objs| && pl.objs[i].live && GoodObject(pl, i) && slots == pl.objs[i].slots && pr.n == pr.d == i + 1
      requires Rep(mem, lm, ch, pl.slots) && ch.Keys == pl.live && Pass1Cells(e, pl, lm0, lm, pr)
      requires VectorsOk(pl, lm0, lm, i + 1) && vectors == VectorCells(pl.objs, i + 1)
      requires SlotStates(pl, lm0, lm, ch, pl.objs[i].start, pl.objs[i].End())
      modifies this`mem, this`lm, this`ch
      ensures ok <==> forall s :: !Lost(pl, lm0, i, s)
      ensures ok ==> Rep(mem, lm, ch, pl.slots) && ch.Keys == pl.live && Pass1Cells(e, pl, lm0, lm, pr)
      ensures ok ==> VectorsOk(pl, lm0, lm, i + 1) && SlotStates(pl, lm0, lm, ch, pl.objs[i].End(), pl.objs[i].End())
      ensures !ok ==> Miswritten(pl, lm0, mem)
    {
      hide *;
      SlotFacts(e, pl, lm0);
      var k := 0;
      NoSlotYet(pl, lm0, i);
      while k < |slots|
        invariant k <= |slots|
        invariant Rep(mem, lm, ch, pl.slots) && ch.Keys == pl.live && Pass1Cells(e, pl, lm0, lm, pr)
        invariant VectorsOk(pl, lm0, lm, i + 1)
        invariant SlotStates(pl, lm0, lm, ch, ThreadedUpTo(pl.objs[i], k), pl.objs[i].End())
        invariant NoneLostBefore(pl, lm0, i, k)
      {
        UnvisitedSlot(pl, lm0, lm, ch, i, k);
        SlotIsRead(e, pl, lm0, mem, lm, ch, pr, i, k, heapStart, heapStart + heapSize);
        ghost var lmk, chk, mk := lm, ch, mem;
        ok := ThreadInternalObjptr(slots[k], pl.slots, pl.fwd);
        if !ok {
          SlotMiswritten(e, pl, lm0, mk, lmk, mem, i, k);
          return;
        }
        SlotThreaded(e, pl, lm0, lmk, chk, pr, i, k, lm, ch);
        k := k + 1;
      }
      ok := true;
      AllSlotsThreaded(pl, lm0, lm, ch, i);
      NoneLostAtAll(pl, lm0, i, k);
    }

    /** One live object of the first pass: update what is threaded to it,
        compress the dead run before it, thread its own pointers. */
    method ForwardLiveObject(front: int, gap: int, endOfLastMarked: int, ghost pl: Plan, ghost lm0: Mem, ghost pr: Progress)
      returns (ok: bool, size: int, ghost pr': Progress)
      requires ValidModel(e) && WellPlanned(e, lm0, pl) && Pass1(e, pl, lm0, mem, lm, ch, pr)
      requires GoodForwards(pl, lm0) && WordsOk(pl, lm0, heapStart, heapStart + heapSize)
      requires pr.n < |pl.objs| && pl.objs[pr.n].live && pr.d <= |pl.objs| && vectors == VectorCells(pl.objs, pr.d)
      requires front == pl.objs[pr.n].start && gap == pr.gap && endOfLastMarked == Edge(pl.objs, pl.hi, pr.d)
      modifies this
      ensures ok <==> forall s :: !Lost(pl, lm0, pr.n, s)
      ensures ok ==> size == pl.objs[pr.n].size && Pass1(e, pl, lm0, mem, lm, ch, pr')
      ensures ok ==> pr'.n == pr'.d == pr.n + 1 && pr'.gap == pr.gap && vectors == VectorCells(pl.objs, pr'.d)
      ensures !ok ==> Miswritten(pl, lm0, mem)
      ensures oldGenSize == old(oldGenSize)
    {
      hide *;
      ForwardsApart(pl, lm0);
      LiveStep0(e, pl, lm0, mem, lm, ch, pr);
      var p := AdvanceToObjectData(mem, front);
      var header := Rd(mem, p - HEADER_SIZE);
      if !IsHeader(header) {
        ghost var m1, lm1, ch1 := mem, lm, ch;
        UpdateThreadedPointers(p, p - gap, pl.slots);
        LiveStep1(e, pl, lm0, m1, lm1, ch1, pr, mem, lm, ch);
        header := Rd(mem, p - HEADER_SIZE);
      } else {
        NothingThreaded(lm, ch, p, p - gap);
        LiveStep1(e, pl, lm0, mem, lm, ch, pr, mem, lm, ch);
      }
      LiveStep2(e, pl, lm0, mem, lm, ch, pr);
      size := SizeWithHeader(e, mem, p, header);
      var slots := Slots(TypeOf(e, header), p, Length(Rd(mem, p - 16)));
      pr' := LiveStep3(e, pl, lm0, mem, lm, ch, pr);
      if Compressible(front - endOfLastMarked) {
        mem := FilledWithVector(mem, endOfLastMarked, front - endOfLastMarked);
        vectors := vectors + {endOfLastMarked, endOfLastMarked + 8, endOfLastMarked + 16};
      }
      lm := CompressedCells(lm, endOfLastMarked, front);
      ok := ThreadObject(slots, pl, lm0, pr.n, pr');
      if ok { LiveStep4(e, pl, lm0, mem, lm, ch, pr'); }
    }

    /** updateForwardPointersForMarkCompact over a local heap. */
    method UpdateForwardPointers(start: int, back: int, ghost pl: Plan, ghost lm0: Mem) returns (ok: bool, ghost done: seq<Object>)
      requires ValidModel(e) && WellPlanned(e, lm0, pl) && start == pl.lo && back == pl.hi && vectors == {}
      requires GoodForwards(pl, lm0) && WordsOk(pl, lm0, heapStart, heapStart + heapSize)
      requires Rep(mem, lm, ch, pl.slots) && ch.Keys == pl.live && SlotStates(pl, lm0, lm, ch, pl.lo, pl.lo)
      requires forall a {:trigger Rd(lm, a)} :: a !in pl.slots ==> Rd(lm, a) == Rd(lm0, a)
      modifies this
      ensures ok <==> NoneLost(pl, lm0, |pl.objs|)
      ensures if ok then Pass1Done(e, pl, lm0, mem, lm, ch, done) else Miswritten(pl, lm0, mem)
      ensures oldGenSize == old(oldGenSize)
    {
      hide *;
      var front, gap, endOfLastMarked := start, 0, start;
      ghost var pr := Progress(0, 0, 0, []);
      Pass1Start(e, pl, lm0, mem, lm, ch);
      PassPosition(e, pl, lm0, mem, lm, ch, pr);
      NothingPassed(pl, lm0);
      while front != back
        invariant Pass1(e, pl, lm0, mem, lm, ch, pr) && pr.d <= pr.n <= |pl.objs|
        invariant front == Edge(pl.objs, pl.hi, pr.n) && gap == pr.gap && endOfLastMarked == Edge(pl.objs, pl.hi, pr.d)
        invariant front == back <==> pr.n == |pl.objs|
        invariant vectors == VectorCells(pl.objs, pr.d) && NoneLost(pl, lm0, pr.n)
        invariant oldGenSize == old(oldGenSize)
        decreases |pl.objs| - pr.n
      {
        PassPosition(e, pl, lm0, mem, lm, ch, pr);
        PassReads(e, pl, lm0, mem, lm, ch, pr);
        OnePassed(pl, lm0, pr.n);
        var p := AdvanceToObjectData(mem, front);
        var header := Rd(mem, p - HEADER_SIZE);
        if IsHeader(header) && (!IsMarked(header) || header == FORWARDED) {
          var size := SizeofObject(e, mem, p);
          PassDead(e, pl, lm0, mem, lm, ch, pr);
          gap, front := gap + size, front + size;
          pr := pr.(n := pr.n + 1, gap := pr.gap + pl.objs[pr.n].size);
        } else {
          var size;
          ok, size, pr := ForwardLiveObject(front, gap, endOfLastMarked, pl, lm0, pr);
          if !ok {
            done := [];
            return;
          }
          front := front + size;
          endOfLastMarked := front;
        }
        PassPosition(e, pl, lm0, mem, lm, ch, pr);
      }
      ok, done := true, pr.done + pl.objs[pr.d..];
      Pass1End(e, pl, lm0, mem, lm, ch, pr);
    }

    /** One live object of the second pass: update what is threaded to it,
        unmark it and copy it down. */
    method SlideLiveObject(front: int, gap: int, ghost pl: Plan, ghost lm1: Mem, ghost ch1: Chains, ghost n: nat)
      returns (size: int)
      requires ValidModel(e) && WellPlanned(e, lm1, pl) && PointsBack(pl, lm1, ch1)
      requires Pass2(e, pl, lm1, ch1, mem, lm, ch, n) && n < |pl.objs| && pl.objs[n].live
      requires front == pl.objs[n].start && gap == DeadBefore(pl.objs, n)
      modifies this
      ensures size == pl.objs[n].size && Pass2(e, pl, lm1, ch1, mem, lm, ch, n + 1)
      ensures oldGenSize == old(oldGenSize)
    {
      hide *;
      var p, header := SettleLiveObject(front, gap, pl, lm1, ch1, n);
      SlideStep1(e, pl, lm1, ch1, mem, lm, ch, n);
      size := SizeWithHeader(e, mem, p, header);
      mem := mem[p - HEADER_SIZE := ToggleMark(header)];
      mem := CopyCells(mem, front - gap, gap, size);
      lm := Slid(lm, pl.objs[n], gap, ToggleMark(header));
    }

    /** Puts the new address of a live object into all that is threaded to it. */
    method SettleLiveObject(front: int, gap: int, ghost pl: Plan, ghost lm1: Mem, ghost ch1: Chains, ghost n: nat)
      returns (p: int, header: int)
      requires ValidModel(e) && WellPlanned(e, lm1, pl) && PointsBack(pl, lm1, ch1)
      requires Pass2(e, pl, lm1, ch1, mem, lm, ch, n) && n < |pl.objs| && pl.objs[n].live
      requires front == pl.objs[n].start && gap == DeadBefore(pl.objs, n)
      modifies this
      ensures Pass2Settled(e, pl, lm1, ch1, mem, lm, ch, n)
      ensures p == pl.objs[n].data && header == Rd(mem, p - HEADER_SIZE) && oldGenSize == old(oldGenSize)
    {
      hide *;
      SlideStep0(e, pl, lm1, ch1, mem, lm, ch, n);
      p := AdvanceToObjectData(mem, front);
      header := Rd(mem, p - HEADER_SIZE);
      if !IsHeader(header) {
        ghost var m0, lm0, ch0 := mem, lm, ch;
        UpdateThreadedPointers(p, p - gap, pl.slots);
        ch := ch - {p};
        Pass2Settle(e, pl, lm1, ch1, m0, lm0, ch0, n, mem, lm, ch);
        header := Rd(mem, p - HEADER_SIZE);
      } else {
        NothingThreaded(lm, ch, p, p - gap);
        ghost var ch0 := ch;
        ch := ch - {p};
        Pass2Settle(e, pl, lm1, ch1, mem, lm, ch0, n, mem, lm, ch);
      }
    }

    /** updateBackwardPointersAndSlideForMarkCompact over a local heap. */
    method UpdateBackwardPointersAndSlide(start: int, back: int, ghost pl: Plan)
      requires ValidModel(e) && WellPlanned(e, lm, pl) && start == pl.lo && back == pl.hi
      requires Rep(mem, lm, ch, pl.slots) && ch.Keys == pl.live && PointsBack(pl, lm, ch)
      modifies this
      ensures Pass2(e, pl, old(lm), old(ch), mem, lm, ch, |pl.objs|)
      ensures oldGenSize == pl.hi - DeadBefore(pl.objs, |pl.objs|) - heapStart
    {
      hide *;
      ghost var lm1, ch1 := lm, ch;
      ghost var n: nat := 0;
      var front, gap := start, 0;
      Pass2Start(e, pl, mem, lm, ch);
      while front != back
        invariant n <= |pl.objs| && Pass2(e, pl, lm1, ch1, mem, lm, ch, n)
        invariant front == Edge(pl.objs, pl.hi, n) && gap == DeadBefore(pl.objs, n)
        invariant front == back <==> n == |pl.objs|
        decreases |pl.objs| - n
      {
        Pass2Reads(e, pl, lm1, ch1, mem, lm, ch, n);
        var p := AdvanceToObjectData(mem, front);
        var header := Rd(mem, p - HEADER_SIZE);
        if IsHeader(header) && (!IsMarked(header) || header == FORWARDED) {
          var size := SizeofObject(e, mem, p);
          Pass2Dead(e, pl, lm1, ch1, mem, lm, ch, n);
          gap, front := gap + size, front + size;
        } else {
          var size := SlideLiveObject(front, gap, pl, lm1, ch1, n);
          front := front + size;
        }
        n := n + 1;
      }
      oldGenSize := front - gap - heapStart;
    }

    /** majorMarkCompactGC from the point where everything reachable is marked
        and weak pointers to the unmarked are gone. */
    method CompactMarked(roots: seq<int>, start: int, ghost pl: Plan) returns (ok: bool)
      requires ValidModel(e) && WellPlanned(e, mem, pl) && vectors == {}
      requires start == pl.lo && heapStart + oldGenSize == pl.hi
      requires Distinct(roots) && forall s: int {:trigger s in pl.roots} :: s in roots <==> s in pl.roots
      requires GoodForwards(pl, mem) && WordsOk(pl, mem, heapStart, heapStart + heapSize)
      modifies this
      ensures ok <==> NoneLost(pl, old(mem), |pl.objs|)
      ensures if ok then IsCompacted(pl, old(mem), mem) && oldGenSize == old(oldGenSize) - DeadBefore(pl.objs, |pl.objs|)
              else Miswritten(pl, old(mem), mem)
    {
      hide *;
      lm := mem;
      ch := EmptyChains(e, pl, mem);
      ghost var lm0 := mem;
      RootsAreSlots(e, lm0, pl);
      ForwardsApart(pl, lm0);
      WellPlannedIsGood(e, lm0, pl);
      ThreadRoots(roots, pl, lm0);
      AllRootsThreaded(pl, lm0, lm, ch);
      ghost var done;
      ok, done := UpdateForwardPointers(start, heapStart + oldGenSize, pl, lm0);
      if !ok { return; }
      ghost var m1, lm1, ch1 := mem, lm, ch;
      Pass1Leaves(e, pl, lm0, m1, lm1, ch1, done);
      UpdateBackwardPointersAndSlide(start, heapStart + oldGenSize, pl.(objs := done));
      CompactionIsCorrect(e, pl, lm0, m1, lm1, ch1, done, mem, lm, ch);
    }

    /** foreachGlobalObjptrInScope with threadInternalObjptrIfInLocalHeap. */
    method ThreadRoots(roots: seq<int>, ghost pl: Plan, ghost lm0: Mem)
      requires ValidModel(e) && WellPlanned(e, lm0, pl) && GoodSlots(pl) && FixedApart(pl) && vectors == {}
      requires GoodForwards(pl, lm0) && WordsOk(pl, lm0, heapStart, heapStart + heapSize)
      requires forall s: int {:trigger s in pl.roots} :: s in roots <==> s in pl.roots
      requires forall s {:trigger s in pl.roots} :: s in pl.roots ==> s in pl.slots
      requires Distinct(roots) && Rep(mem, lm, ch, pl.slots) && ch.Keys == pl.live && RootsThreaded(pl, lm0, lm, ch, {})
      modifies this`mem, this`lm, this`ch
      ensures Rep(mem, lm, ch, pl.slots) && ch.Keys == pl.live && RootsThreaded(pl, lm0, lm, ch, pl.roots)
    {
      hide *;
      var k := 0;
      ghost var done: set<int> := {};
      while k < |roots|
        invariant k <= |roots|
        invariant forall s {:trigger s in done} :: s in done ==> s in pl.roots
        invariant forall j {:trigger roots[j]} :: 0 <= j < |roots| ==> (roots[j] in done <==> j < k)
        invariant Rep(mem, lm, ch, pl.slots) && ch.Keys == pl.live && RootsThreaded(pl, lm0, lm, ch, done)
      {
        var s := roots[k];
        assert s in roots && s in pl.roots && s in pl.slots && s !in done;
        RootIsRead(e, pl, lm0, mem, lm, ch, done, s, heapStart, heapStart + heapSize);
        ghost var lmk, chk := lm, ch;
        var ok := ThreadInternalObjptr(s, pl.slots, pl.fwd);
        FixedIs(pl, lmk, chk, s);
        RootThreaded(pl, lm0, lmk, chk, done, s, lm, ch);
        DistinctAt(roots, k);
        done := done + {s};
        k := k + 1;
      }
      forall s: int ensures s in done <==> s in pl.roots {
        assert s in roots <==> s in pl.roots;
        if s in roots {
          var j :| 0 <= j < k && roots[j] == s;
        }
      }
      assert done == pl.roots;
    }
  }

  lemma DistinctAt(l: seq<int>, k: nat)
    requires Distinct(l) && k < |l|
    ensures forall j {:trigger l[j]} :: 0 <= j < |l| && j != k ==> l[j] != l[k]
  {
  }

  lemma ForwardsApart(pl: Plan, lm0: Mem)
    requires GoodForwards(pl, lm0)
    ensures FixedApart(pl)
  {
  }

  lemma FixedIs(pl: Plan, lm: Mem, ch: Chains, s: int)
    requires FixedApart(pl) && ch.Keys == pl.live
    ensures var w := Rd(lm, s); Fixed(pl, w) == if w !in ch && w in pl.fwd then pl.fwd[w] else w
  {
  }

  lemma RootIsRead(e: Model, pl: Plan, lm0: Mem, m: Mem, lm: Mem, ch: Chains, done: set<int>, s: int, heapLo: int, heapHi: int)
    requires ValidModel(e) && WellPlanned(e, lm0, pl) && GoodForwards(pl, lm0) && WordsOk(pl, lm0, heapLo, heapHi)
    requires Rep(m, lm, ch, pl.slots) && ch.Keys == pl.live && RootsThreaded(pl, lm0, lm, ch, done)
    requires (forall t {:trigger t in done} :: t in done ==> t in pl.roots) && s in pl.roots && s !in done
    ensures s in pl.slots && !Pending(lm, ch, s) && Rd(lm, s) == Rd(lm0, s)
    ensures ReadsOk(m, ch, pl.fwd, {}, heapLo, heapHi, Rd(lm, s))
  {
    hide Rep, Pending, ReadsOk, WordOk, GoodForwards, LiveSlots, LiveData, Destined, Describes, Inert;
    WellPlannedIsGood(e, lm0, pl);
    DeadHaveNoSlots(e, pl, lm0);
    NoVectors(pl, lm0, lm);
    assert pl.lo <= pl.hi by { if |pl.objs| > 0 { TiledRange(pl.objs, pl.lo, pl.hi, 0); } }
    SlotReads(e, pl, lm0, m, lm, ch, 0, pl.lo, heapLo, heapHi, Rd(lm, s));
  }

  lemma NothingPassed(pl: Plan, lm0: Mem)
    ensures NoneLost(pl, lm0, 0) && VectorCells(pl.objs, 0) == {}
  {
  }

  lemma OnePassed(pl: Plan, lm0: Mem, n: nat)
    requires n < |pl.objs| && NoneLost(pl, lm0, n)
    ensures NoneLost(pl, lm0, n + 1) <==> forall s :: !Lost(pl, lm0, n, s)
    ensures !pl.objs[n].live ==> NoneLost(pl, lm0, n + 1)
    ensures (exists s :: Lost(pl, lm0, n, s)) ==> !NoneLost(pl, lm0, |pl.objs|)
  {
  }

  // ------------------------------------------------- the steps of ThreadObject

  ghost predicate NoneLostBefore(pl: Plan, lm0: Mem, i: nat, k: nat)
    requires i < |pl.objs| && k <= |pl.objs[i].slots|
  {
    forall j {:trigger pl.objs[i].slots[j]} :: 0 <= j < k ==> !Lost(pl, lm0, i, pl.objs[i].slots[j])
  }

  lemma NoSlotYet(pl: Plan, lm0: Mem, i: nat)
    requires i < |pl.objs|
    ensures NoneLostBefore(pl, lm0, i, 0) && ThreadedUpTo(pl.objs[i], 0) == pl.objs[i].start
  {
  }

  lemma NoneLostAtAll(pl: Plan, lm0: Mem, i: nat, k: nat)
    requires i < |pl.objs| && k == |pl.objs[i].slots| && NoneLostBefore(pl, lm0, i, k)
    ensures forall s :: !Lost(pl, lm0, i, s)
  {
    hide VectorCells;
    forall s ensures !Lost(pl, lm0, i, s) {
      if s in pl.objs[i].slots { var j :| 0 <= j < k && pl.objs[i].slots[j] == s; }
    }
  }

  lemma SlotFacts(e: Model, pl: Plan, lm0: Mem)
    requires ValidModel(e) && WellPlanned(e, lm0, pl) && GoodForwards(pl, lm0)
    ensures GoodSlots(pl) && GoodLive(pl) && FixedApart(pl)
  {
    hide WellPlanned, GoodSlots, GoodLive, FixedApart;
    WellPlannedIsGood(e, lm0, pl);
    ForwardsApart(pl, lm0);
  }

  lemma SlotIsRead(e: Model, pl: Plan, lm0: Mem, m: Mem, lm: Mem, ch: Chains, pr: Progress, i: nat, k: nat, heapLo: int, heapHi: int)
    requires ValidModel(e) && WellPlanned(e, lm0, pl) && GoodForwards(pl, lm0) && WordsOk(pl, lm0, heapLo, heapHi)
    requires Rep(m, lm, ch, pl.slots) && ch.Keys == pl.live && Pass1Cells(e, pl, lm0, lm, pr) && pr.d == i + 1
    requires i < |pl.objs| && VectorsOk(pl, lm0, lm, i + 1) && k < |pl.objs[i].slots|
    requires var s := pl.objs[i].slots[k]; s in pl.slots && Rd(lm, s) == Rd(lm0, s)
    ensures var w := Rd(lm, pl.objs[i].slots[k]);
      && ReadsOk(m, ch, pl.fwd, VectorCells(pl.objs, i + 1), heapLo, heapHi, w)
      && (w !in ch && w in pl.fwd && w - HEADER_SIZE in VectorCells(pl.objs, i + 1) ==>
            w !in pl.live && w - HEADER_SIZE !in pl.slots && IsVectorWord(Rd(m, w - HEADER_SIZE)))
  {
    hide WellPlanned, Rep, WordOk, VectorCells, Rebuilt, CellsKept, GoodForwards;
    assert Edge(pl.objs, pl.hi, i + 1) <= pl.hi by { EdgeOfPlan(e, lm0, pl, i + 1); }
    SlotReads(e, pl, lm0, m, lm, ch, i + 1, Edge(pl.objs, pl.hi, i + 1), heapLo, heapHi, Rd(lm, pl.objs[i].slots[k]));
  }

  lemma EdgeOfPlan(e: Model, lm0: Mem, pl: Plan, d: nat)
    requires WellPlanned(e, lm0, pl) && d <= |pl.objs|
    ensures Edge(pl.objs, pl.hi, d) <= pl.hi
  {
    hide LiveSlots, LiveData, Destined, Describes, Inert, Tiled;
    EdgeInHeap(pl.objs, pl.lo, pl.hi, d);
  }

  /** The slot has been threaded, fixed or passed over. */
  lemma SlotThreaded(e: Model, pl: Plan, lm0: Mem, lm: Mem, ch: Chains, pr: Progress, i: nat, k: nat, lm': Mem, ch': Chains)
    requires ValidModel(e) && WellPlanned(e, lm0, pl) && GoodForwards(pl, lm0) && GoodSlots(pl) && GoodLive(pl) && FixedApart(pl)
    requires GoodObject(pl, i) && k < |pl.objs[i].slots| && ch.Keys == pl.live && Pass1Cells(e, pl, lm0, lm, pr) && VectorsOk(pl, lm0, lm, i + 1)
    requires SlotStates(pl, lm0, lm, ch, ThreadedUpTo(pl.objs[i], k), pl.objs[i].End()) && NoneLostBefore(pl, lm0, i, k)
    requires var s := pl.objs[i].slots[k]; var w := Rd(lm, s);
      && s in pl.slots && w == Rd(lm0, s)
      && (w in ch || !(w in pl.fwd && w - HEADER_SIZE in VectorCells(pl.objs, i + 1)))
      && ch' == (if w in ch then ch[w := [s] + ch[w]] else ch)
      && forall a {:trigger Rd(lm', a)} :: Rd(lm', a) == if a == s && w !in ch && w in pl.fwd then pl.fwd[w] else Rd(lm, a)
    ensures ch'.Keys == pl.live && Pass1Cells(e, pl, lm0, lm', pr) && VectorsOk(pl, lm0, lm', i + 1)
    ensures SlotStates(pl, lm0, lm', ch', ThreadedUpTo(pl.objs[i], k + 1), pl.objs[i].End()) && NoneLostBefore(pl, lm0, i, k + 1)
  {
    hide WellPlanned, SlotStates, Pass1Cells, VectorsOk, GoodSlots, GoodLive, GoodForwards, VectorCells, Spaced;
    FixedIs(pl, lm, ch, pl.objs[i].slots[k]);
    ThreadNextSlot(pl, lm0, lm, ch, i, k, lm', ch');
    CellsKeptUnderSlots(e, pl, lm0, lm, lm', pr);
    DeadHaveNoSlots(e, pl, lm0);
    VectorsUnderSlots(pl, lm0, lm, i + 1, lm');
  }

  lemma SlotMiswritten(e: Model, pl: Plan, lm0: Mem, m: Mem, lm: Mem, m': Mem, i: nat, k: nat)
    requires i < |pl.objs| && pl.objs[i].live && k < |pl.objs[i].slots| && FixedApart(pl)
    requires var s := pl.objs[i].slots[k]; var w := Rd(lm, s);
      && s in pl.slots && w == Rd(lm0, s) && w !in pl.live && w in pl.fwd && w - HEADER_SIZE in VectorCells(pl.objs, i + 1)
      && w - HEADER_SIZE !in pl.slots && IsVectorWord(Rd(m, w - HEADER_SIZE))
      && Rd(m', w - HEADER_SIZE) == s && Rd(m', s) == Rd(m, w - HEADER_SIZE)
    ensures Miswritten(pl, lm0, m') && exists s :: Lost(pl, lm0, i, s)
  {
    hide VectorCells;
    assert Lost(pl, lm0, i, pl.objs[i].slots[k]);
  }

  lemma RootsAreSlots(e: Model, lm: Mem, pl: Plan)
    requires WellPlanned(e, lm, pl)
    ensures forall s {:trigger s in pl.roots} :: s in pl.roots ==> s in pl.slots
  {
  }

  lemma Pass1Leaves(e: Model, pl: Plan, lm0: Mem, m: Mem, lm: Mem, ch: Chains, done: seq<Object>)
    requires ValidModel(e) && WellPlanned(e, lm0, pl) && FixedApart(pl) && Pass1Done(e, pl, lm0, m, lm, ch, done)
    ensures WellPlanned(e, lm, pl.(objs := done)) && PointsBack(pl.(objs := done), lm, ch)
    ensures Rep(m, lm, ch, pl.slots) && ch.Keys == pl.live
    ensures DeadBefore(done, |done|) == DeadBefore(pl.objs, |pl.objs|)
  {
    hide WellPlanned, Rep, PointsBack;
    PointsBackAfterPass1(e, pl, lm0, m, lm, ch, done);
  }

  lemma Pass2Start(e: Model, pl: Plan, m: Mem, lm: Mem, ch: Chains)
    requires ValidModel(e) && WellPlanned(e, lm, pl)
    requires Rep(m, lm, ch, pl.slots) && ch.Keys == pl.live && PointsBack(pl, lm, ch)
    ensures Pass2(e, pl, lm, ch, m, lm, ch, 0)
    ensures Edge(pl.objs, pl.hi, 0) == pl.lo && DeadBefore(pl.objs, 0) == 0
    ensures pl.lo == pl.hi <==> |pl.objs| == 0
  {
    hide LiveSlots, LiveData, Destined, Inert, Describes, Rep, Pending;
    if |pl.objs| > 0 { TiledRange(pl.objs, pl.lo, pl.hi, 0); }
    forall x {:trigger x in ch} ensures x in ch <==> x in pl.live && pl.lo <= x {
      if x in pl.live { var j := OwnerOfData(e, lm, pl, x); }
    }
  }

  /** The test of the second pass tells dead objects from live ones. */
  lemma Pass2Reads(e: Model, pl: Plan, lm1: Mem, ch1: Chains, m: Mem, lm: Mem, ch: Chains, n: nat)
    requires ValidModel(e) && WellPlanned(e, lm1, pl) && PointsBack(pl, lm1, ch1)
    requires Pass2(e, pl, lm1, ch1, m, lm, ch, n) && n < |pl.objs|
    ensures var o := pl.objs[n]; var p := AdvanceToObjectData(m, o.start); var h := Rd(m, p - HEADER_SIZE);
      && (IsHeader(h) && (!IsMarked(h) || h == FORWARDED) <==> !o.live)
      && (!o.live ==> SizeofObject(e, m, p) == o.size)
    ensures pl.objs[n].start == Edge(pl.objs, pl.hi, n)
    ensures pl.objs[n].start + pl.objs[n].size == Edge(pl.objs, pl.hi, n + 1)
    ensures DeadBefore(pl.objs, n + 1) == DeadBefore(pl.objs, n) + if pl.objs[n].live then 0 else pl.objs[n].size
    ensures Edge(pl.objs, pl.hi, n + 1) == pl.hi <==> n + 1 == |pl.objs|
  {
    hide Pass2, WellPlanned, IsAligned, SizeofObject;
    var o := pl.objs[n];
    NextEdge(e, lm1, pl, n);
    Tiles(e, lm1, pl);
    if n + 1 < |pl.objs| { TiledRange(pl.objs, pl.lo, pl.hi, n + 1); }
    if o.live {
      SlideStep0(e, pl, lm1, ch1, m, lm, ch, n);
      LiveHeaderInMemory(e, pl, lm1, ch1, m, lm, ch, n);
    } else {
      Pass2DeadReads(e, pl, lm1, ch1, m, lm, ch, n);
    }
  }

  lemma LiveHeaderInMemory(e: Model, pl: Plan, lm1: Mem, ch1: Chains, m: Mem, lm: Mem, ch: Chains, n: nat)
    requires ValidModel(e) && WellPlanned(e, lm1, pl) && PointsBack(pl, lm1, ch1)
    requires Pass2(e, pl, lm1, ch1, m, lm, ch, n) && n < |pl.objs| && pl.objs[n].live
    requires pl.objs[n].data in ch
    ensures var h := Rd(m, pl.objs[n].data - HEADER_SIZE); !IsHeader(h) || IsLiveHeader(h)
  {
    hide WellPlanned, AllMoved, ValidModel, Describes, Pending, IsMarked, CellsAhead, Rep;
    var o := pl.objs[n];
    Pass2LiveReads(e, pl, lm1, ch1, m, lm, ch, n, o.start);
    LiveHeaderNotForwarded(e, lm, o);
    HeaderInPlace(m, lm, ch, pl.slots, o.data);
  }

  lemma SlideStep0(e: Model, pl: Plan, lm1: Mem, ch1: Chains, m: Mem, lm: Mem, ch: Chains, n: nat)
    requires ValidModel(e) && WellPlanned(e, lm1, pl) && PointsBack(pl, lm1, ch1)
    requires Pass2(e, pl, lm1, ch1, m, lm, ch, n) && n < |pl.objs| && pl.objs[n].live
    ensures var o := pl.objs[n];
      && AdvanceToObjectData(m, o.start) == o.data && o.data in ch
      && Rep(m, lm, ch, pl.slots)
      && (IsHeader(Rd(m, o.data - HEADER_SIZE)) <==> ch[o.data] == [])
  {
    hide WellPlanned, Rep, AllMoved, CellsAhead, ValidModel, Describes, Pending, AdvanceToObjectData;
    var o := pl.objs[n];
    WellPlannedIsGood(e, lm1, pl);
    DataAhead(e, lm1, pl, n, o.data);
    Pass2LiveReads(e, pl, lm1, ch1, m, lm, ch, n, o.start);
    FirstCell(e, m, lm, ch, pl.slots, o);
    HeaderInPlace(m, lm, ch, pl.slots, o.data);
  }

  lemma SlideStep1(e: Model, pl: Plan, lm1: Mem, ch1: Chains, m: Mem, lm: Mem, ch: Chains, n: nat)
    requires ValidModel(e) && WellPlanned(e, lm1, pl) && PointsBack(pl, lm1, ch1)
    requires Pass2Settled(e, pl, lm1, ch1, m, lm, ch, n)
    ensures var o := pl.objs[n]; var gap := DeadBefore(pl.objs, n); var h := Rd(m, o.data - HEADER_SIZE);
      && 0 <= gap && 0 < o.size
      && o.size == SizeWithHeader(e, m, o.data, h)
      && Slid(m, o, gap, ToggleMark(h)) == CopyCells(m[o.data - HEADER_SIZE := ToggleMark(h)], o.start - gap, gap, o.size)
      && Pass2(e, pl, lm1, ch1, Slid(m, o, gap, ToggleMark(h)), Slid(lm, o, gap, ToggleMark(h)), ch, n + 1)
  {
    hide WellPlanned, Rep, AllMoved, ValidModel, Describes, Pending, ToggleMark, Pass2, CopyCells, SizeWithHeader, Slots, Spaced, DeadBefore, CellsAhead, PendingAhead, Tiled;
    SlideSize(e, pl, lm1, ch1, m, lm, ch, n);
    MoveBounds(e, pl, lm1, n);
    NextEdge(e, lm1, pl, n);
    Pass2Slide(e, pl, lm1, ch1, m, lm, ch, n);
  }

  lemma SlideSize(e: Model, pl: Plan, lm1: Mem, ch1: Chains, m: Mem, lm: Mem, ch: Chains, n: nat)
    requires ValidModel(e) && WellPlanned(e, lm1, pl) && PointsBack(pl, lm1, ch1)
    requires Pass2Settled(e, pl, lm1, ch1, m, lm, ch, n)
    ensures var o := pl.objs[n];
      && Rd(m, o.data - HEADER_SIZE) == Rd(lm, o.data - HEADER_SIZE)
      && o.size == SizeWithHeader(e, m, o.data, Rd(m, o.data - HEADER_SIZE))
  {
    hide WellPlanned, Rep, AllMoved, ValidModel, Describes, Pending, SizeWithHeader, Slots, Spaced, CellsAhead;
    var o := pl.objs[n];
    Pass2LiveReads(e, pl, lm1, ch1, m, lm, ch, n, o.End());
    LiveArrayLength(e, lm, o);
    LiveObjectIsGood(e, lm1, pl, n);
    assert Rd(lm, o.data - HEADER_SIZE) == Rd(lm1, o.data - HEADER_SIZE);
    ObjectInPlace(e, pl, lm1, ch1, m, lm, ch, n, o.data - HEADER_SIZE);
    LiveReadsEqually(e, lm, m, o);
  }

  lemma LiveArrayLength(e: Model, lm: Mem, o: Object)
    requires Describes(e, lm, o) && o.live
    ensures TypeOf(e, Rd(lm, o.data - HEADER_SIZE)).tag == ArrayTag ==> o.start <= o.data - 16
    ensures o.start <= o.data - HEADER_SIZE
  {
  }

  lemma PassPosition(e: Model, pl: Plan, lm0: Mem, m: Mem, lm: Mem, ch: Chains, pr: Progress)
    requires WellPlanned(e, lm0, pl) && Pass1(e, pl, lm0, m, lm, ch, pr)
    ensures pr.d <= pr.n <= |pl.objs|
    ensures Edge(pl.objs, pl.hi, 0) == pl.lo
    ensures Edge(pl.objs, pl.hi, pr.n) == pl.hi <==> pr.n == |pl.objs|
    ensures pr.n < |pl.objs| ==> pl.objs[pr.n].start == Edge(pl.objs, pl.hi, pr.n)
    ensures 0 < pr.n ==> Edge(pl.objs, pl.hi, pr.n) == pl.objs[pr.n - 1].start + pl.objs[pr.n - 1].size
    ensures pr.d == pr.n ==> Edge(pl.objs, pl.hi, pr.d) == Edge(pl.objs, pl.hi, pr.n)
  {
    hide CellsKept, VectorsOk, Rebuilt, Rep, SlotStates, LiveSlots, LiveData, Destined, Inert, Describes;
    if pr.n < |pl.objs| { TiledRange(pl.objs, pl.lo, pl.hi, pr.n); }
  }

  /** The test of the first pass tells dead objects from live ones. */
  lemma PassReads(e: Model, pl: Plan, lm0: Mem, m: Mem, lm: Mem, ch: Chains, pr: Progress)
    requires ValidModel(e) && WellPlanned(e, lm0, pl) && Pass1(e, pl, lm0, m, lm, ch, pr) && pr.n < |pl.objs|
    ensures var o := pl.objs[pr.n]; var p := AdvanceToObjectData(m, o.start); var h := Rd(m, p - HEADER_SIZE);
      && (IsHeader(h) && (!IsMarked(h) || h == FORWARDED) <==> !o.live)
      && (!o.live ==> SizeofObject(e, m, p) == o.size)
  {
    hide Pass1Cells, WellPlanned, Rep, SlotStates, IsAligned, SizeofObject;
    var o := pl.objs[pr.n];
    if o.live {
      LiveObjectReads(e, pl, lm0, m, lm, ch, pr);
      HeaderInPlace(m, lm, ch, pl.slots, o.data);
    } else {
      DeadObjectInMemory(e, pl, lm0, m, lm, ch, pr);
    }
  }

  // ------------------------------------------------ the steps of ForwardLiveObject

  ghost predicate Settling(e: Model, pl: Plan, lm0: Mem, m: Mem, lm: Mem, ch: Chains, pr: Progress) {
    && pr.n < |pl.objs| && pl.objs[pr.n].live && pr.d <= |pl.objs|
    && Pass1Cells(e, pl, lm0, lm, pr) && VectorsOk(pl, lm0, lm, pr.d)
    && Rep(m, lm, ch, pl.slots) && ch.Keys == pl.live
    && SlotStates(pl, lm0, lm, ch, pl.objs[pr.n].start, pl.objs[pr.n].End())
    && pl.objs[pr.n].data in ch && ch[pl.objs[pr.n].data] == []
  }

  lemma LiveStep0(e: Model, pl: Plan, lm0: Mem, m: Mem, lm: Mem, ch: Chains, pr: Progress)
    requires ValidModel(e) && WellPlanned(e, lm0, pl) && Pass1(e, pl, lm0, m, lm, ch, pr)
    requires pr.n < |pl.objs| && pl.objs[pr.n].live
    ensures var o := pl.objs[pr.n];
      && AdvanceToObjectData(m, o.start) == o.data && o.data in ch
      && Rep(m, lm, ch, pl.slots)
      && (IsHeader(Rd(m, o.data - HEADER_SIZE)) <==> ch[o.data] == [])
    ensures pr.d <= |pl.objs|
  {
    hide Pass1Cells, WellPlanned, Rep, SlotStates, Describes;
    RunOfPass(e, pl, lm0, lm, pr);
    LiveObjectReads(e, pl, lm0, m, lm, ch, pr);
    HeaderInPlace(m, lm, ch, pl.slots, pl.objs[pr.n].data);
  }

  /** The chain of the live object has been updated, or was empty. */
  lemma LiveStep1(e: Model, pl: Plan, lm0: Mem, m: Mem, lm: Mem, ch: Chains, pr: Progress, m': Mem, lm': Mem, ch': Chains)
    requires ValidModel(e) && WellPlanned(e, lm0, pl) && FixedApart(pl) && Pass1(e, pl, lm0, m, lm, ch, pr)
    requires pr.n < |pl.objs| && pl.objs[pr.n].live
    requires var p := pl.objs[pr.n].data;
      && p in ch && Rep(m', lm', ch', pl.slots) && ch' == ch[p := []]
      && forall a {:trigger Rd(lm', a)} :: Rd(lm', a) == if a in ch[p] then p - pr.gap else Rd(lm, a)
    ensures Settling(e, pl, lm0, m', lm', ch', pr)
  {
    hide Pass1Cells, WellPlanned, Rep, SlotStates, ValidModel, VectorsOk, FixedApart;
    LiveStep1Cells(e, pl, lm0, m, lm, ch, pr, lm');
    LiveStep1Slots(e, pl, lm0, m, lm, ch, pr, lm');
  }

  lemma LiveStep1Cells(e: Model, pl: Plan, lm0: Mem, m: Mem, lm: Mem, ch: Chains, pr: Progress, lm': Mem)
    requires ValidModel(e) && WellPlanned(e, lm0, pl) && FixedApart(pl) && Pass1(e, pl, lm0, m, lm, ch, pr)
    requires pr.n < |pl.objs| && pl.objs[pr.n].data in ch
    requires forall a {:trigger Rd(lm', a)} :: a !in ch[pl.objs[pr.n].data] ==> Rd(lm', a) == Rd(lm, a)
    ensures Pass1Cells(e, pl, lm0, lm', pr) && pr.d <= |pl.objs| && VectorsOk(pl, lm0, lm', pr.d)
  {
    hide Pass1Cells, WellPlanned, Rep, SlotStates, ValidModel, VectorsOk, GoodSlots, GoodLive;
    WellPlannedIsGood(e, lm0, pl);
    DeadHaveNoSlots(e, pl, lm0);
    RunOfPass(e, pl, lm0, lm, pr);
    ChainInSlots(m, lm, ch, pl.slots, pl.objs[pr.n].data);
    VectorsUnderSlots(pl, lm0, lm, pr.d, lm');
    CellsKeptUnderSlots(e, pl, lm0, lm, lm', pr);
  }

  lemma LiveStep1Slots(e: Model, pl: Plan, lm0: Mem, m: Mem, lm: Mem, ch: Chains, pr: Progress, lm': Mem)
    requires ValidModel(e) && WellPlanned(e, lm0, pl) && FixedApart(pl) && Pass1(e, pl, lm0, m, lm, ch, pr)
    requires pr.n < |pl.objs| && pl.objs[pr.n].live && pl.objs[pr.n].data in ch
    requires var p := pl.objs[pr.n].data;
      forall a {:trigger Rd(lm', a)} :: Rd(lm', a) == if a in ch[p] then p - pr.gap else Rd(lm, a)
    ensures SlotStates(pl, lm0, lm', ch[pl.objs[pr.n].data := []], pl.objs[pr.n].start, pl.objs[pr.n].End())
  {
    hide Pass1Cells, VectorsOk, WellPlanned, Rep, SlotStates, GoodSlots, GoodLive, ValidModel, Spaced, DeadBefore, To;
    WellPlannedIsGood(e, lm0, pl);
    LiveObjectIsGood(e, lm0, pl, pr.n);
    GapOfPass(e, pl, lm0, lm, pr);
    PlannedDestination(pl, pr.n);
    ResolveObject(pl, lm0, m, lm, ch, pr.n, lm');
  }

  lemma NothingThreaded(lm: Mem, ch: Chains, p: int, to: int)
    requires p in ch && ch[p] == []
    ensures ch == ch[p := []]
    ensures forall a {:trigger Rd(lm, a)} :: Rd(lm, a) == if a in ch[p] then to else Rd(lm, a)
  {
  }

  lemma PlannedDestination(pl: Plan, n: nat)
    requires GoodLive(pl) && n < |pl.objs| && pl.objs[n].live
    ensures To(pl, pl.objs[n].data) == pl.objs[n].data - DeadBefore(pl.objs, n)
  {
  }

  lemma GapOfPass(e: Model, pl: Plan, lm0: Mem, lm: Mem, pr: Progress)
    requires Pass1Cells(e, pl, lm0, lm, pr)
    ensures pr.n <= |pl.objs| && pr.gap == DeadBefore(pl.objs, pr.n)
  {
  }

  lemma ChainInSlots(m: Mem, lm: Mem, ch: Chains, slots: set<int>, p: int)
    requires Rep(m, lm, ch, slots) && p in ch
    ensures forall a {:trigger a in ch[p]} :: a in ch[p] ==> a in slots
  {
    assert ChainOk(m, lm, p, ch[p], slots);
  }

  /** With its header back in place, the object reads as planned. */
  lemma LiveStep2(e: Model, pl: Plan, lm0: Mem, m: Mem, lm: Mem, ch: Chains, pr: Progress)
    requires ValidModel(e) && WellPlanned(e, lm0, pl) && Settling(e, pl, lm0, m, lm, ch, pr)
    ensures var o := pl.objs[pr.n]; var h := Rd(m, o.data - HEADER_SIZE);
      && IsLiveHeader(h)
      && o.size == SizeWithHeader(e, m, o.data, h)
      && o.slots == Slots(TypeOf(e, h), o.data, Length(Rd(m, o.data - 16)))
  {
    hide Pass1Cells, WellPlanned, Rep, SlotStates;
    var o := pl.objs[pr.n];
    LiveObjectReads(e, pl, lm0, m, lm, ch, pr);
    HeaderInPlace(m, lm, ch, pl.slots, o.data);
    LiveReadsEqually(e, lm, m, o);
  }

  lemma LiveReadsEqually(e: Model, lm: Mem, m: Mem, o: Object)
    requires Describes(e, lm, o) && o.live && Rd(m, o.data - HEADER_SIZE) == Rd(lm, o.data - HEADER_SIZE)
    requires TypeOf(e, Rd(lm, o.data - HEADER_SIZE)).tag == ArrayTag ==> Rd(m, o.data - 16) == Rd(lm, o.data - 16)
    ensures var h := Rd(m, o.data - HEADER_SIZE);
      && o.size == SizeWithHeader(e, m, o.data, h)
      && o.slots == Slots(TypeOf(e, h), o.data, Length(Rd(m, o.data - 16)))
  {
    hide ArrayNoHeader, IsAligned, IsMarked, TypeIndex;
  }

  /** Compression, and the state in which the object's own slots are threaded. */
  lemma LiveStep3(e: Model, pl: Plan, lm0: Mem, m: Mem, lm: Mem, ch: Chains, pr: Progress) returns (pr': Progress)
    requires ValidModel(e) && WellPlanned(e, lm0, pl) && Settling(e, pl, lm0, m, lm, ch, pr) && pr.d <= |pl.objs|
    ensures pr'.n == pr'.d == pr.n + 1 && pr'.gap == pr.gap
    ensures GoodSlots(pl) && GoodLive(pl) && GoodObject(pl, pr.n)
    ensures ch.Keys == pl.live
    ensures var from, to := Edge(pl.objs, pl.hi, pr.d), pl.objs[pr.n].start;
      && Pass1Cells(e, pl, lm0, CompressedCells(lm, from, to), pr')
      && VectorsOk(pl, lm0, CompressedCells(lm, from, to), pr.n + 1)
      && VectorCells(pl.objs, pr.n + 1) == VectorCells(pl.objs, pr.d) + (if Compressible(to - from) then {from, from + 8, from + 16} else {})
      && Rep(if Compressible(to - from) then FilledWithVector(m, from, to - from) else m, CompressedCells(lm, from, to), ch, pl.slots)
      && SlotStates(pl, lm0, CompressedCells(lm, from, to), ch, to, pl.objs[pr.n].End())
  {
    hide VectorsOk, VectorCells, RunStart, IsAligned, Pass1Cells, WellPlanned, Rep, SlotStates, GoodSlots, GoodLive, GoodObject, ValidModel, FilledWithVector, CompressedRun, CompressedCells;
    WellPlannedIsGood(e, lm0, pl);
    LiveObjectIsGood(e, lm0, pl, pr.n);
    RunOfPass(e, pl, lm0, lm, pr);
    PassLiveCells(e, pl, lm0, lm, pr);
    RunAligned(e, pl, lm0, lm, pr);
    VectorsAfterRun(e, pl, lm0, lm, pr.d, pr.n);
    CompressionStep(e, pl, lm0, m, lm, ch, pr.d, pr.n);
    pr' := Progress(pr.n + 1, pr.n + 1, pr.gap, pr.done + CompressedRun(pl.objs, pr.d, pr.n) + [pl.objs[pr.n]]);
  }

  lemma RunAligned(e: Model, pl: Plan, lm0: Mem, lm: Mem, pr: Progress)
    requires Pass1Cells(e, pl, lm0, lm, pr) && pr.n < |pl.objs| && pr.d <= |pl.objs|
    ensures IsAligned(pl.objs[pr.n].start - pl.objs[pr.d].start, e.alignment)
  {
  }

  lemma CompressionStep(e: Model, pl: Plan, lm0: Mem, m: Mem, lm: Mem, ch: Chains, d: nat, n: nat)
    requires ValidModel(e) && WellPlanned(e, lm0, pl) && d <= n < |pl.objs|
    requires forall k {:trigger pl.objs[k]} :: d <= k < n ==> !pl.objs[k].live
    requires Rep(m, lm, ch, pl.slots) && ch.Keys == pl.live
    requires SlotStates(pl, lm0, lm, ch, pl.objs[n].start, pl.objs[n].End())
    ensures var from, to := pl.objs[d].start, pl.objs[n].start;
      && Rep(if Compressible(to - from) then FilledWithVector(m, from, to - from) else m, CompressedCells(lm, from, to), ch, pl.slots)
      && SlotStates(pl, lm0, CompressedCells(lm, from, to), ch, to, pl.objs[n].End())
  {
    hide WellPlanned, Rep, SlotStates, ValidModel, FilledWithVector;
    var from, to := pl.objs[d].start, pl.objs[n].start;
    if Compressible(to - from) { CompressionKeepsRep(e, pl, lm0, m, lm, ch, d, n, to, pl.objs[n].End()); }
  }

  lemma LiveStep4(e: Model, pl: Plan, lm0: Mem, m: Mem, lm: Mem, ch: Chains, pr: Progress)
    requires WellPlanned(e, lm0, pl) && 0 < pr.n <= |pl.objs| && Pass1Cells(e, pl, lm0, lm, pr) && pr.d == pr.n && VectorsOk(pl, lm0, lm, pr.d)
    requires Rep(m, lm, ch, pl.slots) && ch.Keys == pl.live
    requires SlotStates(pl, lm0, lm, ch, pl.objs[pr.n - 1].End(), pl.objs[pr.n - 1].End())
    ensures Pass1(e, pl, lm0, m, lm, ch, pr)
  {
    hide Pass1Cells, VectorsOk, WellPlanned, Rep, SlotStates;
    NextEdge(e, lm0, pl, pr.n - 1);
  }
}
