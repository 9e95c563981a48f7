/** Lifting the closure of an object from a local heap to the shared heap
    (lwtgc.c, forward.c). */
module Lift {
  import opened Memory
  import opened Objects
  import opened Layout
  import opened MarkGraph
  import opened CopyJob
  import opened CopySteps
  import opened CopyScan
  import opened CheneyCopy
  import opened LiftRanges

  /** Pointers that do not lead into the local heap lead to objects of the
      shared heap, which are in place. */
  ghost predicate ValidShared(c: Job, sharedLo: int, sharedHi: int) {
    && sharedLo <= c.toStart && c.toLimit <= sharedHi && 0 < c.fromLo && 0 < sharedLo
    && (c.fromHi <= sharedLo || sharedHi <= c.fromLo)
    && (forall x {:trigger Leads(c, x)} :: IsTraced(c, x) && IsObjptr(Rd(c.m0, x)) && !Takes(c, Rd(c.m0, x)) ==> InPlace(c, sharedLo, sharedHi, Rd(c.m0, x)))
    && (forall p {:trigger p in c.forwarded} :: p in c.forwarded ==> InPlace(c, sharedLo, sharedHi, c.forwarded[p]))
  }

  ghost predicate IsTraced(c: Job, x: int) {
    x in c.roots || exists p {:trigger p in c.g} :: p in c.g && x in Traced(c.g[p], p)
  }

  ghost predicate InPlace(c: Job, sharedLo: int, sharedHi: int, w: int) {
    sharedLo <= w < sharedHi && Rd(c.m0, w - HEADER_SIZE) != FORWARDED && Free(c, w - HEADER_SIZE)
  }

  class Lifter {
    const e: Model
    const localLo: int
    const localHi: int
    const nurseryLo: int
    const nurseryHi: int
    const sharedLo: int
    const sharedHi: int
    const toStart: int
    const copyImmutable: bool
    const jumps: seq<nat>
    var mem: Mem
    var back: int
    var sharedFrontier: int
    var weaks: int
    var ranges: seq<SkipRange>
    var copyObjectMap: map<int, int>
    var allocations: nat
    ghost var st: State

    /** jumps are the bytes that other processors have claimed in the shared
        heap whenever this one claims some for an object. */
    constructor (e: Model, localLo: int, localHi: int, nurseryLo: int, nurseryHi: int, sharedLo: int, sharedHi: int,
        sharedFrontier: int, copyImmutable: bool, jumps: seq<nat>, mem: Mem, weaks: int)
      ensures this.e == e && this.localLo == localLo && this.localHi == localHi && this.sharedLo == sharedLo && this.sharedHi == sharedHi
      ensures this.toStart == sharedFrontier && this.sharedFrontier == sharedFrontier && this.back == sharedFrontier
      ensures this.copyImmutable == copyImmutable && this.jumps == jumps && this.mem == mem && this.ranges == [] && this.copyObjectMap == map[]
      ensures this.allocations == 0
    {
      this.e, this.localLo, this.localHi, this.nurseryLo, this.nurseryHi := e, localLo, localHi, nurseryLo, nurseryHi;
      this.sharedLo, this.sharedHi, this.toStart, this.copyImmutable, this.jumps := sharedLo, sharedHi, sharedFrontier, copyImmutable, jumps;
      this.mem, this.back, this.sharedFrontier, this.weaks := mem, sharedFrontier, sharedFrontier, weaks;
      this.ranges, this.copyObjectMap, this.allocations := [], map[], 0;
      this.st := State(mem, map[], [], [], sharedFrontier, {});
    }

    ghost predicate Runs(c: Job)
      reads this
    {
      && c.e == e && c.fromLo == localLo && c.fromHi == localHi && c.toStart == toStart && c.toLimit == sharedHi
      && c.lifting && c.copyImmutable == copyImmutable
    }

    /** The lift c has come to the state st. */
    ghost predicate Holds(c: Job, lo: int, hi: int)
      reads this
    {
      && Runs(c) && st.m == mem && st.back == back == sharedFrontier && allocations == |st.objs|
      && Inv(c, st) && ValidShared(c, sharedLo, sharedHi)
      && Filled(c, st, jumps) && Within(c, lo, hi) && hi - lo + Skipped(jumps, |jumps|) <= sharedHi - toStart
      && MapOk(c, st, copyObjectMap)
    }

    /** The next chunk of the shared heap: where this processor's last one ends,
        or further on, and then the gap is noted. */
    method ClaimChunk()
      requires back == sharedFrontier
      modifies `sharedFrontier, `back, `ranges, `allocations
      ensures back == sharedFrontier == old(back) + JumpAt(jumps, old(allocations)) && allocations == old(allocations) + 1
      ensures ranges == old(ranges) + if old(back) != back then [SkipRange(old(back), back)] else []
    {
      sharedFrontier := sharedFrontier + JumpAt(jumps, allocations);
      allocations := allocations + 1;
      if sharedFrontier != back {
        ranges := ranges + [SkipRange(back, sharedFrontier)];
        back := sharedFrontier;
      }
    }

    /** A weak object that points into the nursery joins the chain of weaks. */
    method LinkIfWeak(t: ObjectType, copy: int) returns (ghost links: bool)
      modifies `mem, `weaks
      ensures links ==> t.tag == WeakTag
      ensures mem == if links then old(mem)[LinkCell(e, copy) := old(weaks)] else old(mem)
    {
      links := false;
      if t.tag == WeakTag && t.numObjptrs == 1 {
        var p := Rd(mem, WeakCell(e, copy));
        if IsObjptr(p) && nurseryLo <= p < nurseryHi {
          mem := mem[LinkCell(e, copy) := weaks];
          weaks := LinkCell(e, copy);
          links := true;
        }
      }
    }

    /** The part of forwardObjptrToSharedHeap that claims a chunk, notes the gap
        before it and copies the object. */
    method CopyToSharedHeap(w: int, header: int, ghost c: Job, ghost lo: int, ghost hi: int) returns (newP: int, ghost start: int)
      requires Holds(c, lo, hi) && w in c.g && w !in st.fwd && Reaches(c, w) && NotMoved(c, st, w) && header == Rd(mem, w - HEADER_SIZE)
      modifies this
      ensures st == old(st) && start == old(back) + JumpAt(jumps, |st.objs|) && CanCopy(c, st, w, start)
      ensures newP == start + HeaderOf(c, w) && CopiedAsIs(c, st.m, w, start, mem)
      ensures back == sharedFrontier == start + SizeOf(c, w) && allocations == old(allocations) + 1
      ensures ranges == old(ranges) + if old(back) != start then [SkipRange(old(back), start)] else []
      ensures copyObjectMap == if Keeps(c, w) then old(copyObjectMap)[w := newP] else old(copyObjectMap)
    {
      hide Inv, Filled, Within, Reaches, NotMoved, BodyBytes, HeaderBytes, Evacuation, CopiedAsIs, SizeOf, HeaderOf, IsLifted, TypeOf, LinkCell, WeakCell, CopiedWords, CopyCells, Bytes, ValidShared, Skipped, MapOk, Keeps, JumpAt;
      ghost var s := st;
      var t := TypeOf(e, header);
      KeepsIs(c, w);
      var headerBytes, objectBytes := HeaderBytes(t), BodyBytes(e, mem, w, t);
      var size := headerBytes + objectBytes;
      SpaceIs(c, st, w);
      RoomForLift(c, st, jumps, w, lo, hi);
      ClaimChunk();
      start := back;
      RangesApart(c, st, w, start);
      mem := CopyCells(mem, sharedFrontier, w - headerBytes - sharedFrontier, size);
      ghost var m1, weaks1 := mem, weaks;
      MemcpyWords(s.m, start, w - headerBytes, size, m1);
      newP := back + headerBytes;
      ghost var links := LinkIfWeak(t, newP);
      ghost var m2 := mem;
      if copyImmutable && !t.hasIdentity {
        copyObjectMap := copyObjectMap[w := newP];
      } else {
        mem := mem[w - HEADER_SIZE := FORWARDED];
        mem := mem[w := newP];
      }
      FinishCopyToShared(c, s, w, start, m1, links, weaks1, m2, mem);
      sharedFrontier := sharedFrontier + size;
      back := sharedFrontier;
    }

    /** forwardObjptrToSharedHeap. Its assertion that a new pointer is known
        fails, and ok is false, exactly on a forwarded object while immutable
        objects are being copied. */
    method ForwardObjptrToSharedHeap(opp: int, ghost p: int, ghost x: int, ghost c: Job, ghost lo: int, ghost hi: int)
      returns (ok: bool, ghost start: int, ghost m1: Mem)
      requires Holds(c, lo, hi) && SlotOf(c, st, p, x) && x !in st.updated && opp == Here(c, st, p, x) && Takes(c, Rd(c.m0, x))
      modifies this
      ensures st == old(st)
      ensures ok <==> !(copyImmutable && Rd(old(mem), Rd(c.m0, x) - HEADER_SIZE) == FORWARDED)
      ensures var w := Rd(c.m0, x);
        w in st.fwd && ok ==> mem == old(mem)[opp := st.fwd[w]] && unchanged(`back, `sharedFrontier, `allocations, `ranges, `copyObjectMap)
      ensures var w := Rd(c.m0, x);
        w !in st.fwd ==>
          && w in c.g && CanCopy(c, st, w, start) && CopiedAsIs(c, st.m, w, start, m1) && mem == m1[opp := start + HeaderOf(c, w)]
          && start == old(back) + JumpAt(jumps, |st.objs|) && back == sharedFrontier == start + SizeOf(c, w) && allocations == old(allocations) + 1
          && ranges == old(ranges) + (if old(back) != start then [SkipRange(old(back), start)] else [])
          && copyObjectMap == if Keeps(c, w) then old(copyObjectMap)[w := start + HeaderOf(c, w)] else old(copyObjectMap)
    {
      hide Inv, Filled, Within, Reaches, SlotOf, Here, Takes, ValidShared, MapOk, CanCopy, CopiedAsIs, SizeOf, HeaderOf, Keeps, Skipped, JumpAt;
      start, m1 := back, mem;
      var w := Rd(mem, opp);
      TargetReads(c, st, p, x);
      var header := Rd(mem, w - HEADER_SIZE);
      if IsLifted(header) { return; }
      var hasIdentity, newP := false, BOGUS_OBJPTR;
      if header != FORWARDED {
        hasIdentity := TypeOf(e, header).hasIdentity;
        KeepsIs(c, w);
        MapSays(c, st, copyObjectMap, w);
        if copyImmutable && !hasIdentity && w in copyObjectMap {
          mem := mem[opp := copyObjectMap[w]];
          return true, start, m1;
        }
        newP, start := CopyToSharedHeap(w, header, c, lo, hi);
        m1 := mem;
        if !(copyImmutable && !hasIdentity) { SelfForwarded(c, st, w, start, mem); }
        SharedIsSomewhere(c, sharedLo, sharedHi);
        CopyIsSomewhere(c, st, w, start);
      }
      if copyImmutable && !hasIdentity {
        ok := newP != BOGUS_OBJPTR;
        mem := mem[opp := newP];
      } else {
        ok := true;
        mem := mem[opp := Rd(mem, w)];
      }
    }

    /** fixFwdObjptr: follow forwarding pointers to where the object is. */
    method FixFwdObjptr(opp: int, ghost p: int, ghost x: int, ghost c: Job, ghost lo: int, ghost hi: int)
      requires Holds(c, lo, hi) && SlotOf(c, st, p, x) && x !in st.updated && opp == Here(c, st, p, x) && IsObjptr(Rd(c.m0, x))
      modifies this`mem
      ensures var w := Rd(c.m0, x); mem == if Moved(c, st, w) then old(mem)[opp := st.fwd[w]] else old(mem)
    {
      hide Inv, ValidShared, SlotOf, Here, Moved, Filled, Within, MapOk;
      FixReads(c, st, p, x, sharedLo, sharedHi);
      MovedIs(c, st, Rd(c.m0, x));
      ghost var hops := 0;
      while IsObjptr(Rd(mem, opp)) && Rd(mem, Rd(mem, opp) - HEADER_SIZE) == FORWARDED
        invariant hops == 0 ==> mem == old(mem)
        invariant hops != 0 ==> hops == 1 && Moved(c, st, Rd(c.m0, x)) && mem == old(mem)[opp := st.fwd[Rd(c.m0, x)]]
        decreases 1 - hops
      {
        mem := mem[opp := Rd(mem, Rd(mem, opp))];
        hops := hops + 1;
      }
    }

    /** callIfIsObjptr with liftObjptr. */
    method LiftObjptr(opp: int, ghost p: int, ghost x: int, ghost i: nat, ghost c: Job, ghost lo: int, ghost hi: int)
      requires Holds(c, lo, hi) && SlotOf(c, st, p, x) && x !in st.updated && opp == Here(c, st, p, x)
      requires i <= |st.starts| && ranges == Gaps(c, st, i)
      modifies this
      ensures Holds(c, lo, hi) && Extends(old(st), st) && st.updated == old(st).updated + {x} && old(back) <= back
      ensures ranges == Gaps(c, st, i)
    {
      hide Inv, ValidShared, SlotOf, Here, Moved, Filled, Within, MapOk, Takes, CanCopy, CopiedAsIs, Keeps, Gaps, CanUpdate, Reaches, SizeOf, HeaderOf, SetLift, Extends, Skipped, JumpAt, CopiedTo, UpdatedTo, PrevEnd, Bytes;
      ghost var s, w := st, Rd(c.m0, x);
      SlotReads(c, st, p, x);
      if !IsObjptr(Rd(mem, opp)) {
        SlotStandsAsIs(c, s, jumps, copyObjectMap, p, x, mem, i);
        st := AfterUpdate(s, x, mem);
        return;
      }
      FixReads(c, st, p, x, sharedLo, sharedHi);
      MovedIs(c, st, w);
      FixFwdObjptr(opp, p, x, c, lo, hi);
      if sharedLo <= Rd(mem, opp) < sharedHi {
        SlotInShared(c, s, jumps, copyObjectMap, p, x, mem, i, sharedLo, sharedHi);
        st := AfterUpdate(s, x, mem);
        return;
      }
      ghost var ok, start, m1;
      ok, start, m1 := ForwardObjptrToSharedHeap(opp, p, x, c, lo, hi);
      var newP := Rd(mem, opp);
      if sharedLo <= newP < sharedHi {
        mem := mem[newP - HEADER_SIZE := SetLift(Rd(mem, newP - HEADER_SIZE))];
      }
      if w in s.fwd {
        SlotOfKept(c, s, jumps, copyObjectMap, p, x, mem, i, sharedLo, sharedHi);
        st := AfterUpdate(s, x, mem);
      } else {
        st := SlotOfNew(c, s, jumps, old(copyObjectMap), p, x, start, m1, mem, i, sharedLo, sharedHi);
      }
    }

    /** One object of the scan. */
    method ScanObject(front: int, ghost i: nat, ghost c: Job, ghost lo: int, ghost hi: int) returns (end: int)
      requires Holds(c, lo, hi) && UpdatedIs(c, st, i, 0) && i < |st.objs| && |st.starts| == |st.objs| && front == st.starts[i]
      requires ranges == Gaps(c, st, i + 1)
      modifies this
      ensures Holds(c, lo, hi) && UpdatedIs(c, st, i + 1, 0) && Extends(old(st), st)
      ensures |st.starts| == |st.objs| && end == PrevEnd(c, st, i + 1) && front < end && old(back) <= back && ranges == Gaps(c, st, i + 1)
    {
      hide Inv, Filled, Within, ValidShared, MapOk, UpdatedIs, Extends, ArrayNoHeader, SlotOf, Here, Gaps, PrevEnd, Skipped;
      LiftReads(this, c, lo, hi, i);
      ghost var s0 := st;
      var p := AdvanceToObjectData(mem, front);
      var slots;
      end, slots := ForeachObjptrInObject(e, mem, p, true);
      var k := 0;
      while k < |slots|
        invariant k <= |slots| && Holds(c, lo, hi) && UpdatedIs(c, st, i, k) && Extends(s0, st) && old(back) <= back
        invariant ranges == Gaps(c, st, i + 1)
      {
        assert Inv(c, st);
        NextSlot(c, s0, st, i, k, slots);
        GrownBy(s0, st);
        StartsGrown(s0, st);
        ghost var s1 := st;
        LiftObjptr(slots[k], s0.objs[i], TracedAt(c, s0.objs[i])[k], i + 1, c, lo, hi);
        SlotDone(c, s0, s1, st, i, k);
        k := k + 1;
      }
      LiftScanned(this, c, lo, hi, s0, i);
    }

    /** foreachObjptrInRange from toStart to the moving end, without the ranges
        that other processors own. */
    method ForeachObjptrInRange(start: int, ghost c: Job, ghost lo: int, ghost hi: int) returns (front: int)
      requires Holds(c, lo, hi) && UpdatedIs(c, st, 0, 0) && start == toStart && ranges == Gaps(c, st, 0)
      modifies this
      ensures Holds(c, lo, hi) && AllUpdated(c, st) && front == back && ranges == []
    {
      hide Inv, Filled, Within, ValidShared, MapOk, UpdatedIs, Extends, AllUpdated, Gaps, PrevEnd, Skipped, Bytes;
      ghost var i := 0;
      front := start;
      var b := back;
      LiftFrontIs(this, c, lo, hi, i);
      while front < b
        invariant Holds(c, lo, hi) && UpdatedIs(c, st, i, 0) && i <= |st.objs| == |st.starts| && ranges == Gaps(c, st, i)
        invariant front == PrevEnd(c, st, i) && b <= back && (front < b || front == back)
        invariant i < |st.objs| <==> front < back
        decreases |c.g| - |st.objs|, |st.objs| - i
      {
        ObjectsFit(c, st);
        var front0 := front;
        ghost var i0, n0 := i, |st.objs|;
        while front < b
          invariant Holds(c, lo, hi) && UpdatedIs(c, st, i, 0) && i <= |st.objs| == |st.starts| && ranges == Gaps(c, st, i)
          invariant front == PrevEnd(c, st, i) && front0 <= front && b <= back
          invariant i < |st.objs| <==> front < back
          invariant |st.objs| > n0 || (|st.objs| == n0 && i >= i0 && (front > front0 ==> i > i0))
          invariant |st.objs| <= |c.g|
          decreases |c.g| - |st.objs|, |st.objs| - i
        {
          SkipIs(this, c, lo, hi, i);
          ghost var s0 := st;
          if ranges != [] && ranges[0].start == front {
            front := ranges[0].end;
            ranges := ranges[1..];
          }
          front := ScanObject(front, i, c, lo, hi);
          GrownBy(s0, st);
          i := i + 1;
          ObjectsFit(c, st);
          LiftFrontIs(this, c, lo, hi, i);
        }
        b := back;
        LiftFrontIs(this, c, lo, hi, i);
      }
      NoGapsLeft(c, st, i);
      ScanEnds(c, st, i);
    }

    /** moveTransitiveClosure of the object that the slot liftingObject refers
        to, without a collection coming in between. */
    method MoveTransitiveClosure(liftingObject: int, ghost c: Job, ghost lo: int, ghost hi: int)
      requires Runs(c) && ValidJob(c) && ValidShared(c, sharedLo, sharedHi) && c.m0 == mem && c.roots == {liftingObject}
      requires Within(c, lo, hi) && hi - lo + Skipped(jumps, |jumps|) <= sharedHi - toStart
      requires sharedFrontier == back == toStart && ranges == [] && copyObjectMap == map[] && allocations == 0
      modifies this
      ensures Inv(c, st) && AllUpdated(c, st) && st.m == mem
      ensures Lifted(c, st, mem) && ClosureShared(c, st, mem, sharedLo, sharedHi) && Filled(c, st, jumps)
      ensures back == sharedFrontier == st.back && ranges == []
    {
      hide Inv, Within, ValidShared, MapOk, UpdatedIs, Extends, AllUpdated, Gaps, PrevEnd, ValidJob, SlotOf, Here, Lifted, ClosureShared, Skipped, Filled;
      st := State(mem, c.forwarded, [], [], toStart, {});
      NothingLiftedYet(this, c, lo, hi, liftingObject);
      LiftObjptr(liftingObject, 0, liftingObject, 0, c, lo, hi);
      RootsDone(c, st);
      var front := ForeachObjptrInRange(toStart, c, lo, hi);
      LiftIsCorrect(c, st);
      ClosureIsShared(c, st, sharedLo, sharedHi);
    }
  }

  /** copyObjectMap has the copies of the objects that keep their originals. */
  ghost predicate MapOk(c: Job, s: State, copies: map<int, int>) {
    && (forall p {:trigger p in copies} :: p in copies <==> p in s.objs && p in c.g && Keeps(c, p))
    && (forall p {:trigger p in copies} :: p in copies ==> p in s.fwd && copies[p] == s.fwd[p])
  }

  lemma KeepsIs(c: Job, w: int)
    requires w in c.g
    ensures Keeps(c, w) <==> c.copyImmutable && !c.g[w].t.hasIdentity
  {
  }

  lemma FinishCopyToShared(c: Job, s: State, w: int, start: int, m1: Mem, links: bool, weaks: int, m2: Mem, m': Mem)
    requires CanCopy(c, s, w, start) && 0 <= SizeOf(c, w) && CopiedWords(s.m, start, w - HeaderOf(c, w), SizeOf(c, w), m1)
    requires m2 == (if links then m1[LinkCell(c.e, start + HeaderOf(c, w)) := weaks] else m1) && (links ==> c.g[w].t.tag == WeakTag)
    requires m' == if Keeps(c, w) then m2 else m2[w - HEADER_SIZE := FORWARDED][w := start + HeaderOf(c, w)]
    ensures CopiedAsIs(c, s.m, w, start, m')
  {
    hide Inv, CopiedWords, Reaches, CopiedAsIs, SizeOf, OffsetOfWeak, HeaderOf, Keeps;
    assert Evacuation(c, s, w, start, m1, m2, m');
    EvacuatedTo(c, s, w, start, m1, m2, m');
  }

  lemma MapSays(c: Job, s: State, copies: map<int, int>, w: int)
    requires MapOk(c, s, copies) && Inv(c, s) && w in c.g
    ensures w in copies <==> Keeps(c, w) && w in s.fwd
    ensures w in copies ==> copies[w] == s.fwd[w]
  {
    hide OldOk, NewOk, RootsOk, RestOk, GapsOk, ReachedOk, UpdatedOk, ValidFrom, ValidSlots, Keeps;
    CopiedIsNew(c, s, w);
  }

  lemma CopyIsSomewhere(c: Job, s: State, w: int, start: int)
    requires CanCopy(c, s, w, start) && 0 < c.toStart
    ensures start + HeaderOf(c, w) != BOGUS_OBJPTR
  {
    hide OldOk, NewOk, RootsOk, RestOk, GapsOk, ReachedOk, UpdatedOk, ValidJob, SizeOf, Reaches, HeaderOf;
    HeaderIsEight(c, w);
  }

  lemma SharedIsSomewhere(c: Job, sharedLo: int, sharedHi: int)
    requires ValidShared(c, sharedLo, sharedHi)
    ensures 0 < sharedLo <= c.toStart && c.toLimit <= sharedHi && 0 < c.fromLo && (c.fromHi <= sharedLo || sharedHi <= c.fromLo)
  {
  }

  lemma HeaderIsEight(c: Job, w: int)
    requires w in c.g
    ensures 8 <= HeaderOf(c, w)
  {
  }

  /** A copied object says itself where it went, unless it keeps its original. */
  lemma SelfForwarded(c: Job, s: State, w: int, start: int, m': Mem)
    requires CanCopy(c, s, w, start) && CopiedAsIs(c, s.m, w, start, m') && !Keeps(c, w)
    ensures Rd(m', w) == start + HeaderOf(c, w)
  {
    hide OldOk, NewOk, RootsOk, RestOk, GapsOk, ReachedOk, UpdatedOk, PlacedOk, ValidSlots, ValidForwarded, SizeOf, HeaderOf, Reaches, InObject, Keeps, Scratch;
    DataInExtent(c.e, c.m0, c.g, w);
    NewCellsApart(c, s, w, start, w);
  }

  // ------------------------------------------------------------------- one slot

  /** w has left a forwarding pointer where it was. */
  ghost predicate Moved(c: Job, s: State, w: int) { w in s.fwd && (w in c.g ==> !Keeps(c, w)) }

  /** Where fixFwdObjptr starts and stops. */
  lemma FixReads(c: Job, s: State, p: int, x: int, sharedLo: int, sharedHi: int)
    requires Inv(c, s) && ValidShared(c, sharedLo, sharedHi) && c.lifting && SlotOf(c, s, p, x) && x !in s.updated && IsObjptr(Rd(c.m0, x))
    ensures var w, opp := Rd(c.m0, x), Here(c, s, p, x); Rd(s.m, opp) == w && (Moved(c, s, w) ==> Takes(c, w))
    ensures var w, opp := Rd(c.m0, x), Here(c, s, p, x);
      if !Takes(c, w) then Rd(s.m, w - HEADER_SIZE) != FORWARDED && sharedLo <= w < sharedHi
      else if Moved(c, s, w) then
        && Rd(s.m, w - HEADER_SIZE) == FORWARDED && Rd(s.m, w) == s.fwd[w] && opp != s.fwd[w] - HEADER_SIZE
        && Rd(s.m, s.fwd[w] - HEADER_SIZE) != FORWARDED && sharedLo <= s.fwd[w] < sharedHi
      else Rd(s.m, w - HEADER_SIZE) != FORWARDED && !(sharedLo <= w < sharedHi) && w in c.g
  {
    hide Inv, ValidShared, SlotOf, Here, Moved, Reaches, SizeOf, HeaderOf, TypeOf, IsLifted;
    SlotReads(c, s, p, x);
    var w := Rd(c.m0, x);
    MovedMeansTakes(c, s, w);
    MovedIs(c, s, w);
    if !Takes(c, w) {
      SharedTarget(c, s, p, x, sharedLo, sharedHi);
    } else {
      TargetReads(c, s, p, x);
      SharedIsSomewhere(c, sharedLo, sharedHi);
      if Moved(c, s, w) { MovedTarget(c, s, p, x, w, sharedLo, sharedHi); }
    }
  }

  lemma MovedIs(c: Job, s: State, w: int)
    ensures Moved(c, s, w) <==> w in s.fwd && (w in c.g ==> !Keeps(c, w))
  {
  }

  lemma MovedMeansTakes(c: Job, s: State, w: int)
    requires Inv(c, s)
    ensures w in s.fwd ==> Takes(c, w) && (w in c.g || w in c.forwarded)
  {
    hide OldOk, NewOk, RootsOk, RestOk, GapsOk, ReachedOk, UpdatedOk, ValidSlots, Takes, Free, Apart, Nodes;
    if w in s.fwd && w !in c.forwarded { var i :| 0 <= i < |s.objs| && s.objs[i] == w; }
  }

  lemma SharedTarget(c: Job, s: State, p: int, x: int, sharedLo: int, sharedHi: int)
    requires Inv(c, s) && ValidShared(c, sharedLo, sharedHi) && SlotOf(c, s, p, x) && IsObjptr(Rd(c.m0, x)) && !Takes(c, Rd(c.m0, x))
    ensures var w := Rd(c.m0, x); Rd(s.m, w - HEADER_SIZE) != FORWARDED && sharedLo <= w < sharedHi
  {
    hide OldOk, NewOk, RootsOk, GapsOk, PlacedOk, ReachedOk, UpdatedOk, ValidJob, Takes, Free, Traced, Leads;
    assert IsTraced(c, x);
    assert Leads(c, x) || !Leads(c, x);
    assert InPlace(c, sharedLo, sharedHi, Rd(c.m0, x));
  }

  lemma MovedTarget(c: Job, s: State, p: int, x: int, w: int, sharedLo: int, sharedHi: int)
    requires Inv(c, s) && ValidShared(c, sharedLo, sharedHi) && c.lifting && SlotOf(c, s, p, x) && w in s.fwd && (w in c.g || w in c.forwarded)
    ensures var n := s.fwd[w]; Here(c, s, p, x) != n - HEADER_SIZE && Rd(s.m, n - HEADER_SIZE) != FORWARDED && sharedLo <= n < sharedHi
  {
    hide OldOk, NewOk, RootsOk, RestOk, GapsOk, PlacedOk, ReachedOk, UpdatedOk, ValidJob, Takes, Traced, Here, SlotOf, ValidShared, InTo;
    HereIsRootOrTo(c, s, p, x);
    if w in c.forwarded {
      ForwardedTarget(c, s, w, sharedLo, sharedHi);
    } else {
      CopyTarget(c, s, w, sharedLo, sharedHi);
      CopyHeaderIsNoSlot(c, s, p, x, w);
    }
  }

  lemma ForwardedTarget(c: Job, s: State, w: int, sharedLo: int, sharedHi: int)
    requires RestOk(c, s) && PlacedOk(c, s) && ValidShared(c, sharedLo, sharedHi) && w in c.forwarded
    ensures w in s.fwd && Rd(s.m, s.fwd[w] - HEADER_SIZE) != FORWARDED && sharedLo <= s.fwd[w] < sharedHi
    ensures !InTo(c, s.fwd[w] - HEADER_SIZE) && s.fwd[w] - HEADER_SIZE !in c.roots
  {
    hide Leads, IsTraced, SizeOf, HeaderOf;
    assert InPlace(c, sharedLo, sharedHi, c.forwarded[w]);
  }

  lemma CopyTarget(c: Job, s: State, w: int, sharedLo: int, sharedHi: int)
    requires Inv(c, s) && ValidShared(c, sharedLo, sharedHi) && w in s.fwd && w in c.g
    ensures Rd(s.m, s.fwd[w] - HEADER_SIZE) != FORWARDED && sharedLo <= s.fwd[w] < sharedHi
    ensures Rd(s.m, s.fwd[w] - HEADER_SIZE) == if c.lifting then SetLift(Rd(c.m0, w - HEADER_SIZE)) else Rd(c.m0, w - HEADER_SIZE)
    ensures InTo(c, s.fwd[w] - HEADER_SIZE)
  {
    hide OldOk, NewOk, RootsOk, RestOk, GapsOk, ReachedOk, UpdatedOk, PlacedOk, ValidSlots, ValidForwarded, SetLift, InObject, Apart, Nodes, SizeOf;
    SharedIsSomewhere(c, sharedLo, sharedHi);
    CopiedIsNew(c, s, w);
    DataInExtent(c.e, c.m0, c.g, w);
    CellsInExtent(c.e, c.m0, c.g, w);
    var i := CopyCell(c, s, w, w);
    var j := CopyCell(c, s, w, w - HEADER_SIZE);
    CopyReads(c, s, i);
  }

  lemma CopyHeaderIsNoSlot(c: Job, s: State, p: int, x: int, w: int)
    requires Inv(c, s) && SlotOf(c, s, p, x) && w in s.fwd && w in c.g && InTo(c, s.fwd[w] - HEADER_SIZE)
    ensures Here(c, s, p, x) != s.fwd[w] - HEADER_SIZE
  {
    hide OldOk, NewOk, RootsOk, RestOk, GapsOk, ReachedOk, UpdatedOk, PlacedOk, ValidSlots, SizeOf, InObject, Here, SlotOf, InTo, Traced, Scratch;
    SlotHere(c, s, p, x);
    HereIsRootOrTo(c, s, p, x);
    CopiedIsNew(c, s, w);
    CellsInExtent(c.e, c.m0, c.g, w);
    if x !in c.roots && Here(c, s, p, x) == s.fwd[w] - HEADER_SIZE {
      CopyCellsApart(c, s, p, x, w, w - HEADER_SIZE);
    }
  }

  /** A copy that has got its lift bit. */
  lemma LiftedCopy(c: Job, s: State, p: int, x: int, start: int, m1: Mem, m': Mem)
    requires c.lifting && SlotOf(c, s, p, x) && x !in s.updated && Takes(c, Rd(c.m0, x)) && Rd(c.m0, x) in c.g
    requires CanCopy(c, s, Rd(c.m0, x), start) && CopiedAsIs(c, s.m, Rd(c.m0, x), start, m1)
    requires var n := start + HeaderOf(c, Rd(c.m0, x)); var opp := Here(c, s, p, x);
      m' == m1[opp := n][n - HEADER_SIZE := SetLift(Rd(m1[opp := n], n - HEADER_SIZE))]
    ensures var w := Rd(c.m0, x); var n := start + HeaderOf(c, w); var mG := m1[n - HEADER_SIZE := SetLift(Rd(m1, n - HEADER_SIZE))];
      var s1 := AfterCopy(c, s, w, start, mG);
      && CopiedTo(c, s.m, w, start, mG) && Inv(c, s1) && CanUpdate(c, s1, p, x, m') && Inv(c, AfterUpdate(s1, x, m'))
  {
    hide Inv, CopiedAsIs, CopiedTo, SlotOf, Here, Takes, SetLift, HeaderOf, CanUpdate, CanCopy;
    var w := Rd(c.m0, x);
    var n := start + HeaderOf(c, w);
    var mG := m1[n - HEADER_SIZE := SetLift(Rd(m1, n - HEADER_SIZE))];
    var s1 := AfterCopy(c, s, w, start, mG);
    LiftBit(c, s, w, start, m1, mG);
    CopyKeepsInv(c, s, w, start, mG);
    LiftedSlot(c, s, s1, p, x, w, start, m1, m');
    UpdateKeepsInv(c, s1, p, x, m');
  }

  lemma LiftBit(c: Job, s: State, w: int, start: int, m1: Mem, mG: Mem)
    requires c.lifting && CanCopy(c, s, w, start) && CopiedAsIs(c, s.m, w, start, m1)
    requires var n := start + HeaderOf(c, w); mG == m1[n - HEADER_SIZE := SetLift(Rd(m1, n - HEADER_SIZE))]
    ensures CopiedTo(c, s.m, w, start, mG)
  {
    hide CanCopy, Reaches, SetLift, Keeps, SizeOf, HeaderOf, Scratch;
    HeaderInside(c, s, w, start);
    var n := start + HeaderOf(c, w);
    var from := w - HeaderOf(c, w);
    assert n - HEADER_SIZE - start + from == w - HEADER_SIZE;
    assert Rd(m1, n - HEADER_SIZE) == Rd(c.m0, w - HEADER_SIZE);
    forall x {:trigger Rd(mG, x)} | start <= x < start + SizeOf(c, w) && !Scratch(c, w, x - start + from)
      ensures Rd(mG, x) == if x - start + from == w - HEADER_SIZE then SetLift(Rd(c.m0, x - start + from)) else Rd(c.m0, x - start + from)
    {
      assert Rd(m1, x) == Rd(c.m0, x - start + from);
    }
    forall x {:trigger Rd(mG, x)} | !(start <= x < start + SizeOf(c, w)) ensures Rd(mG, x) == Rd(m1, x) {
    }
  }

  lemma HeaderInside(c: Job, s: State, w: int, start: int)
    requires CanCopy(c, s, w, start)
    ensures w in c.g && !Scratch(c, w, w - HEADER_SIZE) && 8 <= HeaderOf(c, w) && HeaderOf(c, w) <= SizeOf(c, w)
  {
    hide OldOk, NewOk, RootsOk, RestOk, GapsOk, ReachedOk, UpdatedOk, PlacedOk, ValidSlots, ValidForwarded, Reaches;
    CellsInExtent(c.e, c.m0, c.g, w);
    SizeAtLeastHeader(c, w);
  }

  lemma LiftedSlot(c: Job, s: State, s1: State, p: int, x: int, w: int, start: int, m1: Mem, m': Mem)
    requires CanCopy(c, s, w, start) && SlotOf(c, s, p, x) && w == Rd(c.m0, x) && Takes(c, w)
    requires var n := start + HeaderOf(c, w); var opp := Here(c, s, p, x);
      && s1 == AfterCopy(c, s, w, start, m1[n - HEADER_SIZE := SetLift(Rd(m1, n - HEADER_SIZE))])
      && m' == m1[opp := n][n - HEADER_SIZE := SetLift(Rd(m1[opp := n], n - HEADER_SIZE))]
    requires Inv(c, s1)
    ensures CanUpdate(c, s1, p, x, m')
  {
    hide OldOk, NewOk, RootsOk, RestOk, GapsOk, ReachedOk, UpdatedOk, PlacedOk, ValidJob, Reaches, SetLift, SizeOf, HeaderOf, Traced, InTo;
    SlotStill(c, s, s1, p, x, w, start);
    HeaderCellIsNew(c, s, p, x, w, start);
  }

  lemma SlotStill(c: Job, s: State, s1: State, p: int, x: int, w: int, start: int)
    requires CanCopy(c, s, w, start) && SlotOf(c, s, p, x) && s1.objs == s.objs + [w] && s1.fwd == s.fwd[w := start + HeaderOf(c, w)]
    ensures SlotOf(c, s1, p, x) && Here(c, s1, p, x) == Here(c, s, p, x)
  {
    hide OldOk, NewOk, RootsOk, RestOk, GapsOk, ReachedOk, UpdatedOk, ValidJob, Reaches, SizeOf, HeaderOf, Traced;
    if x !in c.roots { var i :| 0 <= i < |s.objs| && s.objs[i] == p; }
  }

  lemma HeaderCellIsNew(c: Job, s: State, p: int, x: int, w: int, start: int)
    requires CanCopy(c, s, w, start) && SlotOf(c, s, p, x)
    ensures Here(c, s, p, x) != start + HeaderOf(c, w) - HEADER_SIZE
  {
    hide OldOk, NewOk, RootsOk, RestOk, GapsOk, ReachedOk, UpdatedOk, PlacedOk, ValidSlots, ValidForwarded, Reaches, SizeOf, HeaderOf, Traced, SlotOf, Here;
    HeaderInside(c, s, w, start);
    SlotHere(c, s, p, x);
    HereIsRootOrTo(c, s, p, x);
    HereBeforeBack(c, s, p, x);
  }

  lemma HereBeforeBack(c: Job, s: State, p: int, x: int)
    requires Inv(c, s) && SlotOf(c, s, p, x)
    ensures x !in c.roots ==> Here(c, s, p, x) < s.back
    ensures c.toStart <= s.back
  {
    hide OldOk, NewOk, RootsOk, RestOk, GapsOk, ReachedOk, UpdatedOk, ValidSlots, ValidForwarded, SizeOf, HeaderOf, Traced, SlotOf, InObject, Scratch;
    SlotHere(c, s, p, x);
    if x !in c.roots { var i := CopyCell(c, s, p, x); }
  }

  /** What a step that copies nothing keeps. */
  ghost predicate Kept(c: Job, s: State, s': State, jumps: seq<nat>, copies: map<int, int>, i: nat) {
    Inv(c, s') && Filled(c, s', jumps) && MapOk(c, s', copies) && Extends(s, s') && Gaps(c, s', i) == Gaps(c, s, i)
  }

  lemma UpdateKeeps(c: Job, s: State, jumps: seq<nat>, copies: map<int, int>, p: int, x: int, m': Mem, i: nat)
    requires CanUpdate(c, s, p, x, m') && Filled(c, s, jumps) && MapOk(c, s, copies)
    ensures Kept(c, s, AfterUpdate(s, x, m'), jumps, copies, i)
  {
    hide Inv, SlotOf, UpdatedTo, Keeps, Bytes, SizeOf, Skipped, Gaps;
    UpdateKeepsInv(c, s, p, x, m');
    SameGaps(c, s, AfterUpdate(s, x, m'), i);
    SameFilled(c, s, AfterUpdate(s, x, m'), jumps);
  }

  lemma SlotStandsAsIs(c: Job, s: State, jumps: seq<nat>, copies: map<int, int>, p: int, x: int, m': Mem, i: nat)
    requires Inv(c, s) && SlotOf(c, s, p, x) && x !in s.updated && Filled(c, s, jumps) && MapOk(c, s, copies)
    requires !IsObjptr(Rd(c.m0, x)) && m' == s.m
    ensures Kept(c, s, AfterUpdate(s, x, m'), jumps, copies, i)
  {
    hide Inv, SlotOf, Filled, MapOk, Here, Kept;
    SlotReads(c, s, p, x);
    assert CanUpdate(c, s, p, x, m');
    UpdateKeeps(c, s, jumps, copies, p, x, m', i);
  }

  lemma SlotInShared(c: Job, s: State, jumps: seq<nat>, copies: map<int, int>, p: int, x: int, m': Mem, i: nat, sharedLo: int, sharedHi: int)
    requires Inv(c, s) && ValidShared(c, sharedLo, sharedHi) && c.lifting && SlotOf(c, s, p, x) && x !in s.updated && IsObjptr(Rd(c.m0, x))
    requires Filled(c, s, jumps) && MapOk(c, s, copies)
    requires var w, opp := Rd(c.m0, x), Here(c, s, p, x);
      m' == (if Moved(c, s, w) then s.m[opp := s.fwd[w]] else s.m) && sharedLo <= Rd(m', opp) < sharedHi
    ensures Kept(c, s, AfterUpdate(s, x, m'), jumps, copies, i)
  {
    hide Inv, SlotOf, Filled, MapOk, Here, Kept, ValidShared, Moved;
    FixReads(c, s, p, x, sharedLo, sharedHi);
    MovedIs(c, s, Rd(c.m0, x));
    assert CanUpdate(c, s, p, x, m');
    UpdateKeeps(c, s, jumps, copies, p, x, m', i);
  }

  /** The copy of an immutable object was known already. */
  lemma SlotOfKept(c: Job, s: State, jumps: seq<nat>, copies: map<int, int>, p: int, x: int, m': Mem, i: nat, sharedLo: int, sharedHi: int)
    requires Inv(c, s) && ValidShared(c, sharedLo, sharedHi) && c.lifting && SlotOf(c, s, p, x) && x !in s.updated
    requires var w := Rd(c.m0, x); Takes(c, w) && w in s.fwd && w in c.g && Keeps(c, w)
    requires Filled(c, s, jumps) && MapOk(c, s, copies)
    requires var w, opp := Rd(c.m0, x), Here(c, s, p, x); var n := s.fwd[w]; var m1 := s.m[opp := n];
      m' == if sharedLo <= n < sharedHi then m1[n - HEADER_SIZE := SetLift(Rd(m1, n - HEADER_SIZE))] else m1
    ensures Kept(c, s, AfterUpdate(s, x, m'), jumps, copies, i)
  {
    hide Inv, SlotOf, Filled, MapOk, Here, Kept, ValidShared, SetLift, InTo;
    var w := Rd(c.m0, x);
    CopyTarget(c, s, w, sharedLo, sharedHi);
    CopyHeaderIsNoSlot(c, s, p, x, w);
    SetLiftTwice(Rd(c.m0, w - HEADER_SIZE));
    assert CanUpdate(c, s, p, x, m');
    UpdateKeeps(c, s, jumps, copies, p, x, m', i);
  }

  lemma SetLiftTwice(h: int)
    ensures SetLift(SetLift(h)) == SetLift(h)
  {
  }

  /** A copy has been made. */
  lemma SlotOfNew(c: Job, s: State, jumps: seq<nat>, copies: map<int, int>, p: int, x: int, start: int, m1: Mem, m': Mem, i: nat, sharedLo: int, sharedHi: int)
      returns (s2: State)
    requires Inv(c, s) && ValidShared(c, sharedLo, sharedHi) && c.lifting && SlotOf(c, s, p, x) && x !in s.updated
    requires var w := Rd(c.m0, x); Takes(c, w) && w in c.g && w !in s.fwd && CanCopy(c, s, w, start) && CopiedAsIs(c, s.m, w, start, m1)
    requires start == s.back + JumpAt(jumps, |s.objs|) && Filled(c, s, jumps) && MapOk(c, s, copies) && i <= |s.starts|
    requires var n := start + HeaderOf(c, Rd(c.m0, x)); var m2 := m1[Here(c, s, p, x) := n];
      m' == if sharedLo <= n < sharedHi then m2[n - HEADER_SIZE := SetLift(Rd(m2, n - HEADER_SIZE))] else m2
    ensures var w := Rd(c.m0, x); var n := start + HeaderOf(c, w);
      && Inv(c, s2) && Filled(c, s2, jumps) && MapOk(c, s2, if Keeps(c, w) then copies[w := n] else copies) && Extends(s, s2)
      && s2.m == m' && s2.back == start + SizeOf(c, w) && |s2.objs| == |s.objs| + 1 && s2.updated == s.updated + {x}
      && Gaps(c, s2, i) == Gaps(c, s, i) + (if s.back != start then [SkipRange(s.back, start)] else [])
      && s.back <= s2.back
  {
    hide Inv, SlotOf, Filled, MapOk, Here, ValidShared, SetLift, InTo, CanCopy, CopiedAsIs, CopiedTo, HeaderOf, SizeOf, Keeps, Takes, Gaps, Extends, CanUpdate;
    var w := Rd(c.m0, x);
    var n := start + HeaderOf(c, w);
    NewInShared(c, s, w, start, sharedLo, sharedHi);
    LiftedCopy(c, s, p, x, start, m1, m');
    var mG := m1[n - HEADER_SIZE := SetLift(Rd(m1, n - HEADER_SIZE))];
    var s1 := AfterCopy(c, s, w, start, mG);
    s2 := AfterUpdate(s1, x, m');
    NotCopied(c, s, w);
    NewKeepsRest(c, s, jumps, copies, w, start, mG, x, m', i);
  }

  lemma NotCopied(c: Job, s: State, w: int)
    requires Inv(c, s) && w !in s.fwd
    ensures w !in s.objs
  {
    hide OldOk, NewOk, RootsOk, RestOk, GapsOk, ReachedOk, UpdatedOk, ValidJob;
  }

  lemma NewInShared(c: Job, s: State, w: int, start: int, sharedLo: int, sharedHi: int)
    requires CanCopy(c, s, w, start) && ValidShared(c, sharedLo, sharedHi)
    ensures sharedLo <= start + HeaderOf(c, w) < sharedHi && s.back <= start + SizeOf(c, w) && |s.starts| == |s.objs|
  {
    hide OldOk, NewOk, RootsOk, RestOk, GapsOk, ReachedOk, UpdatedOk, ValidSlots, ValidForwarded, Reaches, SizeOf, HeaderOf, ValidFrom;
    SharedIsSomewhere(c, sharedLo, sharedHi);
    HeaderInside(c, s, w, start);
    SizeAtLeastHeader(c, w);
  }

  lemma NewKeepsRest(c: Job, s: State, jumps: seq<nat>, copies: map<int, int>, w: int, start: int, mG: Mem, x: int, m': Mem, i: nat)
    requires w in c.g && w !in s.fwd && w !in s.objs && start == s.back + JumpAt(jumps, |s.objs|) && Filled(c, s, jumps) && MapOk(c, s, copies)
    requires |s.starts| == |s.objs| && i <= |s.starts|
    ensures var n := start + HeaderOf(c, w); var s2 := AfterUpdate(AfterCopy(c, s, w, start, mG), x, m');
      && Filled(c, s2, jumps) && MapOk(c, s2, if Keeps(c, w) then copies[w := n] else copies) && Extends(s, s2)
      && Gaps(c, s2, i) == Gaps(c, s, i) + (if s.back != start then [SkipRange(s.back, start)] else [])
  {
    hide SizeOf, HeaderOf, Keeps, JumpAt, Gaps, Skipped, Bytes, PrevEnd, Filled;
    var s1 := AfterCopy(c, s, w, start, mG);
    var s2 := AfterUpdate(s1, x, m');
    CopyKeepsFilled(c, s, jumps, w, mG);
    GapsAppend(c, s, s1, start, i);
    SameGaps(c, s1, s2, i);
    assert forall q {:trigger q in s2.objs} :: q in s2.objs <==> q in s.objs || q == w;
    FilledBefore(c, s, jumps);
    SameFilled(c, s1, s2, jumps);
  }

  lemma FilledBefore(c: Job, s: State, jumps: seq<nat>)
    requires Filled(c, s, jumps)
    ensures s.back == PrevEnd(c, s, |s.objs|)
  {
  }

  lemma SameFilled(c: Job, s: State, s': State, jumps: seq<nat>)
    requires Filled(c, s, jumps) && s'.objs == s.objs && s'.starts == s.starts && s'.back == s.back
    ensures Filled(c, s', jumps)
  {
    hide SizeOf;
    forall k: nat | k < |s'.starts| ensures StartIs(c, s', jumps, k) { assert StartIs(c, s, jumps, k); }
  }

  // -------------------------------------------------------------------- the scan

  lemma LiftReads(l: Lifter, c: Job, lo: int, hi: int, i: nat)
    requires l.Holds(c, lo, hi) && i < |l.st.objs| && |l.st.starts| == |l.st.objs|
    ensures ValidModel(l.e) && l.st.objs[i] in c.g && l.st.objs[i] in l.st.fwd
    ensures var p := AdvanceToObjectData(l.mem, l.st.starts[i]); var h := Rd(l.mem, p - HEADER_SIZE); var q := l.st.objs[i];
      && p == l.st.fwd[q] && h != FORWARDED && TypeOf(l.e, h) == c.g[q].t && ValidType(l.e, c.g[q].t) && c.g[q].t.tag in {NormalTag, WeakTag, ArrayTag}
      && p - HeaderBytes(c.g[q].t) + SizeWithHeader(l.e, l.mem, p, h) == PrevEnd(c, l.st, i + 1) && l.st.starts[i] < PrevEnd(c, l.st, i + 1)
      && (c.g[q].t.tag == ArrayTag ==> Length(Rd(l.mem, p - 16)) == c.g[q].len)
      && |TracedAt(c, q)| == if c.g[q].t.tag == WeakTag then 0 else |Slots(c.g[q].t, p, c.g[q].len)|
    ensures Extends(l.st, l.st)
  {
    hide Inv, Filled, Within, ValidShared, MapOk, SizeWithHeader, TypeOf, ValidType, AdvanceToObjectData, SizeOf, Slots;
    CopyReads(c, l.st, i);
    ModelIsValid(c, l.st);
    SizePositive(c, l.st, l.st.objs[i]);
    var q := l.st.objs[i];
    SlotsShift(c.g[q].t, q, l.st.fwd[q] - q, c.g[q].len);
  }

  lemma StartsGrown(s: State, s': State)
    requires Extends(s, s')
    ensures |s.starts| <= |s'.starts|
  {
  }

  lemma LiftScanned(l: Lifter, c: Job, lo: int, hi: int, s0: State, i: nat)
    requires l.Holds(c, lo, hi) && Extends(s0, l.st) && i < |s0.objs| == |s0.starts| && UpdatedIs(c, l.st, i, |TracedAt(c, s0.objs[i])|)
    ensures UpdatedIs(c, l.st, i + 1, 0) && |l.st.starts| == |l.st.objs| && PrevEnd(c, l.st, i + 1) == PrevEnd(c, s0, i + 1)
  {
    hide Inv, UpdatedIs, Filled, Within, ValidShared, MapOk, TracedAt, SizeOf;
    assert l.st.objs[i] == s0.objs[i] && l.st.starts[i] == s0.starts[i];
    PartIsAll(c, l.st, i);
    Placed(c, l.st);
  }

  lemma Placed(c: Job, s: State)
    requires Inv(c, s)
    ensures PlacedOk(c, s) && ValidFrom(c) && |s.starts| == |s.objs|
  {
  }

  lemma LiftFrontIs(l: Lifter, c: Job, lo: int, hi: int, i: nat)
    requires l.Holds(c, lo, hi) && i <= |l.st.objs|
    ensures |l.st.starts| == |l.st.objs|
    ensures i < |l.st.objs| <==> PrevEnd(c, l.st, i) < l.back
    ensures i == |l.st.objs| ==> PrevEnd(c, l.st, i) == l.back
    ensures PrevEnd(c, l.st, 0) == c.toStart && PrevEnd(c, l.st, i) <= l.back
  {
    hide Inv, UpdatedIs, Within, ValidShared, MapOk, SizeOf, Bytes, Skipped, PlacedOk, ValidFrom;
    Placed(c, l.st);
    if i < |l.st.objs| {
      PrevEndBefore(c, l.st, i);
      StartBounds(c, l.st, i);
      SizePositive(c, l.st, l.st.objs[i]);
    }
  }

  lemma SkipIs(l: Lifter, c: Job, lo: int, hi: int, i: nat)
    requires l.Holds(c, lo, hi) && i < |l.st.objs|
    ensures |l.st.starts| == |l.st.objs|
    ensures var gaps := Gaps(c, l.st, i);
      if gaps != [] && gaps[0].start == PrevEnd(c, l.st, i) then gaps[0].end == l.st.starts[i] && gaps[1..] == Gaps(c, l.st, i + 1)
      else PrevEnd(c, l.st, i) == l.st.starts[i] && gaps == Gaps(c, l.st, i + 1)
    ensures PrevEnd(c, l.st, i) <= l.st.starts[i]
  {
    hide Inv, UpdatedIs, Within, ValidShared, MapOk, Gaps, PrevEnd, Filled, PlacedOk, ValidFrom;
    Placed(c, l.st);
    NextGap(c, l.st, i);
    PrevEndBefore(c, l.st, i);
  }

  lemma NoGapsLeft(c: Job, s: State, i: nat)
    requires i == |s.starts|
    ensures Gaps(c, s, i) == []
  {
  }

  lemma NothingLiftedYet(l: Lifter, c: Job, lo: int, hi: int, x: int)
    requires l.Runs(c) && ValidJob(c) && ValidShared(c, l.sharedLo, l.sharedHi) && c.m0 == l.mem && c.roots == {x}
    requires Within(c, lo, hi) && hi - lo + Skipped(l.jumps, |l.jumps|) <= l.sharedHi - l.toStart
    requires l.sharedFrontier == l.back == l.toStart && l.ranges == [] && l.copyObjectMap == map[] && l.allocations == 0
    requires l.st == State(l.mem, c.forwarded, [], [], l.toStart, {})
    ensures l.Holds(c, lo, hi) && l.ranges == Gaps(c, l.st, 0) && SlotOf(c, l.st, 0, x) && Here(c, l.st, 0, x) == x
  {
    hide ValidShared, ValidFrom, ValidSlots, InObject, Traced, Free, Reaches, Takes;
    StartIsInv(c, l.st);
  }

  lemma StartIsInv(c: Job, s: State)
    requires ValidJob(c) && s == State(c.m0, c.forwarded, [], [], c.toStart, {}) && c.toStart <= c.toLimit
    ensures Inv(c, s)
  {
    hide InObject, Nodes, Apart, Traced, Leads, Free, Reaches;
  }

  // ------------------------------------------------------------- the lifted closure

  /** Exactly the closure has been copied, each object once; the copies have the
      lift bit and point to copies; the originals that do not stay as they are
      forward to them; nothing else in either heap has changed. */
  ghost predicate Lifted(c: Job, s: State, m: Mem) {
    && (forall x {:trigger Reaches(c, x)} :: x in s.objs <==> Reaches(c, x))
    && PlacedOk(c, s)
    && (forall p, x {:trigger InExtent(c.e, c.g, p, x)} :: p in s.objs && InExtent(c.e, c.g, p, x) && !Scratch(c, p, x) ==>
          p in s.fwd && Rd(m, x + (s.fwd[p] - p)) == LiftedWord(c, s, p, x))
    && (forall x {:trigger x in c.roots} :: x in c.roots ==> Rd(m, x) == Forward(c, s.fwd, Rd(c.m0, x)))
    && (forall p, x {:trigger InExtent(c.e, c.g, p, x)} :: InExtent(c.e, c.g, p, x) ==> Rd(m, x) == OldWord(c, s, p, x))
    && (forall x {:trigger Rd(m, x)} :: (InTo(c, x) && !InCopies(c, s, x)) || Free(c, x) ==> Rd(m, x) == Rd(c.m0, x))
  }

  ghost function LiftedWord(c: Job, s: State, p: int, x: int): int
    requires p in c.g
  {
    if x == p - HEADER_SIZE then SetLift(Rd(c.m0, x))
    else if x in Traced(c.g[p], p) then Forward(c, s.fwd, Rd(c.m0, x))
    else Rd(c.m0, x)
  }

  lemma LiftIsCorrect(c: Job, s: State)
    requires Inv(c, s) && AllUpdated(c, s) && c.lifting
    ensures Lifted(c, s, s.m)
  {
    hide ValidJob, Reaches, PlacedOk, UpdatedOk, ReachedOk, InObject, Scratch, LiftedWord, OldWord, NewWord, InCopies, Free, InTo, Forward, Traced, AllUpdated;
    CopiedExactly(c, s);
    forall p, x {:trigger InExtent(c.e, c.g, p, x)} | p in s.objs && InExtent(c.e, c.g, p, x) && !Scratch(c, p, x)
      ensures p in s.fwd && Rd(s.m, x + (s.fwd[p] - p)) == LiftedWord(c, s, p, x)
    {
      LiftedCell(c, s, p, x);
    }
    forall x {:trigger x in c.roots} | x in c.roots ensures x in s.updated { RootIsUpdated(c, s, x); }
  }

  lemma RootIsUpdated(c: Job, s: State, x: int)
    requires AllUpdated(c, s) && x in c.roots
    ensures x in s.updated
  {
    hide Traced;
  }

  lemma LiftedCell(c: Job, s: State, p: int, x: int)
    requires Inv(c, s) && AllUpdated(c, s) && c.lifting && p in s.objs && InExtent(c.e, c.g, p, x) && !Scratch(c, p, x)
    ensures p in s.fwd && Rd(s.m, x + (s.fwd[p] - p)) == LiftedWord(c, s, p, x)
  {
    hide OldOk, RootsOk, RestOk, GapsOk, ReachedOk, Scratch, InObject, Forward, ValidForwarded, Nodes, Traced, SetLift;
    if x in s.updated && x !in c.roots {
      assert Slot(c, s, x);
      var q :| q in s.objs && q in c.g && x in Traced(c.g[q], q);
      TracedInExtent(c, q, x);
    }
    if x in Traced(c.g[p], p) { TracedInExtent(c, p, x); }
  }

  /** Nothing that is traced from the root or from a copy leads to the local
      heap: what is no pointer aside, all of it is in the shared heap. */
  ghost predicate ClosureShared(c: Job, s: State, m: Mem, sharedLo: int, sharedHi: int) {
    && (forall x {:trigger x in c.roots} :: x in c.roots && IsObjptr(Rd(c.m0, x)) ==> sharedLo <= Rd(m, x) < sharedHi)
    && (forall p, x {:trigger x in Traced(c.g[p], p)} :: p in s.objs && p in c.g && p in s.fwd && x in Traced(c.g[p], p) && IsObjptr(Rd(c.m0, x)) ==>
          sharedLo <= Rd(m, x + (s.fwd[p] - p)) < sharedHi)
    && (forall p, q :: p in s.objs && q in s.objs && p != q ==> p in s.fwd && q in s.fwd && s.fwd[p] != s.fwd[q])
  }

  lemma ClosureIsShared(c: Job, s: State, sharedLo: int, sharedHi: int)
    requires Inv(c, s) && AllUpdated(c, s) && c.lifting && ValidShared(c, sharedLo, sharedHi)
    ensures ClosureShared(c, s, s.m, sharedLo, sharedHi)
  {
    hide Inv, ValidShared, Traced, AllUpdated, Lifted, LiftedWord, Forward;
    LiftIsCorrect(c, s);
    forall x {:trigger x in c.roots} | x in c.roots && IsObjptr(Rd(c.m0, x)) ensures sharedLo <= Rd(s.m, x) < sharedHi {
      LiftedRoot(c, s, x);
      ForwardIsShared(c, s, 0, x, sharedLo, sharedHi);
    }
    forall p, x {:trigger x in Traced(c.g[p], p)} | p in s.objs && p in c.g && p in s.fwd && x in Traced(c.g[p], p) && IsObjptr(Rd(c.m0, x))
      ensures sharedLo <= Rd(s.m, x + (s.fwd[p] - p)) < sharedHi
    {
      LiftedSlotWord(c, s, p, x);
      ForwardIsShared(c, s, p, x, sharedLo, sharedHi);
    }
    forall p, q | p in s.objs && q in s.objs && p != q ensures p in s.fwd && q in s.fwd && s.fwd[p] != s.fwd[q] {
      CopiesDiffer(c, s, p, q);
    }
  }

  lemma LiftedRoot(c: Job, s: State, x: int)
    requires Lifted(c, s, s.m) && x in c.roots
    ensures Rd(s.m, x) == Forward(c, s.fwd, Rd(c.m0, x))
  {
    hide PlacedOk, Forward, LiftedWord, OldWord, InCopies, Free;
  }

  lemma LiftedSlotWord(c: Job, s: State, p: int, x: int)
    requires Inv(c, s) && Lifted(c, s, s.m) && p in s.objs && p in c.g && p in s.fwd && x in Traced(c.g[p], p)
    ensures Rd(s.m, x + (s.fwd[p] - p)) == Forward(c, s.fwd, Rd(c.m0, x))
  {
    hide OldOk, NewOk, RootsOk, RestOk, GapsOk, ReachedOk, UpdatedOk, PlacedOk, Forward, Scratch, InObject, Nodes, OldWord, InCopies, Free;
    TracedInExtent(c, p, x);
  }

  lemma ForwardIsShared(c: Job, s: State, p: int, x: int, sharedLo: int, sharedHi: int)
    requires Inv(c, s) && AllUpdated(c, s) && ValidShared(c, sharedLo, sharedHi) && IsObjptr(Rd(c.m0, x))
    requires x in c.roots || (p in c.g && p in s.objs && x in Traced(c.g[p], p))
    ensures sharedLo <= Forward(c, s.fwd, Rd(c.m0, x)) < sharedHi
  {
    hide OldOk, NewOk, RootsOk, RestOk, GapsOk, ReachedOk, PlacedOk, ValidJob, Traced, ValidShared, Leads, Takes;
    var w := Rd(c.m0, x);
    assert x in s.updated;
    MovedMeansTakes(c, s, w);
    if Takes(c, w) {
      if w in c.forwarded { ForwardedTarget(c, s, w, sharedLo, sharedHi); } else { CopyTarget(c, s, w, sharedLo, sharedHi); }
    } else {
      SharedTarget(c, s, p, x, sharedLo, sharedHi);
    }
  }

  /** The pointer of a weak object is not traced: its copy goes on pointing
      where the original did, and so into the local heap if that did. */
  lemma WeakPointerStays(c: Job, s: State, p: int)
    requires Inv(c, s) && AllUpdated(c, s) && c.lifting && p in s.objs && p in c.g && c.g[p].t.tag == WeakTag
    ensures p in s.fwd && Rd(s.m, WeakCell(c.e, s.fwd[p])) == Rd(c.m0, WeakCell(c.e, p))
  {
    hide OldOk, NewOk, RootsOk, RestOk, GapsOk, ReachedOk, PlacedOk, UpdatedOk, ValidSlots, ValidForwarded, InObject, Apart, Nodes, OffsetOfWeak, AllUpdated;
    CellsInExtent(c.e, c.m0, c.g, p);
    LiftedCell(c, s, p, WeakCell(c.e, p));
  }
}
