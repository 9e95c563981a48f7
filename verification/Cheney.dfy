/** The collector itself, major and minor (forward.c, foreach.c, cheney-copy.c). */
module Cheney {
  import opened Memory
  import opened Objects
  import opened Layout
  import opened MarkGraph
  import opened CopyJob
  import opened CopySteps
  import opened CopyScan
  import opened CheneyCopy
  import opened CheneyWeaks

  class Collector {
    const e: Model
    const fromLo: int
    const fromHi: int
    const toStart: int
    const toLimit: int
    const minor: bool
    var mem: Mem
    var back: int
    var weaks: int
    ghost var st: State

    constructor (e: Model, fromLo: int, fromHi: int, toStart: int, toLimit: int, minor: bool, mem: Mem, weaks: int)
      ensures this.e == e && this.fromLo == fromLo && this.fromHi == fromHi && this.minor == minor
      ensures this.toStart == toStart && this.toLimit == toLimit
      ensures this.mem == mem && this.back == toStart && this.weaks == weaks
    {
      this.e, this.fromLo, this.fromHi, this.toStart, this.toLimit, this.minor := e, fromLo, fromHi, toStart, toLimit, minor;
      this.mem, this.back, this.weaks := mem, toStart, weaks;
      this.st := State(mem, map[], [], [], toStart, {});
    }

    ghost predicate Runs(c: Job)
      reads this
    {
      && c.e == e && c.fromLo == fromLo && c.fromHi == fromHi && c.toStart == toStart && c.toLimit == toLimit && c.minor == minor
      && !c.lifting && !c.copyImmutable
    }

    /** The collection c has come to the state st; last is the end of the chain
        of weak objects, and the objects of from-space lie in [lo, hi). */
    ghost predicate Holds(c: Job, last: int, lo: int, hi: int)
      reads this
    {
      && Runs(c) && st.m == mem && st.back == back
      && Inv(c, st) && Packed(c, st) && WeakChain(c, st, WeaksOf(c, st.objs), weaks, last)
      && Within(c, lo, hi) && hi - lo <= toLimit - toStart
    }

    /** The part of forwardObjptr that copies an object and leaves the
        forwarding pointer behind. */
    method CopyObject(w: int, header: int, ghost c: Job, ghost last: int, ghost lo: int, ghost hi: int)
      requires Holds(c, last, lo, hi) && w in c.g && w !in st.fwd && Reaches(c, w) && NotMoved(c, st, w) && header == Rd(mem, w - HEADER_SIZE)
      modifies this
      ensures Holds(c, last, lo, hi) && Extends(old(st), st)
      ensures st.updated == old(st).updated && st.objs == old(st).objs + [w] && w in st.fwd && old(back) <= back
      ensures Rd(mem, w) == st.fwd[w]
    {
      hide Inv, Packed, WeakChain, WeaksOf, Within, Reaches, NotMoved, BodyBytes, HeaderBytes, Evacuation, CopiedTo, LinksWeak, SizeOf, HeaderOf, IsLifted, TypeOf, LinkCell, WeakCell, Extends, CopiedWords, CopyCells, Follows, Bytes;
      ghost var s := st;
      var t := TypeOf(e, header);
      var headerBytes, objectBytes := HeaderBytes(t), BodyBytes(e, mem, w, t);
      var size := headerBytes + objectBytes;
      SpaceIs(c, st, w);
      RoomForNext(c, st, w, lo, hi);
      RangesApart(c, st, w, st.back);
      mem := CopyCells(mem, back, w - headerBytes - back, size);
      ghost var m1 := mem;
      MemcpyWords(s.m, s.back, w - headerBytes, size, m1);
      LinkRule(c, s, w, m1);
      if t.tag == WeakTag && t.numObjptrs == 1 {
        var link := LinkCell(e, back + headerBytes);
        var p := Rd(mem, WeakCell(e, back + headerBytes));
        if IsObjptr(p) && (!minor || fromLo <= p < fromHi) {
          mem := mem[link := weaks];
          weaks := link;
        }
      }
      ghost var m2 := mem;
      mem := mem[w - HEADER_SIZE := FORWARDED];
      mem := mem[w := back + headerBytes];
      FinishCopy(c, s, old(weaks), last, w, m1, m2, mem, weaks);
      st := AfterCopy(c, s, w, s.back, mem);
      CopyKeepsPacked(c, s, w, mem);
      back := back + size;
    }

    /** forwardObjptr on the slot with the old address x, which is at opp now. */
    method ForwardObjptr(opp: int, ghost p: int, ghost x: int, ghost c: Job, ghost last: int, ghost lo: int, ghost hi: int)
      requires Holds(c, last, lo, hi) && SlotOf(c, st, p, x) && x !in st.updated && opp == Here(c, st, p, x) && Takes(c, Rd(c.m0, x))
      modifies this
      ensures Holds(c, last, lo, hi) && Extends(old(st), st) && st.updated == old(st).updated + {x} && old(back) <= back
    {
      hide Inv, Packed, WeakChain, WeaksOf, Within, Reaches, LinksWeak, SlotOf, Here, Takes;
      var w := Rd(mem, opp);
      TargetReads(c, st, p, x);
      var header := Rd(mem, w - HEADER_SIZE);
      if IsLifted(header) { return; }
      ghost var s0 := st;
      if header != FORWARDED {
        CopyObject(w, header, c, last, lo, hi);
        SlotStays(c, s0, st, p, x);
      }
      mem := mem[opp := Rd(mem, w)];
      FinishForward(c, st, weaks, last, p, x, w, mem);
      st := AfterUpdate(st, x, mem);
    }

    /** callIfIsObjptr with forwardObjptrIfInLocalHeap or forwardObjptrIfInNursery. */
    method ForwardIfInFromSpace(opp: int, ghost p: int, ghost x: int, ghost c: Job, ghost last: int, ghost lo: int, ghost hi: int)
      requires Holds(c, last, lo, hi) && SlotOf(c, st, p, x) && x !in st.updated && opp == Here(c, st, p, x)
      modifies this
      ensures Holds(c, last, lo, hi) && Extends(old(st), st) && st.updated == old(st).updated + {x} && old(back) <= back
    {
      hide Inv, Packed, WeakChain, WeaksOf, Within, SlotOf, Here;
      var w := Rd(mem, opp);
      SlotReads(c, st, p, x);
      if IsObjptr(w) && fromLo <= w < fromHi {
        ForwardObjptr(opp, p, x, c, last, lo, hi);
      } else {
        LeaveSlot(c, st, weaks, last, p, x);
        st := AfterUpdate(st, x, mem);
      }
    }

    /** foreachGlobalObjptrInScope. */
    method ForwardRoots(roots: seq<int>, ghost c: Job, ghost last: int, ghost lo: int, ghost hi: int)
      requires Holds(c, last, lo, hi) && st.updated == {} && st.objs == []
      requires (forall x: int {:trigger x in c.roots} :: x in roots <==> x in c.roots) && (forall i, j :: 0 <= i < j < |roots| ==> roots[i] != roots[j])
      modifies this
      ensures Holds(c, last, lo, hi) && UpdatedIs(c, st, 0, 0)
    {
      hide Holds, UpdatedIs;
      var k := 0;
      while k < |roots|
        invariant k <= |roots| && Holds(c, last, lo, hi)
        invariant forall x {:trigger x in st.updated} :: x in st.updated ==> x in c.roots
        invariant forall j {:trigger roots[j]} :: 0 <= j < |roots| ==> (roots[j] in st.updated <==> j < k)
      {
        var r := roots[k];
        assert r in roots && r in c.roots && r !in st.updated;
        ForwardIfInFromSpace(r, 0, r, c, last, lo, hi);
        k := k + 1;
      }
      forall x: int ensures x in st.updated <==> x in c.roots {
        assert x in roots <==> x in c.roots;
        if x in roots { var j :| 0 <= j < k && roots[j] == x; }
      }
      RootsDone(c, st);
    }

    /** One object of the scan. */
    method ScanObject(front: int, ghost i: nat, ghost c: Job, ghost last: int, ghost lo: int, ghost hi: int) returns (end: int)
      requires Holds(c, last, lo, hi) && UpdatedIs(c, st, i, 0) && i < |st.objs| && |st.starts| == |st.objs| && front == st.starts[i]
      modifies this
      ensures Holds(c, last, lo, hi) && UpdatedIs(c, st, i + 1, 0) && Extends(old(st), st)
      ensures |st.starts| == |st.objs| && end == StartOr(st, i + 1) && front < end && old(back) <= back
    {
      hide Inv, Packed, WeakChain, WeaksOf, Within, UpdatedIs, Extends, ArrayNoHeader, SlotOf, Here;
      ScanReads(this, c, last, lo, hi, i);
      ghost var s0 := st;
      var p := AdvanceToObjectData(mem, front);
      var slots;
      end, slots := ForeachObjptrInObject(e, mem, p, true);
      var k := 0;
      while k < |slots|
        invariant k <= |slots| && Holds(c, last, lo, hi) && UpdatedIs(c, st, i, k) && Extends(s0, st) && old(back) <= back
      {
        assert Inv(c, st);
        NextSlot(c, s0, st, i, k, slots);
        ghost var s1 := st;
        ForwardIfInFromSpace(slots[k], s0.objs[i], TracedAt(c, s0.objs[i])[k], c, last, lo, hi);
        SlotDone(c, s0, s1, st, i, k);
        k := k + 1;
      }
      ScanDone(this, c, last, lo, hi, s0, i);
    }

    /** foreachObjptrInRange over to-space, whose end moves as objects arrive. */
    method ForeachObjptrInRange(start: int, ghost c: Job, ghost last: int, ghost lo: int, ghost hi: int) returns (front: int)
      requires Holds(c, last, lo, hi) && UpdatedIs(c, st, 0, 0) && start == toStart
      modifies this
      ensures Holds(c, last, lo, hi) && AllUpdated(c, st) && front == back
    {
      hide Inv, Packed, WeakChain, WeaksOf, Within, UpdatedIs, Extends, AllUpdated, Bytes;
      ghost var i := 0;
      front := start;
      var b := back;
      FrontIs(this, c, last, lo, hi, i);
      while front < b
        invariant Holds(c, last, lo, hi) && UpdatedIs(c, st, i, 0) && i <= |st.objs| == |st.starts|
        invariant front == StartOr(st, i) && b <= back && (front < b || front == back)
        invariant i < |st.objs| <==> front < back
        decreases |c.g| - |st.objs|, |st.objs| - i
      {
        ObjectsFit(c, st);
        var front0 := front;
        ghost var i0, n0 := i, |st.objs|;
        while front < b
          invariant Holds(c, last, lo, hi) && UpdatedIs(c, st, i, 0) && i <= |st.objs| == |st.starts|
          invariant front == StartOr(st, i) && front0 <= front && b <= back
          invariant i < |st.objs| <==> front < back
          invariant |st.objs| > n0 || (|st.objs| == n0 && i >= i0 && (front > front0 ==> i > i0))
          invariant |st.objs| <= |c.g|
          decreases |c.g| - |st.objs|, |st.objs| - i
        {
          ghost var s0 := st;
          front := ScanObject(front, i, c, last, lo, hi);
          GrownBy(s0, st);
          i := i + 1;
          ObjectsFit(c, st);
          FrontIs(this, c, last, lo, hi, i);
        }
        b := back;
        FrontIs(this, c, last, lo, hi, i);
      }
      ScanEnds(c, st, i);
    }

    /** updateWeaksForCheneyCopy. */
    method UpdateWeaks(ghost c: Job, ghost lo: int, ghost hi: int)
      requires Holds(c, 0, lo, hi) && ValidWeaks(c) && 0 < toStart
      modifies this`mem, this`weaks
      ensures var w := WeaksOf(c, st.objs); WeaksUpdated(c, st, w, |w|, mem)
      ensures weaks == 0
    {
      hide Inv, Packed, WeakChain, WeaksOf, Within, ValidWeaks, LinksWeak, WeaksUpdated, OffsetOfWeak, LinkOf, CopyHeader, CopyWeak, LinkCell;
      ghost var linked := WeaksOf(c, st.objs);
      ghost var n := 0;
      NoneUpdatedYet(c, st, linked);
      ChainFacts(c, st, weaks, linked);
      if linked != [] { LinkNotNull(c, st, linked[0]); }
      var w := weaks;
      while w != 0
        invariant n <= |linked| && WeaksUpdated(c, st, linked, n, mem) && weaks == old(weaks)
        invariant w == (if n < |linked| then LinkOf(c, st, linked[n]) else 0)
        invariant n < |linked| ==> w != 0
        decreases |linked| - n
      {
        ghost var m := mem;
        WeakFacts(c, st, weaks, linked, n, mem);
        var target := Rd(mem, w + 8);
        if target != BOGUS_OBJPTR {
          if Rd(mem, target - HEADER_SIZE) == FORWARDED {
            mem := mem[w + 8 := Rd(mem, target)];
          } else {
            mem := mem[w - OffsetOfWeak(e) - HEADER_SIZE := WEAK_GONE_HEADER];
            mem := mem[w + 8 := BOGUS_OBJPTR];
          }
        }
        WeakStep(c, st, linked, n, m, mem);
        NextWeak(c, st, weaks, linked, n, mem);
        n := n + 1;
        w := Rd(mem, w);
      }
      weaks := 0;
    }

    /** majorCheneyCopyGC, and what minorCheneyCopyGC has in common with it. */
    method CollectInto(roots: seq<int>, ghost c: Job, ghost lo: int, ghost hi: int) returns (bytesCopied: int)
      requires Runs(c) && ValidJob(c) && ValidWeaks(c) && c.m0 == mem && 0 < toStart <= toLimit && weaks == 0
      requires Within(c, lo, hi) && hi - lo <= toLimit - toStart
      requires (forall x: int {:trigger x in c.roots} :: x in roots <==> x in c.roots) && (forall i, j :: 0 <= i < j < |roots| ==> roots[i] != roots[j])
      modifies this
      ensures Collected(c, st, mem) && AllUpdated(c, st) && Inv(c, st)
      ensures bytesCopied == Bytes(c, st.objs) && back == st.back == toStart + bytesCopied && 0 <= bytesCopied <= hi - lo
    {
      hide Inv, Packed, WeakChain, WeaksOf, Within, ValidWeaks, ValidJob, UpdatedIs, AllUpdated, WeaksUpdated, Collected;
      back := toStart;
      st := State(mem, c.forwarded, [], [], toStart, {});
      NothingCopiedYet(c, st);
      ForwardRoots(roots, c, 0, lo, hi);
      var front := ForeachObjptrInRange(toStart, c, 0, lo, hi);
      UpdateWeaks(c, lo, hi);
      CollectionIsCorrect(c, st, mem);
      BytesCopied(c, st, lo, hi);
      bytesCopied := back - toStart;
    }
  }

  // ---------------------------------------------------------------- the two heaps

  datatype LocalHeap = LocalHeap(start: int, size: nat, oldGenSize: int)

  /** What majorCheneyCopyGC changes of a processor's state. */
  class LocalHeaps {
    const e: Model
    var heap: LocalHeap
    var secondaryLocalHeap: LocalHeap
    var mem: Mem

    constructor (e: Model, heap: LocalHeap, secondaryLocalHeap: LocalHeap, mem: Mem)
      ensures this.e == e && this.heap == heap && this.secondaryLocalHeap == secondaryLocalHeap && this.mem == mem
    {
      this.e, this.heap, this.secondaryLocalHeap, this.mem := e, heap, secondaryLocalHeap, mem;
    }

    /** c is a collection of the heap into the secondary one. */
    ghost predicate Copies(c: Job)
      reads this
    {
      && c.e == e && c.m0 == mem && !c.minor && !c.lifting && !c.copyImmutable
      && c.fromLo == heap.start && c.fromHi == heap.start + heap.size
      && c.toStart == Align(secondaryLocalHeap.start + HEADER_SIZE, c.e.alignment) - HEADER_SIZE
      && c.toLimit == secondaryLocalHeap.start + secondaryLocalHeap.size
    }

    /** majorCheneyCopyGC: the heaps change places, the new one holds the copies,
        and neither roots nor copies lead to the old one. */
    method MajorCheneyCopyGC(roots: seq<int>, ghost c: Job, ghost lo: int, ghost hi: int) returns (bytesCopied: int, ghost st: State)
      requires Copies(c) && ValidJob(c) && ValidWeaks(c) && 0 < secondaryLocalHeap.start && c.toStart <= c.toLimit
      requires Within(c, lo, hi) && hi - lo <= c.toLimit - c.toStart
      requires (forall x: int {:trigger x in c.roots} :: x in roots <==> x in c.roots) && (forall i, j :: 0 <= i < j < |roots| ==> roots[i] != roots[j])
      modifies this
      ensures Collected(c, st, mem) && heap.start + heap.oldGenSize == st.back
      ensures secondaryLocalHeap == old(heap) && heap == old(secondaryLocalHeap).(oldGenSize := bytesCopied)
      ensures 0 <= bytesCopied <= heap.size
      ensures forall x {:trigger x in c.roots} :: x in c.roots ==> !Takes(c, Rd(mem, x))
      ensures forall p, x {:trigger x in Traced(c.g[p], p)} :: p in st.objs && p in c.g && p in st.fwd && x in Traced(c.g[p], p) ==>
        !Takes(c, Rd(mem, x + (st.fwd[p] - p)))
    {
      hide ValidJob, ValidWeaks, Within, Collected, Inv, AllUpdated, Takes, Traced, Bytes;
      AlignIsLeast(secondaryLocalHeap.start + HEADER_SIZE, e.alignment);
      var toStart := Align(secondaryLocalHeap.start + HEADER_SIZE, e.alignment) - HEADER_SIZE;
      var col := new Collector(e, heap.start, heap.start + heap.size, toStart, secondaryLocalHeap.start + secondaryLocalHeap.size, false, mem, 0);
      var copied := col.CollectInto(roots, c, lo, hi);
      NothingLeftBehind(c, col.st, col.mem);
      mem, st := col.mem, col.st;
      bytesCopied := col.back - secondaryLocalHeap.start;
      var tempHeap := secondaryLocalHeap.(oldGenSize := bytesCopied);
      secondaryLocalHeap := heap;
      heap := tempHeap;
    }
  }

  /** The copy of a weak object says what the original says. */
  lemma LinkRule(c: Job, s: State, w: int, m1: Mem)
    requires CanCopy(c, s, w, s.back) && !c.copyImmutable && 0 <= SizeOf(c, w) && CopiedWords(s.m, s.back, w - HeaderOf(c, w), SizeOf(c, w), m1)
    ensures var n := s.back + HeaderOf(c, w); var t := c.g[w].t; var p := Rd(m1, WeakCell(c.e, n));
      && (t.tag == WeakTag ==> (LinksWeak(c, w) <==> t.numObjptrs == 1 && IsObjptr(p) && (!c.minor || c.fromLo <= p < c.fromHi)))
      && (LinksWeak(c, w) ==> t.tag == WeakTag && t.numObjptrs == 1)
  {
    hide OldOk, Takes, CanCopy, SizeByType, NewOk, RootsOk, RestOk, GapsOk, ReachedOk, UpdatedOk, Reaches, ValidSlots, ValidForwarded, Apart, CopiedWords, PlacedOk, OffsetOfWeak;
    CanCopyFrom(c, s, w);
    CellsInExtent(c.e, c.m0, c.g, w);
    TakesIs(c, Rd(c.m0, WeakCell(c.e, w)));
    if c.g[w].t.tag == WeakTag {
      var x := WeakCell(c.e, s.back + HeaderOf(c, w));
      assert x - s.back + (w - HeaderOf(c, w)) == WeakCell(c.e, w);
      CopiedWord(c, s, w, s.back, m1, x);
    }
  }

  lemma CanCopyFrom(c: Job, s: State, w: int)
    requires CanCopy(c, s, w, s.back)
    ensures w in c.g && Nodes(c.e, c.m0, c.g)
  {
  }

  lemma TakesIs(c: Job, w: int)
    ensures Takes(c, w) <==> IsObjptr(w) && c.fromLo <= w < c.fromHi
  {
  }

  lemma AsIs(c: Job, m: Mem, p: int, start: int, m': Mem)
    requires p in c.g && CopiedAsIs(c, m, p, start, m') && !c.lifting
    ensures CopiedTo(c, m, p, start, m')
  {
    hide Scratch, SizeOf, HeaderOf, Keeps;
  }

  lemma FinishCopy(c: Job, s: State, weaks: int, last: int, w: int, m1: Mem, m2: Mem, m': Mem, weaks': int)
    requires CanCopy(c, s, w, s.back) && !c.lifting && !c.copyImmutable && 0 <= SizeOf(c, w)
    requires CopiedWords(s.m, s.back, w - HeaderOf(c, w), SizeOf(c, w), m1)
    requires WeakChain(c, s, WeaksOf(c, s.objs), weaks, last)
    requires var link := LinkCell(c.e, s.back + HeaderOf(c, w));
      if LinksWeak(c, w) then m2 == m1[link := weaks] && weaks' == link else m2 == m1 && weaks' == weaks
    requires m' == m2[w - HEADER_SIZE := FORWARDED][w := s.back + HeaderOf(c, w)]
    ensures var s' := AfterCopy(c, s, w, s.back, m');
      && Inv(c, s') && WeakChain(c, s', WeaksOf(c, s'.objs), weaks', last)
      && Extends(s, s') && Rd(m', w) == s'.fwd[w]
  {
    hide Inv, WeakChain, WeaksOf, CopiedWords, Reaches, CopiedTo, CopiedAsIs, SizeOf, OffsetOfWeak, HeaderOf;
    assert Evacuation(c, s, w, s.back, m1, m2, m');
    EvacuatedTo(c, s, w, s.back, m1, m2, m');
    AsIs(c, s.m, w, s.back, m');
    CopyKeepsInv(c, s, w, s.back, m');
    ChainAfterCopy(c, s, weaks, last, w, m', weaks');
    var s' := AfterCopy(c, s, w, s.back, m');
  }

  // ------------------------------------------------------------------ forwarding

  /** Copying an object moves no slot. */
  lemma SlotStays(c: Job, s: State, s': State, p: int, x: int)
    requires SlotOf(c, s, p, x) && Extends(s, s') && Inv(c, s)
    ensures SlotOf(c, s', p, x) && Here(c, s', p, x) == Here(c, s, p, x)
  {
    hide OldOk, NewOk, RootsOk, RestOk, GapsOk, ReachedOk, UpdatedOk, ValidJob, Traced;
    if x !in c.roots {
      assert p in s'.objs;
      var i :| 0 <= i < |s.objs| && s.objs[i] == p;
    }
  }

  lemma FinishForward(c: Job, s: State, weaks: int, last: int, p: int, x: int, w: int, m': Mem)
    requires Inv(c, s) && Packed(c, s) && SlotOf(c, s, p, x) && w == Rd(c.m0, x) && Takes(c, w) && w in s.fwd && Rd(s.m, w) == s.fwd[w]
    requires WeakChain(c, s, WeaksOf(c, s.objs), weaks, last)
    requires m' == s.m[Here(c, s, p, x) := Rd(s.m, w)]
    ensures var s' := AfterUpdate(s, x, m');
      Inv(c, s') && Packed(c, s') && WeakChain(c, s', WeaksOf(c, s'.objs), weaks, last) && Extends(s, s')
  {
    hide Inv, SlotOf, Here, Takes, WeakChain, WeaksOf, Bytes;
    assert CanUpdate(c, s, p, x, m');
    UpdateKeepsInv(c, s, p, x, m');
    ChainAfterUpdate(c, s, WeaksOf(c, s.objs), weaks, last, p, x, m');
  }

  /** A word that is no pointer into from-space is as good as forwarded. */
  lemma LeaveSlot(c: Job, s: State, weaks: int, last: int, p: int, x: int)
    requires Inv(c, s) && Packed(c, s) && SlotOf(c, s, p, x) && !Takes(c, Rd(c.m0, x)) && x !in s.updated
    requires WeakChain(c, s, WeaksOf(c, s.objs), weaks, last)
    ensures var s' := AfterUpdate(s, x, s.m);
      Inv(c, s') && Packed(c, s') && WeakChain(c, s', WeaksOf(c, s'.objs), weaks, last) && Extends(s, s')
  {
    hide Inv, SlotOf, Here, Takes, WeakChain, WeaksOf, Bytes;
    SlotReads(c, s, p, x);
    assert CanUpdate(c, s, p, x, s.m);
    UpdateKeepsInv(c, s, p, x, s.m);
    ChainAfterUpdate(c, s, WeaksOf(c, s.objs), weaks, last, p, x, s.m);
  }

  // -------------------------------------------------------------------- scanning

  lemma ScanReads(col: Collector, c: Job, last: int, lo: int, hi: int, i: nat)
    requires col.Holds(c, last, lo, hi) && i < |col.st.objs| && |col.st.starts| == |col.st.objs|
    ensures ValidModel(col.e) && col.st.objs[i] in c.g && col.st.objs[i] in col.st.fwd
    ensures var p := AdvanceToObjectData(col.mem, col.st.starts[i]); var h := Rd(col.mem, p - HEADER_SIZE); var q := col.st.objs[i];
      && p == col.st.fwd[q] && h != FORWARDED && TypeOf(col.e, h) == c.g[q].t && ValidType(col.e, c.g[q].t) && c.g[q].t.tag in {NormalTag, WeakTag, ArrayTag}
      && p - HeaderBytes(c.g[q].t) + SizeWithHeader(col.e, col.mem, p, h) == StartOr(col.st, i + 1) && col.st.starts[i] < StartOr(col.st, i + 1)
      && (c.g[q].t.tag == ArrayTag ==> Length(Rd(col.mem, p - 16)) == c.g[q].len)
      && col.st.starts[i] + SizeOf(c, q) == StartOr(col.st, i + 1)
      && |TracedAt(c, q)| == if c.g[q].t.tag == WeakTag then 0 else |Slots(c.g[q].t, p, c.g[q].len)|
    ensures Extends(col.st, col.st)
  {
    hide Inv, Packed, WeakChain, WeaksOf, Within, SizeWithHeader, TypeOf, ValidType, AdvanceToObjectData, SizeOf, Slots;
    CopyReads(c, col.st, i);
    PackedNext(c, col.st, i);
    ModelIsValid(c, col.st);
    SizePositive(c, col.st, col.st.objs[i]);
    var q := col.st.objs[i];
    SlotsShift(c.g[q].t, q, col.st.fwd[q] - q, c.g[q].len);
  }

  lemma ScanDone(col: Collector, c: Job, last: int, lo: int, hi: int, s0: State, i: nat)
    requires col.Holds(c, last, lo, hi) && Extends(s0, col.st) && i < |s0.objs| && UpdatedIs(c, col.st, i, |TracedAt(c, s0.objs[i])|)
    requires i < |s0.starts| && s0.objs[i] in c.g && s0.starts[i] + SizeOf(c, s0.objs[i]) == StartOr(s0, i + 1)
    ensures UpdatedIs(c, col.st, i + 1, 0) && |col.st.starts| == |col.st.objs| && StartOr(col.st, i + 1) == StartOr(s0, i + 1)
  {
    hide Inv, UpdatedIs, WeakChain, WeaksOf, Within, TracedAt;
    assert col.st.objs[i] == s0.objs[i] && col.st.starts[i] == s0.starts[i];
    PartIsAll(c, col.st, i);
    PackedNext(c, col.st, i);
  }

  lemma FrontIs(col: Collector, c: Job, last: int, lo: int, hi: int, i: nat)
    requires col.Holds(c, last, lo, hi) && i <= |col.st.objs|
    ensures |col.st.starts| == |col.st.objs|
    ensures i < |col.st.objs| <==> StartOr(col.st, i) < col.back
    ensures i == |col.st.objs| ==> StartOr(col.st, i) == col.back
    ensures StartOr(col.st, 0) == c.toStart
    ensures StartOr(col.st, i) <= col.back
  {
    hide Inv, UpdatedIs, WeakChain, WeaksOf, Within;
    PlacedLengths(c, col.st);
    if i < |col.st.objs| { PackedNext(c, col.st, i); }
  }

  lemma PlacedLengths(c: Job, s: State)
    requires Inv(c, s)
    ensures |s.objs| == |s.starts|
  {
  }

  // ------------------------------------------------------------------ weak objects

  lemma NoneUpdatedYet(c: Job, s: State, linked: seq<int>)
    ensures WeaksUpdated(c, s, linked, 0, s.m)
  {
  }

  lemma ChainFacts(c: Job, s: State, weaks: int, linked: seq<int>)
    requires Inv(c, s) && linked == WeaksOf(c, s.objs) && WeakChain(c, s, linked, weaks, 0)
    ensures forall i {:trigger linked[i]} :: 0 <= i < |linked| ==> linked[i] in s.objs && LinksWeak(c, linked[i])
    ensures forall i, j :: 0 <= i < j < |linked| ==> linked[i] != linked[j]
    ensures weaks == if linked == [] then 0 else LinkOf(c, s, linked[0])
  {
    hide OldOk, NewOk, RootsOk, RestOk, GapsOk, ReachedOk, UpdatedOk, ValidJob, LinksWeak, WeaksOf;
    WeaksDistinct(c, s.objs);
  }

  lemma WeakFacts(c: Job, s: State, weaks: int, linked: seq<int>, n: nat, m: Mem)
    requires Inv(c, s) && ValidWeaks(c) && !c.lifting && linked == WeaksOf(c, s.objs) && WeakChain(c, s, linked, weaks, 0)
    requires n < |linked| && WeaksUpdated(c, s, linked, n, m)
    ensures var p := linked[n]; var w := LinkOf(c, s, p); var target := Rd(m, w + 8);
      && w + 8 == CopyWeak(c, s, p) && w - OffsetOfWeak(c.e) - HEADER_SIZE == CopyHeader(s, p) && CopyWeak(c, s, p) != CopyHeader(s, p)
      && target == WeakTarget(c, p) && target != BOGUS_OBJPTR
      && (Rd(m, target - HEADER_SIZE) == FORWARDED <==> TargetMoved(c, s, p))
      && (TargetMoved(c, s, p) ==> Rd(m, target) == WeakPointer(c, s, p) && Rd(m, CopyHeader(s, p)) == WeakHeader(c, s, p))
      && (!TargetMoved(c, s, p) ==> WeakPointer(c, s, p) == BOGUS_OBJPTR && WeakHeader(c, s, p) == WEAK_GONE_HEADER)
  {
    hide Inv, WeaksOf, TouchedCells, ValidWeaks, OffsetOfWeak, LinkOf, CopyHeader, CopyWeak, WeakTarget, LinksWeak, WeakChain;
    ChainFacts(c, s, weaks, linked);
    var p := linked[n];
    WeakReads(c, s, p);
    WeakPlaces(c, s, p);
    WeakAddresses(c, s, p);
    UntouchedCells(c, s, linked, n, p);
  }

  lemma WeakAddresses(c: Job, s: State, p: int)
    requires p in s.fwd && LinksWeak(c, p)
    ensures LinkOf(c, s, p) + 8 == CopyWeak(c, s, p) && LinkOf(c, s, p) - OffsetOfWeak(c.e) - HEADER_SIZE == CopyHeader(s, p)
    ensures WeakTarget(c, p) != BOGUS_OBJPTR
  {
    hide OffsetOfWeak;
  }

  lemma NextWeak(c: Job, s: State, weaks: int, linked: seq<int>, n: nat, m: Mem)
    requires Inv(c, s) && ValidWeaks(c) && !c.lifting && linked == WeaksOf(c, s.objs) && WeakChain(c, s, linked, weaks, 0) && 0 < c.toStart
    requires n < |linked| && WeaksUpdated(c, s, linked, n + 1, m)
    ensures Rd(m, LinkOf(c, s, linked[n])) == if n + 1 < |linked| then LinkOf(c, s, linked[n + 1]) else 0
    ensures n + 1 < |linked| ==> LinkOf(c, s, linked[n + 1]) != 0
  {
    hide Inv, WeaksOf, ValidWeaks, OffsetOfWeak, LinksWeak, LinkOf, CopyHeader, CopyWeak, WeakHeader, WeakPointer;
    ChainFacts(c, s, weaks, linked);
    if n + 1 < |linked| { LinkPlace(c, s, linked[n + 1]); }
    LinkUntouched(c, s, linked, n);
  }

  lemma LinkUntouched(c: Job, s: State, linked: seq<int>, n: nat)
    requires Inv(c, s) && ValidWeaks(c) && n < |linked|
    requires forall i {:trigger linked[i]} :: 0 <= i < |linked| ==> linked[i] in s.objs && LinksWeak(c, linked[i])
    requires forall i, j :: 0 <= i < j < |linked| ==> linked[i] != linked[j]
    ensures LinkOf(c, s, linked[n]) !in TouchedCells(c, s, linked[..n + 1])
  {
    hide Inv, ValidWeaks, LinksWeak, LinkOf, CopyHeader, CopyWeak;
    UntouchedCells(c, s, linked, n, linked[n]);
    assert linked[..n + 1][..n] == linked[..n];
    OwnLinkApart(c, s, linked[n]);
  }

  lemma LinkNotNull(c: Job, s: State, p: int)
    requires Inv(c, s) && p in s.objs && LinksWeak(c, p) && 0 < c.toStart
    ensures LinkOf(c, s, p) != 0
  {
    hide Inv, LinksWeak, LinkOf;
    LinkPlace(c, s, p);
  }

  lemma OwnLinkApart(c: Job, s: State, p: int)
    requires Inv(c, s) && p in s.objs && LinksWeak(c, p)
    ensures LinkOf(c, s, p) != CopyHeader(s, p) && LinkOf(c, s, p) != CopyWeak(c, s, p)
  {
    hide Inv, LinksWeak;
    LinkPlace(c, s, p);
    WeakPlaces(c, s, p);
  }

  // ------------------------------------------------------------------ start and end

  lemma NothingCopiedYet(c: Job, s: State)
    requires ValidJob(c) && s == State(c.m0, c.forwarded, [], [], c.toStart, {}) && c.toStart <= c.toLimit
    ensures Inv(c, s) && Packed(c, s) && WeakChain(c, s, WeaksOf(c, s.objs), 0, 0)
  {
    hide InObject, Nodes, Apart, Traced, Leads, Free, Reaches;
  }

  lemma BytesCopied(c: Job, s: State, lo: int, hi: int)
    requires Inv(c, s) && Packed(c, s) && Within(c, lo, hi)
    ensures s.back == c.toStart + Bytes(c, s.objs) && 0 <= Bytes(c, s.objs) <= hi - lo
  {
    hide OldOk, NewOk, RootsOk, RestOk, GapsOk, ReachedOk, UpdatedOk, ValidFrom, ValidSlots, ValidForwarded, Within, Bytes;
    BytesFit(c, s.objs, lo, hi);
  }
}
