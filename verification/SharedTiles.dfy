/** What the nursery of the shared heap holds in memory while processors allocate
    from it, and what the filling of gaps before a collection makes of it
    (allocChunkInSharedHeap and performSharedGC in garbage-collection.c). */
module SharedTiles {
  import opened Memory
  import opened Objects
  import opened Layout
  import opened HeapObjects
  import opened FillGap
  import opened SharedAlloc
  import opened SharedAlignment

  // ------------------------------------------------------------------- contents

  /** An object of the shared heap outside a collection: neither marked nor moved. */
  ghost predicate PlainObject(e: Model, m: Mem, o: Object) {
    Describes(e, m, o) && !o.live && Rd(m, o.data - HEADER_SIZE) != FORWARDED
  }

  ghost predicate TiledBy(e: Model, m: Mem, objs: seq<Object>, lo: int, hi: int) {
    Tiled(objs, lo, hi) && forall o {:trigger o in objs} :: o in objs ==> PlainObject(e, m, o)
  }

  /** The stretch is tiled by objects. */
  ghost predicate HoldsObjects(e: Model, m: Mem, lo: int, hi: int) {
    exists objs {:trigger TiledBy(e, m, objs, lo, hi)} :: TiledBy(e, m, objs, lo, hi)
  }

  ghost predicate SegmentOk(e: Model, m: Mem, s: Segment) {
    match s.kind
    case Allocated(_) => HoldsObjects(e, m, s.lo, s.hi)
    case Filler => HoldsFiller(m, s.lo, s.hi)
    case Chunk(_) => true
  }

  /** What has been allocated holds objects, what has been filled a filler. */
  ghost predicate Contents(e: Model, h: Heap, m: Mem) {
    forall i {:trigger h.segs[i]} :: 0 <= i < |h.segs| ==> SegmentOk(e, m, h.segs[i])
  }

  ghost predicate SameIn(m: Mem, m': Mem, lo: int, hi: int) {
    forall a {:trigger Rd(m', a)} :: lo <= a < hi ==> Rd(m', a) == Rd(m, a)
  }

  lemma TiledByFrame(e: Model, m: Mem, m': Mem, objs: seq<Object>, lo: int, hi: int)
    requires ValidModel(e) && TiledBy(e, m, objs, lo, hi) && SameIn(m, m', lo, hi)
    ensures TiledBy(e, m', objs, lo, hi)
  {
    hide Describes, Tiled;
    forall o {:trigger o in objs} | o in objs ensures PlainObject(e, m', o) {
      var i :| 0 <= i < |objs| && objs[i] == o;
      TiledRange(objs, lo, hi, i);
      PlainFrame(e, m, m', o);
    }
  }

  lemma PlainFrame(e: Model, m: Mem, m': Mem, o: Object)
    requires ValidModel(e) && PlainObject(e, m, o) && SameIn(m, m', o.start, o.End())
    ensures PlainObject(e, m', o)
  {
    hide Describes;
    DataAt(e, m, o);
    DescribesFrame(e, m, m', o);
  }

  lemma DataAt(e: Model, m: Mem, o: Object)
    requires Describes(e, m, o)
    ensures o.start + HEADER_SIZE <= o.data <= o.End()
  {
  }

  /** A segment depends on its own cells only. */
  lemma SegmentFrame(e: Model, m: Mem, m': Mem, s: Segment)
    requires ValidModel(e) && SegmentOk(e, m, s) && SameIn(m, m', s.lo, s.hi)
    ensures SegmentOk(e, m', s)
  {
    hide TiledBy;
    match s.kind
    case Allocated(_) =>
      var objs :| TiledBy(e, m, objs, s.lo, s.hi);
      TiledByFrame(e, m, m', objs, s.lo, s.hi);
    case Filler =>
    case Chunk(_) =>
  }

  // ---------------------------------------------------------------- steps on memory

  /** A step of processor p, and what it does to memory. An allocation comes
      with the objects it is for; a swap that is to leave the old chunk behind
      fills it first, whether or not it then succeeds. */
  ghost predicate MemStepOf(c: Config, e: Model, h: Heap, m: Mem, h': Heap, m': Mem, p: nat, n: nat) {
    && StepOf(c, h, h', p, n)
    && var q := h.procs[p];
      if AllocateStep(h, h', p, n) then
        HoldsObjects(e, m', q.frontier, q.frontier + n)
        && forall a {:trigger Rd(m', a)} :: !(q.frontier <= a < q.frontier + n) ==> Rd(m', a) == Rd(m, a)
      else if q.pc.Swap? && q.pc.oldFrontier != q.limitPlusSlop + BONUS_SLOP then
        HoldsFiller(m', q.frontier, q.limitPlusSlop + BONUS_SLOP)
        && forall a {:trigger Rd(m', a)} :: !(q.frontier <= a < q.limitPlusSlop + BONUS_SLOP) ==> Rd(m', a) == Rd(m, a)
      else forall a {:trigger Rd(m', a)} :: Rd(m', a) == Rd(m, a)
  }

  /** The mutator changes objects, which stay objects. */
  ghost predicate MutatorStep(e: Model, h: Heap, m: Mem, m': Mem) {
    && (forall i {:trigger h.segs[i]} :: 0 <= i < |h.segs| && h.segs[i].kind.Allocated? ==> HoldsObjects(e, m', h.segs[i].lo, h.segs[i].hi))
    && (forall i {:trigger h.segs[i]} :: 0 <= i < |h.segs| && !h.segs[i].kind.Allocated? ==> SameIn(m, m', h.segs[i].lo, h.segs[i].hi))
  }

  lemma ContentsKept(e: Model, h: Heap, m: Mem, m': Mem, lo: int, hi: int, i: nat)
    requires ValidModel(e) && Contents(e, h, m) && i < |h.segs|
    requires forall a {:trigger Rd(m', a)} :: !(lo <= a < hi) ==> Rd(m', a) == Rd(m, a)
    requires h.segs[i].hi <= lo || hi <= h.segs[i].lo
    ensures SegmentOk(e, m', h.segs[i])
  {
    hide SegmentOk;
    SegmentFrame(e, m, m', h.segs[i]);
  }

  /** All segments but the i-th, when only cells of the i-th change. */
  lemma OthersKept(c: Config, e: Model, h: Heap, m: Mem, m': Mem, i: nat, lo: int, hi: int)
    requires ValidModel(e) && Inv(c, h) && Contents(e, h, m) && i < |h.segs| && h.segs[i].lo <= lo && hi <= h.segs[i].hi
    requires forall a {:trigger Rd(m', a)} :: !(lo <= a < hi) ==> Rd(m', a) == Rd(m, a)
    ensures forall k {:trigger h.segs[k]} :: 0 <= k < |h.segs| && k != i ==> SegmentOk(e, m', h.segs[k])
  {
    hide SegmentOk, Contents;
    forall k {:trigger h.segs[k]} | 0 <= k < |h.segs| && k != i ensures SegmentOk(e, m', h.segs[k]) {
      if k < i { TilesInOrder(h.segs, c.nursery, h.frontier, k, i); } else { TilesInOrder(h.segs, c.nursery, h.frontier, i, k); }
      ContentsKept(e, h, m, m', lo, hi, k);
    }
  }

  lemma SplicedContents(e: Model, h: Heap, m': Mem, i: nat, mid: seq<Segment>, segs: seq<Segment>)
    requires i < |h.segs| && segs == Splice(h.segs, i, mid)
    requires forall k {:trigger h.segs[k]} :: 0 <= k < |h.segs| && k != i ==> SegmentOk(e, m', h.segs[k])
    requires forall k {:trigger mid[k]} :: 0 <= k < |mid| ==> SegmentOk(e, m', mid[k])
    ensures forall k {:trigger segs[k]} :: 0 <= k < |segs| ==> SegmentOk(e, m', segs[k])
  {
    hide SegmentOk;
    assert forall k {:trigger segs[k]} :: 0 <= k < |segs| ==> segs[k] == if k < i then h.segs[k] else if k < i + |mid| then mid[k - i] else h.segs[k - |mid| + 1];
  }

  lemma AllocateContents(c: Config, e: Model, h: Heap, m: Mem, h': Heap, m': Mem, p: nat, n: nat)
    requires ValidModel(e) && Inv(c, h) && Contents(e, h, m) && p < |h.procs| && MemStepOf(c, e, h, m, h', m', p, n) && AllocateStep(h, h', p, n)
    ensures Contents(e, h', m')
  {
    hide Inv, Splice, HoldsObjects, AllocateStep, StepOf;
    var q := h.procs[p];
    var i := AllocatedAt(h, h', p, n);
    ProcIsOk(c, h, p);
    OthersKept(c, e, h, m, m', i, q.frontier, q.frontier + n);
    SplicedContents(e, h, m', i, SplitChunk(q, p, n), h'.segs);
  }

  lemma SameContents(e: Model, h: Heap, m: Mem, h': Heap, m': Mem)
    requires ValidModel(e) && Contents(e, h, m) && h'.segs == h.segs && forall a {:trigger Rd(m', a)} :: Rd(m', a) == Rd(m, a)
    ensures Contents(e, h', m')
  {
    hide SegmentOk;
    forall i {:trigger h'.segs[i]} | 0 <= i < |h'.segs| ensures SegmentOk(e, m', h'.segs[i]) {
      SegmentFrame(e, m, m', h.segs[i]);
    }
  }

  lemma SwapContents(c: Config, e: Model, h: Heap, m: Mem, h': Heap, m': Mem, p: nat, n: nat)
    requires ValidModel(e) && Inv(c, h) && Contents(e, h, m) && MemStepOf(c, e, h, m, h', m', p, n) && SwapStep(h, h', p)
    ensures Contents(e, h', m')
  {
    hide Inv, Splice, HoldsObjects, HoldsFiller, HasChunk, OwnsOne;
    var q := h.procs[p];
    ProcIsOk(c, h, p);
    var i := ChunkIndex(h, p);
    ChunkSpan(h, p, i);
    if q.pc.oldFrontier != q.limitPlusSlop + BONUS_SLOP {
      OthersKept(c, e, h, m, m', i, q.frontier, q.limitPlusSlop + BONUS_SLOP);
      if h.frontier != q.pc.oldFrontier {
        assert forall k {:trigger h.segs[k]} :: 0 <= k < |h.segs| ==> SegmentOk(e, m', h.segs[k]);
      } else {
        var j := NewChunkAt(h, h', p);
        OneChunk(c, h, p, i, j);
        var filler := Segment(q.frontier, q.limitPlusSlop + BONUS_SLOP, Filler);
        SplicedContents(e, h, m', i, [filler], Splice(h.segs, i, [filler]));
      }
    } else {
      SameContents(e, h, m, h, m');
      if h.frontier == q.pc.oldFrontier {
        var last := |h.segs| - 1;
        SplicedContents(e, h, m', last, [Segment(q.frontier, h'.frontier, Chunk(p))], h'.segs);
      }
    }
  }

  lemma ChunkSpan(h: Heap, p: nat, i: nat)
    requires p < |h.procs| && i < |h.segs| && HasChunk(h, p, i)
    ensures h.segs[i].kind == Chunk(p) && h.segs[i].lo == h.procs[p].frontier && h.segs[i].hi == h.procs[p].limitPlusSlop + BONUS_SLOP
  {
  }

  lemma OneChunk(c: Config, h: Heap, p: nat, i: nat, j: nat)
    requires Inv(c, h) && p < |h.procs| && i < |h.segs| && j < |h.segs| && HasChunk(h, p, i) && HasChunk(h, p, j)
    ensures i == j
  {
    OnlyChunk(c, h, p, i, j);
  }

  /** Every step keeps objects in what is allocated, and fillers in what is
      filled. */
  lemma StepKeepsContents(c: Config, e: Model, h: Heap, m: Mem, h': Heap, m': Mem, p: nat, n: nat)
    requires ValidModel(e) && Inv(c, h) && Contents(e, h, m) && MemStepOf(c, e, h, m, h', m', p, n)
    ensures Contents(e, h', m')
  {
    hide Inv, Splice, HoldsObjects, HoldsFiller, Contents;
    if AllocateStep(h, h', p, n) {
      AllocateContents(c, e, h, m, h', m', p, n);
    } else if h.procs[p].pc.Swap? {
      SwapContents(c, e, h, m, h', m', p, n);
    } else {
      SameContents(e, h, m, h', m');
    }
  }

  lemma MutatorKeepsContents(e: Model, h: Heap, m: Mem, m': Mem)
    requires ValidModel(e) && Contents(e, h, m) && MutatorStep(e, h, m, m')
    ensures Contents(e, h, m')
  {
    hide SegmentOk, HoldsObjects;
    forall i {:trigger h.segs[i]} | 0 <= i < |h.segs| ensures SegmentOk(e, m', h.segs[i]) {
      if h.segs[i].kind.Allocated? { AllocatedOk(e, m', h.segs[i]); } else { SegmentFrame(e, m, m', h.segs[i]); }
    }
  }

  lemma AllocatedOk(e: Model, m: Mem, s: Segment)
    requires s.kind.Allocated? && HoldsObjects(e, m, s.lo, s.hi)
    ensures SegmentOk(e, m, s)
  {
  }

  // -------------------------------------------------------------------- whole runs

  datatype World = World(h: Heap, m: Mem)

  ghost predicate Moves(c: Config, e: Model, w: World, w': World) {
    || (w'.h == w.h && MutatorStep(e, w.h, w.m, w'.m))
    || exists p: nat, n: nat {:trigger MemStepOf(c, e, w.h, w.m, w'.h, w'.m, p, n)} ::
         IsAligned(n, e.alignment) && MemStepOf(c, e, w.h, w.m, w'.h, w'.m, p, n)
  }

  /** Between two collections, with aligned requests. */
  ghost predicate IsMemRun(c: Config, e: Model, run: seq<World>) {
    && run != [] && ValidModel(e) && 0 < c.nursery && IsAligned(c.allocChunkSize, e.alignment)
    && Inv(c, run[0].h) && Fits(c, run[0].h) && Contents(e, run[0].h, run[0].m)
    && AlignedHeap(run[0].h, e.alignment) && AlignedRequests(run[0].h, e.alignment)
    && forall k {:trigger Moves(c, e, run[k], run[k + 1])} :: 0 <= k < |run| - 1 ==> Moves(c, e, run[k], run[k + 1])
  }

  /** Four divides every alignment there is, and the bonus slop. */
  lemma FourDivides(e: Model, n: int)
    requires ValidModel(e) && IsAligned(n, e.alignment)
    ensures IsAligned(n, 4)
  {
    var q, r := n / e.alignment, e.alignment / 4;
    assert n == q * e.alignment && e.alignment == 4 * r;
    assert q * (4 * r) == 4 * (q * r);
  }

  ghost predicate WorldOk(c: Config, e: Model, w: World) {
    Inv(c, w.h) && Fits(c, w.h) && Contents(e, w.h, w.m) && AlignedHeap(w.h, 4) && AlignedRequests(w.h, 4)
  }

  lemma AlignedByFour(e: Model, h: Heap)
    requires ValidModel(e) && AlignedHeap(h, e.alignment) && AlignedRequests(h, e.alignment)
    ensures AlignedHeap(h, 4) && AlignedRequests(h, 4)
  {
    hide IsAligned;
    FourDivides(e, h.frontier + HEADER_SIZE);
    forall i {:trigger h.segs[i]} | 0 <= i < |h.segs| ensures IsFrontierAligned(h.segs[i].lo, 4) { FourDivides(e, h.segs[i].lo + HEADER_SIZE); }
    forall p {:trigger h.procs[p]} | 0 <= p < |h.procs|
      ensures match h.procs[p].pc case Loop(asked, bytes) => IsAligned(bytes, 4) case Swap(asked, bytes, _, _) => IsAligned(bytes, 4) case _ => true
    {
      match h.procs[p].pc
      case Loop(asked, bytes) => FourDivides(e, bytes);
      case Swap(asked, bytes, _, _) => FourDivides(e, bytes);
      case _ =>
    }
  }

  lemma MoveKeeps(c: Config, e: Model, w: World, w': World)
    requires ValidModel(e) && IsAligned(c.allocChunkSize, e.alignment) && WorldOk(c, e, w) && Moves(c, e, w, w')
    ensures WorldOk(c, e, w')
  {
    hide Inv, Fits, Contents, AlignedHeap, AlignedRequests, MutatorStep, MemStepOf, IsAligned;
    if w'.h == w.h && MutatorStep(e, w.h, w.m, w'.m) {
      MutatorKeepsContents(e, w.h, w.m, w'.m);
    } else {
      var p: nat, n: nat :| IsAligned(n, e.alignment) && MemStepOf(c, e, w.h, w.m, w'.h, w'.m, p, n);
      StepKeepsContents(c, e, w.h, w.m, w'.h, w'.m, p, n);
      StepIn(c, e, w, w', p, n);
      StepKeeps(c, w.h, w'.h);
      FourDivides(e, n);
      FourDivides(e, c.allocChunkSize);
      AlignedBy(c, w.h, w'.h, 4, p, n);
      FourAndEight();
      StepAligned(c, w.h, w'.h, 4);
    }
  }

  lemma StepIn(c: Config, e: Model, w: World, w': World, p: nat, n: nat)
    requires MemStepOf(c, e, w.h, w.m, w'.h, w'.m, p, n)
    ensures StepOf(c, w.h, w'.h, p, n) && Step(c, w.h, w'.h)
  {
    hide StepOf, HoldsObjects, HoldsFiller;
  }

  lemma {:induction false} RunKeepsContents(c: Config, e: Model, run: seq<World>, k: nat)
    requires IsMemRun(c, e, run) && k < |run|
    ensures WorldOk(c, e, run[k])
    decreases k
  {
    hide Inv, Fits, Contents, AlignedHeap, AlignedRequests, Moves, IsAligned;
    if k == 0 {
      AlignedByFour(e, run[0].h);
    } else {
      RunKeepsContents(c, e, run, k - 1);
      MoveAt(c, e, run, k - 1);
      MoveKeeps(c, e, run[k - 1], run[k]);
    }
  }

  lemma MoveAt(c: Config, e: Model, run: seq<World>, k: nat)
    requires IsMemRun(c, e, run) && k + 1 < |run|
    ensures Moves(c, e, run[k], run[k + 1])
  {
    hide Inv, Fits, Contents, AlignedHeap, AlignedRequests, Moves;
  }

  // ------------------------------------------------------------------ the filling

  /** The chunks of the first n processors have been filled, but for the one at
      the frontier. */
  ghost predicate FilledUpTo(e: Model, h: Heap, m: Mem, n: nat) {
    && Contents(e, h, m)
    && forall i {:trigger h.segs[i]} :: 0 <= i < |h.segs| && h.segs[i].kind.Chunk? && h.segs[i].kind.owner < n && h.segs[i].hi != h.frontier ==>
         HoldsFiller(m, h.segs[i].lo, h.segs[i].hi)
  }

  /** performSharedGC, before it collects: every processor's gap is filled but
      the one at the frontier, which marks the end of what is in use. */
  method FillChunks(c: Config, e: Model, h: Heap, m: Mem) returns (m': Mem, oldGenEnd: int)
    requires ValidModel(e) && Inv(c, h) && Contents(e, h, m) && 0 < c.nursery
    ensures FilledUpTo(e, h, m', |h.procs|)
    ensures exists p {:trigger h.procs[p]} :: 0 <= p < |h.procs| && h.procs[p].limitPlusSlop + BONUS_SLOP == h.frontier && oldGenEnd == h.procs[p].frontier
    ensures forall a {:trigger Rd(m', a)} :: !(c.nursery <= a < h.frontier) ==> Rd(m', a) == Rd(m, a)
  {
    hide Inv, Contents, HoldsFiller, WalksTo;
    ghost var last := OneAtFrontier(c, h);
    m', oldGenEnd := m, c.nursery;
    var p := 0;
    NoneFilled(e, h, m);
    while p < |h.procs|
      invariant 0 <= p <= |h.procs|
      invariant FilledUpTo(e, h, m', p)
      invariant last < p ==> oldGenEnd == h.procs[last].frontier
      invariant forall a {:trigger Rd(m', a)} :: !(c.nursery <= a < h.frontier) ==> Rd(m', a) == Rd(m, a)
    {
      ghost var before := m';
      ChunkInNursery(c, h, p);
      var limitPlusSlop := h.procs[p].limitPlusSlop + BONUS_SLOP;
      if limitPlusSlop != h.frontier {
        GapsAreFillable(c, h, p);
        var filled, fatal;
        m', filled, fatal := FillGap.FillGap(e, m', h.procs[p].frontier, limitPlusSlop);
        OneMoreFilled(c, e, h, before, m', p);
      } else {
        oldGenEnd := h.procs[p].frontier;
        OneSkipped(c, e, h, m', p);
      }
      p := p + 1;
    }
  }

  lemma NoneFilled(e: Model, h: Heap, m: Mem)
    requires Contents(e, h, m)
    ensures FilledUpTo(e, h, m, 0)
  {
    hide SegmentOk;
  }

  lemma ChunkInNursery(c: Config, h: Heap, p: nat)
    requires Inv(c, h) && p < |h.procs|
    ensures c.nursery <= h.procs[p].frontier < h.procs[p].limitPlusSlop + BONUS_SLOP <= h.frontier
  {
    hide Tiles;
    ProcIsOk(c, h, p);
    var i := ChunkIndex(h, p);
    TilesBounds(h.segs, c.nursery, h.frontier, i);
  }

  lemma OneMoreFilled(c: Config, e: Model, h: Heap, m: Mem, m': Mem, p: nat)
    requires ValidModel(e) && Inv(c, h) && FilledUpTo(e, h, m, p) && p < |h.procs|
    requires var lo, hi := h.procs[p].frontier, h.procs[p].limitPlusSlop + BONUS_SLOP;
      HoldsFiller(m', lo, hi) && forall a {:trigger Rd(m', a)} :: !(lo <= a < hi) ==> Rd(m', a) == Rd(m, a)
    ensures FilledUpTo(e, h, m', p + 1)
  {
    hide Inv, HoldsObjects;
    ProcIsOk(c, h, p);
    var i := ChunkIndex(h, p);
    var lo, hi := h.procs[p].frontier, h.procs[p].limitPlusSlop + BONUS_SLOP;
    OthersKept(c, e, h, m, m', i, lo, hi);
    forall k {:trigger h.segs[k]} | 0 <= k < |h.segs| && h.segs[k].kind.Chunk? && h.segs[k].kind.owner < p + 1 && h.segs[k].hi != h.frontier
      ensures HoldsFiller(m', h.segs[k].lo, h.segs[k].hi)
    {
      if k != i { OtherChunk(c, h, p, i, k); }
    }
  }

  lemma OtherChunk(c: Config, h: Heap, p: nat, i: nat, k: nat)
    requires Inv(c, h) && p < |h.procs| && i < |h.segs| && k < |h.segs| && HasChunk(h, p, i) && k != i && h.segs[k].kind.Chunk?
    ensures h.segs[k].kind.owner != p
    ensures h.segs[k].hi <= h.segs[i].lo || h.segs[i].hi <= h.segs[k].lo
  {
    if h.segs[k].kind.owner == p { OnlyChunk(c, h, p, i, k); }
    if k < i { TilesInOrder(h.segs, c.nursery, h.frontier, k, i); } else { TilesInOrder(h.segs, c.nursery, h.frontier, i, k); }
  }

  lemma OneSkipped(c: Config, e: Model, h: Heap, m: Mem, p: nat)
    requires Inv(c, h) && FilledUpTo(e, h, m, p) && p < |h.procs| && h.procs[p].limitPlusSlop + BONUS_SLOP == h.frontier
    ensures FilledUpTo(e, h, m, p + 1)
  {
    hide Tiles, SegmentOk, HoldsFiller;
    forall k {:trigger h.segs[k]} | 0 <= k < |h.segs| && h.segs[k].kind == Chunk(p) ensures h.segs[k].hi == h.frontier {
      assert HasChunk(h, p, k);
    }
  }

  // --------------------------------------------------------------- what it amounts to

  /** What is in use: all segments but the last, the chunk at the frontier. */
  function InUse(h: Heap): seq<Segment> { if h.segs == [] then [] else h.segs[..|h.segs| - 1] }

  /** A segment holds objects or a filler; either way a walk steps from its start
      to its end. */
  ghost predicate WalksOver(e: Model, m: Mem, s: Segment) {
    if s.kind.Allocated? then HoldsObjects(e, m, s.lo, s.hi) else WalksTo(e, m, s.lo, s.hi)
  }

  predicate IsVectorGap(s: Segment) { !s.kind.Allocated? && ARRAY_HEADER_SIZE + OBJPTR_SIZE <= s.hi - s.lo }

  lemma AllHoldFillers(c: Config, e: Model, h: Heap, m: Mem, i: nat)
    requires Inv(c, h) && FilledUpTo(e, h, m, |h.procs|) && i < |InUse(h)|
    ensures InUse(h)[i] == h.segs[i] && h.segs[i].hi < h.frontier
    ensures if h.segs[i].kind.Allocated? then HoldsObjects(e, m, h.segs[i].lo, h.segs[i].hi) else HoldsFiller(m, h.segs[i].lo, h.segs[i].hi)
  {
    hide HoldsObjects, HoldsFiller, Tiles;
    TilesBounds(h.segs, c.nursery, h.frontier, i);
    assert SegmentOk(e, m, h.segs[i]);
  }

  /** The walk over what is in use steps from segment to segment if and only if
      the gaps that take a byte vector are multiples of the alignment. */
  lemma WalkableAfterFill(c: Config, e: Model, h: Heap, m: Mem)
    requires ValidModel(e) && Inv(c, h) && FilledUpTo(e, h, m, |h.procs|)
    ensures (forall s {:trigger s in InUse(h)} :: s in InUse(h) ==> WalksOver(e, m, s)) <==>
      forall s {:trigger s in InUse(h)} :: s in InUse(h) && IsVectorGap(s) ==> IsAligned(s.hi - s.lo, e.alignment)
  {
    hide Inv, FilledUpTo, HoldsObjects, HoldsFiller, WalksTo, IsAligned;
    forall s {:trigger s in InUse(h)} | s in InUse(h) ensures WalksOver(e, m, s) <==> (IsVectorGap(s) ==> IsAligned(s.hi - s.lo, e.alignment)) {
      var i :| 0 <= i < |InUse(h)| && InUse(h)[i] == s;
      AllHoldFillers(c, e, h, m, i);
      if !s.kind.Allocated? { FillerWalks(e, m, s.lo, s.hi); }
    }
  }

  /** A filler is an object of the heap if and only if its size is a multiple of
      the alignment. */
  lemma FillerIsObject(e: Model, m: Mem, lo: int, hi: int)
    requires ValidModel(e) && HoldsFiller(m, lo, hi) && IsFrontierAligned(lo, 4) && lo < hi
    ensures HoldsObjects(e, m, lo, hi) <==> IsAligned(hi - lo, e.alignment)
  {
    hide Tiled;
    var data := if ARRAY_HEADER_SIZE + OBJPTR_SIZE <= hi - lo then lo + ARRAY_HEADER_SIZE else lo + HEADER_SIZE;
    var o := Object(lo, data, hi - lo, [], false);
    FillerSize(e, m, lo, hi);
    if IsAligned(hi - lo, e.alignment) {
      FillerDescribed(e, m, lo, hi);
      OneTile(o);
      assert forall q {:trigger q in [o]} :: q in [o] ==> q == o;
      assert TiledBy(e, m, [o], lo, hi);
    }
    if HoldsObjects(e, m, lo, hi) {
      var objs :| TiledBy(e, m, objs, lo, hi);
      FirstObject(e, m, objs, lo, hi);
      FirstIsAligned(e, m, objs[0]);
    }
  }

  lemma OneTile(o: Object)
    requires 0 < o.size
    ensures Tiled([o], o.start, o.End())
  {
  }

  /** The bytes that a walk takes a filler for. */
  lemma FillerSize(e: Model, m: Mem, lo: int, hi: int)
    requires ValidModel(e) && HoldsFiller(m, lo, hi) && lo < hi
    ensures var p := AdvanceToObjectData(m, lo);
      && p == (if ARRAY_HEADER_SIZE + OBJPTR_SIZE <= hi - lo then lo + ARRAY_HEADER_SIZE else lo + HEADER_SIZE)
      && SizeofObject(e, m, p) == (if ARRAY_HEADER_SIZE + OBJPTR_SIZE <= hi - lo then Align(hi - lo, e.alignment) else hi - lo)
      && Rd(m, p - HEADER_SIZE) != FORWARDED && !IsLiveHeader(Rd(m, p - HEADER_SIZE)) && IsHeader(Rd(m, p - HEADER_SIZE))
      && HeaderBytes(TypeOf(e, Rd(m, p - HEADER_SIZE))) == p - lo && p <= hi
  {
    hide Align, ArrayNoHeader;
    var diff := hi - lo;
    if ARRAY_HEADER_SIZE + OBJPTR_SIZE <= diff {
      ByteVectorSize(e, diff - ARRAY_HEADER_SIZE);
      assert TypeOf(e, Rd(m, lo + 16)) == WORD8_VECTOR_TYPE;
    }
  }

  lemma FillerDescribed(e: Model, m: Mem, lo: int, hi: int)
    requires ValidModel(e) && HoldsFiller(m, lo, hi) && IsFrontierAligned(lo, 4) && lo < hi && IsAligned(hi - lo, e.alignment)
    ensures var p := AdvanceToObjectData(m, lo); PlainObject(e, m, Object(lo, p, hi - lo, [], false))
  {
    hide HoldsFiller, AdvanceToObjectData, SizeofObject, HeaderBytes, IsLiveHeader;
    FillerSize(e, m, lo, hi);
    AlignIsLeast(hi - lo, e.alignment);
  }

  lemma FirstObject(e: Model, m: Mem, objs: seq<Object>, lo: int, hi: int)
    requires ValidModel(e) && TiledBy(e, m, objs, lo, hi) && lo < hi
    ensures objs != [] && objs[0].start == lo && objs[0].End() <= hi && PlainObject(e, m, objs[0])
  {
    hide Describes;
    if objs != [] {
      TiledRange(objs, lo, hi, 0);
      assert objs[0] in objs;
    }
  }

  /** The first object of a stretch that holds a filler is the filler. */
  lemma FirstIsAligned(e: Model, m: Mem, o: Object)
    requires PlainObject(e, m, o)
    ensures o.data == AdvanceToObjectData(m, o.start) && o.size == SizeofObject(e, m, o.data) && IsAligned(o.size, e.alignment) && 0 < o.size
  {
    hide SizeofObject, AdvanceToObjectData;
  }

  /** Pieces that hold objects make up a whole that does. */
  lemma {:induction false} JoinObjects(e: Model, m: Mem, segs: seq<Segment>, lo: int, hi: int)
    requires Tiles(segs, lo, hi) && forall s {:trigger s in segs} :: s in segs ==> HoldsObjects(e, m, s.lo, s.hi)
    ensures HoldsObjects(e, m, lo, hi)
    decreases |segs|
  {
    hide PlainObject, Tiled;
    if segs == [] {
      NothingTiled(e, m, lo);
    } else {
      var n := |segs| - 1;
      var front, s := segs[..n], segs[n];
      FrontTiles(segs, lo, hi);
      assert forall t {:trigger t in front} :: t in front ==> t in segs;
      JoinObjects(e, m, front, lo, s.lo);
      assert s in segs;
      var a :| TiledBy(e, m, a, lo, s.lo);
      var b :| TiledBy(e, m, b, s.lo, s.hi);
      TiledAppend(a, lo, s.lo, b, s.hi);
      assert TiledBy(e, m, a + b, lo, hi);
    }
  }

  lemma NothingTiled(e: Model, m: Mem, lo: int)
    ensures HoldsObjects(e, m, lo, lo)
  {
    assert TiledBy(e, m, [], lo, lo);
  }

  lemma FrontTiles(segs: seq<Segment>, lo: int, hi: int)
    requires Tiles(segs, lo, hi) && segs != []
    ensures Tiles(segs[..|segs| - 1], lo, segs[|segs| - 1].lo) && segs[|segs| - 1].hi == hi
  {
    var n := |segs| - 1;
    var front := segs[..n];
    forall i | 0 <= i < |front| - 1 ensures Abut(front, i) { assert Abut(segs, i); }
    if n > 0 { assert Abut(segs, n - 1); }
  }

  lemma StartAligned(h: Heap, i: nat)
    requires AlignedHeap(h, 4) && i < |h.segs|
    ensures IsFrontierAligned(h.segs[i].lo, 4)
  {
    hide IsFrontierAligned;
  }

  /** Once the gaps are filled, what is in use is tiled by objects, segment by
      segment, if and only if every gap is a multiple of the alignment; and then
      so is the whole from the nursery to the end of what is in use. */
  lemma TiledAfterFill(c: Config, e: Model, h: Heap, m: Mem)
    requires ValidModel(e) && Inv(c, h) && FilledUpTo(e, h, m, |h.procs|) && AlignedHeap(h, 4)
    ensures (forall s {:trigger s in InUse(h)} :: s in InUse(h) ==> HoldsObjects(e, m, s.lo, s.hi)) <==>
      forall s {:trigger s in InUse(h)} :: s in InUse(h) && !s.kind.Allocated? ==> IsAligned(s.hi - s.lo, e.alignment)
    ensures (forall s {:trigger s in InUse(h)} :: s in InUse(h) && !s.kind.Allocated? ==> IsAligned(s.hi - s.lo, e.alignment)) ==>
      forall p {:trigger h.procs[p]} :: 0 <= p < |h.procs| && h.procs[p].limitPlusSlop + BONUS_SLOP == h.frontier ==>
        HoldsObjects(e, m, c.nursery, h.procs[p].frontier)
  {
    hide Inv, FilledUpTo, HoldsObjects, HoldsFiller, IsAligned, AlignedHeap, IsFrontierAligned;
    forall s {:trigger s in InUse(h)} | s in InUse(h) ensures HoldsObjects(e, m, s.lo, s.hi) <==> (!s.kind.Allocated? ==> IsAligned(s.hi - s.lo, e.alignment)) {
      var i :| 0 <= i < |InUse(h)| && InUse(h)[i] == s;
      AllHoldFillers(c, e, h, m, i);
      if !s.kind.Allocated? {
        StartAligned(h, i);
        SegmentSpan(c, h, i);
        FillerIsObject(e, m, s.lo, s.hi);
      }
    }
    forall p {:trigger h.procs[p]}
      | 0 <= p < |h.procs| && h.procs[p].limitPlusSlop + BONUS_SLOP == h.frontier && (forall s {:trigger s in InUse(h)} :: s in InUse(h) ==> HoldsObjects(e, m, s.lo, s.hi))
      ensures HoldsObjects(e, m, c.nursery, h.procs[p].frontier)
    {
      InUseTiles(c, h, p);
      JoinObjects(e, m, InUse(h), c.nursery, h.procs[p].frontier);
    }
  }

  lemma SegmentSpan(c: Config, h: Heap, i: nat)
    requires Inv(c, h) && i < |h.segs|
    ensures h.segs[i].lo < h.segs[i].hi
  {
  }

  lemma InUseTiles(c: Config, h: Heap, p: nat)
    requires Inv(c, h) && p < |h.procs| && h.procs[p].limitPlusSlop + BONUS_SLOP == h.frontier
    ensures Tiles(InUse(h), c.nursery, h.procs[p].frontier)
  {
    hide Tiles;
    ProcIsOk(c, h, p);
    var i := ChunkIndex(h, p);
    TilesBounds(h.segs, c.nursery, h.frontier, i);
    FrontTiles(h.segs, c.nursery, h.frontier);
  }

  lemma JoinTwo(e: Model, m: Mem, lo: int, mid: int, hi: int)
    requires HoldsObjects(e, m, lo, mid) && HoldsObjects(e, m, mid, hi)
    ensures HoldsObjects(e, m, lo, hi)
  {
    hide PlainObject, Tiled;
    var a :| TiledBy(e, m, a, lo, mid);
    var b :| TiledBy(e, m, b, mid, hi);
    TiledAppend(a, lo, mid, b, hi);
    assert TiledBy(e, m, a + b, lo, hi);
  }

  /** Whatever the interleaving: a collection finds the nursery, and with it the
      heap from its start, tiled by objects if the bonus slop is a multiple of
      the alignment. */
  lemma CollectionFindsTiles(c: Config, e: Model, run: seq<World>, k: nat, m: Mem, p: nat)
    requires IsMemRun(c, e, run) && k < |run| && FilledUpTo(e, run[k].h, m, |run[k].h.procs|)
    requires p < |run[k].h.procs| && run[k].h.procs[p].limitPlusSlop + BONUS_SLOP == run[k].h.frontier
    requires IsAligned(BONUS_SLOP, e.alignment)
    ensures HoldsObjects(e, m, c.nursery, run[k].h.procs[p].frontier)
    ensures forall start {:trigger HoldsObjects(e, m, start, c.nursery)} ::
      HoldsObjects(e, m, start, c.nursery) ==> HoldsObjects(e, m, start, run[k].h.procs[p].frontier)
  {
    hide Inv, FilledUpTo, HoldsObjects, IsAligned, AlignedHeap, Moves, Contents, AlignedRequests, Fits, GapsAligned;
    RunKeepsContents(c, e, run, k);
    HeapsAligned(c, e, run, k);
    HeapAligned(c, run[k].h, e.alignment);
    TiledAfterFill(c, e, run[k].h, m);
    GapsInUse(run[k].h, e.alignment);
    forall start | HoldsObjects(e, m, start, c.nursery) ensures HoldsObjects(e, m, start, run[k].h.procs[p].frontier) {
      JoinTwo(e, m, start, c.nursery, run[k].h.procs[p].frontier);
    }
  }

  /** With an alignment of eight it finds a gap that it cannot step over, after
      two processors have each taken a new chunk. */
  lemma CollectionFindsNoTiles(e: Model, m: Mem)
    requires ValidModel(e) && e.alignment == 8 && FilledUpTo(e, AfterSecond(8), m, 2)
    ensures exists s {:trigger s in InUse(AfterSecond(8))} :: s in InUse(AfterSecond(8)) && !WalksOver(e, m, s) && !HoldsObjects(e, m, s.lo, s.hi)
  {
    hide HoldsObjects, WalksTo, HoldsFiller, Contents;
    var h := AfterSecond(8);
    var s := Segment(248, 356, Chunk(0));
    assert h.segs[2] == s && |InUse(h)| == 3 && InUse(h)[2] == s && s in InUse(h);
    assert HoldsFiller(m, 248, 356) by { assert h.segs[2].kind.Chunk? && h.segs[2].hi != h.frontier; }
    assert !IsAligned(108, 8) && IsFrontierAligned(248, 4);
    FillerWalks(e, m, 248, 356);
    FillerIsObject(e, m, 248, 356);
  }

  lemma GapsInUse(h: Heap, b: Positive)
    requires GapsAligned(h, b)
    ensures forall s {:trigger s in InUse(h)} :: s in InUse(h) && !s.kind.Allocated? ==> IsAligned(s.hi - s.lo, b)
  {
    hide IsAligned;
  }

  lemma {:induction false} HeapsAligned(c: Config, e: Model, run: seq<World>, k: nat)
    requires IsMemRun(c, e, run) && k < |run| && IsAligned(BONUS_SLOP, e.alignment)
    ensures AlignedHeap(run[k].h, e.alignment) && AlignedRequests(run[k].h, e.alignment)
    decreases k
  {
    hide Inv, Fits, Contents, AlignedHeap, AlignedRequests, IsAligned, MemStepOf, MutatorStep;
    if k > 0 {
      HeapsAligned(c, e, run, k - 1);
      RunKeepsContents(c, e, run, k - 1);
      MoveAt(c, e, run, k - 1);
      var w, w' := run[k - 1], run[k];
      if !(w'.h == w.h && MutatorStep(e, w.h, w.m, w'.m)) {
        var p: nat, n: nat :| IsAligned(n, e.alignment) && MemStepOf(c, e, w.h, w.m, w'.h, w'.m, p, n);
        StepIn(c, e, w, w', p, n);
        AlignedBy(c, w.h, w'.h, e.alignment, p, n);
        StepAligned(c, w.h, w'.h, e.alignment);
      }
    }
  }
}
