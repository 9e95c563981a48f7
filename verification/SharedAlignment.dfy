/** The alignment of frontiers and gaps in the shared heap, over all runs of its
    allocator (garbage-collection.c, align.c). */
module SharedAlignment {
  import opened Arithmetic
  import opened Objects
  import opened Layout
  import opened SharedAlloc

  /** Every segment starts at an aligned frontier, and so will the next one. */
  ghost predicate AlignedHeap(h: Heap, b: Positive) {
    && IsFrontierAligned(h.frontier, b)
    && forall i {:trigger h.segs[i]} :: 0 <= i < |h.segs| ==> IsFrontierAligned(h.segs[i].lo, b)
  }

  ghost predicate AlignedRequests(h: Heap, b: Positive) {
    forall p {:trigger h.procs[p]} :: 0 <= p < |h.procs| ==>
      match h.procs[p].pc
      case Loop(asked, bytes) => IsAligned(bytes, b)
      case Swap(asked, bytes, _, _) => IsAligned(bytes, b)
      case _ => true
  }

  /** A step that asks for, or takes, a multiple of b bytes if it does so. */
  ghost predicate AlignedStep(c: Config, h: Heap, h': Heap, b: Positive) {
    exists p: nat, n: nat {:trigger StepOf(c, h, h', p, n)} :: IsAligned(n, b) && StepOf(c, h, h', p, n)
  }

  /** A run that starts aligned and in which all requests are. */
  ghost predicate IsAlignedRun(c: Config, run: seq<Heap>, b: Positive) {
    && IsRun(c, run) && IsAligned(c.allocChunkSize, b) && AlignedHeap(run[0], b) && AlignedRequests(run[0], b)
    && forall k {:trigger AlignedStep(c, run[k], run[k + 1], b)} :: 0 <= k < |run| - 1 ==> AlignedStep(c, run[k], run[k + 1], b)
  }

  /** What processors and the collector rely on. */
  ghost predicate FrontiersAligned(h: Heap, b: Positive) {
    forall p {:trigger h.procs[p]} :: 0 <= p < |h.procs| ==> IsFrontierAligned(h.procs[p].frontier, b)
  }

  ghost predicate GapsAligned(h: Heap, b: Positive) {
    forall i {:trigger h.segs[i]} :: 0 <= i < |h.segs| && !h.segs[i].kind.Allocated? ==> IsAligned(h.segs[i].hi - h.segs[i].lo, b)
  }

  // -------------------------------------------------------------------- one step

  lemma MovedFrontier(a: int, n: int, b: Positive)
    requires IsFrontierAligned(a, b) && IsAligned(n, b)
    ensures IsFrontierAligned(a + n, b)
  {
    AlignedSum(n, a + HEADER_SIZE, b);
  }

  /** The frontier after a swap. */
  lemma SwappedFrontier(a: int, bytes: int, b: Positive)
    requires IsFrontierAligned(a, b) && IsAligned(bytes, b)
    ensures IsFrontierAligned(a + bytes + BONUS_SLOP, b) <==> IsAligned(BONUS_SLOP, b)
  {
    AlignedSum(a + HEADER_SIZE, bytes, b);
    AlignedSum(a + HEADER_SIZE + bytes, BONUS_SLOP, b);
  }

  lemma SplicedStarts(segs: seq<Segment>, i: nat, mid: seq<Segment>, b: Positive)
    requires i < |segs|
    requires forall k {:trigger segs[k]} :: 0 <= k < |segs| ==> IsFrontierAligned(segs[k].lo, b)
    requires forall k {:trigger mid[k]} :: 0 <= k < |mid| ==> IsFrontierAligned(mid[k].lo, b)
    ensures forall k {:trigger Splice(segs, i, mid)[k]} :: 0 <= k < |Splice(segs, i, mid)| ==> IsFrontierAligned(Splice(segs, i, mid)[k].lo, b)
  {
    hide IsFrontierAligned;
    var r := Splice(segs, i, mid);
    assert forall k {:trigger r[k]} :: 0 <= k < |r| ==> r[k] == if k < i then segs[k] else if k < i + |mid| then mid[k - i] else segs[k - |mid| + 1];
  }

  lemma OwnChunk(c: Config, h: Heap, p: nat, i: nat, b: Positive)
    requires Inv(c, h) && AlignedHeap(h, b) && p < |h.procs| && i < |h.segs| && HasChunk(h, p, i)
    ensures IsFrontierAligned(h.procs[p].frontier, b)
  {
    assert h.segs[i].lo == h.procs[p].frontier;
  }

  lemma AllocateAligned(c: Config, h: Heap, h': Heap, p: nat, n: nat, b: Positive)
    requires Inv(c, h) && AlignedHeap(h, b) && AlignedRequests(h, b) && IsAligned(n, b) && p < |h.procs| && AllocateStep(h, h', p, n)
    ensures AlignedHeap(h', b) && AlignedRequests(h', b)
  {
    hide Inv, IsAligned, Splice, AllocateStep, IsFrontierAligned;
    var i := AllocatedAt(h, h', p, n);
    var mid := SplitChunk(h.procs[p], p, n);
    OwnChunk(c, h, p, i, b);
    MovedFrontier(h.procs[p].frontier, n, b);
    SplicedStarts(h.segs, i, mid, b);
  }

  lemma SwapAligned(c: Config, h: Heap, h': Heap, p: nat, b: Positive)
    requires Inv(c, h) && AlignedHeap(h, b) && AlignedRequests(h, b) && p < |h.procs| && SwapStep(h, h', p)
    requires IsAligned(BONUS_SLOP, b)
    ensures AlignedHeap(h', b) && AlignedRequests(h', b)
  {
    hide Inv, IsAligned, Splice, IsFrontierAligned, HasChunk;
    var q := h.procs[p];
    if h.frontier == q.pc.oldFrontier {
      ProcIsOk(c, h, p);
      var i := ChunkIndex(h, p);
      OwnChunk(c, h, p, i, b);
      SwappedFrontier(q.frontier, q.pc.bytes, b);
      SwappedFrontier(h.frontier, q.pc.bytes, b);
      if q.pc.oldFrontier == q.limitPlusSlop + BONUS_SLOP {
        SplicedStarts(h.segs, |h.segs| - 1, [Segment(q.frontier, h'.frontier, Chunk(p))], b);
      } else {
        var j := NewChunkAt(h, h', p);
        SplicedStarts(h.segs, j, [Segment(q.frontier, q.limitPlusSlop + BONUS_SLOP, Filler)], b);
      }
    }
  }

  lemma ReadAligned(c: Config, h: Heap, h': Heap, p: nat, b: Positive)
    requires AlignedHeap(h, b) && AlignedRequests(h, b) && p < |h.procs| && ReadStep(c, h, h', p) && IsAligned(c.allocChunkSize, b)
    ensures AlignedHeap(h', b) && AlignedRequests(h', b)
  {
    hide IsAligned, IsFrontierAligned;
  }

  lemma StepAligned(c: Config, h: Heap, h': Heap, b: Positive)
    requires Inv(c, h) && AlignedHeap(h, b) && AlignedRequests(h, b) && AlignedStep(c, h, h', b)
    requires IsAligned(c.allocChunkSize, b) && IsAligned(BONUS_SLOP, b)
    ensures AlignedHeap(h', b) && AlignedRequests(h', b)
  {
    hide Inv, AlignedHeap, AlignedRequests, IsAligned, AllocateStep, ReadStep, SwapStep;
    var p: nat, n: nat :| IsAligned(n, b) && StepOf(c, h, h', p, n);
    if AllocateStep(h, h', p, n) {
      AllocateAligned(c, h, h', p, n, b);
    } else if RequestStep(h, h', p, n) {
      RequestAligned(h, h', p, n, b);
    } else if ReadStep(c, h, h', p) {
      ReadAligned(c, h, h', p, b);
    } else {
      SwapAligned(c, h, h', p, b);
    }
  }

  lemma RequestAligned(h: Heap, h': Heap, p: nat, n: nat, b: Positive)
    requires AlignedHeap(h, b) && AlignedRequests(h, b) && p < |h.procs| && IsAligned(n, b) && RequestStep(h, h', p, n)
    ensures AlignedHeap(h', b) && AlignedRequests(h', b)
  {
    hide IsAligned, IsFrontierAligned;
  }

  // -------------------------------------------------------------------- all runs

  lemma {:induction false} RunAligned(c: Config, run: seq<Heap>, b: Positive, k: nat)
    requires IsAlignedRun(c, run, b) && IsAligned(BONUS_SLOP, b) && k < |run|
    ensures Inv(c, run[k]) && AlignedHeap(run[k], b) && AlignedRequests(run[k], b)
    decreases k
  {
    hide Inv, AlignedHeap, AlignedRequests, IsAligned, AlignedStep;
    RunIsSafe(c, run, k, k);
    if k > 0 {
      RunAligned(c, run, b, k - 1);
      AlignedStepAt(c, run, b, k - 1);
      StepAligned(c, run[k - 1], run[k], b);
    }
  }

  lemma AlignedStepAt(c: Config, run: seq<Heap>, b: Positive, k: nat)
    requires IsAlignedRun(c, run, b) && k + 1 < |run|
    ensures AlignedStep(c, run[k], run[k + 1], b)
  {
    hide AlignedStep, IsRun;
  }

  /** An aligned heap has aligned frontiers, and aligned gaps. */
  lemma HeapAligned(c: Config, h: Heap, b: Positive)
    requires Inv(c, h) && AlignedHeap(h, b)
    ensures FrontiersAligned(h, b) && GapsAligned(h, b)
  {
    hide IsAligned;
    forall p {:trigger h.procs[p]} | 0 <= p < |h.procs| ensures IsFrontierAligned(h.procs[p].frontier, b) {
      ProcIsOk(c, h, p);
      var i := ChunkIndex(h, p);
      OwnChunk(c, h, p, i, b);
    }
    forall i {:trigger h.segs[i]} | 0 <= i < |h.segs| ensures IsAligned(h.segs[i].hi - h.segs[i].lo, b) {
      var next := if i + 1 < |h.segs| then h.segs[i + 1].lo else h.frontier;
      if i + 1 < |h.segs| { assert Abut(h.segs, i); }
      AlignedSum(h.segs[i].lo + HEADER_SIZE, next + HEADER_SIZE, b);
    }
  }

  // ------------------------------------------------------------ a run that breaks

  /** Two processors with chunks of 12b bytes each; nobody has any left. */
  function StartConfig(b: Positive): Config { Config(8 * b - 8, 8 * b - 8 + 100 * b + 100, 0) }

  function StartHeap(b: Positive): Heap {
    var n, l := 8 * b - 8, 12 * b;
    Heap(n + 2 * l, [Proc(n, n + l - 12, Idle(0)), Proc(n + l, n + 2 * l - 12, Idle(0))],
         [Segment(n, n + l, Chunk(0)), Segment(n + l, n + 2 * l, Chunk(1))], 0)
  }

  /** Processor 0 asks for 12b bytes and gets a new chunk. */
  function AfterFirst(b: Positive): Heap {
    var n, l := 8 * b - 8, 12 * b;
    var f := n + 2 * l;
    Heap(f + l + 12, [Proc(f, f + l, Idle(l)), Proc(n + l, n + 2 * l - 12, Idle(0))],
         [Segment(n, n + l, Filler), Segment(n + l, n + 2 * l, Chunk(1)), Segment(f, f + l + 12, Chunk(0))], 1)
  }

  /** So does processor 1. */
  function AfterSecond(b: Positive): Heap {
    var n, l := 8 * b - 8, 12 * b;
    var f := n + 2 * l;
    var g := f + l + 12;
    Heap(g + l + 12, [Proc(f, f + l, Idle(l)), Proc(g, g + l, Idle(l))],
         [Segment(n, n + l, Filler), Segment(n + l, n + 2 * l, Filler), Segment(f, f + l + 12, Chunk(0)), Segment(g, g + l + 12, Chunk(1))], 2)
  }

  function BreakingRun(b: Positive): seq<Heap> {
    var l := 12 * b;
    var h0, h3 := StartHeap(b), AfterFirst(b);
    [h0, SetPc(h0, 0, Loop(l, l)), SetPc(h0, 0, Swap(l, l, h0.frontier, 0)),
     h3, SetPc(h3, 1, Loop(l, l)), SetPc(h3, 1, Swap(l, l, h3.frontier, 1)), AfterSecond(b)]
  }

  lemma StartIsInv(b: Positive)
    ensures Inv(StartConfig(b), StartHeap(b)) && Fits(StartConfig(b), StartHeap(b))
  {
    var h := StartHeap(b);
    assert HasChunk(h, 0, 0) && HasChunk(h, 1, 1);
    assert Abut(h.segs, 0);
    assert ProcOk(h, 0) && ProcOk(h, 1);
  }

  lemma StartIsAligned(b: Positive)
    ensures AlignedHeap(StartHeap(b), b) && AlignedRequests(StartHeap(b), b) && IsAligned(0, b) && IsAligned(12 * b, b)
  {
    DivisionIs(8 * b, b, 8, 0);
    DivisionIs(0, b, 0, 0);
    DivisionIs(12 * b, b, 12, 0);
    DivisionIs(20 * b, b, 20, 0);
    DivisionIs(32 * b, b, 32, 0);
  }

  lemma AlignedBy(c: Config, h: Heap, h': Heap, b: Positive, p: nat, n: nat)
    requires IsAligned(n, b) && StepOf(c, h, h', p, n)
    ensures AlignedStep(c, h, h', b) && Step(c, h, h')
  {
  }

  lemma FirstSwap(b: Positive)
    ensures SwapStep(SetPc(StartHeap(b), 0, Swap(12 * b, 12 * b, StartHeap(b).frontier, 0)), AfterFirst(b), 0)
  {
    var h := SetPc(StartHeap(b), 0, Swap(12 * b, 12 * b, StartHeap(b).frontier, 0));
    assert HasChunk(h, 0, 0);
    assert h.procs[0 := AfterFirst(b).procs[0]] == AfterFirst(b).procs;
    assert Splice(h.segs, 0, [Segment(8 * b - 8, 8 * b - 8 + 12 * b, Filler)]) == [Segment(8 * b - 8, 8 * b - 8 + 12 * b, Filler), h.segs[1]];
  }

  lemma SecondSwap(b: Positive)
    ensures SwapStep(SetPc(AfterFirst(b), 1, Swap(12 * b, 12 * b, AfterFirst(b).frontier, 1)), AfterSecond(b), 1)
  {
    var h := SetPc(AfterFirst(b), 1, Swap(12 * b, 12 * b, AfterFirst(b).frontier, 1));
    assert HasChunk(h, 1, 1);
    assert h.procs[1 := AfterSecond(b).procs[1]] == AfterSecond(b).procs;
    assert Splice(h.segs, 1, [Segment(20 * b - 8, 32 * b - 8, Filler)]) == [h.segs[0], Segment(20 * b - 8, 32 * b - 8, Filler), h.segs[2]];
  }

  lemma BreakingRunIsRun(b: Positive)
    ensures IsAlignedRun(StartConfig(b), BreakingRun(b), b)
  {
    hide Inv, Fits, AlignedStep, Step, SwapStep, IsAligned, AlignedHeap;
    var c, run, l := StartConfig(b), BreakingRun(b), 12 * b;
    StartIsInv(b);
    StartIsAligned(b);
    FirstSwap(b);
    SecondSwap(b);
    AlignedBy(c, run[0], run[1], b, 0, l) by { assert RequestStep(run[0], run[1], 0, l); }
    AlignedBy(c, run[1], run[2], b, 0, 0) by { assert ReadStep(c, run[1], run[2], 0); }
    AlignedBy(c, run[2], run[3], b, 0, 0);
    AlignedBy(c, run[3], run[4], b, 1, l) by { assert RequestStep(run[3], run[4], 1, l); }
    AlignedBy(c, run[4], run[5], b, 1, 0) by { assert ReadStep(c, run[4], run[5], 1); }
    AlignedBy(c, run[5], run[6], b, 1, 0);
  }

  /** The second processor ends up with an aligned frontier only if the bonus
      slop is a multiple of the alignment. */
  lemma BreaksAlignment(b: Positive)
    ensures FrontiersAligned(AfterSecond(b), b) ==> IsAligned(BONUS_SLOP, b)
  {
    hide IsAligned;
    StartIsAligned(b);
    SwappedFrontier(StartHeap(b).frontier, 12 * b, b);
    assert AfterSecond(b).procs[1].frontier == StartHeap(b).frontier + 12 * b + BONUS_SLOP;
  }

  /** In every state of every run that starts aligned and asks for aligned
      amounts, all frontiers and all gaps are aligned, if and only if the bonus
      slop is. */
  lemma RunsStayAligned(b: Positive)
    ensures (forall c, run {:trigger IsAlignedRun(c, run, b)} :: IsAlignedRun(c, run, b) ==>
               forall k {:trigger run[k]} :: 0 <= k < |run| ==> FrontiersAligned(run[k], b) && GapsAligned(run[k], b))
      <==> IsAligned(BONUS_SLOP, b)
  {
    hide IsAlignedRun, FrontiersAligned, GapsAligned, IsAligned, Inv, AlignedHeap;
    if IsAligned(BONUS_SLOP, b) {
      forall c, run, k | IsAlignedRun(c, run, b) && 0 <= k < |run| ensures FrontiersAligned(run[k], b) && GapsAligned(run[k], b) {
        RunAligned(c, run, b, k);
        HeapAligned(c, run[k], b);
      }
    } else {
      BreakingRunIsRun(b);
      BreaksAlignment(b);
      assert BreakingRun(b)[6] == AfterSecond(b);
    }
  }

  /** Laying chunks out after a collection, setGCStateCurrentSharedHeap asserts
      that each processor gets an aligned frontier. With aligned needs that
      holds if and only if there is but one processor or the slop is aligned. */
  lemma LaidOutAligned(c: Config, needed: seq<nat>, b: Positive)
    requires IsFrontierAligned(c.nursery, b) && forall n :: n in needed ==> IsAligned(n, b)
    ensures (forall p {:trigger needed[..p]} :: 0 <= p < |needed| ==> IsFrontierAligned(c.nursery + Total(needed[..p]), b)) <==>
      |needed| <= 1 || IsAligned(BONUS_SLOP, b)
  {
    hide IsAligned;
    assert needed[..0] == [];
    if |needed| > 1 {
      assert needed[0] in needed && needed[..1][..0] == [] && Total(needed[..1]) == needed[0] + BONUS_SLOP;
      SwappedFrontier(c.nursery, needed[0], b);
    }
    if IsAligned(BONUS_SLOP, b) {
      forall p {:trigger needed[..p]} | 0 <= p < |needed| ensures IsFrontierAligned(c.nursery + Total(needed[..p]), b) {
        TotalAligned(c, needed, b, p);
      }
    }
  }

  lemma {:induction false} TotalAligned(c: Config, needed: seq<nat>, b: Positive, p: nat)
    requires IsFrontierAligned(c.nursery, b) && (forall n :: n in needed ==> IsAligned(n, b)) && IsAligned(BONUS_SLOP, b) && p <= |needed|
    ensures IsFrontierAligned(c.nursery + Total(needed[..p]), b)
    decreases p
  {
    hide IsAligned, IsFrontierAligned;
    if p == 0 {
      assert needed[..0] == [];
    } else {
      TotalAligned(c, needed, b, p - 1);
      assert needed[..p][..p - 1] == needed[..p - 1] && needed[p - 1] in needed;
      SwappedFrontier(c.nursery + Total(needed[..p - 1]), needed[p - 1], b);
    }
  }

  /** Which is so for an alignment of four bytes and not for eight. */
  lemma FourAndEight()
    ensures IsAligned(BONUS_SLOP, 4) && !IsAligned(BONUS_SLOP, 8)
    ensures IsAlignedRun(StartConfig(8), BreakingRun(8), 8) && !FrontiersAligned(BreakingRun(8)[6], 8)
  {
    hide IsAlignedRun, FrontiersAligned;
    BreakingRunIsRun(8);
    BreaksAlignment(8);
  }
}
