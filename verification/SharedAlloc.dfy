/** The lock-free allocation of chunks in the shared heap (garbage-collection.c,
    allocChunkInSharedHeap; gc_state.c), step by step over all interleavings. */
module SharedAlloc {
  import opened Arithmetic
  import opened Objects
  import opened Layout
  import opened FillGap

  // ------------------------------------------------------------------- segments

  /** Who has a stretch of the nursery: an object, a filler, or a processor as
      the free rest of its chunk, bonus slop included. */
  datatype Kind = Allocated(user: nat) | Filler | Chunk(owner: nat)

  datatype Segment = Segment(lo: int, hi: int, kind: Kind)

  ghost predicate Tiles(segs: seq<Segment>, lo: int, hi: int) {
    && (if segs == [] then lo == hi else segs[0].lo == lo && segs[|segs| - 1].hi == hi)
    && (forall i {:trigger segs[i]} :: 0 <= i < |segs| ==> segs[i].lo < segs[i].hi)
    && (forall i {:trigger Abut(segs, i)} :: 0 <= i < |segs| - 1 ==> Abut(segs, i))
  }

  ghost predicate Abut(segs: seq<Segment>, i: int)
    requires 0 <= i < |segs| - 1
  {
    segs[i].hi == segs[i + 1].lo
  }

  lemma {:induction false} TilesInOrder(segs: seq<Segment>, lo: int, hi: int, i: nat, j: nat)
    requires Tiles(segs, lo, hi) && i < j < |segs|
    ensures segs[i].hi <= segs[j].lo
    decreases j - i
  {
    assert Abut(segs, i);
    if i + 1 < j { TilesInOrder(segs, lo, hi, i + 1, j); }
  }

  lemma TilesBounds(segs: seq<Segment>, lo: int, hi: int, i: nat)
    requires Tiles(segs, lo, hi) && i < |segs|
    ensures lo <= segs[i].lo < segs[i].hi <= hi
    ensures segs[i].hi == hi ==> i == |segs| - 1
  {
    if i > 0 { TilesInOrder(segs, lo, hi, 0, i); }
    if i < |segs| - 1 { TilesInOrder(segs, lo, hi, i, |segs| - 1); }
  }

  lemma SameSegment(segs: seq<Segment>, lo: int, hi: int, i: nat, j: nat)
    requires Tiles(segs, lo, hi) && i < |segs| && j < |segs| && segs[i].lo == segs[j].lo
    ensures i == j
  {
    if i < j { TilesInOrder(segs, lo, hi, i, j); }
    if j < i { TilesInOrder(segs, lo, hi, j, i); }
  }

  /** Segment i makes room for others that take the same stretch. */
  function Splice(segs: seq<Segment>, i: nat, mid: seq<Segment>): seq<Segment>
    requires i < |segs|
  {
    segs[..i] + mid + segs[i + 1..]
  }

  lemma SpliceTiles(segs: seq<Segment>, lo: int, hi: int, i: nat, mid: seq<Segment>)
    requires Tiles(segs, lo, hi) && i < |segs| && mid != [] && Tiles(mid, segs[i].lo, segs[i].hi)
    ensures Tiles(Splice(segs, i, mid), lo, hi)
  {
    var r := Splice(segs, i, mid);
    var n := |mid|;
    assert forall k {:trigger r[k]} :: 0 <= k < |r| ==> r[k] == if k < i then segs[k] else if k < i + n then mid[k - i] else segs[k - n + 1];
    forall k | 0 <= k < |r| - 1 ensures Abut(r, k) {
      if k < i - 1 { assert Abut(segs, k); }
      if k == i - 1 { assert Abut(segs, k); }
      if i <= k < i + n - 1 { assert Abut(mid, k - i); }
      if k == i + n - 1 { assert Abut(segs, i); }
      if i + n <= k { assert Abut(segs, k - n + 1); }
    }
  }

  lemma AppendTiles(segs: seq<Segment>, lo: int, mid: int, s: Segment)
    requires Tiles(segs, lo, mid) && segs != [] && s.lo == mid < s.hi
    ensures Tiles(segs + [s], lo, s.hi)
  {
    var r := segs + [s];
    forall k | 0 <= k < |r| - 1 ensures Abut(r, k) {
      if k < |segs| - 1 { assert Abut(segs, k); }
    }
  }

  // ---------------------------------------------------------------------- state

  /** Where a processor is in allocChunkInSharedHeap. Idle: outside, with room
      for the bytes it last asked for; Loop: before the read of the global
      frontier; Swap: before the compare-and-swap; Collecting: a collection of
      the shared heap was called for. */
  datatype Pc =
    | Idle(granted: nat)
    | Loop(asked: nat, bytes: nat)
    | Swap(asked: nat, bytes: nat, oldFrontier: int, epoch: nat)
    | Collecting(asked: nat)

  datatype Proc = Proc(frontier: int, limitPlusSlop: int, pc: Pc)

  datatype Config = Config(nursery: int, end: int, allocChunkSize: nat)

  /** segs and epoch record the history: what became of each stretch below the
      frontier, and how often the frontier has been swapped. */
  datatype Heap = Heap(frontier: int, procs: seq<Proc>, segs: seq<Segment>, epoch: nat)

  ghost predicate HasChunk(h: Heap, p: nat, i: nat)
    requires p < |h.procs| && i < |h.segs|
  {
    h.segs[i] == Segment(h.procs[p].frontier, h.procs[p].limitPlusSlop + BONUS_SLOP, Chunk(p))
  }

  ghost predicate OwnsOne(h: Heap, p: nat)
    requires p < |h.procs|
  {
    exists i: nat {:trigger HasChunk(h, p, i)} :: i < |h.segs| && HasChunk(h, p, i)
  }

  ghost predicate ChunksOwned(h: Heap) {
    forall i {:trigger h.segs[i]} :: 0 <= i < |h.segs| && h.segs[i].kind.Chunk? ==>
      h.segs[i].kind.owner < |h.procs| && HasChunk(h, h.segs[i].kind.owner, i)
  }

  ghost predicate ProcOk(h: Heap, p: nat)
    requires p < |h.procs|
  {
    var q := h.procs[p];
    && q.frontier <= q.limitPlusSlop
    && match q.pc
       case Idle(granted) => granted <= q.limitPlusSlop - q.frontier
       case Loop(asked, bytes) => asked <= bytes
       case Swap(asked, bytes, old_, epoch) =>
         && asked <= bytes && q.limitPlusSlop - q.frontier < bytes
         && epoch <= h.epoch && (if epoch == h.epoch then old_ == h.frontier else old_ < h.frontier)
       case Collecting(_) => true
  }

  ghost predicate AllOwn(h: Heap) { forall p: nat {:trigger OwnsOne(h, p)} :: p < |h.procs| ==> OwnsOne(h, p) }

  ghost predicate AllOk(h: Heap) { forall p: nat {:trigger ProcOk(h, p)} :: p < |h.procs| ==> ProcOk(h, p) }

  /** The segments tile the nursery up to the frontier, each processor has one
      of them, and the last one belongs to a processor. */
  ghost predicate Inv(c: Config, h: Heap) {
    && Tiles(h.segs, c.nursery, h.frontier) && h.frontier <= c.end
    && h.segs != [] && h.segs[|h.segs| - 1].kind.Chunk?
    && ChunksOwned(h)
    && AllOwn(h) && AllOk(h)
  }

  // ---------------------------------------------------------------------- steps

  function SetPc(h: Heap, p: nat, pc: Pc): Heap
    requires p < |h.procs|
  {
    h.(procs := h.procs[p := h.procs[p].(pc := pc)])
  }

  /** An object of n bytes is put at the frontier of the processor's chunk. */
  ghost predicate AllocateStep(h: Heap, h': Heap, p: nat, n: nat)
    requires p < |h.procs|
  {
    var q := h.procs[p];
    && q.pc.Idle? && 0 < n <= q.pc.granted
    && exists i: nat {:trigger HasChunk(h, p, i)} ::
       i < |h.segs| && HasChunk(h, p, i)
       && h' == h.(procs := h.procs[p := q.(frontier := q.frontier + n, pc := Idle(q.pc.granted - n))],
                   segs := Splice(h.segs, i, [Segment(q.frontier, q.frontier + n, Allocated(p)), Segment(q.frontier + n, q.limitPlusSlop + BONUS_SLOP, Chunk(p))]))
  }

  ghost predicate RequestStep(h: Heap, h': Heap, p: nat, n: nat)
    requires p < |h.procs|
  {
    h.procs[p].pc.Idle? && h' == SetPc(h, p, Loop(n, n))
  }

  /** The read of the global frontier and what is decided on it. */
  ghost predicate ReadStep(c: Config, h: Heap, h': Heap, p: nat)
    requires p < |h.procs|
  {
    var q := h.procs[p];
    q.pc.Loop? && (
      var asked, requested, oldFrontier := q.pc.asked, q.pc.bytes, h.frontier;
      var availableBytes := c.end - oldFrontier;
      if requested <= q.limitPlusSlop - q.frontier then h' == SetPc(h, p, Idle(asked))
      else
        var bytes := Max(requested, c.allocChunkSize);
        if bytes + BONUS_SLOP > availableBytes then h' == SetPc(h, p, Collecting(asked))
        else h' == SetPc(h, p, Swap(asked, bytes, oldFrontier, h.epoch)))
  }

  /** The compare-and-swap. Success moves the frontier and gives the processor
      a longer chunk, its own extended or a new one with the old one filled. */
  ghost predicate SwapStep(h: Heap, h': Heap, p: nat)
    requires p < |h.procs|
  {
    var q := h.procs[p];
    q.pc.Swap? && (
      var asked, bytes, oldFrontier := q.pc.asked, q.pc.bytes, q.pc.oldFrontier;
      if h.frontier != oldFrontier then h' == SetPc(h, p, Loop(asked, bytes))
      else if oldFrontier == q.limitPlusSlop + BONUS_SLOP then
        var newHeapFrontier := q.frontier + bytes + BONUS_SLOP;
        && h.segs != [] && h' == Heap(newHeapFrontier, h.procs[p := Proc(q.frontier, newHeapFrontier - BONUS_SLOP, Idle(asked))],
             Splice(h.segs, |h.segs| - 1, [Segment(q.frontier, newHeapFrontier, Chunk(p))]), h.epoch + 1)
      else
        var newHeapFrontier := oldFrontier + bytes + BONUS_SLOP;
        exists i: nat {:trigger HasChunk(h, p, i)} ::
          i < |h.segs| && HasChunk(h, p, i)
          && h' == Heap(newHeapFrontier, h.procs[p := Proc(oldFrontier, newHeapFrontier - BONUS_SLOP, Idle(asked))],
               Splice(h.segs, i, [Segment(q.frontier, q.limitPlusSlop + BONUS_SLOP, Filler)]) + [Segment(oldFrontier, newHeapFrontier, Chunk(p))], h.epoch + 1))
  }

  ghost predicate Step(c: Config, h: Heap, h': Heap) {
    exists p: nat, n: nat {:trigger StepOf(c, h, h', p, n)} :: StepOf(c, h, h', p, n)
  }

  ghost predicate StepOf(c: Config, h: Heap, h': Heap, p: nat, n: nat) {
    p < |h.procs| && (AllocateStep(h, h', p, n) || RequestStep(h, h', p, n) || ReadStep(c, h, h', p) || SwapStep(h, h', p))
  }

  // ------------------------------------------------------------------ invariance

  lemma ChunkIndex(h: Heap, p: nat) returns (i: nat)
    requires p < |h.procs| && OwnsOne(h, p)
    ensures i < |h.segs| && HasChunk(h, p, i)
  {
    i :| i < |h.segs| && HasChunk(h, p, i);
  }

  /** Two processors never own overlapping stretches. */
  lemma ChunksDisjoint(c: Config, h: Heap, p: nat, q: nat)
    requires Inv(c, h) && p < |h.procs| && q < |h.procs| && p != q
    ensures var a, b := h.procs[p], h.procs[q];
      a.limitPlusSlop + BONUS_SLOP <= b.frontier || b.limitPlusSlop + BONUS_SLOP <= a.frontier
    ensures c.nursery <= h.procs[p].frontier && h.procs[p].limitPlusSlop + BONUS_SLOP <= h.frontier <= c.end
  {
    assert OwnsOne(h, p) && OwnsOne(h, q);
    var i := ChunkIndex(h, p);
    var j := ChunkIndex(h, q);
    TilesBounds(h.segs, c.nursery, h.frontier, i);
    if i < j { TilesInOrder(h.segs, c.nursery, h.frontier, i, j); }
    if j < i { TilesInOrder(h.segs, c.nursery, h.frontier, j, i); }
  }

  /** Exactly one processor's chunk touches the global frontier. */
  lemma OneAtFrontier(c: Config, h: Heap) returns (p: nat)
    requires Inv(c, h)
    ensures p < |h.procs| && h.procs[p].limitPlusSlop + BONUS_SLOP == h.frontier
    ensures forall q {:trigger h.procs[q]} :: 0 <= q < |h.procs| && h.procs[q].limitPlusSlop + BONUS_SLOP == h.frontier ==> q == p
  {
    var last := |h.segs| - 1;
    p := h.segs[last].kind.owner;
    assert HasChunk(h, p, last);
    forall q {:trigger h.procs[q]} | 0 <= q < |h.procs| && h.procs[q].limitPlusSlop + BONUS_SLOP == h.frontier ensures q == p {
      assert OwnsOne(h, q);
      var i := ChunkIndex(h, q);
      TilesBounds(h.segs, c.nursery, h.frontier, i);
    }
  }

  /** A change of the program counter moves nothing. */
  lemma SetPcKeeps(c: Config, h: Heap, p: nat, pc: Pc)
    requires Inv(c, h) && p < |h.procs| && ProcOk(SetPc(h, p, pc), p)
    ensures Inv(c, SetPc(h, p, pc))
  {
    hide Tiles;
    var h' := SetPc(h, p, pc);
    forall i {:trigger h'.segs[i]} | 0 <= i < |h'.segs| && h'.segs[i].kind.Chunk?
      ensures h'.segs[i].kind.owner < |h'.procs| && HasChunk(h', h'.segs[i].kind.owner, i)
    {
      assert HasChunk(h, h.segs[i].kind.owner, i);
    }
    forall q: nat | q < |h'.procs| ensures OwnsOne(h', q) {
      assert OwnsOne(h, q);
      var i := ChunkIndex(h, q);
      assert HasChunk(h', q, i);
    }
    assert h'.procs == h.procs[p := h'.procs[p]];
    OthersOk(h, h', p);
  }

  lemma OthersOk(h: Heap, h': Heap, p: nat)
    requires AllOk(h) && p < |h.procs| == |h'.procs| && ProcOk(h', p) && SameOthers(h, h', p)
    requires (h'.epoch == h.epoch && h'.frontier == h.frontier) || (h'.epoch == h.epoch + 1 && h.frontier < h'.frontier)
    ensures AllOk(h')
  {
    forall q: nat | q < |h'.procs| ensures ProcOk(h', q) {
      assert ProcOk(h, q);
      if q != p { SameProc(h, h', p, q); }
    }
  }

  ghost predicate SameOthers(h: Heap, h': Heap, p: nat) {
    |h'.procs| == |h.procs| && p < |h.procs| && h'.procs == h.procs[p := h'.procs[p]]
  }

  lemma SameProc(h: Heap, h': Heap, p: nat, q: nat)
    requires SameOthers(h, h', p) && q < |h.procs| && q != p
    ensures h'.procs[q] == h.procs[q]
  {
  }

  /** Processor p's chunk in segment i is replaced by mid, of which only the
      last segment is a chunk, and p's. */
  ghost predicate Replaced(h: Heap, h': Heap, p: nat, i: nat, mid: seq<Segment>) {
    && p < |h.procs| == |h'.procs| && i < |h.segs| && HasChunk(h, p, i)
    && h'.segs == Splice(h.segs, i, mid) && mid != []
    && (forall k {:trigger mid[k]} :: 0 <= k < |mid| - 1 ==> !mid[k].kind.Chunk?)
    && mid[|mid| - 1] == Segment(h'.procs[p].frontier, h'.procs[p].limitPlusSlop + BONUS_SLOP, Chunk(p))
    && SameOthers(h, h', p)
  }

  lemma OnlyChunk(c: Config, h: Heap, p: nat, i: nat, j: nat)
    requires Inv(c, h) && p < |h.procs| && i < |h.segs| && j < |h.segs| && HasChunk(h, p, i)
    requires h.segs[j].kind == Chunk(p)
    ensures i == j
  {
    assert HasChunk(h, p, j);
    SameSegment(h.segs, c.nursery, h.frontier, i, j);
  }

  lemma ReplacedOwners(c: Config, h: Heap, h': Heap, p: nat, i: nat, mid: seq<Segment>)
    requires Inv(c, h) && Replaced(h, h', p, i, mid)
    ensures ChunksOwned(h') && AllOwn(h')
  {
    hide Tiles;
    var n := |mid|;
    var r := h'.segs;
    assert forall k {:trigger r[k]} :: 0 <= k < |r| ==> r[k] == if k < i then h.segs[k] else if k < i + n then mid[k - i] else h.segs[k - n + 1];
    forall k {:trigger h'.segs[k]} | 0 <= k < |h'.segs| && h'.segs[k].kind.Chunk?
      ensures h'.segs[k].kind.owner < |h'.procs| && HasChunk(h', h'.segs[k].kind.owner, k)
    {
      if k < i || i + n <= k {
        var j := if k < i then k else k - n + 1;
        assert h.segs[j] == r[k] && HasChunk(h, h.segs[j].kind.owner, j);
        if h.segs[j].kind.owner == p { OnlyChunk(c, h, p, i, j); } else { SameProc(h, h', p, h.segs[j].kind.owner); }
      }
    }
    forall q: nat | q < |h'.procs| ensures OwnsOne(h', q) {
      if q == p {
        assert HasChunk(h', p, i + n - 1);
      } else {
        assert OwnsOne(h, q);
        SameProc(h, h', p, q);
        var j := ChunkIndex(h, q);
        assert HasChunk(h', q, if j < i then j else j + n - 1);
      }
    }
  }

  /** The chunk of which AllocateStep takes a part. */
  function SplitChunk(q: Proc, p: nat, n: nat): seq<Segment> {
    [Segment(q.frontier, q.frontier + n, Allocated(p)), Segment(q.frontier + n, q.limitPlusSlop + BONUS_SLOP, Chunk(p))]
  }

  lemma AllocatedAt(h: Heap, h': Heap, p: nat, n: nat) returns (i: nat)
    requires p < |h.procs| && AllocateStep(h, h', p, n)
    ensures i < |h.segs| && HasChunk(h, p, i) && h'.segs == Splice(h.segs, i, SplitChunk(h.procs[p], p, n))
    ensures h.procs[p].pc.Idle? && 0 < n <= h.procs[p].pc.granted && h'.frontier == h.frontier && h'.epoch == h.epoch
    ensures h'.procs == h.procs[p := Proc(h.procs[p].frontier + n, h.procs[p].limitPlusSlop, Idle(h.procs[p].pc.granted - n))]
  {
    hide Splice, HasChunk;
    var q := h.procs[p];
    i :| i < |h.segs| && HasChunk(h, p, i) && h' == h.(procs := h.procs[p := q.(frontier := q.frontier + n, pc := Idle(q.pc.granted - n))],
                   segs := Splice(h.segs, i, [Segment(q.frontier, q.frontier + n, Allocated(p)), Segment(q.frontier + n, q.limitPlusSlop + BONUS_SLOP, Chunk(p))]));
  }

  lemma AllocateKeeps(c: Config, h: Heap, h': Heap, p: nat, n: nat)
    requires Inv(c, h) && p < |h.procs| && AllocateStep(h, h', p, n)
    ensures Inv(c, h')
  {
    hide AllOwn, AllOk, ChunksOwned, Tiles, OwnsOne, AllocateStep;
    var i := AllocatedAt(h, h', p, n);
    var mid := SplitChunk(h.procs[p], p, n);
    ProcIsOk(c, h, p);
    TwoTile(mid);
    SpliceTiles(h.segs, c.nursery, h.frontier, i, mid);
    assert Replaced(h, h', p, i, mid);
    ReplacedOwners(c, h, h', p, i, mid);
    OthersOk(h, h', p);
  }

  lemma TwoTile(mid: seq<Segment>)
    requires |mid| == 2 && mid[0].lo < mid[0].hi == mid[1].lo < mid[1].hi
    ensures Tiles(mid, mid[0].lo, mid[1].hi)
  {
    assert Abut(mid, 0);
  }

  /** A read with an unchanged frontier at the swap is a read of the present
      one: there is no ABA case. And the new frontier stays in the heap. */
  ghost predicate Fits(c: Config, h: Heap) {
    forall p {:trigger h.procs[p]} :: 0 <= p < |h.procs| && h.procs[p].pc.Swap? ==>
      h.procs[p].pc.oldFrontier + h.procs[p].pc.bytes + BONUS_SLOP <= c.end
  }

  lemma ExtendKeeps(c: Config, h: Heap, h': Heap, p: nat)
    requires Inv(c, h) && Fits(c, h) && p < |h.procs| && SwapStep(h, h', p)
    requires h.frontier == h.procs[p].pc.oldFrontier == h.procs[p].limitPlusSlop + BONUS_SLOP
    ensures Inv(c, h') && h.frontier < h'.frontier && h'.epoch == h.epoch + 1
  {
    hide AllOwn, AllOk, ChunksOwned, Tiles;
    var q := h.procs[p];
    var last := |h.segs| - 1;
    ProcIsOk(c, h, p);
    var i := ChunkIndex(h, p);
    TilesBounds(h.segs, c.nursery, h.frontier, i);
    var mid := [Segment(q.frontier, h'.frontier, Chunk(p))];
    assert Splice(h.segs, last, mid) == h.segs[last := Segment(q.frontier, h'.frontier, Chunk(p))];
    LastGrows(h.segs, c.nursery, h.frontier, h'.frontier);
    assert Replaced(h, h', p, last, mid);
    ReplacedOwners(c, h, h', p, last, mid);
    OthersOk(h, h', p);
  }

  lemma LastGrows(segs: seq<Segment>, lo: int, hi: int, hi': int)
    requires Tiles(segs, lo, hi) && segs != [] && hi < hi'
    ensures Tiles(segs[|segs| - 1 := segs[|segs| - 1].(hi := hi')], lo, hi')
  {
    var r := segs[|segs| - 1 := segs[|segs| - 1].(hi := hi')];
    forall k | 0 <= k < |r| - 1 ensures Abut(r, k) { assert Abut(segs, k); }
  }

  lemma NewChunkAt(h: Heap, h': Heap, p: nat) returns (i: nat)
    requires p < |h.procs| && SwapStep(h, h', p) && h.frontier == h.procs[p].pc.oldFrontier != h.procs[p].limitPlusSlop + BONUS_SLOP
    ensures i < |h.segs| && HasChunk(h, p, i)
    ensures h'.segs == Splice(h.segs, i, [Segment(h.procs[p].frontier, h.procs[p].limitPlusSlop + BONUS_SLOP, Filler)]) + [Segment(h.frontier, h'.frontier, Chunk(p))]
    ensures h'.frontier == h.frontier + h.procs[p].pc.bytes + BONUS_SLOP && h'.epoch == h.epoch + 1
    ensures h'.procs == h.procs[p := Proc(h.frontier, h'.frontier - BONUS_SLOP, Idle(h.procs[p].pc.asked))]
  {
    hide Splice, HasChunk;
    var q := h.procs[p];
    i :| i < |h.segs| && HasChunk(h, p, i)
          && h'.segs == Splice(h.segs, i, [Segment(q.frontier, q.limitPlusSlop + BONUS_SLOP, Filler)]) + [Segment(h.frontier, h'.frontier, Chunk(p))];
  }

  lemma NewChunkKeeps(c: Config, h: Heap, h': Heap, p: nat)
    requires Inv(c, h) && Fits(c, h) && p < |h.procs| && SwapStep(h, h', p)
    requires h.procs[p].pc.Swap? && h.frontier == h.procs[p].pc.oldFrontier != h.procs[p].limitPlusSlop + BONUS_SLOP
    ensures Inv(c, h') && h.frontier < h'.frontier && h'.epoch == h.epoch + 1
  {
    hide AllOwn, AllOk, ChunksOwned, Tiles, SwapStep, OwnsOne;
    var q := h.procs[p];
    ProcIsOk(c, h, p);
    var i := NewChunkAt(h, h', p);
    var filler := Segment(q.frontier, q.limitPlusSlop + BONUS_SLOP, Filler);
    OneTiles(filler);
    SpliceTiles(h.segs, c.nursery, h.frontier, i, [filler]);
    AppendTiles(Splice(h.segs, i, [filler]), c.nursery, h.frontier, Segment(h.frontier, h'.frontier, Chunk(p)));
    NewChunkOwners(c, h, h', p, i);
    OthersOk(h, h', p);
  }

  lemma OneTiles(s: Segment)
    requires s.lo < s.hi
    ensures Tiles([s], s.lo, s.hi)
  {
  }

  lemma NewChunkOwners(c: Config, h: Heap, h': Heap, p: nat, i: nat)
    requires Inv(c, h) && p < |h.procs| == |h'.procs| && i < |h.segs| && HasChunk(h, p, i)
    requires SameOthers(h, h', p)
    requires h'.segs == Splice(h.segs, i, [Segment(h.procs[p].frontier, h.procs[p].limitPlusSlop + BONUS_SLOP, Filler)]) +
      [Segment(h'.procs[p].frontier, h'.procs[p].limitPlusSlop + BONUS_SLOP, Chunk(p))]
    ensures ChunksOwned(h') && AllOwn(h')
  {
    hide Tiles;
    var n := |h.segs|;
    assert |h'.segs| == n + 1 && HasChunk(h', p, n);
    assert forall k {:trigger h'.segs[k]} :: 0 <= k < n && k != i ==> h'.segs[k] == h.segs[k];
    assert h'.segs[i].kind == Filler;
    forall k {:trigger h'.segs[k]} | 0 <= k < |h'.segs| && h'.segs[k].kind.Chunk?
      ensures h'.segs[k].kind.owner < |h'.procs| && HasChunk(h', h'.segs[k].kind.owner, k)
    {
      if k < n {
        assert h'.segs[k] == h.segs[k] && HasChunk(h, h.segs[k].kind.owner, k);
        if h.segs[k].kind.owner == p { OnlyChunk(c, h, p, i, k); } else { SameProc(h, h', p, h.segs[k].kind.owner); }
      }
    }
    forall q: nat | q < |h'.procs| ensures OwnsOne(h', q) {
      if q != p {
        assert OwnsOne(h, q);
        SameProc(h, h', p, q);
        var j := ChunkIndex(h, q);
        assert HasChunk(h', q, j);
      }
    }
  }

  /** Every step keeps the invariant, never lowers the frontier, and changes the
      number of swaps exactly when it raises it. */
  lemma StepKeeps(c: Config, h: Heap, h': Heap)
    requires Inv(c, h) && Fits(c, h) && Step(c, h, h')
    ensures Inv(c, h') && Fits(c, h')
    ensures h.frontier <= h'.frontier && |h'.procs| == |h.procs| && (h'.frontier == h.frontier <==> h'.epoch == h.epoch) && h.epoch <= h'.epoch
  {
    hide Inv, Tiles, ChunksOwned, HasChunk, ProcOk, OwnsOne, Splice;
    var p: nat, n: nat :| StepOf(c, h, h', p, n);
    ProcIsOk(c, h, p);
    if AllocateStep(h, h', p, n) {
      AllocateKeeps(c, h, h', p, n);
    } else if RequestStep(h, h', p, n) {
      NewPcIsOk(c, h, p, Loop(n, n));
    } else if ReadStep(c, h, h', p) {
      ReadKeeps(c, h, h', p);
    } else {
      SwapKeeps(c, h, h', p);
    }
  }

  lemma ProcIsOk(c: Config, h: Heap, p: nat)
    requires Inv(c, h) && p < |h.procs|
    ensures ProcOk(h, p) && OwnsOne(h, p)
  {
  }

  lemma NewPcIsOk(c: Config, h: Heap, p: nat, pc: Pc)
    requires Inv(c, h) && p < |h.procs| && ProcOk(h, p)
    requires match pc
      case Idle(granted) => granted <= h.procs[p].limitPlusSlop - h.procs[p].frontier
      case Loop(asked, bytes) => asked <= bytes
      case Swap(asked, bytes, o, epoch) => asked <= bytes && h.procs[p].limitPlusSlop - h.procs[p].frontier < bytes && epoch == h.epoch && o == h.frontier
      case Collecting(_) => true
    ensures Inv(c, SetPc(h, p, pc))
  {
    SetPcKeeps(c, h, p, pc);
  }

  lemma ReadKeeps(c: Config, h: Heap, h': Heap, p: nat)
    requires Inv(c, h) && Fits(c, h) && p < |h.procs| && ProcOk(h, p) && ReadStep(c, h, h', p)
    ensures Inv(c, h') && Fits(c, h') && h'.frontier == h.frontier && h'.epoch == h.epoch && |h'.procs| == |h.procs|
  {
    hide Inv;
    NewPcIsOk(c, h, p, h'.procs[p].pc);
  }

  lemma SwapKeeps(c: Config, h: Heap, h': Heap, p: nat)
    requires Inv(c, h) && Fits(c, h) && p < |h.procs| && ProcOk(h, p) && SwapStep(h, h', p)
    ensures Inv(c, h') && Fits(c, h') && h.frontier <= h'.frontier && |h'.procs| == |h.procs|
    ensures (h'.frontier == h.frontier <==> h'.epoch == h.epoch) && h.epoch <= h'.epoch
  {
    hide Inv, Splice, HasChunk;
    var q := h.procs[p];
    if h.frontier != q.pc.oldFrontier {
      NewPcIsOk(c, h, p, Loop(q.pc.asked, q.pc.bytes));
    } else if q.pc.oldFrontier == q.limitPlusSlop + BONUS_SLOP {
      ExtendKeeps(c, h, h', p);
    } else {
      NewChunkKeeps(c, h, h', p);
    }
  }

  // ------------------------------------------------------------------------ runs

  /** The laying out of chunks after a collection, with the bytes that each
      processor needs (setGCStateCurrentSharedHeap). */
  method LayOut(c: Config, needed: seq<nat>) returns (h: Heap, fits: bool)
    requires |needed| > 0
    ensures |h.procs| == |needed| && h.epoch == 0
    ensures forall p {:trigger h.procs[p]} :: 0 <= p < |needed| ==>
      && h.procs[p].frontier == c.nursery + Total(needed[..p])
      && h.procs[p].limitPlusSlop - h.procs[p].frontier == needed[p] && h.procs[p].pc == Idle(needed[p])
    ensures h.frontier == c.nursery + Total(needed)
    ensures fits <==> h.frontier <= c.end
    ensures fits ==> Inv(c, h) && Fits(c, h)
  {
    hide Inv, Fits, ChunksOwned, AllOwn, AllOk, Tiles;
    var frontier, procs, segs := c.nursery, [], [];
    var p := 0;
    NothingLaidOut(c);
    while p < |needed|
      invariant 0 <= p <= |needed| && |procs| == |segs| == p
      invariant frontier == c.nursery + Total(needed[..p])
      invariant LaidOut(c, procs, segs, frontier)
      invariant forall q {:trigger procs[q]} :: 0 <= q < p ==>
        && procs[q].frontier == c.nursery + Total(needed[..q])
        && procs[q].limitPlusSlop - procs[q].frontier == needed[q] && procs[q].pc == Idle(needed[q])
    {
      var limitPlusSlop := frontier + needed[p];
      LayOutOne(c, procs, segs, frontier, needed[p]);
      procs := procs + [Proc(frontier, limitPlusSlop, Idle(needed[p]))];
      segs := segs + [Segment(frontier, limitPlusSlop + BONUS_SLOP, Chunk(p))];
      assert needed[..p + 1][..p] == needed[..p];
      frontier := limitPlusSlop + BONUS_SLOP;
      p := p + 1;
    }
    assert needed[..p] == needed;
    h := Heap(frontier, procs, segs, 0);
    fits := frontier <= c.end;
    if fits { LaidOutIsInv(c, h); }
  }

  /** Every processor's needs and its bonus slop. */
  function Total(needed: seq<nat>): nat {
    if needed == [] then 0 else Total(needed[..|needed| - 1]) + needed[|needed| - 1] + BONUS_SLOP
  }

  ghost predicate LaidOut(c: Config, procs: seq<Proc>, segs: seq<Segment>, frontier: int) {
    && |procs| == |segs| && Tiles(segs, c.nursery, frontier)
    && forall p {:trigger procs[p]} :: 0 <= p < |procs| ==>
         && procs[p].frontier <= procs[p].limitPlusSlop && procs[p].pc == Idle(procs[p].limitPlusSlop - procs[p].frontier)
         && segs[p] == Segment(procs[p].frontier, procs[p].limitPlusSlop + BONUS_SLOP, Chunk(p))
  }

  lemma NothingLaidOut(c: Config)
    ensures LaidOut(c, [], [], c.nursery)
  {
  }

  lemma LayOutOne(c: Config, procs: seq<Proc>, segs: seq<Segment>, frontier: int, bytes: nat)
    requires LaidOut(c, procs, segs, frontier)
    ensures LaidOut(c, procs + [Proc(frontier, frontier + bytes, Idle(bytes))],
                    segs + [Segment(frontier, frontier + bytes + BONUS_SLOP, Chunk(|procs|))], frontier + bytes + BONUS_SLOP)
  {
    var s := Segment(frontier, frontier + bytes + BONUS_SLOP, Chunk(|procs|));
    if segs == [] { OneTiles(s); assert [] + [s] == [s]; } else { AppendTiles(segs, c.nursery, frontier, s); }
  }

  lemma LaidOutIsInv(c: Config, h: Heap)
    requires LaidOut(c, h.procs, h.segs, h.frontier) && h.procs != [] && h.frontier <= c.end
    ensures Inv(c, h) && Fits(c, h)
  {
    hide Tiles;
    forall i {:trigger h.segs[i]} | 0 <= i < |h.segs| ensures h.segs[i].kind == Chunk(i) && HasChunk(h, i, i) {
      assert h.procs[i].frontier <= h.procs[i].limitPlusSlop;
    }
    forall p: nat | p < |h.procs| ensures OwnsOne(h, p) && ProcOk(h, p) {
      assert h.procs[p].frontier <= h.procs[p].limitPlusSlop;
      assert HasChunk(h, p, p);
    }
  }

  /** Between two collections: a laid-out heap, and any interleaving of steps. */
  ghost predicate IsRun(c: Config, run: seq<Heap>) {
    && run != [] && Inv(c, run[0]) && Fits(c, run[0])
    && forall k {:trigger Step(c, run[k], run[k + 1])} :: 0 <= k < |run| - 1 ==> Step(c, run[k], run[k + 1])
  }

  /** In every state of every run the chunks are disjoint, the nursery is tiled
      and the frontier only grows. */
  lemma {:induction false} RunIsSafe(c: Config, run: seq<Heap>, i: nat, j: nat)
    requires IsRun(c, run) && i <= j < |run|
    ensures Inv(c, run[j]) && Fits(c, run[j])
    ensures run[i].frontier <= run[j].frontier && run[i].epoch <= run[j].epoch && |run[i].procs| == |run[j].procs|
    ensures run[i].frontier == run[j].frontier <==> run[i].epoch == run[j].epoch
    decreases j
  {
    hide Inv, Fits, Step;
    if i < j {
      RunIsSafe(c, run, i, j - 1);
      RunStep(c, run, j - 1);
      StepKeeps(c, run[j - 1], run[j]);
      if i < j - 1 { RunIsSafe(c, run, i, j - 1); }
    } else if j > 0 {
      RunIsSafe(c, run, j - 1, j - 1);
      RunStep(c, run, j - 1);
      StepKeeps(c, run[j - 1], run[j]);
    }
  }

  lemma RunStep(c: Config, run: seq<Heap>, k: nat)
    requires IsRun(c, run) && k + 1 < |run|
    ensures Step(c, run[k], run[k + 1])
  {
    hide Step;
  }

  /** A processor that is back from allocChunkInSharedHeap without a collection
      has the bytes that it first asked for, however large they have grown in
      its retries; those bytes are its own. */
  lemma FalseMeansRoom(c: Config, run: seq<Heap>, k: nat, p: nat, q: nat)
    requires IsRun(c, run) && k < |run| && p < |run[k].procs| && run[k].procs[p].pc.Idle?
    requires q < |run[k].procs| && q != p
    ensures var a, b := run[k].procs[p], run[k].procs[q];
      && a.frontier + a.pc.granted <= a.limitPlusSlop
      && (a.frontier + a.pc.granted <= b.frontier || b.limitPlusSlop + BONUS_SLOP <= a.frontier)
  {
    hide Inv, Fits;
    RunIsSafe(c, run, k, k);
    ProcIsOk(c, run[k], p);
    ChunksDisjoint(c, run[k], p, q);
  }

  /** Asking, and retrying, never loses sight of what was asked for first. */
  lemma AskedIsKept(c: Config, h: Heap, h': Heap, p: nat)
    requires Inv(c, h) && p < |h.procs| && (ReadStep(c, h, h', p) || SwapStep(h, h', p))
    ensures var pc, pc' := h.procs[p].pc, h'.procs[p].pc;
      && !pc.Idle? && !pc.Collecting?
      && match pc'
         case Idle(granted) => granted == pc.asked
         case Loop(asked, _) => asked == pc.asked
         case Swap(asked, _, _, _) => asked == pc.asked
         case Collecting(asked) => asked == pc.asked
  {
  }

  /** Every gap that is filled, by a swap or before a collection, is one that
      fillGap has an object for. */
  lemma GapsAreFillable(c: Config, h: Heap, p: nat)
    requires Inv(c, h) && p < |h.procs|
    ensures Fillable(h.procs[p].limitPlusSlop + BONUS_SLOP - h.procs[p].frontier)
  {
    hide Tiles;
    ProcIsOk(c, h, p);
  }
}
