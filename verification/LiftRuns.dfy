/** A lift within a run of the shared allocator: where one processor's copies go
    while others claim chunks of the same heap. */
module LiftRuns {
  import opened Arithmetic
  import opened Objects
  import opened SharedAlloc
  import opened LiftRanges
  import CopyJob
  import CopyScan

  /** What a processor puts at its frontier in one step. */
  datatype Claim = Claim(start: int, size: nat)

  function FrontierAt(run: seq<Heap>, p: nat, k: nat): int {
    if k < |run| && p < |run[k].procs| then run[k].procs[p].frontier else 0
  }

  /** Step k is one in which p puts an object at its frontier. */
  ghost predicate Claims(c: Config, run: seq<Heap>, p: nat, k: nat) {
    && k + 1 < |run| && p < |run[k].procs| && FrontierAt(run, p, k) < FrontierAt(run, p, k + 1)
    && AllocateStep(run[k], run[k + 1], p, FrontierAt(run, p, k + 1) - FrontierAt(run, p, k))
  }

  /** The claims of p among the first n steps. */
  ghost function ClaimsOf(c: Config, run: seq<Heap>, p: nat, n: nat): seq<Claim> {
    if n == 0 then []
    else if Claims(c, run, p, n - 1) then
      ClaimsOf(c, run, p, n - 1) + [Claim(FrontierAt(run, p, n - 1), FrontierAt(run, p, n) - FrontierAt(run, p, n - 1))]
    else ClaimsOf(c, run, p, n - 1)
  }

  /** Where claim k would start if nothing were skipped before it. */
  function EndBefore(start: int, claims: seq<Claim>, k: nat): int
    requires k <= |claims|
  {
    if k == 0 then start else claims[k - 1].start + claims[k - 1].size
  }

  /** The bytes skipped before each claim. */
  function JumpsOf(start: int, claims: seq<Claim>): (r: seq<nat>)
    ensures |r| == |claims|
  {
    seq(|claims|, k requires 0 <= k < |claims| => Max(0, claims[k].start - EndBefore(start, claims, k)))
  }

  function Claimed(claims: seq<Claim>): nat {
    if claims == [] then 0 else Claimed(claims[..|claims| - 1]) + claims[|claims| - 1].size
  }

  // ------------------------------------------------------------- steps of a run

  /** A step leaves everything in place that is nobody's chunk, and no frontier
      of a processor moves down. */
  lemma StepLeaves(c: Config, h: Heap, h': Heap, p: nat)
    requires Inv(c, h) && Fits(c, h) && Step(c, h, h') && p < |h.procs|
    ensures |h'.procs| == |h.procs| && h.procs[p].frontier <= h'.procs[p].frontier
    ensures forall g {:trigger g in h.segs} :: g in h.segs && !g.kind.Chunk? ==> g in h'.segs
  {
    hide Inv, Fits, Splice, HasChunk, Tiles;
    var q: nat, n: nat :| StepOf(c, h, h', q, n);
    ProcIsOk(c, h, q);
    if AllocateStep(h, h', q, n) {
      var i := AllocatedAt(h, h', q, n);
      SpliceLeaves(h, q, i, SplitChunk(h.procs[q], q, n));
    } else if SwapStep(h, h', q) && h.frontier == h.procs[q].pc.oldFrontier {
      if h.frontier == h.procs[q].limitPlusSlop + BONUS_SLOP {
        var i := OneAtEnd(c, h, q);
        SpliceLeaves(h, q, i, [Segment(h.procs[q].frontier, h'.frontier, Chunk(q))]);
      } else {
        var i := NewChunkAt(h, h', q);
        SpliceLeaves(h, q, i, [Segment(h.procs[q].frontier, h.procs[q].limitPlusSlop + BONUS_SLOP, Filler)]);
        ChunkBelow(c, h, q);
      }
    }
  }

  lemma SpliceLeaves(h: Heap, p: nat, i: nat, mid: seq<Segment>)
    requires p < |h.procs| && i < |h.segs| && HasChunk(h, p, i)
    ensures forall g {:trigger g in h.segs} :: g in h.segs && !g.kind.Chunk? ==> g in Splice(h.segs, i, mid)
    ensures mid != [] ==> mid[0] in Splice(h.segs, i, mid)
  {
    forall g {:trigger g in h.segs} | g in h.segs && !g.kind.Chunk? ensures g in Splice(h.segs, i, mid) {
      var j :| 0 <= j < |h.segs| && h.segs[j] == g;
      if j < i { assert Splice(h.segs, i, mid)[j] == g; } else { assert Splice(h.segs, i, mid)[j - 1 + |mid|] == g; }
    }
    if mid != [] { assert Splice(h.segs, i, mid)[i] == mid[0]; }
  }

  lemma OneAtEnd(c: Config, h: Heap, p: nat) returns (i: nat)
    requires Inv(c, h) && p < |h.procs| && h.procs[p].limitPlusSlop + BONUS_SLOP == h.frontier
    ensures i == |h.segs| - 1 && HasChunk(h, p, i)
  {
    ProcIsOk(c, h, p);
    i := ChunkIndex(h, p);
    TilesBounds(h.segs, c.nursery, h.frontier, i);
  }

  lemma ChunkBelow(c: Config, h: Heap, p: nat)
    requires Inv(c, h) && p < |h.procs|
    ensures h.procs[p].frontier <= h.procs[p].limitPlusSlop < h.procs[p].limitPlusSlop + BONUS_SLOP <= h.frontier <= c.end
  {
    ProcIsOk(c, h, p);
    var i := ChunkIndex(h, p);
    TilesBounds(h.segs, c.nursery, h.frontier, i);
  }

  // ------------------------------------------------------------ claims of a run

  predicate InOrder(start: int, claims: seq<Claim>, k: nat)
    requires k < |claims|
  {
    EndBefore(start, claims, k) <= claims[k].start
  }

  predicate AllInOrder(start: int, claims: seq<Claim>) {
    forall k: nat {:trigger InOrder(start, claims, k)} :: k < |claims| ==> InOrder(start, claims, k)
  }

  function SegmentOf(p: nat, a: Claim): Segment { Segment(a.start, a.start + a.size, Allocated(p)) }

  /** Claims follow each other, and each is an object of p's in every later
      state. */
  ghost predicate ClaimsOk(run: seq<Heap>, p: nat, n: nat, claims: seq<Claim>)
    requires n < |run|
  {
    && AllInOrder(FrontierAt(run, p, 0), claims)
    && (forall a {:trigger a in claims} :: a in claims ==> 0 < a.size && SegmentOf(p, a) in run[n].segs)
    && EndBefore(FrontierAt(run, p, 0), claims, |claims|) <= FrontierAt(run, p, n)
  }

  lemma {:induction false} RunClaims(c: Config, run: seq<Heap>, p: nat, n: nat)
    requires IsRun(c, run) && n < |run| && p < |run[0].procs|
    ensures ClaimsOk(run, p, n, ClaimsOf(c, run, p, n))
    decreases n
  {
    hide Inv, Fits, Step, AllocateStep, IsRun;
    RunIsSafe(c, run, 0, n);
    if n > 0 {
      RunClaims(c, run, p, n - 1);
      RunIsSafe(c, run, 0, n - 1);
      RunStep(c, run, n - 1);
      var h, h', claims := run[n - 1], run[n], ClaimsOf(c, run, p, n - 1);
      StepLeaves(c, h, h', p);
      ClaimsKept(run, p, n, claims);
      if Claims(c, run, p, n - 1) {
        var size: nat := FrontierAt(run, p, n) - FrontierAt(run, p, n - 1);
        NewClaim(c, h, h', p, size);
        OneMoreClaim(run, p, n, claims, Claim(FrontierAt(run, p, n - 1), size));
      }
    }
  }

  lemma ClaimsKept(run: seq<Heap>, p: nat, n: nat, claims: seq<Claim>)
    requires 0 < n < |run| && ClaimsOk(run, p, n - 1, claims) && FrontierAt(run, p, n - 1) <= FrontierAt(run, p, n)
    requires forall g {:trigger g in run[n - 1].segs} :: g in run[n - 1].segs && !g.kind.Chunk? ==> g in run[n].segs
    ensures ClaimsOk(run, p, n, claims) && EndBefore(FrontierAt(run, p, 0), claims, |claims|) <= FrontierAt(run, p, n - 1)
  {
    hide AllInOrder;
    forall a {:trigger a in claims} | a in claims ensures 0 < a.size && SegmentOf(p, a) in run[n].segs {
      assert SegmentOf(p, a) in run[n - 1].segs;
    }
  }

  lemma NewClaim(c: Config, h: Heap, h': Heap, p: nat, n: nat)
    requires p < |h.procs| && AllocateStep(h, h', p, n)
    ensures SegmentOf(p, Claim(h.procs[p].frontier, n)) in h'.segs
  {
    hide AllocateStep;
    var i := AllocatedAt(h, h', p, n);
    SpliceLeaves(h, p, i, SplitChunk(h.procs[p], p, n));
  }

  lemma OneMoreClaim(run: seq<Heap>, p: nat, n: nat, claims: seq<Claim>, a: Claim)
    requires n < |run| && ClaimsOk(run, p, n, claims) && 0 < a.size
    requires EndBefore(FrontierAt(run, p, 0), claims, |claims|) <= a.start && a.start + a.size == FrontierAt(run, p, n)
    requires SegmentOf(p, a) in run[n].segs
    ensures ClaimsOk(run, p, n, claims + [a])
  {
    var start, more := FrontierAt(run, p, 0), claims + [a];
    forall k: nat | k < |more| ensures InOrder(start, more, k) {
      if k < |claims| { assert InOrder(start, claims, k); }
      assert EndBefore(start, more, k) == EndBefore(start, claims, k);
    }
  }

  /** A claim shares no byte with the chunk of another processor. */
  lemma ClaimIsOwn(c: Config, h: Heap, p: nat, q: nat, a: Claim)
    requires Inv(c, h) && p < |h.procs| && q < |h.procs|
    requires SegmentOf(p, a) in h.segs
    ensures c.nursery <= a.start && a.start + a.size <= h.frontier <= c.end
    ensures a.start + a.size <= h.procs[q].frontier || h.procs[q].limitPlusSlop + BONUS_SLOP <= a.start
  {
    ProcIsOk(c, h, q);
    var i := ChunkIndex(h, q);
    var j :| 0 <= j < |h.segs| && h.segs[j] == SegmentOf(p, a);
    TilesBounds(h.segs, c.nursery, h.frontier, j);
    if i < j { TilesInOrder(h.segs, c.nursery, h.frontier, i, j); }
    if j < i { TilesInOrder(h.segs, c.nursery, h.frontier, j, i); }
  }

  /** Nor with an object of another processor. */
  lemma ClaimsApart(c: Config, h: Heap, a: Segment, b: Segment)
    requires Inv(c, h) && a in h.segs && b in h.segs && a.kind != b.kind
    ensures a.hi <= b.lo || b.hi <= a.lo
  {
    var i :| 0 <= i < |h.segs| && h.segs[i] == a;
    var j :| 0 <= j < |h.segs| && h.segs[j] == b;
    if i < j { TilesInOrder(h.segs, c.nursery, h.frontier, i, j); }
    if j < i { TilesInOrder(h.segs, c.nursery, h.frontier, j, i); }
  }

  // --------------------------------------------------------------- room for a lift

  lemma {:induction false} ClaimsFill(start: int, claims: seq<Claim>, k: nat)
    requires k <= |claims| && AllInOrder(start, claims)
    ensures EndBefore(start, claims, k) == start + Claimed(claims[..k]) + Skipped(JumpsOf(start, claims), k)
    decreases k
  {
    if k > 0 {
      ClaimsFill(start, claims, k - 1);
      assert claims[..k][..k - 1] == claims[..k - 1];
      assert InOrder(start, claims, k - 1);
      assert claims[k - 1].start == EndBefore(start, claims, k - 1) + JumpAt(JumpsOf(start, claims), k - 1);
    }
  }

  /** If what is left behind p's frontier at the end of the run would hold the
      bytes of the local heap that have not been lifted, then the run leaves the
      room that a lift counts on. */
  lemma RoomInRun(c: Config, run: seq<Heap>, p: nat, n: nat, bytes: nat)
    requires IsRun(c, run) && n < |run| && p < |run[0].procs|
    requires var claims := ClaimsOf(c, run, p, n);
      FrontierAt(run, p, n) + bytes <= c.end + Claimed(claims)
    ensures var start, claims := FrontierAt(run, p, 0), ClaimsOf(c, run, p, n);
      bytes + Skipped(JumpsOf(start, claims), |claims|) <= c.end - start
  {
    hide Inv, Fits, Step, IsRun;
    var start, claims := FrontierAt(run, p, 0), ClaimsOf(c, run, p, n);
    RunClaims(c, run, p, n);
    ClaimsFill(start, claims, |claims|);
    assert claims[..|claims|] == claims;
  }

  // -------------------------------------------------------------- the lift in a run

  /** The lift asks for as many bytes as its objects take, in their order. */
  ghost predicate AsksFor(c: CopyJob.Job, s: CopyJob.State, claims: seq<Claim>) {
    && |s.objs| == |s.starts| <= |claims|
    && forall k {:trigger s.objs[k]} :: 0 <= k < |s.objs| ==> claims[k].size == CopyJob.SizeOf(c, s.objs[k])
  }

  lemma {:induction false} CopyAtClaim(c: CopyJob.Job, s: CopyJob.State, claims: seq<Claim>, k: nat)
    requires Filled(c, s, JumpsOf(c.toStart, claims)) && AsksFor(c, s, claims) && k < |s.objs|
    requires AllInOrder(c.toStart, claims)
    ensures s.starts[k] == claims[k].start
    decreases k
  {
    hide CopyJob.SizeOf, CopyScan.Bytes, Skipped;
    assert StartIs(c, s, JumpsOf(c.toStart, claims), k) && InOrder(c.toStart, claims, k);
    if k > 0 {
      CopyAtClaim(c, s, claims, k - 1);
      assert claims[k - 1].size == CopyJob.SizeOf(c, s.objs[k - 1]);
    }
  }

  /** [lo, hi) holds an object of p's, and nothing that another processor owns or
      has put there shares a byte with it. */
  ghost predicate OwnedBy(c: Config, h: Heap, p: nat, lo: int, hi: int) {
    && c.nursery <= lo < hi <= h.frontier <= c.end
    && Segment(lo, hi, Allocated(p)) in h.segs
    && (forall q {:trigger h.procs[q]} :: 0 <= q < |h.procs| ==> hi <= h.procs[q].frontier || h.procs[q].limitPlusSlop + BONUS_SLOP <= lo)
    && (forall g {:trigger g in h.segs} :: g in h.segs && g.kind != Allocated(p) ==> hi <= g.lo || g.hi <= lo)
  }

  lemma ClaimIsOwned(c: Config, h: Heap, p: nat, a: Claim)
    requires Inv(c, h) && p < |h.procs| && SegmentOf(p, a) in h.segs && 0 < a.size
    ensures OwnedBy(c, h, p, a.start, a.start + a.size)
  {
    hide Inv;
    ClaimIsOwn(c, h, p, p, a);
    forall q {:trigger h.procs[q]} | 0 <= q < |h.procs|
      ensures a.start + a.size <= h.procs[q].frontier || h.procs[q].limitPlusSlop + BONUS_SLOP <= a.start
    {
      ClaimIsOwn(c, h, p, q, a);
    }
    forall g {:trigger g in h.segs} | g in h.segs && g.kind != Allocated(p) ensures a.start + a.size <= g.lo || g.hi <= a.start {
      ClaimsApart(c, h, SegmentOf(p, a), g);
    }
  }

  /** At any point of a lift in which p's requests are those of the run, every
      copy lies where p has put an object in the run: in the shared heap, apart
      from all that other processors own, and from their objects. */
  lemma CopiesAreOwn(a: Config, run: seq<Heap>, p: nat, n: nat, c: CopyJob.Job, s: CopyJob.State, k: nat)
    requires IsRun(a, run) && n < |run| && p < |run[0].procs| && c.toStart == FrontierAt(run, p, 0)
    requires Filled(c, s, JumpsOf(c.toStart, ClaimsOf(a, run, p, n))) && AsksFor(c, s, ClaimsOf(a, run, p, n)) && k < |s.objs|
    ensures OwnedBy(a, run[n], p, s.starts[k], s.starts[k] + CopyJob.SizeOf(c, s.objs[k]))
  {
    hide Inv, Fits, Step, IsRun, Filled, CopyJob.SizeOf, OwnedBy, ClaimsOf, JumpsOf;
    var claims := ClaimsOf(a, run, p, n);
    RunClaims(a, run, p, n);
    RunIsSafe(a, run, 0, n);
    CopyAtClaim(c, s, claims, k);
    assert claims[k] in claims && claims[k].size == CopyJob.SizeOf(c, s.objs[k]);
    ClaimIsOwned(a, run[n], p, claims[k]);
  }
}
