/** Chunks that are not contiguous: the bytes between two of them belong to
    other processors and are skipped (forward.c, foreach.c). */
module LiftRanges {
  import opened Memory
  import opened Objects
  import opened Layout
  import opened MarkGraph
  import opened CopyJob
  import opened CopySteps
  import opened CopyScan

  datatype SkipRange = SkipRange(start: int, end: int)

  /** Where copy i would start were there no gap before it. */
  ghost function PrevEnd(c: Job, s: State, i: nat): int {
    if i == 0 || i > |s.starts| || i > |s.objs| then c.toStart else s.starts[i - 1] + SizeOf(c, s.objs[i - 1])
  }

  /** The gaps from copy i on. */
  ghost function Gaps(c: Job, s: State, i: nat): seq<SkipRange>
    decreases |s.starts| - i
  {
    if i >= |s.starts| then []
    else (if PrevEnd(c, s, i) != s.starts[i] then [SkipRange(PrevEnd(c, s, i), s.starts[i])] else []) + Gaps(c, s, i + 1)
  }

  /** A copy placed at start adds the gap before it, if there is one. */
  ghost predicate Appended(c: Job, s: State, s': State, start: int) {
    && |s.starts| == |s.objs| && |s'.starts| == |s'.objs| == |s.starts| + 1
    && s'.starts == s.starts + [start] && s'.objs[..|s.objs|] == s.objs
  }

  lemma {:induction false} GapsAppend(c: Job, s: State, s': State, start: int, i: nat)
    requires Appended(c, s, s', start) && i <= |s.starts|
    ensures var last := PrevEnd(c, s, |s.starts|);
      Gaps(c, s', i) == Gaps(c, s, i) + if last != start then [SkipRange(last, start)] else []
    decreases |s.starts| - i
  {
    hide SizeOf;
    assert forall k {:trigger s'.objs[k]} :: 0 <= k < |s.objs| ==> s'.objs[k] == s.objs[k];
    if i < |s.starts| {
      GapsAppend(c, s, s', start, i + 1);
    } else {
      assert Gaps(c, s', i + 1) == [];
    }
  }

  lemma {:induction false} SameGaps(c: Job, s: State, s': State, i: nat)
    requires s'.starts == s.starts && s'.objs == s.objs
    ensures Gaps(c, s', i) == Gaps(c, s, i)
    decreases |s.starts| - i
  {
    hide SizeOf;
    if i < |s.starts| { SameGaps(c, s, s', i + 1); }
  }

  /** The gaps still to come start no earlier than the scan is. */
  lemma {:induction false} GapsAhead(c: Job, s: State, i: nat, k: nat)
    requires PlacedOk(c, s) && ValidFrom(c) && k < |Gaps(c, s, i)|
    ensures PrevEnd(c, s, i) <= Gaps(c, s, i)[k].start
    ensures i < |s.starts| && PrevEnd(c, s, i) == s.starts[i] ==> s.starts[i] < Gaps(c, s, i)[k].start
    decreases |s.starts| - i
  {
    hide ValidFrom, SizeOf, PlacedOk;
    Lengths(c, s);
    if i < |s.starts| {
      StartBounds(c, s, i);
      SizeAtLeastHeader(c, s.objs[i]);
      PrevEndBefore(c, s, i);
      var here := if PrevEnd(c, s, i) != s.starts[i] then [SkipRange(PrevEnd(c, s, i), s.starts[i])] else [];
      if k >= |here| { GapsAhead(c, s, i + 1, k - |here|); }
    }
  }

  lemma Lengths(c: Job, s: State)
    requires PlacedOk(c, s)
    ensures |s.objs| == |s.starts|
  {
  }

  lemma PrevEndBefore(c: Job, s: State, i: nat)
    requires PlacedOk(c, s) && ValidFrom(c) && i < |s.starts|
    ensures PrevEnd(c, s, i) <= s.starts[i]
  {
    hide ValidFrom, SizeOf;
    if i > 0 { assert s.objs[i - 1] in c.g; }
  }

  /** The scan skips a range exactly when there is a gap before its next copy. */
  lemma NextGap(c: Job, s: State, i: nat)
    requires PlacedOk(c, s) && ValidFrom(c) && i < |s.starts|
    ensures var gaps := Gaps(c, s, i);
      if gaps != [] && gaps[0].start == PrevEnd(c, s, i) then gaps[0].end == s.starts[i] && gaps[1..] == Gaps(c, s, i + 1)
      else PrevEnd(c, s, i) == s.starts[i] && gaps == Gaps(c, s, i + 1)
  {
    hide ValidFrom, SizeOf, PlacedOk;
    var gaps := Gaps(c, s, i);
    if PrevEnd(c, s, i) == s.starts[i] {
      if gaps != [] { GapsAhead(c, s, i, 0); }
      assert gaps == Gaps(c, s, i + 1);
    } else {
      assert gaps == [SkipRange(PrevEnd(c, s, i), s.starts[i])] + Gaps(c, s, i + 1);
    }
  }

  // -------------------------------------------------------------- room for a lift

  /** The bytes skipped by the first n allocations. */
  function Skipped(jumps: seq<nat>, n: nat): nat {
    if n == 0 then 0 else Skipped(jumps, n - 1) + JumpAt(jumps, n - 1)
  }

  function JumpAt(jumps: seq<nat>, k: nat): nat { if k < |jumps| then jumps[k] else 0 }

  lemma {:induction false} SkippedAtMost(jumps: seq<nat>, n: nat)
    ensures Skipped(jumps, n) <= Skipped(jumps, |jumps|)
    decreases if n <= |jumps| then |jumps| - n else n
  {
    if n < |jumps| {
      SkippedAtMost(jumps, n + 1);
      assert Skipped(jumps, n + 1) == Skipped(jumps, n) + JumpAt(jumps, n);
    } else if n > |jumps| {
      SkippedAtMost(jumps, n - 1);
    }
  }

  /** Copy k starts where the one before it ends, but for what is skipped. */
  ghost predicate Filled(c: Job, s: State, jumps: seq<nat>) {
    && s.back == c.toStart + Bytes(c, s.objs) + Skipped(jumps, |s.objs|) && s.back == PrevEnd(c, s, |s.objs|)
    && forall k {:trigger StartIs(c, s, jumps, k)} :: 0 <= k < |s.starts| ==> StartIs(c, s, jumps, k)
  }

  ghost predicate StartIs(c: Job, s: State, jumps: seq<nat>, k: nat)
    requires k < |s.starts|
  {
    s.starts[k] == PrevEnd(c, s, k) + JumpAt(jumps, k)
  }

  lemma RoomForLift(c: Job, s: State, jumps: seq<nat>, p: int, lo: int, hi: int)
    requires Inv(c, s) && Filled(c, s, jumps) && Within(c, lo, hi) && hi - lo + Skipped(jumps, |jumps|) <= c.toLimit - c.toStart && p in c.g && p !in s.fwd
    ensures s.back + JumpAt(jumps, |s.objs|) + SizeOf(c, p) <= c.toLimit
  {
    hide OldOk, NewOk, RootsOk, RestOk, GapsOk, ReachedOk, ValidSlots, ValidForwarded, UpdatedOk, SizeOf, HeaderOf, Reaches, Within, ValidFrom, Bytes, PrevEnd, StartIs, Skipped;
    var objs := s.objs + [p];
    assert p !in s.objs;
    assert forall q {:trigger q in objs} :: q in objs ==> q in s.objs || q == p;
    BytesFit(c, objs, lo, hi);
    BytesTo(c, objs, |s.objs|);
    assert objs[..|objs|] == objs && objs[..|s.objs|] == s.objs;
    SkippedAtMost(jumps, |s.objs| + 1);
    SkippedNext(jumps, |s.objs|);
  }

  lemma SkippedNext(jumps: seq<nat>, n: nat)
    ensures Skipped(jumps, n + 1) == Skipped(jumps, n) + JumpAt(jumps, n)
  {
  }

  lemma CopyKeepsFilled(c: Job, s: State, jumps: seq<nat>, p: int, m': Mem)
    requires Filled(c, s, jumps) && p in c.g && |s.starts| == |s.objs|
    ensures Filled(c, AfterCopy(c, s, p, s.back + JumpAt(jumps, |s.objs|), m'), jumps)
    ensures Appended(c, s, AfterCopy(c, s, p, s.back + JumpAt(jumps, |s.objs|), m'), s.back + JumpAt(jumps, |s.objs|))
  {
    hide SizeOf, HeaderOf, Bytes;
    var s' := AfterCopy(c, s, p, s.back + JumpAt(jumps, |s.objs|), m');
    BytesTo(c, s'.objs, |s.objs|);
    assert s'.objs[..|s'.objs|] == s'.objs && s'.objs[..|s.objs|] == s.objs;
    forall k: nat | k < |s'.starts| ensures StartIs(c, s', jumps, k) {
      PrevEndKept(c, s, s', k);
      if k < |s.starts| { assert StartIs(c, s, jumps, k); }
    }
  }

  lemma PrevEndKept(c: Job, s: State, s': State, k: nat)
    requires |s.starts| == |s.objs| <= |s'.objs| == |s'.starts| && k <= |s.objs|
    requires s.objs == s'.objs[..|s.objs|] && s.starts == s'.starts[..|s.starts|]
    ensures PrevEnd(c, s', k) == PrevEnd(c, s, k)
  {
  }
}
