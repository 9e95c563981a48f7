/** Reading copies back, room for them, and the scan over them. */
module CopyScan {
  import opened Sequences
  import opened Memory
  import opened Objects
  import opened Layout
  import opened MarkGraph
  import opened CopyJob
  import opened CopySteps

  // -------------------------------------------------------------- reading copies

  lemma SetLiftKeepsTheRest(h: int)
    requires IsHeader(h)
    ensures var g := SetLift(h);
      IsHeader(g) && g != 0 && (g / 0x8_0000) % 2 == 1 && forall e: Model {:trigger TypeOf(e, g)} :: TypeOf(e, g) == TypeOf(e, h)
  {
    if (h / 0x8_0000) % 2 != 1 {
      var g := h + 0x8_0000;
      assert g / 0x8_0000 == h / 0x8_0000 + 1;
      assert g / 2 == h / 2 + 0x1_0000 * 4;
      Mod16Bits(h / 2, 4);
    }
  }

  /** No updated slot lies before the data of an object. */
  lemma BeforeData(c: Job, s: State, p: int, x: int)
    requires Inv(c, s) && InExtent(c.e, c.g, p, x) && x < p
    ensures x !in s.updated
  {
    hide OldOk, NewOk, RootsOk, RestOk, GapsOk, ReachedOk, ValidForwarded, InObject, Nodes, Traced, PlacedOk;
    if x in s.updated && x !in c.roots {
      assert Slot(c, s, x);
      var q :| q in s.objs && q in c.g && x in Traced(c.g[q], q);
      TracedInExtent(c, q, x);
    }
  }

  lemma DescriptionRead(c: Job, s: State, p: int, x: int)
    requires Inv(c, s) && p in s.fwd && InExtent(c.e, c.g, p, x) && x < p && !Scratch(c, p, x)
    ensures Rd(s.m, x + (s.fwd[p] - p)) == if x == p - HEADER_SIZE && c.lifting then SetLift(Rd(c.m0, x)) else Rd(c.m0, x)
  {
    hide OldOk, RootsOk, RestOk, GapsOk, ReachedOk, ValidJob, InObject, PlacedOk, UpdatedOk, SetLift, Scratch;
    BeforeData(c, s, p, x);
  }

  lemma NotScratch(c: Job, p: int, x: int)
    requires ValidFrom(c) && p in c.g && x < p
    ensures !Scratch(c, p, x)
  {
    CellsInExtent(c.e, c.m0, c.g, p);
  }

  /** A copy describes itself as its original did. */
  lemma CopyReads(c: Job, s: State, i: nat)
    requires Inv(c, s) && i < |s.objs|
    ensures s.objs[i] in c.g && s.objs[i] in s.fwd
    ensures var p := s.objs[i]; var n := s.fwd[p]; var t := c.g[p].t; var h := Rd(s.m, n - HEADER_SIZE);
      && TypeOf(c.e, h) == t && ValidType(c.e, t) && t.tag in {NormalTag, WeakTag, ArrayTag} && h != FORWARDED
      && (t.tag == ArrayTag ==> Length(Rd(s.m, n - 16)) == c.g[p].len)
      && AdvanceToObjectData(s.m, s.starts[i]) == n && n == s.starts[i] + HeaderOf(c, p)
      && SizeWithHeader(c.e, s.m, n, h) == SizeOf(c, p)
      && h == if c.lifting then SetLift(Rd(c.m0, p - HEADER_SIZE)) else Rd(c.m0, p - HEADER_SIZE)
  {
    hide OldOk, NewOk, RootsOk, RestOk, GapsOk, ReachedOk, ValidSlots, InObject, UpdatedOk, SetLift, ArrayNoHeader, TypeIndex, Apart, Counter, Closed, Scratch;
    var p := s.objs[i];
    var n := s.fwd[p];
    CellsInExtent(c.e, c.m0, c.g, p);
    assert IsNode(c.e, c.m0, p, c.g[p]);
    NotScratch(c, p, p - HEADER_SIZE);
    DescriptionRead(c, s, p, p - HEADER_SIZE);
    SetLiftKeepsTheRest(Rd(c.m0, p - HEADER_SIZE));
    HeaderNotForwarded(c, p);
    if c.g[p].t.tag == ArrayTag {
      NotScratch(c, p, p - 16);
      DescriptionRead(c, s, p, p - 16);
      NotScratch(c, p, p - 24);
      DescriptionRead(c, s, p, p - 24);
    }
  }

  lemma HeaderNotForwarded(c: Job, p: int)
    requires ValidFrom(c) && p in c.g
    ensures Rd(c.m0, p - HEADER_SIZE) != FORWARDED && SetLift(Rd(c.m0, p - HEADER_SIZE)) != FORWARDED && Rd(c.m0, p - HEADER_SIZE) != 0
  {
    hide ValidShape, TypeIndex, Apart;
    assert IsNode(c.e, c.m0, p, c.g[p]);
  }

  lemma SlotsShift(t: ObjectType, p: int, d: int, len: nat)
    ensures |Slots(t, p + d, len)| == |Slots(t, p, len)|
    ensures forall k {:trigger Slots(t, p + d, len)[k]} :: 0 <= k < |Slots(t, p, len)| ==> Slots(t, p + d, len)[k] == Slots(t, p, len)[k] + d
  {
    if t.tag == ArrayTag { ArraySlotsShift(p, d, len, t); }
  }

  lemma {:induction false} ArraySlotsShift(a: int, d: int, len: nat, t: ObjectType)
    ensures |ArraySlots(a + d, len, t)| == |ArraySlots(a, len, t)|
    ensures forall k {:trigger ArraySlots(a + d, len, t)[k]} :: 0 <= k < |ArraySlots(a, len, t)| ==> ArraySlots(a + d, len, t)[k] == ArraySlots(a, len, t)[k] + d
    decreases len
  {
    if len > 0 {
      var next := a + FixedBytes(t);
      ArraySlotsShift(next, d, len - 1, t);
      assert a + d + FixedBytes(t) == next + d;
    }
  }

  // --------------------------------------------------------------- room for copies

  ghost function Bytes(c: Job, objs: seq<int>): int {
    if objs == [] then 0 else Bytes(c, objs[..|objs| - 1]) + SizeOf(c, objs[|objs| - 1])
  }

  ghost function Interval(lo: int, n: nat): set<int> {
    if n == 0 then {} else Interval(lo, n - 1) + {lo + n - 1}
  }

  lemma {:induction false} IntervalSize(lo: int, n: nat)
    ensures |Interval(lo, n)| == n
    ensures forall x {:trigger x in Interval(lo, n)} :: x in Interval(lo, n) <==> lo <= x < lo + n
    decreases n
  {
    if n > 0 { IntervalSize(lo, n - 1); }
  }

  ghost function Extent(c: Job, p: int): set<int> {
    Interval(p - HeaderOf(c, p), if SizeOf(c, p) < 0 then 0 else SizeOf(c, p))
  }

  ghost function Cells(c: Job, objs: seq<int>): set<int> {
    if objs == [] then {} else Cells(c, objs[..|objs| - 1]) + Extent(c, objs[|objs| - 1])
  }

  lemma ExtentCell(c: Job, p: int, x: int)
    requires p in c.g && x in Extent(c, p)
    ensures InExtent(c.e, c.g, p, x)
  {
    IntervalSize(p - HeaderOf(c, p), if SizeOf(c, p) < 0 then 0 else SizeOf(c, p));
  }

  lemma {:induction false} InCells(c: Job, objs: seq<int>, x: int) returns (p: int)
    requires forall p {:trigger p in objs} :: p in objs ==> p in c.g
    requires x in Cells(c, objs)
    ensures p in objs && InExtent(c.e, c.g, p, x)
    decreases |objs|
  {
    var front := objs[..|objs| - 1];
    assert forall q {:trigger q in front} :: q in front ==> q in objs;
    if x in Cells(c, front) {
      p := InCells(c, front, x);
    } else {
      p := objs[|objs| - 1];
      ExtentCell(c, p, x);
    }
  }

  /** Objects that share no cell take as many cells as their sizes add up to. */
  lemma {:induction false} CellsAddUp(c: Job, objs: seq<int>)
    requires ValidFrom(c) && (forall p {:trigger p in objs} :: p in objs ==> p in c.g)
    requires forall i, j :: 0 <= i < j < |objs| ==> objs[i] != objs[j]
    ensures |Cells(c, objs)| == Bytes(c, objs)
    decreases |objs|
  {
    hide SizeOf, HeaderOf, InObject, Nodes, Interval;
    if objs != [] {
      var front, last := objs[..|objs| - 1], objs[|objs| - 1];
      assert last in objs && forall q {:trigger q in front} :: q in front ==> q in objs;
      CellsAddUp(c, front);
      SizeAtLeastHeader(c, last);
      IntervalSize(last - HeaderOf(c, last), SizeOf(c, last));
      forall x | x in Cells(c, front) ensures x !in Extent(c, last) {
        var p := InCells(c, front, x);
        if x in Extent(c, last) { ExtentCell(c, last, x); }
      }
      assert Cells(c, front) !! Extent(c, last);
    }
  }

  /** All objects lie in [lo, hi). */
  ghost predicate Within(c: Job, lo: int, hi: int) {
    lo <= hi && forall p, x {:trigger InExtent(c.e, c.g, p, x)} :: InExtent(c.e, c.g, p, x) ==> lo <= x < hi
  }

  lemma BytesFit(c: Job, objs: seq<int>, lo: int, hi: int)
    requires ValidFrom(c) && Within(c, lo, hi) && (forall p {:trigger p in objs} :: p in objs ==> p in c.g)
    requires forall i, j :: 0 <= i < j < |objs| ==> objs[i] != objs[j]
    ensures 0 <= Bytes(c, objs) <= hi - lo
  {
    hide InObject, Nodes, Bytes, Cells, Interval, ValidFrom, SizeOf;
    CellsAddUp(c, objs);
    IntervalSize(lo, hi - lo);
    var all := Interval(lo, hi - lo);
    forall x | x in Cells(c, objs) ensures x in all {
      var p := InCells(c, objs, x);
    }
    assert all == Cells(c, objs) + (all - Cells(c, objs));
  }

  /** Copies without gaps between them. */
  ghost predicate Packed(c: Job, s: State) {
    && |s.starts| == |s.objs|
    && s.back == c.toStart + Bytes(c, s.objs)
    && forall i {:trigger s.starts[i]} :: 0 <= i < |s.starts| ==> s.starts[i] == c.toStart + Bytes(c, s.objs[..i])
  }

  lemma PackedNext(c: Job, s: State, i: nat)
    requires Inv(c, s) && Packed(c, s) && i < |s.objs|
    ensures s.objs[i] in c.g && s.starts[i] + SizeOf(c, s.objs[i]) == StartOr(s, i + 1) && s.starts[i] < s.back
  {
    hide OldOk, NewOk, RootsOk, RestOk, GapsOk, ReachedOk, ValidSlots, ValidForwarded, UpdatedOk, SizeOf, HeaderOf, Reaches, PlacedOk, ValidFrom;
    BytesTo(c, s.objs, i);
    assert s.objs[..|s.objs|] == s.objs;
    StartBounds(c, s, i);
    SizeAtLeastHeader(c, s.objs[i]);
  }

  lemma BytesTo(c: Job, objs: seq<int>, i: nat)
    requires i < |objs|
    ensures Bytes(c, objs[..i + 1]) == Bytes(c, objs[..i]) + SizeOf(c, objs[i])
  {
    hide SizeOf;
    assert objs[..i + 1][..i] == objs[..i];
  }

  /** There is always room for one more object. */
  lemma RoomForNext(c: Job, s: State, p: int, lo: int, hi: int)
    requires Inv(c, s) && Packed(c, s) && Within(c, lo, hi) && hi - lo <= c.toLimit - c.toStart && p in c.g && p !in s.fwd
    ensures s.back + SizeOf(c, p) <= c.toLimit
  {
    hide OldOk, NewOk, RootsOk, RestOk, GapsOk, ReachedOk, ValidSlots, ValidForwarded, UpdatedOk, SizeOf, HeaderOf, Reaches, Within, ValidFrom, Bytes;
    var objs := s.objs + [p];
    assert p !in s.objs;
    assert forall q {:trigger q in objs} :: q in objs ==> q in s.objs || q == p;
    BytesFit(c, objs, lo, hi);
    BytesTo(c, objs, |s.objs|);
    assert objs[..|objs|] == objs && objs[..|s.objs|] == s.objs;
  }

  lemma CopyKeepsPacked(c: Job, s: State, p: int, m': Mem)
    requires Packed(c, s)
    ensures p in c.g ==> Packed(c, AfterCopy(c, s, p, s.back, m'))
  {
    hide SizeOf, HeaderOf, Bytes;
    if p in c.g {
      var s' := AfterCopy(c, s, p, s.back, m');
      BytesTo(c, s'.objs, |s.objs|);
      assert s'.objs[..|s'.objs|] == s'.objs && s'.objs[..|s.objs|] == s.objs;
      forall i {:trigger s'.starts[i]} | 0 <= i < |s'.starts| ensures s'.starts[i] == c.toStart + Bytes(c, s'.objs[..i]) {
        assert s'.objs[..i] == s.objs[..i];
        assert i == |s.objs| ==> s.objs[..i] == s.objs;
      }
    }
  }

  /** Everything the roots and the copies point to has been copied. */
  ghost predicate AllUpdated(c: Job, s: State) {
    && (forall x {:trigger x in c.roots} :: x in c.roots ==> x in s.updated)
    && (forall p, x {:trigger x in Traced(c.g[p], p)} :: p in s.objs && p in c.g && x in Traced(c.g[p], p) ==> x in s.updated)
  }

  lemma CopiedExactly(c: Job, s: State)
    requires Inv(c, s) && AllUpdated(c, s)
    ensures forall x {:trigger Reaches(c, x)} :: x in s.objs <==> Reaches(c, x)
  {
    hide OldOk, NewOk, RootsOk, RestOk, GapsOk, ValidFrom, Nodes, Traced, Takes;
    var copied := set p | p in s.objs;
    forall x ensures FromRoot(c, x) && x in c.g ==> x in copied {
      if FromRoot(c, x) && x in c.g {
        var r :| r in c.roots && Rd(c.m0, r) == x;
        assert r in s.updated;
      }
    }
    forall p, x {:trigger Points(c, p, x)} ensures p in copied && Points(c, p, x) && x in c.g ==> x in copied {
      if p in copied && Points(c, p, x) && x in c.g {
        var r :| r in Traced(c.g[p], p) && Rd(c.m0, r) == x;
        assert r in s.updated;
      }
    }
    forall x {:trigger Reaches(c, x)} ensures x in s.objs <==> Reaches(c, x) {
      if Reaches(c, x) {
        var route :| IsRoute(c, route) && route[|route| - 1] == x;
        RouteStaysIn(c, copied, route);
      }
    }
  }

  // ------------------------------------------------------- the order of the scan

  /** s' has everything that s has, where s has it. */
  ghost predicate Extends(s: State, s': State) {
    && |s.objs| <= |s'.objs| && |s.starts| <= |s'.starts|
    && s.objs == s'.objs[..|s.objs|] && s.starts == s'.starts[..|s.starts|]
    && (forall p {:trigger p in s.fwd} :: p in s.fwd ==> p in s'.fwd && s'.fwd[p] == s.fwd[p])
    && (forall x {:trigger x in s.updated} :: x in s.updated ==> x in s'.updated)
  }

  ghost function TracedAt(c: Job, p: int): seq<int> { if p in c.g then Traced(c.g[p], p) else [] }

  /** x is a slot of one of the first i objects. */
  ghost predicate InDone(c: Job, objs: seq<int>, i: nat, x: int) {
    exists j {:trigger objs[j]} :: 0 <= j < i && j < |objs| && x in TracedAt(c, objs[j])
  }

  ghost predicate InPart(c: Job, objs: seq<int>, i: nat, k: nat, x: int) {
    i < |objs| && exists n {:trigger TracedAt(c, objs[i])[n]} :: 0 <= n < k && n < |TracedAt(c, objs[i])| && TracedAt(c, objs[i])[n] == x
  }

  /** The roots, the slots of the first i objects and k slots of the next one
      have been forwarded, and no others. */
  ghost predicate UpdatedIs(c: Job, s: State, i: nat, k: nat) {
    forall x {:trigger x in s.updated} :: x in s.updated <==> x in c.roots || InDone(c, s.objs, i, x) || InPart(c, s.objs, i, k, x)
  }

  lemma RootsDone(c: Job, s: State)
    requires forall x {:trigger x in s.updated} :: x in s.updated <==> x in c.roots
    ensures UpdatedIs(c, s, 0, 0)
  {
  }

  /** A slot that is next in turn has not been forwarded. */
  lemma FreshSlot(c: Job, s: State, i: nat, k: nat)
    requires Inv(c, s) && UpdatedIs(c, s, i, k) && i < |s.objs| && k < |TracedAt(c, s.objs[i])|
    ensures s.objs[i] in c.g && TracedAt(c, s.objs[i])[k] !in s.updated
    ensures SlotOf(c, s, s.objs[i], TracedAt(c, s.objs[i])[k]) && TracedAt(c, s.objs[i])[k] !in c.roots
  {
    hide OldOk, NewOk, RootsOk, RestOk, GapsOk, ReachedOk, UpdatedOk, Traced, InObject, Nodes, UpdatedIs;
    var p, x := s.objs[i], TracedAt(c, s.objs[i])[k];
    TracedInExtent(c, p, x);
    forall j | 0 <= j < i && x in TracedAt(c, s.objs[j]) ensures false {
      TracedInExtent(c, s.objs[j], x);
    }
    TracedDistinct(c, p, k);
    NotUpdated(c, s, i, k, x);
  }

  lemma NotUpdated(c: Job, s: State, i: nat, k: nat, x: int)
    requires UpdatedIs(c, s, i, k) && x !in c.roots && i < |s.objs|
    requires forall j {:trigger s.objs[j]} :: 0 <= j < i ==> x !in TracedAt(c, s.objs[j])
    requires forall n {:trigger TracedAt(c, s.objs[i])[n]} :: 0 <= n < k && n < |TracedAt(c, s.objs[i])| ==> TracedAt(c, s.objs[i])[n] != x
    ensures x !in s.updated
  {
    hide TracedAt;
  }

  lemma TracedDistinct(c: Job, p: int, k: nat)
    requires ValidFrom(c) && p in c.g && k < |TracedAt(c, p)|
    ensures forall n {:trigger TracedAt(c, p)[n]} :: 0 <= n < k ==> TracedAt(c, p)[n] != TracedAt(c, p)[k]
  {
    hide Slots, Spaced, Apart, ArrayNoHeader;
    assert IsNode(c.e, c.m0, p, c.g[p]);
    SlotsSpaced(c.e, c.g[p].t, p, c.g[p].len, 0);
    SpacedDistinct(Slots(c.g[p].t, p, c.g[p].len), p, p - HeaderBytes(c.g[p].t) + SizeByType(c.e, c.g[p].t, c.g[p].len, 0));
  }

  lemma SpacedDistinct(slots: seq<int>, lo: int, hi: int)
    requires Spaced(slots, lo, hi)
    ensures forall i, j :: 0 <= i < j < |slots| ==> slots[i] != slots[j]
  {
  }

  lemma NextSlot(c: Job, s0: State, s: State, i: nat, k: nat, slots: seq<int>)
    requires Inv(c, s) && UpdatedIs(c, s, i, k) && Extends(s0, s) && i < |s0.objs| && s0.objs[i] in c.g && s0.objs[i] in s0.fwd
    requires var q := s0.objs[i]; var t := c.g[q].t;
      k < |slots| && slots == if t.tag == WeakTag then [] else Slots(t, s0.fwd[q], c.g[q].len)
    ensures k < |TracedAt(c, s0.objs[i])| == |slots|
    ensures SlotOf(c, s, s0.objs[i], TracedAt(c, s0.objs[i])[k]) && TracedAt(c, s0.objs[i])[k] !in s.updated
    ensures slots[k] == Here(c, s, s0.objs[i], TracedAt(c, s0.objs[i])[k])
  {
    hide Inv, UpdatedIs, Slots, SlotOf;
    var q := s0.objs[i];
    SlotsShift(c.g[q].t, q, s0.fwd[q] - q, c.g[q].len);
    assert s.objs[i] == q;
    FreshSlot(c, s, i, k);
  }

  lemma SlotDone(c: Job, s0: State, s: State, s': State, i: nat, k: nat)
    requires UpdatedIs(c, s, i, k) && Extends(s0, s) && Extends(s, s') && i < |s0.objs| && k < |TracedAt(c, s0.objs[i])|
    requires s'.updated == s.updated + {TracedAt(c, s0.objs[i])[k]}
    ensures UpdatedIs(c, s', i, k + 1) && Extends(s0, s')
  {
    hide TracedAt;
    var x := TracedAt(c, s0.objs[i])[k];
    assert s'.objs[i] == s.objs[i] == s0.objs[i];
    assert forall j {:trigger s'.objs[j]} :: 0 <= j < i ==> s'.objs[j] == s.objs[j];
    forall y {:trigger y in s'.updated} ensures y in s'.updated <==> y in c.roots || InDone(c, s'.objs, i, y) || InPart(c, s'.objs, i, k + 1, y) {
      assert InDone(c, s'.objs, i, y) <==> InDone(c, s.objs, i, y);
      PartGrows(c, s.objs, s'.objs, i, k, y);
      assert y in s'.updated <==> y in s.updated || y == x;
    }
    assert s0.objs == s'.objs[..|s0.objs|];
    assert s0.starts == s'.starts[..|s0.starts|];
  }

  lemma PartGrows(c: Job, objs: seq<int>, objs': seq<int>, i: nat, k: nat, y: int)
    requires i < |objs| && i < |objs'| && objs[i] == objs'[i] && k < |TracedAt(c, objs[i])|
    ensures InPart(c, objs', i, k + 1, y) <==> InPart(c, objs, i, k, y) || y == TracedAt(c, objs[i])[k]
  {
    hide TracedAt;
    assert TracedAt(c, objs'[i])[k] == TracedAt(c, objs[i])[k];
  }

  lemma PartIsAll(c: Job, s: State, i: nat)
    requires i < |s.objs| && UpdatedIs(c, s, i, |TracedAt(c, s.objs[i])|)
    ensures UpdatedIs(c, s, i + 1, 0)
  {
    hide TracedAt;
    forall x {:trigger x in s.updated} ensures x in s.updated <==> x in c.roots || InDone(c, s.objs, i + 1, x) || InPart(c, s.objs, i + 1, 0, x) {
      var slots := TracedAt(c, s.objs[i]);
      assert InPart(c, s.objs, i, |slots|, x) <==> x in slots;
      assert InDone(c, s.objs, i + 1, x) <==> InDone(c, s.objs, i, x) || x in slots;
    }
  }

  lemma GrownBy(s: State, s': State)
    requires Extends(s, s')
    ensures |s.objs| <= |s'.objs|
  {
  }

  lemma ObjectsFit(c: Job, s: State)
    requires Inv(c, s)
    ensures |s.objs| <= |c.g|
  {
    hide OldOk, NewOk, RootsOk, RestOk, GapsOk, ReachedOk, UpdatedOk, ValidJob;
    assert forall i {:trigger s.objs[i]} :: 0 <= i < |s.objs| ==> s.objs[i] in c.g.Keys;
    DistinctFits(s.objs, c.g.Keys);
  }

  lemma ScanEnds(c: Job, s: State, i: nat)
    requires UpdatedIs(c, s, i, 0) && i == |s.objs|
    ensures AllUpdated(c, s)
  {
    hide Traced;
    forall p, x {:trigger x in Traced(c.g[p], p)} | p in s.objs && p in c.g && x in Traced(c.g[p], p) ensures x in s.updated {
      var j :| 0 <= j < |s.objs| && s.objs[j] == p;
      assert x in TracedAt(c, s.objs[j]);
    }
  }

  lemma ModelIsValid(c: Job, s: State)
    requires Inv(c, s)
    ensures ValidModel(c.e)
  {
  }

  lemma SizePositive(c: Job, s: State, p: int)
    requires Inv(c, s) && p in c.g
    ensures 0 < SizeOf(c, p)
  {
    hide OldOk, NewOk, RootsOk, RestOk, GapsOk, PlacedOk, ReachedOk, UpdatedOk, Traced;
    SizeAtLeastHeader(c, p);
  }

  lemma InFwd(c: Job, s: State, p: int)
    requires Inv(c, s) && p in s.objs
    ensures p in s.fwd && p in c.g && p !in c.forwarded
  {
    hide OldOk, NewOk, RootsOk, RestOk, GapsOk, ReachedOk, UpdatedOk, ValidFrom, ValidSlots;
    CopiedIsNew(c, s, p);
  }

  lemma CopiesDiffer(c: Job, s: State, p: int, q: int)
    requires Inv(c, s) && p in s.objs && q in s.objs && p != q
    ensures p in s.fwd && q in s.fwd && s.fwd[p] != s.fwd[q]
  {
    hide OldOk, NewOk, RootsOk, RestOk, GapsOk, ReachedOk, UpdatedOk, PlacedOk, ValidSlots, ValidForwarded, InObject;
    InFwd(c, s, p);
    InFwd(c, s, q);
    DataInExtent(c.e, c.m0, c.g, p);
    DataInExtent(c.e, c.m0, c.g, q);
    if s.fwd[p] == s.fwd[q] { CopyCellsApart(c, s, p, p, q, q); }
  }
}
