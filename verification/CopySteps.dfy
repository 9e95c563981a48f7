/** What copying one object, and updating one slot, keeps. */
module CopySteps {
  import opened Memory
  import opened Objects
  import opened Layout
  import opened MarkGraph
  import opened CopyJob

  // ---------------------------------------------------------- where copies are

  lemma {:induction false} StartsIncrease(c: Job, s: State, i: nat, j: nat)
    requires PlacedOk(c, s) && ValidFrom(c) && i < j <= |s.objs|
    ensures s.starts[i] + SizeOf(c, s.objs[i]) <= StartOr(s, j)
    decreases j - i
  {
    hide ValidFrom, SizeOf;
    assert s.objs[i] in c.g;
    if i + 1 < j {
      assert s.objs[i + 1] in c.g;
      SizeAtLeastHeader(c, s.objs[i + 1]);
      StartsIncrease(c, s, i + 1, j);
    }
  }

  lemma SizeAtLeastHeader(c: Job, p: int)
    requires ValidFrom(c) && p in c.g
    ensures HeaderOf(c, p) + OBJPTR_SIZE <= SizeOf(c, p) && 0 < HeaderOf(c, p)
  {
    DataInExtent(c.e, c.m0, c.g, p);
  }

  lemma StartBounds(c: Job, s: State, i: nat)
    requires PlacedOk(c, s) && ValidFrom(c) && i < |s.objs|
    ensures c.toStart <= s.starts[i] && s.starts[i] + SizeOf(c, s.objs[i]) <= s.back
    ensures s.objs[i] in c.g
  {
    hide ValidFrom, SizeOf;
    assert s.objs[i] in c.g;
    StartsIncrease(c, s, i, |s.objs|);
    if i > 0 {
      assert s.objs[0] in c.g;
      SizeAtLeastHeader(c, s.objs[0]);
      StartsIncrease(c, s, 0, i);
    }
  }

  /** The copy of cell x of object p lies in to-space, before back. */
  lemma CopyCell(c: Job, s: State, p: int, x: int) returns (i: nat)
    requires PlacedOk(c, s) && ValidFrom(c) && p in s.fwd && p !in c.forwarded && InExtent(c.e, c.g, p, x)
    ensures i < |s.objs| && s.objs[i] == p
    ensures var y := x + (s.fwd[p] - p); s.starts[i] <= y < s.starts[i] + SizeOf(c, p) && c.toStart <= y < s.back && InTo(c, y)
  {
    hide ValidFrom;
    i :| 0 <= i < |s.objs| && s.objs[i] == p;
    StartBounds(c, s, i);
  }

  lemma CopyCellsApart(c: Job, s: State, p: int, x: int, q: int, y: int)
    requires PlacedOk(c, s) && ValidFrom(c) && p in s.fwd && p !in c.forwarded && q in s.fwd && q !in c.forwarded
    requires InExtent(c.e, c.g, p, x) && InExtent(c.e, c.g, q, y) && x + (s.fwd[p] - p) == y + (s.fwd[q] - q)
    ensures p == q && x == y
  {
    hide ValidFrom, InExtent, SizeOf, PlacedOk;
    var i := CopyCell(c, s, p, x);
    var j := CopyCell(c, s, q, y);
    PlacedLength(c, s);
    if i < j { StartsIncrease(c, s, i, j); }
    if j < i { StartsIncrease(c, s, j, i); }
  }

  lemma PlacedLength(c: Job, s: State)
    requires PlacedOk(c, s)
    ensures |s.objs| == |s.starts|
  {
  }

  lemma CopiedIsNew(c: Job, s: State, p: int)
    requires ValidForwarded(c) && p in c.g
    ensures p !in c.forwarded
  {
  }

  lemma TracedInExtent(c: Job, p: int, x: int)
    requires ValidFrom(c) && p in c.g && x in Traced(c.g[p], p)
    ensures InExtent(c.e, c.g, p, x) && p <= x && !Scratch(c, p, x)
  {
    hide Slots, Spaced, ArrayNoHeader, Apart;
    assert IsNode(c.e, c.m0, p, c.g[p]);
    SlotsSpaced(c.e, c.g[p].t, p, c.g[p].len, 0);
    SpacedMember(Slots(c.g[p].t, p, c.g[p].len), p, p - HeaderBytes(c.g[p].t) + SizeOf(c, p), x);
  }

  lemma SpacedMember(slots: seq<int>, lo: int, hi: int, x: int)
    requires Spaced(slots, lo, hi) && x in slots
    ensures lo <= x && x + OBJPTR_SIZE <= hi
  {
  }

  /** An updated slot keeps its value when more objects move. */
  lemma ForwardGrows(c: Job, fwd: map<int, int>, p: int, to: int, w: int)
    requires Takes(c, w) ==> w in fwd
    requires p !in fwd
    ensures Forward(c, fwd[p := to], w) == Forward(c, fwd, w)
  {
  }

  // ------------------------------------------------------------ copying an object

  /** m' is m after p has been copied to start. */
  ghost predicate CopiedTo(c: Job, m: Mem, p: int, start: int, m': Mem)
    requires p in c.g
  {
    var from := p - HeaderOf(c, p);
    && (forall x {:trigger Rd(m', x)} :: start <= x < start + SizeOf(c, p) && !Scratch(c, p, x - start + from) ==>
          Rd(m', x) == if c.lifting && x - start + from == p - HEADER_SIZE then SetLift(Rd(c.m0, x - start + from)) else Rd(c.m0, x - start + from))
    && (forall x {:trigger Rd(m', x)} :: !(start <= x < start + SizeOf(c, p)) ==>
          Rd(m', x) == if x == p - HEADER_SIZE && !Keeps(c, p) then FORWARDED
                       else if x == p && !Keeps(c, p) then start + HeaderOf(c, p)
                       else Rd(m, x))
  }

  function AfterCopy(c: Job, s: State, p: int, start: int, m': Mem): State
    requires p in c.g
  {
    s.(m := m', fwd := s.fwd[p := start + HeaderOf(c, p)], objs := s.objs + [p], starts := s.starts + [start], back := start + SizeOf(c, p))
  }

  ghost predicate CanCopy(c: Job, s: State, p: int, start: int) {
    Inv(c, s) && p in c.g && p !in s.fwd && Reaches(c, p) && s.back <= start && start + SizeOf(c, p) <= c.toLimit
  }

  lemma CopyKeepsInv(c: Job, s: State, p: int, start: int, m': Mem)
    requires CanCopy(c, s, p, start) && CopiedTo(c, s.m, p, start, m')
    ensures Inv(c, AfterCopy(c, s, p, start, m'))
  {
    hide OldOk, NewOk, RootsOk, RestOk, GapsOk, PlacedOk, UpdatedOk, ReachedOk, ValidJob, CopiedTo, Reaches, SizeOf, HeaderOf;
    CopyKeepsOld(c, s, p, start, m');
    CopyKeepsNew(c, s, p, start, m');
    CopyKeepsRoots(c, s, p, start, m');
    CopyKeepsRest(c, s, p, start, m');
    CopyKeepsGaps(c, s, p, start, m');
    CopyKeepsPlaced(c, s, p, start, m');
    CopyKeepsUpdated(c, s, p, start, m');
    CopyKeepsReached(c, s, p, start, m');
  }

  lemma NewCellsApart(c: Job, s: State, p: int, start: int, x: int)
    requires CanCopy(c, s, p, start) && !InTo(c, x)
    ensures !(start <= x < start + SizeOf(c, p))
  {
    hide ValidJob, OldOk, NewOk, RootsOk, RestOk, GapsOk, UpdatedOk, ReachedOk, SizeOf;
  }

  lemma CopyKeepsOld(c: Job, s: State, p: int, start: int, m': Mem)
    requires CanCopy(c, s, p, start) && CopiedTo(c, s.m, p, start, m')
    ensures OldOk(c, AfterCopy(c, s, p, start, m'))
  {
    hide NewOk, RootsOk, RestOk, GapsOk, PlacedOk, UpdatedOk, ReachedOk, Reaches, SizeOf, HeaderOf, InObject, ValidSlots, ValidForwarded, Nodes, Keeps;
    var s' := AfterCopy(c, s, p, start, m');
    CellsInExtent(c.e, c.m0, c.g, p);
    DataInExtent(c.e, c.m0, c.g, p);
    forall q, x {:trigger InExtent(c.e, c.g, q, x)} | InExtent(c.e, c.g, q, x) ensures Rd(m', x) == OldWord(c, s', q, x) {
      assert !InTo(c, x);
      NewCellsApart(c, s, p, start, x);
      assert Rd(s.m, x) == OldWord(c, s, q, x);
      if q != p { assert x != p && x != p - HEADER_SIZE; }
    }
  }

  lemma CopyKeepsNew(c: Job, s: State, p: int, start: int, m': Mem)
    requires CanCopy(c, s, p, start) && CopiedTo(c, s.m, p, start, m')
    ensures NewOk(c, AfterCopy(c, s, p, start, m'))
  {
    hide OldOk, RootsOk, RestOk, GapsOk, PlacedOk, ReachedOk, UpdatedOk, Reaches, SizeOf, HeaderOf, InObject, ValidJob, Keeps, CopiedTo, NewWord, Scratch, NewOk;
    var s' := AfterCopy(c, s, p, start, m');
    forall q, x {:trigger InExtent(c.e, c.g, q, x)} | InExtent(c.e, c.g, q, x) && q in s'.fwd && !Scratch(c, q, x)
      ensures Rd(m', x + (s'.fwd[q] - q)) == NewWord(c, s', q, x)
    {
      if q == p { NewCopyCell(c, s, p, start, m', x); } else { OldCopyCell(c, s, p, start, m', q, x); }
    }
    AssembleNew(c, s');
  }

  lemma AssembleNew(c: Job, s: State)
    requires forall p, x {:trigger InExtent(c.e, c.g, p, x)} :: InExtent(c.e, c.g, p, x) && p in s.fwd && !Scratch(c, p, x) ==>
      Rd(s.m, x + (s.fwd[p] - p)) == NewWord(c, s, p, x)
    ensures NewOk(c, s)
  {
    hide InObject, NewWord, Scratch;
  }

  lemma NewCopyCell(c: Job, s: State, p: int, start: int, m': Mem, x: int)
    requires CanCopy(c, s, p, start) && CopiedTo(c, s.m, p, start, m') && InExtent(c.e, c.g, p, x) && !Scratch(c, p, x)
    ensures var s' := AfterCopy(c, s, p, start, m'); Rd(m', x + (s'.fwd[p] - p)) == NewWord(c, s', p, x)
  {
    hide OldOk, NewOk, RootsOk, RestOk, GapsOk, ReachedOk, Reaches, ValidForwarded, Keeps, PlacedOk, UpdatedOk, Scratch, SetLift;
    NotYetUpdated(c, s, p, x);
    var y := x + (start + HeaderOf(c, p) - p);
    assert y - start + (p - HeaderOf(c, p)) == x;
    assert Rd(m', y) == if c.lifting && x == p - HEADER_SIZE then SetLift(Rd(c.m0, x)) else Rd(c.m0, x);
  }

  lemma NotYetUpdated(c: Job, s: State, p: int, x: int)
    requires Inv(c, s) && p in c.g && p !in s.fwd && InExtent(c.e, c.g, p, x)
    ensures x !in s.updated
  {
    hide OldOk, NewOk, RootsOk, RestOk, GapsOk, ReachedOk, ValidForwarded, InObject, Nodes;
    if x in s.updated && x !in c.roots {
      assert Slot(c, s, x);
      var q :| q in s.objs && q in c.g && x in Traced(c.g[q], q);
      TracedInExtent(c, q, x);
    }
  }

  lemma CopyElsewhere(c: Job, m: Mem, p: int, start: int, m': Mem, x: int)
    requires p in c.g && CopiedTo(c, m, p, start, m') && !(start <= x < start + SizeOf(c, p)) && x != p && x != p - HEADER_SIZE
    ensures Rd(m', x) == Rd(m, x)
  {
    hide SizeOf, HeaderOf, Keeps, Scratch;
  }

  lemma NewCell(c: Job, s: State, p: int, x: int)
    requires NewOk(c, s) && InExtent(c.e, c.g, p, x) && p in s.fwd && !Scratch(c, p, x)
    ensures Rd(s.m, x + (s.fwd[p] - p)) == NewWord(c, s, p, x)
  {
    hide InObject, NewWord, Scratch;
  }

  lemma OldCopyCell(c: Job, s: State, p: int, start: int, m': Mem, q: int, x: int)
    requires CanCopy(c, s, p, start) && CopiedTo(c, s.m, p, start, m') && q in s.fwd && q != p
    requires InExtent(c.e, c.g, q, x) && !Scratch(c, q, x)
    ensures var s' := AfterCopy(c, s, p, start, m'); Rd(m', x + (s'.fwd[q] - q)) == NewWord(c, s', q, x)
  {
    hide OldOk, NewOk, RootsOk, RestOk, GapsOk, ReachedOk, Reaches, SizeOf, HeaderOf, InObject, ValidForwarded, ValidSlots, Keeps, PlacedOk, Scratch, SetLift, Nodes, Apart, CopiedTo, InTo, Forward;
    CopiedIsNew(c, s, q);
    var i := CopyCell(c, s, q, x);
    var y := x + (s.fwd[q] - q);
    CellsInExtent(c.e, c.m0, c.g, p);
    DataInExtent(c.e, c.m0, c.g, p);
    assert y != p && y != p - HEADER_SIZE;
    CopyElsewhere(c, s.m, p, start, m', y);
    NewCell(c, s, q, x);
    if x in s.updated { ForwardGrows(c, s.fwd, p, start + HeaderOf(c, p), Rd(c.m0, x)); }
  }

  lemma CopyKeepsRoots(c: Job, s: State, p: int, start: int, m': Mem)
    requires CanCopy(c, s, p, start) && CopiedTo(c, s.m, p, start, m')
    ensures RootsOk(c, AfterCopy(c, s, p, start, m'))
  {
    hide OldOk, NewOk, RestOk, GapsOk, PlacedOk, ReachedOk, Reaches, SizeOf, HeaderOf, InObject, ValidForwarded, Nodes, Keeps, Forward;
    var s' := AfterCopy(c, s, p, start, m');
    CellsInExtent(c.e, c.m0, c.g, p);
    DataInExtent(c.e, c.m0, c.g, p);
    forall x {:trigger x in c.roots} | x in c.roots
      ensures Rd(m', x) == if x in s.updated then Forward(c, s'.fwd, Rd(c.m0, x)) else Rd(c.m0, x)
    {
      NewCellsApart(c, s, p, start, x);
      assert x != p && x != p - HEADER_SIZE;
      assert Rd(m', x) == Rd(s.m, x);
      if x in s.updated { ForwardGrows(c, s.fwd, p, start + HeaderOf(c, p), Rd(c.m0, x)); }
    }
  }

  lemma CopyKeepsRest(c: Job, s: State, p: int, start: int, m': Mem)
    requires CanCopy(c, s, p, start) && CopiedTo(c, s.m, p, start, m')
    ensures RestOk(c, AfterCopy(c, s, p, start, m'))
  {
    hide OldOk, NewOk, RootsOk, PlacedOk, UpdatedOk, ReachedOk, Reaches, SizeOf, HeaderOf, InObject, ValidForwarded, ValidSlots, Nodes, Keeps;
    CellsInExtent(c.e, c.m0, c.g, p);
    DataInExtent(c.e, c.m0, c.g, p);
    forall x {:trigger Rd(m', x)} | Free(c, x) ensures Rd(m', x) == Rd(c.m0, x) {
      NewCellsApart(c, s, p, start, x);
      assert x != p && x != p - HEADER_SIZE;
      assert Rd(m', x) == Rd(s.m, x);
    }
  }

  lemma CopyKeepsGaps(c: Job, s: State, p: int, start: int, m': Mem)
    requires CanCopy(c, s, p, start) && CopiedTo(c, s.m, p, start, m')
    ensures GapsOk(c, AfterCopy(c, s, p, start, m'))
  {
    hide OldOk, NewOk, RootsOk, RestOk, UpdatedOk, ReachedOk, Reaches, SizeOf, HeaderOf, InObject, ValidForwarded, ValidSlots, Nodes, Keeps, InCopies, StartOr;
    var s' := AfterCopy(c, s, p, start, m');
    CellsInExtent(c.e, c.m0, c.g, p);
    DataInExtent(c.e, c.m0, c.g, p);
    forall x {:trigger Rd(m', x)} | InTo(c, x) && !InCopies(c, s', x) ensures Rd(m', x) == Rd(c.m0, x) {
      assert x != p && x != p - HEADER_SIZE;
      CopiesGrow(c, s, p, start, m', x);
      assert Rd(m', x) == Rd(s.m, x);
    }
  }

  lemma CopiesGrow(c: Job, s: State, p: int, start: int, m': Mem, x: int)
    requires p in c.g && |s.objs| == |s.starts| && !InCopies(c, AfterCopy(c, s, p, start, m'), x)
    ensures !InCopies(c, s, x) && !(start <= x < start + SizeOf(c, p))
  {
    hide SizeOf;
    var s' := AfterCopy(c, s, p, start, m');
    assert s'.starts[|s.starts|] == start && s'.objs[|s.starts|] == p;
    assert forall i {:trigger s.starts[i]} :: 0 <= i < |s.starts| ==> s'.starts[i] == s.starts[i] && s'.objs[i] == s.objs[i];
  }

  lemma CopyKeepsPlaced(c: Job, s: State, p: int, start: int, m': Mem)
    requires CanCopy(c, s, p, start)
    ensures PlacedOk(c, AfterCopy(c, s, p, start, m'))
  {
    hide OldOk, NewOk, RootsOk, RestOk, GapsOk, UpdatedOk, ReachedOk, Reaches, SizeOf, HeaderOf, ValidSlots, ValidFrom;
    var s' := AfterCopy(c, s, p, start, m');
    SizeAtLeastHeader(c, p);
    CopiedIsNew(c, s, p);
    forall i {:trigger s'.objs[i]} | 0 <= i < |s'.objs|
      ensures s'.objs[i] in c.g && s'.objs[i] in s'.fwd
      ensures s'.fwd[s'.objs[i]] == s'.starts[i] + HeaderOf(c, s'.objs[i])
      ensures s'.starts[i] + SizeOf(c, s'.objs[i]) <= StartOr(s', i + 1)
    {
      if i < |s.objs| {
        assert s'.objs[i] == s.objs[i];
        assert s.objs[i] != p;
      }
    }
    assert forall q {:trigger q in s'.objs} :: q in s'.objs <==> q in s.objs || q == p;
    assert p !in s.objs;
  }

  lemma CopyKeepsUpdated(c: Job, s: State, p: int, start: int, m': Mem)
    requires CanCopy(c, s, p, start)
    ensures UpdatedOk(c, AfterCopy(c, s, p, start, m'))
  {
    hide OldOk, NewOk, RootsOk, RestOk, GapsOk, PlacedOk, ReachedOk, Reaches, SizeOf, HeaderOf, ValidJob;
    var s' := AfterCopy(c, s, p, start, m');
    forall x {:trigger x in s'.updated} | x in s'.updated ensures Slot(c, s', x) && (Takes(c, Rd(c.m0, x)) ==> Rd(c.m0, x) in s'.fwd) {
      assert x in s.updated;
      SlotGrows(c, s, s', x);
    }
  }

  lemma SlotGrows(c: Job, s: State, s': State, x: int)
    requires Slot(c, s, x) && |s.objs| <= |s'.objs| && s.objs == s'.objs[..|s.objs|]
    ensures Slot(c, s', x)
  {
    if x !in c.roots {
      var p :| p in s.objs && p in c.g && x in Traced(c.g[p], p);
      assert p in s'.objs;
    }
  }

  lemma CopyKeepsReached(c: Job, s: State, p: int, start: int, m': Mem)
    requires CanCopy(c, s, p, start)
    ensures ReachedOk(c, AfterCopy(c, s, p, start, m'))
  {
    hide OldOk, NewOk, RootsOk, RestOk, GapsOk, PlacedOk, UpdatedOk, Reaches, SizeOf, HeaderOf, ValidJob;
  }

  // -------------------------------------------------------------- updating a slot

  /** Where the slot with the old address x is now. */
  function Here(c: Job, s: State, p: int, x: int): int {
    if x in c.roots || p !in s.fwd then x else x + (s.fwd[p] - p)
  }

  /** x is a root, or a slot of the copied object p. */
  ghost predicate SlotOf(c: Job, s: State, p: int, x: int) {
    x in c.roots || (p in c.g && p in s.objs && x in Traced(c.g[p], p))
  }

  function AfterUpdate(s: State, x: int, m': Mem): State { s.(m := m', updated := s.updated + {x}) }

  /** m' is the memory of s with slot x of p forwarded. */
  ghost predicate UpdatedTo(c: Job, s: State, p: int, x: int, m': Mem) {
    forall y {:trigger Rd(m', y)} :: Rd(m', y) == if y == Here(c, s, p, x) then Forward(c, s.fwd, Rd(c.m0, x)) else Rd(s.m, y)
  }

  ghost predicate CanUpdate(c: Job, s: State, p: int, x: int, m': Mem) {
    && Inv(c, s) && SlotOf(c, s, p, x) && (Takes(c, Rd(c.m0, x)) ==> Rd(c.m0, x) in s.fwd)
    && UpdatedTo(c, s, p, x, m')
  }

  /** A slot of a copy lies in that copy. */
  lemma SlotHere(c: Job, s: State, p: int, x: int)
    requires Inv(c, s) && SlotOf(c, s, p, x)
    ensures x !in c.roots ==>
      p in c.g && p in s.fwd && p !in c.forwarded && InExtent(c.e, c.g, p, x) && p <= x && !Scratch(c, p, x) && InTo(c, Here(c, s, p, x))
    ensures x in c.roots ==> !InTo(c, x)
  {
    hide OldOk, NewOk, RootsOk, RestOk, GapsOk, UpdatedOk, ReachedOk, SizeOf, HeaderOf, InObject, Nodes, Traced, Scratch;
    if x !in c.roots {
      CopiedIsNew(c, s, p);
      TracedInExtent(c, p, x);
      var i := CopyCell(c, s, p, x);
    }
  }

  lemma SlotReads(c: Job, s: State, p: int, x: int)
    requires Inv(c, s) && SlotOf(c, s, p, x)
    ensures Rd(s.m, Here(c, s, p, x)) == if x in s.updated then Forward(c, s.fwd, Rd(c.m0, x)) else Rd(c.m0, x)
  {
    hide OldOk, RestOk, GapsOk, PlacedOk, UpdatedOk, ReachedOk, ValidJob, InObject, Traced, Scratch, Forward;
    SlotHere(c, s, p, x);
  }

  lemma UpdateKeepsInv(c: Job, s: State, p: int, x: int, m': Mem)
    requires CanUpdate(c, s, p, x, m')
    ensures Inv(c, AfterUpdate(s, x, m'))
  {
    hide OldOk, NewOk, RootsOk, RestOk, GapsOk, PlacedOk, UpdatedOk, ReachedOk, ValidJob, Here, Forward, UpdatedTo;
    UpdateKeepsOld(c, s, p, x, m');
    UpdateKeepsNew(c, s, p, x, m');
    UpdateKeepsRoots(c, s, p, x, m');
    UpdateKeepsRest(c, s, p, x, m');
    UpdateKeepsGaps(c, s, p, x, m');
    UpdateKeepsUpdated(c, s, p, x, m');
    UpdateKeepsPlaced(c, s, p, x, m');
  }

  lemma UpdateKeepsOld(c: Job, s: State, p: int, x: int, m': Mem)
    requires CanUpdate(c, s, p, x, m')
    ensures OldOk(c, AfterUpdate(s, x, m'))
  {
    hide NewOk, RootsOk, RestOk, GapsOk, PlacedOk, UpdatedOk, ReachedOk, InObject, ValidForwarded, Nodes, Keeps, Traced, Forward, Here;
    var s' := AfterUpdate(s, x, m');
    var here := Here(c, s, p, x);
    SlotHere(c, s, p, x);
    HereIsRootOrTo(c, s, p, x);
    forall q, y {:trigger InExtent(c.e, c.g, q, y)} | InExtent(c.e, c.g, q, y) ensures Rd(s'.m, y) == OldWord(c, s', q, y) {
      assert y != here;
      assert Rd(s.m, y) == OldWord(c, s, q, y);
    }
  }

  lemma HereIsRootOrTo(c: Job, s: State, p: int, x: int)
    requires Inv(c, s) && SlotOf(c, s, p, x)
    ensures if x in c.roots then Here(c, s, p, x) == x else InTo(c, Here(c, s, p, x)) && p in s.fwd && Here(c, s, p, x) == x + (s.fwd[p] - p)
  {
    hide OldOk, NewOk, RootsOk, RestOk, GapsOk, UpdatedOk, ReachedOk, PlacedOk, ValidJob;
    SlotHere(c, s, p, x);
  }

  lemma UpdateKeepsNew(c: Job, s: State, p: int, x: int, m': Mem)
    requires CanUpdate(c, s, p, x, m')
    ensures NewOk(c, AfterUpdate(s, x, m'))
  {
    hide OldOk, RootsOk, RestOk, GapsOk, PlacedOk, ReachedOk, UpdatedOk, InObject, ValidFrom, ValidSlots, Keeps, Traced, Forward, Here, Scratch, SetLift;
    var s' := AfterUpdate(s, x, m');
    var here := Here(c, s, p, x);
    SlotHere(c, s, p, x);
    HereIsRootOrTo(c, s, p, x);
    forall q, y {:trigger InExtent(c.e, c.g, q, y)} | InExtent(c.e, c.g, q, y) && q in s.fwd && !Scratch(c, q, y)
      ensures Rd(s'.m, y + (s.fwd[q] - q)) == NewWord(c, s', q, y)
    {
      CopiedIsNew(c, s, q);
      var i := CopyCell(c, s, q, y);
      assert Rd(s.m, y + (s.fwd[q] - q)) == NewWord(c, s, q, y);
      if x in c.roots {
        RootNotInExtent(c, q, y, x);
      } else {
        if y + (s.fwd[q] - q) == here { CopyCellsApart(c, s, p, x, q, y); }
        if x == y { SameOwner(c, p, q, x); }
      }
    }
  }

  lemma RootNotInExtent(c: Job, q: int, y: int, x: int)
    requires ValidJob(c) && InExtent(c.e, c.g, q, y) && x in c.roots
    ensures x != y && !InTo(c, x)
  {
    hide InObject, Nodes;
  }

  lemma SameOwner(c: Job, p: int, q: int, x: int)
    requires ValidFrom(c) && InExtent(c.e, c.g, p, x) && InExtent(c.e, c.g, q, x)
    ensures p == q
  {
    hide InObject, Nodes;
  }

  lemma UpdateKeepsRoots(c: Job, s: State, p: int, x: int, m': Mem)
    requires CanUpdate(c, s, p, x, m')
    ensures RootsOk(c, AfterUpdate(s, x, m'))
  {
    hide OldOk, NewOk, RestOk, GapsOk, PlacedOk, ReachedOk, UpdatedOk, InObject, ValidFrom, Keeps, Traced, Forward, Here, Scratch, ValidForwarded;
    HereIsRootOrTo(c, s, p, x);
    var s' := AfterUpdate(s, x, m');
    forall y {:trigger y in c.roots} | y in c.roots
      ensures Rd(s'.m, y) == if y in s'.updated then Forward(c, s.fwd, Rd(c.m0, y)) else Rd(c.m0, y)
    {
      assert !InTo(c, y);
    }
  }

  lemma UpdateKeepsRest(c: Job, s: State, p: int, x: int, m': Mem)
    requires CanUpdate(c, s, p, x, m')
    ensures RestOk(c, AfterUpdate(s, x, m'))
  {
    hide OldOk, NewOk, RootsOk, PlacedOk, ReachedOk, UpdatedOk, InExtent, ValidJob, Keeps, Traced, Forward, Here, Scratch;
    HereIsRootOrTo(c, s, p, x);
    forall y {:trigger Rd(m', y)} | Free(c, y) ensures Rd(m', y) == Rd(c.m0, y) {
      assert y != Here(c, s, p, x);
      assert Rd(s.m, y) == Rd(c.m0, y);
    }
  }

  lemma UpdateKeepsGaps(c: Job, s: State, p: int, x: int, m': Mem)
    requires CanUpdate(c, s, p, x, m')
    ensures GapsOk(c, AfterUpdate(s, x, m'))
  {
    hide OldOk, NewOk, RootsOk, RestOk, ReachedOk, UpdatedOk, InExtent, ValidJob, Keeps, Traced, Forward, Here, Scratch, InCopies, PlacedOk;
    HereIsRootOrTo(c, s, p, x);
    SlotHere(c, s, p, x);
    if x !in c.roots { InOwnCopy(c, s, p, x); }
    forall y {:trigger Rd(m', y)} | InTo(c, y) && !InCopies(c, AfterUpdate(s, x, m'), y) ensures Rd(m', y) == Rd(c.m0, y) {
      SameCopies(c, s, x, m', y);
      assert y != Here(c, s, p, x);
      assert Rd(s.m, y) == Rd(c.m0, y);
    }
  }

  lemma InOwnCopy(c: Job, s: State, p: int, x: int)
    requires Inv(c, s) && p in s.fwd && p !in c.forwarded && InExtent(c.e, c.g, p, x)
    ensures InCopies(c, s, x + (s.fwd[p] - p))
  {
    hide OldOk, NewOk, RootsOk, RestOk, GapsOk, ReachedOk, UpdatedOk, ValidSlots, ValidForwarded, SizeOf, InObject;
    var i := CopyCell(c, s, p, x);
    assert s.starts[i] <= x + (s.fwd[p] - p);
  }

  lemma SameCopies(c: Job, s: State, x: int, m': Mem, y: int)
    ensures InCopies(c, AfterUpdate(s, x, m'), y) <==> InCopies(c, s, y)
  {
    hide SizeOf;
    var s' := AfterUpdate(s, x, m');
    assert s'.starts == s.starts && s'.objs == s.objs;
  }

  lemma UpdateKeepsUpdated(c: Job, s: State, p: int, x: int, m': Mem)
    requires CanUpdate(c, s, p, x, m')
    ensures UpdatedOk(c, AfterUpdate(s, x, m')) && ReachedOk(c, AfterUpdate(s, x, m'))
  {
    hide OldOk, NewOk, RootsOk, PlacedOk, ValidJob, Keeps, Traced, Forward, Here, Scratch, Reaches;
    var s' := AfterUpdate(s, x, m');
    forall y {:trigger y in s'.updated} | y in s'.updated ensures Slot(c, s', y) && (Takes(c, Rd(c.m0, y)) ==> Rd(c.m0, y) in s'.fwd) {
      if y != x {
        assert y in s.updated;
        SlotGrows(c, s, s', y);
      }
    }
  }

  lemma UpdateKeepsPlaced(c: Job, s: State, p: int, x: int, m': Mem)
    requires CanUpdate(c, s, p, x, m')
    ensures PlacedOk(c, AfterUpdate(s, x, m'))
  {
    hide OldOk, NewOk, RootsOk, RestOk, GapsOk, ReachedOk, UpdatedOk, ValidJob, Forward, Here, SizeOf, HeaderOf;
    var s' := AfterUpdate(s, x, m');
    forall i {:trigger s'.objs[i]} | 0 <= i < |s'.objs|
      ensures s'.objs[i] in c.g && s'.objs[i] in s'.fwd
      ensures s'.fwd[s'.objs[i]] == s'.starts[i] + HeaderOf(c, s'.objs[i])
      ensures s'.starts[i] + SizeOf(c, s'.objs[i]) <= StartOr(s', i + 1)
    {
      assert s.objs[i] in c.g;
    }
  }
}
