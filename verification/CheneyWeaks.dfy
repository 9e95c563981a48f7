/** Weak pointers after a copying collection (cheney-copy.c, updateWeaksForCheneyCopy). */
module CheneyWeaks {
  import opened Memory
  import opened Objects
  import opened Layout
  import opened MarkGraph
  import opened CopyJob
  import opened CopySteps
  import opened CopyScan
  import opened CheneyCopy

  const WEAK_GONE_HEADER := BuildHeader(WEAK_GONE_TYPE_INDEX)

  /** What the weak object p points to when the collection starts. */
  ghost function WeakTarget(c: Job, p: int): int { Rd(c.m0, WeakCell(c.e, p)) }

  /** A weak pointer that is a pointer into from-space leads to an object, and
      none leads into to-space. */
  ghost predicate ValidWeaks(c: Job) {
    forall p {:trigger LinksWeak(c, p)} :: LinksWeak(c, p) ==>
      && (Takes(c, WeakTarget(c, p)) ==> WeakTarget(c, p) in c.g || WeakTarget(c, p) in c.forwarded)
      && !InTo(c, WeakTarget(c, p)) && !InTo(c, WeakTarget(c, p) - HEADER_SIZE)
  }

  /** The target has left a forwarding pointer. */
  ghost predicate TargetMoved(c: Job, s: State, p: int) { Rd(s.m, WeakTarget(c, p) - HEADER_SIZE) == FORWARDED }

  ghost function WeakHeader(c: Job, s: State, p: int): int {
    if TargetMoved(c, s, p) then Rd(c.m0, p - HEADER_SIZE) else WEAK_GONE_HEADER
  }

  ghost function WeakPointer(c: Job, s: State, p: int): int {
    if TargetMoved(c, s, p) then Rd(s.m, WeakTarget(c, p)) else BOGUS_OBJPTR
  }

  /** Where the header and the pointer of the copy of p are. */
  ghost function CopyHeader(s: State, p: int): int { (if p in s.fwd then s.fwd[p] else p) - HEADER_SIZE }

  ghost function CopyWeak(c: Job, s: State, p: int): int { WeakCell(c.e, if p in s.fwd then s.fwd[p] else p) }

  ghost function TouchedCells(c: Job, s: State, linked: seq<int>): set<int> {
    if linked == [] then {}
    else TouchedCells(c, s, linked[..|linked| - 1]) + {CopyHeader(s, linked[|linked| - 1]), CopyWeak(c, s, linked[|linked| - 1])}
  }

  /** The first n weak objects of the chain have been dealt with. */
  ghost predicate WeaksUpdated(c: Job, s: State, linked: seq<int>, n: nat, m: Mem)
    requires n <= |linked|
  {
    && (forall i {:trigger linked[i]} :: 0 <= i < n ==>
          Rd(m, CopyHeader(s, linked[i])) == WeakHeader(c, s, linked[i]) && Rd(m, CopyWeak(c, s, linked[i])) == WeakPointer(c, s, linked[i]))
    && (forall x {:trigger Rd(m, x)} :: x !in TouchedCells(c, s, linked[..n]) ==> Rd(m, x) == Rd(s.m, x))
  }

  lemma {:induction false} TouchedMember(c: Job, s: State, linked: seq<int>, x: int)
    ensures x in TouchedCells(c, s, linked) <==>
      exists i {:trigger linked[i]} :: 0 <= i < |linked| && (x == CopyHeader(s, linked[i]) || x == CopyWeak(c, s, linked[i]))
    decreases |linked|
  {
    hide CopyHeader, CopyWeak;
    if linked != [] {
      var front := linked[..|linked| - 1];
      TouchedMember(c, s, front, x);
      assert forall i {:trigger linked[i]} :: 0 <= i < |front| ==> front[i] == linked[i];
      if i :| 0 <= i < |front| && (x == CopyHeader(s, front[i]) || x == CopyWeak(c, s, front[i])) {
        assert x == CopyHeader(s, linked[i]) || x == CopyWeak(c, s, linked[i]);
      }
    }
  }

  /** The cells of a copied weak object that the update writes. */
  lemma WeakPlaces(c: Job, s: State, p: int)
    requires Inv(c, s) && p in s.objs && LinksWeak(c, p)
    ensures p in s.fwd && p in c.g && c.g[p].t.tag == WeakTag && InTo(c, CopyHeader(s, p)) && InTo(c, CopyWeak(c, s, p))
    ensures CopyHeader(s, p) == p - HEADER_SIZE + (s.fwd[p] - p) && CopyWeak(c, s, p) == WeakCell(c.e, p) + (s.fwd[p] - p)
    ensures CopyHeader(s, p) != CopyWeak(c, s, p)
    ensures InExtent(c.e, c.g, p, p - HEADER_SIZE) && InExtent(c.e, c.g, p, WeakCell(c.e, p)) && p !in c.forwarded
    ensures !Scratch(c, p, p - HEADER_SIZE) && !Scratch(c, p, WeakCell(c.e, p))
  {
    hide OldOk, NewOk, RootsOk, RestOk, GapsOk, ReachedOk, UpdatedOk, InObject, Apart, Nodes, OffsetOfWeak;
    CellsInExtent(c.e, c.m0, c.g, p);
    CopiedIsNew(c, s, p);
    var i := CopyCell(c, s, p, p - HEADER_SIZE);
    var j := CopyCell(c, s, p, WeakCell(c.e, p));
  }

  /** What the copy of a weak object holds before the update. */
  lemma WeakReads(c: Job, s: State, p: int)
    requires Inv(c, s) && p in s.objs && LinksWeak(c, p) && !c.lifting
    ensures Rd(s.m, CopyHeader(s, p)) == Rd(c.m0, p - HEADER_SIZE)
    ensures Rd(s.m, CopyWeak(c, s, p)) == WeakTarget(c, p)
  {
    hide OldOk, RootsOk, RestOk, GapsOk, PlacedOk, ReachedOk, InObject, Traced, Scratch, OffsetOfWeak, CopyHeader, CopyWeak, LinksWeak, ValidForwarded, Nodes;
    WeakPlaces(c, s, p);
    CellOfWeak(c, s, p, p - HEADER_SIZE);
    CellOfWeak(c, s, p, WeakCell(c.e, p));
  }

  lemma CellOfWeak(c: Job, s: State, p: int, x: int)
    requires Inv(c, s) && p in s.fwd && InExtent(c.e, c.g, p, x) && c.g[p].t.tag == WeakTag && !Scratch(c, p, x) && !c.lifting
    ensures Rd(s.m, x + (s.fwd[p] - p)) == Rd(c.m0, x)
  {
    hide OldOk, RootsOk, RestOk, GapsOk, PlacedOk, ReachedOk, InObject, Scratch, OffsetOfWeak, ValidForwarded, Nodes;
    if x in s.updated && x !in c.roots {
      assert Slot(c, s, x);
      var q :| q in s.objs && q in c.g && x in Traced(c.g[q], q);
      TracedInExtent(c, q, x);
    }
  }

  lemma TouchedCellsApart(c: Job, s: State, p: int, q: int)
    requires Inv(c, s) && p in s.objs && LinksWeak(c, p) && q in s.objs && LinksWeak(c, q) && p != q
    ensures CopyHeader(s, p) != CopyHeader(s, q) && CopyHeader(s, p) != CopyWeak(c, s, q)
    ensures CopyWeak(c, s, p) != CopyHeader(s, q) && CopyWeak(c, s, p) != CopyWeak(c, s, q)
  {
    hide OldOk, NewOk, RootsOk, RestOk, GapsOk, PlacedOk, ReachedOk, UpdatedOk, InObject, Scratch, OffsetOfWeak, ValidForwarded, ValidSlots, Nodes, CopyHeader, CopyWeak, LinksWeak, WeakCell;
    WeakPlaces(c, s, p);
    WeakPlaces(c, s, q);
    var d, d' := s.fwd[p] - p, s.fwd[q] - q;
    if p - HEADER_SIZE + d == q - HEADER_SIZE + d' { CopyCellsApart(c, s, p, p - HEADER_SIZE, q, q - HEADER_SIZE); }
    if p - HEADER_SIZE + d == WeakCell(c.e, q) + d' { CopyCellsApart(c, s, p, p - HEADER_SIZE, q, WeakCell(c.e, q)); }
    if WeakCell(c.e, p) + d == q - HEADER_SIZE + d' { CopyCellsApart(c, s, p, WeakCell(c.e, p), q, q - HEADER_SIZE); }
    if WeakCell(c.e, p) + d == WeakCell(c.e, q) + d' { CopyCellsApart(c, s, p, WeakCell(c.e, p), q, WeakCell(c.e, q)); }
  }

  /** Neither a link nor a target is among the cells the update writes. */
  lemma UntouchedCells(c: Job, s: State, linked: seq<int>, n: nat, p: int)
    requires Inv(c, s) && ValidWeaks(c) && n <= |linked| && p in s.objs && LinksWeak(c, p)
    requires forall i {:trigger linked[i]} :: 0 <= i < |linked| ==> linked[i] in s.objs && LinksWeak(c, linked[i])
    requires forall i {:trigger linked[i]} :: 0 <= i < n ==> linked[i] != p
    ensures LinkOf(c, s, p) !in TouchedCells(c, s, linked[..n])
    ensures WeakTarget(c, p) !in TouchedCells(c, s, linked[..n]) && WeakTarget(c, p) - HEADER_SIZE !in TouchedCells(c, s, linked[..n])
    ensures CopyHeader(s, p) !in TouchedCells(c, s, linked[..n]) && CopyWeak(c, s, p) !in TouchedCells(c, s, linked[..n])
  {
    hide Inv, TouchedCells, CopyHeader, CopyWeak, LinksWeak, LinkOf, WeakTarget, Takes;
    var done := linked[..n];
    forall i {:trigger done[i]} | 0 <= i < |done|
      ensures CellsDiffer(c, s, p, done[i])
    {
      assert done[i] == linked[i];
      UntouchedBy(c, s, p, linked[i]);
    }
    TouchedMember(c, s, done, LinkOf(c, s, p));
    TouchedMember(c, s, done, WeakTarget(c, p));
    TouchedMember(c, s, done, WeakTarget(c, p) - HEADER_SIZE);
    TouchedMember(c, s, done, CopyHeader(s, p));
    TouchedMember(c, s, done, CopyWeak(c, s, p));
  }

  ghost predicate CellsDiffer(c: Job, s: State, p: int, q: int) {
    && LinkOf(c, s, p) != CopyHeader(s, q) && LinkOf(c, s, p) != CopyWeak(c, s, q)
    && WeakTarget(c, p) != CopyHeader(s, q) && WeakTarget(c, p) != CopyWeak(c, s, q)
    && WeakTarget(c, p) - HEADER_SIZE != CopyHeader(s, q) && WeakTarget(c, p) - HEADER_SIZE != CopyWeak(c, s, q)
    && CopyHeader(s, p) != CopyHeader(s, q) && CopyHeader(s, p) != CopyWeak(c, s, q)
    && CopyWeak(c, s, p) != CopyHeader(s, q) && CopyWeak(c, s, p) != CopyWeak(c, s, q)
  }

  lemma UntouchedBy(c: Job, s: State, p: int, q: int)
    requires Inv(c, s) && ValidWeaks(c) && p in s.objs && LinksWeak(c, p) && q in s.objs && LinksWeak(c, q) && p != q
    ensures CellsDiffer(c, s, p, q)
  {
    hide OldOk, NewOk, RootsOk, RestOk, GapsOk, PlacedOk, ReachedOk, UpdatedOk, InObject, OffsetOfWeak, ValidForwarded, ValidSlots, Nodes, CopyHeader, CopyWeak, LinksWeak, LinkOf, Takes, WeakTarget, WeakCell, LinkCell, InTo, Scratch;
    LinkPlace(c, s, p);
    WeakPlaces(c, s, q);
    TouchedCellsApart(c, s, p, q);
    if LinkOf(c, s, p) == CopyHeader(s, q) { CopyCellsApart(c, s, p, LinkCell(c.e, p), q, q - HEADER_SIZE); }
    if LinkOf(c, s, p) == CopyWeak(c, s, q) { CopyCellsApart(c, s, p, LinkCell(c.e, p), q, WeakCell(c.e, q)); }
  }

  lemma {:induction false} WeaksDistinct(c: Job, objs: seq<int>)
    requires forall i, j :: 0 <= i < j < |objs| ==> objs[i] != objs[j]
    ensures var w := WeaksOf(c, objs); forall i, j :: 0 <= i < j < |w| ==> w[i] != w[j]
    decreases |objs|
  {
    hide LinksWeak;
    if objs != [] {
      var front, p := objs[..|objs| - 1], objs[|objs| - 1];
      WeaksDistinct(c, front);
      WeaksAreCopied(c, front, p);
      assert p !in front;
    }
  }

  /** The step that deals with weak object number n of the chain. */
  lemma WeakStep(c: Job, s: State, linked: seq<int>, n: nat, m: Mem, m': Mem)
    requires Inv(c, s) && ValidWeaks(c) && !c.lifting && n < |linked|
    requires forall i {:trigger linked[i]} :: 0 <= i < |linked| ==> linked[i] in s.objs && LinksWeak(c, linked[i])
    requires forall i, j :: 0 <= i < j < |linked| ==> linked[i] != linked[j]
    requires WeaksUpdated(c, s, linked, n, m)
    requires forall x {:trigger Rd(m', x)} ::
      Rd(m', x) == if x == CopyWeak(c, s, linked[n]) then WeakPointer(c, s, linked[n])
                   else if x == CopyHeader(s, linked[n]) then WeakHeader(c, s, linked[n]) else Rd(m, x)
    ensures WeaksUpdated(c, s, linked, n + 1, m')
  {
    hide Inv, LinksWeak, WeakHeader, WeakPointer, CopyHeader, CopyWeak, ValidWeaks;
    var p := linked[n];
    assert linked[..n + 1][..n] == linked[..n];
    WeakPlaces(c, s, p);
    forall i {:trigger linked[i]} | 0 <= i < n + 1
      ensures Rd(m', CopyHeader(s, linked[i])) == WeakHeader(c, s, linked[i]) && Rd(m', CopyWeak(c, s, linked[i])) == WeakPointer(c, s, linked[i])
    {
      if i < n { TouchedCellsApart(c, s, linked[i], p); }
    }
  }

  // ------------------------------------------------------------ after the collection

  /** The word of a copy at the end, by its old address. */
  ghost function FinalWord(c: Job, s: State, p: int, x: int): int
    requires p in c.g
  {
    if LinksWeak(c, p) && x == p - HEADER_SIZE then WeakHeader(c, s, p)
    else if LinksWeak(c, p) && x == WeakCell(c.e, p) then WeakPointer(c, s, p)
    else if x in Traced(c.g[p], p) then Forward(c, s.fwd, Rd(c.m0, x))
    else Rd(c.m0, x)
  }

  /** Exactly the objects that can be reached have been copied, once each and
      back to back in the order in which they were found; copies and roots
      point to copies where they pointed to originals; cells outside the two
      spaces and the roots are as they were. */
  ghost predicate Collected(c: Job, s: State, m: Mem) {
    && (forall x {:trigger Reaches(c, x)} :: x in s.objs <==> Reaches(c, x))
    && PlacedOk(c, s) && Packed(c, s)
    && (forall p, x {:trigger InExtent(c.e, c.g, p, x)} :: p in s.objs && InExtent(c.e, c.g, p, x) && !Scratch(c, p, x) ==>
          p in s.fwd && Rd(m, x + (s.fwd[p] - p)) == FinalWord(c, s, p, x))
    && (forall x {:trigger x in c.roots} :: x in c.roots ==> Rd(m, x) == Forward(c, s.fwd, Rd(c.m0, x)))
    && (forall x {:trigger Free(c, x)} :: Free(c, x) ==> Rd(m, x) == Rd(c.m0, x))
  }

  lemma CollectionIsCorrect(c: Job, s: State, m: Mem)
    requires Inv(c, s) && Packed(c, s) && AllUpdated(c, s) && !c.lifting
    requires var w := WeaksOf(c, s.objs); WeaksUpdated(c, s, w, |w|, m)
    ensures Collected(c, s, m)
  {
    hide OldOk, NewOk, RootsOk, RestOk, GapsOk, ReachedOk, UpdatedOk, PlacedOk, Packed, WeaksUpdated, WeaksOf, Scratch, InObject, FinalWord, ValidJob, Forward, Reaches;
    CopiedExactly(c, s);
    forall p, x {:trigger InExtent(c.e, c.g, p, x)} | p in s.objs && InExtent(c.e, c.g, p, x) && !Scratch(c, p, x)
      ensures p in s.fwd && Rd(m, x + (s.fwd[p] - p)) == FinalWord(c, s, p, x)
    {
      FinalCell(c, s, m, p, x);
    }
    forall x {:trigger x in c.roots} | x in c.roots ensures Rd(m, x) == Forward(c, s.fwd, Rd(c.m0, x)) {
      FinalRoot(c, s, m, x);
    }
    forall x {:trigger Free(c, x)} | Free(c, x) ensures Rd(m, x) == Rd(c.m0, x) {
      FinalFree(c, s, m, x);
    }
  }

  lemma FinalFree(c: Job, s: State, m: Mem, x: int)
    requires Inv(c, s) && Free(c, x)
    requires var w := WeaksOf(c, s.objs); WeaksUpdated(c, s, w, |w|, m)
    ensures Rd(m, x) == Rd(c.m0, x)
  {
    hide OldOk, NewOk, RootsOk, GapsOk, ReachedOk, UpdatedOk, PlacedOk, WeaksOf, CopyHeader, CopyWeak, LinksWeak, ValidJob, WeakHeader, WeakPointer;
    var w := WeaksOf(c, s.objs);
    assert w[..|w|] == w;
    TouchedMember(c, s, w, x);
    forall i {:trigger w[i]} | 0 <= i < |w| ensures InTo(c, CopyHeader(s, w[i])) && InTo(c, CopyWeak(c, s, w[i])) {
      WeaksAreCopied(c, s.objs, w[i]);
      WeakPlaces(c, s, w[i]);
    }
    assert Rd(m, x) == Rd(s.m, x);
  }

  lemma FinalRoot(c: Job, s: State, m: Mem, x: int)
    requires Inv(c, s) && AllUpdated(c, s) && !c.lifting && x in c.roots
    requires var w := WeaksOf(c, s.objs); WeaksUpdated(c, s, w, |w|, m)
    ensures Rd(m, x) == Forward(c, s.fwd, Rd(c.m0, x))
  {
    hide OldOk, NewOk, RestOk, GapsOk, ReachedOk, UpdatedOk, PlacedOk, WeaksOf, CopyHeader, CopyWeak, LinksWeak, Forward, ValidFrom, ValidForwarded, WeakHeader, WeakPointer;
    var w := WeaksOf(c, s.objs);
    assert w[..|w|] == w;
    TouchedMember(c, s, w, x);
    forall i {:trigger w[i]} | 0 <= i < |w| ensures InTo(c, CopyHeader(s, w[i])) && InTo(c, CopyWeak(c, s, w[i])) {
      WeaksAreCopied(c, s.objs, w[i]);
      WeakPlaces(c, s, w[i]);
    }
    assert Rd(m, x) == Rd(s.m, x);
  }

  lemma FinalCell(c: Job, s: State, m: Mem, p: int, x: int)
    requires Inv(c, s) && AllUpdated(c, s) && !c.lifting && p in s.objs && InExtent(c.e, c.g, p, x) && !Scratch(c, p, x)
    requires var w := WeaksOf(c, s.objs); WeaksUpdated(c, s, w, |w|, m)
    ensures p in s.fwd && Rd(m, x + (s.fwd[p] - p)) == FinalWord(c, s, p, x)
  {
    hide OldOk, RootsOk, RestOk, GapsOk, ReachedOk, UpdatedOk, PlacedOk, WeaksOf, CopyHeader, CopyWeak, Forward, ValidJob, WeakHeader, WeakPointer, LinksWeak, Scratch, InObject, TouchedCells, WeakCell, NewWord, AllUpdated;
    InFwd(c, s, p);
    var w := WeaksOf(c, s.objs);
    assert w[..|w|] == w;
    WeaksAreCopied(c, s.objs, p);
    if LinksWeak(c, p) && (x == p - HEADER_SIZE || x == WeakCell(c.e, p)) {
      WeakPlaces(c, s, p);
      var i :| 0 <= i < |w| && w[i] == p;
    } else {
      NotTouched(c, s, p, x);
      assert Rd(m, x + (s.fwd[p] - p)) == Rd(s.m, x + (s.fwd[p] - p));
      SlotsUpdated(c, s, p, x);
    }
  }

  lemma NotTouched(c: Job, s: State, p: int, x: int)
    requires Inv(c, s) && p in s.objs && p in s.fwd && InExtent(c.e, c.g, p, x) && !Scratch(c, p, x)
    requires !(LinksWeak(c, p) && (x == p - HEADER_SIZE || x == WeakCell(c.e, p)))
    ensures x + (s.fwd[p] - p) !in TouchedCells(c, s, WeaksOf(c, s.objs))
  {
    hide OldOk, NewOk, RootsOk, RestOk, GapsOk, ReachedOk, UpdatedOk, PlacedOk, WeaksOf, CopyHeader, CopyWeak, LinksWeak, ValidFrom, ValidSlots, ValidForwarded, Scratch, InObject, TouchedCells, WeakCell;
    var w := WeaksOf(c, s.objs);
    var y := x + (s.fwd[p] - p);
    TouchedMember(c, s, w, y);
    InFwd(c, s, p);
    forall i {:trigger w[i]} | 0 <= i < |w| ensures y != CopyHeader(s, w[i]) && y != CopyWeak(c, s, w[i]) {
      WeaksAreCopied(c, s.objs, w[i]);
      WeakPlaces(c, s, w[i]);
      if y == CopyHeader(s, w[i]) { CopyCellsApart(c, s, p, x, w[i], w[i] - HEADER_SIZE); }
      if y == CopyWeak(c, s, w[i]) { CopyCellsApart(c, s, p, x, w[i], WeakCell(c.e, w[i])); }
    }
  }

  /** In a finished collection the updated slots of a copy are all its slots. */
  lemma SlotsUpdated(c: Job, s: State, p: int, x: int)
    requires Inv(c, s) && AllUpdated(c, s) && !c.lifting && p in s.objs && p in s.fwd && InExtent(c.e, c.g, p, x) && !Scratch(c, p, x)
    ensures Rd(s.m, x + (s.fwd[p] - p)) == if x in Traced(c.g[p], p) then Forward(c, s.fwd, Rd(c.m0, x)) else Rd(c.m0, x)
  {
    hide OldOk, RootsOk, RestOk, GapsOk, ReachedOk, PlacedOk, Scratch, InObject, Forward, ValidForwarded, Nodes, Traced;
    if x in s.updated && x !in c.roots {
      assert Slot(c, s, x);
      var q :| q in s.objs && q in c.g && x in Traced(c.g[q], q);
      TracedInExtent(c, q, x);
    }
  }

  /** Distinct objects have distinct copies, and nothing that is traced points
      into from-space any more. */
  lemma NothingLeftBehind(c: Job, s: State, m: Mem)
    requires Inv(c, s) && AllUpdated(c, s) && Collected(c, s, m)
    ensures forall p, q :: p in s.objs && q in s.objs && p != q ==> p in s.fwd && q in s.fwd && s.fwd[p] != s.fwd[q]
    ensures forall x {:trigger x in c.roots} :: x in c.roots ==> !Takes(c, Rd(m, x))
    ensures forall p, x {:trigger x in Traced(c.g[p], p)} :: p in s.objs && p in c.g && p in s.fwd && x in Traced(c.g[p], p) ==>
      !Takes(c, Rd(m, x + (s.fwd[p] - p)))
  {
    hide Inv, Collected, Takes, Traced, AllUpdated;
    forall p, q | p in s.objs && q in s.objs && p != q ensures p in s.fwd && q in s.fwd && s.fwd[p] != s.fwd[q] {
      CopiesDiffer(c, s, p, q);
    }
    forall x {:trigger x in c.roots} | x in c.roots ensures !Takes(c, Rd(m, x)) {
      RootOfCollected(c, s, m, x);
      ForwardLeaves(c, s, 0, x);
    }
    forall p, x {:trigger x in Traced(c.g[p], p)} | p in s.objs && p in c.g && p in s.fwd && x in Traced(c.g[p], p)
      ensures !Takes(c, Rd(m, x + (s.fwd[p] - p)))
    {
      SlotOfCollected(c, s, m, p, x);
      ForwardLeaves(c, s, p, x);
    }
  }

  lemma RootOfCollected(c: Job, s: State, m: Mem, x: int)
    requires Collected(c, s, m) && x in c.roots
    ensures Rd(m, x) == Forward(c, s.fwd, Rd(c.m0, x))
  {
    hide PlacedOk, Packed, Forward, FinalWord;
  }

  lemma SlotOfCollected(c: Job, s: State, m: Mem, p: int, x: int)
    requires Inv(c, s) && Collected(c, s, m) && p in s.objs && p in c.g && p in s.fwd && x in Traced(c.g[p], p)
    ensures Rd(m, x + (s.fwd[p] - p)) == Forward(c, s.fwd, Rd(c.m0, x))
  {
    hide OldOk, NewOk, RootsOk, RestOk, GapsOk, ReachedOk, UpdatedOk, PlacedOk, Packed, Forward, Scratch, InObject, Nodes, WeakCell;
    TracedInExtent(c, p, x);
  }

  lemma ForwardLeaves(c: Job, s: State, p: int, x: int)
    requires Inv(c, s) && AllUpdated(c, s)
    requires x in c.roots || (p in c.g && p in s.objs && x in Traced(c.g[p], p))
    ensures !Takes(c, Forward(c, s.fwd, Rd(c.m0, x)))
  {
    hide OldOk, NewOk, RootsOk, RestOk, GapsOk, ReachedOk, InObject, Nodes, Traced, SizeOf;
    assert x in s.updated;
    var w := Rd(c.m0, x);
    if Takes(c, w) && w !in c.forwarded {
      DataInExtent(c.e, c.m0, c.g, w);
      var i := CopyCell(c, s, w, w);
    }
  }

  /** A weak pointer into from-space follows its target if that was copied and
      is cleared otherwise. */
  lemma WeakFate(c: Job, s: State, p: int)
    requires Inv(c, s) && ValidWeaks(c) && !c.copyImmutable && LinksWeak(c, p) && Takes(c, WeakTarget(c, p))
    ensures var w := WeakTarget(c, p);
      && WeakPointer(c, s, p) == (if w in s.fwd then s.fwd[w] else BOGUS_OBJPTR)
      && WeakHeader(c, s, p) == (if w in s.fwd then Rd(c.m0, p - HEADER_SIZE) else WEAK_GONE_HEADER)
  {
    hide Inv, LinksWeak, WeakTarget, Takes;
    OriginalReads(c, s, WeakTarget(c, p));
  }
}
