/** Cheney's copying collection of a local heap (forward.c, foreach.c,
    cheney-copy.c). */
module CheneyCopy {
  import opened Memory
  import opened Objects
  import opened Layout
  import opened MarkGraph
  import opened CopyJob
  import opened CopySteps
  import opened CopyScan

  const WEAK_GONE_TYPE_INDEX := 2

  // ------------------------------------------------------------ the chain of weaks

  predicate Follows(c: Job, w: int) { IsObjptr(w) && (!c.minor || Takes(c, w)) }

  /** A weak object whose pointer a collection has to look at afterwards. */
  ghost predicate LinksWeak(c: Job, p: int) {
    p in c.g && c.g[p].t.tag == WeakTag && c.g[p].t.numObjptrs == 1 && Follows(c, Rd(c.m0, WeakCell(c.e, p)))
  }

  /** The weak objects among those copied, latest first. */
  ghost function WeaksOf(c: Job, objs: seq<int>): seq<int> {
    if objs == [] then []
    else (if LinksWeak(c, objs[|objs| - 1]) then [objs[|objs| - 1]] else []) + WeaksOf(c, objs[..|objs| - 1])
  }

  /** Copies are chained through their link fields, from weaks to last. */
  ghost predicate WeakChain(c: Job, s: State, linked: seq<int>, weaks: int, last: int) {
    && (forall i {:trigger linked[i]} :: 0 <= i < |linked| ==> linked[i] in s.fwd && linked[i] in s.objs && LinksWeak(c, linked[i]))
    && weaks == (if linked == [] then last else LinkOf(c, s, linked[0]))
    && forall i {:trigger linked[i]} :: 0 <= i < |linked| ==>
         Rd(s.m, LinkOf(c, s, linked[i])) == if i + 1 < |linked| then LinkOf(c, s, linked[i + 1]) else last
  }

  ghost function LinkOf(c: Job, s: State, p: int): int {
    if p in s.fwd then LinkCell(c.e, s.fwd[p]) else 0
  }

  lemma WeaksOfSnoc(c: Job, objs: seq<int>, p: int)
    ensures WeaksOf(c, objs + [p]) == (if LinksWeak(c, p) then [p] else []) + WeaksOf(c, objs)
  {
    assert (objs + [p])[..|objs|] == objs;
  }

  lemma {:induction false} WeaksAreCopied(c: Job, objs: seq<int>, p: int)
    ensures p in WeaksOf(c, objs) <==> p in objs && LinksWeak(c, p)
    decreases |objs|
  {
    hide LinksWeak;
    if objs != [] {
      var front := objs[..|objs| - 1];
      WeaksAreCopied(c, front, p);
      assert objs == front + [objs[|objs| - 1]];
    }
  }

  /** The link cell of a copied weak object is where no slot and no other copy is. */
  lemma LinkPlace(c: Job, s: State, p: int)
    requires Inv(c, s) && p in s.objs && LinksWeak(c, p)
    ensures p in s.fwd && p !in c.forwarded && InExtent(c.e, c.g, p, LinkCell(c.e, p)) && Scratch(c, p, LinkCell(c.e, p))
    ensures LinkOf(c, s, p) == LinkCell(c.e, p) + (s.fwd[p] - p) && InTo(c, LinkOf(c, s, p)) && LinkOf(c, s, p) < s.back
  {
    hide OldOk, NewOk, RootsOk, RestOk, GapsOk, ReachedOk, UpdatedOk, InObject, Apart, Nodes, OffsetOfWeak;
    CellsInExtent(c.e, c.m0, c.g, p);
    CopiedIsNew(c, s, p);
    var i := CopyCell(c, s, p, LinkCell(c.e, p));
  }

  lemma ChainAfterCopy(c: Job, s: State, weaks: int, last: int, p: int, m': Mem, weaks': int)
    requires CanCopy(c, s, p, s.back) && CopiedTo(c, s.m, p, s.back, m')
    requires WeakChain(c, s, WeaksOf(c, s.objs), weaks, last)
    requires var n := s.back + HeaderOf(c, p);
      if LinksWeak(c, p) then weaks' == LinkCell(c.e, n) && Rd(m', LinkCell(c.e, n)) == weaks else weaks' == weaks
    ensures var s' := AfterCopy(c, s, p, s.back, m'); WeakChain(c, s', WeaksOf(c, s'.objs), weaks', last)
  {
    hide Inv, CopiedTo, LinksWeak, SizeOf, LinkCell, Reaches, WeaksOf, WeakChain, LinkOf, HeaderOf;
    var s' := AfterCopy(c, s, p, s.back, m');
    var linked := WeaksOf(c, s.objs);
    WeaksOfSnoc(c, s.objs, p);
    forall i {:trigger linked[i]} | 0 <= i < |linked| ensures linked[i] in s.objs && LinksWeak(c, linked[i]) {
      WeaksAreCopied(c, s.objs, linked[i]);
    }
    forall i {:trigger linked[i]} | 0 <= i < |linked| ensures SameLink(c, s, s', linked[i]) {
      LinkKeptByCopy(c, s, p, m', linked[i]);
    }
    if LinksWeak(c, p) {
      LinkIs(c, s', p);
      ChainCons(c, s, s', linked, weaks, last, p);
    } else {
      assert [] + linked == linked;
      ChainFrame(c, s, s', linked, weaks, last);
    }
  }

  lemma LinkIs(c: Job, s: State, p: int)
    requires p in s.fwd
    ensures LinkOf(c, s, p) == LinkCell(c.e, s.fwd[p])
  {
  }

  ghost predicate SameLink(c: Job, s: State, s': State, p: int) {
    p in s'.fwd && LinkOf(c, s', p) == LinkOf(c, s, p) && Rd(s'.m, LinkOf(c, s, p)) == Rd(s.m, LinkOf(c, s, p))
  }

  lemma ChainFrame(c: Job, s: State, s': State, linked: seq<int>, weaks: int, last: int)
    requires WeakChain(c, s, linked, weaks, last) && |s.objs| <= |s'.objs| && s.objs == s'.objs[..|s.objs|]
    requires forall i {:trigger linked[i]} :: 0 <= i < |linked| ==> SameLink(c, s, s', linked[i])
    ensures WeakChain(c, s', linked, weaks, last)
  {
    hide LinksWeak, LinkOf;
  }

  lemma ChainCons(c: Job, s: State, s': State, linked: seq<int>, weaks: int, last: int, p: int)
    requires WeakChain(c, s, linked, weaks, last) && |s.objs| <= |s'.objs| && s.objs == s'.objs[..|s.objs|]
    requires forall i {:trigger linked[i]} :: 0 <= i < |linked| ==> SameLink(c, s, s', linked[i])
    requires p in s'.fwd && p in s'.objs && LinksWeak(c, p) && Rd(s'.m, LinkOf(c, s', p)) == weaks
    ensures WeakChain(c, s', [p] + linked, LinkOf(c, s', p), last)
  {
    hide LinksWeak, LinkOf;
    var linked' := [p] + linked;
    ChainFrame(c, s, s', linked, weaks, last);
    forall i {:trigger linked'[i]} | 0 <= i < |linked'|
      ensures linked'[i] in s'.fwd && linked'[i] in s'.objs && LinksWeak(c, linked'[i])
      ensures Rd(s'.m, LinkOf(c, s', linked'[i])) == if i + 1 < |linked'| then LinkOf(c, s', linked'[i + 1]) else last
    {
      if i > 0 { assert linked'[i] == linked[i - 1]; }
      assert i < |linked| ==> linked'[i + 1] == linked[i];
    }
  }

  lemma LinkKeptByCopy(c: Job, s: State, p: int, m': Mem, q: int)
    requires CanCopy(c, s, p, s.back) && CopiedTo(c, s.m, p, s.back, m') && q in s.objs && LinksWeak(c, q)
    ensures SameLink(c, s, AfterCopy(c, s, p, s.back, m'), q)
  {
    hide OldOk, NewOk, RootsOk, RestOk, GapsOk, ReachedOk, UpdatedOk, InObject, Nodes, OffsetOfWeak, LinksWeak, Reaches, PlacedOk, SizeOf;
    LinkPlace(c, s, q);
    CellsInExtent(c.e, c.m0, c.g, p);
    DataInExtent(c.e, c.m0, c.g, p);
    var y := LinkOf(c, s, q);
    assert y != p && y != p - HEADER_SIZE;
  }

  lemma ChainAfterUpdate(c: Job, s: State, linked: seq<int>, weaks: int, last: int, p: int, x: int, m': Mem)
    requires CanUpdate(c, s, p, x, m') && WeakChain(c, s, linked, weaks, last)
    ensures WeakChain(c, AfterUpdate(s, x, m'), linked, weaks, last)
  {
    hide Inv, UpdatedTo, LinksWeak, LinkCell, SlotOf;
    var s' := AfterUpdate(s, x, m');
    forall i {:trigger linked[i]} | 0 <= i < |linked|
      ensures Rd(m', LinkOf(c, s, linked[i])) == Rd(s.m, LinkOf(c, s, linked[i]))
    {
      LinkKeptByUpdate(c, s, p, x, m', linked[i]);
    }
  }

  lemma LinkKeptByUpdate(c: Job, s: State, p: int, x: int, m': Mem, q: int)
    requires CanUpdate(c, s, p, x, m') && q in s.objs && LinksWeak(c, q)
    ensures Rd(m', LinkOf(c, s, q)) == Rd(s.m, LinkOf(c, s, q))
  {
    hide OldOk, NewOk, RootsOk, RestOk, GapsOk, ReachedOk, UpdatedOk, InObject, Nodes, OffsetOfWeak, LinksWeak, PlacedOk, SizeOf, ValidJob, Here, SlotOf, Scratch, LinkOf;
    LinkPlace(c, s, q);
    SlotHere(c, s, p, x);
    HereIsRootOrTo(c, s, p, x);
    if x !in c.roots && Here(c, s, p, x) == LinkOf(c, s, q) {
      JobParts(c);
      CopyCellsApart(c, s, p, x, q, LinkCell(c.e, q));
    }
  }

  lemma JobParts(c: Job)
    requires ValidJob(c)
    ensures ValidFrom(c) && ValidSlots(c) && ValidForwarded(c)
  {
  }

  // -------------------------------------------------------------- what memory says

  /** An original before it moves, and the trace it leaves. */
  lemma OriginalReads(c: Job, s: State, w: int)
    requires Inv(c, s) && Takes(c, w) && (w in c.g || w in c.forwarded)
    ensures w in s.fwd && (w in c.g ==> !Keeps(c, w)) ==> Rd(s.m, w - HEADER_SIZE) == FORWARDED && Rd(s.m, w) == s.fwd[w]
    ensures w !in s.fwd || (w in c.g && Keeps(c, w)) ==> w in c.g && NotMoved(c, s, w)
  {
    hide NewOk, RootsOk, RestOk, GapsOk, ReachedOk, UpdatedOk, Reaches, Free, Keeps, NotMoved;
    if w in c.g {
      OldReads(c, s, w);
    } else {
      ForwardedReads(c, s, w) by { RestOfMemory(c, s); }
    }
  }

  lemma RestOfMemory(c: Job, s: State)
    requires Inv(c, s)
    ensures RestOk(c, s)
  {
  }

  ghost predicate NotMoved(c: Job, s: State, w: int)
    requires w in c.g
  {
    var h := Rd(s.m, w - HEADER_SIZE); var t := c.g[w].t;
    && h == Rd(c.m0, w - HEADER_SIZE) && h != FORWARDED && !IsLifted(h) && TypeOf(c.e, h) == t
    && t.tag in {NormalTag, WeakTag, ArrayTag} && (t.tag == ArrayTag ==> Length(Rd(s.m, w - 16)) == c.g[w].len)
    && SizeOf(c, w) == HeaderBytes(t) + (if t.tag == ArrayTag then ArrayNoHeader(c.e, c.g[w].len, t) else FixedBytes(t))
    && HeaderOf(c, w) == HeaderBytes(t)
  }

  /** The bytes of an object without its header. */
  function BodyBytes(e: Model, m: Mem, w: int, t: ObjectType): int {
    if t.tag == ArrayTag then ArrayNoHeader(e, Length(Rd(m, w - 16)), t) else FixedBytes(t)
  }

  lemma SpaceIs(c: Job, s: State, w: int)
    requires w in c.g && NotMoved(c, s, w)
    ensures var h := Rd(s.m, w - HEADER_SIZE); var t := c.g[w].t;
      TypeOf(c.e, h) == t && h != FORWARDED && HeaderBytes(t) == HeaderOf(c, w) && HeaderBytes(t) + BodyBytes(c.e, s.m, w, t) == SizeOf(c, w)
  {
    hide ArrayNoHeader, SizeOf, HeaderOf, TypeOf, IsLifted;
  }

  lemma OldReads(c: Job, s: State, w: int)
    requires ValidFrom(c) && OldOk(c, s) && w in c.g
    ensures w in s.fwd && !Keeps(c, w) ==> Rd(s.m, w - HEADER_SIZE) == FORWARDED && Rd(s.m, w) == s.fwd[w]
    ensures w !in s.fwd || Keeps(c, w) ==> NotMoved(c, s, w)
  {
    hide InObject, Apart, TypeIndex, Counter, ArrayNoHeader, FixedBytes, OldOk, IsLifted, Keeps;
    CellsInExtent(c.e, c.m0, c.g, w);
    DataInExtent(c.e, c.m0, c.g, w);
    assert IsNode(c.e, c.m0, w, c.g[w]);
    HeaderNotForwarded(c, w);
    OldCell(c, s, w, w - HEADER_SIZE);
    OldCell(c, s, w, w);
    if c.g[w].t.tag == ArrayTag { OldCell(c, s, w, w - 16); }
  }

  lemma OldCell(c: Job, s: State, p: int, x: int)
    requires OldOk(c, s) && InExtent(c.e, c.g, p, x)
    ensures Rd(s.m, x) == OldWord(c, s, p, x)
  {
  }

  lemma ForwardedReads(c: Job, s: State, w: int)
    requires ValidForwarded(c) && RestOk(c, s) && PlacedOk(c, s) && w in c.forwarded
    ensures w in s.fwd && Rd(s.m, w - HEADER_SIZE) == FORWARDED && Rd(s.m, w) == s.fwd[w]
  {
    hide Free;
  }

  lemma SlotLeads(c: Job, s: State, p: int, x: int)
    requires Inv(c, s) && SlotOf(c, s, p, x)
    ensures Leads(c, x)
  {
    hide OldOk, NewOk, RootsOk, RestOk, GapsOk, PlacedOk, ReachedOk, UpdatedOk, Leads, Traced, ValidFrom;
  }

  /** A slot that is about to be forwarded shows that its target can be reached. */
  lemma SlotReaches(c: Job, s: State, p: int, x: int)
    requires Inv(c, s) && SlotOf(c, s, p, x) && Takes(c, Rd(c.m0, x)) && Rd(c.m0, x) in c.g
    ensures Reaches(c, Rd(c.m0, x))
  {
    hide OldOk, NewOk, RootsOk, RestOk, GapsOk, PlacedOk, UpdatedOk, Traced, Reaches, Takes;
    var w := Rd(c.m0, x);
    if x in c.roots {
      RootReaches(c, w);
    } else {
      assert Points(c, p, w);
      PointerReaches(c, p, w);
    }
  }

  /** From-space and the free part of to-space do not overlap, so memcpy copies
      the object as it is. */
  lemma RangesApart(c: Job, s: State, w: int, start: int)
    requires CanCopy(c, s, w, start)
    ensures var from := w - HeaderOf(c, w); from + SizeOf(c, w) <= start || start + SizeOf(c, w) <= from
    ensures 0 < SizeOf(c, w)
  {
    hide OldOk, NewOk, RootsOk, RestOk, GapsOk, ReachedOk, UpdatedOk, Reaches, ValidSlots, ValidForwarded, Nodes, Apart, HeaderBytes, SizeByType, StartOr;
    var from, size := w - HeaderOf(c, w), SizeOf(c, w);
    SizeAtLeastHeader(c, w);
    var x := if from < start then start else from;
    assert x < from + size && x < start + size ==> InExtent(c.e, c.g, w, x) && InTo(c, x);
  }

  ghost predicate CopiedWords(m: Mem, to: int, from: int, size: nat, m': Mem) {
    forall x {:trigger Rd(m', x)} :: Rd(m', x) == if to <= x < to + size then Rd(m, x + (from - to)) else Rd(m, x)
  }

  /** memcpy, perhaps the link of a weak object, and the forwarding pointer. */
  ghost predicate Evacuation(c: Job, s: State, w: int, start: int, m1: Mem, m2: Mem, m': Mem) {
    && CanCopy(c, s, w, start) && 0 <= SizeOf(c, w)
    && CopiedWords(s.m, start, w - HeaderOf(c, w), SizeOf(c, w), m1)
    && (forall x {:trigger Rd(m2, x)} :: Scratch(c, w, x - start + (w - HeaderOf(c, w))) || Rd(m2, x) == Rd(m1, x))
    && m' == if Keeps(c, w) then m2 else m2[w - HEADER_SIZE := FORWARDED][w := start + HeaderOf(c, w)]
  }

  /** m' is m after p has been copied to start as it is. */
  ghost predicate CopiedAsIs(c: Job, m: Mem, p: int, start: int, m': Mem)
    requires p in c.g
  {
    var from := p - HeaderOf(c, p);
    && (forall x {:trigger Rd(m', x)} :: start <= x < start + SizeOf(c, p) && !Scratch(c, p, x - start + from) ==>
          Rd(m', x) == Rd(c.m0, x - start + from))
    && (forall x {:trigger Rd(m', x)} :: !(start <= x < start + SizeOf(c, p)) ==>
          Rd(m', x) == if x == p - HEADER_SIZE && !Keeps(c, p) then FORWARDED
                       else if x == p && !Keeps(c, p) then start + HeaderOf(c, p)
                       else Rd(m, x))
  }

  lemma EvacuatedTo(c: Job, s: State, w: int, start: int, m1: Mem, m2: Mem, m': Mem)
    requires Evacuation(c, s, w, start, m1, m2, m')
    ensures w in c.g && CopiedAsIs(c, s.m, w, start, m')
    ensures var l := LinkCell(c.e, start + HeaderOf(c, w)); c.g[w].t.tag == WeakTag ==> Rd(m', l) == Rd(m2, l)
  {
    hide Evacuation, CanCopy, SizeOf, HeaderOf, Scratch, LinkCell, CopiedWords, Reaches, Keeps;
    EvacuationParts(c, s, w, start, m1, m2, m');
    var from, size, hb := w - HeaderOf(c, w), SizeOf(c, w), HeaderOf(c, w);
    forall x {:trigger Rd(m', x)} | start <= x < start + size && !Scratch(c, w, x - start + from)
      ensures Rd(m', x) == Rd(c.m0, x - start + from)
    {
      EvacuatedInside(c, s, w, start, m1, m2, m', x);
    }
    forall x {:trigger Rd(m', x)} | !(start <= x < start + size)
      ensures Rd(m', x) == if x == w - HEADER_SIZE && !Keeps(c, w) then FORWARDED else if x == w && !Keeps(c, w) then start + hb else Rd(s.m, x)
    {
      EvacuatedOutside(c, s, w, start, m1, m2, m', x);
    }
  }

  lemma EvacuationParts(c: Job, s: State, w: int, start: int, m1: Mem, m2: Mem, m': Mem)
    requires Evacuation(c, s, w, start, m1, m2, m')
    ensures w in c.g
    ensures var l := LinkCell(c.e, start + HeaderOf(c, w)); c.g[w].t.tag == WeakTag ==> Rd(m', l) == Rd(m2, l)
  {
    hide OldOk, NewOk, RootsOk, RestOk, GapsOk, ReachedOk, UpdatedOk, Reaches, ValidSlots, ValidForwarded, Nodes, Apart, SizeOf, HeaderOf, InObject, CopiedWords, PlacedOk, Scratch, InTo, ValidModel, LinkCell, Keeps;
    CellsInExtent(c.e, c.m0, c.g, w);
    DataInExtent(c.e, c.m0, c.g, w);
    assert !InTo(c, w) && !InTo(c, w - HEADER_SIZE);
    if c.g[w].t.tag == WeakTag {
      LinkInside(c, s, w, start);
      var l := LinkCell(c.e, start + HeaderOf(c, w));
      assert l != w && l != w - HEADER_SIZE;
    }
  }

  lemma EvacuatedInside(c: Job, s: State, w: int, start: int, m1: Mem, m2: Mem, m': Mem, x: int)
    requires Evacuation(c, s, w, start, m1, m2, m') && w in c.g
    requires start <= x < start + SizeOf(c, w) && !Scratch(c, w, x - start + (w - HeaderOf(c, w)))
    ensures Rd(m', x) == Rd(c.m0, x - start + (w - HeaderOf(c, w)))
  {
    hide OldOk, NewOk, RootsOk, RestOk, GapsOk, ReachedOk, UpdatedOk, Reaches, ValidSlots, ValidForwarded, Nodes, Apart, SizeOf, HeaderOf, InObject, CopiedWords, PlacedOk, Scratch, InTo, ValidModel, Keeps;
    CellsInExtent(c.e, c.m0, c.g, w);
    DataInExtent(c.e, c.m0, c.g, w);
    NewCellsApart(c, s, w, start, w);
    NewCellsApart(c, s, w, start, w - HEADER_SIZE);
    assert Rd(m2, x) == Rd(m1, x);
    CopiedWord(c, s, w, start, m1, x);
  }

  lemma EvacuatedOutside(c: Job, s: State, w: int, start: int, m1: Mem, m2: Mem, m': Mem, x: int)
    requires Evacuation(c, s, w, start, m1, m2, m') && w in c.g && !(start <= x < start + SizeOf(c, w))
    ensures Rd(m', x) == if x == w - HEADER_SIZE && !Keeps(c, w) then FORWARDED else if x == w && !Keeps(c, w) then start + HeaderOf(c, w) else Rd(s.m, x)
  {
    hide OldOk, NewOk, RootsOk, RestOk, GapsOk, ReachedOk, UpdatedOk, Reaches, ValidJob, SizeOf, HeaderOf, CopiedWords, PlacedOk, Scratch, Keeps;
    ScratchInside(c, s, w, start, x);
    assert Rd(m2, x) == Rd(m1, x);
    UncopiedWord(s.m, start, w - HeaderOf(c, w), SizeOf(c, w), m1, x);
  }

  lemma UncopiedWord(m: Mem, to: int, from: int, size: nat, m': Mem, x: int)
    requires CopiedWords(m, to, from, size, m') && !(to <= x < to + size)
    ensures Rd(m', x) == Rd(m, x)
  {
  }

  lemma CopiedWord(c: Job, s: State, w: int, start: int, m1: Mem, x: int)
    requires CanCopy(c, s, w, start) && 0 <= SizeOf(c, w) && CopiedWords(s.m, start, w - HeaderOf(c, w), SizeOf(c, w), m1)
    requires start <= x < start + SizeOf(c, w)
    ensures Rd(m1, x) == Rd(c.m0, x - start + (w - HeaderOf(c, w)))
  {
    hide NewOk, RootsOk, RestOk, GapsOk, ReachedOk, UpdatedOk, Reaches, ValidJob, OldOk, PlacedOk;
    var y := x - start + (w - HeaderOf(c, w));
    assert InExtent(c.e, c.g, w, y);
    OldCell(c, s, w, y);
  }

  lemma ScratchInside(c: Job, s: State, w: int, start: int, x: int)
    requires CanCopy(c, s, w, start)
    ensures Scratch(c, w, x - start + (w - HeaderOf(c, w))) ==> start <= x < start + SizeOf(c, w)
  {
    hide NewOk, RootsOk, RestOk, GapsOk, ReachedOk, UpdatedOk, Reaches, ValidSlots, ValidForwarded, OldOk, PlacedOk, OffsetOfWeak;
    CellsInExtent(c.e, c.m0, c.g, w);
  }

  lemma LinkInside(c: Job, s: State, w: int, start: int)
    requires CanCopy(c, s, w, start) && c.g[w].t.tag == WeakTag
    ensures var l := LinkCell(c.e, start + HeaderOf(c, w));
      start <= l < start + SizeOf(c, w) && Scratch(c, w, l - start + (w - HeaderOf(c, w))) && InTo(c, l)
  {
    hide NewOk, RootsOk, RestOk, GapsOk, ReachedOk, UpdatedOk, Reaches, ValidSlots, ValidForwarded, OldOk, OffsetOfWeak, Apart, Nodes;
    CellsInExtent(c.e, c.m0, c.g, w);
  }

  lemma MemcpyWords(m: Mem, to: int, from: int, size: nat, m1: Mem)
    requires 0 <= from - to || from - to + size <= 0
    requires m1 == CopyCells(m, to, from - to, size)
    ensures CopiedWords(m, to, from, size, m1)
  {
    hide CopyCells;
  }

  lemma TargetReads(c: Job, s: State, p: int, x: int)
    requires Inv(c, s) && SlotOf(c, s, p, x) && x !in s.updated && Takes(c, Rd(c.m0, x))
    ensures Rd(s.m, Here(c, s, p, x)) == Rd(c.m0, x)
    ensures var w := Rd(c.m0, x);
      && (w in s.fwd && (w in c.g ==> !Keeps(c, w)) ==> Rd(s.m, w - HEADER_SIZE) == FORWARDED && Rd(s.m, w) == s.fwd[w])
      && (w !in s.fwd || (w in c.g && Keeps(c, w)) ==> w in c.g && NotMoved(c, s, w) && Reaches(c, w))
  {
    hide Inv, Reaches, SlotOf, Here, Takes, NotMoved, Keeps;
    SlotReads(c, s, p, x);
    SlotLeads(c, s, p, x);
    OriginalReads(c, s, Rd(c.m0, x));
    if Rd(c.m0, x) in c.g { SlotReaches(c, s, p, x); }
  }
}
