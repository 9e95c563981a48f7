/** A minor collection: the nursery is copied behind the old generation, from the
    global roots and the slots on marked cards (minorCheneyCopyGC). */
module MinorCollection {
  import opened Sequences
  import opened Memory
  import opened Objects
  import opened Layout
  import opened CopyJob
  import opened CheneyWeaks
  import opened CrossMap
  import opened CardScan
  import opened FillGap
  import CheneyCopy
  import CopySteps
  import CopyScan
  import Cheney

  /** x is a pointer slot of old object j. */
  ghost predicate IsOldSlot(e: Model, m: Mem, heapStart: int, bs: seq<int>, j: int, x: int) {
    0 <= j < |bs| - 1 && x in ObjectSlots(e, m, heapStart + bs[j])
  }

  /** The card that markCard marks for an address. */
  function CardOfAddress(heapStart: int, x: int): int { (x - heapStart) / CARD_SIZE }

  /** What the write barrier keeps up: every slot of an old object that leads
      into the nursery is on a marked card. */
  ghost predicate BarrierKept(c: Job, heapStart: int, bs: seq<int>, cards: seq<int>) {
    forall j, x {:trigger IsOldSlot(c.e, c.m0, heapStart, bs, j, x)} ::
      IsOldSlot(c.e, c.m0, heapStart, bs, j, x) && Takes(c, Rd(c.m0, x)) ==>
        0 <= CardOfAddress(heapStart, x) < |cards| && cards[CardOfAddress(heapStart, x)] != 0
  }

  /** A slot lies in its object, past the header, and so on a card its object
      overlaps. */
  lemma SlotOnCard(e: Model, m: Mem, heapStart: int, bs: seq<int>, j: int, x: int)
    requires ValidModel(e) && Boundaries(e, m, heapStart, bs) && AllWalkable(e, m, heapStart, bs) && IsOldSlot(e, m, heapStart, bs, j, x)
    requires IsObjptr(heapStart + bs[j])
    ensures heapStart + bs[j] <= x < heapStart + bs[j + 1]
    ensures Overlaps(bs, j, CardOfAddress(heapStart, x))
  {
    hide ArrayNoHeader, Slots, Boundaries, TypeOf, Walkable, Spaced;
    assert Walkable(e, m, heapStart + bs[j]);
    SlotWithin(e, m, heapStart + bs[j], x);
    ObjectEnds(e, m, heapStart, bs, j);
    var c := CardOfAddress(heapStart, x);
    assert x - heapStart == CARD_SIZE * c + (x - heapStart) % CARD_SIZE;
  }

  lemma ObjectEnds(e: Model, m: Mem, heapStart: int, bs: seq<int>, j: int)
    requires Boundaries(e, m, heapStart, bs) && 0 <= j < |bs| - 1
    ensures bs[j + 1] == bs[j] + SizeofObject(e, m, AdvanceToObjectData(m, heapStart + bs[j]))
  {
    hide SizeofObject;
    assert Object(e, m, heapStart, bs, j);
  }

  lemma SlotWithin(e: Model, m: Mem, start: int, x: int)
    requires ValidModel(e) && Walkable(e, m, start) && x in ObjectSlots(e, m, start) && IsObjptr(start)
    ensures start <= x < start + SizeofObject(e, m, AdvanceToObjectData(m, start))
    ensures Spaced(ObjectSlots(e, m, start), start, start + SizeofObject(e, m, AdvanceToObjectData(m, start)))
  {
    hide ArrayNoHeader, Slots, ValidModel;
    var p := AdvanceToObjectData(m, start);
    var h := Rd(m, p - HEADER_SIZE);
    var t := TypeOf(e, h);
    WalkableData(e, m, start);
    SlotsSpaced(e, t, p, Length(Rd(m, p - 16)), Length(Rd(m, p)));
    InSpaced(Slots(t, p, Length(Rd(m, p - 16))), p, start + SizeofObject(e, m, p), x);
  }

  lemma WalkableData(e: Model, m: Mem, start: int)
    requires Walkable(e, m, start) && IsObjptr(start)
    ensures var p := AdvanceToObjectData(m, start);
      IsObjptr(p) && start <= p
  {
    hide TypeOf, ValidType;
  }

  lemma InSpaced(slots: seq<int>, lo: int, hi: int, x: int)
    requires Spaced(slots, lo, hi) && x in slots
    ensures lo <= x < hi
  {
  }

  /** An old generation that can be scanned. */
  ghost predicate Scannable(e: Model, m: Mem, heapStart: int, bs: seq<int>) {
    && ValidModel(e) && Boundaries(e, m, heapStart, bs) && AllWalkable(e, m, heapStart, bs) && IsObjptr(heapStart)
  }

  lemma BoundaryIsObjptr(e: Model, m: Mem, heapStart: int, bs: seq<int>, j: int)
    requires Scannable(e, m, heapStart, bs) && 0 <= j < |bs|
    ensures IsObjptr(heapStart + bs[j])
  {
    hide AllWalkable, Object, ValidModel;
  }

  /** The slots of different objects are different, as are those of one. */
  lemma {:induction false} OfferedOnce(e: Model, m: Mem, heapStart: int, bs: seq<int>, visited: seq<nat>)
    requires Scannable(e, m, heapStart, bs) && InOrder(visited)
    requires forall i {:trigger visited[i]} :: 0 <= i < |visited| ==> visited[i] < |bs| - 1
    ensures var offered := SlotsOf(e, m, heapStart, bs, visited);
      && Distinct(offered)
      && (forall x {:trigger x in offered} :: x in offered ==> exists j {:trigger IsOldSlot(e, m, heapStart, bs, j, x)} :: j in visited && IsOldSlot(e, m, heapStart, bs, j, x))
    decreases |visited|
  {
    hide Scannable, ObjectSlots;
    if visited != [] {
      var front, j := visited[..|visited| - 1], visited[|visited| - 1];
      assert forall i {:trigger front[i]} :: 0 <= i < |front| ==> front[i] == visited[i];
      OfferedOnce(e, m, heapStart, bs, front);
      var before, slots := SlotsOf(e, m, heapStart, bs, front), ObjectSlots(e, m, heapStart + bs[j]);
      forall x | x in before && x in slots ensures false {
        var i :| i in front && IsOldSlot(e, m, heapStart, bs, i, x);
        OneOwner(e, m, heapStart, bs, i, j, x);
      }
      SlotsDistinct(e, m, heapStart, bs, j);
      Joined(before, slots);
      forall x | x in before + slots ensures exists i {:trigger IsOldSlot(e, m, heapStart, bs, i, x)} :: i in visited && IsOldSlot(e, m, heapStart, bs, i, x) {
        if x in before {
          var i :| i in front && IsOldSlot(e, m, heapStart, bs, i, x);
          assert i in visited;
        } else {
          assert IsOldSlot(e, m, heapStart, bs, j, x);
        }
      }
    }
  }

  lemma Joined(a: seq<int>, b: seq<int>)
    requires Distinct(a) && Distinct(b) && forall x :: !(x in a && x in b)
    ensures Distinct(a + b)
  {
    var l := a + b;
    forall i, j | 0 <= i < j < |l| ensures l[i] != l[j] {
      if i < |a| <= j {
        assert l[i] in a && l[j] in b;
      }
    }
  }

  lemma SlotsDistinct(e: Model, m: Mem, heapStart: int, bs: seq<int>, j: int)
    requires Scannable(e, m, heapStart, bs) && 0 <= j < |bs| - 1
    ensures Distinct(ObjectSlots(e, m, heapStart + bs[j]))
  {
    hide Scannable, ObjectSlots, Boundaries;
    var slots := ObjectSlots(e, m, heapStart + bs[j]);
    if slots != [] {
      assert slots[0] in slots;
      BoundaryIsObjptr(e, m, heapStart, bs, j);
      WalkableAt(e, m, heapStart, bs, j);
      SlotWithin(e, m, heapStart + bs[j], slots[0]);
      SpacedIsDistinct(slots, heapStart + bs[j], heapStart + bs[j] + SizeofObject(e, m, AdvanceToObjectData(m, heapStart + bs[j])));
    }
  }

  lemma SpacedIsDistinct(slots: seq<int>, lo: int, hi: int)
    requires Spaced(slots, lo, hi)
    ensures Distinct(slots)
  {
  }

  lemma WalkableAt(e: Model, m: Mem, heapStart: int, bs: seq<int>, j: int)
    requires Scannable(e, m, heapStart, bs) && 0 <= j < |bs| - 1
    ensures Walkable(e, m, heapStart + bs[j]) && ValidModel(e) && Boundaries(e, m, heapStart, bs) && AllWalkable(e, m, heapStart, bs)
  {
    hide Boundaries, Walkable, ValidModel;
  }

  lemma OneOwner(e: Model, m: Mem, heapStart: int, bs: seq<int>, i: int, j: int, x: int)
    requires Scannable(e, m, heapStart, bs) && IsOldSlot(e, m, heapStart, bs, i, x) && IsOldSlot(e, m, heapStart, bs, j, x)
    ensures i == j
  {
    hide Scannable, ObjectSlots, Boundaries, AllWalkable, Overlaps;
    WalkableAt(e, m, heapStart, bs, i);
    BoundaryIsObjptr(e, m, heapStart, bs, i);
    BoundaryIsObjptr(e, m, heapStart, bs, j);
    BoundariesRise(e, m, heapStart, bs);
    assert (i + 1 < j ==> bs[i + 1] < bs[j]) && (j + 1 < i ==> bs[j + 1] < bs[i]);
    SlotOnCard(e, m, heapStart, bs, i, x);
    SlotOnCard(e, m, heapStart, bs, j, x);
  }

  // ------------------------------------------------------------ the collection

  /** c, but from the given roots only. */
  ghost function From(c: Job, roots: seq<int>): Job { c.(roots := set x | x in roots) }

  /** A job that is valid from all its roots is valid from some of them. */
  lemma FewerRoots(c: Job, roots: seq<int>, lo: int, hi: int)
    requires ValidJob(c) && ValidWeaks(c) && CopyScan.Within(c, lo, hi) && forall x :: x in roots ==> x in c.roots
    ensures ValidJob(From(c, roots)) && ValidWeaks(From(c, roots)) && CopyScan.Within(From(c, roots), lo, hi)
  {
    hide ValidFrom, ValidSlots, ValidForwarded, ValidWeaks;
    FromSpaceStillValid(c, roots);
    SlotsStillValid(c, roots);
    ForwardedStillValid(c, roots);
    WeaksStillValid(c, roots);
  }

  lemma FromSpaceStillValid(c: Job, roots: seq<int>)
    requires ValidFrom(c)
    ensures ValidFrom(From(c, roots))
  {
    hide ValidModel;
    var d := From(c, roots);
    assert forall w {:trigger InTo(d, w)} :: InTo(d, w) <==> InTo(c, w);
    assert forall w {:trigger Takes(d, w)} :: Takes(d, w) <==> Takes(c, w);
  }

  lemma SlotsStillValid(c: Job, roots: seq<int>)
    requires ValidSlots(c) && forall x :: x in roots ==> x in c.roots
    ensures ValidSlots(From(c, roots))
  {
    hide Traced;
    var d := From(c, roots);
    assert forall s {:trigger Leads(d, s)} :: Leads(d, s) <==> Leads(c, s);
  }

  lemma ForwardedStillValid(c: Job, roots: seq<int>)
    requires ValidForwarded(c) && forall x :: x in roots ==> x in c.roots
    ensures ValidForwarded(From(c, roots))
  {
    var d := From(c, roots);
    assert forall x {:trigger Free(d, x)} :: Free(c, x) ==> Free(d, x);
  }

  lemma WeaksStillValid(c: Job, roots: seq<int>)
    requires ValidWeaks(c)
    ensures ValidWeaks(From(c, roots))
  {
    var d := From(c, roots);
    assert forall p {:trigger CheneyCopy.LinksWeak(d, p)} :: CheneyCopy.LinksWeak(d, p) <==> CheneyCopy.LinksWeak(c, p);
  }

  lemma SameFromSpace(c: Job, roots: seq<int>)
    ensures forall w {:trigger Takes(c, w)} {:trigger Takes(From(c, roots), w)} :: Takes(From(c, roots), w) <==> Takes(c, w)
  {
  }

  /** The old slots that hold no root of the collection are left alone. */
  lemma OldSlotFree(c: Job, roots: seq<int>, x: int)
    requires ValidSlots(c) && x in c.roots && x !in roots
    ensures Free(From(c, roots), x)
  {
    hide Leads, Traced;
  }

  /** All slots, of globals and of old objects, that the collection knows of. */
  ghost predicate AllSlots(c: Job, heapStart: int, bs: seq<int>, globals: seq<int>) {
    && (forall x {:trigger x in c.roots} :: x in globals ==> x in c.roots)
    && (forall j, x {:trigger IsOldSlot(c.e, c.m0, heapStart, bs, j, x)} :: IsOldSlot(c.e, c.m0, heapStart, bs, j, x) ==> x in c.roots && x !in globals)
  }

  ghost predicate OldSlot(c: Job, heapStart: int, bs: seq<int>, x: int) {
    exists j {:trigger IsOldSlot(c.e, c.m0, heapStart, bs, j, x)} :: IsOldSlot(c.e, c.m0, heapStart, bs, j, x)
  }

  lemma ScannableParts(e: Model, m: Mem, heapStart: int, bs: seq<int>)
    requires Scannable(e, m, heapStart, bs)
    ensures ValidModel(e) && Boundaries(e, m, heapStart, bs) && AllWalkable(e, m, heapStart, bs) && bs != [] && IsObjptr(heapStart)
  {
    hide AllWalkable, Object, ValidModel;
  }

  lemma RootsFit(c: Job, heapStart: int, bs: seq<int>, visited: seq<nat>, globals: seq<int>, offered: seq<int>)
    requires AllSlots(c, heapStart, bs, globals) && Distinct(globals) && Distinct(offered)
    requires forall x {:trigger x in offered} :: x in offered ==> exists j {:trigger IsOldSlot(c.e, c.m0, heapStart, bs, j, x)} :: j in visited && IsOldSlot(c.e, c.m0, heapStart, bs, j, x)
    ensures Distinct(globals + offered)
    ensures forall x :: x in globals + offered ==> x in c.roots && (x in globals || OldSlot(c, heapStart, bs, x))
  {
    hide IsOldSlot, Distinct;
    Joined(globals, offered);
  }

  /** Every object on a marked card has been offered. */
  ghost predicate OffersMarked(e: Model, m: Mem, heapStart: int, bs: seq<int>, cards: seq<int>, offered: seq<int>) {
    forall j, c {:trigger Overlaps(bs, j, c)} :: 0 <= j < |bs| - 1 && 0 <= c < |cards| && cards[c] != 0 && Overlaps(bs, j, c) ==>
      forall x {:trigger x in offered} :: x in ObjectSlots(e, m, heapStart + bs[j]) ==> x in offered
  }

  lemma NoneYoung(c: Job, heapStart: int, bs: seq<int>, cards: seq<int>, globals: seq<int>, offered: seq<int>, s: State, m: Mem, j: int, x: int)
    requires ValidJob(c) && AllSlots(c, heapStart, bs, globals) && Scannable(c.e, c.m0, heapStart, bs) && BarrierKept(c, heapStart, bs, cards)
    requires OffersMarked(c.e, c.m0, heapStart, bs, cards, offered) && Collected(From(c, globals + offered), s, m)
    requires forall y {:trigger y in From(c, globals + offered).roots} :: y in From(c, globals + offered).roots ==> !Takes(c, Rd(m, y))
    requires IsOldSlot(c.e, c.m0, heapStart, bs, j, x)
    ensures !Takes(c, Rd(m, x))
  {
    hide ObjectSlots, Boundaries, AllWalkable, Overlaps, ValidFrom, ValidForwarded, ValidSlots, Takes, PlacedOk, CopyScan.Packed, FinalWord, ValidModel;
    if x in globals + offered {
      assert x in From(c, globals + offered).roots;
    } else {
      OldSlotFree(c, globals + offered, x);
      BoundaryIsObjptr(c.e, c.m0, heapStart, bs, j);
      SlotOnCard(c.e, c.m0, heapStart, bs, j, x);
    }
  }

  /** No slot of an old object leads into the nursery any more. */
  ghost predicate OldIsOld(c: Job, heapStart: int, bs: seq<int>, m: Mem) {
    forall j, x {:trigger IsOldSlot(c.e, c.m0, heapStart, bs, j, x)} :: IsOldSlot(c.e, c.m0, heapStart, bs, j, x) ==> !Takes(c, Rd(m, x))
  }

  lemma FromIs(c: Job, roots: seq<int>)
    requires forall x :: x in roots ==> x in c.roots
    ensures var d := From(c, roots);
      && d == c.(roots := d.roots)
      && (forall x: int {:trigger x in d.roots} :: x in d.roots ==> x in c.roots)
      && (forall x: int {:trigger x in d.roots} :: x in roots <==> x in d.roots)
    ensures Distinct(roots) ==> forall i, j :: 0 <= i < j < |roots| ==> roots[i] != roots[j]
  {
    var d := From(c, roots);
    forall x: int ensures x in roots <==> x in d.roots {}
  }

  lemma AfterMinor(c: Job, heapStart: int, bs: seq<int>, cards: seq<int>, globals: seq<int>, offered: seq<int>, s: State, m: Mem)
    requires ValidJob(c) && AllSlots(c, heapStart, bs, globals) && Scannable(c.e, c.m0, heapStart, bs)
    requires OffersMarked(c.e, c.m0, heapStart, bs, cards, offered)
    requires var d := From(c, globals + offered); Inv(d, s) && CopyScan.AllUpdated(d, s) && Collected(d, s, m)
    ensures forall x :: x in globals ==> !Takes(c, Rd(m, x))
    ensures BarrierKept(c, heapStart, bs, cards) ==> OldIsOld(c, heapStart, bs, m)
  {
    hide ValidJob, Scannable, AllSlots, OffersMarked, Inv, CopyScan.AllUpdated, Collected, BarrierKept, IsOldSlot, Takes;
    var d := From(c, globals + offered);
    NothingLeftBehind(d, s, m);
    SameFromSpace(c, globals + offered);
    forall x | x in globals ensures !Takes(c, Rd(m, x)) {
      assert x in d.roots;
    }
    if BarrierKept(c, heapStart, bs, cards) {
      forall j, x {:trigger IsOldSlot(c.e, c.m0, heapStart, bs, j, x)} | IsOldSlot(c.e, c.m0, heapStart, bs, j, x) ensures !Takes(c, Rd(m, x)) {
        NoneYoung(c, heapStart, bs, cards, globals, offered, s, m, j, x);
      }
    }
  }

  /** The collection proper of minorCheneyCopyGC. The slots on marked cards are
      collected first and forwarded with the globals. The scan reads headers and
      lengths of old objects only, which forwarding does not change, so it makes
      no difference that the original forwards each slot as it comes upon it. */
  method CollectNursery(col: Cheney.Collector, g: GenerationalMaps, cardMap: array<int>, oldGenSize: int, globals: seq<int>,
      ghost c: Job, ghost bs: seq<int>, ghost lo: int, ghost hi: int)
    returns (bytesCopied: int, ghost d: Job)
    requires col.Runs(c) && c.minor && ValidJob(c) && ValidWeaks(c) && c.m0 == col.mem && 0 < col.toStart <= col.toLimit && col.weaks == 0
    requires CopyScan.Within(c, lo, hi) && hi - lo <= col.toLimit - col.toStart
    requires c.e == g.e && Scannable(g.e, c.m0, g.heapStart, bs) && Last(bs) == oldGenSize && bs[0] < CARD_SIZE && CardOf(oldGenSize) < cardMap.Length
    requires 0 < oldGenSize ==> g.IsMapOf(bs) && bs[0] == Align(g.heapStart + HEADER_SIZE, g.e.alignment) - HEADER_SIZE - g.heapStart
    requires AllSlots(c, g.heapStart, bs, globals) && Distinct(globals)
    modifies col
    ensures d == c.(roots := d.roots)
    ensures forall x: int {:trigger x in d.roots} :: x in d.roots ==> x in c.roots && (x in globals || OldSlot(c, g.heapStart, bs, x))
    ensures Collected(d, col.st, col.mem)
    ensures forall x :: x in globals ==> x in d.roots && !Takes(c, Rd(col.mem, x))
    ensures BarrierKept(c, g.heapStart, bs, cardMap[..]) ==> OldIsOld(c, g.heapStart, bs, col.mem)
    ensures 0 <= bytesCopied <= hi - lo && col.back == col.toStart + bytesCopied
  {
    hide ValidJob, ValidWeaks, CopyScan.Within, Scannable, Boundaries, AllWalkable, BarrierKept, AllSlots, Collected, IsOldSlot, Takes, Overlaps, ObjectSlots, SlotsOf, InOrder, Inv, CopyScan.AllUpdated, Distinct, OldIsOld, OldSlot, CardOf, Align, From;
    ghost var cards := cardMap[..];
    ScannableParts(g.e, c.m0, g.heapStart, bs);
    var offered;
    ghost var visited;
    offered, visited := ForwardInterGenerationalObjptrs(g, col.mem, cardMap, oldGenSize, bs);
    OfferedOnce(g.e, c.m0, g.heapStart, bs, visited);
    var roots := globals + offered;
    RootsFit(c, g.heapStart, bs, visited, globals, offered);
    d := From(c, roots);
    FewerRoots(c, roots, lo, hi);
    FromIs(c, roots);
    bytesCopied := col.CollectInto(roots, d, lo, hi);
    AfterMinor(c, g.heapStart, bs, cards, globals, offered, col.st, col.mem);
  }

  /** What minorCheneyCopyGC looks at first. */
  datatype Nursery = Nursery(start: int, frontier: int, limitPlusSlop: int, heapFrontier: int, canMinor: bool)

  /** What a collection of the nursery asks for. */
  ghost predicate CanCollect(col: Cheney.Collector, g: GenerationalMaps, cardMap: array<int>, oldGenSize: int, n: Nursery, globals: seq<int>,
      c: Job, bs: seq<int>, lo: int, hi: int)
    reads col, g, g.crossMap
  {
    && col.Runs(c) && c.minor && ValidJob(c) && ValidWeaks(c) && c.m0 == col.mem && 0 < col.toStart && col.weaks == 0
    && col.toStart == g.heapStart + oldGenSize && col.toLimit == col.toStart + (n.frontier - n.start)
    && CopyScan.Within(c, lo, hi) && hi - lo <= n.frontier - n.start
    && c.e == g.e && Scannable(g.e, c.m0, g.heapStart, bs) && Last(bs) == oldGenSize && bs[0] < CARD_SIZE && CardOf(oldGenSize) < cardMap.Length
    && (0 < oldGenSize ==> g.IsMapOf(bs) && bs[0] == Align(g.heapStart + HEADER_SIZE, g.e.alignment) - HEADER_SIZE - g.heapStart)
    && AllSlots(c, g.heapStart, bs, globals) && Distinct(globals)
  }

  /** minorCheneyCopyGC. A nursery that may not be collected on its own is closed
      off: what is free in front of another chunk is filled, and at the end of the
      heap the old generation grows to take the nursery in. fatal is true if no
      filler fits. */
  method MinorCheneyCopyGC(col: Cheney.Collector, g: GenerationalMaps, cardMap: array<int>, oldGenSize: int, n: Nursery, globals: seq<int>,
      ghost c: Job, ghost bs: seq<int>, ghost lo: int, ghost hi: int)
    returns (oldGenSize': int, fatal: bool, ghost d: Job)
    requires ValidModel(col.e) && 0 < n.start <= n.frontier <= n.limitPlusSlop
    requires n.start < n.frontier && n.canMinor ==> CanCollect(col, g, cardMap, oldGenSize, n, globals, c, bs, lo, hi)
    modifies col
    ensures n.start == n.frontier ==> !fatal && col.mem == old(col.mem) && oldGenSize' == oldGenSize
    ensures n.start < n.frontier && !n.canMinor ==>
      if n.limitPlusSlop == n.heapFrontier then !fatal && col.mem == old(col.mem) && g.heapStart + oldGenSize' == n.frontier
      else
        && oldGenSize' == oldGenSize && (fatal <==> !Fillable(n.limitPlusSlop - n.frontier))
        && (!fatal && n.frontier < n.limitPlusSlop ==> HoldsFiller(col.mem, n.frontier, n.limitPlusSlop))
        && forall a {:trigger Rd(col.mem, a)} :: !(n.frontier <= a < n.limitPlusSlop) ==> Rd(col.mem, a) == Rd(old(col.mem), a)
    ensures n.start < n.frontier && n.canMinor ==>
      && !fatal && d == c.(roots := d.roots) && Collected(d, col.st, col.mem)
      && (forall x: int {:trigger x in d.roots} :: x in d.roots ==> x in c.roots && (x in globals || OldSlot(c, g.heapStart, bs, x)))
      && (forall x :: x in globals ==> x in d.roots && !Takes(c, Rd(col.mem, x)))
      && (BarrierKept(c, g.heapStart, bs, cardMap[..]) ==> OldIsOld(c, g.heapStart, bs, col.mem))
      && oldGenSize <= oldGenSize' <= oldGenSize + (hi - lo) && g.heapStart + oldGenSize' == col.back
  {
    hide ValidJob, ValidWeaks, CopyScan.Within, Scannable, BarrierKept, AllSlots, Collected, Takes, Distinct, OldIsOld, OldSlot, CardOf, Align, ValidModel, HoldsFiller;
    oldGenSize', fatal, d := oldGenSize, false, c;
    var bytesAllocated := n.frontier - n.start;
    if bytesAllocated == 0 { return; }
    if !n.canMinor {
      if n.limitPlusSlop != n.heapFrontier {
        var filled;
        col.mem, filled, fatal := FillGap.FillGap(col.e, col.mem, n.frontier, n.limitPlusSlop);
      } else {
        oldGenSize' := n.frontier - g.heapStart;
      }
    } else {
      var bytesCopied;
      bytesCopied, d := CollectNursery(col, g, cardMap, oldGenSize, globals, c, bs, lo, hi);
      oldGenSize' := oldGenSize + bytesCopied;
    }
  }
}
