/** The walk over the marked cards of the old generation (forward.c,
    forwardInterGenerationalObjptrs). */
module CardScan {
  import opened Memory
  import opened Objects
  import opened Layout
  import opened CrossMap

  /** The pointer slots of the object that starts at start; those of an object
      that has moved away are not looked at. */
  function ObjectSlots(e: Model, m: Mem, start: int): seq<int> {
    var p := AdvanceToObjectData(m, start);
    var h := Rd(m, p - HEADER_SIZE);
    if h == FORWARDED then [] else Slots(TypeOf(e, h), p, Length(Rd(m, p - 16)))
  }

  /** The header of the object at start agrees with where its data begin. */
  predicate Walkable(e: Model, m: Mem, start: int) {
    var p := AdvanceToObjectData(m, start);
    var h := Rd(m, p - HEADER_SIZE);
    var q := if h == FORWARDED then Rd(m, p) else p;
    var t := TypeOf(e, Rd(m, q - HEADER_SIZE));
    p == start + HeaderBytes(t) && t.tag != StackTag && ValidType(e, t)
  }

  ghost predicate AllWalkable(e: Model, m: Mem, heapStart: int, bs: seq<int>) {
    forall i {:trigger bs[i]} :: 0 <= i < |bs| - 1 ==> Walkable(e, m, heapStart + bs[i])
  }

  /** The body of foreachObjptrInRange for one object. */
  method VisitObject(e: Model, m: Mem, start: int) returns (end: int, slots: seq<int>)
    requires ValidModel(e) && Walkable(e, m, start)
    ensures end == start + SizeofObject(e, m, AdvanceToObjectData(m, start)) && slots == ObjectSlots(e, m, start)
  {
    var p := AdvanceToObjectData(m, start);
    if Rd(m, p - HEADER_SIZE) == FORWARDED {
      var realP := Rd(m, p);
      var t := TypeOf(e, Rd(m, realP - HEADER_SIZE));
      end, slots := p + (SizeWithHeader(e, m, realP, Rd(m, realP - HEADER_SIZE)) - HeaderBytes(t)), [];
    } else {
      end, slots := ForeachObjptrInObject(e, m, p, false);
    }
  }

  // ------------------------------------------------------------------- coverage

  /** Object j lies on card c, at least in part. */
  predicate Overlaps(bs: seq<int>, j: int, c: int)
    requires 0 <= j < |bs| - 1
  {
    bs[j] < CARD_SIZE * (c + 1) && CARD_SIZE * c < bs[j + 1]
  }

  ghost predicate Marked(cards: seq<int>, c: int) { 0 <= c < |cards| && cards[c] != 0 }

  /** Every object on a marked card among the first n has been visited. */
  ghost predicate Covered(bs: seq<int>, cards: seq<int>, visited: seq<nat>, n: int) {
    forall j, c {:trigger Overlaps(bs, j, c)} :: 0 <= j < |bs| - 1 && c < n && Marked(cards, c) && Overlaps(bs, j, c) ==> j in visited
  }

  /** Boundary k is where the scan of card c starts: it is on that card or
      before it, and objects before k that reach into the card were visited. */
  ghost predicate Ready(bs: seq<int>, visited: seq<nat>, k: nat, c: int) {
    && k < |bs| && bs[k] < CARD_SIZE * (c + 1)
    && (forall j {:trigger j in visited} :: 0 <= j < k && j + 1 < |bs| && CARD_SIZE * c < bs[j + 1] ==> j in visited)
    && (forall j {:trigger j in visited} :: j in visited ==> j < k)
  }

  ghost predicate InOrder(visited: seq<nat>) {
    forall i, j :: 0 <= i < j < |visited| ==> visited[i] < visited[j]
  }

  /** All boundaries increase, by value. */
  ghost predicate Rising(bs: seq<int>) {
    forall i, j {:trigger bs[i], bs[j]} :: 0 <= i < j < |bs| ==> bs[i] < bs[j]
  }

  lemma BoundariesRise(e: Model, m: Mem, heapStart: int, bs: seq<int>)
    requires Boundaries(e, m, heapStart, bs)
    ensures Rising(bs)
  {
    hide Boundaries, Object;
    forall i, j {:trigger bs[i], bs[j]} | 0 <= i < j < |bs| ensures bs[i] < bs[j] {
      Increasing(e, m, heapStart, bs, i, j);
    }
  }

  /** The slots of the visited objects, in the order of the visits. */
  ghost function SlotsOf(e: Model, m: Mem, heapStart: int, bs: seq<int>, visited: seq<nat>): seq<int> {
    if visited == [] then []
    else
      var j := visited[|visited| - 1];
      SlotsOf(e, m, heapStart, bs, visited[..|visited| - 1]) + if j < |bs| then ObjectSlots(e, m, heapStart + bs[j]) else []
  }

  lemma SlotsOfSnoc(e: Model, m: Mem, heapStart: int, bs: seq<int>, visited: seq<nat>, k: nat)
    requires k < |bs|
    ensures SlotsOf(e, m, heapStart, bs, visited + [k]) == SlotsOf(e, m, heapStart, bs, visited) + ObjectSlots(e, m, heapStart + bs[k])
  {
    hide ObjectSlots;
    assert (visited + [k])[..|visited|] == visited;
  }

  lemma {:induction false} SlotsOfVisited(e: Model, m: Mem, heapStart: int, bs: seq<int>, visited: seq<nat>, j: nat, x: int)
    requires j < |bs| && j in visited && x in ObjectSlots(e, m, heapStart + bs[j])
    ensures x in SlotsOf(e, m, heapStart, bs, visited)
    decreases |visited|
  {
    hide ObjectSlots;
    var last := |visited| - 1;
    if visited[last] != j {
      var front := visited[..last];
      assert j in front by { assert visited == front + [visited[last]]; }
      SlotsOfVisited(e, m, heapStart, bs, front, j, x);
    }
  }

  /** foreachObjptrInRange from a boundary up to the end of a card. */
  method VisitRange(e: Model, m: Mem, heapStart: int, start: int, cardEnd: int, offered: seq<int>,
      ghost bs: seq<int>, ghost visited: seq<nat>, ghost k: nat)
    returns (front: int, offered': seq<int>, ghost visited': seq<nat>, ghost k': nat)
    requires ValidModel(e) && Boundaries(e, m, heapStart, bs) && AllWalkable(e, m, heapStart, bs)
    requires k < |bs| && start == heapStart + bs[k] && cardEnd <= heapStart + Last(bs)
    requires InOrder(visited) && (forall j {:trigger j in visited} :: j in visited ==> j < k)
    requires offered == SlotsOf(e, m, heapStart, bs, visited)
    ensures k <= k' < |bs| && front == heapStart + bs[k'] && cardEnd <= front
    ensures k < k' ==> heapStart + bs[k' - 1] < cardEnd
    ensures forall j {:trigger j in visited'} :: j in visited' <==> j in visited || k <= j < k'
    ensures InOrder(visited') && (forall j {:trigger j in visited'} :: j in visited' ==> j < k')
    ensures offered' == SlotsOf(e, m, heapStart, bs, visited')
  {
    hide Boundaries, AllWalkable, Walkable, SizeofObject, AdvanceToObjectData, ObjectSlots, SlotsOf;
    front, offered', visited', k' := start, offered, visited, k;
    while front < cardEnd
      invariant k <= k' < |bs| && front == heapStart + bs[k']
      invariant k < k' ==> heapStart + bs[k' - 1] < cardEnd
      invariant forall j {:trigger j in visited'} :: j in visited' <==> j in visited || k <= j < k'
      invariant InOrder(visited') && (forall j {:trigger j in visited'} :: j in visited' ==> j < k')
      invariant offered' == SlotsOf(e, m, heapStart, bs, visited')
      decreases |bs| - k'
    {
      NextObject(e, m, heapStart, bs, k');
      var slots;
      front, slots := VisitObject(e, m, front);
      SlotsOfSnoc(e, m, heapStart, bs, visited', k');
      VisitedSnoc(visited', k');
      offered', visited', k' := offered' + slots, visited' + [k'], k' + 1;
    }
  }

  lemma NextObject(e: Model, m: Mem, heapStart: int, bs: seq<int>, k: nat)
    requires Boundaries(e, m, heapStart, bs) && AllWalkable(e, m, heapStart, bs) && k < |bs|
    ensures k == |bs| - 1 || (bs[k + 1] == bs[k] + SizeofObject(e, m, AdvanceToObjectData(m, heapStart + bs[k])) && Walkable(e, m, heapStart + bs[k]))
  {
    hide SizeofObject, Walkable;
    if k < |bs| - 1 { assert Object(e, m, heapStart, bs, k); }
  }

  lemma VisitedSnoc(visited: seq<nat>, k: nat)
    requires InOrder(visited) && forall j {:trigger j in visited} :: j in visited ==> j < k
    ensures InOrder(visited + [k]) && forall j {:trigger j in visited + [k]} :: j in visited + [k] <==> j in visited || j == k
  {
    var more := visited + [k];
    forall i, j | 0 <= i < j < |more| ensures more[i] < more[j] {
      if j == |visited| { assert more[i] == visited[i] && visited[i] in visited; }
    }
  }

  /** forwardInterGenerationalObjptrs, after the cross map has been brought up
      to date. The forwarder is represented by the slots it is offered. */
  method ForwardInterGenerationalObjptrs(g: GenerationalMaps, m: Mem, cardMap: array<int>, oldGenSize: int, ghost bs: seq<int>)
    returns (offered: seq<int>, ghost visited: seq<nat>)
    requires ValidModel(g.e) && Boundaries(g.e, m, g.heapStart, bs) && AllWalkable(g.e, m, g.heapStart, bs)
    requires bs != [] && Last(bs) == oldGenSize && bs[0] < CARD_SIZE
    requires 0 < oldGenSize ==> g.IsMapOf(bs) && bs[0] == Align(g.heapStart + HEADER_SIZE, g.e.alignment) - HEADER_SIZE - g.heapStart
    requires CardOf(oldGenSize) < cardMap.Length
    ensures forall j, c {:trigger Overlaps(bs, j, c)} :: 0 <= j < |bs| - 1 && 0 <= c < cardMap.Length && cardMap[c] != 0 && Overlaps(bs, j, c) ==>
      forall x {:trigger x in offered} :: x in ObjectSlots(g.e, m, g.heapStart + bs[j]) ==> x in offered
    ensures InOrder(visited) && forall i {:trigger visited[i]} :: 0 <= i < |visited| ==> visited[i] < |bs| - 1
    ensures offered == SlotsOf(g.e, m, g.heapStart, bs, visited)
  {
    hide Boundaries, AllWalkable, Object, Walkable, ObjectSlots, SlotsOf, Covered, Ready, CardOf, Entry, Align, Overlaps, InOrder;
    var e, heapStart := g.e, g.heapStart;
    ghost var cards := cardMap[..];
    var maxCardIndex := SizeToCardMapIndex(Align(oldGenSize, CARD_SIZE));
    var oldGenEnd := heapStart + oldGenSize;
    var objectStart := Align(heapStart + HEADER_SIZE, e.alignment) - HEADER_SIZE;
    var cardIndex, cardStart := 0, heapStart;
    offered, visited := [], [];
    ghost var k: nat := 0;
    var done := false;
    ScanStarts(g, m, bs, cards, oldGenSize);
    while cardIndex != maxCardIndex && !done
      invariant 0 <= cardIndex <= maxCardIndex == (if oldGenSize == 0 then 0 else CardOf(oldGenSize) + 1) && cardStart == heapStart + CARD_SIZE * cardIndex
      invariant Covered(bs, cards, visited, if done then maxCardIndex else cardIndex)
      invariant !done && cardIndex < maxCardIndex ==> k < |bs| && Ready(bs, visited, k, cardIndex) && objectStart == heapStart + bs[k]
      invariant InOrder(visited) && (forall i {:trigger visited[i]} :: 0 <= i < |visited| ==> visited[i] < |bs| - 1)
      invariant offered == SlotsOf(e, m, heapStart, bs, visited)
      decreases maxCardIndex - cardIndex, if done then 0 else 1
    {
      ReadyFacts(bs, visited, k, cardIndex);
      if cardMap[cardIndex] != 0 {
        var cardEnd := cardStart + CARD_SIZE;
        if oldGenEnd < cardEnd { cardEnd := oldGenEnd; }
        ghost var k0, visited0 := k, visited;
        objectStart, offered, visited, k := VisitRange(e, m, heapStart, objectStart, cardEnd, offered, bs, visited, k);
        VisitsInRange(bs, visited, k);
        BoundariesRise(e, m, heapStart, bs);
        NonNegative(e, m, heapStart, bs, 0);
        MarkedCard(bs, cards, visited0, k0, visited, k, cardIndex);
        if objectStart == oldGenEnd {
          done := true;
        } else {
          cardIndex := SizeToCardMapIndex(objectStart - heapStart);
          cardStart := heapStart + CardMapIndexToSize(cardIndex);
        }
      } else {
        ghost var next := NextStart(g, m, bs, cards, visited, k, cardIndex);
        if g.crossMap[cardIndex] != CROSS_MAP_EMPTY {
          objectStart := cardStart + g.crossMap[cardIndex] * CROSS_MAP_OFFSET_SCALE;
        }
        k := next;
        cardIndex := cardIndex + 1;
        cardStart := cardStart + CARD_SIZE;
      }
    }
    AllOffered(e, m, heapStart, bs, cards, visited, offered, maxCardIndex, oldGenSize);
  }

  lemma ScanStarts(g: GenerationalMaps, m: Mem, bs: seq<int>, cards: seq<int>, oldGenSize: int)
    requires Boundaries(g.e, m, g.heapStart, bs) && Last(bs) == oldGenSize && bs[0] < CARD_SIZE
    ensures 0 <= oldGenSize && 0 <= CardOf(oldGenSize)
    ensures SizeToCardMapIndex(Align(oldGenSize, CARD_SIZE)) == if oldGenSize == 0 then 0 else CardOf(oldGenSize) + 1
    ensures Covered(bs, cards, [], 0) && Ready(bs, [], 0, 0) && InOrder([]) && SlotsOf(g.e, m, g.heapStart, bs, []) == []
  {
    hide Object, Entry;
    NonNegative(g.e, m, g.heapStart, bs, |bs| - 1);
  }

  lemma ReadyFacts(bs: seq<int>, visited: seq<nat>, k: nat, c: int)
    requires Ready(bs, visited, k, c)
    ensures k < |bs| && forall j {:trigger j in visited} :: j in visited ==> j < k
  {
  }

  lemma VisitsInRange(bs: seq<int>, visited: seq<nat>, k: nat)
    requires k < |bs| && forall j {:trigger j in visited} :: j in visited ==> j < k
    ensures forall i {:trigger visited[i]} :: 0 <= i < |visited| ==> visited[i] < |bs| - 1
  {
    forall i {:trigger visited[i]} | 0 <= i < |visited| ensures visited[i] < |bs| - 1 { assert visited[i] in visited; }
  }

  /** A marked card: all objects up to its end have been visited, and the scan
      goes on at the card that the next one starts on. */
  lemma MarkedCard(bs: seq<int>, cards: seq<int>, visited0: seq<nat>, k0: nat, visited: seq<nat>, k: nat, c: int)
    requires Rising(bs) && bs != [] && 0 <= bs[0] && 0 <= c <= CardOf(Last(bs)) && 0 < Last(bs)
    requires Covered(bs, cards, visited0, c) && Ready(bs, visited0, k0, c) && k0 <= k < |bs|
    requires forall j {:trigger j in visited} :: j in visited <==> j in visited0 || k0 <= j < k
    requires (CARD_SIZE * (c + 1) <= Last(bs) ==> CARD_SIZE * (c + 1) <= bs[k]) && (Last(bs) < CARD_SIZE * (c + 1) ==> bs[k] == Last(bs))
    ensures bs[k] == Last(bs) ==> Covered(bs, cards, visited, CardOf(Last(bs)) + 1)
    ensures bs[k] != Last(bs) ==>
      var c' := bs[k] / CARD_SIZE; c < c' <= CardOf(Last(bs)) && Covered(bs, cards, visited, c') && Ready(bs, visited, k, c')
  {
    var last := bs[k] == Last(bs);
    var c' := if last then CardOf(Last(bs)) + 1 else bs[k] / CARD_SIZE;
    RisesTo(bs, k, |bs| - 1);
    RisesTo(bs, k0, k);
    forall j, d {:trigger Overlaps(bs, j, d)} | 0 <= j < |bs| - 1 && d < c' && Marked(cards, d) && Overlaps(bs, j, d) ensures j in visited {
      if d < c {
        assert j in visited0;
      } else {
        ReachesInto(bs, visited0, k0, j, c, d);
        NotBeyond(bs, k, j, d, c', last);
      }
    }
    if !last {
      forall j {:trigger j in visited} | 0 <= j < k && j + 1 < |bs| && CARD_SIZE * c' < bs[j + 1] ensures j in visited {
        EndsBefore(bs, j, k0);
      }
    }
  }

  lemma RisesTo(bs: seq<int>, i: nat, j: nat)
    requires Rising(bs) && i <= j < |bs|
    ensures bs[i] <= bs[j] && (bs[i] == bs[j] ==> i == j)
  {
  }

  lemma Compare(bs: seq<int>, i: nat, j: nat)
    requires Rising(bs) && i < |bs| && j < |bs|
    ensures bs[i] < bs[j] <==> i < j
  {
    if i < j { RisesTo(bs, i, j); } else { RisesTo(bs, j, i); }
  }

  lemma EndsBefore(bs: seq<int>, j: nat, k: nat)
    requires Rising(bs) && j + 1 < |bs| && k < |bs|
    ensures j < k ==> bs[j + 1] <= bs[k]
    ensures bs[j] < bs[k] ==> j < k
  {
    if j + 1 < k { RisesTo(bs, j + 1, k); }
    if k <= j { RisesTo(bs, k, j); }
  }

  lemma ReachesInto(bs: seq<int>, visited: seq<nat>, k: nat, j: nat, c: int, d: int)
    requires Rising(bs) && Ready(bs, visited, k, c) && j + 1 < |bs| && c <= d && Overlaps(bs, j, d)
    ensures j < k ==> j in visited
  {
    assert CARD_SIZE * c < bs[j + 1];
  }

  lemma NotBeyond(bs: seq<int>, k: nat, j: nat, d: int, c': int, last: bool)
    requires Rising(bs) && k < |bs| && j < |bs| - 1 && d < c' && Overlaps(bs, j, d)
    requires if last then k == |bs| - 1 else c' == bs[k] / CARD_SIZE
    ensures j < k
  {
    EndsBefore(bs, j, k);
  }

  /** An unmarked card: the cross map says where the scan of the next one starts. */
  lemma NextStart(g: GenerationalMaps, m: Mem, bs: seq<int>, cards: seq<int>, visited: seq<nat>, k: nat, c: int) returns (k': nat)
    requires bs != [] && g.IsMapOf(bs) && Boundaries(g.e, m, g.heapStart, bs) && 0 <= c <= CardOf(Last(bs)) && !Marked(cards, c)
    requires Covered(bs, cards, visited, c) && Ready(bs, visited, k, c)
    ensures c < g.crossMap.Length && Covered(bs, cards, visited, c + 1)
    ensures c < CardOf(Last(bs)) ==>
      k' < |bs| && Ready(bs, visited, k', c + 1) && bs[k'] == if g.crossMap[c] != CROSS_MAP_EMPTY then CARD_SIZE * c + g.crossMap[c] * CROSS_MAP_OFFSET_SCALE else bs[k]
  {
    hide Object, Boundaries, Entry, Overlaps;
    k' := k;
    BoundariesRise(g.e, m, g.heapStart, bs);
    if c < CardOf(Last(bs)) {
      EntryIsLastBoundary(g.e, m, g.heapStart, bs, c);
      NonNegative(g.e, m, g.heapStart, bs, k);
      assert g.crossMap[c] == Entry(bs, c);
      if g.crossMap[c] == CROSS_MAP_EMPTY {
        StartStays(bs, visited, k, c);
      } else {
        k' :| 0 <= k' < |bs| && CardOf(bs[k']) == c && bs[k'] == CARD_SIZE * c + CROSS_MAP_OFFSET_SCALE * Entry(bs, c)
          && forall j {:trigger bs[j]} :: k' < j < |bs| ==> CardOf(bs[j]) != c;
        NonNegative(g.e, m, g.heapStart, bs, k');
        StartMoves(bs, visited, k, c, k');
      }
    }
  }

  lemma StartStays(bs: seq<int>, visited: seq<nat>, k: nat, c: int)
    requires Rising(bs) && Ready(bs, visited, k, c)
    ensures Ready(bs, visited, k, c + 1)
  {
    forall j {:trigger j in visited} | 0 <= j < k && j + 1 < |bs| ensures bs[j + 1] <= CARD_SIZE * (c + 1) {
      EndsBefore(bs, j, k);
    }
  }

  lemma StartMoves(bs: seq<int>, visited: seq<nat>, k: nat, c: int, k': nat)
    requires Rising(bs) && Ready(bs, visited, k, c) && 0 <= c && k' < |bs| && 0 <= bs[k'] && 0 <= bs[k] && CardOf(bs[k']) == c
    requires forall j {:trigger bs[j]} :: k' < j < |bs| ==> CardOf(bs[j]) != c
    ensures Ready(bs, visited, k', c + 1)
  {
    NotEarlier(bs, k, c, k');
    assert bs[k'] <= CARD_SIZE * (c + 1);
    forall j {:trigger j in visited} | 0 <= j < k' && j + 1 < |bs| ensures bs[j + 1] <= CARD_SIZE * (c + 1) {
      EndsBefore(bs, j, k');
    }
  }

  /** The last boundary of a card does not come before where its scan starts. */
  lemma NotEarlier(bs: seq<int>, k: nat, c: int, k': nat)
    requires Rising(bs) && k < |bs| && k' < |bs| && 0 <= c && 0 <= bs[k'] && 0 <= bs[k] < CARD_SIZE * (c + 1) && CardOf(bs[k']) == c
    requires forall j {:trigger bs[j]} :: k' < j < |bs| ==> CardOf(bs[j]) != c
    ensures k <= k'
  {
    Compare(bs, k', k);
    SameCard(bs[k'], bs[k], c);
  }

  lemma SameCard(f: int, g: int, c: int)
    requires 0 <= f && 0 <= g < CARD_SIZE * (c + 1) && CardOf(f) == c
    ensures f < g ==> CardOf(g) == c
  {
  }

  lemma AllOffered(e: Model, m: Mem, heapStart: int, bs: seq<int>, cards: seq<int>, visited: seq<nat>, offered: seq<int>, n: int, oldGenSize: int)
    requires Boundaries(e, m, heapStart, bs) && Last(bs) == oldGenSize && n == (if oldGenSize == 0 then 0 else CardOf(oldGenSize) + 1)
    requires Covered(bs, cards, visited, n) && forall i {:trigger visited[i]} :: 0 <= i < |visited| ==> visited[i] < |bs| - 1
    requires offered == SlotsOf(e, m, heapStart, bs, visited)
    ensures forall j, c {:trigger Overlaps(bs, j, c)} :: 0 <= j < |bs| - 1 && Marked(cards, c) && Overlaps(bs, j, c) ==>
      j in visited && forall x {:trigger x in offered} :: x in ObjectSlots(e, m, heapStart + bs[j]) ==> x in offered
  {
    hide Object, Boundaries, ObjectSlots, SlotsOf;
    BoundariesRise(e, m, heapStart, bs);
    forall j, c {:trigger Overlaps(bs, j, c)} | 0 <= j < |bs| - 1 && Marked(cards, c) && Overlaps(bs, j, c)
      ensures j in visited && forall x {:trigger x in offered} :: x in ObjectSlots(e, m, heapStart + bs[j]) ==> x in offered
    {
      NonNegative(e, m, heapStart, bs, |bs| - 1);
      NonNegative(e, m, heapStart, bs, j);
      CardInGeneration(e, m, heapStart, bs, j, c, oldGenSize);
      forall x {:trigger x in offered} | x in ObjectSlots(e, m, heapStart + bs[j]) ensures x in offered {
        SlotsOfVisited(e, m, heapStart, bs, visited, j, x);
      }
    }
  }

  lemma CardInGeneration(e: Model, m: Mem, heapStart: int, bs: seq<int>, j: nat, c: int, oldGenSize: int)
    requires Rising(bs) && bs != [] && Last(bs) == oldGenSize && j < |bs| - 1 && 0 <= bs[j] && Overlaps(bs, j, c)
    ensures 0 < oldGenSize && c < CardOf(oldGenSize) + 1
  {
    RisesTo(bs, j + 1, |bs| - 1);
    Compare(bs, j, j + 1);
  }
}
