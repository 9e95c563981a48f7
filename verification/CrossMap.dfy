/** The cross map: for each card of the old generation, where its last object
    boundary is (generational.c). */
module CrossMap {
  import opened Memory
  import opened Objects
  import opened Layout

  const CARD_SIZE := 256
  const CROSS_MAP_OFFSET_SCALE := 4
  const CROSS_MAP_EMPTY := 255

  /** The index of the card that size bytes reach into. */
  function SizeToCardMapIndex(size: int): int { size / CARD_SIZE }

  function CardMapIndexToSize(i: int): int { i * CARD_SIZE }

  /** getCrossMapCardStart: the boundary at the start of a card counts as the
      end of the card before. */
  function GetCrossMapCardStart(heapStart: int, p: int): int {
    if p == heapStart then heapStart else p - 1 - (p - 1) % CARD_SIZE
  }

  /** The card that the boundary at offset f from the heap start belongs to. */
  function CardOf(f: int): int { if f == 0 then 0 else (f - 1) / CARD_SIZE }

  function EntryOf(f: int): int { (f - CARD_SIZE * CardOf(f)) / CROSS_MAP_OFFSET_SCALE }

  /** The card starts are the same by address and by offset. */
  lemma CardStartByOffset(heapStart: int, f: int)
    requires heapStart % CARD_SIZE == 0 && 0 <= f
    ensures GetCrossMapCardStart(heapStart, heapStart + f) - heapStart == CARD_SIZE * CardOf(f)
    ensures SizeToCardMapIndex(GetCrossMapCardStart(heapStart, heapStart + f) - heapStart) == CardOf(f)
    ensures 0 <= EntryOf(f) <= 64
  {
    if f > 0 {
      var h := heapStart / CARD_SIZE;
      assert heapStart + f - 1 == CARD_SIZE * (h + (f - 1) / CARD_SIZE) + (f - 1) % CARD_SIZE;
      assert (heapStart + f - 1) % CARD_SIZE == (f - 1) % CARD_SIZE;
    }
  }

  // ------------------------------------------------------------- object boundaries

  /** bs are the offsets of the object boundaries of an old generation: where
      each object starts, and last where it ends. */
  ghost predicate Boundaries(e: Model, m: Mem, heapStart: int, bs: seq<int>) {
    && bs != [] && 0 <= bs[0] <= CARD_SIZE
    && (forall i {:trigger bs[i]} :: 0 <= i < |bs| ==> bs[i] % CROSS_MAP_OFFSET_SCALE == 0)
    && (forall i {:trigger Object(e, m, heapStart, bs, i)} :: 0 <= i < |bs| - 1 ==> Object(e, m, heapStart, bs, i))
  }

  /** Object i lies between boundaries i and i + 1. */
  ghost predicate Object(e: Model, m: Mem, heapStart: int, bs: seq<int>, i: int)
    requires 0 <= i < |bs| - 1
  {
    var p := AdvanceToObjectData(m, heapStart + bs[i]);
    bs[i] < bs[i + 1] == bs[i] + SizeofObject(e, m, p)
  }

  lemma {:induction false} Increasing(e: Model, m: Mem, heapStart: int, bs: seq<int>, i: nat, j: nat)
    requires Boundaries(e, m, heapStart, bs) && i < j < |bs|
    ensures bs[i] < bs[j]
    decreases j - i
  {
    hide SizeofObject;
    assert Object(e, m, heapStart, bs, i);
    if i + 1 < j { Increasing(e, m, heapStart, bs, i + 1, j); }
  }

  function Last(bs: seq<int>): int
    requires bs != []
  {
    bs[|bs| - 1]
  }

  // ----------------------------------------------------------------- the full map

  /** What a walk over all boundaries leaves in the entry of card c. */
  function Entry(bs: seq<int>, c: int): int {
    if bs == [] then CROSS_MAP_EMPTY
    else if CardOf(Last(bs)) == c then EntryOf(Last(bs))
    else Entry(bs[..|bs| - 1], c)
  }

  /** An entry tells the last boundary of its card, and is empty exactly when
      the card has none. */
  lemma {:induction false} EntryIsLastBoundary(e: Model, m: Mem, heapStart: int, bs: seq<int>, c: int)
    requires Boundaries(e, m, heapStart, bs)
    ensures Entry(bs, c) == CROSS_MAP_EMPTY <==> forall i {:trigger bs[i]} :: 0 <= i < |bs| ==> CardOf(bs[i]) != c
    ensures Entry(bs, c) != CROSS_MAP_EMPTY ==>
      exists i {:trigger bs[i]} :: 0 <= i < |bs| && CardOf(bs[i]) == c && bs[i] == CARD_SIZE * c + CROSS_MAP_OFFSET_SCALE * Entry(bs, c)
        && forall j {:trigger bs[j]} :: i < j < |bs| ==> CardOf(bs[j]) != c
    decreases |bs|
  {
    hide SizeofObject;
    var last := |bs| - 1;
    if last > 0 { Increasing(e, m, heapStart, bs, 0, last); }
    EntryInRange(Last(bs));
    if CardOf(bs[last]) == c {
      assert bs[last] == CARD_SIZE * c + CROSS_MAP_OFFSET_SCALE * Entry(bs, c);
    } else if last > 0 {
      var front := bs[..last];
      FrontIsWalk(e, m, heapStart, bs);
      EntryIsLastBoundary(e, m, heapStart, front, c);
      assert forall i {:trigger bs[i]} :: 0 <= i < last ==> front[i] == bs[i];
      if Entry(bs, c) != CROSS_MAP_EMPTY {
        var i :| 0 <= i < |front| && CardOf(front[i]) == c && front[i] == CARD_SIZE * c + CROSS_MAP_OFFSET_SCALE * Entry(front, c)
          && forall j {:trigger front[j]} :: i < j < |front| ==> CardOf(front[j]) != c;
        forall j {:trigger bs[j]} | i < j < |bs| ensures CardOf(bs[j]) != c {
          if j < last { assert front[j] == bs[j]; }
        }
        assert bs[i] == front[i];
      } else {
        forall i {:trigger bs[i]} | 0 <= i < |bs| ensures CardOf(bs[i]) != c {
          if i < last { assert front[i] == bs[i]; }
        }
      }
    }
  }

  lemma FrontIsWalk(e: Model, m: Mem, heapStart: int, bs: seq<int>)
    requires Boundaries(e, m, heapStart, bs) && |bs| > 1
    ensures Boundaries(e, m, heapStart, bs[..|bs| - 1])
  {
    hide SizeofObject;
    var front := bs[..|bs| - 1];
    forall i | 0 <= i < |front| - 1 ensures Object(e, m, heapStart, front, i) {
      assert Object(e, m, heapStart, bs, i);
    }
  }

  /** Offsets never collide with the value that stands for no boundary. */
  lemma EntryInRange(f: int)
    requires 0 <= f
    ensures 0 <= EntryOf(f) <= 64 < CROSS_MAP_EMPTY
    ensures f % CROSS_MAP_OFFSET_SCALE == 0 ==> f == CARD_SIZE * CardOf(f) + CROSS_MAP_OFFSET_SCALE * EntryOf(f)
    ensures 0 < f ==> CARD_SIZE * CardOf(f) < f <= CARD_SIZE * CardOf(f) + CARD_SIZE
  {
    hide CardOf;
    var c := CardOf(f);
    OffsetInCard(f);
    EntryOfOffset(c, f - CARD_SIZE * c);
  }

  lemma OffsetInCard(f: int)
    requires 0 <= f
    ensures 0 <= f - CARD_SIZE * CardOf(f) <= CARD_SIZE && (0 < f ==> 0 < f - CARD_SIZE * CardOf(f))
  {
  }

  lemma EntryOfOffset(c: int, d: int)
    requires 0 <= d <= CARD_SIZE
    ensures 0 <= d / CROSS_MAP_OFFSET_SCALE <= 64
    ensures (CARD_SIZE * c + d) % CROSS_MAP_OFFSET_SCALE == 0 ==> d == CROSS_MAP_OFFSET_SCALE * (d / CROSS_MAP_OFFSET_SCALE)
  {
    assert CARD_SIZE * c + d == CROSS_MAP_OFFSET_SCALE * (64 * c + d / CROSS_MAP_OFFSET_SCALE) + d % CROSS_MAP_OFFSET_SCALE;
  }

  lemma EntrySnoc(bs: seq<int>, b: int, c: int)
    ensures Entry(bs + [b], c) == if CardOf(b) == c then EntryOf(b) else Entry(bs, c)
  {
    assert (bs + [b])[..|bs|] == bs;
  }

  /** The value that the last card gets: the cast to eight bits comes before the
      division. */
  function LastEntry(f: int): int { ((f - CARD_SIZE * CardOf(f)) % 256) / CROSS_MAP_OFFSET_SCALE }

  /** The last entry is right exactly when the old generation does not end at
      the end of a card. */
  lemma LastEntryIsRight(f: int)
    requires 0 < f
    ensures LastEntry(f) == EntryOf(f) <==> f % CARD_SIZE != 0
  {
  }

  // -------------------------------------------------------------------- the maps

  class GenerationalMaps {
    const e: Model
    const heapStart: int
    const crossMap: array<int>
    var crossMapValidSize: int

    constructor (e: Model, heapStart: int, length: nat)
      requires length > 0
      ensures this.e == e && this.heapStart == heapStart && fresh(crossMap) && crossMap.Length == length
      ensures crossMapValidSize == 0 && forall c {:trigger crossMap[c]} :: 0 <= c < length ==> crossMap[c] == CROSS_MAP_EMPTY
    {
      this.e, this.heapStart := e, heapStart;
      crossMap := new int[length](c => CROSS_MAP_EMPTY);
      crossMapValidSize := 0;
    }

    /** The map is that of an old generation with the boundaries bs; of nothing,
        if bs is empty. */
    ghost predicate IsMapOf(bs: seq<int>)
      reads this, crossMap
    {
      if bs == [] then crossMapValidSize == 0 && forall c {:trigger crossMap[c]} :: 0 <= c < crossMap.Length ==> crossMap[c] == CROSS_MAP_EMPTY
      else
        && crossMapValidSize == Last(bs) && 0 < Last(bs) && CardOf(Last(bs)) < crossMap.Length
        && (forall c {:trigger crossMap[c]} :: 0 <= c < crossMap.Length && c < CardOf(Last(bs)) ==> crossMap[c] == Entry(bs, c))
        && crossMap[CardOf(Last(bs))] == LastEntry(Last(bs))
        && (forall c {:trigger crossMap[c]} :: CardOf(Last(bs)) < c < crossMap.Length ==> crossMap[c] == CROSS_MAP_EMPTY)
    }

    /** updateCrossMap: the objects that have arrived since the map was up to
        date, whose boundaries are those of bs after the first |bs0|. */
    method UpdateCrossMap(m: Mem, oldGenSize: int, ghost bs0: seq<int>, ghost bs: seq<int>)
      requires ValidModel(e) && e.alignment <= CARD_SIZE
      requires IsMapOf(bs0) && Boundaries(e, m, heapStart, bs) && Last(bs) == oldGenSize && CardOf(oldGenSize) < crossMap.Length
      requires |bs0| <= |bs| && bs0 == bs[..|bs0|]
      requires bs0 == [] ==> (bs[0] == Align(heapStart + HEADER_SIZE, e.alignment) - HEADER_SIZE - heapStart && |bs| > 1) || oldGenSize == 0
      modifies this, crossMap
      ensures if oldGenSize == 0 then IsMapOf(bs0) && crossMapValidSize == 0 else IsMapOf(bs)
    {
      hide IsMapOf, Boundaries, Object, SizeofObject, AdvanceToObjectData, Align, Entry;
      if bs0 == [] { EmptyMapIs(this); } else { OldMapIs(this, e, m, heapStart, bs0, bs); }
      if crossMapValidSize == oldGenSize {
        SameMap(this, e, m, heapStart, bs0, bs, oldGenSize);
        return;
      }
      var oldGenEnd := heapStart + oldGenSize;
      var objectStart := heapStart + crossMapValidSize;
      var cardIndex;
      if objectStart == heapStart {
        cardIndex := 0;
        objectStart := Align(objectStart + HEADER_SIZE, e.alignment) - HEADER_SIZE;
      } else {
        cardIndex := SizeToCardMapIndex(objectStart - 1 - heapStart);
      }
      ghost var k: nat := if bs0 == [] then 0 else |bs0| - 1;
      StartOfUpdate(this, e, m, heapStart, bs0, bs, k, cardIndex, objectStart);
      var cardStart := heapStart + CardMapIndexToSize(cardIndex);
      var cardEnd := cardStart + CARD_SIZE;
      while objectStart < oldGenEnd
        invariant k < |bs| && objectStart == heapStart + bs[k]
        invariant UpTo(crossMap[..], bs, k, cardIndex)
        invariant cardStart == heapStart + CARD_SIZE * cardIndex && cardEnd == cardStart + CARD_SIZE
        invariant k == |bs| - 1 <==> objectStart == oldGenEnd
        invariant objectStart <= oldGenEnd && 0 <= cardIndex < crossMap.Length
        decreases |bs| - k
      {
        ObjectAt(e, m, heapStart, bs, k);
        CardInRange(crossMap[..], e, m, heapStart, bs, k, cardIndex);
        var nextObject := objectStart + SizeofObject(e, m, AdvanceToObjectData(m, objectStart));
        ghost var before := crossMap[..];
        if nextObject > cardEnd {
          var offset := (objectStart - cardStart) / CROSS_MAP_OFFSET_SCALE;
          crossMap[cardIndex] := offset;
          LeaveCard(before, crossMap[..], bs, k, cardIndex);
          cardIndex := SizeToCardMapIndex(nextObject - 1 - heapStart);
          cardStart := heapStart + CardMapIndexToSize(cardIndex);
          cardEnd := cardStart + CARD_SIZE;
        } else {
          StayInCard(before, bs, k, cardIndex);
        }
        objectStart := nextObject;
        k := k + 1;
      }
      ghost var before := crossMap[..];
      crossMap[cardIndex] := ((oldGenEnd - cardStart) % 256) / CROSS_MAP_OFFSET_SCALE;
      crossMapValidSize := oldGenSize;
      EndOfUpdate(this, e, m, heapStart, before, bs, cardIndex);
    }

    /** isCrossMapOk: tells whether the map agrees with one computed from scratch
        on all cards but the last. */
    method IsCrossMapOk(m: Mem, oldGenSize: int, ghost bs: seq<int>) returns (ok: bool)
      requires ValidModel(e) && heapStart % CARD_SIZE == 0 && bs != []
      requires Boundaries(e, m, heapStart, bs) && Last(bs) == oldGenSize && CardOf(Last(bs)) < crossMap.Length
      requires bs[0] == Align(heapStart + HEADER_SIZE, e.alignment) - HEADER_SIZE - heapStart
      ensures ok <==> forall c {:trigger crossMap[c]} :: 0 <= c < CardOf(Last(bs)) ==> crossMap[c] == Entry(bs, c)
      ensures IsMapOf(bs) ==> ok
    {
      hide Boundaries, Object, SizeofObject, AdvanceToObjectData, Align, Entry, GetCrossMapCardStart, CardOf;
      var map_ := new int[crossMap.Length](c => CROSS_MAP_EMPTY);
      var back := heapStart + oldGenSize;
      var cardIndex := 0;
      var front := Align(heapStart + HEADER_SIZE, e.alignment) - HEADER_SIZE;
      ghost var k: nat := 0;
      NothingWritten(map_[..], bs);
      while true
        invariant k < |bs| && front == heapStart + bs[k]
        invariant Walked(map_[..], bs, k) && map_.Length == crossMap.Length
        decreases |bs| - k
      {
        ObjectAt(e, m, heapStart, bs, k);
        LastCard(e, m, heapStart, bs, k);
        CardStartByOffset(heapStart, bs[k]);
        EntryInRange(bs[k]);
        var cardStart := GetCrossMapCardStart(heapStart, front);
        cardIndex := SizeToCardMapIndex(cardStart - heapStart);
        WalkedFurther(map_[..], bs, k);
        map_[cardIndex] := (front - cardStart) / CROSS_MAP_OFFSET_SCALE;
        if front >= back { break; }
        front := front + SizeofObject(e, m, AdvanceToObjectData(m, front));
        k := k + 1;
      }
      assert bs[..k + 1] == bs;
      ok := true;
      var i := 0;
      while i < cardIndex
        invariant 0 <= i <= cardIndex
        invariant ok <==> forall c {:trigger crossMap[c]} :: 0 <= c < i ==> crossMap[c] == Entry(bs, c)
      {
        assert map_[..][i] == Entry(bs, i);
        ok := ok && map_[i] == crossMap[i];
        i := i + 1;
      }
    }
  }

  /** The boundaries before number k have been entered. */
  ghost predicate Walked(map_: seq<int>, bs: seq<int>, k: nat)
    requires k <= |bs|
  {
    forall c {:trigger map_[c]} :: 0 <= c < |map_| ==> map_[c] == Entry(bs[..k], c)
  }

  lemma NothingWritten(map_: seq<int>, bs: seq<int>)
    requires forall c {:trigger map_[c]} :: 0 <= c < |map_| ==> map_[c] == CROSS_MAP_EMPTY
    ensures Walked(map_, bs, 0)
  {
  }

  lemma WalkedFurther(map_: seq<int>, bs: seq<int>, k: nat)
    requires k < |bs| && Walked(map_, bs, k) && 0 <= CardOf(bs[k]) < |map_|
    ensures Walked(map_[CardOf(bs[k]) := EntryOf(bs[k])], bs, k + 1)
  {
    hide CardOf, EntryOf;
    assert bs[..k + 1] == bs[..k] + [bs[k]];
    forall c {:trigger Entry(bs[..k + 1], c)} ensures Entry(bs[..k + 1], c) == if CardOf(bs[k]) == c then EntryOf(bs[k]) else Entry(bs[..k], c) {
      EntrySnoc(bs[..k], bs[k], c);
    }
  }

  lemma LastCard(e: Model, m: Mem, heapStart: int, bs: seq<int>, k: nat)
    requires Boundaries(e, m, heapStart, bs) && k < |bs|
    ensures 0 <= CardOf(bs[k]) <= CardOf(Last(bs)) && (k < |bs| - 1 <==> bs[k] < Last(bs))
  {
    hide Object;
    NonNegative(e, m, heapStart, bs, k);
    if k < |bs| - 1 { Increasing(e, m, heapStart, bs, k, |bs| - 1); }
  }

  /** The entries of the cards before cardIndex are final, those after it empty,
      and boundary k is in card cardIndex. */
  ghost predicate UpTo(map_: seq<int>, bs: seq<int>, k: nat, cardIndex: int)
    requires k < |bs|
  {
    && CardOf(bs[k]) == cardIndex
    && (forall c {:trigger map_[c]} :: 0 <= c < |map_| && c < cardIndex ==> map_[c] == Entry(bs[..k + 1], c))
    && (forall c {:trigger map_[c]} :: cardIndex < c < |map_| && 0 <= c ==> map_[c] == CROSS_MAP_EMPTY)
    && (forall c {:trigger Entry(bs[..k + 1], c)} :: cardIndex < c ==> Entry(bs[..k + 1], c) == CROSS_MAP_EMPTY)
  }

  lemma EmptyMapIs(g: GenerationalMaps)
    requires g.IsMapOf([])
    ensures g.crossMapValidSize == 0
  {
  }

  lemma OldMapIs(g: GenerationalMaps, e: Model, m: Mem, heapStart: int, bs0: seq<int>, bs: seq<int>)
    requires g.IsMapOf(bs0) && bs0 != [] && Boundaries(e, m, heapStart, bs) && |bs0| <= |bs| && bs0 == bs[..|bs0|]
    ensures g.crossMapValidSize == bs[|bs0| - 1] && 0 < g.crossMapValidSize
  {
    hide Object, Entry;
  }

  lemma SameMap(g: GenerationalMaps, e: Model, m: Mem, heapStart: int, bs0: seq<int>, bs: seq<int>, oldGenSize: int)
    requires g.IsMapOf(bs0) && Boundaries(e, m, heapStart, bs) && Last(bs) == oldGenSize && |bs0| <= |bs| && bs0 == bs[..|bs0|]
    requires g.crossMapValidSize == oldGenSize
    ensures if oldGenSize == 0 then g.IsMapOf(bs0) && g.crossMapValidSize == 0 else g.IsMapOf(bs)
  {
    hide Object, Entry;
    if bs0 != [] {
      if |bs0| < |bs| { Increasing(e, m, heapStart, bs, |bs0| - 1, |bs| - 1); }
      assert bs0 == bs;
    }
  }

  lemma StartOfUpdate(g: GenerationalMaps, e: Model, m: Mem, heapStart: int, bs0: seq<int>, bs: seq<int>, k: nat, cardIndex: int, objectStart: int)
    requires g.IsMapOf(bs0) && Boundaries(e, m, heapStart, bs) && |bs0| <= |bs| && bs0 == bs[..|bs0|] && CardOf(Last(bs)) < g.crossMap.Length
    requires k == if bs0 == [] then 0 else |bs0| - 1
    requires if bs0 == [] then cardIndex == 0 && objectStart == heapStart + bs[0]
             else objectStart == heapStart + Last(bs0) && cardIndex == (Last(bs0) - 1) / CARD_SIZE
    ensures k < |bs| && objectStart == heapStart + bs[k] <= heapStart + Last(bs)
    ensures k == |bs| - 1 <==> objectStart == heapStart + Last(bs)
    ensures UpTo(g.crossMap[..], bs, k, cardIndex) && 0 <= cardIndex < g.crossMap.Length
  {
    hide Object;
    if k < |bs| - 1 { Increasing(e, m, heapStart, bs, k, |bs| - 1); }
    NonNegative(e, m, heapStart, bs, k);
    if bs0 == [] {
      assert bs[..1] == [bs[0]];
      EntrySnoc([], bs[0], 0);
      forall c {:trigger Entry(bs[..1], c)} | 0 < c ensures Entry(bs[..1], c) == CROSS_MAP_EMPTY { EntrySnoc([], bs[0], c); }
    } else {
      assert bs[..k + 1] == bs0;
      forall c {:trigger Entry(bs[..k + 1], c)} | cardIndex < c ensures Entry(bs[..k + 1], c) == CROSS_MAP_EMPTY {
        PrefixIsWalk(e, m, heapStart, bs, k);
        NothingBeyond(e, m, heapStart, bs0, c);
      }
    }
  }

  lemma PrefixIsWalk(e: Model, m: Mem, heapStart: int, bs: seq<int>, k: nat)
    requires Boundaries(e, m, heapStart, bs) && k < |bs|
    ensures Boundaries(e, m, heapStart, bs[..k + 1])
  {
    hide SizeofObject;
    var front := bs[..k + 1];
    forall i | 0 <= i < |front| - 1 ensures Object(e, m, heapStart, front, i) {
      assert Object(e, m, heapStart, bs, i);
    }
  }

  lemma NonNegative(e: Model, m: Mem, heapStart: int, bs: seq<int>, k: nat)
    requires Boundaries(e, m, heapStart, bs) && k < |bs|
    ensures 0 <= bs[k] && (0 < k ==> 0 < bs[k])
  {
    hide Object;
    if k > 0 { Increasing(e, m, heapStart, bs, 0, k); }
  }

  lemma {:induction false} NothingBeyond(e: Model, m: Mem, heapStart: int, bs: seq<int>, c: int)
    requires Boundaries(e, m, heapStart, bs) && CardOf(Last(bs)) < c
    ensures Entry(bs, c) == CROSS_MAP_EMPTY
    decreases |bs|
  {
    hide Object;
    NonNegative(e, m, heapStart, bs, |bs| - 1);
    if |bs| > 1 {
      FrontIsWalk(e, m, heapStart, bs);
      Increasing(e, m, heapStart, bs, |bs| - 2, |bs| - 1);
      NonNegative(e, m, heapStart, bs, |bs| - 2);
      NothingBeyond(e, m, heapStart, bs[..|bs| - 1], c);
    }
  }

  lemma ObjectAt(e: Model, m: Mem, heapStart: int, bs: seq<int>, k: nat)
    requires Boundaries(e, m, heapStart, bs) && k < |bs|
    ensures 0 <= bs[k] <= Last(bs) && bs[k] % CROSS_MAP_OFFSET_SCALE == 0
    ensures k < |bs| - 1 ==> bs[k] < bs[k + 1] == bs[k] + SizeofObject(e, m, AdvanceToObjectData(m, heapStart + bs[k])) && 0 < bs[k + 1] <= Last(bs)
    ensures k + 1 < |bs| - 1 ==> bs[k + 1] < Last(bs)
  {
    hide SizeofObject;
    NonNegative(e, m, heapStart, bs, k);
    if k < |bs| - 1 {
      assert Object(e, m, heapStart, bs, k);
      Increasing(e, m, heapStart, bs, k, |bs| - 1);
      if k + 1 < |bs| - 1 { Increasing(e, m, heapStart, bs, k + 1, |bs| - 1); }
    }
  }

  lemma CardInRange(map_: seq<int>, e: Model, m: Mem, heapStart: int, bs: seq<int>, k: nat, cardIndex: int)
    requires Boundaries(e, m, heapStart, bs) && k + 1 < |bs| && UpTo(map_, bs, k, cardIndex) && CardOf(Last(bs)) < |map_|
    ensures 0 <= CardOf(bs[k + 1]) <= CardOf(Last(bs)) && cardIndex <= CardOf(bs[k + 1])
    ensures CardOf(bs[k + 1]) == (bs[k + 1] - 1) / CARD_SIZE
    ensures bs[k + 1] > CARD_SIZE * cardIndex + CARD_SIZE <==> CardOf(bs[k + 1]) != cardIndex
  {
    hide Object, Entry;
    ObjectAt(e, m, heapStart, bs, k);
    ObjectAt(e, m, heapStart, bs, k + 1);
  }

  lemma LeaveCard(before: seq<int>, after: seq<int>, bs: seq<int>, k: nat, cardIndex: int)
    requires k + 1 < |bs| && UpTo(before, bs, k, cardIndex) && 0 <= cardIndex < |before| && cardIndex < CardOf(bs[k + 1])
    requires after == before[cardIndex := EntryOf(bs[k])]
    ensures UpTo(after, bs, k + 1, CardOf(bs[k + 1]))
  {
    hide CardOf, EntryOf;
    assert bs[..k + 2] == bs[..k + 1] + [bs[k + 1]];
    assert bs[..k + 1] == bs[..k] + [bs[k]];
    EntrySnoc(bs[..k], bs[k], cardIndex);
    forall c {:trigger Entry(bs[..k + 2], c)} ensures c != CardOf(bs[k + 1]) ==> Entry(bs[..k + 2], c) == Entry(bs[..k + 1], c) {
      EntrySnoc(bs[..k + 1], bs[k + 1], c);
    }
    assert Entry(bs[..k + 1], cardIndex) == EntryOf(bs[k]);
  }

  lemma StayInCard(map_: seq<int>, bs: seq<int>, k: nat, cardIndex: int)
    requires k + 1 < |bs| && UpTo(map_, bs, k, cardIndex) && CardOf(bs[k + 1]) == cardIndex
    ensures UpTo(map_, bs, k + 1, cardIndex)
  {
    hide CardOf, EntryOf;
    assert bs[..k + 2] == bs[..k + 1] + [bs[k + 1]];
    forall c {:trigger Entry(bs[..k + 2], c)} ensures c != cardIndex ==> Entry(bs[..k + 2], c) == Entry(bs[..k + 1], c) {
      EntrySnoc(bs[..k + 1], bs[k + 1], c);
    }
  }

  lemma EndOfUpdate(g: GenerationalMaps, e: Model, m: Mem, heapStart: int, before: seq<int>, bs: seq<int>, cardIndex: int)
    requires Boundaries(e, m, heapStart, bs) && |bs| > 0 && UpTo(before, bs, |bs| - 1, cardIndex) && 0 <= cardIndex < |before| == g.crossMap.Length
    requires 0 < Last(bs) == g.crossMapValidSize
    requires g.crossMap[..] == before[cardIndex := LastEntry(Last(bs))]
    ensures g.IsMapOf(bs)
  {
    hide Boundaries, CardOf, Entry;
    assert bs[..|bs|] == bs;
    assert forall c {:trigger g.crossMap[c]} :: 0 <= c < g.crossMap.Length ==> g.crossMap[c] == g.crossMap[..][c];
  }
}
