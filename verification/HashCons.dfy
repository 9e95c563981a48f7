/** Hash-consing of objects without identity (hash-cons.c). */
module HashCons {
  import opened Objects
  import opened Layout
  import opened Probing
  import opened HashTable

  const INITIAL_LENGTH := 64
  const INITIAL_LOG2 := 6

  /** How full a table may be between two calls. The count of insertions is
      not reset when a table grows, so a table that has just been doubled may
      already be due for the next growth; it is then a quarter full. */
  predicate Fits(taken: nat, cur: nat, max: nat, mayInsert: bool) {
    && taken <= cur
    && if mayInsert then cur * 2 <= max || (cur * 2 <= max + 4 && taken * 4 <= max + 4)
       else cur * 2 <= max + 6 && taken * 2 <= max + 2
  }

  /** The same, right after an insertion. */
  predicate Loaded(taken: nat, cur: nat, max: nat, mayInsert: bool) {
    if mayInsert then taken <= cur && (cur * 2 <= max + 2 || (cur * 2 <= max + 6 && taken * 4 <= max + 8))
    else Fits(taken, cur, max, false)
  }

  /** What a call for obj means to the set of stored objects. */
  ghost predicate Cons(v: View, mayInsert: bool, before: set<int>, obj: int, res: int, after: set<int>) {
    if TypeAt(v, obj).hasIdentity then res == obj && after == before
    else if exists x {:trigger x in before} :: x in before && ContentOf(v, x) == ContentOf(v, obj)
    then res in before && ContentOf(v, res) == ContentOf(v, obj) && after == before
    else res == obj && after == if mayInsert then before + {obj} else before
  }

  class ObjectHashTable {
    var elements: array<Element>
    var elementsLengthCur: nat
    var elementsLengthMax: nat
    var elementsLengthMaxLog2: nat
    var mayInsert: bool
    var bytesHashConsed: int

    ghost predicate Holds(v: View)
      reads this, elements
    {
      && elementsLengthMax == elements.Length
      && INITIAL_LOG2 <= elementsLengthMaxLog2
      && TableOk(v, elements[..], elementsLengthMaxLog2)
    }

    ghost predicate Valid(v: View)
      reads this, elements
    {
      Holds(v) && Fits(|Taken(elements[..])|, elementsLengthCur, elementsLengthMax, mayInsert)
    }

    /** allocHashTable, given how many elements the unused part of the heap has
        room for. */
    constructor (v: View, room: nat)
      requires room < 0x8000_0000
      ensures Valid(v) && Stored(elements[..]) == {} && mayInsert && fresh(elements)
      ensures room < INITIAL_LENGTH ==> elementsLengthMax == INITIAL_LENGTH
      ensures room >= INITIAL_LENGTH ==> elementsLengthMax <= room < 2 * elementsLengthMax
    {
      var max, log2 := INITIAL_LENGTH, INITIAL_LOG2;
      if room >= INITIAL_LENGTH {
        while max <= room
          invariant INITIAL_LOG2 <= log2 && max == Pow2(log2) && max <= 2 * room
          decreases 2 * room - max
        {
          max, log2 := max * 2, log2 + 1;
        }
        max, log2 := max / 2, log2 - 1;
      }
      AtMost31(log2);
      elements := new Element[max];
      elementsLengthMax, elementsLengthMaxLog2 := max, log2;
      elementsLengthCur := 0;
      mayInsert := true;
      bytesHashConsed := 0;
      new;
      Clear(elements);
      EmptyIsOk(v, elements[..], elementsLengthMaxLog2);
    }

    /** Sets every slot to null. */
    static method Clear(a: array<Element>)
      modifies a
      ensures forall i :: 0 <= i < a.Length ==> a[i].obj == 0
    {
      var i := 0;
      while i < a.Length
        invariant 0 <= i <= a.Length
        invariant forall j :: 0 <= j < i ==> a[j].obj == 0
      {
        a[i] := a[i].(obj := 0);
        i := i + 1;
      }
    }

    /** Compares obj, which has numWords words, with an object already stored. */
    static method SameContent(v: View, obj: int, other: int, numWords: nat) returns (same: bool)
      requires numWords == NumWords(v, obj)
      ensures same <==> ContentOf(v, obj) == ContentOf(v, other)
    {
      if obj == other { return true; }
      if HeaderAt(v, obj) != HeaderAt(v, other) { return false; }
      var i := 0;
      while i < numWords
        invariant 0 <= i <= numWords
        invariant forall k :: 0 <= k < i ==> WordAt(v, obj + 4 * k) == WordAt(v, other + 4 * k)
      {
        if WordAt(v, obj + 4 * i) != WordAt(v, other + 4 * i) {
          DifferentWord(v, obj, other, i);
          return false;
        }
        i := i + 1;
      }
      same := !(IsArray(v, obj) && LengthAt(v, obj) != LengthAt(v, other));
      SameWords(v, obj, other);
    }

    /** insertHashTableElem: finds an equal object or adds this one. */
    method InsertHashTableElem(v: View, hash: int, obj: int, numWords: nat, mightBeThere: bool) returns (res: int)
      requires Holds(v) && |Taken(elements[..])| < elementsLengthMax
      requires obj != 0 && hash == HashOf(ContentOf(v, obj))
      requires if mightBeThere then numWords == NumWords(v, obj) else !Has(v, elements[..], ContentOf(v, obj))
      modifies this`elementsLengthCur, elements
      ensures Holds(v)
      ensures var stored := old(Stored(elements[..]));
        if old(Has(v, elements[..], ContentOf(v, obj)))
        then res in stored && ContentOf(v, res) == ContentOf(v, obj)
        else res == obj
      ensures old(Has(v, elements[..], ContentOf(v, obj))) || !mayInsert ==>
        elements[..] == old(elements[..]) && elementsLengthCur == old(elementsLengthCur)
      ensures !old(Has(v, elements[..], ContentOf(v, obj))) && mayInsert ==>
        && Stored(elements[..]) == old(Stored(elements[..])) + {obj}
        && |Taken(elements[..])| == old(|Taken(elements[..])|) + 1
        && elementsLengthCur == old(elementsLengthCur) + 1
    {
      hide ContentOf, HashOf, FirstSlot, Stride, NextSlot, Hashed, Canonical, Passes, Has, Taken, Stored;
      ghost var tab, log2, c := elements[..], elementsLengthMaxLog2, ContentOf(v, obj);
      ghost var k: nat, seen: set<int> := 0, {};
      var slot := FirstSlot(hash, elementsLengthMaxLog2);
      var probe := Stride(slot);
      NothingSearched(v, tab, log2, hash, c);
      while true
        invariant elements[..] == tab && elementsLengthCur == old(elementsLengthCur)
        invariant slot == ProbeAt(hash, log2, k)
        invariant Searched(v, tab, log2, hash, k, seen, c)
        decreases elementsLengthMax - k
      {
        StillSearching(v, tab, log2, hash, k, seen, c);
        var e := elements[slot];
        if e.obj == 0 {
          EndOfSearch(v, tab, log2, hash, k, seen, c);
          if !mayInsert { return obj; }
          SearchedPasses(v, tab, log2, hash, k, seen, c);
          InsertKeeps(v, tab, log2, k, hash, obj);
          elements[slot] := Element(hash, obj);
          assert elements[..] == tab[slot := Element(hash, obj)];
          elementsLengthCur := elementsLengthCur + 1;
          return obj;
        }
        var same := false;
        if hash == e.hash && mightBeThere {
          same := SameContent(v, obj, e.obj, numWords);
        } else {
          NotThis(v, tab, log2, slot, hash, c, mightBeThere);
        }
        if same {
          StoredHas(v, tab, slot, c);
          return e.obj;
        }
        SearchOn(v, tab, log2, hash, k, seen, c);
        seen, k := seen + {slot}, k + 1;
        slot := NextSlot(slot, probe, elementsLengthMax);
      }
    }

    /** growHashTableMaybe, given whether memory for a larger table can be had. */
    method GrowHashTableMaybe(v: View, available: bool)
      requires Holds(v) && Loaded(|Taken(elements[..])|, elementsLengthCur, elementsLengthMax, mayInsert)
      requires available ==> elementsLengthMaxLog2 < 31
      modifies this
      ensures Valid(v) && Stored(elements[..]) == old(Stored(elements[..]))
      ensures bytesHashConsed == old(bytesHashConsed)
      ensures var due := old(mayInsert && elementsLengthCur * 2 > elementsLengthMax);
        && mayInsert == (old(mayInsert) && (due ==> available))
        && elementsLengthMax == (if due && available then 2 * old(elementsLengthMax) else old(elementsLengthMax))
        && elementsLengthCur == old(elementsLengthCur) + (if due && available then old(|Taken(elements[..])|) else 0)
        && (if due && available then fresh(elements) else elements == old(elements))
    {
      hide Shaped, Hashed, Canonical, Taken, Stored, Full, Pow2, Fits, Loaded;
      LoadedFits(v, elements[..], elementsLengthMaxLog2, elementsLengthCur, mayInsert);
      if !mayInsert || elementsLengthCur * 2 <= elementsLengthMax { return; }
      if !available {
        mayInsert := false;
        return;
      }
      var oldElements, oldElementsLengthMax := elements, elementsLengthMax;
      ghost var was, log2 := elements[..], elementsLengthMaxLog2;
      elements := new Element[oldElementsLengthMax * 2](i => Element(0, 0));
      elementsLengthMax := oldElementsLengthMax * 2;
      elementsLengthMaxLog2 := elementsLengthMaxLog2 + 1;
      NothingMoved(v, was, log2, elements[..]);
      Reinsert(v, oldElements, was);
      assert was[..|was|] == was;
    }

    /** Puts every element of the old table into the new one. */
    method Reinsert(v: View, oldElements: array<Element>, ghost was: seq<Element>)
      requires Holds(v) && elements != oldElements && oldElements[..] == was && 2 * |was| == elementsLengthMax
      requires Hashed(v, was) && Canonical(v, was) && mayInsert && Moved(was, 0, elements[..])
      modifies this`elementsLengthCur, elements
      ensures Holds(v) && Moved(was, |was|, elements[..])
      ensures elementsLengthCur == old(elementsLengthCur) + |Taken(was)|
    {
      hide TableOk, Hashed, Canonical, Has, Taken, Stored;
      var i := 0;
      AllSlots(was);
      while i < oldElements.Length
        invariant 0 <= i <= |was|
        invariant oldElements[..] == was
        invariant Holds(v) && Moved(was, i, elements[..])
        invariant elementsLengthCur == old(elementsLengthCur) + |Taken(was[..i])|
      {
        OneMore(was, i);
        if oldElements[i].obj != 0 {
          NextIsNew(v, was, i, elements[..]);
          HashIs(v, was, i);
          var _ := InsertHashTableElem(v, oldElements[i].hash, oldElements[i].obj, 0, false);
        }
        i := i + 1;
      }
    }

    /** hashConsPointer: the one object that stands for all those equal to obj. */
    method HashConsPointer(v: View, obj: int, countBytesHashConsed: bool, available: bool) returns (res: int)
      requires Valid(v) && obj != 0
      requires TypeAt(v, obj).hasIdentity || TypeAt(v, obj).tag in {NormalTag, ArrayTag}
      requires available ==> elementsLengthMaxLog2 < 31
      modifies this, elements
      ensures Valid(v) && (elements == old(elements) || fresh(elements))
      ensures Cons(v, old(mayInsert), old(Stored(elements[..])), obj, res, Stored(elements[..]))
      ensures mayInsert ==> old(mayInsert)
      ensures bytesHashConsed == old(bytesHashConsed) + if countBytesHashConsed && res != obj then SizeofShared(v, obj) else 0
    {
      hide ContentOf, HashOf, TableOk, Has, Taken, Stored, TypeOf, ArrayNoHeader;
      var t := TypeAt(v, obj);
      if t.hasIdentity { return obj; }
      var max := obj + (if t.tag == ArrayTag then ArrayNoHeader(v.e, Length(LengthAt(v, obj)), t) else FixedBytes(t));
      var numWords := if max <= obj then 0 else (max - obj + 3) / 4;
      var hash := ComputeHash(v, obj, numWords);
      HasIsStored(v, elements[..], ContentOf(v, obj));
      FitsHasRoom(v, elements[..], elementsLengthMaxLog2, elementsLengthCur, mayInsert);
      res := InsertHashTableElem(v, hash, obj, numWords, true);
      GrowHashTableMaybe(v, available);
      if countBytesHashConsed && res != obj {
        bytesHashConsed := bytesHashConsed + (max - obj) + (if t.tag == ArrayTag then ARRAY_HEADER_SIZE else HEADER_SIZE);
      }
    }

    static method ComputeHash(v: View, obj: int, numWords: nat) returns (hash: int)
      requires numWords == NumWords(v, obj)
      ensures hash == HashOf(ContentOf(v, obj))
    {
      ghost var c := ContentOf(v, obj);
      hash := HeaderAt(v, obj) % WORD;
      var i := 0;
      while i < numWords
        invariant 0 <= i <= numWords
        invariant hash == HashUpTo(c, i)
      {
        hash := (hash * 31 + WordAt(v, obj + 4 * i)) % WORD;
        i := i + 1;
      }
    }
  }

  /** The bytes an object takes, header included. */
  function SizeofShared(v: View, obj: int): int {
    SizeByType(v.e, TypeAt(v, obj), Length(LengthAt(v, obj)), 0)
  }

  lemma {:induction false} AtMost31(log2: nat)
    requires Pow2(log2) < 0x8000_0000
    ensures log2 <= 31
  {
    if log2 > 31 {
      Pow2Grows(32, log2);
      Pow2Of32();
    }
  }

  lemma {:induction false} Pow2Grows(a: nat, b: nat)
    requires a <= b
    ensures Pow2(a) <= Pow2(b)
    decreases b
  {
    if a < b { Pow2Grows(a, b - 1); }
  }

  lemma DifferentWord(v: View, obj: int, other: int, i: nat)
    requires i < NumWords(v, obj) && WordAt(v, obj + 4 * i) != WordAt(v, other + 4 * i)
    ensures ContentOf(v, obj) != ContentOf(v, other)
  {
    assert ContentOf(v, obj).words[i] == WordAt(v, obj + 4 * i);
    if NumWords(v, other) == NumWords(v, obj) { assert ContentOf(v, other).words[i] == WordAt(v, other + 4 * i); }
  }

  lemma SameWords(v: View, obj: int, other: int)
    requires HeaderAt(v, obj) == HeaderAt(v, other)
    requires forall k :: 0 <= k < NumWords(v, obj) ==> WordAt(v, obj + 4 * k) == WordAt(v, other + 4 * k)
    ensures ContentOf(v, obj) == ContentOf(v, other) <==> (IsArray(v, obj) ==> LengthAt(v, obj) == LengthAt(v, other))
  {
    if IsArray(v, obj) ==> LengthAt(v, obj) == LengthAt(v, other) {
      assert NumWords(v, obj) == NumWords(v, other);
      assert ContentOf(v, obj).words == ContentOf(v, other).words;
    }
  }

  lemma NothingSearched(v: View, tab: seq<Element>, log2: nat, hash: int, c: Content)
    requires log2 <= 32
    ensures Searched(v, tab, log2, hash, 0, {}, c)
  {
  }

  lemma SearchedPasses(v: View, tab: seq<Element>, log2: nat, hash: int, k: nat, seen: set<int>, c: Content)
    requires log2 <= 32 && Searched(v, tab, log2, hash, k, seen, c)
    ensures Passes(tab, log2, hash, k)
  {
  }

  lemma NotThis(v: View, tab: seq<Element>, log2: nat, i: int, hash: int, c: Content, mightBeThere: bool)
    requires TableOk(v, tab, log2) && Full(tab, i) && hash == HashOf(c)
    requires mightBeThere || !Has(v, tab, c)
    requires tab[i].hash != hash || !mightBeThere
    ensures ContentOf(v, tab[i].obj) != c
  {
    hide ContentOf, HashOf, Shaped;
  }

  lemma StoredHas(v: View, tab: seq<Element>, i: int, c: Content)
    requires Full(tab, i) && ContentOf(v, tab[i].obj) == c
    ensures Has(v, tab, c) && tab[i].obj in Stored(tab)
  {
    hide ContentOf;
  }

  lemma AllSlots(was: seq<Element>)
    ensures was[..|was|] == was && Taken(was[..0]) == {}
  {
  }

  lemma NothingMoved(v: View, was: seq<Element>, log2: nat, tab: seq<Element>)
    requires log2 < 31 && |was| == Pow2(log2) && |tab| == 2 * |was| && forall i :: 0 <= i < |tab| ==> tab[i].obj == 0
    ensures TableOk(v, tab, log2 + 1) && Moved(was, 0, tab)
  {
    EmptyIsOk(v, tab, log2 + 1);
    assert was[..0] == [];
  }

  lemma Roomy(v: View, tab: seq<Element>, log2: nat)
    requires TableOk(v, tab, log2) && INITIAL_LOG2 <= log2
    ensures INITIAL_LENGTH <= |tab|
  {
    Pow2Grows(INITIAL_LOG2, log2);
  }

  /** What becomes of a table that may be due for growth. */
  lemma LoadedFits(v: View, tab: seq<Element>, log2: nat, cur: nat, mayInsert: bool)
    requires TableOk(v, tab, log2) && INITIAL_LOG2 <= log2 && Loaded(|Taken(tab)|, cur, |tab|, mayInsert)
    ensures |tab| == Pow2(log2)
    ensures var taken, max := |Taken(tab)|, |tab|;
      && (!mayInsert || cur * 2 <= max ==> Fits(taken, cur, max, mayInsert))
      && (mayInsert && cur * 2 > max ==> Fits(taken, cur, max, false) && Fits(taken, cur + taken, 2 * max, true))
  {
    Roomy(v, tab, log2);
  }

  lemma FitsHasRoom(v: View, tab: seq<Element>, log2: nat, cur: nat, mayInsert: bool)
    requires TableOk(v, tab, log2) && INITIAL_LOG2 <= log2 && Fits(|Taken(tab)|, cur, |tab|, mayInsert)
    ensures |Taken(tab)| < |tab|
  {
    Roomy(v, tab, log2);
  }

  lemma HashIs(v: View, was: seq<Element>, i: int)
    requires Hashed(v, was) && Full(was, i)
    ensures was[i].hash == HashOf(ContentOf(v, was[i].obj))
  {
    hide ContentOf, HashOf;
  }

  // --------------------------------------------------------------- canonicity

  /** One call: its argument, its result, and whether it was free to insert. */
  datatype Call = Call(obj: int, res: int, mayInsert: bool)

  /** The stored objects before, between and after the calls. */
  ghost predicate IsRun(v: View, calls: seq<Call>, stored: seq<set<int>>) {
    && |stored| == |calls| + 1
    && stored[0] == {}
    && forall k {:trigger CallOk(v, calls, stored, k)} :: 0 <= k < |calls| ==> CallOk(v, calls, stored, k)
  }

  ghost predicate CallOk(v: View, calls: seq<Call>, stored: seq<set<int>>, k: int) {
    && 0 <= k < |calls| && k + 1 < |stored|
    && Cons(v, calls[k].mayInsert, stored[k], calls[k].obj, calls[k].res, stored[k + 1])
  }

  ghost predicate OneEach(v: View, stored: set<int>) {
    forall x, y {:trigger x in stored, y in stored} :: x in stored && y in stored && ContentOf(v, x) == ContentOf(v, y) ==> x == y
  }

  lemma {:induction false} StoredOneEach(v: View, calls: seq<Call>, stored: seq<set<int>>, k: nat)
    requires IsRun(v, calls, stored) && k <= |calls|
    ensures OneEach(v, stored[k])
    decreases k
  {
    hide ContentOf;
    if k > 0 {
      StoredOneEach(v, calls, stored, k - 1);
      assert CallOk(v, calls, stored, k - 1);
    }
  }

  lemma {:induction false} StoredGrows(v: View, calls: seq<Call>, stored: seq<set<int>>, i: nat, j: nat)
    requires IsRun(v, calls, stored) && i <= j <= |calls|
    ensures stored[i] <= stored[j]
    decreases j
  {
    hide ContentOf;
    if i < j {
      StoredGrows(v, calls, stored, i, j - 1);
      assert CallOk(v, calls, stored, j - 1);
    }
  }

  /** Of two objects without identity, given to calls the first of which was
      free to insert, the results are the same object exactly when the contents
      are equal; and a result never differs in content from its argument. */
  lemma OneRepresentative(v: View, calls: seq<Call>, stored: seq<set<int>>, i: nat, j: nat)
    requires IsRun(v, calls, stored) && i < j < |calls|
    requires !TypeAt(v, calls[i].obj).hasIdentity && !TypeAt(v, calls[j].obj).hasIdentity
    requires calls[i].mayInsert
    ensures ContentOf(v, calls[i].res) == ContentOf(v, calls[i].obj)
    ensures ContentOf(v, calls[j].res) == ContentOf(v, calls[j].obj)
    ensures calls[i].res == calls[j].res <==> ContentOf(v, calls[i].obj) == ContentOf(v, calls[j].obj)
  {
    hide ContentOf;
    assert CallOk(v, calls, stored, i) && CallOk(v, calls, stored, j);
    assert calls[i].res in stored[i + 1];
    StoredGrows(v, calls, stored, i + 1, j);
    StoredOneEach(v, calls, stored, j);
  }
}
