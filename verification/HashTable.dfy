/** What the table behind hash-consing holds (hash-cons.h, hash-cons.c). */
module HashTable {
  import opened Memory
  import opened Objects
  import opened Layout
  import opened Probing

  // -------------------------------------------------------- contents of objects

  /** The compiled program's types and memory. Hashing and comparing go through
      objects in words of 32 bits, so here the cell at an address holds the 32
      bits that start there. */
  datatype View = View(e: Model, words: Mem)

  function WordAt(v: View, a: int): int { Rd(v.words, a) % WORD }

  function WideAt(v: View, a: int): int { WordAt(v, a) + WORD * WordAt(v, a + 4) }

  function HeaderAt(v: View, o: int): int { WideAt(v, o - HEADER_SIZE) }

  function LengthAt(v: View, o: int): int { WideAt(v, o - 16) }

  function TypeAt(v: View, o: int): ObjectType { TypeOf(v.e, HeaderAt(v, o)) }

  predicate IsArray(v: View, o: int) { TypeAt(v, o).tag == ArrayTag }

  /** The 32-bit words of o, padding included. */
  function NumWords(v: View, o: int): nat {
    var t := TypeAt(v, o);
    var bytes := if t.tag == ArrayTag then ArrayNoHeader(v.e, Length(LengthAt(v, o)), t) else FixedBytes(t);
    if bytes <= 0 then 0 else (bytes + 3) / 4
  }

  /** All that tells two objects without identity apart. */
  datatype Content = Content(header: int, length: int, words: seq<int>)

  function ContentOf(v: View, o: int): Content {
    Content(HeaderAt(v, o), if IsArray(v, o) then LengthAt(v, o) else 0, seq(NumWords(v, o), i => WordAt(v, o + 4 * i)))
  }

  function HashUpTo(c: Content, n: nat): int
    requires n <= |c.words|
  {
    if n == 0 then c.header % WORD else (HashUpTo(c, n - 1) * 31 + c.words[n - 1]) % WORD
  }

  function HashOf(c: Content): int { HashUpTo(c, |c.words|) }

  // ------------------------------------------------------------- the elements

  /** A slot whose object is null is empty. */
  datatype Element = Element(hash: int, obj: int)

  predicate Full(tab: seq<Element>, i: int) { 0 <= i < |tab| && tab[i].obj != 0 }

  ghost function Taken(tab: seq<Element>): set<int> { set i: int | 0 <= i < |tab| && Full(tab, i) }

  ghost function Stored(tab: seq<Element>): set<int> { set i: int | 0 <= i < |tab| && Full(tab, i) :: tab[i].obj }

  /** The first k probes for the hash all come upon taken slots. */
  ghost predicate Passes(tab: seq<Element>, log2: nat, hash: int, k: nat)
    requires log2 <= 32
  {
    forall j: nat {:trigger ProbeAt(hash, log2, j)} :: j < k ==> Full(tab, ProbeAt(hash, log2, j))
  }

  /** A search for its hash gets as far as slot i. */
  ghost predicate Reached(tab: seq<Element>, log2: nat, i: int)
    requires log2 <= 32 && 0 <= i < |tab|
  {
    exists k: nat {:trigger Passes(tab, log2, tab[i].hash, k)} :: ProbeAt(tab[i].hash, log2, k) == i && Passes(tab, log2, tab[i].hash, k)
  }

  ghost predicate Shaped(tab: seq<Element>, log2: nat) {
    && log2 <= 31
    && |tab| == Pow2(log2)
    && forall i {:trigger Full(tab, i)} :: Full(tab, i) ==> Reached(tab, log2, i)
  }

  ghost predicate Hashed(v: View, tab: seq<Element>) {
    forall i {:trigger Full(tab, i)} :: Full(tab, i) ==> tab[i].hash == HashOf(ContentOf(v, tab[i].obj))
  }

  ghost predicate Canonical(v: View, tab: seq<Element>) {
    forall i, j {:trigger Full(tab, i), Full(tab, j)} ::
      Full(tab, i) && Full(tab, j) && ContentOf(v, tab[i].obj) == ContentOf(v, tab[j].obj) ==> i == j
  }

  /** Everything stored can be found again, and no content is stored twice. */
  ghost predicate TableOk(v: View, tab: seq<Element>, log2: nat) {
    Shaped(tab, log2) && Hashed(v, tab) && Canonical(v, tab)
  }

  ghost predicate Has(v: View, tab: seq<Element>, c: Content) {
    exists i {:trigger Full(tab, i)} :: Full(tab, i) && ContentOf(v, tab[i].obj) == c
  }

  lemma HasIsStored(v: View, tab: seq<Element>, c: Content)
    ensures Has(v, tab, c) <==> exists x {:trigger x in Stored(tab)} :: x in Stored(tab) && ContentOf(v, x) == c
  {
    hide ContentOf;
    if Has(v, tab, c) {
      var i :| Full(tab, i) && ContentOf(v, tab[i].obj) == c;
      assert tab[i].obj in Stored(tab);
    }
  }

  lemma EmptyIsOk(v: View, tab: seq<Element>, log2: nat)
    requires log2 <= 31 && |tab| == Pow2(log2) && forall i :: 0 <= i < |tab| ==> !Full(tab, i)
    ensures TableOk(v, tab, log2) && Taken(tab) == {} && Stored(tab) == {}
  {
  }

  // ---------------------------------------------------------------- searching

  /** The probes made so far are k different taken slots, none holding c. */
  ghost predicate Searched(v: View, tab: seq<Element>, log2: nat, hash: int, k: nat, seen: set<int>, c: Content)
    requires log2 <= 32
  {
    && Passes(tab, log2, hash, k)
    && |seen| == k
    && (forall i :: i in seen ==> i in Taken(tab) && ContentOf(v, tab[i].obj) != c)
    && (forall i :: i in seen ==> exists j: nat :: j < k && ProbeAt(hash, log2, j) == i)
    && (forall j: nat {:trigger ProbeAt(hash, log2, j)} :: j < k ==> ProbeAt(hash, log2, j) in seen)
  }

  lemma {:induction false} SubsetSize<T>(small: set<T>, big: set<T>)
    requires small <= big
    ensures |small| <= |big|
    decreases |small|
  {
    if |small| > 0 {
      var x :| x in small;
      SubsetSize(small - {x}, big - {x});
    }
  }

  lemma StillSearching(v: View, tab: seq<Element>, log2: nat, hash: int, k: nat, seen: set<int>, c: Content)
    requires Shaped(tab, log2) && |Taken(tab)| < |tab|
    requires Searched(v, tab, log2, hash, k, seen, c)
    ensures 0 <= ProbeAt(hash, log2, k) < |tab| && k < |tab|
  {
    hide Passes, ContentOf, ProbeAt;
    ProbeInTable(hash, log2, k);
    assert seen <= Taken(tab);
    SubsetSize(seen, Taken(tab));
  }

  lemma SearchOn(v: View, tab: seq<Element>, log2: nat, hash: int, k: nat, seen: set<int>, c: Content)
    requires Shaped(tab, log2) && |Taken(tab)| < |tab|
    requires Searched(v, tab, log2, hash, k, seen, c)
    requires Full(tab, ProbeAt(hash, log2, k)) && ContentOf(v, tab[ProbeAt(hash, log2, k)].obj) != c
    ensures Searched(v, tab, log2, hash, k + 1, seen + {ProbeAt(hash, log2, k)}, c)
  {
    hide ContentOf, ProbeAt;
    StillSearching(v, tab, log2, hash, k, seen, c);
    var i := ProbeAt(hash, log2, k);
    forall j: nat | j < k ensures ProbeAt(hash, log2, j) != i {
      ProbesDiffer(hash, log2, j, k);
    }
    assert i !in seen;
    var more := seen + {i};
    forall x | x in more ensures exists j: nat :: j < k + 1 && ProbeAt(hash, log2, j) == x {
      if x in seen {
        var j: nat :| j < k && ProbeAt(hash, log2, j) == x;
        assert j < k + 1;
      } else {
        assert k < k + 1;
      }
    }
  }

  /** A search that meets an empty slot has missed nothing. */
  lemma EndOfSearch(v: View, tab: seq<Element>, log2: nat, hash: int, k: nat, seen: set<int>, c: Content)
    requires TableOk(v, tab, log2) && hash == HashOf(c)
    requires Searched(v, tab, log2, hash, k, seen, c)
    requires !Full(tab, ProbeAt(hash, log2, k))
    ensures !Has(v, tab, c)
  {
    hide ContentOf, ProbeAt, HashOf;
    forall i {:trigger Full(tab, i)} | Full(tab, i) ensures ContentOf(v, tab[i].obj) != c {
      if tab[i].hash == hash {
        assert Reached(tab, log2, i);
        var n: nat :| ProbeAt(hash, log2, n) == i && Passes(tab, log2, hash, n);
        assert n < k;
        assert i in seen;
      }
    }
  }

  // ---------------------------------------------------------------- inserting

  lemma InsertKeeps(v: View, tab: seq<Element>, log2: nat, k: nat, hash: int, obj: int)
    requires TableOk(v, tab, log2) && obj != 0 && hash == HashOf(ContentOf(v, obj))
    requires Passes(tab, log2, hash, k) && 0 <= ProbeAt(hash, log2, k) < |tab| && !Full(tab, ProbeAt(hash, log2, k))
    requires !Has(v, tab, ContentOf(v, obj))
    ensures var tab' := tab[ProbeAt(hash, log2, k) := Element(hash, obj)];
      && TableOk(v, tab', log2)
      && Stored(tab') == Stored(tab) + {obj}
      && |Taken(tab')| == |Taken(tab)| + 1
  {
    hide ContentOf, ProbeAt, HashOf;
    var i := ProbeAt(hash, log2, k);
    var tab' := tab[i := Element(hash, obj)];
    InsertShaped(tab, log2, k, hash, obj);
    assert Taken(tab') == Taken(tab) + {i};
    InsertStored(tab, i, Element(hash, obj));
    assert Hashed(v, tab') by {
      forall j {:trigger Full(tab', j)} | Full(tab', j) ensures tab'[j].hash == HashOf(ContentOf(v, tab'[j].obj)) {
        if j != i { assert Full(tab, j); }
      }
    }
    forall j {:trigger Full(tab', j)} | Full(tab', j) && j != i ensures ContentOf(v, tab'[j].obj) != ContentOf(v, obj) {
      assert Full(tab, j);
    }
    forall j, n {:trigger Full(tab', j), Full(tab', n)} | Full(tab', j) && Full(tab', n) && ContentOf(v, tab'[j].obj) == ContentOf(v, tab'[n].obj) ensures j == n {
      if j != i && n != i { assert Full(tab, j) && Full(tab, n); }
    }
  }

  lemma InsertStored(tab: seq<Element>, i: int, x: Element)
    requires 0 <= i < |tab| && !Full(tab, i) && x.obj != 0
    ensures Stored(tab[i := x]) == Stored(tab) + {x.obj}
  {
    var tab' := tab[i := x];
    forall y | y in Stored(tab) ensures y in Stored(tab') {
      var j :| 0 <= j < |tab| && Full(tab, j) && tab[j].obj == y;
      assert Full(tab', j) && tab'[j].obj == y;
    }
    assert Full(tab', i);
  }

  lemma InsertShaped(tab: seq<Element>, log2: nat, k: nat, hash: int, obj: int)
    requires Shaped(tab, log2) && obj != 0
    requires Passes(tab, log2, hash, k) && 0 <= ProbeAt(hash, log2, k) < |tab| && !Full(tab, ProbeAt(hash, log2, k))
    ensures Shaped(tab[ProbeAt(hash, log2, k) := Element(hash, obj)], log2)
  {
    hide ProbeAt;
    var i := ProbeAt(hash, log2, k);
    var tab' := tab[i := Element(hash, obj)];
    forall j {:trigger Full(tab', j)} | Full(tab', j) ensures Reached(tab', log2, j) {
      if j == i {
        assert Passes(tab', log2, tab'[i].hash, k);
      } else {
        assert Full(tab, j);
        var n: nat :| ProbeAt(tab[j].hash, log2, n) == j && Passes(tab, log2, tab[j].hash, n);
        assert Passes(tab', log2, tab'[j].hash, n);
      }
    }
  }

  // ------------------------------------------------------------------ growing

  /** The new table holds what the first n slots of the old one did. */
  ghost predicate Moved(was: seq<Element>, n: nat, tab: seq<Element>)
    requires n <= |was|
  {
    Stored(tab) == Stored(was[..n]) && |Taken(tab)| == |Taken(was[..n])|
  }

  lemma OneMore(was: seq<Element>, n: nat)
    requires n < |was|
    ensures !Full(was, n) ==> Stored(was[..n + 1]) == Stored(was[..n]) && Taken(was[..n + 1]) == Taken(was[..n])
    ensures Full(was, n) ==> Stored(was[..n + 1]) == Stored(was[..n]) + {was[n].obj} && |Taken(was[..n + 1])| == |Taken(was[..n])| + 1
    ensures |Taken(was[..n])| <= n
  {
    var a, b := was[..n], was[..n + 1];
    assert forall i {:trigger Full(a, i)} {:trigger Full(b, i)} :: 0 <= i < n ==> a[i] == b[i] && Full(a, i) == Full(b, i);
    assert b[n] == was[n];
    assert b == a + [was[n]];
    SnocStored(a, was[n]);
    assert Taken(b) == if Full(was, n) then Taken(a) + {n} else Taken(a);
    assert Taken(a) <= UpTo(n);
    SubsetSize(Taken(a), UpTo(n));
  }

  lemma SnocStored(a: seq<Element>, x: Element)
    ensures Stored(a + [x]) == Stored(a) + if x.obj != 0 then {x.obj} else {}
  {
    var b := a + [x];
    forall y | y in Stored(a) ensures y in Stored(b) {
      var j :| 0 <= j < |a| && Full(a, j) && a[j].obj == y;
      assert Full(b, j) && b[j].obj == y;
    }
    forall y | y in Stored(b) ensures y in Stored(a) || (x.obj != 0 && y == x.obj) {
      var j :| 0 <= j < |b| && Full(b, j) && b[j].obj == y;
      if j < |a| { assert Full(a, j) && a[j].obj == y; }
    }
    if x.obj != 0 { assert Full(b, |a|); }
  }

  ghost function UpTo(n: nat): (r: set<int>)
    ensures |r| == n && forall i :: i in r <==> 0 <= i < n
  {
    if n == 0 then {} else UpTo(n - 1) + {n - 1}
  }

  /** What comes next is not in the new table yet. */
  lemma NextIsNew(v: View, was: seq<Element>, n: nat, tab: seq<Element>)
    requires Canonical(v, was) && n < |was| && Full(was, n) && Stored(tab) == Stored(was[..n])
    ensures !Has(v, tab, ContentOf(v, was[n].obj))
  {
    hide ContentOf;
    var c := ContentOf(v, was[n].obj);
    var part := was[..n];
    HasIsStored(v, tab, c);
    forall x {:trigger x in Stored(tab)} | x in Stored(tab) ensures ContentOf(v, x) != c {
      var j :| 0 <= j < |part| && Full(part, j) && part[j].obj == x;
      assert Full(was, j);
    }
  }
}
