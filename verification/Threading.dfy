/** Pointer threading, the device of Jonkers' compactor (mark-compact.c): all
    the slots that point to an object are linked into a chain that starts in
    the object's header word and ends in the displaced header. The logical
    memory is what the heap would hold were nothing threaded. */
module Threading {
  import opened Sequences
  import opened Memory
  import opened Objects

  /** The slots threaded to each object, most recent first. */
  type Chains = map<int, seq<int>>

  ghost predicate Linked(m: Mem, head: int, l: seq<int>, h: int) {
    && Rd(m, head) == (if l == [] then h else l[0])
    && forall i {:trigger Rd(m, l[i])} :: 0 <= i < |l| ==> Rd(m, l[i]) == (if i + 1 < |l| then l[i + 1] else h)
  }

  /** Slot s is threaded to the object it logically points to. */
  ghost predicate Pending(lm: Mem, ch: Chains, s: int) {
    Rd(lm, s) in ch && s in ch[Rd(lm, s)]
  }

  ghost predicate ChainOk(m: Mem, lm: Mem, x: int, l: seq<int>, slots: set<int>) {
    && x - HEADER_SIZE !in slots
    && IsHeader(Rd(lm, x - HEADER_SIZE))
    && Distinct(l)
    && (forall s {:trigger s in l} :: s in l ==> s in slots && Rd(lm, s) == x)
    && Linked(m, x - HEADER_SIZE, l, Rd(lm, x - HEADER_SIZE))
  }

  /** m holds the logical memory lm with the chains ch threaded through it.
      Slots never share a cell with a header, and no slot looks like one. */
  ghost predicate Rep(m: Mem, lm: Mem, ch: Chains, slots: set<int>) {
    && (forall s :: s in slots ==> !IsHeader(s) && s != 0)
    && (forall x :: x in ch ==> ChainOk(m, lm, x, ch[x], slots))
    && (forall a {:trigger Rd(m, a)} :: a + HEADER_SIZE !in ch && !Pending(lm, ch, a) ==> Rd(m, a) == Rd(lm, a))
  }

  lemma RepReadsSlot(m: Mem, lm: Mem, ch: Chains, slots: set<int>, s: int)
    requires Rep(m, lm, ch, slots) && s in slots && !Pending(lm, ch, s)
    ensures Rd(m, s) == Rd(lm, s) && s + HEADER_SIZE !in ch
  {
    assert s + HEADER_SIZE in ch ==> ChainOk(m, lm, s + HEADER_SIZE, ch[s + HEADER_SIZE], slots);
  }

  lemma LinkedCons(m: Mem, m': Mem, head: int, l: seq<int>, h: int, s: int)
    requires Linked(m, head, l, h)
    requires Rd(m', head) == s && Rd(m', s) == Rd(m, head)
    requires forall i :: 0 <= i < |l| ==> Rd(m', l[i]) == Rd(m, l[i])
    ensures Linked(m', head, [s] + l, h)
  {
    var l' := [s] + l;
    forall i | 0 <= i < |l'| ensures Rd(m', l'[i]) == (if i + 1 < |l'| then l'[i + 1] else h) {
      if i > 0 { assert l'[i] == l[i - 1]; }
      assert i < |l| ==> l'[i + 1] == l[i];
    }
  }

  lemma LinkedTail(m: Mem, m': Mem, head: int, l: seq<int>, h: int)
    requires l != [] && Linked(m, head, l, h)
    requires Rd(m', head) == Rd(m, l[0])
    requires forall i :: 1 <= i < |l| ==> Rd(m', l[i]) == Rd(m, l[i])
    ensures Linked(m', head, l[1..], h)
  {
    var l' := l[1..];
    forall i | 0 <= i < |l'| ensures Rd(m', l'[i]) == (if i + 1 < |l'| then l'[i + 1] else h) {
      assert l'[i] == l[i + 1] && (i + 1 < |l'| ==> l'[i + 1] == l[i + 2]);
    }
  }

  /** A chain whose cells are untouched stays as it was. */
  lemma ChainFrame(m: Mem, lm: Mem, m': Mem, lm': Mem, x: int, l: seq<int>, slots: set<int>)
    requires ChainOk(m, lm, x, l, slots)
    requires Rd(m', x - HEADER_SIZE) == Rd(m, x - HEADER_SIZE) && Rd(lm', x - HEADER_SIZE) == Rd(lm, x - HEADER_SIZE)
    requires forall s {:trigger s in l} :: s in l ==> Rd(m', s) == Rd(m, s) && Rd(lm', s) == Rd(lm, s)
    ensures ChainOk(m', lm', x, l, slots)
  {
    assert forall i :: 0 <= i < |l| ==> l[i] in l;
  }

  function ThreadSlot(m: Mem, s: int, x: int): (r: Mem)
    ensures forall a {:trigger Rd(r, a)} :: a != s && a != x - HEADER_SIZE ==> Rd(r, a) == Rd(m, a)
    ensures Rd(r, x - HEADER_SIZE) == s
    ensures s != x - HEADER_SIZE ==> Rd(r, s) == Rd(m, x - HEADER_SIZE)
  {
    m[s := Rd(m, x - HEADER_SIZE)][x - HEADER_SIZE := s]
  }

  /** threadInternalObjptr pushes the slot onto its target's chain. */
  lemma ThreadSlotKeepsRep(m: Mem, lm: Mem, ch: Chains, slots: set<int>, s: int)
    requires Rep(m, lm, ch, slots) && s in slots && !Pending(lm, ch, s) && Rd(lm, s) in ch
    ensures var x := Rd(lm, s);
      Rep(ThreadSlot(m, s, x), lm, ch[x := [s] + ch[x]], slots)
  {
    hide ThreadSlot;
    var x := Rd(lm, s);
    var m' := ThreadSlot(m, s, x);
    var ch' := ch[x := [s] + ch[x]];
    RepReadsSlot(m, lm, ch, slots, s);
    ThreadedChainOk(m, lm, ch, slots, s);
    forall y | y in ch' ensures ChainOk(m', lm, y, ch'[y], slots) {
      if y != x {
        assert ChainOk(m, lm, y, ch[y], slots);
        ChainFrame(m, lm, m', lm, y, ch[y], slots);
      }
    }
  }

  lemma ThreadedChainOk(m: Mem, lm: Mem, ch: Chains, slots: set<int>, s: int)
    requires Rep(m, lm, ch, slots) && s in slots && !Pending(lm, ch, s) && Rd(lm, s) in ch
    ensures var x := Rd(lm, s);
      ChainOk(ThreadSlot(m, s, x), lm, x, [s] + ch[x], slots)
  {
    hide ThreadSlot;
    var x := Rd(lm, s);
    var m' := ThreadSlot(m, s, x);
    RepReadsSlot(m, lm, ch, slots, s);
    assert ChainOk(m, lm, x, ch[x], slots);
    assert forall i :: 0 <= i < |ch[x]| ==> ch[x][i] in ch[x];
    LinkedCons(m, m', x - HEADER_SIZE, ch[x], Rd(lm, x - HEADER_SIZE), s);
  }

  /** A slot that is not threaded gets another word, to which no slot can be. */
  lemma RedirectKeepsRep(m: Mem, lm: Mem, ch: Chains, slots: set<int>, s: int, w: int)
    requires Rep(m, lm, ch, slots) && s in slots && !Pending(lm, ch, s) && w !in ch
    ensures Rep(m[s := w], lm[s := w], ch, slots)
  {
    var m', lm' := m[s := w], lm[s := w];
    RepReadsSlot(m, lm, ch, slots, s);
    assert forall a {:trigger Rd(lm', a)} :: a != s ==> Rd(lm', a) == Rd(lm, a);
    assert forall a {:trigger Rd(m', a)} :: a != s ==> Rd(m', a) == Rd(m, a);
    forall x | x in ch ensures ChainOk(m', lm', x, ch[x], slots) {
      assert ChainOk(m, lm, x, ch[x], slots);
      assert s in ch[x] ==> Pending(lm, ch, s);
      ChainFrame(m, lm, m', lm', x, ch[x], slots);
    }
  }

  function UnthreadFirst(m: Mem, x: int, c: int, to: int): (r: Mem)
    ensures forall a {:trigger Rd(r, a)} :: a != c && a != x - HEADER_SIZE ==> Rd(r, a) == Rd(m, a)
    ensures Rd(r, c) == to
    ensures c != x - HEADER_SIZE ==> Rd(r, x - HEADER_SIZE) == Rd(m, c)
  {
    m[x - HEADER_SIZE := Rd(m, c)][c := to]
  }

  /** One round of the loop that updates the pointers threaded to x. */
  lemma UnthreadFirstKeepsRep(m: Mem, lm: Mem, ch: Chains, slots: set<int>, x: int, to: int)
    requires Rep(m, lm, ch, slots) && x in ch && ch[x] != []
    ensures var c := ch[x][0];
      && Rd(m, x - HEADER_SIZE) == c && c in slots
      && Rep(UnthreadFirst(m, x, c, to), lm[c := to], ch[x := ch[x][1..]], slots)
      && !Pending(lm[c := to], ch[x := ch[x][1..]], c)
  {
    hide UnthreadFirst;
    var l := ch[x];
    var c := l[0];
    assert ChainOk(m, lm, x, l, slots);
    assert c in l;
    var m' := UnthreadFirst(m, x, c, to);
    var lm' := lm[c := to];
    var ch' := ch[x := l[1..]];
    assert forall a {:trigger Rd(lm', a)} :: a != c ==> Rd(lm', a) == Rd(lm, a);
    UnthreadedChainOk(m, lm, slots, x, l, to);
    forall y | y in ch' ensures ChainOk(m', lm', y, ch'[y], slots) && c !in ch'[y] {
      if y != x {
        assert ChainOk(m, lm, y, ch[y], slots);
        ChainFrame(m, lm, m', lm', y, ch[y], slots);
      }
    }
  }

  lemma UnthreadedChainOk(m: Mem, lm: Mem, slots: set<int>, x: int, l: seq<int>, to: int)
    requires ChainOk(m, lm, x, l, slots) && l != []
    ensures ChainOk(UnthreadFirst(m, x, l[0], to), lm[l[0] := to], x, l[1..], slots) && l[0] !in l[1..]
  {
    hide UnthreadFirst;
    var m' := UnthreadFirst(m, x, l[0], to);
    var lm' := lm[l[0] := to];
    assert forall i :: 0 <= i < |l| ==> l[i] in l;
    assert forall a {:trigger Rd(lm', a)} :: a != l[0] ==> Rd(lm', a) == Rd(lm, a);
    assert forall s {:trigger s in l[1..]} :: s in l[1..] ==> s in l && s != l[0];
    LinkedTail(m, m', x - HEADER_SIZE, l, Rd(lm, x - HEADER_SIZE));
  }

  /** Rewriting a stretch that takes no part in any chain. */
  lemma RewriteKeepsRep(m: Mem, lm: Mem, ch: Chains, slots: set<int>, m': Mem, lm': Mem, from: int, to: int)
    requires Rep(m, lm, ch, slots)
    requires forall s {:trigger s in slots} :: s in slots && from <= s < to ==> !Pending(lm, ch, s)
    requires forall x {:trigger x in ch} :: x in ch ==> !(from <= x - HEADER_SIZE < to)
    requires forall a {:trigger Rd(m', a)} :: Rd(m', a) == if from <= a < to then Rd(lm', a) else Rd(m, a)
    requires forall a {:trigger Rd(lm', a)} :: !(from <= a < to) ==> Rd(lm', a) == Rd(lm, a)
    ensures Rep(m', lm', ch, slots)
    ensures forall s {:trigger Pending(lm', ch, s)} :: Pending(lm', ch, s) <==> Pending(lm, ch, s)
  {
    forall x | x in ch
      ensures ChainOk(m', lm', x, ch[x], slots)
      ensures forall s {:trigger s in ch[x]} :: s in ch[x] ==> !(from <= s < to)
    {
      assert ChainOk(m, lm, x, ch[x], slots);
      forall s | s in ch[x] ensures !(from <= s < to) { assert s in slots && Pending(lm, ch, s); }
      ChainFrame(m, lm, m', lm', x, ch[x], slots);
    }
  }

  /** A header word is in place exactly when nothing is threaded through it. */
  lemma HeaderInPlace(m: Mem, lm: Mem, ch: Chains, slots: set<int>, x: int)
    requires Rep(m, lm, ch, slots) && x in ch
    ensures IsHeader(Rd(m, x - HEADER_SIZE)) <==> ch[x] == []
    ensures ch[x] == [] ==> Rd(m, x - HEADER_SIZE) == Rd(lm, x - HEADER_SIZE)
    ensures ch[x] != [] ==> Rd(m, x - HEADER_SIZE) == ch[x][0]
    ensures IsHeader(Rd(lm, x - HEADER_SIZE))
  {
    assert ChainOk(m, lm, x, ch[x], slots);
    if ch[x] != [] { assert ch[x][0] in ch[x]; }
  }

  lemma DropKeepsRep(m: Mem, lm: Mem, ch: Chains, slots: set<int>, x: int)
    requires Rep(m, lm, ch, slots) && x in ch && ch[x] == []
    ensures Rep(m, lm, ch - {x}, slots)
    ensures forall s {:trigger Pending(lm, ch - {x}, s)} :: Pending(lm, ch - {x}, s) <==> Pending(lm, ch, s)
  {
    HeaderInPlace(m, lm, ch, slots, x);
    forall y | y in ch - {x} ensures ChainOk(m, lm, y, (ch - {x})[y], slots) {
      assert ChainOk(m, lm, y, ch[y], slots);
    }
  }

  /** Once a whole chain is updated, its members and no others have been
      redirected, and none of them is threaded any more. */
  lemma ReleasedChain(m: Mem, lm: Mem, ch: Chains, slots: set<int>, x: int, lm': Mem, to: int)
    requires Rep(m, lm, ch, slots) && x in ch
    requires forall a {:trigger Rd(lm', a)} :: Rd(lm', a) == if a in ch[x] then to else Rd(lm, a)
    ensures forall s {:trigger Pending(lm', ch[x := []], s)} ::
      Pending(lm', ch[x := []], s) <==> Pending(lm, ch, s) && Rd(lm, s) != x
  {
    var ch' := ch[x := []];
    forall s ensures Pending(lm', ch', s) <==> Pending(lm, ch, s) && Rd(lm, s) != x {
      assert ChainOk(m, lm, x, ch[x], slots);
      if s in ch[x] {
        assert Rd(lm, s) == x;
        if to in ch && s in ch[to] { assert ChainOk(m, lm, to, ch[to], slots); }
      }
    }
  }
}
