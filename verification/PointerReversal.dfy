/** The mark stack threaded through the heap itself (dfs-mark.c): an object
    whose pointer is being followed keeps its position in its counters, and its
    predecessor in the slot it was reached through. */
module PointerReversal {
  import opened Memory
  import opened Objects
  import opened Layout
  import opened MarkGraph

  /** What an object on the mark stack has stored in itself. */
  datatype Activity =
    | Running(a: nat, j: nat)
    | Suspended(a: nat, j: nat, prev: int)

  /** The word at x of object p, were it not on the mark stack lm. */
  function NodeCell(lm: Mem, s: Shape, p: int, act: Activity, x: int): int {
    if x == p - HEADER_SIZE then SetCounter(Rd(lm, x), act.j)
    else if s.t.tag == ArrayTag && x == p - 24 then act.a
    else if act.Suspended? && x == SlotAt(p, s.t, act.a, act.j) then act.prev
    else Rd(lm, x)
  }

  ghost predicate Owned(e: Model, g: Graph, x: int) {
    exists p {:trigger InExtent(e, g, p, x)} :: InExtent(e, g, p, x)
  }

  /** m is lm but for what the objects on the mark stack have stored. */
  ghost predicate Rep(e: Model, g: Graph, m: Mem, lm: Mem, act: map<int, Activity>) {
    && (forall p, x {:trigger InExtent(e, g, p, x)} :: InExtent(e, g, p, x) ==>
          Rd(m, x) == if p in act then NodeCell(lm, g[p], p, act[p], x) else Rd(lm, x))
    && (forall x {:trigger Rd(m, x)} :: !Owned(e, g, x) ==> Rd(m, x) == Rd(lm, x))
  }

  lemma RewriteNode(e: Model, g: Graph, m: Mem, lm: Mem, act: map<int, Activity>, p: int, m': Mem, lm': Mem, act': map<int, Activity>)
    requires Apart(e, g) && Rep(e, g, m, lm, act) && p in g
    requires forall x {:trigger Rd(m', x)} :: !InExtent(e, g, p, x) ==> Rd(m', x) == Rd(m, x)
    requires forall x {:trigger Rd(lm', x)} :: !InExtent(e, g, p, x) ==> Rd(lm', x) == Rd(lm, x)
    requires forall x {:trigger InExtent(e, g, p, x)} :: InExtent(e, g, p, x) ==>
      Rd(m', x) == if p in act' then NodeCell(lm', g[p], p, act'[p], x) else Rd(lm', x)
    requires act' - {p} == act - {p}
    ensures Rep(e, g, m', lm', act')
  {
    hide InObject, SetCounter, SlotAt;
    forall q, x {:trigger InExtent(e, g, q, x)} | InExtent(e, g, q, x)
      ensures Rd(m', x) == if q in act' then NodeCell(lm', g[q], q, act'[q], x) else Rd(lm', x)
    {
      if q != p {
        assert !InExtent(e, g, p, x);
        SameElsewhere(act, act', p, q);
        OtherNodeReads(lm, g[q], q, act, lm', act', x);
      }
    }
    forall x {:trigger Rd(m', x)} | !Owned(e, g, x) ensures Rd(m', x) == Rd(lm', x) {
      assert !InExtent(e, g, p, x);
    }
  }

  lemma SameElsewhere(act: map<int, Activity>, act': map<int, Activity>, p: int, q: int)
    requires act' - {p} == act - {p} && q != p
    ensures if q in act then q in act' && act[q] == act'[q] else q !in act'
  {
    var rest, rest' := act - {p}, act' - {p};
    assert q in act <==> q in rest;
    assert q in act' <==> q in rest';
    if q in rest { assert rest[q] == rest'[q]; }
  }

  lemma OtherNodeReads(lm: Mem, s: Shape, q: int, act: map<int, Activity>, lm': Mem, act': map<int, Activity>, x: int)
    requires if q in act then q in act' && act[q] == act'[q] else q !in act'
    requires Rd(lm', x) == Rd(lm, x)
    ensures q in act ==> NodeCell(lm', s, q, act'[q], x) == NodeCell(lm, s, q, act[q], x)
  {
  }

  /** A pointer of the object being scanned, and any header but for its counter,
      can be read off memory. */
  lemma RepReads(e: Model, g: Graph, m: Mem, lm: Mem, act: map<int, Activity>, q: int)
    requires Nodes(e, lm, g) && Rep(e, g, m, lm, act) && q in g
    requires q in act ==> act[q].j < MAX_OBJPTRS_PER_COUNTER
    ensures var h, h' := Rd(lm, q - HEADER_SIZE), Rd(m, q - HEADER_SIZE);
      && IsMarked(h') == IsMarked(h) && TypeOf(e, h') == g[q].t
      && h' == SetCounter(h, if q in act then act[q].j else 0)
      && Counter(h') == (if q in act then act[q].j else 0)
      && SetCounter(h', 0) == h
    ensures g[q].t.tag == ArrayTag ==> Rd(m, q - 24) == if q in act then act[q].a else 0
    ensures q in act && act[q].Running? && g[q].t.tag == ArrayTag ==> Length(Rd(m, q - 16)) == g[q].len
    ensures q !in act && g[q].t.tag == ArrayTag ==> Length(Rd(m, q - 16)) == g[q].len
  {
    hide InObject, SetCounter, SlotAt, TypeIndex, Counter, IsMarked;
    CellsInExtent(e, lm, g, q);
    var h := Rd(lm, q - HEADER_SIZE);
    var j := if q in act then act[q].j else 0;
    SetCounterKeepsTheRest(h, j);
    CounterAtRest(h);
    assert IsNode(e, lm, q, g[q]);
  }

  lemma CounterAtRest(h: int)
    requires Counter(h) == 0
    ensures SetCounter(h, 0) == h
  {
  }

  lemma RunningSlotReads(e: Model, g: Graph, m: Mem, lm: Mem, act: map<int, Activity>, p: int, a: nat, j: nat)
    requires Nodes(e, lm, g) && Rep(e, g, m, lm, act) && p in act && act[p].Running? && p in g && IsCursor(g[p], a, j)
    ensures Rd(m, SlotAt(p, g[p].t, a, j)) == Rd(lm, SlotAt(p, g[p].t, a, j))
  {
    hide InObject, SetCounter, SlotAt;
    SlotInExtent(e, lm, g, p, a, j);
  }

  // ---------------------------------------------------- the writes of the marker

  /** markNext, but for the store of the mark. */
  function Suspend(m: Mem, s: Shape, p: int, a: nat, j: nat, header: int, prev: int): (r: Mem)
    requires IsCursor(s, a, j)
    ensures forall x {:trigger Rd(r, x)} ::
      Rd(r, x) == if x == SlotAt(p, s.t, a, j) then prev
                  else if x == p - HEADER_SIZE then SetCounter(header, j)
                  else if s.t.tag == ArrayTag && x == p - 24 then a
                  else Rd(m, x)
  {
    var m1 := if s.t.tag == ArrayTag then m[p - 24 := a] else m;
    m1[p - HEADER_SIZE := SetCounter(header, j)][SlotAt(p, s.t, a, j) := prev]
  }

  lemma SuspendKeepsRep(e: Model, g: Graph, m: Mem, lm: Mem, act: map<int, Activity>, p: int, a: nat, j: nat, prev: int)
    requires Nodes(e, lm, g) && Apart(e, g) && Rep(e, g, m, lm, act)
    requires p in g && p in act && act[p].Running? && act[p].j < MAX_OBJPTRS_PER_COUNTER && IsCursor(g[p], a, j)
    ensures Rep(e, g, Suspend(m, g[p], p, a, j, Rd(m, p - HEADER_SIZE), prev), lm, act[p := Suspended(a, j, prev)])
  {
    hide InObject, SetCounter, Suspend, Rep, SlotAt;
    var m' := Suspend(m, g[p], p, a, j, Rd(m, p - HEADER_SIZE), prev);
    var act' := act[p := Suspended(a, j, prev)];
    SlotInExtent(e, lm, g, p, a, j);
    CellsInExtent(e, lm, g, p);
    RepReads(e, g, m, lm, act, p);
    HeaderWithCounter(Rd(lm, p - HEADER_SIZE), act[p].j, j);
    NodeReads(e, g, m, lm, act, p);
    RewriteNode(e, g, m, lm, act, p, m', lm, act');
  }

  lemma NodeReads(e: Model, g: Graph, m: Mem, lm: Mem, act: map<int, Activity>, p: int)
    requires Rep(e, g, m, lm, act) && p in g
    ensures forall x {:trigger InExtent(e, g, p, x)} :: InExtent(e, g, p, x) ==>
      Rd(m, x) == if p in act then NodeCell(lm, g[p], p, act[p], x) else Rd(lm, x)
  {
  }

  lemma HeaderWithCounter(h: int, i: int, j: int)
    requires 0 <= i < MAX_OBJPTRS_PER_COUNTER && 0 <= j < MAX_OBJPTRS_PER_COUNTER
    ensures SetCounter(SetCounter(h, i), j) == SetCounter(h, j)
  {
    SetCounterKeepsTheRest(h, i);
  }

  /** An object that is about to be marked joins the stack with counters at rest. */
  lemma JoinKeepsRep(e: Model, g: Graph, m: Mem, lm: Mem, act: map<int, Activity>, p: int)
    requires Nodes(e, lm, g) && Apart(e, g) && Rep(e, g, m, lm, act) && p in g && p !in act
    ensures Rep(e, g, m, lm, act[p := Running(0, 0)])
  {
    hide InObject, SetCounter, Rep, SlotAt;
    CounterAtRest(Rd(lm, p - HEADER_SIZE));
    NodeReads(e, g, m, lm, act, p);
    RewriteNode(e, g, m, lm, act, p, m, lm, act[p := Running(0, 0)]);
  }

  /** A finished object leaves the stack. */
  lemma LeaveKeepsRep(e: Model, g: Graph, m: Mem, lm: Mem, act: map<int, Activity>, p: int)
    requires Nodes(e, lm, g) && Apart(e, g) && Rep(e, g, m, lm, act) && p in g && p in act && act[p] == Running(0, 0)
    ensures Rep(e, g, m, lm, act - {p})
  {
    hide InObject, SetCounter, Rep, SlotAt;
    CounterAtRest(Rd(lm, p - HEADER_SIZE));
    NodeReads(e, g, m, lm, act, p);
    RewriteNode(e, g, m, lm, act, p, m, lm, act - {p});
  }

  lemma ToggleKeepsRep(e: Model, g: Graph, m: Mem, lm: Mem, act: map<int, Activity>, p: int)
    requires Nodes(e, lm, g) && Apart(e, g) && Rep(e, g, m, lm, act) && p in g && p in act && act[p] == Running(0, 0)
    ensures var h := ToggleMark(Rd(lm, p - HEADER_SIZE));
      Rd(m, p - HEADER_SIZE) == Rd(lm, p - HEADER_SIZE) && Rep(e, g, m[p - HEADER_SIZE := h], lm[p - HEADER_SIZE := h], act)
  {
    hide InObject, SetCounter, Rep, SlotAt, ToggleMark, Counter;
    var h := Rd(lm, p - HEADER_SIZE);
    CellsInExtent(e, lm, g, p);
    CounterAtRest(h);
    ToggleMarkKeepsTheRest(h);
    CounterAtRest(ToggleMark(h));
    NodeReads(e, g, m, lm, act, p);
    RewriteNode(e, g, m, lm, act, p, m[p - HEADER_SIZE := ToggleMark(h)], lm[p - HEADER_SIZE := ToggleMark(h)], act);
  }

  /** The counters are cleared once the last pointer has been followed. */
  function ClearCounters(m: Mem, s: Shape, p: int, header: int): (r: Mem)
    ensures forall x {:trigger Rd(r, x)} ::
      Rd(r, x) == if x == p - HEADER_SIZE then SetCounter(header, 0)
                  else if s.t.tag == ArrayTag && x == p - 24 then 0
                  else Rd(m, x)
  {
    var m1 := if s.t.tag == ArrayTag then m[p - 24 := 0] else m;
    m1[p - HEADER_SIZE := SetCounter(header, 0)]
  }

  lemma ClearKeepsRep(e: Model, g: Graph, m: Mem, lm: Mem, act: map<int, Activity>, p: int)
    requires Nodes(e, lm, g) && Apart(e, g) && Rep(e, g, m, lm, act)
    requires p in g && p in act && act[p].Running? && act[p].j < MAX_OBJPTRS_PER_COUNTER
    ensures Rep(e, g, ClearCounters(m, g[p], p, Rd(m, p - HEADER_SIZE)), lm, act[p := Running(0, 0)])
  {
    hide InObject, SetCounter, ClearCounters, Rep, SlotAt;
    CellsInExtent(e, lm, g, p);
    RepReads(e, g, m, lm, act, p);
    CounterAtRest(Rd(lm, p - HEADER_SIZE));
    NodeReads(e, g, m, lm, act, p);
    RewriteNode(e, g, m, lm, act, p, ClearCounters(m, g[p], p, Rd(m, p - HEADER_SIZE)), lm, act[p := Running(0, 0)]);
  }

  /** The way back: the slot gives up the predecessor and gets its pointer again. */
  lemma ResumeKeepsRep(e: Model, g: Graph, m: Mem, lm: Mem, act: map<int, Activity>, p: int)
    requires Nodes(e, lm, g) && Apart(e, g) && Rep(e, g, m, lm, act)
    requires p in g && p in act && act[p].Suspended? && IsCursor(g[p], act[p].a, act[p].j)
    ensures var slot := SlotAt(p, g[p].t, act[p].a, act[p].j);
      && Rd(m, slot) == act[p].prev
      && Rep(e, g, m[slot := Rd(lm, slot)], lm, act[p := Running(act[p].a, act[p].j)])
  {
    hide InObject, SetCounter, Rep, SlotAt;
    var slot := SlotAt(p, g[p].t, act[p].a, act[p].j);
    SlotInExtent(e, lm, g, p, act[p].a, act[p].j);
    NodeReads(e, g, m, lm, act, p);
    RewriteNode(e, g, m, lm, act, p, m[slot := Rd(lm, slot)], lm, act[p := Running(act[p].a, act[p].j)]);
  }

  lemma LinkKeepsRep(e: Model, g: Graph, m: Mem, lm: Mem, act: map<int, Activity>, p: int, link: int)
    requires Nodes(e, lm, g) && Apart(e, g) && Rep(e, g, m, lm, act)
    requires p in g && g[p].t.tag == WeakTag && p in act && act[p] == Running(0, 0)
    ensures Rep(e, g, m[LinkCell(e, p) := link], lm[LinkCell(e, p) := link], act)
  {
    hide InObject, SetCounter, Rep, SlotAt, LinkCell;
    CellsInExtent(e, lm, g, p);
    CounterAtRest(Rd(lm, p - HEADER_SIZE));
    NodeReads(e, g, m, lm, act, p);
    RewriteNode(e, g, m, lm, act, p, m[LinkCell(e, p) := link], lm[LinkCell(e, p) := link], act);
  }

  // ------------------------------------------------------------ the mark stack

  /** fs is the mark stack, bottom first; the last object is the running one. */
  ghost predicate StackOk(g: Graph, lm: Mem, fs: seq<int>, act: map<int, Activity>) {
    && fs != []
    && (forall i {:trigger fs[i]} :: 0 <= i < |fs| ==> fs[i] in g && fs[i] in act && act[fs[i]].j < MAX_OBJPTRS_PER_COUNTER)
    && (forall i, j :: 0 <= i < j < |fs| ==> fs[i] != fs[j])
    && (forall p {:trigger p in act} :: p in act ==> p in fs)
    && act[fs[|fs| - 1]].Running?
    && (forall i {:trigger IsLink(g, lm, fs, act, i)} :: 0 <= i < |fs| - 1 ==> IsLink(g, lm, fs, act, i))
  }

  function Below(fs: seq<int>, i: nat): int
    requires i < |fs|
  {
    if i == 0 then 0 else fs[i - 1]
  }

  ghost predicate IsLink(g: Graph, lm: Mem, fs: seq<int>, act: map<int, Activity>, i: nat)
    requires i + 1 < |fs| && fs[i] in g && fs[i] in act
  {
    var f := act[fs[i]];
    && f.Suspended? && f.prev == Below(fs, i)
    && IsCursor(g[fs[i]], f.a, f.j)
    && Rd(lm, SlotAt(fs[i], g[fs[i]].t, f.a, f.j)) == fs[i + 1]
  }
}
