/** Depth-first marking as a recursive function of the heap it starts from: the
    objects it marks, in the order in which it marks them, and its flag. */
module DepthFirst {
  import opened Sequences
  import opened Memory
  import opened Objects
  import opened Layout
  import opened MarkGraph
  import opened PointerReversal
  import opened MarkState

  /** The objects marked so far, and whether the visitor has found all of them
      clean. */
  datatype Walk = Walk(order: seq<int>, flag: bool)

  ghost predicate Sound(c: Task, order: seq<int>) {
    && (forall p {:trigger p in order} :: p in order ==> p in c.g)
    && (forall i, j :: 0 <= i < j < |order| ==> order[i] != order[j])
  }

  lemma SoundFits(c: Task, order: seq<int>)
    requires Sound(c, order)
    ensures |order| <= |c.g|
  {
    assert forall i {:trigger order[i]} :: 0 <= i < |order| ==> order[i] in order;
    DistinctFits(order, c.g.Keys);
  }

  lemma SoundSnoc(c: Task, order: seq<int>, p: int)
    requires Sound(c, order) && p in c.g && p !in order
    ensures Sound(c, order + [p]) && |order| < |c.g|
  {
    SoundFits(c, order + [p]);
  }

  /** The pointer w leads to an object that is still to be marked. */
  predicate Takes(c: Task, order: seq<int>, w: int) {
    c.sc.Follows(w) && w in c.g && IsFresh(c.m0, w, c.unmark) && w !in order
  }

  /** Marks p and, if the visitor lets it, what p leads to. */
  ghost function Visit(c: Task, p: int, w: Walk): (r: Walk)
    requires p in c.g && p !in w.order && Sound(c, w.order)
    ensures Sound(c, r.order) && w.order <= r.order
    decreases |c.g| - |w.order|, 0, 0, 0
  {
    SoundSnoc(c, w.order, p);
    var w1 := Walk(w.order + [p], w.flag && IsClean(c.e, c.vis, Header0(c, p), p));
    if Going(c, w1.flag) then ScanFrom(c, p, 0, 0, w1) else w1
  }

  /** Follows the pointers of p from pointer j of element a on. */
  ghost function ScanFrom(c: Task, p: int, a: nat, j: nat, w: Walk): (r: Walk)
    requires p in c.g && Sound(c, w.order)
    ensures Sound(c, r.order) && w.order <= r.order
    decreases |c.g| - |w.order|, 1, Elements(c.g[p]) - a, c.g[p].t.numObjptrs - j
  {
    if !IsCursor(c.g[p], a, j) then w
    else
      SoundFits(c, w.order);
      var x := Rd(c.m0, SlotAt(p, c.g[p].t, a, j));
      var w1 := if Takes(c, w.order, x) then Visit(c, x, w) else w;
      SoundFits(c, w1.order);
      if j + 1 < c.g[p].t.numObjptrs then ScanFrom(c, p, a, j + 1, w1) else ScanFrom(c, p, a + 1, 0, w1)
  }

  /** The rest of p, once its pointer at (a, j) has been dealt with. */
  ghost function ScanAfter(c: Task, p: int, a: nat, j: nat, w: Walk): (r: Walk)
    requires p in c.g && Sound(c, w.order)
    ensures Sound(c, r.order)
  {
    if j + 1 < c.g[p].t.numObjptrs then ScanFrom(c, p, a, j + 1, w) else ScanFrom(c, p, a + 1, 0, w)
  }

  /** What the whole walk makes of the heap. */
  ghost function WholeWalk(c: Task): (r: Walk)
    requires c.root in c.g
    ensures Sound(c, r.order)
  {
    Visit(c, c.root, Walk([], c.flag0))
  }

  // ---------------------------------------------------- what the stack stands for

  ghost predicate Frames(c: Task, fs: seq<int>, act: map<int, Activity>) {
    forall i {:trigger fs[i]} :: 0 <= i < |fs| ==> fs[i] in c.g && fs[i] in act
  }

  /** The objects on the stack, the last one first, go on after the pointers
      that they are suspended at. */
  ghost function Unwind(c: Task, fs: seq<int>, act: map<int, Activity>, w: Walk): (r: Walk)
    requires Frames(c, fs, act) && Sound(c, w.order)
    decreases |fs|
  {
    if fs == [] then w
    else
      var p := fs[|fs| - 1];
      Unwind(c, fs[..|fs| - 1], act, ScanAfter(c, p, act[p].a, act[p].j, w))
  }

  /** The rest of the stack only depends on the objects that are on it. */
  lemma {:induction false} UnwindFrame(c: Task, fs: seq<int>, act: map<int, Activity>, act': map<int, Activity>, w: Walk)
    requires Frames(c, fs, act) && Frames(c, fs, act') && Sound(c, w.order)
    requires forall i {:trigger fs[i]} :: 0 <= i < |fs| ==> act'[fs[i]].a == act[fs[i]].a && act'[fs[i]].j == act[fs[i]].j
    ensures Unwind(c, fs, act', w) == Unwind(c, fs, act, w)
    decreases |fs|
  {
    hide ScanFrom;
    if fs != [] {
      var p := fs[|fs| - 1];
      UnwindFrame(c, fs[..|fs| - 1], act, act', ScanAfter(c, p, act[p].a, act[p].j, w));
    }
  }

  // --------------------------------------------------------------- single steps

  /** A pointer that need not be followed is passed over. */
  lemma PassedOver(c: Task, p: int, a: nat, j: nat, w: Walk)
    requires p in c.g && IsCursor(c.g[p], a, j) && Sound(c, w.order)
    requires !Takes(c, w.order, Rd(c.m0, SlotAt(p, c.g[p].t, a, j)))
    ensures ScanFrom(c, p, a, j, w) == ScanAfter(c, p, a, j, w)
  {
  }

  lemma StepsInto(c: Task, p: int, a: nat, j: nat, w: Walk)
    requires p in c.g && IsCursor(c.g[p], a, j) && Sound(c, w.order)
    requires Takes(c, w.order, Rd(c.m0, SlotAt(p, c.g[p].t, a, j)))
    ensures ScanFrom(c, p, a, j, w) == ScanAfter(c, p, a, j, Visit(c, Rd(c.m0, SlotAt(p, c.g[p].t, a, j)), w))
  {
  }

  lemma ScanEnds(c: Task, p: int, a: nat, j: nat, w: Walk)
    requires p in c.g && !IsCursor(c.g[p], a, j) && Sound(c, w.order)
    ensures ScanFrom(c, p, a, j, w) == w
  {
  }

  lemma VisitMarks(c: Task, p: int, w: Walk)
    requires p in c.g && p !in w.order && Sound(c, w.order)
    ensures var w1 := Walk(w.order + [p], w.flag && IsClean(c.e, c.vis, Header0(c, p), p));
      Sound(c, w1.order) && Visit(c, p, w) == if Going(c, w1.flag) then ScanFrom(c, p, 0, 0, w1) else w1
  {
    hide ScanFrom, IsClean;
    SoundSnoc(c, w.order, p);
  }
}
