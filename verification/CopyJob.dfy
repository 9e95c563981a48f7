/** What a copying collection, or a lift to the shared heap, starts from and
    what holds while it runs (forward.c). */
module CopyJob {
  import opened Memory
  import opened Objects
  import opened Layout
  import opened MarkGraph

  /** g are the objects of from-space, [fromLo, fromHi); forwarded are objects
      that had moved out of it before. With lifting, copies get their lift bit;
      with copyImmutable, objects without identity are left as they are. */
  datatype Job = Job(
    e: Model, g: Graph, m0: Mem, forwarded: map<int, int>, fromLo: int, fromHi: int,
    toStart: int, toLimit: int, roots: set<int>, minor: bool, lifting: bool, copyImmutable: bool)

  /** A word that the forwarder acts upon. */
  predicate Takes(c: Job, w: int) { IsObjptr(w) && c.fromLo <= w < c.fromHi }

  /** The pointer slots of an object that are traced; weak pointers are not. */
  function Traced(s: Shape, p: int): seq<int> {
    if s.t.tag == WeakTag then [] else Slots(s.t, p, s.len)
  }

  function SizeOf(c: Job, p: int): int {
    if p in c.g then SizeByType(c.e, c.g[p].t, c.g[p].len, 0) else 0
  }

  function HeaderOf(c: Job, p: int): int {
    if p in c.g then HeaderBytes(c.g[p].t) else 0
  }

  /** The original is not overwritten with a forwarding pointer. */
  predicate Keeps(c: Job, p: int)
    requires p in c.g
  {
    c.copyImmutable && !c.g[p].t.hasIdentity
  }

  predicate InTo(c: Job, x: int) { c.toStart <= x < c.toLimit }

  ghost predicate Leads(c: Job, s: int) {
    Takes(c, Rd(c.m0, s)) ==> Rd(c.m0, s) in c.g || Rd(c.m0, s) in c.forwarded
  }

  ghost predicate ValidFrom(c: Job) {
    && ValidModel(c.e) && Nodes(c.e, c.m0, c.g) && Apart(c.e, c.g)
    && (forall p {:trigger p in c.g} :: p in c.g ==> Takes(c, p) && !IsLifted(Rd(c.m0, p - HEADER_SIZE)))
    && (forall p, x {:trigger InExtent(c.e, c.g, p, x)} :: InExtent(c.e, c.g, p, x) ==> !InTo(c, x))
    && (forall w {:trigger InTo(c, w)} :: InTo(c, w) ==> !(c.fromLo <= w < c.fromHi))
  }

  ghost predicate ValidSlots(c: Job) {
    && (forall s {:trigger s in c.roots} :: s in c.roots ==> Leads(c, s) && !InTo(c, s))
    && (forall s, p {:trigger s in c.roots, InExtent(c.e, c.g, p, s)} :: s in c.roots ==> !InExtent(c.e, c.g, p, s))
    && (forall p, s {:trigger s in Traced(c.g[p], p)} :: p in c.g && s in Traced(c.g[p], p) ==> Leads(c, s))
  }

  ghost predicate ValidForwarded(c: Job) {
    forall p {:trigger p in c.forwarded} :: p in c.forwarded ==>
      && p !in c.g && Takes(c, p)
      && Rd(c.m0, p - HEADER_SIZE) == FORWARDED && Rd(c.m0, p) == c.forwarded[p] && !Takes(c, c.forwarded[p])
      && Free(c, p - HEADER_SIZE) && Free(c, p)
  }

  /** A cell that neither objects, roots nor to-space have a claim to. */
  ghost predicate Free(c: Job, x: int) {
    && !InTo(c, x) && x !in c.roots
    && forall p {:trigger InExtent(c.e, c.g, p, x)} :: !InExtent(c.e, c.g, p, x)
  }

  ghost predicate ValidJob(c: Job) { ValidFrom(c) && ValidSlots(c) && ValidForwarded(c) }

  // --------------------------------------------------------------- reachability

  ghost predicate FromRoot(c: Job, x: int) {
    Takes(c, x) && exists s {:trigger s in c.roots} :: s in c.roots && Rd(c.m0, s) == x
  }

  ghost predicate Points(c: Job, p: int, x: int) {
    p in c.g && Takes(c, x) && exists s {:trigger s in Traced(c.g[p], p)} :: s in Traced(c.g[p], p) && Rd(c.m0, s) == x
  }

  ghost predicate IsRoute(c: Job, route: seq<int>) {
    && route != [] && FromRoot(c, route[0])
    && (forall i {:trigger route[i]} :: 0 <= i < |route| ==> route[i] in c.g)
    && (forall i {:trigger Points(c, route[i], route[i + 1])} :: 0 <= i < |route| - 1 ==> Points(c, route[i], route[i + 1]))
  }

  ghost predicate Reaches(c: Job, x: int) {
    exists route {:trigger IsRoute(c, route)} :: IsRoute(c, route) && route[|route| - 1] == x
  }

  lemma RootReaches(c: Job, x: int)
    requires FromRoot(c, x) && x in c.g
    ensures Reaches(c, x)
  {
    assert IsRoute(c, [x]);
  }

  lemma PointerReaches(c: Job, p: int, x: int)
    requires Reaches(c, p) && Points(c, p, x) && x in c.g
    ensures Reaches(c, x)
  {
    hide Points, FromRoot;
    var route :| IsRoute(c, route) && route[|route| - 1] == p;
    var route' := route + [x];
    forall i | 0 <= i < |route'| - 1 ensures Points(c, route'[i], route'[i + 1]) {
      if i < |route| - 1 { assert Points(c, route[i], route[i + 1]); }
    }
    assert IsRoute(c, route');
  }

  lemma RouteStep(c: Job, route: seq<int>, i: nat)
    requires IsRoute(c, route) && i + 1 < |route|
    ensures Points(c, route[i], route[i + 1])
  {
    hide Points, FromRoot;
  }

  lemma RoutePrefix(c: Job, route: seq<int>, front: seq<int>)
    requires IsRoute(c, route) && |route| > 1 && front == route[..|route| - 1]
    ensures IsRoute(c, front)
  {
    hide Points, FromRoot;
    assert front[0] == route[0];
    forall i | 0 <= i < |front| - 1 ensures Points(c, front[i], front[i + 1]) {
      assert front[i] == route[i] && front[i + 1] == route[i + 1];
      assert Points(c, route[i], route[i + 1]);
    }
  }

  /** A set that has what the roots point to and is closed under pointers has
      all that can be reached. */
  lemma {:induction false} RouteStaysIn(c: Job, set_: set<int>, route: seq<int>)
    requires IsRoute(c, route)
    requires forall x {:trigger FromRoot(c, x)} :: FromRoot(c, x) && x in c.g ==> x in set_
    requires forall p, x {:trigger Points(c, p, x)} :: p in set_ && Points(c, p, x) && x in c.g ==> x in set_
    ensures route[|route| - 1] in set_
    decreases |route|
  {
    hide Points, FromRoot;
    if |route| == 1 {
      assert route[0] in c.g;
    } else {
      var front := route[..|route| - 1];
      RoutePrefix(c, route, front);
      RouteStaysIn(c, set_, front);
      RouteStep(c, route, |route| - 2);
      assert route[|route| - 1] in c.g;
    }
  }

  // ----------------------------------------------------------------------- state

  /** objs are the objects copied so far, in the order of their copies, which
      start at starts; fwd tells where each is now; updated are the slots, by
      their old addresses, that have been forwarded. */
  datatype State = State(m: Mem, fwd: map<int, int>, objs: seq<int>, starts: seq<int>, back: int, updated: set<int>)

  function Forward(c: Job, fwd: map<int, int>, w: int): int {
    if Takes(c, w) && w in fwd then fwd[w] else w
  }

  function SetLift(h: int): int { if (h / 0x8_0000) % 2 == 1 then h else h + 0x8_0000 }

  /** The word of an original. */
  ghost function OldWord(c: Job, s: State, p: int, x: int): int
    requires p in c.g
  {
    if p in s.fwd && !Keeps(c, p) && x == p - HEADER_SIZE then FORWARDED
    else if p in s.fwd && !Keeps(c, p) && x == p then s.fwd[p]
    else Rd(c.m0, x)
  }

  /** The word of a copy, by its old address. */
  ghost function NewWord(c: Job, s: State, p: int, x: int): int
    requires p in c.g
  {
    if x in s.updated then Forward(c, s.fwd, Rd(c.m0, x))
    else if x == p - HEADER_SIZE && c.lifting then SetLift(Rd(c.m0, x))
    else Rd(c.m0, x)
  }

  /** The link of a weak object is scratch space. */
  predicate Scratch(c: Job, p: int, x: int)
    requires p in c.g
  {
    c.g[p].t.tag == WeakTag && x == LinkCell(c.e, p)
  }

  ghost predicate OldOk(c: Job, s: State) {
    forall p, x {:trigger InExtent(c.e, c.g, p, x)} :: InExtent(c.e, c.g, p, x) ==> Rd(s.m, x) == OldWord(c, s, p, x)
  }

  ghost predicate NewOk(c: Job, s: State) {
    forall p, x {:trigger InExtent(c.e, c.g, p, x)} :: InExtent(c.e, c.g, p, x) && p in s.fwd && !Scratch(c, p, x) ==>
      Rd(s.m, x + (s.fwd[p] - p)) == NewWord(c, s, p, x)
  }

  ghost predicate RootsOk(c: Job, s: State) {
    forall x {:trigger x in c.roots} :: x in c.roots ==>
      Rd(s.m, x) == if x in s.updated then Forward(c, s.fwd, Rd(c.m0, x)) else Rd(c.m0, x)
  }

  ghost predicate RestOk(c: Job, s: State) {
    forall x {:trigger Rd(s.m, x)} :: Free(c, x) ==> Rd(s.m, x) == Rd(c.m0, x)
  }

  ghost predicate InCopies(c: Job, s: State, x: int) {
    exists i {:trigger s.starts[i]} :: 0 <= i < |s.starts| && i < |s.objs| && s.starts[i] <= x < s.starts[i] + SizeOf(c, s.objs[i])
  }

  /** To-space is as it was but for the copies. */
  ghost predicate GapsOk(c: Job, s: State) {
    forall x {:trigger Rd(s.m, x)} :: InTo(c, x) && !InCopies(c, s, x) ==> Rd(s.m, x) == Rd(c.m0, x)
  }

  function StartOr(s: State, i: nat): int {
    if i < |s.starts| then s.starts[i] else s.back
  }

  ghost predicate PlacedOk(c: Job, s: State) {
    && |s.objs| == |s.starts|
    && c.toStart <= s.back <= c.toLimit
    && c.toStart <= StartOr(s, 0)
    && (forall i {:trigger s.objs[i]} :: 0 <= i < |s.objs| ==>
          && s.objs[i] in c.g && s.objs[i] in s.fwd
          && s.fwd[s.objs[i]] == s.starts[i] + HeaderOf(c, s.objs[i])
          && s.starts[i] + SizeOf(c, s.objs[i]) <= StartOr(s, i + 1))
    && (forall i, j :: 0 <= i < j < |s.objs| ==> s.objs[i] != s.objs[j])
    && (forall p {:trigger p in s.fwd} :: p in s.fwd <==> p in s.objs || p in c.forwarded)
    && (forall p {:trigger p in c.forwarded} :: p in c.forwarded ==> p in s.fwd && s.fwd[p] == c.forwarded[p])
  }

  /** A slot that belongs to a root or to a copied object. */
  ghost predicate Slot(c: Job, s: State, x: int) {
    x in c.roots || exists p {:trigger p in s.objs} :: p in s.objs && p in c.g && x in Traced(c.g[p], p)
  }

  ghost predicate UpdatedOk(c: Job, s: State) {
    forall x {:trigger x in s.updated} :: x in s.updated ==>
      Slot(c, s, x) && (Takes(c, Rd(c.m0, x)) ==> Rd(c.m0, x) in s.fwd)
  }

  ghost predicate ReachedOk(c: Job, s: State) {
    forall p {:trigger p in s.objs} :: p in s.objs ==> Reaches(c, p)
  }

  ghost predicate Inv(c: Job, s: State) {
    && ValidJob(c) && OldOk(c, s) && NewOk(c, s) && RootsOk(c, s) && RestOk(c, s) && GapsOk(c, s)
    && PlacedOk(c, s) && UpdatedOk(c, s) && ReachedOk(c, s)
  }
}
