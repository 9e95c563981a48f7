/** The state of a depth-first marking, and what each of its steps keeps. */
module MarkState {
  import opened Memory
  import opened Objects
  import opened Layout
  import opened MarkGraph
  import opened PointerReversal

  // ----------------------------------------------------------------- visitors

  /** The functions that dfsMarkByMode is given to decide how deep to go. The
      unmarking ones, and the empty one, always continue. */
  datatype Visitor =
    | Always
    | WriteClean(closureRoot: int, useIdentity: bool)
    | SpawnClean(closureRoot: int, useIdentity: bool, sessionStart: int, frontier: int)

  const ZERO := 0
  const ONE := 1
  const LOCAL_MANY := 2
  const GLOBAL_MANY := 3

  function NumReferences(h: int): int {
    if h == FORWARDED then GLOBAL_MANY else (h / 0x2_0000) % 4
  }

  predicate IsClean(e: Model, vis: Visitor, h: int, p: int) {
    match vis
    case Always => true
    case WriteClean(r, useIdentity) =>
      (if p == r then NumReferences(h) == ZERO else NumReferences(h) <= ONE) || (!TypeOf(e, h).hasIdentity && useIdentity)
    case SpawnClean(r, useIdentity, sessionStart, frontier) =>
      || (if NumReferences(h) == ZERO then true
          else if NumReferences(h) == ONE then p != r
          else NumReferences(h) == LOCAL_MANY && sessionStart < p < frontier)
      || (!TypeOf(e, h).hasIdentity && useIdentity)
  }

  // -------------------------------------------------------------------- state

  /** What one marking was started with. */
  datatype Task = Task(
    e: Model, g: Graph, m0: Mem, sc: Scope, root: int, unmark: bool,
    vis: Visitor, flag0: bool, linkWeaks: bool, sizeEstimation: bool, weaks0: int)

  function Header0(c: Task, p: int): int { Rd(c.m0, p - HEADER_SIZE) }

  ghost predicate ValidTask(c: Task) {
    && ValidModel(c.e) && Nodes(c.e, c.m0, c.g) && Apart(c.e, c.g) && Closed(c.e, c.m0, c.g, c.sc)
    && c.root in c.g
  }

  /** The weak objects among those reached whose pointer is one, latest first. */
  ghost function WeaksOf(c: Task, order: seq<int>): seq<int> {
    if order == [] then []
    else
      var p := order[|order| - 1];
      (if LinksWeak(c, p) then [p] else []) + WeaksOf(c, order[..|order| - 1])
  }

  ghost predicate LinksWeak(c: Task, p: int) {
    p in c.g && c.g[p].t.tag == WeakTag && IsObjptr(Rd(c.m0, WeakCell(c.e, p)))
  }

  ghost predicate IsLinkCell(c: Task, order: seq<int>, x: int) {
    c.linkWeaks && x - OffsetOfWeak(c.e) in WeaksOf(c, order)
  }

  /** lm is the memory the marking started from with the objects of order, and
      no others, marked. */
  ghost predicate Toggled(c: Task, lm: Mem, order: seq<int>) {
    forall x {:trigger Rd(lm, x)} :: !IsLinkCell(c, order, x) ==>
      Rd(lm, x) == if x + HEADER_SIZE in order then ToggleMark(Rd(c.m0, x)) else Rd(c.m0, x)
  }

  /** The weak objects are chained through their link fields. */
  ghost predicate WeakChain(e: Model, lm: Mem, weaks: int, linked: seq<int>, last: int) {
    && weaks == (if linked == [] then last else LinkCell(e, linked[0]))
    && forall i {:trigger linked[i]} :: 0 <= i < |linked| ==>
         Rd(lm, LinkCell(e, linked[i])) == if i + 1 < |linked| then LinkCell(e, linked[i + 1]) else last
  }

  ghost predicate WeaksLinked(c: Task, lm: Mem, weaks: int, order: seq<int>) {
    if c.linkWeaks then WeakChain(c.e, lm, weaks, WeaksOf(c, order), c.weaks0) else weaks == c.weaks0
  }

  /** The bytes a marked object adds to the result; a weak object adds none. */
  function Counted(c: Task, p: int): int
    requires p in c.g
  {
    if c.g[p].t.tag == WeakTag || (c.sizeEstimation && c.sc.InShared(p)) then 0
    else SizeByType(c.e, c.g[p].t, c.g[p].len, 0)
  }

  function TotalSize(c: Task, order: seq<int>): int
    requires forall p :: p in order ==> p in c.g
  {
    if order == [] then 0
    else TotalSize(c, order[..|order| - 1]) + Counted(c, order[|order| - 1])
  }

  predicate Going(c: Task, flag: bool) { c.vis.Always? || flag }

  ghost predicate FlagOk(c: Task, order: seq<int>, flag: bool) {
    flag == (c.flag0 && forall p {:trigger p in order} :: p in order ==> IsClean(c.e, c.vis, Header0(c, p), p))
  }

  /** Pointer j of element a of p leads to where an object has been. */
  ghost predicate LeadsAwayAt(c: Task, p: int, a: int, j: int) {
    p in c.g && IsCursor(c.g[p], a, j) && c.sc.Follows(Rd(c.m0, SlotAt(p, c.g[p].t, a, j))) && Rd(c.m0, SlotAt(p, c.g[p].t, a, j)) !in c.g
  }

  /** Some pointer of p that marking follows leads to a lifted object. */
  ghost predicate LeadsAway(c: Task, p: int) {
    exists a, j {:trigger LeadsAwayAt(c, p, a, j)} :: LeadsAwayAt(c, p, a, j)
  }

  ghost predicate NoneLeadAway(c: Task, order: seq<int>) {
    forall p {:trigger p in order} :: p in order ==> !LeadsAway(c, p)
  }

  // ------------------------------------------------------------------ progress

  ghost predicate Taken(c: Task, order: seq<int>, w: int) {
    c.sc.Follows(w) && IsFresh(c.m0, w, c.unmark) ==> w in order
  }

  /** The pointers of p before the cursor have been dealt with. */
  ghost predicate ScannedUpTo(c: Task, order: seq<int>, p: int, a: int, j: int)
    requires p in c.g
  {
    forall a', j' {:trigger SlotAt(p, c.g[p].t, a', j')} ::
      IsCursor(c.g[p], a', j') && (a' < a || (a' == a && j' < j)) ==> Taken(c, order, Rd(c.m0, SlotAt(p, c.g[p].t, a', j')))
  }

  ghost predicate AllScanned(c: Task, order: seq<int>, p: int)
    requires p in c.g
  {
    ScannedUpTo(c, order, p, Elements(c.g[p]), 0)
  }

  ghost predicate Progress(c: Task, order: seq<int>, act: map<int, Activity>) {
    && (forall p {:trigger p in order} :: p in order && p !in act ==> p in c.g && AllScanned(c, order, p))
    && (forall p {:trigger p in act} :: p in act && act[p].Suspended? ==> p in c.g && ScannedUpTo(c, order, p, act[p].a, act[p].j))
  }

  /** The state of a marking as a value. */
  datatype State = State(
    m: Mem, lm: Mem, fs: seq<int>, act: map<int, Activity>, order: seq<int>, flag: bool, size: int, weaks: int)

  ghost predicate MemoryOk(c: Task, s: State) {
    && Nodes(c.e, s.lm, c.g)
    && Rep(c.e, c.g, s.m, s.lm, s.act)
    && StackOk(c.g, s.lm, s.fs, s.act)
  }

  ghost predicate OrderOk(c: Task, s: State) {
    && IsTraversal(c.m0, c.g, c.sc, c.unmark, c.root, s.order)
    && Toggled(c, s.lm, s.order)
    && WeaksLinked(c, s.lm, s.weaks, s.order)
    && FlagOk(c, s.order, s.flag)
    && s.size == TotalSize(c, s.order)
  }

  ghost predicate Inv(c: Task, s: State) {
    && ValidTask(c) && MemoryOk(c, s) && OrderOk(c, s)
    && (forall p {:trigger p in s.act} :: p in s.act ==> p in s.order)
    && (Going(c, s.flag) ==> Progress(c, s.order, s.act))
  }

  function Top(s: State): int { if s.fs == [] then 0 else s.fs[|s.fs| - 1] }

  /** The running object is being scanned and the cursor is at pointer j of
      element a. */
  ghost predicate Scanning(c: Task, s: State, a: int, j: int) {
    && Inv(c, s) && Top(s) in c.g && IsCursor(c.g[Top(s)], a, j)
    && (Going(c, s.flag) ==> ScannedUpTo(c, s.order, Top(s), a, j))
  }

  /** The running object is finished and its counters are at rest. */
  ghost predicate Returning(c: Task, s: State) {
    && Inv(c, s) && Top(s) in c.g && Top(s) in s.act && s.act[Top(s)] == Running(0, 0)
    && (Going(c, s.flag) ==> AllScanned(c, s.order, Top(s)))
  }
}
