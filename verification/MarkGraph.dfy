/** The object graph that depth-first marking walks: which cells belong to
    which object, where its pointers are and where they lead. */
module MarkGraph {
  import opened Memory
  import opened Objects
  import opened Layout

  /** What the header of an object, and the length of an array, say about it. */
  datatype Shape = Shape(t: ObjectType, len: nat)

  /** The objects of a heap by the address of their data. */
  type Graph = map<int, Shape>

  /** How many elements with pointers an object has; a normal object is one. */
  function Elements(s: Shape): nat {
    if s.t.numObjptrs == 0 then 0
    else match s.t.tag
         case NormalTag => 1
         case ArrayTag => s.len
         case _ => 0
  }

  /** Where pointer j of element a is. */
  function SlotAt(p: int, t: ObjectType, a: nat, j: nat): int {
    p + ArrayBytes(a, t) + t.bytesNonObjptrs + OBJPTR_SIZE * j
  }

  predicate IsCursor(s: Shape, a: int, j: int) {
    0 <= a < Elements(s) && 0 <= j < s.t.numObjptrs
  }

  predicate InObject(e: Model, s: Shape, p: int, x: int) {
    p - HeaderBytes(s.t) <= x < p - HeaderBytes(s.t) + SizeByType(e, s.t, s.len, 0)
  }

  /** x is a cell of the object at p. */
  ghost predicate InExtent(e: Model, g: Graph, p: int, x: int) {
    p in g && InObject(e, g[p], p, x)
  }

  function WeakSize(e: Model): int { Align(24, e.alignment) }

  /** Bytes before the link and the pointer of a weak object. */
  function OffsetOfWeak(e: Model): int { WeakSize(e) - 24 }

  function LinkCell(e: Model, p: int): int { p + OffsetOfWeak(e) }

  function WeakCell(e: Model, p: int): int { p + OffsetOfWeak(e) + 8 }

  predicate ValidShape(e: Model, s: Shape) {
    && s.t.tag in {NormalTag, WeakTag, ArrayTag}
    && ValidType(e, s.t) && s.t.numObjptrs <= MAX_OBJPTRS_PER_COUNTER
    && (s.t.tag == WeakTag ==> HEADER_SIZE + FixedBytes(s.t) == WeakSize(e))
  }

  /** m describes an object of shape s at p, with both its counters at rest. */
  predicate IsNode(e: Model, m: Mem, p: int, s: Shape) {
    var h := Rd(m, p - HEADER_SIZE);
    && 0 < p && IsObjptr(p)
    && ValidShape(e, s)
    && IsHeader(h) && Counter(h) == 0 && TypeOf(e, h) == s.t
    && (s.t.tag == ArrayTag ==> Rd(m, p - 24) == 0 && Length(Rd(m, p - 16)) == s.len)
  }

  ghost predicate Nodes(e: Model, m: Mem, g: Graph) {
    forall p {:trigger p in g} :: p in g ==> IsNode(e, m, p, g[p])
  }

  /** No two objects share a cell. */
  ghost predicate Apart(e: Model, g: Graph) {
    forall p, q, x {:trigger InExtent(e, g, p, x), InExtent(e, g, q, x)} ::
      InExtent(e, g, p, x) && InExtent(e, g, q, x) ==> p == q
  }

  lemma CellsInExtent(e: Model, m: Mem, g: Graph, p: int)
    requires Nodes(e, m, g) && p in g
    ensures InExtent(e, g, p, p - HEADER_SIZE)
    ensures g[p].t.tag == ArrayTag ==> InExtent(e, g, p, p - 16) && InExtent(e, g, p, p - 24)
    ensures g[p].t.tag == WeakTag ==> p <= LinkCell(e, p) && InExtent(e, g, p, LinkCell(e, p)) && InExtent(e, g, p, WeakCell(e, p))
  {
    ArrayNoHeaderCovers(e, g[p].len, g[p].t);
    AlignIsLeast(24, e.alignment);
  }

  lemma DataInExtent(e: Model, m: Mem, g: Graph, p: int)
    requires Nodes(e, m, g) && p in g
    ensures InExtent(e, g, p, p) && HeaderBytes(g[p].t) + OBJPTR_SIZE <= SizeByType(e, g[p].t, g[p].len, 0)
  {
    ArrayNoHeaderCovers(e, g[p].len, g[p].t);
  }

  lemma SlotInExtent(e: Model, m: Mem, g: Graph, p: int, a: int, j: int)
    requires Nodes(e, m, g) && p in g && IsCursor(g[p], a, j)
    ensures p <= SlotAt(p, g[p].t, a, j) && InExtent(e, g, p, SlotAt(p, g[p].t, a, j))
  {
    hide ArrayNoHeader;
    var s := g[p];
    ArrayNoHeaderCovers(e, s.len, s.t);
    ArrayBytesMonotone(a + 1, Elements(s), s.t);
    assert ArrayBytes(a + 1, s.t) == FixedBytes(s.t) + ArrayBytes(a, s.t);
    if s.t.tag == NormalTag { assert ArrayBytes(1, s.t) == FixedBytes(s.t) + ArrayBytes(0, s.t); }
  }

  // ------------------------------------------------------------------- edges

  /** Which pointers a marking follows: with ignoreShared it stays out of the
      shared heap. */
  datatype Scope = Scope(ignoreShared: bool, sharedLo: int, sharedHi: int) {
    predicate InShared(w: int) { sharedLo <= w < sharedHi }

    predicate Follows(w: int) { IsObjptr(w) && !(ignoreShared && InShared(w)) }
  }

  /** x is a cell of no object. */
  ghost predicate Outside(e: Model, g: Graph, x: int) {
    forall p {:trigger InExtent(e, g, p, x)} :: !InExtent(e, g, p, x)
  }

  /** There was an object at w that has been lifted; a forwarding header is left. */
  ghost predicate MovedAway(e: Model, m: Mem, g: Graph, w: int) {
    Rd(m, w - HEADER_SIZE) == FORWARDED && Outside(e, g, w - HEADER_SIZE)
  }

  /** Every pointer that can be followed leads to an object or to where one has
      been. */
  ghost predicate Closed(e: Model, m: Mem, g: Graph, sc: Scope) {
    forall p, a, j {:trigger SlotAt(p, g[p].t, a, j)} ::
      p in g && IsCursor(g[p], a, j) && sc.Follows(Rd(m, SlotAt(p, g[p].t, a, j))) ==>
        Rd(m, SlotAt(p, g[p].t, a, j)) in g || MovedAway(e, m, g, Rd(m, SlotAt(p, g[p].t, a, j)))
  }

  lemma ForwardingHeader(e: Model)
    ensures IsMarked(FORWARDED) && Counter(FORWARDED) != 0
    ensures ValidModel(e) ==> !HasType(e, FORWARDED)
    ensures ToggleMark(FORWARDED) != FORWARDED
  {
  }

  ghost predicate Edge(m: Mem, g: Graph, sc: Scope, p: int, q: int) {
    && p in g && q in g && sc.Follows(q)
    && exists a, j {:trigger SlotAt(p, g[p].t, a, j)} :: IsCursor(g[p], a, j) && Rd(m, SlotAt(p, g[p].t, a, j)) == q
  }

  /** An object in the state that marking (or, with unmark, unmarking) is going
      to change. */
  predicate IsFresh(m: Mem, p: int, unmark: bool) {
    IsMarked(Rd(m, p - HEADER_SIZE)) == unmark
  }

  /** A walk from root through fresh objects only. */
  ghost predicate IsPath(m: Mem, g: Graph, sc: Scope, unmark: bool, root: int, path: seq<int>) {
    && path != [] && path[0] == root
    && (forall i {:trigger path[i]} :: 0 <= i < |path| ==> path[i] in g && IsFresh(m, path[i], unmark))
    && (forall i {:trigger path[i]} :: 0 < i < |path| ==> Edge(m, g, sc, path[i - 1], path[i]))
  }

  ghost predicate Reachable(m: Mem, g: Graph, sc: Scope, unmark: bool, root: int, x: int) {
    exists path {:trigger IsPath(m, g, sc, unmark, root, path)} ::
      IsPath(m, g, sc, unmark, root, path) && path[|path| - 1] == x
  }

  /** The objects in the order in which they were reached: each but the first
      is pointed to by an earlier one. */
  ghost predicate IsTraversal(m: Mem, g: Graph, sc: Scope, unmark: bool, root: int, order: seq<int>) {
    && (forall i {:trigger order[i]} :: 0 <= i < |order| ==> order[i] in g && IsFresh(m, order[i], unmark))
    && (order != [] ==> order[0] == root)
    && (forall i {:trigger order[i]} :: 0 < i < |order| ==> HasParent(m, g, sc, order, i))
    && (forall i, j :: 0 <= i < j < |order| ==> order[i] != order[j])
  }

  ghost predicate HasParent(m: Mem, g: Graph, sc: Scope, order: seq<int>, i: nat)
    requires i < |order|
  {
    exists k {:trigger order[k]} :: 0 <= k < i && Edge(m, g, sc, order[k], order[i])
  }

  ghost predicate ClosedSet(m: Mem, g: Graph, sc: Scope, unmark: bool, order: seq<int>) {
    forall p, q {:trigger Edge(m, g, sc, p, q)} ::
      p in order && Edge(m, g, sc, p, q) && IsFresh(m, q, unmark) ==> q in order
  }

  lemma {:induction false} TraversalIsReachable(m: Mem, g: Graph, sc: Scope, unmark: bool, root: int, order: seq<int>, i: nat)
    requires IsTraversal(m, g, sc, unmark, root, order) && i < |order|
    ensures Reachable(m, g, sc, unmark, root, order[i])
    decreases i
  {
    hide Edge, IsFresh, HasParent;
    if i == 0 {
      assert IsPath(m, g, sc, unmark, root, [root]);
    } else {
      assert order[i] in g;
      var k := ParentOf(m, g, sc, order, i);
      TraversalIsReachable(m, g, sc, unmark, root, order, k);
      var path :| IsPath(m, g, sc, unmark, root, path) && path[|path| - 1] == order[k];
      assert IsPath(m, g, sc, unmark, root, path + [order[i]]);
    }
  }

  lemma {:induction false} PathStaysIn(m: Mem, g: Graph, sc: Scope, unmark: bool, root: int, order: seq<int>, path: seq<int>)
    requires ClosedSet(m, g, sc, unmark, order) && root in order && IsPath(m, g, sc, unmark, root, path)
    ensures path[|path| - 1] in order
    decreases |path|
  {
    hide Edge, IsFresh;
    if |path| > 1 {
      var front := path[..|path| - 1];
      assert IsPath(m, g, sc, unmark, root, front);
      PathStaysIn(m, g, sc, unmark, root, order, front);
      assert front[|front| - 1] == path[|path| - 2];
      assert path[|path| - 1] in g;
      assert Edge(m, g, sc, path[|path| - 2], path[|path| - 1]);
    }
  }

  lemma ParentOf(m: Mem, g: Graph, sc: Scope, order: seq<int>, i: nat) returns (k: nat)
    requires i < |order| && HasParent(m, g, sc, order, i)
    ensures k < i && Edge(m, g, sc, order[k], order[i])
  {
    k :| 0 <= k < i && Edge(m, g, sc, order[k], order[i]);
  }

  /** A traversal that leaves no fresh successor out is all there is to reach. */
  lemma TraversalIsExact(m: Mem, g: Graph, sc: Scope, unmark: bool, root: int, order: seq<int>)
    requires IsTraversal(m, g, sc, unmark, root, order) && ClosedSet(m, g, sc, unmark, order) && root in order
    ensures forall x {:trigger Reachable(m, g, sc, unmark, root, x)} :: x in order <==> Reachable(m, g, sc, unmark, root, x)
  {
    forall x ensures x in order <==> Reachable(m, g, sc, unmark, root, x) {
      if x in order {
        var i :| 0 <= i < |order| && order[i] == x;
        TraversalIsReachable(m, g, sc, unmark, root, order, i);
      }
      if Reachable(m, g, sc, unmark, root, x) {
        var path :| IsPath(m, g, sc, unmark, root, path) && path[|path| - 1] == x;
        PathStaysIn(m, g, sc, unmark, root, order, path);
      }
    }
  }

  lemma ExtendTraversal(m: Mem, g: Graph, sc: Scope, unmark: bool, root: int, order: seq<int>, p: int, q: int)
    requires IsTraversal(m, g, sc, unmark, root, order)
    requires p in order && Edge(m, g, sc, p, q) && IsFresh(m, q, unmark) && q !in order
    ensures IsTraversal(m, g, sc, unmark, root, order + [q])
  {
    hide Edge, IsFresh, HasParent;
    var order' := order + [q];
    EdgeEnds(m, g, sc, p, q);
    assert forall i {:trigger order'[i]} :: 0 <= i < |order| ==> order'[i] == order[i];
    assert forall i {:trigger order'[i]} :: 0 <= i < |order'| ==> order'[i] in g && IsFresh(m, order'[i], unmark);
    forall i | 0 < i < |order'| ensures HasParent(m, g, sc, order', i) {
      if i < |order| {
        assert order[i] in g;
        ParentKept(m, g, sc, order, i, order');
      } else {
        var k :| 0 <= k < |order| && order[k] == p;
        ParentIs(m, g, sc, order', i, k);
      }
    }
    assert forall i, j :: 0 <= i < j < |order'| ==> order'[i] != order'[j];
    assert |order| > 0 && order'[0] == order[0] == root;
  }

  lemma ParentIs(m: Mem, g: Graph, sc: Scope, order: seq<int>, i: nat, k: nat)
    requires k < i < |order| && Edge(m, g, sc, order[k], order[i])
    ensures HasParent(m, g, sc, order, i)
  {
  }

  lemma ParentKept(m: Mem, g: Graph, sc: Scope, order: seq<int>, i: nat, order': seq<int>)
    requires i < |order| <= |order'| && order == order'[..|order|] && HasParent(m, g, sc, order, i)
    ensures HasParent(m, g, sc, order', i)
  {
    hide Edge;
    var k := ParentOf(m, g, sc, order, i);
    ParentIs(m, g, sc, order', i, k);
  }

  lemma EdgeEnds(m: Mem, g: Graph, sc: Scope, p: int, q: int)
    requires Edge(m, g, sc, p, q)
    ensures p in g && q in g
  {
  }
}
