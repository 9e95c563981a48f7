/** Depth-first marking by pointer reversal (dfs-mark.c). */
module DfsMark {
  import opened Sequences
  import opened Memory
  import opened Objects
  import opened Layout
  import opened Forwarding
  import opened MarkGraph
  import opened PointerReversal
  import opened MarkState
  import opened MarkSteps
  import opened DepthFirst

  /** Where the state machine continues. */
  datatype Label = MarkInNormal | MarkInArray | Ret

  datatype Position = Position(todo: int, arrayIndex: nat, objptrIndex: nat)

  function WalkOf(s: State): Walk { Walk(s.order, s.flag) }

  /** What is left to do from label l on leads to what the recursive walk does. */
  ghost predicate OnCourse(c: Task, s: State, l: Label, pos: Position) {
    && c.root in c.g && s.fs != [] && Top(s) in c.g && Sound(c, s.order) && Frames(c, s.fs, s.act)
    && Unwind(c, s.fs[..|s.fs| - 1], s.act, if l == Ret then WalkOf(s) else ScanFrom(c, Top(s), pos.arrayIndex, pos.objptrIndex, WalkOf(s))) == WholeWalk(c)
  }

  /** The same, before the object on top is marked. */
  ghost predicate MarkOnCourse(c: Task, s: State) {
    && c.root in c.g && s.fs != [] && Top(s) in c.g && Top(s) !in s.order && Sound(c, s.order) && Frames(c, s.fs, s.act)
    && Unwind(c, s.fs[..|s.fs| - 1], s.act, Visit(c, Top(s), WalkOf(s))) == WholeWalk(c)
  }

  const START := Position(0, 0, 0)

  /** The state machine is at label l, with its cursor where pos says. */
  ghost predicate At(c: Task, s: State, l: Label, pos: Position) {
    OnCourse(c, s, l, pos) &&
    if l == Ret then Returning(c, s)
    else
      && Scanning(c, s, pos.arrayIndex, pos.objptrIndex)
      && c.g[Top(s)].t.tag == (if l == MarkInNormal then NormalTag else ArrayTag)
      && pos.todo == SlotAt(Top(s), c.g[Top(s)].t, pos.arrayIndex, pos.objptrIndex)
  }

  /** Elements, and pointers within an element, still to be scanned. */
  ghost function Remaining(c: Task, s: State, l: Label, pos: Position): int {
    if l == Ret || Top(s) !in c.g then 0 else Elements(c.g[Top(s)]) - pos.arrayIndex
  }

  ghost function RemainingInElement(c: Task, s: State, l: Label, pos: Position): int {
    if l == Ret || Top(s) !in c.g then 0 else c.g[Top(s)].t.numObjptrs - pos.objptrIndex
  }

  /** What the marker reads and writes at label mark. */
  lemma MarkReads(c: Task, s: State)
    requires Poised(c, s)
    ensures Top(s) in c.g && c.g[Top(s)].t.tag in {NormalTag, WeakTag, ArrayTag}
    ensures var p := Top(s); var h := Rd(s.m, p - HEADER_SIZE); var m1 := s.m[p - HEADER_SIZE := ToggleMark(h)]; var s' := AfterMark(c, s);
      && TypeOf(c.e, ToggleMark(h)) == c.g[p].t
      && (c.g[p].t.tag == ArrayTag ==> Length(Rd(m1, p - 16)) == c.g[p].len)
      && (c.g[p].t.tag == WeakTag ==> (LinksTop(c, p) <==> c.linkWeaks && IsObjptr(Rd(m1, WeakCell(c.e, p)))))
      && (LinksTop(c, p) ==> c.g[p].t.tag == WeakTag)
      && s'.m == (if LinksTop(c, p) then m1[LinkCell(c.e, p) := s.weaks] else m1)
      && s'.weaks == (if LinksTop(c, p) then LinkCell(c.e, p) else s.weaks)
      && s'.flag == (s.flag && IsClean(c.e, c.vis, h, p))
      && s'.fs == s.fs && s'.order == s.order + [p] && Top(s') == p
      && s'.size == s.size + Counted(c, p)
      && Rd(m1, p - HEADER_SIZE) == ToggleMark(h)
  {
    hide Inv, Poised, ToggleMark, IsClean, TypeOf, ValidShape, OffsetOfWeak, Counted, Counter, SetCounter, LinksTop, IsObjptr;
    MarkTop(c, s);
    PoisedTask(c, s);
    var p := Top(s);
    var s' := AfterMark(c, s);
    TopReads(c, s');
    TagOf(c, p);
    WeakHeader(c, s);
    var m1 := s.m[p - HEADER_SIZE := ToggleMark(Rd(s.m, p - HEADER_SIZE))];
    assert Rd(s'.m, WeakCell(c.e, p)) == Rd(m1, WeakCell(c.e, p));
  }

  lemma PoisedTask(c: Task, s: State)
    requires Poised(c, s)
    ensures ValidTask(c) && Top(s) in s.act && s.act[Top(s)].Running?
  {
  }

  lemma WeakHeader(c: Task, s: State)
    requires Top(s) in c.g
    ensures LinksTop(c, Top(s)) <==> c.linkWeaks && c.g[Top(s)].t.tag == WeakTag && IsObjptr(Rd(c.m0, WeakCell(c.e, Top(s))))
  {
  }

  lemma SizeCounted(c: Task, p: int)
    requires p in c.g
    ensures var t, len := c.g[p].t, c.g[p].len;
      Counted(c, p) == if t.tag == WeakTag || (c.sizeEstimation && c.sc.sharedLo <= p < c.sc.sharedHi) then 0
                       else if t.tag == ArrayTag then ARRAY_HEADER_SIZE + ArrayNoHeader(c.e, len, t)
                       else Counted(c, p)
    ensures var t := c.g[p].t;
      t.tag == NormalTag && !(c.sizeEstimation && c.sc.sharedLo <= p < c.sc.sharedHi) ==> Counted(c, p) == HEADER_SIZE + t.bytesNonObjptrs + t.numObjptrs * OBJPTR_SIZE
  {
    hide ArrayNoHeader;
  }

  lemma TagOf(c: Task, p: int)
    requires ValidTask(c) && p in c.g
    ensures c.g[p].t.tag in {NormalTag, WeakTag, ArrayTag} && p <= WeakCell(c.e, p) && OffsetOfWeak(c.e) >= 0
  {
    hide TypeIndex, Counter;
    NodeAt(c, p);
    AlignIsLeast(24, c.e.alignment);
  }

  /** Where the marker goes from label mark. */
  lemma AfterMarkAt(c: Task, s: State)
    requires Poised(c, s) && MarkOnCourse(c, s) && Top(s) in c.g
    ensures var p := Top(s); var t := c.g[p].t; var s' := AfterMark(c, s); var start := Position(p + t.bytesNonObjptrs, 0, 0);
      if Going(c, s'.flag) && t.numObjptrs != 0 && (t.tag == NormalTag || (t.tag == ArrayTag && c.g[p].len != 0))
      then At(c, s', if t.tag == NormalTag then MarkInNormal else MarkInArray, start)
      else At(c, s', Ret, START)
  {
    hide Inv, ToggleMark, IsClean, TypeOf, ValidShape, OffsetOfWeak, IsTraversal, Rep, StackOk, Toggled, WeaksLinked, FlagOk, Progress, Apart, Closed, Nodes, Marked, LinksTop, OnCourse, MarkOnCourse;
    MarkTop(c, s);
    TagOf(c, Top(s));
    MarkedOnCourse(c, s);
  }

  /** Marking the object on top is what visiting it begins with. */
  lemma MarkedOnCourse(c: Task, s: State)
    requires MarkOnCourse(c, s)
    ensures var s' := AfterMark(c, s);
      if Going(c, s'.flag) && IsCursor(c.g[Top(s)], 0, 0) then forall todo, l :: l != Ret ==> OnCourse(c, s', l, Position(todo, 0, 0))
      else OnCourse(c, s', Ret, START)
  {
    hide IsClean, Unwind, ScanFrom, Visit, LinksTop, Counted, Marked, IsCursor;
    var p, w := Top(s), WalkOf(s);
    var s' := AfterMark(c, s);
    VisitMarks(c, p, w);
    if !IsCursor(c.g[p], 0, 0) { ScanEnds(c, p, 0, 0, WalkOf(s')); }
  }

  /** Passing over a pointer. */
  lemma PassedOnCourse(c: Task, s: State, l: Label, pos: Position, a': nat, j': nat)
    requires OnCourse(c, s, l, pos) && l != Ret && IsCursor(c.g[Top(s)], pos.arrayIndex, pos.objptrIndex)
    requires Taken(c, s.order, Rd(c.m0, SlotAt(Top(s), c.g[Top(s)].t, pos.arrayIndex, pos.objptrIndex)))
    requires NextCursor(c.g[Top(s)], pos.arrayIndex, pos.objptrIndex, a', j')
    ensures forall todo :: OnCourse(c, s, l, Position(todo, a', j'))
    ensures !IsCursor(c.g[Top(s)], a', j') ==> OnCourse(c, s, Ret, START)
  {
    hide Unwind, ScanFrom, Visit, SlotAt, IsCursor;
    var p := Top(s);
    PassedOver(c, p, pos.arrayIndex, pos.objptrIndex, WalkOf(s));
    assert ScanAfter(c, p, pos.arrayIndex, pos.objptrIndex, WalkOf(s)) == ScanFrom(c, p, a', j', WalkOf(s));
    if !IsCursor(c.g[p], a', j') { ScanEnds(c, p, a', j', WalkOf(s)); }
  }

  /** Changing what the object on top has stored changes nothing below it. */
  lemma TopIsFree(c: Task, s: State, s': State)
    requires OnCourse(c, s, Ret, START)
    requires s'.fs == s.fs && s'.order == s.order && s'.flag == s.flag && Top(s) in s'.act
    requires s'.act - {Top(s)} == s.act - {Top(s)} && forall i, j :: 0 <= i < j < |s.fs| ==> s.fs[i] != s.fs[j]
    ensures OnCourse(c, s', Ret, START)
  {
    hide Unwind, ScanFrom, Visit;
    assert OnCourse(c, s, Ret, START);
    var fs := s.fs[..|s.fs| - 1];
    forall i {:trigger s.fs[i]} | 0 <= i < |s.fs| ensures s.fs[i] in s'.act && (i < |s.fs| - 1 ==> s'.act[s.fs[i]] == s.act[s.fs[i]]) {
      if i < |s.fs| - 1 { SameElsewhere(s.act, s'.act, Top(s), s.fs[i]); }
    }
    assert forall i {:trigger fs[i]} :: 0 <= i < |fs| ==> fs[i] == s.fs[i];
    UnwindFrame(c, fs, s.act, s'.act, WalkOf(s));
  }

  /** Following a pointer is a visit in the middle of a scan. */
  lemma DescendedOnCourse(c: Task, s: State, l: Label, pos: Position, w: int)
    requires OnCourse(c, s, l, pos) && l != Ret && IsCursor(c.g[Top(s)], pos.arrayIndex, pos.objptrIndex)
    requires w == Rd(c.m0, SlotAt(Top(s), c.g[Top(s)].t, pos.arrayIndex, pos.objptrIndex)) && Takes(c, s.order, w) && w !in s.act
    requires forall i, j :: 0 <= i < j < |s.fs| ==> s.fs[i] != s.fs[j]
    ensures MarkOnCourse(c, AfterDescend(c, s, pos.arrayIndex, pos.objptrIndex, w))
  {
    hide Unwind, ScanFrom, Visit, SlotAt, IsCursor, Suspend;
    var p, a, j := Top(s), pos.arrayIndex, pos.objptrIndex;
    var s' := AfterDescend(c, s, a, j, w);
    var fs := s.fs[..|s.fs| - 1];
    StepsInto(c, p, a, j, WalkOf(s));
    var v := Visit(c, w, WalkOf(s));
    forall i {:trigger s'.fs[i]} | 0 <= i < |s'.fs| ensures s'.fs[i] in c.g && s'.fs[i] in s'.act {
      if i < |s.fs| { assert s'.fs[i] == s.fs[i] && s.fs[i] in s.act; }
    }
    forall i {:trigger fs[i]} | 0 <= i < |fs| ensures fs[i] in s.act && fs[i] in s'.act && s'.act[fs[i]] == s.act[fs[i]] {
      assert fs[i] == s.fs[i] && s.fs[i] in s.act;
    }
    assert s'.fs[..|s'.fs| - 1] == s.fs;
    UnwindTop(c, s.fs, s'.act, v);
    UnwindFrame(c, fs, s.act, s'.act, ScanAfter(c, p, a, j, v));
  }

  lemma UnwindTop(c: Task, fs: seq<int>, act: map<int, Activity>, w: Walk)
    requires Frames(c, fs, act) && Sound(c, w.order) && fs != []
    ensures var p := fs[|fs| - 1]; Unwind(c, fs, act, w) == Unwind(c, fs[..|fs| - 1], act, ScanAfter(c, p, act[p].a, act[p].j, w))
  {
    hide ScanFrom;
  }

  /** Coming back to an object is going on after the pointer it was left at. */
  lemma ReturnedOnCourse(c: Task, s: State, l: Label, pos: Position)
    requires OnCourse(c, s, Ret, pos) && |s.fs| > 1 && l != Ret
    requires forall i, j :: 0 <= i < j < |s.fs| ==> s.fs[i] != s.fs[j]
    requires var p := s.fs[|s.fs| - 2];
      && p in c.g && p in s.act && IsCursor(c.g[p], s.act[p].a, s.act[p].j)
      && Taken(c, s.order, Rd(c.m0, SlotAt(p, c.g[p].t, s.act[p].a, s.act[p].j)))
      && pos.arrayIndex == s.act[p].a && pos.objptrIndex == s.act[p].j
    ensures OnCourse(c, AfterReturn(c, s), l, pos)
  {
    hide Unwind, ScanFrom, Visit, SlotAt, IsCursor;
    var s' := AfterReturn(c, s);
    var below := s.fs[..|s.fs| - 1];
    var p := s.fs[|s.fs| - 2];
    forall i {:trigger s'.fs[i]} | 0 <= i < |s'.fs| ensures s'.fs[i] in c.g && s'.fs[i] in s'.act && s'.act[s'.fs[i]].a == s.act[s'.fs[i]].a && s'.act[s'.fs[i]].j == s.act[s'.fs[i]].j {
      assert s'.fs[i] == s.fs[i] && s.fs[i] in s.act && s.fs[i] != Top(s);
    }
    assert below == s'.fs && below[|below| - 1] == p && Top(s') == p;
    UnwindTop(c, below, s.act, WalkOf(s));
    PassedOver(c, p, pos.arrayIndex, pos.objptrIndex, WalkOf(s));
    var fs := below[..|below| - 1];
    assert forall i {:trigger fs[i]} :: 0 <= i < |fs| ==> fs[i] == s'.fs[i];
    UnwindFrame(c, fs, s.act, s'.act, ScanFrom(c, p, pos.arrayIndex, pos.objptrIndex, WalkOf(s)));
  }

  lemma SoundOrder(c: Task, s: State)
    requires OrderOk(c, s) && StackOk(c.g, s.lm, s.fs, s.act)
    ensures Sound(c, s.order) && Frames(c, s.fs, s.act)
    ensures s.fs != [] && forall i, j :: 0 <= i < j < |s.fs| ==> s.fs[i] != s.fs[j]
  {
    hide Toggled, WeaksLinked, TotalSize, FlagOk, IsLink;
  }

  class Marker {
    const e: Model
    const sharedLo: int
    const sharedHi: int
    var mem: Mem
    var tmpBool: bool
    var weaks: int

    constructor (e: Model, sharedLo: int, sharedHi: int, mem: Mem, tmpBool: bool, weaks: int)
      ensures this.e == e && this.sharedLo == sharedLo && this.sharedHi == sharedHi
      ensures this.mem == mem && this.tmpBool == tmpBool && this.weaks == weaks
    {
      this.e, this.sharedLo, this.sharedHi := e, sharedLo, sharedHi;
      this.mem, this.tmpBool, this.weaks := mem, tmpBool, weaks;
    }

    /** s is the state of the marking c as this object has it. */
    ghost predicate Holds(c: Task, s: State, size: int)
      reads this
    {
      && c.e == e && c.sc.sharedLo == sharedLo && c.sc.sharedHi == sharedHi
      && s.m == mem && s.flag == tmpBool && s.weaks == weaks && s.size == size
    }

    /** isPointerMarkedByMode. */
    predicate IsMarkedByMode(p: int, unmark: bool)
      reads this
    {
      IsMarked(Rd(mem, p - HEADER_SIZE)) != unmark
    }

    /** The visitor f: it may take note of an unclean object and then asks not
        to go any deeper. */
    method Visit(vis: Visitor, p: int) returns (toContinue: bool)
      modifies this`tmpBool
      ensures tmpBool == (old(tmpBool) && IsClean(e, vis, Rd(mem, p - HEADER_SIZE), p))
      ensures toContinue == (vis.Always? || tmpBool)
    {
      if vis.Always? { return true; }
      tmpBool := tmpBool && IsClean(e, vis, Rd(mem, p - HEADER_SIZE), p);
      toContinue := tmpBool;
    }

    /** From label mark: visit and mark cur, count its bytes and look for its
        first pointer. */
    method MarkObject(vis: Visitor, linkWeaks: bool, sizeEstimation: bool, cur: int, size: int, ghost c: Task, ghost s: State)
      returns (size': int, next: Label, pos: Position, ghost s': State)
      requires Holds(c, s, size) && Poised(c, s) && MarkOnCourse(c, s) && cur == Top(s)
      requires c.vis == vis && c.linkWeaks == linkWeaks && c.sizeEstimation == sizeEstimation
      modifies this
      ensures Holds(c, s', size') && At(c, s', next, pos)
      ensures s'.fs == s.fs && s'.order == s.order + [cur]
    {
      hide At, Poised, MarkOnCourse, Inv, ToggleMark, TypeOf, IsClean, SizeByType, ArrayNoHeader, Counted, LinksTop, AfterMark, OffsetOfWeak, FixedBytes, Counter;
      MarkReads(c, s);
      AfterMarkAt(c, s);
      s' := AfterMark(c, s);
      var toContinue := Visit(vis, cur);
      var header := ToggleMark(Rd(mem, cur - HEADER_SIZE));
      mem := mem[cur - HEADER_SIZE := header];
      var t := TypeOf(e, header);
      SizeCounted(c, cur);
      size', next, pos := size, Ret, START;
      if t.tag == NormalTag {
        if !(sizeEstimation && sharedLo <= cur < sharedHi) {
          size' := size + HEADER_SIZE + t.bytesNonObjptrs + t.numObjptrs * OBJPTR_SIZE;
        }
        if toContinue && t.numObjptrs != 0 {
          next, pos := MarkInNormal, Position(cur + t.bytesNonObjptrs, 0, 0);
        }
      } else if t.tag == WeakTag {
        if linkWeaks && IsObjptr(Rd(mem, WeakCell(e, cur))) {
          mem := mem[LinkCell(e, cur) := weaks];
          weaks := LinkCell(e, cur);
        }
      } else {
        var len := Length(Rd(mem, cur - 16));
        if !(sizeEstimation && sharedLo <= cur < sharedHi) {
          size' := size + ARRAY_HEADER_SIZE + ArrayNoHeader(e, len, t);
        }
        if toContinue && t.numObjptrs != 0 && len != 0 {
          next, pos := MarkInArray, Position(cur + t.bytesNonObjptrs, 0, 0);
        }
      }
    }

    /** From label markNext: leave cur for what its cursor is at. If that is not
        a fresh object but the header of one that has moved away, the type of
        the header is looked up past the end of the table; ok tells. */
    method MarkNext(vis: Visitor, linkWeaks: bool, sizeEstimation: bool, cur: int, prev: int, header: int, pos: Position, isArray: bool,
        size: int, ghost c: Task, ghost s: State)
      returns (ok: bool, cur': int, prev': int, size': int, next: Label, pos': Position, ghost s': State)
      requires Holds(c, s, size) && At(c, s, if isArray then MarkInArray else MarkInNormal, pos)
      requires cur == Top(s) && s.fs != [] && prev == Below(s.fs, |s.fs| - 1) && header == Rd(mem, cur - HEADER_SIZE)
      requires pos.todo == SlotAt(cur, c.g[cur].t, pos.arrayIndex, pos.objptrIndex) && isArray == (c.g[cur].t.tag == ArrayTag)
      requires var w := Rd(c.m0, pos.todo); c.sc.Follows(w) && (w in c.g ==> IsFresh(c.m0, w, c.unmark) && w !in s.order)
      requires c.vis == vis && c.linkWeaks == linkWeaks && c.sizeEstimation == sizeEstimation
      modifies this
      ensures ok <==> Rd(c.m0, pos.todo) in c.g
      ensures ok ==> Holds(c, s', size') && At(c, s', next, pos') && cur' == Top(s') && s'.fs != [] && prev' == Below(s'.fs, |s'.fs| - 1)
      ensures ok ==> |s'.order| == |s.order| + 1
      ensures !ok ==> Rd(mem, Rd(c.m0, pos.todo) - HEADER_SIZE) == ToggleMark(FORWARDED)
    {
      hide At, Poised, Inv, ToggleMark, Counter, SetCounter, SlotAt, IsCursor, Suspend, HasType, IsClean, MarkOnCourse;
      AtCursor(c, s, if isArray then MarkInArray else MarkInNormal, pos);
      CursorReads(c, s, pos.arrayIndex, pos.objptrIndex);
      ghost var s1 := AfterDescend(c, s, pos.arrayIndex, pos.objptrIndex, Rd(c.m0, pos.todo));
      NextHeader(c, s, pos.arrayIndex, pos.objptrIndex);
      cur' := Rd(mem, pos.todo);
      SuspendedBy(mem, c.g[cur], cur, pos.arrayIndex, pos.objptrIndex, header, prev);
      if isArray { mem := mem[cur - 24 := pos.arrayIndex]; }
      mem := mem[cur - HEADER_SIZE := SetCounter(header, pos.objptrIndex)];
      mem := mem[pos.todo := prev];
      prev' := cur;
      ok := HasType(e, Rd(mem, cur' - HEADER_SIZE));
      if !ok {
        size', next, pos', s' := size, Ret, pos, s;
        var toContinue := Visit(vis, cur');
        mem := mem[cur' - HEADER_SIZE := ToggleMark(Rd(mem, cur' - HEADER_SIZE))];
        return;
      }
      Descend(c, s, pos.arrayIndex, pos.objptrIndex);
      NextOnCourse(c, s, if isArray then MarkInArray else MarkInNormal, pos);
      size', next, pos', s' := MarkObject(vis, linkWeaks, sizeEstimation, cur', size, c, s1);
    }

    /** From label markNextInNormal. */
    method MarkNextInNormal(cur: int, t: ObjectType, pos: Position, header: int, ghost c: Task, ghost s: State)
      returns (next: Label, pos': Position, ghost s': State)
      requires Holds(c, s, s.size) && At(c, s, MarkInNormal, pos) && cur == Top(s) && t == c.g[cur].t && header == Rd(mem, cur - HEADER_SIZE)
      requires Taken(c, s.order, Rd(c.m0, pos.todo))
      modifies this`mem
      ensures Holds(c, s', s.size) && At(c, s', next, pos') && s'.fs == s.fs && s'.order == s.order
      ensures next != MarkInArray && Nearer(c, s, MarkInNormal, pos, s', next, pos')
    {
      hide At, Inv, Taken, ClearCounters, SetCounter, Nearer;
      AdvanceNormal(c, s, pos);
      s', next := s, MarkInNormal;
      if pos.objptrIndex + 1 == t.numObjptrs {
        ClearedBy(mem, c.g[cur], cur, header);
        mem := mem[cur - HEADER_SIZE := SetCounter(header, 0)];
        s', next, pos' := Finished(c, s), Ret, START;
      } else {
        pos' := Position(pos.todo + OBJPTR_SIZE, pos.arrayIndex, pos.objptrIndex + 1);
      }
    }

    /** From label markNextInArray. */
    method MarkNextInArray(cur: int, t: ObjectType, pos: Position, header: int, ghost c: Task, ghost s: State)
      returns (next: Label, pos': Position, ghost s': State)
      requires Holds(c, s, s.size) && At(c, s, MarkInArray, pos) && cur == Top(s) && t == c.g[cur].t && header == Rd(mem, cur - HEADER_SIZE)
      requires Taken(c, s.order, Rd(c.m0, pos.todo))
      modifies this`mem
      ensures Holds(c, s', s.size) && At(c, s', next, pos') && s'.fs == s.fs && s'.order == s.order
      ensures next != MarkInNormal && Nearer(c, s, MarkInArray, pos, s', next, pos')
    {
      hide At, Inv, Taken, ClearCounters, SetCounter, Nearer;
      AdvanceArray(c, s, pos);
      s', next := s, MarkInArray;
      var todo, objptrIndex := pos.todo + OBJPTR_SIZE, pos.objptrIndex + 1;
      if objptrIndex < t.numObjptrs {
        pos' := Position(todo, pos.arrayIndex, objptrIndex);
      } else if pos.arrayIndex + 1 < Length(Rd(mem, cur - 16)) {
        pos' := Position(todo + t.bytesNonObjptrs, pos.arrayIndex + 1, 0);
      } else {
        ClearedBy(mem, c.g[cur], cur, header);
        mem := mem[cur - 24 := 0];
        mem := mem[cur - HEADER_SIZE := SetCounter(header, 0)];
        s', next, pos' := Finished(c, s), Ret, START;
      }
    }

    /** From label ret: put the pointer back that led to the finished object and
        go on after it. */
    method ReturnToPrev(cur: int, prev: int, ghost c: Task, ghost s: State)
      returns (prev': int, next: Label, pos: Position, ghost s': State)
      requires Holds(c, s, s.size) && Returning(c, s) && OnCourse(c, s, Ret, START)
      requires |s.fs| > 1 && cur == Top(s) && prev == Below(s.fs, |s.fs| - 1)
      modifies this`mem
      ensures Holds(c, s', s.size) && At(c, s', next, pos) && prev == Top(s') && s'.fs == s.fs[..|s.fs| - 1] && s'.order == s.order
      ensures prev' == Below(s'.fs, |s'.fs| - 1)
    {
      hide At, Inv, Taken, Returning, Scanning, SlotAt, Counter, TypeOf, IsCursor, Nearer, SetCounter, ArrayBytes, OnCourse;
      Return(c, s);
      ghost var s1 := AfterReturn(c, s);
      var header := Rd(mem, prev - HEADER_SIZE);
      var t := TypeOf(e, header);
      if t.tag == NormalTag {
        var objptrIndex := Counter(header);
        var todo := prev + t.bytesNonObjptrs + objptrIndex * OBJPTR_SIZE;
        ReturnSlot(prev, t, 0, objptrIndex);
        prev' := Rd(mem, todo);
        mem := mem[todo := cur];
        ReturnAt(c, s, MarkInNormal, Position(todo, 0, objptrIndex));
        SameHeader(c, s, todo);
        next, pos, s' := MarkNextInNormal(prev, t, Position(todo, 0, objptrIndex), header, c, s1);
      } else {
        var arrayIndex, objptrIndex := Rd(mem, prev - 24), Counter(header);
        var todo := prev + arrayIndex * (t.bytesNonObjptrs + t.numObjptrs * OBJPTR_SIZE);
        todo := todo + t.bytesNonObjptrs + objptrIndex * OBJPTR_SIZE;
        ReturnSlot(prev, t, arrayIndex, objptrIndex);
        prev' := Rd(mem, todo);
        mem := mem[todo := cur];
        ReturnAt(c, s, MarkInArray, Position(todo, arrayIndex, objptrIndex));
        SameHeader(c, s, todo);
        next, pos, s' := MarkNextInArray(prev, t, Position(todo, arrayIndex, objptrIndex), header, c, s1);
      }
    }

    /** dfsMarkByMode without hash-consing. It goes wrong, and ok is false, only
        when it unmarks. */
    method DfsMarkByMode(root: int, vis: Visitor, unmark: bool, linkWeaks: bool, ignoreShared: bool, sizeEstimation: bool, ghost g: Graph)
      returns (ok: bool, size: int, ghost order: seq<int>)
      requires ValidModel(e) && Nodes(e, mem, g) && Apart(e, g) && Closed(e, mem, g, Scope(ignoreShared, sharedLo, sharedHi))
      requires StartOk(e, mem, g, Scope(ignoreShared, sharedLo, sharedHi), root, unmark)
      modifies this
      ensures var c := Task(e, g, old(mem), Scope(ignoreShared, sharedLo, sharedHi), RootOf(old(mem), root, unmark), unmark, vis, old(tmpBool), linkWeaks, sizeEstimation, old(weaks));
        if ok then MarkingDone(c, mem, tmpBool, weaks, size, order) && !RootMistaken(c, root)
        else unmark && (Strayed(c, mem) || (RootMistaken(c, root) && Rd(mem, c.root - HEADER_SIZE) == ToggleMark(Header0(c, c.root))))
    {
      hide Nodes, Apart, Closed, ValidModel, IsMarked, Poised, Inv, At, Returning, Scanning, TypeOf, Taken, StackOk, SlotAt, Counter, SetCounter, Toggled, WeaksLinked, FlagOk, TotalSize, Strayed, MovedAway, OnCourse, MarkOnCourse;
      ghost var c := Task(e, g, mem, Scope(ignoreShared, sharedLo, sharedHi), RootOf(mem, root, unmark), unmark, vis, tmpBool, linkWeaks, sizeEstimation, weaks);
      RootHeader(c, root);
      ok := true;
      if IsMarkedByMode(root, unmark) {
        return true, 0, [];
      }
      var cur := root;
      if Rd(mem, root - HEADER_SIZE) == FORWARDED {
        cur := FixFwdObjptr(mem, root, 1);
      }
      if ignoreShared && sharedLo <= cur < sharedHi {
        return true, 0, [];
      }
      if IsMarkedByMode(cur, unmark) {
        // The first assertion at label mark fails. Without it the header is
        // flipped all the same.
        mem := mem[cur - HEADER_SIZE := ToggleMark(Rd(mem, cur - HEADER_SIZE))];
        return false, 0, [];
      }
      Start(c);
      StartsOnCourse(c);
      ghost var s := StartState(mem, cur, tmpBool, weaks);
      var prev := 0;
      var label_, pos;
      size, label_, pos, s := MarkObject(vis, linkWeaks, sizeEstimation, cur, 0, c, s);
      while !(label_ == Ret && prev == 0)
        invariant ok && Holds(c, s, size) && At(c, s, label_, pos)
        invariant s.fs != [] && cur == Top(s) && prev == Below(s.fs, |s.fs| - 1)
        decreases |g| - |s.order|, |s.fs|, Remaining(c, s, label_, pos), RemainingInElement(c, s, label_, pos)
      {
        Measured(c, s, label_, pos);
        if label_ == Ret {
          var finished := cur;
          cur := prev;
          RetIsOnCourse(c, s, pos);
          prev, label_, pos, s := ReturnToPrev(finished, cur, c, s);
        } else {
          ghost var s0 := s;
          ok, cur, prev, size, label_, pos, s := Scan(vis, unmark, linkWeaks, ignoreShared, sizeEstimation, cur, prev, size, label_, pos, c, s);
          if !ok { return false, size, s0.order; }
        }
        Measured(c, s, label_, pos);
      }
      Measured(c, s, label_, pos);
      RetIsOnCourse(c, s, pos);
      AllDone(c, s);
      order := s.order;
    }

    /** From labels markInNormal and markInArray: one pointer of cur. */
    method Scan(vis: Visitor, unmark: bool, linkWeaks: bool, ignoreShared: bool, sizeEstimation: bool,
        cur: int, prev: int, size: int, l: Label, pos: Position, ghost c: Task, ghost s: State)
      returns (ok: bool, cur': int, prev': int, size': int, next: Label, pos': Position, ghost s': State)
      requires Holds(c, s, size) && At(c, s, l, pos) && l != Ret
      requires s.fs != [] && cur == Top(s) && prev == Below(s.fs, |s.fs| - 1)
      requires c.vis == vis && c.unmark == unmark && c.linkWeaks == linkWeaks && c.sizeEstimation == sizeEstimation && c.sc.ignoreShared == ignoreShared
      modifies this
      ensures ok ==> Holds(c, s', size') && At(c, s', next, pos') && s'.fs != [] && cur' == Top(s') && prev' == Below(s'.fs, |s'.fs| - 1)
      ensures ok ==> |s'.order| == |s.order| + 1 || (|s'.order| == |s.order| && |s'.fs| == |s.fs| && Nearer(c, s, l, pos, s', next, pos'))
      ensures !ok ==> unmark && Strayed(c, mem)
    {
      hide Inv, Taken, Returning, SlotAt, Counter, TypeOf, IsCursor, Nearer, SetCounter, IsMarked, IsFresh, Strayed, Outside, ToggleMark, OnCourse;
      CursorReads(c, s, pos.arrayIndex, pos.objptrIndex);
      TopReads(c, s);
      TakenOr(c, s.order, Rd(c.m0, pos.todo));
      MarkedOrFresh(mem, Rd(c.m0, pos.todo), unmark);
      MarkedOrFresh(c.m0, Rd(c.m0, pos.todo), unmark);
      ForwardingHeader(e);
      var header := Rd(mem, cur - HEADER_SIZE);
      var t := TypeOf(e, header);
      var w := Rd(mem, pos.todo);
      ok, cur', prev', size' := true, cur, prev, size;
      if IsObjptr(w) && !(ignoreShared && sharedLo <= w < sharedHi) && IsMarked(Rd(mem, w - HEADER_SIZE)) == unmark {
        ok, cur', prev', size', next, pos', s' := MarkNext(vis, linkWeaks, sizeEstimation, cur, prev, header, pos, l == MarkInArray, size, c, s);
        if !ok { HasStrayed(c, s, pos.arrayIndex, pos.objptrIndex, mem); }
      } else if l == MarkInNormal {
        next, pos', s' := MarkNextInNormal(cur, t, pos, header, c, s);
      } else {
        next, pos', s' := MarkNextInArray(cur, t, pos, header, c, s);
      }
    }
  }

  // ------------------------------------------------------------- lifted objects

  /** Unmarking has followed a pointer to where an object has been, and flipped
      the mark in the forwarding header. */
  ghost predicate Strayed(c: Task, m: Mem) {
    exists p, a, j {:trigger LeadsAwayAt(c, p, a, j)} :: StraysAt(c, p, a, j, m)
  }

  ghost predicate StraysAt(c: Task, p: int, a: int, j: int, m: Mem) {
    && LeadsAwayAt(c, p, a, j) && Reachable(c.m0, c.g, c.sc, c.unmark, c.root, p)
    && Rd(m, Rd(c.m0, SlotAt(p, c.g[p].t, a, j)) - HEADER_SIZE) == ToggleMark(FORWARDED)
  }

  lemma StrayedWhere(c: Task, m: Mem) returns (p: int, a: int, j: int)
    requires Strayed(c, m)
    ensures LeadsAwayAt(c, p, a, j) && p in c.g && Reachable(c.m0, c.g, c.sc, c.unmark, c.root, p)
    ensures Rd(m, Rd(c.m0, SlotAt(p, c.g[p].t, a, j)) - HEADER_SIZE) == ToggleMark(FORWARDED)
  {
    hide SlotAt, Reachable, ToggleMark;
    p, a, j :| StraysAt(c, p, a, j, m);
  }

  /** Unmarking starts from an object that the root was lifted to and that is
      not marked. */
  ghost predicate RootMistaken(c: Task, root: int) {
    && c.unmark && Rd(c.m0, root - HEADER_SIZE) == FORWARDED
    && !(c.sc.ignoreShared && c.sc.InShared(c.root)) && !IsFresh(c.m0, c.root, c.unmark)
  }

  /** Where a walk starts: unmarking follows a forwarding pointer first, marking
      takes a forwarding header for a marked one. */
  function RootOf(m: Mem, root: int, unmark: bool): int {
    if unmark && Rd(m, root - HEADER_SIZE) == FORWARDED then Rd(m, root) else root
  }

  ghost predicate StartOk(e: Model, m: Mem, g: Graph, sc: Scope, root: int, unmark: bool) {
    var r := RootOf(m, root, unmark);
    && IsObjptr(root) && root != 0
    && (r in g || (sc.ignoreShared && sc.InShared(r)) || (!unmark && MovedAway(e, m, g, root)))
    && (unmark ==> !IsForwarded(m, r))
  }

  lemma RootHeader(c: Task, root: int)
    requires ValidModel(c.e) && Nodes(c.e, c.m0, c.g) && StartOk(c.e, c.m0, c.g, c.sc, root, c.unmark) && c.root == RootOf(c.m0, root, c.unmark)
    ensures Rd(c.m0, root - HEADER_SIZE) == FORWARDED ==> !IsFresh(c.m0, root, false) && IsFresh(c.m0, root, true)
    ensures Rd(c.m0, root - HEADER_SIZE) != FORWARDED ==> c.root == root && !MovedAway(c.e, c.m0, c.g, root)
    ensures Rd(c.m0, root - HEADER_SIZE) == FORWARDED && c.unmark ==> Settles(c.m0, root, 1) && Followed(c.m0, root, 1) == c.root
  {
    hide Nodes, Outside;
    ForwardingHeader(c.e);
    assert Followed(c.m0, Rd(c.m0, root), 0) == Rd(c.m0, root);
  }

  /** Leaving cur does not change the header of what is next. */
  lemma NextHeader(c: Task, s: State, a: nat, j: nat)
    requires Scanning(c, s, a, j) && |s.fs| > 0
    requires var w := Rd(c.m0, SlotAt(Top(s), c.g[Top(s)].t, a, j)); c.sc.Follows(w) && (w in c.g ==> IsFresh(c.m0, w, c.unmark) && w !in s.order)
    ensures var w := Rd(c.m0, SlotAt(Top(s), c.g[Top(s)].t, a, j));
      var h := Rd(AfterDescend(c, s, a, j, w).m, w - HEADER_SIZE);
      if w in c.g then HasType(c.e, h) else h == FORWARDED && !HasType(c.e, h)
  {
    hide Apart, Nodes, Rep, Toggled, WeaksLinked, Counted, FlagOk, Progress, SlotAt, IsMarked, ScannedUpTo, ValidModel, IsTraversal, Closed, StackOk, SetCounter, Counter, IsCursor, TotalSize, Suspend, ToggleMark, TypeIndex;
    var w := Rd(c.m0, SlotAt(Top(s), c.g[Top(s)].t, a, j));
    if w in c.g {
      Descend(c, s, a, j);
      MarkReads(c, AfterDescend(c, s, a, j, w));
      var h := Rd(AfterDescend(c, s, a, j, w).m, w - HEADER_SIZE);
      ToggleMarkKeepsTheRest(h);
    } else {
      CursorReads(c, s, a, j);
      SuspendedCells(c, s, a, j, w - HEADER_SIZE);
      ForwardingHeader(c.e);
    }
  }

  lemma SuspendedCells(c: Task, s: State, a: nat, j: nat, x: int)
    requires Scanning(c, s, a, j) && |s.fs| > 0 && Outside(c.e, c.g, x)
    ensures Rd(AfterDescend(c, s, a, j, x + HEADER_SIZE).m, x) == Rd(s.m, x)
  {
    hide Apart, Rep, Toggled, WeaksLinked, Counted, FlagOk, Progress, SlotAt, ScannedUpTo, ValidModel, IsTraversal, Closed, StackOk, IsCursor, TotalSize, Suspend, InObject;
    var p := Top(s);
    CellsInExtent(c.e, c.m0, c.g, p);
    SlotInExtent(c.e, c.m0, c.g, p, a, j);
  }

  lemma HasStrayed(c: Task, s: State, a: nat, j: nat, m: Mem)
    requires Scanning(c, s, a, j)
    requires var w := Rd(c.m0, SlotAt(Top(s), c.g[Top(s)].t, a, j)); c.sc.Follows(w) && w !in c.g && Rd(m, w - HEADER_SIZE) == ToggleMark(FORWARDED)
    ensures Strayed(c, m)
  {
    hide Apart, Rep, Toggled, WeaksLinked, Counted, FlagOk, Progress, SlotAt, ScannedUpTo, ValidModel, Closed, StackOk, IsCursor, TotalSize, Reachable, ToggleMark, Nodes;
    TopReads(c, s);
    var i :| 0 <= i < |s.order| && s.order[i] == Top(s);
    TraversalIsReachable(c.m0, c.g, c.sc, c.unmark, c.root, s.order, i);
    assert StraysAt(c, Top(s), a, j, m);
  }

  // -------------------------------------------------------- the cursor's progress

  /** The state machine has come closer to label ret. */
  ghost predicate Nearer(c: Task, s: State, l: Label, pos: Position, s': State, l': Label, pos': Position) {
    || Remaining(c, s', l', pos') < Remaining(c, s, l, pos)
    || (Remaining(c, s', l', pos') == Remaining(c, s, l, pos) && RemainingInElement(c, s', l', pos') < RemainingInElement(c, s, l, pos))
  }

  ghost function Finished(c: Task, s: State): State
    requires Top(s) in c.g
  {
    var p := Top(s);
    s.(m := ClearCounters(s.m, c.g[p], p, Rd(s.m, p - HEADER_SIZE)), act := s.act[p := Running(0, 0)])
  }

  lemma ClearedBy(m: Mem, s: Shape, p: int, header: int)
    ensures s.t.tag == ArrayTag ==> ClearCounters(m, s, p, header) == m[p - 24 := 0][p - HEADER_SIZE := SetCounter(header, 0)]
    ensures s.t.tag != ArrayTag ==> ClearCounters(m, s, p, header) == m[p - HEADER_SIZE := SetCounter(header, 0)]
  {
  }

  lemma SuspendedBy(m: Mem, s: Shape, p: int, a: nat, j: nat, header: int, prev: int)
    requires IsCursor(s, a, j)
    ensures s.t.tag == ArrayTag ==>
      Suspend(m, s, p, a, j, header, prev) == m[p - 24 := a][p - HEADER_SIZE := SetCounter(header, j)][SlotAt(p, s.t, a, j) := prev]
    ensures s.t.tag != ArrayTag ==>
      Suspend(m, s, p, a, j, header, prev) == m[p - HEADER_SIZE := SetCounter(header, j)][SlotAt(p, s.t, a, j) := prev]
  {
  }

  lemma AdvanceNormal(c: Task, s: State, pos: Position)
    requires At(c, s, MarkInNormal, pos) && Taken(c, s.order, Rd(c.m0, pos.todo))
    ensures Top(s) in c.g && pos.objptrIndex < c.g[Top(s)].t.numObjptrs && c.g[Top(s)].t.tag == NormalTag
    ensures var s', pos' := Finished(c, s), Position(pos.todo + OBJPTR_SIZE, pos.arrayIndex, pos.objptrIndex + 1);
      if pos.objptrIndex + 1 == c.g[Top(s)].t.numObjptrs
      then At(c, s', Ret, START) && Nearer(c, s, MarkInNormal, pos, s', Ret, START)
      else At(c, s, MarkInNormal, pos') && Nearer(c, s, MarkInNormal, pos, s, MarkInNormal, pos')
  {
    hide Inv, Taken, ScannedUpTo, AllScanned, ClearCounters, Returning, ArrayBytes, OnCourse, SetCounter, Counter;
    var last := pos.objptrIndex + 1 == c.g[Top(s)].t.numObjptrs;
    Advance(c, s, pos.arrayIndex, pos.objptrIndex, if last then 1 else 0, if last then 0 else pos.objptrIndex + 1);
    PassedOnCourse(c, s, MarkInNormal, pos, if last then 1 else 0, if last then 0 else pos.objptrIndex + 1);
    NonEmptyStack(c, s);
    if last {
      Finish(c, s);
      FinishedOnCourse(c, s);
    }
  }

  lemma FinishedOnCourse(c: Task, s: State)
    requires Inv(c, s) && Top(s) in c.g && OnCourse(c, s, Ret, START)
    ensures OnCourse(c, Finished(c, s), Ret, START)
  {
    hide Inv, OnCourse, ClearCounters, SetCounter, Counter, Sound, Frames;
    TopRuns(c, s);
    SoundFrames(c, s);
    var s' := Finished(c, s);
    assert s'.act - {Top(s)} == s.act - {Top(s)};
    TopIsFree(c, s, s');
  }

  lemma SoundFrames(c: Task, s: State)
    requires Inv(c, s)
    ensures Sound(c, s.order) && Frames(c, s.fs, s.act)
    ensures s.fs != [] && (forall i, j :: 0 <= i < j < |s.fs| ==> s.fs[i] != s.fs[j]) && forall p {:trigger p in s.act} :: p in s.act ==> p in s.order
  {
    hide ValidTask, Nodes, Rep, OrderOk, Progress, StackOk;
    SoundOrder(c, s);
  }

  lemma AtCursor(c: Task, s: State, l: Label, pos: Position)
    requires At(c, s, l, pos) && l != Ret
    ensures Scanning(c, s, pos.arrayIndex, pos.objptrIndex) && Top(s) in c.g && pos.todo == SlotAt(Top(s), c.g[Top(s)].t, pos.arrayIndex, pos.objptrIndex)
  {
    hide Inv, OnCourse, ScannedUpTo;
  }

  lemma NextOnCourse(c: Task, s: State, l: Label, pos: Position)
    requires At(c, s, l, pos) && l != Ret && |s.fs| > 0
    requires var w := Rd(c.m0, pos.todo); c.sc.Follows(w) && w in c.g && IsFresh(c.m0, w, c.unmark) && w !in s.order
    ensures MarkOnCourse(c, AfterDescend(c, s, pos.arrayIndex, pos.objptrIndex, Rd(c.m0, pos.todo)))
  {
    hide Inv, OnCourse, MarkOnCourse, ScannedUpTo, IsFresh, Suspend;
    SoundFrames(c, s);
    DescendedOnCourse(c, s, l, pos, Rd(c.m0, pos.todo));
  }

  lemma NonEmptyStack(c: Task, s: State)
    requires Inv(c, s)
    ensures s.fs != []
  {
  }

  lemma AdvanceArray(c: Task, s: State, pos: Position)
    requires At(c, s, MarkInArray, pos) && Taken(c, s.order, Rd(c.m0, pos.todo))
    ensures Top(s) in c.g && pos.objptrIndex < c.g[Top(s)].t.numObjptrs && c.g[Top(s)].t.tag == ArrayTag
    ensures Length(Rd(s.m, Top(s) - 16)) == c.g[Top(s)].len
    ensures var t, len := c.g[Top(s)].t, c.g[Top(s)].len; var s' := Finished(c, s);
      var inElement := Position(pos.todo + OBJPTR_SIZE, pos.arrayIndex, pos.objptrIndex + 1);
      var nextElement := Position(pos.todo + OBJPTR_SIZE + t.bytesNonObjptrs, pos.arrayIndex + 1, 0);
      if pos.objptrIndex + 1 < t.numObjptrs then At(c, s, MarkInArray, inElement) && Nearer(c, s, MarkInArray, pos, s, MarkInArray, inElement)
      else if pos.arrayIndex + 1 < len then At(c, s, MarkInArray, nextElement) && Nearer(c, s, MarkInArray, pos, s, MarkInArray, nextElement)
      else At(c, s', Ret, START) && Nearer(c, s, MarkInArray, pos, s', Ret, START)
  {
    hide Inv, Taken, ScannedUpTo, AllScanned, ClearCounters, Returning, SetCounter, Counter, TypeOf, ValidShape, ToggleMark, OnCourse;
    var t, a, j := c.g[Top(s)].t, pos.arrayIndex, pos.objptrIndex;
    var inside := j + 1 < t.numObjptrs;
    TopReads(c, s);
    NonEmptyStack(c, s);
    TopRuns(c, s);
    assert ArrayBytes(a + 1, t) == FixedBytes(t) + ArrayBytes(a, t);
    Advance(c, s, a, j, if inside then a else a + 1, if inside then j + 1 else 0);
    PassedOnCourse(c, s, MarkInArray, pos, if inside then a else a + 1, if inside then j + 1 else 0);
    if !inside && a + 1 == Elements(c.g[Top(s)]) {
      Finish(c, s);
      FinishedOnCourse(c, s);
    }
  }

  lemma TopRuns(c: Task, s: State)
    requires Inv(c, s)
    ensures Top(s) in s.act && s.act[Top(s)].Running?
  {
    hide ValidTask, Nodes, Rep, OrderOk, Progress, IsLink;
  }

  // ------------------------------------------------------------- the whole marking

  /** What dfsMarkByMode leaves behind: the objects of order, and no others,
      have changed their mark. */
  ghost predicate MarkingDone(c: Task, m: Mem, flag: bool, weaks: int, size: int, order: seq<int>) {
    if !IsFresh(c.m0, c.root, c.unmark) || (c.sc.ignoreShared && c.sc.InShared(c.root)) then
      m == c.m0 && flag == c.flag0 && weaks == c.weaks0 && size == 0 && order == []
    else
      && IsTraversal(c.m0, c.g, c.sc, c.unmark, c.root, order) && c.root in order
      && c.root in c.g && WholeWalk(c) == Walk(order, flag)
      && Toggled(c, m, order)
      && WeaksLinked(c, m, weaks, order)
      && FlagOk(c, order, flag)
      && size == TotalSize(c, order)
      && (Going(c, flag) ==> ClosedSet(c.m0, c.g, c.sc, c.unmark, order))
      && (Going(c, flag) && c.unmark ==> NoneLeadAway(c, order))
  }

  lemma MarkedOrFresh(m: Mem, w: int, unmark: bool)
    ensures IsFresh(m, w, unmark) <==> IsMarked(Rd(m, w - HEADER_SIZE)) == unmark
  {
  }

  lemma TakenOr(c: Task, order: seq<int>, w: int)
    ensures Taken(c, order, w) <==> (c.sc.Follows(w) && IsFresh(c.m0, w, c.unmark) ==> w in order)
  {
  }

  lemma ReturnSlot(p: int, t: ObjectType, a: nat, j: nat)
    ensures SlotAt(p, t, 0, j) == p + t.bytesNonObjptrs + j * OBJPTR_SIZE
    ensures SlotAt(p, t, a, j) == p + a * (t.bytesNonObjptrs + t.numObjptrs * OBJPTR_SIZE) + t.bytesNonObjptrs + j * OBJPTR_SIZE
  {
    ArrayBytesIsProduct(a, t);
  }

  lemma ReturnAt(c: Task, s: State, l: Label, pos: Position)
    requires Returning(c, s) && |s.fs| > 1 && OnCourse(c, s, Ret, START)
    requires var p := s.fs[|s.fs| - 2];
      && p in s.act && p in c.g && pos.arrayIndex == s.act[p].a && pos.objptrIndex == s.act[p].j
      && pos.todo == SlotAt(p, c.g[p].t, pos.arrayIndex, pos.objptrIndex)
      && c.g[p].t.tag == (if l == MarkInNormal then NormalTag else ArrayTag) && l != Ret
    ensures At(c, AfterReturn(c, s), l, pos)
  {
    hide Inv, Taken, Returning, Scanning, SlotAt, Counter, TypeOf, IsCursor, SetCounter, OnCourse;
    Return(c, s);
    InvOf(c, s);
    SoundFrames(c, s);
    AnyRet(c, s, START, pos);
    ReturnedOnCourse(c, s, l, pos);
  }

  lemma InvOf(c: Task, s: State)
    requires Returning(c, s)
    ensures Inv(c, s)
  {
    hide Inv;
  }

  lemma AnyRet(c: Task, s: State, pos: Position, pos': Position)
    requires OnCourse(c, s, Ret, pos)
    ensures OnCourse(c, s, Ret, pos')
  {
    hide Unwind, ScanFrom;
  }

  /** Restoring the slot leaves the header alone. */
  lemma SameHeader(c: Task, s: State, todo: int)
    requires Returning(c, s) && |s.fs| > 1 && s.fs[|s.fs| - 2] in s.act && s.fs[|s.fs| - 2] in c.g
    requires var p := s.fs[|s.fs| - 2]; todo == SlotAt(p, c.g[p].t, s.act[p].a, s.act[p].j)
    ensures Rd(s.m[todo := Top(s)], s.fs[|s.fs| - 2] - HEADER_SIZE) == Rd(s.m, s.fs[|s.fs| - 2] - HEADER_SIZE)
  {
  }

  /** Where the stack and the traversal stand. */
  lemma Measured(c: Task, s: State, l: Label, pos: Position)
    requires At(c, s, l, pos)
    ensures Inv(c, s) && |s.order| <= |c.g| && s.fs != []
    ensures Below(s.fs, |s.fs| - 1) == 0 <==> |s.fs| == 1
    ensures l == Ret ==> Returning(c, s)
    ensures 0 <= Remaining(c, s, l, pos) && 0 <= RemainingInElement(c, s, l, pos)
  {
    hide Rep, Progress, Toggled, WeaksLinked, FlagOk, IsTraversal, Apart, Closed, TotalSize, ScannedUpTo, AllScanned;
    OrderFits(c, s);
    if |s.fs| > 1 {
      assert s.fs[|s.fs| - 2] in c.g;
      NodeAt(c, s.fs[|s.fs| - 2]);
    }
  }

  lemma OrderFits(c: Task, s: State)
    requires Inv(c, s)
    ensures |s.order| <= |c.g|
  {
    hide Rep, Progress, Toggled, WeaksLinked, FlagOk, Apart, Closed, TotalSize, MemoryOk, HasParent;
    assert forall i {:trigger s.order[i]} :: 0 <= i < |s.order| ==> s.order[i] in c.g.Keys;
    DistinctFits(s.order, c.g.Keys);
  }

  lemma StartsOnCourse(c: Task)
    requires c.root in c.g
    ensures MarkOnCourse(c, StartState(c.m0, c.root, c.flag0, c.weaks0))
  {
    hide Visit;
  }

  lemma RetIsOnCourse(c: Task, s: State, pos: Position)
    requires At(c, s, Ret, pos)
    ensures OnCourse(c, s, Ret, START)
  {
    hide Returning, OnCourse;
    AnyRet(c, s, pos, START);
  }

  lemma EndOfCourse(c: Task, s: State)
    requires OnCourse(c, s, Ret, START) && |s.fs| == 1
    ensures c.root in c.g && WholeWalk(c) == Walk(s.order, s.flag)
  {
    hide ScanFrom, Visit;
  }

  lemma AllDone(c: Task, s: State)
    requires OnCourse(c, s, Ret, START)
    requires Returning(c, s) && |s.fs| == 1 && IsFresh(c.m0, c.root, c.unmark) && !(c.sc.ignoreShared && c.sc.InShared(c.root))
    ensures MarkingDone(c, s.m, s.flag, s.weaks, s.size, s.order)
  {
    hide Rep, Progress, Toggled, WeaksLinked, FlagOk, IsTraversal, Apart, Closed, TotalSize, MemoryOk, ClosedSet, OnCourse, Visit;
    Done(c, s);
    EndOfCourse(c, s);
    SameToggled(c, s.lm, s.m, s.order);
    SameWeaks(c, s.lm, s.m, s.weaks, s.order);
  }

  lemma SameToggled(c: Task, lm: Mem, m: Mem, order: seq<int>)
    requires Toggled(c, lm, order) && forall x {:trigger Rd(m, x)} :: Rd(m, x) == Rd(lm, x)
    ensures Toggled(c, m, order)
  {
  }

  lemma SameWeaks(c: Task, lm: Mem, m: Mem, weaks: int, order: seq<int>)
    requires WeaksLinked(c, lm, weaks, order) && forall x {:trigger Rd(m, x)} :: Rd(m, x) == Rd(lm, x)
    ensures WeaksLinked(c, m, weaks, order)
  {
  }
}
