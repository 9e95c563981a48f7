/** Tick accounting with a profiled stack (profiling.c). */
module Profiling {

  const SOURCES_INDEX_UNKNOWN := 0
  const SOURCES_INDEX_GC := 1

  /** What is kept for each source and each source name: the ticks settled so
      far and, while it is on the stack, the totals at its oldest entry. */
  datatype Entry = Entry(ticks: int, ticksGC: int, lastTotal: int, lastTotalGC: int, numOccurrences: int)

  const NO_ENTRY := Entry(0, 0, 0, 0, 0)

  /** The name of each source; entries for names come after those for sources. */
  datatype Maps = Maps(sourceNameIndex: seq<nat>, sourceNamesLength: nat)

  predicate ValidMaps(maps: Maps) {
    && SOURCES_INDEX_GC < |maps.sourceNameIndex|
    && forall i :: 0 <= i < |maps.sourceNameIndex| ==> maps.sourceNameIndex[i] < maps.sourceNamesLength
  }

  function NumEntries(maps: Maps): nat { |maps.sourceNameIndex| + maps.sourceNamesLength }

  /** sourceIndexToProfileMasterIndex. */
  function Master(maps: Maps, i: nat): (r: nat)
    requires ValidMaps(maps) && i < |maps.sourceNameIndex|
    ensures |maps.sourceNameIndex| <= r < NumEntries(maps)
  {
    maps.sourceNameIndex[i] + |maps.sourceNameIndex|
  }

  predicate IsSourceSeq(maps: Maps, sources: seq<nat>) {
    forall k :: 0 <= k < |sources| ==> sources[k] < |maps.sourceNameIndex|
  }

  datatype Profile = Profile(countTop: seq<int>, stack: seq<Entry>, total: int, totalGC: int)

  predicate Fits(maps: Maps, p: Profile, sources: seq<nat>) {
    && ValidMaps(maps) && IsSourceSeq(maps, sources)
    && |p.countTop| == NumEntries(maps) && |p.stack| == NumEntries(maps)
  }

  // --------------------------------------------------------------- operations

  function EnterSource(p: Profile, i: nat): Profile
    requires i < |p.stack|
  {
    var ps := p.stack[i];
    var first := if ps.numOccurrences == 0 then ps.(lastTotal := p.total, lastTotalGC := p.totalGC) else ps;
    p.(stack := p.stack[i := first.(numOccurrences := ps.numOccurrences + 1)])
  }

  /** removeFromStackForProfiling. */
  function Settle(p: Profile, ps: Entry): Entry {
    ps.(ticks := ps.ticks + (p.total - ps.lastTotal), ticksGC := ps.ticksGC + (p.totalGC - ps.lastTotalGC))
  }

  function LeaveSource(p: Profile, i: nat): Profile
    requires i < |p.stack|
  {
    var ps := p.stack[i].(numOccurrences := p.stack[i].numOccurrences - 1);
    p.(stack := p.stack[i := if ps.numOccurrences == 0 then Settle(p, ps) else ps])
  }

  /** The first n sources have been entered, each with its master. */
  function EnterFirst(maps: Maps, p: Profile, sources: seq<nat>, n: nat): (r: Profile)
    requires Fits(maps, p, sources) && n <= |sources|
    ensures Fits(maps, r, sources)
  {
    if n == 0 then p
    else EnterSource(EnterSource(EnterFirst(maps, p, sources, n - 1), sources[n - 1]), Master(maps, sources[n - 1]))
  }

  /** All sources but the first n have been left, the last one first. */
  function LeaveDownTo(maps: Maps, p: Profile, sources: seq<nat>, n: nat): (r: Profile)
    requires Fits(maps, p, sources) && n <= |sources|
    ensures Fits(maps, r, sources)
    decreases |sources| - n
  {
    if n == |sources| then p
    else LeaveSource(LeaveSource(LeaveDownTo(maps, p, sources, n + 1), sources[n]), Master(maps, sources[n]))
  }

  function Top(sources: seq<nat>): nat {
    if |sources| > 0 then sources[|sources| - 1] else SOURCES_INDEX_UNKNOWN
  }

  function Bump(p: Profile, i: nat, amount: nat): Profile
    requires i < |p.countTop|
  {
    p.(countTop := p.countTop[i := p.countTop[i] + amount])
  }

  function AddTotal(p: Profile, gc: bool, amount: nat): Profile {
    if gc then p.(totalGC := p.totalGC + amount) else p.(total := p.total + amount)
  }

  /** incForProfiling, with a profiled stack or without. */
  function Inc(maps: Maps, p: Profile, keepsStack: bool, amount: nat, sources: seq<nat>): (r: Profile)
    requires Fits(maps, p, sources)
    ensures Fits(maps, r, sources)
  {
    var top := Top(sources);
    var p1 := Bump(Bump(p, top, amount), Master(maps, top), amount);
    var p2 := if keepsStack then EnterFirst(maps, p1, sources, |sources|) else p1;
    var p3 := AddTotal(p2, top == SOURCES_INDEX_GC, amount);
    if keepsStack then LeaveDownTo(maps, p3, sources, 0) else p3
  }

  // ------------------------------------------------------- in-place operations

  class Profiler {
    const maps: Maps
    const keepsStack: bool
    const countTop: array<int>
    const stack: array<Entry>
    var total: int
    var totalGC: int

    ghost predicate Handles(sources: seq<nat>)
      reads this, countTop, stack
    {
      Fits(maps, Snapshot(), sources)
    }

    function Snapshot(): Profile
      reads this, countTop, stack
    {
      Profile(countTop[..], stack[..], total, totalGC)
    }

    /** profileMalloc. */
    constructor (maps: Maps, keepsStack: bool)
      requires ValidMaps(maps)
      ensures this.maps == maps && this.keepsStack == keepsStack && Snapshot() == Start(maps)
      ensures fresh(countTop) && fresh(stack)
    {
      this.maps := maps;
      this.keepsStack := keepsStack;
      countTop := new int[NumEntries(maps)](i => 0);
      stack := new Entry[NumEntries(maps)](i => NO_ENTRY);
      total, totalGC := 0, 0;
    }

    method EnterSourceForProfiling(i: nat)
      requires i < stack.Length
      modifies stack
      ensures Snapshot() == EnterSource(old(Snapshot()), i)
    {
      var ps := stack[i];
      if ps.numOccurrences == 0 {
        ps := ps.(lastTotal := total, lastTotalGC := totalGC);
      }
      stack[i] := ps.(numOccurrences := ps.numOccurrences + 1);
    }

    method RemoveFromStackForProfiling(i: nat)
      requires i < stack.Length
      modifies stack
      ensures stack[..] == old(stack[..])[i := Settle(old(Snapshot()), old(stack[i]))]
    {
      var ps := stack[i];
      stack[i] := ps.(ticks := ps.ticks + (total - ps.lastTotal), ticksGC := ps.ticksGC + (totalGC - ps.lastTotalGC));
    }

    method LeaveSourceForProfiling(i: nat)
      requires i < stack.Length && stack[i].numOccurrences > 0
      modifies stack
      ensures Snapshot() == LeaveSource(old(Snapshot()), i)
    {
      stack[i] := stack[i].(numOccurrences := stack[i].numOccurrences - 1);
      if stack[i].numOccurrences == 0 {
        RemoveFromStackForProfiling(i);
      }
      assert stack[..] == old(stack[..])[i := stack[i]];
    }

    method EnterForProfiling(sources: seq<nat>)
      requires Handles(sources)
      modifies stack
      ensures Snapshot() == EnterFirst(maps, old(Snapshot()), sources, |sources|)
    {
      hide EnterSource;
      var i := 0;
      while i < |sources|
        invariant 0 <= i <= |sources|
        invariant Snapshot() == EnterFirst(maps, old(Snapshot()), sources, i)
      {
        EnterSourceForProfiling(sources[i]);
        EnterSourceForProfiling(Master(maps, sources[i]));
        i := i + 1;
      }
    }

    method LeaveForProfiling(sources: seq<nat>)
      requires Handles(sources) && AllOn(maps, Snapshot(), sources)
      modifies stack
      ensures Snapshot() == LeaveDownTo(maps, old(Snapshot()), sources, 0)
    {
      hide LeaveSource, AllOn;
      var i := |sources|;
      while i > 0
        invariant 0 <= i <= |sources|
        invariant Snapshot() == LeaveDownTo(maps, old(Snapshot()), sources, i)
      {
        StillOn(maps, old(Snapshot()), sources, i - 1);
        LeaveSourceForProfiling(sources[i - 1]);
        LeaveSourceForProfiling(Master(maps, sources[i - 1]));
        i := i - 1;
      }
    }

    method IncForProfiling(amount: nat, sources: seq<nat>)
      requires Handles(sources) && NoneNegative(Snapshot())
      modifies this, countTop, stack
      ensures Snapshot() == Inc(maps, old(Snapshot()), keepsStack, amount, sources)
    {
      hide EnterFirst, LeaveDownTo, AllOn;
      var top := Top(sources);
      countTop[top] := countTop[top] + amount;
      countTop[Master(maps, top)] := countTop[Master(maps, top)] + amount;
      ghost var p1 := Snapshot();
      if keepsStack {
        EnterForProfiling(sources);
        EnteredAreOn(maps, p1, sources, top == SOURCES_INDEX_GC, amount);
      }
      if top == SOURCES_INDEX_GC { totalGC := totalGC + amount; } else { total := total + amount; }
      if keepsStack {
        LeaveForProfiling(sources);
      }
    }

    /** GC_profileDone settles whatever is still on the stack. */
    method Done()
      requires Handles([])
      modifies stack
      ensures keepsStack ==> forall i :: 0 <= i < stack.Length ==> stack[i] == Flushed(old(Snapshot()), old(stack[i]))
      ensures !keepsStack ==> stack[..] == old(stack[..])
    {
      if keepsStack {
        var i := 0;
        while i < stack.Length
          invariant 0 <= i <= stack.Length
          invariant forall k :: 0 <= k < i ==> stack[k] == Flushed(old(Snapshot()), old(stack[k]))
          invariant forall k :: i <= k < stack.Length ==> stack[k] == old(stack[k])
        {
          if stack[i].numOccurrences > 0 { RemoveFromStackForProfiling(i); }
          i := i + 1;
        }
      }
    }
  }

  function Start(maps: Maps): Profile {
    Profile(seq(NumEntries(maps), i => 0), seq(NumEntries(maps), i => NO_ENTRY), 0, 0)
  }

  function Flushed(p: Profile, ps: Entry): Entry { if ps.numOccurrences > 0 then Settle(p, ps) else ps }

  predicate NoneNegative(p: Profile) { forall i :: 0 <= i < |p.stack| ==> p.stack[i].numOccurrences >= 0 }

  // -------------------------------------------------------------- occurrences

  /** How often entry i is concerned by the first n sources. */
  function Count(maps: Maps, sources: seq<nat>, n: nat, i: nat): nat
    requires ValidMaps(maps) && IsSourceSeq(maps, sources) && n <= |sources|
  {
    if n == 0 then 0
    else Count(maps, sources, n - 1, i) + (if sources[n - 1] == i then 1 else 0) + (if Master(maps, sources[n - 1]) == i then 1 else 0)
  }

  /** Every entry concerned has at least as many occurrences. */
  ghost predicate AllOn(maps: Maps, p: Profile, sources: seq<nat>)
    requires Fits(maps, p, sources)
  {
    forall i: nat {:trigger p.stack[i]} :: i < |p.stack| ==> Count(maps, sources, |sources|, i) <= p.stack[i].numOccurrences
  }

  lemma {:induction false} CountGrows(maps: Maps, sources: seq<nat>, n: nat, m: nat, i: nat)
    requires ValidMaps(maps) && IsSourceSeq(maps, sources) && n <= m <= |sources|
    ensures Count(maps, sources, n, i) <= Count(maps, sources, m, i)
    decreases m
  {
    if n < m { CountGrows(maps, sources, n, m - 1, i); }
  }

  lemma StillOn(maps: Maps, p: Profile, sources: seq<nat>, n: nat)
    requires Fits(maps, p, sources) && AllOn(maps, p, sources) && n < |sources|
    ensures var q := LeaveDownTo(maps, p, sources, n + 1);
      && q.stack[sources[n]].numOccurrences > 0
      && LeaveSource(q, sources[n]).stack[Master(maps, sources[n])].numOccurrences > 0
  {
    hide LeaveDownTo;
    var i, j := sources[n], Master(maps, sources[n]);
    LeaveCounts(maps, p, sources, n + 1, i);
    LeaveCounts(maps, p, sources, n + 1, j);
  }

  lemma EnteredAreOn(maps: Maps, p: Profile, sources: seq<nat>, gc: bool, amount: nat)
    requires Fits(maps, p, sources) && NoneNegative(p)
    ensures AllOn(maps, AddTotal(EnterFirst(maps, p, sources, |sources|), gc, amount), sources)
  {
    hide EnterFirst;
    forall i: nat | i < |p.stack| ensures Count(maps, sources, |sources|, i) <= EnterFirst(maps, p, sources, |sources|).stack[i].numOccurrences {
      EnterCounts(maps, p, sources, |sources|, i);
    }
  }

  // ------------------------------------------------------------ what has accrued

  datatype Ticks = Ticks(mutator: int, gc: int) {
    function Plus(isGC: bool, amount: int): Ticks {
      if isGC then Ticks(mutator, gc + amount) else Ticks(mutator + amount, gc)
    }
  }

  /** The ticks settled, with those pending while the entry is on the stack. */
  function Accrued(p: Profile, i: nat): Ticks
    requires i < |p.stack|
  {
    var ps := Flushed(p, p.stack[i]);
    Ticks(ps.ticks, ps.ticksGC)
  }

  lemma EnterOne(p: Profile, i: nat, j: nat)
    requires i < |p.stack| && j < |p.stack| && p.stack[j].numOccurrences >= 0
    ensures var q := EnterSource(p, i);
      && q.stack[j].numOccurrences == p.stack[j].numOccurrences + (if i == j then 1 else 0)
      && Accrued(q, j) == Accrued(p, j)
  {
  }

  lemma LeaveOne(p: Profile, i: nat, j: nat)
    requires i < |p.stack| && j < |p.stack| && p.stack[j].numOccurrences >= (if i == j then 1 else 0)
    ensures var q := LeaveSource(p, i);
      && q.stack[j].numOccurrences == p.stack[j].numOccurrences - (if i == j then 1 else 0)
      && Accrued(q, j) == Accrued(p, j)
  {
  }

  lemma {:induction false} EnterCounts(maps: Maps, p: Profile, sources: seq<nat>, n: nat, j: nat)
    requires Fits(maps, p, sources) && n <= |sources| && j < |p.stack| && p.stack[j].numOccurrences >= 0
    ensures var q := EnterFirst(maps, p, sources, n);
      && q.stack[j].numOccurrences == p.stack[j].numOccurrences + Count(maps, sources, n, j)
      && Accrued(q, j) == Accrued(p, j)
      && q.total == p.total && q.totalGC == p.totalGC && q.countTop == p.countTop
    decreases n
  {
    hide Accrued;
    if n > 0 {
      EnterCounts(maps, p, sources, n - 1, j);
      var q := EnterFirst(maps, p, sources, n - 1);
      EnterOne(q, sources[n - 1], j);
      EnterOne(EnterSource(q, sources[n - 1]), Master(maps, sources[n - 1]), j);
    }
  }

  lemma {:induction false} LeaveCounts(maps: Maps, p: Profile, sources: seq<nat>, n: nat, j: nat)
    requires Fits(maps, p, sources) && n <= |sources| && j < |p.stack|
    requires Count(maps, sources, |sources|, j) <= p.stack[j].numOccurrences
    ensures var q := LeaveDownTo(maps, p, sources, n);
      && q.stack[j].numOccurrences == p.stack[j].numOccurrences - Count(maps, sources, |sources|, j) + Count(maps, sources, n, j)
      && Accrued(q, j) == Accrued(p, j)
      && q.total == p.total && q.totalGC == p.totalGC && q.countTop == p.countTop
    decreases |sources| - n
  {
    hide Accrued;
    if n < |sources| {
      LeaveCounts(maps, p, sources, n + 1, j);
      CountGrows(maps, sources, n + 1, |sources|, j);
      var q := LeaveDownTo(maps, p, sources, n + 1);
      LeaveOne(q, sources[n], j);
      LeaveOne(LeaveSource(q, sources[n]), Master(maps, sources[n]), j);
    }
  }

  /** A tick goes to every entry that is on the stack while it is counted, once,
      however often the entry occurs there. */
  lemma IncAccrues(maps: Maps, p: Profile, amount: nat, sources: seq<nat>, j: nat)
    requires Fits(maps, p, sources) && j < |p.stack| && p.stack[j].numOccurrences >= 0
    ensures var q, isOn := Inc(maps, p, true, amount, sources), p.stack[j].numOccurrences + Count(maps, sources, |sources|, j) > 0;
      && q.stack[j].numOccurrences == p.stack[j].numOccurrences
      && Accrued(q, j) == if isOn then Accrued(p, j).Plus(Top(sources) == SOURCES_INDEX_GC, amount) else Accrued(p, j)
  {
    hide EnterFirst, LeaveDownTo, Accrued;
    var top := Top(sources);
    var p1 := Bump(Bump(p, top, amount), Master(maps, top), amount);
    var p2 := EnterFirst(maps, p1, sources, |sources|);
    var p3 := AddTotal(p2, top == SOURCES_INDEX_GC, amount);
    BumpAccrues(p, top, amount, j);
    BumpAccrues(Bump(p, top, amount), Master(maps, top), amount, j);
    EnterCounts(maps, p1, sources, |sources|, j);
    AddTotalAccrues(p2, top == SOURCES_INDEX_GC, amount, j);
    LeaveCounts(maps, p3, sources, 0, j);
  }

  lemma BumpAccrues(p: Profile, i: nat, amount: nat, j: nat)
    requires i < |p.countTop| && j < |p.stack|
    ensures Accrued(Bump(p, i, amount), j) == Accrued(p, j)
  {
  }

  lemma AddTotalAccrues(p: Profile, gc: bool, amount: nat, j: nat)
    requires j < |p.stack|
    ensures Accrued(AddTotal(p, gc, amount), j) == if p.stack[j].numOccurrences > 0 then Accrued(p, j).Plus(gc, amount) else Accrued(p, j)
  {
  }

  // --------------------------------------------------------------------- runs

  datatype Event = Entered(sources: seq<nat>) | Left(sources: seq<nat>) | Ticked(amount: nat, sources: seq<nat>)

  function Last(run: seq<Event>): Event
    requires run != []
  {
    run[|run| - 1]
  }

  function Before(run: seq<Event>): seq<Event>
    requires run != []
  {
    run[..|run| - 1]
  }

  /** The profile a run leads to. */
  function After(maps: Maps, run: seq<Event>): (r: Profile)
    requires ValidMaps(maps) && forall k :: 0 <= k < |run| ==> IsSourceSeq(maps, run[k].sources)
    ensures |r.countTop| == NumEntries(maps) && |r.stack| == NumEntries(maps)
  {
    if run == [] then Start(maps)
    else
      var p := After(maps, Before(run));
      match Last(run)
      case Entered(sources) => EnterFirst(maps, p, sources, |sources|)
      case Left(sources) => LeaveDownTo(maps, p, sources, 0)
      case Ticked(amount, sources) => Inc(maps, p, true, amount, sources)
  }

  /** How deep entry i is on the stack after the run. */
  function Depth(maps: Maps, run: seq<Event>, i: nat): int
    requires ValidMaps(maps) && forall k :: 0 <= k < |run| ==> IsSourceSeq(maps, run[k].sources)
  {
    if run == [] then 0
    else
      var below := Depth(maps, Before(run), i);
      match Last(run)
      case Entered(sources) => below + Count(maps, sources, |sources|, i)
      case Left(sources) => below - Count(maps, sources, |sources|, i)
      case Ticked(_, _) => below
  }

  /** Eager accounting: every tick is given at once to each entry on the stack. */
  function Eager(maps: Maps, run: seq<Event>, i: nat): Ticks
    requires ValidMaps(maps) && forall k :: 0 <= k < |run| ==> IsSourceSeq(maps, run[k].sources)
  {
    if run == [] then Ticks(0, 0)
    else
      var so := Eager(maps, Before(run), i);
      match Last(run)
      case Ticked(amount, sources) =>
        if Depth(maps, Before(run), i) + Count(maps, sources, |sources|, i) > 0 then so.Plus(Top(sources) == SOURCES_INDEX_GC, amount) else so
      case _ => so
  }

  /** Nothing is left that has not been entered. */
  ghost predicate WellNested(maps: Maps, run: seq<Event>)
    requires ValidMaps(maps) && forall k :: 0 <= k < |run| ==> IsSourceSeq(maps, run[k].sources)
  {
    run != [] ==>
      && WellNested(maps, Before(run))
      && (Last(run).Left? ==> forall i: nat {:trigger Depth(maps, Before(run), i)} :: i < NumEntries(maps) ==>
          Count(maps, Last(run).sources, |Last(run).sources|, i) <= Depth(maps, Before(run), i))
  }

  /** Over every well-nested run, lazy accounting amounts to eager accounting. */
  lemma {:induction false} LazyIsEager(maps: Maps, run: seq<Event>, i: nat)
    requires ValidMaps(maps) && forall k :: 0 <= k < |run| ==> IsSourceSeq(maps, run[k].sources)
    requires WellNested(maps, run) && i < NumEntries(maps)
    ensures After(maps, run).stack[i].numOccurrences == Depth(maps, run, i) >= 0
    ensures Accrued(After(maps, run), i) == Eager(maps, run, i)
    decreases |run|
  {
    hide EnterFirst, LeaveDownTo, Inc, Accrued;
    if run == [] {
      NothingAccrued(maps, i);
    } else {
      var p, sources := After(maps, Before(run)), Last(run).sources;
      LazyIsEager(maps, Before(run), i);
      match Last(run) {
        case Entered(_) => EnterCounts(maps, p, sources, |sources|, i);
        case Left(_) => LeaveCounts(maps, p, sources, 0, i);
        case Ticked(amount, _) => IncAccrues(maps, p, amount, sources, i);
      }
    }
  }

  lemma NothingAccrued(maps: Maps, i: nat)
    requires ValidMaps(maps) && i < NumEntries(maps)
    ensures Start(maps).stack[i].numOccurrences == 0 && Accrued(Start(maps), i) == Ticks(0, 0)
  {
  }

  /** The flush at the end leaves in ticks just what eager accounting says. */
  lemma FlushIsExact(maps: Maps, run: seq<Event>, i: nat)
    requires ValidMaps(maps) && forall k :: 0 <= k < |run| ==> IsSourceSeq(maps, run[k].sources)
    requires WellNested(maps, run) && i < NumEntries(maps)
    ensures var p := After(maps, run);
      var ps := Flushed(p, p.stack[i]);
      Ticks(ps.ticks, ps.ticksGC) == Eager(maps, run, i)
  {
    LazyIsEager(maps, run, i);
  }

  // ---------------------------------------------------------- conservation

  function Sum(s: seq<int>): int { if s == [] then 0 else Sum(s[..|s| - 1]) + s[|s| - 1] }

  lemma {:induction false} SumUpdate(s: seq<int>, i: nat, x: int)
    requires i < |s|
    ensures Sum(s[i := x]) == Sum(s) - s[i] + x
    decreases |s|
  {
    var n := |s| - 1;
    if i < n {
      SumUpdate(s[..n], i, x);
      assert s[i := x][..n] == s[..n][i := x];
    } else {
      assert s[i := x][..n] == s[..n];
    }
  }

  lemma {:induction false} SumZero(s: seq<int>)
    requires forall i :: 0 <= i < |s| ==> s[i] == 0
    ensures Sum(s) == 0
    decreases |s|
  {
    if s != [] { SumZero(s[..|s| - 1]); }
  }

  /** Every tick is counted once for the source on top and once for its name. */
  ghost predicate Conserves(maps: Maps, p: Profile)
    requires ValidMaps(maps) && |p.countTop| == NumEntries(maps)
  {
    var n := |maps.sourceNameIndex|;
    && Sum(p.countTop[..n]) == p.total + p.totalGC
    && Sum(p.countTop[n..]) == p.total + p.totalGC
  }

  lemma {:induction false} EnterTotals(maps: Maps, p: Profile, sources: seq<nat>, n: nat)
    requires Fits(maps, p, sources) && n <= |sources|
    ensures var q := EnterFirst(maps, p, sources, n); q.total == p.total && q.totalGC == p.totalGC && q.countTop == p.countTop
  {
    if n > 0 { EnterTotals(maps, p, sources, n - 1); }
  }

  lemma {:induction false} LeaveTotals(maps: Maps, p: Profile, sources: seq<nat>, n: nat)
    requires Fits(maps, p, sources) && n <= |sources|
    ensures var q := LeaveDownTo(maps, p, sources, n); q.total == p.total && q.totalGC == p.totalGC && q.countTop == p.countTop
    decreases |sources| - n
  {
    if n < |sources| { LeaveTotals(maps, p, sources, n + 1); }
  }

  lemma BumpBoth(maps: Maps, p: Profile, top: nat, amount: nat)
    requires ValidMaps(maps) && top < |maps.sourceNameIndex| && |p.countTop| == NumEntries(maps)
    ensures var n, c := |maps.sourceNameIndex|, Bump(Bump(p, top, amount), Master(maps, top), amount).countTop;
      Sum(c[..n]) == Sum(p.countTop[..n]) + amount && Sum(c[n..]) == Sum(p.countTop[n..]) + amount
  {
    var n, m, s := |maps.sourceNameIndex|, Master(maps, top), p.countTop;
    var c := s[top := s[top] + amount][m := s[m] + amount];
    assert c[..n] == s[..n][top := s[top] + amount];
    assert c[n..] == s[n..][m - n := s[m] + amount];
    SumUpdate(s[..n], top, s[top] + amount);
    SumUpdate(s[n..], m - n, s[m] + amount);
  }

  lemma IncConserves(maps: Maps, p: Profile, keepsStack: bool, amount: nat, sources: seq<nat>)
    requires Fits(maps, p, sources) && Conserves(maps, p)
    ensures Conserves(maps, Inc(maps, p, keepsStack, amount, sources))
  {
    hide EnterFirst, LeaveDownTo, Sum, Bump;
    var top := Top(sources);
    BumpKeeps(p, top, amount);
    var p1 := Bump(Bump(p, top, amount), Master(maps, top), amount);
    BumpBoth(maps, p, top, amount);
    BumpKeeps(Bump(p, top, amount), Master(maps, top), amount);
    if keepsStack {
      EnterTotals(maps, p1, sources, |sources|);
      LeaveTotals(maps, AddTotal(EnterFirst(maps, p1, sources, |sources|), top == SOURCES_INDEX_GC, amount), sources, 0);
    }
  }

  lemma BumpKeeps(p: Profile, i: nat, amount: nat)
    requires i < |p.countTop|
    ensures var q := Bump(p, i, amount); q.total == p.total && q.totalGC == p.totalGC && q.stack == p.stack && |q.countTop| == |p.countTop|
  {
  }

  /** After every run, the counts of the sources add up to all the ticks, and so
      do those of the names. */
  lemma {:induction false} RunConserves(maps: Maps, run: seq<Event>)
    requires ValidMaps(maps) && forall k :: 0 <= k < |run| ==> IsSourceSeq(maps, run[k].sources)
    ensures Conserves(maps, After(maps, run))
    decreases |run|
  {
    hide EnterFirst, LeaveDownTo, Inc, Sum;
    if run == [] {
      SumZero(Start(maps).countTop[..|maps.sourceNameIndex|]);
      SumZero(Start(maps).countTop[|maps.sourceNameIndex|..]);
    } else {
      var p, sources := After(maps, Before(run)), Last(run).sources;
      RunConserves(maps, Before(run));
      match Last(run) {
        case Entered(_) => EnterTotals(maps, p, sources, |sources|);
        case Left(_) => LeaveTotals(maps, p, sources, 0);
        case Ticked(amount, _) => IncConserves(maps, p, true, amount, sources);
      }
    }
  }
}
