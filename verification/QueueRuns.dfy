/** A scheduler queue as the processors of a run work on it: the lock and one of
    its buffers together, over single reads and writes (scheduler-queue.c). */
module QueueRuns {
  import opened SchedulerQueue
  import Lock = QueueLock

  /** The fields of a buffer; its size is the number of keys. */
  datatype Ring = Ring(keys: seq<int>, rp: int, wp: int)

  /** Where a processor is in sqEnque or in CircularBufferDeque. */
  datatype Work =
    | Rest
    | TestFull(k: int)
    | Copying(k: int, copy: seq<int>)  // growing, with the entries copied so far
    | Store(k: int)
    | Advance(k: int)
    | WrapWrite
    | TestEmpty
    | Load
    | AdvanceRead(k: int)
    | WrapRead

  /** put and taken record the keys that have come and gone; seen, that the owner
      has found the queue not empty and has taken nothing since. */
  datatype State = State(lock: Lock.System, work: seq<Work>, ring: Ring, put: seq<int>, taken: seq<int>, seen: bool)

  /** Positions go up by one before they are taken modulo the size. */
  function Norm(x: int, n: int): int { if x == n then 0 else x }

  function Entries(r: Ring): seq<int>
    requires |r.keys| > 0 && 0 <= r.rp <= |r.keys| && 0 <= r.wp <= |r.keys|
  {
    Live(r.keys, Norm(r.rp, |r.keys|), Norm(r.wp, |r.keys|))
  }

  predicate IsFull(r: Ring)
    requires |r.keys| > 0
  {
    (r.wp + 1) % |r.keys| == r.rp
  }

  function SetWork(s: State, p: nat, w: Work): State
    requires p < |s.work|
  {
    s.(work := s.work[p := w])
  }

  /** A step of the lock. What was begun is finished before the last release. */
  ghost predicate LockStep(s: State, s': State, p: nat) {
    && p < |s.work| == |s.lock.procs| && Lock.StepOf(s.lock, s'.lock, p) && s' == s.(lock := s'.lock)
    && (s.lock.procs[p].pc == Lock.Running && s'.lock.procs[p].pc == Lock.Exit && s.lock.procs[p].depth == 1 ==> s.work[p] == Rest)
  }

  /** A step of sqEnque, by a processor that holds the lock. */
  predicate EnqueStep(s: State, s': State, p: nat, k: int)
    requires p < |s.work| && |s.ring.keys| > 0
  {
    var r, n := s.ring, |s.ring.keys|;
    match s.work[p]
    case Rest => s' == SetWork(s, p, TestFull(k))
    case TestFull(k) => s' == SetWork(s, p, if IsFull(r) then Copying(k, []) else Store(k))
    case Copying(k, copy) =>
      if |copy| < Distance(r.rp, r.wp, n) then
        && 0 <= r.rp < n && 0 <= Position(r.rp, |copy|, n) < n
        && s' == SetWork(s, p, Copying(k, copy + [r.keys[Position(r.rp, |copy|, n)]]))
      else
        && |s'.ring.keys| == 2 * n && copy <= s'.ring.keys
        && s' == SetWork(s.(ring := Ring(s'.ring.keys, 0, |copy|)), p, Store(k))
    case Store(k) => 0 <= r.wp < n && s' == SetWork(s.(ring := r.(keys := r.keys[r.wp := k])), p, Advance(k))
    case Advance(k) => s' == SetWork(s.(ring := r.(wp := r.wp + 1), put := s.put + [k]), p, WrapWrite)
    case WrapWrite => s' == SetWork(s.(ring := r.(wp := r.wp % n)), p, Rest)
    case _ => false
  }

  /** A step of CircularBufferDeque, by the owner of the queue, holding the lock. */
  predicate DequeStep(s: State, s': State, p: nat)
    requires p < |s.work| && |s.ring.keys| > 0
  {
    var r, n := s.ring, |s.ring.keys|;
    match s.work[p]
    case Rest => s' == SetWork(s, p, TestEmpty)
    case TestEmpty => s' == SetWork(s, p, if r.rp == r.wp then Rest else Load)
    case Load => 0 <= r.rp < n && s' == SetWork(s, p, AdvanceRead(r.keys[r.rp]))
    case AdvanceRead(k) => s' == SetWork(s.(ring := r.(rp := r.rp + 1), taken := s.taken + [k], seen := false), p, WrapRead)
    case WrapRead => s' == SetWork(s.(ring := r.(rp := r.rp % n)), p, Rest)
    case _ => false
  }

  /** The owner's test for emptiness, which takes no lock. */
  predicate PeekStep(s: State, s': State, owner: nat) {
    owner < |s.work| && s.work[owner] == Rest && s' == s.(seen := s.ring.rp != s.ring.wp)
  }

  ghost predicate StepOf(s: State, s': State, owner: nat, p: nat, k: int) {
    || LockStep(s, s', p)
    || PeekStep(s, s', owner)
    || (p < |s.work| == |s.lock.procs| && |s.ring.keys| > 0 && s.lock.procs[p].depth > 0 && s.lock.procs[p].pc == Lock.Running
        && (EnqueStep(s, s', p, k) || (p == owner && DequeStep(s, s', p))))
  }

  // ------------------------------------------------------------------ invariance

  /** What the holder of the lock has under way. */
  function Underway(s: State): Work {
    if 0 <= s.lock.id < |s.work| then s.work[s.lock.id] else Rest
  }

  ghost predicate RingOk(r: Ring, w: Work) {
    && |r.keys| > 1 && 0 <= r.rp <= |r.keys| && 0 <= r.wp <= |r.keys|
    && (r.rp == |r.keys| ==> w.WrapRead?) && (r.wp == |r.keys| ==> w.WrapWrite?)
  }

  ghost predicate WorkOk(r: Ring, w: Work)
    requires RingOk(r, w)
  {
    match w
    case Copying(k, copy) => IsFull(r) && copy <= Entries(r)
    case Store(k) => !IsFull(r)
    case Advance(k) => !IsFull(r) && r.keys[r.wp] == k
    case WrapWrite => Entries(r) != []
    case Load => Entries(r) != []
    case AdvanceRead(k) => Entries(r) != [] && k == Entries(r)[0]
    case _ => true
  }

  /** The buffer holds what has been put and not taken, in order. */
  ghost predicate Content(s: State) {
    && RingOk(s.ring, Underway(s)) && WorkOk(s.ring, Underway(s))
    && s.put == s.taken + Entries(s.ring)
    && (s.seen ==> Entries(s.ring) != [])
  }

  /** Only the holder of the lock has anything under way. */
  ghost predicate Held(s: State) {
    && Lock.Inv(s.lock) && |s.work| == |s.lock.procs|
    && forall p {:trigger s.work[p]} :: 0 <= p < |s.work| && s.work[p] != Rest ==>
         s.lock.id == p && (s.lock.procs[p].pc in {Lock.Exit, Lock.Free} ==> s.lock.procs[p].depth > 1)
  }

  /** Taking an entry out, and testing for one, is left to the owner. */
  ghost predicate OwnersWork(s: State, owner: nat) {
    forall p {:trigger s.work[p]} :: 0 <= p < |s.work| && (s.work[p].TestEmpty? || s.work[p].Load? || s.work[p].AdvanceRead? || s.work[p].WrapRead?) ==> p == owner
  }

  ghost predicate Inv(s: State, owner: nat) { Held(s) && OwnersWork(s, owner) && Content(s) }

  lemma LockKeeps(s: State, s': State, owner: nat, p: nat)
    requires Inv(s, owner) && LockStep(s, s', p)
    ensures Inv(s', owner)
  {
    hide Entries, WorkOk, RingOk;
    Lock.StepKeeps(s.lock, s'.lock, p);
    assert Lock.ProcOk(s.lock, p);
    forall q | 0 <= q < |s'.work| && s'.work[q] != Rest
      ensures s'.lock.id == q && (s'.lock.procs[q].pc in {Lock.Exit, Lock.Free} ==> s'.lock.procs[q].depth > 1)
    {
      assert s.lock.id == q && Lock.ProcOk(s.lock, q) && Lock.ProcOk(s'.lock, q);
    }
  }

  lemma PeekKeeps(s: State, s': State, owner: nat)
    requires Inv(s, owner) && PeekStep(s, s', owner)
    ensures Inv(s', owner)
  {
    assert Underway(s') == Underway(s);
    assert !Underway(s).WrapRead?;
  }

  lemma HolderIs(s: State, owner: nat, p: nat)
    requires Inv(s, owner) && p < |s.work| && s.lock.procs[p].depth > 0
    ensures s.lock.id == p && Underway(s) == s.work[p]
  {
    assert Lock.ProcOk(s.lock, p);
  }

  lemma WorkHeld(s: State, s': State, owner: nat, p: nat)
    requires Inv(s, owner) && p < |s.work| && s.lock.id == p && s.lock.procs[p].pc == Lock.Running && s'.lock == s.lock
    requires |s'.work| == |s.work| && s'.work == s.work[p := s'.work[p]]
    requires p != owner ==> !(s'.work[p].TestEmpty? || s'.work[p].Load? || s'.work[p].AdvanceRead? || s'.work[p].WrapRead?)
    ensures Held(s') && OwnersWork(s', owner) && Underway(s') == s'.work[p]
  {
    hide Content, Lock.Inv;
    assert forall q {:trigger s'.work[q]} :: 0 <= q < |s'.work| && q != p ==> s'.work[q] == s.work[q];
  }

  lemma EnqueKeeps(s: State, s': State, owner: nat, p: nat, k: int)
    requires Inv(s, owner) && p < |s.work| && s.lock.procs[p].depth > 0 && s.lock.procs[p].pc == Lock.Running && EnqueStep(s, s', p, k)
    ensures Inv(s', owner)
  {
    hide Live, Held, OwnersWork;
    assert |s.lock.procs| == |s.work| by { HeldLengths(s); }
    HolderIs(s, owner, p);
    WorkHeld(s, s', owner, p);
    var r, n := s.ring, |s.ring.keys|;
    match s.work[p]
    case Copying(k, copy) =>
      FullRing(r);
      if |copy| < Distance(r.rp, r.wp, n) {
        LiveAt(r.keys, r.rp, r.wp);
        assert copy + [Entries(r)[|copy|]] <= Entries(r);
      } else {
        GrownRing(r, s'.ring, copy);
      }
    case Store(k) => StoreFree(r, k);
    case Advance(k) => AdvanceAdds(r, k); assert s.put + [k] == s.taken + (Entries(r) + [k]);
    case WrapWrite => WrapSame(r.wp, n);
    case _ =>
  }

  lemma HeldLengths(s: State)
    requires Held(s)
    ensures |s.lock.procs| == |s.work|
  {
  }

  lemma FullRing(r: Ring)
    requires |r.keys| > 1 && 0 <= r.rp < |r.keys| && 0 <= r.wp < |r.keys|
    ensures |Entries(r)| == Distance(r.rp, r.wp, |r.keys|) < |r.keys|
    ensures IsFull(r) <==> |Entries(r)| == |r.keys| - 1
  {
    NextPosition(r.wp, |r.keys|);
  }

  lemma GrownRing(r: Ring, r': Ring, copy: seq<int>)
    requires |r.keys| > 1 && 0 <= r.rp < |r.keys| && 0 <= r.wp < |r.keys|
    requires copy <= Entries(r) && Distance(r.rp, r.wp, |r.keys|) <= |copy|
    requires |r'.keys| == 2 * |r.keys| && copy <= r'.keys && r' == Ring(r'.keys, 0, |copy|)
    ensures r'.wp < |r'.keys| && Entries(r') == Entries(r) && !IsFull(r')
  {
    FullRing(r);
    LiveFromStart(r'.keys, |copy|);
    NextPosition(r'.wp, |r'.keys|);
  }

  lemma StoreFree(r: Ring, k: int)
    requires |r.keys| > 1 && 0 <= r.rp < |r.keys| && 0 <= r.wp < |r.keys|
    ensures Entries(r.(keys := r.keys[r.wp := k])) == Entries(r)
  {
    var keys' := r.keys[r.wp := k];
    if r.rp <= r.wp { assert keys'[r.rp..r.wp] == r.keys[r.rp..r.wp]; } else { assert keys'[r.rp..] == r.keys[r.rp..] && keys'[..r.wp] == r.keys[..r.wp]; }
  }

  lemma AdvanceAdds(r: Ring, k: int)
    requires |r.keys| > 1 && 0 <= r.rp < |r.keys| && 0 <= r.wp < |r.keys| && r.keys[r.wp] == k && !IsFull(r)
    ensures Entries(r.(wp := r.wp + 1)) == Entries(r) + [k]
  {
    assert r.keys[r.wp := k] == r.keys;
    NextPosition(r.wp, |r.keys|);
    LiveSnoc(r.keys, r.rp, r.wp, k);
  }

  lemma WrapSame(x: int, n: int)
    requires 1 < n && 0 <= x <= n
    ensures x % n == Norm(x, n)
  {
    if x < n { NextPosition(x, n); }
  }

  lemma DequeKeeps(s: State, s': State, owner: nat)
    requires Inv(s, owner) && owner < |s.work| && s.lock.procs[owner].depth > 0 && s.lock.procs[owner].pc == Lock.Running && DequeStep(s, s', owner)
    ensures Inv(s', owner)
  {
    hide Live, Held, OwnersWork;
    assert |s.lock.procs| == |s.work| by { HeldLengths(s); }
    HolderIs(s, owner, owner);
    WorkHeld(s, s', owner, owner);
    var r, n := s.ring, |s.ring.keys|;
    match s.work[owner]
    case TestEmpty => if r.rp != r.wp { FullRing(r); }
    case Load => HeadOf(r);
    case AdvanceRead(k) =>
      HeadOf(r);
      assert s.taken + Entries(r) == (s.taken + [k]) + Entries(r.(rp := r.rp + 1));
    case WrapRead => WrapSame(r.rp, n);
    case _ =>
  }

  lemma HeadOf(r: Ring)
    requires |r.keys| > 1 && 0 <= r.rp < |r.keys| && 0 <= r.wp < |r.keys| && Entries(r) != []
    ensures Entries(r) == [r.keys[r.rp]] + Entries(r.(rp := r.rp + 1))
  {
    FullRing(r);
    LiveHead(r.keys, r.rp, r.wp);
  }

  lemma StepKeeps(s: State, s': State, owner: nat, p: nat, k: int)
    requires Inv(s, owner) && StepOf(s, s', owner, p, k)
    ensures Inv(s', owner)
  {
    hide Inv, EnqueStep, DequeStep, LockStep, PeekStep;
    if LockStep(s, s', p) {
      LockKeeps(s, s', owner, p);
    } else if PeekStep(s, s', owner) {
      PeekKeeps(s, s', owner);
    } else if EnqueStep(s, s', p, k) {
      EnqueKeeps(s, s', owner, p, k);
    } else {
      DequeKeeps(s, s', owner);
    }
  }

  // ------------------------------------------------------------------------ runs

  function Initial(n: nat, keys: seq<int>): State {
    State(Lock.Initial(n), seq(n, i => Rest), Ring(keys, 0, 0), [], [], false)
  }

  ghost predicate Moves(run: seq<State>, owner: nat, i: int) {
    0 <= i < |run| - 1 && exists p: nat, k: int {:trigger StepOf(run[i], run[i + 1], owner, p, k)} :: StepOf(run[i], run[i + 1], owner, p, k)
  }

  ghost predicate IsRun(run: seq<State>, owner: nat) {
    && |run| > 0 && |run[0].ring.keys| > 1 && run[0] == Initial(|run[0].work|, run[0].ring.keys)
    && forall i {:trigger Moves(run, owner, i)} :: 0 <= i < |run| - 1 ==> Moves(run, owner, i)
  }

  lemma {:induction false} RunKeeps(run: seq<State>, owner: nat, i: nat)
    requires IsRun(run, owner) && i < |run|
    ensures Inv(run[i], owner)
    decreases i
  {
    hide Inv, StepOf;
    if i == 0 {
      var s := run[0];
      Lock.InitialIsInv(|s.work|);
      assert Inv(s, owner) by { InitialInv(s, owner); }
    } else {
      RunKeeps(run, owner, i - 1);
      assert Moves(run, owner, i - 1);
      var p: nat, k: int :| StepOf(run[i - 1], run[i], owner, p, k);
      StepKeeps(run[i - 1], run[i], owner, p, k);
    }
  }

  lemma InitialInv(s: State, owner: nat)
    requires s == Initial(|s.work|, s.ring.keys) && |s.ring.keys| > 1 && Lock.Inv(s.lock)
    ensures Inv(s, owner)
  {
    hide Lock.Inv;
  }

  /** In every state of every run, whoever has put keys and however often the
      buffer has grown, what has been taken is what was put first, in order, and
      the buffer holds the rest; at most one processor is at work on it. */
  lemma QueueIsFifo(run: seq<State>, owner: nat, i: nat)
    requires IsRun(run, owner) && i < |run|
    ensures var s := run[i];
      && RingOk(s.ring, Underway(s)) && s.put == s.taken + Entries(s.ring)
      && forall p, q {:trigger s.work[p], s.work[q]} ::
           0 <= p < |s.work| && 0 <= q < |s.work| && s.work[p] != Rest && s.work[q] != Rest ==> p == q
  {
    RunKeeps(run, owner, i);
  }

  /** If the owner has found the queue not empty, without the lock and whatever
      the others are in the middle of, then its next attempt to take an entry
      succeeds: GC_sqDeque does not come back with null. */
  lemma SeenMeansThere(run: seq<State>, owner: nat, i: nat)
    requires IsRun(run, owner) && i + 1 < |run| && owner < |run[i].work| && run[i].seen && run[i].work[owner] == TestEmpty
    ensures owner < |run[i + 1].work| && run[i + 1].work[owner] in {TestEmpty, Load}
  {
    hide Lock.StepOf, Live;
    RunKeeps(run, owner, i);
    assert Moves(run, owner, i);
    var s := run[i];
    var p: nat, k: int :| StepOf(run[i], run[i + 1], owner, p, k);
    assert s.lock.id == owner && Underway(s) == TestEmpty;
    FullRing(s.ring);
    if !LockStep(run[i], run[i + 1], p) && !PeekStep(run[i], run[i + 1], owner) {
      HolderIs(s, owner, p);
    }
  }
}
