/** The re-entrant spin lock of a scheduler queue (scheduler-queue.c), for any
    number of processors and any interleaving of their reads and writes. */
module QueueLock {

  /** Where a processor is in GC_sqAcquireLock or GC_sqReleaseLock. */
  datatype Pc =
    | Running
    | Enter            // about to test whether it holds the lock already
    | Again            // about to count one more acquisition
    | Spin             // about to read the owner, or to try the swap
    | Swap
    | Exit             // about to test the count
    | CountDown
    | Free             // about to give the lock up

  /** depth says how many acquisitions a processor has not released yet. */
  datatype Proc = Proc(pc: Pc, depth: nat)

  datatype System = System(id: int, count: int, procs: seq<Proc>)

  const NOBODY := -1

  function Initial(n: nat): System { System(NOBODY, 0, seq(n, i => Proc(Running, 0))) }

  function Put(s: System, p: nat, pc: Pc, depth: int): System
    requires p < |s.procs| && depth >= 0
  {
    s.(procs := s.procs[p := Proc(pc, depth)])
  }

  /** One read or write of processor p; only a holder calls release. */
  predicate StepOf(s: System, s': System, p: nat) {
    p < |s.procs| &&
    var d := s.procs[p].depth;
    match s.procs[p].pc
    case Running => s' == Put(s, p, Enter, d) || (d > 0 && s' == Put(s, p, Exit, d))
    case Enter => s' == Put(s, p, if s.id == p then Again else Spin, d)
    case Again => s' == Put(s, p, Running, d + 1).(count := s.count + 1)
    case Spin => s' == Put(s, p, if s.id >= 0 then Spin else Swap, d)
    case Swap => if s.id == NOBODY then s' == Put(s, p, Running, d + 1).(id := p) else s' == Put(s, p, Spin, d)
    case Exit => s' == Put(s, p, if s.count > 0 then CountDown else Free, d)
    case CountDown => d > 0 && s' == Put(s, p, Running, d - 1).(count := s.count - 1)
    case Free => d > 0 && s' == Put(s, p, Running, d - 1).(id := NOBODY)
  }

  /** Holding the lock and being its recorded owner are the same thing, and the
      count is the number of acquisitions beyond the first. */
  predicate ProcOk(s: System, p: nat)
    requires p < |s.procs|
  {
    var q := s.procs[p];
    && (s.id == p <==> q.depth > 0)
    && (q.depth > 0 ==> s.count == q.depth - 1)
    && (q.pc in {Again, Exit, CountDown, Free} ==> q.depth > 0)
    && (q.pc == CountDown ==> s.count > 0)
    && (q.pc == Free ==> s.count == 0)
    && (q.pc in {Spin, Swap} ==> q.depth == 0)
  }

  ghost predicate Inv(s: System) {
    && NOBODY <= s.id < |s.procs|
    && (s.id == NOBODY ==> s.count == 0)
    && forall p: nat {:trigger ProcOk(s, p)} {:trigger s.procs[p]} :: p < |s.procs| ==> ProcOk(s, p)
  }

  lemma InitialIsInv(n: nat)
    ensures Inv(Initial(n))
  {
    var s := Initial(n);
    forall p: nat | p < n ensures ProcOk(s, p) {
      assert s.procs[p] == Proc(Running, 0);
    }
  }

  lemma StepKeeps(s: System, s': System, p: nat)
    requires Inv(s) && StepOf(s, s', p)
    ensures Inv(s')
  {
    assert ProcOk(s, p);
    forall q: nat | q < |s'.procs| ensures ProcOk(s', q) {
      assert ProcOk(s, q);
      if q != p { assert s'.procs[q] == s.procs[q]; }
    }
  }

  ghost predicate IsRun(run: seq<System>) {
    && |run| > 0 && run[0] == Initial(|run[0].procs|)
    && forall k {:trigger Moves(run, k)} :: 0 <= k < |run| - 1 ==> Moves(run, k)
  }

  ghost predicate Moves(run: seq<System>, k: int) {
    0 <= k < |run| - 1 && exists p: nat {:trigger StepOf(run[k], run[k + 1], p)} :: StepOf(run[k], run[k + 1], p)
  }

  /** In every run, at most one processor holds the lock, it is the recorded
      owner, and the count returns to zero before the lock is given up. */
  lemma {:induction false} MutualExclusion(run: seq<System>, k: nat)
    requires IsRun(run) && k < |run|
    ensures Inv(run[k])
    ensures forall p: nat, q: nat {:trigger run[k].procs[p], run[k].procs[q]} ::
      p < |run[k].procs| && q < |run[k].procs| && run[k].procs[p].depth > 0 && run[k].procs[q].depth > 0 ==> p == q
    ensures forall p: nat :: p < |run[k].procs| && run[k].procs[p].pc == Free ==> run[k].id == p && run[k].count == 0
    decreases k
  {
    if k == 0 {
      InitialIsInv(|run[0].procs|);
    } else {
      MutualExclusion(run, k - 1);
      assert Moves(run, k - 1);
      var p: nat :| StepOf(run[k - 1], run[k], p);
      StepKeeps(run[k - 1], run[k], p);
    }
  }

  /** A release takes one acquisition back and frees the lock exactly when it was
      the last one. */
  lemma ReleaseFreesLast(s: System, p: nat, s1: System, s2: System)
    requires Inv(s) && p < |s.procs| && s.procs[p].pc == Exit
    requires StepOf(s, s1, p) && StepOf(s1, s2, p)
    ensures s2.procs[p] == Proc(Running, s.procs[p].depth - 1)
    ensures s2.id == if s.procs[p].depth == 1 then NOBODY else p
  {
    assert ProcOk(s, p);
  }
}
