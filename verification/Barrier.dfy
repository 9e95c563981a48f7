/** The stop-the-world barrier with its ticket, and the sleeping and waking of
    processors (processor.c, parallel.c), step by step over all interleavings
    of an initialised system. */
module Barrier {
  // ----------------------------------------------------------------------- state

  /** Where a processor is. Out: in mutator code. Waking: the first to arrive,
      about to wake processor next; last tells whether it is also the one to
      publish the ticket. Publish: the last to arrive. Spin: waiting for its
      turn. In: in the critical section. Reset, Clear: the last to finish, about
      to reset the counter and then the ticket. Leave: waiting for the end. */
  datatype Pc = Out | Waking(next: nat, last: bool) | Publish | Spin | In | Reset | Clear | Leave

  /** Where it is in Parallel_wait: it holds its mutex while Entered, Unbothered
      (it has seen nobody in the section) and Clearing. */
  datatype WaitPc = Awake | Entered | Unbothered | Blocked(signalled: bool) | Clearing

  /** entries and round record the history: how often each processor has been in
      the section, and how many rounds are complete. */
  datatype System = System(
    count: int, ticket: int, pcs: seq<Pc>, waits: seq<WaitPc>, dataIn: seq<bool>, entries: seq<nat>, round: nat)

  predicate HoldsMutex(w: WaitPc) { w.Entered? || w.Unbothered? || w.Clearing? }

  /** Between its arrival and its turn. */
  predicate Arrived(pc: Pc) { pc.Waking? || pc.Publish? || pc.Spin? }

  function CountArrived(pcs: seq<Pc>): nat {
    if pcs == [] then 0 else CountArrived(pcs[..|pcs| - 1]) + if Arrived(pcs[|pcs| - 1]) then 1 else 0
  }

  function Initial(n: nat): System {
    System(0, -1, seq(n, i => Out), seq(n, i => Awake), seq(n, i => true), seq(n, i => 0), 0)
  }

  // ----------------------------------------------------------------------- steps

  function SetPc(s: System, p: nat, pc: Pc): System
    requires p < |s.pcs|
  {
    s.(pcs := s.pcs[p := pc])
  }

  function SetWait(s: System, p: nat, w: WaitPc): System
    requires p < |s.waits|
  {
    s.(waits := s.waits[p := w])
  }

  predicate WellFormed(s: System) {
    0 < |s.pcs| == |s.waits| == |s.dataIn| == |s.entries|
  }

  /** Proc_beginCriticalSection, one shared access at a time. */
  predicate BeginStep(s: System, s': System, p: nat)
    requires WellFormed(s) && p < |s.pcs|
  {
    var n := |s.pcs|;
    match s.pcs[p]
    case Out =>
      var mine := s.count + 1;
      s.waits[p].Awake? && s' == SetPc(s, p, if mine == 1 then Waking(0, mine == n) else if mine == n then Publish else Spin).(count := mine)
    case Waking(i, last) =>
      if i < n then
        !HoldsMutex(s.waits[i]) && s' == Signal(SetPc(s, p, Waking(i + 1, last)), i)
      else s' == SetPc(s, p, if last then Publish else Spin)
    case Publish => s' == SetPc(s, p, Spin).(ticket := 0)
    case Spin => s.ticket == p && s' == SetPc(s, p, In).(entries := s.entries[p := s.entries[p] + 1])
    case _ => false
  }

  /** Proc_endCriticalSection. */
  predicate EndStep(s: System, s': System, p: nat)
    requires WellFormed(s) && p < |s.pcs|
  {
    match s.pcs[p]
    case In => s' == SetPc(s, p, if s.ticket + 1 == |s.pcs| then Reset else Leave).(ticket := s.ticket + 1)
    case Reset => s' == SetPc(s, p, Clear).(count := 0)
    case Clear => s' == SetPc(s, p, Leave).(ticket := -1, round := s.round + 1)
    case Leave => s.ticket < 0 && s' == SetPc(s, p, Out)
    case _ => false
  }

  /** pthread_cond_signal for processor p. */
  function Signal(s: System, p: nat): System
    requires p < |s.waits|
  {
    if s.waits[p].Blocked? then SetWait(s, p, Blocked(true)) else s
  }

  /** Parallel_wait, and a wake-up by the condition variable's own choice. */
  predicate WaitStep(s: System, s': System, p: nat)
    requires WellFormed(s) && p < |s.pcs|
  {
    s.pcs[p].Out? &&
    match s.waits[p]
    case Awake => s' == SetWait(s, p, Entered)
    case Entered => s' == SetWait(s, p, if s.count > 0 then Clearing else Unbothered)
    case Unbothered => s' == SetWait(s, p, if s.dataIn[p] then Clearing else Blocked(false))
    case Blocked(signalled) => s' == SetWait(s, p, Clearing) || (!signalled && s' == SetWait(s, p, Blocked(true)))
    case Clearing => s' == SetWait(s, p, Awake).(dataIn := s.dataIn[p := false])
  }

  /** Parallel_wakeUpThread by a mutator that has put work in p's queue. */
  predicate PostStep(s: System, s': System, p: nat)
    requires WellFormed(s) && p < |s.pcs|
  {
    !HoldsMutex(s.waits[p]) && s' == Signal(s, p).(dataIn := s.dataIn[p := true])
  }

  predicate StepOf(s: System, s': System, p: nat) {
    WellFormed(s) && p < |s.pcs| && (BeginStep(s, s', p) || EndStep(s, s', p) || WaitStep(s, s', p) || PostStep(s, s', p))
  }

  ghost predicate Step(s: System, s': System) { exists p: nat {:trigger StepOf(s, s', p)} :: StepOf(s, s', p) }

  // ------------------------------------------------------------------- invariant

  /** Nobody is past the barrier: those who have arrived are counted, and the
      last of them, and nobody before, is to publish the ticket. */
  ghost predicate Gathering(s: System)
    requires WellFormed(s)
  {
    && s.ticket == -1 && s.count == CountArrived(s.pcs) && s.count <= |s.pcs|
    && (forall p {:trigger s.pcs[p]} :: 0 <= p < |s.pcs| ==> s.pcs[p].Out? || s.pcs[p].Leave? || Arrived(s.pcs[p]))
    && (forall p {:trigger s.pcs[p]} :: 0 <= p < |s.pcs| && IsPublisher(s.pcs[p]) ==> s.count == |s.pcs|)
    && (s.count == |s.pcs| ==> exists p {:trigger s.pcs[p]} :: 0 <= p < |s.pcs| && IsPublisher(s.pcs[p]))
    && (forall p, q {:trigger s.pcs[p], s.pcs[q]} :: 0 <= p < q < |s.pcs| ==> !(IsPublisher(s.pcs[p]) && IsPublisher(s.pcs[q])))
    && (forall p {:trigger s.entries[p]} :: 0 <= p < |s.entries| ==> s.entries[p] == s.round)
  }

  predicate IsPublisher(pc: Pc) { pc.Publish? || (pc.Waking? && pc.last) }

  /** The processors have their turns in order: those before the ticket are done,
      the one with the ticket is in the section or about to enter it. */
  ghost predicate Serving(s: System)
    requires WellFormed(s)
  {
    && 0 <= s.ticket < |s.pcs| == s.count
    && (forall p {:trigger s.pcs[p]} :: 0 <= p < |s.pcs| ==>
          if p < s.ticket then s.pcs[p].Leave? else s.pcs[p].Spin? || (s.pcs[p].Waking? && !s.pcs[p].last) || (p == s.ticket && s.pcs[p].In?))
    && (forall p {:trigger s.entries[p]} :: 0 <= p < |s.entries| ==>
          s.entries[p] == s.round + if p < s.ticket || s.pcs[p].In? then 1 else 0)
  }

  /** All have had their turn and the last one is tidying up. */
  ghost predicate Ending(s: System)
    requires WellFormed(s)
  {
    && s.ticket == |s.pcs|
    && (forall p {:trigger s.pcs[p]} :: 0 <= p < |s.pcs| - 1 ==> s.pcs[p].Leave?)
    && (var last := s.pcs[|s.pcs| - 1]; (last.Reset? && s.count == |s.pcs|) || (last.Clear? && s.count == 0))
    && (forall p {:trigger s.entries[p]} :: 0 <= p < |s.entries| ==> s.entries[p] == s.round + 1)
  }

  /** Only one processor at a time wakes the others, and only once somebody has
      arrived. */
  ghost predicate OneWaker(s: System) {
    && (forall p {:trigger s.pcs[p]} :: 0 <= p < |s.pcs| && s.pcs[p].Waking? ==> 0 < s.count && s.pcs[p].next <= |s.pcs|)
    && (forall p, q {:trigger s.pcs[p], s.pcs[q]} :: 0 <= p < q < |s.pcs| ==> !(s.pcs[p].Waking? && s.pcs[q].Waking?))
  }

  /** The first to arrive has run its wake-up for processor p. */
  ghost predicate Roused(s: System, p: nat) {
    0 < s.count && forall f {:trigger s.pcs[f]} :: 0 <= f < |s.pcs| && s.pcs[f].Waking? ==> p < s.pcs[f].next
  }

  /** Nobody sleeps through work, or through the call to a round. */
  ghost predicate NoneAsleep(s: System)
    requires WellFormed(s)
  {
    && (forall p {:trigger s.waits[p]} :: 0 <= p < |s.waits| && !s.pcs[p].Out? ==> s.waits[p].Awake?)
    && (forall p {:trigger s.waits[p]} :: 0 <= p < |s.waits| && s.waits[p] == Blocked(false) ==> !s.dataIn[p])
    && (forall p {:trigger s.waits[p]} :: 0 <= p < |s.waits| && Roused(s, p) ==> s.waits[p] != Blocked(false) && !s.waits[p].Unbothered?)
  }

  ghost predicate Inv(s: System) {
    WellFormed(s) && (Gathering(s) || Serving(s) || Ending(s)) && OneWaker(s) && NoneAsleep(s)
  }

  // ------------------------------------------------------------------ consequences

  /** At most one processor is in the section; it has the ticket, everybody has
      arrived, and those before it have had their turn in this round, those
      after it have not. */
  lemma SectionIsExclusive(s: System, p: nat)
    requires Inv(s) && p < |s.pcs| && s.pcs[p].In?
    ensures s.ticket == p && s.count == |s.pcs|
    ensures forall q {:trigger s.pcs[q]} :: 0 <= q < |s.pcs| && q != p ==> !s.pcs[q].In? && !s.pcs[q].Out?
    ensures forall q {:trigger s.entries[q]} :: 0 <= q < |s.entries| ==> s.entries[q] == s.round + if q <= p then 1 else 0
  {
  }

  /** Proc_executingInSection: a ticket means that everybody is between arrival
      and exit. */
  lemma TicketMeansAllArrived(s: System)
    requires Inv(s) && 0 <= s.ticket
    ensures forall p {:trigger s.pcs[p]} :: 0 <= p < |s.pcs| ==> !s.pcs[p].Out?
  {
  }

  /** Rounds do not overlap: nobody is ever more than one section ahead. */
  lemma RoundsDoNotOverlap(s: System, p: nat, q: nat)
    requires Inv(s) && p < |s.pcs| && q < |s.pcs|
    ensures s.round <= s.entries[p] <= s.round + 1 && s.entries[p] <= s.entries[q] + 1
    ensures s.entries[p] == s.entries[q] + 1 ==> s.ticket >= 0
  {
  }

  /** Nobody is blocked without having been signalled while there is work for it,
      or after the first arriver has called it. */
  lemma NoSleepThroughWork(s: System, p: nat)
    requires Inv(s) && p < |s.pcs| && s.waits[p] == Blocked(false)
    ensures !s.dataIn[p] && !Roused(s, p)
  {
  }

  lemma {:induction false} AllArrivedCount(pcs: seq<Pc>)
    ensures CountArrived(pcs) <= |pcs|
    ensures CountArrived(pcs) == |pcs| <==> forall p {:trigger pcs[p]} :: 0 <= p < |pcs| ==> Arrived(pcs[p])
    ensures CountArrived(pcs) == 0 <==> forall p {:trigger pcs[p]} :: 0 <= p < |pcs| ==> !Arrived(pcs[p])
    decreases |pcs|
  {
    if pcs != [] {
      var front := pcs[..|pcs| - 1];
      AllArrivedCount(front);
      assert forall p {:trigger pcs[p]} :: 0 <= p < |front| ==> front[p] == pcs[p];
      assert forall p {:trigger front[p]} :: 0 <= p < |front| ==> front[p] == pcs[p];
    }
  }

  lemma {:induction false} CountUpdate(pcs: seq<Pc>, p: nat, pc: Pc)
    requires p < |pcs|
    ensures CountArrived(pcs[p := pc]) == CountArrived(pcs) - (if Arrived(pcs[p]) then 1 else 0) + (if Arrived(pc) then 1 else 0)
    decreases |pcs|
  {
    var last := |pcs| - 1;
    if p == last {
      assert pcs[p := pc][..last] == pcs[..last];
    } else {
      CountUpdate(pcs[..last], p, pc);
      assert pcs[p := pc][..last] == pcs[..last][p := pc];
    }
  }

  // ------------------------------------------------------------------ invariance

  lemma InitialIsInv(n: nat)
    requires 0 < n
    ensures Inv(Initial(n))
  {
    var s := Initial(n);
    AllArrivedCount(s.pcs);
  }

  lemma ArriveKeeps(s: System, s': System, p: nat)
    requires Inv(s) && p < |s.pcs| && s.pcs[p].Out? && BeginStep(s, s', p)
    ensures Inv(s')
  {
    assert Gathering(s);
    AllArrivedCount(s.pcs);
    CountUpdate(s.pcs, p, s'.pcs[p]);
    AllArrivedCount(s'.pcs);
    assert s'.count == s.count + 1 == CountArrived(s'.pcs);
    ArriveGathers(s, s', p);
    if s.count == 0 { assert forall q {:trigger s'.pcs[q]} :: 0 <= q < |s.pcs| && s'.pcs[q].Waking? ==> q == p; }
    SleepersAfterArrival(s, s', p);
  }

  lemma ArriveGathers(s: System, s': System, p: nat)
    requires WellFormed(s) && Gathering(s) && p < |s.pcs| && s.pcs[p].Out? && BeginStep(s, s', p)
    requires s'.count == CountArrived(s'.pcs) && (s'.count == |s.pcs| ==> forall q {:trigger s'.pcs[q]} :: 0 <= q < |s.pcs| ==> Arrived(s'.pcs[q]))
    requires CountArrived(s'.pcs) <= |s.pcs|
    ensures WellFormed(s') && Gathering(s')
  {
    hide CountArrived;
    assert s.count < |s.pcs|;
    assert forall q {:trigger s'.pcs[q]} :: 0 <= q < |s.pcs| && q != p ==> s'.pcs[q] == s.pcs[q] && !IsPublisher(s'.pcs[q]);
    assert IsPublisher(s'.pcs[p]) <==> s'.count == |s.pcs|;
  }

  lemma SleepersAfterArrival(s: System, s': System, p: nat)
    requires Inv(s) && 0 <= s.count && p < |s.pcs| && s.pcs[p].Out? && BeginStep(s, s', p)
    ensures OneWaker(s') && WellFormed(s') && NoneAsleep(s')
  {
    hide Gathering, Serving, Ending, CountArrived;
    assert forall q {:trigger s'.pcs[q]} :: 0 <= q < |s.pcs| && q != p ==> s'.pcs[q] == s.pcs[q];
    forall q {:trigger s'.waits[q]} | 0 <= q < |s.waits| ensures Roused(s', q) ==> s'.waits[q] != Blocked(false) && !s'.waits[q].Unbothered? {
      RousedBefore(s, s', p, q);
    }
  }

  /** An arrival calls nobody. */
  lemma RousedBefore(s: System, s': System, p: nat, q: nat)
    requires WellFormed(s) && p < |s.pcs| == |s'.pcs| && s'.pcs == s.pcs[p := s'.pcs[p]] && s.pcs[p].Out?
    requires s.count >= 0 && (if s.count == 0 then s'.pcs[p].Waking? && s'.pcs[p].next == 0 else !s'.pcs[p].Waking?)
    ensures Roused(s', q) ==> Roused(s, q)
  {
    assert forall f {:trigger s.pcs[f]} :: 0 <= f < |s.pcs| && f != p ==> s'.pcs[f] == s.pcs[f];
    assert s'.pcs[p] == s'.pcs[p];
  }

  /** The system after p's program counter has moved among the arrived. */
  lemma PcKeepsCount(s: System, p: nat, pc: Pc)
    requires p < |s.pcs| && Arrived(s.pcs[p]) && Arrived(pc)
    ensures CountArrived(s.pcs[p := pc]) == CountArrived(s.pcs)
  {
    CountUpdate(s.pcs, p, pc);
  }

  lemma WakeKeeps(s: System, s': System, p: nat)
    requires Inv(s) && p < |s.pcs| && s.pcs[p].Waking? && BeginStep(s, s', p)
    ensures Inv(s')
  {
    PcKeepsCount(s, p, s'.pcs[p]);
    assert s'.pcs == s.pcs[p := s'.pcs[p]];
    WakePhase(s, s', p);
    WakeSleepers(s, s', p);
  }

  lemma WakePhase(s: System, s': System, p: nat)
    requires Inv(s) && p < |s.pcs| && s.pcs[p].Waking? && BeginStep(s, s', p) && CountArrived(s'.pcs) == CountArrived(s.pcs)
    ensures WellFormed(s') && (Gathering(s') || Serving(s') || Ending(s'))
  {
    hide CountArrived, OneWaker, NoneAsleep, Roused;
    assert forall q {:trigger s'.pcs[q]} :: 0 <= q < |s.pcs| && q != p ==> s'.pcs[q] == s.pcs[q];
    assert IsPublisher(s'.pcs[p]) == IsPublisher(s.pcs[p]);
    if Gathering(s) {
      if s.count == |s.pcs| {
        var q :| 0 <= q < |s.pcs| && IsPublisher(s.pcs[q]);
        assert IsPublisher(s'.pcs[q]);
      }
    }
  }

  lemma WakeSleepers(s: System, s': System, p: nat)
    requires Inv(s) && p < |s.pcs| && s.pcs[p].Waking? && BeginStep(s, s', p)
    ensures OneWaker(s') && WellFormed(s') && NoneAsleep(s')
  {
    hide Gathering, Serving, Ending, CountArrived;
    assert forall q {:trigger s'.pcs[q]} :: 0 <= q < |s.pcs| && q != p ==> s'.pcs[q] == s.pcs[q];
    forall q {:trigger s'.waits[q]} | 0 <= q < |s.waits| && Roused(s', q) ensures s'.waits[q] != Blocked(false) && !s'.waits[q].Unbothered? {
      assert s'.pcs[p].Waking? ==> q < s'.pcs[p].next;
      if q < s.pcs[p].next {
        OnlyWaker(s, p, q);
      }
    }
  }

  lemma OnlyWaker(s: System, p: nat, q: nat)
    requires OneWaker(s) && p < |s.pcs| && s.pcs[p].Waking? && q < s.pcs[p].next
    ensures Roused(s, q)
  {
  }

  lemma PublishKeeps(s: System, s': System, p: nat)
    requires Inv(s) && p < |s.pcs| && s.pcs[p].Publish? && BeginStep(s, s', p)
    ensures Inv(s')
  {
    assert Gathering(s);
    AllArrivedCount(s.pcs);
    hide CountArrived;
    assert forall q {:trigger s'.pcs[q]} :: 0 <= q < |s.pcs| && q != p ==> s'.pcs[q] == s.pcs[q] && !IsPublisher(s.pcs[q]) && Arrived(s.pcs[q]);
    assert Serving(s');
    SameSleepers(s, s', p);
  }

  lemma SpinKeeps(s: System, s': System, p: nat)
    requires Inv(s) && p < |s.pcs| && s.pcs[p].Spin? && BeginStep(s, s', p)
    ensures Inv(s')
  {
    hide CountArrived;
    assert Serving(s);
    assert forall q {:trigger s'.pcs[q]} :: 0 <= q < |s.pcs| && q != p ==> s'.pcs[q] == s.pcs[q];
    assert Serving(s');
    SameSleepers(s, s', p);
  }

  /** A step of p that wakes nobody and leaves the counter up. */
  lemma SameSleepers(s: System, s': System, p: nat)
    requires WellFormed(s) && OneWaker(s) && NoneAsleep(s) && p < |s.pcs| && !s.pcs[p].Out? && !s.pcs[p].Waking?
    requires WellFormed(s') && s'.waits == s.waits && s'.dataIn == s.dataIn && |s'.pcs| == |s.pcs| && s'.pcs == s.pcs[p := s'.pcs[p]] && !s'.pcs[p].Waking?
    requires s'.count == s.count || (s'.count == 0 && forall q {:trigger s'.pcs[q]} :: 0 <= q < |s.pcs| ==> !s'.pcs[q].Waking?)
    ensures OneWaker(s') && NoneAsleep(s')
  {
    assert forall q {:trigger s'.pcs[q]} :: 0 <= q < |s.pcs| && q != p ==> s'.pcs[q] == s.pcs[q];
    forall q {:trigger s'.waits[q]} | 0 <= q < |s.waits| && Roused(s', q) ensures s'.waits[q] != Blocked(false) && !s'.waits[q].Unbothered? {
      assert Roused(s, q) by {
        forall f {:trigger s.pcs[f]} | 0 <= f < |s.pcs| && s.pcs[f].Waking? ensures q < s.pcs[f].next { assert s'.pcs[f] == s.pcs[f]; }
      }
    }
  }

  lemma EndKeeps(s: System, s': System, p: nat)
    requires Inv(s) && p < |s.pcs| && EndStep(s, s', p)
    ensures Inv(s')
  {
    hide CountArrived, Gathering, Serving, Ending, OneWaker, NoneAsleep;
    AllArrivedCount(s'.pcs);
    CountUpdate(s.pcs, p, s'.pcs[p]);
    match s.pcs[p] {
      case In => ExitSection(s, s', p);
      case Reset => ResetCounter(s, s', p);
      case Clear => ClearTicket(s, s', p);
      case Leave => LeaveGathers(s, s', p);
      case _ =>
    }
    SameSleepers(s, s', p);
  }

  lemma ExitSection(s: System, s': System, p: nat)
    requires Inv(s) && p < |s.pcs| && s.pcs[p].In? && EndStep(s, s', p)
    ensures WellFormed(s') && (Serving(s') || Ending(s')) && s'.count == s.count
  {
    hide CountArrived, OneWaker, NoneAsleep;
    assert Serving(s);
    assert forall q {:trigger s'.pcs[q]} :: 0 <= q < |s.pcs| && q != p ==> s'.pcs[q] == s.pcs[q];
  }

  lemma ResetCounter(s: System, s': System, p: nat)
    requires Inv(s) && p < |s.pcs| && s.pcs[p].Reset? && EndStep(s, s', p)
    ensures WellFormed(s') && Ending(s') && forall q {:trigger s'.pcs[q]} :: 0 <= q < |s.pcs| ==> !s'.pcs[q].Waking?
  {
    hide CountArrived, OneWaker, NoneAsleep;
    assert Ending(s);
    assert forall q {:trigger s'.pcs[q]} :: 0 <= q < |s.pcs| && q != p ==> s'.pcs[q] == s.pcs[q];
  }

  lemma ClearTicket(s: System, s': System, p: nat)
    requires Inv(s) && p < |s.pcs| && s.pcs[p].Clear? && EndStep(s, s', p)
    requires CountArrived(s'.pcs) == 0 <==> forall q {:trigger s'.pcs[q]} :: 0 <= q < |s'.pcs| ==> !Arrived(s'.pcs[q])
    ensures WellFormed(s') && Gathering(s') && s'.count == s.count
  {
    hide CountArrived, OneWaker, NoneAsleep;
    assert Ending(s);
    assert forall q {:trigger s'.pcs[q]} :: 0 <= q < |s.pcs| ==> s'.pcs[q].Leave?;
  }

  lemma LeaveGathers(s: System, s': System, p: nat)
    requires Inv(s) && p < |s.pcs| && s.pcs[p].Leave? && EndStep(s, s', p)
    requires CountArrived(s'.pcs) == CountArrived(s.pcs)
    ensures WellFormed(s') && Gathering(s') && s'.count == s.count
  {
    hide CountArrived, OneWaker, NoneAsleep;
    assert forall q {:trigger s'.pcs[q]} :: 0 <= q < |s.pcs| && q != p ==> s'.pcs[q] == s.pcs[q];
    if s.count == |s.pcs| {
      var q :| 0 <= q < |s.pcs| && IsPublisher(s.pcs[q]);
      assert IsPublisher(s'.pcs[q]);
    }
  }

  lemma WaitKeeps(s: System, s': System, p: nat)
    requires Inv(s) && p < |s.pcs| && WaitStep(s, s', p)
    ensures Inv(s')
  {
    hide CountArrived, Gathering, Serving, Ending, OneWaker;
    SamePhase(s, s');
    assert s'.pcs == s.pcs && s'.count == s.count;
    forall q {:trigger s'.waits[q]} | 0 <= q < |s.waits| && Roused(s', q) ensures s'.waits[q] != Blocked(false) && !s'.waits[q].Unbothered? {
      assert Roused(s, q);
    }
  }

  lemma PostKeeps(s: System, s': System, p: nat)
    requires Inv(s) && p < |s.pcs| && PostStep(s, s', p)
    ensures Inv(s')
  {
    hide CountArrived, Gathering, Serving, Ending, OneWaker;
    SamePhase(s, s');
    assert s'.pcs == s.pcs && s'.count == s.count;
    forall q {:trigger s'.waits[q]} | 0 <= q < |s.waits| && Roused(s', q) ensures s'.waits[q] != Blocked(false) && !s'.waits[q].Unbothered? {
      assert Roused(s, q);
    }
  }

  lemma SamePhase(s: System, s': System)
    requires Inv(s) && WellFormed(s') && s'.pcs == s.pcs && s'.count == s.count && s'.ticket == s.ticket && s'.entries == s.entries && s'.round == s.round
    ensures (Gathering(s') || Serving(s') || Ending(s')) && OneWaker(s')
  {
    hide CountArrived;
  }

  lemma StepKeeps(s: System, s': System)
    requires Inv(s) && Step(s, s')
    ensures Inv(s') && |s'.pcs| == |s.pcs|
  {
    hide Inv, BeginStep, EndStep, WaitStep, PostStep, CountArrived;
    var p: nat :| StepOf(s, s', p);
    if BeginStep(s, s', p) {
      BeginKeeps(s, s', p);
    } else if EndStep(s, s', p) {
      EndKeeps(s, s', p);
    } else if WaitStep(s, s', p) {
      WaitKeeps(s, s', p);
    } else {
      PostKeeps(s, s', p);
    }
    SameNumber(s, s', p);
  }

  lemma SameNumber(s: System, s': System, p: nat)
    requires StepOf(s, s', p)
    ensures |s'.pcs| == |s.pcs|
  {
  }

  lemma BeginKeeps(s: System, s': System, p: nat)
    requires Inv(s) && p < |s.pcs| && BeginStep(s, s', p)
    ensures Inv(s')
  {
    hide Inv, CountArrived;
    match s.pcs[p]
    case Out => ArriveKeeps(s, s', p);
    case Waking(_, _) => WakeKeeps(s, s', p);
    case Publish => PublishKeeps(s, s', p);
    case Spin => SpinKeeps(s, s', p);
    case _ =>
  }

  // ------------------------------------------------------------------------ runs

  ghost predicate IsRun(run: seq<System>) {
    && run != [] && 0 < |run[0].pcs| && run[0] == Initial(|run[0].pcs|)
    && forall k {:trigger Step(run[k], run[k + 1])} :: 0 <= k < |run| - 1 ==> Step(run[k], run[k + 1])
  }

  /** The invariant, and with it what follows from it above, holds in every
      state of every run. */
  lemma {:induction false} RunIsSafe(run: seq<System>, k: nat)
    requires IsRun(run) && k < |run|
    ensures Inv(run[k]) && |run[k].pcs| == |run[0].pcs|
    decreases k
  {
    hide Inv, Step;
    if k == 0 {
      InitialIsInv(|run[0].pcs|);
    } else {
      RunIsSafe(run, k - 1);
      RunStep(run, k - 1);
      StepKeeps(run[k - 1], run[k]);
    }
  }

  lemma RunStep(run: seq<System>, k: nat)
    requires IsRun(run) && k + 1 < |run|
    ensures Step(run[k], run[k + 1])
  {
    hide Step;
  }

  // -------------------------------------------------------------------- progress

  /** A step of the barrier itself can be made whenever nobody is in mutator
      code, whatever the waiters do. */
  lemma BarrierNeverStuck(s: System) returns (p: nat, s': System)
    requires Inv(s) && forall q {:trigger s.pcs[q]} :: 0 <= q < |s.pcs| ==> !s.pcs[q].Out?
    ensures p < |s.pcs| && (BeginStep(s, s', p) || EndStep(s, s', p))
  {
    hide CountArrived;
    if Serving(s) {
      p := s.ticket;
      if s.pcs[p].Spin? {
        s' := SetPc(s, p, In).(entries := s.entries[p := s.entries[p] + 1]);
      } else if s.pcs[p].Waking? {
        s' := NextWake(s, p);
      } else {
        s' := SetPc(s, p, if s.ticket + 1 == |s.pcs| then Reset else Leave).(ticket := s.ticket + 1);
      }
    } else if Ending(s) {
      p := |s.pcs| - 1;
      if s.pcs[p].Reset? { s' := SetPc(s, p, Clear).(count := 0); } else { s' := SetPc(s, p, Leave).(ticket := -1, round := s.round + 1); }
    } else if q: nat :| q < |s.pcs| && s.pcs[q].Leave? {
      p, s' := q, SetPc(s, q, Out);
    } else {
      p, s' := PublisherMoves(s);
    }
  }

  lemma NextWake(s: System, p: nat) returns (s': System)
    requires Inv(s) && p < |s.pcs| && s.pcs[p].Waking? && forall q {:trigger s.pcs[q]} :: 0 <= q < |s.pcs| ==> !s.pcs[q].Out?
    ensures BeginStep(s, s', p)
  {
    hide Gathering, Serving, Ending;
    var i, last := s.pcs[p].next, s.pcs[p].last;
    if i < |s.pcs| {
      assert !s.pcs[i].Out? && s.waits[i].Awake?;
      s' := Signal(SetPc(s, p, Waking(i + 1, last)), i);
    } else {
      s' := SetPc(s, p, if last then Publish else Spin);
    }
  }

  /** When all have arrived the one that is to publish the ticket can move on. */
  lemma PublisherMoves(s: System) returns (p: nat, s': System)
    requires Inv(s) && Gathering(s) && forall q {:trigger s.pcs[q]} :: 0 <= q < |s.pcs| ==> !s.pcs[q].Out? && !s.pcs[q].Leave?
    ensures p < |s.pcs| && BeginStep(s, s', p)
  {
    AllArrivedCount(s.pcs);
    hide CountArrived, Serving, Ending;
    p :| 0 <= p < |s.pcs| && IsPublisher(s.pcs[p]);
    if s.pcs[p].Publish? { s' := SetPc(s, p, Spin).(ticket := 0); } else { s' := NextWake(s, p); }
  }

  /** How far a processor is from the end of its round. */
  function Rank(n: nat, pc: Pc): nat {
    match pc
    case Waking(i, _) => if i <= n then n - i + 6 else 0
    case Publish => 5
    case Spin => 4
    case In => 3
    case Reset => 2
    case Clear => 1
    case _ => 0
  }

  function TotalRank(n: nat, pcs: seq<Pc>): nat {
    if pcs == [] then 0 else TotalRank(n, pcs[..|pcs| - 1]) + Rank(n, pcs[|pcs| - 1])
  }

  lemma {:induction false} RankUpdate(n: nat, pcs: seq<Pc>, p: nat, pc: Pc)
    requires p < |pcs|
    ensures TotalRank(n, pcs[p := pc]) == TotalRank(n, pcs) - Rank(n, pcs[p]) + Rank(n, pc)
    decreases |pcs|
  {
    hide Rank;
    var last := |pcs| - 1;
    if p == last {
      assert pcs[p := pc][..last] == pcs[..last];
    } else {
      RankUpdate(n, pcs[..last], p, pc);
      assert pcs[p := pc][..last] == pcs[..last][p := pc];
    }
  }

  /** Once all have arrived, every step of the barrier brings the end of the
      round nearer, and no other step takes it further away: a round that has
      gathered is completed after at most TotalRank steps of the barrier. */
  lemma RoundComesToItsEnd(s: System, s': System, p: nat)
    requires Inv(s) && p < |s.pcs| && (s.count == |s.pcs| || 0 <= s.ticket)
    ensures BeginStep(s, s', p) || EndStep(s, s', p) ==>
      TotalRank(|s.pcs|, s'.pcs) < TotalRank(|s.pcs|, s.pcs) && (s'.round == s.round + 1 || s'.count == |s.pcs| || 0 <= s'.ticket)
    ensures WaitStep(s, s', p) || PostStep(s, s', p) ==> s'.pcs == s.pcs && s'.count == s.count && s'.ticket == s.ticket
  {
    hide Gathering, Serving, Ending, OneWaker, NoneAsleep, CountArrived, TotalRank, Rank;
    if BeginStep(s, s', p) {
      BeginRanks(s, s', p);
      RankUpdate(|s.pcs|, s.pcs, p, s'.pcs[p]);
    }
    if EndStep(s, s', p) {
      EndRanks(s, s', p);
      RankUpdate(|s.pcs|, s.pcs, p, s'.pcs[p]);
    }
  }

  lemma BeginRanks(s: System, s': System, p: nat)
    requires Inv(s) && p < |s.pcs| && (s.count == |s.pcs| || 0 <= s.ticket) && BeginStep(s, s', p)
    ensures s'.pcs == s.pcs[p := s'.pcs[p]] && Rank(|s.pcs|, s'.pcs[p]) < Rank(|s.pcs|, s.pcs[p])
    ensures s'.count == |s.pcs| || 0 <= s'.ticket
  {
    AllArrivedCount(s.pcs);
    hide CountArrived, NoneAsleep;
  }

  lemma EndRanks(s: System, s': System, p: nat)
    requires Inv(s) && p < |s.pcs| && (s.count == |s.pcs| || 0 <= s.ticket) && EndStep(s, s', p)
    ensures s'.pcs == s.pcs[p := s'.pcs[p]] && Rank(|s.pcs|, s'.pcs[p]) < Rank(|s.pcs|, s.pcs[p])
    ensures s'.round == s.round + 1 || s'.count == |s.pcs| || 0 <= s'.ticket
  {
    AllArrivedCount(s.pcs);
    hide CountArrived, NoneAsleep;
  }
}
