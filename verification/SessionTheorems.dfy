/**
 What every interleaving of the session manager guarantees: conserved slots, fair admission,
 a sound index, and a drain that ends and leaves nothing behind.
 */
module SessionTheorems {
  import opened Prelude
  import opened SessionManagement
  import opened SessionRuns

  function Run(threads: seq<Thread>, labels: seq<Label>): System {
    Exec(Start(threads), labels)
  }

  lemma RunInv(threads: seq<Thread>, labels: seq<Label>)
    requires Launch(threads)
    ensures Inv(Run(threads, labels))
  {
    StartInv(threads);
    ExecKeepsInv(Start(threads), labels);
  }

  /** The section a label runs. */
  function SectionOf(s: System, l: Label): Section {
    match l
    case Do(i, x) => if i < |s.threads| then ThreadStep(s.m, s.threads[i], x).0 else Look
    case SetLimit(n) => Resize(n)
    case SetLimiter(on) => Limit(on)
  }

  lemma {:induction false} ExecAppend(s: System, a: seq<Label>, b: seq<Label>)
    ensures Exec(s, a + b) == Exec(Exec(s, a), b)
    decreases |a|
  {
    if a == [] {
      assert a + b == b;
    } else {
      assert (a + b)[1..] == a[1..] + b;
      ExecAppend(Next(s, a[0]), a[1..], b);
    }
  }

  // ---------------------------------------------------------------------------
  // Slot conservation

  /**
   Every slot is owned: by a registered session without a lease, by a creation that holds it, or by
   exactly one waiting creation whose ticket was granted.
   */
  lemma SlotsAreConserved(threads: seq<Thread>, labels: seq<Label>)
    requires Launch(threads)
    ensures var s := Run(threads, labels);
            && s.m.activeSlots == |Leaseless(s.m)| + |HolderSet(s.threads)| + |s.m.granted|
            && (forall g | g in s.m.granted :: SomeoneWaits(s.threads, g))
            && (forall i, j, g | 0 <= i < |s.threads| && 0 <= j < |s.threads|
                                 && WaitsOn(s.threads[i], g) && WaitsOn(s.threads[j], g) :: i == j)
  {
    RunInv(threads, labels);
    var s := Run(threads, labels);
    forall g | g in s.m.granted ensures SomeoneWaits(s.threads, g) {
      assert g in Tickets(s.m);
    }
  }

  /** The `activeSlots > 0` tests are never what prevents an underflow. */
  lemma UnderflowGuardsNeverBind(threads: seq<Thread>, labels: seq<Label>)
    requires Launch(threads)
    ensures var s := Run(threads, labels);
            && (forall pid | pid in s.m.sessions && !s.m.sessions[pid].leased :: s.m.activeSlots > 0)
            && (forall i | 0 <= i < |s.threads| && HoldsSlot(s.threads[i]) :: s.m.activeSlots > 0)
  {
    RunInv(threads, labels);
    var s := Run(threads, labels);
    forall pid | pid in s.m.sessions && !s.m.sessions[pid].leased ensures s.m.activeSlots > 0 {
      assert pid in Leaseless(s.m);
    }
    forall i | 0 <= i < |s.threads| && HoldsSlot(s.threads[i]) ensures s.m.activeSlots > 0 {
      HolderIsCounted(s.threads, i);
    }
  }

  // ---------------------------------------------------------------------------
  // Admission

  /** Before a drain a queue means a full house, so a newcomer is admitted only when nobody waits. */
  lemma NobodyOvertakes(threads: seq<Thread>, labels: seq<Label>)
    requires Launch(threads)
    ensures var m := Run(threads, labels).m;
            && (!m.closed && m.waiters != [] ==> m.maxConnections > 0 && m.activeSlots >= m.maxConnections)
            && (AcquireSlot(m).1.Admitted? ==> m.waiters == [])
  {
    RunInv(threads, labels);
  }

  /** Waiters join at the tail only. */
  ghost predicate TailOnly(m: Manager, m': Manager) {
    && m.nextTicket <= m'.nextTicket
    && forall k | k in m'.waiters :: k in m.waiters || k >= m.nextTicket
  }

  lemma GrantTail(m: Manager)
    requires Fifo(m)
    ensures TailOnly(m, Grant(m))
  {
    GrantFacts(m);
    forall k | k in Grant(m).waiters ensures k in m.waiters {
      assert k in Elements(Grant(m).waiters) + Grant(m).granted;
      QueuedNotGranted(Grant(m), k);
    }
  }

  lemma SectionTail(m: Manager, a: Section)
    requires Fifo(m)
    ensures TailOnly(m, Apply(m, a))
  {
    if a.Abandon? {
      WithoutIncreasing(m.waiters, a.ticket);
    } else if Granting(a) && !(a.Remove? && a.pid !in m.sessions) {
      GrantTail(BeforeGrant(m, a));
    }
  }

  lemma {:induction false} NeverRequeued(s: System, labels: seq<Label>, k: nat)
    requires Inv(s) && k < s.m.nextTicket && k !in s.m.waiters
    ensures k !in Exec(s, labels).m.waiters
    decreases |labels|
  {
    if labels != [] {
      NextKeepsInv(s, labels[0]);
      SectionTail(s.m, SectionOf(s, labels[0]));
      NeverRequeued(Next(s, labels[0]), labels[1..], k);
    }
  }

  /** Once a waiter is granted, nobody who queued before it is queued then or ever after. */
  lemma GrantsFollowArrival(threads: seq<Thread>, before: seq<Label>, more: seq<Label>, earlier: nat, later: nat)
    requires Launch(threads) && earlier < later
    requires later in Run(threads, before).m.granted
    ensures earlier !in Run(threads, before).m.waiters
    ensures earlier !in Run(threads, before + more).m.waiters
  {
    RunInv(threads, before);
    var s := Run(threads, before);
    NeverRequeued(s, more, earlier);
    ExecAppend(Start(threads), before, more);
  }

  // --- The connection limit ---

  ghost predicate WithinLimit(m: Manager) {
    m.maxConnections > 0 && m.activeSlots <= m.maxConnections
  }

  predicate NeverLowered(limit: int, labels: seq<Label>)
    decreases |labels|
  {
    labels == [] ||
    (if labels[0].SetLimit? then labels[0].n >= limit && NeverLowered(labels[0].n, labels[1..])
     else NeverLowered(limit, labels[1..]))
  }

  lemma SectionWithinLimit(m: Manager, a: Section)
    requires Fifo(m) && WithinLimit(m) && (a.Resize? ==> a.n >= m.maxConnections)
    ensures WithinLimit(Apply(m, a))
    ensures Apply(m, a).maxConnections == if a.Resize? then a.n else m.maxConnections
  {
    if Granting(a) && !(a.Remove? && a.pid !in m.sessions) {
      GrantingSection(m, a);
    }
  }

  lemma {:induction false} LimitKept(s: System, labels: seq<Label>)
    requires Inv(s) && WithinLimit(s.m) && NeverLowered(s.m.maxConnections, labels)
    ensures WithinLimit(Exec(s, labels).m)
    decreases |labels|
  {
    if labels != [] {
      NextKeepsInv(s, labels[0]);
      if labels[0].Do? && labels[0].thread < |s.threads| {
        PhaseMatchesSection(s.m, s.threads[labels[0].thread], labels[0].choice);
      }
      SectionWithinLimit(s.m, SectionOf(s, labels[0]));
      LimitKept(Next(s, labels[0]), labels[1..]);
    }
  }

  /** From any point of a run with the slots within a positive limit, they stay within it while it is not lowered. */
  lemma LimitRespected(threads: seq<Thread>, before: seq<Label>, more: seq<Label>)
    requires Launch(threads)
    requires var m := Run(threads, before).m; WithinLimit(m) && NeverLowered(m.maxConnections, more)
    ensures WithinLimit(Run(threads, before + more).m)
  {
    RunInv(threads, before);
    LimitKept(Run(threads, before), more);
    ExecAppend(Start(threads), before, more);
  }

  // ---------------------------------------------------------------------------
  // The index by worker

  /** In every interleaving the index lists only registered sessions, under their worker, once each. */
  lemma IndexIsAlwaysSound(threads: seq<Thread>, labels: seq<Label>)
    requires Launch(threads)
    ensures IndexSound(Run(threads, labels).m)
  {
    RunInv(threads, labels);
  }

  predicate SweepsWorker(t: Thread, worker: int) {
    t.Crasher? && t.worker == worker && (t.sweep.Sweeping? || t.sweep.SweepCleanup?)
  }

  /** A registration on a worker does not fall inside a crash sweep of that worker. */
  ghost predicate QuietLabel(s: System, l: Label) {
    l.Do? && l.thread < |s.threads| && s.threads[l.thread].Creator? && s.threads[l.thread].creation.Placed? ==>
      forall j | 0 <= j < |s.threads| :: !SweepsWorker(s.threads[j], s.threads[l.thread].creation.worker)
  }

  ghost predicate QuietRun(s: System, labels: seq<Label>)
    decreases |labels|
  {
    labels == [] || (QuietLabel(s, labels[0]) && QuietRun(Next(s, labels[0]), labels[1..]))
  }

  /** A sweep in progress still has every session of its worker on its list. */
  ghost predicate SweepCovers(m: Manager, t: Thread) {
    t.Crasher? && (t.sweep.Sweeping? || t.sweep.SweepCleanup?) ==>
      forall pid | pid in m.sessions && m.sessions[pid].worker == t.worker :: pid in t.sweep.todo
  }

  ghost predicate Covered(s: System) {
    IndexComplete(s.m) && forall i | 0 <= i < |s.threads| :: SweepCovers(s.m, s.threads[i])
  }

  lemma SweepStepCovers(m: Manager, t: Thread, x: Choice)
    requires Fifo(m) && IndexComplete(m) && t.Crasher? && SweepCovers(m, t)
    ensures var (a, t') := ThreadStep(m, t, x); SweepCovers(Apply(m, a), t')
    ensures t.sweep == Sweeping([]) ==> IndexComplete(Apply(m, Forget(t.worker)))
  {
    SectionSessions(m, ThreadStep(m, t, x).0);
    if t.sweep.Sweeping? {
      var todo := t.sweep.todo;
      if todo != [] {
        assert todo == [todo[0]] + todo[1..];
      } else {
        LastSweepSection(m, t.worker);
      }
    }
  }

  lemma OthersStayCovered(m: Manager, a: Section, other: Thread)
    requires Fifo(m) && SweepCovers(m, other)
    requires a.Enter? ==> !SweepsWorker(other, a.session.worker)
    ensures SweepCovers(Apply(m, a), other)
  {
    SectionSessions(m, a);
  }

  lemma ThreadCovered(s: System, i: nat, x: Choice)
    requires Inv(s) && Covered(s) && i < |s.threads| && QuietLabel(s, Do(i, x))
    ensures Covered(Next(s, Do(i, x)))
  {
    var t := s.threads[i];
    var (a, t') := ThreadStep(s.m, t, x);
    PhaseMatchesSection(s.m, t, x);
    var s' := Next(s, Do(i, x));
    assert IndexComplete(s'.m) by {
      if a.Forget? {
        SweepStepCovers(s.m, t, x);
      } else {
        SectionIndex(s.m, a);
      }
    }
    forall j | 0 <= j < |s'.threads| ensures SweepCovers(s'.m, s'.threads[j]) {
      if j != i {
        OthersStayCovered(s.m, a, s.threads[j]);
      } else if t.Crasher? {
        SweepStepCovers(s.m, t, x);
      }
    }
  }

  lemma {:induction false} QuietExec(s: System, labels: seq<Label>)
    requires Inv(s) && Covered(s) && QuietRun(s, labels)
    ensures Covered(Exec(s, labels))
    decreases |labels|
  {
    if labels != [] {
      NextKeepsInv(s, labels[0]);
      match labels[0] {
        case Do(i, x) =>
          if i < |s.threads| {
            ThreadCovered(s, i, x);
          }
        case _ =>
          SectionSessions(s.m, SectionOf(s, labels[0]));
          IndexSwap(s.m, Next(s, labels[0]).m);
      }
      QuietExec(Next(s, labels[0]), labels[1..]);
    }
  }

  /** With no registration inside a sweep of the same worker, the index also misses no session. */
  lemma QuietIndexIsComplete(threads: seq<Thread>, labels: seq<Label>)
    requires Launch(threads) && QuietRun(Start(threads), labels)
    ensures IndexComplete(Run(threads, labels).m)
  {
    StartInv(threads);
    QuietExec(Start(threads), labels);
  }

  predicate NoSessionOn(m: Manager, worker: int) {
    forall pid | pid in m.sessions :: m.sessions[pid].worker != worker
  }

  /** The last section of a sweep loses index entries exactly when its worker has a session by then. */
  lemma LastSweepSection(m: Manager, worker: int)
    requires IndexComplete(m)
    ensures var m' := Apply(m, CrasherStep(m, worker, Sweeping([])).0);
            IndexComplete(m') <==> NoSessionOn(m, worker)
  {
    var m' := Apply(m, CrasherStep(m, worker, Sweeping([])).0);
    if pid :| pid in m.sessions && m.sessions[pid].worker == worker {
      assert pid !in OnWorker(m'.byWorker, m'.sessions[pid].worker);
    } else {
      forall pid | pid in m'.sessions ensures pid in OnWorker(m'.byWorker, m'.sessions[pid].worker) {
        assert pid in OnWorker(m.byWorker, m.sessions[pid].worker);
      }
    }
  }

  /** Every trailing delete of a sweep meets its worker without sessions. */
  ghost predicate SweepsEndOnEmptyWorkers(s: System, labels: seq<Label>)
    decreases |labels|
  {
    labels == [] ||
    (&& (SectionOf(s, labels[0]).Forget? ==> NoSessionOn(s.m, SectionOf(s, labels[0]).worker))
     && SweepsEndOnEmptyWorkers(Next(s, labels[0]), labels[1..]))
  }

  ghost predicate CompleteThroughout(s: System, labels: seq<Label>)
    decreases |labels|
  {
    IndexComplete(s.m) && (labels == [] || CompleteThroughout(Next(s, labels[0]), labels[1..]))
  }

  lemma StepIndexCompleteIff(s: System, l: Label)
    requires Inv(s) && IndexComplete(s.m)
    ensures var a := SectionOf(s, l);
            IndexComplete(Next(s, l).m) <==> (a.Forget? ==> NoSessionOn(s.m, a.worker))
  {
    var a := SectionOf(s, l);
    if l.Do? && l.thread < |s.threads| {
      PhaseMatchesSection(s.m, s.threads[l.thread], l.choice);
    }
    if a.Forget? {
      LastSweepSection(s.m, a.worker);
    } else {
      SectionIndex(s.m, a);
    }
  }

  lemma {:induction false} ThroughoutIff(s: System, labels: seq<Label>)
    requires Inv(s) && IndexComplete(s.m)
    ensures CompleteThroughout(s, labels) <==> SweepsEndOnEmptyWorkers(s, labels)
    decreases |labels|
  {
    if labels != [] {
      NextKeepsInv(s, labels[0]);
      StepIndexCompleteIff(s, labels[0]);
      if IndexComplete(Next(s, labels[0]).m) {
        ThroughoutIff(Next(s, labels[0]), labels[1..]);
      }
    }
  }

  lemma {:induction false} ThroughoutIsEveryPrefix(s: System, labels: seq<Label>)
    ensures CompleteThroughout(s, labels) <==> forall n | 0 <= n <= |labels| :: IndexComplete(Exec(s, labels[..n]).m)
    decreases |labels|
  {
    assert Exec(s, labels[..0]) == s;
    if labels != [] {
      var next, rest := Next(s, labels[0]), labels[1..];
      ThroughoutIsEveryPrefix(next, rest);
      forall n | 0 < n <= |labels| ensures Exec(s, labels[..n]) == Exec(next, rest[..n - 1]) {
        assert labels[..n][1..] == rest[..n - 1];
      }
      if forall n | 0 <= n <= |labels| :: IndexComplete(Exec(s, labels[..n]).m) {
        forall n | 0 <= n <= |rest| ensures IndexComplete(Exec(next, rest[..n]).m) {
          assert Exec(s, labels[..n + 1]) == Exec(next, rest[..n]);
        }
      }
    }
  }

  /** The index misses no session at any point of a run exactly when its sweeps all end on workers without sessions. */
  lemma IndexIsCompleteIff(threads: seq<Thread>, labels: seq<Label>)
    requires Launch(threads)
    ensures (forall n | 0 <= n <= |labels| :: IndexComplete(Run(threads, labels[..n]).m))
            <==> SweepsEndOnEmptyWorkers(Start(threads), labels)
  {
    StartInv(threads);
    ThroughoutIff(Start(threads), labels);
    ThroughoutIsEveryPrefix(Start(threads), labels);
  }

  /** Such a run exists: a session registered on worker 7 while worker 7 is swept is lost to the index. */
  lemma SweepCanLoseASession() returns (threads: seq<Thread>, labels: seq<Label>)
    ensures Launch(threads) && !IndexComplete(Run(threads, labels).m)
  {
    threads := [Creator(1, Idle), Crasher(7, ToCopy)];
    var go := Choice(true, 7);
    labels := [Do(0, go), Do(0, go), Do(0, go), Do(0, go), Do(1, go), Do(0, go), Do(1, go)];
    var s0 := Start(threads);
    var s1 := Next(s0, labels[0]);
    assert s1.threads == [Creator(1, Begun), threads[1]];
    var s2 := Next(s1, labels[1]);
    assert s2.threads == [Creator(1, SlotWanted), threads[1]];
    var s3 := Next(s2, labels[2]);
    assert s3.threads == [Creator(1, Holding(false)), threads[1]];
    var s4 := Next(s3, labels[3]);
    assert s4.threads == [Creator(1, Placed(7, false)), threads[1]];
    var s5 := Next(s4, labels[4]);
    assert s5.threads == [Creator(1, Placed(7, false)), Crasher(7, Sweeping([]))];
    var s6 := Next(s5, labels[5]);
    assert s6.threads == [Creator(1, Ending(true)), Crasher(7, Sweeping([]))];
    assert s6.m.sessions == map[1 := Session(7, false)];
    var s7 := Next(s6, labels[6]);
    assert 1 in s7.m.sessions && 1 !in OnWorker(s7.m.byWorker, 7);
    ExecFour(s0, labels);
    ExecThree(s4, labels[4..]);
    assert labels[4..][3..] == [];
  }

  lemma ExecThree(s: System, labels: seq<Label>)
    requires |labels| >= 3
    ensures Exec(s, labels) == Exec(Next(Next(Next(s, labels[0]), labels[1]), labels[2]), labels[3..])
  {
    var s1 := Next(s, labels[0]);
    var s2 := Next(s1, labels[1]);
    assert labels[1..][1..] == labels[2..] && labels[2..][1..] == labels[3..];
    assert Exec(s, labels) == Exec(s1, labels[1..]);
    assert Exec(s1, labels[1..]) == Exec(s2, labels[2..]);
  }

  lemma ExecFour(s: System, labels: seq<Label>)
    requires |labels| >= 4
    ensures Exec(s, labels) == Exec(Next(Next(Next(Next(s, labels[0]), labels[1]), labels[2]), labels[3]), labels[4..])
  {
    ExecThree(s, labels);
    assert labels[3..][1..] == labels[4..];
  }

  // ---------------------------------------------------------------------------
  // Drain

  ghost predicate Quiescent(m: Manager) {
    && m.closed && m.active == 0
    && m.sessions == map[] && m.byWorker == map[]
    && m.waiters == [] && m.granted == {} && m.activeSlots == 0
  }

  lemma NobodyActive(threads: seq<Thread>)
    requires ActiveSet(threads) == {}
    ensures HolderSet(threads) == {}
    ensures forall k :: !SomeoneWaits(threads, k)
  {
    forall i | 0 <= i < |threads| ensures !IsActive(threads[i]) {
      assert i !in ActiveSet(threads);
    }
  }

  lemma IndexedWorkerHasSession(m: Manager, w: int)
    requires IndexSound(m) && w in m.byWorker
    ensures m.sessions != map[]
  {
    var pid := m.byWorker[w][0];
    assert pid in m.byWorker[w];
    assert pid in m.sessions;
  }

  lemma EmptyIndex(m: Manager)
    requires IndexSound(m) && m.sessions == map[]
    ensures m.byWorker == map[] && Leaseless(m) == {}
  {
    forall w | w in m.byWorker ensures false {
      IndexedWorkerHasSession(m, w);
    }
    assert m.byWorker.Keys == {};
  }

  lemma ReturnedMeansQuiescent(s: System, i: nat)
    requires Inv(s) && i < |s.threads| && s.threads[i].Drainer? && s.threads[i].drain.Returned?
    ensures Quiescent(s.m)
  {
    assert DrainOk(s.m, s.threads[i].drain);
    assert ActiveSet(s.threads) == {};
    NobodyActive(s.threads);
    assert Tickets(s.m) == {};
    EmptyIndex(s.m);
    assert s.m.granted <= Tickets(s.m);
  }

  lemma {:induction false} ReturnedStays(s: System, labels: seq<Label>, i: nat)
    requires i < |s.threads| && s.threads[i].Drainer? && s.threads[i].drain.Returned?
    ensures i < |Exec(s, labels).threads| && Exec(s, labels).threads[i] == s.threads[i]
    decreases |labels|
  {
    if labels != [] {
      ReturnedStays(Next(s, labels[0]), labels[1..], i);
    }
  }

  /** When a drain returns the manager is empty and idle, and it is in every later state too. */
  lemma DrainLeavesNothing(threads: seq<Thread>, before: seq<Label>, more: seq<Label>, i: nat)
    requires Launch(threads)
    requires var s := Run(threads, before); i < |s.threads| && s.threads[i].Drainer? && s.threads[i].drain.Returned?
    ensures Quiescent(Run(threads, before).m)
    ensures Quiescent(Run(threads, before + more).m)
  {
    RunInv(threads, before);
    ReturnedMeansQuiescent(Run(threads, before), i);
    RunInv(threads, before + more);
    ExecAppend(Start(threads), before, more);
    ReturnedStays(Run(threads, before), more, i);
    ReturnedMeansQuiescent(Run(threads, before + more), i);
  }

  /** No drain ever starts a third round. */
  lemma DrainTakesTwoRounds(threads: seq<Thread>, labels: seq<Label>, i: nat)
    requires Launch(threads)
    requires var s := Run(threads, labels); i < |s.threads| && s.threads[i].Drainer?
    ensures 1 <= Run(threads, labels).threads[i].drain.round <= 2
  {
    RunInv(threads, labels);
    assert DrainOk(Run(threads, labels).m, Run(threads, labels).threads[i].drain);
  }

  // --- The final wait ends ---

  const LONGEST_CREATION := 7

  /** Own steps an operation may still need once the manager is closed and its queue failed. */
  function Remaining(t: Thread): nat {
    match t
    case Creator(_, c) =>
      (match c
       case Idle => 0
       case Begun => 7
       case SlotWanted => 6
       case Waiting(_) => 5
       case Holding(_) => 4
       case LeaseWanted => 4
       case Placed(_, _) => 3
       case LeaseHeld => 3
       case Releasing(_) => 2
       case Ending(_) => 1
       case Finished(_) => 0)
    case _ => One(IsActive(t))
  }

  /** A drain is in its final wait: closed, nothing registered, nobody queued. */
  ghost predicate FinalWait(s: System) {
    Inv(s) && s.m.closed && s.m.sessions == map[] && s.m.waiters == []
  }

  lemma OperationAdvances(m: Manager, t: Thread, x: Choice)
    requires Fifo(m) && m.closed && m.sessions == map[] && m.waiters == []
    requires t.Creator? && t.creation.Waiting? ==> t.creation.ticket in Tickets(m)
    ensures var t' := ThreadStep(m, t, x).1;
            && Remaining(t') <= (if Remaining(t) > 0 then Remaining(t) - 1 else 0)
            && (Remaining(t') == 0 ==> !IsActive(t'))
  {
  }

  lemma FinalWaitStep(s: System, l: Label)
    requires FinalWait(s)
    ensures FinalWait(Next(s, l))
    ensures |Next(s, l).threads| == |s.threads|
    ensures forall k | 0 <= k < |s.threads| ::
              Remaining(Next(s, l).threads[k]) <=
                if l.Do? && l.thread == k && Remaining(s.threads[k]) > 0 then Remaining(s.threads[k]) - 1
                else Remaining(s.threads[k])
  {
    NextKeepsInv(s, l);
    SectionShrinks(s.m, SectionOf(s, l));
    assert Next(s, l).m.sessions.Keys == {};
    assert Next(s, l).m.sessions == map[];
    match l
    case Do(i, x) =>
      if i < |s.threads| {
        var t := s.threads[i];
        if t.Creator? && t.creation.Waiting? {
          assert WaitsOn(t, t.creation.ticket);
          assert SomeoneWaits(s.threads, t.creation.ticket);
        }
        OperationAdvances(s.m, t, x);
      }
    case _ =>
  }

  function StepsOf(labels: seq<Label>, k: nat): nat {
    if labels == [] then 0
    else One(labels[0].Do? && labels[0].thread == k) + StepsOf(labels[1..], k)
  }

  lemma {:induction false} OperationsFinish(s: System, labels: seq<Label>, k: nat)
    requires FinalWait(s) && k < |s.threads|
    ensures FinalWait(Exec(s, labels)) && |Exec(s, labels).threads| == |s.threads|
    ensures Remaining(Exec(s, labels).threads[k]) == 0
         || Remaining(Exec(s, labels).threads[k]) + StepsOf(labels, k) <= Remaining(s.threads[k])
    decreases |labels|
  {
    if labels != [] {
      FinalWaitStep(s, labels[0]);
      OperationsFinish(Next(s, labels[0]), labels[1..], k);
    }
  }

  predicate IsWaitingOut(t: Thread) {
    t.Drainer? && (t.drain.Awaiting? || t.drain.Returned?)
  }

  lemma {:induction false} WaitingOutStays(s: System, labels: seq<Label>, i: nat)
    requires i < |s.threads| && IsWaitingOut(s.threads[i])
    ensures i < |Exec(s, labels).threads| && IsWaitingOut(Exec(s, labels).threads[i])
    decreases |labels|
  {
    if labels != [] {
      WaitingOutStays(Next(s, labels[0]), labels[1..], i);
    }
  }

  /** Any schedule that gives each operation its steps ends them all. */
  lemma OperationsEnd(s: System, more: seq<Label>)
    requires FinalWait(s) && forall k: nat | k < |s.threads| :: StepsOf(more, k) >= LONGEST_CREATION
    ensures Exec(s, more).m.active == 0
  {
    ThreadCount(s, more);
    var s' := Exec(s, more);
    forall k | 0 <= k < |s'.threads| ensures !IsActive(s'.threads[k]) {
      OperationsFinish(s, more, k);
    }
    assert ActiveSet(s'.threads) == {};
    ExecKeepsInv(s, more);
  }

  /** Once a drain waits, any schedule that gives each operation its steps lets it return at its next step. */
  lemma DrainWaitEnds(threads: seq<Thread>, before: seq<Label>, more: seq<Label>, i: nat)
    requires Launch(threads)
    requires var s := Run(threads, before); i < |s.threads| && s.threads[i].Drainer? && s.threads[i].drain.Awaiting?
    requires forall k: nat | k < |threads| :: StepsOf(more, k) >= LONGEST_CREATION
    ensures var s' := Run(threads, before + more);
            && s'.m.active == 0 && i < |s'.threads|
            && forall x :: Next(s', Do(i, x)).threads[i].Drainer? && Next(s', Do(i, x)).threads[i].drain.Returned?
  {
    RunInv(threads, before);
    var s := Run(threads, before);
    assert DrainOk(s.m, s.threads[i].drain);
    ThreadCount(Start(threads), before);
    OperationsEnd(s, more);
    WaitingOutStays(s, more, i);
    ExecAppend(Start(threads), before, more);
  }

  lemma {:induction false} ThreadCount(s: System, labels: seq<Label>)
    ensures |Exec(s, labels).threads| == |s.threads|
    decreases |labels|
  {
    if labels != [] {
      ThreadCount(Next(s, labels[0]), labels[1..]);
    }
  }
}
