/**
 Every interleaving of session creation, destruction, worker-crash cleanup and drain
 (controlplane/session_mgr.go, controlplane/session_lifecycle.go).

 A run starts any number of creations, destructions, crash sweeps and drains and lets each of
 them take one locked section, lifecycle call or foreign call at a time, in any order; the
 connection limit may change and the cluster limiter may be switched at any point.
 */
module SessionRuns {
  import opened Prelude
  import opened SessionManagement

  /** `CreateSessionWithProtocol` / `ReconnectFlightSession`. */
  datatype Creation =
    | Idle
    | Begun                              // counted by the lifecycle
    | LeaseWanted                        // saw a cluster limiter
    | LeaseHeld                          // has a lease, has not re-checked for a drain
    | SlotWanted                         // saw no limiter
    | Waiting(ticket: nat)
    | Holding(leased: bool)              // has a slot or a lease
    | Placed(worker: int, leased: bool)  // has a session on a worker, not registered
    | Releasing(leased: bool)
    | Ending(ok: bool)
    | Finished(ok: bool)

  /** `DestroySession`. */
  datatype Destruction = ToDetach | ToFinish | Gone

  /** `OnWorkerCrash`. */
  datatype Sweep = ToCopy | Sweeping(todo: seq<int>) | SweepCleanup(todo: seq<int>) | Swept

  /** `DestroyAllSessions`. */
  datatype Drain =
    | Closing(round: nat)
    | Collecting(round: nat)
    | Destroying(todo: set<int>, round: nat)
    | DrainCleanup(todo: set<int>, round: nat)
    | Awaiting(round: nat)
    | Returned(round: nat)

  datatype Thread =
    | Creator(pid: int, creation: Creation)
    | Destroyer(pid: int, destruction: Destruction)
    | Crasher(worker: int, sweep: Sweep)
    | Drainer(drain: Drain)

  /** Outcome of a foreign call or of a `select`, and the worker or PID it names. */
  datatype Choice = Choice(ok: bool, pick: int)

  datatype Label = Do(thread: nat, choice: Choice) | SetLimit(n: int) | SetLimiter(on: bool)

  datatype System = System(m: Manager, threads: seq<Thread>)

  /** What one locked section or lifecycle call does to the manager. */
  datatype Section =
    | Look                                    // reads only
    | BeginOperation
    | EndOperation
    | Acquire
    | Wake(ticket: nat)
    | Abandon(ticket: nat)
    | Release
    | Enter(pid: int, session: Session)
    | Remove(pid: int)
    | Forget(worker: int)
    | Shut
    | Fail
    | Resize(n: int)
    | Limit(on: bool)

  function Apply(m: Manager, a: Section): Manager {
    match a
    case Look => m
    case BeginOperation => m.(active := m.active + 1)
    case EndOperation => m.(active := m.active - 1)
    case Acquire => AcquireSlot(m).0
    case Wake(ticket) => Resume(m, ticket)
    case Abandon(ticket) => Resume(RemoveWaiter(m, ticket), ticket)
    case Release => ReleaseSlot(m)
    case Enter(pid, session) => Register(m, pid, session).0
    case Remove(pid) => Detach(m, pid).0
    case Forget(worker) => m.(byWorker := m.byWorker - {worker})
    case Shut => m.(closed := true)
    case Fail => FailWaiters(m)
    case Resize(n) => SetMax(m, n)
    case Limit(on) => m.(limited := on)
  }

  function CreatorStep(m: Manager, pid: int, c: Creation, x: Choice): (Section, Creation) {
    match c
    case Idle => if m.closed then (Look, Finished(false)) else (BeginOperation, Begun)
    case Begun => (Look, if m.closed then Ending(false) else if m.limited then LeaseWanted else SlotWanted)
    case LeaseWanted => (Look, if x.ok then LeaseHeld else Ending(false))
    case LeaseHeld => (Look, if m.closed then Releasing(true) else Holding(true))
    case SlotWanted =>
      (Acquire, match AcquireSlot(m).1
                case Refused => Ending(false)
                case Admitted => Holding(false)
                case Queued(ticket) => Waiting(ticket))
    case Waiting(t) =>
      if t in m.granted then (Wake(t), Holding(false))
      else if !x.ok then (Abandon(t), Ending(false))             // the context is done
      else if t in m.failed then (Wake(t), Ending(false))
      else (Look, c)                                             // still blocked
    case Holding(leased) => (Look, if x.ok then Placed(x.pick, leased) else Releasing(leased))
    case Placed(worker, leased) =>
      (Enter(pid, Session(worker, leased)),
       if Register(m, pid, Session(worker, leased)).1 then Ending(true) else Releasing(leased))
    case Releasing(leased) => (if leased then Look else Release, Ending(false))
    case Ending(ok) => (EndOperation, Finished(ok))
    case Finished(_) => (Look, c)
  }

  function DestroyerStep(m: Manager, pid: int, d: Destruction): (Section, Destruction) {
    match d
    case ToDetach => (Remove(pid), if Detach(m, pid).1 then ToFinish else Gone)
    case ToFinish => (EndOperation, Gone)
    case Gone => (Look, d)
  }

  function CrasherStep(m: Manager, worker: int, w: Sweep): (Section, Sweep) {
    match w
    case ToCopy => (Look, Sweeping(OnWorker(m.byWorker, worker)))
    case Sweeping(todo) =>
      if todo == [] then (Forget(worker), Swept)
      else (Remove(todo[0]), if Detach(m, todo[0]).1 then SweepCleanup(todo[1..]) else Sweeping(todo[1..]))
    case SweepCleanup(todo) => (EndOperation, Sweeping(todo))
    case Swept => (Look, w)
  }

  function DrainerStep(m: Manager, d: Drain, x: Choice): (Section, Drain) {
    match d
    case Closing(round) => (Shut, Collecting(round))
    case Collecting(round) =>
      (Fail, if m.sessions == map[] then Awaiting(round) else Destroying(m.sessions.Keys, round))
    case Destroying(todo, round) =>
      if todo == {} then (Look, Closing(round + 1))
      else if x.pick !in todo then (Look, d)
      else (Remove(x.pick), if Detach(m, x.pick).1 then DrainCleanup(todo - {x.pick}, round)
                            else Destroying(todo - {x.pick}, round))
    case DrainCleanup(todo, round) => (EndOperation, Destroying(todo, round))
    case Awaiting(round) => (Shut, if m.active > 0 then d else Returned(round))
    case Returned(_) => (Look, d)
  }

  function ThreadStep(m: Manager, t: Thread, x: Choice): (Section, Thread) {
    match t
    case Creator(pid, c) => var (a, c') := CreatorStep(m, pid, c, x); (a, Creator(pid, c'))
    case Destroyer(pid, d) => var (a, d') := DestroyerStep(m, pid, d); (a, Destroyer(pid, d'))
    case Crasher(worker, w) => var (a, w') := CrasherStep(m, worker, w); (a, Crasher(worker, w'))
    case Drainer(d) => var (a, d') := DrainerStep(m, d, x); (a, Drainer(d'))
  }

  function Next(s: System, l: Label): System {
    match l
    case Do(i, x) =>
      if i < |s.threads| then
        var (a, t') := ThreadStep(s.m, s.threads[i], x);
        System(Apply(s.m, a), s.threads[i := t'])
      else s
    case SetLimit(n) => s.(m := Apply(s.m, Resize(n)))
    case SetLimiter(on) => s.(m := Apply(s.m, Limit(on)))
  }

  function Exec(s: System, labels: seq<Label>): System
    decreases |labels|
  {
    if labels == [] then s else Exec(Next(s, labels[0]), labels[1..])
  }

  predicate NotStarted(t: Thread) {
    match t
    case Creator(_, c) => c.Idle?
    case Destroyer(_, d) => d.ToDetach?
    case Crasher(_, w) => w.ToCopy?
    case Drainer(d) => d == Closing(1)
  }

  /** PIDs come from one counter, so no two creations share one. */
  ghost predicate DistinctPids(threads: seq<Thread>) {
    forall i, j | 0 <= i < j < |threads| && threads[i].Creator? && threads[j].Creator? ::
      threads[i].pid != threads[j].pid
  }

  ghost predicate Launch(threads: seq<Thread>) {
    && DistinctPids(threads)
    && forall i | 0 <= i < |threads| :: NotStarted(threads[i])
  }

  function Start(threads: seq<Thread>): System {
    System(EMPTY_MANAGER, threads)
  }

  // ---------------------------------------------------------------------------
  // Counting

  /** An operation `closeAndWait` waits for. */
  predicate IsActive(t: Thread) {
    match t
    case Creator(_, c) => !c.Idle? && !c.Finished?
    case Destroyer(_, d) => d.ToFinish?
    case Crasher(_, w) => w.SweepCleanup?
    case Drainer(d) => d.DrainCleanup?
  }

  /** An in-flight creation that owns a local slot and knows it. */
  predicate HoldsSlot(t: Thread) {
    && t.Creator?
    && match t.creation
       case Holding(leased) => !leased
       case Placed(_, leased) => !leased
       case Releasing(leased) => !leased
       case _ => false
  }

  predicate WaitsOn(t: Thread, ticket: nat) {
    t.Creator? && t.creation == Waiting(ticket)
  }

  function ActiveSet(threads: seq<Thread>): set<int> {
    set i | 0 <= i < |threads| && IsActive(threads[i])
  }

  function HolderSet(threads: seq<Thread>): set<int> {
    set i | 0 <= i < |threads| && HoldsSlot(threads[i])
  }

  function Leaseless(m: Manager): set<int> {
    set pid | pid in m.sessions && !m.sessions[pid].leased
  }

  function One(b: bool): int {
    if b then 1 else 0
  }

  lemma SameButOne(a: set<int>, b: set<int>, i: int)
    requires a - {i} == b - {i}
    ensures |a| - One(i in a) == |b| - One(i in b)
  {
    assert |a - {i}| == |a| - One(i in a);
    assert |b - {i}| == |b| - One(i in b);
  }

  lemma CountUpdate(threads: seq<Thread>, i: nat, t: Thread)
    requires i < |threads|
    ensures |ActiveSet(threads[i := t])| == |ActiveSet(threads)| + One(IsActive(t)) - One(IsActive(threads[i]))
    ensures |HolderSet(threads[i := t])| == |HolderSet(threads)| + One(HoldsSlot(t)) - One(HoldsSlot(threads[i]))
  {
    var threads' := threads[i := t];
    assert ActiveSet(threads') - {i} == ActiveSet(threads) - {i};
    SameButOne(ActiveSet(threads'), ActiveSet(threads), i);
    assert HolderSet(threads') - {i} == HolderSet(threads) - {i};
    SameButOne(HolderSet(threads'), HolderSet(threads), i);
  }

  /** Slots not owned by a registered session nor by a waiter that has yet to wake up. */
  function Slack(m: Manager): int {
    m.activeSlots - |Leaseless(m)| - |m.granted|
  }

  // ---------------------------------------------------------------------------
  // What each section keeps

  lemma IndexSwap(m: Manager, m': Manager)
    requires m'.sessions == m.sessions && m'.byWorker == m.byWorker
    ensures IndexSound(m) ==> IndexSound(m')
    ensures IndexComplete(m) ==> IndexComplete(m')
    ensures Leaseless(m') == Leaseless(m)
  {
  }

  /** The sections that end by granting waiters, before they do. */
  predicate Granting(a: Section) {
    a.Release? || a.Remove? || a.Resize?
  }

  function BeforeGrant(m: Manager, a: Section): Manager
    requires Granting(a)
  {
    match a
    case Release => if m.activeSlots > 0 then m.(activeSlots := m.activeSlots - 1) else m
    case Remove(pid) => if pid in m.sessions then Unlink(m, pid) else m
    case Resize(n) => m.(maxConnections := n)
  }

  lemma GrantingApply(m: Manager, a: Section)
    requires Granting(a) && !(a.Remove? && a.pid !in m.sessions)
    ensures var granted := Grant(BeforeGrant(m, a));
            Apply(m, a) == granted.(active := granted.active + One(a.Remove?))
  {
    match a
    case Release =>
    case Remove(_) =>
    case Resize(_) =>
  }

  /** A granting section runs the grant loop and, for a removal, counts the cleanup. */
  lemma GrantingSection(m: Manager, a: Section)
    requires Fifo(m) && Granting(a) && !(a.Remove? && a.pid !in m.sessions)
    ensures var u, m' := BeforeGrant(m, a), Apply(m, a);
            && Fifo(u) && Fifo(m') && WorkConserving(m')
            && Grants(u, Grant(u))
            && m' == Grant(u).(active := m.active + One(a.Remove?))
            && (m.closed ==> Grant(u) == u)
  {
    GrantingApply(m, a);
    GrantFacts(BeforeGrant(m, a));
  }

  ghost predicate QueueOk(m: Manager) {
    Fifo(m) && WorkConserving(m)
  }

  lemma EnqueueKeepsFifo(m: Manager)
    requires Fifo(m)
    ensures Fifo(m.(waiters := m.waiters + [m.nextTicket], nextTicket := m.nextTicket + 1))
  {
    var waiters := m.waiters + [m.nextTicket];
    forall i, j | 0 <= i < j < |waiters| ensures waiters[i] < waiters[j] {
      assert waiters[i] in m.waiters;
    }
  }

  lemma SectionQueue(m: Manager, a: Section)
    requires QueueOk(m)
    ensures QueueOk(Apply(m, a))
  {
    if a.Acquire? {
      EnqueueKeepsFifo(m);
    } else if a.Abandon? {
      WithoutIncreasing(m.waiters, a.ticket);
    } else if Granting(a) && !(a.Remove? && a.pid !in m.sessions) {
      GrantingSection(m, a);
    }
  }

  function SlackDelta(m: Manager, a: Section): int {
    match a
    case Acquire => One(AcquireSlot(m).1.Admitted?)
    case Wake(ticket) => One(ticket in m.granted)
    case Abandon(ticket) => One(ticket in m.granted)
    case Release => -1
    case Enter(_, session) => -One(!m.closed && !session.leased)
    case _ => 0
  }

  lemma EnterSlack(m: Manager, pid: int, session: Session)
    requires pid !in m.sessions && !m.closed
    ensures Slack(Register(m, pid, session).0) == Slack(m) - One(!session.leased)
  {
    var sessions := m.sessions[pid := session];
    var before, after := Leaseless(m), set p | p in sessions && !sessions[p].leased;
    assert pid !in before;
    assert after == if session.leased then before else before + {pid};
    assert Leaseless(Register(m, pid, session).0) == after;
  }

  lemma UnlinkSlack(m: Manager, pid: int)
    requires pid in m.sessions && Slack(m) >= 0
    ensures Slack(Unlink(m, pid)) == Slack(m)
  {
    var u := Unlink(m, pid);
    if m.sessions[pid].leased {
      assert Leaseless(u) == Leaseless(m);
    } else {
      assert Leaseless(u) == Leaseless(m) - {pid};
      assert pid in Leaseless(m);
    }
  }

  lemma GrantingSlack(m: Manager, a: Section)
    requires Fifo(m) && Granting(a) && !(a.Remove? && a.pid !in m.sessions)
    requires Slack(m) >= 0 && (a.Release? ==> m.activeSlots > 0)
    ensures Slack(Apply(m, a)) == Slack(m) + SlackDelta(m, a)
  {
    GrantingSection(m, a);
    var u := BeforeGrant(m, a);
    assert Slack(u) == Slack(m) - One(a.Release?) by {
      if a.Remove? {
        UnlinkSlack(m, a.pid);
      } else {
        IndexSwap(m, u);
      }
    }
    IndexSwap(u, Apply(m, a));
  }

  lemma ResumeSlack(m: Manager, ticket: nat)
    ensures Slack(Resume(m, ticket)) == Slack(m) + One(ticket in m.granted)
  {
    var m' := Resume(m, ticket);
    assert Leaseless(m') == Leaseless(m);
    assert m'.granted == m.granted - {ticket};
  }

  /** A section that neither grants nor registers leaves the sessions alone. */
  lemma OtherSlack(m: Manager, a: Section)
    requires !Granting(a) && !a.Enter?
    ensures Slack(Apply(m, a)) == Slack(m) + SlackDelta(m, a)
  {
    if a.Wake? {
      ResumeSlack(m, a.ticket);
    } else if a.Abandon? {
      var m' := RemoveWaiter(m, a.ticket);
      ResumeSlack(m', a.ticket);
      assert Leaseless(m') == Leaseless(m);
    } else {
      var m' := Apply(m, a);
      assert m'.sessions == m.sessions && m'.granted == m.granted;
      assert Leaseless(m') == Leaseless(m);
    }
  }

  lemma SectionSlack(m: Manager, a: Section)
    requires Fifo(m) && Slack(m) >= 0
    requires a.Release? ==> m.activeSlots > 0
    requires a.Enter? ==> a.pid !in m.sessions
    ensures Slack(Apply(m, a)) == Slack(m) + SlackDelta(m, a)
  {
    if Granting(a) {
      if !(a.Remove? && a.pid !in m.sessions) {
        GrantingSlack(m, a);
      }
    } else if a.Enter? {
      if !m.closed {
        EnterSlack(m, a.pid, a.session);
      }
    } else {
      OtherSlack(m, a);
    }
  }

  lemma SectionActive(m: Manager, a: Section)
    requires Fifo(m)
    ensures Apply(m, a).active == m.active + (match a
                                              case BeginOperation => 1
                                              case EndOperation => -1
                                              case Remove(pid) => One(pid in m.sessions)
                                              case _ => 0)
  {
    if Granting(a) && !(a.Remove? && a.pid !in m.sessions) {
      GrantingSection(m, a);
    }
  }

  /** Only a registration adds a session and only a removal drops one. */
  lemma SectionSessions(m: Manager, a: Section)
    requires Fifo(m)
    ensures Apply(m, a).sessions ==
              (match a
               case Enter(pid, session) => if m.closed then m.sessions else m.sessions[pid := session]
               case Remove(pid) => m.sessions - {pid}
               case _ => m.sessions)
    ensures !a.Enter? && !a.Remove? && !a.Forget? ==> Apply(m, a).byWorker == m.byWorker
  {
    if a.Remove? && a.pid !in m.sessions {
      assert m.sessions - {a.pid} == m.sessions;
    } else if Granting(a) {
      GrantingSection(m, a);
      assert Apply(m, a).sessions == BeforeGrant(m, a).sessions;
    }
  }

  /** Every section keeps the index sound; only forgetting a worker can cost it completeness. */
  lemma SectionIndex(m: Manager, a: Section)
    requires Fifo(m) && IndexSound(m)
    requires a.Enter? ==> a.pid !in m.sessions
    ensures IndexSound(Apply(m, a))
    ensures IndexComplete(m) && !a.Forget? ==> IndexComplete(Apply(m, a))
  {
    if a.Enter? {
      RegisterKeepsIndex(m, a.pid, a.session);
    } else if a.Remove? {
      if a.pid in m.sessions {
        UnlinkKeepsIndex(m, a.pid);
        GrantingSection(m, a);
        IndexSwap(Unlink(m, a.pid), Apply(m, a));
      }
    } else if !a.Forget? {
      SectionSessions(m, a);
      IndexSwap(m, Apply(m, a));
    }
  }

  /** Once closed, a manager gains no session and no waiter. */
  ghost predicate OnlyShrinks(m: Manager, m': Manager) {
    m.closed ==> m'.closed && m'.sessions.Keys <= m.sessions.Keys && (m.waiters == [] ==> m'.waiters == [])
  }

  lemma SectionShrinks(m: Manager, a: Section)
    requires Fifo(m)
    ensures OnlyShrinks(m, Apply(m, a))
  {
    SectionSessions(m, a);
    if Granting(a) && !(a.Remove? && a.pid !in m.sessions) {
      GrantingSection(m, a);
    }
  }

  function Tickets(m: Manager): set<nat> {
    Elements(m.waiters) + m.granted + m.failed
  }

  lemma IncreasingDistinct(s: seq<nat>)
    requires Increasing(s)
    ensures Distinct(s)
  {
  }

  lemma TicketsInRange(m: Manager)
    requires Fifo(m)
    ensures forall k | k in Tickets(m) :: k < m.nextTicket
  {
  }

  lemma AbandonTickets(m: Manager, ticket: nat)
    requires Fifo(m)
    ensures Tickets(Apply(m, Abandon(ticket))) == Tickets(m) - {ticket}
  {
    IncreasingDistinct(m.waiters);
    WithoutFacts(m.waiters, ticket);
  }

  lemma WakeTickets(m: Manager, ticket: nat)
    requires Fifo(m) && (ticket in m.granted || ticket in m.failed)
    ensures Tickets(Apply(m, Wake(ticket))) == Tickets(m) - {ticket}
  {
    if ticket in m.waiters {
      QueuedNotGranted(m, ticket);
      assert false;
    }
  }

  lemma AcquireTickets(m: Manager)
    ensures Tickets(Apply(m, Acquire)) == Tickets(m) + (if AcquireSlot(m).1.Queued? then {m.nextTicket} else {})
  {
    assert Elements(m.waiters + [m.nextTicket]) == Elements(m.waiters) + {m.nextTicket};
  }

  lemma GrantTickets(u: Manager)
    requires Fifo(u)
    ensures Tickets(Grant(u)) == Tickets(u)
  {
    GrantFacts(u);
    var w, w' := Elements(u.waiters), Elements(Grant(u).waiters);
    assert w + u.granted == w' + Grant(u).granted && Grant(u).failed == u.failed;
  }

  lemma GrantingTickets(m: Manager, a: Section)
    requires Fifo(m) && Granting(a) && !(a.Remove? && a.pid !in m.sessions)
    ensures Tickets(Apply(m, a)) == Tickets(m)
  {
    GrantTickets(BeforeGrant(m, a));
  }

  lemma SectionTickets(m: Manager, a: Section)
    requires Fifo(m) && !a.Acquire? && !a.Wake? && !a.Abandon?
    ensures Tickets(Apply(m, a)) == Tickets(m)
  {
    if Granting(a) && !(a.Remove? && a.pid !in m.sessions) {
      GrantingTickets(m, a);
    }
  }

  // ---------------------------------------------------------------------------
  // Tickets and the creations that wait on them

  ghost predicate SomeoneWaits(threads: seq<Thread>, ticket: nat) {
    exists i :: 0 <= i < |threads| && WaitsOn(threads[i], ticket)
  }

  /** Each live ticket belongs to exactly one waiting creation. */
  ghost predicate Linked(s: System) {
    && (forall k :: k in Tickets(s.m) <==> SomeoneWaits(s.threads, k))
    && (forall i, j, k | 0 <= i < |s.threads| && 0 <= j < |s.threads|
                         && WaitsOn(s.threads[i], k) && WaitsOn(s.threads[j], k) ::
          i == j)
  }

  lemma LinkedWake(s: System, i: nat, m': Manager, t': Thread, ticket: nat)
    requires Linked(s) && i < |s.threads| && WaitsOn(s.threads[i], ticket)
    requires Tickets(m') == Tickets(s.m) - {ticket} && !(t'.Creator? && t'.creation.Waiting?)
    ensures Linked(System(m', s.threads[i := t']))
  {
    var threads' := s.threads[i := t'];
    forall k ensures k in Tickets(m') <==> SomeoneWaits(threads', k) {
      if k in Tickets(m') {
        assert SomeoneWaits(s.threads, k);
        var j :| 0 <= j < |s.threads| && WaitsOn(s.threads[j], k);
        assert WaitsOn(threads'[j], k);
      }
      if SomeoneWaits(threads', k) {
        var j :| 0 <= j < |threads'| && WaitsOn(threads'[j], k);
        assert WaitsOn(s.threads[j], k) && j != i;
        assert SomeoneWaits(s.threads, k);
      }
    }
    assert forall j | 0 <= j < |threads'| && j != i :: threads'[j] == s.threads[j];
  }

  lemma LinkedSame(s: System, i: nat, m': Manager, t': Thread)
    requires Linked(s) && i < |s.threads|
    requires Tickets(m') == Tickets(s.m)
    requires forall k :: WaitsOn(t', k) <==> WaitsOn(s.threads[i], k)
    ensures Linked(System(m', s.threads[i := t']))
  {
    var threads' := s.threads[i := t'];
    forall k ensures SomeoneWaits(threads', k) <==> SomeoneWaits(s.threads, k) {
      if SomeoneWaits(s.threads, k) {
        var j :| 0 <= j < |s.threads| && WaitsOn(s.threads[j], k);
        assert WaitsOn(threads'[j], k);
      }
      if SomeoneWaits(threads', k) {
        var j :| 0 <= j < |threads'| && WaitsOn(threads'[j], k);
        assert WaitsOn(s.threads[j], k);
      }
    }
    forall p, q, k | 0 <= p < |threads'| && 0 <= q < |threads'| && WaitsOn(threads'[p], k) && WaitsOn(threads'[q], k)
      ensures p == q
    {
      assert WaitsOn(s.threads[p], k) && WaitsOn(s.threads[q], k);
    }
  }

  lemma LinkedJoin(s: System, i: nat, m': Manager, t': Thread, ticket: nat)
    requires Linked(s) && i < |s.threads| && !(s.threads[i].Creator? && s.threads[i].creation.Waiting?)
    requires ticket !in Tickets(s.m) && Tickets(m') == Tickets(s.m) + {ticket}
    requires WaitsOn(t', ticket)
    ensures Linked(System(m', s.threads[i := t']))
  {
    var threads' := s.threads[i := t'];
    forall k ensures k in Tickets(m') <==> SomeoneWaits(threads', k) {
      if k == ticket {
        assert WaitsOn(threads'[i], k);
      } else if k in Tickets(m') {
        assert SomeoneWaits(s.threads, k);
        var j :| 0 <= j < |s.threads| && WaitsOn(s.threads[j], k);
        assert WaitsOn(threads'[j], k);
      }
    }
    forall p, q, k | 0 <= p < |threads'| && 0 <= q < |threads'| && WaitsOn(threads'[p], k) && WaitsOn(threads'[q], k)
      ensures p == q
    {
      if k == ticket {
        assert p != i ==> SomeoneWaits(s.threads, k);
        assert q != i ==> SomeoneWaits(s.threads, k);
      } else {
        assert p != i && q != i;
        assert WaitsOn(s.threads[p], k) && WaitsOn(s.threads[q], k);
      }
    }
  }

  lemma ThreadLinked(s: System, i: nat, x: Choice)
    requires Linked(s) && Fifo(s.m) && i < |s.threads|
    ensures Linked(Next(s, Do(i, x)))
  {
    var t := s.threads[i];
    var (a, t') := ThreadStep(s.m, t, x);
    var m' := Apply(s.m, a);
    if a.Wake? {
      WakeTickets(s.m, a.ticket);
      LinkedWake(s, i, m', t', a.ticket);
    } else if a.Abandon? {
      AbandonTickets(s.m, a.ticket);
      LinkedWake(s, i, m', t', a.ticket);
    } else if a.Acquire? && AcquireSlot(s.m).1.Queued? {
      AcquireTickets(s.m);
      TicketsInRange(s.m);
      LinkedJoin(s, i, m', t', s.m.nextTicket);
    } else {
      if a.Acquire? {
        AcquireTickets(s.m);
      } else {
        SectionTickets(s.m, a);
      }
      LinkedSame(s, i, m', t');
    }
  }

  // ---------------------------------------------------------------------------
  // The invariant

  predicate Registered(t: Thread) {
    t.Creator? && (t.creation == Ending(true) || t.creation == Finished(true))
  }

  ghost predicate Counted(s: System) {
    Slack(s.m) == |HolderSet(s.threads)| && s.m.active == |ActiveSet(s.threads)|
  }

  ghost predicate FreshPids(s: System) {
    && DistinctPids(s.threads)
    && forall i | 0 <= i < |s.threads| && s.threads[i].Creator? && !Registered(s.threads[i]) ::
         s.threads[i].pid !in s.m.sessions
  }

  /** How far a drain in phase `d` has emptied the manager, and in which round it can be. */
  ghost predicate DrainOk(m: Manager, d: Drain) {
    match d
    case Closing(round) => 1 <= round <= 2 && (round == 2 ==> m.closed && m.sessions == map[])
    case Collecting(round) => 1 <= round <= 2 && m.closed && (round == 2 ==> m.sessions == map[])
    case Destroying(todo, round) => round == 1 && m.closed && m.waiters == [] && m.sessions.Keys <= todo
    case DrainCleanup(todo, round) => round == 1 && m.closed && m.waiters == [] && m.sessions.Keys <= todo
    case Awaiting(round) => 1 <= round <= 2 && m.closed && m.waiters == [] && m.sessions == map[]
    case Returned(round) => 1 <= round <= 2 && m.closed && m.waiters == [] && m.sessions == map[] && m.active == 0
  }

  ghost predicate Draining(s: System) {
    forall i | 0 <= i < |s.threads| && s.threads[i].Drainer? :: DrainOk(s.m, s.threads[i].drain)
  }

  ghost predicate Inv(s: System) {
    && Counted(s)
    && QueueOk(s.m)
    && IndexSound(s.m)
    && FreshPids(s)
    && Linked(s)
    && Draining(s)
  }

  lemma StartInv(threads: seq<Thread>)
    requires Launch(threads)
    ensures Inv(Start(threads))
  {
    var s := Start(threads);
    assert ActiveSet(threads) == {} && HolderSet(threads) == {} && Leaseless(s.m) == {};
    assert Tickets(s.m) == {};
    assert Linked(s);
  }

  lemma HolderIsCounted(threads: seq<Thread>, i: nat)
    requires i < |threads|
    ensures |HolderSet(threads)| >= One(HoldsSlot(threads[i]))
    ensures |ActiveSet(threads)| >= One(IsActive(threads[i]))
  {
    if HoldsSlot(threads[i]) {
      assert i in HolderSet(threads);
    }
    if IsActive(threads[i]) {
      assert i in ActiveSet(threads);
    }
  }

  /** The counters move as the thread's phase says. */
  lemma PhaseMatchesSection(m: Manager, t: Thread, x: Choice)
    requires Fifo(m)
    ensures var (a, t') := ThreadStep(m, t, x);
            && SlackDelta(m, a) == One(HoldsSlot(t')) - One(HoldsSlot(t))
            && Apply(m, a).active == m.active + One(IsActive(t')) - One(IsActive(t))
            && (a.Release? ==> HoldsSlot(t))
            && (a.Enter? ==>
                  t.Creator? && t.creation.Placed? && a.pid == t.pid && a.session.worker == t.creation.worker)
            && (t'.Creator? == t.Creator? && (t.Creator? ==> t'.pid == t.pid))
            && (Registered(t) ==> Registered(t'))
            && (a.Enter? && !m.closed ==> Registered(t'))
            && (a.Forget? ==> t == Crasher(a.worker, Sweeping([])))
            && !a.Resize? && !a.Limit?
  {
    SectionActive(m, ThreadStep(m, t, x).0);
  }

  lemma ThreadCounted(s: System, i: nat, x: Choice)
    requires Counted(s) && Fifo(s.m) && FreshPids(s) && i < |s.threads|
    ensures Counted(Next(s, Do(i, x)))
  {
    var (a, t') := ThreadStep(s.m, s.threads[i], x);
    HolderIsCounted(s.threads, i);
    CountUpdate(s.threads, i, t');
    PhaseMatchesSection(s.m, s.threads[i], x);
    SectionSlack(s.m, a);
  }

  lemma ThreadFresh(s: System, i: nat, x: Choice)
    requires FreshPids(s) && Fifo(s.m) && i < |s.threads|
    ensures FreshPids(Next(s, Do(i, x)))
  {
    PhaseMatchesSection(s.m, s.threads[i], x);
    SectionSessions(s.m, ThreadStep(s.m, s.threads[i], x).0);
  }

  /** With no operation left, nothing restarts once closed and empty. */
  lemma NothingRestarts(m: Manager, t: Thread, x: Choice)
    requires Fifo(m) && m.closed && m.sessions == map[] && m.active == 0 && !IsActive(t)
    ensures Apply(m, ThreadStep(m, t, x).0).active == 0
  {
    SectionActive(m, ThreadStep(m, t, x).0);
  }

  /** A drain's own step. */
  lemma DrainAdvances(m: Manager, d: Drain, x: Choice)
    requires DrainOk(m, d) && Fifo(m) && m.active >= 0
    ensures var (a, d') := DrainerStep(m, d, x); DrainOk(Apply(m, a), d')
  {
    var a := DrainerStep(m, d, x).0;
    SectionShrinks(m, a);
    SectionSessions(m, a);
  }

  /** A drain seen from any other thread's step. */
  lemma DrainUndisturbed(m: Manager, t: Thread, x: Choice, d: Drain)
    requires DrainOk(m, d) && Fifo(m)
    requires m.active == 0 ==> !IsActive(t)
    ensures DrainOk(Apply(m, ThreadStep(m, t, x).0), d)
  {
    var m' := Apply(m, ThreadStep(m, t, x).0);
    SectionShrinks(m, ThreadStep(m, t, x).0);
    if m.closed && m.sessions == map[] {
      assert m'.sessions.Keys == {};
      assert m'.sessions == map[];
    }
    if d.Returned? {
      NothingRestarts(m, t, x);
    }
  }

  lemma ThreadDraining(s: System, i: nat, x: Choice)
    requires Draining(s) && Counted(s) && Fifo(s.m) && i < |s.threads|
    ensures Draining(Next(s, Do(i, x)))
  {
    var s' := Next(s, Do(i, x));
    HolderIsCounted(s.threads, i);
    forall j | 0 <= j < |s'.threads| && s'.threads[j].Drainer? ensures DrainOk(s'.m, s'.threads[j].drain) {
      if j == i {
        assert s.threads[i].Drainer?;
        DrainAdvances(s.m, s.threads[i].drain, x);
      } else {
        DrainUndisturbed(s.m, s.threads[i], x, s.threads[j].drain);
      }
    }
  }

  lemma ThreadKeepsInv(s: System, i: nat, x: Choice)
    requires Inv(s) && i < |s.threads|
    ensures Inv(Next(s, Do(i, x)))
  {
    ThreadCounted(s, i, x);
    ThreadFresh(s, i, x);
    ThreadLinked(s, i, x);
    ThreadDraining(s, i, x);
    var a := ThreadStep(s.m, s.threads[i], x).0;
    PhaseMatchesSection(s.m, s.threads[i], x);
    SectionQueue(s.m, a);
    SectionIndex(s.m, a);
  }

  /** A change of limit or limiter moves tickets and slots, nothing else. */
  lemma LimitKeepsInv(s: System, a: Section)
    requires Inv(s) && (a.Resize? || a.Limit?)
    ensures Inv(s.(m := Apply(s.m, a)))
  {
    SectionSlack(s.m, a);
    SectionActive(s.m, a);
    SectionTickets(s.m, a);
    SectionQueue(s.m, a);
    SectionIndex(s.m, a);
    SectionSessions(s.m, a);
    LinkedSwap(s, Apply(s.m, a));
    DrainingSwap(s, a);
  }

  lemma LinkedSwap(s: System, m': Manager)
    requires Linked(s) && Tickets(m') == Tickets(s.m)
    ensures Linked(s.(m := m'))
  {
  }

  lemma DrainingSwap(s: System, a: Section)
    requires Draining(s) && Fifo(s.m) && (a.Resize? || a.Limit?)
    ensures Draining(s.(m := Apply(s.m, a)))
  {
    SectionShrinks(s.m, a);
    SectionSessions(s.m, a);
    SectionActive(s.m, a);
  }

  lemma NextKeepsInv(s: System, l: Label)
    requires Inv(s)
    ensures Inv(Next(s, l))
  {
    match l
    case Do(i, x) =>
      if i < |s.threads| {
        ThreadKeepsInv(s, i, x);
      }
    case SetLimit(n) => LimitKeepsInv(s, Resize(n));
    case SetLimiter(on) => LimitKeepsInv(s, Limit(on));
  }

  lemma {:induction false} ExecKeepsInv(s: System, labels: seq<Label>)
    requires Inv(s)
    ensures Inv(Exec(s, labels))
    decreases |labels|
  {
    if labels != [] {
      NextKeepsInv(s, labels[0]);
      ExecKeepsInv(Next(s, labels[0]), labels[1..]);
    }
  }
}
