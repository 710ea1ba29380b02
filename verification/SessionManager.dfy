/**
 Connection slots, session index and lifecycle counter of one org's session manager
 (controlplane/session_mgr.go, controlplane/session_lifecycle.go).

 Each function is one section under `sm.mu`.  Such a section asks `lifecycle.isClosed` once, so it
 acts as if it ran at that question, although `close` does not take the manager lock.
 A waiter is named by the ticket it got when it joined the queue.
 */
module SessionManagement {
  import opened Prelude

  datatype Session = Session(worker: int, leased: bool)

  datatype Manager = Manager(
    closed: bool,                    // lifecycle.closed
    active: int,                     // lifecycle.active
    sessions: map<int, Session>,     // PID -> session
    byWorker: map<int, seq<int>>,    // worker -> PIDs
    maxConnections: int,
    activeSlots: int,
    waiters: seq<nat>,               // queued tickets, oldest first
    granted: set<nat>,               // tickets handed a slot whose owner has not resumed
    failed: set<nat>,                // tickets failed by a drain whose owner has not resumed
    nextTicket: nat,
    limited: bool)                   // a cluster-wide limiter replaces the local one

  const EMPTY_MANAGER := Manager(false, 0, map[], map[], 0, 0, [], {}, {}, 0, false)

  predicate Free(m: Manager) {
    m.maxConnections <= 0 || m.activeSlots < m.maxConnections
  }

  // ---------------------------------------------------------------------------
  // The waiter queue

  function GrantOne(m: Manager): Manager
    requires m.waiters != []
  {
    m.(waiters := m.waiters[1..], activeSlots := m.activeSlots + 1, granted := m.granted + {m.waiters[0]})
  }

  function GrantLoop(m: Manager): Manager
    decreases |m.waiters|
  {
    if m.waiters != [] && Free(m) then GrantLoop(GrantOne(m)) else m
  }

  function Grant(m: Manager): Manager {
    if m.closed then m else GrantLoop(m)
  }

  function FailWaiters(m: Manager): Manager {
    m.(waiters := [], failed := m.failed + Elements(m.waiters))
  }

  function Without<T(==)>(s: seq<T>, x: T): seq<T> {
    if s == [] then [] else if s[0] == x then s[1..] else [s[0]] + Without(s[1..], x)
  }

  function RemoveWaiter(m: Manager, ticket: nat): Manager {
    m.(waiters := Without(m.waiters, ticket))
  }

  datatype Admission = Refused | Admitted | Queued(ticket: nat)

  /** Second locked section of `acquireConnectionSlot`, local mode. */
  function AcquireSlot(m: Manager): (Manager, Admission) {
    if m.closed then (m, Refused)
    else if Free(m) then (m.(activeSlots := m.activeSlots + 1), Admitted)
    else (m.(waiters := m.waiters + [m.nextTicket], nextTicket := m.nextTicket + 1), Queued(m.nextTicket))
  }

  function ReleaseSlot(m: Manager): Manager {
    Grant(if m.activeSlots > 0 then m.(activeSlots := m.activeSlots - 1) else m)
  }

  function SetMax(m: Manager, n: int): Manager {
    Grant(m.(maxConnections := n))
  }

  /** The owner of `ticket` wakes up: the waiter object is dropped. */
  function Resume(m: Manager, ticket: nat): Manager {
    m.(granted := m.granted - {ticket}, failed := m.failed - {ticket})
  }

  // ---------------------------------------------------------------------------
  // Sessions and their index by worker

  function OnWorker(byWorker: map<int, seq<int>>, worker: int): seq<int> {
    if worker in byWorker then byWorker[worker] else []
  }

  function RemoveFromWorker(byWorker: map<int, seq<int>>, worker: int, pid: int): map<int, seq<int>> {
    var pids := Without(OnWorker(byWorker, worker), pid);
    if pids == [] then byWorker - {worker} else byWorker[worker := pids]
  }

  function Register(m: Manager, pid: int, session: Session): (Manager, bool) {
    if m.closed then (m, false)
    else (m.(sessions := m.sessions[pid := session],
             byWorker := m.byWorker[session.worker := OnWorker(m.byWorker, session.worker) + [pid]]), true)
  }

  function Unlink(m: Manager, pid: int): Manager
    requires pid in m.sessions
  {
    var session := m.sessions[pid];
    m.(sessions := m.sessions - {pid},
       byWorker := RemoveFromWorker(m.byWorker, session.worker, pid),
       activeSlots := if !session.leased && m.activeSlots > 0 then m.activeSlots - 1 else m.activeSlots)
  }

  /** `detachSessionLocked`, then `beginCleanup` when a session was found. */
  function Detach(m: Manager, pid: int): (Manager, bool) {
    if pid !in m.sessions then (m, false)
    else var granted := Grant(Unlink(m, pid)); (granted.(active := granted.active + 1), true)
  }

  // ---------------------------------------------------------------------------
  // What the queue operations keep

  ghost predicate Increasing(s: seq<nat>) {
    forall i, j | 0 <= i < j < |s| :: s[i] < s[j]
  }

  /** Tickets are queued in arrival order, and granted ones are older than queued ones. */
  ghost predicate InOrder(waiters: seq<nat>, granted: set<nat>, failed: set<nat>, nextTicket: nat) {
    && Increasing(waiters)
    && (forall t | t in waiters :: t < nextTicket)
    && (forall t | t in granted :: t < nextTicket)
    && (forall t | t in failed :: t < nextTicket)
    && (waiters != [] ==> forall g | g in granted :: g < waiters[0])
    && (forall t | t in failed :: t !in waiters && t !in granted)
  }

  ghost predicate Fifo(m: Manager) {
    InOrder(m.waiters, m.granted, m.failed, m.nextTicket)
  }

  /** Before a drain nobody queues while a slot is free. */
  ghost predicate WorkConserving(m: Manager) {
    !m.closed && m.waiters != [] ==> !Free(m)
  }

  /** Everything but the queue, the grants and the slot counter is as before. */
  ghost predicate OnlyGrants(m: Manager, m': Manager) {
    m' == m.(waiters := m'.waiters, granted := m'.granted, activeSlots := m'.activeSlots)
  }

  lemma IncreasingTail(s: seq<nat>)
    requires Increasing(s) && s != []
    ensures Increasing(s[1..])
    ensures forall t | t in s[1..] :: s[0] < t
    ensures Elements(s) == {s[0]} + Elements(s[1..])
  {
    var tail := s[1..];
    assert s == [s[0]] + tail;
    forall i, j | 0 <= i < j < |tail| ensures tail[i] < tail[j] {
      assert tail[i] == s[i + 1] && tail[j] == s[j + 1];
    }
    forall t | t in tail ensures s[0] < t {
      var k :| 0 <= k < |tail| && tail[k] == t;
      assert s[k + 1] == t;
    }
  }

  lemma GrantOneFacts(m: Manager)
    requires Fifo(m) && m.waiters != []
    ensures Fifo(GrantOne(m))
    ensures |GrantOne(m).granted| == |m.granted| + 1
    ensures Elements(m.waiters) == {m.waiters[0]} + Elements(m.waiters[1..])
  {
    IncreasingTail(m.waiters);
    var head, tail := m.waiters[0], m.waiters[1..];
    assert head in m.waiters;
    assert forall t | t in tail :: t in m.waiters;
    if tail != [] {
      assert tail[0] in tail;
    }
  }

  /** Granting serves the oldest waiters, one slot each, and leaves no waiter behind a free slot. */
  ghost predicate Grants(m: Manager, m': Manager) {
    && OnlyGrants(m, m')
    && m.granted <= m'.granted
    && m.granted + Elements(m.waiters) == m'.granted + Elements(m'.waiters)
    && m.activeSlots <= m'.activeSlots
    && m'.activeSlots - m.activeSlots == |m'.granted| - |m.granted|
    && (m.maxConnections > 0 && m.activeSlots <= m.maxConnections ==> m'.activeSlots <= m.maxConnections)
  }

  lemma GrantsTrans(m: Manager, one: Manager, m': Manager)
    requires m.waiters != [] && Free(m) && one == GrantOne(m) && Grants(one, m')
    requires |one.granted| == |m.granted| + 1
    requires Elements(m.waiters) == {m.waiters[0]} + Elements(m.waiters[1..])
    ensures Grants(m, m')
  {
    assert m.granted + Elements(m.waiters) == one.granted + Elements(one.waiters);
  }

  lemma {:induction false} GrantLoopFacts(m: Manager)
    requires Fifo(m)
    ensures Fifo(GrantLoop(m)) && Grants(m, GrantLoop(m))
    ensures GrantLoop(m).waiters != [] ==> !Free(GrantLoop(m))
    decreases |m.waiters|
  {
    if m.waiters != [] && Free(m) {
      var one := GrantOne(m);
      GrantOneFacts(m);
      GrantLoopFacts(one);
      GrantsTrans(m, one, GrantLoop(one));
    }
  }

  lemma GrantFacts(m: Manager)
    requires Fifo(m)
    ensures Fifo(Grant(m)) && Grants(m, Grant(m)) && WorkConserving(Grant(m))
  {
    if !m.closed {
      GrantLoopFacts(m);
    }
  }

  /** Refused exactly when draining, admitted exactly at a free slot, and otherwise queued last under a fresh ticket. */
  lemma AcquireSlotMeaning(m: Manager)
    ensures var (m', a) := AcquireSlot(m);
            && (a.Refused? <==> m.closed)
            && (a.Admitted? <==> !m.closed && (m.maxConnections <= 0 || m.activeSlots < m.maxConnections))
            && (a.Refused? ==> m' == m)
            && (a.Admitted? ==> m' == m.(activeSlots := m.activeSlots + 1))
            && (a.Queued? ==>
                  && a.ticket == m.nextTicket
                  && m' == m.(waiters := m.waiters + [m.nextTicket], nextTicket := m.nextTicket + 1))
  {
  }

  /** With somebody queued at an exhausted limit, a released slot goes to the oldest waiter and nobody else. */
  lemma ReleaseServesTheOldest(m: Manager)
    requires !m.closed && m.waiters != [] && m.activeSlots == m.maxConnections > 0
    ensures ReleaseSlot(m) == m.(waiters := m.waiters[1..], granted := m.granted + {m.waiters[0]})
  {
    var freed := m.(activeSlots := m.activeSlots - 1);
    assert GrantLoop(freed) == GrantLoop(GrantOne(freed));
  }

  /** Nobody is granted anything once a drain began. */
  lemma ClosedGrantsNothing(m: Manager)
    requires m.closed
    ensures ReleaseSlot(m) == m.(activeSlots := if m.activeSlots > 0 then m.activeSlots - 1 else m.activeSlots)
    ensures forall n :: SetMax(m, n) == m.(maxConnections := n)
  {
  }

  lemma {:induction false} WithoutFacts<T>(s: seq<T>, x: T)
    requires Distinct(s)
    ensures Distinct(Without(s, x))
    ensures forall y :: y in Without(s, x) <==> y in s && y != x
    decreases |s|
  {
    if s != [] {
      var head, tail := s[0], s[1..];
      WithoutFacts(tail, x);
      assert s == [head] + tail;
      assert head !in tail by {
        assert forall k | 0 <= k < |tail| :: tail[k] == s[k + 1];
      }
    }
  }

  lemma IncreasingCons(x: nat, s: seq<nat>)
    requires Increasing(s) && forall y | y in s :: x < y
    ensures Increasing([x] + s)
  {
    var all := [x] + s;
    forall i, j | 0 <= i < j < |all| ensures all[i] < all[j] {
      assert all[j] == s[j - 1] && s[j - 1] in s;
      if i > 0 {
        assert all[i] == s[i - 1];
      }
    }
  }

  lemma QueuedNotGranted(m: Manager, t: nat)
    requires Fifo(m) && t in m.waiters
    ensures t !in m.granted
  {
    var k :| 0 <= k < |m.waiters| && m.waiters[k] == t;
  }

  lemma {:induction false} WithoutIncreasing(s: seq<nat>, x: nat)
    requires Increasing(s)
    ensures Increasing(Without(s, x))
    ensures forall y | y in Without(s, x) :: y in s
    ensures Without(s, x) != [] ==> s[0] <= Without(s, x)[0]
    decreases |s|
  {
    if s != [] {
      var head, tail := s[0], s[1..];
      IncreasingTail(s);
      if head != x {
        WithoutIncreasing(tail, x);
        IncreasingCons(head, Without(tail, x));
      }
    }
  }

  /** Dropping position `i` is what `Without` does when the element first occurs there. */
  lemma {:induction false} WithoutAt<T>(s: seq<T>, x: T, i: nat)
    requires i <= |s| && x !in s[..i]
    ensures i < |s| && s[i] == x ==> Without(s, x) == s[..i] + s[i + 1..]
    ensures i == |s| ==> Without(s, x) == s
    decreases i
  {
    if i > 0 {
      var tail := s[1..];
      assert s[0] in s[..i] && s == [s[0]] + tail;
      assert tail[..i - 1] == s[1..i];
      assert forall y | y in s[1..i] :: y in s[..i];
      WithoutAt(tail, x, i - 1);
    }
  }

  // ---------------------------------------------------------------------------
  // What the index keeps

  /** Every indexed PID is a registered session on that worker, listed once. */
  ghost predicate IndexSound(m: Manager) {
    forall w | w in m.byWorker ::
      && m.byWorker[w] != []
      && Distinct(m.byWorker[w])
      && forall pid | pid in m.byWorker[w] :: pid in m.sessions && m.sessions[pid].worker == w
  }

  /** Every registered session is indexed under its worker. */
  ghost predicate IndexComplete(m: Manager) {
    forall pid | pid in m.sessions :: pid in OnWorker(m.byWorker, m.sessions[pid].worker)
  }

  lemma RegisterKeepsIndex(m: Manager, pid: int, session: Session)
    requires IndexSound(m) && pid !in m.sessions
    ensures IndexSound(Register(m, pid, session).0)
    ensures IndexComplete(m) ==> IndexComplete(Register(m, pid, session).0)
  {
    if !m.closed {
      var m' := Register(m, pid, session).0;
      var pids := OnWorker(m.byWorker, session.worker);
      assert m'.byWorker[session.worker] == pids + [pid];
      assert pid !in pids;
      assert forall x :: x in pids + [pid] <==> x in pids || x == pid;
    }
  }

  /** A session is registered exactly unless draining, and then in both maps and nowhere else. */
  lemma RegisterMeaning(m: Manager, pid: int, session: Session)
    ensures var (m', ok) := Register(m, pid, session);
            && (ok <==> !m.closed)
            && (!ok ==> m' == m)
            && (ok ==>
                  && m' == m.(sessions := m'.sessions, byWorker := m'.byWorker)
                  && m'.sessions == m.sessions[pid := session]
                  && session.worker in m'.byWorker && pid in m'.byWorker[session.worker]
                  && (forall w | w != session.worker :: OnWorker(m'.byWorker, w) == OnWorker(m.byWorker, w)))
  {
    var (m', ok) := Register(m, pid, session);
    if ok {
      assert m'.byWorker[session.worker][|OnWorker(m.byWorker, session.worker)|] == pid;
    }
  }

  /** A session is detached exactly if registered, in any state of the lifecycle, and takes no other with it. */
  lemma DetachMeaning(m: Manager, pid: int)
    requires Fifo(m)
    ensures var (m', found) := Detach(m, pid);
            && (found <==> pid in m.sessions)
            && (!found ==> m' == m)
            && (found ==> m'.sessions == m.sessions - {pid} && m'.active == m.active + 1 && m'.closed == m.closed)
            && (found && m.closed ==>
                  m'.activeSlots == if !m.sessions[pid].leased && m.activeSlots > 0 then m.activeSlots - 1
                                    else m.activeSlots)
  {
    if pid in m.sessions {
      GrantFacts(Unlink(m, pid));
    }
  }

  lemma UnlinkKeepsIndex(m: Manager, pid: int)
    requires IndexSound(m) && pid in m.sessions
    ensures IndexSound(Unlink(m, pid))
    ensures IndexComplete(m) ==> IndexComplete(Unlink(m, pid))
  {
    var w := m.sessions[pid].worker;
    WithoutFacts(OnWorker(m.byWorker, w), pid);
    var m' := Unlink(m, pid);
    forall v | v in m'.byWorker
      ensures m'.byWorker[v] != [] && Distinct(m'.byWorker[v])
      ensures forall x | x in m'.byWorker[v] :: x in m'.sessions && m'.sessions[x].worker == v
    {
      if v != w {
        assert m'.byWorker[v] == m.byWorker[v];
      }
    }
    if IndexComplete(m) {
      forall x | x in m'.sessions ensures x in OnWorker(m'.byWorker, m'.sessions[x].worker) {
        assert x in OnWorker(m.byWorker, m.sessions[x].worker);
        if m.sessions[x].worker != w {
          assert OnWorker(m'.byWorker, m.sessions[x].worker) == OnWorker(m.byWorker, m.sessions[x].worker);
        }
      }
    }
  }

  // ---------------------------------------------------------------------------
  // The objects

  /** Counter of operations a drain must wait for; `cancels` holds the ids of creations in progress. */
  class SessionLifecycle {
    var closed: bool
    var nextID: nat
    var active: int
    var cancels: set<nat>

    ghost predicate Valid()
      reads this
    {
      && (forall id | id in cancels :: id <= nextID)
      && |cancels| <= active
    }

    constructor ()
      ensures Valid() && !closed && active == 0 && cancels == {}
    {
      closed, nextID, active, cancels := false, 0, 0, {};
    }

    /** `begin`: refused once closed; otherwise the creation is counted under a new id. */
    method Begin() returns (id: Option<nat>)
      requires Valid()
      modifies this
      ensures Valid() && closed == old(closed)
      ensures id.None? <==> closed
      ensures id.None? ==> active == old(active) && cancels == old(cancels)
      ensures id.Some? ==>
                active == old(active) + 1 && id.value !in old(cancels) && cancels == old(cancels) + {id.value}
    {
      if closed {
        return None;
      }
      nextID := nextID + 1;
      cancels := cancels + {nextID};
      active := active + 1;
      return Some(nextID);
    }

    method EndCreation(id: nat)
      requires Valid() && id in cancels
      modifies this
      ensures Valid() && closed == old(closed)
      ensures active == old(active) - 1 && cancels == old(cancels) - {id}
    {
      cancels := cancels - {id};
      active := active - 1;
    }

    method BeginCleanup()
      requires Valid()
      modifies this
      ensures Valid() && closed == old(closed) && cancels == old(cancels) && active == old(active) + 1
    {
      active := active + 1;
    }

    method EndCleanup()
      requires Valid() && |cancels| < active
      modifies this
      ensures Valid() && closed == old(closed) && cancels == old(cancels) && active == old(active) - 1
    {
      active := active - 1;
    }

    /** `close` returns the creations whose contexts it cancels. */
    method Close() returns (cancelled: set<nat>)
      requires Valid()
      modifies this
      ensures Valid() && closed && active == old(active) && cancels == old(cancels) == cancelled
    {
      closed := true;
      cancelled := cancels;
    }
  }

  class SessionManager {
    const lifecycle: SessionLifecycle
    var sessions: map<int, Session>
    var byWorker: map<int, seq<int>>
    var maxConnections: int
    var activeSlots: int
    var waiters: seq<nat>
    var granted: set<nat>
    var failed: set<nat>
    var nextTicket: nat
    var limited: bool

    function View(): Manager
      reads this, lifecycle
    {
      Manager(lifecycle.closed, lifecycle.active, sessions, byWorker, maxConnections, activeSlots,
              waiters, granted, failed, nextTicket, limited)
    }

    constructor ()
      ensures View() == EMPTY_MANAGER && fresh(lifecycle) && lifecycle.Valid()
    {
      lifecycle := new SessionLifecycle();
      sessions, byWorker, maxConnections, activeSlots := map[], map[], 0, 0;
      waiters, granted, failed, nextTicket, limited := [], {}, {}, 0, false;
    }

    method GrantWaitersLocked()
      modifies this
      ensures View() == Grant(old(View()))
    {
      if lifecycle.closed {
        return;
      }
      while |waiters| > 0 && (maxConnections <= 0 || activeSlots < maxConnections)
        invariant GrantLoop(View()) == GrantLoop(old(View()))
        decreases |waiters|
      {
        var waiter := waiters[0];
        waiters := waiters[1..];
        activeSlots := activeSlots + 1;
        granted := granted + {waiter};
      }
    }

    method FailWaitersLocked()
      modifies this
      ensures View() == FailWaiters(old(View()))
    {
      var i := 0;
      while i < |waiters|
        invariant 0 <= i <= |waiters|
        invariant View() == old(View()).(failed := old(failed) + Elements(waiters[..i]))
      {
        failed := failed + {waiters[i]};
        assert Elements(waiters[..i + 1]) == Elements(waiters[..i]) + {waiters[i]};
        i := i + 1;
      }
      assert waiters[..i] == waiters;
      waiters := [];
    }

    method RemoveWaiterLocked(ticket: nat)
      modifies this
      ensures View() == RemoveWaiter(old(View()), ticket)
    {
      var i := 0;
      while i < |waiters|
        invariant 0 <= i <= |waiters|
        invariant View() == old(View())
        invariant ticket !in waiters[..i]
      {
        WithoutAt(waiters, ticket, i);
        if waiters[i] == ticket {
          waiters := waiters[..i] + waiters[i + 1..];
          return;
        }
        i := i + 1;
      }
      WithoutAt(waiters, ticket, i);
    }

    method AcquireSlotLocked() returns (admission: Admission)
      modifies this
      ensures (View(), admission) == AcquireSlot(old(View()))
    {
      if lifecycle.closed {
        return Refused;
      }
      if maxConnections <= 0 || activeSlots < maxConnections {
        activeSlots := activeSlots + 1;
        return Admitted;
      }
      waiters := waiters + [nextTicket];
      admission := Queued(nextTicket);
      nextTicket := nextTicket + 1;
    }

    method ReleaseSlotLocked()
      modifies this
      ensures View() == ReleaseSlot(old(View()))
    {
      if activeSlots > 0 {
        activeSlots := activeSlots - 1;
      }
      GrantWaitersLocked();
    }

    method SetMaxConnections(n: int)
      modifies this
      ensures View() == SetMax(old(View()), n)
    {
      maxConnections := n;
      GrantWaitersLocked();
    }

    method RegisterLocked(pid: int, session: Session) returns (ok: bool)
      modifies this
      ensures (View(), ok) == Register(old(View()), pid, session)
    {
      if lifecycle.closed {
        return false;
      }
      sessions := sessions[pid := session];
      byWorker := byWorker[session.worker := OnWorker(byWorker, session.worker) + [pid]];
      return true;
    }

    method RemoveSessionFromWorkerLocked(worker: int, pid: int)
      modifies this`byWorker
      ensures byWorker == RemoveFromWorker(old(byWorker), worker, pid)
    {
      var pids := OnWorker(byWorker, worker);
      var i := 0;
      while i < |pids|
        invariant 0 <= i <= |pids|
        invariant pids == OnWorker(byWorker, worker)
        invariant pid !in pids[..i]
        invariant i == |pids| ==> Without(pids, pid) == pids
        invariant byWorker == old(byWorker)
      {
        WithoutAt(pids, pid, i);
        if pids[i] == pid {
          pids := pids[..i] + pids[i + 1..];
          break;
        }
        i := i + 1;
        WithoutAt(pids, pid, i);
      }
      if |pids| == 0 {
        byWorker := byWorker - {worker};
        return;
      }
      byWorker := byWorker[worker := pids];
    }

    /** First locked section of `DestroySession`, with its `beginCleanup`. */
    method DetachSessionLocked(pid: int) returns (found: bool)
      requires lifecycle.Valid()
      modifies this, lifecycle
      ensures lifecycle.Valid()
      ensures (View(), found) == Detach(old(View()), pid)
    {
      if pid !in sessions {
        return false;
      }
      var session := sessions[pid];
      sessions := sessions - {pid};
      RemoveSessionFromWorkerLocked(session.worker, pid);
      if !session.leased && activeSlots > 0 {
        activeSlots := activeSlots - 1;
      }
      assert View() == Unlink(old(View()), pid);
      GrantWaitersLocked();
      lifecycle.BeginCleanup();
      return true;
    }
  }
}
