/**
 What one operation of the session manager comes to when no other operation takes a step meanwhile:
 the positive side of the interleaved runs.
 */
module SessionOperations {
  import opened Prelude
  import opened SessionManagement
  import opened SessionRuns

  /** `n` steps of one operation; `x` decides its foreign calls. */
  function Alone(m: Manager, t: Thread, x: Choice, n: nat): (Manager, Thread)
    decreases n
  {
    if n == 0 then (m, t)
    else var (a, t') := ThreadStep(m, t, x); Alone(Apply(m, a), t', x, n - 1)
  }

  function Steps(x: Choice, n: nat): seq<Label> {
    seq(n, _ => Do(0, x))
  }

  /** It is a run like any other. */
  lemma {:induction false} AloneIsARun(m: Manager, t: Thread, x: Choice, n: nat)
    ensures Exec(System(m, [t]), Steps(x, n)) == System(Alone(m, t, x, n).0, [Alone(m, t, x, n).1])
    decreases n
  {
    if n > 0 {
      var (a, t') := ThreadStep(m, t, x);
      assert [t][0 := t'] == [t'];
      assert Next(System(m, [t]), Do(0, x)) == System(Apply(m, a), [t']);
      assert Steps(x, n)[1..] == Steps(x, n - 1);
      AloneIsARun(Apply(m, a), t', x, n - 1);
    }
  }

  lemma Split(m: Manager, t: Thread, x: Choice, n: nat)
    requires n > 0
    ensures var (a, t') := ThreadStep(m, t, x); Alone(m, t, x, n) == Alone(Apply(m, a), t', x, n - 1)
  {
  }

  lemma {:induction false} FinishedStays(m: Manager, pid: int, ok: bool, x: Choice, n: nat)
    ensures Alone(m, Creator(pid, Finished(ok)), x, n) == (m, Creator(pid, Finished(ok)))
    decreases n
  {
    if n > 0 {
      FinishedStays(m, pid, ok, x, n - 1);
    }
  }

  // ---------------------------------------------------------------------------
  // Creation

  /** The manager with one more session, which took a local slot or brought a lease. */
  function WithSession(m: Manager, pid: int, session: Session): Manager {
    m.(sessions := m.sessions[pid := session],
       byWorker := m.byWorker[session.worker := OnWorker(m.byWorker, session.worker) + [pid]],
       activeSlots := if session.leased then m.activeSlots else m.activeSlots + 1)
  }

  /** With a free slot and a worker at hand, a creation ends with its session registered and one slot taken. */
  lemma CreationSucceeds(m: Manager, pid: int, worker: int, n: nat)
    requires !m.closed && !m.limited && (m.maxConnections <= 0 || m.activeSlots < m.maxConnections)
    requires n >= 6
    ensures Alone(m, Creator(pid, Idle), Choice(true, worker), n)
         == (WithSession(m, pid, Session(worker, false)), Creator(pid, Finished(true)))
  {
    var x := Choice(true, worker);
    var m1 := m.(active := m.active + 1);
    var m3 := m1.(activeSlots := m1.activeSlots + 1);
    Split(m, Creator(pid, Idle), x, n);
    Split(m1, Creator(pid, Begun), x, n - 1);
    Split(m1, Creator(pid, SlotWanted), x, n - 2);
    Split(m3, Creator(pid, Holding(false)), x, n - 3);
    Split(m3, Creator(pid, Placed(worker, false)), x, n - 4);
    Split(Register(m3, pid, Session(worker, false)).0, Creator(pid, Ending(true)), x, n - 5);
    FinishedStays(WithSession(m, pid, Session(worker, false)), pid, true, x, n - 6);
  }

  /** Under a cluster limiter it takes the lease it was given and no local slot. */
  lemma LeasedCreationSucceeds(m: Manager, pid: int, worker: int, n: nat)
    requires !m.closed && m.limited
    requires n >= 7
    ensures Alone(m, Creator(pid, Idle), Choice(true, worker), n)
         == (WithSession(m, pid, Session(worker, true)), Creator(pid, Finished(true)))
  {
    var x := Choice(true, worker);
    var m1 := m.(active := m.active + 1);
    Split(m, Creator(pid, Idle), x, n);
    Split(m1, Creator(pid, Begun), x, n - 1);
    Split(m1, Creator(pid, LeaseWanted), x, n - 2);
    Split(m1, Creator(pid, LeaseHeld), x, n - 3);
    Split(m1, Creator(pid, Holding(true)), x, n - 4);
    Split(m1, Creator(pid, Placed(worker, true)), x, n - 5);
    Split(Register(m1, pid, Session(worker, true)).0, Creator(pid, Ending(true)), x, n - 6);
    FinishedStays(WithSession(m, pid, Session(worker, true)), pid, true, x, n - 7);
  }

  /** A creation that finds no worker gives its slot back and leaves the manager as it was. */
  lemma FailedCreationLeavesNoTrace(m: Manager, pid: int, pick: int, n: nat)
    requires !m.closed && !m.limited && m.activeSlots >= 0 && m.waiters == []
    requires m.maxConnections <= 0 || m.activeSlots < m.maxConnections
    requires n >= 6
    ensures Alone(m, Creator(pid, Idle), Choice(false, pick), n) == (m, Creator(pid, Finished(false)))
  {
    var x := Choice(false, pick);
    var m1 := m.(active := m.active + 1);
    var m3 := m1.(activeSlots := m1.activeSlots + 1);
    Split(m, Creator(pid, Idle), x, n);
    Split(m1, Creator(pid, Begun), x, n - 1);
    Split(m1, Creator(pid, SlotWanted), x, n - 2);
    Split(m3, Creator(pid, Holding(false)), x, n - 3);
    Split(m3, Creator(pid, Releasing(false)), x, n - 4);
    Split(m1, Creator(pid, Ending(false)), x, n - 5);
    FinishedStays(m, pid, false, x, n - 6);
  }

  lemma {:induction false} WithoutLast(s: seq<nat>, x: nat)
    requires x !in s
    ensures Without(s + [x], x) == s
    decreases |s|
  {
    if s != [] {
      assert (s + [x])[1..] == s[1..] + [x];
      WithoutLast(s[1..], x);
    }
  }

  /** At an exhausted limit it queues, and giving up takes it out of the queue and nothing else. */
  lemma CancelledCreationLeavesNoTrace(m: Manager, pid: int, pick: int, n: nat)
    requires !m.closed && !m.limited && Fifo(m) && m.maxConnections > 0 && m.activeSlots >= m.maxConnections
    requires n >= 5
    ensures Alone(m, Creator(pid, Idle), Choice(false, pick), n)
         == (m.(nextTicket := m.nextTicket + 1), Creator(pid, Finished(false)))
  {
    var x := Choice(false, pick);
    var m1 := m.(active := m.active + 1);
    var m3 := m1.(waiters := m.waiters + [m.nextTicket], nextTicket := m.nextTicket + 1);
    var m4 := m1.(nextTicket := m.nextTicket + 1);
    Split(m, Creator(pid, Idle), x, n);
    Split(m1, Creator(pid, Begun), x, n - 1);
    Split(m1, Creator(pid, SlotWanted), x, n - 2);
    AbandonedAtOnce(m1);
    Split(m3, Creator(pid, Waiting(m.nextTicket)), x, n - 3);
    Split(m4, Creator(pid, Ending(false)), x, n - 4);
    FinishedStays(m.(nextTicket := m.nextTicket + 1), pid, false, x, n - 5);
  }

  lemma AbandonedAtOnce(m: Manager)
    requires Fifo(m)
    ensures m.nextTicket !in m.granted && m.nextTicket !in m.failed && m.nextTicket !in m.waiters
    ensures var queued := m.(waiters := m.waiters + [m.nextTicket], nextTicket := m.nextTicket + 1);
            Apply(queued, Abandon(m.nextTicket)) == m.(nextTicket := m.nextTicket + 1)
  {
    WithoutLast(m.waiters, m.nextTicket);
  }

  /** A granted waiter keeps its slot even if it was about to give up; a failed one ends without; others wait on. */
  lemma WaiterWakes(m: Manager, pid: int, ticket: nat, x: Choice)
    ensures var (a, t) := ThreadStep(m, Creator(pid, Waiting(ticket)), x);
            && (ticket in m.granted ==>
                  t == Creator(pid, Holding(false)) && Apply(m, a) == Resume(m, ticket))
            && (ticket in m.failed && ticket !in m.granted ==> t == Creator(pid, Ending(false)))
            && (ticket !in m.failed && ticket !in m.granted && x.ok ==>
                  t == Creator(pid, Waiting(ticket)) && Apply(m, a) == m)
  {
  }

  /** A creation that meets a drain at the door does nothing. */
  lemma CreationRefusedByDrain(m: Manager, pid: int, x: Choice, n: nat)
    requires m.closed && n >= 1
    ensures Alone(m, Creator(pid, Idle), x, n) == (m, Creator(pid, Finished(false)))
  {
    Split(m, Creator(pid, Idle), x, n);
    FinishedStays(m, pid, false, x, n - 1);
  }

  lemma GivesBack(m: Manager, pid: int, leased: bool, x: Choice, n: nat)
    requires m.closed && n >= 2
    ensures Alone(m, Creator(pid, Releasing(leased)), x, n)
         == (m.(active := m.active - 1,
                activeSlots := if !leased && m.activeSlots > 0 then m.activeSlots - 1 else m.activeSlots),
             Creator(pid, Finished(false)))
  {
    var m2 := m.(activeSlots := if !leased && m.activeSlots > 0 then m.activeSlots - 1 else m.activeSlots);
    ClosedGrantsNothing(m);
    Split(m, Creator(pid, Releasing(leased)), x, n);
    Split(m2, Creator(pid, Ending(false)), x, n - 1);
    FinishedStays(m2.(active := m2.active - 1), pid, false, x, n - 2);
  }

  /** One that meets it only at registration registers nothing and gives its slot back. */
  lemma RegistrationMeetsDrain(m: Manager, pid: int, worker: int, leased: bool, x: Choice, n: nat)
    requires m.closed && n >= 3
    ensures Alone(m, Creator(pid, Placed(worker, leased)), x, n)
         == (m.(active := m.active - 1,
                activeSlots := if !leased && m.activeSlots > 0 then m.activeSlots - 1 else m.activeSlots),
             Creator(pid, Finished(false)))
  {
    Split(m, Creator(pid, Placed(worker, leased)), x, n);
    GivesBack(m, pid, leased, x, n - 1);
  }

  // ---------------------------------------------------------------------------
  // Destruction and crash

  lemma {:induction false} GoneStays(m: Manager, pid: int, x: Choice, n: nat)
    ensures Alone(m, Destroyer(pid, Gone), x, n) == (m, Destroyer(pid, Gone))
    decreases n
  {
    if n > 0 {
      GoneStays(m, pid, x, n - 1);
    }
  }

  /** A destruction takes away its session and no other; a second one does nothing. */
  lemma DestructionAlone(m: Manager, pid: int, x: Choice, n: nat)
    requires Fifo(m) && n >= 2
    ensures var (m', t) := Alone(m, Destroyer(pid, ToDetach), x, n);
            && t == Destroyer(pid, Gone) && m'.sessions == m.sessions - {pid} && m'.active == m.active
            && (pid !in m.sessions ==> m' == m)
  {
    DetachMeaning(m, pid);
    var m1 := Detach(m, pid).0;
    Split(m, Destroyer(pid, ToDetach), x, n);
    if pid in m.sessions {
      Split(m1, Destroyer(pid, ToFinish), x, n - 1);
      GoneStays(m1.(active := m1.active - 1), pid, x, n - 2);
    } else {
      GoneStays(m, pid, x, n - 1);
      assert m.sessions - {pid} == m.sessions;
    }
  }

  lemma {:induction false} SweptStays(m: Manager, worker: int, x: Choice, n: nat)
    ensures Alone(m, Crasher(worker, Swept), x, n) == (m, Crasher(worker, Swept))
  {
    if n > 0 {
      SweptStays(m, worker, x, n - 1);
    }
  }

  lemma {:induction false} SweepingAlone(m: Manager, worker: int, todo: seq<int>, x: Choice, n: nat)
    requires Fifo(m) && n >= 2 * |todo| + 1
    ensures var (m', t) := Alone(m, Crasher(worker, Sweeping(todo)), x, n);
            && t == Crasher(worker, Swept) && m'.active == m.active && worker !in m'.byWorker
            && forall pid :: pid in m'.sessions <==> pid in m.sessions && pid !in todo
    ensures var m' := Alone(m, Crasher(worker, Sweeping(todo)), x, n).0;
            forall pid | pid in m'.sessions :: m'.sessions[pid] == m.sessions[pid]
    decreases |todo|
  {
    Split(m, Crasher(worker, Sweeping(todo)), x, n);
    if todo == [] {
      SweptStays(Apply(m, Forget(worker)), worker, x, n - 1);
    } else {
      var pid, rest := todo[0], todo[1..];
      var m1 := Detach(m, pid).0;
      DetachMeaning(m, pid);
      DetachKeepsFifo(m, pid);
      assert forall p :: p in todo <==> p == pid || p in rest;
      if pid in m.sessions {
        Split(m1, Crasher(worker, SweepCleanup(rest)), x, n - 1);
        SweepingAlone(m1.(active := m1.active - 1), worker, rest, x, n - 2);
      } else {
        SweepingAlone(m1, worker, rest, x, n - 1);
      }
    }
  }

  lemma DetachKeepsFifo(m: Manager, pid: int)
    requires Fifo(m)
    ensures Fifo(Detach(m, pid).0)
  {
    if pid in m.sessions {
      GrantFacts(Unlink(m, pid));
    }
  }

  /** A crash sweep removes exactly the sessions of its worker. */
  lemma SweepAlone(m: Manager, worker: int, x: Choice, n: nat)
    requires Fifo(m) && IndexSound(m) && IndexComplete(m) && n >= 2 * |OnWorker(m.byWorker, worker)| + 2
    ensures var (m', t) := Alone(m, Crasher(worker, ToCopy), x, n);
            && t == Crasher(worker, Swept) && worker !in m'.byWorker
            && forall pid :: pid in m'.sessions <==> pid in m.sessions && m.sessions[pid].worker != worker
  {
    var todo := OnWorker(m.byWorker, worker);
    Split(m, Crasher(worker, ToCopy), x, n);
    SweepingAlone(m, worker, todo, x, n - 1);
    forall pid | pid in m.sessions ensures pid in todo <==> m.sessions[pid].worker == worker {
      assert pid in OnWorker(m.byWorker, m.sessions[pid].worker);
    }
  }

  // ---------------------------------------------------------------------------
  // Drain

  /** A drain on its own, destroying the sessions in the order given. */
  function Draining(m: Manager, d: Drain, xs: seq<Choice>): (Manager, Drain)
    decreases |xs|
  {
    if xs == [] then (m, d)
    else var (a, d') := DrainerStep(m, d, xs[0]); Draining(Apply(m, a), d', xs[1..])
  }

  lemma DrainingStep(m: Manager, d: Drain, x: Choice, xs: seq<Choice>)
    ensures var (a, d') := DrainerStep(m, d, x); Draining(m, d, [x] + xs) == Draining(Apply(m, a), d', xs)
  {
    assert ([x] + xs)[1..] == xs;
  }

  /** Two steps for each session. */
  function Picks(pids: seq<int>): seq<Choice> {
    if pids == [] then [] else [Choice(true, pids[0])] + ([Choice(true, 0)] + Picks(pids[1..]))
  }

  /** Closed, nobody queued. */
  ghost predicate Shutting(m: Manager) {
    m.closed && m.waiters == []
  }

  /** The manager once a session was destroyed. */
  function Destroyed(m: Manager, pid: int): Manager {
    var m' := Detach(m, pid).0;
    m'.(active := m'.active - 1)
  }

  lemma DestroyedFacts(m: Manager, pid: int)
    requires Shutting(m) && pid in m.sessions
    ensures var m' := Destroyed(m, pid);
            Shutting(m') && m'.sessions == m.sessions - {pid} && m'.active == m.active
  {
  }

  lemma DestroyingOne(m: Manager, todo: set<int>, pid: int, round: nat, rest: seq<Choice>)
    requires pid in todo && pid in m.sessions
    ensures Draining(m, Destroying(todo, round), [Choice(true, pid)] + ([Choice(true, 0)] + rest))
         == Draining(Destroyed(m, pid), Destroying(todo - {pid}, round), rest)
  {
    DrainingStep(m, Destroying(todo, round), Choice(true, pid), [Choice(true, 0)] + rest);
    DrainingStep(Detach(m, pid).0, DrainCleanup(todo - {pid}, round), Choice(true, 0), rest);
  }

  lemma TailElements(pids: seq<int>)
    requires pids != [] && Distinct(pids)
    ensures Elements(pids[1..]) == Elements(pids) - {pids[0]} && Distinct(pids[1..]) && pids[0] in Elements(pids)
  {
    var pid, tail := pids[0], pids[1..];
    assert forall p :: p in pids <==> p == pid || p in tail;
    assert pid !in tail;
  }

  function DestroyedAll(m: Manager, pids: seq<int>): Manager
    decreases |pids|
  {
    if pids == [] then m else DestroyedAll(Destroyed(m, pids[0]), pids[1..])
  }

  lemma {:induction false} DestroyedAllFacts(m: Manager, pids: seq<int>)
    requires Shutting(m) && Distinct(pids) && Elements(pids) == m.sessions.Keys
    ensures var m' := DestroyedAll(m, pids); Shutting(m') && m'.sessions == map[] && m'.active == m.active
    decreases |pids|
  {
    if pids == [] {
      assert Elements(pids) == {};
      assert m.sessions == map[];
    } else {
      TailElements(pids);
      DestroyedFacts(m, pids[0]);
      DestroyedAllFacts(Destroyed(m, pids[0]), pids[1..]);
    }
  }

  lemma PicksSplit(pids: seq<int>, rest: seq<Choice>)
    requires pids != []
    ensures Picks(pids) + rest == [Choice(true, pids[0])] + ([Choice(true, 0)] + (Picks(pids[1..]) + rest))
  {
  }

  lemma {:induction false} DestroyingAll(m: Manager, todo: set<int>, pids: seq<int>, round: nat, rest: seq<Choice>)
    requires Shutting(m) && Distinct(pids) && Elements(pids) == todo == m.sessions.Keys
    ensures Draining(m, Destroying(todo, round), Picks(pids) + rest)
         == Draining(DestroyedAll(m, pids), Destroying({}, round), rest)
    decreases |pids|
  {
    if pids == [] {
      assert Elements(pids) == {};
      assert Picks(pids) + rest == rest;
    } else {
      var pid, tail := pids[0], pids[1..];
      TailElements(pids);
      DestroyedFacts(m, pid);
      PicksSplit(pids, rest);
      DestroyingOne(m, todo, pid, round, Picks(tail) + rest);
      DestroyingAll(Destroyed(m, pid), todo - {pid}, tail, round, rest);
    }
  }

  /**
   A drain of an idle manager returns, in its first round if there is nothing to destroy and otherwise in
   its second, with every session gone and every waiter failed.
   */
  lemma DrainAlone(m: Manager, pids: seq<int>)
    requires m.active == 0 && Distinct(pids) && Elements(pids) == m.sessions.Keys
    ensures var x := Choice(true, 0);
            var (m', d) := Draining(m, Closing(1), [x] + ([x] + (Picks(pids) + ([x] + ([x] + ([x] + ([x] + [])))))));
            && d == Returned(if pids == [] then 1 else 2)
            && m'.closed && m'.sessions == map[] && m'.waiters == [] && m'.active == 0
  {
    var x := Choice(true, 0);
    var end := [x] + ([x] + ([x] + ([x] + [])));
    var m1 := m.(closed := true);
    var m2 := FailWaiters(m1);
    DrainingStep(m, Closing(1), x, [x] + (Picks(pids) + end));
    DrainingStep(m1, Collecting(1), x, Picks(pids) + end);
    if pids == [] {
      assert m.sessions.Keys == {} && m.sessions == map[];
      assert Picks(pids) + end == end;
      DrainingStep(m2, Awaiting(1), x, [x] + ([x] + ([x] + [])));
      ReturnedRests(m2.(closed := true), 1, [x] + ([x] + ([x] + [])));
    } else {
      assert pids[0] in m.sessions;
      DestroyingAll(m2, m2.sessions.Keys, pids, 1, end);
      DestroyedAllFacts(m2, pids);
      var m3 := DestroyedAll(m2, pids);
      SecondRound(m3, x);
    }
  }

  lemma SecondRound(m: Manager, x: Choice)
    requires m.closed && m.sessions == map[] && m.waiters == [] && m.active == 0
    ensures var (m', d) := Draining(m, Destroying({}, 1), [x] + ([x] + ([x] + ([x] + []))));
            && d == Returned(2) && m'.closed && m'.sessions == map[] && m'.waiters == [] && m'.active == 0
  {
    DrainingStep(m, Destroying({}, 1), x, [x] + ([x] + ([x] + [])));
    DrainingStep(m, Closing(2), x, [x] + ([x] + []));
    var m1 := m.(closed := true);
    DrainingStep(m1, Collecting(2), x, [x] + []);
    DrainingStep(FailWaiters(m1), Awaiting(2), x, []);
  }

  lemma {:induction false} ReturnedRests(m: Manager, round: nat, xs: seq<Choice>)
    ensures Draining(m, Returned(round), xs) == (m, Returned(round))
    decreases |xs|
  {
    if xs != [] {
      ReturnedRests(m, round, xs[1..]);
    }
  }
}
