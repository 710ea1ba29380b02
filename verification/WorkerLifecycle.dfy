/**
 The lifecycle service (controlplane/worker_lifecycle.go): snapshot-fenced retirements schedule the
 physical cleanup of the worker, lease-fenced transitions leave it to their caller.
 */
module WorkerLifecycle {
  import opened Prelude
  import opened RuntimeStore

  datatype Reason = Transitioned | FenceMissState | FenceMissOwner | StoreError

  datatype Outcome = Outcome(transitioned: bool, cleanupScheduled: bool, reason: Reason)

  /** The three snapshot-fenced retirements. */
  predicate IsSnapshotRetire(op: Statement) {
    op.MarkTerminal? || op.RetireOrphan? || op.RetireIdle?
  }

  lemma SnapshotRetireIsTerminal(rows: Rows, op: Statement, now: int)
    requires IsSnapshotRetire(op) && Hits(rows, op)
    ensures Target(op) in rows && !Terminal(rows[Target(op)].state)
    ensures Terminal(Apply(rows, op, now)[Target(op)].state)
  {
  }

  class WorkerLifecycle {
    const store: ConfigStore
    const hasCleanup: bool
    var artifactsDeleted: seq<int>     // calls of DeleteWorkerArtifacts, in order

    constructor (store: ConfigStore, hasCleanup: bool)
      ensures this.store == store && this.hasCleanup == hasCleanup && artifactsDeleted == []
    {
      this.store, this.hasCleanup, artifactsDeleted := store, hasCleanup, [];
    }

    method ScheduleCleanup(id: int)
      modifies this
      ensures artifactsDeleted == old(artifactsDeleted) + (if hasCleanup then [id] else [])
    {
      if !hasCleanup {
        return;
      }
      artifactsDeleted := artifactsDeleted + [id];
    }

    /** Shared tail of the three retirements: one CAS, and cleanup exactly when it is known to have hit. */
    method Retire(op: Statement, now: int, reply: Reply, missed: Reason) returns (o: Outcome)
      requires IsSnapshotRetire(op)
      modifies this, store
      ensures store.rows == Effect(old(store.rows), op, now, reply) && Evolves(old(store.rows), store.rows)
      ensures o == if !reply.Answered? then Outcome(false, false, StoreError)
                   else if Hits(old(store.rows), op) then Outcome(true, hasCleanup, Transitioned)
                   else Outcome(false, false, missed)
      ensures artifactsDeleted == old(artifactsDeleted) + (if o.transitioned && hasCleanup then [Target(op)] else [])
    {
      var transitioned := store.Run(op, now, reply);
      if transitioned.None? {
        return Outcome(false, false, StoreError);
      }
      if !transitioned.value {
        return Outcome(false, false, missed);
      }
      ScheduleCleanup(Target(op));
      return Outcome(true, hasCleanup, Transitioned);
    }

    /** An unsupported target is an error and touches nothing. */
    method RetireFromSnapshot(snap: Snapshot, target: State, why: string, now: int, reply: Reply) returns (o: Outcome)
      modifies this, store
      ensures !Terminal(target) ==> store.rows == old(store.rows) && o == Outcome(false, false, StoreError)
      ensures Terminal(target) ==> store.rows == Effect(old(store.rows), MarkTerminal(snap, target, why), now, reply)
      ensures o.transitioned <==>
                Terminal(target) && reply.Answered? && Hits(old(store.rows), MarkTerminal(snap, target, why))
      ensures o.reason == StoreError <==> !Terminal(target) || !reply.Answered?
      ensures artifactsDeleted == old(artifactsDeleted) + (if o.transitioned && hasCleanup then [snap.id] else [])
      ensures o.transitioned ==> snap.id in store.rows && store.rows[snap.id].state == target
      ensures Evolves(old(store.rows), store.rows)
    {
      if !target.Retired? && !target.Lost? {
        return Outcome(false, false, StoreError);
      }
      o := Retire(MarkTerminal(snap, target, why), now, reply, FenceMissOwner);
    }

    method RetireOrphanFromSnapshot(snap: Snapshot, ownerAlive: bool, why: string, now: int, reply: Reply)
      returns (o: Outcome)
      modifies this, store
      ensures store.rows == Effect(old(store.rows), RetireOrphan(snap, ownerAlive, why), now, reply)
      ensures o.transitioned <==> reply.Answered? && Hits(old(store.rows), RetireOrphan(snap, ownerAlive, why))
      ensures o.reason == StoreError <==> !reply.Answered?
      ensures artifactsDeleted == old(artifactsDeleted) + (if o.transitioned && hasCleanup then [snap.id] else [])
      ensures o.transitioned ==> snap.id in store.rows && store.rows[snap.id].state.Retired?
      ensures snap.row.owner != "" && ownerAlive ==> !o.transitioned && store.rows == old(store.rows)
      ensures Evolves(old(store.rows), store.rows)
    {
      o := Retire(RetireOrphan(snap, ownerAlive, why), now, reply, FenceMissOwner);
    }

    method RetireIdleVariantFromSnapshot(snap: Snapshot, why: string, now: int, reply: Reply) returns (o: Outcome)
      modifies this, store
      ensures store.rows == Effect(old(store.rows), RetireIdle(snap, why), now, reply)
      ensures o.transitioned <==> reply.Answered? && Hits(old(store.rows), RetireIdle(snap, why))
      ensures o.reason == StoreError <==> !reply.Answered?
      ensures !snap.row.state.Idle? && !snap.row.state.HotIdle? && reply.Answered? ==>
                o == Outcome(false, false, FenceMissState)
      ensures artifactsDeleted == old(artifactsDeleted) + (if o.transitioned && hasCleanup then [snap.id] else [])
      ensures o.transitioned ==> snap.id in store.rows && store.rows[snap.id].state.Retired?
      ensures Evolves(old(store.rows), store.rows)
    {
      var miss := if snap.row.state.Idle? || snap.row.state.HotIdle? then FenceMissOwner else FenceMissState;
      o := Retire(RetireIdle(snap, why), now, reply, miss);
    }

    /** Lease-fenced transitions never schedule cleanup. */
    method Transition(op: Statement, now: int, reply: Reply) returns (o: Outcome)
      requires op.MarkLost? || op.MarkDraining? || op.RetireDraining?
      modifies store
      ensures store.rows == Effect(old(store.rows), op, now, reply)
      ensures !o.cleanupScheduled && (o.transitioned <==> reply.Answered? && Hits(old(store.rows), op))
      ensures o.reason == if o.transitioned then Transitioned
                          else if reply.Answered? then FenceMissOwner else StoreError
    {
      var transitioned := store.Run(op, now, reply);
      if transitioned.None? {
        return Outcome(false, false, StoreError);
      }
      return if transitioned.value then Outcome(true, false, Transitioned) else Outcome(false, false, FenceMissOwner);
    }

    /** The refreshed lease is the one the row now carries; a stale lease or a store error gets none. */
    method RefreshLease(lease: Lease, now: int, reply: Reply) returns (fresher: Option<Lease>)
      modifies store
      ensures store.rows == Effect(old(store.rows), BumpEpoch(lease), now, reply)
      ensures fresher.Some? <==> reply.Answered? && Hits(old(store.rows), BumpEpoch(lease))
      ensures fresher.Some? ==> fresher.value == lease.(epoch := lease.epoch + 1)
                                && lease.id in store.rows && HeldBy(store.rows[lease.id], fresher.value)
    {
      var hit := store.Run(BumpEpoch(lease), now, reply);
      if hit.None? || !hit.value {
        return None;
      }
      return Some(Lease(lease.id, lease.owner, store.rows[lease.id].epoch));
    }
  }

  // ---------------------------------------------------------------------------
  // Any number of control planes calling the service on one store

  /**
   `due`: rows whose retirement is past its CAS and before its cleanup call; `cleaned`: the cleanup
   calls in order; `ended`: rows ended by the CAS of a snapshot retire with a cleanup hook.
   */
  datatype System = System(rows: Rows, due: set<int>, cleaned: seq<int>, ended: set<int>)

  datatype Label =
    | Retirement(op: Statement, now: int)        // the CAS of a snapshot retire, cleanup configured
    | BareRetirement(op: Statement, now: int)    // the same without a cleanup hook
    | Cleanup(id: int)                           // a due retirement reaches its cleanup call
    | Crash(id: int)                             // or its control plane dies, or never gets the answer
    | Other(op: Statement, now: int)             // lease transitions, claims, upserts, ...

  function Next(s: System, l: Label): System {
    match l
    case Retirement(op, now) =>
      if IsSnapshotRetire(op) && Hits(s.rows, op) then
        System(Apply(s.rows, op, now), s.due + {Target(op)}, s.cleaned, s.ended + {Target(op)})
      else s
    case BareRetirement(op, now) => if IsSnapshotRetire(op) then s.(rows := Apply(s.rows, op, now)) else s
    case Cleanup(id) => if id in s.due then s.(due := s.due - {id}, cleaned := s.cleaned + [id]) else s
    case Crash(id) => s.(due := s.due - {id})
    case Other(op, now) => if IsSnapshotRetire(op) then s else s.(rows := Apply(s.rows, op, now))
  }

  function Exec(s: System, labels: seq<Label>): System
    decreases |labels|
  {
    if labels == [] then s else Exec(Next(s, labels[0]), labels[1..])
  }

  function Start(rows: Rows): System {
    System(rows, {}, [], {})
  }

  ghost predicate Inv(s: System) {
    && Distinct(s.cleaned)
    && (forall id | id in s.due :: id !in s.cleaned && id in s.ended)
    && (forall id | id in s.cleaned :: id in s.ended)
    && (forall id | id in s.ended :: id in s.rows && Terminal(s.rows[id].state))
  }

  /** A CAS that hits ends a row that was neither cleaned nor due for it. */
  lemma RetirementIsNew(s: System, op: Statement)
    requires Inv(s) && IsSnapshotRetire(op) && Hits(s.rows, op)
    ensures Target(op) !in s.due && Target(op) !in s.cleaned && Target(op) !in s.ended
  {
    SnapshotRetireIsTerminal(s.rows, op, 0);
  }

  lemma NextKeepsInv(s: System, l: Label)
    requires Inv(s)
    ensures Inv(Next(s, l)) && Evolves(s.rows, Next(s, l).rows)
  {
    match l
    case Retirement(op, now) =>
      if IsSnapshotRetire(op) && Hits(s.rows, op) {
        StatementEvolves(s.rows, op, now);
        SnapshotRetireIsTerminal(s.rows, op, now);
        RetirementIsNew(s, op);
      }
    case BareRetirement(op, now) => StatementEvolves(s.rows, op, now);
    case Cleanup(id) =>
      assert forall x :: x in s.cleaned + [id] <==> x in s.cleaned || x == id;
    case Crash(id) =>
    case Other(op, now) => StatementEvolves(s.rows, op, now);
  }

  lemma {:induction false} ExecKeepsInv(s: System, labels: seq<Label>)
    requires Inv(s)
    ensures Inv(Exec(s, labels)) && Evolves(s.rows, Exec(s, labels).rows)
    decreases |labels|
  {
    if labels != [] {
      NextKeepsInv(s, labels[0]);
      ExecKeepsInv(Next(s, labels[0]), labels[1..]);
      EvolvesTransitive(s.rows, Next(s, labels[0]).rows, Exec(s, labels).rows);
    }
  }

  /**
   In every run, whatever each control plane does and wherever it dies or loses an answer: a worker is cleaned at most
   once, only after a snapshot CAS of this service ended its row, and its row is never live again.
   */
  lemma CleanedOnceAndNeverLive(rows: Rows, labels: seq<Label>, more: seq<Label>)
    ensures var s := Exec(Start(rows), labels);
            && Distinct(s.cleaned)
            && (forall id | id in s.cleaned :: id in s.ended)
            && (forall id | id in s.cleaned :: id in s.rows && Terminal(s.rows[id].state))
            && (forall id | id in s.cleaned ::
                  id in Exec(s, more).rows && Exec(s, more).rows[id].state == s.rows[id].state)
  {
    ExecKeepsInv(Start(rows), labels);
    ExecKeepsInv(Exec(Start(rows), labels), more);
  }

  predicate NoCrash(labels: seq<Label>) {
    forall i | 0 <= i < |labels| :: !labels[i].Crash?
  }

  ghost predicate Remembered(s: System) {
    forall id | id in s.ended :: id in s.due || id in s.cleaned
  }

  lemma {:induction false} NothingForgotten(s: System, labels: seq<Label>)
    requires NoCrash(labels) && Remembered(s)
    ensures Remembered(Exec(s, labels))
    decreases |labels|
  {
    if labels != [] {
      var l := labels[0];
      assert !l.Crash?;
      if l.Cleanup? {
        assert forall x :: x in s.cleaned + [l.id] <==> x in s.cleaned || x == l.id;
      }
      assert Remembered(Next(s, l));
      NothingForgotten(Next(s, l), labels[1..]);
    }
  }

  /** Where no control plane dies or loses an answer, cleanups made or due are exactly the rows the service ended. */
  lemma CleanupExactlyForOwnCas(rows: Rows, labels: seq<Label>)
    requires NoCrash(labels)
    ensures var s := Exec(Start(rows), labels);
            && (forall id :: id in s.ended <==> id in s.due || id in s.cleaned)
            && (forall id :: !(id in s.due && id in s.cleaned))
  {
    ExecKeepsInv(Start(rows), labels);
    NothingForgotten(Start(rows), labels);
  }
}
