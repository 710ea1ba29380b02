/**
 The in-memory lifecycle of a shared worker: the pure state machine (controlplane/worker_state.go)
 and the pool operations that drive it (controlplane/k8s_pool.go, controlplane/org_reserved_pool.go),
 with activations in flight that put an earlier state back when they fail.
 */
module WorkerState {
  import opened Prelude

  datatype Lifecycle = Unset | Idle | Reserved | Activating | Hot | HotIdle | Draining | Retired | Unknown(name: string)

  datatype Assignment = Assignment(org: string, maxWorkers: int, image: string)

  datatype Shared = Shared(lifecycle: Lifecycle, assignment: Option<Assignment>)

  function Normalized(s: Shared): Lifecycle {
    if s.lifecycle.Unset? then Idle else s.lifecycle
  }

  predicate ValidAssignment(a: Option<Assignment>) {
    a.Some? && a.value.org != ""
  }

  predicate Bound(l: Lifecycle) {
    l.Reserved? || l.Activating? || l.Hot? || l.HotIdle? || l.Draining?
  }

  predicate Validate(s: Shared) {
    match Normalized(s)
    case Idle => s.assignment.None?
    case Retired => s.assignment.None? || ValidAssignment(s.assignment)
    case Unknown(_) => false
    case _ => ValidAssignment(s.assignment)
  }

  predicate Allowed(current: Lifecycle, next: Lifecycle) {
    match current
    case Idle => next.Reserved? || next.Retired?
    case Reserved => next.Activating? || next.Retired?
    case Activating => next.Hot? || next.Retired?
    case Hot => next.Draining? || next.Retired? || next.HotIdle?
    case HotIdle => next.Reserved? || next.Retired?
    case Draining => next.Retired?
    case _ => false
  }

  /** `resolveWorkerAssignment`; None is an error. */
  function Resolve(current: Option<Assignment>, proposed: Option<Assignment>): Option<Assignment> {
    if current.Some? && !ValidAssignment(current) then None
    else if proposed.Some? && !ValidAssignment(proposed) then None
    else if current.None? then proposed
    else if proposed.None? then current
    else if current.value.org != proposed.value.org then None
    else proposed
  }

  /** None is an error. */
  function Transition(s: Shared, next: Lifecycle, assignment: Option<Assignment>): Option<Shared> {
    if !Validate(s) || !Allowed(Normalized(s), next) then None
    else if Bound(next) || (next.Retired? && assignment.Some?) then
      var resolved := Resolve(s.assignment, assignment);
      if resolved.None? || !Validate(Shared(next, resolved)) then None else Some(Shared(next, resolved))
    else if !Validate(Shared(next, s.assignment)) then None
    else Some(Shared(next, s.assignment))
  }

  function OrgOf(s: Shared): Option<string> {
    if s.assignment.Some? then Some(s.assignment.value.org) else None
  }

  /** The edges of the lifecycle. */
  const EDGES := {
    (Idle, Reserved), (Idle, Retired),
    (Reserved, Activating), (Reserved, Retired),
    (Activating, Hot), (Activating, Retired),
    (Hot, HotIdle), (Hot, Draining), (Hot, Retired),
    (HotIdle, Reserved), (HotIdle, Retired),
    (Draining, Retired)}

  lemma AllowedIsEdges(current: Lifecycle, next: Lifecycle)
    ensures Allowed(current, next) <==> (current, next) in EDGES
  {
  }

  /** Idle means unassigned, retired may be either, every other state belongs to a named org. */
  lemma ValidateMeaning(s: Shared)
    ensures Validate(s)
            <==> || (s.lifecycle in {Unset, Idle} && s.assignment == None)
                 || (s.lifecycle == Retired && (s.assignment == None || s.assignment.value.org != ""))
                 || (&& s.lifecycle in {Reserved, Activating, Hot, HotIdle, Draining}
                     && s.assignment.Some? && s.assignment.value.org != "")
  {
  }

  /**
   A transition succeeds exactly when the state is valid, the edge exists, the assignment offered names an
   org, the same one if there is one already, and there is one for a state that needs it.
   */
  lemma TransitionSucceedsIff(s: Shared, next: Lifecycle, a: Option<Assignment>)
    ensures Transition(s, next, a).Some?
            <==> && Validate(s)
                 && (if s.lifecycle == Unset then Idle else s.lifecycle, next) in EDGES
                 && (a.Some? ==> a.value.org != "" && (s.assignment.Some? ==> s.assignment.value.org == a.value.org))
                 && (next == Reserved && s.assignment.None? ==> a.Some?)
    ensures Transition(s, next, a).Some? ==>
              Transition(s, next, a).value == Shared(next, if a.Some? then a else s.assignment)
  {
    AllowedIsEdges(Normalized(s), next);
  }

  /** A transition reaches a valid state, keeps an org once there is one, and neither enters idle nor leaves retired. */
  lemma TransitionMeaning(s: Shared, next: Lifecycle, a: Option<Assignment>)
    requires Transition(s, next, a).Some?
    ensures var t := Transition(s, next, a).value;
            && Validate(t) && t.lifecycle == next
            && (OrgOf(s).Some? ==> OrgOf(t) == OrgOf(s))
            && !Normalized(t).Idle? && !Normalized(s).Retired?
            && (a.None? ==> t.assignment == s.assignment)
  {
  }

  // ---------------------------------------------------------------------------
  // A worker and the operations on it

  datatype Worker = Worker(shared: Shared, owner: string, epoch: int, sessions: int, inPool: bool)

  datatype Activation =
    | Ready
    | InFlight(previous: Option<Shared>)
    | Failed                // state put back, retirement to come
    | Ended

  /** Move, or stay on an error. */
  function Moved(w: Worker, next: Lifecycle): Worker {
    match Transition(w.shared, next, None)
    case Some(t) => w.(shared := t)
    case None => w
  }

  predicate DuplicateClaim(w: Worker, owner: string, epoch: int, a: Assignment) {
    && w.owner == owner && w.epoch == epoch
    && (w.shared.lifecycle.Reserved? || w.shared.lifecycle.Activating?)
    && OrgOf(w.shared) == Some(a.org)
  }

  /** The locked part of `reserveClaimedWorker`: the lease is taken over even when the reservation then fails. */
  function Reserve(w: Worker, owner: string, epoch: int, a: Assignment): Worker {
    if (w.epoch > 0 && epoch < w.epoch) || DuplicateClaim(w, owner, epoch, a) then w
    else
      var w' := w.(owner := owner, epoch := epoch);
      match Transition(w.shared, Reserved, Some(a))
      case Some(t) => w'.(shared := t)
      case None => w'
  }

  function BeginActivation(w: Worker): (Worker, Activation) {
    match Normalized(w.shared)
    case Reserved =>
      if Transition(w.shared, Activating, None).Some? then (Moved(w, Activating), InFlight(Some(w.shared)))
      else (w, Ended)
    case Activating => (w, InFlight(None))
    case _ => (w, Ended)
  }

  function FinishActivation(w: Worker): Worker {
    if Normalized(w.shared).Hot? then w else Moved(w, Hot)
  }

  function RollBack(w: Worker, previous: Option<Shared>): Worker {
    if previous.Some? && Validate(previous.value) then w.(shared := previous.value) else w
  }

  /** Retirement finds the worker in the pool's map or does nothing. */
  function Retire(w: Worker): Worker {
    if w.inPool then Moved(w, Retired).(inPool := false) else w
  }

  function EndSession(w: Worker): Worker {
    if !w.inPool then w
    else
      var w' := if w.sessions > 0 then w.(sessions := w.sessions - 1) else w;
      if w'.sessions != 0 || !Normalized(w.shared).Hot? then w' else Moved(w', HotIdle)
  }

  // --- What the operations come to ---

  /** The last session of a hot worker leaves it hot idle with its assignment. */
  lemma LastSessionIdles(w: Worker)
    requires Validate(w.shared) && w.inPool && w.shared.lifecycle == Hot
    ensures w.sessions in {0, 1} ==> EndSession(w) == w.(sessions := 0, shared := Shared(HotIdle, w.shared.assignment))
    ensures w.sessions > 1 ==> EndSession(w) == w.(sessions := w.sessions - 1)
  {
    TransitionSucceedsIff(w.shared, HotIdle, None);
  }

  /** Any other session end only counts down, and one on a worker out of the pool does nothing. */
  lemma OtherSessionEnds(w: Worker)
    requires !w.inPool || w.shared.lifecycle != Hot
    ensures EndSession(w) == if w.inPool && w.sessions > 0 then w.(sessions := w.sessions - 1) else w
  {
  }

  /** A claim that is not stale takes the lease, and reserves an idle worker, or a hot-idle one of its own org. */
  lemma ClaimReserves(w: Worker, owner: string, epoch: int, a: Assignment)
    requires Validate(w.shared) && a.org != "" && (w.epoch <= 0 || epoch >= w.epoch)
    ensures (|| w.shared.lifecycle in {Unset, Idle}
             || (w.shared.lifecycle == HotIdle && w.shared.assignment.value.org == a.org)) ==>
              Reserve(w, owner, epoch, a) == w.(owner := owner, epoch := epoch, shared := Shared(Reserved, Some(a)))
    ensures w.shared.lifecycle == HotIdle && w.shared.assignment.value.org != a.org ==>
              Reserve(w, owner, epoch, a).shared == w.shared
    ensures w.shared.lifecycle in {Hot, Draining, Retired} ==> Reserve(w, owner, epoch, a).shared == w.shared
  {
    TransitionSucceedsIff(w.shared, Reserved, Some(a));
  }

  /** A claim behind the worker's epoch, or one already under way for the same lease and org, changes nothing. */
  lemma StaleOrRepeatedClaim(w: Worker, owner: string, epoch: int, a: Assignment)
    requires || (w.epoch > 0 && epoch < w.epoch)
             || (&& w.owner == owner && w.epoch == epoch && w.shared.lifecycle in {Reserved, Activating}
                 && w.shared.assignment.Some? && w.shared.assignment.value.org == a.org)
    ensures Reserve(w, owner, epoch, a) == w
  {
  }

  /** The steps of an activation from a reserved worker, one by one. */
  lemma ActivationSteps(w: Worker)
    requires Validate(w.shared) && w.shared.lifecycle == Reserved
    ensures var up := w.(shared := Shared(Activating, w.shared.assignment));
            && BeginActivation(w) == (up, InFlight(Some(w.shared)))
            && BeginActivation(up) == (up, InFlight(None))
            && FinishActivation(up) == w.(shared := Shared(Hot, w.shared.assignment))
            && FinishActivation(FinishActivation(up)) == FinishActivation(up)
            && RollBack(up, Some(w.shared)) == w && RollBack(up, None) == up
            && (w.inPool ==> Retire(up) == w.(shared := Shared(Retired, w.shared.assignment), inPool := false))
            && (!w.inPool ==> Retire(up) == up)
  {
    TransitionSucceedsIff(w.shared, Activating, None);
    TransitionSucceedsIff(Shared(Activating, w.shared.assignment), Hot, None);
    TransitionSucceedsIff(Shared(Activating, w.shared.assignment), Retired, None);
  }

  /** No activation begins from any other state. */
  lemma ActivationNeedsReservation(w: Worker)
    requires w.shared.lifecycle !in {Reserved, Activating}
    ensures BeginActivation(w) == (w, Ended)
  {
  }

  datatype System = System(worker: Worker, activations: seq<Activation>)

  datatype Label =
    | Claim(owner: string, epoch: int, a: Assignment)
    | Advance(k: nat, ok: bool)            // an activation; `ok` is the worker's answer
    | OrgBegin                             // the org pool's own step to activating
    | OrgFinish                            // and to hot
    | StartSession
    | FinishSession
    | RetireWorker
    | Drop                                 // out of the pool's map, not retired
    | Refresh(epoch: int)

  function AdvanceActivation(s: System, k: nat, ok: bool): System
    requires k < |s.activations|
  {
    match s.activations[k]
    case Ready => var (w, a) := BeginActivation(s.worker); System(w, s.activations[k := a])
    case InFlight(previous) =>
      if ok then System(FinishActivation(s.worker), s.activations[k := Ended])
      else System(RollBack(s.worker, previous), s.activations[k := Failed])
    case Failed => System(Retire(s.worker), s.activations[k := Ended])
    case Ended => s
  }

  function Next(s: System, l: Label): System {
    match l
    case Claim(owner, epoch, a) => s.(worker := Reserve(s.worker, owner, epoch, a))
    case Advance(k, ok) => if k < |s.activations| then AdvanceActivation(s, k, ok) else s
    case OrgBegin =>
      s.(worker := if Normalized(s.worker.shared).Reserved? then Moved(s.worker, Activating) else s.worker)
    case OrgFinish => s.(worker := if Normalized(s.worker.shared).Activating? then Moved(s.worker, Hot) else s.worker)
    case StartSession => s.(worker := s.worker.(sessions := s.worker.sessions + 1))
    case FinishSession => s.(worker := EndSession(s.worker))
    case RetireWorker => s.(worker := Retire(s.worker))
    case Drop => s.(worker := s.worker.(inPool := false))
    case Refresh(epoch) => if epoch > s.worker.epoch then s.(worker := s.worker.(epoch := epoch)) else s
  }

  function Exec(s: System, labels: seq<Label>): System
    decreases |labels|
  {
    if labels == [] then s else Exec(Next(s, labels[0]), labels[1..])
  }

  // ---------------------------------------------------------------------------

  /** A state to put back was this worker's, reserved for the org it has now. */
  ghost predicate RollbackOk(shared: Shared, a: Activation) {
    a.InFlight? && a.previous.Some? ==>
      Validate(a.previous.value) && Normalized(a.previous.value).Reserved? && OrgOf(a.previous.value) == OrgOf(shared)
  }

  ghost predicate Inv(s: System) {
    && Validate(s.worker.shared)
    && forall k | 0 <= k < |s.activations| :: RollbackOk(s.worker.shared, s.activations[k])
  }

  /** How a worker's state may move: the org stays once set, and a worker with an org is not idle. */
  ghost predicate Moves(before: Worker, after: Worker) {
    && Validate(after.shared)
    && (OrgOf(before.shared).Some? ==> OrgOf(after.shared) == OrgOf(before.shared))
    && (Normalized(after.shared).Idle? ==> Normalized(before.shared).Idle?)
    && (before.epoch > 0 ==> after.epoch >= before.epoch)
  }

  lemma MovedMoves(w: Worker, next: Lifecycle)
    requires Validate(w.shared)
    ensures Moves(w, Moved(w, next))
  {
    if Transition(w.shared, next, None).Some? {
      TransitionMeaning(w.shared, next, None);
    }
  }

  lemma ReserveMoves(w: Worker, owner: string, epoch: int, a: Assignment)
    requires Validate(w.shared)
    ensures Moves(w, Reserve(w, owner, epoch, a))
  {
    if Transition(w.shared, Reserved, Some(a)).Some? {
      TransitionMeaning(w.shared, Reserved, Some(a));
    }
  }

  lemma ActivationMoves(s: System, k: nat, ok: bool)
    requires Inv(s) && k < |s.activations|
    ensures Moves(s.worker, AdvanceActivation(s, k, ok).worker)
  {
    assert RollbackOk(s.worker.shared, s.activations[k]);
    MovedMoves(s.worker, Activating);
    MovedMoves(s.worker, Hot);
    MovedMoves(s.worker, Retired);
  }

  lemma NextMoves(s: System, l: Label)
    requires Inv(s)
    ensures Moves(s.worker, Next(s, l).worker)
  {
    match l
    case Claim(owner, epoch, a) => ReserveMoves(s.worker, owner, epoch, a);
    case Advance(k, ok) =>
      if k < |s.activations| {
        ActivationMoves(s, k, ok);
      }
    case OrgBegin => MovedMoves(s.worker, Activating);
    case OrgFinish => MovedMoves(s.worker, Hot);
    case FinishSession =>
      MovedMoves(s.worker, HotIdle);
      MovedMoves(s.worker.(sessions := s.worker.sessions - 1), HotIdle);
    case RetireWorker => MovedMoves(s.worker, Retired);
    case _ =>
  }

  lemma NextKeepsInv(s: System, l: Label)
    requires Inv(s)
    ensures Inv(Next(s, l))
  {
    NextMoves(s, l);
    var s' := Next(s, l);
    forall k | 0 <= k < |s'.activations| ensures RollbackOk(s'.worker.shared, s'.activations[k]) {
      assert RollbackOk(s.worker.shared, s.activations[k]);
      KeptOrgKeepsRollback(s.worker, s'.worker, s.activations[k]);
    }
  }

  /** An activation holding a state to put back means the org is set, so it stays the same. */
  lemma KeptOrgKeepsRollback(w: Worker, w': Worker, a: Activation)
    requires RollbackOk(w.shared, a) && Moves(w, w')
    ensures RollbackOk(w'.shared, a)
  {
  }

  lemma {:induction false} ExecKeepsInv(s: System, labels: seq<Label>)
    requires Inv(s)
    ensures Inv(Exec(s, labels)) && Moves(s.worker, Exec(s, labels).worker)
    decreases |labels|
  {
    if labels != [] {
      NextMoves(s, labels[0]);
      NextKeepsInv(s, labels[0]);
      ExecKeepsInv(Next(s, labels[0]), labels[1..]);
    }
  }

  /** A worker fresh from the spawner, and any number of activations to come. */
  ghost predicate Spawned(s: System) {
    && Normalized(s.worker.shared).Idle? && s.worker.shared.assignment.None?
    && forall k | 0 <= k < |s.activations| :: s.activations[k].Ready?
  }

  /**
   Over every run, rollbacks included: a worker once assigned to an org stays with it, is never
   idle again, and its epoch, once positive, never falls.
   */
  lemma OrgNeverChanges(s: System, before: seq<Label>, after: seq<Label>)
    requires Spawned(s)
    ensures var earlier := Exec(s, before).worker; var later := Exec(Exec(s, before), after).worker;
            && Validate(later.shared)
            && (OrgOf(earlier.shared).Some? ==>
                  OrgOf(later.shared) == OrgOf(earlier.shared) && !Normalized(later.shared).Idle?)
            && (earlier.epoch > 0 ==> later.epoch >= earlier.epoch)
  {
    ExecKeepsInv(s, before);
    ExecKeepsInv(Exec(s, before), after);
  }

  /** Retired is left exactly by the rollback of an activation that began from reserved. */
  lemma RetiredIsLeftIffRolledBack(start: System, before: seq<Label>, l: Label)
    requires Spawned(start) && Normalized(Exec(start, before).worker.shared).Retired?
    ensures var s := Exec(start, before);
            !Normalized(Next(s, l).worker.shared).Retired?
            <==> && l.Advance? && !l.ok && l.k < |s.activations|
                 && s.activations[l.k].InFlight? && s.activations[l.k].previous.Some?
  {
    ExecKeepsInv(start, before);
    var s := Exec(start, before);
    if l.Advance? && l.k < |s.activations| {
      assert RollbackOk(s.worker.shared, s.activations[l.k]);
    }
  }

  /** A worker retired during an activation that then fails ends up reserved, and out of the pool. */
  lemma FailedActivationRevivesRetired(org: string)
    requires org != ""
    ensures var s := System(Worker(Shared(Idle, None), "", 0, 0, true), [Ready]);
            var run := [Claim("cp", 1, Assignment(org, 1, "")), Advance(0, true), RetireWorker,
                        Advance(0, false), Advance(0, false)];
            var w := Exec(s, run).worker;
            Spawned(s) && w.shared.lifecycle == Reserved && !w.inPool
  {
    var a := Assignment(org, 1, "");
    var run := [Claim("cp", 1, a), Advance(0, true), RetireWorker, Advance(0, false), Advance(0, false)];
    var s0 := System(Worker(Shared(Idle, None), "", 0, 0, true), [Ready]);
    var s1 := Next(s0, run[0]);
    assert s1 == System(Worker(Shared(Reserved, Some(a)), "cp", 1, 0, true), [Ready]);
    var s2 := Next(s1, run[1]);
    assert s2 == System(s1.worker.(shared := Shared(Activating, Some(a))), [InFlight(Some(s1.worker.shared))]);
    var s3 := Next(s2, run[2]);
    assert s3 == System(Worker(Shared(Retired, Some(a)), "cp", 1, 0, false), s2.activations);
    var s4 := Next(s3, run[3]);
    assert s4 == System(Worker(Shared(Reserved, Some(a)), "cp", 1, 0, false), [Failed]);
    var s5 := Next(s4, run[4]);
    assert s5.worker == s4.worker;
    ExecStep(s0, run);
    ExecStep(s1, run[1..]);
    ExecStep(s2, run[1..][1..]);
    ExecStep(s3, run[1..][1..][1..]);
    ExecStep(s4, run[1..][1..][1..][1..]);
  }

  lemma ExecStep(s: System, labels: seq<Label>)
    requires labels != []
    ensures Exec(s, labels) == Exec(Next(s, labels[0]), labels[1..])
  {
  }

  /** The org pool's own path, undisturbed: reserved, activating, then hot, or retired out of the pool if it fails. */
  lemma OrgPathAlone(s: System, k: nat)
    requires Validate(s.worker.shared) && s.worker.shared.lifecycle == Reserved
    requires k < |s.activations| && s.activations[k] == Ready
    ensures var begun := Next(Next(s, OrgBegin), Advance(k, true));
            var (w, assignment) := (s.worker, s.worker.shared.assignment);
            && Next(s, OrgBegin).worker == begun.worker == w.(shared := Shared(Activating, assignment))
            && Next(begun, Advance(k, true)).worker == w.(shared := Shared(Hot, assignment))
            && Next(Next(begun, Advance(k, true)), OrgFinish).worker == w.(shared := Shared(Hot, assignment))
            && Next(begun, OrgFinish).worker == w.(shared := Shared(Hot, assignment))
            && (w.inPool ==>
                  Next(Next(begun, Advance(k, false)), Advance(k, false)).worker
                  == w.(shared := Shared(Retired, assignment), inPool := false))
  {
    ActivationSteps(s.worker);
  }

  /** A failed activation ends with a retired worker exactly when the worker was still in the pool. */
  lemma FailureRetiresIffInPool(start: System, before: seq<Label>, k: nat)
    requires Spawned(start)
    requires var s := Exec(start, before);
             k < |s.activations| && s.activations[k].InFlight? && s.activations[k].previous.Some?
    ensures var s := Exec(start, before);
            Normalized(Next(Next(s, Advance(k, false)), Advance(k, false)).worker.shared).Retired? <==> s.worker.inPool
  {
    ExecKeepsInv(start, before);
    var s := Exec(start, before);
    assert RollbackOk(s.worker.shared, s.activations[k]);
  }

  // ---------------------------------------------------------------------------
  // The pool operations on one worker

  class ManagedWorker {
    var shared: Shared
    var owner: string
    var epoch: int
    var sessions: int
    var inPool: bool

    constructor ()
      ensures View() == Worker(Shared(Unset, None), "", 0, 0, true)
    {
      shared, owner, epoch, sessions, inPool := Shared(Unset, None), "", 0, 0, true;
    }

    function View(): Worker
      reads this
    {
      Worker(shared, owner, epoch, sessions, inPool)
    }

    /** Refuses an invalid state; every state set through here is valid. */
    method SetSharedState(state: Shared) returns (ok: bool)
      modifies this`shared
      ensures ok == Validate(state)
      ensures shared == if ok then state.(lifecycle := Normalized(state)) else old(shared)
    {
      ok := Validate(state);
      if ok {
        shared := state.(lifecycle := Normalized(state));
      }
    }

    method Move(next: Lifecycle) returns (ok: bool)
      modifies this`shared
      ensures View() == Moved(old(View()), next)
      ensures ok == Transition(old(shared), next, None).Some?
    {
      var t := Transition(shared, next, None);
      if t.None? {
        return false;
      }
      TransitionMeaning(shared, next, None);
      ok := SetSharedState(t.value);
    }

    method ReserveClaimedWorker(owner: string, epoch: int, a: Assignment) returns (ok: bool)
      modifies this
      ensures View() == Reserve(old(View()), owner, epoch, a)
      ensures ok ==> && shared.lifecycle == Reserved && OrgOf(shared) == Some(a.org)
                     && this.epoch == epoch && this.owner == owner
      ensures Validate(old(shared)) && a.org != "" ==>
                (ok <==>
                   && (old(this.epoch) <= 0 || epoch >= old(this.epoch))
                   && (|| old(shared).lifecycle in {Unset, Idle}
                       || (old(shared).lifecycle == HotIdle && OrgOf(old(shared)) == Some(a.org))))
    {
      TransitionSucceedsIff(shared, Reserved, Some(a));
      if this.epoch > 0 && epoch < this.epoch {
        return false;
      }
      if DuplicateClaim(View(), owner, epoch, a) {
        return false;
      }
      this.owner, this.epoch := owner, epoch;
      var t := Transition(shared, Reserved, Some(a));
      if t.None? {
        return false;
      }
      TransitionMeaning(shared, Reserved, Some(a));
      ok := SetSharedState(t.value);
    }

    /** Undisturbed: a reserved or activating worker ends up hot, or retired if it fails inside the pool. */
    method ActivateReservedWorker(succeeds: bool) returns (ok: bool)
      requires Validate(shared)
      modifies this
      ensures ok <==> succeeds && (old(shared).lifecycle.Reserved? || old(shared).lifecycle.Activating?)
      ensures ok ==> View() == old(View()).(shared := Shared(Hot, old(shared).assignment))
      ensures !ok && old(inPool) && (old(shared).lifecycle.Reserved? || old(shared).lifecycle.Activating?) ==>
                shared == Shared(Retired, old(shared).assignment) && !inPool
      ensures !(old(shared).lifecycle.Reserved? || old(shared).lifecycle.Activating?) ==> View() == old(View())
    {
      var previous := None;
      match shared.lifecycle {
        case Reserved =>
          previous := Some(shared);
          var moved := Move(Activating);
          if !moved {
            return false;
          }
        case Activating =>
        case _ => return false;
      }
      if !succeeds {
        if previous.Some? {
          var _ := SetSharedState(previous.value);
        }
        RetireWorkerWithReason();
        return false;
      }
      ok := Move(Hot);
    }

    method RetireWorkerWithReason()
      modifies this
      ensures View() == Retire(old(View()))
    {
      if inPool {
        var _ := Move(Retired);
        inPool := false;
      }
    }

    /** The last session of a hot worker leaves it hot idle; any other only counts down. */
    method TransitionToHotIdleIfNoSessions() returns (idled: bool)
      modifies this`shared, this`sessions
      ensures View() == EndSession(old(View()))
      ensures idled ==> shared.lifecycle == HotIdle && sessions == 0 && OrgOf(shared) == OrgOf(old(shared))
      ensures Validate(old(shared)) ==>
                (idled <==> old(inPool) && old(shared).lifecycle == Hot && old(sessions) in {0, 1})
    {
      TransitionSucceedsIff(shared, HotIdle, None);
      if !inPool {
        return false;
      }
      if sessions > 0 {
        sessions := sessions - 1;
      }
      if sessions != 0 || !Normalized(shared).Hot? {
        return false;
      }
      if Transition(shared, HotIdle, None).Some? {
        TransitionMeaning(shared, HotIdle, None);
      }
      idled := Move(HotIdle);
    }
  }
}
