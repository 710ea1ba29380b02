/**
 Shutting a worker pool down (controlplane/k8s_pool.go, ShutdownAll): per worker, CAS the row to
 draining, delete the pod, CAS the row to retired.  Other control planes, credential refreshes and
 sessions interleave at every point, and the control plane may die after any step.
 */
module Shutdown {
  import opened Prelude
  import opened RuntimeStore

  /** What the pool remembers about a worker. */
  datatype Memory = Memory(epoch: int, activeSessions: int)

  /** Where the loop is within the turn of the worker at the head of `todo`. */
  datatype Phase =
    | Turn                       // look at its sessions
    | MintDrain                  // read its epoch
    | ToDrain(epoch: int)
    | ToDelete
    | MintRetire                 // read its epoch again
    | ToRetire(epoch: int)

  /**
   The last five fields record what this path did, also where the answer was lost; a delete counts as
   failed whenever it is not known to have succeeded.
   */
  datatype System = System(
    rows: Rows, pods: set<int>, memory: map<int, Memory>,
    todo: seq<int>, phase: Phase,
    preserved: set<int>, drained: set<int>, deleted: set<int>, deleteFailed: set<int>, retired: set<int>)

  datatype Label =
    | Step(reply: Reply, now: int)            // the loop; `reply` is how a foreign call ends
    | Refresh(id: int, now: int)              // RefreshOwnerEpochAtomic on a worker of this pool
    | Sessions(id: int, n: int)
    | Pod(id: int, present: bool)
    | Elsewhere(op: Statement, now: int)      // any statement by any control plane

  function NextWorker(s: System): System
    requires s.todo != []
  {
    s.(todo := s.todo[1..], phase := Turn)
  }

  function LoopStep(cp: string, s: System, reply: Reply, now: int): System {
    if s.todo == [] then s
    else
      var id := s.todo[0];
      if id !in s.memory then NextWorker(s)
      else
        match s.phase
        case Turn =>
          if s.memory[id].activeSessions > 0 then NextWorker(s.(preserved := s.preserved + {id}))
          else s.(phase := MintDrain)
        case MintDrain => s.(phase := ToDrain(s.memory[id].epoch))
        case ToDrain(epoch) =>
          var op := MarkDraining(Lease(id, cp, epoch));
          var hit := Hits(s.rows, op) && !reply.Unreached?;
          var s' := s.(rows := Effect(s.rows, op, now, reply), drained := if hit then s.drained + {id} else s.drained);
          if hit && reply.Answered? then s'.(phase := ToDelete) else NextWorker(s')
        case ToDelete =>
          var s' := s.(pods := if reply.Unreached? then s.pods else s.pods - {id});
          if reply.Answered? then s'.(deleted := s.deleted + {id}, phase := MintRetire)
          else NextWorker(s'.(deleteFailed := s.deleteFailed + {id}))
        case MintRetire => s.(phase := ToRetire(s.memory[id].epoch))
        case ToRetire(epoch) =>
          var op := RetireDraining(Lease(id, cp, epoch), "shutdown");
          var hit := Hits(s.rows, op) && !reply.Unreached?;
          NextWorker(s.(rows := Effect(s.rows, op, now, reply), retired := if hit then s.retired + {id} else s.retired))
  }

  function Next(cp: string, s: System, l: Label): System {
    match l
    case Step(reply, now) => LoopStep(cp, s, reply, now)
    case Refresh(id, now) =>
      if id in s.memory && Hits(s.rows, BumpEpoch(Lease(id, cp, s.memory[id].epoch))) then
        s.(rows := Apply(s.rows, BumpEpoch(Lease(id, cp, s.memory[id].epoch)), now),
           memory := s.memory[id := s.memory[id].(epoch := s.memory[id].epoch + 1)])
      else s
    case Sessions(id, n) =>
      if id in s.memory then s.(memory := s.memory[id := s.memory[id].(activeSessions := n)]) else s
    case Pod(id, present) => s.(pods := if present then s.pods + {id} else s.pods - {id})
    case Elsewhere(op, now) => s.(rows := Apply(s.rows, op, now))
  }

  function Exec(cp: string, s: System, labels: seq<Label>): System
    decreases |labels|
  {
    if labels == [] then s else Exec(cp, Next(cp, s, labels[0]), labels[1..])
  }

  function Start(rows: Rows, pods: set<int>, memory: map<int, Memory>, workers: seq<int>): System {
    System(rows, pods, memory, workers, Turn, {}, {}, {}, {}, {})
  }

  // ---------------------------------------------------------------------------

  ghost predicate Touched(s: System, id: int) {
    id in s.preserved || id in s.drained || id in s.deleted || id in s.deleteFailed || id in s.retired
  }

  /** What has been done to the worker whose turn it is. */
  ghost predicate PhaseOk(s: System) {
    s.todo != [] ==>
      var id := s.todo[0];
      match s.phase
      case Turn => !Touched(s, id)
      case MintDrain => !Touched(s, id)
      case ToDrain(_) => !Touched(s, id)
      case ToDelete =>
        id in s.drained && id !in s.preserved && id !in s.deleted && id !in s.deleteFailed && id !in s.retired
      case _ =>
        id in s.drained && id !in s.preserved && id in s.deleted && id !in s.deleteFailed && id !in s.retired
  }

  /** Retired after deleted after drained, and preserved workers untouched. */
  ghost predicate Ordered(s: System) {
    && s.retired <= s.deleted <= s.drained
    && s.deleteFailed <= s.drained - s.deleted
    && s.preserved !! s.drained
  }

  /** Whatever this path drained can only stay draining or be retired. */
  ghost predicate Fenced(s: System) {
    forall id | id in s.drained :: id in s.rows && (s.rows[id].state.Draining? || s.rows[id].state.Retired?)
  }

  ghost predicate Inv(s: System) {
    && Distinct(s.todo)
    && (forall k | 0 < k < |s.todo| :: !Touched(s, s.todo[k]))
    && PhaseOk(s)
    && Ordered(s)
    && Fenced(s)
  }

  lemma EvolvingRowsStayFenced(s: System, rows': Rows)
    requires Fenced(s) && Evolves(s.rows, rows')
    ensures Fenced(s.(rows := rows'))
  {
    forall id | id in s.drained
      ensures id in rows' && (rows'[id].state.Draining? || rows'[id].state.Retired?)
    {
      assert RowEvolves(s.rows[id], rows'[id]);
    }
  }

  lemma LoopKeepsFence(cp: string, s: System, reply: Reply, now: int)
    requires Fenced(s)
    ensures Fenced(LoopStep(cp, s, reply, now))
  {
    if s.todo != [] && s.todo[0] in s.memory {
      var id := s.todo[0];
      if s.phase.ToDrain? {
        var op := MarkDraining(Lease(id, cp, s.phase.epoch));
        StatementEvolves(s.rows, op, now);
        EvolvingRowsStayFenced(s, Apply(s.rows, op, now));
      } else if s.phase.ToRetire? {
        var op := RetireDraining(Lease(id, cp, s.phase.epoch), "shutdown");
        StatementEvolves(s.rows, op, now);
        EvolvingRowsStayFenced(s, Apply(s.rows, op, now));
      }
    }
  }

  /** What one step does to the records: nothing, or one worker's id added to one of them. */
  lemma LoopTouchesHead(cp: string, s: System, reply: Reply, now: int, id: int)
    requires s.todo == [] || id != s.todo[0]
    ensures Touched(LoopStep(cp, s, reply, now), id) <==> Touched(s, id)
  {
  }

  lemma LoopMovesOn(cp: string, s: System, reply: Reply, now: int)
    ensures var s' := LoopStep(cp, s, reply, now);
            s'.todo == s.todo || (s.todo != [] && s'.todo == s.todo[1..] && s'.phase == Turn)
  {
  }

  lemma LoopKeepsRest(cp: string, s: System, reply: Reply, now: int)
    requires Distinct(s.todo) && forall k | 0 < k < |s.todo| :: !Touched(s, s.todo[k])
    ensures var s' := LoopStep(cp, s, reply, now);
            && Distinct(s'.todo)
            && (forall k | 0 < k < |s'.todo| :: !Touched(s', s'.todo[k]))
            && (s'.todo == s.todo || (s.todo != [] && s'.todo == s.todo[1..] && s'.phase == Turn))
            && (s'.todo != s.todo && s'.todo != [] ==> !Touched(s', s'.todo[0]))
  {
    var s' := LoopStep(cp, s, reply, now);
    LoopMovesOn(cp, s, reply, now);
    forall k | 0 < k < |s.todo| ensures !Touched(s', s.todo[k]) {
      assert s.todo[0] != s.todo[k];
      LoopTouchesHead(cp, s, reply, now, s.todo[k]);
    }
  }

  lemma LoopKeepsOrder(cp: string, s: System, reply: Reply, now: int)
    requires PhaseOk(s) && Ordered(s)
    ensures var s' := LoopStep(cp, s, reply, now);
            && Ordered(s') && (s'.todo == s.todo ==> PhaseOk(s'))
  {
  }

  lemma NextKeepsInv(cp: string, s: System, l: Label)
    requires Inv(s)
    ensures Inv(Next(cp, s, l))
  {
    match l
    case Step(reply, now) =>
      LoopKeepsRest(cp, s, reply, now);
      LoopKeepsOrder(cp, s, reply, now);
      LoopKeepsFence(cp, s, reply, now);
    case Refresh(id, now) =>
      if id in s.memory {
        StatementEvolves(s.rows, BumpEpoch(Lease(id, cp, s.memory[id].epoch)), now);
        EvolvingRowsStayFenced(s, Next(cp, s, l).rows);
      }
    case Sessions(id, n) =>
    case Pod(id, present) =>
    case Elsewhere(op, now) =>
      StatementEvolves(s.rows, op, now);
      EvolvingRowsStayFenced(s, Apply(s.rows, op, now));
  }

  lemma {:induction false} ExecKeepsInv(cp: string, s: System, labels: seq<Label>)
    requires Inv(s)
    ensures Inv(Exec(cp, s, labels))
    decreases |labels|
  {
    if labels != [] {
      NextKeepsInv(cp, s, labels[0]);
      ExecKeepsInv(cp, Next(cp, s, labels[0]), labels[1..]);
    }
  }

  /**
   At every point of every run, hence at every crash point: a row this path retired has had its pod
   deleted, a pod it deleted or tried to had its row drained first, a failed delete leaves the row to
   others, and a worker seen with sessions at its turn has neither row nor pod touched.
   */
  lemma RetiredOnlyAfterPodDelete(cp: string, rows: Rows, pods: set<int>, memory: map<int, Memory>, workers: seq<int>,
                                  labels: seq<Label>)
    requires Distinct(workers)
    ensures var s := Exec(cp, Start(rows, pods, memory, workers), labels);
            && s.retired <= s.deleted
            && s.deleted + s.deleteFailed <= s.drained
            && s.retired !! s.deleteFailed
            && s.preserved !! s.drained + s.deleted + s.deleteFailed + s.retired
  {
    ExecKeepsInv(cp, Start(rows, pods, memory, workers), labels);
  }

  /** From its drain on, no claim, takeover or upsert can hit the row of a worker this path tears down. */
  lemma DrainedIsNeverClaimed(cp: string, rows: Rows, pods: set<int>, memory: map<int, Memory>, workers: seq<int>,
                              labels: seq<Label>, op: Statement)
    requires Distinct(workers)
    requires op.ClaimIdle? || op.ClaimHotIdle? || op.TakeOver? || op.Upsert? || op.CreateSlot?
    requires Target(op) in Exec(cp, Start(rows, pods, memory, workers), labels).drained
    ensures !Hits(Exec(cp, Start(rows, pods, memory, workers), labels).rows, op)
  {
    ExecKeepsInv(cp, Start(rows, pods, memory, workers), labels);
  }

  /** A step changes no row and no pod but those of the worker whose turn it is, and none at the session check. */
  lemma LoopWritesOnlyItsTurn(cp: string, s: System, reply: Reply, now: int, id: int)
    ensures var s' := LoopStep(cp, s, reply, now);
            && (s.todo == [] || id != s.todo[0] || s.phase.Turn? ==>
                  && (id in s'.rows <==> id in s.rows) && (id in s.rows ==> s'.rows[id] == s.rows[id])
                  && (id in s'.pods <==> id in s.pods))
  {
  }

  /** The worker's session check lies behind, and it was not preserved. */
  ghost predicate PastCheck(s: System, id: int) {
    && id !in s.preserved && Distinct(s.todo)
    && (id in s.todo ==> s.todo[0] == id && !s.phase.Turn?)
  }

  lemma PastCheckStep(cp: string, s: System, l: Label, id: int)
    requires PastCheck(s, id)
    ensures PastCheck(Next(cp, s, l), id)
  {
    var s' := Next(cp, s, l);
    if s.todo != [] {
      assert s'.todo == s.todo || s'.todo == s.todo[1..];
      assert forall k | 0 < k < |s.todo| :: s.todo[k] != s.todo[0];
    }
  }

  lemma {:induction false} PastCheckStays(cp: string, s: System, labels: seq<Label>, id: int)
    requires PastCheck(s, id)
    ensures id !in Exec(cp, s, labels).preserved
    decreases |labels|
  {
    if labels != [] {
      PastCheckStep(cp, s, labels[0], id);
      PastCheckStays(cp, Next(cp, s, labels[0]), labels[1..], id);
    }
  }

  /** A worker that is preserved at any time: no step of the path touches its row or its pod, before or after. */
  lemma PreservedIsUntouched(cp: string, start: System, before: seq<Label>, after: seq<Label>,
                             reply: Reply, now: int, id: int)
    requires start == Start(start.rows, start.pods, start.memory, start.todo) && Distinct(start.todo)
    requires id in Exec(cp, Exec(cp, start, before), after).preserved
    ensures var s := Exec(cp, start, before);
            var s' := LoopStep(cp, s, reply, now);
            && (id in s'.rows <==> id in s.rows) && (id in s.rows ==> s'.rows[id] == s.rows[id])
            && (id in s'.pods <==> id in s.pods)
  {
    ExecKeepsInv(cp, start, before);
    var s := Exec(cp, start, before);
    LoopWritesOnlyItsTurn(cp, s, reply, now, id);
    if s.todo != [] && s.todo[0] == id && !s.phase.Turn? {
      PastCheckStays(cp, s, after, id);
    }
  }

  // ---------------------------------------------------------------------------
  // The loop on its own

  /** How the three foreign calls of a turn end. */
  datatype Luck = Luck(drain: Reply, delete: Reply, retire: Reply)

  /** The turn gets to the pod delete. */
  predicate Deletes(cp: string, rows: Rows, id: int, w: Memory, luck: Luck) {
    w.activeSessions <= 0 && luck.drain.Answered? && Hits(rows, MarkDraining(Lease(id, cp, w.epoch)))
  }

  /** What ShutdownAll does to one row when nothing interferes. */
  function ShutRow(cp: string, rows: Rows, id: int, w: Memory, luck: Luck, now: int): (r: Rows)
    ensures r.Keys == rows.Keys
  {
    if w.activeSessions > 0 then rows
    else
      var drained := Effect(rows, MarkDraining(Lease(id, cp, w.epoch)), now, luck.drain);
      if !Deletes(cp, rows, id, w, luck) || !luck.delete.Answered? then drained
      else Effect(drained, RetireDraining(Lease(id, cp, w.epoch), "shutdown"), now, luck.retire)
  }

  function ShutPods(cp: string, rows: Rows, pods: set<int>, id: int, w: Memory, luck: Luck): set<int> {
    if Deletes(cp, rows, id, w, luck) && !luck.delete.Unreached? then pods - {id} else pods
  }

  /** A turn touches its own row only, and retires it exactly when it drained it and knows the pod deleted. */
  lemma TurnRetiresIffPodDeletes(cp: string, rows: Rows, id: int, w: Memory, luck: Luck, now: int)
    ensures id in rows ==>
              var drains := && w.activeSessions <= 0 && !luck.drain.Unreached?
                            && HeldBy(rows[id], Lease(id, cp, w.epoch)) && LostEligible(rows[id].state);
              var retires := luck.drain.Answered? && luck.delete.Answered? && !luck.retire.Unreached?;
              var row' := ShutRow(cp, rows, id, w, luck, now)[id];
              && (!drains ==> row' == rows[id])
              && (drains ==> if retires then row'.state.Retired? else row'.state.Draining?)
    ensures forall other | other in rows && other != id :: ShutRow(cp, rows, id, w, luck, now)[other] == rows[other]
  {
  }

  /** The loop's steps for the worker at the head, undisturbed, until its turn is over. */
  function RunTurn(cp: string, s: System, replies: seq<Reply>, now: int): System
    decreases |replies|
  {
    if replies == [] then s
    else
      var s' := LoopStep(cp, s, replies[0], now);
      if s'.todo != s.todo then s' else RunTurn(cp, s', replies[1..], now)
  }

  lemma RunTurnStep(cp: string, s: System, reply: Reply, rest: seq<Reply>, now: int)
    ensures var s' := LoopStep(cp, s, reply, now);
            RunTurn(cp, s, [reply] + rest, now) == if s'.todo != s.todo then s' else RunTurn(cp, s', rest, now)
  {
    assert ([reply] + rest)[1..] == rest;
  }

  function RetireReplies(luck: Luck): seq<Reply> {
    [Answered] + ([luck.retire] + [])
  }

  function DeleteReplies(luck: Luck): seq<Reply> {
    [luck.delete] + RetireReplies(luck)
  }

  function DrainReplies(luck: Luck): seq<Reply> {
    [Answered] + ([luck.drain] + DeleteReplies(luck))
  }

  ghost predicate Ended(s: System, s': System, pods: set<int>, rows: Rows)
    requires s.todo != []
  {
    s'.todo == s.todo[1..] && s'.phase == Turn && s'.pods == pods && s'.rows == rows
  }

  lemma RetiringSteps(cp: string, s: System, luck: Luck, now: int)
    requires s.todo != [] && s.todo[0] in s.memory && s.phase == MintRetire
    ensures var retire := RetireDraining(Lease(s.todo[0], cp, s.memory[s.todo[0]].epoch), "shutdown");
            Ended(s, RunTurn(cp, s, RetireReplies(luck), now), s.pods, Effect(s.rows, retire, now, luck.retire))
  {
    RunTurnStep(cp, s, Answered, [luck.retire] + [], now);
    RunTurnStep(cp, LoopStep(cp, s, Answered, now), luck.retire, [], now);
  }

  lemma DeletingSteps(cp: string, s: System, luck: Luck, now: int)
    requires s.todo != [] && s.todo[0] in s.memory && s.phase == ToDelete
    ensures var retire := RetireDraining(Lease(s.todo[0], cp, s.memory[s.todo[0]].epoch), "shutdown");
            Ended(s, RunTurn(cp, s, DeleteReplies(luck), now),
                  if luck.delete.Unreached? then s.pods else s.pods - {s.todo[0]},
                  if luck.delete.Answered? then Effect(s.rows, retire, now, luck.retire) else s.rows)
  {
    RunTurnStep(cp, s, luck.delete, RetireReplies(luck), now);
    if luck.delete.Answered? {
      RetiringSteps(cp, LoopStep(cp, s, Answered, now), luck, now);
    }
  }

  lemma DrainingSteps(cp: string, s: System, luck: Luck, now: int)
    requires s.todo != [] && s.todo[0] in s.memory && s.phase == MintDrain && s.memory[s.todo[0]].activeSessions <= 0
    ensures var id, w := s.todo[0], s.memory[s.todo[0]];
            Ended(s, RunTurn(cp, s, DrainReplies(luck), now),
                  ShutPods(cp, s.rows, s.pods, id, w, luck), ShutRow(cp, s.rows, id, w, luck, now))
  {
    var s1 := LoopStep(cp, s, Answered, now);
    RunTurnStep(cp, s, Answered, [luck.drain] + DeleteReplies(luck), now);
    RunTurnStep(cp, s1, luck.drain, DeleteReplies(luck), now);
    if Deletes(cp, s.rows, s.todo[0], s.memory[s.todo[0]], luck) {
      DeletingSteps(cp, LoopStep(cp, s1, luck.drain, now), luck, now);
    }
  }

  /** Undisturbed, the stepwise turn leaves the rows and pods that the sequential one does. */
  lemma StepwiseTurnIsShutRow(cp: string, s: System, luck: Luck, now: int)
    requires s.todo != [] && s.todo[0] in s.memory && s.phase == Turn
    ensures var id, w := s.todo[0], s.memory[s.todo[0]];
            Ended(s, RunTurn(cp, s, [Answered] + DrainReplies(luck), now),
                  ShutPods(cp, s.rows, s.pods, id, w, luck), ShutRow(cp, s.rows, id, w, luck, now))
  {
    RunTurnStep(cp, s, Answered, DrainReplies(luck), now);
    if s.memory[s.todo[0]].activeSessions <= 0 {
      DrainingSteps(cp, LoopStep(cp, s, Answered, now), luck, now);
    }
  }

  class WorkerPool {
    const cp: string
    const store: ConfigStore
    var shuttingDown: bool
    var workers: map<int, Memory>
    var pods: set<int>

    constructor (cp: string, store: ConfigStore)
      ensures this.cp == cp && this.store == store && workers == map[] && !shuttingDown
    {
      this.cp, this.store := cp, store;
      shuttingDown, workers, pods := false, map[], {};
    }

    /** One worker's turn; `luck` says how the store and Kubernetes answer. */
    method ShutdownWorker(id: int, w: Memory, luck: Luck, now: int)
      modifies this`pods, store
      ensures store.rows == ShutRow(cp, old(store.rows), id, w, luck, now)
      ensures pods == ShutPods(cp, old(store.rows), old(pods), id, w, luck)
    {
      if w.activeSessions > 0 {
        return;
      }
      var drained := store.Run(MarkDraining(Lease(id, cp, w.epoch)), now, luck.drain);
      if drained.None? || !drained.value {
        return;
      }
      if !luck.delete.Unreached? {
        pods := pods - {id};
      }
      if !luck.delete.Answered? {
        return;
      }
      var _ := store.Run(RetireDraining(Lease(id, cp, w.epoch), "shutdown"), now, luck.retire);
    }

    /**
     The whole loop, workers in any order: exactly the workers with sessions stay in the map, each row
     ends as its own turn leaves it, and exactly the pods whose delete got through are gone.
     */
    method ShutdownAll(luck: int -> Luck, now: int)
      modifies this, store
      ensures shuttingDown
      ensures old(shuttingDown) ==> workers == old(workers) && store.rows == old(store.rows) && pods == old(pods)
      ensures !old(shuttingDown) ==>
                && workers.Keys == (set id | id in old(workers) && old(workers)[id].activeSessions > 0)
                && ShutSoFar(cp, old(store.rows), store.rows, old(workers), {}, luck, now)
                && PodsSoFar(cp, old(store.rows), old(pods), pods, old(workers), {}, luck)
    {
      if shuttingDown {
        return;
      }
      shuttingDown := true;
      ghost var rows0, pods0 := store.rows, pods;
      var all, left, preserved := workers, workers.Keys, map[];
      while left != {}
        invariant left <= all.Keys && workers == all == old(workers) && shuttingDown
        invariant preserved.Keys == set id | id in all && id !in left && all[id].activeSessions > 0
        invariant ShutSoFar(cp, rows0, store.rows, all, left, luck, now)
        invariant PodsSoFar(cp, rows0, pods0, pods, all, left, luck)
        decreases left
      {
        SomeMember(left);
        var id :| id in left;
        PodsTurn(cp, rows0, store.rows, pods0, pods, all, left, id, luck, now);
        ShutTurn(cp, rows0, store.rows, all, left, id, luck, now);
        ShutdownWorker(id, all[id], luck(id), now);
        if all[id].activeSessions > 0 {
          preserved := preserved[id := all[id]];
        }
        left := left - {id};
      }
      workers := preserved;
    }
  }

  /** Every row is as the turn of its own worker leaves it, for the workers no longer in `left`. */
  ghost predicate ShutSoFar(cp: string, rows0: Rows, rows: Rows, all: map<int, Memory>, left: set<int>,
                            luck: int -> Luck, now: int)
  {
    && rows.Keys == rows0.Keys
    && forall id | id in rows0 ::
         rows[id] == if id in all && id !in left then ShutRow(cp, rows0, id, all[id], luck(id), now)[id] else rows0[id]
  }

  /** The pods left: all but those of the workers, no longer in `left`, whose delete got through. */
  ghost predicate PodsSoFar(cp: string, rows0: Rows, pods0: set<int>, pods: set<int>, all: map<int, Memory>,
                            left: set<int>, luck: int -> Luck)
  {
    forall id ::
      id in pods <==> && id in pods0
                      && !(&& id in all && id !in left && Deletes(cp, rows0, id, all[id], luck(id))
                           && !luck(id).delete.Unreached?)
  }

  lemma PodsTurn(cp: string, rows0: Rows, rows: Rows, pods0: set<int>, pods: set<int>, all: map<int, Memory>,
                 left: set<int>, id: int, luck: int -> Luck, now: int)
    requires id in left && id in all && ShutSoFar(cp, rows0, rows, all, left, luck, now)
    requires PodsSoFar(cp, rows0, pods0, pods, all, left, luck)
    ensures PodsSoFar(cp, rows0, pods0, ShutPods(cp, rows, pods, id, all[id], luck(id)), all, left - {id}, luck)
  {
    assert Deletes(cp, rows, id, all[id], luck(id)) == Deletes(cp, rows0, id, all[id], luck(id));
  }

  lemma ShutTurn(cp: string, rows0: Rows, rows: Rows, all: map<int, Memory>, left: set<int>, id: int,
                 luck: int -> Luck, now: int)
    requires id in left && id in all && ShutSoFar(cp, rows0, rows, all, left, luck, now)
    ensures ShutSoFar(cp, rows0, ShutRow(cp, rows, id, all[id], luck(id), now), all, left - {id}, luck, now)
  {
    var rows' := ShutRow(cp, rows, id, all[id], luck(id), now);
    TurnRetiresIffPodDeletes(cp, rows, id, all[id], luck(id), now);
    if id in rows0 {
      assert rows[id] == rows0[id];
      assert rows'[id] == ShutRow(cp, rows0, id, all[id], luck(id), now)[id];
    }
  }
}
