/**
 The elastic pool of worker processes (controlplane/worker_mgr.go): AcquireWorker and what races
 with it.  A spawn is counted in `spawning` from its reservation until after its insertion, in
 three critical sections.  A process may die at any time, also while a critical section looks at it.
 */
module FlightPool {
  import opened Prelude

  datatype Worker = Worker(alive: bool, sessions: int)

  type Workers = map<int, Worker>

  datatype Pool = Pool(workers: Workers, spawning: int, nextId: int, maxWorkers: int, shuttingDown: bool)

  function Live(ws: Workers): set<int> {
    set id | id in ws && ws[id].alive
  }

  function LiveCount(p: Pool): int {
    p.spawning + |Live(p.workers)|
  }

  predicate IsIdle(ws: Workers, id: int) {
    id in ws && ws[id].alive && ws[id].sessions == 0
  }

  predicate HasIdle(ws: Workers) {
    exists id | id in ws :: IsIdle(ws, id)
  }

  predicate IsLeastLoaded(ws: Workers, id: int) {
    id in Live(ws) && forall other | other in ws && ws[other].alive :: ws[id].sessions <= ws[other].sessions
  }

  function WithoutDead(ws: Workers): Workers {
    map id | id in ws && ws[id].alive :: ws[id]
  }

  function AddSession(ws: Workers, id: int): Workers {
    if id in ws then ws[id := ws[id].(sessions := ws[id].sessions + 1)] else ws
  }

  predicate BelowCap(p: Pool) {
    p.maxWorkers == 0 || LiveCount(p) < p.maxWorkers
  }

  // ---------------------------------------------------------------------------
  // The first critical section of AcquireWorker

  datatype Decision = Refused | Claimed(id: int) | Spawn(id: int, replacement: bool) | Again

  /**
   The section looks at each worker up to four times, and a worker may die before each look.  `Deaths`
   says who is found dead first by the idle scan, by the count and by the least-loaded scan; who is
   found dead by the cleaning was dead before, and who dies after its last look dies afterwards.
   */
  datatype Deaths = Deaths(beforeIdle: set<int>, beforeCount: set<int>, beforeLeast: set<int>)

  const NO_DEATHS := Deaths({}, {}, {})

  function Kill(ws: Workers, dead: set<int>): Workers {
    map id | id in ws :: if id in dead then ws[id].(alive := false) else ws[id]
  }

  /** The pool as the idle scan, the count and the least-loaded scan find it. */
  function AtIdle(p: Pool, x: Deaths): Pool {
    p.(workers := Kill(WithoutDead(p.workers), x.beforeIdle))
  }

  function AtCount(p: Pool, x: Deaths): Pool {
    p.(workers := Kill(AtIdle(p, x).workers, x.beforeCount))
  }

  function AtLeast(p: Pool, x: Deaths): Pool {
    p.(workers := Kill(AtCount(p, x).workers, x.beforeLeast))
  }

  /** Map iteration may find any idle worker and any of the least loaded; `pick` says which. */
  predicate PickOk(p: Pool, pick: int, x: Deaths) {
    if HasIdle(AtIdle(p, x).workers) then IsIdle(AtIdle(p, x).workers, pick)
    else
      || BelowCap(AtCount(p, x)) || Live(AtLeast(p, x).workers) == {}
      || IsLeastLoaded(AtLeast(p, x).workers, pick)
  }

  function Reserve(p: Pool): Pool {
    p.(nextId := p.nextId + 1, spawning := p.spawning + 1)
  }

  function WithSession(p: Pool, id: int): Pool {
    p.(workers := AddSession(p.workers, id))
  }

  function Acquire(p: Pool, pick: int, x: Deaths): (Pool, Decision) {
    var (idle, counted, last) := (AtIdle(p, x), AtCount(p, x), AtLeast(p, x));
    if p.shuttingDown then (p, Refused)
    else if HasIdle(idle.workers) then (WithSession(idle, pick), Claimed(pick))
    else if BelowCap(counted) then (Reserve(counted), Spawn(p.nextId, false))
    else if Live(last.workers) != {} then (WithSession(last, pick), Claimed(pick))
    else if p.maxWorkers > 0 && LiveCount(last) >= p.maxWorkers then (last, Again)
    else (Reserve(last), Spawn(p.nextId, true))
  }

  lemma WithoutDeadSameLive(ws: Workers)
    ensures Live(WithoutDead(ws)) == Live(ws)
  {
  }

  lemma AddSessionSameLive(ws: Workers, id: int)
    ensures Live(AddSession(ws, id)) == Live(ws) && AddSession(ws, id).Keys == ws.Keys
  {
  }

  lemma KillLive(ws: Workers, dead: set<int>)
    ensures Live(Kill(ws, dead)) == Live(ws) - dead && Kill(ws, dead).Keys == ws.Keys
    ensures forall id | id in ws :: Kill(ws, dead)[id].sessions == ws[id].sessions
  {
  }

  /** The looks of one section see fewer and fewer live workers, and the entries the cleaning left. */
  lemma LooksShrink(p: Pool, x: Deaths)
    ensures Live(AtIdle(p, x).workers) == Live(p.workers) - x.beforeIdle
    ensures Live(AtCount(p, x).workers) == Live(AtIdle(p, x).workers) - x.beforeCount
    ensures Live(AtLeast(p, x).workers) == Live(AtCount(p, x).workers) - x.beforeLeast
    ensures AtIdle(p, x).workers.Keys == AtCount(p, x).workers.Keys == AtLeast(p, x).workers.Keys == Live(p.workers)
    ensures forall id | id in Live(p.workers) ::
              AtIdle(p, x).workers[id].sessions == AtLeast(p, x).workers[id].sessions == p.workers[id].sessions
  {
    WithoutDeadSameLive(p.workers);
    KillLive(WithoutDead(p.workers), x.beforeIdle);
    KillLive(AtIdle(p, x).workers, x.beforeCount);
    KillLive(AtCount(p, x).workers, x.beforeLeast);
  }

  /**
   What the section amounts to, whoever dies meanwhile: no live worker appears, the cap has room for
   every spawn reserved, a busy worker is shared only at the cap, and only spawns under way make it
   try again.
   */
  lemma AcquireMeaning(p: Pool, pick: int, x: Deaths)
    requires PickOk(p, pick, x)
    ensures var (q, d) := Acquire(p, pick, x);
            && Live(q.workers) <= Live(p.workers) && q.workers.Keys <= p.workers.Keys && q.maxWorkers == p.maxWorkers
            && (d.Spawn? ==> q.spawning == p.spawning + 1 && q.nextId == p.nextId + 1 && d.id == p.nextId)
            && (d.Spawn? && p.maxWorkers > 0 ==> |Live(q.workers)| + q.spawning <= p.maxWorkers)
            && (!d.Spawn? ==> q.spawning == p.spawning && q.nextId == p.nextId)
            && (d.Claimed? ==>
                  && d.id in Live(p.workers) && d.id in q.workers
                  && q.workers[d.id].sessions == p.workers[d.id].sessions + 1
                  && (p.workers[d.id].sessions == 0 || !BelowCap(AtCount(p, x))))
            && (d.Again? ==> Live(q.workers) == {} && p.spawning >= p.maxWorkers > 0)
  {
    LooksShrink(p, x);
    AddSessionSameLive(AtIdle(p, x).workers, pick);
    AddSessionSameLive(AtLeast(p, x).workers, pick);
  }

  /**
   Which way the section goes, by the workers each look finds alive: an idle one if there is any, else a
   new one below the cap, else the least loaded, else a replacement unless spawns fill the cap.
   */
  lemma AcquireDecides(p: Pool, pick: int, x: Deaths)
    requires PickOk(p, pick, x)
    ensures var d := Acquire(p, pick, x).1;
            var seen := (set id | id in p.workers && p.workers[id].alive) - x.beforeIdle;
            var counted := seen - x.beforeCount;
            var last := counted - x.beforeLeast;
            var free := exists id :: id in seen && p.workers[id].sessions == 0;
            var room := p.maxWorkers == 0 || p.spawning + |counted| < p.maxWorkers;
            && (d.Refused? <==> p.shuttingDown)
            && (!p.shuttingDown ==>
                  && (free ==> d.Claimed? && d.id in seen && p.workers[d.id].sessions == 0)
                  && (!free && room ==> d == Spawn(p.nextId, false))
                  && (!free && !room && last != {} ==>
                        && d.Claimed? && d.id in last
                        && forall other | other in last :: p.workers[d.id].sessions <= p.workers[other].sessions)
                  && (!free && !room && last == {} ==>
                        d == if p.maxWorkers > 0 && p.spawning >= p.maxWorkers then Again else Spawn(p.nextId, true)))
  {
    LooksShrink(p, x);
    IdleByLook(p, x);
    assert Live(p.workers) == set id | id in p.workers && p.workers[id].alive;
  }

  lemma IdleByLook(p: Pool, x: Deaths)
    ensures HasIdle(AtIdle(p, x).workers)
            <==> exists id :: id in Live(p.workers) - x.beforeIdle && p.workers[id].sessions == 0
  {
    LooksShrink(p, x);
    var ws := AtIdle(p, x).workers;
    if id :| id in ws && IsIdle(ws, id) {
      assert id in Live(ws);
    }
    if id :| id in Live(p.workers) - x.beforeIdle && p.workers[id].sessions == 0 {
      assert id in Live(ws) && IsIdle(ws, id);
    }
  }

  lemma NobodyLeft(p: Pool, x: Deaths)
    ensures Live(AtLeast(p, x).workers) == {} <==> Live(AtCount(p, x).workers) <= x.beforeLeast
    ensures Live(AtLeast(p, x).workers) == {} ==> LiveCount(AtLeast(p, x)) == p.spawning
  {
    KillLive(AtCount(p, x).workers, x.beforeLeast);
    var counted := Live(AtCount(p, x).workers);
    if counted - x.beforeLeast == {} {
      forall id | id in counted ensures id in x.beforeLeast {
        assert id !in counted - x.beforeLeast;
      }
    }
  }

  /**
   The section's last resort, spawning a replacement when every worker is dead: it is taken exactly when
   the idle scan finds nobody, the count is at the cap, everybody counted is dead by the least-loaded
   scan, and the limit is negative or not used up by spawns under way.
   */
  lemma ReplacementSpawnIff(p: Pool, pick: int, x: Deaths)
    ensures Acquire(p, pick, x).1 == Spawn(p.nextId, true)
            <==> && !p.shuttingDown && !HasIdle(AtIdle(p, x).workers)
                 && p.maxWorkers != 0 && LiveCount(AtCount(p, x)) >= p.maxWorkers
                 && Live(AtCount(p, x).workers) <= x.beforeLeast
                 && (p.maxWorkers < 0 || p.spawning < p.maxWorkers)
  {
    NobodyLeft(p, x);
  }

  /** So under a positive limit somebody was alive at the count, and everybody who was died right after it. */
  lemma ReplacementNeedsADeath(p: Pool, pick: int, x: Deaths)
    requires p.maxWorkers > 0 && Acquire(p, pick, x).1 == Spawn(p.nextId, true)
    ensures Live(AtCount(p, x).workers) != {} && Live(AtCount(p, x).workers) <= x.beforeLeast
  {
    ReplacementSpawnIff(p, pick, x);
  }

  /** The race it is there for: at the cap, the only worker dies between the count and the least-loaded scan. */
  lemma LastWorkerDiesAtTheCap()
    ensures var p := Pool(map[0 := Worker(true, 1)], 0, 1, 1, false);
            var x := Deaths({}, {}, {0});
            PickOk(p, 0, x) && Acquire(p, 0, x).1 == Spawn(1, true)
  {
    var p := Pool(map[0 := Worker(true, 1)], 0, 1, 1, false);
    var x := Deaths({}, {}, {0});
    LooksShrink(p, x);
    assert Live(p.workers) == {0};
    assert forall id | id in AtIdle(p, x).workers :: id == 0 && AtIdle(p, x).workers[id].sessions == 1;
    assert Live(AtLeast(p, x).workers) == {};
    ReplacementSpawnIff(p, 0, x);
  }

  // ---------------------------------------------------------------------------
  // Runs

  datatype Thread =
    | Entering
    | Starting(id: int)                // the process is being started
    | Settling(id: int, ok: bool)      // inserted or failed; `spawning` still counts it
    | Looking(id: int)
    | Claiming(id: int)
    | Done(worker: Option<int>)

  /**
   `exiting` holds the workers out of the map whose processes still run, `reported` the workers for
   which the health check called `onCrash`.
   */
  datatype System = System(pool: Pool, threads: seq<Thread>, exiting: set<int>, reported: seq<int>)

  /** What a step leaves open: the worker map iteration finds, whether a spawn comes up, and who dies meanwhile. */
  datatype Choice = Choice(pick: int, ok: bool, alive: bool, deaths: Deaths)

  datatype Label =
    | Step(k: nat, x: Choice)
    | Release(id: int)
    | Remove(id: int)          // retired or reaped
    | Report(id: int)          // found dead, or unresponsive and killed, by the health check
    | Crash(id: int)
    | Exit(id: int)
    | Shutdown

  function StepThread(p: Pool, t: Thread, x: Choice): (Pool, Thread) {
    match t
    case Entering =>
      if !PickOk(p, x.pick, x.deaths) then (p, t)
      else
        var (q, d) := Acquire(p, x.pick, x.deaths);
        (q, match d
            case Refused => Done(None)
            case Claimed(id) => Done(Some(id))
            case Spawn(id, _) => Starting(id)
            case Again => Entering)
    case Starting(id) =>
      if x.ok then (p.(workers := p.workers[id := Worker(x.alive, 0)]), Settling(id, true))
      else (p, Settling(id, false))
    case Settling(id, started) => (p.(spawning := p.spawning - 1), if started then Looking(id) else Done(None))
    case Looking(id) => (p, if id in p.workers then Claiming(id) else Done(None))
    case Claiming(id) => (p.(workers := AddSession(p.workers, id)), Done(Some(id)))
    case Done(_) => (p, t)
  }

  function TakeOut(s: System, id: int): System {
    s.(pool := s.pool.(workers := s.pool.workers - {id}),
       exiting := if id in Live(s.pool.workers) then s.exiting + {id} else s.exiting)
  }

  function Next(s: System, l: Label): System {
    match l
    case Step(k, x) =>
      if k < |s.threads| then
        var (p, t) := StepThread(s.pool, s.threads[k], x);
        s.(pool := p, threads := s.threads[k := t])
      else s
    case Release(id) =>
      if id in s.pool.workers && s.pool.workers[id].sessions > 0 then
        var w := s.pool.workers[id];
        s.(pool := s.pool.(workers := s.pool.workers[id := w.(sessions := w.sessions - 1)]))
      else s
    case Remove(id) => TakeOut(s, id)
    case Report(id) => if id in s.pool.workers then TakeOut(s, id).(reported := s.reported + [id]) else s
    case Crash(id) =>
      if id in s.pool.workers then
        s.(pool := s.pool.(workers := s.pool.workers[id := s.pool.workers[id].(alive := false)]))
      else s
    case Exit(id) => s.(exiting := s.exiting - {id})
    case Shutdown => s.(pool := s.pool.(shuttingDown := true))
  }

  function Exec(s: System, labels: seq<Label>): System
    decreases |labels|
  {
    if labels == [] then s else Exec(Next(s, labels[0]), labels[1..])
  }

  // ---------------------------------------------------------------------------

  function Bit(b: bool): nat {
    if b then 1 else 0
  }

  /** Spawns started and not yet inserted. */
  ghost function Starts(ts: seq<Thread>): nat {
    if ts == [] then 0 else Starts(ts[..|ts| - 1]) + Bit(ts[|ts| - 1].Starting?)
  }

  /** Spawns inserted or failed, and still counted. */
  ghost function Settles(ts: seq<Thread>): nat {
    if ts == [] then 0 else Settles(ts[..|ts| - 1]) + Bit(ts[|ts| - 1].Settling?)
  }

  lemma {:induction false} CountUpdate(ts: seq<Thread>, k: nat, t: Thread)
    requires k < |ts|
    ensures Starts(ts[k := t]) == Starts(ts) - Bit(ts[k].Starting?) + Bit(t.Starting?)
    ensures Settles(ts[k := t]) == Settles(ts) - Bit(ts[k].Settling?) + Bit(t.Settling?)
    decreases |ts|
  {
    var n := |ts| - 1;
    var ts' := ts[k := t];
    if k == n {
      assert ts'[..n] == ts[..n];
    } else {
      assert ts'[..n] == ts[..n][k := t];
      CountUpdate(ts[..n], k, t);
    }
  }

  /** Ids of spawns under way are new, and each belongs to one acquirer. */
  ghost predicate FreshIds(p: Pool, ts: seq<Thread>) {
    && (forall id | id in p.workers :: id < p.nextId)
    && (forall k | 0 <= k < |ts| && ts[k].Starting? :: ts[k].id < p.nextId && ts[k].id !in p.workers)
    && (forall j, k | 0 <= j < k < |ts| && ts[j].Starting? && ts[k].Starting? :: ts[j].id != ts[k].id)
  }

  ghost predicate Counted(s: System) {
    && s.pool.spawning == Starts(s.threads) + Settles(s.threads)
    && |Live(s.pool.workers)| + Starts(s.threads) <= s.pool.maxWorkers
  }

  ghost predicate Inv(s: System) {
    && s.pool.maxWorkers > 0
    && Counted(s)
    && FreshIds(s.pool, s.threads)
  }

  lemma InsertLive(ws: Workers, id: int, w: Worker)
    ensures |Live(ws[id := w])| <= |Live(ws)| + 1
  {
    assert Live(ws[id := w]) <= Live(ws) + {id};
    SubsetCard(Live(ws[id := w]), Live(ws) + {id});
  }

  lemma StepKeepsCount(s: System, k: nat, x: Choice)
    requires k < |s.threads| && s.pool.maxWorkers > 0 && Counted(s)
    ensures Counted(Next(s, Step(k, x)))
  {
    var t := s.threads[k];
    var (p, t') := StepThread(s.pool, t, x);
    CountUpdate(s.threads, k, t');
    match t
    case Entering =>
      if PickOk(s.pool, x.pick, x.deaths) {
        AcquireMeaning(s.pool, x.pick, x.deaths);
        SubsetCard(Live(p.workers), Live(s.pool.workers));
      }
    case Starting(id) =>
      InsertLive(s.pool.workers, id, Worker(x.alive, 0));
    case Settling(_, _) =>
    case Looking(_) =>
    case Claiming(id) =>
      AddSessionSameLive(s.pool.workers, id);
    case Done(_) =>
  }

  lemma {:induction false} SubsetCard(a: set<int>, b: set<int>)
    requires a <= b
    ensures |a| <= |b|
  {
    if a != {} {
      SomeMember(a);
      var x :| x in a;
      SubsetCard(a - {x}, b - {x});
    }
  }

  /** A thread that does not come to start a process, over no new entries, disturbs no id. */
  lemma IdsKept(p: Pool, p': Pool, ts: seq<Thread>, k: nat, t: Thread)
    requires k < |ts| && FreshIds(p, ts) && p.nextId <= p'.nextId && p'.workers.Keys <= p.workers.Keys
    requires !t.Starting?
    ensures FreshIds(p', ts[k := t])
  {
  }

  lemma IdsReserved(p: Pool, p': Pool, ts: seq<Thread>, k: nat)
    requires k < |ts| && FreshIds(p, ts) && p'.nextId == p.nextId + 1 && p'.workers.Keys <= p.workers.Keys
    ensures FreshIds(p', ts[k := Starting(p.nextId)])
  {
  }

  lemma IdsInserted(p: Pool, ts: seq<Thread>, k: nat, w: Worker, t: Thread)
    requires k < |ts| && FreshIds(p, ts) && ts[k].Starting? && !t.Starting?
    ensures FreshIds(p.(workers := p.workers[ts[k].id := w]), ts[k := t])
  {
    assert forall j | 0 <= j < |ts| && j != k && ts[j].Starting? :: ts[j].id != ts[k].id;
  }

  lemma StepKeepsIds(s: System, k: nat, x: Choice)
    requires k < |s.threads| && s.pool.maxWorkers > 0 && FreshIds(s.pool, s.threads)
    ensures var s' := Next(s, Step(k, x)); FreshIds(s'.pool, s'.threads)
  {
    var t := s.threads[k];
    var (p', t') := StepThread(s.pool, t, x);
    if t.Entering? && PickOk(s.pool, x.pick, x.deaths) {
      AcquireMeaning(s.pool, x.pick, x.deaths);
      if t'.Starting? {
        IdsReserved(s.pool, p', s.threads, k);
      } else {
        IdsKept(s.pool, p', s.threads, k, t');
      }
    } else if t.Starting? && x.ok {
      IdsInserted(s.pool, s.threads, k, Worker(x.alive, 0), t');
    } else {
      AddSessionSameLive(s.pool.workers, if t.Claiming? then t.id else 0);
      IdsKept(s.pool, p', s.threads, k, t');
    }
  }

  lemma NextKeepsInv(s: System, l: Label)
    requires Inv(s)
    ensures Inv(Next(s, l))
  {
    var s' := Next(s, l);
    match l
    case Step(k, x) =>
      if k < |s.threads| {
        StepKeepsCount(s, k, x);
        StepKeepsIds(s, k, x);
        if s.threads[k].Entering? && PickOk(s.pool, x.pick, x.deaths) {
          AcquireMeaning(s.pool, x.pick, x.deaths);
        }
      }
    case _ =>
      assert Live(s'.pool.workers) <= Live(s.pool.workers);
      SubsetCard(Live(s'.pool.workers), Live(s.pool.workers));
  }

  lemma {:induction false} ExecKeepsInv(s: System, labels: seq<Label>)
    requires Inv(s)
    ensures Inv(Exec(s, labels))
    decreases |labels|
  {
    if labels != [] {
      NextKeepsInv(s, labels[0]);
      ExecKeepsInv(Next(s, labels[0]), labels[1..]);
    }
  }

  /** A pool after its pre-warm, within the limit, and any number of acquirers at the door. */
  ghost predicate Prewarmed(s: System) {
    && s.pool.maxWorkers > 0 && s.pool.spawning == 0 && s.exiting == {} && s.reported == []
    && |Live(s.pool.workers)| <= s.pool.maxWorkers
    && (forall id | id in s.pool.workers :: id < s.pool.nextId)
    && (forall k | 0 <= k < |s.threads| :: s.threads[k].Entering?)
  }

  lemma {:induction false} NoneUnderWay(ts: seq<Thread>)
    requires forall k | 0 <= k < |ts| :: !ts[k].Starting? && !ts[k].Settling?
    ensures Starts(ts) == 0 && Settles(ts) == 0
  {
    if ts != [] {
      NoneUnderWay(ts[..|ts| - 1]);
    }
  }

  /** A spawn that comes up ends with its worker in the pool, one session on it, and no spawn counted any more. */
  lemma SpawnAlone(s: System, k: nat, x: Choice)
    requires k < |s.threads| && s.threads[k].Starting?
    ensures var id := s.threads[k].id;
            var two := Next(Next(s, Step(k, x)), Step(k, x));
            var four := Next(Next(two, Step(k, x)), Step(k, x));
            if x.ok
            then four == s.(pool := s.pool.(workers := s.pool.workers[id := Worker(x.alive, 1)],
                                            spawning := s.pool.spawning - 1),
                            threads := s.threads[k := Done(Some(id))])
            else two == s.(pool := s.pool.(spawning := s.pool.spawning - 1), threads := s.threads[k := Done(None)])
  {
    var id, ts := s.threads[k].id, s.threads;
    assert ts[k := Settling(id, x.ok)][k := Done(None)] == ts[k := Done(None)];
    if x.ok {
      var s1 := Next(s, Step(k, x));
      assert s1.threads == ts[k := Settling(id, true)];
      var s2 := Next(s1, Step(k, x));
      assert s2.threads == ts[k := Looking(id)];
      var s3 := Next(s2, Step(k, x));
      assert s3.threads == ts[k := Claiming(id)];
      var s4 := Next(s3, Step(k, x));
      assert s4.threads == ts[k := Done(Some(id))];
      assert s4.pool.workers == s.pool.workers[id := Worker(x.alive, 1)];
    }
  }

  /** In no interleaving do live workers and processes being started together exceed the limit. */
  lemma NeverAboveTheCap(s: System, labels: seq<Label>)
    requires Prewarmed(s)
    ensures var s' := Exec(s, labels);
            |Live(s'.pool.workers)| + Starts(s'.threads) <= s'.pool.maxWorkers
  {
    NoneUnderWay(s.threads);
    ExecKeepsInv(s, labels);
  }

  /** Processes up or coming up. */
  ghost function Processes(s: System): nat {
    |Live(s.pool.workers)| + |s.exiting| + Starts(s.threads)
  }

  /** So processes exceed the limit at most by those on their way out. */
  lemma ProcessesAboveCapAreExiting(s: System, labels: seq<Label>)
    requires Prewarmed(s)
    ensures var s' := Exec(s, labels); Processes(s') <= s'.pool.maxWorkers + |s'.exiting|
  {
    NeverAboveTheCap(s, labels);
  }

  /** The step reserves a spawn. */
  predicate Spawns(p: Pool, t: Thread, x: Choice) {
    t.Entering? && PickOk(p, x.pick, x.deaths) && Acquire(p, x.pick, x.deaths).1.Spawn?
  }

  /** Processes up, coming up or on their way out when the step has seen who died. */
  ghost function ProcessesSeen(s: System, x: Choice): nat {
    |Live(Acquire(s.pool, x.pick, x.deaths).0.workers)| + |s.exiting| + Starts(s.threads)
  }

  lemma StepProcesses(s: System, k: nat, x: Choice)
    requires Inv(s) && k < |s.threads|
    ensures var s' := Next(s, Step(k, x));
            if Spawns(s.pool, s.threads[k], x)
            then Processes(s') == ProcessesSeen(s, x) + 1 && ProcessesSeen(s, x) <= Processes(s)
            else Processes(s') <= Processes(s)
  {
    var t := s.threads[k];
    var (p, t') := StepThread(s.pool, t, x);
    CountUpdate(s.threads, k, t');
    match t
    case Entering =>
      if PickOk(s.pool, x.pick, x.deaths) {
        AcquireMeaning(s.pool, x.pick, x.deaths);
        SubsetCard(Live(p.workers), Live(s.pool.workers));
      }
    case Starting(id) => InsertLive(s.pool.workers, id, Worker(x.alive, 0));
    case Claiming(id) => AddSessionSameLive(s.pool.workers, id);
    case _ =>
  }

  lemma TakeOutProcesses(s: System, id: int)
    ensures Processes(TakeOut(s, id)) <= Processes(s)
  {
    var live := Live(s.pool.workers);
    assert Live(TakeOut(s, id).pool.workers) == live - {id};
  }

  lemma OtherProcesses(s: System, l: Label)
    requires !l.Step?
    ensures Processes(Next(s, l)) <= Processes(s)
  {
    match l
    case Release(id) => assert Live(Next(s, l).pool.workers) == Live(s.pool.workers);
    case Remove(id) => TakeOutProcesses(s, id);
    case Report(id) => TakeOutProcesses(s, id);
    case Crash(id) =>
      assert Live(Next(s, l).pool.workers) == Live(s.pool.workers) - {id};
      SubsetCard(Live(Next(s, l).pool.workers), Live(s.pool.workers));
    case Exit(id) => SubsetCard(s.exiting - {id}, s.exiting);
    case Shutdown =>
  }

  /** From within the limit, a step exceeds it exactly when it spawns with as many processes running or exiting. */
  lemma ProcessCapBreaksIff(start: System, labels: seq<Label>, l: Label)
    requires Prewarmed(start)
    requires var s := Exec(start, labels); Processes(s) <= s.pool.maxWorkers
    ensures var s := Exec(start, labels);
            Processes(Next(s, l)) > s.pool.maxWorkers
            <==> && l.Step? && l.k < |s.threads| && Spawns(s.pool, s.threads[l.k], l.x)
                 && ProcessesSeen(s, l.x) == s.pool.maxWorkers
  {
    NoneUnderWay(start.threads);
    ExecKeepsInv(start, labels);
    var s := Exec(start, labels);
    if l.Step? {
      if l.k < |s.threads| {
        StepProcesses(s, l.k, l.x);
      }
    } else {
      OtherProcesses(s, l);
    }
  }

  /** And they do: a worker is replaced while its process is still shutting down. */
  lemma RetiredProcessOverlapsItsReplacement()
    ensures var s := System(Pool(map[0 := Worker(true, 0)], 0, 1, 1, false), [Entering], {}, []);
            var step := Step(0, Choice(0, true, true, NO_DEATHS));
            Prewarmed(s) && Processes(Exec(s, [Remove(0), step])) == s.pool.maxWorkers + 1
  {
    var s := System(Pool(map[0 := Worker(true, 0)], 0, 1, 1, false), [Entering], {}, []);
    assert Live(s.pool.workers) == {0};
    var s1 := Next(s, Remove(0));
    assert s1.pool.workers == map[] && s1.exiting == {0};
    LooksShrink(s1.pool, NO_DEATHS);
    assert Live(map[]) == {};
    var step := Step(0, Choice(0, true, true, NO_DEATHS));
    var s2 := Next(s1, step);
    assert AtIdle(s1.pool, NO_DEATHS).workers == map[] && AtCount(s1.pool, NO_DEATHS).workers == map[];
    assert s2.threads == [Starting(1)];
    assert s2.pool.workers == map[];
    assert [Starting(1)][..0] == [];
    assert Starts(s2.threads) == 1;
    ExecTwo(s, Remove(0), step);
  }

  lemma ExecTwo(s: System, a: Label, b: Label)
    ensures Exec(s, [a, b]) == Next(Next(s, a), b)
  {
    assert [a, b][1..] == [b] && [b][1..] == [];
    assert Exec(s, [a, b]) == Exec(Next(s, a), [b]) == Exec(Next(Next(s, a), b), []);
  }

  /** `spawning` counts exactly the spawns under way, so it returns to zero when none is. */
  lemma SpawningIsExact(s: System, labels: seq<Label>)
    requires Prewarmed(s)
    ensures var s' := Exec(s, labels);
            && s'.pool.spawning == Starts(s'.threads) + Settles(s'.threads)
            && ((forall k | 0 <= k < |s'.threads| :: !s'.threads[k].Starting? && !s'.threads[k].Settling?) ==>
                  s'.pool.spawning == 0)
  {
    NoneUnderWay(s.threads);
    ExecKeepsInv(s, labels);
    var s' := Exec(s, labels);
    if forall k | 0 <= k < |s'.threads| :: !s'.threads[k].Starting? && !s'.threads[k].Settling? {
      NoneUnderWay(s'.threads);
    }
  }

  /** A finished spawn never overwrites an entry, and no two spawns share an id. */
  lemma SpawnsHaveFreshIds(s: System, labels: seq<Label>)
    requires Prewarmed(s)
    ensures var s' := Exec(s, labels); FreshIds(s'.pool, s'.threads)
  {
    NoneUnderWay(s.threads);
    ExecKeepsInv(s, labels);
  }

  // ---------------------------------------------------------------------------
  // Crash reports

  /** The worker is out of the map, will not come back, and was not reported. */
  ghost predicate Unreported(s: System, id: int) {
    && id < s.pool.nextId && id !in s.pool.workers && id !in s.reported
    && forall k | 0 <= k < |s.threads| && s.threads[k].Starting? :: s.threads[k].id != id
  }

  lemma NextStaysUnreported(s: System, l: Label, id: int)
    requires Unreported(s, id)
    ensures Unreported(Next(s, l), id)
  {
    if l.Step? && l.k < |s.threads| {
      var t := s.threads[l.k];
      if t.Entering? && PickOk(s.pool, l.x.pick, l.x.deaths) {
        AcquireMeaning(s.pool, l.x.pick, l.x.deaths);
      }
    }
  }

  lemma {:induction false} StaysUnreported(s: System, labels: seq<Label>, id: int)
    requires Unreported(s, id)
    ensures Unreported(Exec(s, labels), id)
    decreases |labels|
  {
    if labels != [] {
      NextStaysUnreported(s, labels[0], id);
      StaysUnreported(Next(s, labels[0]), labels[1..], id);
    }
  }

  /** The step runs the first critical section of an acquire, which begins by cleaning the map. */
  predicate Cleans(s: System, l: Label) {
    && l.Step? && l.k < |s.threads| && s.threads[l.k].Entering?
    && !s.pool.shuttingDown && PickOk(s.pool, l.x.pick, l.x.deaths)
  }

  lemma CleaningDropsTheDead(s: System, l: Label, id: int)
    requires Cleans(s, l) && id in s.pool.workers && !s.pool.workers[id].alive
    ensures id !in Next(s, l).pool.workers && Next(s, l).reported == s.reported
  {
    LooksShrink(s.pool, l.x.deaths);
    AddSessionSameLive(AtIdle(s.pool, l.x.deaths).workers, l.x.pick);
    AddSessionSameLive(AtLeast(s.pool, l.x.deaths).workers, l.x.pick);
  }

  /** Any other step keeps the entry, dead, or reports it. */
  lemma OthersKeepTheDead(s: System, l: Label, id: int)
    requires id in s.pool.workers && !s.pool.workers[id].alive && !Cleans(s, l) && l != Remove(id)
    requires FreshIds(s.pool, s.threads)
    ensures var s' := Next(s, l);
            if l == Report(id) then id in s'.reported else id in s'.pool.workers && !s'.pool.workers[id].alive
  {
  }

  lemma StepLosesReportIff(s: System, l: Label, id: int)
    requires id in s.pool.workers && !s.pool.workers[id].alive && id !in s.reported
    requires FreshIds(s.pool, s.threads)
    ensures Unreported(Next(s, l), id) <==> l == Remove(id) || Cleans(s, l)
  {
    if Cleans(s, l) {
      CleaningDropsTheDead(s, l, id);
      AcquireMeaning(s.pool, l.x.pick, l.x.deaths);
    } else if l != Remove(id) {
      OthersKeepTheDead(s, l, id);
    }
  }

  /**
   A step takes the entry of a dead worker away without a report, for good, exactly when it retires the
   worker or is an acquire, whose cleaning gets there before the health check.
   */
  lemma CrashReportLostIff(start: System, labels: seq<Label>, l: Label, more: seq<Label>, id: int)
    requires Prewarmed(start)
    requires var s := Exec(start, labels); id in s.pool.workers && !s.pool.workers[id].alive
    ensures var s := Exec(start, labels);
            && (Unreported(Next(s, l), id) <==> l == Remove(id) || Cleans(s, l))
            && (l == Remove(id) || Cleans(s, l) ==> Unreported(Exec(Next(s, l), more), id))
            && (l == Report(id) ==> id in Next(s, l).reported)
  {
    NoneUnderWay(start.threads);
    ExecKeepsInv(start, labels);
    ExecKeepsReports(start, labels);
    var s := Exec(start, labels);
    StepLosesReportIff(s, l, id);
    if Unreported(Next(s, l), id) {
      StaysUnreported(Next(s, l), more, id);
    }
  }

  ghost predicate ReportsOk(s: System) {
    && Distinct(s.reported)
    && forall id | id in s.reported :: id < s.pool.nextId && id !in s.pool.workers
  }

  lemma NextKeepsReports(s: System, l: Label)
    requires Inv(s) && ReportsOk(s)
    requires forall k | 0 <= k < |s.threads| && s.threads[k].Starting? :: s.threads[k].id !in s.reported
    ensures var s' := Next(s, l);
            && ReportsOk(s')
            && forall k | 0 <= k < |s'.threads| && s'.threads[k].Starting? :: s'.threads[k].id !in s'.reported
  {
    if l.Step? && l.k < |s.threads| {
      if s.threads[l.k].Entering? && PickOk(s.pool, l.x.pick, l.x.deaths) {
        AcquireMeaning(s.pool, l.x.pick, l.x.deaths);
      }
    } else if l.Report? && l.id in s.pool.workers {
      assert forall id :: id in s.reported + [l.id] <==> id in s.reported || id == l.id;
    }
  }

  lemma {:induction false} ExecKeepsReports(s: System, labels: seq<Label>)
    requires Inv(s) && ReportsOk(s)
    requires forall k | 0 <= k < |s.threads| && s.threads[k].Starting? :: s.threads[k].id !in s.reported
    ensures ReportsOk(Exec(s, labels))
    decreases |labels|
  {
    if labels != [] {
      NextKeepsInv(s, labels[0]);
      NextKeepsReports(s, labels[0]);
      ExecKeepsReports(Next(s, labels[0]), labels[1..]);
    }
  }

  /** In every interleaving a worker is reported at most once, and a reported one is out of the map for good. */
  lemma ReportedAtMostOnce(s: System, labels: seq<Label>)
    requires Prewarmed(s)
    ensures var s' := Exec(s, labels); Distinct(s'.reported) && forall id | id in s'.reported :: id !in s'.pool.workers
  {
    NoneUnderWay(s.threads);
    ExecKeepsReports(s, labels);
  }

  /** A run that loses one: a worker with a session dies, and the next acquire comes before the health check. */
  lemma AcquireForgetsACrash()
    ensures var s := System(Pool(map[0 := Worker(true, 1)], 0, 1, 1, false), [Entering], {}, []);
            var step := Step(0, Choice(0, true, true, NO_DEATHS));
            && Prewarmed(s) && s.pool.workers[0].sessions == 1
            && Unreported(Exec(s, [Crash(0), step]), 0)
  {
    var s := System(Pool(map[0 := Worker(true, 1)], 0, 1, 1, false), [Entering], {}, []);
    var step := Step(0, Choice(0, true, true, NO_DEATHS));
    assert Live(s.pool.workers) == {0};
    var s1 := Next(s, Crash(0));
    assert Live(s1.pool.workers) == {};
    LooksShrink(s1.pool, NO_DEATHS);
    assert !HasIdle(AtIdle(s1.pool, NO_DEATHS).workers);
    assert Live(AtLeast(s1.pool, NO_DEATHS).workers) == {};
    CleaningDropsTheDead(s1, step, 0);
    var s2 := Next(s1, step);
    assert s2.threads == [Starting(1)];
    ExecTwo(s, Crash(0), step);
  }

  // ---------------------------------------------------------------------------
  // The pool's critical sections

  /** The workers that came up among the first `n`. */
  ghost predicate Started(ws: Workers, n: int, starts: set<int>) {
    && (forall id | id in ws :: 0 <= id < n && id in starts && ws[id] == Worker(true, 0))
    && (forall id | id in starts && 0 <= id < n :: id in ws)
  }

  class FlightWorkerPool {
    const maxWorkers: int
    var workers: Workers
    var spawning: int
    var nextId: int
    var shuttingDown: bool

    constructor (maxWorkers: int)
      ensures View() == Pool(map[], 0, 0, maxWorkers, false)
    {
      this.maxWorkers := maxWorkers;
      workers, spawning, nextId, shuttingDown := map[], 0, 0, false;
    }

    function View(): Pool
      reads this
    {
      Pool(workers, spawning, nextId, maxWorkers, shuttingDown)
    }

    /**
     Pre-warm, run to its end: on success every id handed out so far is below `nextId`, as acquiring
     needs.  `starts` says which processes come up.
     */
    method SpawnAll(count: nat, starts: set<int>) returns (ok: bool)
      requires workers == map[]
      modifies this`workers, this`nextId
      ensures Started(workers, count, starts) && |workers| <= count
      ensures ok <==> |workers| == count
      ensures nextId == if ok && count > old(nextId) then count else old(nextId)
      ensures ok ==> forall id | id in workers :: id < nextId
    {
      ok := true;
      for id := 0 to count
        invariant Started(workers, id, starts) && |workers| <= id
        invariant ok <==> |workers| == id
        invariant nextId == old(nextId)
      {
        if id in starts {
          workers := workers[id := Worker(true, 0)];
        } else {
          ok := false;
        }
      }
      if ok && count > nextId {
        nextId := count;
      }
    }

    method CleanDeadWorkersLocked()
      modifies this`workers
      ensures workers == WithoutDead(old(workers))
    {
      var all, left := workers, workers.Keys;
      while left != {}
        invariant left <= all.Keys && all == old(workers)
        invariant workers.Keys == set id | id in all && (id in left || all[id].alive)
        invariant forall id | id in workers :: workers[id] == all[id]
        decreases left
      {
        SomeMember(left);
        var id :| id in left;
        if !all[id].alive {
          workers := workers - {id};
        }
        left := left - {id};
      }
      assert workers.Keys == WithoutDead(all).Keys;
      assert forall id | id in workers :: workers[id] == WithoutDead(all)[id];
      assert workers == WithoutDead(all);
    }

    method FindIdleWorkerLocked() returns (idle: Option<int>)
      ensures idle.Some? ==> IsIdle(workers, idle.value)
      ensures idle.None? ==> !HasIdle(workers)
    {
      var left := workers.Keys;
      while left != {}
        invariant left <= workers.Keys
        invariant forall id | id in workers && id !in left :: !IsIdle(workers, id)
        decreases left
      {
        SomeMember(left);
        var id :| id in left;
        if workers[id].alive && workers[id].sessions == 0 {
          return Some(id);
        }
        left := left - {id};
      }
      idle := None;
    }

    method LeastLoadedWorkerLocked() returns (best: Option<int>)
      ensures best.Some? ==> IsLeastLoaded(workers, best.value)
      ensures best.None? <==> Live(workers) == {}
    {
      var left := workers.Keys;
      best := None;
      while left != {}
        invariant left <= workers.Keys
        invariant best.None? ==> forall id | id in workers && workers[id].alive :: id in left
        invariant best.Some? ==> best.value in Live(workers)
        invariant best.Some? ==>
                    forall id | id in workers && workers[id].alive && id !in left ::
                      workers[best.value].sessions <= workers[id].sessions
        decreases left
      {
        SomeMember(left);
        var id :| id in left;
        if workers[id].alive {
          if best.None? || workers[id].sessions < workers[best.value].sessions {
            best := Some(id);
          }
        }
        left := left - {id};
      }
      SomeMember(Live(workers));
    }

    method LiveWorkerCountLocked() returns (count: int)
      ensures count == LiveCount(View())
    {
      count := spawning;
      var left := workers.Keys;
      ghost var seen: set<int> := {};
      while left != {}
        invariant left <= workers.Keys
        invariant seen == set id | id in workers && workers[id].alive && id !in left
        invariant count == spawning + |seen|
        decreases left
      {
        SomeMember(left);
        var id :| id in left;
        if workers[id].alive {
          count := count + 1;
          seen := seen + {id};
        }
        left := left - {id};
      }
      assert seen == Live(workers);
    }

    method AddSessionLocked(id: int)
      modifies this`workers
      ensures workers == AddSession(old(workers), id)
    {
      if id in workers {
        workers := workers[id := workers[id].(sessions := workers[id].sessions + 1)];
      }
    }

    method ReserveLocked() returns (id: int)
      modifies this`nextId, this`spawning
      ensures View() == Reserve(old(View())) && id == old(nextId)
    {
      id := nextId;
      nextId, spawning := nextId + 1, spawning + 1;
    }

    /** Processes die by themselves, under the lock of whoever looks. */
    method Die(dead: set<int>)
      modifies this`workers
      ensures workers == Kill(old(workers), dead)
    {
      workers := Kill(workers, dead);
    }

    /** AcquireWorker up to its first unlock, with the deaths that fall between its looks. */
    method AcquireLocked(x: Deaths) returns (d: Decision, ghost pick: int)
      modifies this
      ensures PickOk(old(View()), pick, x) || old(shuttingDown)
      ensures (View(), d) == Acquire(old(View()), pick, x)
    {
      pick := 0;
      if shuttingDown {
        return Refused, pick;
      }
      CleanDeadWorkersLocked();
      Die(x.beforeIdle);
      var idle := FindIdleWorkerLocked();
      if idle.Some? {
        AddSessionLocked(idle.value);
        return Claimed(idle.value), idle.value;
      }
      Die(x.beforeCount);
      var live := LiveWorkerCountLocked();
      if maxWorkers == 0 || live < maxWorkers {
        var id := ReserveLocked();
        return Spawn(id, false), pick;
      }
      Die(x.beforeLeast);
      var best := LeastLoadedWorkerLocked();
      if best.Some? {
        AddSessionLocked(best.value);
        return Claimed(best.value), best.value;
      }
      live := LiveWorkerCountLocked();
      if maxWorkers > 0 && live >= maxWorkers {
        return Again, pick;
      }
      var id := ReserveLocked();
      return Spawn(id, true), pick;
    }

    /** Gives back one session; a worker without any left leaves the pool if it is to live for one session only. */
    method ReleaseWorker(id: int, retireOnSessionEnd: bool) returns (retired: bool)
      modifies this`workers
      ensures retired <==> id in old(workers) && retireOnSessionEnd && old(workers)[id].sessions in {0, 1}
      ensures retired ==> workers == old(workers) - {id}
      ensures !retired && id in old(workers) && old(workers)[id].sessions > 0 ==>
                workers == old(workers)[id := old(workers)[id].(sessions := old(workers)[id].sessions - 1)]
      ensures !retired && !(id in old(workers) && old(workers)[id].sessions > 0) ==> workers == old(workers)
    {
      if id !in workers {
        return false;
      }
      if workers[id].sessions > 0 {
        workers := workers[id := workers[id].(sessions := workers[id].sessions - 1)];
      }
      if retireOnSessionEnd && workers[id].sessions == 0 {
        workers := workers - {id};
        return true;
      }
      return false;
    }

    /** Returns whether the last claim was released, in which case the worker left the pool. */
    method RetireWorkerIfNoSessions(id: int) returns (retired: bool)
      modifies this`workers
      ensures retired <==> id in old(workers) && old(workers)[id].sessions in {0, 1}
      ensures retired ==> workers == old(workers) - {id}
      ensures !retired && id in old(workers) && old(workers)[id].sessions > 0 ==>
                workers == old(workers)[id := old(workers)[id].(sessions := old(workers)[id].sessions - 1)]
      ensures !retired && !(id in old(workers) && old(workers)[id].sessions > 0) ==> workers == old(workers)
    {
      if id !in workers {
        return false;
      }
      if workers[id].sessions > 0 {
        workers := workers[id := workers[id].(sessions := workers[id].sessions - 1)];
      }
      if workers[id].sessions == 0 {
        workers := workers - {id};
        return true;
      }
      return false;
    }
  }
}
