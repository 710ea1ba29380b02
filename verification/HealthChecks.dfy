/**
 Crash detection (controlplane/k8s_pool.go): HealthCheckLoop and cleanDeadWorkersLocked race to
 deal with dead workers, while rows and leases move underneath them.

 The cleaner holds the pool lock throughout; here its steps may interleave like the loop's.  A
 check may begin on any entry at any time, which covers both triggers (the pod is gone, or too many
 failed probes).
 */
module HealthChecks {
  import opened Prelude
  import opened RuntimeStore

  const CRASH := "crash"

  /** A worker in the pool's map.  `serial` tells apart entries that use the same id in turn. */
  datatype Entry = Entry(serial: nat, owner: string, epoch: int)

  datatype Verdict = Current | AlreadyLost | Stale | Retry

  /** The verdicts on which the health loop reports a crash. */
  predicate Reports(v: Verdict) {
    v.Current? || v.AlreadyLost?
  }

  datatype Stage = AtCas | AtRead | Decided(verdict: Verdict) | Finished

  datatype Check = Check(lease: Lease, cleaner: bool, stage: Stage)

  /** `onCrash` was called for this entry. */
  datatype Notice = Notice(serial: nat, lease: Lease)

  /** `behind` holds the ids whose entry was last refreshed by a bump that never got its answer. */
  datatype System = System(
    rows: Rows, pool: map<int, Entry>, checks: seq<Check>, next: nat, notified: seq<Notice>, behind: set<int>)

  datatype Label =
    | Begin(id: int, cleaner: bool)
    | Advance(k: nat, reply: Reply, now: int)        // `reply` is how the store answers, where it is asked
    | Insert(id: int, owner: string, epoch: int)     // a worker spawned or adopted under its lease
    | Relabel(id: int, owner: string, epoch: int)    // the lease a claim returned
    | Forget(id: int)                                // retired by another path
    | Refresh(id: int, now: int)                     // RefreshOwnerEpochAtomic
    | LostRefresh(id: int, now: int)                 // the same, but the store's answer is lost
    | Elsewhere(op: Statement, now: int)             // any other statement by anyone

  /** An entry without an owner belongs to this control plane. */
  function LeaseOf(cp: string, id: int, e: Entry): Lease {
    Lease(id, if e.owner == "" then cp else e.owner, e.epoch)
  }

  predicate HoldsLease(cp: string, pool: map<int, Entry>, lease: Lease) {
    lease.id in pool && LeaseOf(cp, lease.id, pool[lease.id]) == lease
  }

  /** Reading the record after the CAS missed. */
  function ReadVerdict(cp: string, rows: Rows, lease: Lease): Verdict {
    if lease.id !in rows || rows[lease.id].owner != cp then Stale
    else if rows[lease.id].epoch != lease.epoch then Retry
    else if rows[lease.id].state.Lost? && rows[lease.id].reason == CRASH then AlreadyLost
    else Stale
  }

  function SetStage(s: System, k: nat, stage: Stage): System
    requires k < |s.checks|
  {
    s.(checks := s.checks[k := s.checks[k].(stage := stage)])
  }

  function AdvanceCheck(cp: string, s: System, k: nat, reply: Reply, now: int): System
    requires k < |s.checks|
  {
    var lease := s.checks[k].lease;
    match s.checks[k].stage
    case AtCas =>
      var cas := MarkLost(lease, CRASH);
      if lease.owner != cp then SetStage(s, k, Decided(Stale))
      else SetStage(s.(rows := Effect(s.rows, cas, now, reply)), k,
                    if !reply.Answered? then Finished else if Hits(s.rows, cas) then Decided(Current) else AtRead)
    case AtRead =>
      SetStage(s, k, if reply.Answered? then Decided(ReadVerdict(cp, s.rows, lease)) else Finished)
    case Decided(verdict) =>
      if verdict.Retry? || !HoldsLease(cp, s.pool, lease) then SetStage(s, k, Finished)
      else if verdict.Stale? then SetStage(s.(pool := s.pool - {lease.id}), k, Finished)
      else if s.checks[k].cleaner then SetStage(s, k, Finished)
      else SetStage(s.(pool := s.pool - {lease.id},
                       notified := s.notified + [Notice(s.pool[lease.id].serial, lease)]), k, Finished)
    case Finished => s
  }

  /** A lease this control plane writes into an entry came from the store. */
  predicate Grounded(rows: Rows, lease: Lease) {
    lease.id in rows && lease.epoch <= rows[lease.id].epoch
  }

  /** The lease a slot or a claim returned, as it is written to an entry: the row's own, if the row is ours. */
  predicate Writable(cp: string, rows: Rows, lease: Lease) {
    Grounded(rows, lease) && (rows[lease.id].owner == cp ==> HeldBy(rows[lease.id], lease))
  }

  /** The entry's worker may refresh its own lease. */
  predicate Refreshes(cp: string, s: System, id: int) {
    && id in s.pool && LeaseOf(cp, id, s.pool[id]).owner == cp
    && Hits(s.rows, BumpEpoch(LeaseOf(cp, id, s.pool[id])))
  }

  function Next(cp: string, s: System, l: Label): System {
    match l
    case Begin(id, cleaner) =>
      if id in s.pool then s.(checks := s.checks + [Check(LeaseOf(cp, id, s.pool[id]), cleaner, AtCas)]) else s
    case Advance(k, reply, now) => if k < |s.checks| then AdvanceCheck(cp, s, k, reply, now) else s
    case Insert(id, owner, epoch) =>
      var e := Entry(s.next, owner, epoch);
      if id !in s.pool && Writable(cp, s.rows, LeaseOf(cp, id, e)) then
        s.(pool := s.pool[id := e], next := s.next + 1, behind := s.behind - {id})
      else s
    case Relabel(id, owner, epoch) =>
      if id in s.pool && s.pool[id].epoch < epoch
         && Writable(cp, s.rows, LeaseOf(cp, id, s.pool[id].(owner := owner, epoch := epoch)))
      then
        s.(pool := s.pool[id := s.pool[id].(owner := owner, epoch := epoch)], behind := s.behind - {id})
      else s
    case Forget(id) => s.(pool := s.pool - {id})
    case Refresh(id, now) =>
      if Refreshes(cp, s, id) then
        s.(rows := Apply(s.rows, BumpEpoch(LeaseOf(cp, id, s.pool[id])), now),
           pool := s.pool[id := s.pool[id].(epoch := s.pool[id].epoch + 1)])
      else s
    case LostRefresh(id, now) =>
      if Refreshes(cp, s, id) then
        s.(rows := Apply(s.rows, BumpEpoch(LeaseOf(cp, id, s.pool[id])), now), behind := s.behind + {id})
      else s
    case Elsewhere(op, now) =>
      if op.BumpEpoch? && op.lease.owner == cp && op.lease.id in s.pool then s
      else s.(rows := Apply(s.rows, op, now))
  }

  function Exec(cp: string, s: System, labels: seq<Label>): System
    decreases |labels|
  {
    if labels == [] then s else Exec(cp, Next(cp, s, labels[0]), labels[1..])
  }

  // ---------------------------------------------------------------------------
  // What the rows guarantee about a check in flight

  /** The row says this control plane's worker crashed. */
  ghost predicate Crashed(cp: string, rows: Rows, id: int) {
    id in rows && rows[id].state.Lost? && rows[id].reason == CRASH && rows[id].owner == cp
  }

  /** The lost CAS can never succeed with this lease. */
  ghost predicate CasIsDead(rows: Rows, lease: Lease) {
    lease.id in rows && (Superseded(rows[lease.id], lease) || !LostEligible(rows[lease.id].state))
  }

  /** The row can never come to say that the worker crashed under this lease. */
  ghost predicate CrashIsDead(rows: Rows, lease: Lease) {
    && lease.id in rows
    && var row := rows[lease.id];
       || Superseded(row, lease) || row.state.Draining?
       || (Terminal(row.state) && !(row.state.Lost? && row.reason == CRASH))
  }

  ghost predicate CheckOk(cp: string, rows: Rows, c: Check) {
    && Grounded(rows, c.lease)
    && match c.stage
       case AtRead => c.lease.owner == cp && CasIsDead(rows, c.lease)
       case Decided(Stale) => c.lease.owner == cp ==> CrashIsDead(rows, c.lease)
       case Decided(Retry) => true
       case Decided(_) => c.lease.owner == cp && Crashed(cp, rows, c.lease.id)
       case _ => true
  }

  /** A crash verdict still stands for the row, unless the entry has moved on with the row or is behind it. */
  ghost predicate VerdictStands(s: System, c: Check) {
    c.stage.Decided? && Reports(c.stage.verdict) ==>
      var id := c.lease.id;
      && id in s.rows
      && (|| s.rows[id].epoch == c.lease.epoch
          || (&& s.rows[id].epoch > c.lease.epoch
              && (id in s.pool ==> s.pool[id].epoch > c.lease.epoch || id in s.behind)))
  }

  ghost predicate VerdictsStand(s: System) {
    forall k | 0 <= k < |s.checks| :: VerdictStands(s, s.checks[k])
  }

  ghost predicate BehindOk(s: System) {
    forall id | id in s.behind && id in s.pool :: id in s.rows && s.rows[id].epoch > s.pool[id].epoch
  }

  ghost predicate NoticeOk(cp: string, rows: Rows, n: Notice) {
    n.lease.owner == cp && Grounded(rows, n.lease) && Crashed(cp, rows, n.lease.id)
  }

  lemma EvolvingKeepsCheck(cp: string, rows: Rows, rows': Rows, c: Check)
    requires Evolves(rows, rows') && CheckOk(cp, rows, c)
    ensures CheckOk(cp, rows', c)
  {
    assert RowEvolves(rows[c.lease.id], rows'[c.lease.id]);
  }

  lemma EvolvingKeepsNotice(cp: string, rows: Rows, rows': Rows, n: Notice)
    requires Evolves(rows, rows') && NoticeOk(cp, rows, n)
    ensures NoticeOk(cp, rows', n)
  {
    assert RowEvolves(rows[n.lease.id], rows'[n.lease.id]);
  }

  ghost predicate ChecksOk(cp: string, rows: Rows, checks: seq<Check>) {
    forall k | 0 <= k < |checks| :: CheckOk(cp, rows, checks[k])
  }

  ghost predicate NoticesOk(cp: string, rows: Rows, notified: seq<Notice>) {
    forall k | 0 <= k < |notified| :: NoticeOk(cp, rows, notified[k])
  }

  ghost predicate PoolOk(cp: string, rows: Rows, pool: map<int, Entry>) {
    forall id | id in pool :: Grounded(rows, LeaseOf(cp, id, pool[id]))
  }

  /** Entries have serials of their own, and a notified entry is gone from the map. */
  ghost predicate SerialsOk(pool: map<int, Entry>, next: nat, notified: seq<Notice>) {
    && (forall id | id in pool :: pool[id].serial < next)
    && (forall i, j | i in pool && j in pool && i != j :: pool[i].serial != pool[j].serial)
    && (forall k | 0 <= k < |notified| :: notified[k].serial < next)
    && (forall k, id | 0 <= k < |notified| && id in pool :: notified[k].serial != pool[id].serial)
    && (forall j, k | 0 <= j < k < |notified| :: notified[j].serial != notified[k].serial)
  }

  ghost predicate Consistent(cp: string, s: System) {
    && ChecksOk(cp, s.rows, s.checks)
    && NoticesOk(cp, s.rows, s.notified)
    && PoolOk(cp, s.rows, s.pool)
    && SerialsOk(s.pool, s.next, s.notified)
  }

  ghost predicate Inv(cp: string, s: System) {
    Consistent(cp, s) && VerdictsStand(s) && BehindOk(s)
  }

  lemma RemovalKeepsSerials(pool: map<int, Entry>, next: nat, notified: seq<Notice>, id: int, lease: Lease)
    requires SerialsOk(pool, next, notified)
    ensures SerialsOk(pool - {id}, next, notified)
    ensures id in pool ==> SerialsOk(pool - {id}, next, notified + [Notice(pool[id].serial, lease)])
  {
  }

  lemma InsertKeepsSerials(pool: map<int, Entry>, next: nat, notified: seq<Notice>, id: int, e: Entry)
    requires SerialsOk(pool, next, notified)
    requires if id in pool then e.serial == pool[id].serial else e.serial == next
    ensures SerialsOk(pool[id := e], if id in pool then next else next + 1, notified)
  {
  }

  lemma EvolvingKeepsAll(cp: string, s: System, rows': Rows)
    requires Evolves(s.rows, rows')
    requires ChecksOk(cp, s.rows, s.checks) && NoticesOk(cp, s.rows, s.notified) && PoolOk(cp, s.rows, s.pool)
    ensures ChecksOk(cp, rows', s.checks) && NoticesOk(cp, rows', s.notified) && PoolOk(cp, rows', s.pool)
  {
    forall k | 0 <= k < |s.checks| ensures CheckOk(cp, rows', s.checks[k]) {
      EvolvingKeepsCheck(cp, s.rows, rows', s.checks[k]);
    }
    forall k | 0 <= k < |s.notified| ensures NoticeOk(cp, rows', s.notified[k]) {
      EvolvingKeepsNotice(cp, s.rows, rows', s.notified[k]);
    }
    forall id | id in s.pool ensures Grounded(rows', LeaseOf(cp, id, s.pool[id])) {
      assert RowEvolves(s.rows[id], rows'[id]);
    }
  }

  /** The stage a check reaches is justified by the rows. */
  lemma AdvanceJustified(cp: string, s: System, k: nat, reply: Reply, now: int)
    requires k < |s.checks| && CheckOk(cp, s.rows, s.checks[k])
    ensures var s' := AdvanceCheck(cp, s, k, reply, now);
            CheckOk(cp, s'.rows, s'.checks[k]) && Evolves(s.rows, s'.rows)
  {
    StatementEvolves(s.rows, MarkLost(s.checks[k].lease, CRASH), now);
    assert Evolves(s.rows, s.rows);
  }

  /** A check only ever removes an entry, and reports it only on a crashed row. */
  lemma AdvanceNotices(cp: string, s: System, k: nat, reply: Reply, now: int)
    requires k < |s.checks| && CheckOk(cp, s.rows, s.checks[k])
    ensures var s' := AdvanceCheck(cp, s, k, reply, now);
            var lease := s.checks[k].lease;
            || (s'.pool == s.pool && s'.notified == s.notified)
            || (s'.pool == s.pool - {lease.id} && s'.notified == s.notified)
            || (&& HoldsLease(cp, s.pool, lease) && s'.pool == s.pool - {lease.id} && s'.rows == s.rows
                && s.checks[k].stage.Decided? && Reports(s.checks[k].stage.verdict)
                && s'.notified == s.notified + [Notice(s.pool[lease.id].serial, lease)]
                && NoticeOk(cp, s'.rows, Notice(s.pool[lease.id].serial, lease)))
  {
  }

  /** Nothing but its owner's epoch bump moves the epoch of a lost row. */
  lemma LostRowStandsStill(rows: Rows, op: Statement, now: int, id: int)
    requires id in rows && rows[id].state.Lost?
    requires !(op.BumpEpoch? && op.lease.owner == rows[id].owner && op.lease.id == id)
    ensures var row' := Apply(rows, op, now)[id];
            && row'.state == rows[id].state && row'.reason == rows[id].reason
            && row'.owner == rows[id].owner && row'.epoch == rows[id].epoch
  {
  }

  lemma NextKeepsVerdict(cp: string, s: System, l: Label, k: nat)
    requires k < |s.checks| && CheckOk(cp, s.rows, s.checks[k]) && VerdictStands(s, s.checks[k])
    requires !(l.Advance? && l.k == k)
    ensures var s' := Next(cp, s, l); VerdictStands(s', s.checks[k])
  {
    var c := s.checks[k];
    if c.stage.Decided? && Reports(c.stage.verdict) {
      match l
      case Advance(j, reply, now) =>
        if j < |s.checks| {
          LostRowStandsStill(s.rows, MarkLost(s.checks[j].lease, CRASH), now, c.lease.id);
        }
      case Refresh(id, now) =>
        if Refreshes(cp, s, id) && id != c.lease.id {
          LostRowStandsStill(s.rows, BumpEpoch(LeaseOf(cp, id, s.pool[id])), now, c.lease.id);
        }
      case LostRefresh(id, now) =>
        if Refreshes(cp, s, id) && id != c.lease.id {
          LostRowStandsStill(s.rows, BumpEpoch(LeaseOf(cp, id, s.pool[id])), now, c.lease.id);
        }
      case Elsewhere(op, now) =>
        if !(op.BumpEpoch? && op.lease.owner == cp && op.lease.id == c.lease.id) {
          LostRowStandsStill(s.rows, op, now, c.lease.id);
        }
      case _ =>
    }
  }

  /** A verdict stands when it is reached. */
  lemma AdvanceReachesVerdict(cp: string, s: System, k: nat, reply: Reply, now: int)
    requires k < |s.checks| && CheckOk(cp, s.rows, s.checks[k])
    ensures var s' := AdvanceCheck(cp, s, k, reply, now); VerdictStands(s', s'.checks[k])
  {
  }

  lemma NextKeepsVerdicts(cp: string, s: System, l: Label)
    requires ChecksOk(cp, s.rows, s.checks) && VerdictsStand(s)
    ensures VerdictsStand(Next(cp, s, l))
  {
    var s' := Next(cp, s, l);
    forall k | 0 <= k < |s'.checks| ensures VerdictStands(s', s'.checks[k]) {
      if k < |s.checks| {
        if l.Advance? && l.k == k {
          AdvanceReachesVerdict(cp, s, k, l.reply, l.now);
        } else {
          NextKeepsVerdict(cp, s, l, k);
        }
      }
    }
  }

  lemma AdvanceKeepsConsistent(cp: string, s: System, k: nat, reply: Reply, now: int)
    requires Consistent(cp, s) && k < |s.checks|
    ensures Consistent(cp, AdvanceCheck(cp, s, k, reply, now))
  {
    var s' := AdvanceCheck(cp, s, k, reply, now);
    AdvanceJustified(cp, s, k, reply, now);
    AdvanceNotices(cp, s, k, reply, now);
    EvolvingKeepsAll(cp, s, s'.rows);
    RemovalKeepsSerials(s.pool, s.next, s.notified, s.checks[k].lease.id, s.checks[k].lease);
    assert forall j | 0 <= j < |s.checks| && j != k :: s'.checks[j] == s.checks[j];
  }

  lemma BumpKeepsConsistent(cp: string, s: System, id: int, now: int)
    requires Consistent(cp, s)
    ensures Consistent(cp, Next(cp, s, Refresh(id, now))) && Consistent(cp, Next(cp, s, LostRefresh(id, now)))
  {
    if Refreshes(cp, s, id) {
      var bump := BumpEpoch(LeaseOf(cp, id, s.pool[id]));
      InsertKeepsSerials(s.pool, s.next, s.notified, id, s.pool[id].(epoch := s.pool[id].epoch + 1));
      StatementEvolves(s.rows, bump, now);
      EvolvingKeepsAll(cp, s, Apply(s.rows, bump, now));
    }
  }

  lemma NextKeepsConsistent(cp: string, s: System, l: Label)
    requires Consistent(cp, s)
    ensures Consistent(cp, Next(cp, s, l))
  {
    match l
    case Begin(id, cleaner) =>
    case Advance(k, reply, now) =>
      if k < |s.checks| {
        AdvanceKeepsConsistent(cp, s, k, reply, now);
      }
    case Insert(id, owner, epoch) =>
      if id !in s.pool {
        InsertKeepsSerials(s.pool, s.next, s.notified, id, Entry(s.next, owner, epoch));
      }
    case Relabel(id, owner, epoch) =>
      if id in s.pool {
        InsertKeepsSerials(s.pool, s.next, s.notified, id, s.pool[id].(owner := owner, epoch := epoch));
      }
    case Forget(id) =>
      RemovalKeepsSerials(s.pool, s.next, s.notified, id, Lease(id, cp, 0));
    case Refresh(id, now) =>
      BumpKeepsConsistent(cp, s, id, now);
    case LostRefresh(id, now) =>
      BumpKeepsConsistent(cp, s, id, now);
    case Elsewhere(op, now) =>
      StatementEvolves(s.rows, op, now);
      EvolvingKeepsAll(cp, s, Apply(s.rows, op, now));
  }

  lemma NextEvolves(cp: string, s: System, l: Label)
    ensures Evolves(s.rows, Next(cp, s, l).rows)
  {
    match l
    case Advance(k, reply, now) =>
      if k < |s.checks| {
        StatementEvolves(s.rows, MarkLost(s.checks[k].lease, CRASH), now);
      }
    case Refresh(id, now) =>
      if id in s.pool {
        StatementEvolves(s.rows, BumpEpoch(LeaseOf(cp, id, s.pool[id])), now);
      }
    case LostRefresh(id, now) =>
      if id in s.pool {
        StatementEvolves(s.rows, BumpEpoch(LeaseOf(cp, id, s.pool[id])), now);
      }
    case Elsewhere(op, now) => StatementEvolves(s.rows, op, now);
    case _ =>
  }

  /** An entry that is behind its row stays so until it is relabelled or replaced. */
  lemma NextKeepsEntryBehind(cp: string, s: System, l: Label, id: int)
    requires BehindOk(s) && id in Next(cp, s, l).behind && id in Next(cp, s, l).pool
    ensures id in s.pool
    ensures if id in s.behind then Next(cp, s, l).pool[id] == s.pool[id]
            else l.LostRefresh? && l.id == id && Refreshes(cp, s, id) && Next(cp, s, l).pool == s.pool
  {
  }

  lemma NextKeepsBehind(cp: string, s: System, l: Label)
    requires BehindOk(s)
    ensures BehindOk(Next(cp, s, l))
  {
    var s' := Next(cp, s, l);
    NextEvolves(cp, s, l);
    forall id | id in s'.behind && id in s'.pool ensures id in s'.rows && s'.rows[id].epoch > s'.pool[id].epoch {
      NextKeepsEntryBehind(cp, s, l, id);
      if id in s.behind {
        assert RowEvolves(s.rows[id], s'.rows[id]);
      }
    }
  }

  lemma NextKeepsInv(cp: string, s: System, l: Label)
    requires Inv(cp, s)
    ensures Inv(cp, Next(cp, s, l))
  {
    NextKeepsConsistent(cp, s, l);
    NextKeepsVerdicts(cp, s, l);
    NextKeepsBehind(cp, s, l);
  }

  lemma {:induction false} ExecKeepsInv(cp: string, s: System, labels: seq<Label>)
    requires Inv(cp, s)
    ensures Inv(cp, Exec(cp, s, labels))
    decreases |labels|
  {
    if labels != [] {
      NextKeepsInv(cp, s, labels[0]);
      ExecKeepsInv(cp, Next(cp, s, labels[0]), labels[1..]);
    }
  }

  function Start(rows: Rows): System {
    System(rows, map[], [], 0, [], {})
  }

  // ---------------------------------------------------------------------------
  // Never twice, never for a stale lease, never lost

  /** No entry is reported twice, however many checks race for it, and a reported entry is gone. */
  lemma NotifiedAtMostOnce(cp: string, rows: Rows, labels: seq<Label>)
    ensures var s := Exec(cp, Start(rows), labels);
            && (forall j, k | 0 <= j < k < |s.notified| :: s.notified[j].serial != s.notified[k].serial)
            && (forall k, id | 0 <= k < |s.notified| && id in s.pool :: s.notified[k].serial != s.pool[id].serial)
  {
    ExecKeepsInv(cp, Start(rows), labels);
  }

  /** Every report made so far is for a lease of this control plane whose row says lost by a crash, for good. */
  lemma NotifiedOnlyForCrashes(cp: string, rows: Rows, labels: seq<Label>)
    ensures var s := Exec(cp, Start(rows), labels);
            forall k | 0 <= k < |s.notified| ::
              s.notified[k].lease.owner == cp && Crashed(cp, s.rows, s.notified[k].lease.id)
  {
    ExecKeepsInv(cp, Start(rows), labels);
  }

  /**
   A report is never for a stale lease: any step of any run reports nothing, or one entry, which it
   removes, under the entry's lease and on a crashed row of this control plane.  The row holds that very
   lease at that moment exactly when the entry is not behind a bump whose answer was lost.
   */
  lemma NotifiedUnderTheLeaseOfTheRow(cp: string, rows: Rows, labels: seq<Label>, l: Label)
    ensures var s := Exec(cp, Start(rows), labels);
            var s' := Next(cp, s, l);
            || s'.notified == s.notified
            || (&& |s'.notified| == |s.notified| + 1 && s'.notified[..|s.notified|] == s.notified
                && var n := s'.notified[|s.notified|];
                   && n.lease.owner == cp && Crashed(cp, s.rows, n.lease.id)
                   && (HeldBy(s.rows[n.lease.id], n.lease) <==> n.lease.id !in s.behind)
                   && HoldsLease(cp, s.pool, n.lease) && s.pool[n.lease.id].serial == n.serial
                   && n.lease.id !in s'.pool)
  {
    ExecKeepsInv(cp, Start(rows), labels);
    var s := Exec(cp, Start(rows), labels);
    if l.Advance? && l.k < |s.checks| {
      AdvanceNotices(cp, s, l.k, l.reply, l.now);
      assert VerdictStands(s, s.checks[l.k]);
    }
  }

  /** A run where it is: the bump's answer is lost between the verdict and the report. */
  lemma LostAnswerLeavesTheRowAhead(now: int) returns (rows: Rows, labels: seq<Label>)
    ensures var s := Exec("cp", Start(rows), labels);
            var s' := Next("cp", s, Advance(0, Answered, now));
            && s.notified == [] && s'.notified == [Notice(0, Lease(7, "cp", 3))]
            && 7 in s.behind && 7 in s.rows && s.rows[7].epoch == 4
  {
    rows := map[7 := Row(Hot, "org", "cp", 3, 0, "", "pod")];
    labels := [Insert(7, "cp", 3), Begin(7, false), Advance(0, Answered, now), LostRefresh(7, now)];
    var s0 := Start(rows);
    var s1 := Next("cp", s0, labels[0]);
    assert s1.pool == map[7 := Entry(0, "cp", 3)];
    var s2 := Next("cp", s1, labels[1]);
    assert s2.checks == [Check(Lease(7, "cp", 3), false, AtCas)];
    var s3 := Next("cp", s2, labels[2]);
    assert s3.checks == [Check(Lease(7, "cp", 3), false, Decided(Current))];
    var s4 := Next("cp", s3, labels[3]);
    assert s4.rows[7].epoch == 4 && 7 in s4.behind && s4.pool == s1.pool;
    ExecFour("cp", s0, labels[0], labels[1], labels[2], labels[3]);
  }

  /** An entry whose row says it crashed under the entry's own lease, not yet reported. */
  ghost predicate Pending(cp: string, s: System, id: int, serial: nat) {
    && id in s.pool && s.pool[id].serial == serial
    && Crashed(cp, s.rows, id)
    && LeaseOf(cp, id, s.pool[id]) == Lease(id, cp, s.rows[id].epoch)
  }

  /** The same, or behind such a row by a bump whose answer was lost; and no check is about to drop it. */
  ghost predicate Waiting(cp: string, s: System, id: int, serial: nat) {
    && id in s.pool && s.pool[id].serial == serial
    && Crashed(cp, s.rows, id)
    && LeaseOf(cp, id, s.pool[id]).owner == cp
    && (id !in s.behind ==> s.pool[id].epoch == s.rows[id].epoch)
    && forall k | 0 <= k < |s.checks| && s.checks[k].lease == LeaseOf(cp, id, s.pool[id]) ::
         s.checks[k].stage != Decided(Stale)
  }

  ghost predicate Reported(s: System, serial: nat) {
    exists k :: 0 <= k < |s.notified| && s.notified[k].serial == serial
  }

  /** No check in flight holds that a lease is stale under which the row says crash. */
  lemma NoStaleVerdict(cp: string, s: System, lease: Lease)
    requires ChecksOk(cp, s.rows, s.checks) && Crashed(cp, s.rows, lease.id) && HeldBy(s.rows[lease.id], lease)
    ensures forall k | 0 <= k < |s.checks| && s.checks[k].lease == lease :: s.checks[k].stage != Decided(Stale)
  {
    forall k | 0 <= k < |s.checks| && s.checks[k].lease == lease ensures s.checks[k].stage != Decided(Stale) {
      assert CheckOk(cp, s.rows, s.checks[k]);
    }
  }

  lemma PendingIsWaiting(cp: string, s: System, id: int, serial: nat)
    requires Inv(cp, s)
    ensures Pending(cp, s, id, serial) <==> Waiting(cp, s, id, serial) && id !in s.behind
  {
    if Pending(cp, s, id, serial) {
      NoStaleVerdict(cp, s, LeaseOf(cp, id, s.pool[id]));
    }
  }

  lemma AdvanceKeepsWaiting(cp: string, s: System, k: nat, reply: Reply, now: int, id: int, serial: nat)
    requires k < |s.checks| && CheckOk(cp, s.rows, s.checks[k]) && Waiting(cp, s, id, serial)
    ensures var s' := AdvanceCheck(cp, s, k, reply, now);
            Waiting(cp, s', id, serial) || Reported(s', serial)
  {
    var s' := AdvanceCheck(cp, s, k, reply, now);
    LostRowStandsStill(s.rows, MarkLost(s.checks[k].lease, CRASH), now, id);
    if id !in s'.pool {
      assert s'.notified[|s.notified|].serial == serial;
    } else {
      assert forall j | 0 <= j < |s.checks| && j != k :: s'.checks[j] == s.checks[j];
    }
  }

  /** Same entry, same row, same checks: still waiting. */
  lemma WaitingSame(cp: string, s: System, s': System, id: int, serial: nat)
    requires Waiting(cp, s, id, serial) && id in s'.pool && s'.pool[id] == s.pool[id] && s'.checks == s.checks
    requires s.behind <= s'.behind || (id in s.behind <==> id in s'.behind)
    requires && id in s'.rows && s'.rows[id].state == s.rows[id].state && s'.rows[id].reason == s.rows[id].reason
             && s'.rows[id].owner == s.rows[id].owner
             && (s'.rows[id].epoch == s.rows[id].epoch || id in s'.behind)
    ensures Waiting(cp, s', id, serial)
  {
  }

  /** An entry that holds exactly the lease of its crashed row waits for its report. */
  lemma WaitingUnderTheRow(cp: string, s: System, l: Label, id: int, serial: nat)
    requires Consistent(cp, s)
    requires var s' := Next(cp, s, l);
             && id in s'.pool && s'.pool[id].serial == serial
             && Crashed(cp, s'.rows, id) && HeldBy(s'.rows[id], LeaseOf(cp, id, s'.pool[id]))
    ensures Waiting(cp, Next(cp, s, l), id, serial)
  {
    var s' := Next(cp, s, l);
    NextKeepsConsistent(cp, s, l);
    NoStaleVerdict(cp, s', LeaseOf(cp, id, s'.pool[id]));
  }

  lemma BumpKeepsWaiting(cp: string, s: System, l: Label, id: int, serial: nat)
    requires Consistent(cp, s) && Waiting(cp, s, id, serial) && (l.Refresh? || l.LostRefresh?) && Refreshes(cp, s, l.id)
    ensures Waiting(cp, Next(cp, s, l), id, serial)
  {
    var s' := Next(cp, s, l);
    if l.id != id {
      LostRowStandsStill(s.rows, BumpEpoch(LeaseOf(cp, l.id, s.pool[l.id])), l.now, id);
      WaitingSame(cp, s, s', id, serial);
    } else if l.Refresh? {
      WaitingUnderTheRow(cp, s, l, id, serial);
    } else {
      WaitingSame(cp, s, s', id, serial);
    }
  }

  lemma NextKeepsWaiting(cp: string, s: System, l: Label, id: int, serial: nat)
    requires Consistent(cp, s) && Waiting(cp, s, id, serial) && l != Forget(id)
    ensures Waiting(cp, Next(cp, s, l), id, serial) || Reported(Next(cp, s, l), serial)
  {
    var s' := Next(cp, s, l);
    if s' != s {
      match l
      case Begin(_, _) =>
        assert forall k | 0 <= k < |s.checks| :: s'.checks[k] == s.checks[k];
      case Advance(k, reply, now) => AdvanceKeepsWaiting(cp, s, k, reply, now, id, serial);
      case Insert(_, _, _) => WaitingSame(cp, s, s', id, serial);
      case Relabel(other, _, _) =>
        if other == id {
          WaitingUnderTheRow(cp, s, l, id, serial);
        } else {
          WaitingSame(cp, s, s', id, serial);
        }
      case Forget(_) => WaitingSame(cp, s, s', id, serial);
      case Refresh(_, _) => BumpKeepsWaiting(cp, s, l, id, serial);
      case LostRefresh(_, _) => BumpKeepsWaiting(cp, s, l, id, serial);
      case Elsewhere(op, now) =>
        LostRowStandsStill(s.rows, op, now, id);
        WaitingSame(cp, s, s', id, serial);
    }
  }

  lemma NextKeepsReports(cp: string, s: System, l: Label, serial: nat)
    requires Reported(s, serial)
    ensures Reported(Next(cp, s, l), serial)
  {
    var k :| 0 <= k < |s.notified| && s.notified[k].serial == serial;
    assert Next(cp, s, l).notified[k] == s.notified[k];
  }

  lemma {:induction false} WaitingUntilReported(cp: string, s: System, labels: seq<Label>, id: int, serial: nat)
    requires Inv(cp, s) && (Waiting(cp, s, id, serial) || Reported(s, serial)) && Forget(id) !in labels
    ensures var s' := Exec(cp, s, labels); Waiting(cp, s', id, serial) || Reported(s', serial)
    decreases |labels|
  {
    if labels != [] {
      NextKeepsInv(cp, s, labels[0]);
      if Reported(s, serial) {
        NextKeepsReports(cp, s, labels[0], serial);
      } else {
        NextKeepsWaiting(cp, s, labels[0], id, serial);
      }
      WaitingUntilReported(cp, Next(cp, s, labels[0]), labels[1..], id, serial);
    }
  }

  /**
   Once the row says crash under the entry's own lease, no interleaving of checks, cleaners, lease
   changes and other statements drops the entry unreported; only another retirement path may take it.
   */
  lemma CrashIsNeverLost(cp: string, rows: Rows, before: seq<Label>, after: seq<Label>, id: int, serial: nat)
    requires Pending(cp, Exec(cp, Start(rows), before), id, serial) && Forget(id) !in after
    ensures var s' := Exec(cp, Exec(cp, Start(rows), before), after);
            Waiting(cp, s', id, serial) || Reported(s', serial)
  {
    var s := Exec(cp, Start(rows), before);
    ExecKeepsInv(cp, Start(rows), before);
    PendingIsWaiting(cp, s, id, serial);
    WaitingUntilReported(cp, s, after, id, serial);
  }

  /**
   And an undisturbed health check of such an entry removes and reports it, exactly unless the entry is
   behind a bump whose answer was lost: then it is left to retry, as it is.
   */
  lemma NextTickReportsIff(cp: string, rows: Rows, labels: seq<Label>, id: int, serial: nat, now: int)
    requires Waiting(cp, Exec(cp, Start(rows), labels), id, serial)
    ensures var s := Exec(cp, Start(rows), labels);
            var step := Advance(|s.checks|, Answered, now);
            var s' := Exec(cp, s, [Begin(id, false), step, step, step]);
            && (id !in s.behind ==> Reported(s', serial) && id !in s'.pool)
            && (id in s.behind ==> s'.notified == s.notified && s'.pool == s.pool)
  {
    ExecKeepsInv(cp, Start(rows), labels);
    var s := Exec(cp, Start(rows), labels);
    var k := |s.checks|;
    var lease := LeaseOf(cp, id, s.pool[id]);
    var step := Advance(k, Answered, now);
    var s1 := Next(cp, s, Begin(id, false));
    var s2 := Next(cp, s1, step);
    assert s2.checks[k] == Check(lease, false, AtRead);
    var s3 := Next(cp, s2, step);
    assert s3.checks[k] == Check(lease, false, Decided(if id in s.behind then Retry else AlreadyLost));
    var s4 := Next(cp, s3, step);
    if id !in s.behind {
      assert s4.notified[|s.notified|].serial == serial;
    }
    ExecFour(cp, s, Begin(id, false), step, step, step);
  }

  lemma ExecFour(cp: string, s: System, a: Label, b: Label, c: Label, d: Label)
    ensures Exec(cp, s, [a, b, c, d]) == Next(cp, Next(cp, Next(cp, Next(cp, s, a), b), c), d)
  {
    var s1 := Next(cp, s, a);
    var s2 := Next(cp, s1, b);
    var s3 := Next(cp, s2, c);
    assert [a, b, c, d][1..] == [b, c, d] && [b, c, d][1..] == [c, d] && [c, d][1..] == [d] && [d][1..] == [];
    assert Exec(cp, s, [a, b, c, d]) == Exec(cp, s1, [b, c, d]);
    assert Exec(cp, s1, [b, c, d]) == Exec(cp, s2, [c, d]);
    assert Exec(cp, s2, [c, d]) == Exec(cp, s3, [d]);
    assert Exec(cp, s3, [d]) == Exec(cp, Next(cp, s3, d), []);
  }

  // ---------------------------------------------------------------------------
  // The operations, one at a time

  /** How the store serves one check: the reply to its CAS, and whether the record could be read. */
  datatype Link = Link(cas: Reply, readable: bool)

  const SERVED := Link(Answered, true)

  /** What a whole check concludes when nothing interferes; errors of the store lead to a retry. */
  function Judge(cp: string, rows: Rows, lease: Lease, link: Link): Verdict {
    if lease.owner != cp then Stale
    else if !link.cas.Answered? then Retry
    else if Hits(rows, MarkLost(lease, CRASH)) then Current
    else if !link.readable then Retry
    else ReadVerdict(cp, rows, lease)
  }

  function Judged(cp: string, rows: Rows, lease: Lease, now: int, reply: Reply): (r: Rows)
    ensures r.Keys == rows.Keys
  {
    if lease.owner != cp then rows else Effect(rows, MarkLost(lease, CRASH), now, reply)
  }

  /**
   A verdict, by what the row says of the lease: reported exactly when it is, or by this call becomes,
   lost by a crash under that lease.  An error can only turn a verdict into a retry.
   */
  lemma JudgeMeaning(cp: string, rows: Rows, lease: Lease, now: int, link: Link)
    ensures var v := Judge(cp, rows, lease, SERVED);
            && (Reports(v)
                <==> && lease.owner == cp && Crashed(cp, Judged(cp, rows, lease, now, Answered), lease.id)
                     && rows[lease.id].epoch == lease.epoch)
            && (v.Retry?
                <==> && lease.owner == cp && lease.id in rows && rows[lease.id].owner == cp
                     && rows[lease.id].epoch != lease.epoch)
    ensures Judge(cp, rows, lease, link) == Judge(cp, rows, lease, SERVED) || Judge(cp, rows, lease, link).Retry?
    ensures Judge(cp, rows, lease, link).Retry? ==>
              Judge(cp, rows, lease, SERVED).Retry? || !link.cas.Answered? || !link.readable
  {
  }

  /** The cleaner's check, whatever its replies, leaves a later health check to conclude the same. */
  lemma CleanerLeavesTheReport(cp: string, rows: Rows, lease: Lease, now: int, reply: Reply)
    ensures var later := Judge(cp, Judged(cp, rows, lease, now, reply), lease, SERVED);
            && (Reports(later) <==> Reports(Judge(cp, rows, lease, SERVED)))
            && (later.Stale? <==> Judge(cp, rows, lease, SERVED).Stale?)
  {
  }

  /** A check in flight, run to its end undisturbed, does what the verdict says. */
  lemma StepwiseCheckIsJudge(cp: string, s: System, k: nat, now: int, link: Link)
    requires k < |s.checks| && s.checks[k].stage == AtCas
    ensures var c, v := s.checks[k], Judge(cp, s.rows, s.checks[k].lease, link);
            var holds := HoldsLease(cp, s.pool, c.lease);
            var read := if link.readable then Answered else Unreached;
            var s1 := AdvanceCheck(cp, s, k, link.cas, now);
            var s2 := AdvanceCheck(cp, s1, k, read, now);
            var s3 := AdvanceCheck(cp, s2, k, read, now);
            && s3.checks[k].stage == Finished && s3.rows == Judged(cp, s.rows, c.lease, now, link.cas)
            && s3.pool == (if holds && (v.Stale? || (Reports(v) && !c.cleaner)) then s.pool - {c.lease.id} else s.pool)
            && s3.notified == (if holds && Reports(v) && !c.cleaner
                               then s.notified + [Notice(s.pool[c.lease.id].serial, c.lease)] else s.notified)
  {
    var v := Judge(cp, s.rows, s.checks[k].lease, link);
    var read := if link.readable then Answered else Unreached;
    var s1 := AdvanceCheck(cp, s, k, link.cas, now);
    var s2 := AdvanceCheck(cp, s1, k, read, now);
    assert s1.checks[k].stage in {AtRead, Finished, Decided(v)};
    assert s2.checks[k].stage in {Finished, Decided(v)};
  }

  /** A worker without an owner counts as this control plane's: found dead on its own row, it is reported. */
  lemma OwnerlessWorkerIsReported(cp: string, s: System, id: int, now: int)
    requires id in s.pool && s.pool[id].owner == ""
    requires id in s.rows && s.rows[id].owner == cp && s.rows[id].epoch == s.pool[id].epoch
    requires s.rows[id].state in IN_USE
    ensures var step := Advance(|s.checks|, Answered, now);
            var s' := Exec(cp, s, [Begin(id, false), step, step, step]);
            && s'.notified == s.notified + [Notice(s.pool[id].serial, Lease(id, cp, s.pool[id].epoch))]
            && id !in s'.pool && Crashed(cp, s'.rows, id)
  {
    var k := |s.checks|;
    var step := Advance(k, Answered, now);
    var s1 := Next(cp, s, Begin(id, false));
    assert s1.checks[k] == Check(Lease(id, cp, s.pool[id].epoch), false, AtCas);
    StepwiseCheckIsJudge(cp, s1, k, now, SERVED);
    ExecFour(cp, s, Begin(id, false), step, step, step);
  }

  /** A pool without a runtime store takes every dead worker for crashed. */
  function Decide(cp: string, hasStore: bool, rows: Rows, lease: Lease, link: Link): Verdict {
    if hasStore then Judge(cp, rows, lease, link) else Current
  }

  function Settled(cp: string, hasStore: bool, rows: Rows, lease: Lease, now: int, link: Link): (r: Rows)
    ensures r.Keys == rows.Keys
  {
    if hasStore then Judged(cp, rows, lease, now, link.cas) else rows
  }

  lemma WithoutStoreEveryDeathIsACrash(cp: string, rows: Rows, lease: Lease, now: int, link: Link)
    ensures Reports(Decide(cp, false, rows, lease, link)) && Settled(cp, false, rows, lease, now, link) == rows
  {
  }

  /** The cleaner drops a dead entry under a stale lease, and any dead entry when there is no store. */
  predicate Drops(cp: string, hasStore: bool, rows: Rows, id: int, e: Entry, link: Link) {
    !hasStore || Judge(cp, rows, LeaseOf(cp, id, e), link).Stale?
  }

  /** So it takes away a worker that a health check would report exactly when there is no store. */
  lemma CleanerLosesTheReportIff(cp: string, hasStore: bool, rows: Rows, id: int, e: Entry, link: Link)
    requires Reports(Decide(cp, hasStore, rows, LeaseOf(cp, id, e), SERVED))
    ensures Drops(cp, hasStore, rows, id, e, link) <==> !hasStore
  {
  }

  class HealthMonitor {
    const cp: string
    const hasStore: bool
    const store: ConfigStore        // consulted only if there is one
    var workers: map<int, Entry>
    var notified: seq<Notice>

    constructor (cp: string, hasStore: bool, store: ConfigStore)
      ensures this.cp == cp && this.hasStore == hasStore && this.store == store && workers == map[] && notified == []
    {
      this.cp, this.hasStore, this.store := cp, hasStore, store;
      workers, notified := map[], [];
    }

    /** Retry also stands for an error of the store, on which every caller does nothing. */
    method MarkWorkerLostForHealthLease(lease: Lease, now: int, link: Link) returns (v: Verdict)
      modifies store
      ensures store.rows == Settled(cp, hasStore, old(store.rows), lease, now, link)
      ensures v == Decide(cp, hasStore, old(store.rows), lease, link)
      ensures hasStore && Reports(v) ==> Crashed(cp, store.rows, lease.id) && HeldBy(store.rows[lease.id], lease)
    {
      if !hasStore {
        return Current;
      }
      if lease.owner != cp {
        return Stale;
      }
      var current := store.Run(MarkLost(lease, CRASH), now, link.cas);
      if current.None? {
        return Retry;
      }
      if current.value {
        return Current;
      }
      if !link.readable {
        return Retry;
      }
      if lease.id !in store.rows || store.rows[lease.id].owner != cp {
        return Stale;
      }
      var record := store.rows[lease.id];
      if record.epoch != lease.epoch {
        return Retry;
      }
      if record.state.Lost? && record.reason == CRASH {
        return AlreadyLost;
      }
      return Stale;
    }

    /** Delete the entry if it still holds the lease. */
    method RemoveIfSameLeaseLocked(lease: Lease) returns (removed: Option<Entry>)
      modifies this`workers
      ensures HoldsLease(cp, old(workers), lease) ==>
                workers == old(workers) - {lease.id} && removed == Some(old(workers)[lease.id])
      ensures !HoldsLease(cp, old(workers), lease) ==> workers == old(workers) && removed == None
    {
      if HoldsLease(cp, workers, lease) {
        removed := Some(workers[lease.id]);
        workers := workers - {lease.id};
      } else {
        removed := None;
      }
    }

    /** The health loop's handling of a worker found dead. */
    method HandleDeadWorker(lease: Lease, now: int, link: Link)
      modifies this`workers, this`notified, store
      ensures store.rows == Settled(cp, hasStore, old(store.rows), lease, now, link)
      ensures var v := Decide(cp, hasStore, old(store.rows), lease, link);
              var holds := HoldsLease(cp, old(workers), lease);
              && workers == (if holds && !v.Retry? then old(workers) - {lease.id} else old(workers))
              && notified == (if holds && Reports(v) then old(notified) + [Notice(old(workers)[lease.id].serial, lease)]
                              else old(notified))
    {
      var v := MarkWorkerLostForHealthLease(lease, now, link);
      if v.Retry? {
        return;
      }
      var removed := RemoveIfSameLeaseLocked(lease);
      if v.Stale? || removed.None? {
        return;
      }
      notified := notified + [Notice(removed.value.serial, lease)];
    }

    /** The cleaner's pass over the dead workers, in any order: it reports none. */
    method CleanDeadWorkersLocked(dead: set<int>, now: int, links: int -> Link)
      modifies this`workers, store
      ensures DroppedSoFar(cp, hasStore, old(store.rows), workers, old(workers), {}, dead, links)
      ensures CleanedSoFar(cp, hasStore, old(store.rows), store.rows, old(workers), {}, dead, now, links)
    {
      ghost var rows0 := store.rows;
      var all, left := workers, workers.Keys;
      while left != {}
        invariant left <= all.Keys && all == old(workers)
        invariant CleanedSoFar(cp, hasStore, rows0, store.rows, all, left, dead, now, links)
        invariant DroppedSoFar(cp, hasStore, rows0, workers, all, left, dead, links)
        decreases left
      {
        SomeMember(left);
        var id :| id in left;
        if id in dead {
          CleanedTurn(cp, hasStore, rows0, store.rows, all, left, dead, id, now, links);
          CleanOneLocked(id, all[id], now, links(id));
        } else {
          CleanedSkip(cp, hasStore, rows0, store.rows, all, left, dead, id, now, links);
        }
        left := left - {id};
      }
    }

    method CleanOneLocked(id: int, e: Entry, now: int, link: Link)
      requires id in workers && workers[id] == e
      modifies this`workers, store
      ensures store.rows == Settled(cp, hasStore, old(store.rows), LeaseOf(cp, id, e), now, link)
      ensures workers == if Drops(cp, hasStore, old(store.rows), id, e, link) then old(workers) - {id} else old(workers)
    {
      if hasStore {
        var v := MarkWorkerLostForHealthLease(LeaseOf(cp, id, e), now, link);
        if v.Stale? {
          var _ := RemoveIfSameLeaseLocked(LeaseOf(cp, id, e));
        }
      } else {
        workers := workers - {id};
      }
    }
  }

  /** The rows after the dead workers outside `left` had their checks. */
  ghost predicate CleanedSoFar(cp: string, hasStore: bool, rows0: Rows, rows: Rows, all: map<int, Entry>,
                               left: set<int>, dead: set<int>, now: int, links: int -> Link)
  {
    && rows.Keys == rows0.Keys
    && forall id | id in rows0 ::
         rows[id] == if id in all && id in dead && id !in left
                     then Settled(cp, hasStore, rows0, LeaseOf(cp, id, all[id]), now, links(id))[id]
                     else rows0[id]
  }

  /** The entries left: all but those dead, outside `left`, that the cleaner drops. */
  ghost predicate DroppedSoFar(cp: string, hasStore: bool, rows0: Rows, workers: map<int, Entry>, all: map<int, Entry>,
                               left: set<int>, dead: set<int>, links: int -> Link)
  {
    && (forall id | id in workers :: id in all && workers[id] == all[id])
    && (forall id | id in all ::
          id in workers <==> (id in left || id !in dead || !Drops(cp, hasStore, rows0, id, all[id], links(id))))
  }

  lemma CleanedTurn(cp: string, hasStore: bool, rows0: Rows, rows: Rows, all: map<int, Entry>, left: set<int>,
                    dead: set<int>, id: int, now: int, links: int -> Link)
    requires id in left && id in all && id in dead
    requires CleanedSoFar(cp, hasStore, rows0, rows, all, left, dead, now, links)
    ensures var rows' := Settled(cp, hasStore, rows, LeaseOf(cp, id, all[id]), now, links(id));
            CleanedSoFar(cp, hasStore, rows0, rows', all, left - {id}, dead, now, links)
    ensures Drops(cp, hasStore, rows, id, all[id], links(id)) == Drops(cp, hasStore, rows0, id, all[id], links(id))
  {
    assert id in rows0 ==> rows[id] == rows0[id];
  }

  lemma CleanedSkip(cp: string, hasStore: bool, rows0: Rows, rows: Rows, all: map<int, Entry>, left: set<int>,
                    dead: set<int>, id: int, now: int, links: int -> Link)
    requires id in left && id !in dead && CleanedSoFar(cp, hasStore, rows0, rows, all, left, dead, now, links)
    ensures CleanedSoFar(cp, hasStore, rows0, rows, all, left - {id}, dead, now, links)
  {
  }
}
