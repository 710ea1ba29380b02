/**
 Durable worker rows and the fenced statements that change them
 (controlplane/configstore/store.go), shared by every control plane.

 Each statement is one atomic update of one row: it applies when its WHERE clause matches and
 otherwise changes nothing.  Row selection and capacity counting inside a claim are left to the
 caller, who names the row.  Rows are never deleted.
 */
module RuntimeStore {
  import opened Prelude

  datatype State = Spawning | Idle | Reserved | Activating | Hot | HotIdle | Draining | Retired | Lost

  datatype Row = Row(
    state: State, org: string, owner: string, epoch: int,
    updatedAt: int,          // 0 is the zero time
    reason: string, podName: string)

  type Rows = map<int, Row>

  /** A row as some control plane saw it. */
  datatype Snapshot = Snapshot(id: int, row: Row)

  datatype Lease = Lease(id: int, owner: string, epoch: int)

  datatype Statement =
    | MarkTerminal(snap: Snapshot, target: State, why: string)
    | RetireOrphan(snap: Snapshot, ownerAlive: bool, why: string)
    | RetireIdle(snap: Snapshot, why: string)
    | MarkLost(lease: Lease, why: string)
    | MarkDraining(lease: Lease)
    | RetireDraining(lease: Lease, why: string)
    | BumpEpoch(lease: Lease)
    | StampCredentials(lease: Lease)
    | ClaimIdle(id: int, cp: string, org: string)
    | ClaimHotIdle(id: int, cp: string, org: string)
    | TakeOver(id: int, cp: string, org: string, expectedEpoch: int)
    | Upsert(snap: Snapshot)
    | CreateSlot(id: int, cp: string, org: string, epoch: int, podName: string)

  predicate Terminal(s: State) {
    s.Retired? || s.Lost?
  }

  predicate LostEligible(s: State) {
    !Terminal(s) && !s.Draining?
  }

  /** `workerTerminalEligibleStates` */
  predicate TerminalEligible(s: State, target: State) {
    if target.Lost? then LostEligible(s) else !Terminal(s)
  }

  function Target(op: Statement): int {
    match op
    case MarkTerminal(snap, _, _) => snap.id
    case RetireOrphan(snap, _, _) => snap.id
    case RetireIdle(snap, _) => snap.id
    case MarkLost(lease, _) => lease.id
    case MarkDraining(lease) => lease.id
    case RetireDraining(lease, _) => lease.id
    case BumpEpoch(lease) => lease.id
    case StampCredentials(lease) => lease.id
    case ClaimIdle(id, _, _) => id
    case ClaimHotIdle(id, _, _) => id
    case TakeOver(id, _, _, _) => id
    case Upsert(snap) => snap.id
    case CreateSlot(id, _, _, _, _) => id
  }

  predicate MatchesSnapshot(row: Row, seen: Row) {
    && row.state == seen.state && row.epoch == seen.epoch && row.owner == seen.owner
    && (seen.updatedAt != 0 ==> row.updatedAt <= seen.updatedAt)
  }

  predicate HeldBy(row: Row, lease: Lease) {
    row.owner == lease.owner && row.epoch == lease.epoch
  }

  /** The WHERE clause of a statement against the row it names. */
  predicate Matches(row: Row, op: Statement) {
    match op
    case MarkTerminal(snap, target, _) =>
      Terminal(target) && MatchesSnapshot(row, snap.row) && TerminalEligible(row.state, target)
    case RetireOrphan(snap, ownerAlive, _) =>
      MatchesSnapshot(row, snap.row) && TerminalEligible(row.state, Retired) && !(snap.row.owner != "" && ownerAlive)
    case RetireIdle(snap, _) =>
      (snap.row.state.Idle? || snap.row.state.HotIdle?) && MatchesSnapshot(row, snap.row)
    case MarkLost(lease, _) => HeldBy(row, lease) && LostEligible(row.state)
    case MarkDraining(lease) => HeldBy(row, lease) && LostEligible(row.state)
    case RetireDraining(lease, _) => HeldBy(row, lease) && row.state.Draining?
    case BumpEpoch(lease) => HeldBy(row, lease)
    case StampCredentials(lease) => HeldBy(row, lease)
    case ClaimIdle(_, _, _) => row.state.Idle?
    case ClaimHotIdle(_, _, org) => row.state.HotIdle? && row.org == org
    case TakeOver(_, _, _, expectedEpoch) => row.epoch == expectedEpoch && row.state.Hot?
    case Upsert(snap) =>
      && LostEligible(row.state)
      && (snap.row.epoch > row.epoch || (snap.row.epoch == row.epoch && snap.row.owner == row.owner))
    case CreateSlot(_, _, _, _, _) => false
  }

  /** The SET clause. */
  function Updated(row: Row, op: Statement, now: int): Row {
    match op
    case MarkTerminal(_, target, why) => row.(state := target, reason := why, updatedAt := now)
    case RetireOrphan(_, _, why) => row.(state := Retired, reason := why, updatedAt := now)
    case RetireIdle(_, why) => row.(state := Retired, reason := why, updatedAt := now)
    case MarkLost(_, why) => row.(state := Lost, reason := why, updatedAt := now)
    case MarkDraining(_) => row.(state := Draining, updatedAt := now)
    case RetireDraining(_, why) => row.(state := Retired, reason := why, updatedAt := now)
    case BumpEpoch(_) => row.(epoch := row.epoch + 1, updatedAt := now)
    case StampCredentials(_) => row.(updatedAt := now)
    case ClaimIdle(_, cp, org) =>
      row.(state := Reserved, org := org, owner := cp, epoch := row.epoch + 1, updatedAt := now)
    case ClaimHotIdle(_, cp, _) => row.(state := Reserved, owner := cp, epoch := row.epoch + 1, updatedAt := now)
    case TakeOver(_, cp, org, _) =>
      row.(state := Reserved, org := org, owner := cp, epoch := row.epoch + 1, updatedAt := now)
    case Upsert(snap) => snap.row.(updatedAt := now)
    case CreateSlot(_, _, _, _, _) => row
  }

  predicate Hits(rows: Rows, op: Statement) {
    if Target(op) in rows then Matches(rows[Target(op)], op) else op.Upsert? || op.CreateSlot?
  }

  function Apply(rows: Rows, op: Statement, now: int): Rows {
    if !Hits(rows, op) then rows
    else if Target(op) in rows then rows[Target(op) := Updated(rows[Target(op)], op, now)]
    else rows[Target(op) := if op.Upsert? then op.snap.row.(updatedAt := now)
                            else Row(Spawning, op.org, op.cp, op.epoch, now, "", op.podName)]
  }

  // ---------------------------------------------------------------------------
  // Who may do what to a row

  /** The states in which a worker may still be used. */
  const IN_USE := {Spawning, Idle, Reserved, Activating, Hot, HotIdle}

  lemma StatementIsLocal(rows: Rows, op: Statement, now: int, id: int)
    requires id != Target(op)
    ensures var rows' := Apply(rows, op, now);
            (id in rows' <==> id in rows) && (id in rows ==> rows'[id] == rows[id])
  {
  }

  /**
   A claim finds an idle worker, a hot-idle worker of the claiming org, or a hot worker at the epoch the
   claimer expects, and hands it over: reserved, for that org and control plane, at the next epoch.
   */
  lemma ClaimMeaning(rows: Rows, op: Statement, now: int)
    requires (op.ClaimIdle? || op.ClaimHotIdle? || op.TakeOver?) && op.id in rows
    ensures var row := rows[op.id];
            && (Hits(rows, op) <==>
                  || (op.ClaimIdle? && row.state == Idle)
                  || (op.ClaimHotIdle? && row.state == HotIdle && row.org == op.org)
                  || (op.TakeOver? && row.state == Hot && row.epoch == op.expectedEpoch))
            && Apply(rows, op, now)[op.id]
               == if Hits(rows, op)
                  then Row(Reserved, op.org, op.cp, row.epoch + 1, now, row.reason, row.podName)
                  else row
  {
  }

  /** A lease statement applies to its holder's row alone, and each in its own states. */
  lemma LeaseMeaning(rows: Rows, op: Statement, now: int)
    requires op.MarkLost? || op.MarkDraining? || op.RetireDraining? || op.BumpEpoch? || op.StampCredentials?
    ensures var lease := op.lease;
            && (Hits(rows, op) <==>
                  && lease.id in rows
                  && rows[lease.id].owner == lease.owner && rows[lease.id].epoch == lease.epoch
                  && (op.MarkLost? || op.MarkDraining? ==> rows[lease.id].state in IN_USE)
                  && (op.RetireDraining? ==> rows[lease.id].state == Draining))
            && (Hits(rows, op) ==>
                  var (row, row') := (rows[lease.id], Apply(rows, op, now)[lease.id]);
                  && (op.MarkLost? ==> row' == row.(state := Lost, reason := op.why, updatedAt := now))
                  && (op.MarkDraining? ==> row' == row.(state := Draining, updatedAt := now))
                  && (op.RetireDraining? ==> row' == row.(state := Retired, reason := op.why, updatedAt := now))
                  && (op.BumpEpoch? ==> row' == row.(epoch := row.epoch + 1, updatedAt := now))
                  && (op.StampCredentials? ==> row' == row.(updatedAt := now)))
  {
  }

  /**
   A snapshot retirement applies to a row that still is as it was seen: same state, owner and epoch, and not
   written since.  It ends a worker in use, retires a draining one, and spares an orphan whose owner lives.
   */
  lemma SnapshotMeaning(rows: Rows, op: Statement, now: int)
    requires op.MarkTerminal? || op.RetireOrphan? || op.RetireIdle?
    ensures var (id, seen) := (op.snap.id, op.snap.row);
            && (Hits(rows, op) <==>
                  && id in rows
                  && rows[id].state == seen.state && rows[id].owner == seen.owner && rows[id].epoch == seen.epoch
                  && (seen.updatedAt == 0 || rows[id].updatedAt <= seen.updatedAt)
                  && (op.MarkTerminal? ==>
                        || (op.target == Lost && seen.state in IN_USE)
                        || (op.target == Retired && seen.state in IN_USE + {Draining}))
                  && (op.RetireOrphan? ==> seen.state in IN_USE + {Draining} && (seen.owner == "" || !op.ownerAlive))
                  && (op.RetireIdle? ==> seen.state in {Idle, HotIdle}))
            && (Hits(rows, op) ==>
                  Apply(rows, op, now)[id]
                  == rows[id].(state := if op.MarkTerminal? then op.target else Retired,
                               reason := op.why, updatedAt := now))
  {
  }

  /** An upsert creates a row, or overwrites one in use for a newer epoch or for its holder; a slot is new. */
  lemma UpsertMeaning(rows: Rows, op: Statement, now: int)
    requires op.Upsert? || op.CreateSlot?
    ensures var id := Target(op);
            && (Hits(rows, op) <==>
                  || id !in rows
                  || (&& op.Upsert? && rows[id].state in IN_USE
                      && (|| op.snap.row.epoch > rows[id].epoch
                          || (op.snap.row.epoch == rows[id].epoch && op.snap.row.owner == rows[id].owner))))
            && (Hits(rows, op) ==>
                  id in Apply(rows, op, now)
                  && Apply(rows, op, now)[id]
                     == if op.Upsert? then op.snap.row.(updatedAt := now)
                        else Row(Spawning, op.org, op.cp, op.epoch, now, "", op.podName))
  {
  }

  // ---------------------------------------------------------------------------
  // The fence: what no statement can undo

  /**
   How a row may change over time: terminal is final, a draining row can only retire, epochs never
   fall, and one epoch belongs to one owner.
   */
  ghost predicate RowEvolves(before: Row, after: Row) {
    && (Terminal(before.state) ==>
          after.state == before.state && after.reason == before.reason && after.owner == before.owner)
    && (before.state.Draining? ==> (after.state.Draining? || after.state.Retired?) && after.owner == before.owner)
    && before.epoch <= after.epoch
    && (before.epoch == after.epoch ==> before.owner == after.owner)
  }

  ghost predicate Evolves(rows: Rows, rows': Rows) {
    forall id | id in rows :: id in rows' && RowEvolves(rows[id], rows'[id])
  }

  lemma StatementEvolves(rows: Rows, op: Statement, now: int)
    ensures Evolves(rows, Apply(rows, op, now))
  {
    if Hits(rows, op) && Target(op) in rows {
      assert RowEvolves(rows[Target(op)], Updated(rows[Target(op)], op, now));
    }
  }

  lemma EvolvesTransitive(a: Rows, b: Rows, c: Rows)
    requires Evolves(a, b) && Evolves(b, c)
    ensures Evolves(a, c)
  {
    forall id | id in a ensures id in c && RowEvolves(a[id], c[id]) {
      assert RowEvolves(a[id], b[id]) && RowEvolves(b[id], c[id]);
    }
  }

  datatype Call = Call(op: Statement, now: int)

  function Execute(rows: Rows, calls: seq<Call>): Rows
    decreases |calls|
  {
    if calls == [] then rows else Execute(Apply(rows, calls[0].op, calls[0].now), calls[1..])
  }

  /** Over any run of statements by any number of control planes the fence holds between any two points. */
  lemma {:induction false} FenceHolds(rows: Rows, calls: seq<Call>)
    ensures Evolves(rows, Execute(rows, calls))
    decreases |calls|
  {
    if calls != [] {
      var next := Apply(rows, calls[0].op, calls[0].now);
      StatementEvolves(rows, calls[0].op, calls[0].now);
      FenceHolds(next, calls[1..]);
      EvolvesTransitive(rows, next, Execute(next, calls[1..]));
    }
  }

  /** The row has moved past the lease. */
  ghost predicate Superseded(row: Row, lease: Lease) {
    row.epoch > lease.epoch || (row.epoch == lease.epoch && row.owner != lease.owner)
  }

  /** A lease that has once been superseded matches no lease statement ever again. */
  lemma SupersededLeaseIsDead(rows: Rows, calls: seq<Call>, lease: Lease)
    requires lease.id in rows && Superseded(rows[lease.id], lease)
    ensures var later := Execute(rows, calls);
            && !Hits(later, BumpEpoch(lease)) && !Hits(later, MarkDraining(lease))
            && !Hits(later, StampCredentials(lease))
            && forall why :: !Hits(later, MarkLost(lease, why)) && !Hits(later, RetireDraining(lease, why))
  {
    FenceHolds(rows, calls);
  }

  predicate SnapshotRetire(op: Statement, snap: Snapshot) {
    (op.MarkTerminal? || op.RetireOrphan? || op.RetireIdle?) && op.snap == snap
  }

  /** A statement that hands the row to a new epoch. */
  predicate Raises(op: Statement) {
    op.ClaimIdle? || op.ClaimHotIdle? || op.TakeOver? || op.BumpEpoch?
  }

  /**
   Whoever saw a row at any time before a claim, takeover or refresh of it can never retire it on what
   they saw, whatever happens afterwards.
   */
  lemma ClaimBeatsRetire(rows: Rows, claim: Statement, now: int, calls: seq<Call>, snap: Snapshot, retire: Statement)
    requires Raises(claim) && Hits(rows, claim) && Target(claim) == snap.id && snap.row.epoch <= rows[snap.id].epoch
    requires SnapshotRetire(retire, snap)
    ensures !Hits(Execute(Apply(rows, claim, now), calls), retire)
  {
    var claimed := Apply(rows, claim, now);
    FenceHolds(claimed, calls);
    assert RowEvolves(claimed[snap.id], Execute(claimed, calls)[snap.id]);
  }

  /** How a call of the store ends: answered, or with an error before or after the statement took effect. */
  datatype Reply = Answered | Unreached | AnswerLost

  function Effect(rows: Rows, op: Statement, now: int, reply: Reply): Rows {
    if reply.Unreached? then rows else Apply(rows, op, now)
  }

  /** The table; a statement is one atomic update that reports whether it changed a row. */
  class ConfigStore {
    var rows: Rows

    constructor (rows: Rows)
      ensures this.rows == rows
    {
      this.rows := rows;
    }

    /** None is an error, which leaves open whether the statement took effect. */
    method Run(op: Statement, now: int, reply: Reply) returns (hit: Option<bool>)
      modifies this
      ensures rows == Effect(old(rows), op, now, reply)
      ensures hit == if reply.Answered? then Some(Hits(old(rows), op)) else None
      ensures Evolves(old(rows), rows)
    {
      StatementEvolves(rows, op, now);
      var matched := Hits(rows, op);
      if !reply.Unreached? {
        rows := Apply(rows, op, now);
      }
      hit := if reply.Answered? then Some(matched) else None;
    }
  }
}
