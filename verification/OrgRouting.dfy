/**
 Org stacks (controlplane/org_router.go).  HandleConfigChange acts on the differences between two
 config snapshots; what it should amount to is a function of the snapshots alone.

 An org is known by its key, which the config store keeps equal to its name.
 */
module OrgRouting {
  import opened Prelude

  datatype WarehouseState = Pending | Provisioning | Ready | Failed | Deleting | Deleted

  datatype Warehouse = Warehouse(state: WarehouseState, image: string)

  datatype Org = Org(maxWorkers: int, maxConnections: int, warehouse: Option<Warehouse>)

  type Snapshot = map<string, Org>

  /** What a new stack falls back on. */
  datatype Base = Base(maxWorkers: int, image: string)

  /** A stack, with the limits and the image its parts were last given. */
  datatype Stack = Stack(config: Org, maxWorkers: int, maxConnections: int, image: string)

  function Lookup<T>(m: map<string, T>, name: string): Option<T> {
    if name in m then Some(m[name]) else None
  }

  /** No warehouse, or one that is ready. */
  predicate Up(o: Org) {
    o.warehouse.None? || o.warehouse.value.state.Ready?
  }

  predicate GoingDown(o: Org) {
    o.warehouse.Some? && (o.warehouse.value.state.Deleting? || o.warehouse.value.state.Deleted?)
  }

  function WorkerImageForOrg(o: Org, fallback: string): string {
    if o.warehouse.Some? && o.warehouse.value.image != "" then o.warehouse.value.image else fallback
  }

  function WorkerLimit(base: Base, o: Org): int {
    if o.maxWorkers == 0 then base.maxWorkers else o.maxWorkers
  }

  /** The stack an org's current config calls for. */
  function Level(base: Base, o: Org): Stack {
    Stack(o, WorkerLimit(base, o), o.maxConnections, WorkerImageForOrg(o, base.image))
  }

  // ---------------------------------------------------------------------------
  // The three passes, for one org

  /** First pass: create stacks for orgs that came up, destroy those going down. */
  function Appear(base: Base, was: Option<Org>, o: Org, stack: Option<Stack>): Option<Stack> {
    if !Up(o) then if GoingDown(o) then None else stack
    else if stack.Some? then stack
    else if was.None? then Some(Level(base, o))
    else if (o.warehouse.Some? && !Up(was.value)) || o.warehouse.None? then Some(Level(base, o))
    else None
  }

  /** Third pass: refresh what changed. */
  function Refreshed(base: Base, was: Org, o: Org, stack: Stack): Stack {
    Stack(o,
          if was.maxWorkers != o.maxWorkers then WorkerLimit(base, o) else stack.maxWorkers,
          if was.maxConnections != o.maxConnections then o.maxConnections else stack.maxConnections,
          if WorkerImageForOrg(was, base.image) != WorkerImageForOrg(o, base.image)
          then WorkerImageForOrg(o, base.image) else stack.image)
  }

  function Refresh(base: Base, was: Option<Org>, o: Org, stack: Option<Stack>): Option<Stack> {
    if was.Some? && stack.Some? then Some(Refreshed(base, was.value, o, stack.value)) else stack
  }

  function ReconcileOrg(base: Base, was: Option<Org>, now: Option<Org>, stack: Option<Stack>): Option<Stack> {
    match now
    case Some(o) => Refresh(base, was, o, Appear(base, was, o, stack))
    case None => if was.Some? then None else stack
  }

  /** The initial pass of NewOrgRouter. */
  function InitialOrg(base: Base, org: Option<Org>): Option<Stack> {
    if org.Some? && Up(org.value) then Some(Level(base, org.value)) else None
  }

  // ---------------------------------------------------------------------------
  // Every history of snapshots

  /** The stacks after a history, each call given the snapshot reconciled before as `old`. */
  ghost function OrgAfter(base: Base, history: seq<Snapshot>, name: string): Option<Stack>
    requires history != []
  {
    var last := Lookup(history[|history| - 1], name);
    if |history| == 1 then InitialOrg(base, last)
    else ReconcileOrg(base, Lookup(history[|history| - 2], name), last, OrgAfter(base, history[..|history| - 1], name))
  }

  /**
   The level-triggered specification: present and up means a stack, absent or going down means none,
   and an org whose warehouse is neither keeps what it had, an org not seen before having none.
   */
  ghost predicate Wanted(history: seq<Snapshot>, name: string)
    requires history != []
  {
    var n := |history| - 1;
    && name in history[n]
    && (|| Up(history[n][name])
        || (!GoingDown(history[n][name]) && n > 0 && Wanted(history[..n], name)))
  }

  /** Over every history the stacks are exactly those wanted, at the values of the latest snapshot. */
  lemma {:induction false} StacksFollowTheLevel(base: Base, history: seq<Snapshot>, name: string)
    requires history != []
    ensures OrgAfter(base, history, name)
            == if Wanted(history, name) then Some(Level(base, history[|history| - 1][name])) else None
    decreases |history|
  {
    var n := |history| - 1;
    if n > 0 {
      StacksFollowTheLevel(base, history[..n], name);
      assert history[..n][n - 1] == history[n - 1];
    }
  }

  /** So one more call, on a router that followed the history, leaves it with exactly the stacks wanted next. */
  lemma CallFollowsHistory(base: Base, history: seq<Snapshot>, next: Snapshot, name: string)
    requires history != []
    ensures ReconcileOrg(base, Lookup(history[|history| - 1], name), Lookup(next, name), OrgAfter(base, history, name))
            == if Wanted(history + [next], name) then Some(Level(base, next[name])) else None
  {
    assert (history + [next])[..|history|] == history;
    StacksFollowTheLevel(base, history + [next], name);
  }

  /** Ready or absent warehouse: a stack, whatever came before.  Absent, deleting or deleted org: none. */
  lemma UpMeansServed(base: Base, history: seq<Snapshot>, name: string)
    requires history != []
    ensures var last := history[|history| - 1];
            && (name in last && Up(last[name]) ==> OrgAfter(base, history, name) == Some(Level(base, last[name])))
            && (name !in last || GoingDown(last[name]) ==> OrgAfter(base, history, name) == None)
  {
    StacksFollowTheLevel(base, history, name);
  }

  /** A warehouse state that neither calls for a stack nor forbids one. */
  predicate InBetween(w: WarehouseState) {
    w == Pending || w == Provisioning || w == Failed
  }

  /** Whether an org is served, by the state of its warehouse alone. */
  lemma ServedByWarehouse(base: Base, history: seq<Snapshot>, name: string)
    requires history != []
    ensures var n := |history| - 1;
            var served := OrgAfter(base, history, name).Some?;
            && (name !in history[n] ==> !served)
            && (name in history[n] ==>
                  match history[n][name].warehouse
                  case None => served
                  case Some(w) =>
                    && (w.state == Ready ==> served)
                    && (w.state == Deleting || w.state == Deleted ==> !served)
                    && (InBetween(w.state) ==> (served <==> n > 0 && OrgAfter(base, history[..n], name).Some?)))
  {
    var n := |history| - 1;
    StacksFollowTheLevel(base, history, name);
    if n > 0 {
      StacksFollowTheLevel(base, history[..n], name);
    }
  }

  /**
   And what a stack is given, by the fields of the latest config: its own worker limit or the default for
   zero, its connection limit, and the warehouse's image or the default where none is named.
   */
  lemma ServedByConfig(base: Base, history: seq<Snapshot>, name: string)
    requires history != [] && OrgAfter(base, history, name).Some?
    ensures var last := history[|history| - 1];
            && name in last
            && var (o, st) := (last[name], OrgAfter(base, history, name).value);
               && st.config == o
               && st.maxWorkers == (if o.maxWorkers != 0 then o.maxWorkers else base.maxWorkers)
               && st.maxConnections == o.maxConnections
               && st.image == match o.warehouse
                              case None => base.image
                              case Some(w) => if w.image == "" then base.image else w.image
  {
    StacksFollowTheLevel(base, history, name);
  }

  /** An org that is up in both snapshots but had no stack is not picked up by a call. */
  lemma MissedSnapshotLeavesNoStack(base: Base, w: Warehouse)
    requires w.state.Ready?
    ensures var o := Org(1, 1, Some(w));
            Up(o) && ReconcileOrg(base, Some(o), Some(o), None) == None
  {
  }

  /**
   When `old` is not what was reconciled last: a call still ends at the level exactly when the
   difference between `old` and the new config covers whatever was out of date.
   */
  lemma OneCallReachesTheLevelIff(base: Base, was: Option<Org>, o: Org, stack: Option<Stack>)
    requires Up(o)
    ensures ReconcileOrg(base, was, Some(o), stack) == Some(Level(base, o))
            <==> match stack
                 case None => !(was.Some? && Up(was.value) && o.warehouse.Some?)
                 case Some(st) =>
                   if was.None? then st == Level(base, o)
                   else && (st.maxWorkers == WorkerLimit(base, o) || was.value.maxWorkers != o.maxWorkers)
                        && (st.maxConnections == o.maxConnections || was.value.maxConnections != o.maxConnections)
                        && (st.image == WorkerImageForOrg(o, base.image)
                            || WorkerImageForOrg(was.value, base.image) != WorkerImageForOrg(o, base.image))
  {
  }

  // ---------------------------------------------------------------------------
  // The router

  class OrgRouter {
    const base: Base
    var orgs: map<string, Stack>

    /** The initial stacks: level-triggered outright. */
    constructor (base: Base, snap: Snapshot)
      ensures this.base == base
      ensures forall name :: Lookup(orgs, name) == InitialOrg(base, Lookup(snap, name))
    {
      this.base := base;
      orgs := map[];
      new;
      var keys := snap.Keys;
      while keys != {}
        invariant keys <= snap.Keys
        invariant forall name | name in orgs :: name in snap
        invariant forall name | name in snap ::
                    Lookup(orgs, name) == if name in keys then None else InitialOrg(base, Some(snap[name]))
        decreases keys
      {
        var name :| name in keys;
        if Up(snap[name]) {
          CreateOrgStack(name, snap[name]);
        }
        keys := keys - {name};
      }
    }

    method CreateOrgStack(name: string, o: Org)
      modifies this`orgs
      ensures orgs == old(orgs)[name := Level(base, o)]
    {
      var maxWorkers := o.maxWorkers;
      if maxWorkers == 0 {
        maxWorkers := base.maxWorkers;
      }
      orgs := orgs[name := Stack(o, maxWorkers, o.maxConnections, WorkerImageForOrg(o, base.image))];
    }

    method DestroyOrgStack(name: string)
      modifies this`orgs
      ensures orgs == old(orgs) - {name}
    {
      orgs := orgs - {name};
    }

    method AppearPass(before: Snapshot, after: Snapshot)
      modifies this`orgs
      ensures forall name ::
                Lookup(orgs, name) == if name in after
                                      then Appear(base, Lookup(before, name), after[name], Lookup(old(orgs), name))
                                      else Lookup(old(orgs), name)
    {
      var keys := after.Keys;
      while keys != {}
        invariant keys <= after.Keys
        invariant forall name ::
                    Lookup(orgs, name) == if name in after && name !in keys
                                          then Appear(base, Lookup(before, name), after[name], Lookup(old(orgs), name))
                                          else Lookup(old(orgs), name)
        decreases keys
      {
        var name :| name in keys;
        assert Lookup(orgs, name) == Lookup(old(orgs), name);
        AppearOne(name, Lookup(before, name), after[name]);
        keys := keys - {name};
      }
    }

    method AppearOne(name: string, before: Option<Org>, o: Org)
      modifies this`orgs
      ensures Lookup(orgs, name) == Appear(base, before, o, Lookup(old(orgs), name))
      ensures forall other | other != name :: Lookup(orgs, other) == Lookup(old(orgs), other)
    {
      if o.warehouse.Some? && !o.warehouse.value.state.Ready? {
        if o.warehouse.value.state.Deleting? || o.warehouse.value.state.Deleted? {
          if name in orgs {
            DestroyOrgStack(name);
          }
        }
        return;
      }
      var hasStack := name in orgs;
      if before.None? && !hasStack {
        CreateOrgStack(name, o);
      } else if before.Some? && !hasStack {
        var justReady := before.value.warehouse.Some? && !before.value.warehouse.value.state.Ready?
                         && o.warehouse.Some? && o.warehouse.value.state.Ready?;
        if justReady || o.warehouse.None? {
          CreateOrgStack(name, o);
        }
      }
    }

    method RemovePass(before: Snapshot, after: Snapshot)
      modifies this`orgs
      ensures forall name ::
                Lookup(orgs, name) == if name in before && name !in after then None else Lookup(old(orgs), name)
    {
      var keys := before.Keys;
      while keys != {}
        invariant keys <= before.Keys
        invariant forall name ::
                    Lookup(orgs, name) == if name in before && name !in keys && name !in after then None
                                          else Lookup(old(orgs), name)
        decreases keys
      {
        var name :| name in keys;
        if name !in after {
          DestroyOrgStack(name);
        }
        keys := keys - {name};
      }
    }

    method RefreshPass(before: Snapshot, after: Snapshot)
      modifies this`orgs
      ensures forall name ::
                Lookup(orgs, name) == if name in after
                                      then Refresh(base, Lookup(before, name), after[name], Lookup(old(orgs), name))
                                      else Lookup(old(orgs), name)
    {
      var keys := after.Keys;
      while keys != {}
        invariant keys <= after.Keys
        invariant forall name ::
                    Lookup(orgs, name) == if name in after && name !in keys
                                          then Refresh(base, Lookup(before, name), after[name], Lookup(old(orgs), name))
                                          else Lookup(old(orgs), name)
        decreases keys
      {
        var name :| name in keys;
        assert Lookup(orgs, name) == Lookup(old(orgs), name);
        RefreshOne(name, Lookup(before, name), after[name]);
        keys := keys - {name};
      }
    }

    method RefreshOne(name: string, before: Option<Org>, o: Org)
      modifies this`orgs
      ensures Lookup(orgs, name) == Refresh(base, before, o, Lookup(old(orgs), name))
      ensures forall other | other != name :: Lookup(orgs, other) == Lookup(old(orgs), other)
    {
      if before.None? || name !in orgs {
        return;
      }
      var stack := orgs[name].(config := o);
      if before.value.maxConnections != o.maxConnections {
        stack := stack.(maxConnections := o.maxConnections);
      }
      if before.value.maxWorkers != o.maxWorkers {
        stack := stack.(maxWorkers := if o.maxWorkers == 0 then base.maxWorkers else o.maxWorkers);
      }
      if WorkerImageForOrg(before.value, base.image) != WorkerImageForOrg(o, base.image) {
        stack := stack.(image := WorkerImageForOrg(o, base.image));
      }
      orgs := orgs[name := stack];
    }

    /** The three passes together reconcile every org on its own. */
    method HandleConfigChange(before: Snapshot, after: Snapshot)
      modifies this`orgs
      ensures forall name ::
                Lookup(orgs, name)
                == ReconcileOrg(base, Lookup(before, name), Lookup(after, name), Lookup(old(orgs), name))
    {
      AppearPass(before, after);
      RemovePass(before, after);
      RefreshPass(before, after);
    }
  }
}
