/**
 Worker-side activation fencing (duckdbservice/activation.go).

 `activateTenant` and `reuseExistingActivation` check under the pool lock, do slow work
 without it, and re-check before committing.  A run interleaves any number of requests;
 one tick advances one request through one locked section, one unlocked read of the live
 payload, or one foreign call whose outcome the tick carries.
 */
module Activation {
  import opened Prelude

  /** The fields of the DuckLake config that only a comparison of whole payloads reads. */
  datatype Unread = Unread(
    restrictClientSessions: bool, disableMetadataThreadLocalCache: Option<bool>,
    azureProvider: string, azureAccountName: string, azureChain: string, azureClientID: string,
    httpProxy: string, specVersion: string, viaPgBouncer: bool, applicationName: string)

  datatype DuckLake = DuckLake(
    metadataStore: string, objectStore: string, dataPath: string,
    deltaCatalogEnabled: bool, deltaCatalogPath: string,
    s3Provider: string, s3Endpoint: string, s3Region: string, s3UseSSL: bool, s3URLStyle: string,
    s3Chain: string, s3Profile: string, migrate: bool,
    dataInliningRowLimit: Option<int>, checkpointInterval: int,
    s3AccessKey: string, s3SecretKey: string, s3SessionToken: string,
    unread: Unread)

  datatype Iceberg = Iceberg(
    enabled: bool, backend: string, tableBucket: string, region: string, namespace_: string,
    lakekeeperEndpoint: string, lakekeeperWarehouse: string, lakekeeperClientID: string,
    lakekeeperOAuth2ServerURI: string,
    lakekeeperClientSecret: string)

  datatype Payload = Payload(
    workerID: int, ownerEpoch: int, cpInstanceID: string,
    orgID: string, duckLake: DuckLake, iceberg: Iceberg)

  /** The fields of `SessionPool` that activation reads and writes. */
  datatype Pool = Pool(
    sharedWarmMode: bool, activation: Option<Payload>,
    ownerEpoch: int, ownerCP: string, workerID: int)

  const MAX_STEPS := 8

  function FreshPool(sharedWarmMode: bool): Pool {
    Pool(sharedWarmMode, None, 0, "", 0)
  }

  // ---------------------------------------------------------------------------
  // Pure comparisons

  predicate S3CredentialsChanged(a: DuckLake, b: DuckLake) {
    || a.s3AccessKey != b.s3AccessKey
    || a.s3SecretKey != b.s3SecretKey
    || a.s3SessionToken != b.s3SessionToken
  }

  predicate SameOwnerAttempt(current: Payload, next: Payload) {
    && current.workerID == next.workerID
    && current.cpInstanceID == next.cpInstanceID
    && current.ownerEpoch == next.ownerEpoch
  }

  predicate SameTenantRuntime(current: Payload, next: Payload) {
    && current.orgID == next.orgID
    && var a, b := current.duckLake, next.duckLake;
    && a.metadataStore == b.metadataStore
    && a.objectStore == b.objectStore
    && a.dataPath == b.dataPath
    && a.deltaCatalogEnabled == b.deltaCatalogEnabled
    && a.deltaCatalogPath == b.deltaCatalogPath
    && a.s3Provider == b.s3Provider
    && a.s3Endpoint == b.s3Endpoint
    && a.s3Region == b.s3Region
    && a.s3UseSSL == b.s3UseSSL
    && a.s3URLStyle == b.s3URLStyle
    && a.s3Chain == b.s3Chain
    && a.s3Profile == b.s3Profile
    && a.migrate == b.migrate
    && a.dataInliningRowLimit == b.dataInliningRowLimit
    && a.checkpointInterval == b.checkpointInterval
    && var ai, bi := current.iceberg, next.iceberg;
    && ai.enabled == bi.enabled
    && ai.backend == bi.backend
    && ai.tableBucket == bi.tableBucket
    && ai.region == bi.region
    && ai.namespace_ == bi.namespace_
    && ai.lakekeeperEndpoint == bi.lakekeeperEndpoint
    && ai.lakekeeperWarehouse == bi.lakekeeperWarehouse
    && ai.lakekeeperClientID == bi.lakekeeperClientID
    && ai.lakekeeperOAuth2ServerURI == bi.lakekeeperOAuth2ServerURI
  }

  const UNREAD_ZERO := Unread(false, None, "", "", "", "", "", "", false, "")

  /** A payload with its identity and its rotating secrets erased: what the comparison is documented to compare. */
  function Promised(p: Payload): Payload {
    Payload(0, 0, "", p.orgID,
            p.duckLake.(s3AccessKey := "", s3SecretKey := "", s3SessionToken := ""),
            p.iceberg.(lakekeeperClientSecret := ""))
  }

  /** What it does compare: ten fields of the DuckLake config are erased as well. */
  function Runtime(p: Payload): Payload {
    Promised(p).(duckLake := Promised(p).duckLake.(unread := UNREAD_ZERO))
  }

  /** The comparison ignores exactly the identity, the S3 credentials, the client secret and the unread fields. */
  lemma SameTenantRuntimeIsErasure(a: Payload, b: Payload)
    ensures SameTenantRuntime(a, b) <==> Runtime(a) == Runtime(b)
  {
    if Runtime(a) == Runtime(b) {
      assert Runtime(a).duckLake == Runtime(b).duckLake && Runtime(a).iceberg == Runtime(b).iceberg;
    }
  }

  /** So it answers as documented exactly when it says "different" or the unread fields agree. */
  lemma ComparisonAsPromisedIff(a: Payload, b: Payload)
    ensures (SameTenantRuntime(a, b) <==> Promised(a) == Promised(b))
            <==> (SameTenantRuntime(a, b) ==> a.duckLake.unread == b.duckLake.unread)
  {
    SameTenantRuntimeIsErasure(a, b);
    var da, db := Promised(a).duckLake, Promised(b).duckLake;
    if Runtime(a) == Runtime(b) && da.unread == db.unread {
      assert da == Runtime(a).duckLake.(unread := da.unread) && db == Runtime(b).duckLake.(unread := db.unread);
    }
  }

  function S3Provider(d: DuckLake): string {
    if d.s3Provider != "" then d.s3Provider
    else if d.s3AccessKey != "" then "config"
    else "credential_chain"
  }

  predicate NeedsRefresh(current: Payload, next: Payload) {
    && (next.duckLake.objectStore != "" || next.iceberg.enabled)
    && current.duckLake != next.duckLake
    && (S3CredentialsChanged(current.duckLake, next.duckLake)
        || S3Provider(next.duckLake) == "aws_sdk"
        || S3Provider(next.duckLake) == "credential_chain")
  }

  /** The fence a live payload puts before another one (lines 171-180 and 259-266). */
  predicate Reusable(live: Payload, next: Payload) {
    && SameTenantRuntime(live, next)
    && (live == next || live.ownerEpoch < next.ownerEpoch || SameOwnerAttempt(live, next))
  }

  // ---------------------------------------------------------------------------
  // One request

  datatype Phase =
    | Start                        // nothing done yet
    | Inspect(seenEpoch: int)      // snapshot saw an activation; compare runtimes, unlocked
    | Compare(seenEpoch: int)      // compare whole payloads, unlocked
    | Guard(seenEpoch: int)        // takeover guard, unlocked
    | ReuseCheck                   // first locked section of reuseExistingActivation
    | Refresh(needed: bool)        // rotate secrets, unlocked
    | ReuseCommit                  // last locked section of reuseExistingActivation
    | Attach                       // first activation: attach the DB, unlocked
    | Commit                       // first activation: last locked section
    | Done(ok: bool)

  function Rank(ph: Phase): nat {
    match ph
    case Start => 0
    case Inspect(_) => 1
    case Compare(_) => 2
    case Guard(_) => 3
    case ReuseCheck => 4
    case Refresh(_) => 5
    case ReuseCommit => 6
    case Attach => 6
    case Commit => 7
    case Done(_) => MAX_STEPS
  }

  predicate OnReusePath(ph: Phase) {
    ph.Inspect? || ph.Compare? || ph.Guard? || ph.ReuseCheck? || ph.Refresh? || ph.ReuseCommit?
  }

  /** What one tick leaves behind; `wrote` says the pool fields were stamped with the payload. */
  datatype Effect = Effect(pool: Pool, phase: Phase, wrote: bool)

  /** Entry checks, then the read-locked snapshot and the checks on captured values. */
  function TakeSnapshot(pool: Pool, p: Payload): Phase {
    if !pool.sharedWarmMode || Blank(p.orgID) || p.ownerEpoch < 0 then Done(false)
    else if pool.workerID > 0 && p.workerID != pool.workerID then Done(false)
    else if pool.activation.Some? then Inspect(pool.ownerEpoch)
    else if p.ownerEpoch <= pool.ownerEpoch then Done(false)
    else Attach
  }

  function CheckReuse(pool: Pool, p: Payload): Phase {
    if pool.activation.None? || !Reusable(pool.activation.value, p) then Done(false)
    else Refresh(NeedsRefresh(pool.activation.value, p))
  }

  function Stamp(pool: Pool, p: Payload): Pool {
    pool.(activation := Some(p), ownerEpoch := p.ownerEpoch, ownerCP := p.cpInstanceID, workerID := p.workerID)
  }

  function CommitReuse(pool: Pool, p: Payload): Effect {
    if pool.activation.None? || !Reusable(pool.activation.value, p) then Effect(pool, Done(false), false)
    else Effect(Stamp(pool, p), Done(true), true)
  }

  function CommitFirst(pool: Pool, p: Payload): Effect {
    if pool.workerID > 0 && p.workerID != pool.workerID then Effect(pool, Done(false), false)
    else if pool.activation.Some? && SameTenantRuntime(pool.activation.value, p) && pool.activation.value == p then
      Effect(pool, Done(true), false)
    else if p.ownerEpoch <= pool.ownerEpoch then Effect(pool, Done(false), false)
    else if pool.activation.Some? then Effect(pool, Done(false), false)
    else Effect(Stamp(pool, p), Done(true), true)
  }

  /**
   One step of a request.  `current` in the source points at the live activation, which is
   allocated once and then only overwritten in place, so its unlocked reads see the live
   payload; `ok` is the outcome of the foreign call, where the phase makes one.
   */
  function Advance(pool: Pool, p: Payload, ph: Phase, ok: bool): Effect {
    match ph
    case Start => Effect(pool, TakeSnapshot(pool, p), false)
    case Inspect(e) =>
      Effect(pool, if pool.activation.Some? && SameTenantRuntime(pool.activation.value, p) then Compare(e)
                   else Done(false), false)
    case Compare(e) =>
      Effect(pool, if pool.activation == Some(p) then Done(true) else Guard(e), false)
    case Guard(e) =>
      Effect(pool, if p.ownerEpoch <= e && !(pool.activation.Some? && SameOwnerAttempt(pool.activation.value, p))
                   then Done(false) else ReuseCheck, false)
    case ReuseCheck => Effect(pool, CheckReuse(pool, p), false)
    case Refresh(needed) => Effect(pool, if needed && !ok then Done(false) else ReuseCommit, false)
    case ReuseCommit => CommitReuse(pool, p)
    case Attach => Effect(pool, if ok then Commit else Done(false), false)
    case Commit => CommitFirst(pool, p)
    case Done(_) => Effect(pool, ph, false)
  }

  // ---------------------------------------------------------------------------
  // Runs

  /** Pool, the phase of every request, and the payloads stamped so far. */
  datatype System = System(pool: Pool, phases: seq<Phase>, commits: seq<Payload>)

  datatype Tick = Tick(request: nat, ok: bool)

  function Initial(requests: seq<Payload>): System {
    System(FreshPool(true), seq(|requests|, _ => Start), [])
  }

  function Next(requests: seq<Payload>, s: System, t: Tick): System {
    if t.request < |requests| && t.request < |s.phases| then
      var e := Advance(s.pool, requests[t.request], s.phases[t.request], t.ok);
      System(e.pool, s.phases[t.request := e.phase],
             if e.wrote then s.commits + [requests[t.request]] else s.commits)
    else s
  }

  function Exec(requests: seq<Payload>, s: System, ticks: seq<Tick>): System
    decreases |ticks|
  {
    if ticks == [] then s else Exec(requests, Next(requests, s, ticks[0]), ticks[1..])
  }

  function Run(requests: seq<Payload>, ticks: seq<Tick>): System {
    Exec(requests, Initial(requests), ticks)
  }

  lemma {:induction false} ExecAppend(requests: seq<Payload>, s: System, a: seq<Tick>, b: seq<Tick>)
    ensures Exec(requests, s, a + b) == Exec(requests, Exec(requests, s, a), b)
    decreases |a|
  {
    if a == [] {
      assert a + b == b;
    } else {
      assert (a + b)[1..] == a[1..] + b;
      ExecAppend(requests, Next(requests, s, a[0]), a[1..], b);
    }
  }

  // ---------------------------------------------------------------------------
  // The invariant over the pool, its history and the requests in flight

  /** Epochs never fall, and one epoch belongs to one control plane. */
  ghost predicate Fenced(commits: seq<Payload>) {
    && (forall i, j | 0 <= i < j < |commits| :: commits[i].ownerEpoch <= commits[j].ownerEpoch)
    && (forall i, j | 0 <= i < j < |commits| && commits[i].ownerEpoch == commits[j].ownerEpoch ::
          commits[i].cpInstanceID == commits[j].cpInstanceID)
  }

  ghost predicate OneRuntime(commits: seq<Payload>) {
    forall i | 0 <= i < |commits| :: Runtime(commits[i]) == Runtime(commits[0])
  }

  ghost predicate Mirrors(pool: Pool, commits: seq<Payload>) {
    if commits == [] then pool == FreshPool(true)
    else pool == Stamp(FreshPool(true), commits[|commits| - 1])
  }

  ghost predicate PinnedWorker(requests: seq<Payload>, s: System)
    requires |s.phases| == |requests|
  {
    s.commits != [] && s.commits[0].workerID > 0 ==>
      && (forall i | 0 <= i < |s.commits| :: s.commits[i].workerID == s.commits[0].workerID)
      && (forall r | 0 <= r < |s.phases| :: OnReusePath(s.phases[r]) ==> requests[r].workerID == s.commits[0].workerID)
  }

  ghost predicate Inv(requests: seq<Payload>, s: System) {
    && |s.phases| == |requests|
    && Mirrors(s.pool, s.commits)
    && (s.commits != [] ==> s.commits[0].ownerEpoch > 0)
    && Fenced(s.commits)
    && OneRuntime(s.commits)
    && (forall r | 0 <= r < |s.phases| :: OnReusePath(s.phases[r]) ==> s.commits != [])
    && PinnedWorker(requests, s)
  }

  lemma FencedAppend(commits: seq<Payload>, p: Payload)
    requires Fenced(commits)
    requires commits != [] ==> Reusable(commits[|commits| - 1], p)
    ensures Fenced(commits + [p])
  {
    var all := commits + [p];
    forall i, j | 0 <= i < j < |all|
      ensures all[i].ownerEpoch <= all[j].ownerEpoch
      ensures all[i].ownerEpoch == all[j].ownerEpoch ==> all[i].cpInstanceID == all[j].cpInstanceID
    {
      if j == |commits| {
        var live := commits[|commits| - 1];
        assert all[i].ownerEpoch <= live.ownerEpoch <= p.ownerEpoch;
      }
    }
  }

  lemma OneRuntimeAppend(commits: seq<Payload>, p: Payload)
    requires OneRuntime(commits)
    requires commits != [] ==> SameTenantRuntime(commits[|commits| - 1], p)
    ensures OneRuntime(commits + [p])
  {
    if commits != [] {
      SameTenantRuntimeIsErasure(commits[|commits| - 1], p);
    }
  }

  /** A step that stamps nothing leaves the pool alone, and enters the reuse path only past the worker id check. */
  lemma NoCommitFacts(pool: Pool, p: Payload, ph: Phase, ok: bool)
    requires !Advance(pool, p, ph, ok).wrote
    ensures var e := Advance(pool, p, ph, ok);
            && e.pool == pool
            && (OnReusePath(e.phase) && !OnReusePath(ph) ==>
                  pool.activation.Some? && (pool.workerID > 0 ==> p.workerID == pool.workerID))
  {
  }

  lemma StepWithoutCommit(requests: seq<Payload>, s: System, r: nat, phase: Phase)
    requires Inv(requests, s) && r < |requests|
    requires OnReusePath(phase) && !OnReusePath(s.phases[r]) ==>
               s.pool.activation.Some? && (s.pool.workerID > 0 ==> requests[r].workerID == s.pool.workerID)
    ensures Inv(requests, s.(phases := s.phases[r := phase]))
  {
    if s.commits != [] {
      assert s.pool.workerID == s.commits[|s.commits| - 1].workerID;
    }
  }

  /** A stamp happens at one of the two commit points, and only past its fence. */
  lemma CommitFacts(pool: Pool, p: Payload, ph: Phase, ok: bool)
    requires Advance(pool, p, ph, ok).wrote
    ensures Advance(pool, p, ph, ok) == Effect(Stamp(pool, p), Done(true), true)
    ensures pool.activation.None? ==> ph.Commit? && pool.ownerEpoch < p.ownerEpoch
    ensures pool.activation.Some? ==> ph.ReuseCommit? && Reusable(pool.activation.value, p)
  {
  }

  lemma StepWithCommit(requests: seq<Payload>, s: System, r: nat)
    requires Inv(requests, s) && r < |requests|
    requires s.pool.activation.None? ==> s.pool.ownerEpoch < requests[r].ownerEpoch
    requires s.pool.activation.Some? ==> s.phases[r].ReuseCommit? && Reusable(s.pool.activation.value, requests[r])
    ensures Inv(requests, System(Stamp(s.pool, requests[r]), s.phases[r := Done(true)], s.commits + [requests[r]]))
  {
    FencedAppend(s.commits, requests[r]);
    OneRuntimeAppend(s.commits, requests[r]);
    var s' := System(Stamp(s.pool, requests[r]), s.phases[r := Done(true)], s.commits + [requests[r]]);
    assert Mirrors(s'.pool, s'.commits);
    assert forall i | 0 <= i < |s'.phases| && OnReusePath(s'.phases[i]) :: OnReusePath(s.phases[i]);
  }

  lemma StepKeepsInv(requests: seq<Payload>, s: System, t: Tick)
    requires Inv(requests, s)
    ensures Inv(requests, Next(requests, s, t))
    ensures s.commits <= Next(requests, s, t).commits
  {
    if t.request < |requests| {
      var p, ph := requests[t.request], s.phases[t.request];
      if Advance(s.pool, p, ph, t.ok).wrote {
        CommitFacts(s.pool, p, ph, t.ok);
        StepWithCommit(requests, s, t.request);
      } else {
        NoCommitFacts(s.pool, p, ph, t.ok);
        StepWithoutCommit(requests, s, t.request, Advance(s.pool, p, ph, t.ok).phase);
      }
    }
  }

  lemma {:induction false} ExecKeepsInv(requests: seq<Payload>, s: System, ticks: seq<Tick>)
    requires Inv(requests, s)
    ensures Inv(requests, Exec(requests, s, ticks))
    ensures s.commits <= Exec(requests, s, ticks).commits
    decreases |ticks|
  {
    if ticks != [] {
      StepKeepsInv(requests, s, ticks[0]);
      ExecKeepsInv(requests, Next(requests, s, ticks[0]), ticks[1..]);
    }
  }

  lemma RunKeepsInv(requests: seq<Payload>, ticks: seq<Tick>)
    ensures Inv(requests, Run(requests, ticks))
  {
    ExecKeepsInv(requests, Initial(requests), ticks);
  }

  // ---------------------------------------------------------------------------
  // Main results, for every set of requests and every interleaving

  /** No two control planes ever commit at the same owner epoch. */
  lemma OneControlPlanePerEpoch(requests: seq<Payload>, ticks: seq<Tick>, i: nat, j: nat)
    requires i < |Run(requests, ticks).commits| && j < |Run(requests, ticks).commits|
    requires Run(requests, ticks).commits[i].ownerEpoch == Run(requests, ticks).commits[j].ownerEpoch
    ensures Run(requests, ticks).commits[i].cpInstanceID == Run(requests, ticks).commits[j].cpInstanceID
  {
    RunKeepsInv(requests, ticks);
  }

  /** The pool's owner fields are those of the last committed payload, and stay unset before it. */
  lemma PoolMirrorsLastCommit(requests: seq<Payload>, ticks: seq<Tick>)
    ensures var s := Run(requests, ticks);
            if s.commits == [] then s.pool == FreshPool(true)
            else var p := s.commits[|s.commits| - 1];
                 && s.pool.activation == Some(p)
                 && s.pool.ownerEpoch == p.ownerEpoch > 0
                 && s.pool.ownerCP == p.cpInstanceID
                 && s.pool.workerID == p.workerID
  {
    RunKeepsInv(requests, ticks);
  }

  /** Between any two points of a run: epochs rise, and the tenant runtime is frozen once set. */
  lemma OwnershipOnlyMovesForward(requests: seq<Payload>, before: seq<Tick>, more: seq<Tick>)
    ensures var s, s' := Run(requests, before).pool, Run(requests, before + more).pool;
            && s.ownerEpoch <= s'.ownerEpoch
            && (s.activation.Some? ==>
                  && s'.activation.Some?
                  && Runtime(s.activation.value) == Runtime(s'.activation.value)
                  && SameTenantRuntime(s.activation.value, s'.activation.value)
                  && s.activation.value.orgID == s'.activation.value.orgID)
  {
    var s := Run(requests, before);
    RunKeepsInv(requests, before);
    ExecAppend(requests, Initial(requests), before, more);
    ExecKeepsInv(requests, s, more);
    var s' := Run(requests, before + more);
    if s.commits != [] {
      assert s'.commits[|s.commits| - 1] == s.commits[|s.commits| - 1];
      SameTenantRuntimeIsErasure(s.pool.activation.value, s'.pool.activation.value);
    }
  }

  // --- The worker id: re-checked at commit on the first-activation path only ---

  ghost predicate IdStays(id: int, requests: seq<Payload>, before: seq<Tick>, more: seq<Tick>) {
    var s := Run(requests, before);
    s.commits != [] && s.commits[0].workerID == id ==>
      s.pool.workerID == id && Run(requests, before + more).pool.workerID == id
  }

  lemma PositiveIdStays(id: int, requests: seq<Payload>, before: seq<Tick>, more: seq<Tick>)
    requires id > 0
    ensures IdStays(id, requests, before, more)
  {
    var s := Run(requests, before);
    RunKeepsInv(requests, before);
    ExecAppend(requests, Initial(requests), before, more);
    ExecKeepsInv(requests, s, more);
  }

  function PlainPayload(workerID: int, epoch: int): Payload {
    Payload(workerID, epoch, "cp", "org",
            DuckLake("", "", "", false, "", "", "", "", false, "", "", "", false, None, 0, "", "", "", UNREAD_ZERO),
            Iceberg(false, "", "", "", "", "", "", "", "", ""))
  }

  function Times(r: nat, n: nat): seq<Tick> {
    seq(n, _ => Tick(r, true))
  }

  /** The first request activates the worker in three steps. */
  lemma FirstCommits(first: Payload, second: Payload)
    requires first == PlainPayload(first.workerID, 1)
    ensures Exec([first, second], Initial([first, second]), Times(0, 3))
         == System(Stamp(FreshPool(true), first), [Done(true), Start], [first])
  {
    var requests := [first, second];
    assert !IsSpace("org"[0]);
    var s0 := Initial(requests);
    var s1 := Next(requests, s0, Tick(0, true));
    var s2 := Next(requests, s1, Tick(0, true));
    assert s1.phases == [Attach, Start];
    assert s2.phases == [Commit, Start];
    ExecThree(requests, s0, Times(0, 3));
  }

  /** The second arrives at a newer epoch with another id, where the id in place is not positive. */
  ghost predicate Takeover(first: Payload, second: Payload, s: System, phase: Phase) {
    && first == PlainPayload(first.workerID, 1) && second == PlainPayload(first.workerID + 1, 2) && first.workerID <= 0
    && s == System(Stamp(FreshPool(true), first), [Done(true), phase], [first])
  }

  lemma SecondStarts(first: Payload, second: Payload, s: System)
    requires Takeover(first, second, s, Start)
    ensures Takeover(first, second, Next([first, second], s, Tick(1, true)), Inspect(1))
  {
    assert !IsSpace("org"[0]);
  }

  lemma SecondInspects(first: Payload, second: Payload, s: System)
    requires Takeover(first, second, s, Inspect(1))
    ensures Takeover(first, second, Next([first, second], s, Tick(1, true)), Compare(1))
  {
  }

  lemma SecondCompares(first: Payload, second: Payload, s: System)
    requires Takeover(first, second, s, Compare(1))
    ensures Takeover(first, second, Next([first, second], s, Tick(1, true)), Guard(1))
  {
  }

  lemma SecondPassesChecks(first: Payload, second: Payload, s: System)
    requires Takeover(first, second, s, Start)
    ensures Exec([first, second], s, Times(1, 7))
         == Exec([first, second], s.(phases := [Done(true), Guard(1)]), Times(1, 7)[3..])
  {
    var requests := [first, second];
    SecondStarts(first, second, s);
    var t4 := Next(requests, s, Tick(1, true));
    SecondInspects(first, second, t4);
    SecondCompares(first, second, Next(requests, t4, Tick(1, true)));
    ExecThree(requests, s, Times(1, 7));
  }

  lemma SecondCommits(first: Payload, second: Payload, s: System)
    requires Takeover(first, second, s, Guard(1))
    ensures Exec([first, second], s, Times(1, 7)[3..]).pool.workerID == second.workerID
  {
    var requests := [first, second];
    assert !IsSpace("org"[0]);
    var t7 := Next(requests, s, Tick(1, true));
    assert t7 == s.(phases := [Done(true), ReuseCheck]);
    var t8 := Next(requests, t7, Tick(1, true));
    assert t8 == s.(phases := [Done(true), Refresh(false)]);
    var t9 := Next(requests, t8, Tick(1, true));
    assert t9 == s.(phases := [Done(true), ReuseCommit]);
    ExecThree(requests, s, Times(1, 7)[3..]);
    var rest := Times(1, 7)[3..][3..];
    assert rest[1..] == [];
    assert Exec(requests, t9, rest) == Next(requests, t9, rest[0]);
  }

  /** A takeover at a newer epoch relabels a worker whose first id was not positive. */
  lemma NonPositiveIdMoves(id: int) returns (requests: seq<Payload>, before: seq<Tick>, more: seq<Tick>)
    requires id <= 0
    ensures !IdStays(id, requests, before, more)
  {
    var first, second := PlainPayload(id, 1), PlainPayload(id + 1, 2);
    requests, before, more := [first, second], Times(0, 3), Times(1, 7);
    FirstCommits(first, second);
    var s3 := Exec(requests, Initial(requests), before);
    SecondPassesChecks(first, second, s3);
    SecondCommits(first, second, s3.(phases := [Done(true), Guard(1)]));
    ExecAppend(requests, Initial(requests), before, more);
  }

  lemma ExecThree(requests: seq<Payload>, s: System, ticks: seq<Tick>)
    requires |ticks| >= 3
    ensures Exec(requests, s, ticks)
         == Exec(requests, Next(requests, Next(requests, Next(requests, s, ticks[0]), ticks[1]), ticks[2]), ticks[3..])
  {
    var s1 := Next(requests, s, ticks[0]);
    var s2 := Next(requests, s1, ticks[1]);
    assert ticks[1..][1..] == ticks[2..] && ticks[2..][1..] == ticks[3..];
    assert Exec(requests, s, ticks) == Exec(requests, s1, ticks[1..]);
    assert Exec(requests, s1, ticks[1..]) == Exec(requests, s2, ticks[2..]);
  }

  /** The first committed worker id is kept in every run exactly when it is positive. */
  lemma WorkerIdKeptIffPositive(id: int)
    ensures (forall requests, before, more :: IdStays(id, requests, before, more)) <==> id > 0
  {
    if id > 0 {
      forall requests, before, more ensures IdStays(id, requests, before, more) {
        PositiveIdStays(id, requests, before, more);
      }
    } else {
      var requests, before, more := NonPositiveIdMoves(id);
    }
  }

  // --- Concurrent byte-identical first activations ---

  function TicksOf(ticks: seq<Tick>, r: nat): nat {
    if ticks == [] then 0 else (if ticks[0].request == r then 1 else 0) + TicksOf(ticks[1..], r)
  }

  /** No step of a request can block: after MAX_STEPS of its own ticks it has returned. */
  lemma {:induction false} RequestsReturn(requests: seq<Payload>, s: System, ticks: seq<Tick>, r: nat)
    requires |s.phases| == |requests| && r < |requests|
    ensures var s' := Exec(requests, s, ticks);
            && |s'.phases| == |requests|
            && (s'.phases[r].Done? || Rank(s'.phases[r]) >= Rank(s.phases[r]) + TicksOf(ticks, r))
    decreases |ticks|
  {
    if ticks != [] {
      RequestsReturn(requests, Next(requests, s, ticks[0]), ticks[1..], r);
    }
  }

  ghost predicate Twins(requests: seq<Payload>, p: Payload) {
    && !Blank(p.orgID) && p.ownerEpoch > 0
    && forall r | 0 <= r < |requests| :: requests[r] == p
  }

  ghost predicate TwinsInv(requests: seq<Payload>, p: Payload, s: System) {
    && Twins(requests, p)
    && |s.phases| == |requests|
    && (s.commits == [] || s.commits == [p])
    && Mirrors(s.pool, s.commits)
    && forall r | 0 <= r < |s.phases| ::
         match s.phases[r]
         case Start | Attach | Commit => true
         case Inspect(_) | Compare(_) => s.commits == [p]
         case Done(ok) => ok && s.commits == [p]
         case _ => false
  }

  lemma TwinsStep(requests: seq<Payload>, p: Payload, s: System, t: Tick)
    requires TwinsInv(requests, p, s) && t.ok
    ensures TwinsInv(requests, p, Next(requests, s, t))
  {
    if t.request < |requests| {
      assert requests[t.request] == p;
    }
  }

  lemma {:induction false} TwinsExec(requests: seq<Payload>, p: Payload, s: System, ticks: seq<Tick>)
    requires TwinsInv(requests, p, s)
    requires forall i | 0 <= i < |ticks| :: ticks[i].ok
    ensures TwinsInv(requests, p, Exec(requests, s, ticks))
    decreases |ticks|
  {
    if ticks != [] {
      TwinsStep(requests, p, s, ticks[0]);
      TwinsExec(requests, p, Next(requests, s, ticks[0]), ticks[1..]);
    }
  }

  /**
   Any number of identical first activations whose DB attach succeeds: no request ever fails,
   at most one commits, and once each has had its steps all have succeeded with one commit.
   */
  lemma IdenticalActivationsAllSucceed(requests: seq<Payload>, p: Payload, ticks: seq<Tick>)
    requires Twins(requests, p) && requests != []
    requires forall i | 0 <= i < |ticks| :: ticks[i].ok
    ensures var s := Run(requests, ticks);
            && |s.phases| == |requests|
            && (forall r | 0 <= r < |requests| :: s.phases[r] != Done(false))
            && |s.commits| <= 1
            && ((forall r: nat | r < |requests| :: TicksOf(ticks, r) >= MAX_STEPS) ==>
                  s.commits == [p] && forall r | 0 <= r < |requests| :: s.phases[r] == Done(true))
  {
    var s := Run(requests, ticks);
    TwinsExec(requests, p, Initial(requests), ticks);
    if forall r: nat | r < |requests| :: TicksOf(ticks, r) >= MAX_STEPS {
      forall r | 0 <= r < |requests| ensures s.phases[r] == Done(true) {
        RequestsReturn(requests, Initial(requests), ticks, r);
      }
      assert s.phases[0] == Done(true);
    }
  }

  // ---------------------------------------------------------------------------
  // The pool object: each locked section is a method

  /** Where a request ends when nothing else touches the pool. */
  function Alone(pool: Pool, p: Payload, ph: Phase, ok: bool): (Pool, bool)
    decreases MAX_STEPS - Rank(ph)
  {
    if ph.Done? then (pool, ph.ok)
    else var e := Advance(pool, p, ph, ok); Alone(e.pool, p, e.phase, ok)
  }

  /** What an activated worker admits when nothing else touches the pool. */
  predicate Admits(live: Payload, next: Payload) {
    && !Blank(next.orgID) && next.ownerEpoch >= 0
    && (live.workerID > 0 ==> next.workerID == live.workerID)
    && Runtime(live) == Runtime(next)
    && (|| live == next
        || live.ownerEpoch < next.ownerEpoch
        || (&& live.workerID == next.workerID && live.cpInstanceID == next.cpInstanceID
            && live.ownerEpoch == next.ownerEpoch))
  }

  /** Something uses S3, its config changed, and the secrets in place are not known to be good. */
  predicate SecretsDue(live: Payload, next: Payload) {
    var was, now := live.duckLake, next.duckLake;
    && (now.objectStore != "" || next.iceberg.enabled)
    && was != now
    && (|| was.s3AccessKey != now.s3AccessKey || was.s3SecretKey != now.s3SecretKey
        || was.s3SessionToken != now.s3SessionToken
        || now.s3Provider == "aws_sdk" || now.s3Provider == "credential_chain"
        || (now.s3Provider == "" && now.s3AccessKey == ""))
  }

  /** The checks at the door: a well-formed request for this worker goes on, and attaches only at a new epoch. */
  lemma SnapshotMeaning(pool: Pool, p: Payload)
    ensures var entitled := && pool.sharedWarmMode && !Blank(p.orgID) && p.ownerEpoch >= 0
                            && (pool.workerID <= 0 || p.workerID == pool.workerID);
            TakeSnapshot(pool, p)
            == if entitled && pool.activation.Some? then Inspect(pool.ownerEpoch)
               else if entitled && p.ownerEpoch > pool.ownerEpoch then Attach
               else Done(false)
  {
  }

  /** The unlocked checks of a takeover, each on the payload live at its own moment. */
  lemma TakeoverChecks(pool: Pool, p: Payload, seen: int, ok: bool)
    requires pool.activation.Some?
    ensures var live := pool.activation.value;
            var sameAttempt := && live.workerID == p.workerID && live.cpInstanceID == p.cpInstanceID
                               && live.ownerEpoch == p.ownerEpoch;
            && Advance(pool, p, Inspect(seen), ok).phase
               == (if Runtime(live) == Runtime(p) then Compare(seen) else Done(false))
            && Advance(pool, p, Compare(seen), ok).phase == (if live == p then Done(true) else Guard(seen))
            && Advance(pool, p, Guard(seen), ok).phase
               == (if p.ownerEpoch > seen || sameAttempt then ReuseCheck else Done(false))
            && Advance(pool, p, ReuseCheck, ok).phase
               == (if Runtime(live) == Runtime(p) && (live == p || p.ownerEpoch > live.ownerEpoch || sameAttempt)
                   then Refresh(SecretsDue(live, p)) else Done(false))
  {
    SameTenantRuntimeIsErasure(pool.activation.value, p);
  }

  /** An undisturbed first request commits exactly when it is well formed and its runtime comes up. */
  lemma FirstAlone(shared: bool, p: Payload, io: bool)
    ensures Alone(FreshPool(shared), p, Start, io)
         == if shared && !Blank(p.orgID) && p.ownerEpoch > 0 && io then (Stamp(FreshPool(shared), p), true)
            else (FreshPool(shared), false)
  {
    var pool := FreshPool(shared);
    AloneStep(pool, p, Start, io);
    if TakeSnapshot(pool, p) == Attach {
      AloneStep(pool, p, Attach, io);
      AloneStep(pool, p, Commit, io);
    }
  }

  /**
   An undisturbed request to an activated worker succeeds exactly when it is admitted and any secrets that
   are due get written; then its whole payload takes over, and otherwise nothing changes.
   */
  lemma ReuseAlone(live: Payload, next: Payload, io: bool)
    ensures Alone(Stamp(FreshPool(true), live), next, Start, io)
         == if Admits(live, next) && (io || !SecretsDue(live, next)) then (Stamp(FreshPool(true), next), true)
            else (Stamp(FreshPool(true), live), false)
  {
    var pool := Stamp(FreshPool(true), live);
    var e := live.ownerEpoch;
    SameTenantRuntimeIsErasure(live, next);
    AloneStep(pool, next, Start, io);
    if TakeSnapshot(pool, next) == Inspect(e) {
      AloneStep(pool, next, Inspect(e), io);
      if SameTenantRuntime(live, next) {
        AloneStep(pool, next, Compare(e), io);
        if live != next {
          AloneStep(pool, next, Guard(e), io);
          AloneStep(pool, next, ReuseCheck, io);
          AloneStep(pool, next, Refresh(NeedsRefresh(live, next)), io);
          AloneStep(pool, next, ReuseCommit, io);
        }
      }
    }
  }

  lemma AloneStep(pool: Pool, p: Payload, ph: Phase, io: bool)
    requires !ph.Done?
    ensures var e := Advance(pool, p, ph, io);
            Alone(pool, p, ph, io) == if e.phase.Done? then (e.pool, e.phase.ok) else Alone(e.pool, p, e.phase, io)
  {
  }

  /** Rotated credentials that could not be written are not committed. */
  lemma UnwrittenCredentialsAreRefused(live: Payload, next: Payload)
    requires next.duckLake.objectStore != "" || next.iceberg.enabled
    requires || live.duckLake.s3AccessKey != next.duckLake.s3AccessKey
             || live.duckLake.s3SecretKey != next.duckLake.s3SecretKey
             || live.duckLake.s3SessionToken != next.duckLake.s3SessionToken
    ensures Alone(Stamp(FreshPool(true), live), next, Start, false) == (Stamp(FreshPool(true), live), false)
  {
    ReuseAlone(live, next, false);
  }

  /** The commit section of a first activation, by what the pool holds when it runs. */
  lemma CommitFirstMeaning(pool: Pool, p: Payload)
    ensures var e := CommitFirst(pool, p);
            var mine := pool.workerID <= 0 || p.workerID == pool.workerID;
            && (e.wrote <==> mine && pool.activation.None? && p.ownerEpoch > pool.ownerEpoch)
            && (e.phase == Done(true) <==> e.wrote || (mine && pool.activation == Some(p)))
            && (e.phase == Done(true) || e.phase == Done(false))
            && e.pool == (if e.wrote then Pool(pool.sharedWarmMode, Some(p), p.ownerEpoch, p.cpInstanceID, p.workerID)
                          else pool)
  {
    if pool.activation == Some(p) {
      SameTenantRuntimeIsErasure(p, p);
    }
  }

  /** The commit section of a reuse, by what the pool holds when it runs. */
  lemma CommitReuseMeaning(pool: Pool, p: Payload)
    ensures var e := CommitReuse(pool, p);
            && (e.wrote <==>
                  && pool.activation.Some?
                  && var live := pool.activation.value;
                     && Runtime(live) == Runtime(p)
                     && (|| live == p || live.ownerEpoch < p.ownerEpoch
                         || (&& live.workerID == p.workerID && live.cpInstanceID == p.cpInstanceID
                             && live.ownerEpoch == p.ownerEpoch)))
            && e.phase == Done(e.wrote)
            && e.pool == (if e.wrote then Pool(pool.sharedWarmMode, Some(p), p.ownerEpoch, p.cpInstanceID, p.workerID)
                          else pool)
  {
    if pool.activation.Some? {
      SameTenantRuntimeIsErasure(pool.activation.value, p);
    }
  }

  /** A request leaves the unread fields as they were exactly when it is refused or agrees on them. */
  lemma ReuseKeepsUnreadIff(live: Payload, next: Payload)
    ensures var (pool, ok) := Alone(Stamp(FreshPool(true), live), next, Start, true);
            && pool.activation.Some?
            && (pool.activation.value.duckLake.unread == live.duckLake.unread
                <==> !Admits(live, next) || next.duckLake.unread == live.duckLake.unread)
  {
    ReuseAlone(live, next, true);
  }

  /** An activated worker takes another spec version for the same tenant runtime, without attaching again. */
  lemma SpecVersionChangesUnderReuse()
    ensures var live := PlainPayload(1, 1);
            var next := PlainPayload(1, 2);
            var newer := next.(duckLake := next.duckLake.(unread := UNREAD_ZERO.(specVersion := "2")));
            && SameTenantRuntime(live, newer) && Promised(live) != Promised(newer)
            && Alone(Stamp(FreshPool(true), live), newer, Start, true) == (Stamp(FreshPool(true), newer), true)
  {
    var live, next := PlainPayload(1, 1), PlainPayload(1, 2);
    var newer := next.(duckLake := next.duckLake.(unread := UNREAD_ZERO.(specVersion := "2")));
    assert Promised(live).duckLake.unread.specVersion != Promised(newer).duckLake.unread.specVersion;
    assert !IsSpace("org"[0]);
    SameTenantRuntimeIsErasure(live, newer);
    ReuseAlone(live, newer, true);
  }

  class SessionPool {
    const sharedWarmMode: bool
    var activation: Option<Payload>
    var ownerEpoch: int
    var ownerCP: string
    var workerID: int

    function View(): Pool
      reads this
    {
      Pool(sharedWarmMode, activation, ownerEpoch, ownerCP, workerID)
    }

    constructor (sharedWarmMode: bool)
      ensures View() == FreshPool(sharedWarmMode)
    {
      this.sharedWarmMode := sharedWarmMode;
      activation, ownerEpoch, ownerCP, workerID := None, 0, "", 0;
    }

    /** Last locked section of `reuseExistingActivation`. */
    method CommitReuseLocked(payload: Payload) returns (ok: bool)
      modifies this
      ensures var e := CommitReuse(old(View()), payload); View() == e.pool && Done(ok) == e.phase
    {
      if activation.None? {
        return false;
      }
      var live := activation.value;
      if !SameTenantRuntime(live, payload) {
        return false;
      }
      if live != payload && payload.ownerEpoch <= live.ownerEpoch {
        if !SameOwnerAttempt(live, payload) {
          return false;
        }
      }
      activation := Some(payload);
      ownerEpoch := payload.ownerEpoch;
      ownerCP := payload.cpInstanceID;
      workerID := payload.workerID;
      return true;
    }

    /** Last locked section of `activateTenant`. */
    method CommitFirstLocked(payload: Payload) returns (ok: bool)
      modifies this
      ensures var e := CommitFirst(old(View()), payload); View() == e.pool && Done(ok) == e.phase
    {
      if workerID > 0 && payload.workerID != workerID {
        return false;
      }
      if activation.Some? && SameTenantRuntime(activation.value, payload) && activation.value == payload {
        return true;
      }
      if payload.ownerEpoch <= ownerEpoch {
        return false;
      }
      if activation.Some? {
        return false;
      }
      activation := Some(payload);
      ownerEpoch := payload.ownerEpoch;
      ownerCP := payload.cpInstanceID;
      workerID := payload.workerID;
      return true;
    }

    /** `activateTenant` with no other request in between; `io` is the outcome of its slow work. */
    method ActivateTenant(payload: Payload, io: bool) returns (ok: bool)
      modifies this
      ensures (View(), ok) == Alone(old(View()), payload, Start, io)
    {
      var phase := Start;
      while !phase.Done?
        invariant Alone(View(), payload, phase, io) == Alone(old(View()), payload, Start, io)
        decreases MAX_STEPS - Rank(phase)
      {
        if phase.ReuseCommit? {
          ok := CommitReuseLocked(payload);
          phase := Done(ok);
        } else if phase.Commit? {
          ok := CommitFirstLocked(payload);
          phase := Done(ok);
        } else {
          phase := Advance(View(), payload, phase, io).phase;
        }
      }
      ok := phase.ok;
    }
  }
}
