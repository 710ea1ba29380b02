/**
 Effective warm targets (controlplane/warm_capacity_targets.go) and whether the global worker
 cap is what limits them (controlplane/multitenant.go).
 */
module WarmTargets {
  import opened Sums
  import opened WarmCapacity

  // ---------------------------------------------------------------------------
  // The greedy cap hands out exactly the smaller of the cap and the request

  ghost function ShareOf(requested: map<string, int>, missCounts: map<string, int>, cap: int): string -> int {
    i => Share(requested, missCounts, cap, i)
  }

  lemma {:induction false} LastByRank(requested: map<string, int>, missCounts: map<string, int>, s: set<string>)
    returns (last: string)
    requires s != {}
    ensures last in s && forall y | y in s && y != last :: RanksBefore(requested, missCounts, y, last)
    decreases s
  {
    RankIsStrictTotal(requested, missCounts);
    last :| last in s;
    if s != {last} {
      var other := LastByRank(requested, missCounts, s - {last});
      if RanksBefore(requested, missCounts, last, other) {
        last := other;
      }
    }
  }

  lemma {:induction false} ServedTotal(requested: map<string, int>, missCounts: map<string, int>, cap: int,
                                       served: set<string>)
    requires cap >= 0 && served <= Eligible(requested)
    requires forall x | x in served :: Ahead(requested, missCounts, x) <= served
    ensures SumOver(served, ShareOf(requested, missCounts, cap)) == Min(cap, SumOver(served, At(requested)))
    decreases served
  {
    if served != {} {
      RankIsStrictTotal(requested, missCounts);
      var last := LastByRank(requested, missCounts, served);
      var ahead := Ahead(requested, missCounts, last);
      assert ahead == served - {last};
      forall x | x in ahead ensures Ahead(requested, missCounts, x) <= ahead {
      }
      ServedTotal(requested, missCounts, cap, ahead);
      SumPick(served, At(requested), last);
      SumPick(served, ShareOf(requested, missCounts, cap), last);
    }
  }

  lemma AllocationTotal(requested: map<string, int>, missCounts: map<string, int>, cap: int)
    requires cap >= 0
    ensures Positive(Allocation(requested, missCounts, cap))
    ensures Total(Allocation(requested, missCounts, cap)) == Min(cap, SumOver(Eligible(requested), At(requested)))
  {
    var out, eligible := Allocation(requested, missCounts, cap), Eligible(requested);
    ServedTotal(requested, missCounts, cap, eligible);
    TotalOfPositive(out);
    SumAgree(out.Keys, At(out), ShareOf(requested, missCounts, cap));
    forall i | i in eligible - out.Keys ensures ShareOf(requested, missCounts, cap)(i) == 0 {
      MonotoneInCap(requested, missCounts, cap, cap, i);
    }
    SumIgnoresZeros(out.Keys, eligible, ShareOf(requested, missCounts, cap));
  }

  // ---------------------------------------------------------------------------
  // Targets

  function Merge(base: map<string, int>, extra: map<string, int>): map<string, int> {
    map i | i in base.Keys + extra.Keys :: At(base)(i) + At(extra)(i)
  }

  lemma MergeTotal(base: map<string, int>, extra: map<string, int>)
    requires Positive(base) && Positive(extra)
    ensures Positive(Merge(base, extra))
    ensures Total(Merge(base, extra)) == Total(base) + Total(extra)
  {
    var all := Merge(base, extra);
    TotalOfPositive(base);
    TotalOfPositive(extra);
    TotalOfPositive(all);
    SumAdd(all.Keys, At(base), At(extra), At(all));
    SumIgnoresZeros(base.Keys, all.Keys, At(base));
    SumIgnoresZeros(extra.Keys, all.Keys, At(extra));
  }

  /** The extra capacity each image asks for, after the per-image ceiling. */
  function RequestedBy(aggregates: seq<Aggregate>, cfg: Config): map<string, int> {
    Requested(MissCounts(Demands(aggregates)), Normalize(cfg))
  }

  /** How much extra capacity the configured ceilings let through. */
  ghost function AllowedExtra(base: map<string, int>, requested: map<string, int>, cfg: Config): int {
    var wanted := Total(requested);
    var capped := if cfg.totalCeiling > 0 then Min(wanted, cfg.totalCeiling) else wanted;
    if cfg.maxWorkers > 0 then Min(capped, Max0(cfg.maxWorkers - Total(base))) else capped
  }

  /** `computeDynamicWarmCapacityTargets` on sanitized base targets. */
  ghost function Targets(base: map<string, int>, aggregates: seq<Aggregate>, cfg: Config): map<string, int> {
    if !cfg.enabled then base
    else
      var missCounts := MissCounts(Demands(aggregates));
      var requested := RequestedBy(aggregates, cfg);
      Merge(base, Allocation(requested, missCounts, AllowedExtra(base, requested, Normalize(cfg))))
  }

  ghost function ExtraTotal(base: map<string, int>, aggregates: seq<Aggregate>, cfg: Config): int {
    if cfg.enabled then AllowedExtra(base, RequestedBy(aggregates, cfg), Normalize(cfg)) else 0
  }

  lemma RequestIsEligible(aggregates: seq<Aggregate>, cfg: Config)
    ensures var requested := RequestedBy(aggregates, cfg);
            && Positive(requested)
            && Eligible(requested) == requested.Keys
            && Total(requested) == SumOver(Eligible(requested), At(requested)) >= 0
  {
    var ds := Demands(aggregates);
    var requested := RequestedBy(aggregates, cfg);
    MissCountsSound(ds);
    NoBlankImage(ds);
    TotalOfPositive(requested);
    SumNonNegative(requested.Keys, At(requested));
  }

  lemma {:induction false} NoBlankImage(ds: seq<Demand>)
    requires RealDemand(ds)
    ensures MissesFor(ds, "") == 0
    decreases |ds|
  {
    if ds != [] {
      NoBlankImage(ds[..|ds| - 1]);
    }
  }

  /**
   What an image asks for: the least number of workers that covers its misses at the configured rate, by
   default eight per worker, but no more than a positive image ceiling.
   */
  lemma RequestMeaning(aggregates: seq<Aggregate>, cfg: Config, image: string) returns (need: int)
    ensures var misses := MissesFor(Demands(aggregates), image);
            var rate := if cfg.missesPerWorker > 0 then cfg.missesPerWorker else 8;
            && misses >= 0 && need >= 0 && need * rate >= misses && (need > 0 ==> (need - 1) * rate < misses)
    ensures Count(RequestedBy(aggregates, cfg), image)
            == if cfg.imageCeiling > 0 && need > cfg.imageCeiling then cfg.imageCeiling else need
  {
    var ds := Demands(aggregates);
    var misses := MissesFor(ds, image);
    var rate := if cfg.missesPerWorker > 0 then cfg.missesPerWorker else 8;
    MissCountsSound(ds);
    MissesNonNegative(ds, image);
    need := CeilDiv(misses, rate);
    CeilDivIsLeast(misses, rate, 0);
    if need > 0 {
      CeilDivIsLeast(misses, rate, need - 1);
    }
    assert image in MissCounts(ds) <==> misses > 0;
  }

  /** Switched off, nothing is added; on, each ceiling counts where it is positive, and one of them is met. */
  lemma CeilingsMeaning(base: map<string, int>, aggregates: seq<Aggregate>, cfg: Config)
    requires Positive(base)
    ensures !cfg.enabled ==> Targets(base, aggregates, cfg) == base
    ensures cfg.enabled ==>
              var extra := Total(Targets(base, aggregates, cfg)) - Total(base);
              var wanted := Total(RequestedBy(aggregates, cfg));
              var headroom := if cfg.maxWorkers > Total(base) then cfg.maxWorkers - Total(base) else 0;
              && 0 <= extra <= wanted
              && (cfg.totalCeiling > 0 ==> extra <= cfg.totalCeiling)
              && (cfg.maxWorkers > 0 ==> extra <= headroom)
              && (|| extra == wanted
                  || (cfg.totalCeiling > 0 && extra == cfg.totalCeiling)
                  || (cfg.maxWorkers > 0 && extra == headroom))
  {
    TargetsTotal(base, aggregates, cfg);
  }

  /** The extra handed out in total is exactly what the ceilings let through. */
  lemma TargetsTotal(base: map<string, int>, aggregates: seq<Aggregate>, cfg: Config)
    requires Positive(base)
    ensures Positive(Targets(base, aggregates, cfg))
    ensures ExtraTotal(base, aggregates, cfg) >= 0
    ensures Total(Targets(base, aggregates, cfg)) == Total(base) + ExtraTotal(base, aggregates, cfg)
  {
    if cfg.enabled {
      var missCounts, requested := MissCounts(Demands(aggregates)), RequestedBy(aggregates, cfg);
      RequestIsEligible(aggregates, cfg);
      var cap := AllowedExtra(base, requested, Normalize(cfg));
      AllocationTotal(requested, missCounts, cap);
      MergeTotal(base, Allocation(requested, missCounts, cap));
    }
  }

  /** Per image: never below base, never above its own demand, and only demanded images grow. */
  lemma TargetsPerImage(base: map<string, int>, aggregates: seq<Aggregate>, cfg: Config, image: string)
    requires Positive(base)
    ensures var extra := At(Targets(base, aggregates, cfg))(image) - At(base)(image);
            && 0 <= extra
            && (cfg.enabled ==> extra <= At(RequestedBy(aggregates, cfg))(image))
            && (cfg.enabled && cfg.imageCeiling > 0 ==> extra <= cfg.imageCeiling)
            && (!cfg.enabled ==> extra == 0)
  {
    if cfg.enabled {
      var missCounts, requested := MissCounts(Demands(aggregates)), RequestedBy(aggregates, cfg);
      var cap := AllowedExtra(base, requested, Normalize(cfg));
      MonotoneInCap(requested, missCounts, cap, cap, image);
    }
  }

  /** With a positive worker cap the effective total never exceeds it, unless the base already does. */
  lemma TargetsWithinCap(base: map<string, int>, aggregates: seq<Aggregate>, cfg: Config)
    requires Positive(base) && cfg.maxWorkers > 0
    ensures Total(Targets(base, aggregates, cfg))
         <= if Total(base) > cfg.maxWorkers then Total(base) else cfg.maxWorkers
  {
    TargetsTotal(base, aggregates, cfg);
  }

  // ---------------------------------------------------------------------------
  // Does the global cap bind?

  /** `warmCapacityGlobalCapBlocksDemand`. */
  ghost predicate CapBlocks(base: map<string, int>, effective: map<string, int>,
                            aggregates: seq<Aggregate>, cfg: Config)
  {
    && cfg.maxWorkers > 0 && aggregates != []
    && Total(effective) >= cfg.maxWorkers
    && cfg.enabled
    && Total(Targets(base, aggregates, cfg.(maxWorkers := 0))) > Total(effective)
  }

  lemma NoAggregatesNoExtra(base: map<string, int>, cfg: Config)
    ensures ExtraTotal(base, [], cfg) == 0
  {
    var requested := RequestedBy([], cfg);
    assert requested == map[];
    TotalOfPositive(requested);
  }

  /** The global cap acts on the extra total as one more ceiling, and only when positive. */
  lemma GlobalCapIsACeiling(base: map<string, int>, aggregates: seq<Aggregate>, cfg: Config)
    requires cfg.enabled
    ensures ExtraTotal(base, aggregates, cfg)
         == var free := ExtraTotal(base, aggregates, cfg.(maxWorkers := 0));
            if cfg.maxWorkers > 0 then Min(free, Max0(cfg.maxWorkers - Total(base))) else free
  {
    assert RequestedBy(aggregates, cfg.(maxWorkers := 0)) == RequestedBy(aggregates, cfg);
  }

  /**
   Fed the allocator's own output, the shortcut says "blocked" exactly when dropping the global cap
   would raise the total, so its early exit below the cap is sound.
   */
  lemma CapBlocksIffCapBinds(base: map<string, int>, aggregates: seq<Aggregate>, cfg: Config)
    requires Positive(base)
    ensures CapBlocks(base, Targets(base, aggregates, cfg), aggregates, cfg)
       <==> Total(Targets(base, aggregates, cfg.(maxWorkers := 0))) > Total(Targets(base, aggregates, cfg))
  {
    TargetsTotal(base, aggregates, cfg);
    TargetsTotal(base, aggregates, cfg.(maxWorkers := 0));
    if cfg.enabled {
      GlobalCapIsACeiling(base, aggregates, cfg);
    }
    if aggregates == [] {
      NoAggregatesNoExtra(base, cfg);
      NoAggregatesNoExtra(base, cfg.(maxWorkers := 0));
    }
  }

  // ---------------------------------------------------------------------------
  // The loops

  lemma SumOneMore(positive: set<string>, keys: set<string>, f: string -> int, i: string)
    requires i in keys
    ensures SumOver(positive - (keys - {i}), f) == SumOver(positive - keys, f) + if i in positive then f(i) else 0
  {
    var before := positive - keys;
    if i in positive {
      assert positive - (keys - {i}) == before + {i};
      SumPick(before + {i}, f, i);
      assert before + {i} - {i} == before;
    } else {
      assert positive - (keys - {i}) == before;
    }
  }

  method SumPositive(m: map<string, int>) returns (total: int)
    ensures total == Total(m)
  {
    total := 0;
    var keys := m.Keys;
    ghost var positive := set i | i in m && m[i] > 0;
    assert positive - keys == {};
    while keys != {}
      invariant keys <= m.Keys
      invariant total == SumOver(positive - keys, At(m))
      decreases keys
    {
      var i :| i in keys;
      SumOneMore(positive, keys, At(m), i);
      keys := keys - {i};
      if m[i] > 0 {
        total := total + m[i];
      }
    }
    assert positive - {} == positive;
  }

  /** Every usable entry is kept under its trimmed name; which of several wins is left open. */
  ghost predicate SanitizedFrom(targets: map<string, int>, out: map<string, int>) {
    && (forall t | t in out :: t != "" && out[t] > 0 && Source(targets, t, out[t]))
    && (forall k | k in targets && targets[k] > 0 && Trim(k) != "" :: Trim(k) in out)
  }

  ghost predicate Source(targets: map<string, int>, name: string, value: int) {
    exists k :: k in targets && Trim(k) == name && targets[k] == value
  }

  /** Entries that trim to the same name agree. */
  ghost predicate CleanNames(targets: map<string, int>) {
    forall k, k' | k in targets && k' in targets && targets[k] > 0 && targets[k'] > 0 && Trim(k) == Trim(k') ::
      targets[k] == targets[k']
  }

  lemma CleanNamesSanitizeOneWay(targets: map<string, int>, a: map<string, int>, b: map<string, int>)
    requires CleanNames(targets) && SanitizedFrom(targets, a) && SanitizedFrom(targets, b)
    ensures a == b
  {
    forall t | t in a ensures t in b && a[t] == b[t] {
      assert Source(targets, t, a[t]);
      assert Source(targets, t, b[t]);
    }
    forall t | t in b ensures t in a {
      assert Source(targets, t, b[t]);
    }
  }

  method SanitizeTargets(targets: map<string, int>) returns (out: map<string, int>)
    ensures SanitizedFrom(targets, out) && Positive(out)
  {
    out := map[];
    var keys := targets.Keys;
    while keys != {}
      invariant keys <= targets.Keys
      invariant forall t | t in out :: t != "" && out[t] > 0 && Source(targets, t, out[t])
      invariant forall k | k in targets && k !in keys && targets[k] > 0 && Trim(k) != "" :: Trim(k) in out
      decreases keys
    {
      var key :| key in keys;
      keys := keys - {key};
      var image := Trim(key);
      if image != "" && targets[key] > 0 {
        assert Source(targets, image, targets[key]);
        out := out[image := targets[key]];
      }
    }
  }

  method RequestExtras(missCounts: map<string, int>, cfg: Config) returns (requested: map<string, int>)
    ensures requested == Requested(missCounts, cfg)
  {
    requested := map[];
    var keys := missCounts.Keys;
    while keys != {}
      invariant keys <= missCounts.Keys
      invariant forall i | i in requested :: i in missCounts && i !in keys
      invariant forall i | i in missCounts && i !in keys ::
                  && (i in requested <==> Extra(missCounts[i], cfg) > 0)
                  && (i in requested ==> requested[i] == Extra(missCounts[i], cfg))
      decreases keys
    {
      var image :| image in keys;
      keys := keys - {image};
      var extra := CeilDiv(missCounts[image], cfg.missesPerWorker);
      if cfg.imageCeiling > 0 && extra > cfg.imageCeiling {
        extra := cfg.imageCeiling;
      }
      if extra > 0 {
        requested := requested[image := extra];
      }
    }
  }

  /** `base` with the extras outside `keys` added. */
  ghost predicate Merged(base: map<string, int>, extra: map<string, int>,
                         keys: set<string>, targets: map<string, int>)
  {
    && (forall i :: i in targets <==> i in base || (i in extra && i !in keys))
    && (forall i | i in targets :: targets[i] == At(base)(i) + (if i in keys then 0 else At(extra)(i)))
  }

  lemma MergeOne(base: map<string, int>, extra: map<string, int>,
                 keys: set<string>, targets: map<string, int>, i: string)
    requires Merged(base, extra, keys, targets) && i in keys && i in extra
    ensures Merged(base, extra, keys - {i}, targets[i := (if i in targets then targets[i] else 0) + extra[i]])
  {
  }

  lemma MergedAll(base: map<string, int>, extra: map<string, int>, targets: map<string, int>)
    requires Merged(base, extra, {}, targets)
    ensures targets == Merge(base, extra)
  {
  }

  method AddExtras(base: map<string, int>, extra: map<string, int>) returns (targets: map<string, int>)
    ensures targets == Merge(base, extra)
  {
    targets := base;
    var keys := extra.Keys;
    while keys != {}
      invariant keys <= extra.Keys
      invariant Merged(base, extra, keys, targets)
      decreases keys
    {
      var image :| image in keys;
      MergeOne(base, extra, keys, targets, image);
      keys := keys - {image};
      targets := targets[image := (if image in targets then targets[image] else 0) + extra[image]];
    }
    MergedAll(base, extra, targets);
  }

  /** `computeDynamicWarmCapacityTargets`, from whichever sanitized copy of the base targets it starts. */
  method ComputeTargets(baseTargets: map<string, int>, aggregates: seq<Aggregate>, config: Config)
    returns (targets: map<string, int>)
    ensures exists base :: SanitizedFrom(baseTargets, base) && targets == Targets(base, aggregates, config)
  {
    targets := SanitizeTargets(baseTargets);
    ghost var base := targets;
    if !config.enabled {
      return;
    }
    var cfg := Normalize(config);
    var missCounts := ImageMissCounts(aggregates);
    var requested := RequestExtras(missCounts, cfg);
    RequestIsEligible(aggregates, config);
    assert requested == RequestedBy(aggregates, config);
    var totalCap := SumPositive(requested);
    if cfg.totalCeiling > 0 && totalCap > cfg.totalCeiling {
      totalCap := cfg.totalCeiling;
    }
    if cfg.maxWorkers > 0 {
      var used := SumPositive(targets);
      var headroom := cfg.maxWorkers - used;
      if headroom < 0 {
        headroom := 0;
      }
      if totalCap > headroom {
        totalCap := headroom;
      }
    }
    assert totalCap == AllowedExtra(base, requested, cfg) >= 0;
    AllocationTotal(requested, missCounts, totalCap);
    if requested == map[] || totalCap <= 0 {
      NothingToAdd(base, requested, missCounts, totalCap);
      return;
    }
    var extras := CapExtras(requested, missCounts, totalCap);
    targets := AddExtras(targets, extras);
  }

  lemma NothingToAdd(base: map<string, int>, requested: map<string, int>, missCounts: map<string, int>, cap: int)
    requires requested == map[] || cap <= 0
    ensures Merge(base, Allocation(requested, missCounts, cap)) == base
  {
    if cap <= 0 {
      NothingBelowZero(requested, missCounts, cap);
    }
    assert Allocation(requested, missCounts, cap) == map[];
  }

  ghost predicate Usable(targets: map<string, int>, k: string, name: string) {
    k in targets && targets[k] > 0 && Trim(k) == name && name != ""
  }

  ghost function SomeTarget(targets: map<string, int>, name: string): int
    requires exists k :: Usable(targets, k, name)
  {
    var k :| Usable(targets, k, name);
    targets[k]
  }

  lemma SanitizedExists(targets: map<string, int>)
    ensures exists base :: SanitizedFrom(targets, base)
  {
    var names := set k | k in targets && Usable(targets, k, Trim(k)) :: Trim(k);
    var base := map t | t in names && exists k :: Usable(targets, k, t) :: SomeTarget(targets, t);
    forall t | t in base ensures t != "" && base[t] > 0 && Source(targets, t, base[t]) {
      var k :| Usable(targets, k, t) && targets[k] == base[t];
    }
    forall k | k in targets && targets[k] > 0 && Trim(k) != "" ensures Trim(k) in base {
      assert Usable(targets, k, Trim(k));
    }
    assert SanitizedFrom(targets, base);
  }

  /**
   The shortcut itself.  Its answer is `CapBlocks` on some sanitized base, hence on the sanitized base
   where the names leave no choice.
   */
  method GlobalCapBlocksDemand(baseTargets: map<string, int>, effective: map<string, int>,
                               aggregates: seq<Aggregate>, cfg: Config)
    returns (blocked: bool)
    ensures exists base ::
              SanitizedFrom(baseTargets, base) && (blocked <==> CapBlocks(base, effective, aggregates, cfg))
    ensures CleanNames(baseTargets) ==>
              forall base | SanitizedFrom(baseTargets, base) :: blocked <==> CapBlocks(base, effective, aggregates, cfg)
  {
    SanitizedExists(baseTargets);
    if cfg.maxWorkers <= 0 || |aggregates| == 0 {
      return false;
    }
    var effectiveTotal := SumPositive(effective);
    if effectiveTotal < cfg.maxWorkers {
      return false;
    }
    if !cfg.enabled {
      return false;
    }
    var uncapped := ComputeTargets(baseTargets, aggregates, cfg.(maxWorkers := 0));
    var uncappedTotal := SumPositive(uncapped);
    blocked := uncappedTotal > effectiveTotal;
    ghost var base :| SanitizedFrom(baseTargets, base) && uncapped == Targets(base, aggregates, cfg.(maxWorkers := 0));
    if CleanNames(baseTargets) {
      forall b | SanitizedFrom(baseTargets, b) ensures b == base {
        CleanNamesSanitizeOneWay(baseTargets, base, b);
      }
    }
  }
}
