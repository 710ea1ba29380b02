/**
 Dynamic warm-capacity allocation (controlplane/warm_capacity_targets.go) and the
 "does the global cap bind?" shortcut (controlplane/multitenant.go).
 Counts are mathematical integers.
 */
module WarmCapacity {
  import opened Prelude
  import opened Sums

  const DEFAULT_MISSES_PER_WORKER := 8

  datatype Reason = ReasonNone | ReasonNoIdle | ReasonOrgCap | ReasonGlobalCap | ReasonShuttingDown | ReasonOther

  datatype Aggregate = Aggregate(scope: string, reason: Reason, count: int)

  datatype Config = Config(
    enabled: bool, missesPerWorker: int,
    imageCeiling: int, totalCeiling: int, maxWorkers: int)

  function At(m: map<string, int>): string -> int {
    i => if i in m then m[i] else 0
  }

  predicate Positive(m: map<string, int>) {
    forall i | i in m :: m[i] > 0
  }

  /** `sumIntMap`: the sum of the positive entries. */
  ghost function Total(m: map<string, int>): int {
    SumOver((set i | i in m && m[i] > 0), At(m))
  }

  lemma TotalOfPositive(m: map<string, int>)
    requires Positive(m)
    ensures Total(m) == SumOver(m.Keys, At(m))
  {
    assert (set i | i in m && m[i] > 0) == m.Keys;
  }

  // ---------------------------------------------------------------------------
  // Miss counts per image

  function TrimLeft(s: string): string {
    if s != "" && IsSpace(s[0]) then TrimLeft(s[1..]) else s
  }

  function TrimRight(s: string): string {
    if s != "" && IsSpace(s[|s| - 1]) then TrimRight(s[..|s| - 1]) else s
  }

  function Trim(s: string): string {
    TrimRight(TrimLeft(s))
  }

  lemma SpaceIs(c: char)
    ensures IsSpace(c) <==> c as int in {0x09, 0x0A, 0x0B, 0x0C, 0x0D, 0x20, 0x85, 0xA0}
  {
  }

  /** Trimming takes off exactly the spaces at both ends. */
  lemma TrimMeaning(s: string) returns (i: nat, j: nat)
    ensures i <= j <= |s| && Trim(s) == s[i..j]
    ensures (forall k | 0 <= k < i :: IsSpace(s[k])) && (forall k | j <= k < |s| :: IsSpace(s[k]))
    ensures Trim(s) != "" ==> !IsSpace(s[i]) && !IsSpace(s[j - 1])
  {
    i := TrimLeftMeaning(s);
    var rest := s[i..];
    var n := TrimRightMeaning(rest);
    j := i + n;
    assert rest[..n] == s[i..j];
    forall k | j <= k < |s| ensures IsSpace(s[k]) {
      assert s[k] == rest[k - i];
    }
    if n > 0 {
      assert rest[n - 1] == s[j - 1] && rest[0] == s[i];
    }
  }

  lemma {:induction false} TrimLeftMeaning(s: string) returns (i: nat)
    ensures i <= |s| && TrimLeft(s) == s[i..]
    ensures (forall k | 0 <= k < i :: IsSpace(s[k])) && (i < |s| ==> !IsSpace(s[i]))
  {
    if s != "" && IsSpace(s[0]) {
      var n := TrimLeftMeaning(s[1..]);
      i := n + 1;
      forall k | 0 <= k < i ensures IsSpace(s[k]) {
        assert k > 0 ==> s[k] == s[1..][k - 1];
      }
      assert s[1..][n..] == s[i..];
    } else {
      i := 0;
    }
  }

  lemma {:induction false} TrimRightMeaning(s: string) returns (n: nat)
    ensures n <= |s| && TrimRight(s) == s[..n]
    ensures (forall k | n <= k < |s| :: IsSpace(s[k])) && (n > 0 ==> !IsSpace(s[n - 1]))
  {
    if s != "" && IsSpace(s[|s| - 1]) {
      n := TrimRightMeaning(s[..|s| - 1]);
      assert s[..|s| - 1][..n] == s[..n];
    } else {
      n := |s|;
      assert s[..n] == s;
    }
  }

  lemma BlankIsTrimmedAway(s: string)
    ensures Blank(s) <==> Trim(s) == ""
  {
    var i, j := TrimMeaning(s);
    if i < j {
      assert s[i..j] != "" && !IsSpace(s[i]);
    }
  }

  lemma TrimKeeps(s: string)
    requires s != "" && !IsSpace(s[0]) && !IsSpace(s[|s| - 1])
    ensures Trim(s) == s
  {
  }

  const IMAGE_PREFIX := "image:"

  /** An aggregate seen as demand: for no image, or a positive number of misses for one. */
  datatype Demand = Ignored | Misses(image: string, count: int)

  function ToDemand(a: Aggregate): (d: Demand)
    ensures d.Misses? ==> d.image != "" && d.count > 0
  {
    var scope := Trim(a.scope);
    if a.count <= 0 || !(a.reason.ReasonNone? || a.reason.ReasonNoIdle?) then Ignored
    else if !(IMAGE_PREFIX <= scope) then Ignored
    else
      var image := Trim(scope[|IMAGE_PREFIX|..]);
      if image == "" then Ignored else Misses(image, a.count)
  }

  /** Demand is a positive count, for want of an idle worker or without a reason, in the scope of a named image. */
  lemma DemandMeaning(a: Aggregate)
    ensures var scope := Trim(a.scope);
            && (ToDemand(a).Misses? <==>
                  && a.count > 0 && a.reason in {ReasonNone, ReasonNoIdle}
                  && |scope| >= 6 && scope[..6] == "image:" && !Blank(scope[6..]))
            && (ToDemand(a).Misses? ==> ToDemand(a) == Misses(Trim(scope[6..]), a.count))
  {
    var scope := Trim(a.scope);
    if |scope| >= 6 {
      BlankIsTrimmedAway(scope[6..]);
      assert IMAGE_PREFIX <= scope <==> scope[..6] == IMAGE_PREFIX;
    }
  }

  /** An image's own aggregate is demand for it, count for count. */
  lemma ImageDemand(image: string, reason: Reason, count: int)
    requires image != "" && !IsSpace(image[0]) && !IsSpace(image[|image| - 1]) && count > 0
    requires reason == ReasonNone || reason == ReasonNoIdle
    ensures ToDemand(Aggregate("image:" + image, reason, count)) == Misses(image, count)
  {
    var scope := "image:" + image;
    assert scope[0] == 'i' && scope[|scope| - 1] == image[|image| - 1];
    SpaceIs('i');
    TrimKeeps(scope);
    TrimKeeps(image);
    assert scope[..6] == "image:" && scope[6..] == image;
    assert !IsSpace(image[0]);
    DemandMeaning(Aggregate(scope, reason, count));
  }

  function Demands(aggregates: seq<Aggregate>): (ds: seq<Demand>)
    ensures |ds| == |aggregates| && RealDemand(ds)
  {
    seq(|aggregates|, k requires 0 <= k < |aggregates| => ToDemand(aggregates[k]))
  }

  predicate RealDemand(ds: seq<Demand>) {
    forall k | 0 <= k < |ds| && ds[k].Misses? :: ds[k].count > 0 && ds[k].image != ""
  }

  function MissesFor(ds: seq<Demand>, image: string): int {
    if ds == [] then 0
    else
      var d := ds[|ds| - 1];
      MissesFor(ds[..|ds| - 1], image) + (if d.Misses? && d.image == image then d.count else 0)
  }

  /** Per image, the sum of the demand for it. */
  ghost predicate CountsDemand(counts: map<string, int>, ds: seq<Demand>) {
    forall image ::
      && (image in counts <==> MissesFor(ds, image) > 0)
      && (image in counts ==> counts[image] == MissesFor(ds, image))
  }

  lemma {:induction false} MissesNonNegative(ds: seq<Demand>, image: string)
    requires RealDemand(ds)
    ensures MissesFor(ds, image) >= 0
    decreases |ds|
  {
    if ds != [] {
      MissesNonNegative(ds[..|ds| - 1], image);
    }
  }

  function AddDemand(counts: map<string, int>, d: Demand): map<string, int> {
    match d
    case Ignored => counts
    case Misses(image, count) => counts[image := At(counts)(image) + count]
  }

  lemma AddDemandCounts(counts: map<string, int>, ds: seq<Demand>, d: Demand)
    requires CountsDemand(counts, ds) && RealDemand(ds + [d])
    ensures CountsDemand(AddDemand(counts, d), ds + [d])
  {
    assert (ds + [d])[..|ds|] == ds;
    assert (ds + [d])[|ds|] == d;
    forall image
      ensures image in AddDemand(counts, d) <==> MissesFor(ds + [d], image) > 0
      ensures image in AddDemand(counts, d) ==> AddDemand(counts, d)[image] == MissesFor(ds + [d], image)
    {
      assert RealDemand(ds) by {
        assert forall k | 0 <= k < |ds| :: ds[k] == (ds + [d])[k];
      }
      MissesNonNegative(ds, image);
      assert image in counts <==> MissesFor(ds, image) > 0;
    }
  }

  function MissCounts(ds: seq<Demand>): map<string, int> {
    if ds == [] then map[] else AddDemand(MissCounts(ds[..|ds| - 1]), ds[|ds| - 1])
  }

  lemma {:induction false} MissCountsSound(ds: seq<Demand>)
    requires RealDemand(ds)
    ensures CountsDemand(MissCounts(ds), ds) && Positive(MissCounts(ds))
    decreases |ds|
  {
    if ds != [] {
      var last := |ds| - 1;
      MissCountsSound(ds[..last]);
      assert ds == ds[..last] + [ds[last]];
      AddDemandCounts(MissCounts(ds[..last]), ds[..last], ds[last]);
    }
  }

  lemma MissCountsNext(ds: seq<Demand>, k: nat)
    requires k < |ds|
    ensures MissCounts(ds[..k + 1]) == AddDemand(MissCounts(ds[..k]), ds[k])
  {
    assert ds[..k + 1][..k] == ds[..k];
  }

  /** `imageWarmCapacityMissCounts`: per image, the sum of exactly the aggregates that are demand for it. */
  method ImageMissCounts(aggregates: seq<Aggregate>) returns (counts: map<string, int>)
    ensures counts == MissCounts(Demands(aggregates))
    ensures CountsDemand(counts, Demands(aggregates)) && Positive(counts)
  {
    counts := AddUp(aggregates);
    MissCountsSound(Demands(aggregates));
  }

  method AddUp(aggregates: seq<Aggregate>) returns (counts: map<string, int>)
    ensures counts == MissCounts(Demands(aggregates))
  {
    ghost var ds := Demands(aggregates);
    counts := map[];
    for k := 0 to |aggregates|
      invariant counts == MissCounts(ds[..k])
    {
      MissCountsNext(ds, k);
      var d := ToDemand(aggregates[k]);
      if d.Misses? {
        counts := counts[d.image := (if d.image in counts then counts[d.image] else 0) + d.count];
      }
    }
    assert ds[..|aggregates|] == ds;
  }

  // ---------------------------------------------------------------------------
  // Requested extra capacity

  function CeilDiv(n: int, d: int): int {
    if n <= 0 then 0
    else var divisor := if d <= 0 then DEFAULT_MISSES_PER_WORKER else d; (n + divisor - 1) / divisor
  }

  lemma DivFacts(a: int, d: int)
    requires d > 0
    ensures a / d * d <= a < a / d * d + d
  {
    assert a == a / d * d + a % d;
  }

  lemma {:induction false} MulMonotone(a: nat, b: nat, d: nat)
    requires a <= b
    ensures a * d <= b * d
    decreases b - a
  {
    if a < b {
      MulMonotone(a, b - 1, d);
      assert b * d == (b - 1) * d + d;
    }
  }

  /** The least number of workers whose share of misses covers `n`. */
  lemma CeilDivIsLeast(n: int, d: int, k: nat)
    requires d > 0
    ensures CeilDiv(n, d) * d >= n
    ensures k * d >= n ==> CeilDiv(n, d) <= k
  {
    if n > 0 {
      DivFacts(n + d - 1, d);
      var q := (n + d - 1) / d;
      assert q >= 0;
      if k < q {
        MulMonotone(k, q - 1, d);
        assert (q - 1) * d == q * d - d;
      }
    }
  }

  lemma NoMissesNoWorkers(n: int, d: int)
    ensures n <= 0 ==> CeilDiv(n, d) == 0
    ensures d <= 0 ==> CeilDiv(n, d) == CeilDiv(n, 8)
  {
  }

  function Normalize(cfg: Config): Config {
    cfg.(missesPerWorker := if cfg.missesPerWorker <= 0 then DEFAULT_MISSES_PER_WORKER else cfg.missesPerWorker,
         imageCeiling := if cfg.imageCeiling < 0 then 0 else cfg.imageCeiling,
         totalCeiling := if cfg.totalCeiling < 0 then 0 else cfg.totalCeiling,
         maxWorkers := if cfg.maxWorkers < 0 then 0 else cfg.maxWorkers)
  }

  function Extra(count: int, cfg: Config): int {
    var extra := CeilDiv(count, cfg.missesPerWorker);
    if cfg.imageCeiling > 0 && extra > cfg.imageCeiling then cfg.imageCeiling else extra
  }

  function Requested(missCounts: map<string, int>, cfg: Config): map<string, int> {
    map image | image in missCounts && Extra(missCounts[image], cfg) > 0 :: Extra(missCounts[image], cfg)
  }

  // ---------------------------------------------------------------------------
  // The greedy cap, by rank

  /** The order of `sort.Slice`: most misses, then largest request, then name. */
  predicate RanksBefore(requested: map<string, int>, missCounts: map<string, int>, left: string, right: string) {
    var ml, mr, rl, rr := At(missCounts)(left), At(missCounts)(right), At(requested)(left), At(requested)(right);
    if ml != mr then ml > mr else if rl != rr then rl > rr else Less(left, right)
  }

  lemma RankIsStrictTotal(requested: map<string, int>, missCounts: map<string, int>)
    ensures forall a :: !RanksBefore(requested, missCounts, a, a)
    ensures forall a, b, c :: RanksBefore(requested, missCounts, a, b) && RanksBefore(requested, missCounts, b, c) ==>
              RanksBefore(requested, missCounts, a, c)
    ensures forall a, b ::
              RanksBefore(requested, missCounts, a, b) || RanksBefore(requested, missCounts, b, a) || a == b
  {
    forall a ensures !RanksBefore(requested, missCounts, a, a) {
      LessIrreflexive(a);
    }
    forall a, b, c | RanksBefore(requested, missCounts, a, b) && RanksBefore(requested, missCounts, b, c)
      ensures RanksBefore(requested, missCounts, a, c)
    {
      if Less(a, b) && Less(b, c) {
        LessTransitive(a, b, c);
      }
    }
    forall a, b ensures RanksBefore(requested, missCounts, a, b) || RanksBefore(requested, missCounts, b, a) || a == b {
      LessTotal(a, b);
    }
  }

  function Eligible(requested: map<string, int>): set<string> {
    set image | image in requested && image != "" && requested[image] > 0
  }

  function Ahead(requested: map<string, int>, missCounts: map<string, int>, image: string): set<string> {
    set j | j in Eligible(requested) && RanksBefore(requested, missCounts, j, image)
  }

  /** What is left for an image once everything ranked before it has been served in full. */
  ghost function Share(requested: map<string, int>, missCounts: map<string, int>, cap: int, image: string): int {
    if image !in Eligible(requested) then 0
    else
      var left := cap - SumOver(Ahead(requested, missCounts, image), At(requested));
      if left <= 0 then 0 else if requested[image] <= left then requested[image] else left
  }

  /** The allocation, with no mention of any iteration order. */
  ghost function Allocation(requested: map<string, int>, missCounts: map<string, int>, cap: int): map<string, int> {
    map image | image in Eligible(requested) && Share(requested, missCounts, cap, image) > 0 ::
      Share(requested, missCounts, cap, image)
  }

  lemma AheadFits(requested: map<string, int>, missCounts: map<string, int>, a: string, b: string)
    requires a in Eligible(requested) && b in Eligible(requested) && RanksBefore(requested, missCounts, a, b)
    ensures SumOver(Ahead(requested, missCounts, a), At(requested)) + requested[a]
         <= SumOver(Ahead(requested, missCounts, b), At(requested))
  {
    RankIsStrictTotal(requested, missCounts);
    var ahead := Ahead(requested, missCounts, a);
    assert a !in ahead && ahead + {a} <= Ahead(requested, missCounts, b);
    SumPick(ahead + {a}, At(requested), a);
    assert ahead + {a} - {a} == ahead;
    SumSubset(ahead + {a}, Ahead(requested, missCounts, b), At(requested));
  }

  /**
   The cap serves a prefix of the ranking: whoever gets anything has everyone before it served in
   full, and whoever is served short has nobody after it served at all.
   */
  lemma ServesAPrefix(requested: map<string, int>, missCounts: map<string, int>, cap: int, a: string, b: string)
    requires a in Eligible(requested) && b in Eligible(requested) && RanksBefore(requested, missCounts, a, b)
    ensures Share(requested, missCounts, cap, b) > 0 ==> Share(requested, missCounts, cap, a) == requested[a]
    ensures Share(requested, missCounts, cap, a) < requested[a] ==> Share(requested, missCounts, cap, b) == 0
  {
    AheadFits(requested, missCounts, a, b);
    SumNonNegative(Ahead(requested, missCounts, a), At(requested));
  }

  function Count(m: map<string, int>, image: string): int {
    if image in m then m[image] else 0
  }

  /** The one served first: more misses, or as many and a larger request, or both equal and the smaller name. */
  predicate GoesFirst(requested: map<string, int>, missCounts: map<string, int>, a: string, b: string)
    requires a in requested && b in requested
  {
    || Count(missCounts, a) > Count(missCounts, b)
    || (Count(missCounts, a) == Count(missCounts, b) && requested[a] > requested[b])
    || (Count(missCounts, a) == Count(missCounts, b) && requested[a] == requested[b] && Less(a, b))
  }

  /** Whoever gets anything has everyone who goes first served in full. */
  lemma MostMissedFirst(requested: map<string, int>, missCounts: map<string, int>, cap: int, a: string, b: string)
    requires a in requested && a != "" && requested[a] > 0 && b in requested && GoesFirst(requested, missCounts, a, b)
    ensures var out := Allocation(requested, missCounts, cap);
            && (b in out ==> a in out && out[a] == requested[a])
            && (a !in out || out[a] < requested[a] ==> b !in out)
  {
    if b in Eligible(requested) {
      ServesAPrefix(requested, missCounts, cap, a, b);
    }
  }

  /** At most one image is served in part. */
  lemma OnePartialAtMost(requested: map<string, int>, missCounts: map<string, int>, cap: int, a: string, b: string)
    requires 0 < Share(requested, missCounts, cap, a) < At(requested)(a)
    requires 0 < Share(requested, missCounts, cap, b) < At(requested)(b)
    ensures a == b
  {
    RankIsStrictTotal(requested, missCounts);
    if RanksBefore(requested, missCounts, a, b) {
      ServesAPrefix(requested, missCounts, cap, a, b);
    } else if RanksBefore(requested, missCounts, b, a) {
      ServesAPrefix(requested, missCounts, cap, b, a);
    }
  }

  /** A larger cap never takes anything from any image. */
  lemma MonotoneInCap(requested: map<string, int>, missCounts: map<string, int>, cap: int, cap': int, image: string)
    requires cap <= cap'
    ensures Share(requested, missCounts, cap, image) <= Share(requested, missCounts, cap', image)
    ensures 0 <= Share(requested, missCounts, cap, image)
    ensures image in Eligible(requested) ==> Share(requested, missCounts, cap, image) <= requested[image]
  {
  }

  // ---------------------------------------------------------------------------
  // The loop that computes it

  ghost predicate Ranked(requested: map<string, int>, missCounts: map<string, int>, images: seq<string>) {
    forall i, j | 0 <= i < j < |images| :: RanksBefore(requested, missCounts, images[i], images[j])
  }

  /** Insertion sort in place of `sort.Slice`; the ranking is strict, so any sort gives this sequence. */
  method SortByRank(requested: map<string, int>, missCounts: map<string, int>, images: seq<string>)
    returns (sorted: seq<string>)
    requires Distinct(images)
    ensures Ranked(requested, missCounts, sorted)
    ensures Elements(sorted) == Elements(images)
  {
    RankIsStrictTotal(requested, missCounts);
    sorted := [];
    for k := 0 to |images|
      invariant Ranked(requested, missCounts, sorted)
      invariant Elements(sorted) == Elements(images[..k])
    {
      var x := images[k];
      assert x !in images[..k];
      assert x !in Elements(sorted);
      var p := 0;
      while p < |sorted| && RanksBefore(requested, missCounts, sorted[p], x)
        invariant 0 <= p <= |sorted|
        invariant forall i | 0 <= i < p :: RanksBefore(requested, missCounts, sorted[i], x)
      {
        p := p + 1;
      }
      InsertRanked(requested, missCounts, sorted, p, x);
      assert images[..k + 1] == images[..k] + [x];
      sorted := sorted[..p] + [x] + sorted[p..];
    }
    assert images[..|images|] == images;
  }

  lemma InsertElements(sorted: seq<string>, p: nat, x: string)
    requires p <= |sorted|
    ensures Elements(sorted[..p] + [x] + sorted[p..]) == Elements(sorted) + {x}
  {
    assert sorted == sorted[..p] + sorted[p..];
  }

  lemma BeforeTheRest(requested: map<string, int>, missCounts: map<string, int>, sorted: seq<string>, p: nat, x: string)
    requires Ranked(requested, missCounts, sorted) && p < |sorted| && x !in sorted
    requires !RanksBefore(requested, missCounts, sorted[p], x)
    ensures forall i | p <= i < |sorted| :: RanksBefore(requested, missCounts, x, sorted[i])
  {
    RankIsStrictTotal(requested, missCounts);
    assert RanksBefore(requested, missCounts, x, sorted[p]);
  }

  lemma InsertRanked(requested: map<string, int>, missCounts: map<string, int>, sorted: seq<string>, p: nat, x: string)
    requires Ranked(requested, missCounts, sorted) && p <= |sorted| && x !in sorted
    requires forall i | 0 <= i < p :: RanksBefore(requested, missCounts, sorted[i], x)
    requires p < |sorted| ==> !RanksBefore(requested, missCounts, sorted[p], x)
    ensures Ranked(requested, missCounts, sorted[..p] + [x] + sorted[p..])
    ensures Elements(sorted[..p] + [x] + sorted[p..]) == Elements(sorted) + {x}
  {
    InsertElements(sorted, p, x);
    if p < |sorted| {
      BeforeTheRest(requested, missCounts, sorted, p, x);
    }
    var all := sorted[..p] + [x] + sorted[p..];
    forall i, j | 0 <= i < j < |all| ensures RanksBefore(requested, missCounts, all[i], all[j]) {
      assert all[i] == if i < p then sorted[i] else if i == p then x else sorted[i - 1];
      assert all[j] == if j < p then sorted[j] else if j == p then x else sorted[j - 1];
    }
  }

  lemma AheadInRanked(requested: map<string, int>, missCounts: map<string, int>, images: seq<string>, k: nat)
    requires Ranked(requested, missCounts, images) && Elements(images) == Eligible(requested) && k < |images|
    ensures Ahead(requested, missCounts, images[k]) == Elements(images[..k])
    ensures images[k] !in images[..k]
  {
    RankIsStrictTotal(requested, missCounts);
    forall j ensures j in Ahead(requested, missCounts, images[k]) <==> j in images[..k] {
      if j in images[..k] {
        var i :| 0 <= i < k && images[i] == j;
        assert j in images;
      }
      if j in Ahead(requested, missCounts, images[k]) {
        assert j in images;
        var i :| 0 <= i < |images| && images[i] == j;
        assert i < k;
      }
    }
  }

  ghost predicate AllocatedUpTo(requested: map<string, int>, missCounts: map<string, int>, cap: int,
                                served: set<string>, out: map<string, int>) {
    && (forall i | i in out :: i in served && out[i] == Share(requested, missCounts, cap, i) > 0)
    && (forall i | i in served && Share(requested, missCounts, cap, i) > 0 :: i in out)
  }

  lemma AllocatedAll(requested: map<string, int>, missCounts: map<string, int>, cap: int, out: map<string, int>)
    requires AllocatedUpTo(requested, missCounts, cap, Eligible(requested), out)
    ensures out == Allocation(requested, missCounts, cap)
  {
  }

  function Min(a: int, b: int): int {
    if a <= b then a else b
  }

  function Max0(n: int): int {
    if n < 0 then 0 else n
  }

  /** Both passes of `capDynamicWarmCapacityExtras`, whatever order the maps are walked in. */
  method CapExtras(requested: map<string, int>, missCounts: map<string, int>, cap: int) returns (out: map<string, int>)
    ensures out == Allocation(requested, missCounts, cap)
  {
    if cap <= 0 {
      NothingBelowZero(requested, missCounts, cap);
      return map[];
    }
    var images, total := CollectEligible(requested);
    if total <= cap {
      out := TakeAll(requested, missCounts, cap, images, total);
    } else {
      images := SortByRank(requested, missCounts, images);
      out := TakeInOrder(requested, missCounts, cap, images);
    }
  }

  /** Where the serving loop stands after `k` images. */
  ghost predicate Serving(requested: map<string, int>, missCounts: map<string, int>, cap: int, images: seq<string>,
                          k: nat, remaining: int, out: map<string, int>) {
    && k <= |images|
    && Ranked(requested, missCounts, images) && Elements(images) == Eligible(requested)
    && remaining == Max0(cap - SumOver(Elements(images[..k]), At(requested)))
    && AllocatedUpTo(requested, missCounts, cap, Elements(images[..k]), out)
  }

  lemma SumOfNext(requested: map<string, int>, images: seq<string>, k: nat)
    requires k < |images| && images[k] in requested && images[k] !in images[..k]
    ensures Elements(images[..k + 1]) == Elements(images[..k]) + {images[k]}
    ensures SumOver(Elements(images[..k + 1]), At(requested))
         == SumOver(Elements(images[..k]), At(requested)) + requested[images[k]]
  {
    var image, before := images[k], Elements(images[..k]);
    assert images[..k + 1] == images[..k] + [image];
    SumPick(before + {image}, At(requested), image);
    assert before + {image} - {image} == before;
  }

  lemma ShareOfNext(requested: map<string, int>, missCounts: map<string, int>, cap: int, images: seq<string>, k: nat)
    requires Ranked(requested, missCounts, images) && Elements(images) == Eligible(requested) && k < |images|
    ensures images[k] in Eligible(requested) && images[k] !in images[..k]
    ensures var sum := SumOver(Elements(images[..k]), At(requested));
            sum < cap ==> Share(requested, missCounts, cap, images[k]) == Min(requested[images[k]], cap - sum)
  {
    RankIsStrictTotal(requested, missCounts);
    AheadInRanked(requested, missCounts, images, k);
    assert images[k] in images;
  }

  lemma AllocateOne(requested: map<string, int>, missCounts: map<string, int>, cap: int, served: set<string>,
                    out: map<string, int>, image: string, extra: int)
    requires AllocatedUpTo(requested, missCounts, cap, served, out)
    requires extra == Share(requested, missCounts, cap, image) > 0
    ensures AllocatedUpTo(requested, missCounts, cap, served + {image}, out[image := extra])
  {
  }

  lemma ServeNext(requested: map<string, int>, missCounts: map<string, int>, cap: int, images: seq<string>,
                  k: nat, remaining: int, out: map<string, int>)
    requires Serving(requested, missCounts, cap, images, k, remaining, out) && k < |images| && remaining > 0
    ensures images[k] in requested
    ensures Serving(requested, missCounts, cap, images, k + 1, remaining - Min(remaining, requested[images[k]]),
                    out[images[k] := Min(remaining, requested[images[k]])])
  {
    ShareOfNext(requested, missCounts, cap, images, k);
    SumOfNext(requested, images, k);
    var extra := Min(remaining, requested[images[k]]);
    assert extra == Share(requested, missCounts, cap, images[k]);
    AllocateOne(requested, missCounts, cap, Elements(images[..k]), out, images[k], extra);
  }

  lemma ServeNone(requested: map<string, int>, missCounts: map<string, int>, cap: int, images: seq<string>)
    requires cap > 0 && Ranked(requested, missCounts, images) && Elements(images) == Eligible(requested)
    ensures Serving(requested, missCounts, cap, images, 0, cap, map[])
  {
    assert Elements(images[..0]) == {};
  }

  lemma ServedAll(requested: map<string, int>, missCounts: map<string, int>, cap: int, images: seq<string>,
                  k: nat, remaining: int, out: map<string, int>)
    requires Serving(requested, missCounts, cap, images, k, remaining, out) && (k == |images| || remaining <= 0)
    ensures out == Allocation(requested, missCounts, cap)
  {
    RestGetNothing(requested, missCounts, cap, images, k);
    AllocatedAll(requested, missCounts, cap, out);
  }

  /** The serving loop from image `k` on. */
  function ServeFrom(requested: map<string, int>, images: seq<string>, k: nat, remaining: int, out: map<string, int>)
    : map<string, int>
    decreases |images| - k
  {
    if k < |images| && remaining > 0 then
      var extra := Min(remaining, At(requested)(images[k]));
      ServeFrom(requested, images, k + 1, remaining - extra, out[images[k] := extra])
    else out
  }

  lemma {:induction false} ServeFromAllocates(requested: map<string, int>, missCounts: map<string, int>, cap: int,
                                              images: seq<string>, k: nat, remaining: int, out: map<string, int>)
    requires Serving(requested, missCounts, cap, images, k, remaining, out)
    ensures ServeFrom(requested, images, k, remaining, out) == Allocation(requested, missCounts, cap)
    decreases |images| - k
  {
    if k < |images| && remaining > 0 {
      ServeNext(requested, missCounts, cap, images, k, remaining, out);
      var extra := Min(remaining, requested[images[k]]);
      ServeFromAllocates(requested, missCounts, cap, images, k + 1, remaining - extra, out[images[k] := extra]);
    } else {
      ServedAll(requested, missCounts, cap, images, k, remaining, out);
    }
  }

  lemma ServeAllocates(requested: map<string, int>, missCounts: map<string, int>, cap: int, images: seq<string>)
    requires cap > 0 && Ranked(requested, missCounts, images) && Elements(images) == Eligible(requested)
    ensures ServeFrom(requested, images, 0, cap, map[]) == Allocation(requested, missCounts, cap)
  {
    ServeNone(requested, missCounts, cap, images);
    ServeFromAllocates(requested, missCounts, cap, images, 0, cap, map[]);
  }

  lemma ListedIsRequested(requested: map<string, int>, images: seq<string>)
    requires Elements(images) <= Eligible(requested)
    ensures forall k | 0 <= k < |images| :: images[k] in requested
  {
    forall k | 0 <= k < |images| ensures images[k] in requested {
      assert images[k] in Elements(images);
    }
  }

  method TakeInOrder(requested: map<string, int>, missCounts: map<string, int>, cap: int, images: seq<string>)
    returns (out: map<string, int>)
    requires cap > 0 && Ranked(requested, missCounts, images) && Elements(images) == Eligible(requested)
    ensures out == Allocation(requested, missCounts, cap)
  {
    ServeAllocates(requested, missCounts, cap, images);
    ListedIsRequested(requested, images);
    out := ServeList(requested, cap, images);
  }

  method ServeList(requested: map<string, int>, cap: int, images: seq<string>) returns (out: map<string, int>)
    requires forall k | 0 <= k < |images| :: images[k] in requested
    ensures out == ServeFrom(requested, images, 0, cap, map[])
  {
    out := map[];
    var remaining, k := cap, 0;
    while k < |images| && remaining > 0
      invariant k <= |images|
      invariant ServeFrom(requested, images, k, remaining, out) == ServeFrom(requested, images, 0, cap, map[])
    {
      var image := images[k];
      var extra := requested[image];
      if extra > remaining {
        extra := remaining;
      }
      out := out[image := extra];
      remaining := remaining - extra;
      k := k + 1;
    }
  }

  lemma NothingBelowZero(requested: map<string, int>, missCounts: map<string, int>, cap: int)
    requires cap <= 0
    ensures Allocation(requested, missCounts, cap) == map[]
  {
    forall i ensures Share(requested, missCounts, cap, i) == 0 {
      SumNonNegative(Ahead(requested, missCounts, i), At(requested));
    }
  }

  lemma RestGetNothing(requested: map<string, int>, missCounts: map<string, int>, cap: int, images: seq<string>, k: nat)
    requires Ranked(requested, missCounts, images) && Elements(images) == Eligible(requested) && k <= |images|
    requires k == |images| || cap <= SumOver(Elements(images[..k]), At(requested))
    ensures forall i | i in Eligible(requested) && i !in images[..k] :: Share(requested, missCounts, cap, i) == 0
    ensures Elements(images[..k]) <= Eligible(requested)
  {
    forall i | i in Eligible(requested) && i !in images[..k] ensures Share(requested, missCounts, cap, i) == 0 {
      assert i in images;
      var j :| 0 <= j < |images| && images[j] == i;
      AheadInRanked(requested, missCounts, images, j);
      assert k <= j && images[..k] == images[..j][..k];
      assert forall x | x in images[..k] :: x in images[..j];
      assert forall x | x in images[..j] :: x in images;
      SumSubset(Elements(images[..k]), Elements(images[..j]), At(requested));
    }
    assert forall x | x in images[..k] :: x in images;
  }

  lemma CollectOne(requested: map<string, int>, images: seq<string>, image: string)
    requires Distinct(images) && image !in images
    ensures Distinct(images + [image])
    ensures Elements(images + [image]) == Elements(images) + {image}
    ensures SumOver(Elements(images + [image]), At(requested))
         == SumOver(Elements(images), At(requested)) + At(requested)(image)
  {
    var grown := Elements(images) + {image};
    assert Elements(images + [image]) == grown;
    SumPick(grown, At(requested), image);
    assert grown - {image} == Elements(images);
  }

  method CollectEligible(requested: map<string, int>) returns (images: seq<string>, total: int)
    ensures Distinct(images) && Elements(images) == Eligible(requested)
    ensures total == SumOver(Eligible(requested), At(requested))
  {
    images, total := [], 0;
    var keys := requested.Keys;
    while keys != {}
      invariant keys <= requested.Keys
      invariant Distinct(images)
      invariant forall i :: i in images <==> i in Eligible(requested) && i !in keys
      invariant total == SumOver(Elements(images), At(requested))
      decreases keys
    {
      var image :| image in keys;
      keys := keys - {image};
      if image != "" && requested[image] > 0 {
        CollectOne(requested, images, image);
        images := images + [image];
        total := total + requested[image];
      }
    }
    assert Elements(images) == Eligible(requested);
  }

  method TakeAll(requested: map<string, int>, missCounts: map<string, int>, cap: int, images: seq<string>, total: int)
    returns (out: map<string, int>)
    requires Elements(images) == Eligible(requested)
    requires SumOver(Eligible(requested), At(requested)) == total <= cap
    ensures out == Allocation(requested, missCounts, cap)
  {
    out := map[];
    for k := 0 to |images|
      invariant AllocatedUpTo(requested, missCounts, cap, Elements(images[..k]), out)
    {
      assert images[..k + 1] == images[..k] + [images[k]];
      assert images[k] in images;
      FitsUnderCap(requested, missCounts, cap, images[k]);
      out := out[images[k] := requested[images[k]]];
    }
    assert images[..|images|] == images;
    AllocatedAll(requested, missCounts, cap, out);
  }

  lemma FitsUnderCap(requested: map<string, int>, missCounts: map<string, int>, cap: int, image: string)
    requires image in Eligible(requested) && SumOver(Eligible(requested), At(requested)) <= cap
    ensures Share(requested, missCounts, cap, image) == requested[image]
  {
    RankIsStrictTotal(requested, missCounts);
    var ahead := Ahead(requested, missCounts, image);
    SumPick(ahead + {image}, At(requested), image);
    assert ahead + {image} - {image} == ahead;
    SumSubset(ahead + {image}, Eligible(requested), At(requested));
  }
}
