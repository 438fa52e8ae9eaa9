/** The recommender's cache budget (pkg/profiles/recommender.go). Byte counts are unbounded
    integers and factors are reals: int64 overflow and float rounding are not modelled. */
module CacheBudget {
  import opened GoStrings

  const BYTES_PER_OBJECT_HNS := 1500
  const BYTES_PER_OBJECT_FLAT := 1700
  const MIB := 1024 * 1024
  const MIN_STAT_CACHE_MIB := 34

  // ----- Go's integer division and the MiB conversions -----

  /** Truncation toward zero. */
  function Quot(a: int, b: int): int
    requires b > 0
  {
    if a >= 0 then a / b else -((-a) / b)
  }

  function CeilDiv(a: int, b: int): int
    requires b > 0
  {
    Quot(a + b - 1, b)
  }

  /** The least count of units that covers a nonnegative amount. */
  lemma CeilDivLeast(a: int, b: int, n: int)
    requires a >= 0 && b > 0
    ensures 0 <= CeilDiv(a, b) && a <= CeilDiv(a, b) * b < a + b
    ensures n * b >= a ==> CeilDiv(a, b) <= n
  {
    var c := CeilDiv(a, b);
    assert (a + b - 1) == c * b + (a + b - 1) % b;
    assert n < c ==> n * b <= (c - 1) * b;
  }

  function BytesToMiB(a: int): int {
    if a == -1 then -1 else CeilDiv(a, MIB)
  }

  function MiBToBytes(a: int): int {
    if a == -1 then -1 else a * MIB
  }

  /** Sizes survive the conversion except below -1, where they come back one too large. */
  lemma MiBRoundTrip(a: int)
    ensures BytesToMiB(MiBToBytes(a)) == if a < -1 then a + 1 else a
  {
    if a < -1 {
      assert -(a * MIB + MIB - 1) == (-a - 1) * MIB + 1;
    } else if a >= 0 {
      CeilDivLeast(a * MIB, MIB, a);
    }
  }

  // ----- Requirements and budgets -----

  datatype NodeType = Tpu | Gpu | GeneralPurpose

  datatype Medium = Ram | Lssd | Other(name: string)

  datatype Profile = Profile(
    numObjects: nat, totalSizeBytes: nat, zonal: bool, hnsEnabled: bool,
    nodeType: NodeType, localSSD: bool, customCache: bool,
    nodeMemory: nat, nodeStorage: nat, memoryLimit: nat, storageLimit: nat,
    memoryFactor: real, storageFactor: real,
    priority: map<NodeType, seq<Medium>>)

  /** What the node leaves to the container; a limit of zero is no limit. */
  function Available(allocatable: nat, limit: nat): (r: nat)
    ensures r <= allocatable && (limit > 0 ==> r <= limit)
    ensures r == allocatable || (0 < limit == r)
  {
    if limit > 0 && limit < allocatable then limit else allocatable
  }

  function Budget(allocatable: nat, factor: real, limit: nat): int {
    (Available(allocatable, limit) as real * factor).Floor
  }

  lemma FactorBound(x: real, factor: real)
    requires 0.0 <= factor && x >= 0.0
    ensures 0.0 <= x * factor && (factor <= 1.0 ==> x * factor <= x)
  {
    assert factor <= 1.0 ==> x * (1.0 - factor) >= 0.0;
  }

  /** The budget is the largest whole number within the factored resource; with a factor of at most
      1 it is within the resource. */
  lemma BudgetBound(allocatable: nat, factor: real, limit: nat)
    requires 0.0 <= factor
    ensures 0 <= Budget(allocatable, factor, limit) && (factor <= 1.0 ==> Budget(allocatable, factor, limit) <= Available(allocatable, limit))
    ensures var b := Budget(allocatable, factor, limit) as real;
            b <= Available(allocatable, limit) as real * factor < b + 1.0
  {
    FactorBound(Available(allocatable, limit) as real, factor);
  }

  function StatRequired(p: Profile): nat {
    var n := p.numObjects * (if p.hnsEnabled then BYTES_PER_OBJECT_HNS else BYTES_PER_OBJECT_FLAT);
    if n < MIN_STAT_CACHE_MIB * MIB then MIN_STAT_CACHE_MIB * MIB else n
  }

  function FileRequired(p: Profile): nat {
    if p.zonal then 0 else p.totalSizeBytes
  }

  /** The requirements, written out: bytes per object, with a floor of 34 MiB; the whole bucket,
      unless it is zonal. */
  lemma Requirements(p: Profile)
    ensures StatRequired(p) >= 34 * 1024 * 1024 && StatRequired(p) >= p.numObjects * (if p.hnsEnabled then 1500 else 1700)
    ensures StatRequired(p) == 34 * 1024 * 1024 || StatRequired(p) == p.numObjects * (if p.hnsEnabled then 1500 else 1700)
    ensures FileRequired(p) == if p.zonal then 0 else p.totalSizeBytes
  {
  }

  function Min(a: int, b: int): int {
    if a < b then a else b
  }

  function Max(a: int, b: int): int {
    if a > b then a else b
  }

  datatype Recommendation = Recommendation(statBytes: int, fileBytes: int, medium: Option<Medium>)

  /** The stat cache size and the memory left over. */
  function RecommendStat(required: nat, memory: int, override: Option<int>): (r: (int, int))
    ensures r.1 >= 0
    ensures override.Some? ==> r.0 == override.value
    ensures override.Some? ==>
              var charged := if override.value == -1 then required else override.value;
              if memory <= charged then r.1 == 0 else r.1 + charged == memory
    ensures override.None? && memory >= 0 ==> 0 <= r.0 <= required && r.0 + r.1 == memory && (r.0 < required ==> r.1 == 0)
  {
    if override.Some? then
      (override.value, Max(0, memory - if override.value == -1 then required else override.value))
    else
      var n := Min(required, memory);
      (n, Max(0, memory - n))
  }

  // ----- The file cache medium -----

  /** The medium that entry `m` of the priority list stands for on this node, if it fits. */
  function Fits(p: Profile, m: Medium, required: int, memory: int, storage: int): Option<Medium> {
    match m
    case Ram => if required <= memory then Some(Ram) else None
    case Lssd =>
      if p.nodeType == Tpu then if required <= memory then Some(Ram) else None
      else if p.localSSD && required <= storage then Some(Lssd) else None
    case Other(_) => None
  }

  /** Which medium is used, and when: RAM also stands in for the local SSD that a TPU node lacks. */
  lemma FitsWhere(p: Profile, m: Medium, required: int, memory: int, storage: int)
    ensures Fits(p, m, required, memory, storage) == Some(Ram) <==> (m == Ram || (m == Lssd && p.nodeType == Tpu)) && required <= memory
    ensures Fits(p, m, required, memory, storage) == Some(Lssd) <==> m == Lssd && p.nodeType != Tpu && p.localSSD && required <= storage
    ensures Fits(p, m, required, memory, storage).Some? ==> !Fits(p, m, required, memory, storage).value.Other?
  {
  }

  /** Entry `k` is the first of the list that ends the search: it fits or is unknown. */
  ghost predicate FirstStop(p: Profile, list: seq<Medium>, required: int, memory: int, storage: int, k: int) {
    && 0 <= k < |list| && (list[k].Other? || Fits(p, list[k], required, memory, storage).Some?)
    && forall j :: 0 <= j < k ==> !list[j].Other? && Fits(p, list[j], required, memory, storage).None?
  }

  ghost predicate NoStop(p: Profile, list: seq<Medium>, required: int, memory: int, storage: int) {
    forall j :: 0 <= j < |list| ==> !list[j].Other? && Fits(p, list[j], required, memory, storage).None?
  }

  /** The search's answer: error, disabled cache, or the whole requirement on the first medium that fits. */
  ghost predicate FileChoice(p: Profile, required: int, override: Option<int>, memory: int, storage: int, r: Option<(int, Option<Medium>)>) {
    if override.Some? then r == Some((override.value, None))
    else if p.customCache then r == Some((-1, None))
    else if p.nodeType !in p.priority then r.None?
    else if required == 0 then r == Some((0, None))
    else
      var list := p.priority[p.nodeType];
      || (NoStop(p, list, required, memory, storage) && r == Some((0, None)))
      || (exists k :: FirstStop(p, list, required, memory, storage, k)
                      && r == if list[k].Other? then None else Some((required, Fits(p, list[k], required, memory, storage))))
  }

  method RecommendFile(p: Profile, required: int, override: Option<int>, memory: int, storage: int)
    returns (r: Option<(int, Option<Medium>)>)
    ensures FileChoice(p, required, override, memory, storage, r)
  {
    if override.Some? {
      return Some((override.value, None));
    }
    if p.customCache {
      return Some((-1, None));
    }
    if p.nodeType !in p.priority {
      return None;
    }
    if required == 0 {
      return Some((0, None));
    }
    var list := p.priority[p.nodeType];
    for i := 0 to |list|
      invariant forall j :: 0 <= j < i ==> !list[j].Other? && Fits(p, list[j], required, memory, storage).None?
    {
      match list[i] {
        case Ram =>
          if required <= memory {
            assert FirstStop(p, list, required, memory, storage, i);
            return Some((required, Some(Ram)));
          }
        case Lssd =>
          if p.nodeType == Tpu {
            if required <= memory {
              assert FirstStop(p, list, required, memory, storage, i);
              return Some((required, Some(Ram)));
            }
          } else if p.localSSD {
            if required <= storage {
              assert FirstStop(p, list, required, memory, storage, i);
              return Some((required, Some(Lssd)));
            }
          }
        case Other(_) =>
          assert FirstStop(p, list, required, memory, storage, i);
          return None;
      }
    }
    return Some((0, None));
  }

  function MemoryBudget(p: Profile): int {
    Budget(p.nodeMemory, p.memoryFactor, p.memoryLimit)
  }

  function StorageBudget(p: Profile): int {
    Budget(p.nodeStorage, p.storageFactor, p.storageLimit)
  }

  /** The stat cache is sized first; the file cache gets the memory that is left. */
  ghost predicate Recommends(p: Profile, statOverride: Option<int>, fileOverride: Option<int>, r: Option<Recommendation>) {
    var (statBytes, memory) := RecommendStat(StatRequired(p), MemoryBudget(p), statOverride);
    && FileChoice(p, FileRequired(p), fileOverride, memory, StorageBudget(p),
                  if r.Some? then Some((r.value.fileBytes, r.value.medium)) else None)
    && (r.Some? ==> r.value.statBytes == statBytes)
  }

  /** No list for the node type, or the search reaches an unknown medium before one that fits. */
  ghost predicate Unanswerable(p: Profile, statOverride: Option<int>, fileOverride: Option<int>) {
    var memory := RecommendStat(StatRequired(p), MemoryBudget(p), statOverride).1;
    && fileOverride.None? && !p.customCache
    && (|| p.nodeType !in p.priority
        || (FileRequired(p) != 0
            && exists k :: FirstStop(p, p.priority[p.nodeType], FileRequired(p), memory, StorageBudget(p), k)
                           && p.priority[p.nodeType][k].Other?))
  }

  lemma ChoiceFails(p: Profile, required: int, override: Option<int>, memory: int, storage: int, r: Option<(int, Option<Medium>)>)
    requires FileChoice(p, required, override, memory, storage, r)
    ensures r.None? <==>
            && override.None? && !p.customCache
            && (|| p.nodeType !in p.priority
                || (required != 0 && exists k :: FirstStop(p, p.priority[p.nodeType], required, memory, storage, k) && p.priority[p.nodeType][k].Other?))
    ensures r.Some? && r.value.1.Some? ==> r.value.1.value == Ram || r.value.1.value == Lssd
  {
  }

  /** A recommended medium is a known one, and there is a recommendation unless the search is
      unanswerable. */
  lemma KnownMedia(p: Profile, statOverride: Option<int>, fileOverride: Option<int>, r: Option<Recommendation>)
    requires Recommends(p, statOverride, fileOverride, r)
    ensures r.Some? && r.value.medium.Some? ==> r.value.medium.value == Ram || r.value.medium.value == Lssd
    ensures r.None? <==> Unanswerable(p, statOverride, fileOverride)
  {
    var memory := RecommendStat(StatRequired(p), MemoryBudget(p), statOverride).1;
    ChoiceFails(p, FileRequired(p), fileOverride, memory, StorageBudget(p),
                if r.Some? then Some((r.value.fileBytes, r.value.medium)) else None);
    hide StatRequired, MemoryBudget, StorageBudget, RecommendStat, FileChoice, FirstStop, FileRequired;
  }

  method RecommendCacheConfigs(p: Profile, statOverride: Option<int>, fileOverride: Option<int>) returns (r: Option<Recommendation>)
    ensures Recommends(p, statOverride, fileOverride, r)
    ensures r.None? <==> Unanswerable(p, statOverride, fileOverride)
    ensures r.Some? && statOverride.None? && fileOverride.None? && ParsedFactors(p) && !p.customCache ==> Affordable(p, r.value)
  {
    var (statBytes, memory) := RecommendStat(StatRequired(p), MemoryBudget(p), statOverride);
    var file := RecommendFile(p, FileRequired(p), fileOverride, memory, StorageBudget(p));
    if file.None? {
      KnownMedia(p, statOverride, fileOverride, None);
      return None;
    }
    r := Some(Recommendation(statBytes, file.value.0, file.value.1));
    KnownMedia(p, statOverride, fileOverride, r);
    if statOverride.None? && fileOverride.None? && ParsedFactors(p) && !p.customCache {
      WithinBudget(p, r.value);
    }
  }

  function FactoredMemory(p: Profile): real {
    Available(p.nodeMemory, p.memoryLimit) as real * p.memoryFactor
  }

  function FactoredStorage(p: Profile): real {
    Available(p.nodeStorage, p.storageLimit) as real * p.storageFactor
  }

  /** The caches stay within the factored resources. */
  predicate Affordable(p: Profile, r: Recommendation) {
    && 0 <= r.statBytes && r.statBytes as real <= FactoredMemory(p)
    && match r.medium
       case None => r.fileBytes == 0
       case Some(Ram) => r.fileBytes == FileRequired(p) && (r.statBytes + r.fileBytes) as real <= FactoredMemory(p)
       case Some(Lssd) => r.fileBytes == FileRequired(p) && p.nodeType != Tpu && p.localSSD && r.fileBytes as real <= FactoredStorage(p)
       case Some(Other(_)) => false
  }

  /** A storage class with a negative factor is rejected before. */
  predicate ParsedFactors(p: Profile) {
    0.0 <= p.memoryFactor && 0.0 <= p.storageFactor
  }

  /** Without overrides or a custom cache, every recommendation is affordable. */
  lemma WithinBudget(p: Profile, r: Recommendation)
    requires ParsedFactors(p) && !p.customCache && Recommends(p, None, None, Some(r))
    ensures Affordable(p, r)
  {
    BudgetsBound(p);
    hide MemoryBudget, StorageBudget, StatRequired, RecommendStat, FileChoice, FileRequired, FactoredMemory,
         FactoredStorage, ParsedFactors;
    var memory := RecommendStat(StatRequired(p), MemoryBudget(p), None).1;
    FileWithin(p, FileRequired(p), memory, StorageBudget(p), r.fileBytes, r.medium);
  }

  lemma BudgetsBound(p: Profile)
    requires ParsedFactors(p)
    ensures 0 <= MemoryBudget(p) && MemoryBudget(p) as real <= FactoredMemory(p) < MemoryBudget(p) as real + 1.0
    ensures 0 <= StorageBudget(p) && StorageBudget(p) as real <= FactoredStorage(p) < StorageBudget(p) as real + 1.0
  {
    BudgetBound(p.nodeMemory, p.memoryFactor, p.memoryLimit);
    BudgetBound(p.nodeStorage, p.storageFactor, p.storageLimit);
    hide Budget, Available;
  }

  /** Without override or custom cache the whole requirement is placed where it fits, or nothing. */
  lemma FileWithin(p: Profile, required: int, memory: int, storage: int, fileBytes: int, medium: Option<Medium>)
    requires !p.customCache && FileChoice(p, required, None, memory, storage, Some((fileBytes, medium)))
    ensures medium.None? ==> fileBytes == 0
    ensures medium.Some? ==> fileBytes == required
    ensures medium == Some(Ram) ==> required <= memory
    ensures medium == Some(Lssd) ==> required <= storage && p.nodeType != Tpu && p.localSSD
    ensures medium.Some? ==> !medium.value.Other?
  {
  }

  /** Rounding both sizes up to MiB adds less than 2 MiB. */
  lemma EmittedSizes(statBytes: nat, fileBytes: nat)
    ensures statBytes + fileBytes <= (BytesToMiB(statBytes) + BytesToMiB(fileBytes)) * MIB < statBytes + fileBytes + 2 * MIB
  {
    CeilDivLeast(statBytes, MIB, 0);
    CeilDivLeast(fileBytes, MIB, 0);
  }
}
