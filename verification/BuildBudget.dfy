/** Splitting a measured host across concurrent base builds. */
module BuildBudget {
  import opened Wrappers

  const MIB := 1024 * 1024
  const GIB := 1024 * MIB

  const MIN_CPUS := 8
  const MIN_MEM_TOTAL_BYTES := 14 * GIB
  const MIN_MEM_AVAILABLE_BYTES := 8 * GIB
  const HOST_MEM_HEADROOM_BYTES := 2 * GIB
  const MEM_PER_GHC_JOB_BYTES := 5 * GIB / 2

  datatype HostResources = HostResources(cpuCount: nat, memTotalBytes: nat, memAvailableBytes: nat)

  /** The budget's flag values, as strings, and the package fan-out. */
  datatype Budget = Budget(dockerCpus: string, dockerMemory: string, dockerMemorySwap: string, cabalJobs: nat)

  function Max(a: int, b: int): int { if a < b then b else a }
  function Min(a: int, b: int): int { if a < b then a else b }

  // --- Decimal strings -------------------------------------------------------------------------

  function Decimal(n: nat): (s: string)
    ensures s != "" && IsDecimal(s)
  {
    if n < 10 then ['0' + n as char] else Decimal(n / 10) + ['0' + (n % 10) as char]
  }

  predicate IsDecimal(s: string) {
    forall k :: 0 <= k < |s| ==> '0' <= s[k] <= '9'
  }

  function ParseDecimal(s: string): nat
    requires IsDecimal(s)
  {
    if s == "" then 0 else 10 * ParseDecimal(s[..|s| - 1]) + (s[|s| - 1] as int - '0' as int)
  }

  lemma {:induction false} DecimalRoundTrip(n: nat)
    ensures ParseDecimal(Decimal(n)) == n
  {
    if n < 10 {
      assert Decimal(n)[..0] == "";
    } else {
      DecimalRoundTrip(n / 10);
      assert Decimal(n)[..|Decimal(n)| - 1] == Decimal(n / 10);
    }
  }

  // --- The budget ------------------------------------------------------------------------------

  /** What a base build must leave to the host. */
  function Headroom(available: nat): nat {
    Max(available / 4, HOST_MEM_HEADROOM_BYTES)
  }

  /** What is left for all builds together; negative on a host below the headroom floor. */
  function Allowance(res: HostResources): int {
    res.memAvailableBytes - Headroom(res.memAvailableBytes)
  }

  function MemBudget(res: HostResources, concurrency: int): nat {
    Max(Max(Allowance(res), MEM_PER_GHC_JOB_BYTES) / Max(1, concurrency), MEM_PER_GHC_JOB_BYTES)
  }

  function CpuBudget(res: HostResources, concurrency: int): nat {
    Max(1, Max(1, res.cpuCount - 1) / Max(1, concurrency))
  }

  function CabalJobs(res: HostResources, concurrency: int): nat {
    Max(1, Min(CpuBudget(res, concurrency), MemBudget(res, concurrency) / MEM_PER_GHC_JOB_BYTES))
  }

  function ComputeBuildBudget(res: HostResources, concurrency: int): Budget {
    var memory := Decimal(MemBudget(res, concurrency) / MIB) + "m";
    Budget(Decimal(CpuBudget(res, concurrency)), memory, memory, CabalJobs(res, concurrency))
  }

  /** Docker's reading of a memory value: mebibytes, in bytes. */
  function MemoryBytes(value: string): nat
    requires value != "" && IsDecimal(value[..|value| - 1])
  {
    ParseDecimal(value[..|value| - 1]) * MIB
  }

  /** The memory cap a build runs under: the budget rounded down to whole mebibytes. */
  function CapBytes(res: HostResources, concurrency: int): nat {
    MemBudget(res, concurrency) / MIB * MIB
  }

  /** The rendered budget means the computed numbers. */
  lemma BudgetReadsBack(res: HostResources, concurrency: int)
    ensures var b := ComputeBuildBudget(res, concurrency);
      && b.dockerMemory != "" && IsDecimal(b.dockerMemory[..|b.dockerMemory| - 1])
      && b.dockerMemory[|b.dockerMemory| - 1] == 'm'
      && MemoryBytes(b.dockerMemory) == CapBytes(res, concurrency)
      && b.dockerMemorySwap == b.dockerMemory
      && IsDecimal(b.dockerCpus) && ParseDecimal(b.dockerCpus) == CpuBudget(res, concurrency)
  {
    var mib := MemBudget(res, concurrency) / MIB;
    DecimalRoundTrip(mib);
    DecimalRoundTrip(CpuBudget(res, concurrency));
    assert (Decimal(mib) + "m")[..|Decimal(mib)|] == Decimal(mib);
  }

  /** Which floors the host misses, in the order they are reported. */
  datatype Shortfall = Cpus | TotalMemory | AvailableMemory

  predicate Misses(res: HostResources, s: Shortfall) {
    match s
    case Cpus => res.cpuCount < MIN_CPUS
    case TotalMemory => res.memTotalBytes < MIN_MEM_TOTAL_BYTES
    case AvailableMemory => res.memAvailableBytes < MIN_MEM_AVAILABLE_BYTES
  }

  function Rank(s: Shortfall): nat {
    match s case Cpus => 0 case TotalMemory => 1 case AvailableMemory => 2
  }

  /** The shortfalls are exactly the missed floors, each once, in order. */
  method AssertBuildMinimums(res: HostResources) returns (shortfalls: seq<Shortfall>)
    ensures forall s :: s in shortfalls <==> Misses(res, s)
    ensures forall i, j :: 0 <= i < j < |shortfalls| ==> Rank(shortfalls[i]) < Rank(shortfalls[j])
    ensures Cpus in shortfalls <==> res.cpuCount < 8
    ensures TotalMemory in shortfalls <==> res.memTotalBytes < 15_032_385_536
    ensures AvailableMemory in shortfalls <==> res.memAvailableBytes < 8_589_934_592
  {
    shortfalls := [];
    if res.cpuCount < MIN_CPUS {
      shortfalls := shortfalls + [Cpus];
    }
    if res.memTotalBytes < MIN_MEM_TOTAL_BYTES {
      shortfalls := shortfalls + [TotalMemory];
    }
    if res.memAvailableBytes < MIN_MEM_AVAILABLE_BYTES {
      shortfalls := shortfalls + [AvailableMemory];
    }
  }

  predicate MeetsMinimums(res: HostResources) {
    forall s: Shortfall :: !Misses(res, s)
  }

  function Concurrency(targets: nat, sequential: bool): nat {
    if sequential || targets <= 1 then 1 else targets
  }

  /** `None` off Linux; refused below a floor; else the host split across the concurrent builds. */
  method ResolveBuildBudget(res: Option<HostResources>, targets: nat, sequential: bool)
    returns (r: Result<Option<Budget>, seq<Shortfall>>)
    ensures r.Err? <==> res.Some? && !MeetsMinimums(res.value)
    ensures r.Err? ==> forall s :: s in r.error <==> Misses(res.value, s)
    ensures r.Ok? ==> r.value == if res.None? then None
      else Some(ComputeBuildBudget(res.value, Concurrency(targets, sequential)))
  {
    if res.None? {
      return Ok(None);
    }
    var shortfalls := AssertBuildMinimums(res.value);
    if shortfalls != [] {
      assert shortfalls[0] in shortfalls;
      return Err(shortfalls);
    }
    return Ok(Some(ComputeBuildBudget(res.value, Concurrency(targets, sequential))));
  }

  // --- What the split guarantees ---------------------------------------------------------------

  lemma ProductBelow(c: nat, a: nat, b: nat)
    requires a <= b
    ensures c * a <= c * b
  {
  }

  lemma QuotientTimes(a: nat, c: nat)
    requires c > 0
    ensures c * (a / c) <= a
  {
  }

  lemma QuotientIsLargest(a: nat, c: nat, j: nat)
    requires c > 0 && c * j <= a
    ensures j <= a / c
  {
    if a / c + 1 <= j {
      ProductBelow(c, a / c + 1, j);
    }
  }

  /** A quarter of the available memory stays with the host, and two gibibytes at least. */
  lemma HeadroomIsAQuarter(available: nat)
    ensures available >= 8_589_934_592 ==> 4 * Headroom(available) <= available < 4 * (Headroom(available) + 1)
    ensures available < 8_589_934_592 ==> Headroom(available) == 2_147_483_648
  {
  }

  /** Each of `c` builds gets the most memory that leaves the others as much, if that is one job's
      memory or more; else it gets one job's, two and a half gibibytes. */
  lemma MemBudgetIsLargest(res: HostResources, c: nat)
    requires c >= 1
    ensures c * 2_684_354_560 <= Allowance(res) ==>
      c * MemBudget(res, c) <= Allowance(res) < c * (MemBudget(res, c) + 1)
    ensures c * 2_684_354_560 > Allowance(res) ==> MemBudget(res, c) == 2_684_354_560
  {
    var all := Max(Allowance(res), MEM_PER_GHC_JOB_BYTES);
    QuotientTimes(all, c);
    if c * 2_684_354_560 <= Allowance(res) {
      ProductBelow(MEM_PER_GHC_JOB_BYTES, 1, c);
      QuotientIsLargest(Allowance(res), c, MEM_PER_GHC_JOB_BYTES);
      NextQuotientIsTooLarge(Allowance(res), c);
    } else if all / c > MEM_PER_GHC_JOB_BYTES {
      ProductBelow(c, MEM_PER_GHC_JOB_BYTES, all / c);
      assert false;
    }
  }

  lemma NextQuotientIsTooLarge(a: nat, c: nat)
    requires c > 0
    ensures a < c * (a / c + 1)
  {
  }

  /** The same for the CPUs but one, at least one each. */
  lemma CpuBudgetIsLargest(res: HostResources, c: nat)
    requires c >= 1
    ensures c <= res.cpuCount - 1 ==>
      c * CpuBudget(res, c) <= res.cpuCount - 1 < c * (CpuBudget(res, c) + 1)
    ensures c > res.cpuCount - 1 ==> CpuBudget(res, c) == 1
  {
    if c <= res.cpuCount - 1 {
      QuotientTimes(res.cpuCount - 1, c);
      QuotientIsLargest(res.cpuCount - 1, c, 1);
      NextQuotientIsTooLarge(res.cpuCount - 1, c);
    } else {
      var cpus := Max(1, res.cpuCount - 1);
      if cpus / c > 1 {
        QuotientTimes(cpus, c);
        ProductBelow(c, 2, cpus / c);
        assert false;
      }
    }
  }

  /** The cap is the budget in whole mebibytes. */
  lemma CapIsWholeMebibytes(res: HostResources, c: nat)
    ensures CapBytes(res, c) % 1_048_576 == 0
    ensures CapBytes(res, c) <= MemBudget(res, c) < CapBytes(res, c) + 1_048_576
  {
  }

  /** Nine CPUs and sixteen gibibytes, shared by two builds. */
  lemma ABudget()
    ensures ComputeBuildBudget(HostResources(9, 17_179_869_184, 17_179_869_184), 2) == Budget("4", "6144m", "6144m", 2)
  {
    var res := HostResources(9, 17_179_869_184, 17_179_869_184);
    assert MemBudget(res, 2) == 6_442_450_944 && MemBudget(res, 2) / MIB == 6144;
    assert Decimal(6144) == Decimal(614) + "4" && Decimal(614) == Decimal(61) + "4" && Decimal(61) == Decimal(6) + "1";
    assert Decimal(6144) == "6144";
    assert Decimal(4) == "4";
  }

  /** Concurrent memory caps fit the allowance exactly when it holds one job's memory per build. */
  lemma CapsFitIff(res: HostResources, c: nat)
    requires c >= 1
    ensures c * MemBudget(res, c) <= Allowance(res) <==> c * MEM_PER_GHC_JOB_BYTES <= Allowance(res)
    ensures c * CapBytes(res, c) <= Allowance(res) <==> c * MEM_PER_GHC_JOB_BYTES <= Allowance(res)
  {
    var (mem, cap) := (MemBudget(res, c), CapBytes(res, c));
    CapHoldsJobs(res, c);
    ProductBelow(c, MEM_PER_GHC_JOB_BYTES, cap);
    ProductBelow(c, cap, mem);
    if c * MEM_PER_GHC_JOB_BYTES <= Allowance(res) {
      ProductBelow(MEM_PER_GHC_JOB_BYTES, 1, c);
      QuotientIsLargest(Allowance(res), c, MEM_PER_GHC_JOB_BYTES);
      QuotientTimes(Allowance(res), c);
    }
  }

  /** The jobs' memory fits under the rounded cap, and no larger count does within the CPU share. */
  lemma CapHoldsJobs(res: HostResources, c: nat)
    requires c >= 1
    ensures MEM_PER_GHC_JOB_BYTES <= CapBytes(res, c) <= MemBudget(res, c)
    ensures CabalJobs(res, c) * MEM_PER_GHC_JOB_BYTES <= CapBytes(res, c)
    ensures forall j: nat ::
      j <= CpuBudget(res, c) && j * MEM_PER_GHC_JOB_BYTES <= CapBytes(res, c) ==> j <= CabalJobs(res, c)
  {
    var mem := MemBudget(res, c);
    QuotientIsLargest(mem, MEM_PER_GHC_JOB_BYTES, 1);
    JobsFitCap(mem, 1);
    JobsFitCap(mem, CabalJobs(res, c));
    forall j: nat | j <= CpuBudget(res, c) && j * MEM_PER_GHC_JOB_BYTES <= CapBytes(res, c)
      ensures j <= CabalJobs(res, c)
    {
      QuotientTimes(mem, MIB);
      QuotientIsLargest(mem, MEM_PER_GHC_JOB_BYTES, j);
    }
  }

  /** A job's memory is whole mebibytes, so rounding the cap down costs no job. */
  lemma JobsFitCap(mem: nat, jobs: nat)
    requires jobs <= mem / MEM_PER_GHC_JOB_BYTES
    ensures jobs * MEM_PER_GHC_JOB_BYTES <= mem / MIB * MIB <= mem
  {
    QuotientBound(mem, MEM_PER_GHC_JOB_BYTES, jobs);
    assert MIB * (2560 * jobs) == jobs * MEM_PER_GHC_JOB_BYTES;
    QuotientIsLargest(mem, MIB, 2560 * jobs);
    ProductBelow(MIB, 2560 * jobs, mem / MIB);
    QuotientTimes(mem, MIB);
  }

  lemma QuotientBound(a: nat, c: nat, j: nat)
    requires c > 0 && j <= a / c
    ensures c * j <= a
  {
    ProductBelow(c, j, a / c);
    QuotientTimes(a, c);
  }

  /** Splitting the host runs no more jobs than not splitting it, exactly when the allowance holds
      one job's memory per build (or nothing is split). */
  lemma SplitJobsDoNotExceedWhole(res: HostResources, c: nat)
    requires 1 <= c <= res.cpuCount - 1
    ensures c * CabalJobs(res, c) <= CabalJobs(res, 1) <==> c == 1 || c * MEM_PER_GHC_JOB_BYTES <= Allowance(res)
  {
    if c * MEM_PER_GHC_JOB_BYTES <= Allowance(res) {
      SplitJobsFit(res, c);
    } else if c > 1 {
      FewerJobsThanBuilds(res, c);
      ProductBelow(c, 1, CabalJobs(res, c));
    }
  }

  lemma FewerJobsThanBuilds(res: HostResources, c: nat)
    requires c > 1 && c * MEM_PER_GHC_JOB_BYTES > Allowance(res)
    ensures CabalJobs(res, 1) < c
  {
    if c <= CabalJobs(res, 1) {
      ProductBelow(MEM_PER_GHC_JOB_BYTES, c, CabalJobs(res, 1));
      CapHoldsJobs(res, 1);
      assert false;
    }
  }

  lemma SplitJobsFit(res: HostResources, c: nat)
    requires 1 <= c <= res.cpuCount - 1
    requires c * MEM_PER_GHC_JOB_BYTES <= Allowance(res)
    ensures c * CabalJobs(res, c) <= CabalJobs(res, 1)
  {
    var (jobs, share) := (CabalJobs(res, c), (res.cpuCount - 1) / c);
    QuotientIsLargest(res.cpuCount - 1, c, 1);
    assert jobs <= share;
    ProductBelow(c, jobs, share);
    QuotientTimes(res.cpuCount - 1, c);
    CapsFitIff(res, c);
    CapHoldsJobs(res, c);
    JobsOfAll(c, jobs, CapBytes(res, c), Allowance(res));
    ProductBelow(MEM_PER_GHC_JOB_BYTES, 1, c);
  }

  lemma JobsOfAll(c: nat, jobs: nat, cap: nat, allowance: nat)
    requires jobs * MEM_PER_GHC_JOB_BYTES <= cap && c * cap <= allowance
    ensures c * jobs <= allowance / MEM_PER_GHC_JOB_BYTES
  {
    ProductBelow(c, jobs * MEM_PER_GHC_JOB_BYTES, cap);
    assert MEM_PER_GHC_JOB_BYTES * (c * jobs) == c * (jobs * MEM_PER_GHC_JOB_BYTES);
    QuotientIsLargest(allowance, MEM_PER_GHC_JOB_BYTES, c * jobs);
  }

  lemma QuotientMonotone(a: nat, b: nat, c: nat)
    requires a <= b && c > 0
    ensures a / c <= b / c
  {
    QuotientTimes(a, c);
    QuotientIsLargest(b, c, a / c);
  }

  lemma QuotientAntitone(a: nat, c: nat, d: nat)
    requires 0 < c <= d
    ensures a / d <= a / c
  {
    QuotientTimes(a, d);
    ProductBelow(a / d, c, d);
    QuotientIsLargest(a, c, a / d);
  }

  /** More memory, more CPUs or fewer builds at once never shrink any part of a build's budget. */
  lemma BudgetIsMonotone(small: HostResources, large: HostResources, c: nat, d: nat)
    requires 1 <= d <= c
    requires small.memAvailableBytes <= large.memAvailableBytes && small.cpuCount <= large.cpuCount
    ensures MemBudget(small, c) <= MemBudget(large, d)
    ensures CpuBudget(small, c) <= CpuBudget(large, d)
    ensures CabalJobs(small, c) <= CabalJobs(large, d)
  {
    assert Allowance(small) <= Allowance(large);
    var (a, b) := (Max(Allowance(small), MEM_PER_GHC_JOB_BYTES), Max(Allowance(large), MEM_PER_GHC_JOB_BYTES));
    QuotientMonotone(a, b, c);
    QuotientAntitone(b, d, c);
    var (x, y) := (Max(1, small.cpuCount - 1), Max(1, large.cpuCount - 1));
    QuotientMonotone(x, y, c);
    QuotientAntitone(y, d, c);
    QuotientMonotone(MemBudget(small, c), MemBudget(large, d), MEM_PER_GHC_JOB_BYTES);
  }

  /** On a host that meets the minimums, as many builds as were budgeted for stay within the
      allowance and leave one CPU free. */
  lemma ConcurrentBuildsFit(res: HostResources, c: nat, running: nat)
    requires MeetsMinimums(res) && 1 <= c <= 2 && running <= c
    ensures running * CapBytes(res, c) <= Allowance(res)
    ensures running * CpuBudget(res, c) <= res.cpuCount - 1
  {
    assert !Misses(res, Cpus) && !Misses(res, AvailableMemory);
    CapsFitIff(res, c);
    if running == 1 && c == 2 {
      assert running * CapBytes(res, c) <= c * CapBytes(res, c);
    }
  }
}
