/** `ResourceManager`: the process and thread limits derived from memory and
    CPU readings.  The `psutil` readings are a parameter; arithmetic is on
    exact reals (no floating-point rounding). */
module Resources {
  import opened Data

  const ProcessMemoryDefault: int := 512
  const ReservedRamPercent: real := 0.25
  const ThreadPerCore: int := 2
  const GiB: real := 1073741824.0
  const MiB: real := 1048576.0

  /** `virtual_memory().total/available` and `cpu_count(logical=True/False)`;
      a count `psutil` cannot determine is None. */
  datatype Readings = Readings(totalBytes: nat, availableBytes: nat, cpuLogical: Option<nat>, cpuPhysical: Option<nat>)

  datatype SystemResources = SystemResources(
    totalRamGb: real, availableRamGb: real,
    cpuCount: nat, cpuCountPhysical: nat,
    maxProcesses: int, maxThreads: int)

  /** The manager's only field. */
  datatype ResourceManager = ResourceManager(processMemoryMb: int)

  /** `__init__`: `process_memory_mb or 512`, so None and 0 both give the default. */
  function NewManager(processMemoryMb: Option<int>): (m: ResourceManager)
    ensures processMemoryMb.None? ==> m.processMemoryMb == ProcessMemoryDefault
    ensures processMemoryMb.Some? && processMemoryMb.value == 0 ==> m.processMemoryMb == ProcessMemoryDefault
    ensures processMemoryMb.Some? && processMemoryMb.value != 0 ==> m.processMemoryMb == processMemoryMb.value
    ensures m.processMemoryMb != 0
  {
    if processMemoryMb.Some? && processMemoryMb.value != 0 then ResourceManager(processMemoryMb.value)
    else ResourceManager(ProcessMemoryDefault)
  }

  /** The keyword parameters `__init__` accepts. */
  const InitParameters: set<string> := {"process_memory_mb"}

  /** Calling `ResourceManager(**kwargs)`: an unknown keyword is a TypeError
      before the body runs; otherwise the memory figure is `NewManager`'s
      argument (absent or false-like means None).  Only integer figures are
      modelled. */
  function Construct(kwargs: map<string, Value>): (r: Result<ResourceManager, string>)
    ensures !(kwargs.Keys <= InitParameters) ==> r.Err?
    ensures kwargs.Keys <= InitParameters && ("process_memory_mb" !in kwargs || !Truthy(kwargs["process_memory_mb"])) ==>
              r == Ok(ResourceManager(ProcessMemoryDefault))
  {
    if !(kwargs.Keys <= InitParameters) then Err("TypeError: unexpected keyword argument")
    else
      var v := if "process_memory_mb" in kwargs then kwargs["process_memory_mb"] else Null;
      if !Truthy(v) then Ok(NewManager(None))
      else if v.Int? then Ok(NewManager(Some(v.i)))
      else Err("non-integer process_memory_mb")
  }

  /** Python's `int(x)` on a float: truncation toward zero. */
  function Trunc(x: real): (n: int)
    ensures x >= 0.0 ==> n as real <= x < n as real + 1.0
    ensures x < 0.0 ==> n as real - 1.0 < x <= n as real
  {
    if x >= 0.0 then x.Floor else -((-x).Floor)
  }

  function Max(a: int, b: int): int { if a >= b then a else b }
  function Min(a: int, b: int): int { if a <= b then a else b }
  function MaxReal(a: real, b: real): real { if a >= b then a else b }

  /** `available_gb - 0.25 * total_gb`, in megabytes, before clamping. */
  function UsableMb(r: Readings): real {
    var totalGb := r.totalBytes as real / GiB;
    var availableGb := r.availableBytes as real / GiB;
    (availableGb - totalGb * ReservedRamPercent) * 1024.0
  }

  /** `get_system_resources`.  An undetermined logical CPU count makes
      `min(max_processes, None)` raise. */
  function GetSystemResources(m: ResourceManager, r: Readings): (res: Result<SystemResources, string>)
    requires m.processMemoryMb != 0
    ensures r.cpuLogical.None? <==> res.Err?
  {
    if r.cpuLogical.None? then Err("TypeError")
    else
      var cpu := r.cpuLogical.value;
      var physical := if r.cpuPhysical.Some? && r.cpuPhysical.value != 0 then r.cpuPhysical.value else cpu;
      var usableMb := MaxReal(0.0, UsableMb(r));
      var byMemory := Max(1, Trunc(usableMb / m.processMemoryMb as real));
      Ok(SystemResources(
        r.totalBytes as real / GiB, r.availableBytes as real / GiB,
        cpu, physical,
        Min(byMemory, cpu),
        cpu * ThreadPerCore))
  }

  /** `has_sufficient_memory(n)` on the same readings: the figures come from
      `get_system_resources()`, so it raises whenever that call does. */
  function HasSufficientMemory(m: ResourceManager, r: Readings, numProcesses: int): (res: Result<bool, string>)
    requires m.processMemoryMb != 0
    ensures r.cpuLogical.None? <==> res.Err?
  {
    match GetSystemResources(m, r)
    case Err(e) => Err(e)
    case Ok(resources) =>
      var availableMb := resources.availableRamGb * 1024.0;
      var reservedMb := resources.totalRamGb * 1024.0 * ReservedRamPercent;
      Ok(availableMb - reservedMb >= (numProcesses * m.processMemoryMb) as real)
  }

  // ---------------------------------------------------------------------

  /** The limits: at least one and at most `cpu_count` processes (for at
      least one CPU), twice as many threads as CPUs, and the physical count
      falling back to the logical one when unknown or zero. */
  lemma Limits(m: ResourceManager, r: Readings)
    requires m.processMemoryMb != 0 && r.cpuLogical.Some?
    ensures var res := GetSystemResources(m, r).value;
      && res.cpuCount == r.cpuLogical.value
      && (res.cpuCount >= 1 ==> 1 <= res.maxProcesses <= res.cpuCount)
      && res.maxProcesses <= res.cpuCount
      && res.maxThreads == 2 * res.cpuCount
      && (r.cpuPhysical.None? || r.cpuPhysical.value == 0 ==> res.cpuCountPhysical == res.cpuCount)
      && (r.cpuPhysical.Some? && r.cpuPhysical.value != 0 ==> res.cpuCountPhysical == r.cpuPhysical.value)
  {
  }

  /** Once the CPU count is known, `has_sufficient_memory(n)` is True exactly
      when the available megabytes, less a quarter of the total, cover `n`
      processes; without it the check raises like `get_system_resources()`. */
  lemma SufficientIff(m: ResourceManager, r: Readings, n: int)
    requires m.processMemoryMb != 0
    ensures r.cpuLogical.None? ==> HasSufficientMemory(m, r, n) == Err("TypeError")
    ensures r.cpuLogical.Some? ==> HasSufficientMemory(m, r, n) == Ok(
      r.availableBytes as real / MiB - ReservedRamPercent * (r.totalBytes as real / MiB) >= (n * m.processMemoryMb) as real)
  {
    assert (r.availableBytes as real / GiB) * 1024.0 == r.availableBytes as real / MiB;
    assert (r.totalBytes as real / GiB) * 1024.0 == r.totalBytes as real / MiB;
  }

  /** Fewer processes never need more memory. */
  lemma SufficientMonotone(m: ResourceManager, r: Readings, n: int, k: int)
    requires m.processMemoryMb > 0 && k <= n
    requires HasSufficientMemory(m, r, n) == Ok(true)
    ensures HasSufficientMemory(m, r, k) == Ok(true)
  {
    assert k * m.processMemoryMb <= n * m.processMemoryMb by {
      MulMonotone(k, n, m.processMemoryMb);
    }
  }

  lemma MulMonotone(k: int, n: int, c: int)
    requires k <= n && c >= 0
    ensures k * c <= n * c
  {
    assert n * c - k * c == (n - k) * c;
  }

  lemma MulMonotoneReal(a: real, b: real, c: real)
    requires a <= b && c >= 0.0
    ensures a * c <= b * c
  {
    assert b * c - a * c == (b - a) * c;
  }

  /** The number of whole processes `int(u / p)` a budget `u` holds fits in it. */
  lemma TruncFits(u: real, p: real)
    requires p > 0.0 && u >= p
    ensures 1 <= Trunc(u / p) && Trunc(u / p) as real * p <= u
  {
    var q := u / p;
    assert q * p == u;
    assert q >= 1.0 by {
      if q < 1.0 {
        MulMonotoneReal(q, 1.0, p);
      }
    }
    MulMonotoneReal(Trunc(q) as real, q, p);
  }

  /** The count `get_system_resources` recommends, on a usable budget `u`. */
  lemma RecommendedCountFits(u: real, pmm: int, cpu: nat)
    requires pmm > 0 && u >= pmm as real
    ensures var maxp := Min(Max(1, Trunc(MaxReal(0.0, u) / pmm as real)), cpu);
      u >= (maxp * pmm) as real
  {
    var p := pmm as real;
    TruncFits(u, p);
    var t := Trunc(u / p);
    var maxp := Min(Max(1, t), cpu);
    assert maxp <= t;
    MulMonotone(maxp, t, pmm);
    assert (t * pmm) as real == t as real * p;
  }

  /** When memory alone allows at least one process, the recommended number
      of processes fits in memory by the manager's own check. */
  lemma RecommendedFits(m: ResourceManager, r: Readings)
    requires m.processMemoryMb > 0 && r.cpuLogical.Some?
    requires UsableMb(r) >= m.processMemoryMb as real
    ensures HasSufficientMemory(m, r, GetSystemResources(m, r).value.maxProcesses) == Ok(true)
  {
    RecommendedCountFits(UsableMb(r), m.processMemoryMb, r.cpuLogical.value);
    SufficientIsUsable(m, r, GetSystemResources(m, r).value.maxProcesses);
  }

  lemma SufficientIsUsable(m: ResourceManager, r: Readings, n: int)
    requires m.processMemoryMb != 0 && r.cpuLogical.Some?
    ensures HasSufficientMemory(m, r, n) == Ok(UsableMb(r) >= (n * m.processMemoryMb) as real)
  {
    var t := r.totalBytes as real / GiB;
    var a := r.availableBytes as real / GiB;
    assert (a - t * ReservedRamPercent) * 1024.0 == a * 1024.0 - t * 1024.0 * ReservedRamPercent;
  }
}
