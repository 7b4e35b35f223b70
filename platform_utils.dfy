/** Platform detection and the per-platform tables: clean exit codes, the
    signals offered, and recommended pool limits.  What the `platform`,
    `signal` and `multiprocessing` modules report is a parameter. */
module Platform {
  import opened Data

  /** What `platform.system/release/version/machine/python_version` return. */
  datatype Host = Host(system: string, release: string, version: string, machine: string, pythonVersion: string)

  datatype PlatformInfo = PlatformInfo(
    system: string, release: string, version: string, machine: string, pythonVersion: string,
    isWindows: bool, isLinux: bool, isMacos: bool)
  {
    /** `display_name`: the first flag that is set names the platform. */
    function DisplayName(): string {
      if isWindows then "Windows " + release
      else if isLinux then "Linux " + release
      else if isMacos then "macOS " + release
      else system + " " + release
    }

    /** `is_unix`: Linux or macOS. */
    predicate IsUnix() {
      isLinux || isMacos
    }
  }

  /** `get_platform_info`: each flag is an exact comparison of the system name. */
  function GetPlatformInfo(h: Host): (info: PlatformInfo)
    ensures info.system == h.system && info.release == h.release && info.version == h.version
    ensures info.machine == h.machine && info.pythonVersion == h.pythonVersion
    ensures info.isWindows <==> h.system == "Windows"
    ensures info.isLinux <==> h.system == "Linux"
    ensures info.isMacos <==> h.system == "Darwin"
  {
    PlatformInfo(h.system, h.release, h.version, h.machine, h.pythonVersion,
                 h.system == "Windows", h.system == "Linux", h.system == "Darwin")
  }

  /** At most one flag of a detected platform is set, Unix means Linux or
      Darwin, and the display name follows the system name. */
  lemma PlatformFlags(h: Host)
    ensures var info := GetPlatformInfo(h);
      && !(info.isWindows && info.isLinux) && !(info.isWindows && info.isMacos) && !(info.isLinux && info.isMacos)
      && (info.IsUnix() <==> h.system == "Linux" || h.system == "Darwin")
      && (info.IsUnix() ==> !info.isWindows)
      && (h.system == "Windows" ==> info.DisplayName() == "Windows " + h.release)
      && (h.system == "Linux" ==> info.DisplayName() == "Linux " + h.release)
      && (h.system == "Darwin" ==> info.DisplayName() == "macOS " + h.release)
      && (h.system !in {"Windows", "Linux", "Darwin"} ==> info.DisplayName() == h.system + " " + h.release)
  {
  }

  /** `is_clean_exit_code`, for the host it runs on. */
  predicate IsCleanExitCode(h: Host, exitCode: int) {
    if GetPlatformInfo(h).isWindows then exitCode in [0, 1] else exitCode in [0, -15, 143]
  }

  /** Clean exit codes are exactly {0, 1} on Windows and {0, -15, 143}
      elsewhere; 0 is clean everywhere. */
  lemma CleanExitCodes(h: Host, exitCode: int)
    ensures h.system == "Windows" ==> (IsCleanExitCode(h, exitCode) <==> exitCode == 0 || exitCode == 1)
    ensures h.system != "Windows" ==>
              (IsCleanExitCode(h, exitCode) <==> exitCode == 0 || exitCode == -15 || exitCode == 143)
    ensures IsCleanExitCode(h, 0)
  {
  }

  /** The `signal` module's constants; the optional ones are None where the
      module has no such attribute. */
  datatype SignalModule = SignalModule(sigint: int, sigterm: int, sigbreak: Option<int>, sighup: Option<int>,
                                       sigquit: Option<int>)

  function AddIfPresent(m: map<string, int>, name: string, n: Option<int>): map<string, int> {
    if n.Some? then m[name := n.value] else m
  }

  /** `get_available_signals`. */
  function GetAvailableSignals(h: Host, sig: SignalModule): (r: map<string, int>)
    ensures r.Keys <= {"SIGINT", "SIGTERM", "SIGBREAK", "SIGHUP", "SIGQUIT"}
  {
    var base := map["SIGINT" := sig.sigint, "SIGTERM" := sig.sigterm];
    if GetPlatformInfo(h).isWindows then AddIfPresent(base, "SIGBREAK", sig.sigbreak)
    else AddIfPresent(AddIfPresent(base, "SIGHUP", sig.sighup), "SIGQUIT", sig.sigquit)
  }

  /** SIGINT and SIGTERM are always offered; SIGBREAK only on Windows, and
      SIGHUP and SIGQUIT only elsewhere, each when the module has it. */
  lemma AvailableSignals(h: Host, sig: SignalModule)
    ensures var r := GetAvailableSignals(h, sig);
      && "SIGINT" in r && r["SIGINT"] == sig.sigint
      && "SIGTERM" in r && r["SIGTERM"] == sig.sigterm
      && ("SIGBREAK" in r <==> h.system == "Windows" && sig.sigbreak.Some?)
      && ("SIGHUP" in r <==> h.system != "Windows" && sig.sighup.Some?)
      && ("SIGQUIT" in r <==> h.system != "Windows" && sig.sigquit.Some?)
      && ("SIGBREAK" in r ==> r["SIGBREAK"] == sig.sigbreak.value)
      && ("SIGHUP" in r ==> r["SIGHUP"] == sig.sighup.value)
      && ("SIGQUIT" in r ==> r["SIGQUIT"] == sig.sigquit.value)
  {
  }

  datatype PlatformLimits = PlatformLimits(maxProcesses: int, maxThreads: int, reason: string)

  function Min(a: int, b: int): int { if a <= b then a else b }

  /** `get_platform_resource_limits` for `cpu` CPUs. */
  function GetPlatformResourceLimits(h: Host, cpu: nat): PlatformLimits {
    var info := GetPlatformInfo(h);
    if info.isWindows then PlatformLimits(Min(cpu * 2, 32), Min(cpu * 4, 128), "Windows process overhead")
    else if info.isMacos then PlatformLimits(Min(cpu * 2, 64), Min(cpu * 4, 256), "macOS security restrictions")
    else PlatformLimits(Min(cpu * 4, 128), Min(cpu * 8, 512), "Linux process efficiency")
  }

  /** The limits per system (every system that is neither Windows nor
      Darwin, unknown ones included, gets the Linux table); a platform never
      recommends more processes than threads. */
  lemma PlatformLimitsTable(h: Host, cpu: nat)
    ensures var l := GetPlatformResourceLimits(h, cpu);
      && (h.system == "Windows" ==> l.maxProcesses == Min(2 * cpu, 32) && l.maxThreads == Min(4 * cpu, 128))
      && (h.system == "Darwin" ==> l.maxProcesses == Min(2 * cpu, 64) && l.maxThreads == Min(4 * cpu, 256))
      && (h.system != "Windows" && h.system != "Darwin" ==>
            l.maxProcesses == Min(4 * cpu, 128) && l.maxThreads == Min(8 * cpu, 512))
      && 0 <= l.maxProcesses <= l.maxThreads
      && (cpu >= 1 ==> l.maxProcesses >= 2)
  {
  }
}
