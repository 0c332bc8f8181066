/**
 * The health-check script: six independent checks, each turning its
 * readings into a verdict `(ok, message)`, and the main loop that runs them
 * in order, records one report per check and derives the exit status. The
 * readings (PID file, psutil, nvidia-smi, `.env`, `bot.log`) are
 * parameters; messages are modelled by their kind, not their text.
 */
module HealthCheck {
  import opened Wrappers
  import opened Text
  import opened Environment

  /** The kind of message a check reports. */
  datatype Finding =
    | PidFileMissing | ProcessActive(pid: int) | ProcessNotFound(pid: int) | PidReadError
    | DiskCritical | DiskWarning | DiskOk | DiskError
    | MemoryCritical | MemoryWarning | MemoryOk | MemoryError
    | GpuReport(statuses: seq<Level>) | GpuUnavailable | GpuTimeout | NvidiaSmiMissing | GpuError
    | EnvFileMissing | TokenMissing | ConfigOk | DotenvMissing
    | NoLogFile | LogTooLarge | LogOk | LogError
    | Exception

  /** What a check function returns: `(ok, message)`. */
  datatype Verdict = Verdict(ok: bool, finding: Finding)

  /** The three-way classification used for disk, memory and each GPU. */
  datatype Level = Critical | Warning | Normal

  /** Above 90 is critical, above 80 a warning, anything else normal; both
    * comparisons are strict. */
  function Classify(over90: bool, over80: bool): (level: Level)
    requires over90 ==> over80
    ensures level == Critical <==> over90
    ensures level == Warning <==> over80 && !over90
    ensures level == Normal <==> !over80
  {
    if over90 then Critical else if over80 then Warning else Normal
  }

  /** `used / total * 100 > limit`, compared without division; the caller
    * rules out a zero total. */
  predicate PercentOver(used: nat, total: nat, limit: nat) {
    used * 100 > limit * total
  }

  /** The PID file as `check_process` finds it. */
  datatype PidFile = Absent | Unreadable | Content(text: string)

  /** `check_process`: the PID file must exist, hold an integer, and name a
    * live process; a stale PID is reported, not raised. */
  function CheckProcess(pidFile: PidFile, pidExists: int -> bool): (v: Verdict)
    ensures v.ok <==> (pidFile.Content? && ParseInt(Strip(pidFile.text)).Some?
                       && pidExists(ParseInt(Strip(pidFile.text)).value))
    ensures pidFile.Absent? ==> v == Verdict(false, PidFileMissing)
    ensures pidFile.Content? && ParseInt(Strip(pidFile.text)).Some? && !pidExists(ParseInt(Strip(pidFile.text)).value) ==>
      v == Verdict(false, ProcessNotFound(ParseInt(Strip(pidFile.text)).value))
  {
    match pidFile
    case Absent => Verdict(false, PidFileMissing)
    case Unreadable => Verdict(false, PidReadError)
    case Content(text) =>
      match ParseInt(Strip(text))
      case None => Verdict(false, PidReadError)
      case Some(pid) =>
        if pidExists(pid) then Verdict(true, ProcessActive(pid)) else Verdict(false, ProcessNotFound(pid))
  }

  /** What `psutil.disk_usage('.')` gives: used and total bytes of the
    * current filesystem, or an exception. */
  datatype DiskUsage = Usage(used: nat, total: nat) | UsageFailed

  /** `check_disk_space`: a failed reading, and a zero total (the division
    * raises), are both caught and reported as an error. */
  function CheckDiskSpace(usage: DiskUsage): (v: Verdict)
    ensures v.ok <==> usage.Usage? && usage.total > 0 && !PercentOver(usage.used, usage.total, 90)
    ensures usage.Usage? && usage.total > 0 && PercentOver(usage.used, usage.total, 90) ==> v == Verdict(false, DiskCritical)
    ensures usage.Usage? && usage.total > 0 && PercentOver(usage.used, usage.total, 80) && !PercentOver(usage.used, usage.total, 90)
      ==> v == Verdict(true, DiskWarning)
    ensures usage.Usage? && usage.total > 0 && !PercentOver(usage.used, usage.total, 80) ==> v == Verdict(true, DiskOk)
    ensures usage.UsageFailed? || usage.total == 0 ==> v == Verdict(false, DiskError)
  {
    match usage
    case UsageFailed => Verdict(false, DiskError)
    case Usage(used, total) =>
      if total == 0 then Verdict(false, DiskError)
      else
        match Classify(PercentOver(used, total, 90), PercentOver(used, total, 80))
        case Critical => Verdict(false, DiskCritical)
        case Warning => Verdict(true, DiskWarning)
        case Normal => Verdict(true, DiskOk)
  }

  /** What `psutil.virtual_memory()` gives: the percentage in use, or an exception. */
  datatype MemoryReading = MemoryPercent(percent: real) | MemoryFailed

  /** `check_memory`: a failed reading is caught and reported as an error. */
  function CheckMemory(memory: MemoryReading): (v: Verdict)
    ensures v.ok <==> memory.MemoryPercent? && memory.percent <= 90.0
    ensures memory.MemoryPercent? && memory.percent > 90.0 ==> v == Verdict(false, MemoryCritical)
    ensures memory.MemoryPercent? && 80.0 < memory.percent <= 90.0 ==> v == Verdict(true, MemoryWarning)
    ensures memory.MemoryPercent? && memory.percent <= 80.0 ==> v == Verdict(true, MemoryOk)
    ensures memory.MemoryFailed? ==> v == Verdict(false, MemoryError)
  {
    match memory
    case MemoryFailed => Verdict(false, MemoryError)
    case MemoryPercent(percent) =>
      match Classify(percent > 90.0, percent > 80.0)
      case Critical => Verdict(false, MemoryCritical)
      case Warning => Verdict(true, MemoryWarning)
      case Normal => Verdict(true, MemoryOk)
  }

  /** One line of nvidia-smi output: memory used and total, in MiB. */
  datatype GpuReading = GpuReading(memoryUsed: nat, memoryTotal: nat)

  /** How the nvidia-smi call ended: it ran with a return code and (when
    * the code is 0) parsed readings, ran over its 10-second timeout, was not
    * found, or raised anything else (an unparsable line, say). */
  datatype Smi = Completed(returnCode: int, readings: seq<GpuReading>) | TimedOut | NotFound | Failed

  /** Whether the per-GPU loop gets through: at least one line, and no GPU
    * with a zero memory total. */
  predicate ReadingsUsable(readings: seq<GpuReading>) {
    readings != [] && forall i :: 0 <= i < |readings| ==> readings[i].memoryTotal > 0
  }

  /** The level of each GPU, in order. */
  function GpuLevels(readings: seq<GpuReading>): (levels: seq<Level>)
    requires forall i :: 0 <= i < |readings| ==> readings[i].memoryTotal > 0
    ensures |levels| == |readings|
    ensures forall i :: 0 <= i < |readings| ==>
      levels[i] == Classify(PercentOver(readings[i].memoryUsed, readings[i].memoryTotal, 90),
                            PercentOver(readings[i].memoryUsed, readings[i].memoryTotal, 80))
  {
    seq(|readings|, i requires 0 <= i < |readings| =>
      Classify(PercentOver(readings[i].memoryUsed, readings[i].memoryTotal, 90),
               PercentOver(readings[i].memoryUsed, readings[i].memoryTotal, 80)))
  }

  /** `check_gpu`: per-GPU levels are reported but never fail the check;
    * only a timeout or an unexpected error does. A GPU with a zero memory
    * total makes the division raise, and so does an empty output, which
    * splits into one empty line that `int` rejects; both land in the
    * generic handler. */
  function CheckGpu(smi: Smi): (v: Verdict)
    ensures v.ok <==> !(smi.TimedOut? || smi.Failed?
                        || (smi.Completed? && smi.returnCode == 0 && !ReadingsUsable(smi.readings)))
    ensures smi.NotFound? ==> v == Verdict(true, NvidiaSmiMissing)
    ensures smi.Completed? && smi.returnCode != 0 ==> v == Verdict(true, GpuUnavailable)
    ensures smi.TimedOut? ==> v == Verdict(false, GpuTimeout)
  {
    match smi
    case TimedOut => Verdict(false, GpuTimeout)
    case NotFound => Verdict(true, NvidiaSmiMissing)
    case Failed => Verdict(false, GpuError)
    case Completed(code, readings) =>
      if code != 0 then Verdict(true, GpuUnavailable)
      else if !ReadingsUsable(readings) then Verdict(false, GpuError)
      else Verdict(true, GpuReport(GpuLevels(readings)))
  }

  /** A GPU report lists a critical GPU as critical, yet the check passes. */
  lemma CriticalGpuStillOk(readings: seq<GpuReading>, i: nat)
    requires forall j :: 0 <= j < |readings| ==> readings[j].memoryTotal > 0
    requires i < |readings| && PercentOver(readings[i].memoryUsed, readings[i].memoryTotal, 90)
    ensures CheckGpu(Completed(0, readings)).ok
    ensures CheckGpu(Completed(0, readings)).finding.GpuReport?
    ensures CheckGpu(Completed(0, readings)).finding.statuses[i] == Critical
  {
  }

  /** `check_config`: the `.env` file must exist, python-dotenv must be
    * importable, and TELEGRAM_BOT_TOKEN must then be set and non-empty. */
  function CheckConfig(envFileExists: bool, dotenvInstalled: bool, env: Env): (v: Verdict)
    ensures v.ok <==> envFileExists && dotenvInstalled && IsSet(env, "TELEGRAM_BOT_TOKEN")
    ensures !envFileExists ==> v == Verdict(false, EnvFileMissing)
  {
    if !envFileExists then Verdict(false, EnvFileMissing)
    else if !dotenvInstalled then Verdict(false, DotenvMissing)
    else if !IsSet(env, "TELEGRAM_BOT_TOKEN") then Verdict(false, TokenMissing)
    else Verdict(true, ConfigOk)
  }

  /** What `bot.log` looks like: absent, of a size in bytes, or not stat-able. */
  datatype LogFile = NoLog | LogSize(bytes: nat) | StatFailed

  /** 100 MB, as `check_log_file` counts them (1024 * 1024 bytes each). */
  const LogLimitBytes: nat := 100 * 1024 * 1024

  /** `check_log_file`: a missing log is fine; one over 100 MB fails. */
  function CheckLogFile(log: LogFile): (v: Verdict)
    ensures v.ok <==> log.NoLog? || (log.LogSize? && log.bytes <= 104857600)
    ensures log.NoLog? ==> v == Verdict(true, NoLogFile)
  {
    match log
    case NoLog => Verdict(true, NoLogFile)
    case StatFailed => Verdict(false, LogError)
    case LogSize(bytes) => if bytes > LogLimitBytes then Verdict(false, LogTooLarge) else Verdict(true, LogOk)
  }

  /** Whether a check function returned its verdict or raised. */
  datatype Outcome = Returned(verdict: Verdict) | Raised

  /** The report `main` records for one check. */
  datatype Report = Report(ok: bool, finding: Finding)

  function ReportOf(outcome: Outcome): (r: Report)
    ensures r.ok <==> outcome.Returned? && outcome.verdict.ok
  {
    match outcome
    case Returned(Verdict(ok, finding)) => Report(ok, finding)
    case Raised => Report(false, Exception)
  }

  /** A check counts as passed when it returned a verdict that is ok. */
  predicate Passed(outcome: Outcome) {
    outcome.Returned? && outcome.verdict.ok
  }

  /** The reports `main` has recorded after the given checks: each check in
    * turn sets its name's entry, so a later check of a name overwrites an
    * earlier one. */
  function Results(checks: seq<(string, Outcome)>): (r: map<string, Report>)
    ensures r == map[] <==> checks == []
    ensures checks != [] ==> checks[|checks| - 1].0 in r
  {
    if checks == [] then map[]
    else
      var last := checks[|checks| - 1];
      Results(checks[..|checks| - 1])[last.0 := ReportOf(last.1)]
  }

  /** The recorded names are exactly the names of the checks run. */
  lemma {:induction false} ResultsKeys(checks: seq<(string, Outcome)>)
    ensures Results(checks).Keys == set i | 0 <= i < |checks| :: checks[i].0
  {
    if checks != [] {
      var init := checks[..|checks| - 1];
      ResultsKeys(init);
      assert forall i :: 0 <= i < |init| ==> init[i] == checks[i];
    }
  }

  /** A name's report is that of its last check. */
  lemma {:induction false} ResultsLastWins(checks: seq<(string, Outcome)>, i: nat)
    requires i < |checks|
    requires forall j :: i < j < |checks| ==> checks[j].0 != checks[i].0
    ensures checks[i].0 in Results(checks)
    ensures Results(checks)[checks[i].0] == ReportOf(checks[i].1)
  {
    var init := checks[..|checks| - 1];
    if i < |checks| - 1 {
      assert forall j :: i < j < |init| ==> init[j] == checks[j];
      ResultsLastWins(init, i);
    }
  }

  /** The loop of `main`: records each check's report under its name and
    * clears `all_ok` on any check that fails or raises. */
  method RunChecks(checks: seq<(string, Outcome)>) returns (results: map<string, Report>, allOk: bool)
    ensures results == Results(checks)
    ensures allOk <==> forall i :: 0 <= i < |checks| ==> Passed(checks[i].1)
  {
    results := map[];
    allOk := true;
    for k := 0 to |checks|
      invariant results == Results(checks[..k])
      invariant allOk <==> forall i :: 0 <= i < k ==> Passed(checks[i].1)
    {
      assert checks[..k + 1][..k] == checks[..k];
      var (name, outcome) := checks[k];
      match outcome
      case Returned(Verdict(ok, finding)) =>
        results := results[name := Report(ok, finding)];
        if !ok {
          allOk := false;
        }
      case Raised =>
        results := results[name := Report(false, Exception)];
        allOk := false;
    }
    assert checks[..|checks|] == checks;
  }

  /** Every reading `main` needs for its six checks. */
  datatype Readings = Readings(
    pidFile: PidFile, pidExists: int -> bool, disk: DiskUsage,
    memory: MemoryReading, smi: Smi, envFileExists: bool, dotenvInstalled: bool, env: Env, log: LogFile)

  /** The six checks of `main`, in order, with their display names. */
  function Named(process: Verdict, disk: Verdict, memory: Verdict, gpu: Verdict, config: Verdict, log: Verdict)
    : seq<(string, Outcome)>
  {
    [("Processus bot", Returned(process)), ("Espace disque", Returned(disk)), ("Mémoire RAM", Returned(memory)),
     ("GPU", Returned(gpu)), ("Configuration", Returned(config)), ("Fichier log", Returned(log))]
  }

  /** The checks `main` runs on the given readings. */
  function Checks(r: Readings): seq<(string, Outcome)> {
    Named(CheckProcess(r.pidFile, r.pidExists), CheckDiskSpace(r.disk),
          CheckMemory(r.memory), CheckGpu(r.smi),
          CheckConfig(r.envFileExists, r.dotenvInstalled, r.env), CheckLogFile(r.log))
  }

  /** The end of `main` once the six verdicts are in: the loop over the
    * named checks, then exit status 0 exactly when all passed. */
  method Conclude(process: Verdict, disk: Verdict, memory: Verdict, gpu: Verdict, config: Verdict, log: Verdict)
    returns (results: map<string, Report>, exitCode: int)
    ensures results == Results(Named(process, disk, memory, gpu, config, log))
    ensures exitCode == 0 <==> process.ok && disk.ok && memory.ok && gpu.ok && config.ok && log.ok
    ensures exitCode in {0, 1}
  {
    var checks := Named(process, disk, memory, gpu, config, log);
    var allOk;
    results, allOk := RunChecks(checks);
    assert allOk <==> process.ok && disk.ok && memory.ok && gpu.ok && config.ok && log.ok by {
      assert Passed(checks[0].1) == process.ok && Passed(checks[1].1) == disk.ok && Passed(checks[2].1) == memory.ok;
      assert Passed(checks[3].1) == gpu.ok && Passed(checks[4].1) == config.ok && Passed(checks[5].1) == log.ok;
    }
    exitCode := if allOk then 0 else 1;
  }

  /** `main`: runs the six checks on the readings and exits with 0 exactly
    * when all of them passed. */
  method RunHealthCheck(r: Readings) returns (results: map<string, Report>, exitCode: int)
    ensures results == Results(Checks(r))
    ensures exitCode == 0 <==>
      CheckProcess(r.pidFile, r.pidExists).ok && CheckDiskSpace(r.disk).ok
      && CheckMemory(r.memory).ok && CheckGpu(r.smi).ok
      && CheckConfig(r.envFileExists, r.dotenvInstalled, r.env).ok && CheckLogFile(r.log).ok
    ensures exitCode in {0, 1}
  {
    results, exitCode := Conclude(
      CheckProcess(r.pidFile, r.pidExists), CheckDiskSpace(r.disk), CheckMemory(r.memory),
      CheckGpu(r.smi), CheckConfig(r.envFileExists, r.dotenvInstalled, r.env), CheckLogFile(r.log));
  }

  /** The six names `main` records. */
  lemma NamedKeys(process: Verdict, disk: Verdict, memory: Verdict, gpu: Verdict, config: Verdict, log: Verdict)
    ensures Results(Named(process, disk, memory, gpu, config, log)).Keys ==
      {"Processus bot", "Espace disque", "Mémoire RAM", "GPU", "Configuration", "Fichier log"}
  {
    var checks := Named(process, disk, memory, gpu, config, log);
    ResultsKeys(checks);
    assert (set i | 0 <= i < |checks| :: checks[i].0) ==
      {"Processus bot", "Espace disque", "Mémoire RAM", "GPU", "Configuration", "Fichier log"} by {
      assert checks[0].0 == "Processus bot" && checks[1].0 == "Espace disque" && checks[2].0 == "Mémoire RAM";
      assert checks[3].0 == "GPU" && checks[4].0 == "Configuration" && checks[5].0 == "Fichier log";
    }
  }

  /** No name is repeated among the six checks. */
  lemma NamedDistinct(process: Verdict, disk: Verdict, memory: Verdict, gpu: Verdict, config: Verdict, log: Verdict)
    ensures forall i, j :: 0 <= i < j < 6 ==>
      Named(process, disk, memory, gpu, config, log)[i].0 != Named(process, disk, memory, gpu, config, log)[j].0
  {
  }

  /** Every check leaves its own report: the six names are distinct. */
  lemma NamedReports(process: Verdict, disk: Verdict, memory: Verdict, gpu: Verdict, config: Verdict, log: Verdict)
    ensures Results(Named(process, disk, memory, gpu, config, log)).Keys ==
      {"Processus bot", "Espace disque", "Mémoire RAM", "GPU", "Configuration", "Fichier log"}
    ensures Results(Named(process, disk, memory, gpu, config, log))["GPU"] == ReportOf(Returned(gpu))
    ensures forall i :: 0 <= i < 6 ==>
      Results(Named(process, disk, memory, gpu, config, log))[Named(process, disk, memory, gpu, config, log)[i].0]
      == ReportOf(Named(process, disk, memory, gpu, config, log)[i].1)
  {
    var checks := Named(process, disk, memory, gpu, config, log);
    NamedKeys(process, disk, memory, gpu, config, log);
    NamedDistinct(process, disk, memory, gpu, config, log);
    forall i | 0 <= i < 6
      ensures Results(checks)[checks[i].0] == ReportOf(checks[i].1)
    {
      ResultsLastWins(checks, i);
    }
    assert checks[3] == ("GPU", Returned(gpu));
  }
}
