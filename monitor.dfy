/**
 * The command-line monitor (`SimpleMonitor`): whether the bot process is
 * alive, the ordered list of alerts raised by one set of system readings,
 * the healthy verdict and exit status of a single check, and the uptime
 * text. The readings themselves (psutil, nvidia-smi, file sizes) are
 * parameters.
 */
module Monitor {
  import opened Wrappers
  import opened Text

  /** `get_bot_pid`: the integer in the PID file, where `None` stands for a
    * file that is missing or cannot be read; a content `int()` rejects also
    * gives `None`. */
  function GetBotPid(pidFile: Option<string>): (pid: Option<int>)
    ensures pidFile.None? ==> pid.None?
    ensures pidFile.Some? ==> pid == ParseInt(Strip(pidFile.value))
  {
    match pidFile
    case None => None
    case Some(content) => ParseInt(Strip(content))
  }

  /** A PID file holding a decimal PID followed by whitespace (a newline,
    * typically) reads back as that PID. */
  lemma PidFileRoundTrip(pid: nat, trailer: string)
    requires AllSpace(trailer)
    ensures GetBotPid(Some(NatToString(pid) + trailer)) == Some(pid)
  {
    var d := NatToString(pid);
    assert IsDigit(d[0]) && IsDigit(d[|d| - 1]);
    StripAppendSpaces(d, trailer);
    NumeralParses(pid, d);
  }

  /** `is_bot_running`: a PID was read and `psutil.pid_exists` confirms it. */
  predicate IsBotRunning(pidFile: Option<string>, pidExists: int -> bool)
    ensures IsBotRunning(pidFile, pidExists) ==> pidFile.Some?
    ensures (forall p :: !pidExists(p)) ==> !IsBotRunning(pidFile, pidExists)
  {
    var pid := GetBotPid(pidFile);
    pid.Some? && pidExists(pid.value)
  }

  /** The bot counts as running exactly when a PID parsed from the file
    * names a live process; without a readable file it never does. */
  lemma IsBotRunningIff(pidFile: Option<string>, pidExists: int -> bool)
    ensures IsBotRunning(pidFile, pidExists) <==>
      pidFile.Some? && ParseInt(Strip(pidFile.value)).Some? && pidExists(ParseInt(Strip(pidFile.value)).value)
    ensures pidFile.None? ==> !IsBotRunning(pidFile, pidExists)
  {
  }

  /** The readings `check_alerts` consults. Disk usage is in bytes; the log
    * size is `None` when `bot.log` does not exist. */
  datatype Stats = Stats(
    botRunning: bool, memoryPercent: real, diskUsed: nat, diskTotal: nat,
    cpuPercent: real, gpuMemoryPercents: seq<real>, logSizeMb: Option<real>)

  /** The alerts `check_alerts` can raise; a GPU alert carries the GPU's index. */
  datatype Alert = BotStopped | MemoryCritical | DiskCritical | CpuCritical | GpuMemoryCritical(gpu: nat) | LogTooLarge

  /** The thresholds of `SimpleMonitor.__init__`. */
  const MemoryThreshold: real := 90.0
  const CpuThreshold: real := 95.0
  const GpuMemoryThreshold: real := 90.0
  const LogSizeThreshold: real := 100.0

  /** `used / total * 100 > 85`, the disk threshold, compared without division. */
  predicate DiskOver(used: nat, total: nat) {
    total > 0 && used * 100 > 85 * total
  }

  /** A missing log counts as size 0. */
  function LogSize(stats: Stats): real {
    if stats.logSizeMb.Some? then stats.logSizeMb.value else 0.0
  }

  /** One alert for each GPU over the memory threshold, in index order. */
  function GpuAlerts(gpus: seq<real>): (r: seq<Alert>)
    ensures |r| <= |gpus|
  {
    if gpus == [] then []
    else
      var last := |gpus| - 1;
      GpuAlerts(gpus[..last]) + (if gpus[last] > GpuMemoryThreshold then [GpuMemoryCritical(last)] else [])
  }

  /** A GPU is reported exactly when its memory use is over the threshold. */
  lemma {:induction false} GpuAlertsIff(gpus: seq<real>)
    ensures forall a :: a in GpuAlerts(gpus) <==>
      exists i :: 0 <= i < |gpus| && gpus[i] > GpuMemoryThreshold && a == GpuMemoryCritical(i)
  {
    if gpus != [] {
      var last := |gpus| - 1;
      GpuAlertsIff(gpus[..last]);
      assert forall i :: 0 <= i < last ==> gpus[..last][i] == gpus[i];
    }
  }

  /** The alerts raised before the GPUs are looked at. */
  function SystemAlerts(stats: Stats): seq<Alert> {
    (if !stats.botRunning then [BotStopped] else [])
    + (if stats.memoryPercent > MemoryThreshold then [MemoryCritical] else [])
    + (if DiskOver(stats.diskUsed, stats.diskTotal) then [DiskCritical] else [])
    + (if stats.cpuPercent > CpuThreshold then [CpuCritical] else [])
  }

  /** The alert list `check_alerts` builds, in the order it checks. */
  function ExpectedAlerts(stats: Stats): (r: seq<Alert>)
    ensures LogTooLarge in r ==> r[|r| - 1] == LogTooLarge
    ensures forall j :: 0 <= j < |r| - 1 ==> r[j] != LogTooLarge
  {
    GpuAlertsOrdered(stats.gpuMemoryPercents);
    SystemAlerts(stats)
    + GpuAlerts(stats.gpuMemoryPercents)
    + (if LogSize(stats) > LogSizeThreshold then [LogTooLarge] else [])
  }

  /** `check_alerts`: appends one alert per exceeded threshold. */
  method CheckAlerts(stats: Stats) returns (alerts: seq<Alert>)
    ensures alerts == ExpectedAlerts(stats)
  {
    alerts := [];
    if !stats.botRunning {
      alerts := alerts + [BotStopped];
    }
    if stats.memoryPercent > MemoryThreshold {
      alerts := alerts + [MemoryCritical];
    }
    if DiskOver(stats.diskUsed, stats.diskTotal) {
      alerts := alerts + [DiskCritical];
    }
    if stats.cpuPercent > CpuThreshold {
      alerts := alerts + [CpuCritical];
    }
    assert alerts == SystemAlerts(stats);
    alerts := AppendGpuAlerts(alerts, stats.gpuMemoryPercents);
    if LogSize(stats) > LogSizeThreshold {
      alerts := alerts + [LogTooLarge];
    }
  }

  /** The GPU loop of `check_alerts`, which appends to the alerts so far. */
  method AppendGpuAlerts(start: seq<Alert>, gpus: seq<real>) returns (alerts: seq<Alert>)
    ensures alerts == start + GpuAlerts(gpus)
  {
    alerts := start;
    for i := 0 to |gpus|
      invariant alerts == start + GpuAlerts(gpus[..i])
    {
      if gpus[i] > GpuMemoryThreshold {
        alerts := alerts + [GpuMemoryCritical(i)];
      }
      assert gpus[..i + 1][..i] == gpus[..i];
    }
    assert gpus[..|gpus|] == gpus;
  }

  /** Each system alert is raised exactly when its reading is strictly over
    * its threshold, so a reading equal to the threshold raises nothing; a
    * missing log raises nothing. */
  lemma AlertIff(stats: Stats)
    ensures BotStopped in ExpectedAlerts(stats) <==> !stats.botRunning
    ensures MemoryCritical in ExpectedAlerts(stats) <==> stats.memoryPercent > 90.0
    ensures DiskCritical in ExpectedAlerts(stats) <==> stats.diskTotal > 0 && stats.diskUsed * 100 > 85 * stats.diskTotal
    ensures CpuCritical in ExpectedAlerts(stats) <==> stats.cpuPercent > 95.0
    ensures LogTooLarge in ExpectedAlerts(stats) <==> stats.logSizeMb.Some? && stats.logSizeMb.value > 100.0
  {
    var gpuAlerts := GpuAlerts(stats.gpuMemoryPercents);
    GpuAlertsOrdered(stats.gpuMemoryPercents);
    assert forall a :: a in gpuAlerts ==> a.GpuMemoryCritical?;
    var system := SystemAlerts(stats);
    assert BotStopped in system <==> !stats.botRunning;
    assert MemoryCritical in system <==> stats.memoryPercent > 90.0;
    assert DiskCritical in system <==> DiskOver(stats.diskUsed, stats.diskTotal);
    assert CpuCritical in system <==> stats.cpuPercent > 95.0;
    assert LogTooLarge !in system;
  }

  /** GPU `i` is reported exactly when it exists and its memory use is over 90%. */
  lemma GpuAlertIff(stats: Stats)
    ensures forall i: nat :: GpuMemoryCritical(i) in ExpectedAlerts(stats) <==>
      i < |stats.gpuMemoryPercents| && stats.gpuMemoryPercents[i] > 90.0
  {
    var log := if LogSize(stats) > LogSizeThreshold then [LogTooLarge] else [];
    assert ExpectedAlerts(stats) == SystemAlerts(stats) + GpuAlerts(stats.gpuMemoryPercents) + log;
    GpuAlertsIff(stats.gpuMemoryPercents);
  }

  /** A stopped bot is always the first alert reported. */
  lemma BotStoppedFirst(stats: Stats)
    requires !stats.botRunning
    ensures ExpectedAlerts(stats) != [] && ExpectedAlerts(stats)[0] == BotStopped
  {
  }

  /** GPU alerts come in increasing GPU order, so no GPU is reported twice. */
  lemma {:induction false} GpuAlertsOrdered(gpus: seq<real>)
    ensures forall j :: 0 <= j < |GpuAlerts(gpus)| ==>
      GpuAlerts(gpus)[j].GpuMemoryCritical? && GpuAlerts(gpus)[j].gpu < |gpus|
    ensures forall j, k :: 0 <= j < k < |GpuAlerts(gpus)| ==> GpuAlerts(gpus)[j].gpu < GpuAlerts(gpus)[k].gpu
  {
    if gpus != [] {
      GpuAlertsOrdered(gpus[..|gpus| - 1]);
    }
  }

  /** At most one alert per kind and one per GPU. */
  lemma AlertCountBound(stats: Stats)
    ensures |ExpectedAlerts(stats)| <= 5 + |stats.gpuMemoryPercents|
  {
  }

  /** The system is healthy exactly when every reading is within its threshold. */
  lemma {:induction false} HealthyIff(stats: Stats)
    ensures ExpectedAlerts(stats) == [] <==>
      stats.botRunning && stats.memoryPercent <= 90.0 && !DiskOver(stats.diskUsed, stats.diskTotal)
      && stats.cpuPercent <= 95.0 && (forall i :: 0 <= i < |stats.gpuMemoryPercents| ==> stats.gpuMemoryPercents[i] <= 90.0)
      && LogSize(stats) <= 100.0
  {
    AlertIff(stats);
    GpuAlertIff(stats);
    var gpuAlerts := GpuAlerts(stats.gpuMemoryPercents);
    if ExpectedAlerts(stats) == [] {
      assert gpuAlerts == [];
      forall i | 0 <= i < |stats.gpuMemoryPercents|
        ensures stats.gpuMemoryPercents[i] <= 90.0
      {
        assert GpuMemoryCritical(i) !in gpuAlerts;
      }
    } else if gpuAlerts != [] {
      GpuAlertsIff(stats.gpuMemoryPercents);
      assert gpuAlerts[0] in gpuAlerts;
    }
  }

  /** `monitor_once` followed by the exit of `main`: healthy when no alert
    * is raised, and exit status 0 exactly when healthy. */
  method MonitorOnce(stats: Stats) returns (healthy: bool, exitCode: int)
    ensures healthy <==> ExpectedAlerts(stats) == []
    ensures exitCode == (if healthy then 0 else 1)
  {
    var alerts := CheckAlerts(stats);
    healthy := |alerts| == 0;
    exitCode := if healthy then 0 else 1;
  }

  /** `format_uptime`'s split of a duration into whole hours and minutes. */
  function Uptime(seconds: nat): (r: (nat, nat))
    ensures r.1 < 60
    ensures r.0 * 3600 + r.1 * 60 <= seconds < r.0 * 3600 + r.1 * 60 + 60
  {
    (seconds / 3600, seconds % 3600 / 60)
  }

  /** `format_uptime`: `{hours}h{minutes:02d}m`. */
  function FormatUptime(seconds: nat): (r: string)
    ensures EndsWith(r, "m") && |r| >= 5 && r[|r| - 4] == 'h'
  {
    var (hours, minutes) := Uptime(seconds);
    NatToString(hours) + "h" + Pad2(minutes) + "m"
  }

  /** Reads hours and minutes back out of an uptime text. */
  function ReadUptime(r: string): Option<(nat, nat)> {
    if |r| >= 5 && r[|r| - 1] == 'm' && r[|r| - 4] == 'h'
      && AllDigits(r[..|r| - 4]) && AllDigits(r[|r| - 3..|r| - 1])
    then Some((Value(r[..|r| - 4]), Value(r[|r| - 3..|r| - 1])))
    else None
  }

  /** The uptime text states the hours and the two-digit minutes of the duration. */
  lemma UptimeRoundTrip(seconds: nat)
    ensures ReadUptime(FormatUptime(seconds)) == Some(Uptime(seconds))
  {
    var (hours, minutes) := Uptime(seconds);
    var h := NatToString(hours);
    var m := Pad2(minutes);
    var r := h + "h" + m + "m";
    assert r[..|r| - 4] == h;
    assert r[|r| - 3..|r| - 1] == m;
  }
}
