/**
 * The alternative runner: the `--debug` switch, `setup_environment` (with
 * its hand-written `.env` reader for when python-dotenv is missing, and the
 * token check) and the exit status of `main`. The process environment is
 * an object whose variables the runner updates in place.
 */
module Run {
  import opened Wrappers
  import opened Text
  import opened Environment

  /** `s.split('=', 1)` on a string that holds an `=`: the text before the
    * first `=` and everything after it. */
  function SplitAtEquals(s: string): (r: (string, string))
    requires '=' in s
    ensures s == r.0 + "=" + r.1 && '=' !in r.0
  {
    if s[0] == '=' then ([], s[1..])
    else
      assert '=' in s[1..] by {
        var i :| 0 <= i < |s| && s[i] == '=';
        assert s[1..][i - 1] == '=';
      }
      var (key, value) := SplitAtEquals(s[1..]);
      ([s[0]] + key, value)
  }

  /**
   * One line of the hand-written `.env` reader: kept when its stripped form
   * is non-empty, the raw line does not begin with `#` and holds an `=`;
   * then split at the first `=` of the stripped line, so the key keeps any
   * blanks before the `=` and the value keeps every later `=`.
   */
  function ParseLine(line: string): (r: Option<(string, string)>)
    ensures r.Some? <==> Strip(line) != [] && !StartsWith(line, "#") && '=' in line
  {
    var s := Strip(line);
    if s != [] && !StartsWith(line, "#") && '=' in line then
      StripKeeps(line, '=');
      Some(SplitAtEquals(s))
    else None
  }

  /** A kept line's key and value are the stripped line cut at its first `=`. */
  lemma ParseLineSplits(line: string)
    requires ParseLine(line).Some?
    ensures Strip(line) == ParseLine(line).value.0 + "=" + ParseLine(line).value.1
    ensures '=' !in ParseLine(line).value.0
  {
    StripKeeps(line, '=');
  }

  /** Splitting at the first `=` has only one outcome. */
  lemma SplitUnique(k1: string, v1: string, k2: string, v2: string)
    requires '=' !in k1 && '=' !in k2
    requires k1 + "=" + v1 == k2 + "=" + v2
    ensures k1 == k2 && v1 == v2
  {
    var s := k1 + "=" + v1;
    assert |k1| == |k2| by {
      assert s[|k1|] == '=' && (k2 + "=" + v2)[|k2|] == '=';
    }
    assert k1 == s[..|k1|] == k2;
    assert v1 == s[|k1| + 1..] == v2;
  }

  /** A line whose text, between whitespace, has non-space ends and an `=`
    * is kept unless it begins with `#`, and strips back to that text. */
  lemma KeptLine(lead: string, t: string, trail: string)
    requires AllSpace(lead) && AllSpace(trail)
    requires t != [] && !IsSpace(t[0]) && !IsSpace(t[|t| - 1]) && '=' in t
    requires lead != [] || t[0] != '#'
    ensures Strip(lead + t + trail) == t
    ensures ParseLine(lead + t + trail).Some?
  {
    var line := lead + t + trail;
    StripSurrounded(lead, t, trail);
    StripKeeps(line, '=');
    assert line[0] == if lead == [] then t[0] else lead[0];
    StartsWithChar(line, '#');
  }

  /** A `KEY=value` line, whatever whitespace surrounds it, reads back as the
    * pair it was written from; an indented `#` does not make a comment. */
  lemma ParseLineRoundTrip(lead: string, key: string, value: string, trail: string)
    requires AllSpace(lead) && AllSpace(trail)
    requires key != [] && !IsSpace(key[0]) && '=' !in key
    requires value == [] || !IsSpace(value[|value| - 1])
    requires lead != [] || key[0] != '#'
    ensures ParseLine(lead + key + "=" + value + trail) == Some((key, value))
  {
    var t := key + "=" + value;
    var line := lead + t + trail;
    assert lead + key + "=" + value + trail == line;
    assert t[0] == key[0] && t[|key|] == '=';
    assert t[|t| - 1] == if value == [] then '=' else value[|value| - 1];
    KeptLine(lead, t, trail);
    var r := ParseLine(line);
    ParseLineSplits(line);
    SplitUnique(r.value.0, r.value.1, key, value);
  }

  /** What the reader makes of one line: nothing, or a key and a value. */
  type Entry = Option<(string, string)>

  /** What the reader makes of each line, in order. */
  function ParseLines(lines: seq<string>): (entries: seq<Entry>)
    ensures |entries| == |lines|
    ensures forall i :: 0 <= i < |lines| ==> entries[i] == ParseLine(lines[i])
  {
    seq(|lines|, i requires 0 <= i < |lines| => ParseLine(lines[i]))
  }

  /** The environment after the reader has gone through some lines, and
    * whether it got to the end: an empty key makes the assignment to
    * `os.environ` raise, which ends the reading there. */
  datatype Loading = Loading(env: Env, completed: bool)

  /** The entries assigned to `os.environ` one after the other. */
  function Assign(env: Env, entries: seq<Entry>): (r: Loading)
    ensures env.Keys <= r.env.Keys
    ensures forall k :: k in r.env && k !in env ==> exists i :: 0 <= i < |entries| && Names(entries[i], k)
    decreases |entries|
  {
    if entries == [] then Loading(env, true)
    else
      var rest := entries[1..];
      assert forall i :: 0 <= i < |rest| ==> rest[i] == entries[i + 1];
      match entries[0]
      case None => Assign(env, rest)
      case Some((key, value)) =>
        if key == [] then Loading(env, false) else Assign(env[key := value], rest)
  }

  /** The hand-written reader applied to the lines of `.env`, in order: it
    * only sets variables, and every variable it adds is the key of a line. */
  function LoadLines(env: Env, lines: seq<string>): (r: Loading)
    ensures env.Keys <= r.env.Keys
    ensures forall k :: k in r.env && k !in env ==> exists i :: 0 <= i < |lines| && Names(ParseLine(lines[i]), k)
  {
    Assign(env, ParseLines(lines))
  }

  /** Whether an entry assigns to `key`. */
  predicate Names(entry: Entry, key: string) {
    entry.Some? && entry.value.0 == key
  }

  /** The assignments all go through exactly when no entry has an empty key. */
  lemma {:induction false} AssignCompletedIff(env: Env, entries: seq<Entry>)
    ensures Assign(env, entries).completed <==> forall i :: 0 <= i < |entries| ==> !Names(entries[i], [])
    decreases |entries|
  {
    if entries != [] {
      assert forall i :: 1 <= i < |entries| ==> entries[i] == entries[1..][i - 1];
      match entries[0]
      case None => AssignCompletedIff(env, entries[1..]);
      case Some((key, value)) =>
        if key != [] {
          AssignCompletedIff(env[key := value], entries[1..]);
        }
    }
  }

  /** A variable no entry names keeps its value, or stays unset. */
  lemma {:induction false} AssignUntouched(env: Env, entries: seq<Entry>, key: string)
    requires forall i :: 0 <= i < |entries| ==> !Names(entries[i], key)
    ensures key in Assign(env, entries).env <==> key in env
    ensures key in env ==> Assign(env, entries).env[key] == env[key]
    decreases |entries|
  {
    if entries != [] {
      assert forall i :: 1 <= i < |entries| ==> entries[i] == entries[1..][i - 1];
      assert !Names(entries[0], key);
      match entries[0]
      case None => AssignUntouched(env, entries[1..], key);
      case Some((k, v)) =>
        if k != [] {
          AssignUntouched(env[k := v], entries[1..], key);
        }
    }
  }

  /** When the assignments all go through, a variable ends with the value
    * of the last entry that names it. */
  lemma {:induction false} AssignLastWins(env: Env, entries: seq<Entry>, i: nat, key: string, value: string)
    requires Assign(env, entries).completed
    requires i < |entries| && entries[i] == Some((key, value))
    requires forall j :: i < j < |entries| ==> !Names(entries[j], key)
    ensures key in Assign(env, entries).env && Assign(env, entries).env[key] == value
    decreases |entries|
  {
    var rest := entries[1..];
    assert forall j :: 0 <= j < |rest| ==> rest[j] == entries[j + 1];
    match entries[0]
    case None =>
      AssignLastWins(env, rest, i - 1, key, value);
    case Some((k, v)) =>
      if i == 0 {
        AssignUntouched(env[key := value], rest, key);
      } else {
        AssignLastWins(env[k := v], rest, i - 1, key, value);
      }
  }

  /** `load_dotenv()`: adds the variables python-dotenv read from `.env`,
    * leaving those already set alone. */
  function LoadDotenv(env: Env, parsed: Env): (r: Env)
    ensures r.Keys == env.Keys + parsed.Keys
    ensures forall k :: k in env ==> r[k] == env[k]
    ensures forall k :: k in parsed && k !in env ==> r[k] == parsed[k]
  {
    map k | k in env.Keys + parsed.Keys :: if k in env then env[k] else parsed[k]
  }

  /** The `.env` file as `setup_environment` meets it: absent, or present
    * with its lines and, when python-dotenv is installed, what python-dotenv
    * reads from it. */
  datatype EnvFile = NoEnvFile | EnvFile(dotenv: Option<Env>, lines: seq<string>)

  /** The environment `setup_environment` leaves, and whether loading got through. */
  function Setup(env: Env, file: EnvFile): (r: Loading)
    ensures env.Keys <= r.env.Keys
    ensures file.NoEnvFile? ==> r == Loading(env, true)
    ensures file.EnvFile? && file.dotenv.Some? ==>
      r.completed && forall k :: k in env ==> r.env[k] == env[k]
  {
    match file
    case NoEnvFile => Loading(env, true)
    case EnvFile(Some(parsed), _) => Loading(LoadDotenv(env, parsed), true)
    case EnvFile(None, lines) => LoadLines(env, lines)
  }

  const TokenKey: string := "TELEGRAM_BOT_TOKEN"
  const LogLevelKey: string := "LOG_LEVEL"

  /** How the bot started by `main` ends: stopped with Ctrl-C, returned, or raised. */
  datatype BotEnd = Interrupted | Returned | Crashed

  /** The process environment, which the runner updates in place. */
  class Environ {
    var vars: Env

    constructor (initial: Env)
      ensures vars == initial
    {
      vars := initial;
    }

    /** The fallback loop of `setup_environment`, line by line. */
    method LoadFallback(lines: seq<string>) returns (completed: bool)
      modifies this
      ensures Loading(vars, completed) == LoadLines(old(vars), lines)
    {
      ghost var entries := ParseLines(lines);
      var i := 0;
      while i < |lines|
        invariant 0 <= i <= |lines|
        invariant LoadLines(old(vars), lines) == Assign(vars, entries[i..])
      {
        assert entries[i..][1..] == entries[i + 1..];
        var parsed := ParseLine(lines[i]);
        if parsed.Some? {
          var (key, value) := parsed.value;
          if key == [] {
            return false;
          }
          vars := vars[key := value];
        }
        i := i + 1;
      }
      return true;
    }

    /** `setup_environment`: loads `.env` if there is one, then insists on a
      * non-empty TELEGRAM_BOT_TOKEN. The result is `None` when the run goes
      * on, and otherwise the exit status: 1 for a missing token, and 1 too
      * when the fallback reader raised. */
    method SetupEnvironment(file: EnvFile) returns (exit: Option<int>)
      modifies this
      ensures vars == Setup(old(vars), file).env
      ensures exit.None? <==> Setup(old(vars), file).completed && IsSet(vars, TokenKey)
      ensures exit.Some? ==> exit.value == 1
    {
      var completed := true;
      match file {
        case NoEnvFile =>
        case EnvFile(Some(parsed), _) =>
          vars := LoadDotenv(vars, parsed);
        case EnvFile(None, lines) =>
          completed := LoadFallback(lines);
      }
      if !completed {
        return Some(1);
      }
      if !IsSet(vars, TokenKey) {
        return Some(1);
      }
      return None;
    }

    /** `main`: `--debug` sets LOG_LEVEL before anything is loaded, then the
      * environment is set up and the dependencies checked; `--check` stops
      * there with status 0, otherwise the bot runs and only a crash gives 1. */
    method Launch(debug: bool, check: bool, file: EnvFile, dependenciesInstalled: bool, bot: BotEnd)
      returns (exitCode: int, botStarted: bool)
      modifies this
      ensures vars == Setup(if debug then old(vars)[LogLevelKey := "DEBUG"] else old(vars), file).env
      ensures botStarted <==>
        Setup(if debug then old(vars)[LogLevelKey := "DEBUG"] else old(vars), file).completed
        && IsSet(vars, TokenKey) && dependenciesInstalled && !check
      ensures exitCode == 0 <==>
        Setup(if debug then old(vars)[LogLevelKey := "DEBUG"] else old(vars), file).completed
        && IsSet(vars, TokenKey) && dependenciesInstalled && (check || bot != Crashed)
      ensures exitCode in {0, 1}
    {
      botStarted := false;
      if debug {
        vars := vars[LogLevelKey := "DEBUG"];
      }
      var exit := SetupEnvironment(file);
      if exit.Some? {
        return exit.value, false;
      }
      if !dependenciesInstalled {
        return 1, false;
      }
      if check {
        return 0, false;
      }
      botStarted := true;
      exitCode := if bot == Crashed then 1 else 0;
    }
  }

  /** With python-dotenv, `--debug` wins over a LOG_LEVEL in `.env`. */
  lemma DebugSurvivesDotenv(env: Env, parsed: Env, lines: seq<string>)
    ensures Setup(env[LogLevelKey := "DEBUG"], EnvFile(Some(parsed), lines)).env[LogLevelKey] == "DEBUG"
  {
  }

  /** With the fallback reader, a LOG_LEVEL line in `.env` wins over `--debug`. */
  lemma FallbackOverridesDebug(env: Env, lines: seq<string>, i: nat, level: string)
    requires LoadLines(env[LogLevelKey := "DEBUG"], lines).completed
    requires i < |lines| && ParseLine(lines[i]) == Some((LogLevelKey, level))
    requires forall j :: i < j < |lines| ==> !Names(ParseLine(lines[j]), LogLevelKey)
    ensures LogLevelKey in Setup(env[LogLevelKey := "DEBUG"], EnvFile(None, lines)).env
    ensures Setup(env[LogLevelKey := "DEBUG"], EnvFile(None, lines)).env[LogLevelKey] == level
  {
    AssignLastWins(env[LogLevelKey := "DEBUG"], ParseLines(lines), i, LogLevelKey, level);
  }
}
