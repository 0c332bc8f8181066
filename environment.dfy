/** The process environment (`os.environ`) as the configuration code reads it. */
module Environment {
  import opened Wrappers
  import opened Text

  /** Variable names to their values; a name absent from the map is unset. */
  type Env = map<string, string>

  /** `os.getenv(key)`: the value, or `None` when the variable is unset. */
  function Getenv(env: Env, key: string): Option<string> {
    if key in env then Some(env[key]) else None
  }

  /** `os.getenv(key, default)`. */
  function GetenvOr(env: Env, key: string, default: string): string {
    if key in env then env[key] else default
  }

  /** Python truthiness of `os.getenv(key)`: set to a non-empty string. */
  predicate IsSet(env: Env, key: string) {
    key in env && env[key] != ""
  }

  /** `int(os.getenv(key, default))`, or `None` where `int` raises ValueError. */
  function GetenvInt(env: Env, key: string, default: string): Option<int> {
    ParseInt(GetenvOr(env, key, default))
  }

  /** An unset variable takes the default numeral's value. */
  lemma GetenvIntDefault(env: Env, key: string, default: string, n: nat)
    requires key !in env && default == NatToString(n)
    ensures GetenvInt(env, key, default) == Some(n)
  {
    NumeralParses(n, default);
  }
}
