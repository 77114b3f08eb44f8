/** The process environment, as the scripts read it with `os.getenv`. */
module Environment {

  /** Environment variables by name; a name that is absent is unset. */
  type Env = map<string, string>

  /** `os.getenv(name, default)`: the value when the variable is set (even when
      it is set to the empty string), `default` otherwise. */
  function GetEnv(env: Env, name: string, default: string): string {
    if name in env then env[name] else default
  }
}
