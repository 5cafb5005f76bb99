/** What the wrapper reads from the machine it runs on. Reading the
    environment and the platform name is done by the caller of the model;
    `path.join` is left uninterpreted. */
module Environment {
  import opened Wrappers

  /** `os.platform()`, as far as the wrapper tells platforms apart. */
  datatype Platform = Win32 | Darwin | Linux | OtherPlatform

  /** `process.env.JAVA_HOME` and `process.env.JRE_HOME`. */
  datatype Env = Env(javaHome: Option<string>, jreHome: Option<string>)

  /** The platform, the environment, the wrapper's own directory (`__dirname`)
      and `path.join`. */
  datatype Host = Host(platform: Platform, env: Env, installDir: string, join: seq<string> -> string)

  /** An environment variable is truthy when it is defined and not empty. */
  predicate IsSet(v: Option<string>) {
    v.Some? && v.value != ""
  }

  /** `path.join(home, 'bin', 'java')` */
  function JavaUnder(host: Host, home: string): string {
    host.join([home, "bin", "java"])
  }

  /** `x + suffix` for a variable that may still be `undefined`. */
  function Append(x: Option<string>, suffix: string): string {
    (if x.Some? then x.value else "undefined") + suffix
  }
}
