/** The standalone wrapper: a fixed `tdscli.jar`, a Java executable taken from
    JAVA_HOME or JRE_HOME on every platform, and one subcommand, `compile`. */
module TdsStandalone {
  import opened Wrappers
  import opened JsText
  import opened Options
  import opened Environment
  import opened ProcessOutput

  /** `tdscli.jar` in the wrapper's directory. */
  function JarPath(host: Host): string {
    host.join([host.installDir, "tdscli.jar"])
  }

  /** The value of `this.java` after `findJava`, given its value before. */
  function LocateJava(host: Host, prior: Option<string>): Option<string> {
    var found := if IsSet(host.env.javaHome) then Some(JavaUnder(host, host.env.javaHome.value))
                 else if IsSet(host.env.jreHome) then Some(JavaUnder(host, host.env.jreHome.value))
                 else prior;
    if host.platform == Win32 then Some(Append(found, ".exe")) else found
  }

  /** On every platform the executable is JAVA_HOME's `bin/java` when JAVA_HOME
      is set, else JRE_HOME's; with neither set it stays as it was (undefined
      for a fresh wrapper) except that win32 appends ".exe". */
  lemma HomeJava(host: Host, prior: Option<string>)
    ensures var suffix := if host.platform == Win32 then ".exe" else "";
            (IsSet(host.env.javaHome) ==>
               LocateJava(host, prior) == Some(JavaUnder(host, host.env.javaHome.value) + suffix)) &&
            (!IsSet(host.env.javaHome) && IsSet(host.env.jreHome) ==>
               LocateJava(host, prior) == Some(JavaUnder(host, host.env.jreHome.value) + suffix))
    ensures !IsSet(host.env.javaHome) && !IsSet(host.env.jreHome) && prior.None? ==>
              LocateJava(host, prior) == if host.platform == Win32 then Some("undefined.exe") else None
  {
    assert Append(None, ".exe") == "undefined.exe";
    if host.platform != Win32 {
      assert forall x: string :: x + "" == x;
    }
  }

  /** When JAVA_HOME is set, JRE_HOME makes no difference. */
  lemma JavaHomePrecedence(host: Host, jreHome: Option<string>, prior: Option<string>)
    requires IsSet(host.env.javaHome)
    ensures LocateJava(host, prior) == LocateJava(host.(env := host.env.(jreHome := jreHome)), prior)
  {
  }

  /** With a home variable set, the win32 path is the path any other platform
      gets, followed by ".exe", and only win32 adds it. */
  lemma ExeOnlyOnWin32(host: Host, prior: Option<string>, other: Platform)
    requires IsSet(host.env.javaHome) || IsSet(host.env.jreHome)
    requires other != Win32
    ensures LocateJava(host.(platform := Win32), prior) ==
            Some(LocateJava(host.(platform := other), prior).value + ".exe")
  {
  }

  class TDS {
    var java: Option<string>

    constructor (host: Host)
      ensures java == LocateJava(host, None)
    {
      java := None;
      new;
      FindJava(host);
    }

    /** `findJava()` */
    method FindJava(host: Host)
      modifies this`java
      ensures java == LocateJava(host, old(java))
    {
      if IsSet(host.env.javaHome) {
        java := Some(JavaUnder(host, host.env.javaHome.value));
      } else if IsSet(host.env.jreHome) {
        java := Some(JavaUnder(host, host.env.jreHome.value));
      }
      if host.platform == Win32 {
        java := Some(Append(java, ".exe"));
      }
    }

    /** `_get_args(target, options)` with the fixed jar. */
    method GetArgs(host: Host, target: string, opts: OptionObject) returns (args: seq<string>)
      requires opts.Valid() && ServerTypeReadable(opts.entries)
      modifies opts
      ensures opts.Valid() && opts.entries == Normalised(old(opts.entries))
      ensures args == ArgVector(JarPath(host), target, opts.entries)
    {
      args := ["-Dfile.encoding=UTF-8", "-jar", host.join([host.installDir, "tdscli.jar"])];
      args := args + [target];
      ChangeOptions(opts);
      args := SerialiseOptions(args, opts.entries);
    }

    /** `compile(options)` up to the child's exit: the command line for the
        `compile` subcommand and how the promise settles on the close code. */
    method Compile(host: Host, opts: OptionObject, closeCode: Option<int>)
      returns (args: seq<string>, outcome: Outcome)
      requires opts.Valid() && ServerTypeReadable(opts.entries)
      modifies opts
      ensures opts.Valid() && opts.entries == Normalised(old(opts.entries))
      ensures args == ArgVector(JarPath(host), "compile", opts.entries)
      ensures outcome == Settle(closeCode)
    {
      args := GetArgs(host, "compile", opts);
      outcome := Settle(closeCode);
    }

    /** The stdout `data` handler, given the chunk after its banner
        replacements: echoed whenever it is not blank, there is no silent flag. */
    method OnStdoutData(out: string) returns (echo: Option<string>)
      ensures echo == Echo(false, out)
      ensures echo.Some? <==> exists i | 0 <= i < |out| :: !IsWhiteSpace(out[i])
      ensures echo.Some? ==> echo.value == out
    {
      echo := Echo(false, out);
      EchoRule(false, out);
    }

    /** The stderr `data` handler: filtered, then echoed whenever it is not blank. */
    method OnStderrData(chunk: string) returns (echo: Option<string>)
      ensures echo == StderrEcho(false, chunk)
      ensures echo.Some? <==> exists i | 0 <= i < |FilterNls(chunk)| :: !IsWhiteSpace(FilterNls(chunk)[i])
      ensures echo.Some? ==> echo.value == FilterNls(chunk)
    {
      echo := StderrEcho(false, chunk);
      EchoRule(false, FilterNls(chunk));
    }
  }
}
