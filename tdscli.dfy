/** The versioned wrapper: a `TDS` object holding its options (silent, debug,
    jar version) and the Java executable it found, which builds the command
    line for one of seven subcommands and settles on the child's exit code. */
module Tdscli {
  import opened Wrappers
  import opened JsText
  import opened Options
  import opened Environment
  import opened ProcessOutput

  // ---------------------------------------------------------------------------
  // versions and default options

  datatype JarVersion = V11_3 | V11_4

  const DefaultVersion: JarVersion := V11_4
  const SupportedVersions: seq<JarVersion> := [V11_3, V11_4]

  function VersionText(v: JarVersion): string {
    match v
    case V11_3 => "11.3"
    case V11_4 => "11.4"
  }

  /** The supported version `v` is `===` to, if any
      (`SUPORTED_VERSIONS.indexOf(v) !== -1`). */
  function SupportedVersion(v: Value): (r: Option<JarVersion>)
    ensures r.Some? ==> r.value in SupportedVersions && v == Num(VersionText(r.value))
    ensures r.None? ==> forall w | w in SupportedVersions :: v != Num(VersionText(w))
  {
    if v == Num("11.3") then Some(V11_3)
    else if v == Num("11.4") then Some(V11_4)
    else None
  }

  /** `DEFAULT_OPTIONS` */
  const DefaultOptions: seq<Entry> :=
    [Entry("silent", Bool(false)), Entry("debug", Bool(false)), Entry("version", Num(VersionText(DefaultVersion)))]

  /** `options || {}` for an options object that may be missing. */
  function Supplied(given: Option<seq<Entry>>): seq<Entry> {
    if given.Some? then given.value else []
  }

  /** The options the constructor keeps: `Object.assign({}, DEFAULT_OPTIONS,
      options || {})`, with an unsupported version replaced by the default. */
  function Configured(given: Option<seq<Entry>>): seq<Entry> {
    var merged := AssignAll(AssignAll([], DefaultOptions), Supplied(given));
    if SupportedVersion(Get(merged, "version")).Some? then merged
    else Assigned(merged, "version", Num(VersionText(DefaultVersion)))
  }

  /** The jar version selected by the caller's options: the requested one when
      it is supported, the default otherwise (also when none is requested). */
  function EffectiveVersion(given: Option<seq<Entry>>): (v: JarVersion)
    ensures forall w | w in SupportedVersions :: Lookup(Supplied(given), "version") == Some(Num(VersionText(w))) ==> v == w
    ensures (forall w | w in SupportedVersions :: Lookup(Supplied(given), "version") != Some(Num(VersionText(w)))) ==>
              v == DefaultVersion
  {
    match Lookup(Supplied(given), "version")
    case Some(r) => (match SupportedVersion(r) case Some(w) => w case None => DefaultVersion)
    case None => DefaultVersion
  }

  lemma DefaultsCopied()
    ensures AssignAll([], DefaultOptions) == DefaultOptions
  {
    AssignAllFresh([], DefaultOptions);
  }

  /** The constructor's options: silent, debug and version come first; silent
      and debug are the caller's or false; version is the effective version;
      every other key is the caller's. */
  lemma ConfiguredOptions(given: Option<seq<Entry>>, k: string)
    requires given.Some? ==> DistinctKeys(given.value)
    ensures DistinctKeys(Configured(given))
    ensures |Configured(given)| >= 3 && Keys(Configured(given))[..3] == ["silent", "debug", "version"]
    ensures Lookup(Configured(given), "silent") ==
            Some(if Lookup(Supplied(given), "silent").Some? then Lookup(Supplied(given), "silent").value else Bool(false))
    ensures Lookup(Configured(given), "debug") ==
            Some(if Lookup(Supplied(given), "debug").Some? then Lookup(Supplied(given), "debug").value else Bool(false))
    ensures Lookup(Configured(given), "version") == Some(Num(VersionText(EffectiveVersion(given))))
    ensures k != "silent" && k != "debug" && k != "version" ==> Lookup(Configured(given), k) == Lookup(Supplied(given), k)
  {
    var g := Supplied(given);
    var d := DefaultOptions;
    DefaultsCopied();
    var merged := AssignAll(d, g);
    assert Keys(d) == ["silent", "debug", "version"];
    LookupAt(d, 0);
    LookupAt(d, 1);
    LookupAt(d, 2);
    if k != "silent" && k != "debug" && k != "version" {
      LookupAbsent(d, k);
    }
    AssignAllKeepsTarget(d, g);
    AssignAllLookup(d, g, k);
    AssignAllLookup(d, g, "silent");
    AssignAllLookup(d, g, "debug");
    AssignAllLookup(d, g, "version");
    assert Keys(merged)[..3] == Keys(d);
    assert "version" in Keys(merged) by {
      assert Keys(merged)[2] == "version";
    }
    var v := Num(VersionText(DefaultVersion));
    assert Configured(given) ==
           if SupportedVersion(Get(merged, "version")).Some? then merged else Assigned(merged, "version", v);
    assert Lookup(merged, "version") ==
           if Lookup(g, "version").Some? then Lookup(g, "version") else Some(v);
    AssignedKeys(merged, "version", v);
    AssignedDistinct(merged, "version", v);
    AssignedLookup(merged, "version", v, k);
    AssignedLookup(merged, "version", v, "silent");
    AssignedLookup(merged, "version", v, "debug");
    AssignedLookup(merged, "version", v, "version");
  }

  /** `tdscli-<version>.jar` in the wrapper's directory. */
  function JarPath(host: Host, v: JarVersion): string {
    host.join([host.installDir, "tdscli-" + VersionText(v) + ".jar"])
  }

  // ---------------------------------------------------------------------------
  // locating Java

  /** The value of `this.java` after `findJava`, given its value before. */
  function LocateJava(host: Host, prior: Option<string>): Option<string> {
    match host.platform
    case Win32 =>
      var found := if IsSet(host.env.javaHome) then Some(JavaUnder(host, host.env.javaHome.value))
                   else if IsSet(host.env.jreHome) then Some(JavaUnder(host, host.env.jreHome.value))
                   else prior;
      Some(Append(found, ".exe"))
    case Darwin => Some("java")
    case Linux => Some("java")
    case OtherPlatform => prior
  }

  /** On win32 the executable is JAVA_HOME's, else JRE_HOME's, `bin/java`, with
      `.exe` appended; with neither set, `.exe` is appended to whatever was
      there, so a fresh wrapper gets "undefined.exe". */
  lemma Win32Java(host: Host, prior: Option<string>)
    requires host.platform == Win32
    ensures LocateJava(host, prior).Some? && EndsWith(LocateJava(host, prior).value, ".exe")
    ensures IsSet(host.env.javaHome) ==>
              LocateJava(host, prior) == Some(JavaUnder(host, host.env.javaHome.value) + ".exe")
    ensures !IsSet(host.env.javaHome) && IsSet(host.env.jreHome) ==>
              LocateJava(host, prior) == Some(JavaUnder(host, host.env.jreHome.value) + ".exe")
    ensures !IsSet(host.env.javaHome) && !IsSet(host.env.jreHome) && prior.None? ==>
              LocateJava(host, prior) == Some("undefined.exe")
  {
    var r := LocateJava(host, prior).value;
    assert r[|r| - 4..] == ".exe";
    assert Append(None, ".exe") == "undefined.exe";
  }

  /** On darwin and linux the executable is `java`, found on the PATH,
      whatever the environment says; on any other platform nothing is set. */
  lemma UnixJava(host: Host, prior: Option<string>)
    ensures host.platform == Darwin || host.platform == Linux ==> LocateJava(host, prior) == Some("java")
    ensures host.platform == OtherPlatform ==> LocateJava(host, prior) == prior
  {
  }

  /** When JAVA_HOME is set, JRE_HOME makes no difference. */
  lemma JavaHomePrecedence(host: Host, jreHome: Option<string>, prior: Option<string>)
    requires IsSet(host.env.javaHome)
    ensures LocateJava(host, prior) == LocateJava(host.(env := host.env.(jreHome := jreHome)), prior)
  {
  }

  /** Calling `findJava` again changes nothing, except on win32 with neither
      variable set, where every call appends another ".exe". */
  lemma RelocateJava(host: Host, prior: Option<string>)
    ensures LocateJava(host, LocateJava(host, prior)) == LocateJava(host, prior) <==>
            !(host.platform == Win32 && !IsSet(host.env.javaHome) && !IsSet(host.env.jreHome))
  {
    if host.platform == Win32 && !IsSet(host.env.javaHome) && !IsSet(host.env.jreHome) {
      var once := LocateJava(host, prior);
      assert |LocateJava(host, once).value| == |once.value| + 4;
    }
  }

  // ---------------------------------------------------------------------------
  // subcommands

  datatype Command = Compile | Remove | GeneratePatch | ApplyPatch | ListPatch | DefragRPO | ClearLog

  /** The subcommand name each public method passes to `_exec`. */
  function CommandName(c: Command): string {
    match c
    case Compile => "compile"
    case Remove => "deleteProg"
    case GeneratePatch => "patchgen"
    case ApplyPatch => "patchapply"
    case ListPatch => "patchinfo"
    case DefragRPO => "defragRPO"
    case ClearLog => "clearLog"
  }

  /** Different methods run different subcommands. */
  lemma CommandNamesDistinct(c: Command, c': Command)
    ensures CommandName(c) == CommandName(c') ==> c == c'
  {
  }

  /** Two methods called with the same options spawn the same command line only
      when they are the same method: the subcommand at position 3 tells them apart. */
  lemma ArgsDistinguishCommands(jarPath: string, c: Command, c': Command, es: seq<Entry>)
    ensures ArgVector(jarPath, CommandName(c), es) == ArgVector(jarPath, CommandName(c'), es) <==> c == c'
  {
    if ArgVector(jarPath, CommandName(c), es) == ArgVector(jarPath, CommandName(c'), es) {
      assert ArgVector(jarPath, CommandName(c), es)[3] == CommandName(c);
      assert ArgVector(jarPath, CommandName(c'), es)[3] == CommandName(c');
      CommandNamesDistinct(c, c');
    }
  }

  // ---------------------------------------------------------------------------
  // the wrapper object

  class TDS {
    var java: Option<string>
    var options: seq<Entry>
    var stdout: string
    var stderr: string

    ghost predicate Valid()
      reads this
    {
      DistinctKeys(options) && SupportedVersion(Get(options, "version")).Some?
    }

    /** The jar version in use. */
    function Version(): JarVersion
      reads this
      requires Valid()
    {
      SupportedVersion(Get(options, "version")).value
    }

    /** `this.options.silent`, as a condition. */
    predicate Silent()
      reads this
    {
      Truthy(Get(options, "silent"))
    }

    constructor (host: Host, given: Option<seq<Entry>>)
      requires given.Some? ==> DistinctKeys(given.value)
      ensures Valid()
      ensures java == LocateJava(host, None)
      ensures options == Configured(given)
      ensures Version() == EffectiveVersion(given)
      ensures stdout == "" && stderr == ""
    {
      java := None;
      options := AssignAll(AssignAll([], DefaultOptions), Supplied(given));
      stdout := "";
      stderr := "";
      new;
      FindJava(host);
      if SupportedVersion(Get(options, "version")).None? {
        options := Assigned(options, "version", Num(VersionText(DefaultVersion)));
      }
      ConfiguredOptions(given, "version");
    }

    /** `findJava()` */
    method FindJava(host: Host)
      modifies this`java
      ensures java == LocateJava(host, old(java))
    {
      match host.platform {
        case Win32 =>
          if IsSet(host.env.javaHome) {
            java := Some(JavaUnder(host, host.env.javaHome.value));
          } else if IsSet(host.env.jreHome) {
            java := Some(JavaUnder(host, host.env.jreHome.value));
          }
          java := Some(Append(java, ".exe"));
        case Darwin =>
          java := Some("java");
        case Linux =>
          java := Some("java");
        case OtherPlatform =>
      }
    }

    /** `_get_args(target, options)`: normalises the caller's options in place
        and returns the command line that follows the Java executable. */
    method GetArgs(host: Host, target: string, opts: OptionObject) returns (args: seq<string>)
      requires Valid() && opts.Valid() && ServerTypeReadable(opts.entries)
      modifies opts
      ensures opts.Valid() && opts.entries == Normalised(old(opts.entries))
      ensures args == ArgVector(JarPath(host, Version()), target, opts.entries)
    {
      args := ["-Dfile.encoding=UTF-8", "-jar", host.join([host.installDir, "tdscli-" + Text(Get(options, "version")) + ".jar"])];
      args := args + [target];
      ChangeOptions(opts);
      args := SerialiseOptions(args, opts.entries);
    }

    /** `_exec(command, options)` up to the child's exit: the command line it
        spawns with, the emptied buffers, and how the promise settles on the
        code the `close` event reports. */
    method Exec(host: Host, command: string, opts: OptionObject, closeCode: Option<int>)
      returns (args: seq<string>, outcome: Outcome)
      requires Valid() && opts.Valid() && ServerTypeReadable(opts.entries)
      modifies this`stdout, this`stderr, opts
      ensures Valid() && opts.Valid() && opts.entries == Normalised(old(opts.entries))
      ensures args == ArgVector(JarPath(host, Version()), command, opts.entries)
      ensures stdout == "" && stderr == ""
      ensures outcome == Settle(closeCode)
    {
      args := GetArgs(host, command, opts);
      stdout := "";
      stderr := "";
      outcome := Settle(closeCode);
    }

    /** `compile`, `remove`, `generatePatch`, `applyPatch`, `listPatch`,
        `defragRPO` and `clearLog`. */
    method Run(host: Host, command: Command, opts: OptionObject, closeCode: Option<int>)
      returns (args: seq<string>, outcome: Outcome)
      requires Valid() && opts.Valid() && ServerTypeReadable(opts.entries)
      modifies this`stdout, this`stderr, opts
      ensures Valid() && opts.Valid() && opts.entries == Normalised(old(opts.entries))
      ensures args == ArgVector(JarPath(host, Version()), CommandName(command), opts.entries)
      ensures stdout == "" && stderr == ""
      ensures outcome == Settle(closeCode)
    {
      args, outcome := Exec(host, CommandName(command), opts, closeCode);
    }

    /** The stdout `data` handler as written, given the chunk after its banner
        replacements: it echoes, and the wrapper's own buffer is left alone
        (inside the handler `this` is the stream). */
    method OnStdoutData(out: string) returns (echo: Option<string>)
      ensures echo == Echo(Silent(), out)
      ensures echo.Some? <==> !Silent() && exists i | 0 <= i < |out| :: !IsWhiteSpace(out[i])
      ensures echo.Some? ==> echo.value == out
    {
      echo := Echo(Silent(), out);
      EchoRule(Silent(), out);
    }

    /** The stderr `data` handler as written: filters, echoes, and leaves the
        wrapper's own buffer alone. */
    method OnStderrData(chunk: string) returns (echo: Option<string>)
      ensures echo == StderrEcho(Silent(), chunk)
      ensures echo.Some? <==> !Silent() && exists i | 0 <= i < |FilterNls(chunk)| :: !IsWhiteSpace(FilterNls(chunk)[i])
      ensures echo.Some? ==> echo.value == FilterNls(chunk)
    {
      echo := StderrEcho(Silent(), chunk);
      EchoRule(Silent(), FilterNls(chunk));
    }

    /** The stdout handler as evidently intended: the filtered chunk is also
        added to the wrapper's buffer. */
    method OnStdoutDataBuffered(out: string) returns (echo: Option<string>)
      modifies this`stdout
      ensures stdout == old(stdout) + out
      ensures echo == Echo(Silent(), out)
    {
      stdout := stdout + out;
      echo := OnStdoutData(out);
    }

    /** The stderr handler as evidently intended. */
    method OnStderrDataBuffered(chunk: string) returns (echo: Option<string>)
      modifies this`stderr
      ensures stderr == old(stderr) + FilterNls(chunk)
      ensures echo == StderrEcho(Silent(), chunk)
    {
      var err := FilterNls(chunk);
      stderr := stderr + err;
      echo := OnStderrData(chunk);
    }
  }

  // ---------------------------------------------------------------------------
  // the lost output buffers

  lemma ChunkPassesFilter()
    ensures FilterNls("error") == "error" && Trim("error") == "error"
  {
    assert LineLength("error") == 5 by {
      assert "error"[1..] == "rror" && "rror"[1..] == "ror" && "ror"[1..] == "or" && "or"[1..] == "r";
      assert "r"[1..] == "";
    }
    assert "error"[..5] == "error";
    assert TrimStart("error") == "error";
    assert TrimEnd("error") == "error";
  }

  /** As written, a fresh wrapper echoes a stdout chunk yet its `stdout`
      buffer stays empty. */
  method StdoutBufferStaysEmpty(host: Host) returns (buffered: string, echoed: Option<string>)
    ensures echoed == Some("error") && buffered == ""
  {
    var tds := new TDS(host, None);
    ConfiguredOptions(None, "");
    ChunkPassesFilter();
    echoed := tds.OnStdoutData("error");
    buffered := tds.stdout;
  }

  /** With the intended handler the same chunk lands in the buffer. */
  method StdoutBufferCollects(host: Host) returns (buffered: string, echoed: Option<string>)
    ensures echoed == Some("error") && buffered == "error"
  {
    var tds := new TDS(host, None);
    ConfiguredOptions(None, "");
    ChunkPassesFilter();
    echoed := tds.OnStdoutDataBuffered("error");
    buffered := tds.stdout;
  }

  /** As written, a fresh wrapper echoes a stderr chunk yet its `stderr`
      buffer stays empty. */
  method StderrBufferStaysEmpty(host: Host) returns (buffered: string, echoed: Option<string>)
    ensures echoed == Some("error") && buffered == ""
  {
    var tds := new TDS(host, None);
    ConfiguredOptions(None, "");
    ChunkPassesFilter();
    echoed := tds.OnStderrData("error");
    buffered := tds.stderr;
  }

  /** With the intended handler the same chunk lands in the buffer. */
  method StderrBufferCollects(host: Host) returns (buffered: string, echoed: Option<string>)
    ensures echoed == Some("error") && buffered == "error"
  {
    var tds := new TDS(host, None);
    ConfiguredOptions(None, "");
    ChunkPassesFilter();
    echoed := tds.OnStderrDataBuffered("error");
    buffered := tds.stderr;
  }
}
