# tdscli wrapper model

A Dafny model of the deterministic core of two Node.js wrappers around the TDS
command-line jar (`tdscli.js`, the versioned wrapper, and `tds_standalone.js`,
the standalone one). Each wrapper is a `TDS` class that locates a Java
executable, normalises the caller's options object in place, builds the
command line for the jar, filters and echoes the child's output, and settles a
promise on the child's exit code.

Modules:

- `Wrappers` — `Option`.
- `JsText` — the JavaScript string operations the wrappers rely on:
  `Array.prototype.indexOf` and `join`, `toUpperCase` (ASCII letters), `trim`
  (ECMAScript white space and line terminators) and the decimal rendering of an
  integer. `Split` and `ParseInt` are not used by the wrappers; they state the
  round trips of `join(";")` and of the exit-code text.
- `Environment` — the platform, `JAVA_HOME`/`JRE_HOME`, the wrapper's install
  directory and `path.join`, all passed in as a `Host` value; `path.join` is an
  uninterpreted function field.
- `Options` — a JavaScript options object as an ordered sequence of keyed
  entries (the order `Object.keys` reports), with `Object.assign`, property
  assignment, `changeOptions` (a method mutating an `OptionObject` in place,
  proved against the function `Normalised`) and the token loop of `_get_args`
  (a method with a `while` loop, proved against `OptionTokens`). Both wrappers
  share this code, which is identical in the two files.
- `ProcessOutput` — the multiline stderr filter that blanks
  `Warning: NLS unused message: ` lines, the echo condition, and the
  `close`-code settlement.
- `Tdscli` — the versioned wrapper: default options, version fallback to 11.4,
  `tdscli-<version>.jar`, the platform switch in `findJava`, the seven
  subcommands and the `_exec` settlement.
- `TdsStandalone` — the standalone wrapper: fixed `tdscli.jar`, the
  platform-independent HOME lookup with `.exe` only on win32, and `compile`.

JavaScript numbers appear as `Num(repr)`, where `repr` is their `String()`
form; the supported versions are the tags `V11_3` and `V11_4`. A close code is
`Option<int>`, `None` standing for the `null` Node reports for a child killed by
a signal.

## Model

| member | source | states |
|---|---|---|
| JsText.IndexOf | tdscli.js:124 | -1 exactly when the key is absent; otherwise the position of its first occurrence |
| JsText.ToUpper | tdscli.js:169 | upper-casing keeps the length of the string |
| JsText.ToUpperAdvpl | tdscli.js:169 | a `serverType` upper-cases to ADVPL exactly when it is the five letters A, D, V, P, L, each in either case |
| JsText.TrimEmpty | tds_standalone.js:45 | a trimmed text is empty exactly when every character is white space or a line terminator |
| JsText.SplitJoin | tdscli.js:133 | joining the pieces of a split with the separator gives back the original string |
| JsText.JoinSplit | tdscli.js:133 | splitting a `;`-join of pieces free of `;` gives back the pieces |
| JsText.NatText | tdscli.js:102 | the decimal rendering of a natural number is made of digits only |
| JsText.IntTextRoundTrip | tdscli.js:102 | the decimal text of an exit code parses back to that code |
| Options.AssignedLookup | tdscli.js:27 | after assigning a property it reads the new value; every other property reads as before |
| Options.AssignedKeys | tdscli.js:174 | assigning an existing property keeps the key order; a new property is appended last |
| Options.AssignAllLookup | tdscli.js:22 | after `Object.assign` a key reads the source's value when the source has it, else the target's |
| Options.AssignAllKeepsTarget | tdscli.js:22 | `Object.assign` keeps the target's keys first, in their order, and keeps keys distinct |
| Options.AssignAllFresh | tdscli.js:22 | assigning onto an object that has none of the source's keys appends the source's properties in their order, so onto `{}` it copies them |
| Options.Normalised | tdscli.js:167-176 | normalising adds, removes and reorders no property |
| Options.ServerTypeRule | tds_standalone.js:127-130 | a string `serverType` whose upper case is not ADVPL becomes "4GL"; an ADVPL case variant, an undefined one and a missing one are left exactly as they were |
| Options.RecompileRule | tds_standalone.js:132-134 | `recompile` true becomes "t", false becomes "f", any other value is left as it was |
| Options.OtherKeysUnchanged | tdscli.js:167-176 | every property other than `serverType` and `recompile` reads the same after normalising |
| Options.NormaliseIdempotent | tds_standalone.js:126-135 | normalising twice gives what normalising once gives |
| Options.OptionObject.Set | tdscli.js:170 | a property assignment on the caller's object replaces the value in place or appends the new key |
| Options.ChangeOptions | tdscli.js:167-176 | the caller's object is changed in place to exactly its normalised form and keeps distinct keys |
| Options.KeptKeys | tdscli.js:123-127 | `Object.keys` with the first `workspace` spliced out are exactly the keys of the properties other than `workspace`, in order |
| Options.SerialiseOptions | tdscli.js:129-140 | the loop appends one token per key other than `workspace`, in key order, to the arguments it is given |
| Options.ArgVectorShape | tdscli.js:113-119 | the command line begins with the encoding flag, `-jar`, the jar and the subcommand, and has one more element per key other than `workspace` |
| Options.TokenPosition | tdscli.js:123-140 | the property at position i yields its token at position 4+i, one earlier when `workspace` came before it |
| Options.WorkspaceIgnored | tds_standalone.js:82-86 | whatever `workspace` is set to, the option tokens are the same |
| Options.NoWorkspaceToken | tds_standalone.js:82-99 | no token begins with `workspace=` (given that no key itself does) |
| Options.EntryToken | tds_standalone.js:88-99 | every property other than `workspace` contributes its `key=value` token |
| Options.TokenFrom | tds_standalone.js:88-99 | conversely, every token is the `key=value` token of some property other than `workspace` |
| Options.NoKeyToken | tds_standalone.js:88-99 | with no property `k` (or `k` being `workspace`), no token begins with `k=` (given that no key itself does) |
| Options.AbsentOptionNoToken | tdscli.js:121-140 | without a `recompile` property there is no `recompile=` token, and without a `serverType` property no `serverType=` token, after normalising |
| Options.ArrayToken | tdscli.js:132-133 | an array token is `key=` followed by the elements joined with `;`, which split back into the elements |
| Options.NormalisedTokens | tdscli.js:121-140 | tokens carry normalised values: `recompile=t`, `recompile=f`, `serverType=4GL` or the ADVPL variant as given |
| ProcessOutput.LineEnd | tds_standalone.js:52 | a line, as the multiline `^` and `$` see it, holds no line terminator and ends at the first terminator or at the end of the chunk |
| ProcessOutput.FilterNlsLines | tds_standalone.js:52 | the filter keeps the number of lines and every line terminator, blanks each NLS warning line and leaves every other line as it was |
| ProcessOutput.FilterNlsIdempotent | tds_standalone.js:52 | filtering twice gives what filtering once gives |
| ProcessOutput.FilterNlsKeeps | tdscli.js:91 | a chunk with no NLS warning line passes unchanged |
| ProcessOutput.FilterNlsWarningsOnly | tdscli.js:91 | a chunk of NLS warning lines and empty lines becomes its line terminators alone |
| ProcessOutput.BreaksAreWhiteSpace | tds_standalone.js:54 | every line terminator of a chunk is white space for `trim` |
| ProcessOutput.EchoRule | tdscli.js:84-86 | text is echoed, unchanged, exactly when the wrapper is not silent and some character is not white space |
| ProcessOutput.WarningsNeverEchoed | tds_standalone.js:50-56 | a stderr chunk made only of NLS warnings and empty lines is never echoed |
| ProcessOutput.Settle | tdscli.js:100-107 | the promise resolves exactly when the code is 0; a rejection's message begins "Tdscli process exited with code " |
| ProcessOutput.SettleReportsCode | tds_standalone.js:59-66 | for any code other than 0 the rejection message ends with that code (or `null`), which reads back as the code |
| Tdscli.SupportedVersion | tdscli.js:8-9 | a value is supported exactly when it is the number 11.3 or 11.4 |
| Tdscli.EffectiveVersion | tdscli.js:26-28 | a supported requested version is kept; anything else, or nothing, gives 11.4 |
| Tdscli.DefaultsCopied | tdscli.js:11-15 | the defaults copied onto `{}` are silent false, debug false, version 11.4 |
| Tdscli.ConfiguredOptions | tdscli.js:22-28 | the options kept begin with silent, debug, version; silent and debug are the caller's or false; version is the effective version; every other option is the caller's |
| Tdscli.Win32Java | tdscli.js:147-157 | on win32 the path is JAVA_HOME's, else JRE_HOME's, `bin/java` with ".exe"; with neither set a fresh wrapper gets "undefined.exe" |
| Tdscli.UnixJava | tdscli.js:158-163 | on darwin and linux the executable is exactly `java`; other platforms leave it as it was |
| Tdscli.JavaHomePrecedence | tdscli.js:148-153 | with JAVA_HOME set, JRE_HOME does not matter |
| Tdscli.RelocateJava | tdscli.js:145-165 | a second `findJava` changes nothing exactly when the platform is not win32 without a HOME variable |
| Tdscli.CommandNamesDistinct | tdscli.js:31-57 | the seven public methods run seven different subcommands |
| Tdscli.ArgsDistinguishCommands | tdscli.js:31-57 | with the same options, two methods spawn the same command line exactly when they are the same method |
| Tdscli.TDS.constructor | tdscli.js:19-29 | the new wrapper holds the located Java, the configured options with the effective version, and empty buffers |
| Tdscli.TDS.FindJava | tdscli.js:145-165 | `this.java` becomes the located executable for the host and its previous value |
| Tdscli.TDS.GetArgs | tdscli.js:112-143 | the caller's options are normalised in place and the command line uses `tdscli-<version>.jar` and the normalised tokens |
| Tdscli.TDS.Exec | tdscli.js:59-110 | `_exec` spawns with that command line, empties both buffers and settles on the close code |
| Tdscli.TDS.Run | tdscli.js:31-66 | each public method is `_exec` with its subcommand name: the command line for that subcommand, both buffers emptied, settled on the close code |
| Tdscli.TDS.OnStdoutData | tdscli.js:77-87 | a filtered stdout chunk is echoed by the echo rule with the wrapper's silent flag; the wrapper is not changed |
| Tdscli.TDS.OnStderrData | tdscli.js:89-98 | a stderr chunk is NLS-filtered and echoed by the echo rule; the wrapper is not changed |
| Tdscli.TDS.OnStdoutDataBuffered | tdscli.js:82 | the intended handler also appends the chunk to the wrapper's `stdout` |
| Tdscli.TDS.OnStderrDataBuffered | tdscli.js:93 | the intended handler also appends the filtered chunk to the wrapper's `stderr` |
| Tdscli.StdoutBufferStaysEmpty | tdscli.js:77-87 | a fresh wrapper echoes stdout "error" while its `stdout` stays "" |
| Tdscli.StdoutBufferCollects | tdscli.js:82 | with the intended handler its `stdout` becomes "error" |
| Tdscli.StderrBufferStaysEmpty | tdscli.js:89-98 | a fresh wrapper echoes stderr "error" while its `stderr` stays "" |
| Tdscli.StderrBufferCollects | tdscli.js:93 | with the intended handler its `stderr` becomes "error" |
| TdsStandalone.HomeJava | tds_standalone.js:109-118 | on every platform the path is JAVA_HOME's, else JRE_HOME's, `bin/java`, with ".exe" on win32; with neither, win32 gets "undefined.exe" and others keep undefined |
| TdsStandalone.JavaHomePrecedence | tds_standalone.js:109-114 | with JAVA_HOME set, JRE_HOME does not matter |
| TdsStandalone.ExeOnlyOnWin32 | tds_standalone.js:116-118 | with a HOME variable set, the win32 path is any other platform's path followed by ".exe" |
| TdsStandalone.TDS.constructor | tds_standalone.js:12-13 | the new wrapper holds the located Java |
| TdsStandalone.TDS.FindJava | tds_standalone.js:104-124 | `this.java` becomes the located executable for the host and its previous value |
| TdsStandalone.TDS.GetArgs | tds_standalone.js:71-102 | the caller's options are normalised in place and the command line uses `tdscli.jar` and the normalised tokens |
| TdsStandalone.TDS.Compile | tds_standalone.js:19-69 | `compile` passes the target `compile` and settles on the close code |
| TdsStandalone.TDS.OnStdoutData | tds_standalone.js:40-48 | a filtered stdout chunk is echoed exactly when it does not trim to nothing; there is no silent flag |
| TdsStandalone.TDS.OnStderrData | tds_standalone.js:50-57 | a stderr chunk is NLS-filtered and echoed exactly when it does not trim to nothing |

## Left out

- Spawning the child, wiring its `data` and `close` events, `console.log`/`console.error`, and the Q deferreds: process I/O and asynchronous plumbing. The handlers are modelled one chunk at a time, and the close code is a parameter of `Exec` and `Compile`.
- Reading `process.env` and `os.platform()`: passed in as the `Host` value.
- `path.join`, `path.normalize`, `path.resolve` and `__dirname`: library semantics, kept uninterpreted (`Host.join`, `Host.installDir`).
- The standalone constructor's `directory` argument and `this.cwd` (tds_standalone.js:15-16): the value is never read.
- The spawn options, that is the child's working directory and the `TDS_APPRE` environment variable (tds_standalone.js:32-38): they only configure the child process.
- The stdout banner replacements (tdscli.js:79-80, tds_standalone.js:42-43): lazy multiline regexes whose backtracking is not modelled. The stdout handlers take the chunk after those replacements.
- Debug and command printing (tdscli.js:68-70, tds_standalone.js:24-30): console output only.
- Chunk boundaries: each `data` chunk is filtered on its own, exactly as the source does, so a warning split across two chunks is not recognised. The model does not relate the output of two chunks.
- JavaScript number formatting: numbers are carried as their `String()` form (`Num(repr)`), so `11.4` and `11.40` are the same number with one representation. An exit code uses the plain decimal form, which is what `String()` gives an integer exit code.
- The `TypeError` thrown by `toUpperCase` when `serverType` is defined but not a string: the callers of `ChangeOptions`, `GetArgs`, `Exec`, `Run` and `Compile` must meet `ServerTypeReadable`.
- A public method called without an options object (`tds.clearLog()`, `compile()`): `changeOptions(undefined)` reads `undefined.serverType` (tdscli.js:168, tds_standalone.js:127) and throws a `TypeError` before anything is spawned. `GetArgs`, `Exec`, `Run` and `Compile` take an `OptionObject`, so this throwing call is not modelled.
- `options || {}` in the constructor when the argument is a truthy value that is not an object, such as a string, whose characters `Object.assign` copies as keys "0", "1", …: only a missing or falsy argument (`None`; `undefined`, `null`, `0`, `false` and `""` all become `{}`) or an options object is modelled.
- `toUpperCase` beyond ASCII: only `a`-`z` are mapped. This does not change the ADVPL comparison: the only non-ASCII characters whose upper case is all ASCII are ß, ı, ſ and the ligatures ﬀ to ﬆ, each of which yields an S, an I or an F, none of them letters of ADVPL; every other non-ASCII character keeps a non-ASCII character in its upper case.
- `Object.keys` ordering integer-like keys before the others: the entries are taken in the order `Object.keys` reports.
- A Java executable that stays `undefined` (on a platform other than win32, darwin or linux in the versioned wrapper, or without a HOME variable in the standalone one), and a spawn that fails: the model keeps `None` and does not model the failure.
- Options.NoWorkspaceToken: requires that no key itself begins with `workspace=`, because a key such as `workspace=x` is kept and yields the token `workspace=x=…`.
- Options.NoKeyToken: requires that no key itself begins with `k=` and that `k` holds no `=`. A key `k=x` yields the token `k=x=…`, and with `k` = `a=b` a key `a` with value `b=c` yields the token `a=b=c`.
- Options.AbsentOptionNoToken: requires that no key begins with `recompile=` or `serverType=`, for the same reason.

## Findings

| source | as written | input that shows it | evidently intended | confidence | as-written member | corrected member |
|---|---|---|---|---|---|---|
| tdscli.js:93 | `this.stderr += err` inside a `function(data)` handler, where `this` is the stderr stream, so the wrapper's `stderr` is never filled | a fresh wrapper receiving the stderr chunk "error" | the filtered chunk is appended to the wrapper's `stderr`, which `_exec` resets at tdscli.js:66 | not executed | Tdscli.StderrBufferStaysEmpty | Tdscli.StderrBufferCollects |
| tdscli.js:82 | `this.stdout += out` inside a `function(data)` handler, where `this` is the stdout stream, so the wrapper's `stdout` is never filled | a fresh wrapper receiving the stdout chunk "error" | the chunk is appended to the wrapper's `stdout`, which `_exec` resets at tdscli.js:65 | not executed | Tdscli.StdoutBufferStaysEmpty | Tdscli.StdoutBufferCollects |
