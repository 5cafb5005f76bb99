/** What happens to the child's output and exit status: the stderr filter that
    blanks unused-message warnings, the rule for echoing a chunk, and the
    settlement of the invocation's promise. */
module ProcessOutput {
  import opened Wrappers
  import opened JsText

  // ---------------------------------------------------------------------------
  // lines, as a multi-line regular expression sees them

  /** The length of the first line: the characters before the first line terminator. */
  function LineLength(s: string): (n: nat)
    ensures n <= |s|
    decreases |s|
  {
    if |s| == 0 || IsLineTerminator(s[0]) then 0 else 1 + LineLength(s[1..])
  }

  /** The lines of `s`, cut at every line terminator character (so "\r\n"
      holds an empty line between its two characters, as `^` and `$` see it). */
  function Lines(s: string): (ls: seq<string>)
    ensures |ls| > 0
    decreases |s|
  {
    var n := LineLength(s);
    if n == |s| then [s] else [s[..n]] + Lines(s[n + 1..])
  }

  /** The line terminators of `s`, in order. */
  function Breaks(s: string): seq<char>
    decreases |s|
  {
    var n := LineLength(s);
    if n == |s| then [] else [s[n]] + Breaks(s[n + 1..])
  }

  predicate NoBreak(a: string) {
    forall i | 0 <= i < |a| :: !IsLineTerminator(a[i])
  }

  /** The first line holds no line terminator, and is followed by one or by
      the end of the chunk. */
  lemma {:induction false} LineEnd(s: string)
    ensures NoBreak(s[..LineLength(s)])
    ensures LineLength(s) < |s| ==> IsLineTerminator(s[LineLength(s)])
    decreases |s|
  {
    if |s| > 0 && !IsLineTerminator(s[0]) {
      var n := LineLength(s);
      var t := s[1..];
      LineEnd(t);
      assert s[..n] == [s[0]] + t[..n - 1];
      forall i | 0 <= i < n ensures !IsLineTerminator(s[..n][i]) {
        if i > 0 {
          assert s[..n][i] == t[..n - 1][i - 1];
        }
      }
      if n < |s| {
        assert s[n] == t[n - 1];
      }
    }
  }

  lemma {:induction false} LineLengthOf(a: string, rest: string)
    requires NoBreak(a)
    requires rest == [] || IsLineTerminator(rest[0])
    ensures LineLength(a + rest) == |a|
    decreases |a|
  {
    if |a| > 0 {
      assert (a + rest)[1..] == a[1..] + rest;
      LineLengthOf(a[1..], rest);
    }
  }

  // ---------------------------------------------------------------------------
  // the stderr filter

  const NlsWarning := "Warning: NLS unused message: "

  function BlankWarning(line: string): string {
    if StartsWith(line, NlsWarning) then "" else line
  }

  /** `err.replace(/^Warning: NLS unused message: (.*)$/gm, "")`: every line
      that starts with the warning text is emptied, up to its terminator. */
  function FilterNls(s: string): string
    decreases |s|
  {
    var n := LineLength(s);
    var line := BlankWarning(s[..n]);
    if n == |s| then line else line + [s[n]] + FilterNls(s[n + 1..])
  }

  /** A line without terminators, then a terminator, then the rest. */
  lemma AtBreak(b: string, c: char, t: string)
    requires NoBreak(b) && IsLineTerminator(c)
    ensures LineLength(b + [c] + t) == |b|
    ensures (b + [c] + t)[..|b|] == b && (b + [c] + t)[|b|] == c && (b + [c] + t)[|b| + 1..] == t
  {
    assert b + [c] + t == b + ([c] + t);
    LineLengthOf(b, [c] + t);
  }

  lemma LinesAtBreak(b: string, c: char, t: string)
    requires NoBreak(b) && IsLineTerminator(c)
    ensures Lines(b + [c] + t) == [b] + Lines(t)
    ensures Breaks(b + [c] + t) == [c] + Breaks(t)
  {
    AtBreak(b, c, t);
  }

  /** A chunk without terminators is one line. */
  lemma OneLine(b: string)
    requires NoBreak(b)
    ensures LineLength(b) == |b| && b[..|b|] == b
    ensures Lines(b) == [b] && Breaks(b) == []
  {
    LineLengthOf(b, []);
    assert b + [] == b;
  }

  /** A chunk cut at its first line terminator. */
  lemma FirstBreak(s: string)
    requires LineLength(s) < |s|
    ensures var n := LineLength(s);
            NoBreak(s[..n]) && IsLineTerminator(s[n]) && s == s[..n] + [s[n]] + s[n + 1..]
  {
    Decompose(s, LineLength(s));
    LineEnd(s);
  }

  lemma Decompose(s: string, n: nat)
    requires n < |s|
    ensures s == s[..n] + [s[n]] + s[n + 1..]
  {
  }

  /** Blanking leaves a line without the warning prefix. */
  lemma BlankWarningBlank(line: string)
    ensures BlankWarning(BlankWarning(line)) == BlankWarning(line)
    ensures NoBreak(line) ==> NoBreak(BlankWarning(line))
  {
  }

  /** Each line blanked if it is a warning. */
  function BlankLines(ls: seq<string>): (r: seq<string>)
    ensures |r| == |ls|
    ensures forall i | 0 <= i < |ls| :: r[i] == BlankWarning(ls[i])
  {
    if |ls| == 0 then [] else [BlankWarning(ls[0])] + BlankLines(ls[1..])
  }

  /** Filtering blanks exactly the warning lines, keeps every other line as it
      was, and keeps every line terminator: the chunk has as many lines after
      as before. */
  lemma {:induction false} FilterNlsLines(s: string)
    ensures Lines(FilterNls(s)) == BlankLines(Lines(s))
    ensures Breaks(FilterNls(s)) == Breaks(s)
    decreases |s|
  {
    var n := LineLength(s);
    var b := BlankWarning(s[..n]);
    LineEnd(s);
    BlankWarningBlank(s[..n]);
    if n == |s| {
      assert s[..n] == s;
      OneLine(s);
      OneLine(b);
      assert FilterNls(s) == b;
      assert BlankLines([s]) == [b];
    } else {
      var r := s[n + 1..];
      FirstBreak(s);
      FilterNlsLines(r);
      LinesAtBreak(s[..n], s[n], r);
      LinesAtBreak(b, s[n], FilterNls(r));
      assert FilterNls(s) == b + [s[n]] + FilterNls(r);
      assert ([s[..n]] + Lines(r))[1..] == Lines(r);
      assert BlankLines([s[..n]] + Lines(r)) == [b] + BlankLines(Lines(r));
    }
  }

  /** Filtering twice is filtering once. */
  lemma {:induction false} FilterNlsIdempotent(s: string)
    ensures FilterNls(FilterNls(s)) == FilterNls(s)
    decreases |s|
  {
    var n := LineLength(s);
    var b := BlankWarning(s[..n]);
    LineEnd(s);
    BlankWarningBlank(s[..n]);
    if n == |s| {
      assert FilterNls(s) == b;
      OneLine(b);
      assert FilterNls(b) == BlankWarning(b);
    } else {
      var r := s[n + 1..];
      FilterNlsIdempotent(r);
      LineEnd(s);
      var f := FilterNls(s);
      assert f == b + [s[n]] + FilterNls(r);
      AtBreak(b, s[n], FilterNls(r));
      assert FilterNls(f) == BlankWarning(b) + [s[n]] + FilterNls(FilterNls(r));
    }
  }

  /** A chunk without warning lines passes through unchanged. */
  lemma {:induction false} FilterNlsKeeps(s: string)
    requires forall i | 0 <= i < |Lines(s)| :: !StartsWith(Lines(s)[i], NlsWarning)
    ensures FilterNls(s) == s
    decreases |s|
  {
    var n := LineLength(s);
    if n < |s| {
      var r := s[n + 1..];
      FirstBreak(s);
      LinesAtBreak(s[..n], s[n], r);
      assert Lines(s) == [s[..n]] + Lines(r);
      assert !StartsWith(Lines(s)[0], NlsWarning);
      forall i | 0 <= i < |Lines(r)| ensures !StartsWith(Lines(r)[i], NlsWarning) {
        assert Lines(r)[i] == Lines(s)[i + 1];
      }
      FilterNlsKeeps(r);
      assert FilterNls(s) == BlankWarning(s[..n]) + [s[n]] + FilterNls(r);
    } else {
      assert Lines(s) == [s];
      assert !StartsWith(Lines(s)[0], NlsWarning);
      assert s[..n] == s;
    }
  }

  /** A chunk whose lines are all warnings or empty is filtered down to its
      line terminators. */
  lemma {:induction false} FilterNlsWarningsOnly(s: string)
    requires forall i | 0 <= i < |Lines(s)| :: Lines(s)[i] == "" || StartsWith(Lines(s)[i], NlsWarning)
    ensures FilterNls(s) == Breaks(s)
    decreases |s|
  {
    var n := LineLength(s);
    assert Lines(s)[0] == s[..n];
    assert BlankWarning(s[..n]) == "";
    if n < |s| {
      var rest := Lines(s[n + 1..]);
      assert Lines(s) == [s[..n]] + rest;
      forall i | 0 <= i < |rest| ensures rest[i] == "" || StartsWith(rest[i], NlsWarning) {
        assert rest[i] == Lines(s)[i + 1];
      }
      FilterNlsWarningsOnly(s[n + 1..]);
      assert FilterNls(s) == [s[n]] + FilterNls(s[n + 1..]);
    }
  }

  lemma {:induction false} BreaksAreWhiteSpace(s: string)
    ensures AllWhiteSpace(Breaks(s))
    decreases |s|
  {
    var n := LineLength(s);
    if n < |s| {
      var r := s[n + 1..];
      LineEnd(s);
      assert IsWhiteSpace(s[n]);
      BreaksAreWhiteSpace(r);
      assert Breaks(s) == [s[n]] + Breaks(r);
      forall i | 0 <= i < |Breaks(s)| ensures IsWhiteSpace(Breaks(s)[i]) {
        if i > 0 {
          assert Breaks(s)[i] == Breaks(r)[i - 1];
        }
      }
    }
  }

  // ---------------------------------------------------------------------------
  // echoing

  /** `if (!silent && text.trim()) console.log(text)`: the text echoed, if any. */
  function Echo(silent: bool, text: string): Option<string> {
    if !silent && Trim(text) != "" then Some(text) else None
  }

  /** A chunk is echoed, unchanged, exactly when the wrapper is not silent and
      the chunk holds a character other than white space. */
  lemma EchoRule(silent: bool, text: string)
    ensures Echo(silent, text).Some? <==> !silent && exists i | 0 <= i < |text| :: !IsWhiteSpace(text[i])
    ensures Echo(silent, text).Some? ==> Echo(silent, text).value == text
  {
    TrimEmpty(text);
  }

  /** What the stderr handler writes: the filtered chunk, when it is echoed. */
  function StderrEcho(silent: bool, chunk: string): Option<string> {
    Echo(silent, FilterNls(chunk))
  }

  /** A chunk of nothing but unused-message warnings (and empty lines) is
      never echoed, silent or not. */
  lemma WarningsNeverEchoed(silent: bool, chunk: string)
    requires forall i | 0 <= i < |Lines(chunk)| :: Lines(chunk)[i] == "" || StartsWith(Lines(chunk)[i], NlsWarning)
    ensures StderrEcho(silent, chunk).None?
  {
    FilterNlsWarningsOnly(chunk);
    BreaksAreWhiteSpace(chunk);
    TrimEmpty(FilterNls(chunk));
  }

  // ---------------------------------------------------------------------------
  // settlement

  /** How the invocation's promise settles. */
  datatype Outcome = Resolved | Rejected(message: string)

  const ExitPrefix := "Tdscli process exited with code "

  /** `"" + code` for the close code, which is `null` after a signal. */
  function CodeText(code: Option<int>): string {
    match code
    case None => "null"
    case Some(n) => IntText(n)
  }

  /** The `close` handler: code 0 resolves, anything else rejects with the code
      in the message. */
  function Settle(code: Option<int>): (o: Outcome)
    ensures o.Resolved? <==> code == Some(0)
    ensures o.Rejected? ==> StartsWith(o.message, ExitPrefix)
  {
    if code != Some(0) then Rejected(ExitPrefix + CodeText(code)) else Resolved
  }

  /** The close code a rejection message names, read back from its text. */
  function ReportedCode(message: string): Option<Option<int>> {
    if !StartsWith(message, ExitPrefix) then None
    else
      var rest := message[|ExitPrefix|..];
      if rest == "null" then Some(None)
      else match ParseInt(rest)
        case Some(n) => Some(Some(n))
        case None => None
  }

  /** Every rejection message names the code that caused it. */
  lemma SettleReportsCode(code: Option<int>)
    requires code != Some(0)
    ensures Settle(code).Rejected?
    ensures ReportedCode(Settle(code).message) == Some(code)
  {
    var m := Settle(code).message;
    assert m[|ExitPrefix|..] == CodeText(code);
    if code.Some? {
      IntTextRoundTrip(code.value);
      assert IntText(code.value) != "null" by {
        assert IsDigits(IntText(code.value)) || IntText(code.value)[0] == '-';
      }
    }
  }
}
