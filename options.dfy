/** The option objects the wrapper receives, the in-place normalisation of two
    of their properties (`changeOptions`) and their serialisation into
    `key=value` command-line tokens (the loop of `_get_args`). Both wrapper
    variants share this code word for word. */
module Options {
  import opened Wrappers
  import opened JsText

  /** A property value of a plain JavaScript object, as far as the wrapper can
      tell them apart. A Number is held as its `String()` form, which decides
      both how it is printed and whether it is `===` to a given literal. */
  datatype Value =
    | Str(s: string)
    | Bool(b: bool)
    | Num(repr: string)
    | Arr(items: seq<string>)
    | Undefined
    | Null

  /** One own property. An object is the list of its properties in
      `Object.keys` order. */
  datatype Entry = Entry(key: string, value: Value)

  function Keys(es: seq<Entry>): seq<string> {
    seq(|es|, i requires 0 <= i < |es| => es[i].key)
  }

  /** A JavaScript object never holds the same key twice. */
  predicate DistinctKeys(es: seq<Entry>) {
    forall i, j | 0 <= i < j < |es| :: es[i].key != es[j].key
  }

  function Lookup(es: seq<Entry>, k: string): Option<Value>
    decreases |es|
  {
    if |es| == 0 then None
    else if es[0].key == k then Some(es[0].value)
    else Lookup(es[1..], k)
  }

  /** `o[k]`: a missing property reads as `undefined`. */
  function Get(es: seq<Entry>, k: string): Value {
    match Lookup(es, k)
    case Some(v) => v
    case None => Undefined
  }

  /** JavaScript truthiness (`!v` is false). */
  predicate Truthy(v: Value) {
    match v
    case Str(s) => s != ""
    case Bool(b) => b
    case Num(r) => r != "0" && r != "NaN"
    case Arr(_) => true
    case Undefined => false
    case Null => false
  }

  /** The string a value becomes when it is concatenated to a string. */
  function Text(v: Value): string {
    match v
    case Str(s) => s
    case Bool(b) => if b then "true" else "false"
    case Num(r) => r
    case Arr(xs) => Join(xs, ",")
    case Undefined => "undefined"
    case Null => "null"
  }

  lemma {:induction false} LookupAt(es: seq<Entry>, i: nat)
    requires DistinctKeys(es) && i < |es|
    ensures Lookup(es, es[i].key) == Some(es[i].value)
    decreases |es|
  {
    if i > 0 {
      LookupAt(es[1..], i - 1);
    }
  }

  lemma {:induction false} LookupAbsent(es: seq<Entry>, k: string)
    requires forall i | 0 <= i < |es| :: es[i].key != k
    ensures Lookup(es, k).None?
    decreases |es|
  {
    if |es| > 0 {
      LookupAbsent(es[1..], k);
    }
  }

  lemma {:induction false} LookupFound(es: seq<Entry>, k: string)
    ensures Lookup(es, k).None? <==> k !in Keys(es)
    ensures Lookup(es, k).Some? ==> exists i | 0 <= i < |es| :: es[i] == Entry(k, Lookup(es, k).value)
    decreases |es|
  {
    if |es| > 0 && es[0].key != k {
      LookupFound(es[1..], k);
      assert Keys(es) == [es[0].key] + Keys(es[1..]);
      if Lookup(es, k).Some? {
        var i :| 0 <= i < |es[1..]| && es[1..][i] == Entry(k, Lookup(es, k).value);
        assert es[i + 1] == Entry(k, Lookup(es, k).value);
      }
    } else if |es| > 0 {
      assert Keys(es)[0] == k;
    }
  }

  // ---------------------------------------------------------------------------
  // property assignment and Object.assign

  /** The properties after `o[k] = v`: an existing key keeps its place, a new
      one goes last. */
  function Assigned(es: seq<Entry>, k: string, v: Value): seq<Entry>
    decreases |es|
  {
    if |es| == 0 then [Entry(k, v)]
    else if es[0].key == k then [Entry(k, v)] + es[1..]
    else [es[0]] + Assigned(es[1..], k, v)
  }

  lemma {:induction false} AssignedLookup(es: seq<Entry>, k: string, v: Value, k': string)
    ensures Lookup(Assigned(es, k, v), k') == if k' == k then Some(v) else Lookup(es, k')
    decreases |es|
  {
    if |es| > 0 && es[0].key != k {
      AssignedLookup(es[1..], k, v, k');
    }
  }

  lemma {:induction false} AssignedKeys(es: seq<Entry>, k: string, v: Value)
    ensures Keys(Assigned(es, k, v)) == if k in Keys(es) then Keys(es) else Keys(es) + [k]
    decreases |es|
  {
    if |es| > 0 {
      assert es == [es[0]] + es[1..];
      KeysCons(es[0], es[1..]);
      if es[0].key == k {
        KeysCons(Entry(k, v), es[1..]);
      } else {
        AssignedKeys(es[1..], k, v);
        KeysCons(es[0], Assigned(es[1..], k, v));
        assert k in Keys(es) <==> k in Keys(es[1..]);
      }
    }
  }

  lemma KeysCons(e: Entry, es: seq<Entry>)
    ensures Keys([e] + es) == [e.key] + Keys(es)
  {
  }

  lemma DistinctByKeys(es: seq<Entry>, fs: seq<Entry>)
    requires Keys(es) == Keys(fs)
    ensures DistinctKeys(es) <==> DistinctKeys(fs)
  {
    assert forall i | 0 <= i < |es| :: es[i].key == Keys(es)[i];
    assert forall i | 0 <= i < |fs| :: fs[i].key == Keys(fs)[i];
  }

  lemma AssignedDistinct(es: seq<Entry>, k: string, v: Value)
    requires DistinctKeys(es)
    ensures DistinctKeys(Assigned(es, k, v))
  {
    AssignedKeys(es, k, v);
    var fs := Assigned(es, k, v);
    assert forall i | 0 <= i < |es| :: es[i].key == Keys(es)[i];
    assert forall i | 0 <= i < |fs| :: fs[i].key == Keys(fs)[i];
  }

  lemma {:induction false} AssignedExisting(es: seq<Entry>, i: nat, v: Value)
    requires DistinctKeys(es) && i < |es|
    ensures Assigned(es, es[i].key, v) == es[i := Entry(es[i].key, v)]
    decreases |es|
  {
    if i > 0 {
      AssignedExisting(es[1..], i - 1, v);
      assert es[i := Entry(es[i].key, v)] == [es[0]] + es[1..][i - 1 := Entry(es[i].key, v)];
    }
  }

  /** `Object.assign(target, source)`: each property of `source`, in order,
      assigned onto `target`. */
  function AssignAll(target: seq<Entry>, source: seq<Entry>): seq<Entry>
    decreases |source|
  {
    if |source| == 0 then target
    else AssignAll(Assigned(target, source[0].key, source[0].value), source[1..])
  }

  lemma {:induction false} AssignedNew(es: seq<Entry>, k: string, v: Value)
    requires forall i | 0 <= i < |es| :: es[i].key != k
    ensures Assigned(es, k, v) == es + [Entry(k, v)]
    decreases |es|
  {
    if |es| > 0 {
      AssignedNew(es[1..], k, v);
      assert es == [es[0]] + es[1..];
    }
  }

  /** `Object.assign` onto an object that shares no key with the source
      appends the source's properties in order. */
  lemma {:induction false} AssignAllFresh(target: seq<Entry>, source: seq<Entry>)
    requires DistinctKeys(source)
    requires forall i, j | 0 <= i < |target| && 0 <= j < |source| :: target[i].key != source[j].key
    ensures AssignAll(target, source) == target + source
    decreases |source|
  {
    if |source| > 0 {
      AssignedNew(target, source[0].key, source[0].value);
      var t' := target + [source[0]];
      forall i, j | 0 <= i < |t'| && 0 <= j < |source[1..]|
        ensures t'[i].key != source[1..][j].key
      {
        assert source[1..][j] == source[j + 1];
      }
      AssignAllFresh(t', source[1..]);
      assert target + source == t' + source[1..];
    }
  }

  /** After `Object.assign`, a key reads as in `source` if `source` has it and
      as in `target` otherwise. */
  lemma {:induction false} AssignAllLookup(target: seq<Entry>, source: seq<Entry>, k: string)
    requires DistinctKeys(source)
    ensures Lookup(AssignAll(target, source), k) ==
            if Lookup(source, k).Some? then Lookup(source, k) else Lookup(target, k)
    decreases |source|
  {
    if |source| > 0 {
      var e := source[0];
      AssignAllLookup(Assigned(target, e.key, e.value), source[1..], k);
      AssignedLookup(target, e.key, e.value, k);
      if k == e.key {
        LookupAbsent(source[1..], k);
      }
    }
  }

  /** `Object.assign` keeps the target's keys, in their order, at the front. */
  lemma {:induction false} AssignAllKeepsTarget(target: seq<Entry>, source: seq<Entry>)
    requires DistinctKeys(target)
    ensures DistinctKeys(AssignAll(target, source))
    ensures |Keys(target)| <= |Keys(AssignAll(target, source))|
    ensures Keys(AssignAll(target, source))[..|target|] == Keys(target)
    decreases |source|
  {
    if |source| > 0 {
      var e := source[0];
      var t' := Assigned(target, e.key, e.value);
      AssignedKeys(target, e.key, e.value);
      AssignedDistinct(target, e.key, e.value);
      AssignAllKeepsTarget(t', source[1..]);
      assert Keys(t')[..|target|] == Keys(target);
    }
  }

  // ---------------------------------------------------------------------------
  // changeOptions

  /** `changeOptions` calls `serverType.toUpperCase()`, which throws unless a
      defined `serverType` is a string. */
  predicate ServerTypeReadable(es: seq<Entry>) {
    forall i | 0 <= i < |es| && es[i].key == "serverType" :: es[i].value.Str? || es[i].value.Undefined?
  }

  /** The value a property holds after `changeOptions`. */
  function NormalisedValue(key: string, v: Value): Value {
    if key == "serverType" && v.Str? && ToUpper(v.s) != "ADVPL" then Str("4GL")
    else if key == "recompile" && v.Bool? then Str(if v.b then "t" else "f")
    else v
  }

  /** The object after `changeOptions`: every property keeps its key and its
      place. */
  function Normalised(es: seq<Entry>): (r: seq<Entry>)
    ensures Keys(r) == Keys(es)
  {
    seq(|es|, i requires 0 <= i < |es| => Entry(es[i].key, NormalisedValue(es[i].key, es[i].value)))
  }

  lemma {:induction false} LookupNormalised(es: seq<Entry>, k: string)
    ensures Lookup(Normalised(es), k) ==
            match Lookup(es, k) case None => None case Some(v) => Some(NormalisedValue(k, v))
    decreases |es|
  {
    if |es| > 0 {
      assert Normalised(es)[1..] == Normalised(es[1..]);
      LookupNormalised(es[1..], k);
    }
  }

  /** A `serverType` whose upper-case form is not ADVPL becomes "4GL"; a case
      variant of ADVPL and an undefined one stay exactly as given. */
  lemma ServerTypeRule(es: seq<Entry>)
    requires ServerTypeReadable(es)
    ensures Lookup(es, "serverType").None? ==> Lookup(Normalised(es), "serverType").None?
    ensures Lookup(es, "serverType") == Some(Undefined) ==> Lookup(Normalised(es), "serverType") == Some(Undefined)
    ensures forall s :: Lookup(es, "serverType") == Some(Str(s)) ==>
              Lookup(Normalised(es), "serverType") == Some(if ToUpper(s) == "ADVPL" then Str(s) else Str("4GL"))
  {
    LookupNormalised(es, "serverType");
  }

  /** A boolean `recompile` becomes "t" or "f"; any other `recompile` is left alone. */
  lemma RecompileRule(es: seq<Entry>)
    ensures Lookup(es, "recompile") == Some(Bool(true)) ==> Lookup(Normalised(es), "recompile") == Some(Str("t"))
    ensures Lookup(es, "recompile") == Some(Bool(false)) ==> Lookup(Normalised(es), "recompile") == Some(Str("f"))
    ensures (match Lookup(es, "recompile") case Some(v) => !v.Bool? case None => true) ==>
              Lookup(Normalised(es), "recompile") == Lookup(es, "recompile")
  {
    LookupNormalised(es, "recompile");
  }

  /** Every other property reads the same before and after. */
  lemma OtherKeysUnchanged(es: seq<Entry>, k: string)
    requires k != "serverType" && k != "recompile"
    ensures Lookup(Normalised(es), k) == Lookup(es, k)
  {
    LookupNormalised(es, k);
  }

  /** Normalising an already normalised object changes nothing. */
  lemma NormaliseIdempotent(es: seq<Entry>)
    requires ServerTypeReadable(es)
    ensures ServerTypeReadable(Normalised(es))
    ensures Normalised(Normalised(es)) == Normalised(es)
  {
    assert ToUpper("4GL") == "4GL";
  }

  /** A JavaScript object whose properties the wrapper changes in place. */
  class OptionObject {
    var entries: seq<Entry>

    ghost predicate Valid()
      reads this
    {
      DistinctKeys(entries)
    }

    constructor (entries: seq<Entry>)
      requires DistinctKeys(entries)
      ensures Valid() && this.entries == entries
    {
      this.entries := entries;
    }

    /** `this[key] = value` */
    method Set(key: string, value: Value)
      requires Valid()
      modifies this
      ensures Valid()
      ensures entries == Assigned(old(entries), key, value)
    {
      AssignedDistinct(entries, key, value);
      entries := Assigned(entries, key, value);
    }
  }

  /** The property `k` changed to `v` in place, when the object has it. */
  lemma ReplaceExisting(es: seq<Entry>, k: string, v: Value) returns (i: int)
    requires DistinctKeys(es)
    ensures -1 <= i < |es|
    ensures i == -1 ==> Lookup(es, k).None? && forall j | 0 <= j < |es| :: es[j].key != k
    ensures 0 <= i ==> es[i].key == k && Lookup(es, k) == Some(es[i].value)
    ensures 0 <= i ==> Assigned(es, k, v) == es[i := Entry(k, v)]
  {
    i := IndexOf(Keys(es), k);
    assert forall j | 0 <= j < |es| :: Keys(es)[j] == es[j].key;
    if i == -1 {
      LookupAbsent(es, k);
    } else {
      LookupAt(es, i);
      AssignedExisting(es, i, v);
    }
  }

  /** The object after the `serverType` test of `changeOptions`. */
  function ServerTypeStep(es: seq<Entry>): seq<Entry> {
    var v := Get(es, "serverType");
    if v.Str? && ToUpper(v.s) != "ADVPL" then Assigned(es, "serverType", Str("4GL")) else es
  }

  /** The object after the `recompile` test of `changeOptions`. */
  function RecompileStep(es: seq<Entry>): seq<Entry> {
    var v := Get(es, "recompile");
    if v.Bool? then Assigned(es, "recompile", Str(if v.b then "t" else "f")) else es
  }

  lemma ServerTypeStepAt(es: seq<Entry>)
    requires DistinctKeys(es)
    ensures DistinctKeys(ServerTypeStep(es)) && |ServerTypeStep(es)| == |es|
    ensures forall n | 0 <= n < |es| ::
              ServerTypeStep(es)[n] == if es[n].key == "serverType"
                                       then Entry("serverType", NormalisedValue("serverType", es[n].value))
                                       else es[n]
  {
    var k := "serverType";
    var i := ReplaceExisting(es, k, Str("4GL"));
    AssignedDistinct(es, k, Str("4GL"));
    var v := Get(es, k);
    var r := ServerTypeStep(es);
    if 0 <= i && v.Str? && ToUpper(v.s) != "ADVPL" {
      assert r == es[i := Entry(k, Str("4GL"))];
      forall n | 0 <= n < |es|
        ensures r[n] == if es[n].key == k then Entry(k, NormalisedValue(k, es[n].value)) else es[n]
      {
        if n != i {
          assert es[n].key != k;
        }
      }
    } else {
      assert r == es;
      forall n | 0 <= n < |es|
        ensures r[n] == if es[n].key == k then Entry(k, NormalisedValue(k, es[n].value)) else es[n]
      {
        if es[n].key == k {
          assert n == i;
        }
      }
    }
  }

  lemma RecompileStepAt(es: seq<Entry>)
    requires DistinctKeys(es)
    ensures |RecompileStep(es)| == |es|
    ensures forall n | 0 <= n < |es| ::
              RecompileStep(es)[n] == if es[n].key == "recompile"
                                      then Entry("recompile", NormalisedValue("recompile", es[n].value))
                                      else es[n]
  {
    var k := "recompile";
    var v := Get(es, k);
    var w := Str(if v.Bool? && v.b then "t" else "f");
    var i := ReplaceExisting(es, k, w);
    var r := RecompileStep(es);
    if 0 <= i && v.Bool? {
      assert r == es[i := Entry(k, w)];
      forall n | 0 <= n < |es|
        ensures r[n] == if es[n].key == k then Entry(k, NormalisedValue(k, es[n].value)) else es[n]
      {
        if n != i {
          assert es[n].key != k;
        }
      }
    } else {
      assert r == es;
      forall n | 0 <= n < |es|
        ensures r[n] == if es[n].key == k then Entry(k, NormalisedValue(k, es[n].value)) else es[n]
      {
        if es[n].key == k {
          assert n == i;
        }
      }
    }
  }

  /** The two assignments of `changeOptions`, one after the other, give the
      normalised object. */
  lemma NormalisedInTwoSteps(es: seq<Entry>)
    requires DistinctKeys(es)
    ensures RecompileStep(ServerTypeStep(es)) == Normalised(es)
  {
    ServerTypeStepAt(es);
    RecompileStepAt(ServerTypeStep(es));
  }

  lemma ReadableServerType(es: seq<Entry>)
    requires ServerTypeReadable(es)
    ensures Get(es, "serverType").Str? || Get(es, "serverType").Undefined?
  {
    LookupFound(es, "serverType");
  }

  /** `changeOptions(options)`: normalises `serverType` and `recompile` in place. */
  method ChangeOptions(options: OptionObject)
    requires options.Valid() && ServerTypeReadable(options.entries)
    modifies options
    ensures options.Valid()
    ensures options.entries == Normalised(old(options.entries))
  {
    ghost var es := options.entries;
    ReadableServerType(es);
    var serverType := Get(options.entries, "serverType");
    if serverType != Undefined {
      if ToUpper(serverType.s) != "ADVPL" {
        options.Set("serverType", Str("4GL"));
      }
    }
    assert options.entries == ServerTypeStep(es);
    var recompile := Get(options.entries, "recompile");
    if recompile.Bool? {
      options.Set("recompile", Str(if recompile.b then "t" else "f"));
    }
    assert options.entries == RecompileStep(ServerTypeStep(es));
    NormalisedInTwoSteps(es);
  }

  // ---------------------------------------------------------------------------
  // serialisation

  /** The properties other than `k`, in order. */
  function Without(es: seq<Entry>, k: string): seq<Entry>
    decreases |es|
  {
    if |es| == 0 then []
    else (if es[0].key == k then [] else [es[0]]) + Without(es[1..], k)
  }

  /** `key + "=" + value`, an array value joined with ";". */
  function Token(e: Entry): string {
    e.key + "=" + (if e.value.Arr? then Join(e.value.items, ";") else Text(e.value))
  }

  /** One token per property other than `workspace`, in key order. */
  function OptionTokens(es: seq<Entry>): seq<string> {
    var kept := Without(es, "workspace");
    seq(|kept|, i requires 0 <= i < |kept| => Token(kept[i]))
  }

  /** The child's command line after the executable: encoding flag, `-jar`,
      the jar, the subcommand, then the option tokens. */
  function ArgVector(jarPath: string, target: string, es: seq<Entry>): seq<string> {
    ["-Dfile.encoding=UTF-8", "-jar", jarPath, target] + OptionTokens(es)
  }

  lemma {:induction false} WithoutAbsent(es: seq<Entry>, k: string)
    requires forall i | 0 <= i < |es| :: es[i].key != k
    ensures Without(es, k) == es
    decreases |es|
  {
    if |es| > 0 {
      WithoutAbsent(es[1..], k);
      assert es == [es[0]] + es[1..];
    }
  }

  lemma {:induction false} WithoutAt(es: seq<Entry>, i: nat)
    requires DistinctKeys(es) && i < |es|
    ensures Without(es, es[i].key) == es[..i] + es[i + 1..]
    decreases |es|
  {
    if i == 0 {
      WithoutAbsent(es[1..], es[0].key);
    } else {
      WithoutAt(es[1..], i - 1);
      assert es[..i] == [es[0]] + es[1..][..i - 1];
      assert es[i + 1..] == es[1..][i..];
    }
  }

  /** What is left without `k`: the object minus at most one property. */
  lemma WithoutShape(es: seq<Entry>, k: string) returns (idx: int)
    requires DistinctKeys(es)
    ensures idx == IndexOf(Keys(es), k)
    ensures idx == -1 ==> Without(es, k) == es && forall i | 0 <= i < |es| :: es[i].key != k
    ensures 0 <= idx ==> es[idx].key == k && Without(es, k) == es[..idx] + es[idx + 1..]
  {
    idx := IndexOf(Keys(es), k);
    assert forall i | 0 <= i < |es| :: Keys(es)[i] == es[i].key;
    if idx == -1 {
      WithoutAbsent(es, k);
    } else {
      WithoutAt(es, idx);
    }
  }

  lemma KeptLookup(es: seq<Entry>, k: string, i: nat)
    requires DistinctKeys(es)
    requires i < |Without(es, k)|
    ensures Without(es, k)[i].key != k
    ensures DistinctKeys(Without(es, k))
    ensures Get(es, Without(es, k)[i].key) == Without(es, k)[i].value
  {
    var idx := WithoutShape(es, k);
    var kept := Without(es, k);
    if idx == -1 {
      LookupAt(es, i);
      assert kept[i].key != k;
    } else {
      var n := if i < idx then i else i + 1;
      assert kept[i] == es[n];
      LookupAt(es, n);
    }
  }

  /** The token of each kept key, as the loop computes it from the object. */
  lemma KeptTokens(options: seq<Entry>)
    requires DistinctKeys(options)
    ensures var kept := Without(options, "workspace");
            forall j | 0 <= j < |kept| ::
              Token(Entry(Keys(kept)[j], Get(options, Keys(kept)[j]))) == OptionTokens(options)[j]
  {
    var kept := Without(options, "workspace");
    forall j | 0 <= j < |kept|
      ensures Token(Entry(Keys(kept)[j], Get(options, Keys(kept)[j]))) == OptionTokens(options)[j]
    {
      KeptLookup(options, "workspace", j);
    }
  }

  /** `Object.keys(options)` with `workspace` spliced out. */
  method KeptKeys(options: seq<Entry>) returns (keys: seq<string>)
    requires DistinctKeys(options)
    ensures keys == Keys(Without(options, "workspace"))
  {
    keys := Keys(options);
    var index := IndexOf(keys, "workspace");
    if index > -1 {
      keys := keys[..index] + keys[index + 1..];
    }
    SplicedKeys(options, "workspace");
  }

  /** The loop of `_get_args`: the keys of the (already normalised) object,
      `workspace` spliced out, each turned into one pushed token. */
  method SerialiseOptions(args: seq<string>, options: seq<Entry>) returns (out: seq<string>)
    requires DistinctKeys(options)
    ensures out == args + OptionTokens(options)
  {
    var keys := KeptKeys(options);
    ghost var kept := Without(options, "workspace");
    ghost var tokens := OptionTokens(options);
    KeptTokens(options);
    out := args;
    var i := 0;
    while i < |keys|
      invariant 0 <= i <= |keys| == |tokens|
      invariant keys == Keys(kept)
      invariant out == args + tokens[..i]
    {
      var key := keys[i];
      var value := key + "=";
      var v := Get(options, key);
      if v.Arr? {
        value := value + Join(v.items, ";");
      } else {
        value := value + Text(v);
      }
      assert value == Token(Entry(key, v));
      assert value == tokens[i];
      assert tokens[..i + 1] == tokens[..i] + [tokens[i]];
      out := out + [value];
      i := i + 1;
    }
    assert tokens[..i] == tokens;
  }

  /** Splicing `k` out of the key list gives the keys of the object without `k`. */
  lemma SplicedKeys(es: seq<Entry>, k: string)
    requires DistinctKeys(es)
    ensures var keys := Keys(es);
            var idx := IndexOf(keys, k);
            (if idx > -1 then keys[..idx] + keys[idx + 1..] else keys) == Keys(Without(es, k))
  {
    var idx := WithoutShape(es, k);
    if idx > -1 {
      KeysSplice(es, idx);
    }
  }

  lemma KeysSplice(es: seq<Entry>, idx: nat)
    requires idx < |es|
    ensures Keys(es[..idx] + es[idx + 1..]) == Keys(es)[..idx] + Keys(es)[idx + 1..]
  {
    var a := es[..idx];
    var b := es[idx + 1..];
    assert Keys(a + b) == Keys(a) + Keys(b);
    assert Keys(a) == Keys(es)[..idx];
    assert Keys(b) == Keys(es)[idx + 1..];
  }

  /** Position `j` of a sequence with position `idx` spliced out. */
  lemma SpliceAt<T>(xs: seq<T>, idx: nat, j: nat)
    requires idx < |xs| && j < |xs| - 1
    ensures (xs[..idx] + xs[idx + 1..])[j] == if j < idx then xs[j] else xs[j + 1]
  {
  }

  // ---------------------------------------------------------------------------
  // properties of the argument vector

  /** Four fixed elements (encoding flag, -jar, jar, subcommand) and then one
      token per key other than `workspace`. */
  lemma ArgVectorShape(jarPath: string, target: string, es: seq<Entry>)
    requires DistinctKeys(es)
    ensures ArgVector(jarPath, target, es)[..4] == ["-Dfile.encoding=UTF-8", "-jar", jarPath, target]
    ensures |ArgVector(jarPath, target, es)| == 4 + |es| - (if "workspace" in Keys(es) then 1 else 0)
  {
    var idx := WithoutShape(es, "workspace");
  }

  /** The property at index `i` (not `workspace`) gives the token at position
      4 + i, one earlier when `workspace` came before it: tokens follow key
      order. */
  lemma TokenPosition(jarPath: string, target: string, es: seq<Entry>, i: nat)
    requires DistinctKeys(es) && i < |es| && es[i].key != "workspace"
    ensures var idx := IndexOf(Keys(es), "workspace");
            var p := 4 + i - (if 0 <= idx < i then 1 else 0);
            p < |ArgVector(jarPath, target, es)| && ArgVector(jarPath, target, es)[p] == Token(es[i])
  {
    var idx := WithoutShape(es, "workspace");
    var q := KeptPosition(es, i, idx);
    ArgVectorAt(jarPath, target, es, q);
  }

  /** Where the property at index `i` sits once the property at `idx` (if
      any) is spliced out. */
  lemma KeptPosition(es: seq<Entry>, i: nat, idx: int) returns (q: nat)
    requires i < |es| && es[i].key != "workspace" && -1 <= idx
    requires idx == -1 ==> Without(es, "workspace") == es
    requires 0 <= idx ==> idx < |es| && es[idx].key == "workspace" &&
                          Without(es, "workspace") == es[..idx] + es[idx + 1..]
    ensures q == i - (if 0 <= idx < i then 1 else 0)
    ensures q < |Without(es, "workspace")| && Without(es, "workspace")[q] == es[i]
  {
    q := if 0 <= idx < i then i - 1 else i;
    if 0 <= idx {
      assert idx != i;
      SpliceAt(es, idx, q);
    }
  }

  lemma ArgVectorAt(jarPath: string, target: string, es: seq<Entry>, q: nat)
    requires q < |Without(es, "workspace")|
    ensures 4 + q < |ArgVector(jarPath, target, es)|
    ensures ArgVector(jarPath, target, es)[4 + q] == Token(Without(es, "workspace")[q])
  {
  }

  /** The value of `workspace`, or whether there is one at all, does not
      change the tokens. */
  lemma {:induction false} WorkspaceIgnored(es: seq<Entry>, v: Value)
    ensures OptionTokens(Assigned(es, "workspace", v)) == OptionTokens(es)
    decreases |es|
  {
    assert Without(Assigned(es, "workspace", v), "workspace") == Without(es, "workspace") by {
      WithoutAssigned(es, v);
    }
  }

  lemma {:induction false} WithoutAssigned(es: seq<Entry>, v: Value)
    ensures Without(Assigned(es, "workspace", v), "workspace") == Without(es, "workspace")
    decreases |es|
  {
    if |es| > 0 {
      if es[0].key == "workspace" {
        assert ([Entry("workspace", v)] + es[1..])[1..] == es[1..];
      } else {
        WithoutAssigned(es[1..], v);
        assert ([es[0]] + Assigned(es[1..], "workspace", v))[1..] == Assigned(es[1..], "workspace", v);
      }
    }
  }

  /** A token of key `k` starts with `p + "="` only when `k` is `p` or itself
      starts with `p + "="`; this needs `p` free of "=". */
  lemma TokenKeyPrefix(k: string, rest: string, p: string)
    requires '=' !in p && k != p && !StartsWith(k, p + "=")
    ensures !StartsWith(k + "=" + rest, p + "=")
  {
    var t := k + "=" + rest;
    var n := |p| + 1;
    if |t| >= n {
      if |k| >= n {
        assert t[..n] == k[..n];
      } else if |k| == |p| {
        assert t[..n][..|p|] == k;
        assert (p + "=")[..|p|] == p;
      } else {
        assert t[..n][|k|] == '=';
        assert (p + "=")[|k|] == p[|k|];
      }
    }
  }

  /** Every token comes from a property other than `workspace`. */
  lemma TokenFrom(es: seq<Entry>, t: string)
    requires t in OptionTokens(es)
    ensures exists i | 0 <= i < |es| :: es[i].key != "workspace" && t == Token(es[i])
  {
    var kept := Without(es, "workspace");
    var j :| 0 <= j < |kept| && t == Token(kept[j]);
    KeptFrom(es, "workspace", j);
  }

  /** No token starts with `k + "="` when the object has no property `k` (or
      `k` is `workspace`, which is never serialised), as long as no other key
      already starts with `k + "="`. */
  lemma NoKeyToken(es: seq<Entry>, k: string)
    requires '=' !in k
    requires k == "workspace" || forall i | 0 <= i < |es| :: es[i].key != k
    requires forall i | 0 <= i < |es| :: !StartsWith(es[i].key, k + "=")
    ensures forall t | t in OptionTokens(es) :: !StartsWith(t, k + "=")
  {
    forall t | t in OptionTokens(es)
      ensures !StartsWith(t, k + "=")
    {
      TokenFrom(es, t);
      var i :| 0 <= i < |es| && es[i].key != "workspace" && t == Token(es[i]);
      var e := es[i];
      TokenKeyPrefix(e.key, if e.value.Arr? then Join(e.value.items, ";") else Text(e.value), k);
    }
  }

  /** No token starts with "workspace=" unless some other key already does. */
  lemma NoWorkspaceToken(es: seq<Entry>)
    requires forall i | 0 <= i < |es| :: !StartsWith(es[i].key, "workspace=")
    ensures forall t | t in OptionTokens(es) :: !StartsWith(t, "workspace=")
  {
    NoKeyToken(es, "workspace");
  }

  /** Without a `recompile` property there is no `recompile=` token, and
      without a `serverType` property no `serverType=` token, also after
      normalising (unless another key already starts that way). */
  lemma AbsentOptionNoToken(es: seq<Entry>)
    requires forall i | 0 <= i < |es| :: !StartsWith(es[i].key, "recompile=") && !StartsWith(es[i].key, "serverType=")
    ensures "recompile" !in Keys(es) ==>
              forall t | t in OptionTokens(Normalised(es)) :: !StartsWith(t, "recompile=")
    ensures "serverType" !in Keys(es) ==>
              forall t | t in OptionTokens(Normalised(es)) :: !StartsWith(t, "serverType=")
  {
    var ns := Normalised(es);
    assert forall i | 0 <= i < |ns| :: ns[i].key == es[i].key;
    assert forall i | 0 <= i < |es| :: es[i].key == Keys(es)[i];
    if "recompile" !in Keys(es) {
      NoKeyToken(ns, "recompile");
    }
    if "serverType" !in Keys(es) {
      NoKeyToken(ns, "serverType");
    }
  }

  lemma {:induction false} KeptFrom(es: seq<Entry>, k: string, i: nat)
    requires i < |Without(es, k)|
    ensures Without(es, k)[i].key != k
    ensures exists j | 0 <= j < |es| :: es[j] == Without(es, k)[i]
    decreases |es|
  {
    var head := if es[0].key == k then [] else [es[0]];
    if i < |head| {
      assert Without(es, k)[i] == es[0];
    } else {
      assert Without(es, k)[i] == Without(es[1..], k)[i - |head|];
      KeptFrom(es[1..], k, i - |head|);
      var j :| 0 <= j < |es[1..]| && es[1..][j] == Without(es[1..], k)[i - |head|];
      assert es[j + 1] == Without(es, k)[i];
    }
  }

  /** A property other than `workspace` appears as its own token. */
  lemma EntryToken(es: seq<Entry>, k: string, v: Value)
    requires DistinctKeys(es) && k != "workspace" && Lookup(es, k) == Some(v)
    ensures Token(Entry(k, v)) in OptionTokens(es)
  {
    LookupFound(es, k);
    var i :| 0 <= i < |es| && es[i] == Entry(k, v);
    TokenPosition("", "", es, i);
  }

  /** The tokens carry the normalised values: `recompile=t`, `recompile=f`,
      and `serverType=4GL` unless the given server type is a case variant of
      ADVPL, which is passed on as written. */
  lemma NormalisedTokens(es: seq<Entry>)
    requires DistinctKeys(es) && ServerTypeReadable(es)
    ensures Lookup(es, "recompile") == Some(Bool(true)) ==> "recompile=t" in OptionTokens(Normalised(es))
    ensures Lookup(es, "recompile") == Some(Bool(false)) ==> "recompile=f" in OptionTokens(Normalised(es))
    ensures forall s :: Lookup(es, "serverType") == Some(Str(s)) ==>
              "serverType=" + (if ToUpper(s) == "ADVPL" then s else "4GL") in OptionTokens(Normalised(es))
  {
    DistinctByKeys(es, Normalised(es));
    RecompileToken(es);
    if Lookup(es, "serverType").Some? && Lookup(es, "serverType").value.Str? {
      ServerTypeToken(es, Lookup(es, "serverType").value.s);
    }
  }

  lemma RecompileToken(es: seq<Entry>)
    requires DistinctKeys(Normalised(es))
    ensures Lookup(es, "recompile") == Some(Bool(true)) ==> "recompile=t" in OptionTokens(Normalised(es))
    ensures Lookup(es, "recompile") == Some(Bool(false)) ==> "recompile=f" in OptionTokens(Normalised(es))
  {
    var ns := Normalised(es);
    LookupNormalised(es, "recompile");
    if Lookup(es, "recompile") == Some(Bool(true)) {
      EntryToken(ns, "recompile", Str("t"));
      assert Token(Entry("recompile", Str("t"))) == "recompile=t";
    } else if Lookup(es, "recompile") == Some(Bool(false)) {
      EntryToken(ns, "recompile", Str("f"));
      assert Token(Entry("recompile", Str("f"))) == "recompile=f";
    }
  }

  lemma ServerTypeToken(es: seq<Entry>, s: string)
    requires DistinctKeys(Normalised(es)) && Lookup(es, "serverType") == Some(Str(s))
    ensures "serverType=" + (if ToUpper(s) == "ADVPL" then s else "4GL") in OptionTokens(Normalised(es))
  {
    var w := if ToUpper(s) == "ADVPL" then s else "4GL";
    LookupNormalised(es, "serverType");
    EntryToken(Normalised(es), "serverType", Str(w));
    assert Token(Entry("serverType", Str(w))) == "serverType=" + w;
  }

  /** An array value is joined with ";" and reads back element by element when
      no element holds a ";". */
  lemma ArrayToken(k: string, xs: seq<string>)
    requires |xs| > 0 && forall i | 0 <= i < |xs| :: ';' !in xs[i]
    ensures StartsWith(Token(Entry(k, Arr(xs))), k + "=")
    ensures Split(Token(Entry(k, Arr(xs)))[|k| + 1..], ';') == xs
  {
    var t := Token(Entry(k, Arr(xs)));
    assert t[|k| + 1..] == Join(xs, ";");
    assert t[..|k + "="|] == k + "=";
    JoinSplit(xs, ';');
  }
}
