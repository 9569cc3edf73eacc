/** Command line flags handed over as JSON: the first argument is rewritten into ordinary flags at the end
    of a new argument vector, which is parsed again in the same way. When the option parser refuses a
    rewritten vector, the one it came from is tried. */
module Flags {

  // ----- the JSON reader, as far as its answers matter

  /** A JSON value: a boolean, or anything else with its printed form. */
  datatype Json = Bool(b: bool) | Other(text: string)

  datatype Entry = Entry(key: string, value: Json)

  /** What the reader makes of an argument: no JSON; an object; null or an empty array; or a value that has
      no keys, for which asking for a key throws. */
  datatype Reading = NotJson | Object(entries: seq<Entry>) | Empty | Keyless

  /** Keys of an object are distinct, and no JSON text starts with two dashes (RFC 8259, sections 3 and 6). */
  ghost predicate Reads(read: string -> Reading) {
    && (forall s :: FlagSlot(s) ==> read(s) == NotJson)
    && (forall s :: read(s).Object? ==> DistinctKeys(read(s).entries))
  }

  predicate DistinctKeys(es: seq<Entry>) {
    forall i, j :: 0 <= i < j < |es| ==> es[i].key != es[j].key
  }

  predicate FlagSlot(s: string) { |s| >= 2 && s[0] == '-' && s[1] == '-' }

  const PRETTY: map<string, string> := map[
    "TLSEnabled" := "tls", "LogLevel" := "log-level", "CertPath" := "cert-path", "KeyPath" := "key-path",
    "RootCertPaths" := "root-cert-paths", "Pprof" := "pprof"]

  predicate Kept(e: Entry) { e.key in PRETTY && e.value != Bool(false) }

  function Filter(p: Entry -> bool, es: seq<Entry>): seq<Entry> {
    if es == [] then [] else if p(es[0]) then [es[0]] + Filter(p, es[1..]) else Filter(p, es[1..])
  }

  function KeptEntries(es: seq<Entry>): seq<Entry> { Filter(Kept, es) }

  function Print(v: Json): string {
    match v
    case Bool(b) => if b then "true" else "false"
    case Other(text) => text
  }

  /** Every double quote is dropped. */
  function Unquoted(s: string): string {
    if s == "" then "" else if s[0] == '"' then Unquoted(s[1..]) else [s[0]] + Unquoted(s[1..])
  }

  /** Two slots for each kept key. */
  function Slots(es: seq<Entry>): seq<string>
    requires forall e :: e in es ==> e.key in PRETTY
  {
    if es == [] then []
    else Slots(es[..|es| - 1]) + [Unquoted("--" + PRETTY[es[|es| - 1].key]), Unquoted(Print(es[|es| - 1].value))]
  }

  lemma {:induction false} SlotsCount(es: seq<Entry>)
    requires forall e :: e in es ==> e.key in PRETTY
    ensures |Slots(es)| == 2 * |es|
    ensures es != [] ==> FlagSlot(Slots(es)[0])
    decreases es
  {
    if es != [] {
      var init := es[..|es| - 1];
      SlotsCount(init);
      DashesStay(PRETTY[es[|es| - 1].key]);
      if init == [] {
        assert Slots(es)[0] == Unquoted("--" + PRETTY[es[|es| - 1].key]);
      } else {
        assert Slots(es)[0] == Slots(init)[0];
      }
    }
  }

  const QUOTE := '"'

  predicate QuoteFree(s: string) { QUOTE !in s }

  /** What dropping the quotes means: it works character by character, none is left, and nothing else goes. */
  lemma {:induction false} UnquotedMeans(s: string, t: string)
    ensures Unquoted([QUOTE]) == ""
    ensures QuoteFree(Unquoted(s))
    ensures QuoteFree(s) ==> Unquoted(s) == s
    ensures Unquoted(s + t) == Unquoted(s) + Unquoted(t)
    decreases s
  {
    if s == "" {
      assert s + t == t;
    } else {
      assert (s + t)[1..] == s[1..] + t;
      assert s == [s[0]] + s[1..];
      UnquotedMeans(s[1..], t);
    }
  }

  /** Which keys are flags, and that only false is dropped. */
  lemma KeptMeans(e: Entry)
    ensures Kept(e) <==>
      && e.key in {"TLSEnabled", "LogLevel", "CertPath", "KeyPath", "RootCertPaths", "Pprof"}
      && !(e.value.Bool? && !e.value.b)
  {
  }

  /** The name slot of each key. */
  predicate NamedBy(key: string, slot: string) {
    && (key == "TLSEnabled" ==> slot == "--" + "tls")
    && (key == "LogLevel" ==> slot == "--" + "log-level")
    && (key == "CertPath" ==> slot == "--" + "cert-path")
    && (key == "KeyPath" ==> slot == "--" + "key-path")
    && (key == "RootCertPaths" ==> slot == "--" + "root-cert-paths")
    && (key == "Pprof" ==> slot == "--" + "pprof")
  }

  /** The value slot: a boolean in words, or the printed value without its double quotes. */
  predicate ValuedBy(value: Json, slot: string) {
    && QuoteFree(slot)
    && match value
       case Bool(b) => slot == if b then "true" else "false"
       case Other(text) => slot == Unquoted(text) && (QuoteFree(text) ==> slot == text)
  }

  lemma PrettyHasNoQuotes(key: string)
    requires key in PRETTY
    ensures QuoteFree("--" + PRETTY[key])
  {
  }

  lemma NameSlot(key: string)
    requires key in PRETTY
    ensures NamedBy(key, Unquoted("--" + PRETTY[key]))
  {
    hide Unquoted;
    PrettyHasNoQuotes(key);
    UnquotedMeans("--" + PRETTY[key], "");
  }

  lemma ValueSlot(value: Json)
    ensures ValuedBy(value, Unquoted(Print(value)))
  {
    UnquotedMeans(Print(value), "");
  }

  /** Which slot holds what. */
  lemma {:induction false} SlotAt(es: seq<Entry>, i: nat)
    requires (forall e :: e in es ==> e.key in PRETTY) && i < |es|
    ensures |Slots(es)| == 2 * |es|
    ensures NamedBy(es[i].key, Slots(es)[2 * i]) && ValuedBy(es[i].value, Slots(es)[2 * i + 1])
    decreases es
  {
    hide Unquoted, Print, NamedBy, ValuedBy;
    var init := es[..|es| - 1];
    SlotsCount(es);
    SlotsCount(init);
    if i < |init| {
      SlotAt(init, i);
      assert Slots(es)[..2 * |init|] == Slots(init);
    } else {
      NameSlot(es[i].key);
      ValueSlot(es[i].value);
    }
  }

  lemma DashesStay(s: string)
    ensures FlagSlot(Unquoted("--" + s))
  {
    assert ("--" + s)[1..] == "-" + s && ("-" + s)[1..] == s;
    assert Unquoted("-" + s) == "-" + Unquoted(s);
    assert Unquoted("--" + s) == "-" + ("-" + Unquoted(s));
  }

  lemma {:induction false} FilterMeans(p: Entry -> bool, es: seq<Entry>)
    ensures forall e :: e in Filter(p, es) <==> e in es && p(e)
    decreases es
  {
    if es != [] {
      FilterMeans(p, es[1..]);
      assert es == [es[0]] + es[1..];
    }
  }

  // ----- rewriting, level by level

  predicate Rewritable(read: string -> Reading, s: string) { read(s).Object? || read(s).Empty? }

  function ArgumentSlots(read: string -> Reading, s: string): seq<string> {
    if read(s).Object? then
      FilterMeans(Kept, read(s).entries);
      Slots(KeptEntries(read(s).entries))
    else []
  }

  /** The slots generated from a list of JSON arguments, in order. */
  function AllSlots(read: string -> Reading, args: seq<string>): seq<string> {
    if args == [] then [] else ArgumentSlots(read, args[0]) + AllSlots(read, args[1..])
  }

  /** How many arguments are rewritten away: the leading ones that are JSON. */
  function Leading(read: string -> Reading, args: seq<string>): (n: nat)
    ensures n <= |args|
  {
    if args == [] || !Rewritable(read, args[0]) then 0 else 1 + Leading(read, args[1..])
  }

  /** All arguments but the program; there may be no program either. */
  function Arguments(argv: seq<string>): seq<string> { if argv == [] then [] else argv[1..] }

  /** The argument vector after `k` rewrites: the program, the arguments behind the first `k`, and the
      slots of those `k`. */
  function Vector(read: string -> Reading, argv: seq<string>, k: nat): seq<string>
    requires k < |argv|
  {
    [argv[0]] + argv[1 + k..] + AllSlots(read, argv[1..1 + k])
  }

  /** The rewritten vectors, the most rewritten one first. */
  function Deeper(read: string -> Reading, argv: seq<string>, k: nat): (vs: seq<seq<string>>)
    requires k < |argv| || k == 0
    ensures |vs| == k
  {
    if k == 0 then [] else [Vector(read, argv, k)] + Deeper(read, argv, k - 1)
  }

  datatype Status = Ok | Fail | Exit

  /** The option parser's answers: stored, refused, or help asked for, which ends the process. It may
      depend on everything it was given before. */
  type OptionParser = seq<seq<string>> -> Status

  /** Vectors are tried in order until one is not refused. */
  function Run(options: OptionParser, tried: seq<seq<string>>, vs: seq<seq<string>>): (Status, seq<seq<string>>)
    decreases vs
  {
    if vs == [] then (Fail, tried)
    else
      var now := tried + [vs[0]];
      if options(now) == Fail then Run(options, now, vs[1..]) else (options(now), now)
  }

  // ----- one rewrite against the closed form

  lemma {:induction false} AllSlotsConcat(read: string -> Reading, a: seq<string>, b: seq<string>)
    ensures AllSlots(read, a + b) == AllSlots(read, a) + AllSlots(read, b)
    decreases a
  {
    hide ArgumentSlots;
    if a == [] {
      assert a + b == b;
    } else {
      assert (a + b)[1..] == a[1..] + b;
      AllSlotsConcat(read, a[1..], b);
    }
  }

  /** The rewritten vector, made of `own` arguments still given by the user and then generated slots. */
  ghost predicate Shape(argv: seq<string>, own: nat) {
    (|argv| == 0 && own == 0) || (own < |argv| && (own + 1 < |argv| ==> FlagSlot(argv[own + 1])))
  }

  lemma {:induction false} LeadingStops(read: string -> Reading, args: seq<string>, own: nat)
    requires Reads(read) && own <= |args| && (own < |args| ==> FlagSlot(args[own]))
    ensures Leading(read, args) <= own
    ensures Leading(read, args) == Leading(read, args[..own])
    decreases own
  {
    if own > 0 && Rewritable(read, args[0]) {
      LeadingStops(read, args[1..], own - 1);
      assert args[..own][1..] == args[1..][..own - 1];
    }
  }

  lemma FirstVector(read: string -> Reading, argv: seq<string>)
    requires |argv| >= 2
    ensures Vector(read, argv, 1) == [argv[0]] + argv[2..] + ArgumentSlots(read, argv[1])
  {
    hide ArgumentSlots;
    var one := argv[1..2];
    assert one[1..] == [] && one[0] == argv[1];
    assert AllSlots(read, one) == ArgumentSlots(read, argv[1]) + AllSlots(read, []);
    assert AllSlots(read, one) == ArgumentSlots(read, argv[1]);
  }

  lemma ArgumentSlotsStart(read: string -> Reading, s: string)
    ensures ArgumentSlots(read, s) != [] ==> FlagSlot(ArgumentSlots(read, s)[0])
  {
    if read(s).Object? {
      FilterMeans(Kept, read(s).entries);
      SlotsCount(KeptEntries(read(s).entries));
    }
  }

  lemma FirstBehindOwn(argv: seq<string>, slots: seq<string>, own: nat)
    requires |argv| >= 2 && 1 <= own < |argv|
    requires own + 1 < |argv| ==> FlagSlot(argv[own + 1])
    requires slots != [] ==> FlagSlot(slots[0])
    ensures var v := [argv[0]] + argv[2..] + slots; own < |v| ==> FlagSlot(v[own])
  {
    hide FlagSlot;
    var v := [argv[0]] + argv[2..] + slots;
    if own + 1 < |argv| {
      assert v[own] == argv[own + 1];
    } else if slots != [] {
      assert v[own] == slots[0];
    }
  }

  /** Rewriting once keeps the shape, with one argument less. */
  lemma RewriteShape(read: string -> Reading, argv: seq<string>, own: nat)
    requires Reads(read) && Shape(argv, own) && |argv| >= 2 && Rewritable(read, argv[1])
    ensures own >= 1 && Shape(Vector(read, argv, 1), own - 1)
    ensures Leading(read, argv[1..]) == 1 + Leading(read, Vector(read, argv, 1)[1..])
    ensures Leading(read, argv[1..]) <= own
  {
    hide ArgumentSlots, AllSlots, Vector;
    FirstVector(read, argv);
    ArgumentSlotsStart(read, argv[1]);
    var v := Vector(read, argv, 1);
    LeadingStops(read, argv[1..], own);
    assert own >= 1;
    FirstBehindOwn(argv, ArgumentSlots(read, argv[1]), own);
    LeadingStops(read, v[1..], own - 1);
    var mine := argv[1..1 + own];
    assert argv[1..][..own] == mine && v[1..][..own - 1] == mine[1..];
  }

  /** Further rewrites of the rewritten vector are the later vectors of the original one. */
  lemma VectorShift(read: string -> Reading, argv: seq<string>, k: nat)
    requires k + 1 < |argv|
    ensures k < |Vector(read, argv, 1)|
    ensures Vector(read, Vector(read, argv, 1), k) == Vector(read, argv, k + 1)
  {
    hide AllSlots;
    var s, t := AllSlots(read, argv[1..2]), AllSlots(read, argv[2..2 + k]);
    var v := Vector(read, argv, 1);
    assert argv[1..2 + k] == argv[1..2] + argv[2..2 + k];
    AllSlotsConcat(read, argv[1..2], argv[2..2 + k]);
    assert v[1..1 + k] == argv[2..2 + k] && v[1 + k..] == argv[2 + k..] + s;
    Regroup([argv[0]], argv[2 + k..], s, t);
  }

  lemma Regroup(a: seq<string>, b: seq<string>, c: seq<string>, d: seq<string>)
    ensures a + (b + c) + d == a + b + (c + d)
  {
  }

  lemma {:induction false} DeeperShift(read: string -> Reading, argv: seq<string>, k: nat)
    requires k + 1 < |argv| && k < |Vector(read, argv, 1)|
    ensures Deeper(read, argv, k + 1) == Deeper(read, Vector(read, argv, 1), k) + [Vector(read, argv, 1)]
    decreases k
  {
    hide Vector;
    VectorShift(read, argv, k);
    if k > 0 {
      DeeperShift(read, argv, k - 1);
    }
  }

  /** One more vector at the end matters only when all before it were refused. */
  lemma {:induction false} RunSnoc(options: OptionParser, tried: seq<seq<string>>, vs: seq<seq<string>>, v: seq<string>)
    ensures var (r, t) := Run(options, tried, vs);
            Run(options, tried, vs + [v]) == if r == Fail then (options(t + [v]), t + [v]) else (r, t)
    ensures var (r, t) := Run(options, tried, vs);
            |tried| <= |t| <= |tried| + |vs| && (r == Fail ==> |t| == |tried| + |vs|)
    decreases vs
  {
    if vs == [] {
      assert vs + [v] == [v] && [v][1..] == [];
    } else {
      assert (vs + [v])[1..] == vs[1..] + [v];
      RunSnoc(options, tried + [vs[0]], vs[1..], v);
    }
  }

  /** Run stops at the first vector that is not refused, and hands over nothing after it. */
  lemma {:induction false} RunIsFirstAccepted(options: OptionParser, tried: seq<seq<string>>, vs: seq<seq<string>>)
    ensures var (r, t) := Run(options, tried, vs);
      && |tried| <= |t| <= |tried| + |vs| && t == tried + vs[..|t| - |tried|]
      && (forall i :: |tried| < i < |t| ==> options(t[..i]) == Fail)
      && (if r == Fail then t == tried + vs && (vs != [] ==> options(t) == Fail) else vs != [] && options(t) == r)
    decreases vs
  {
    if vs == [] {
      assert tried + vs == tried;
    } else {
      var now := tried + [vs[0]];
      RunIsFirstAccepted(options, now, vs[1..]);
      var (r, t) := Run(options, tried, vs);
      if options(now) == Fail {
        assert t == now + vs[1..][..|t| - |now|] == tried + vs[..|t| - |tried|];
        assert t[..|now|] == now;
      } else {
        assert now == tried + vs[..1];
      }
    }
  }

  /** Each kept key stands for exactly two arguments, everything else in the JSON for none. */
  lemma VectorLength(read: string -> Reading, argv: seq<string>, k: nat)
    requires k < |argv|
    ensures |Vector(read, argv, k)| == |argv| - k + 2 * KeptCount(read, argv[1..1 + k])
  {
    AllSlotsCount(read, argv[1..1 + k]);
  }

  function KeptCount(read: string -> Reading, args: seq<string>): nat {
    if args == [] then 0
    else (if read(args[0]).Object? then |KeptEntries(read(args[0]).entries)| else 0) + KeptCount(read, args[1..])
  }

  lemma {:induction false} AllSlotsCount(read: string -> Reading, args: seq<string>)
    ensures |AllSlots(read, args)| == 2 * KeptCount(read, args)
    decreases args
  {
    if args != [] {
      AllSlotsCount(read, args[1..]);
      if read(args[0]).Object? {
        FilterMeans(Kept, read(args[0]).entries);
        SlotsCount(KeptEntries(read(args[0]).entries));
      }
    }
  }

  // ----- the code

  /** removeUnusedFlags: what is not a flag, and flags that are false, are collected first and erased after. */
  method RemoveUnusedFlags(es: seq<Entry>) returns (j: seq<Entry>)
    requires DistinctKeys(es)
    ensures j == KeptEntries(es)
  {
    var notFlag: seq<string> := [];
    var i := 0;
    while i < |es|
      invariant i <= |es|
      invariant forall k :: k in notFlag <==> exists m :: 0 <= m < i && es[m].key == k && !Kept(es[m])
    {
      if es[i].key !in PRETTY {
        notFlag := notFlag + [es[i].key];
      } else if es[i].value == Bool(false) {
        notFlag := notFlag + [es[i].key];
      }
      i := i + 1;
    }
    j := es;
    i := 0;
    FilterAll(es, []);
    assert notFlag[..0] == [];
    while i < |notFlag|
      invariant i <= |notFlag|
      invariant j == Filter(Outside(notFlag[..i]), es)
    {
      j := Erase(notFlag[i], j);
      EraseOne(notFlag[..i], notFlag[i], es);
      assert notFlag[..i + 1] == notFlag[..i] + [notFlag[i]];
      i := i + 1;
    }
    assert notFlag[..i] == notFlag;
    forall m | 0 <= m < |es| ensures Kept(es[m]) <==> Outside(notFlag)(es[m]) {
      if es[m].key in notFlag {
        var n :| 0 <= n < |es| && es[n].key == es[m].key && !Kept(es[n]);
        assert n == m;
      }
    }
    SameFilter(Kept, Outside(notFlag), es);
  }

  function Outside(keys: seq<string>): Entry -> bool { (e: Entry) => e.key !in keys }

  /** erase by key */
  function Erase(key: string, es: seq<Entry>): seq<Entry> { Filter(Outside([key]), es) }

  lemma {:induction false} FilterAll(es: seq<Entry>, keys: seq<string>)
    requires keys == []
    ensures Filter(Outside(keys), es) == es
    decreases es
  {
    if es != [] {
      FilterAll(es[1..], keys);
    }
  }

  lemma {:induction false} EraseOne(keys: seq<string>, key: string, es: seq<Entry>)
    ensures Erase(key, Filter(Outside(keys), es)) == Filter(Outside(keys + [key]), es)
    decreases es
  {
    if es != [] {
      var rest := Filter(Outside(keys), es[1..]);
      EraseOne(keys, key, es[1..]);
      if es[0].key !in keys {
        assert ([es[0]] + rest)[1..] == rest;
      }
    }
  }

  lemma {:induction false} SameFilter(p: Entry -> bool, q: Entry -> bool, es: seq<Entry>)
    requires forall m :: 0 <= m < |es| ==> p(es[m]) == q(es[m])
    ensures Filter(p, es) == Filter(q, es)
    decreases es
  {
    if es != [] {
      SameFilter(p, q, es[1..]);
    }
  }

  lemma NoSlots(es: seq<Entry>)
    ensures Slots(es[..0]) == []
  {
  }

  lemma SlotsStep(es: seq<Entry>, n: nat)
    requires (forall e :: e in es ==> e.key in PRETTY) && n < |es|
    ensures Slots(es[..n + 1]) == Slots(es[..n]) + [Unquoted("--" + PRETTY[es[n].key]), Unquoted(Print(es[n].value))]
  {
    assert es[..n + 1][..n] == es[..n];
  }

  /** generateCommandLineFromJson: two slots for every entry, from `index` to the end of the array. */
  method GenerateCommandLineFromJson(es: seq<Entry>, argv: array<string>, index: nat)
    requires (forall e :: e in es ==> e.key in PRETTY) && index + 2 * |es| == argv.Length
    modifies argv
    ensures argv[..] == old(argv[..index]) + Slots(es)
  {
    hide Slots, Unquoted, Print;
    NoSlots(es);
    var at := index;
    var n := 0;
    while n < |es|
      invariant n <= |es| && at == index + 2 * n
      invariant argv[..at] == old(argv[..index]) + Slots(es[..n])
    {
      SlotsStep(es, n);
      argv[at] := Unquoted("--" + PRETTY[es[n].key]);
      at := at + 1;
      argv[at] := Unquoted(Print(es[n].value));
      at := at + 1;
      n := n + 1;
    }
    assert es[..n] == es && argv[..at] == argv[..];
  }

  /** The new vector: each of its slots is written once, from the first to the last. */
  method RewriteArguments(argv: array<string>, entries: seq<Entry>) returns (newArgv: array<string>)
    requires argv.Length >= 2 && forall e :: e in entries ==> e.key in PRETTY
    ensures fresh(newArgv) && newArgv[..] == [argv[0]] + argv[2..] + Slots(entries)
  {
    hide Slots;
    newArgv := new string[argv.Length + 2 * |entries| - 1];
    var i := 0;
    newArgv[i] := argv[i];
    i := 1;
    while i < argv.Length - 1
      invariant 1 <= i <= argv.Length - 1
      invariant newArgv[..i] == [argv[0]] + argv[2..i + 1]
    {
      newArgv[i] := argv[i + 1];
      i := i + 1;
    }
    GenerateCommandLineFromJson(entries, newArgv, i);
    assert argv[2..argv.Length] == argv[2..];
  }

  class FlagParser {
    const read: string -> Reading
    const options: OptionParser
    /** The argument vectors the option parser was given. */
    var tried: seq<seq<string>>
    var frameworkJsonParsed: bool

    constructor (read: string -> Reading, options: OptionParser)
      ensures this.read == read && this.options == options && tried == [] && !frameworkJsonParsed
    {
      this.read, this.options, tried, frameworkJsonParsed := read, options, [], false;
    }

    /** What parsing a vector comes to: the vectors tried, the answer, and whether a rewritten one was
        accepted. */
    twostate predicate Parsed(argv: seq<string>, r: Status)
      reads this
    {
      var k := Leading(read, Arguments(argv));
      && (r, tried) == Run(options, old(tried), Deeper(read, argv, k) + [argv])
      && frameworkJsonParsed == (old(frameworkJsonParsed) || (r == Ok && |tried| - |old(tried)| <= k))
    }

    /** The same for the rewritten vectors alone. */
    twostate predicate Rewritten(argv: seq<string>, r: Status)
      reads this
    {
      var k := Leading(read, Arguments(argv));
      && (r, tried) == Run(options, old(tried), Deeper(read, argv, k))
      && frameworkJsonParsed == (old(frameworkJsonParsed) || (r == Ok && |tried| - |old(tried)| < k))
    }

    method ParseCommandLineFlags(argv: array<string>, ghost own: nat) returns (r: Status)
      requires Reads(read) && Shape(argv[..], own)
      modifies this`tried, this`frameworkJsonParsed
      ensures Parsed(argv[..], r)
      decreases own, 1
    {
      ghost var k := Leading(read, Arguments(argv[..]));
      RunSnoc(options, tried, Deeper(read, argv[..], k), argv[..]);
      r := ParseJsonFlags(argv, own);
      if r == Ok {
        frameworkJsonParsed := true;
        return;
      }
      if r == Exit {
        return;
      }
      tried := tried + [argv[..]];
      r := options(tried);
    }

    /** The rewritten vector, if the first argument is JSON. No vector also stands for the exception thrown
        on JSON without keys, which the only caller treats like the return of 1. */
    method RewriteJson(argv: array<string>) returns (newArgv: array?<string>)
      requires Reads(read)
      ensures newArgv != null <==> argv.Length > 1 && (read(argv[1]).Object? || read(argv[1]).Empty?)
      ensures newArgv != null ==> fresh(newArgv) && newArgv.Length > 0 && newArgv[..] == Vector(read, argv[..], 1)
    {
      if argv.Length <= 1 {
        return null;
      }
      var reading := read(argv[1]);
      if reading == NotJson || reading == Keyless {
        return null;
      }
      var entries := [];
      if reading.Object? {
        entries := RemoveUnusedFlags(reading.entries);
        FilterMeans(Kept, reading.entries);
      }
      newArgv := RewriteArguments(argv, entries);
      FirstVector(read, argv[..]);
      assert argv[2..] == argv[..][2..];
    }

    method ParseJsonFlags(argv: array<string>, ghost own: nat) returns (r: Status)
      requires Reads(read) && Shape(argv[..], own)
      modifies this`tried, this`frameworkJsonParsed
      ensures Rewritten(argv[..], r)
      decreases own, 0
    {
      hide Vector, Shape;
      var newArgv := RewriteJson(argv);
      if newArgv == null {
        assert Leading(read, Arguments(argv[..])) == 0;
        return Fail;
      }
      ghost var vector, rewritten := argv[..], newArgv[..];
      ghost var k := Leading(read, Arguments(vector));
      RewriteShape(read, vector, own);
      r := ParseCommandLineFlags(newArgv, own - 1);
      assert argv[..] == vector && newArgv[..] == rewritten;
      DeeperShift(read, vector, k - 1);
      RunSnoc(options, old(tried), Deeper(read, rewritten, k - 1), rewritten);
    }

    /** ParseFlags, up to the configuration file: every argument is the user's. */
    method ParseFlags(argv: array<string>) returns (r: Status)
      requires Reads(read)
      modifies this`tried, this`frameworkJsonParsed
      ensures Parsed(argv[..], r)
    {
      r := ParseCommandLineFlags(argv, if argv.Length == 0 then 0 else argv.Length - 1);
    }
  }
}
