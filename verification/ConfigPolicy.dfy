/** Config policies and their defaults: rules are stored under a namespace joined with dots, and the
    defaults of all of them are offered to a configuration in whatever order the hash maps iterate. */
module ConfigPolicies {

  import opened Options
  import opened Seqs

  // ----- keys

  /** The parts with a dot between each two. */
  function Join(ns: seq<string>): string {
    if ns == [] then "" else if |ns| == 1 then ns[0] else ns[0] + "." + Join(ns[1..])
  }

  function Split(s: string): (parts: seq<string>)
    ensures parts != []
  {
    if s == "" then [""]
    else
      var rest := Split(s[1..]);
      if s[0] == '.' then [""] + rest else [[s[0]] + rest[0]] + rest[1..]
  }

  predicate DotFree(ns: seq<string>) { forall i :: 0 <= i < |ns| ==> '.' !in ns[i] }

  lemma {:induction false} SplitIsDotFree(s: string)
    ensures DotFree(Split(s))
    decreases s
  {
    if s != "" {
      SplitIsDotFree(s[1..]);
    }
  }

  lemma {:induction false} SplitPart(p: string, s: string)
    requires '.' !in p
    ensures Split(p + s) == [p + Split(s)[0]] + Split(s)[1..]
    decreases p
  {
    if p == "" {
      assert p + s == s && p + Split(s)[0] == Split(s)[0];
    } else {
      assert (p + s)[1..] == p[1..] + s;
      SplitPart(p[1..], s);
      assert [p[0]] + (p[1..] + Split(s)[0]) == p + Split(s)[0];
    }
  }

  lemma {:induction false} SplitJoin(ns: seq<string>)
    requires ns != [] && DotFree(ns)
    ensures Split(Join(ns)) == ns
    decreases ns
  {
    if |ns| == 1 {
      SplitPart(ns[0], "");
      assert ns[0] + "" == ns[0];
    } else {
      var rest := Join(ns[1..]);
      SplitJoin(ns[1..]);
      SplitPart(ns[0], "." + rest);
      assert ("." + rest)[1..] == rest;
      assert ns[0] + ("." + rest) == Join(ns);
      assert Split("." + rest) == [""] + ns[1..];
      assert ns[0] + "" == ns[0] && ns == [ns[0]] + ns[1..];
    }
  }

  /** A namespace comes back from splitting its key exactly when it has parts and none contains a dot. */
  lemma KeySplitsBack(ns: seq<string>)
    ensures Split(Join(ns)) == ns <==> ns != [] && DotFree(ns)
  {
    SplitIsDotFree(Join(ns));
    if ns != [] && DotFree(ns) {
      SplitJoin(ns);
    }
  }

  /** The pieces of a namespace: its parts, each cut at its own dots; no part at all counts as an empty one. */
  function Pieces(ns: seq<string>): seq<string> {
    if ns == [] then [""] else if |ns| == 1 then Split(ns[0]) else Split(ns[0]) + Pieces(ns[1..])
  }

  lemma {:induction false} SplitAtDot(p: string, s: string)
    ensures Split(p + "." + s) == Split(p) + Split(s)
    decreases p
  {
    if p == "" {
      assert p + "." + s == "." + s && ("." + s)[1..] == s;
    } else {
      assert (p + "." + s)[1..] == p[1..] + "." + s;
      SplitAtDot(p[1..], s);
    }
  }

  lemma {:induction false} SplitGivesPieces(ns: seq<string>)
    ensures Split(Join(ns)) == Pieces(ns)
    decreases ns
  {
    if |ns| > 1 {
      SplitAtDot(ns[0], Join(ns[1..]));
      SplitGivesPieces(ns[1..]);
    }
  }

  lemma {:induction false} JoinSplit(s: string)
    ensures Join(Split(s)) == s
    decreases s
  {
    if s != "" {
      var rest := Split(s[1..]);
      JoinSplit(s[1..]);
      assert s == [s[0]] + s[1..];
      if s[0] == '.' {
        assert ([""] + rest)[1..] == rest;
      } else {
        var first := [s[0]] + rest[0];
        assert ([first] + rest[1..])[1..] == rest[1..];
        assert |rest| > 1 ==> first + "." + Join(rest[1..]) == [s[0]] + (rest[0] + "." + Join(rest[1..]));
      }
    }
  }

  /** Two namespaces share a key exactly when their pieces are the same. */
  lemma KeysCollide(a: seq<string>, b: seq<string>)
    ensures Join(a) == Join(b) <==> Pieces(a) == Pieces(b)
  {
    SplitGivesPieces(a);
    SplitGivesPieces(b);
    JoinSplit(Join(a));
    JoinSplit(Join(b));
  }

  lemma {:induction false} PiecesCount(ns: seq<string>)
    requires ns != []
    ensures |Pieces(ns)| >= |ns|
    decreases ns
  {
    if |ns| > 1 {
      PiecesCount(ns[1..]);
    }
  }

  lemma {:induction false} SplitCount(s: string)
    ensures |Split(s)| == 1 <==> '.' !in s
    decreases s
  {
    if s != "" {
      SplitCount(s[1..]);
      assert s == [s[0]] + s[1..];
    }
  }

  /** Another namespace with the same key. */
  function Twin(ns: seq<string>): seq<string> {
    if ns == [] then [""] else if |ns| > 1 then [Join(ns)] else if ns[0] == "" then [] else Split(ns[0])
  }

  predicate SameKey(a: seq<string>, b: seq<string>) { Join(a) == Join(b) }

  /** A namespace has its key to itself exactly when it is a single part, not empty and without a dot. */
  lemma KeyIsItsOwn(ns: seq<string>)
    ensures (forall other :: SameKey(other, ns) ==> other == ns)
       <==> |ns| == 1 && ns[0] != "" && '.' !in ns[0]
  {
    if |ns| == 1 && ns[0] != "" && '.' !in ns[0] {
      forall other | SameKey(other, ns) ensures other == ns {
        KeysCollide(other, ns);
        SplitCount(ns[0]);
        if other != [] {
          PiecesCount(other);
          assert |other| == 1 && Join(other) == other[0];
        }
      }
    } else {
      if |ns| == 1 {
        JoinSplit(ns[0]);
        SplitCount(ns[0]);
      }
      assert SameKey(Twin(ns), ns) && Twin(ns) != ns;
    }
  }

  lemma JoinNothing()
    ensures Join([]) == ""
  {
  }

  lemma JoinFrom(ns: seq<string>, n: nat)
    requires n < |ns|
    ensures Join(ns[n..]) == if n + 1 == |ns| then ns[n] else ns[n] + "." + Join(ns[n + 1..])
  {
    assert ns[n..][1..] == ns[n + 1..];
  }

  lemma Regroup(a: string, b: string, c: string, d: string)
    ensures a + (b + c + d) == a + b + c + d
  {
  }

  method BuildKey(ns: seq<string>) returns (key: string)
    ensures key == Join(ns)
  {
    hide Join;
    key := "";
    var i := 1;
    assert ns == [] ==> Join(ns) == "" by {
      JoinNothing();
    }
    assert ns[0..] == ns && key + Join(ns) == Join(ns);
    for n := 0 to |ns|
      invariant i == n + 1
      invariant Join(ns) == if n < |ns| then key + Join(ns[n..]) else key
    {
      JoinFrom(ns, n);
      if i < |ns| {
        Regroup(key, ns[n], ".", Join(ns[n + 1..]));
        key := key + ns[n] + ".";
      }
      if i == |ns| {
        key := key + ns[n];
      }
      i := i + 1;
    }
  }

  // ----- rules

  datatype Rule<V> = Rule(required: bool, default: Option<V>)

  type Rules<V> = map<string, Rule<V>>
  type Policy<V> = map<string, Rules<V>>

  /** A sequence of add_rule calls of one type. */
  function AddAll<V>(p: Policy<V>, calls: seq<(seq<string>, Rules<V>)>): Policy<V>
    decreases calls
  {
    if calls == [] then p else AddAll(p[Join(calls[0].0) := calls[0].1], calls[1..])
  }

  /** The last rule of a key wins; a key nobody added keeps what it had. */
  lemma {:induction false} LastRuleWins<V>(p: Policy<V>, calls: seq<(seq<string>, Rules<V>)>, n: nat, key: string)
    requires n <= |calls| && forall i :: n <= i < |calls| ==> Join(calls[i].0) != key
    requires n > 0 ==> Join(calls[n - 1].0) == key
    ensures key in AddAll(p, calls) <==> n > 0 || key in p
    ensures key in AddAll(p, calls) ==> AddAll(p, calls)[key] == if n > 0 then calls[n - 1].1 else p[key]
    decreases calls
  {
    if calls != [] {
      var p' := p[Join(calls[0].0) := calls[0].1];
      if n == 1 {
        LastRuleWins(p', calls[1..], 0, key);
      } else {
        LastRuleWins(p', calls[1..], if n > 0 then n - 1 else 0, key);
      }
    }
  }

  /** Of two rules added one after the other, the first is still in force exactly when the pieces of their
      namespaces differ. */
  lemma RuleSurvives<V>(p: Policy<V>, a: seq<string>, first: Rules<V>, b: seq<string>, second: Rules<V>)
    requires first != second
    ensures var q := AddAll(p, [(a, first), (b, second)]);
      && Join(a) in q && Join(b) in q && q[Join(b)] == second
      && (q[Join(a)] == first <==> Pieces(a) != Pieces(b))
  {
    var calls := [(a, first), (b, second)];
    LastRuleWins(p, calls, 2, Join(b));
    KeysCollide(a, b);
    if Join(a) != Join(b) {
      LastRuleWins(p, calls, 1, Join(a));
    }
  }

  class ConfigPolicy {
    var strings: Policy<string>
    var ints: Policy<int>
    var bools: Policy<bool>

    constructor ()
      ensures strings == map[] && ints == map[] && bools == map[]
    {
      strings, ints, bools := map[], map[], map[];
    }

    method AddStringRule(ns: seq<string>, rule: Rules<string>)
      modifies this`strings
      ensures strings == AddAll(old(strings), [(ns, rule)])
    {
      var key := BuildKey(ns);
      strings := strings[key := rule];
    }

    method AddIntRule(ns: seq<string>, rule: Rules<int>)
      modifies this`ints
      ensures ints == AddAll(old(ints), [(ns, rule)])
    {
      var key := BuildKey(ns);
      ints := ints[key := rule];
    }

    method AddBoolRule(ns: seq<string>, rule: Rules<bool>)
      modifies this`bools
      ensures bools == AddAll(old(bools), [(ns, rule)])
    {
      var key := BuildKey(ns);
      bools := bools[key := rule];
    }
  }

  // ----- defaults

  /** An order in which nested maps iterate: every namespace key once, and for each of them every rule once. */
  ghost predicate Walks<V>(outer: seq<string>, inner: map<string, seq<string>>, p: Policy<V>) {
    && Distinct(outer) && (forall n :: n in outer <==> n in p)
    && (forall n :: n in p ==> n in inner && Distinct(inner[n]) && (forall k :: k in inner[n] <==> k in p[n]))
  }

  /** One rule offered: set unless configured already. */
  function Offer<V>(store: V -> V, have: map<string, V>, key: string, rule: Rule<V>): map<string, V> {
    if rule.default.Some? && key !in have then have[key := store(rule.default.value)] else have
  }

  function OfferRules<V>(store: V -> V, have: map<string, V>, rules: Rules<V>, keys: seq<string>): map<string, V>
    requires forall k :: k in keys ==> k in rules
  {
    if keys == [] then have
    else
      var last := keys[|keys| - 1];
      Offer(store, OfferRules(store, have, rules, keys[..|keys| - 1]), last, rules[last])
  }

  function OfferAll<V>(
    store: V -> V, have: map<string, V>, p: Policy<V>, outer: seq<string>,
    inner: map<string, seq<string>>): map<string, V>
    requires forall n :: n in outer ==> n in p && n in inner && forall k :: k in inner[n] ==> k in p[n]
  {
    if outer == [] then have
    else
      var last := outer[|outer| - 1];
      OfferRules(store, OfferAll(store, have, p, outer[..|outer| - 1], inner), p[last], inner[last])
  }

  /** The nested loops of apply_defaults, for one type of value. */
  method FillDefaults<V>(
    store: V -> V, have: map<string, V>, p: Policy<V>, outer: seq<string>, inner: map<string, seq<string>>)
    returns (now: map<string, V>)
    requires Walks(outer, inner, p)
    ensures now == OfferAll(store, have, p, outer, inner)
  {
    now := have;
    var i := 0;
    while i < |outer|
      invariant i <= |outer|
      invariant now == OfferAll(store, have, p, outer[..i], inner)
    {
      ghost var before := now;
      var rules, keys := p[outer[i]], inner[outer[i]];
      var j := 0;
      while j < |keys|
        invariant j <= |keys|
        invariant now == OfferRules(store, before, rules, keys[..j])
      {
        var rule := rules[keys[j]];
        if rule.default.Some? {
          if keys[j] !in now {
            now := now[keys[j] := store(rule.default.value)];
          }
        }
        assert keys[..j + 1][..j] == keys[..j];
        j := j + 1;
      }
      assert keys[..j] == keys && outer[..i + 1][..i] == outer[..i];
      i := i + 1;
    }
    assert outer[..i] == outer;
  }

  /** Namespace `n` has a default for `k`. */
  predicate Defaults<V>(p: Policy<V>, n: string, k: string) {
    n in p && k in p[n] && p[n][k].default.Some?
  }

  predicate FirstToDefault<V>(p: Policy<V>, outer: seq<string>, i: nat, k: string)
    requires i < |outer|
  {
    Defaults(p, outer[i], k) && forall j :: 0 <= j < i ==> !Defaults(p, outer[j], k)
  }

  lemma {:induction false} RulesOffered<V>(store: V -> V, have: map<string, V>, rules: Rules<V>, keys: seq<string>,
      k: string)
    requires forall x :: x in keys ==> x in rules
    ensures var r := OfferRules(store, have, rules, keys);
      && (k in r <==> k in have || (k in keys && rules[k].default.Some?))
      && (k in r ==> r[k] == if k in have then have[k] else store(rules[k].default.value))
    decreases keys
  {
    if keys != [] {
      RulesOffered(store, have, rules, keys[..|keys| - 1], k);
      assert keys == keys[..|keys| - 1] + [keys[|keys| - 1]];
    }
  }

  /** What one key ends up with: its configured value, or the default of the first namespace that has one. */
  lemma {:induction false} FirstDefaultWins<V>(
    store: V -> V, have: map<string, V>, p: Policy<V>, outer: seq<string>, inner: map<string, seq<string>>, k: string)
    requires forall n :: n in outer ==> n in p && n in inner && forall x :: x in inner[n] <==> x in p[n]
    ensures var r := OfferAll(store, have, p, outer, inner);
      && (k in have ==> k in r && r[k] == have[k])
      && (k in r <==> k in have || exists i :: 0 <= i < |outer| && Defaults(p, outer[i], k))
      && (forall i :: 0 <= i < |outer| && k !in have && FirstToDefault(p, outer, i, k) ==>
            k in r && r[k] == store(p[outer[i]][k].default.value))
    decreases outer
  {
    if outer != [] {
      var init, last := outer[..|outer| - 1], outer[|outer| - 1];
      FirstDefaultWins(store, have, p, init, inner, k);
      var before := OfferAll(store, have, p, init, inner);
      RulesOffered(store, before, p[last], inner[last], k);
      assert forall i :: 0 <= i < |init| ==> outer[i] == init[i];
    }
  }

  /** Some namespace has a default for `k`. */
  ghost predicate HasDefault<V>(p: Policy<V>, k: string) { exists n :: Defaults(p, n, k) }

  /** Every configured value is kept, and exactly the missing keys that have a default are added, each with
      a default of one of its rules. */
  lemma DefaultsFillTheGaps<V>(
    store: V -> V, have: map<string, V>, p: Policy<V>, outer: seq<string>, inner: map<string, seq<string>>)
    requires Walks(outer, inner, p)
    ensures var r := OfferAll(store, have, p, outer, inner);
      && (forall k :: k in have ==> k in r && r[k] == have[k])
      && (forall k :: k in r <==> k in have || HasDefault(p, k))
      && (forall k :: k in r && k !in have ==> exists n :: Defaults(p, n, k) && r[k] == store(p[n][k].default.value))
  {
    var r := OfferAll(store, have, p, outer, inner);
    forall k
      ensures k in have ==> k in r && r[k] == have[k]
      ensures k in r <==> k in have || HasDefault(p, k)
      ensures k in r && k !in have ==> exists n :: Defaults(p, n, k) && r[k] == store(p[n][k].default.value)
    {
      FirstDefaultWins(store, have, p, outer, inner, k);
      if n :| Defaults(p, n, k) {
        var i :| 0 <= i < |outer| && outer[i] == n;
        assert Defaults(p, outer[i], k);
      }
      if k in r && k !in have {
        var i :| 0 <= i < |outer| && Defaults(p, outer[i], k);
        var first := FirstWithDefault(p, outer, k, i);
        assert Defaults(p, outer[first], k);
      }
    }
  }

  lemma {:induction false} FirstWithDefault<V>(p: Policy<V>, outer: seq<string>, k: string, i: nat) returns (first: nat)
    requires i < |outer| && Defaults(p, outer[i], k)
    ensures first <= i && FirstToDefault(p, outer, first, k)
    decreases i
  {
    if j :| 0 <= j < i && Defaults(p, outer[j], k) {
      first := FirstWithDefault(p, outer, k, j);
    } else {
      first := i;
    }
  }

  /** A second application changes nothing, even if the maps iterate differently by then. */
  lemma DefaultsAreIdempotent<V>(
    store: V -> V, have: map<string, V>, p: Policy<V>, outer: seq<string>, inner: map<string, seq<string>>,
    outer': seq<string>, inner': map<string, seq<string>>)
    requires Walks(outer, inner, p) && Walks(outer', inner', p)
    ensures var r := OfferAll(store, have, p, outer, inner);
            OfferAll(store, r, p, outer', inner') == r
  {
    hide OfferAll;
    var r := OfferAll(store, have, p, outer, inner);
    DefaultsFillTheGaps(store, have, p, outer, inner);
    DefaultsFillTheGaps(store, r, p, outer', inner');
    assert OfferAll(store, r, p, outer', inner').Keys == r.Keys;
  }

  /** All defaults of every missing key are stored as the same value. */
  ghost predicate Agree<V>(store: V -> V, have: map<string, V>, p: Policy<V>) {
    forall k, n, m :: k !in have && Defaults(p, n, k) && Defaults(p, m, k) ==>
      store(p[n][k].default.value) == store(p[m][k].default.value)
  }

  /** The result does not depend on iteration order exactly when the defaults agree. */
  lemma OrderMattersUnlessDefaultsAgree<V>(store: V -> V, have: map<string, V>, p: Policy<V>)
    ensures Agree(store, have, p) <==>
      forall o1, i1, o2, i2 :: Walks(o1, i1, p) && Walks(o2, i2, p) ==>
        OfferAll(store, have, p, o1, i1) == OfferAll(store, have, p, o2, i2)
  {
    if Agree(store, have, p) {
      forall o1, i1, o2, i2 | Walks(o1, i1, p) && Walks(o2, i2, p)
        ensures OfferAll(store, have, p, o1, i1) == OfferAll(store, have, p, o2, i2)
      {
        AgreeingOrders(store, have, p, o1, i1, o2, i2);
      }
    } else {
      var k, n, m :| k !in have && Defaults(p, n, k) && Defaults(p, m, k)
        && store(p[n][k].default.value) != store(p[m][k].default.value);
      var o1, o2, inner := DisagreeingOrders(store, have, p, k, n, m);
    }
  }

  /** Two namespaces that disagree about a missing key: whichever is visited first wins. */
  lemma DisagreeingOrders<V>(store: V -> V, have: map<string, V>, p: Policy<V>, k: string, n: string, m: string)
    returns (o1: seq<string>, o2: seq<string>, inner: map<string, seq<string>>)
    requires k !in have && Defaults(p, n, k) && Defaults(p, m, k)
    requires store(p[n][k].default.value) != store(p[m][k].default.value)
    ensures Walks(o1, inner, p) && Walks(o2, inner, p)
    ensures OfferAll(store, have, p, o1, inner) != OfferAll(store, have, p, o2, inner)
  {
    inner := map x | x in p :: Enumerate(p[x].Keys);
    o1, o2 := StartWith(n, p.Keys), StartWith(m, p.Keys);
    FirstDefaultWins(store, have, p, o1, inner, k);
    FirstDefaultWins(store, have, p, o2, inner, k);
    assert FirstToDefault(p, o1, 0, k) && FirstToDefault(p, o2, 0, k);
  }

  lemma AgreeingOrders<V>(
    store: V -> V, have: map<string, V>, p: Policy<V>, o1: seq<string>, i1: map<string, seq<string>>,
    o2: seq<string>, i2: map<string, seq<string>>)
    requires Agree(store, have, p) && Walks(o1, i1, p) && Walks(o2, i2, p)
    ensures OfferAll(store, have, p, o1, i1) == OfferAll(store, have, p, o2, i2)
  {
    DefaultsFillTheGaps(store, have, p, o1, i1);
    DefaultsFillTheGaps(store, have, p, o2, i2);
  }

  ghost function Enumerate(keys: set<string>): (order: seq<string>)
    ensures Distinct(order) && forall k :: k in order <==> k in keys
    decreases |keys|
  {
    if keys == {} then [] else var k :| k in keys; [k] + Enumerate(keys - {k})
  }

  ghost function StartWith(n: string, keys: set<string>): (order: seq<string>)
    requires n in keys
    ensures Distinct(order) && (forall k :: k in order <==> k in keys) && order[..1] == [n]
  {
    [n] + Enumerate(keys - {n})
  }

  // ----- the configuration

  function Same<V>(v: V): V { v }

  /** set_int takes an int: a 64-bit default loses its upper half. */
  function AsInt(v: int): int {
    var low := v % 0x1_0000_0000;
    if low < 0x8000_0000 then low else low - 0x1_0000_0000
  }

  /** A default integer keeps its lower 32 bits, and so arrives unchanged exactly when it fits an int. */
  lemma IntDefaultSurvives(v: int)
    requires -0x8000_0000_0000_0000 <= v < 0x8000_0000_0000_0000
    ensures AsInt(v) == v <==> -0x8000_0000 <= v < 0x8000_0000
    ensures -0x8000_0000 <= AsInt(v) < 0x8000_0000 && (v - AsInt(v)) % 0x1_0000_0000 == 0
  {
  }

  datatype Walk = Walk(outer: seq<string>, inner: map<string, seq<string>>)

  class Config {
    var strings: map<string, string>
    var ints: map<string, int>
    var bools: map<string, bool>

    constructor (strings: map<string, string>, ints: map<string, int>, bools: map<string, bool>)
      ensures this.strings == strings && this.ints == ints && this.bools == bools
    {
      this.strings, this.ints, this.bools := strings, ints, bools;
    }

    /** The walks are the orders in which the policy's maps happen to iterate. */
    method ApplyDefaults(from: ConfigPolicy, ws: Walk, wi: Walk, wb: Walk)
      requires Walks(ws.outer, ws.inner, from.strings)
      requires Walks(wi.outer, wi.inner, from.ints)
      requires Walks(wb.outer, wb.inner, from.bools)
      modifies this
      ensures strings == OfferAll(Same, old(strings), from.strings, ws.outer, ws.inner)
      ensures ints == OfferAll(AsInt, old(ints), from.ints, wi.outer, wi.inner)
      ensures bools == OfferAll(Same, old(bools), from.bools, wb.outer, wb.inner)
    {
      strings := FillDefaults(Same, strings, from.strings, ws.outer, ws.inner);
      ints := FillDefaults(AsInt, ints, from.ints, wi.outer, wi.inner);
      bools := FillDefaults(Same, bools, from.bools, wb.outer, wb.inner);
    }
  }
}
