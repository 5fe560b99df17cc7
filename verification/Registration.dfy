/** The two ways in which plugins are registered: `GzPluginHook` collects the plugins of one
    shared library for a Loader, and `StaticRegistry` those that are linked into the program. */
module Registration {
  import opened Common
  import opened Registries

  type Demangler = string -> string

  /** Two types never share a demangled name. */
  ghost predicate Injective(demangle: Demangler) {
    forall m, n :: demangle(m) == demangle(n) ==> m == n
  }

  function DemangledKeys(info: Info, demangle: Demangler): set<string> {
    set k | k in info.interfaces :: demangle(k)
  }

  // ---------------------------------------------------------------- what the operations do

  /** `unordered_map::insert` never overwrites: the casts that are known win. */
  function Merge(entry: Info, input: Info): Info {
    entry.(interfaces := input.interfaces + entry.interfaces, aliases := entry.aliases + input.aliases)
  }

  /** `entry` with the casts and aliases of `input` that it lacked; nothing that it had is replaced. */
  ghost predicate Accumulates(entry: Info, input: Info, result: Info) {
    && result.name == entry.name && result.aliases == entry.aliases + input.aliases
    && result.interfaces.Keys == entry.interfaces.Keys + input.interfaces.Keys
    && (forall k | k in entry.interfaces :: result.interfaces[k] == entry.interfaces[k])
    && (forall k | k in input.interfaces && k !in entry.interfaces :: result.interfaces[k] == input.interfaces[k])
  }

  function Hooked(pluginMap: map<string, Info>, input: Info): map<string, Info> {
    pluginMap[input.name := if input.name in pluginMap then Merge(pluginMap[input.name], input) else input]
  }

  function StaticEntry(t: Tables, info: Info, demangle: Demangler): Info {
    var name := demangle(info.name);
    var entry := if name in t.plugins then Merge(t.plugins[name], info) else info.(name := name);
    entry.(demangledInterfaces := entry.demangledInterfaces + DemangledKeys(info, demangle))
  }

  function StaticAdded(t: Tables, info: Info, demangle: Demangler): Tables {
    var name := demangle(info.name);
    Tables(IndexAdd(t.aliases, info.aliases, name), t.plugins[name := StaticEntry(t, info, demangle)])
  }

  /** What `Loader::LoadLib` makes of an Info before it adds it. */
  function Prepared(info: Info, demangle: Demangler): Info {
    info.(name := demangle(info.name),
          demangledInterfaces := info.demangledInterfaces + DemangledKeys(info, demangle))
  }

  function PreparedAll(delivered: seq<Info>, demangle: Demangler): seq<Info> {
    seq(|delivered|, i requires 0 <= i < |delivered| => Prepared(delivered[i], demangle))
  }

  /** `entry` is what a registry should hold of the registration `p` when it knew nothing of the
      plugin: the demangled names of all its interfaces are among those it can be asked for. */
  ghost predicate StoredAs(entry: Info, p: Info, demangle: Demangler) {
    && entry.name == demangle(p.name) && entry.aliases == p.aliases && entry.interfaces == p.interfaces
    && (forall d :: d in entry.demangledInterfaces <==>
          d in p.demangledInterfaces || exists k :: k in p.interfaces && demangle(k) == d)
  }

  lemma PreparedStored(p: Info, demangle: Demangler)
    ensures StoredAs(Prepared(p, demangle), p, demangle)
  {
  }

  // ---------------------------------------------------------------- the classes

  /** The static variable of `GzPluginHook` and the part of the function that fills it. */
  class PluginHook {
    var pluginMap: map<string, Info>

    constructor ()
      ensures pluginMap == map[]
    {
      pluginMap := map[];
    }

    method Input(input: Info)
      modifies this
      ensures pluginMap == Hooked(old(pluginMap), input)
      ensures input.name in pluginMap && pluginMap.Keys == old(pluginMap).Keys + {input.name}
      ensures forall n | n in old(pluginMap) && n != input.name :: pluginMap[n] == old(pluginMap)[n]
      ensures input.name !in old(pluginMap) ==> pluginMap[input.name] == input
      ensures input.name in old(pluginMap) ==> Accumulates(old(pluginMap)[input.name], input, pluginMap[input.name])
    {
      if input.name !in pluginMap {
        pluginMap := pluginMap[input.name := input];
        return;
      }
      var entry := pluginMap[input.name];
      var interfaces := InsertInterfaces(entry.interfaces, input.interfaces);
      var aliases := entry.aliases;
      var rest := input.aliases;
      while rest != {}
        invariant rest <= input.aliases
        invariant aliases == entry.aliases + (input.aliases - rest)
        decreases rest
      {
        var a :| a in rest;
        aliases := aliases + {a};
        rest := rest - {a};
      }
      assert input.aliases - rest == input.aliases;
      pluginMap := pluginMap[input.name := entry.(interfaces := interfaces, aliases := aliases)];
    }
  }

  method InsertInterfaces(known: map<string, int>, more: map<string, int>) returns (all: map<string, int>)
    ensures all == more + known
    ensures forall k | k in known :: all[k] == known[k]
  {
    all := known;
    var rest := more.Keys;
    while rest != {}
      invariant rest <= more.Keys
      invariant all == (map k | k in more.Keys - rest :: more[k]) + known
      decreases rest
    {
      var k :| k in rest;
      if k !in all {
        all := all[k := more[k]];
      }
      rest := rest - {k};
    }
    assert (map k | k in more.Keys - rest :: more[k]) == more;
  }

  method InsertDemangled(known: set<string>, info: Info, demangle: Demangler) returns (names: set<string>)
    ensures names == known + DemangledKeys(info, demangle)
  {
    names := known;
    var rest := info.interfaces.Keys;
    while rest != {}
      invariant rest <= info.interfaces.Keys
      invariant names == known + set k | k in info.interfaces.Keys - rest :: demangle(k)
      decreases rest
    {
      var k :| k in rest;
      names := names + {demangle(k)};
      rest := rest - {k};
    }
    assert info.interfaces.Keys - rest == info.interfaces.Keys;
  }

  class StaticRegistry {
    var aliases: map<string, set<string>>
    var infos: map<string, Info>
    const demangle: Demangler

    function Value(): Tables
      reads this
    {
      Tables(aliases, infos)
    }

    ghost predicate Valid()
      reads this
    {
      Complete(Value())
    }

    constructor (demangle: Demangler)
      ensures Valid() && Value() == EMPTY_TABLES && this.demangle == demangle
    {
      aliases, infos := map[], map[];
      this.demangle := demangle;
    }

    /** Whatever was known of the plugin stays; the demangled names of all the interfaces that this
        registration brings are added. */
    method AddInfo(info: Info) returns (added: bool)
      requires Valid()
      modifies this
      ensures Valid() && Value() == StaticAdded(old(Value()), info, demangle) && added
      ensures var name := demangle(info.name);
              && name in infos && infos[name].name == name
              && (forall d :: d in infos[name].demangledInterfaces <==>
                    || (name in old(infos) && d in old(infos)[name].demangledInterfaces)
                    || (name !in old(infos) && d in info.demangledInterfaces)
                    || (exists k :: k in info.interfaces && demangle(k) == d))
              && (name in old(infos) ==> Accumulates(old(infos)[name], info, infos[name]))
              && (name !in old(infos) ==> infos[name].interfaces == info.interfaces && infos[name].aliases == info.aliases)
      ensures forall n | n in old(infos) && n != demangle(info.name) :: n in infos && infos[n] == old(infos)[n]
    {
      StaticAddKeepsComplete(Value(), info, demangle);
      var pluginName := demangle(info.name);
      var entry := info.(name := pluginName);
      if pluginName in infos {
        entry := infos[pluginName];
        var interfaces := InsertInterfaces(entry.interfaces, info.interfaces);
        entry := entry.(interfaces := interfaces, aliases := entry.aliases + info.aliases);
      }
      var names := InsertDemangled(entry.demangledInterfaces, info, demangle);
      infos := infos[pluginName := entry.(demangledInterfaces := names)];
      aliases := InsertAliases(aliases, info.aliases, pluginName);
      added := true;
    }

    method GetInfo(name: string) returns (info: Option<Info>)
      ensures info == if name in infos then Some(infos[name]) else None
    {
      info := if name in infos then Some(infos[name]) else None;
    }

    method LookupPlugin(nameOrAlias: string) returns (name: string)
      ensures name == Lookup(Value(), nameOrAlias)
    {
      name := LookupIn(Value(), nameOrAlias);
    }
  }

  lemma StaticAddKeepsComplete(t: Tables, info: Info, demangle: Demangler)
    requires Complete(t)
    ensures Complete(StaticAdded(t, info, demangle))
  {
  }

  // ---------------------------------------------------------------- the static index

  /** The static registry keeps its index exact whatever is added. */
  lemma StaticAddKeepsExact(t: Tables, info: Info, demangle: Demangler)
    requires Exact(t)
    ensures Exact(StaticAdded(t, info, demangle))
  {
    var t' := StaticAdded(t, info, demangle);
    forall a, n
      ensures n in Indexed(t', a) <==> n in t'.plugins && a in t'.plugins[n].aliases
    {
      assert n in Indexed(t, a) <==> n in t.plugins && a in t.plugins[n].aliases;
    }
  }

  // ---------------------------------------------------------------- sequences of registrations

  function HookAll(inputs: seq<Info>): map<string, Info> {
    if inputs == [] then map[]
    else Hooked(HookAll(inputs[..|inputs| - 1]), inputs[|inputs| - 1])
  }

  function StaticAll(inputs: seq<Info>, demangle: Demangler): Tables {
    if inputs == [] then EMPTY_TABLES
    else StaticAdded(StaticAll(inputs[..|inputs| - 1], demangle), inputs[|inputs| - 1], demangle)
  }

  /** Registrations as the macros make them: the demangled names are still empty, and casts of
      one plugin to one interface are the same function wherever they are registered. */
  ghost predicate Compatible(inputs: seq<Info>) {
    && (forall r | r in inputs :: r.demangledInterfaces == {})
    && (forall r, q, k | r in inputs && q in inputs && r.name == q.name && k in r.interfaces && k in q.interfaces ::
          r.interfaces[k] == q.interfaces[k])
  }

  /** What `m` holds comes from the registrations ... */
  ghost predicate Sourced(m: map<string, Info>, inputs: seq<Info>) {
    && (forall n | n in m :: m[n].name == n && m[n].demangledInterfaces == {} && exists r :: r in inputs && r.name == n)
    && (forall n, a | n in m && a in m[n].aliases :: exists r :: r in inputs && r.name == n && a in r.aliases)
    && (forall n, k | n in m && k in m[n].interfaces :: exists r :: r in inputs && r.name == n && k in r.interfaces)
  }

  /** ... and what the registrations say is in `m`. */
  ghost predicate Covered(m: map<string, Info>, inputs: seq<Info>) {
    && (forall r | r in inputs :: r.name in m && r.aliases <= m[r.name].aliases)
    && (forall r, k | r in inputs && k in r.interfaces ::
          k in m[r.name].interfaces && m[r.name].interfaces[k] == r.interfaces[k])
  }

  ghost predicate Collects(m: map<string, Info>, inputs: seq<Info>) {
    Sourced(m, inputs) && Covered(m, inputs)
  }

  lemma {:induction false} HookCollects(inputs: seq<Info>)
    requires Compatible(inputs)
    ensures Collects(HookAll(inputs), inputs)
  {
    if inputs == [] {
    } else {
      var front, last := inputs[..|inputs| - 1], inputs[|inputs| - 1];
      assert inputs == front + [last];
      HookCollects(front);
      CollectsOneMore(HookAll(front), front, last);
    }
  }

  lemma SourcedOneMore(m: map<string, Info>, front: seq<Info>, last: Info)
    requires Compatible(front + [last]) && Sourced(m, front)
    ensures Sourced(Hooked(m, last), front + [last])
  {
    var inputs := front + [last];
    var m' := Hooked(m, last);
    assert last in inputs;
    forall n | n in m'
      ensures exists r :: r in inputs && r.name == n
    {
      if n != last.name {
        var r :| r in front && r.name == n;
        assert r in inputs;
      }
    }
    forall n, a | n in m' && a in m'[n].aliases
      ensures exists r :: r in inputs && r.name == n && a in r.aliases
    {
      if !(n == last.name && a in last.aliases) {
        var r :| r in front && r.name == n && a in r.aliases;
        assert r in inputs;
      }
    }
    forall n, k | n in m' && k in m'[n].interfaces
      ensures exists r :: r in inputs && r.name == n && k in r.interfaces
    {
      if !(n == last.name && k in last.interfaces) {
        var r :| r in front && r.name == n && k in r.interfaces;
        assert r in inputs;
      }
    }
  }

  lemma CoveredOneMore(m: map<string, Info>, front: seq<Info>, last: Info)
    requires Compatible(front + [last]) && Collects(m, front)
    ensures Covered(Hooked(m, last), front + [last])
  {
    var inputs := front + [last];
    var m' := Hooked(m, last);
    assert last in inputs;
    forall r, k | r in inputs && k in r.interfaces
      ensures k in m'[r.name].interfaces && m'[r.name].interfaces[k] == r.interfaces[k]
    {
      if r.name == last.name && r.name in m && k in m[r.name].interfaces {
        var q :| q in front && q.name == r.name && k in q.interfaces;
        assert q in inputs;
      }
    }
  }

  lemma CollectsOneMore(m: map<string, Info>, front: seq<Info>, last: Info)
    requires Compatible(front + [last]) && Collects(m, front)
    ensures Collects(Hooked(m, last), front + [last])
  {
    SourcedOneMore(m, front, last);
    CoveredOneMore(m, front, last);
    hide Compatible, Sourced, Covered, Hooked;
  }

  lemma EntryIsUnique(m: map<string, Info>, m': map<string, Info>, inputs: seq<Info>, inputs': seq<Info>, n: string)
    requires Collects(m, inputs) && Collects(m', inputs') && n in m && n in m'
    requires forall r :: r in inputs <==> r in inputs'
    ensures m[n].aliases <= m'[n].aliases
    ensures forall k | k in m[n].interfaces :: k in m'[n].interfaces && m'[n].interfaces[k] == m[n].interfaces[k]
  {
    forall k | k in m[n].interfaces
      ensures k in m'[n].interfaces && m'[n].interfaces[k] == m[n].interfaces[k]
    {
      var q :| q in inputs && q.name == n && k in q.interfaces;
      assert q in inputs';
    }
  }

  lemma SameNames(m: map<string, Info>, m': map<string, Info>, inputs: seq<Info>, inputs': seq<Info>)
    requires Collects(m, inputs) && Collects(m', inputs')
    requires forall r :: r in inputs <==> r in inputs'
    ensures m.Keys <= m'.Keys && (forall n | n in m :: m[n].name == n && m[n].demangledInterfaces == {})
  {
    forall n | n in m
      ensures n in m'
    {
      var r :| r in inputs && r.name == n;
      assert r in inputs';
    }
  }

  lemma CollectionIsUnique(m: map<string, Info>, m': map<string, Info>, inputs: seq<Info>, inputs': seq<Info>)
    requires Collects(m, inputs) && Collects(m', inputs')
    requires forall r :: r in inputs <==> r in inputs'
    ensures m == m'
  {
    hide Collects;
    SameNames(m, m', inputs, inputs');
    SameNames(m', m, inputs', inputs);
    forall n | n in m
      ensures m[n] == m'[n]
    {
      EntryIsUnique(m, m', inputs, inputs', n);
      EntryIsUnique(m', m, inputs', inputs, n);
      assert m[n].interfaces == m'[n].interfaces;
    }
  }

  /** Neither the order of the registrations nor their number matters to the hook. */
  lemma HookOrder(inputs: seq<Info>, inputs': seq<Info>)
    requires Compatible(inputs) && Compatible(inputs')
    requires forall r :: r in inputs <==> r in inputs'
    ensures HookAll(inputs) == HookAll(inputs')
  {
    HookCollects(inputs);
    HookCollects(inputs');
    CollectionIsUnique(HookAll(inputs), HookAll(inputs'), inputs, inputs');
  }

  // ---------------------------------------------------------------- static and dynamic registration agree

  /** The table of the static registry is the table of the hook, prepared as a Loader does. */
  ghost predicate Corresponds(plugins: map<string, Info>, pluginMap: map<string, Info>, demangle: Demangler) {
    && (forall n | n in pluginMap :: demangle(n) in plugins && plugins[demangle(n)] == Prepared(pluginMap[n], demangle))
    && (forall d | d in plugins :: exists n :: n in pluginMap && demangle(n) == d)
    && (forall n | n in pluginMap :: pluginMap[n].name == n)
  }

  lemma EntryCorresponds(t: Tables, m: map<string, Info>, last: Info, demangle: Demangler)
    requires Injective(demangle) && Corresponds(t.plugins, m, demangle) && last.demangledInterfaces == {}
    ensures StaticEntry(t, last, demangle) == Prepared(Hooked(m, last)[last.name], demangle)
  {
    if last.name in m {
      assert DemangledKeys(Merge(m[last.name], last), demangle) == DemangledKeys(m[last.name], demangle) + DemangledKeys(last, demangle);
    } else {
      assert forall n | n in m :: demangle(n) != demangle(last.name);
    }
  }

  lemma CorrespondsOneMore(t: Tables, m: map<string, Info>, last: Info, demangle: Demangler)
    requires Injective(demangle) && Corresponds(t.plugins, m, demangle) && last.demangledInterfaces == {}
    ensures Corresponds(StaticAdded(t, last, demangle).plugins, Hooked(m, last), demangle)
  {
    hide StaticEntry, Merge, Prepared;
    EntryCorresponds(t, m, last, demangle);
    var t' := StaticAdded(t, last, demangle);
    var m' := Hooked(m, last);
    assert m'[last.name].name == last.name by { HookedName(m, last); }
    forall d | d in t'.plugins
      ensures exists n :: n in m' && demangle(n) == d
    {
      if d == demangle(last.name) {
        assert last.name in m';
      } else {
        var n :| n in m && demangle(n) == d;
        assert n in m';
      }
    }
  }

  lemma HookedName(m: map<string, Info>, input: Info)
    requires forall n | n in m :: m[n].name == n
    ensures forall n | n in Hooked(m, input) :: Hooked(m, input)[n].name == n
  {
  }

  lemma {:induction false} StaticCorresponds(inputs: seq<Info>, demangle: Demangler)
    requires Injective(demangle) && (forall r | r in inputs :: r.demangledInterfaces == {})
    ensures Corresponds(StaticAll(inputs, demangle).plugins, HookAll(inputs), demangle)
    ensures Exact(StaticAll(inputs, demangle))
  {
    if inputs == [] {
    } else {
      var front, last := inputs[..|inputs| - 1], inputs[|inputs| - 1];
      StaticCorresponds(front, demangle);
      CorrespondsOneMore(StaticAll(front, demangle), HookAll(front), last, demangle);
      StaticAddKeepsExact(StaticAll(front, demangle), last, demangle);
    }
  }

  lemma CorrespondingTablesAgree(p: map<string, Info>, q: map<string, Info>, m: map<string, Info>, demangle: Demangler)
    requires Corresponds(p, m, demangle) && Corresponds(q, m, demangle)
    ensures p == q
  {
    forall d | d in p
      ensures d in q && q[d] == p[d]
    {
      var n :| n in m && demangle(n) == d;
    }
  }

  /** Neither does the order matter to the static registry, for any query. */
  lemma StaticOrder(inputs: seq<Info>, inputs': seq<Info>, demangle: Demangler)
    requires Injective(demangle) && Compatible(inputs) && Compatible(inputs')
    requires forall r :: r in inputs <==> r in inputs'
    ensures SameAnswers(StaticAll(inputs, demangle), StaticAll(inputs', demangle))
  {
    HookOrder(inputs, inputs');
    StaticCorresponds(inputs, demangle);
    StaticCorresponds(inputs', demangle);
    CorrespondingTablesAgree(StaticAll(inputs, demangle).plugins, StaticAll(inputs', demangle).plugins,
                             HookAll(inputs), demangle);
    ExactTablesAgree(StaticAll(inputs, demangle), StaticAll(inputs', demangle));
  }

  /** The Infos that a Loader gets from a library's hook, in any order. */
  ghost predicate Delivers(infos: seq<Info>, pluginMap: map<string, Info>, demangle: Demangler) {
    && (forall i | 0 <= i < |infos| :: exists n :: n in pluginMap && infos[i] == Prepared(pluginMap[n], demangle))
    && (forall n | n in pluginMap :: Prepared(pluginMap[n], demangle) in infos)
  }

  lemma DeliveredCatalogue(infos: seq<Info>, m: map<string, Info>, demangle: Demangler)
    requires Injective(demangle) && Delivers(infos, m, demangle) && (forall n | n in m :: m[n].name == n)
    ensures Catalogue(infos)
  {
    forall i, j | 0 <= i < |infos| && 0 <= j < |infos| && infos[i].name == infos[j].name
      ensures infos[i] == infos[j]
    {
      var n :| n in m && infos[i] == Prepared(m[n], demangle);
      var o :| o in m && infos[j] == Prepared(m[o], demangle);
    }
  }

  lemma DeliveredTable(plugins: map<string, Info>, infos: seq<Info>, m: map<string, Info>, demangle: Demangler)
    requires Delivers(infos, m, demangle) && (forall n | n in m :: m[n].name == n)
    requires plugins.Keys == NamesOf(infos)
    requires forall i | 0 <= i < |infos| && infos[i].name in plugins :: plugins[infos[i].name] == infos[i]
    ensures Corresponds(plugins, m, demangle)
  {
    forall d | d in plugins
      ensures exists n :: n in m && demangle(n) == d
    {
      var i :| 0 <= i < |infos| && infos[i].name == d;
      var n :| n in m && infos[i] == Prepared(m[n], demangle);
    }
    forall n | n in m
      ensures demangle(n) in plugins && plugins[demangle(n)] == Prepared(m[n], demangle)
    {
      var i :| 0 <= i < |infos| && infos[i] == Prepared(m[n], demangle);
      assert infos[i].name in NamesOf(infos);
    }
  }

  /** Plugins that were collected in a shared library and loaded answer every query as they do
      when the same registrations were made statically. */
  lemma StaticAndDynamicAgree(inputs: seq<Info>, infos: seq<Info>, demangle: Demangler)
    requires Injective(demangle) && (forall r | r in inputs :: r.demangledInterfaces == {})
    requires Delivers(infos, HookAll(inputs), demangle)
    ensures SameAnswers(AddedAll(EMPTY_TABLES, infos), StaticAll(inputs, demangle))
  {
    hide SameAnswers, Delivers;
    var m := HookAll(inputs);
    StaticCorresponds(inputs, demangle);
    DeliveredCatalogue(infos, m, demangle);
    AddedAllExact(EMPTY_TABLES, infos);
    var t := AddedAll(EMPTY_TABLES, infos);
    DeliveredTable(t.plugins, infos, m, demangle);
    CorrespondingTablesAgree(t.plugins, StaticAll(inputs, demangle).plugins, m, demangle);
    ExactTablesAgree(t, StaticAll(inputs, demangle));
  }
}
