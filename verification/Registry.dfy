/** `gz::plugin::Registry`: the table of plugin Infos and the index of their aliases. */
module Registries {
  import opened Common

  datatype Tables = Tables(aliases: map<string, set<string>>, plugins: map<string, Info>)

  const EMPTY_TABLES := Tables(map[], map[])

  // ---------------------------------------------------------------- what the operations do

  /** The index entry of an alias; `std::map::find` may find none. */
  function Indexed(t: Tables, alias: string): set<string> {
    if alias in t.aliases then t.aliases[alias] else {}
  }

  function IndexAdd(index: map<string, set<string>>, aliases: set<string>, name: string): map<string, set<string>> {
    map a | a in index.Keys + aliases ::
      (if a in index then index[a] else {}) + (if a in aliases then {name} else {})
  }

  function IndexErase(index: map<string, set<string>>, aliases: set<string>, name: string): map<string, set<string>> {
    map a | a in index :: if a in aliases then index[a] - {name} else index[a]
  }

  function Added(t: Tables, info: Info): Tables {
    Tables(IndexAdd(t.aliases, info.aliases, info.name),
           if info.name in t.plugins then t.plugins else t.plugins[info.name := info])
  }

  function Forgotten(t: Tables, name: string): Tables {
    if name !in t.plugins then t
    else Tables(IndexErase(t.aliases, t.plugins[name].aliases, t.plugins[name].name), t.plugins - {name})
  }

  // ---------------------------------------------------------------- what the queries answer

  function PluginsWithAlias(t: Tables, alias: string): set<string> {
    Indexed(t, alias) + if alias in t.plugins then {alias} else {}
  }

  function AliasesOfPlugin(t: Tables, name: string): set<string> {
    if name in t.plugins then t.plugins[name].aliases else {}
  }

  function Offers(info: Info, interfaceName: string, demangled: bool): bool {
    if demangled then interfaceName in info.demangledInterfaces else interfaceName in info.interfaces
  }

  function PluginsImplementing(t: Tables, interfaceName: string, demangled: bool): set<string> {
    set n | n in t.plugins && Offers(t.plugins[n], interfaceName, demangled)
  }

  function InterfacesImplemented(t: Tables): set<string> {
    set n, i | n in t.plugins && i in t.plugins[n].demangledInterfaces :: i
  }

  ghost function Only(names: set<string>): (n: string)
    requires |names| == 1
    ensures names == {n}
  {
    var n :| n in names;
    assert |names - {n}| == 0;
    n
  }

  /** `LookupPlugin`; the empty string stands for "no such plugin". */
  ghost function Lookup(t: Tables, nameOrAlias: string): string {
    if nameOrAlias in t.plugins then nameOrAlias
    else if |Indexed(t, nameOrAlias)| == 1 then Only(Indexed(t, nameOrAlias))
    else ""
  }

  // ---------------------------------------------------------------- invariants

  /** Holds in every reachable state: what `aliases.at` relies on in `ForgetInfo`. */
  ghost predicate Complete(t: Tables) {
    forall n | n in t.plugins :: t.plugins[n].name == n && t.plugins[n].aliases <= t.aliases.Keys
  }

  /** The alias index is the inverse of the alias sets of the stored Infos. */
  ghost predicate Exact(t: Tables) {
    forall a, n :: n in Indexed(t, a) <==> n in t.plugins && a in t.plugins[n].aliases
  }

  /** No plugin has the empty name, which `LookupPlugin` uses for failure. */
  ghost predicate Named(t: Tables) {
    "" !in t.plugins
  }

  // ---------------------------------------------------------------- the class

  /** The loop `aliases[alias].insert(name)` of both registries. */
  method InsertAliases(index: map<string, set<string>>, aliases: set<string>, name: string)
      returns (r: map<string, set<string>>)
    ensures r == IndexAdd(index, aliases, name)
  {
    hide IndexAdd;
    r := index;
    var rest := aliases;
    assert aliases - rest == {};
    IndexAddNone(index, name);
    while rest != {}
      invariant rest <= aliases
      invariant r == IndexAdd(index, aliases - rest, name)
      decreases rest
    {
      var a :| a in rest;
      ghost var done := aliases - rest;
      IndexAddOne(index, done, a, name);
      r := r[a := (if a in r then r[a] else {}) + {name}];
      rest := rest - {a};
      assert aliases - rest == done + {a};
    }
    assert aliases - rest == aliases;
  }

  lemma IndexAddNone(index: map<string, set<string>>, name: string)
    ensures IndexAdd(index, {}, name) == index
  {
    assert forall a | a in index :: index[a] + {} == index[a];
  }

  lemma IndexAddOne(index: map<string, set<string>>, done: set<string>, a: string, name: string)
    requires a !in done
    ensures var r := IndexAdd(index, done, name);
            r[a := (if a in r then r[a] else {}) + {name}] == IndexAdd(index, done + {a}, name)
  {
    var r := IndexAdd(index, done, name);
    var r' := r[a := (if a in r then r[a] else {}) + {name}];
    var goal := IndexAdd(index, done + {a}, name);
    assert r'.Keys == goal.Keys;
    forall x | x in goal
      ensures r'[x] == goal[x]
    {
      if x != a && x in index {
        assert index[x] + {} == index[x];
      }
    }
  }

  /** The body of `LookupPlugin`, which both registries share. */
  method LookupIn(t: Tables, nameOrAlias: string) returns (name: string)
    ensures name == Lookup(t, nameOrAlias)
  {
    if nameOrAlias in t.plugins {
      return nameOrAlias;
    }
    if nameOrAlias in t.aliases && t.aliases[nameOrAlias] != {} {
      if |t.aliases[nameOrAlias]| == 1 {
        name :| name in t.aliases[nameOrAlias];
        assert t.aliases[nameOrAlias] == {Only(t.aliases[nameOrAlias])};
        return;
      }
      return "";
    }
    return "";
  }

  class Registry {
    var aliases: map<string, set<string>>
    var plugins: map<string, Info>

    function Value(): Tables
      reads this
    {
      Tables(aliases, plugins)
    }

    ghost predicate Valid()
      reads this
    {
      Complete(Value())
    }

    constructor ()
      ensures Valid() && Value() == EMPTY_TABLES
    {
      aliases, plugins := map[], map[];
    }

    method AddInfo(info: Info) returns (added: bool)
      requires Valid()
      modifies this
      ensures Valid() && Value() == Added(old(Value()), info)
      ensures added <==> info.name !in old(plugins)
    {
      aliases := InsertAliases(aliases, info.aliases, info.name);
      added := info.name !in plugins;
      if added {
        plugins := plugins[info.name := info];
      }
    }

    /** `aliases.at(alias)` throws for an alias that has no entry; here the index is a map
        selection, so its proof is the proof that it never throws. */
    method ForgetInfo(name: string)
      requires Valid()
      modifies this
      ensures Valid() && Value() == Forgotten(old(Value()), name)
    {
      if name !in plugins {
        return;
      }
      var info := plugins[name];
      var rest := info.aliases;
      while rest != {}
        invariant rest <= info.aliases && plugins == old(plugins)
        invariant aliases == IndexErase(old(aliases), info.aliases - rest, info.name)
        decreases rest
      {
        var a :| a in rest;
        aliases := aliases[a := aliases[a] - {info.name}];
        rest := rest - {a};
        assert info.aliases - rest == (info.aliases - rest - {a}) + {a};
      }
      assert info.aliases - rest == info.aliases;
      plugins := plugins - {name};
    }

    method GetInfo(name: string) returns (info: Option<Info>)
      ensures info == if name in plugins then Some(plugins[name]) else None
    {
      info := if name in plugins then Some(plugins[name]) else None;
    }

    method LookupPlugin(nameOrAlias: string) returns (name: string)
      ensures name == Lookup(Value(), nameOrAlias)
    {
      name := LookupIn(Value(), nameOrAlias);
    }

    method WithAlias(alias: string) returns (names: set<string>)
      ensures names == PluginsWithAlias(Value(), alias)
      ensures forall n :: n in names <==> (alias in aliases && n in aliases[alias]) || (n == alias && n in plugins)
    {
      names := {};
      if alias in aliases {
        names := aliases[alias];
      }
      var info := GetInfo(alias);
      if info.Some? {
        names := names + {alias};
      }
    }

    method Implementing(interfaceName: string, demangled: bool) returns (names: set<string>)
      requires Valid()
      ensures names == PluginsImplementing(Value(), interfaceName, demangled)
      ensures forall n :: n in names <==>
                n in plugins && if demangled then interfaceName in plugins[n].demangledInterfaces else interfaceName in plugins[n].interfaces
    {
      names := {};
      var rest := plugins.Keys;
      while rest != {}
        invariant rest <= plugins.Keys
        invariant names == set n | n in plugins.Keys - rest && Offers(plugins[n], interfaceName, demangled)
        decreases rest
      {
        var n :| n in rest;
        var info := plugins[n];
        if demangled {
          if interfaceName in info.demangledInterfaces {
            names := names + {info.name};
          }
        } else {
          if interfaceName in info.interfaces {
            names := names + {info.name};
          }
        }
        rest := rest - {n};
      }
    }

    method Interfaces() returns (interfaces: set<string>)
      ensures interfaces == InterfacesImplemented(Value())
      ensures forall i :: i in interfaces <==> exists n :: n in plugins && i in plugins[n].demangledInterfaces
    {
      interfaces := {};
      var rest := plugins.Keys;
      while rest != {}
        invariant rest <= plugins.Keys
        invariant interfaces == set n, i | n in plugins.Keys - rest && i in plugins[n].demangledInterfaces :: i
        decreases rest
      {
        var n :| n in rest;
        var todo := plugins[n].demangledInterfaces;
        ghost var before := interfaces;
        while todo != {}
          invariant todo <= plugins[n].demangledInterfaces
          invariant interfaces == before + (plugins[n].demangledInterfaces - todo)
          decreases todo
        {
          var i :| i in todo;
          interfaces := interfaces + {i};
          todo := todo - {i};
        }
        rest := rest - {n};
      }
    }
  }

  // ---------------------------------------------------------------- the alias index

  /** `AddInfo` keeps the index exact precisely when it brings no alias that the table of
      plugins will not show. */
  lemma AddKeepsExact(t: Tables, info: Info)
    requires Exact(t) && Complete(t)
    ensures Exact(Added(t, info)) <==>
            (info.name in t.plugins ==> info.aliases <= t.plugins[info.name].aliases)
  {
    var t' := Added(t, info);
    if info.name in t.plugins {
      forall a, n
        ensures n in Indexed(t', a) <==> n in Indexed(t, a) || (n == info.name && a in info.aliases)
      {
      }
      if !(info.aliases <= t.plugins[info.name].aliases) {
        var a :| a in info.aliases && a !in t.plugins[info.name].aliases;
        assert info.name in Indexed(t', a);
      }
    } else {
      forall a, n
        ensures n in Indexed(t', a) <==> n in t'.plugins && a in t'.plugins[n].aliases
      {
        assert n in Indexed(t, a) <==> n in t.plugins && a in t.plugins[n].aliases;
      }
    }
  }

  /** A second registration of a name that brings a new alias leaves an entry behind that no
      plugin answers for: the alias then resolves to a plugin that was forgotten. */
  lemma StaleAlias()
    ensures var p := Info("P", {"a"}, map[], {});
            var q := Info("P", {"b"}, map[], {});
            var t := Forgotten(Added(Added(EMPTY_TABLES, p), q), "P");
            Lookup(t, "b") == "P" && "P" !in t.plugins
  {
    var p := Info("P", {"a"}, map[], {});
    var q := Info("P", {"b"}, map[], {});
    var t1 := Added(EMPTY_TABLES, p);
    var t2 := Added(t1, q);
    assert t2.plugins == map["P" := p];
    var t := Forgotten(t2, "P");
    assert Indexed(t, "b") == {"P"};
  }

  lemma ForgetKeepsExact(t: Tables, name: string)
    requires Exact(t) && Complete(t)
    ensures Exact(Forgotten(t, name)) && Complete(Forgotten(t, name))
  {
    var t' := Forgotten(t, name);
    forall a, n
      ensures n in Indexed(t', a) <==> n in t'.plugins && a in t'.plugins[n].aliases
    {
      assert n in Indexed(t, a) <==> n in t.plugins && a in t.plugins[n].aliases;
    }
  }

  lemma AddKeepsComplete(t: Tables, info: Info)
    requires Complete(t)
    ensures Complete(Added(t, info))
  {
  }

  // ---------------------------------------------------------------- the meaning of the queries

  /** The plugins that bear a string as their name or as one of their aliases. */
  function Bearers(plugins: map<string, Info>, s: string): set<string> {
    set n | n in plugins && (n == s || s in plugins[n].aliases)
  }

  /** The queries are about the plugins alone: a name resolves to itself, any other string to
      its only bearer, and to nothing when there is none or more than one. */
  lemma QueriesMean(t: Tables, s: string)
    requires Exact(t)
    ensures PluginsWithAlias(t, s) == Bearers(t.plugins, s)
    ensures Lookup(t, s) == if s in t.plugins then s
                            else if |Bearers(t.plugins, s)| == 1 then Only(Bearers(t.plugins, s))
                            else ""
  {
    forall n
      ensures n in PluginsWithAlias(t, s) <==> n in Bearers(t.plugins, s)
    {
      assert n in Indexed(t, s) <==> n in t.plugins && s in t.plugins[n].aliases;
    }
    assert PluginsWithAlias(t, s) == Bearers(t.plugins, s);
    if s !in t.plugins {
      assert Indexed(t, s) == Bearers(t.plugins, s);
    }
  }

  /** A string resolves to something exactly when it is a name or has one bearer, and what it
      resolves to is then a plugin of the table. */
  lemma LookupFinds(t: Tables, s: string)
    requires Exact(t) && Named(t)
    ensures Lookup(t, s) != "" <==> s in t.plugins || |Bearers(t.plugins, s)| == 1
    ensures Lookup(t, s) != "" ==> Lookup(t, s) in Bearers(t.plugins, s)
  {
    QueriesMean(t, s);
    if s !in t.plugins && |Bearers(t.plugins, s)| == 1 {
      assert Only(Bearers(t.plugins, s)) in Bearers(t.plugins, s);
    }
  }

  // ---------------------------------------------------------------- loading and forgetting

  /** Two tables that no query tells apart. */
  ghost predicate SameAnswers(t: Tables, u: Tables) {
    && t.plugins == u.plugins
    && (forall s :: Lookup(t, s) == Lookup(u, s))
    && (forall s :: PluginsWithAlias(t, s) == PluginsWithAlias(u, s))
    && (forall s :: AliasesOfPlugin(t, s) == AliasesOfPlugin(u, s))
    && (forall s, d :: PluginsImplementing(t, s, d) == PluginsImplementing(u, s, d))
    && InterfacesImplemented(t) == InterfacesImplemented(u)
  }

  lemma ExactTablesAgree(t: Tables, u: Tables)
    requires Exact(t) && Exact(u) && t.plugins == u.plugins
    ensures SameAnswers(t, u)
  {
    forall s
      ensures Lookup(t, s) == Lookup(u, s)
      ensures PluginsWithAlias(t, s) == PluginsWithAlias(u, s)
    {
      QueriesMean(t, s);
      QueriesMean(u, s);
    }
  }

  function AddedAll(t: Tables, infos: seq<Info>): Tables
    decreases |infos|
  {
    if infos == [] then t else AddedAll(Added(t, infos[0]), infos[1..])
  }

  function ForgottenAll(t: Tables, names: seq<string>): Tables
    decreases |names|
  {
    if names == [] then t else ForgottenAll(Forgotten(t, names[0]), names[1..])
  }

  /** The Infos of one library, in the order in which its InfoMap lists them. */
  ghost predicate Catalogue(infos: seq<Info>) {
    forall i, j | 0 <= i < |infos| && 0 <= j < |infos| && infos[i].name == infos[j].name :: infos[i] == infos[j]
  }

  function NamesOf(infos: seq<Info>): set<string> {
    set i | 0 <= i < |infos| :: infos[i].name
  }

  /** What is already known of the library's plugins agrees with the library. */
  ghost predicate Consistent(t: Tables, infos: seq<Info>) {
    forall i | 0 <= i < |infos| && infos[i].name in t.plugins :: t.plugins[infos[i].name] == infos[i]
  }

  lemma {:induction false} AddedAllExact(t: Tables, infos: seq<Info>)
    requires Exact(t) && Complete(t) && Catalogue(infos) && Consistent(t, infos)
    ensures var u := AddedAll(t, infos);
            && Exact(u) && Complete(u) && Consistent(u, infos)
            && u.plugins.Keys == t.plugins.Keys + NamesOf(infos)
            && (forall n | n in t.plugins :: u.plugins[n] == t.plugins[n])
    decreases |infos|
  {
    hide Exact, Complete, IndexAdd;
    if infos == [] {
    } else {
      var t1 := Added(t, infos[0]);
      AddKeepsExact(t, infos[0]);
      AddKeepsComplete(t, infos[0]);
      assert forall i | 0 <= i < |infos[1..]| :: infos[1..][i] == infos[i + 1];
      AddedAllExact(t1, infos[1..]);
      NamesFirst(infos);
      ConsistentFirst(AddedAll(t, infos), infos);
      hide NamesOf, Consistent, Catalogue;
    }
  }

  /** A delivered Info is stored as it is, unless its name was known before. */
  lemma {:induction false} AddedStores(t: Tables, infos: seq<Info>, i: nat)
    requires Catalogue(infos) && i < |infos|
    ensures var u := AddedAll(t, infos);
            && (forall n | n in t.plugins :: n in u.plugins && u.plugins[n] == t.plugins[n])
            && infos[i].name in u.plugins && (infos[i].name !in t.plugins ==> u.plugins[infos[i].name] == infos[i])
    decreases |infos|
  {
    hide IndexAdd;
    var t1, rest := Added(t, infos[0]), infos[1..];
    assert Catalogue(rest) by { assert forall j | 0 <= j < |rest| :: rest[j] == infos[j + 1]; }
    if i > 0 {
      assert rest[i - 1] == infos[i];
      AddedStores(t1, rest, i - 1);
    } else if rest != [] {
      AddedStores(t1, rest, 0);
    }
  }

  lemma NamesFirst(infos: seq<Info>)
    requires infos != []
    ensures NamesOf(infos) == {infos[0].name} + NamesOf(infos[1..])
  {
    assert forall i | 0 <= i < |infos[1..]| :: infos[1..][i] == infos[i + 1];
  }

  lemma ConsistentFirst(u: Tables, infos: seq<Info>)
    requires infos != [] && Consistent(u, infos[1..]) && infos[0].name in u.plugins && u.plugins[infos[0].name] == infos[0]
    ensures Consistent(u, infos)
  {
    forall i | 0 <= i < |infos| && infos[i].name in u.plugins
      ensures u.plugins[infos[i].name] == infos[i]
    {
      if i > 0 {
        assert infos[1..][i - 1] == infos[i];
      }
    }
  }

  lemma {:induction false} ForgottenAllExact(t: Tables, names: seq<string>)
    requires Exact(t) && Complete(t)
    ensures Exact(ForgottenAll(t, names)) && Complete(ForgottenAll(t, names))
    ensures ForgottenAll(t, names).plugins == t.plugins - (set n | n in names)
    decreases |names|
  {
    if names == [] {
    } else {
      ForgetKeepsExact(t, names[0]);
      ForgottenAllExact(Forgotten(t, names[0]), names[1..]);
      assert forall n :: n in names <==> n == names[0] || n in names[1..];
    }
  }

  /** Forgetting a library undoes loading it, for every query and every string; the order in
      which the plugins are listed does not matter. */
  lemma LoadThenForget(t: Tables, infos: seq<Info>, order: seq<string>)
    requires Exact(t) && Complete(t) && Catalogue(infos)
    requires NamesOf(infos) !! t.plugins.Keys
    requires (set n | n in order) == NamesOf(infos)
    ensures SameAnswers(ForgottenAll(AddedAll(t, infos), order), t)
  {
    assert Consistent(t, infos) by {
      forall i | 0 <= i < |infos|
        ensures infos[i].name !in t.plugins
      {
        assert infos[i].name in NamesOf(infos);
      }
    }
    AddedAllExact(t, infos);
    var u := AddedAll(t, infos);
    ForgottenAllExact(u, order);
    assert u.plugins - NamesOf(infos) == t.plugins;
    ExactTablesAgree(ForgottenAll(u, order), t);
  }

  /** Loading a library again, in any order, changes no answer. */
  lemma LoadTwice(t: Tables, infos: seq<Info>, again: seq<Info>)
    requires Exact(t) && Complete(t) && Catalogue(infos) && Consistent(t, infos)
    requires Catalogue(again) && (forall i | 0 <= i < |again| :: again[i] in infos)
    ensures SameAnswers(AddedAll(AddedAll(t, infos), again), AddedAll(t, infos))
  {
    hide Exact, Complete, SameAnswers, Added;
    AddedAllExact(t, infos);
    var u := AddedAll(t, infos);
    forall i | 0 <= i < |again|
      ensures again[i].name in u.plugins && u.plugins[again[i].name] == again[i]
    {
      var j :| 0 <= j < |infos| && infos[j] == again[i];
      assert infos[j].name in NamesOf(infos);
    }
    AddedAllExact(u, again);
    assert AddedAll(u, again).plugins == u.plugins;
    ExactTablesAgree(AddedAll(u, again), u);
  }
}
