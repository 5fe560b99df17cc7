/** What the two registries answer, in terms of the registrations that were made. */
module Answers {
  import opened Common
  import opened Registries
  import opened Registration

  // ---------------------------------------------------------------- registrations

  /** Some registration is for the plugin that has the demangled name `n`. */
  ghost predicate Registered(inputs: seq<Info>, demangle: Demangler, n: string) {
    exists r :: r in inputs && demangle(r.name) == n
  }

  /** ... and brings the interface that has the mangled name `k`. */
  ghost predicate Offering(inputs: seq<Info>, demangle: Demangler, n: string, k: string) {
    exists r :: r in inputs && demangle(r.name) == n && k in r.interfaces
  }

  /** ... and brings the alias `a`. */
  ghost predicate Aliased(inputs: seq<Info>, demangle: Demangler, n: string, a: string) {
    exists r :: r in inputs && demangle(r.name) == n && a in r.aliases
  }

  ghost predicate Demangles(inputs: seq<Info>, demangle: Demangler, n: string, d: string) {
    exists k :: Offering(inputs, demangle, n, k) && demangle(k) == d
  }

  /** The registration macros leave the demangled names to the registry. */
  ghost predicate Unprepared(inputs: seq<Info>) {
    forall r | r in inputs :: r.demangledInterfaces == {}
  }

  /** A stored Info has what the registrations for its name brought, and the demangled names of
      their interfaces. */
  ghost predicate DescribesEntry(e: Info, inputs: seq<Info>, demangle: Demangler, n: string) {
    && e.name == n
    && (forall k :: k in e.interfaces <==> Offering(inputs, demangle, n, k))
    && (forall a :: a in e.aliases <==> Aliased(inputs, demangle, n, a))
    && (forall d :: d in e.demangledInterfaces <==> Demangles(inputs, demangle, n, d))
  }

  ghost predicate Describes(t: Tables, inputs: seq<Info>, demangle: Demangler) {
    && Exact(t)
    && (forall n :: n in t.plugins <==> Registered(inputs, demangle, n))
    && (forall n | n in t.plugins :: DescribesEntry(t.plugins[n], inputs, demangle, n))
  }

  // ---------------------------------------------------------------- the static registry

  lemma OneMoreRegistration(inputs: seq<Info>, demangle: Demangler, n: string)
    requires inputs != []
    ensures var front, last := inputs[..|inputs| - 1], inputs[|inputs| - 1];
            && (Registered(inputs, demangle, n) <==> Registered(front, demangle, n) || demangle(last.name) == n)
            && (forall k :: Offering(inputs, demangle, n, k) <==>
                  Offering(front, demangle, n, k) || (demangle(last.name) == n && k in last.interfaces))
            && (forall a :: Aliased(inputs, demangle, n, a) <==>
                  Aliased(front, demangle, n, a) || (demangle(last.name) == n && a in last.aliases))
  {
    assert inputs == inputs[..|inputs| - 1] + [inputs[|inputs| - 1]];
  }

  lemma OneMoreDemangled(inputs: seq<Info>, demangle: Demangler, n: string, d: string)
    requires inputs != []
    ensures var front, last := inputs[..|inputs| - 1], inputs[|inputs| - 1];
            Demangles(inputs, demangle, n, d) <==>
            Demangles(front, demangle, n, d) || (demangle(last.name) == n && exists k :: k in last.interfaces && demangle(k) == d)
  {
    hide Offering;
    OneMoreRegistration(inputs, demangle, n);
  }

  lemma NoneOffered(inputs: seq<Info>, demangle: Demangler, n: string)
    requires !Registered(inputs, demangle, n)
    ensures forall k :: !Offering(inputs, demangle, n, k) && !Aliased(inputs, demangle, n, k) && !Demangles(inputs, demangle, n, k)
  {
  }

  lemma StaticEntryDescribed(t: Tables, inputs: seq<Info>, demangle: Demangler)
    requires inputs != [] && Unprepared(inputs) && Describes(t, inputs[..|inputs| - 1], demangle)
    ensures var last := inputs[|inputs| - 1];
            DescribesEntry(StaticEntry(t, last, demangle), inputs, demangle, demangle(last.name))
  {
    var front, last := inputs[..|inputs| - 1], inputs[|inputs| - 1];
    var n := demangle(last.name);
    OneMoreRegistration(inputs, demangle, n);
    assert last in inputs && last.demangledInterfaces == {};
    if n !in t.plugins {
      NoneOffered(front, demangle, n);
    }
    hide Registered, Offering, Aliased, Exact;
    forall d
      ensures d in StaticEntry(t, last, demangle).demangledInterfaces <==> Demangles(inputs, demangle, n, d)
    {
      OneMoreDemangled(inputs, demangle, n, d);
      hide Demangles;
    }
  }

  lemma EntryKept(e: Info, inputs: seq<Info>, demangle: Demangler, n: string)
    requires inputs != [] && DescribesEntry(e, inputs[..|inputs| - 1], demangle, n) && demangle(inputs[|inputs| - 1].name) != n
    ensures DescribesEntry(e, inputs, demangle, n)
  {
    OneMoreRegistration(inputs, demangle, n);
    hide Registered, Offering, Aliased, Demangles;
    forall d
      ensures d in e.demangledInterfaces <==> Demangles(inputs, demangle, n, d)
    {
      OneMoreDemangled(inputs, demangle, n, d);
    }
  }

  lemma {:induction false} StaticDescribed(inputs: seq<Info>, demangle: Demangler)
    requires Unprepared(inputs)
    ensures Describes(StaticAll(inputs, demangle), inputs, demangle)
    decreases |inputs|
  {
    hide Exact, StaticEntry, DescribesEntry, Offering, Aliased, Demangles;
    if inputs == [] {
      assert Exact(EMPTY_TABLES) by { ExactEmpty(); }
    } else {
      var front, last := inputs[..|inputs| - 1], inputs[|inputs| - 1];
      var t, u := StaticAll(front, demangle), StaticAll(inputs, demangle);
      StaticDescribed(front, demangle);
      StaticAddKeepsExact(t, last, demangle);
      StaticEntryDescribed(t, inputs, demangle);
      forall n
        ensures n in u.plugins <==> Registered(inputs, demangle, n)
        ensures n in u.plugins ==> DescribesEntry(u.plugins[n], inputs, demangle, n)
      {
        OneMoreRegistration(inputs, demangle, n);
        if n in t.plugins && n != demangle(last.name) {
          EntryKept(t.plugins[n], inputs, demangle, n);
        }
      }
    }
  }

  lemma ExactEmpty()
    ensures Exact(EMPTY_TABLES)
  {
  }

  // ---------------------------------------------------------------- a Loader

  lemma EntryLoaded(delivered: seq<Info>, demangle: Demangler, i: nat)
    requires Unprepared(delivered) && Catalogue(PreparedAll(delivered, demangle)) && i < |delivered|
    ensures DescribesEntry(Prepared(delivered[i], demangle), delivered, demangle, demangle(delivered[i].name))
  {
    var p, n := delivered[i], demangle(delivered[i].name);
    assert p in delivered;
    PreparedStored(p, demangle);
    forall r | r in delivered && demangle(r.name) == n
      ensures r.interfaces == p.interfaces && r.aliases == p.aliases
    {
      var j :| 0 <= j < |delivered| && delivered[j] == r;
      assert PreparedAll(delivered, demangle)[j] == PreparedAll(delivered, demangle)[i];
    }
    hide Prepared;
    assert forall k :: Offering(delivered, demangle, n, k) <==> k in p.interfaces;
    assert forall a :: Aliased(delivered, demangle, n, a) <==> a in p.aliases;
    hide Offering, Aliased;
  }

  /** The plugins of one library, after an empty Loader has loaded it. */
  lemma LoadedDescribed(delivered: seq<Info>, demangle: Demangler)
    requires Unprepared(delivered) && Catalogue(PreparedAll(delivered, demangle))
    ensures Describes(AddedAll(EMPTY_TABLES, PreparedAll(delivered, demangle)), delivered, demangle)
  {
    hide Exact, Complete, DescribesEntry, AddedAll, Prepared;
    var infos := PreparedAll(delivered, demangle);
    ExactEmpty();
    CompleteEmpty();
    AddedAllExact(EMPTY_TABLES, infos);
    var u := AddedAll(EMPTY_TABLES, infos);
    forall n
      ensures n in u.plugins <==> Registered(delivered, demangle, n)
      ensures n in u.plugins ==> DescribesEntry(u.plugins[n], delivered, demangle, n)
    {
      NamesDelivered(delivered, demangle, n);
      if n in u.plugins {
        var i :| 0 <= i < |infos| && infos[i].name == n;
        assert infos[i] == Prepared(delivered[i], demangle) && infos[i].name == demangle(delivered[i].name) by { PreparedName(delivered, demangle, i); }
        EntryLoaded(delivered, demangle, i);
      }
    }
  }

  lemma CompleteEmpty()
    ensures Complete(EMPTY_TABLES)
  {
  }

  lemma PreparedName(delivered: seq<Info>, demangle: Demangler, i: nat)
    requires i < |delivered|
    ensures PreparedAll(delivered, demangle)[i] == Prepared(delivered[i], demangle)
    ensures PreparedAll(delivered, demangle)[i].name == demangle(delivered[i].name)
  {
  }

  lemma NamesDelivered(delivered: seq<Info>, demangle: Demangler, n: string)
    ensures n in NamesOf(PreparedAll(delivered, demangle)) <==> Registered(delivered, demangle, n)
  {
    var infos := PreparedAll(delivered, demangle);
    if i :| 0 <= i < |infos| && infos[i].name == n {
      PreparedName(delivered, demangle, i);
      assert delivered[i] in delivered;
    }
    if r :| r in delivered && demangle(r.name) == n {
      var i :| 0 <= i < |delivered| && delivered[i] == r;
      PreparedName(delivered, demangle, i);
      assert infos[i].name == n;
    }
  }

  // ---------------------------------------------------------------- the answers

  /** A string resolves to the plugin of that name, or else to the only plugin it is an alias of. */
  ghost predicate Resolves(inputs: seq<Info>, demangle: Demangler, s: string, n: string) {
    if Registered(inputs, demangle, s) then n == s
    else Aliased(inputs, demangle, n, s) && forall m | Aliased(inputs, demangle, m, s) :: m == n
  }

  lemma InterfaceAnswers(t: Tables, inputs: seq<Info>, demangle: Demangler)
    requires Describes(t, inputs, demangle)
    ensures forall n, k :: n in PluginsImplementing(t, k, false) <==> Offering(inputs, demangle, n, k)
    ensures forall n, d :: n in PluginsImplementing(t, d, true) <==> Demangles(inputs, demangle, n, d)
    ensures forall d :: d in InterfacesImplemented(t) <==> exists n :: Demangles(inputs, demangle, n, d)
  {
    hide Exact;
    forall n | n !in t.plugins
      ensures forall k :: !Offering(inputs, demangle, n, k) && !Demangles(inputs, demangle, n, k)
    {
      NoneOffered(inputs, demangle, n);
    }
    hide Registered, Offering, Demangles;
    assert forall n | n in t.plugins :: DescribesEntry(t.plugins[n], inputs, demangle, n);
  }

  lemma AliasAnswers(t: Tables, inputs: seq<Info>, demangle: Demangler)
    requires Describes(t, inputs, demangle)
    ensures forall n, a :: n in PluginsWithAlias(t, a) <==> Aliased(inputs, demangle, n, a) || (n == a && Registered(inputs, demangle, n))
    ensures forall n, a :: a in AliasesOfPlugin(t, n) <==> Aliased(inputs, demangle, n, a)
  {
    forall n | n !in t.plugins
      ensures forall a :: !Aliased(inputs, demangle, n, a)
    {
      NoneOffered(inputs, demangle, n);
    }
    hide Registered, Aliased;
    assert forall n | n in t.plugins :: DescribesEntry(t.plugins[n], inputs, demangle, n);
  }

  lemma LookupAnswers(t: Tables, inputs: seq<Info>, demangle: Demangler, s: string)
    requires Describes(t, inputs, demangle)
    ensures forall n :: Resolves(inputs, demangle, s, n) ==> Lookup(t, s) == n
    ensures Lookup(t, s) != "" ==> Resolves(inputs, demangle, s, Lookup(t, s))
    ensures (forall n :: !Resolves(inputs, demangle, s, n)) ==> Lookup(t, s) == ""
  {
    forall n
      ensures n in Indexed(t, s) <==> Aliased(inputs, demangle, n, s)
    {
      if n in t.plugins {
        assert DescribesEntry(t.plugins[n], inputs, demangle, n);
      } else {
        NoneOffered(inputs, demangle, n);
      }
    }
    hide Registered, Aliased, Exact, DescribesEntry;
    forall n | s !in t.plugins
      ensures Resolves(inputs, demangle, s, n) <==> Indexed(t, s) == {n}
    {
    }
    hide Resolves;
    forall n | s !in t.plugins && Indexed(t, s) == {n}
      ensures Lookup(t, s) == n
    {
      hide Describes;
    }
    if s !in t.plugins && |Indexed(t, s)| == 1 {
      assert Indexed(t, s) == {Only(Indexed(t, s))};
    }
    if s in t.plugins {
      OwnName(t, inputs, demangle, s);
    }
  }

  lemma OwnName(t: Tables, inputs: seq<Info>, demangle: Demangler, s: string)
    requires Describes(t, inputs, demangle) && s in t.plugins
    ensures forall n :: Resolves(inputs, demangle, s, n) <==> n == s
  {
    hide Aliased, Exact, DescribesEntry;
  }

  /** Everything that a registry which was filled by registrations answers. */
  ghost predicate AnswersOf(t: Tables, inputs: seq<Info>, demangle: Demangler) {
    && (forall n, k :: n in PluginsImplementing(t, k, false) <==> Offering(inputs, demangle, n, k))
    && (forall n, d :: n in PluginsImplementing(t, d, true) <==> Demangles(inputs, demangle, n, d))
    && (forall d :: d in InterfacesImplemented(t) <==> exists n :: Demangles(inputs, demangle, n, d))
    && (forall n, a :: n in PluginsWithAlias(t, a) <==> Aliased(inputs, demangle, n, a) || (n == a && Registered(inputs, demangle, n)))
    && (forall n, a :: a in AliasesOfPlugin(t, n) <==> Aliased(inputs, demangle, n, a))
    && (forall s, n | Resolves(inputs, demangle, s, n) :: Lookup(t, s) == n)
    && (forall s | Lookup(t, s) != "" :: Resolves(inputs, demangle, s, Lookup(t, s)))
  }

  lemma DescribedAnswers(t: Tables, inputs: seq<Info>, demangle: Demangler)
    requires Describes(t, inputs, demangle)
    ensures AnswersOf(t, inputs, demangle)
  {
    hide Describes, Resolves, Registered, Offering, Aliased, Demangles, Lookup, PluginsImplementing, InterfacesImplemented,
         PluginsWithAlias, AliasesOfPlugin;
    InterfaceAnswers(t, inputs, demangle);
    AliasAnswers(t, inputs, demangle);
    forall s
      ensures forall n | Resolves(inputs, demangle, s, n) :: Lookup(t, s) == n
      ensures Lookup(t, s) != "" ==> Resolves(inputs, demangle, s, Lookup(t, s))
    {
      LookupAnswers(t, inputs, demangle, s);
    }
  }

  /** The static registry answers from the registrations, by whatever mixture they came. */
  lemma StaticAnswers(inputs: seq<Info>, demangle: Demangler)
    requires Unprepared(inputs)
    ensures AnswersOf(StaticAll(inputs, demangle), inputs, demangle)
  {
    hide Describes, AnswersOf;
    StaticDescribed(inputs, demangle);
    DescribedAnswers(StaticAll(inputs, demangle), inputs, demangle);
  }

  /** A Loader that has loaded one library answers from what the library delivered. */
  lemma LoadedAnswers(delivered: seq<Info>, demangle: Demangler)
    requires Unprepared(delivered) && Catalogue(PreparedAll(delivered, demangle))
    ensures AnswersOf(AddedAll(EMPTY_TABLES, PreparedAll(delivered, demangle)), delivered, demangle)
  {
    hide Describes, AnswersOf, AddedAll, PreparedAll;
    LoadedDescribed(delivered, demangle);
    DescribedAnswers(AddedAll(EMPTY_TABLES, PreparedAll(delivered, demangle)), delivered, demangle);
  }

  /** An interface is implemented by the same plugins under both of its names. */
  lemma SpellingsAgree(t: Tables, inputs: seq<Info>, demangle: Demangler, k: string)
    requires Injective(demangle) && AnswersOf(t, inputs, demangle)
    ensures PluginsImplementing(t, demangle(k), true) == PluginsImplementing(t, k, false)
  {
    hide PluginsImplementing, Offering, Lookup, Resolves;
    forall n
      ensures Demangles(inputs, demangle, n, demangle(k)) <==> Offering(inputs, demangle, n, k)
    {
    }
    hide Demangles;
    assert forall n :: n in PluginsImplementing(t, demangle(k), true) <==> n in PluginsImplementing(t, k, false);
  }
}
