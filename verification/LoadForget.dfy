/** Forgetting a library undoes loading it, and loading it again changes nothing. */
module LoadForget {
  import opened Common
  import opened Runtime
  import opened Registries
  import opened LoaderSteps
  import opened Plugins
  import opened Lifetime
  import opened Products
  import opened Agreement
  import opened Steps
  import opened Order
  import opened Safety
  import opened Runs

  // ---------------------------------------------------------------- what the application opened is left alone

  lemma ExternalDrop(h: Heap, slot: Slot, other: Slot)
    ensures DropLib(h, slot).external == DropInfo(h, slot).external == h.external
    ensures DropLib(DropInfo(h, slot), other).external == h.external
  {
  }

  lemma {:induction false} ExternalForgotten(h: Heap, l: nat, names: seq<string>)
    ensures ForgetPlugins(h, l, names).external == h.external
    decreases |names|
  {
    if names == [] {
    } else {
      ExternalDrop(h, LoaderInfo(l, names[0]), LoaderLib(l, names[0]));
      var h1 := DropLib(DropInfo(h, LoaderInfo(l, names[0])), LoaderLib(l, names[0]));
      hide DropInfo, DropLib;
      ExternalForgotten(h1, l, names[1..]);
    }
  }

  lemma ExternalAdd(h: Heap, l: nat, known: bool, info: Info, lib: Id, code: Code)
    ensures AddPlugin(h, l, known, info, lib, code).external == h.external
  {
    ExternalDrop(StoreInfo(h, l, known, info, code), LoaderLib(l, info.name), LoaderLib(l, info.name));
    hide DropLib;
  }

  lemma {:induction false} ExternalAdded(h: Heap, l: nat, t: Tables, infos: seq<Info>, lib: Id, code: Code)
    ensures AddPlugins(h, l, t, infos, lib, code).external == h.external
    decreases |infos|
  {
    if infos == [] {
    } else {
      ExternalAdd(h, l, infos[0].name in t.plugins, infos[0], lib, code);
      hide AddPlugin;
      ExternalAdded(AddPlugin(h, l, infos[0].name in t.plugins, infos[0], lib, code), l, Added(t, infos[0]), infos[1..], lib, code);
    }
  }

  lemma ExternalLoaded(h: Heap, l: nat, t: LoaderTables, lib: string, handle: Handle, infos: seq<Info>)
    ensures LoadedHeap(h, l, t, lib, handle, infos).external == h.external
  {
    hide AddPlugins;
    ExternalAdded(OpenLib(h, l, t.handlePtrs, lib, handle), l, t.registry, infos, OpenPtrs(h, t.handlePtrs, handle)[handle],
                  NewCode(h, handle));
    ExternalDrop(Touch(Filled(h, l, t, lib, handle, infos), NewCode(h, handle)), LocalLib, LocalLib);
    hide DropLib;
  }

  // ---------------------------------------------------------------- equal slots mean equal counts

  /** The same objects with the same counts, and the same `dlopen` counts. */
  ghost predicate SameCounts(h: Heap, h': Heap) {
    && h'.slots == h.slots
    && h'.blocks.Keys == h.blocks.Keys
    && (forall id | id in h.blocks :: h'.blocks[id].payload == h.blocks[id].payload && h'.blocks[id].strong == h.blocks[id].strong)
    && (forall k :: OsCount(h', k) == OsCount(h, k))
  }

  lemma SameSlotsSameCounts(h: Heap, h': Heap)
    requires WellFormed(h) && WellFormed(h') && Evolves(h, h') && h'.slots == h.slots && h'.external == h.external
    ensures SameCounts(h, h')
  {
    hide WellFormed, Evolves;
    HoldersCounted(h);
    HoldersCounted(h');
    assert forall id :: Holders(h', id) == Holders(h, id);
    forall id
      ensures id in h.blocks <==> id in h'.blocks
    {
      if id in h.blocks {
        SomeHolder(h, id);
        var sl :| sl in h.slots && h.slots[sl] == id;
        HeldIsIn(h', sl);
      }
      if id in h'.blocks {
        SomeHolder(h', id);
        var sl :| sl in h'.slots && h'.slots[sl] == id;
        HeldIsIn(h, sl);
      }
    }
    forall id | id in h.blocks
      ensures h'.blocks[id].payload == h.blocks[id].payload
    {
      SamePayload(h, h', id);
    }
    CountsConserved(h);
    CountsConserved(h');
    forall k
      ensures OsCount(h', k) == OsCount(h, k)
    {
      assert LibraryBlocks(h', k) == LibraryBlocks(h, k);
    }
  }

  // ---------------------------------------------------------------- load, then forget

  lemma LoadedThenForgotten(h: Heap, h1: Heap, h2: Heap, l: nat, t: Tables, infos: seq<Info>, order: seq<string>, id: Id, code: Code)
    requires FilledSlots(h, h1, l, t, infos, id, code) && Lists(order, NamesOf(infos))
    requires h2.slots == h1.slots - InfoSlots(l, order) - LibSlots(l, order)
    requires forall n | n in order :: LoaderInfo(l, n) !in h.slots && LoaderLib(l, n) !in h.slots
    ensures h2.slots == h.slots
  {
    hide FilledName;
    forall sl
      ensures SameAt(h, h2, sl)
    {
      assert sl in InfoSlots(l, order) <==> sl.LoaderInfo? && sl.loader == l && sl.name in order;
      assert sl in LibSlots(l, order) <==> sl.LoaderLib? && sl.loader == l && sl.name in order;
    }
    forall sl
      ensures sl in h.slots <==> sl in h2.slots
      ensures sl in h.slots ==> h2.slots[sl] == h.slots[sl]
    {
      assert SameAt(h, h2, sl);
    }
  }

  /** Loading a library that a Loader does not remember, and forgetting it again, restores every
      answer of the registry, every reference count and every `dlopen` count. */
  lemma LoadForgetRestores(c: Catalog, s: System, s1: System, s2: System, l: nat, lib: string, handle: Handle, infos: seq<Info>, order: seq<string>)
    requires WellNamed(c) && Orderly(c, s) && Enabled(c, s, LoadLib(l, lib, handle, infos))
    requires NamesOf(infos) !! s.loaders[l].registry.plugins.Keys
    requires s1 == Next(c, s, LoadLib(l, lib, handle, infos))
    requires Enabled(c, s1, ForgetLibrary(l, handle, order)) && s2 == Next(c, s1, ForgetLibrary(l, handle, order))
    ensures l in s2.loaders && SameAnswers(s2.loaders[l].registry, s.loaders[l].registry)
    ensures SameCounts(s.heap, s2.heap) && s2.heap.fault == s.heap.fault
  {
    hide WellNamed, Base, Agrees, Exact, Complete, WellFormed, Evolves, MayOpen, LoadedHeap, ForgetPlugins, FilledSlots, OpenedAs, PinnedName, Clash, SameAnswers;
    var h, t := s.heap, s.loaders[l];
    OrderlyBase(c, s);
    BaseHeap(s);
    NewNames(c, s, l, infos);
    CatalogueOf(c, lib, infos);
    NoneKnown(h, l, t, handle, infos);
    LoadFrame(s, l, lib, handle, infos);
    var h1 := LoadedHeap(h, l, t, lib, handle, infos);
    LoadOrderly(c, s, l, lib, handle, infos);
    AllPinned(c, s1, l);
    ForgetPluginsFacts(h1, l, order);
    var h2 := ForgetPlugins(h1, l, order);
    EvolvesTransitive(h, h1, h2);
    ExternalLoaded(h, l, t, lib, handle, infos);
    ExternalForgotten(h1, l, order);
    LoadedThenForgotten(h, h1, h2, l, t.registry, infos, order, OpenPtrs(h, t.handlePtrs, handle)[handle], NewCode(h, handle));
    SameSlotsSameCounts(h, h2);
    AnswersRestored(c, s, l, infos, order);
  }

  lemma NewNames(c: Catalog, s: System, l: nat, infos: seq<Info>)
    requires Base(s) && l in s.loaders && NamesOf(infos) !! s.loaders[l].registry.plugins.Keys
    ensures forall n | n in NamesOf(infos) :: LoaderInfo(l, n) !in s.heap.slots && LoaderLib(l, n) !in s.heap.slots
  {
    hide Base, WellFormed, Linked, Complete, PtrTable, PtrsComplete;
    BaseHeap(s);
    assert LoaderBase(s.heap, l, s.loaders[l]);
    LinkedNames(s.heap, l, s.loaders[l].registry);
  }

  lemma NoneKnown(h: Heap, l: nat, t: LoaderTables, handle: Handle, infos: seq<Info>)
    requires NamesOf(infos) !! t.registry.plugins.Keys
    ensures !Clash(h, l, t, handle, infos)
  {
    assert forall i | 0 <= i < |infos| :: infos[i].name in NamesOf(infos);
  }

  lemma AnswersRestored(c: Catalog, s: System, l: nat, infos: seq<Info>, order: seq<string>)
    requires Orderly(c, s) && l in s.loaders && Catalogue(infos)
    requires NamesOf(infos) !! s.loaders[l].registry.plugins.Keys && Lists(order, NamesOf(infos))
    ensures SameAnswers(ForgottenAll(AddedAll(s.loaders[l].registry, infos), order), s.loaders[l].registry)
  {
    hide Base, WellFormed, Exact, Complete, Linked, PtrTable, PtrsComplete, Catalogue, SameAnswers;
    BaseHeap(s);
    assert LoaderBase(s.heap, l, s.loaders[l]) && Agrees(c, s.heap, l, s.loaders[l]);
    assert (set n | n in order) == NamesOf(infos);
    LoadThenForget(s.loaders[l].registry, infos, order);
  }

  // ---------------------------------------------------------------- what a Loader remembers

  function CatalogNames(c: Catalog, lib: string): set<string>
    requires lib in c
  {
    set i | i in c[lib] :: i.name
  }

  /** If any plugin is registered for a handle, then all those are that the library there exports. */
  ghost predicate RemembersAt(c: Catalog, h: Heap, t: LoaderTables, k: Handle) {
    k in t.handlePlugins && t.handlePlugins[k] != {} ==>
      k in h.os && h.os[k].lib in c && t.handlePlugins[k] == CatalogNames(c, h.os[k].lib)
  }

  predicate OwnsLib(h: Heap, l: nat, n: string) {
    Held(h, LoaderLib(l, n)) ==> PayloadAt(h, LoaderLib(l, n)).Library? && PayloadAt(h, LoaderLib(l, n)).creator == l
  }

  ghost predicate RemembersAll(c: Catalog, h: Heap, l: nat, t: LoaderTables) {
    (forall n :: OwnsLib(h, l, n)) && (forall k :: RemembersAt(c, h, t, k))
  }

  ghost predicate Remembers(c: Catalog, s: System) {
    forall l | l in s.loaders :: RemembersAll(c, s.heap, l, s.loaders[l])
  }

  /** The plugins of a handle keep their library pointers, so the same library is still there. */
  lemma HandleKept(c: Catalog, h: Heap, h': Heap, l: nat, t: LoaderTables, t': LoaderTables, k: Handle)
    requires WellFormed(h) && WellFormed(h') && Evolves(h, h') && Agrees(c, h, l, t)
    requires k in t'.handlePlugins ==> k in t.handlePlugins && t'.handlePlugins[k] == t.handlePlugins[k]
    requires k in t'.handlePlugins ==> forall n | n in t'.handlePlugins[k] :: SameAt(h, h', LoaderLib(l, n))
    requires RemembersAt(c, h, t, k)
    ensures RemembersAt(c, h', t', k)
  {
    hide WellFormed, Evolves, Exact, Named, CatalogNames;
    if k in t'.handlePlugins && t'.handlePlugins[k] != {} {
      var n :| n in t'.handlePlugins[k];
      assert Registered(h, l, t, k, n);
      SameSlot(h, h', LoaderLib(l, n));
      LibStays(h, h', k, h.slots[LoaderLib(l, n)]);
    }
  }

  lemma OwnsKept(h: Heap, h': Heap, l: nat, n: string)
    requires WellFormed(h) && WellFormed(h') && Evolves(h, h') && OwnsLib(h, l, n)
    requires SameAt(h, h', LoaderLib(l, n)) || LoaderLib(l, n) !in h'.slots
    ensures OwnsLib(h', l, n)
  {
    hide WellFormed, Evolves;
    if LoaderLib(l, n) in h'.slots {
      SameSlot(h, h', LoaderLib(l, n));
    }
  }

  /** A step that takes plugins of a Loader away, or leaves them alone. */
  lemma RemembersKept(c: Catalog, h: Heap, h': Heap, l: nat, t: LoaderTables, t': LoaderTables)
    requires WellFormed(h) && WellFormed(h') && Evolves(h, h') && Agrees(c, h, l, t) && Agrees(c, h', l, t')
    requires forall k | k in t'.handlePlugins :: k in t.handlePlugins && t'.handlePlugins[k] == t.handlePlugins[k]
    requires forall n :: SameAt(h, h', LoaderLib(l, n)) || LoaderLib(l, n) !in h'.slots
    requires RemembersAll(c, h, l, t)
    ensures RemembersAll(c, h', l, t')
  {
    hide WellFormed, Evolves, Exact, Named, RemembersAt, OwnsLib, Registered, Backed, PinnedName;
    forall n
      ensures OwnsLib(h', l, n)
    {
      assert OwnsLib(h, l, n);
      OwnsKept(h, h', l, n);
    }
    forall k
      ensures RemembersAt(c, h', t', k)
    {
      assert RemembersAt(c, h, t, k);
      if k in t'.handlePlugins {
        forall n | n in t'.handlePlugins[k]
          ensures SameAt(h, h', LoaderLib(l, n))
        {
          assert Registered(h', l, t', k, n);
          RegisteredIsIn(h', l, t', k, n);
        }
      }
      HandleKept(c, h, h', l, t, t', k);
    }
  }

  lemma RegisteredIsIn(h: Heap, l: nat, t: LoaderTables, k: Handle, n: string)
    requires Registered(h, l, t, k, n) && k in t.handlePlugins && n in t.handlePlugins[k]
    ensures LoaderLib(l, n) in h.slots
  {
  }

  lemma LoadedNames(c: Catalog, lib: string, infos: seq<Info>)
    requires lib in c && (forall i :: i in infos <==> i in c[lib])
    ensures NamesOf(infos) == CatalogNames(c, lib)
  {
    forall n
      ensures n in NamesOf(infos) <==> n in CatalogNames(c, lib)
    {
      if i :| 0 <= i < |infos| && infos[i].name == n {
        assert infos[i] in infos;
      }
      if i :| i in c[lib] && i.name == n {
        assert i in infos;
        var j :| 0 <= j < |infos| && infos[j] == i;
      }
    }
  }

  lemma FilledHolds(h: Heap, h1: Heap, l: nat, t: Tables, infos: seq<Info>, id: Id, code: Code)
    requires FilledSlots(h, h1, l, t, infos, id, code) && infos != [] && WellFormed(h1)
    ensures id in h1.blocks
  {
    hide WellFormed;
    assert infos[0] in infos && FilledName(h1, l, t, infos[0], id, code);
    HeldIsIn(h1, LoaderLib(l, infos[0].name));
  }

  /** The library pointer of a name after a load: the new one, or the one it had. */
  lemma LoadedLib(h: Heap, h': Heap, l: nat, t: Tables, infos: seq<Info>, id: Id, code: Code, n: string)
    requires FilledSlots(h, h', l, t, infos, id, code)
    ensures n in NamesOf(infos) ==> LoaderLib(l, n) in h'.slots && h'.slots[LoaderLib(l, n)] == id
    ensures n !in NamesOf(infos) ==> SameAt(h, h', LoaderLib(l, n))
  {
    if i :| 0 <= i < |infos| && infos[i].name == n {
      assert infos[i] in infos && FilledName(h', l, t, infos[i], id, code);
    }
  }

  /** The Loader that loads: the handle gets all the names of the library, and a name that is
      registered for another handle was not among them. */
  lemma LoadRemembers(c: Catalog, h: Heap, h': Heap, l: nat, t: LoaderTables, lib: string, handle: Handle, infos: seq<Info>, id: Id)
    requires WellFormed(h) && WellFormed(h') && Evolves(h, h') && Agrees(c, h, l, t) && RemembersAll(c, h, l, t)
    requires Agrees(c, h', l, LoadedTables(h, t, handle, infos)) && lib in c && (forall i :: i in infos <==> i in c[lib])
    requires FilledSlots(h, h', l, t.registry, infos, id, NewCode(h, handle)) && OpenedAs(h', l, lib, handle, id, NewCode(h, handle))
    ensures RemembersAll(c, h', l, LoadedTables(h, t, handle, infos))
  {
    hide WellFormed, Evolves, Exact, Named, FilledSlots, Backed, PinnedName, AddedAll, OpenPtrs, CatalogNames, NamesOf, RemembersAt;
    var t' := LoadedTables(h, t, handle, infos);
    LoadedNames(c, lib, infos);
    forall n
      ensures OwnsLib(h', l, n)
    {
      assert OwnsLib(h, l, n);
      LoadedLib(h, h', l, t.registry, infos, id, NewCode(h, handle), n);
      if n !in NamesOf(infos) {
        OwnsKept(h, h', l, n);
      }
    }
    forall k
      ensures RemembersAt(c, h', t', k)
    {
      assert RemembersAt(c, h, t, k);
      if k == handle {
        HandleLoaded(c, h, h', l, t, lib, handle, infos, id);
      } else {
        if k in t'.handlePlugins {
          forall n | n in t'.handlePlugins[k]
            ensures SameAt(h, h', LoaderLib(l, n))
          {
            assert Registered(h', l, t', k, n);
            LoadedLib(h, h', l, t.registry, infos, id, NewCode(h, handle), n);
          }
        }
        HandleKept(c, h, h', l, t, t', k);
      }
    }
  }

  lemma HandleLoaded(c: Catalog, h: Heap, h': Heap, l: nat, t: LoaderTables, lib: string, handle: Handle, infos: seq<Info>, id: Id)
    requires WellFormed(h') && lib in c && NamesOf(infos) == CatalogNames(c, lib)
    requires FilledSlots(h, h', l, t.registry, infos, id, NewCode(h, handle)) && OpenedAs(h', l, lib, handle, id, NewCode(h, handle))
    ensures RemembersAt(c, h', LoadedTables(h, t, handle, infos), handle)
  {
    hide WellFormed, FilledSlots, AddedAll, OpenPtrs, CatalogNames;
    if infos != [] {
      FilledHolds(h, h', l, t.registry, infos, id, NewCode(h, handle));
    }
  }

  lemma LoadStepRemembers(c: Catalog, s: System, step: Step)
    requires WellNamed(c) && Orderly(c, s) && Remembers(c, s) && Enabled(c, s, step) && step.LoadLib? && !Clashes(s, step)
    ensures Remembers(c, Next(c, s, step))
  {
    hide WellNamed, Base, Agrees, WellFormed, Evolves, MayOpen, LoadedHeap, LoadedTables, FilledSlots, OpenedAs, Clash, RemembersAll, Tied;
    var s', h, l, t := Next(c, s, step), s.heap, step.loader, s.loaders[step.loader];
    CatalogueOf(c, step.lib, step.infos);
    BaseHeap(s);
    LoadFrame(s, l, step.lib, step.handle, step.infos);
    LoadOrderly(c, s, l, step.lib, step.handle, step.infos);
    var id := OpenPtrs(h, t.handlePtrs, step.handle)[step.handle];
    forall j | j in s'.loaders
      ensures RemembersAll(c, s'.heap, j, s'.loaders[j])
    {
      assert RemembersAll(c, h, j, s.loaders[j]);
      if j == l {
        LoadRemembers(c, h, s'.heap, l, t, step.lib, step.handle, step.infos, id);
      } else {
        forall n
          ensures SameAt(h, s'.heap, LoaderLib(j, n))
        {
          FilledOthers(h, s'.heap, l, t.registry, step.infos, id, NewCode(h, step.handle), j, n);
        }
        RemembersKept(c, h, s'.heap, j, s.loaders[j], s'.loaders[j]);
      }
    }
  }

  lemma EmptyRemembers(c: Catalog, h: Heap, l: nat)
    requires forall n :: LoaderLib(l, n) !in h.slots
    ensures RemembersAll(c, h, l, EMPTY_LOADER)
  {
  }

  /** A step that adds nothing to a Loader that was there before. */
  lemma RemembersRest(c: Catalog, s: System, s': System)
    requires Orderly(c, s) && Orderly(c, s') && Remembers(c, s) && Evolves(s.heap, s'.heap)
    requires forall l | l in s'.loaders && l !in s.loaders :: RemembersAll(c, s'.heap, l, s'.loaders[l])
    requires forall l | l in s'.loaders && l in s.loaders ::
               forall k | k in s'.loaders[l].handlePlugins ::
                 k in s.loaders[l].handlePlugins && s'.loaders[l].handlePlugins[k] == s.loaders[l].handlePlugins[k]
    requires forall l, n | l in s'.loaders :: SameAt(s.heap, s'.heap, LoaderLib(l, n)) || LoaderLib(l, n) !in s'.heap.slots
    ensures Remembers(c, s')
  {
    hide Base, Agrees, Evolves, RemembersAll, Tied, WellFormed;
    BaseHeap(s);
    BaseHeap(s');
    forall l | l in s'.loaders
      ensures RemembersAll(c, s'.heap, l, s'.loaders[l])
    {
      if l in s.loaders {
        assert RemembersAll(c, s.heap, l, s.loaders[l]);
        RemembersKept(c, s.heap, s'.heap, l, s.loaders[l], s'.loaders[l]);
      }
    }
  }

  lemma LibsAfter(h: Heap, h': Heap, changed: set<Slot>)
    requires WellFormed(h) && Frame(h, h', changed) && forall sl | sl in changed && sl.LoaderLib? :: sl !in h'.slots
    ensures forall l, n :: SameAt(h, h', LoaderLib(l, n)) || LoaderLib(l, n) !in h'.slots
    ensures Evolves(h, h')
  {
    hide WellFormed, Evolves, NoNewLibs;
    forall l, n
      ensures SameAt(h, h', LoaderLib(l, n)) || LoaderLib(l, n) !in h'.slots
    {
      assert LoaderLib(l, n) in changed || StaysAt(h, h', LoaderLib(l, n));
    }
  }

  lemma OtherStepRemembers(c: Catalog, s: System, step: Step)
    requires WellNamed(c) && Orderly(c, s) && Remembers(c, s) && Enabled(c, s, step) && !LoaderStep(step)
    requires Orderly(c, Next(c, s, step))
    ensures Remembers(c, Next(c, s, step))
  {
    hide WellNamed, Base, Agrees, Frame, Written, Next, Tied, RemembersAll, WellFormed;
    var s' := Next(c, s, step);
    BaseHeap(s);
    OtherStepFrame(c, s, step);
    WrittenElsewhere(s, step);
    LibsAfter(s.heap, s'.heap, Written(s, step));
    RemembersRest(c, s, s');
  }

  lemma LoaderStepRemembers(c: Catalog, s: System, step: Step)
    requires WellNamed(c) && Orderly(c, s) && Remembers(c, s) && Enabled(c, s, step) && LoaderStep(step) && !step.LoadLib?
    requires Orderly(c, Next(c, s, step))
    ensures Remembers(c, Next(c, s, step))
  {
    hide WellNamed, Base, Agrees, Frame, Tied, RemembersAll, WellFormed, Lists, DropLibs, DropInfos, ForgetPlugins, PinnedName, Evolves,
         ForgottenAll, NoNewLibs;
    var s', h := Next(c, s, step), s.heap;
    BaseHeap(s);
    match step {
      case NewLoader =>
        LoaderIsOld(s);
        EvolvesRefl(h);
        EmptyRemembers(c, h, s.nextLoader);
        RemembersRest(c, s, s');
      case DestroyLoader(l, infoOrder, libOrder) => DestroyRemembers(c, s, s', l, infoOrder, libOrder);
      case ForgetLibrary(l, handle, order) =>
        if handle in s.loaders[l].handlePlugins {
          ForgetRemembers(c, s, s', l, handle, order);
        }
    }
  }

  lemma ForgetRemembers(c: Catalog, s: System, s': System, l: nat, handle: Handle, order: seq<string>)
    requires Orderly(c, s) && Orderly(c, s') && Remembers(c, s) && l in s.loaders
    requires s'.heap == ForgetPlugins(s.heap, l, order) && s'.loaders == s.loaders[l := ForgottenTables(s.loaders[l], handle, order)]
    ensures Remembers(c, s')
  {
    hide Base, Agrees, Tied, RemembersAll, WellFormed, Evolves, NoNewLibs, PinnedName, ForgottenAll;
    BaseHeap(s);
    ForgetPluginsFacts(s.heap, l, order);
    hide ForgetPlugins;
    RemembersRest(c, s, s');
  }

  lemma DestroyRemembers(c: Catalog, s: System, s': System, l: nat, infoOrder: seq<string>, libOrder: seq<string>)
    requires Orderly(c, s) && Orderly(c, s') && Remembers(c, s) && s'.loaders == s.loaders - {l}
    requires s'.heap == DropLibs(DropInfos(s.heap, l, infoOrder), l, libOrder)
    ensures Remembers(c, s')
  {
    hide Base, Agrees, Tied, RemembersAll, WellFormed, Evolves, NoNewLibs, PinnedName;
    BaseHeap(s);
    var h1 := DropInfos(s.heap, l, infoOrder);
    DropInfosFacts(s.heap, l, infoOrder);
    DropLibsFacts(h1, l, libOrder);
    hide DropLibs, DropInfos;
    EvolvesTransitive(s.heap, h1, s'.heap);
    RemembersRest(c, s, s');
  }

  lemma RemembersStep(c: Catalog, s: System, step: Step)
    requires WellNamed(c) && Orderly(c, s) && Remembers(c, s) && Enabled(c, s, step) && !Clashes(s, step)
    ensures Remembers(c, Next(c, s, step))
  {
    hide WellNamed, Orderly, Remembers, Enabled, Next, Clashes;
    OrderlyStep(c, s, step);
    if step.LoadLib? {
      LoadStepRemembers(c, s, step);
    } else if LoaderStep(step) {
      LoaderStepRemembers(c, s, step);
    } else {
      OtherStepRemembers(c, s, step);
    }
  }

  /** In every run with disjoint libraries a Loader remembers all the plugins of a library or none. */
  lemma {:induction false} RemembersRun(c: Catalog, s: System, steps: seq<Step>)
    requires WellNamed(c) && Disjoint(c) && Orderly(c, s) && Remembers(c, s) && Possible(c, s, steps)
    ensures Remembers(c, Run(c, s, steps))
    decreases |steps|
  {
    hide WellNamed, Disjoint, Orderly, Clashes, Enabled, Next, Remembers;
    if steps == [] {
    } else {
      DisjointNeverClashes(c, s, steps[0]);
      OrderlyStep(c, s, steps[0]);
      RemembersStep(c, s, steps[0]);
      RemembersRun(c, Next(c, s, steps[0]), steps[1..]);
    }
  }

  // ---------------------------------------------------------------- loading a library that is remembered

  /** The Loader remembers a plugin from the mapping of the library. */
  ghost predicate KnowsLibrary(h: Heap, l: nat, lib: string, n: string, k: Handle) {
    RememberedAt(h, l, n, k) && k in h.os && h.os[k].lib == lib
  }

  /** What is needed of one Loader and its tables. */
  ghost predicate Reloads(c: Catalog, h: Heap, l: nat, t: LoaderTables, lib: string, infos: seq<Info>, n: string, k: Handle) {
    && WellNamed(c) && WellFormed(h) && LoaderBase(h, l, t) && Agrees(c, h, l, t) && RemembersAll(c, h, l, t)
    && lib in c && (forall i :: i in infos <==> i in c[lib]) && KnowsLibrary(h, l, lib, n, k)
  }

  lemma AllRegistered(c: Catalog, h: Heap, l: nat, t: LoaderTables, lib: string, infos: seq<Info>, n: string, k: Handle)
    requires Reloads(c, h, l, t, lib, infos, n, k)
    ensures k in t.handlePlugins && t.handlePlugins[k] == NamesOf(infos) && n in NamesOf(infos)
  {
    hide WellFormed, Exact, Named, PtrTable, PtrsComplete, Complete, WellNamed, NamesOf, CatalogNames;
    assert LinkedName(h, l, t.registry, n) && Backed(c, h, l, t, n) && RemembersAt(c, h, t, k);
    LoadedNames(c, lib, infos);
  }

  /** Every name of the library has the one control block of this Loader for it. */
  lemma SharesBlock(c: Catalog, h: Heap, l: nat, t: LoaderTables, lib: string, infos: seq<Info>, n: string, k: Handle, m: string)
    requires Reloads(c, h, l, t, lib, infos, n, k) && m in NamesOf(infos)
    ensures m in t.registry.plugins && LoaderLib(l, m) in h.slots && LoaderInfo(l, m) in h.slots
    ensures LockSucceeds(h, t.handlePtrs, k) && h.slots[LoaderLib(l, m)] == t.handlePtrs[k]
  {
    AllRegistered(c, h, l, t, lib, infos, n, k);
    hide WellFormed, Exact, Named, PtrTable, Complete, WellNamed, NamesOf, CatalogNames, Backed, PinnedName, RemembersAt;
    assert LinkedName(h, l, t.registry, m) && Registered(h, l, t, k, m) && OwnsLib(h, l, m);
  }

  /** ... and the Info that the library exports. */
  lemma SharesInfo(c: Catalog, h: Heap, l: nat, t: LoaderTables, lib: string, infos: seq<Info>, n: string, k: Handle, i: nat)
    requires Reloads(c, h, l, t, lib, infos, n, k) && i < |infos|
    ensures infos[i].name in t.registry.plugins && t.registry.plugins[infos[i].name] == infos[i]
  {
    var m := infos[i].name;
    AllRegistered(c, h, l, t, lib, infos, n, k);
    assert m in NamesOf(infos);
    SharesBlock(c, h, l, t, lib, infos, n, k, m);
    KnownName(h, l, t, m);
    hide WellFormed, Exact, Named, PtrTable, Complete, NamesOf, CatalogNames, PinnedName, RemembersAt, PtrsComplete, LoaderBase;
    assert Registered(h, l, t, k, m) && Backed(c, h, l, t, m);
    assert infos[i] in infos;
  }

  lemma ReloadedAnswers(c: Catalog, h: Heap, l: nat, t: LoaderTables, lib: string, infos: seq<Info>, n: string, k: Handle)
    requires Reloads(c, h, l, t, lib, infos, n, k)
    ensures Catalogue(infos) && SameAnswers(AddedAll(t.registry, infos), t.registry)
  {
    ReloadsTables(c, h, l, t, lib, infos, n, k);
    forall i | 0 <= i < |infos|
      ensures infos[i].name in t.registry.plugins && t.registry.plugins[infos[i].name] == infos[i]
    {
      SharesInfo(c, h, l, t, lib, infos, n, k, i);
    }
    hide Reloads, Complete, Exact;
    KnownInfosChangeNothing(t.registry, infos);
  }

  lemma ReloadsTables(c: Catalog, h: Heap, l: nat, t: LoaderTables, lib: string, infos: seq<Info>, n: string, k: Handle)
    requires Reloads(c, h, l, t, lib, infos, n, k)
    ensures Catalogue(infos) && Exact(t.registry) && Complete(t.registry)
  {
    hide WellNamed, WellFormed, PtrTable, PtrsComplete, Linked, RemembersAll, KnowsLibrary, Complete, Exact, Named, PinnedName, Backed,
         Registered, Catalogue;
    CatalogueOf(c, lib, infos);
  }

  lemma KnownInfosChangeNothing(t: Tables, infos: seq<Info>)
    requires Exact(t) && Complete(t) && Catalogue(infos)
    requires forall i | 0 <= i < |infos| :: infos[i].name in t.plugins && t.plugins[infos[i].name] == infos[i]
    ensures SameAnswers(AddedAll(t, infos), t)
  {
    hide Exact, Complete, SameAnswers, AddedAll;
    AddedAllExact(t, infos);
    assert AddedAll(t, infos).plugins == t.plugins;
    ExactTablesAgree(AddedAll(t, infos), t);
  }

  lemma ReloadedSlots(c: Catalog, h: Heap, h': Heap, l: nat, t: LoaderTables, lib: string, infos: seq<Info>, n: string, k: Handle)
    requires Reloads(c, h, l, t, lib, infos, n, k)
    requires k in t.handlePtrs && FilledSlots(h, h', l, t.registry, infos, t.handlePtrs[k], NewCode(h, k))
    ensures h'.slots == h.slots
  {
    hide Reloads, FilledName;
    forall sl: Slot
      ensures SameAt(h, h', sl)
    {
      if IsPluginSlot(sl, l, NamesOf(infos)) {
        SharesBlock(c, h, l, t, lib, infos, n, k, sl.name);
        if sl.LoaderLib? {
          LoadedLib(h, h', l, t.registry, infos, t.handlePtrs[k], NewCode(h, k), sl.name);
        }
      }
    }
    SlotsEqual(h, h');
  }

  lemma SlotsEqual(h: Heap, h': Heap)
    requires forall sl: Slot :: SameAt(h, h', sl)
    ensures h'.slots == h.slots
  {
    forall sl
      ensures sl in h.slots <==> sl in h'.slots
      ensures sl in h.slots ==> h'.slots[sl] == h.slots[sl]
    {
      assert SameAt(h, h', sl);
    }
  }

  /** Loading a library of which the Loader remembers a plugin changes no answer and no count. */
  lemma LoadAgainKeeps(c: Catalog, s: System, s': System, l: nat, lib: string, handle: Handle, infos: seq<Info>, n: string, k: Handle)
    requires WellNamed(c) && Orderly(c, s) && Remembers(c, s) && l in s.loaders && KnowsLibrary(s.heap, l, lib, n, k)
    requires Enabled(c, s, LoadLib(l, lib, handle, infos)) && s' == Next(c, s, LoadLib(l, lib, handle, infos))
    ensures handle == k && l in s'.loaders
    ensures s'.loaders[l].handlePlugins == s.loaders[l].handlePlugins && s'.loaders[l].handlePtrs == s.loaders[l].handlePtrs
    ensures SameAnswers(s'.loaders[l].registry, s.loaders[l].registry)
    ensures SameCounts(s.heap, s'.heap) && s'.heap.fault == s.heap.fault
  {
    hide Tied, WellNamed, Base, Agrees, WellFormed, Evolves, MayOpen, LoadedHeap, FilledSlots, SameAnswers, LoaderBase, AddedAll, OpenedAs,
         RemembersAll, SameCounts, RememberedAt, Catalogue;
    var h, t := s.heap, s.loaders[l];
    BaseHeap(s);
    SameHandle(h, lib, k, handle);
    assert Reloads(c, h, l, t, lib, infos, n, k) by { assert RemembersAll(c, h, l, t); }
    hide Remembers, KnowsLibrary;
    AllRegistered(c, h, l, t, lib, infos, n, k);
    SharesBlock(c, h, l, t, lib, infos, n, k, n);
    ReloadedAnswers(c, h, l, t, lib, infos, n, k);
    hide Reloads;
    LoadFrame(s, l, lib, handle, infos);
    ReloadedSlots(c, h, s'.heap, l, t, lib, infos, n, k);
    ExternalLoaded(h, l, t, lib, handle, infos);
    SameSlotsSameCounts(h, s'.heap);
  }

  lemma SameHandle(h: Heap, lib: string, handle: Handle, handle': Handle)
    requires WellFormed(h) && handle in h.os && h.os[handle].lib == lib && MayOpen(h, lib, handle')
    ensures handle' == handle
  {
    hide SlotsHeld, BlocksOwned, InstancesAnchored, Balanced;
  }

  /** So it is at any moment of any run whose libraries export disjoint names. */
  lemma LoadAgainKeepsProgram(c: Catalog, steps: seq<Step>, l: nat, lib: string, handle: Handle, infos: seq<Info>, n: string, k: Handle)
    requires WellNamed(c) && Disjoint(c) && Possible(c, INITIAL, steps)
    requires var s := Run(c, INITIAL, steps);
             l in s.loaders && KnowsLibrary(s.heap, l, lib, n, k) && Enabled(c, s, LoadLib(l, lib, handle, infos))
    ensures var s := Run(c, INITIAL, steps); var s' := Next(c, s, LoadLib(l, lib, handle, infos));
            && handle == k && l in s'.loaders && s'.loaders[l].handlePlugins == s.loaders[l].handlePlugins
            && SameAnswers(s'.loaders[l].registry, s.loaders[l].registry)
            && SameCounts(s.heap, s'.heap) && s'.heap.fault == s.heap.fault
  {
    hide WellNamed, Disjoint, Possible, Run, Orderly, Enabled, Next, SameAnswers, SameCounts, KnowsLibrary;
    InitialGood(c);
    OrderlyProgram(c, steps);
    RemembersRun(c, INITIAL, steps);
    var s := Run(c, INITIAL, steps);
    LoadAgainKeeps(c, s, Next(c, s, LoadLib(l, lib, handle, infos)), l, lib, handle, infos, n, k);
  }
}
