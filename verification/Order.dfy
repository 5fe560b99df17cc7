/** The tables of the Loaders stay in agreement exactly when no library brings a clashing name. */
module Order {
  import opened Common
  import opened Runtime
  import opened Registries
  import opened LoaderSteps
  import opened Plugins
  import opened Lifetime
  import opened Products
  import opened Agreement
  import opened Steps

  predicate Clashes(s: System, step: Step) {
    step.LoadLib? && step.loader in s.loaders
    && Clash(s.heap, step.loader, s.loaders[step.loader], step.handle, step.infos)
  }

  // ---------------------------------------------------------------- one lemma for each step of a Loader

  lemma NewLoaderOrderly(c: Catalog, s: System)
    requires Orderly(c, s)
    ensures Orderly(c, s.(loaders := s.loaders[s.nextLoader := EMPTY_LOADER], nextLoader := s.nextLoader + 1))
  {
    hide Base, WellFormed, Agrees, Tied;
    var l, h := s.nextLoader, s.heap;
    NewLoaderBase(s);
    LoaderIsOld(s);
    EmptyAgreesWith(c, h, l);
  }

  lemma LoaderIsOld(s: System)
    requires Base(s)
    ensures forall l | l in s.loaders :: l < s.nextLoader
    ensures forall l, n | l !in s.loaders :: LoaderInfo(l, n) !in s.heap.slots && LoaderLib(l, n) !in s.heap.slots
  {
    hide WellFormed, WrappersAgree, WeaksOk, ProductsOk, LoaderBase;
  }

  lemma EmptyAgreesWith(c: Catalog, h: Heap, l: nat)
    requires forall n :: LoaderInfo(l, n) !in h.slots
    ensures Agrees(c, h, l, EMPTY_LOADER)
  {
  }

  lemma DestroyLoaderFrame(s: System, l: nat, infoOrder: seq<string>, libOrder: seq<string>)
    requires Base(s) && l in s.loaders
    ensures var h' := DropLibs(DropInfos(s.heap, l, infoOrder), l, libOrder);
            && Frame(s.heap, h', InfoSlots(l, infoOrder) + LibSlots(l, libOrder))
            && ((forall n :: PinnedName(s.heap, l, n)) ==> h'.fault == s.heap.fault)
  {
    hide Base, WellFormed, Evolves, NoNewLibs, PinnedName;
    BaseHeap(s);
    var h := s.heap;
    var h1 := DropInfos(h, l, infoOrder);
    DropInfosFacts(h, l, infoOrder);
    DropLibsFacts(h1, l, libOrder);
    var h' := DropLibs(h1, l, libOrder);
    hide DropInfos, DropLibs;
    EvolvesTransitive(h, h1, h');
    NoNewLibsTransitive(h, h1, h');
  }

  lemma DestroyLoaderOrderly(c: Catalog, s: System, l: nat, infoOrder: seq<string>, libOrder: seq<string>)
    requires Orderly(c, s) && l in s.loaders
    requires Lists(infoOrder, s.loaders[l].registry.plugins.Keys) && Lists(libOrder, s.loaders[l].registry.plugins.Keys)
    ensures Orderly(c, s.(heap := DropLibs(DropInfos(s.heap, l, infoOrder), l, libOrder), loaders := s.loaders - {l}))
  {
    hide Base, Frame, Lists, DropInfos, DropLibs, Agrees;
    BaseDestroyLoader(s, l, infoOrder, libOrder);
    DestroyLoaderFrame(s, l, infoOrder, libOrder);
    var h' := DropLibs(DropInfos(s.heap, l, infoOrder), l, libOrder);
    OrderlyOne(c, s, s.(heap := h', loaders := s.loaders - {l}), InfoSlots(l, infoOrder) + LibSlots(l, libOrder), l);
  }

  lemma ForgetFrame(s: System, l: nat, order: seq<string>)
    requires Base(s)
    ensures var h' := ForgetPlugins(s.heap, l, order);
            && Frame(s.heap, h', InfoSlots(l, order) + LibSlots(l, order))
            && ((forall n :: PinnedName(s.heap, l, n)) ==> h'.fault == s.heap.fault)
  {
    hide Base, WellFormed, Evolves, NoNewLibs, PinnedName;
    BaseHeap(s);
    ForgetPluginsFacts(s.heap, l, order);
  }

  lemma ForgetOrderly(c: Catalog, s: System, l: nat, handle: Handle, order: seq<string>)
    requires Orderly(c, s) && l in s.loaders && handle in s.loaders[l].handlePlugins
    requires Lists(order, s.loaders[l].handlePlugins[handle])
    ensures Orderly(c, s.(heap := ForgetPlugins(s.heap, l, order), loaders := s.loaders[l := ForgottenTables(s.loaders[l], handle, order)]))
  {
    hide Base, Frame, Lists, Agrees, WellFormed, Linked, Evolves;
    BaseHeap(s);
    var t := s.loaders[l];
    assert LoaderBase(s.heap, l, t) && Agrees(c, s.heap, l, t);
    BaseForget(s, l, handle, order);
    ForgetFrame(s, l, order);
    ForgetPluginsFacts(s.heap, l, order);
    var h' := ForgetPlugins(s.heap, l, order);
    hide ForgetPlugins;
    AgreesForgotten(c, s.heap, h', l, t, handle, order);
    OrderlyOne(c, s, s.(heap := h', loaders := s.loaders[l := ForgottenTables(t, handle, order)]), InfoSlots(l, order) + LibSlots(l, order), l);
  }

  // ---------------------------------------------------------------- loading

  /** The library reference that `LoadLib` has opened, and what is mapped at its handle. */
  ghost predicate OpenedAs(h': Heap, l: nat, lib: string, handle: Handle, id: Id, code: Code) {
    id in h'.blocks ==> h'.blocks[id].payload == Library(code, l) && handle in h'.os && h'.os[handle].lib == lib
  }

  lemma LoadFrame(s: System, l: nat, lib: string, handle: Handle, infos: seq<Info>)
    requires Base(s) && l in s.loaders && MayOpen(s.heap, lib, handle) && Catalogue(infos)
    ensures var h := s.heap; var t := s.loaders[l];
            var h' := LoadedHeap(h, l, t, lib, handle, infos); var id := OpenPtrs(h, t.handlePtrs, handle)[handle];
            && WellFormed(h') && Evolves(h, h') && h'.fault == h.fault
            && FilledSlots(h, h', l, t.registry, infos, id, NewCode(h, handle))
            && OpenedAs(h', l, lib, handle, id, NewCode(h, handle))
  {
    hide WellFormed, Evolves, NoNewLibs, FilledSlots, Linked, Complete, PtrTable, PtrsComplete, LoadedHeap, Base, MayOpen, AddedAll, Extends;
    BaseHeap(s);
    var h, t := s.heap, s.loaders[l];
    assert LoaderBase(h, l, t);
    OpenLibFacts(h, l, t.handlePtrs, lib, handle);
    var h1 := OpenLib(h, l, t.handlePtrs, lib, handle);
    LoadedFacts(h, l, t, lib, handle, infos);
    var h' := LoadedHeap(h, l, t, lib, handle, infos);
    var id := OpenPtrs(h, t.handlePtrs, handle)[handle];
    hide OpenLib, OpenPtrs;
    if id in h'.blocks {
      SamePayload(h1, h', id);
      LibStays(h1, h', handle, id);
    }
  }

  lemma FilledOthers(h: Heap, h': Heap, l: nat, t: Tables, infos: seq<Info>, id: Id, code: Code, k: nat, n: string)
    requires FilledSlots(h, h', l, t, infos, id, code) && k != l
    ensures SameAt(h, h', LoaderInfo(k, n)) && SameAt(h, h', LoaderLib(k, n))
  {
    hide FilledName;
  }

  lemma FilledRest(h: Heap, h': Heap, l: nat, t: Tables, infos: seq<Info>, id: Id, code: Code)
    requires FilledSlots(h, h', l, t, infos, id, code)
    ensures forall sl: Slot :: !ForLoaders(sl) ==> SameAt(h, h', sl)
  {
    hide FilledName;
  }

  lemma LoadOrderly(c: Catalog, s: System, l: nat, lib: string, handle: Handle, infos: seq<Info>)
    requires WellNamed(c) && Orderly(c, s) && l in s.loaders && lib in c && MayOpen(s.heap, lib, handle)
    requires (forall i :: i in infos <==> i in c[lib]) && !Clash(s.heap, l, s.loaders[l], handle, infos)
    ensures Orderly(c, s.(heap := LoadedHeap(s.heap, l, s.loaders[l], lib, handle, infos),
                          loaders := s.loaders[l := LoadedTables(s.heap, s.loaders[l], handle, infos)]))
  {
    hide Base, WellFormed, Evolves, Agrees, LoadedHeap, LoadedTables, FilledSlots, Clash, MayOpen, WellNamed, Linked, Complete, PtrTable, PtrsComplete, Tied;
    var h, t := s.heap, s.loaders[l];
    CatalogueOf(c, lib, infos);
    BaseHeap(s);
    BaseLoadLib(s, l, lib, handle, infos);
    LoadFrame(s, l, lib, handle, infos);
    var h' := LoadedHeap(h, l, t, lib, handle, infos);
    var id := OpenPtrs(h, t.handlePtrs, handle)[handle];
    hide OpenPtrs;
    LoadedTied(h, h', l, t.registry, infos, id, NewCode(h, handle));
    assert LoaderBase(h, l, t);
    assert Loads(c, h, l, t, lib, handle, infos);
    LoadedAgrees(c, h, h', l, t, lib, handle, infos, id);
    forall k | k in s.loaders && k != l
      ensures Agrees(c, h', k, s.loaders[k])
    {
      forall n
        ensures SameAt(h, h', LoaderInfo(k, n)) && SameAt(h, h', LoaderLib(k, n))
      {
        FilledOthers(h, h', l, t.registry, infos, id, NewCode(h, handle), k, n);
      }
      AgreesSame(c, h, h', k, s.loaders[k]);
    }
  }

  lemma LoadedTied(h: Heap, h': Heap, l: nat, t: Tables, infos: seq<Info>, id: Id, code: Code)
    requires WellFormed(h) && WellFormed(h') && Evolves(h, h') && FilledSlots(h, h', l, t, infos, id, code) && Tied(h)
    ensures Tied(h')
  {
    hide WellFormed, Evolves, FilledSlots;
    FilledRest(h, h', l, t, infos, id, code);
    TiedSlots(h, h');
  }

  lemma ClashDisorders(c: Catalog, s: System, l: nat, lib: string, handle: Handle, infos: seq<Info>)
    requires WellNamed(c) && Orderly(c, s) && l in s.loaders && lib in c && MayOpen(s.heap, lib, handle)
    requires (forall i :: i in infos <==> i in c[lib]) && Clash(s.heap, l, s.loaders[l], handle, infos)
    ensures !Orderly(c, s.(heap := LoadedHeap(s.heap, l, s.loaders[l], lib, handle, infos),
                           loaders := s.loaders[l := LoadedTables(s.heap, s.loaders[l], handle, infos)]))
  {
    hide Base, WellFormed, Evolves, LoadedHeap, LoadedTables, MayOpen, Agrees, FilledSlots, WellNamed, PinnedName;
    var h, t := s.heap, s.loaders[l];
    CatalogueOf(c, lib, infos);
    BaseHeap(s);
    LoadFrame(s, l, lib, handle, infos);
    var h' := LoadedHeap(h, l, t, lib, handle, infos);
    var id := OpenPtrs(h, t.handlePtrs, handle)[handle];
    hide OpenPtrs;
    var i :| 0 <= i < |infos| && infos[i].name in t.registry.plugins && Held(h, LoaderInfo(l, infos[i].name))
             && PayloadAt(h, LoaderInfo(l, infos[i].name)).code != NewCode(h, handle);
    hide Clash;
    NotPinned(h, h', l, t.registry, infos, id, NewCode(h, handle), i);
    UnpinnedDisagrees(c, h', l, LoadedTables(h, t, handle, infos), infos[i].name);
    assert l in s.loaders[l := LoadedTables(h, t, handle, infos)];
  }

  lemma UnpinnedDisagrees(c: Catalog, h: Heap, l: nat, t: LoaderTables, n: string)
    requires !PinnedName(h, l, n)
    ensures !Agrees(c, h, l, t)
  {
  }

  lemma NotPinned(h: Heap, h': Heap, l: nat, t: Tables, infos: seq<Info>, id: Id, code: Code, i: nat)
    requires WellFormed(h) && WellFormed(h') && Evolves(h, h') && FilledSlots(h, h', l, t, infos, id, code) && i < |infos|
    requires id in h'.blocks ==> h'.blocks[id].payload.Library? && h'.blocks[id].payload.code == code
    requires Held(h, LoaderInfo(l, infos[i].name)) && PayloadAt(h, LoaderInfo(l, infos[i].name)).code != code
    ensures !PinnedName(h', l, infos[i].name)
  {
    hide WellFormed, Evolves;
    assert infos[i] in infos && FilledName(h', l, t, infos[i], id, code);
    SameSlot(h, h', LoaderInfo(l, infos[i].name));
  }

  // ---------------------------------------------------------------- the theorem

  lemma LoaderStepOrderly(c: Catalog, s: System, step: Step)
    requires WellNamed(c) && Orderly(c, s) && Enabled(c, s, step) && LoaderStep(step)
    ensures Orderly(c, Next(c, s, step)) <==> !Clashes(s, step)
  {
    hide WellNamed, Orderly, Lists, MayOpen, Clash, DropLibs, DropInfos, LoadedHeap, LoadedTables, ForgetPlugins, ForgottenTables;
    match step {
      case NewLoader => NewLoaderOrderly(c, s);
      case DestroyLoader(l, infoOrder, libOrder) => DestroyLoaderOrderly(c, s, l, infoOrder, libOrder);
      case LoadLib(l, lib, handle, infos) =>
        if Clashes(s, step) {
          ClashDisorders(c, s, l, lib, handle, infos);
        } else {
          LoadOrderly(c, s, l, lib, handle, infos);
        }
      case ForgetLibrary(l, handle, order) =>
        if handle in s.loaders[l].handlePlugins {
          ForgetOrderly(c, s, l, handle, order);
        }
    }
  }

  lemma OrderlyPinned(c: Catalog, s: System, l: nat, n: string)
    requires Orderly(c, s) && l in s.loaders
    ensures PinnedName(s.heap, l, n) && Base(s) && Tied(s.heap) && Agrees(c, s.heap, l, s.loaders[l])
  {
    hide Tied, Base, PinnedName, Exact, Named, Backed, Registered;
    assert Agrees(c, s.heap, l, s.loaders[l]);
  }

  /** From agreeing tables any step leads to agreeing tables again, unless it loads a library
      that clashes, and then they never agree. */
  lemma OrderlyStep(c: Catalog, s: System, step: Step)
    requires WellNamed(c) && Orderly(c, s) && Enabled(c, s, step)
    ensures Orderly(c, Next(c, s, step)) <==> !Clashes(s, step)
  {
    hide WellNamed, Agrees, Base, Frame, Written, Next, Tied;
    if LoaderStep(step) {
      LoaderStepOrderly(c, s, step);
    } else {
      var s' := Next(c, s, step);
      OtherStepFrame(c, s, step);
      TiedStep(c, s, step);
      WrittenElsewhere(s, step);
      OrderlyFrame(c, s, s', Written(s, step));
    }
  }

  lemma OtherStepFrame(c: Catalog, s: System, step: Step)
    requires Base(s) && Enabled(c, s, step) && !LoaderStep(step)
    ensures var s' := Next(c, s, step);
            Base(s') && Frame(s.heap, s'.heap, Written(s, step)) && s'.loaders == s.loaders
  {
    hide Base, Frame, Written, Next;
    if ProductStep(step) {
      ProductStepFrame(c, s, step);
    } else {
      WrapperStepFrame(c, s, step);
    }
  }

  /** Only `Instantiate` ties an instance to a library, and it takes the right one. */
  lemma TiedStep(c: Catalog, s: System, step: Step)
    requires Orderly(c, s) && Enabled(c, s, step) && !LoaderStep(step)
    ensures Tied(Next(c, s, step).heap)
  {
    hide Agrees, Base, Frame, Written, PinnedName, Lookup, Tied, Fresh, Instantiated;
    if step.Instantiate? {
      OrderlyPinned(c, s, step.loader, Lookup(s.loaders[step.loader].registry, step.nameOrAlias));
      InstantiateFrame(s, step.loader, step.nameOrAlias, step.wrapper);
    } else {
      hide Next;
      OtherStepFrame(c, s, step);
      BaseHeap(s);
      WrittenElsewhere(s, step);
      TiedFrame(s.heap, Next(c, s, step).heap, Written(s, step));
    }
  }

  lemma WrittenElsewhere(s: System, step: Step)
    ensures forall sl | sl in Written(s, step) :: !ForLoaders(sl) && (sl.InstanceLib? ==> step.Instantiate?)
  {
  }

  // ---------------------------------------------------------------- disjoint libraries never clash

  lemma DisjointNames(c: Catalog, s: System, l: nat, lib: string, handle: Handle, info: Info)
    requires WellNamed(c) && Disjoint(c) && Orderly(c, s) && l in s.loaders && lib in c && MayOpen(s.heap, lib, handle)
    requires info in c[lib] && info.name in s.loaders[l].registry.plugins && Held(s.heap, LoaderInfo(l, info.name))
    ensures PayloadAt(s.heap, LoaderInfo(l, info.name)).code == NewCode(s.heap, handle)
  {
    hide WrappersAgree, WeaksOk, ProductsOk, Exact, Named, Registered, WellFormed, LoadersBase;
    var h, t, n := s.heap, s.loaders[l], info.name;
    assert Agrees(c, h, l, t);
    assert PinnedName(h, l, n) && Backed(c, h, l, t, n);
    var k := PayloadAt(h, LoaderLib(l, n)).code.handle;
    BaseHeap(s);
    assert LoaderBase(h, l, t);
    assert t.registry.plugins[n].name == n by { hide Linked, PtrTable, PtrsComplete; }
    hide Agrees, LoaderBase;
    assert h.os[k].lib == lib;
    Unmoved(h, k, lib, handle, h.slots[LoaderLib(l, n)]);
  }

  lemma Unmoved(h: Heap, k: Handle, lib: string, handle: Handle, id: Id)
    requires WellFormed(h) && k in h.os && h.os[k].lib == lib && MayOpen(h, lib, handle)
    requires id in h.blocks && h.blocks[id].payload.Library? && h.blocks[id].payload.code.Dynamic?
    requires h.blocks[id].payload.code.handle == k
    ensures k == handle && h.blocks[id].payload.code == NewCode(h, handle)
  {
    hide SlotsHeld, BlocksOwned, InstancesAnchored, Balanced;
  }

  lemma DisjointNeverClashes(c: Catalog, s: System, step: Step)
    requires WellNamed(c) && Disjoint(c) && Orderly(c, s) && Enabled(c, s, step)
    ensures !Clashes(s, step)
  {
    hide WellNamed, Disjoint, Orderly, MayOpen;
    if Clashes(s, step) {
      var l, h := step.loader, s.heap;
      var i :| 0 <= i < |step.infos| && step.infos[i].name in s.loaders[l].registry.plugins && Held(h, LoaderInfo(l, step.infos[i].name))
               && PayloadAt(h, LoaderInfo(l, step.infos[i].name)).code != NewCode(h, step.handle);
      assert step.infos[i] in step.infos;
      DisjointNames(c, s, l, step.lib, step.handle, step.infos[i]);
    }
  }
}
