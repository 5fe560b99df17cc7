/** The tables of every Loader agree, as long as no two libraries export one plugin name. */
module Agreement {
  import opened Common
  import opened Runtime
  import opened Registries
  import opened LoaderSteps
  import opened Plugins
  import opened Lifetime
  import opened Products

  /** Within one library names are distinct (they are keys of its InfoMap) and not empty. */
  ghost predicate WellNamed(c: Catalog) {
    forall lib, i, j | lib in c && i in c[lib] && j in c[lib] :: i.name != "" && (i.name == j.name ==> i == j)
  }

  /** No two libraries export the same name. */
  ghost predicate Disjoint(c: Catalog) {
    forall lib, other, i, j | lib in c && other in c && i in c[lib] && j in c[other] && i.name == j.name :: lib == other
  }

  /** The library of plugin `n` is registered for its handle, and exports `n` with this Info. */
  ghost predicate Backed(c: Catalog, h: Heap, l: nat, t: LoaderTables, n: string) {
    n in t.registry.plugins ==>
      && Held(h, LoaderLib(l, n)) && PayloadAt(h, LoaderLib(l, n)).Library? && PayloadAt(h, LoaderLib(l, n)).code.Dynamic?
      && var k := PayloadAt(h, LoaderLib(l, n)).code.handle;
         && k in t.handlePlugins && n in t.handlePlugins[k]
         && k in h.os && h.os[k].lib in c && t.registry.plugins[n] in c[h.os[k].lib]
  }

  /** What is registered for a handle are plugins whose library has that handle. */
  predicate Registered(h: Heap, l: nat, t: LoaderTables, k: Handle, n: string) {
    k in t.handlePlugins && n in t.handlePlugins[k] ==>
      && n in t.registry.plugins && Held(h, LoaderLib(l, n)) && PayloadAt(h, LoaderLib(l, n)).Library?
      && PayloadAt(h, LoaderLib(l, n)).code.Dynamic? && PayloadAt(h, LoaderLib(l, n)).code.handle == k
  }

  /** The table of plugins, the table from names to handles and the table from handles to names. */
  ghost predicate Agrees(c: Catalog, h: Heap, l: nat, t: LoaderTables) {
    && Exact(t.registry) && Named(t.registry)
    && (forall n :: PinnedName(h, l, n))
    && (forall n :: Backed(c, h, l, t, n))
    && (forall k, n :: Registered(h, l, t, k, n))
  }

  ghost predicate Orderly(c: Catalog, s: System) {
    Base(s) && Tied(s.heap) && forall l | l in s.loaders :: Agrees(c, s.heap, l, s.loaders[l])
  }

  /** The library brings a name that the Loader knows from another library, or from a mapping
      that is gone. */
  predicate Clash(h: Heap, l: nat, t: LoaderTables, handle: Handle, infos: seq<Info>) {
    exists i :: 0 <= i < |infos| && infos[i].name in t.registry.plugins
      && Held(h, LoaderInfo(l, infos[i].name)) && PayloadAt(h, LoaderInfo(l, infos[i].name)).code != NewCode(h, handle)
  }

  // ---------------------------------------------------------------- frames

  lemma LibStays(h: Heap, h': Heap, k: Handle, lib: Id)
    requires WellFormed(h) && WellFormed(h') && Evolves(h, h') && lib in h.blocks && lib in h'.blocks
    requires h.blocks[lib].payload.Library? && h.blocks[lib].payload.code.Dynamic? && h.blocks[lib].payload.code.handle == k
    ensures k in h.os && k in h'.os && h'.os[k].lib == h.os[k].lib && h'.os[k].image == h.os[k].image
  {
    hide SlotsHeld, MappedOnce, InstancesAnchored;
  }

  lemma BackedStays(c: Catalog, h: Heap, h': Heap, l: nat, t: LoaderTables, n: string)
    requires WellFormed(h) && WellFormed(h') && Evolves(h, h') && SameAt(h, h', LoaderLib(l, n)) && Backed(c, h, l, t, n)
    ensures Backed(c, h', l, t, n)
  {
    hide WellFormed, Evolves;
    SameSlot(h, h', LoaderLib(l, n));
    if n in t.registry.plugins {
      LibStays(h, h', PayloadAt(h, LoaderLib(l, n)).code.handle, h.slots[LoaderLib(l, n)]);
    }
  }

  lemma AgreesSame(c: Catalog, h: Heap, h': Heap, l: nat, t: LoaderTables)
    requires WellFormed(h) && WellFormed(h') && Evolves(h, h') && Agrees(c, h, l, t)
    requires forall n :: SameAt(h, h', LoaderInfo(l, n)) && SameAt(h, h', LoaderLib(l, n))
    ensures Agrees(c, h', l, t)
  {
    hide WellFormed, Evolves, Exact, Named;
    forall n
      ensures PinnedName(h', l, n) && Backed(c, h', l, t, n)
    {
      assert PinnedName(h, l, n) && Backed(c, h, l, t, n);
      assert SameAt(h, h', LoaderInfo(l, n)) && SameAt(h, h', LoaderLib(l, n));
      PinnedStays(h, h', l, n);
      BackedStays(c, h, h', l, t, n);
    }
    forall k, n
      ensures Registered(h', l, t, k, n)
    {
      assert Registered(h, l, t, k, n);
      assert SameAt(h, h', LoaderInfo(l, n)) && SameAt(h, h', LoaderLib(l, n));
      SameSlot(h, h', LoaderLib(l, n));
    }
  }

  lemma AgreesFrame(c: Catalog, h: Heap, h': Heap, changed: set<Slot>, l: nat, t: LoaderTables)
    requires WellFormed(h) && Frame(h, h', changed) && Agrees(c, h, l, t)
    requires forall sl | sl in changed && ForLoaders(sl) :: sl.loader != l
    ensures Agrees(c, h', l, t)
  {
    hide WellFormed, Evolves, NoNewLibs, Agrees;
    forall n
      ensures SameAt(h, h', LoaderInfo(l, n)) && SameAt(h, h', LoaderLib(l, n))
    {
      StayingSlot(h, h', changed, LoaderLib(l, n));
      StayingSlot(h, h', changed, LoaderInfo(l, n));
    }
    AgreesSame(c, h, h', l, t);
  }

  lemma OrderlyFrame(c: Catalog, s: System, s': System, changed: set<Slot>)
    requires Orderly(c, s) && Frame(s.heap, s'.heap, changed) && Base(s') && Tied(s'.heap) && s'.loaders == s.loaders
    requires forall sl | sl in changed :: !ForLoaders(sl)
    ensures Orderly(c, s')
  {
    hide Base, Agrees, Frame, Tied;
    assert WellFormed(s.heap) by { BaseHeap(s); }
    forall l | l in s'.loaders
      ensures Agrees(c, s'.heap, l, s'.loaders[l])
    {
      AgreesFrame(c, s.heap, s'.heap, changed, l, s.loaders[l]);
    }
  }

  lemma BaseHeap(s: System)
    requires Base(s)
    ensures WellFormed(s.heap) && LocalLib !in s.heap.slots && LocalInstance !in s.heap.slots
    ensures forall l | l in s.loaders :: LoaderBase(s.heap, l, s.loaders[l])
  {
    hide WellFormed, WrappersAgree, WeaksOk, ProductsOk, LoaderBase, UniqueLibs;
  }

  /** The others, when the slots of one Loader change. */
  lemma OrderlyOne(c: Catalog, s: System, s': System, changed: set<Slot>, l: nat)
    requires Orderly(c, s) && Frame(s.heap, s'.heap, changed) && Base(s')
    requires forall sl | sl in changed :: ForLoaders(sl) && sl.loader == l
    requires forall k | k in s'.loaders && k != l :: k in s.loaders && s'.loaders[k] == s.loaders[k]
    requires l in s'.loaders ==> Agrees(c, s'.heap, l, s'.loaders[l])
    ensures Orderly(c, s')
  {
    hide Base, Agrees, Frame, Tied;
    assert WellFormed(s.heap) by { BaseHeap(s); }
    TiedFrame(s.heap, s'.heap, changed);
    forall k | k in s'.loaders
      ensures Agrees(c, s'.heap, k, s'.loaders[k])
    {
      if k != l {
        AgreesFrame(c, s.heap, s'.heap, changed, k, s.loaders[k]);
      }
    }
  }

  // ---------------------------------------------------------------- forgetting

  lemma AgreesForgotten(c: Catalog, h: Heap, h': Heap, l: nat, t: LoaderTables, handle: Handle, order: seq<string>)
    requires WellFormed(h) && WellFormed(h') && Evolves(h, h') && Agrees(c, h, l, t) && Complete(t.registry)
    requires h'.slots == h.slots - InfoSlots(l, order) - LibSlots(l, order)
    requires handle in t.handlePlugins && Lists(order, t.handlePlugins[handle])
    ensures Agrees(c, h', l, ForgottenTables(t, handle, order))
  {
    hide WellFormed, Evolves, Exact, Complete;
    ForgottenAllExact(t.registry, order);
    var t' := ForgottenTables(t, handle, order);
    hide ForgottenAll;
    forall n
      ensures SameAt(h, h', LoaderLib(l, n)) || n in order
      ensures SameAt(h, h', LoaderInfo(l, n)) || n in order
      ensures n in order ==> LoaderInfo(l, n) !in h'.slots
    {
      assert LoaderInfo(l, n) in InfoSlots(l, order) <==> n in order;
      assert LoaderLib(l, n) in LibSlots(l, order) <==> n in order;
    }
    forall n
      ensures PinnedName(h', l, n)
    {
      assert PinnedName(h, l, n);
      PinnedStays(h, h', l, n);
    }
    forall n
      ensures Backed(c, h', l, t', n)
    {
      if n in t'.registry.plugins {
        ForgottenBacked(c, h, h', l, t, t', handle, order, n);
      }
    }
    forall k, n
      ensures Registered(h', l, t', k, n)
    {
      if k in t'.handlePlugins && n in t'.handlePlugins[k] {
        assert Registered(h, l, t, k, n);
        assert Registered(h, l, t, handle, n);
        SameSlot(h, h', LoaderLib(l, n));
      }
    }
  }

  lemma ForgottenBacked(c: Catalog, h: Heap, h': Heap, l: nat, t: LoaderTables, t': LoaderTables, handle: Handle, order: seq<string>, n: string)
    requires WellFormed(h) && WellFormed(h') && Evolves(h, h') && Agrees(c, h, l, t)
    requires handle in t.handlePlugins && Lists(order, t.handlePlugins[handle])
    requires n in t.registry.plugins && n !in order && SameAt(h, h', LoaderLib(l, n))
    requires n in t'.registry.plugins && t'.registry.plugins[n] == t.registry.plugins[n] && t'.handlePlugins == t.handlePlugins - {handle}
    ensures Backed(c, h', l, t', n)
  {
    hide WellFormed, Evolves, Exact;
    assert Backed(c, h, l, t, n);
    BackedStays(c, h, h', l, t, n);
  }

  // ---------------------------------------------------------------- loading

  /** A name that is known and does not clash has the same Info as in the library. */
  lemma Known(c: Catalog, h: Heap, l: nat, t: LoaderTables, lib: string, handle: Handle, infos: seq<Info>, info: Info)
    requires WellNamed(c) && WellFormed(h) && Linked(h, l, t.registry) && Agrees(c, h, l, t) && Complete(t.registry)
    requires lib in c && MayOpen(h, lib, handle) && info in c[lib] && info.name in t.registry.plugins
    requires PayloadAtName(h, l, info.name) == Some(NewCode(h, handle))
    ensures t.registry.plugins[info.name] == info
    ensures handle in h.os && h.os[handle].lib == lib
  {
    hide WellFormed, Exact;
    var n := info.name;
    assert LinkedName(h, l, t.registry, n) && PinnedName(h, l, n) && Backed(c, h, l, t, n);
  }

  function PayloadAtName(h: Heap, l: nat, n: string): Option<Code> {
    if Held(h, LoaderInfo(l, n)) then Some(PayloadAt(h, LoaderInfo(l, n)).code) else None
  }

  /** Everything `LoadedAgrees` is about. */
  ghost predicate Loads(c: Catalog, h: Heap, l: nat, t: LoaderTables, lib: string, handle: Handle, infos: seq<Info>) {
    && WellNamed(c) && WellFormed(h) && Linked(h, l, t.registry) && Agrees(c, h, l, t) && Complete(t.registry)
    && lib in c && MayOpen(h, lib, handle) && (forall i :: i in infos <==> i in c[lib])
  }

  lemma NoClash(c: Catalog, h: Heap, l: nat, t: LoaderTables, lib: string, handle: Handle, infos: seq<Info>, info: Info)
    requires Loads(c, h, l, t, lib, handle, infos) && info in infos
    requires !Clash(h, l, t, handle, infos) && info.name in t.registry.plugins
    ensures t.registry.plugins[info.name] == info && handle in h.os && h.os[handle].lib == lib
    ensures PayloadAtName(h, l, info.name) == Some(NewCode(h, handle))
  {
    hide WellFormed, Exact, Agrees, Complete;
    assert LinkedName(h, l, t.registry, info.name);
    Known(c, h, l, t, lib, handle, infos, info);
  }

  lemma CatalogueOf(c: Catalog, lib: string, infos: seq<Info>)
    requires WellNamed(c) && lib in c && (forall i :: i in infos <==> i in c[lib])
    ensures Catalogue(infos) && "" !in NamesOf(infos)
  {
    forall i, j | 0 <= i < |infos| && 0 <= j < |infos| && infos[i].name == infos[j].name
      ensures infos[i] == infos[j]
    {
      assert infos[i] in c[lib] && infos[j] in c[lib];
    }
    forall i | 0 <= i < |infos|
      ensures infos[i].name != ""
    {
      assert infos[i] in c[lib];
    }
  }

  lemma LoadedRegistry(c: Catalog, h: Heap, l: nat, t: LoaderTables, lib: string, handle: Handle, infos: seq<Info>)
    requires Loads(c, h, l, t, lib, handle, infos) && !Clash(h, l, t, handle, infos)
    ensures var u := AddedAll(t.registry, infos);
            && Exact(u) && Named(u) && u.plugins.Keys == t.registry.plugins.Keys + NamesOf(infos)
            && (forall n | n in t.registry.plugins :: u.plugins[n] == t.registry.plugins[n])
            && (forall i | 0 <= i < |infos| :: u.plugins[infos[i].name] == infos[i])
  {
    hide WellFormed, Exact, Complete, Clash, Linked;
    forall i | 0 <= i < |infos| && infos[i].name in t.registry.plugins
      ensures t.registry.plugins[infos[i].name] == infos[i]
    {
      NoClash(c, h, l, t, lib, handle, infos, infos[i]);
    }
    CatalogueOf(c, lib, infos);
    AddedAllExact(t.registry, infos);
    var u := AddedAll(t.registry, infos);
    hide AddedAll, WellNamed;
    forall i | 0 <= i < |infos|
      ensures u.plugins[infos[i].name] == infos[i]
    {
      assert infos[i].name in NamesOf(infos);
    }
  }

  /** A name that the library brings. */
  lemma LoadedName(c: Catalog, h: Heap, h': Heap, l: nat, t: LoaderTables, lib: string, handle: Handle, infos: seq<Info>, id: Id, i: nat)
    requires Loads(c, h, l, t, lib, handle, infos) && !Clash(h, l, t, handle, infos) && i < |infos|
    requires WellFormed(h') && Evolves(h, h') && FilledSlots(h, h', l, t.registry, infos, id, NewCode(h, handle))
    requires id in h'.blocks ==> h'.blocks[id].payload == Library(NewCode(h, handle), l) && handle in h'.os && h'.os[handle].lib == lib
    ensures Held(h', LoaderLib(l, infos[i].name)) && PayloadAt(h', LoaderLib(l, infos[i].name)) == Library(NewCode(h, handle), l)
    ensures handle in h'.os && h'.os[handle].lib == lib && infos[i] in c[lib]
    ensures PinnedName(h', l, infos[i].name)
  {
    hide WellFormed, Evolves, Exact, Complete, Clash, Agrees;
    var n := infos[i].name;
    assert infos[i] in infos && FilledName(h', l, t.registry, infos[i], id, NewCode(h, handle));
    HeldIsIn(h', LoaderLib(l, n));
    if n in t.registry.plugins {
      NoClash(c, h, l, t, lib, handle, infos, infos[i]);
      SameSlot(h, h', LoaderInfo(l, n));
    }
  }

  /** A plugin whose library has this handle is one that the library brings. */
  lemma HandleTells(c: Catalog, h: Heap, l: nat, t: LoaderTables, lib: string, handle: Handle, infos: seq<Info>, n: string)
    requires Loads(c, h, l, t, lib, handle, infos) && Backed(c, h, l, t, n)
    ensures n in t.registry.plugins && PayloadAt(h, LoaderLib(l, n)).code.handle == handle ==> n in NamesOf(infos)
  {
    hide WellFormed, Exact, Linked, Agrees;
    if n in t.registry.plugins && PayloadAt(h, LoaderLib(l, n)).code.handle == handle {
      var i :| 0 <= i < |infos| && infos[i] == t.registry.plugins[n];
    }
  }

  /** A name that the library does not bring. */
  lemma OtherName(c: Catalog, h: Heap, h': Heap, l: nat, t: LoaderTables, lib: string, handle: Handle, infos: seq<Info>, id: Id, n: string)
    requires Loads(c, h, l, t, lib, handle, infos) && n !in NamesOf(infos)
    requires WellFormed(h') && Evolves(h, h') && FilledSlots(h, h', l, t.registry, infos, id, NewCode(h, handle))
    ensures PinnedName(h', l, n) && Backed(c, h', l, t, n)
    ensures SameAt(h, h', LoaderLib(l, n))
    ensures n in t.registry.plugins ==> PayloadAt(h', LoaderLib(l, n)).code.handle != handle
  {
    hide WellFormed, Evolves, Exact, Complete, Linked, FilledName;
    assert PinnedName(h, l, n) && Backed(c, h, l, t, n);
    assert SameAt(h, h', LoaderLib(l, n)) && SameAt(h, h', LoaderInfo(l, n));
    hide FilledSlots;
    PinnedStays(h, h', l, n);
    BackedStays(c, h, h', l, t, n);
    HandleTells(c, h, l, t, lib, handle, infos, n);
    SameSlot(h, h', LoaderLib(l, n));
  }

  lemma BackedElsewhere(c: Catalog, h: Heap, l: nat, t: LoaderTables, t': LoaderTables, handle: Handle, n: string)
    requires Backed(c, h, l, t, n) && (n in t.registry.plugins ==> PayloadAt(h, LoaderLib(l, n)).code.handle != handle)
    requires n in t'.registry.plugins ==> n in t.registry.plugins && t'.registry.plugins[n] == t.registry.plugins[n]
    requires forall k | k in t.handlePlugins && k != handle :: k in t'.handlePlugins && t'.handlePlugins[k] == t.handlePlugins[k]
    ensures Backed(c, h, l, t', n)
  {
  }

  lemma BackedHere(c: Catalog, h: Heap, l: nat, t: LoaderTables, lib: string, handle: Handle, info: Info)
    requires Held(h, LoaderLib(l, info.name)) && PayloadAt(h, LoaderLib(l, info.name)).Library?
    requires PayloadAt(h, LoaderLib(l, info.name)).code.Dynamic? && PayloadAt(h, LoaderLib(l, info.name)).code.handle == handle
    requires handle in h.os && h.os[handle].lib == lib && lib in c && info in c[lib]
    requires handle in t.handlePlugins && info.name in t.handlePlugins[handle]
    requires info.name in t.registry.plugins && t.registry.plugins[info.name] == info
    ensures Backed(c, h, l, t, info.name)
  {
  }

  lemma LoadedBacked(c: Catalog, h: Heap, h': Heap, l: nat, t: LoaderTables, t': LoaderTables, lib: string, handle: Handle, infos: seq<Info>, id: Id, n: string)
    requires Loads(c, h, l, t, lib, handle, infos) && !Clash(h, l, t, handle, infos)
    requires WellFormed(h') && Evolves(h, h') && FilledSlots(h, h', l, t.registry, infos, id, NewCode(h, handle))
    requires id in h'.blocks ==> h'.blocks[id].payload == Library(NewCode(h, handle), l) && handle in h'.os && h'.os[handle].lib == lib
    requires t'.registry.plugins.Keys == t.registry.plugins.Keys + NamesOf(infos)
    requires forall n | n in t.registry.plugins :: t'.registry.plugins[n] == t.registry.plugins[n]
    requires forall i | 0 <= i < |infos| :: infos[i].name in t'.registry.plugins && t'.registry.plugins[infos[i].name] == infos[i]
    requires t'.handlePlugins == t.handlePlugins[handle := NamesOf(infos)]
    ensures PinnedName(h', l, n) && Backed(c, h', l, t', n)
  {
    hide WellFormed, Evolves, Exact, Complete, Clash, Linked, FilledSlots, Named, Agrees, WellNamed, Backed, PinnedName;
    if n in NamesOf(infos) {
      var i :| 0 <= i < |infos| && infos[i].name == n;
      LoadedName(c, h, h', l, t, lib, handle, infos, id, i);
      BackedHere(c, h', l, t', lib, handle, infos[i]);
    } else {
      OtherName(c, h, h', l, t, lib, handle, infos, id, n);
      BackedElsewhere(c, h', l, t, t', handle, n);
    }
  }

  lemma LoadedAgrees(c: Catalog, h: Heap, h': Heap, l: nat, t: LoaderTables, lib: string, handle: Handle, infos: seq<Info>, id: Id)
    requires Loads(c, h, l, t, lib, handle, infos) && !Clash(h, l, t, handle, infos)
    requires WellFormed(h') && Evolves(h, h') && FilledSlots(h, h', l, t.registry, infos, id, NewCode(h, handle))
    requires id in h'.blocks ==> h'.blocks[id].payload == Library(NewCode(h, handle), l) && handle in h'.os && h'.os[handle].lib == lib
    ensures Agrees(c, h', l, LoadedTables(h, t, handle, infos))
  {
    hide WellFormed, Evolves, Exact, Complete, Clash, Linked, FilledSlots, Named, Loads;
    LoadedRegistry(c, h, l, t, lib, handle, infos);
    var t' := LoadedTables(h, t, handle, infos);
    hide AddedAll;
    forall n
      ensures PinnedName(h', l, n) && Backed(c, h', l, t', n)
    {
      LoadedBacked(c, h, h', l, t, t', lib, handle, infos, id, n);
    }
    forall k, n
      ensures Registered(h', l, t', k, n)
    {
      LoadedRegistered(c, h, h', l, t, t', lib, handle, infos, id, k, n);
    }
  }

  lemma LoadedRegistered(c: Catalog, h: Heap, h': Heap, l: nat, t: LoaderTables, t': LoaderTables, lib: string, handle: Handle, infos: seq<Info>, id: Id, k: Handle, n: string)
    requires Loads(c, h, l, t, lib, handle, infos) && !Clash(h, l, t, handle, infos)
    requires WellFormed(h') && Evolves(h, h') && FilledSlots(h, h', l, t.registry, infos, id, NewCode(h, handle))
    requires id in h'.blocks ==> h'.blocks[id].payload == Library(NewCode(h, handle), l) && handle in h'.os && h'.os[handle].lib == lib
    requires t'.registry.plugins.Keys == t.registry.plugins.Keys + NamesOf(infos)
    requires t'.handlePlugins == t.handlePlugins[handle := NamesOf(infos)]
    ensures Registered(h', l, t', k, n)
  {
    hide WellFormed, Evolves, Exact, Complete, Clash, Linked, FilledSlots, Named;
    assert Registered(h, l, t, k, n) && PinnedName(h, l, n);
    if n in NamesOf(infos) {
      var i :| 0 <= i < |infos| && infos[i].name == n;
      LoadedName(c, h, h', l, t, lib, handle, infos, id, i);
      if n in t.registry.plugins {
        NoClash(c, h, l, t, lib, handle, infos, infos[i]);
      }
    } else {
      OtherName(c, h, h', l, t, lib, handle, infos, id, n);
      SameSlot(h, h', LoaderLib(l, n));
    }
  }
}
