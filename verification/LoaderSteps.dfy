/** What the operations of `gz::plugin::Loader` do to its tables and to the libraries it holds. */
module LoaderSteps {
  import opened Common
  import opened Runtime
  import opened Registries

  /** The tables of a Loader other than `pluginToDlHandlePtrs`, which is the family of slots
      `LoaderLib(l, _)`; next to each entry of the registry there is a slot `LoaderInfo(l, _)`. */
  datatype LoaderTables = LoaderTables(registry: Tables,
                                       handlePtrs: map<Handle, Id>,             // dlHandlePtrMap
                                       handlePlugins: map<Handle, set<string>>) // dlHandleToPluginMap

  const EMPTY_LOADER := LoaderTables(EMPTY_TABLES, map[], map[])

  // ---------------------------------------------------------------- loading

  predicate LockSucceeds(h: Heap, ptrs: map<Handle, Id>, handle: Handle) {
    handle in ptrs && ptrs[handle] in h.blocks
  }

  /** `Implementation::LoadLib` after `dlopen` succeeded: the reference is left in `LocalLib`. */
  function OpenLib(h: Heap, l: nat, ptrs: map<Handle, Id>, lib: string, handle: Handle): Heap {
    if LockSucceeds(h, ptrs, handle) then Share(h, LocalLib, ptrs[handle])
    else OpenNew(h, LocalLib, lib, handle, l)
  }

  function OpenPtrs(h: Heap, ptrs: map<Handle, Id>, handle: Handle): map<Handle, Id> {
    if LockSucceeds(h, ptrs, handle) then ptrs else ptrs[handle := h.next]
  }

  /** `Registry::AddInfo` makes a shared copy of the Info, which is destroyed at once when the
      name is already known. */
  function StoreInfo(h: Heap, l: nat, known: bool, info: Info, code: Code): Heap {
    if known then Touch(h, code) else Make(h, LoaderInfo(l, info.name), InfoPayload(code, info))
  }

  /** `pluginToDlHandlePtrs[name] = dlHandle`. */
  function AssignLib(h: Heap, l: nat, name: string, lib: Id): Heap {
    Share(DropLib(h, LoaderLib(l, name)), LoaderLib(l, name), lib)
  }

  /** One round of the loop in `LoadLib`. */
  function AddPlugin(h: Heap, l: nat, known: bool, info: Info, lib: Id, code: Code): Heap {
    AssignLib(StoreInfo(h, l, known, info, code), l, info.name, lib)
  }

  function AddPlugins(h: Heap, l: nat, t: Tables, infos: seq<Info>, lib: Id, code: Code): Heap
    decreases |infos|
  {
    if infos == [] then h
    else AddPlugins(AddPlugin(h, l, infos[0].name in t.plugins, infos[0], lib, code),
                    l, Added(t, infos[0]), infos[1..], lib, code)
  }

  function NewCode(h: Heap, handle: Handle): Code {
    Dynamic(handle, NextImage(h, handle))
  }

  /** `LoadLib` up to the destruction of its local variables. */
  function Filled(h: Heap, l: nat, t: LoaderTables, lib: string, handle: Handle, infos: seq<Info>): Heap {
    var h1 := OpenLib(h, l, t.handlePtrs, lib, handle);
    AddPlugins(h1, l, t.registry, infos, OpenPtrs(h, t.handlePtrs, handle)[handle], NewCode(h, handle))
  }

  /** The locals go in reverse order: the vector of Infos first, the library reference last. */
  function LoadedHeap(h: Heap, l: nat, t: LoaderTables, lib: string, handle: Handle, infos: seq<Info>): Heap {
    DropLib(Touch(Filled(h, l, t, lib, handle, infos), NewCode(h, handle)), LocalLib)
  }

  function LoadedTables(h: Heap, t: LoaderTables, handle: Handle, infos: seq<Info>): LoaderTables {
    LoaderTables(AddedAll(t.registry, infos), OpenPtrs(h, t.handlePtrs, handle),
                 t.handlePlugins[handle := NamesOf(infos)])
  }

  // ---------------------------------------------------------------- forgetting

  /** The loop of `Implementation::ForgetLibrary`: for each name the Info first, the library last. */
  function ForgetPlugins(h: Heap, l: nat, names: seq<string>): Heap
    decreases |names|
  {
    if names == [] then h
    else ForgetPlugins(DropLib(DropInfo(h, LoaderInfo(l, names[0])), LoaderLib(l, names[0])), l, names[1..])
  }

  function ForgottenTables(t: LoaderTables, handle: Handle, order: seq<string>): LoaderTables {
    LoaderTables(ForgottenAll(t.registry, order), t.handlePtrs, t.handlePlugins - {handle})
  }

  /** Destruction of a Loader: the registry of Infos, and then the library references. */
  function DropInfos(h: Heap, l: nat, names: seq<string>): Heap
    decreases |names|
  {
    if names == [] then h else DropInfos(DropInfo(h, LoaderInfo(l, names[0])), l, names[1..])
  }

  function DropLibs(h: Heap, l: nat, names: seq<string>): Heap
    decreases |names|
  {
    if names == [] then h else DropLibs(DropLib(h, LoaderLib(l, names[0])), l, names[1..])
  }

  // ---------------------------------------------------------------- invariants

  /** Entries of `dlHandlePtrMap` that are still alive name the right library of this Loader. */
  ghost predicate PtrTable(h: Heap, l: nat, ptrs: map<Handle, Id>) {
    forall k | k in ptrs ::
      ptrs[k] < h.next && (ptrs[k] in h.blocks ==> IsLibraryAt(h.blocks[ptrs[k]], k) && h.blocks[ptrs[k]].payload.creator == l)
  }

  /** ... and every library block of this Loader that is alive has such an entry. */
  ghost predicate PtrsComplete(h: Heap, l: nat, ptrs: map<Handle, Id>) {
    forall id | id in h.blocks && h.blocks[id].payload.Library? && h.blocks[id].payload.creator == l ::
      h.blocks[id].payload.code.Dynamic? && h.blocks[id].payload.code.handle in ptrs
      && ptrs[h.blocks[id].payload.code.handle] == id
  }

  ghost predicate LinkedName(h: Heap, l: nat, t: Tables, n: string) {
    && (n in t.plugins <==> Held(h, LoaderInfo(l, n)))
    && (n in t.plugins <==> Held(h, LoaderLib(l, n)))
    && (n in t.plugins ==> PayloadAt(h, LoaderInfo(l, n)).InfoPayload? && PayloadAt(h, LoaderInfo(l, n)).info == t.plugins[n])
  }

  /** The table of plugins, the Info pointers and the library pointers have the same names. */
  ghost predicate Linked(h: Heap, l: nat, t: Tables) {
    forall n :: LinkedName(h, l, t, n)
  }

  predicate PinnedName(h: Heap, l: nat, n: string) {
    Held(h, LoaderInfo(l, n)) ==>
      Held(h, LoaderLib(l, n)) && PayloadAt(h, LoaderLib(l, n)).code == PayloadAt(h, LoaderInfo(l, n)).code
  }

  // ---------------------------------------------------------------- opening

  lemma OpenLibFacts(h: Heap, l: nat, ptrs: map<Handle, Id>, lib: string, handle: Handle)
    requires WellFormed(h) && PtrTable(h, l, ptrs) && MayOpen(h, lib, handle) && LocalLib !in h.slots
    ensures var h' := OpenLib(h, l, ptrs, lib, handle); var id := OpenPtrs(h, ptrs, handle)[handle];
            && WellFormed(h') && Extends(h, h') && Evolves(h, h') && h'.fault == h.fault
            && h'.slots == h.slots[LocalLib := id] && id in h'.blocks
            && h'.blocks[id].payload == Library(NewCode(h, handle), l)
            && handle in h'.os && h'.os[handle].lib == lib && Loaded(h', NewCode(h, handle))
  {
    hide WellFormed, Evolves;
    if LockSucceeds(h, ptrs, handle) {
      OpenAgainFacts(h, l, ptrs, lib, handle);
    } else {
      OpenNewFacts(h, LocalLib, lib, handle, l);
    }
  }

  /** A library whose block is alive is shared, and its code is the code of the mapping. */
  lemma OpenAgainFacts(h: Heap, l: nat, ptrs: map<Handle, Id>, lib: string, handle: Handle)
    requires WellFormed(h) && PtrTable(h, l, ptrs) && MayOpen(h, lib, handle) && LocalLib !in h.slots && LockSucceeds(h, ptrs, handle)
    ensures var h' := Share(h, LocalLib, ptrs[handle]);
            && WellFormed(h') && Extends(h, h') && Evolves(h, h') && h'.slots == h.slots[LocalLib := ptrs[handle]]
            && h'.blocks[ptrs[handle]].payload == Library(NewCode(h, handle), l)
            && handle in h.os && h.os[handle].lib == lib
  {
    hide Balanced, MappedOnce, BlocksOwned, InstancesAnchored;
    var id := ptrs[handle];
    assert Loaded(h, h.blocks[id].payload.code) && h.blocks[id].payload == Library(NewCode(h, handle), l);
    hide WellFormed;
    ShareFacts(h, LocalLib, id);
    EvolvesGrow(h, LocalLib, id, Library(Resident, l), Resident);
    hide Evolves;
  }

  lemma OpenPtrsFacts(h: Heap, l: nat, ptrs: map<Handle, Id>, lib: string, handle: Handle)
    requires WellFormed(h) && PtrTable(h, l, ptrs) && MayOpen(h, lib, handle) && LocalLib !in h.slots
    ensures PtrTable(OpenLib(h, l, ptrs, lib, handle), l, OpenPtrs(h, ptrs, handle))
    ensures PtrsComplete(h, l, ptrs) ==> PtrsComplete(OpenLib(h, l, ptrs, lib, handle), l, OpenPtrs(h, ptrs, handle))
  {
    hide Balanced, MappedOnce, BlocksOwned, InstancesAnchored, LibrariesMapped;
    if !LockSucceeds(h, ptrs, handle) {
      OpenNewFacts(h, LocalLib, lib, handle, l);
    }
  }

  /** `LoadLib` holds the library it has opened. */
  predicate Holding(h: Heap, lib: Id, code: Code) {
    Held(h, LocalLib) && h.slots[LocalLib] == lib && PayloadAt(h, LocalLib).Library? && PayloadAt(h, LocalLib).code == code
  }

  function PluginSlots(slots: map<Slot, Id>, l: nat, known: bool, name: string, info: Id, lib: Id): map<Slot, Id> {
    (if known then slots else slots[LoaderInfo(l, name) := info])[LoaderLib(l, name) := lib]
  }

  lemma StoreInfoFacts(h: Heap, l: nat, known: bool, info: Info, lib: Id, code: Code)
    requires WellFormed(h) && Holding(h, lib, code) && (known <==> LoaderInfo(l, info.name) in h.slots)
    ensures var h' := StoreInfo(h, l, known, info, code);
            && WellFormed(h') && Evolves(h, h') && NoNewLibs(h, h') && h'.fault == h.fault && Holding(h', lib, code)
            && h'.slots == (if known then h.slots else h.slots[LoaderInfo(l, info.name) := h.next])
            && (!known ==> h.next in h'.blocks && h'.blocks[h.next].payload == InfoPayload(code, info) && h.next < h'.next)
  {
    hide Balanced, MappedOnce, LibrariesMapped, BlocksOwned, InstancesAnchored;
    var payload := InfoPayload(code, info);
    if known {
      LibraryLoaded(h, LocalLib);
      TouchFacts(h, code);
    } else {
      MakeOtherFacts(h, LoaderInfo(l, info.name), payload);
    }
    EvolvesGrow(h, LoaderInfo(l, info.name), lib, payload, code);
    OldBlocks(h);
  }

  lemma AssignLibFacts(h: Heap, l: nat, name: string, lib: Id, code: Code)
    requires WellFormed(h) && Holding(h, lib, code)
    ensures var h' := AssignLib(h, l, name, lib);
            && WellFormed(h') && Evolves(h, h') && NoNewLibs(h, h') && h'.fault == h.fault && Holding(h', lib, code)
            && h'.slots == h.slots[LoaderLib(l, name) := lib]
  {
    hide WellFormed, Evolves, NoNewLibs;
    var slot := LoaderLib(l, name);
    DropNamedHolds(h, l, name, lib, code);
    var h1 := DropLib(h, slot);
    hide DropLib;
    ShareHolds(h1, l, name, lib, code);
    var h2 := Share(h1, slot, lib);
    EvolvesTransitive(h, h1, h2);
    NoNewLibsTransitive(h, h1, h2);
  }

  lemma DropNamedHolds(h: Heap, l: nat, name: string, lib: Id, code: Code)
    requires WellFormed(h) && Holding(h, lib, code)
    ensures var h' := DropLib(h, LoaderLib(l, name));
            && WellFormed(h') && Evolves(h, h') && NoNewLibs(h, h') && h'.fault == h.fault && Holding(h', lib, code)
            && h'.slots == h.slots - {LoaderLib(l, name)}
  {
    hide WellFormed, Evolves, NoNewLibs;
    DropNamedLib(h, l, name);
    var h' := DropLib(h, LoaderLib(l, name));
    hide DropLib;
    PayloadStays(h, h', LocalLib);
  }

  lemma ShareHolds(h: Heap, l: nat, name: string, lib: Id, code: Code)
    requires WellFormed(h) && Holding(h, lib, code) && LoaderLib(l, name) !in h.slots
    ensures var h' := Share(h, LoaderLib(l, name), lib);
            && WellFormed(h') && Evolves(h, h') && NoNewLibs(h, h') && h'.fault == h.fault && Holding(h', lib, code)
            && h'.slots == h.slots[LoaderLib(l, name) := lib]
  {
    hide Sound, InstancesAnchored;
    OldBlocks(h);
    ShareFacts(h, LoaderLib(l, name), lib);
  }

  lemma AddPluginFacts(h: Heap, l: nat, known: bool, info: Info, lib: Id, code: Code)
    requires WellFormed(h) && Holding(h, lib, code) && (known <==> LoaderInfo(l, info.name) in h.slots)
    ensures var h' := AddPlugin(h, l, known, info, lib, code);
            && WellFormed(h') && Evolves(h, h') && NoNewLibs(h, h') && h'.fault == h.fault && Holding(h', lib, code)
            && h'.slots == PluginSlots(h.slots, l, known, info.name, h.next, lib)
            && (!known ==> Held(h', LoaderInfo(l, info.name))
                           && PayloadAt(h', LoaderInfo(l, info.name)) == InfoPayload(code, info))
  {
    hide Sound, InstancesAnchored, StoreInfo, AssignLib;
    var h1 := StoreInfo(h, l, known, info, code);
    StoreInfoFacts(h, l, known, info, lib, code);
    AssignLibFacts(h1, l, info.name, lib, code);
    var h2 := AssignLib(h1, l, info.name, lib);
    EvolvesTransitive(h, h1, h2);
    NoNewLibsTransitive(h, h1, h2);
    if !known {
      SlotHeld(h2, LoaderInfo(l, info.name));
    }
  }

  predicate IsPluginSlot(sl: Slot, l: nat, names: set<string>) {
    (sl.LoaderLib? || sl.LoaderInfo?) && sl.loader == l && sl.name in names
  }

  /** The slots after a library was loaded: each of its names has the library, and an Info of it
      unless it had one before; nothing else has changed. */
  ghost predicate FilledSlots(h: Heap, h': Heap, l: nat, t: Tables, infos: seq<Info>, lib: Id, code: Code) {
    && (forall info | info in infos :: FilledName(h', l, t, info, lib, code))
    && (forall sl | sl in h.slots && !(sl.LoaderLib? && IsPluginSlot(sl, l, NamesOf(infos))) ::
          sl in h'.slots && h'.slots[sl] == h.slots[sl])
    && (forall sl | sl in h'.slots && !IsPluginSlot(sl, l, NamesOf(infos)) :: sl in h.slots)
  }

  predicate FilledName(h': Heap, l: nat, t: Tables, info: Info, lib: Id, code: Code) {
    && LoaderLib(l, info.name) in h'.slots && h'.slots[LoaderLib(l, info.name)] == lib
    && (info.name !in t.plugins ==>
          Held(h', LoaderInfo(l, info.name)) && PayloadAt(h', LoaderInfo(l, info.name)) == InfoPayload(code, info))
  }

  lemma AddPluginLinked(h: Heap, h': Heap, l: nat, t: Tables, info: Info, lib: Id, code: Code)
    requires WellFormed(h) && WellFormed(h') && Evolves(h, h') && Linked(h, l, t) && Complete(t)
    requires h'.slots == PluginSlots(h.slots, l, info.name in t.plugins, info.name, h.next, lib)
    requires info.name !in t.plugins ==>
               Held(h', LoaderInfo(l, info.name)) && PayloadAt(h', LoaderInfo(l, info.name)) == InfoPayload(code, info)
    ensures Linked(h', l, Added(t, info))
  {
    hide WellFormed, Evolves, IndexAdd;
    forall n
      ensures LinkedName(h', l, Added(t, info), n)
    {
      assert LinkedName(h, l, t, n);
      HeldIsIn(h, LoaderInfo(l, n));
      HeldIsIn(h, LoaderLib(l, n));
      HeldIsIn(h', LoaderInfo(l, n));
      HeldIsIn(h', LoaderLib(l, n));
      if n in t.plugins {
        PayloadStays(h, h', LoaderInfo(l, n));
      }
    }
  }

  lemma FilledFirst(h1: Heap, h': Heap, l: nat, t: Tables, infos: seq<Info>, lib: Id, code: Code)
    requires infos != [] && Catalogue(infos) && WellFormed(h1) && WellFormed(h') && Evolves(h1, h')
    requires LoaderLib(l, infos[0].name) in h1.slots && h1.slots[LoaderLib(l, infos[0].name)] == lib
    requires infos[0].name !in t.plugins ==>
               Held(h1, LoaderInfo(l, infos[0].name)) && PayloadAt(h1, LoaderInfo(l, infos[0].name)) == InfoPayload(code, infos[0])
    requires FilledSlots(h1, h', l, Added(t, infos[0]), infos[1..], lib, code)
    ensures FilledName(h', l, t, infos[0], lib, code)
  {
    hide WellFormed, Evolves, IndexAdd;
    var name := infos[0].name;
    if name in NamesOf(infos[1..]) {
      var i :| 0 <= i < |infos[1..]| && infos[1..][i].name == name;
      assert infos[1..][i] in infos[1..];
      assert FilledName(h', l, Added(t, infos[0]), infos[1..][i], lib, code);
    } else {
      assert LoaderLib(l, name) in h'.slots && h'.slots[LoaderLib(l, name)] == lib;
    }
    if name !in t.plugins {
      PayloadStays(h1, h', LoaderInfo(l, name));
    }
  }

  lemma FilledOneMore(h: Heap, h1: Heap, h': Heap, l: nat, t: Tables, infos: seq<Info>, lib: Id, code: Code)
    requires infos != [] && Catalogue(infos) && WellFormed(h1) && WellFormed(h') && Evolves(h1, h')
    requires LoaderInfo(l, infos[0].name) in h.slots ==> infos[0].name in t.plugins
    requires h1.slots == PluginSlots(h.slots, l, infos[0].name in t.plugins, infos[0].name, h.next, lib)
    requires infos[0].name !in t.plugins ==>
               Held(h1, LoaderInfo(l, infos[0].name)) && PayloadAt(h1, LoaderInfo(l, infos[0].name)) == InfoPayload(code, infos[0])
    requires FilledSlots(h1, h', l, Added(t, infos[0]), infos[1..], lib, code)
    ensures FilledSlots(h, h', l, t, infos, lib, code)
  {
    hide WellFormed, Evolves;
    assert NamesOf(infos) == {infos[0].name} + NamesOf(infos[1..]);
    FilledFirst(h1, h', l, t, infos, lib, code);
    forall info | info in infos
      ensures FilledName(h', l, t, info, lib, code)
    {
      if info != infos[0] {
        assert info in infos[1..];
        assert info.name != infos[0].name;
        assert FilledName(h', l, Added(t, infos[0]), info, lib, code);
      }
    }
  }

  lemma {:induction false} AddPluginsFacts(h: Heap, l: nat, t: Tables, infos: seq<Info>, lib: Id, code: Code)
    requires WellFormed(h) && Holding(h, lib, code) && Linked(h, l, t) && Complete(t) && Catalogue(infos)
    ensures var h' := AddPlugins(h, l, t, infos, lib, code);
            && WellFormed(h') && Evolves(h, h') && NoNewLibs(h, h') && h'.fault == h.fault && Holding(h', lib, code)
            && Linked(h', l, AddedAll(t, infos)) && Complete(AddedAll(t, infos))
            && FilledSlots(h, h', l, t, infos, lib, code)
    decreases |infos|
  {
    hide WellFormed, Evolves, Linked, Complete, FilledSlots;
    if infos == [] {
      FilledNone(h, l, t, lib, code);
      OldBlocks(h);
    } else {
      var info := infos[0];
      assert LinkedName(h, l, t, info.name) by { LinkedAt(h, l, t, info.name); }
      assert (info.name in t.plugins) <==> LoaderInfo(l, info.name) in h.slots by { HeldIsIn(h, LoaderInfo(l, info.name)); }
      AddPluginFacts(h, l, info.name in t.plugins, info, lib, code);
      var h1 := AddPlugin(h, l, info.name in t.plugins, info, lib, code);
      AddPluginLinked(h, h1, l, t, info, lib, code);
      AddKeepsComplete(t, info);
      assert Catalogue(infos[1..]);
      AddPluginsFacts(h1, l, Added(t, info), infos[1..], lib, code);
      var h2 := AddPlugins(h1, l, Added(t, info), infos[1..], lib, code);
      EvolvesTransitive(h, h1, h2);
      NoNewLibsTransitive(h, h1, h2);
      FilledOneMore(h, h1, h2, l, t, infos, lib, code);
    }
  }

  lemma FilledNone(h: Heap, l: nat, t: Tables, lib: Id, code: Code)
    ensures FilledSlots(h, h, l, t, [], lib, code) && Evolves(h, h)
  {
  }

  lemma LinkedAt(h: Heap, l: nat, t: Tables, n: string)
    requires Linked(h, l, t)
    ensures LinkedName(h, l, t, n)
  {
  }

  // ---------------------------------------------------------------- loading a library

  lemma LinkedSame(h: Heap, h': Heap, l: nat, t: Tables)
    requires WellFormed(h) && WellFormed(h') && Evolves(h, h') && Linked(h, l, t)
    requires forall n :: SameAt(h, h', LoaderInfo(l, n)) && SameAt(h, h', LoaderLib(l, n))
    ensures Linked(h', l, t)
  {
    hide WellFormed, Evolves;
    forall n
      ensures LinkedName(h', l, t, n)
    {
      assert LinkedName(h, l, t, n) && SameAt(h, h', LoaderInfo(l, n));
      HeldIsIn(h, LoaderInfo(l, n));
      HeldIsIn(h', LoaderInfo(l, n));
      HeldIsIn(h, LoaderLib(l, n));
      HeldIsIn(h', LoaderLib(l, n));
      if n in t.plugins {
        PayloadStays(h, h', LoaderInfo(l, n));
      }
    }
  }

  lemma DropLocalFacts(h: Heap, lib: Id, code: Code)
    requires WellFormed(h) && Holding(h, lib, code)
    ensures var h' := DropLib(Touch(h, code), LocalLib);
            && WellFormed(h') && Evolves(h, h') && NoNewLibs(h, h') && h'.fault == h.fault
            && h'.slots == h.slots - {LocalLib}
  {
    hide Balanced, MappedOnce, LibrariesMapped, BlocksOwned, InstancesAnchored, DropLib;
    LibraryLoaded(h, LocalLib);
    TouchFacts(h, code);
    DropLibFacts(Touch(h, code), LocalLib);
    OldBlocks(h);
  }

  lemma FilledLocal(h: Heap, h1: Heap, h2: Heap, h3: Heap, l: nat, t: Tables, infos: seq<Info>, lib: Id, code: Code)
    requires LocalLib !in h.slots && h1.slots == h.slots[LocalLib := lib] && FilledSlots(h1, h2, l, t, infos, lib, code)
    requires WellFormed(h2) && WellFormed(h3) && Evolves(h2, h3) && h3.slots == h2.slots - {LocalLib}
    ensures FilledSlots(h, h3, l, t, infos, lib, code)
  {
    hide WellFormed, Evolves;
    forall info | info in infos
      ensures FilledName(h3, l, t, info, lib, code)
    {
      assert FilledName(h2, l, t, info, lib, code);
      if info.name !in t.plugins {
        PayloadStays(h2, h3, LoaderInfo(l, info.name));
      }
    }
  }

  lemma LoadedFacts(h: Heap, l: nat, t: LoaderTables, lib: string, handle: Handle, infos: seq<Info>)
    requires WellFormed(h) && LocalLib !in h.slots && MayOpen(h, lib, handle)
    requires PtrTable(h, l, t.handlePtrs) && Linked(h, l, t.registry) && Complete(t.registry) && Catalogue(infos)
    ensures var h' := LoadedHeap(h, l, t, lib, handle, infos);
            var id := OpenPtrs(h, t.handlePtrs, handle)[handle];
            && WellFormed(h') && Evolves(h, h') && h'.fault == h.fault && LocalLib !in h'.slots
            && NoNewLibs(OpenLib(h, l, t.handlePtrs, lib, handle), h')
            && Evolves(OpenLib(h, l, t.handlePtrs, lib, handle), h')
            && Linked(h', l, AddedAll(t.registry, infos)) && Complete(AddedAll(t.registry, infos))
            && FilledSlots(h, h', l, t.registry, infos, id, NewCode(h, handle))
  {
    hide WellFormed, Evolves, NoNewLibs, Linked, Complete, Catalogue, AddPlugins, DropLib, PtrTable, FilledSlots, Extends;
    var ptrs := t.handlePtrs;
    var h1 := OpenLib(h, l, ptrs, lib, handle);
    var id := OpenPtrs(h, ptrs, handle)[handle];
    var code := NewCode(h, handle);
    OpenLibFacts(h, l, ptrs, lib, handle);
    hide OpenLib, OpenPtrs;
    LinkedSame(h, h1, l, t.registry);
    AddPluginsFacts(h1, l, t.registry, infos, id, code);
    var h2 := AddPlugins(h1, l, t.registry, infos, id, code);
    DropLocalFacts(h2, id, code);
    var h3 := DropLib(Touch(h2, code), LocalLib);
    LinkedSame(h2, h3, l, AddedAll(t.registry, infos));
    EvolvesTransitive(h1, h2, h3);
    EvolvesTransitive(h, h1, h3);
    NoNewLibsTransitive(h1, h2, h3);
    FilledLocal(h, h1, h2, h3, l, t.registry, infos, id, code);
  }

  // ---------------------------------------------------------------- forgetting a library, destroying a Loader

  function InfoSlots(l: nat, names: seq<string>): set<Slot> {
    set n | n in names :: LoaderInfo(l, n)
  }

  function LibSlots(l: nat, names: seq<string>): set<Slot> {
    set n | n in names :: LoaderLib(l, n)
  }

  lemma DropPinnedInfo(h: Heap, l: nat, n: string)
    requires WellFormed(h)
    ensures var h' := DropInfo(h, LoaderInfo(l, n));
            && WellFormed(h') && Evolves(h, h') && NoNewLibs(h, h') && h'.slots == h.slots - {LoaderInfo(l, n)}
            && (PinnedName(h, l, n) ==> h'.fault == h.fault)
  {
    hide Balanced, MappedOnce, LibrariesMapped, BlocksOwned, InstancesAnchored;
    OldBlocks(h);
    DropInfoFacts(h, LoaderInfo(l, n));
    if LoaderInfo(l, n) in h.slots && PinnedName(h, l, n) {
      LibraryLoaded(h, LoaderLib(l, n));
    }
  }

  lemma DropNamedLib(h: Heap, l: nat, n: string)
    requires WellFormed(h)
    ensures var h' := DropLib(h, LoaderLib(l, n));
            && WellFormed(h') && Evolves(h, h') && NoNewLibs(h, h') && h'.slots == h.slots - {LoaderLib(l, n)}
            && h'.fault == h.fault
  {
    hide Balanced, MappedOnce, LibrariesMapped, BlocksOwned, InstancesAnchored;
    OldBlocks(h);
    DropLibFacts(h, LoaderLib(l, n));
  }

  lemma PinnedStays(h: Heap, h': Heap, l: nat, n: string)
    requires WellFormed(h) && WellFormed(h') && Evolves(h, h') && PinnedName(h, l, n)
    requires (SameAt(h, h', LoaderLib(l, n)) && SameAt(h, h', LoaderInfo(l, n))) || LoaderInfo(l, n) !in h'.slots
    ensures PinnedName(h', l, n)
  {
    hide WellFormed, Evolves;
    HeldIsIn(h', LoaderInfo(l, n));
    if LoaderInfo(l, n) in h'.slots {
      HeldIsIn(h, LoaderInfo(l, n));
      HeldIsIn(h, LoaderLib(l, n));
      PayloadStays(h, h', LoaderInfo(l, n));
      PayloadStays(h, h', LoaderLib(l, n));
    }
  }

  lemma {:induction false} ForgetPluginsFacts(h: Heap, l: nat, names: seq<string>)
    requires WellFormed(h)
    ensures var h' := ForgetPlugins(h, l, names);
            && WellFormed(h') && Evolves(h, h') && NoNewLibs(h, h')
            && h'.slots == h.slots - InfoSlots(l, names) - LibSlots(l, names)
            && ((forall n | n in names :: PinnedName(h, l, n)) ==> h'.fault == h.fault)
    decreases |names|
  {
    hide WellFormed, Evolves, NoNewLibs;
    if names == [] {
      EvolvesRefl(h);
    } else {
      var h1 := DropInfo(h, LoaderInfo(l, names[0]));
      DropPinnedInfo(h, l, names[0]);
      var h2 := DropLib(h1, LoaderLib(l, names[0]));
      DropNamedLib(h1, l, names[0]);
      hide DropInfo, DropLib, PinnedName;
      EvolvesTransitive(h, h1, h2);
      NoNewLibsTransitive(h, h1, h2);
      if forall n | n in names :: PinnedName(h, l, n) {
        forall n | n in names
          ensures PinnedName(h2, l, n)
        {
          PinnedStays(h, h2, l, n);
        }
      }
      ForgetPluginsFacts(h2, l, names[1..]);
      var h3 := ForgetPlugins(h2, l, names[1..]);
      assert h3 == ForgetPlugins(h, l, names);
      hide ForgetPlugins, InfoSlots, LibSlots;
      EvolvesTransitive(h, h2, h3);
      NoNewLibsTransitive(h, h2, h3);
      SlotsSplit(l, names);
    }
  }

  lemma SlotsSplit(l: nat, names: seq<string>)
    requires names != []
    ensures InfoSlots(l, names) == {LoaderInfo(l, names[0])} + InfoSlots(l, names[1..])
    ensures LibSlots(l, names) == {LoaderLib(l, names[0])} + LibSlots(l, names[1..])
  {
    assert forall n :: n in names <==> n == names[0] || n in names[1..];
  }

  lemma EvolvesRefl(h: Heap)
    requires WellFormed(h)
    ensures Evolves(h, h) && NoNewLibs(h, h)
  {
    OldBlocks(h);
  }

  lemma {:induction false} DropInfosFacts(h: Heap, l: nat, names: seq<string>)
    requires WellFormed(h)
    ensures var h' := DropInfos(h, l, names);
            && WellFormed(h') && Evolves(h, h') && NoNewLibs(h, h') && h'.slots == h.slots - InfoSlots(l, names)
            && ((forall n | n in names :: PinnedName(h, l, n)) ==> h'.fault == h.fault)
    decreases |names|
  {
    hide WellFormed, Evolves, NoNewLibs;
    if names == [] {
      EvolvesRefl(h);
    } else {
      var h1 := DropInfo(h, LoaderInfo(l, names[0]));
      DropPinnedInfo(h, l, names[0]);
      hide DropInfo, PinnedName;
      if forall n | n in names :: PinnedName(h, l, n) {
        forall n | n in names
          ensures PinnedName(h1, l, n)
        {
          PinnedStays(h, h1, l, n);
        }
      }
      DropInfosFacts(h1, l, names[1..]);
      EvolvesTransitive(h, h1, DropInfos(h1, l, names[1..]));
      NoNewLibsTransitive(h, h1, DropInfos(h1, l, names[1..]));
      SlotsSplit(l, names);
    }
  }

  lemma {:induction false} DropLibsFacts(h: Heap, l: nat, names: seq<string>)
    requires WellFormed(h)
    ensures var h' := DropLibs(h, l, names);
            && WellFormed(h') && Evolves(h, h') && NoNewLibs(h, h') && h'.slots == h.slots - LibSlots(l, names)
            && h'.fault == h.fault
    decreases |names|
  {
    hide WellFormed, Evolves, NoNewLibs;
    if names == [] {
      EvolvesRefl(h);
    } else {
      var h1 := DropLib(h, LoaderLib(l, names[0]));
      DropNamedLib(h, l, names[0]);
      hide DropLib;
      DropLibsFacts(h1, l, names[1..]);
      EvolvesTransitive(h, h1, DropLibs(h1, l, names[1..]));
      NoNewLibsTransitive(h, h1, DropLibs(h1, l, names[1..]));
      SlotsSplit(l, names);
    }
  }
}
