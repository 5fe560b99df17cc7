/** The class `gz::plugin::Loader`. */
module Loaders {
  import opened Common
  import opened Runtime
  import opened Registries
  import opened Registration
  import opened LoaderSteps
  import opened Plugins
  import opened Lifetime
  import opened Wrappers

  // ---------------------------------------------------------------- the loops, one round at a time

  lemma {:induction false} AddedAllLast(t: Tables, infos: seq<Info>, last: Info)
    ensures AddedAll(t, infos + [last]) == Added(AddedAll(t, infos), last)
    decreases |infos|
  {
    hide Added;
    if infos == [] {
      assert [last][1..] == [];
      assert AddedAll(Added(t, last), []) == Added(t, last);
    } else {
      assert (infos + [last])[1..] == infos[1..] + [last];
      AddedAllLast(Added(t, infos[0]), infos[1..], last);
    }
  }

  lemma {:induction false} AddPluginsLast(h: Heap, l: nat, t: Tables, infos: seq<Info>, last: Info, lib: Id, code: Code)
    ensures AddPlugins(h, l, t, infos + [last], lib, code) ==
            AddPlugin(AddPlugins(h, l, t, infos, lib, code), l, last.name in AddedAll(t, infos).plugins, last, lib, code)
    decreases |infos|
  {
    hide Added, AddPlugin;
    if infos == [] {
      assert [last][1..] == [] && [] + [last] == [last];
      var h1 := AddPlugin(h, l, last.name in t.plugins, last, lib, code);
      assert AddPlugins(h1, l, Added(t, last), [], lib, code) == h1;
    } else {
      assert (infos + [last])[1..] == infos[1..] + [last];
      AddPluginsLast(AddPlugin(h, l, infos[0].name in t.plugins, infos[0], lib, code), l, Added(t, infos[0]), infos[1..], last, lib, code);
    }
  }

  lemma {:induction false} ForgetPluginsLast(h: Heap, l: nat, names: seq<string>, last: string)
    ensures ForgetPlugins(h, l, names + [last]) ==
            DropLib(DropInfo(ForgetPlugins(h, l, names), LoaderInfo(l, last)), LoaderLib(l, last))
    decreases |names|
  {
    hide DropLib, DropInfo;
    if names == [] {
      assert [last][1..] == [] && [] + [last] == [last];
    } else {
      assert (names + [last])[1..] == names[1..] + [last];
      ForgetPluginsLast(DropLib(DropInfo(h, LoaderInfo(l, names[0])), LoaderLib(l, names[0])), l, names[1..], last);
    }
  }

  lemma {:induction false} ForgottenAllLast(t: Tables, names: seq<string>, last: string)
    ensures ForgottenAll(t, names + [last]) == Forgotten(ForgottenAll(t, names), last)
    decreases |names|
  {
    hide Forgotten;
    if names == [] {
      assert [last][1..] == [] && [] + [last] == [last];
    } else {
      assert (names + [last])[1..] == names[1..] + [last];
      ForgottenAllLast(Forgotten(t, names[0]), names[1..], last);
    }
  }

  /** Taking back a `dlopen` commutes with copying the pointer that was found. */
  lemma ShareInBetween(h: Heap, lib: string, handle: Handle, slot: Slot, id: Id)
    requires handle in h.os && h.os[handle].count > 0 && id in h.blocks
    ensures Dlclose(Share(Dlopen(h, lib, handle), slot, id), handle) == Share(h, slot, id)
  {
    OpenClose(h, lib, handle);
    assert Dlclose(Share(Dlopen(h, lib, handle), slot, id), handle).os == h.os;
  }

  // ---------------------------------------------------------------- the class

  /** The registry of a Loader holds shared pointers to its Infos; they are the slots
      `LoaderInfo(id, _)` of the heap, and `pluginToDlHandlePtrs` are the slots `LoaderLib(id, _)`. */
  class Loader {
    const id: nat
    const machine: Machine
    const demangle: Demangler
    var pluginToDlHandlePtrs: map<string, Id>
    const filePlugins: Registry
    var dlHandlePtrMap: map<Handle, Id>
    var dlHandleToPluginMap: map<Handle, set<string>>
    const staticPlugins: StaticRegistry

    function Value(): LoaderTables
      reads this, filePlugins
    {
      LoaderTables(filePlugins.Value(), dlHandlePtrMap, dlHandleToPluginMap)
    }

    /** The library pointers are the slots of the heap. */
    ghost predicate Mirrors()
      reads this, machine
    {
      forall n :: if n in pluginToDlHandlePtrs
                  then LoaderLib(id, n) in machine.heap.slots && machine.heap.slots[LoaderLib(id, n)] == pluginToDlHandlePtrs[n]
                  else LoaderLib(id, n) !in machine.heap.slots
    }

    ghost predicate Valid()
      reads this, machine, filePlugins, staticPlugins
    {
      && WellFormed(machine.heap) && LocalLib !in machine.heap.slots
      && PtrTable(machine.heap, id, dlHandlePtrMap) && PtrsComplete(machine.heap, id, dlHandlePtrMap)
      && Linked(machine.heap, id, filePlugins.Value()) && Complete(filePlugins.Value())
      && Mirrors() && staticPlugins.Valid()
    }

    constructor (id: nat, machine: Machine, staticPlugins: StaticRegistry)
      requires WellFormed(machine.heap) && LocalLib !in machine.heap.slots && staticPlugins.Valid()
      requires forall n :: LoaderInfo(id, n) !in machine.heap.slots && LoaderLib(id, n) !in machine.heap.slots
      requires forall i | i in machine.heap.blocks && machine.heap.blocks[i].payload.Library? :: machine.heap.blocks[i].payload.creator != id
      ensures Valid() && Value() == EMPTY_LOADER && fresh(filePlugins)
      ensures this.id == id && this.machine == machine && this.staticPlugins == staticPlugins
    {
      this.id, this.machine, this.demangle, this.staticPlugins := id, machine, staticPlugins.demangle, staticPlugins;
      pluginToDlHandlePtrs, dlHandlePtrMap, dlHandleToPluginMap := map[], map[], map[];
      filePlugins := new Registry();
      new;
      hide WellFormed;
      assert forall n :: LinkedName(machine.heap, id, EMPTY_TABLES, n);
    }

    // -------------------------------------------------------------- loading

    /** `Implementation::LoadLib`; `handle` is the answer of `dlopen`, and the pointer that is
        returned is left in the slot `LocalLib`. */
    method OpenLibrary(lib: string, handle: Handle)
      requires Valid() && MayOpen(machine.heap, lib, handle)
      modifies this`dlHandlePtrMap, machine
      ensures machine.heap == OpenLib(old(machine.heap), id, old(dlHandlePtrMap), lib, handle)
      ensures dlHandlePtrMap == OpenPtrs(old(machine.heap), old(dlHandlePtrMap), handle)
    {
      hide WellFormed, Linked, Complete, PtrsComplete;
      ghost var h := machine.heap;
      PtrIsOpen(handle);
      OpenNewIs(h, LocalLib, lib, handle, id);
      machine.heap := Dlopen(machine.heap, lib, handle);
      var found := false;
      if handle in dlHandlePtrMap {
        if dlHandlePtrMap[handle] in machine.heap.blocks {
          found := true;
          ShareInBetween(h, lib, handle, LocalLib, dlHandlePtrMap[handle]);
          machine.heap := Share(machine.heap, LocalLib, dlHandlePtrMap[handle]);
          machine.heap := Dlclose(machine.heap, handle);
        }
      }
      if !found {
        dlHandlePtrMap := dlHandlePtrMap[handle := machine.heap.next];
        machine.heap := MakeLib(machine.heap, LocalLib, handle, id);
      }
    }

    lemma PtrIsOpen(handle: Handle)
      requires Valid()
      ensures handle in dlHandlePtrMap && dlHandlePtrMap[handle] in machine.heap.blocks ==>
                handle in machine.heap.os && machine.heap.os[handle].count > 0
    {
      hide SlotsHeld, BlocksOwned, MappedOnce, InstancesAnchored, Linked, Complete, PtrsComplete;
    }

    /** One round of the loop: the Info is prepared and stored, and the plugin gets the library. */
    method AddOne(plugin: Info, lib: Id, code: Code) returns (name: string)
      requires filePlugins.Valid()
      modifies this`pluginToDlHandlePtrs, machine, filePlugins
      ensures var info := Prepared(plugin, demangle);
              && name == info.name && filePlugins.Valid() && filePlugins.Value() == Added(old(filePlugins.Value()), info)
              && machine.heap == AddPlugin(old(machine.heap), id, info.name in old(filePlugins.plugins), info, lib, code)
              && pluginToDlHandlePtrs == old(pluginToDlHandlePtrs)[info.name := lib]
    {
      name := demangle(plugin.name);
      var demangled := InsertDemangled(plugin.demangledInterfaces, plugin, demangle);
      var info := plugin.(name := name, demangledInterfaces := demangled);
      var added := filePlugins.AddInfo(info);
      machine.heap := StoreInfo(machine.heap, id, !added, info, code);
      pluginToDlHandlePtrs := pluginToDlHandlePtrs[name := lib];
      machine.heap := AssignLib(machine.heap, id, name, lib);
    }

    /** The loop of `LoadLib` over the Infos that the library delivers. */
    method AddEach(delivered: seq<Info>, lib: Id, code: Code) returns (newPlugins: set<string>)
      requires filePlugins.Valid()
      modifies this`pluginToDlHandlePtrs, machine, filePlugins
      ensures var infos := PreparedAll(delivered, demangle);
              && newPlugins == NamesOf(infos) && filePlugins.Valid() && filePlugins.Value() == AddedAll(old(filePlugins.Value()), infos)
              && machine.heap == AddPlugins(old(machine.heap), id, old(filePlugins.Value()), infos, lib, code)
              && pluginToDlHandlePtrs == Renamed(old(pluginToDlHandlePtrs), NamesOf(infos), lib)
    {
      hide AddPlugin, AddPlugins, Added, AddedAll, Complete, NamesOf, Renamed, Prepared;
      newPlugins := {};
      ghost var h, t, names := machine.heap, filePlugins.Value(), pluginToDlHandlePtrs;
      ghost var infos := PreparedAll(delivered, demangle);
      var i := 0;
      NoRound(h, id, t, infos, lib, code, names);
      while i < |delivered|
        invariant 0 <= i <= |delivered|
        invariant filePlugins.Valid() && filePlugins.Value() == AddedAll(t, infos[..i])
        invariant machine.heap == AddPlugins(h, id, t, infos[..i], lib, code)
        invariant newPlugins == NamesOf(infos[..i])
        invariant pluginToDlHandlePtrs == Renamed(names, NamesOf(infos[..i]), lib)
      {
        var name := AddOne(delivered[i], lib, code);
        newPlugins := newPlugins + {name};
        OneRound(h, id, t, infos, i, lib, code, names);
        i := i + 1;
      }
      assert infos[..i] == infos;
    }

    /** `LoadLib`: `answer` is what `dlopen` gives, and `delivered` what the library's hook does. */
    method LoadLib(lib: string, answer: Option<Handle>, delivered: seq<Info>) returns (newPlugins: set<string>)
      requires Valid() && Catalogue(PreparedAll(delivered, demangle))
      requires answer.Some? ==> MayOpen(machine.heap, lib, answer.value)
      modifies this, machine, filePlugins
      ensures Valid()
      ensures answer.None? ==> newPlugins == {} && machine.heap == old(machine.heap) && Value() == old(Value())
      ensures answer.Some? ==>
                var infos := PreparedAll(delivered, demangle);
                && newPlugins == NamesOf(infos)
                && machine.heap == LoadedHeap(old(machine.heap), id, old(Value()), lib, answer.value, infos)
                && Value() == LoadedTables(old(machine.heap), old(Value()), answer.value, infos)
      ensures answer.Some? ==>
                forall i | 0 <= i < |delivered| ::
                  var name := demangle(delivered[i].name);
                  && name in filePlugins.plugins && name in newPlugins
                  && (if name in old(filePlugins.plugins) then filePlugins.plugins[name] == old(filePlugins.plugins)[name]
                      else StoredAs(filePlugins.plugins[name], delivered[i], demangle))
    {
      hide WellFormed, Linked, Complete, PtrTable, PtrsComplete, OpenLib, OpenPtrs, AddPlugins, AddedAll, Catalogue, DropLib, Touch,
           Evolves, NoNewLibs, FilledSlots, Extends, MayOpen, PreparedAll, Renamed, NamesOf;
      newPlugins := {};
      if answer.None? {
        return;
      }
      var handle := answer.value;
      ghost var h, t, names := machine.heap, Value(), pluginToDlHandlePtrs;
      ghost var infos := PreparedAll(delivered, demangle);
      OpenLibFacts(h, id, t.handlePtrs, lib, handle);
      OpenPtrsFacts(h, id, t.handlePtrs, lib, handle);
      LoadedFacts(h, id, t, lib, handle, infos);
      OpenLibrary(lib, handle);
      ghost var h1 := machine.heap;
      var dlHandle := OpenedIn(machine.heap);
      var code := NewCodeOf(machine.heap, dlHandle);
      newPlugins := AddEach(delivered, dlHandle, code);
      dlHandleToPluginMap := dlHandleToPluginMap[handle := newPlugins];
      machine.heap := Touch(machine.heap, code);
      machine.heap := DropLib(machine.heap, LocalLib);
      assert machine.heap == LoadedHeap(h, id, t, lib, handle, infos);
      PtrsStay(h1, machine.heap, id, dlHandlePtrMap);
      LoadedMirrors(h, machine.heap, id, t.registry, infos, dlHandle, code, names);
      LoadedStores(t.registry, delivered, demangle);
    }

    // -------------------------------------------------------------- forgetting

    /** `Implementation::ForgetLibrary`; `order` is the order in which the set is traversed. */
    method ForgetHandle(handle: Handle) returns (found: bool, ghost order: seq<string>)
      requires Valid()
      modifies this, machine, filePlugins
      ensures Valid() && (found <==> handle in old(dlHandleToPluginMap))
      ensures !found ==> machine.heap == old(machine.heap) && Value() == old(Value())
      ensures found ==>
                && Lists(order, old(dlHandleToPluginMap)[handle])
                && machine.heap == ForgetPlugins(old(machine.heap), id, order)
                && Value() == ForgottenTables(old(Value()), handle, order)
    {
      hide WellFormed, Linked, Complete, PtrTable, PtrsComplete, DropLib, DropInfo, Forgotten, Evolves, NoNewLibs;
      order := [];
      if handle !in dlHandleToPluginMap {
        return false, order;
      }
      found := true;
      ghost var h, t, names := machine.heap, Value(), pluginToDlHandlePtrs;
      var forgottenPlugins := dlHandleToPluginMap[handle];
      var rest := forgottenPlugins;
      while rest != {}
        invariant rest <= forgottenPlugins && Lists(order, forgottenPlugins - rest)
        invariant filePlugins.Valid() && filePlugins.Value() == ForgottenAll(t.registry, order)
        invariant machine.heap == ForgetPlugins(h, id, order)
        invariant dlHandlePtrMap == t.handlePtrs && dlHandleToPluginMap == t.handlePlugins
        invariant pluginToDlHandlePtrs == names - (forgottenPlugins - rest)
        decreases rest
      {
        var forget :| forget in rest;
        filePlugins.ForgetInfo(forget);
        machine.heap := DropInfo(machine.heap, LoaderInfo(id, forget));
        pluginToDlHandlePtrs := pluginToDlHandlePtrs - {forget};
        machine.heap := DropLib(machine.heap, LoaderLib(id, forget));
        rest := rest - {forget};
        ForgetPluginsLast(h, id, order, forget);
        ForgottenAllLast(t.registry, order, forget);
        assert forgottenPlugins - rest == (forgottenPlugins - rest - {forget}) + {forget};
        order := order + [forget];
      }
      assert forgottenPlugins - rest == forgottenPlugins;
      dlHandleToPluginMap := dlHandleToPluginMap - {handle};
      ForgetPluginsFacts(h, id, order);
      ForgottenLinked(h, machine.heap, id, t.registry, order);
      PtrsStay(h, machine.heap, id, dlHandlePtrMap);
      ForgottenMirrors(h, machine.heap, id, order, names, forgottenPlugins);
    }

    /** `ForgetLibrary`: `dlopen` with RTLD_NOLOAD finds the handle of a library that is mapped. */
    method ForgetLibrary(lib: string) returns (found: bool, ghost order: seq<string>, ghost handle: Handle)
      requires Valid()
      modifies this, machine, filePlugins
      ensures Valid()
      ensures found ==>
                && handle in old(machine.heap).os && old(machine.heap).os[handle].lib == lib
                && handle in old(dlHandleToPluginMap) && Lists(order, old(dlHandleToPluginMap)[handle])
                && machine.heap == ForgetPlugins(old(machine.heap), id, order)
                && Value() == ForgottenTables(old(Value()), handle, order)
      ensures !found ==>
                && machine.heap == old(machine.heap) && Value() == old(Value())
                && (forall k | k in old(machine.heap).os && old(machine.heap).os[k].lib == lib :: k !in old(dlHandleToPluginMap))
    {
      hide Linked, Complete, PtrTable, PtrsComplete, ForgetPlugins;
      order, handle := [], 0;
      if k :| k in machine.heap.os && machine.heap.os[k].lib == lib {
        assert machine.heap.os[k].count > 0 && (forall j | j in machine.heap.os && machine.heap.os[j].lib == lib :: j == k) by {
          MappedAt(machine.heap, k);
        }
        hide WellFormed;
        OpenClose(machine.heap, lib, k);
        machine.heap := Dlopen(machine.heap, lib, k);
        machine.heap := Dlclose(machine.heap, k);
        handle := k;
        found, order := ForgetHandle(k);
        return;
      }
      found := false;
    }

    // -------------------------------------------------------------- queries

    /** Higher priority for plugins from files than for those of the static registry. */
    method LookupPlugin(nameOrAlias: string) returns (name: string)
      ensures Lookup(filePlugins.Value(), nameOrAlias) != "" ==> name == Lookup(filePlugins.Value(), nameOrAlias)
      ensures Lookup(filePlugins.Value(), nameOrAlias) == "" ==> name == Lookup(staticPlugins.Value(), nameOrAlias)
    {
      var nameInFilePlugins := filePlugins.LookupPlugin(nameOrAlias);
      if nameInFilePlugins != "" {
        return nameInFilePlugins;
      }
      var nameInStaticPlugins := staticPlugins.LookupPlugin(nameOrAlias);
      if nameInStaticPlugins != "" {
        return nameInStaticPlugins;
      }
      return "";
    }

    /** Whatever the name resolves to, a library is forgotten exactly when a plugin of that name
        came from a file. */
    method ForgetLibraryOfPlugin(nameOrAlias: string) returns (found: bool, ghost order: seq<string>, ghost handle: Handle)
      requires Valid()
      modifies this, machine, filePlugins
      ensures Valid()
      ensures var files, statics := Lookup(old(filePlugins.Value()), nameOrAlias), Lookup(staticPlugins.Value(), nameOrAlias);
              var name := if files != "" then files else statics;
              && (found ==> name in old(filePlugins.plugins) && handle in old(dlHandleToPluginMap)
                            && Lists(order, old(dlHandleToPluginMap)[handle])
                            && machine.heap == ForgetPlugins(old(machine.heap), id, order)
                            && Value() == ForgottenTables(old(Value()), handle, order))
              && (!found ==> machine.heap == old(machine.heap) && Value() == old(Value()))
              && (name in old(filePlugins.plugins) ==>
                    Held(old(machine.heap), LoaderLib(id, name))
                    && handle == HandleOf(PayloadAt(old(machine.heap), LoaderLib(id, name)).code)
                    && (found <==> handle in old(dlHandleToPluginMap)))
    {
      hide WellFormed, Complete, PtrTable, PtrsComplete, ForgetPlugins;
      order, handle := [], 0;
      var resolvedName := LookupPlugin(nameOrAlias);
      assert LinkedName(machine.heap, id, filePlugins.Value(), resolvedName);
      HeldIsIn(machine.heap, LoaderLib(id, resolvedName));
      if resolvedName !in pluginToDlHandlePtrs {
        return false, order, handle;
      }
      KindAt(machine.heap, LoaderLib(id, resolvedName));
      var dlHandle := HandleOf(machine.heap.blocks[pluginToDlHandlePtrs[resolvedName]].payload.code);
      handle := dlHandle;
      found, order := ForgetHandle(dlHandle);
    }

    /** `PrivateGetInfoForFilePlugin` and `PrivateGetPluginDlHandlePtr`: None stands for the branch
        that "should not be possible". */
    method GetInfoAndHandle(resolvedName: string) returns (info: Option<Id>, lib: Option<Id>)
      ensures info == if resolvedName in filePlugins.plugins && Held(machine.heap, LoaderInfo(id, resolvedName))
                      then Some(machine.heap.slots[LoaderInfo(id, resolvedName)]) else None
      ensures lib == if resolvedName in pluginToDlHandlePtrs then Some(pluginToDlHandlePtrs[resolvedName]) else None
    {
      info, lib := None, None;
      var stored := filePlugins.GetInfo(resolvedName);
      if stored.Some? && Held(machine.heap, LoaderInfo(id, resolvedName)) {
        info := Some(machine.heap.slots[LoaderInfo(id, resolvedName)]);
      }
      if resolvedName in pluginToDlHandlePtrs {
        lib := Some(pluginToDlHandlePtrs[resolvedName]);
      }
    }

    /** `PluginPtr(info, handle)` for a name of the registry of file plugins. */
    method FromFile(name: string, wrapper: nat) returns (ptr: Plugin, impossible: bool, ghost instance: Id)
      requires Valid()
      requires WrapperInstance(wrapper) !in machine.heap.slots && WrapperInfo(wrapper) !in machine.heap.slots
      modifies machine
      ensures Valid() && fresh(ptr) && ptr.machine == machine && ptr.wrapper == wrapper && ptr.Valid()
      ensures impossible <==> name !in filePlugins.plugins
      ensures !impossible ==> filePlugins.plugins[name].name == name
      ensures impossible ==> ptr.Value() == EMPTY_VIEW && machine.heap == old(machine.heap)
      ensures !impossible ==>
                && ptr.Value() == ViewCreated(EMPTY_VIEW, Some(filePlugins.plugins[name]), instance)
                && Held(old(machine.heap), LoaderInfo(id, name)) && Held(old(machine.heap), LoaderLib(id, name))
                && PayloadAt(old(machine.heap), LoaderInfo(id, name)).InfoPayload?
                && machine.heap == Created(old(machine.heap), wrapper, old(machine.heap).slots[LoaderInfo(id, name)],
                                           old(machine.heap).slots[LoaderLib(id, name)])
    {
      hide WellFormed, PtrTable, PtrsComplete, Linked, Complete, Created, Frame;
      NameKnown(name);
      ghost var h := machine.heap;
      impossible, instance := false, 0;
      FileKnown(h, id, filePlugins.Value(), name);
      ClearedNothing(h, wrapper);
      ptr := new Plugin(machine, wrapper);
      var info, lib := GetInfoAndHandle(name);
      MirroredAt(name);
      if info.None? || lib.None? {
        return ptr, true, instance;
      }
      instance := ptr.Create(info, lib.value);
      CreatedFrame(h, wrapper, info.value, lib.value);
      StaysValid(h, CreatedSlots(h, wrapper));
    }

    /** `PluginPtr(info)` for a name of the static registry. */
    method FromStatic(name: string, wrapper: nat) returns (ptr: Plugin, impossible: bool, ghost instance: Id)
      requires Valid()
      requires WrapperInstance(wrapper) !in machine.heap.slots && WrapperInfo(wrapper) !in machine.heap.slots
      modifies machine
      ensures Valid() && fresh(ptr) && ptr.machine == machine && ptr.wrapper == wrapper && ptr.Valid()
      ensures impossible <==> name !in staticPlugins.infos
      ensures !impossible ==> staticPlugins.infos[name].name == name
      ensures impossible ==> ptr.Value() == EMPTY_VIEW && machine.heap == old(machine.heap)
      ensures !impossible ==>
                && ptr.Value() == ViewCreated(EMPTY_VIEW, Some(staticPlugins.infos[name]), instance)
                && machine.heap == CreatedStatic(old(machine.heap), wrapper, staticPlugins.infos[name])
    {
      hide WellFormed, PtrTable, PtrsComplete, Linked, Complete, CreatedStatic, Frame;
      NameKnown(name);
      ghost var h := machine.heap;
      impossible, instance := false, 0;
      ClearedNothing(h, wrapper);
      ptr := new Plugin(machine, wrapper);
      var stored := staticPlugins.GetInfo(name);
      if stored.None? {
        return ptr, true, instance;
      }
      instance := ptr.CreateStatic(stored.value);
      CreatedStaticFrame(h, wrapper, stored.value);
      StaysValid(h, {WrapperInfo(wrapper), WrapperInstance(wrapper)});
    }

    /** `Instantiate`: `impossible` tells whether one of the branches was taken that "should not be
        possible", and `introduced` whether the instance learnt the pointer to itself.  A branch of
        that kind is taken exactly when an alias leads to a name that its registry does not know. */
    method Instantiate(nameOrAlias: string, wrapper: nat) returns (ptr: Plugin, introduced: bool, impossible: bool, ghost instance: Id)
      requires Valid()
      requires WrapperInstance(wrapper) !in machine.heap.slots && WrapperInfo(wrapper) !in machine.heap.slots
      modifies machine
      ensures Valid() && fresh(ptr) && ptr.machine == machine && ptr.wrapper == wrapper && ptr.Valid() && Faithful(ptr.Value())
      ensures var files, statics := Lookup(filePlugins.Value(), nameOrAlias), Lookup(staticPlugins.Value(), nameOrAlias);
              if files != "" && files in filePlugins.plugins then
                && ptr.Value() == ViewCreated(EMPTY_VIEW, Some(filePlugins.plugins[files]), instance)
                && Held(old(machine.heap), LoaderInfo(id, files)) && Held(old(machine.heap), LoaderLib(id, files))
                && PayloadAt(old(machine.heap), LoaderInfo(id, files)).InfoPayload?
                && machine.heap == Created(old(machine.heap), wrapper, old(machine.heap).slots[LoaderInfo(id, files)],
                                           old(machine.heap).slots[LoaderLib(id, files)])
              else if files == "" && statics != "" && statics in staticPlugins.infos then
                && ptr.Value() == ViewCreated(EMPTY_VIEW, Some(staticPlugins.infos[statics]), instance)
                && machine.heap == CreatedStatic(old(machine.heap), wrapper, staticPlugins.infos[statics])
              else ptr.Value() == EMPTY_VIEW && machine.heap == old(machine.heap)
      ensures impossible <==>
                var files, statics := Lookup(filePlugins.Value(), nameOrAlias), Lookup(staticPlugins.Value(), nameOrAlias);
                if files != "" then files !in filePlugins.plugins else statics != "" && statics !in staticPlugins.infos
      ensures Resolves() ==> !impossible
      ensures ptr.Value().instance.Some? <==>
                !impossible && (Lookup(filePlugins.Value(), nameOrAlias) != "" || Lookup(staticPlugins.Value(), nameOrAlias) != "")
      ensures ptr.Value().info.Some? ==>
                var files, statics := Lookup(filePlugins.Value(), nameOrAlias), Lookup(staticPlugins.Value(), nameOrAlias);
                && (files != "" ==> ptr.Value().info.value.name == files && files in filePlugins.plugins)
                && (files == "" ==> ptr.Value().info.value.name == statics && statics in staticPlugins.infos)
      ensures introduced <==> Offered(ptr.Value(), ENABLE_PLUGIN_FROM_THIS).Some?
    {
      hide Valid, WellFormed, Created, CreatedStatic, Faithful, Exact, Named, Lookup, Cast, Offered;
      introduced, impossible, instance := false, false, 0;
      EmptyFaithful();
      ResolvesKnown(nameOrAlias);
      var resolvedNameForFilePlugin := filePlugins.LookupPlugin(nameOrAlias);
      var resolvedNameForStaticPlugin := staticPlugins.LookupPlugin(nameOrAlias);
      if resolvedNameForFilePlugin != "" {
        ptr, impossible, instance := FromFile(resolvedNameForFilePlugin, wrapper);
      } else if resolvedNameForStaticPlugin != "" {
        ptr, impossible, instance := FromStatic(resolvedNameForStaticPlugin, wrapper);
      } else {
        ValidHeap();
        ptr := new Plugin(machine, wrapper);
      }
      CreatedFaithful(EMPTY_VIEW, ptr.Value().info, instance);
      FaithfulAt(ptr.Value(), ENABLE_PLUGIN_FROM_THIS);
      var found := ptr.Query(ENABLE_PLUGIN_FROM_THIS);
      introduced := found.Some?;
    }

    lemma NameKnown(name: string)
      requires Valid()
      ensures name in filePlugins.plugins ==> filePlugins.plugins[name].name == name
      ensures name in staticPlugins.infos ==> staticPlugins.infos[name].name == name
    {
    }

    lemma ValidHeap()
      requires Valid()
      ensures WellFormed(machine.heap)
    {
    }

    lemma ResolvesKnown(nameOrAlias: string)
      ensures Resolves() ==>
                && (Lookup(filePlugins.Value(), nameOrAlias) != "" ==> Lookup(filePlugins.Value(), nameOrAlias) in filePlugins.plugins)
                && (Lookup(staticPlugins.Value(), nameOrAlias) != "" ==> Lookup(staticPlugins.Value(), nameOrAlias) in staticPlugins.infos)
    {
      hide Exact, Lookup;
      if Resolves() {
        LookupFinds(filePlugins.Value(), nameOrAlias);
        LookupFinds(staticPlugins.Value(), nameOrAlias);
      }
    }

    /** What the module Order proves of every Loader of a program whose libraries have disjoint
        names, and StaticAddKeepsExact of the static registry. */
    ghost predicate Resolves()
      reads this, filePlugins, staticPlugins
    {
      && Exact(filePlugins.Value()) && Named(filePlugins.Value())
      && Exact(staticPlugins.Value()) && Named(staticPlugins.Value())
    }

    /** What a wrapper writes leaves the Loader as it is. */
    lemma StaysValid(h: Heap, changed: set<Slot>)
      requires WellFormed(h) && LocalLib !in h.slots && Frame(h, machine.heap, changed)
      requires forall sl | sl in changed :: !ForLoaders(sl) && sl != LocalLib
      requires PtrTable(h, id, dlHandlePtrMap) && PtrsComplete(h, id, dlHandlePtrMap)
      requires Linked(h, id, filePlugins.Value()) && Complete(filePlugins.Value()) && staticPlugins.Valid() && MirroredIn(h, id, pluginToDlHandlePtrs)
      ensures Valid()
    {
      hide WellFormed, Evolves, NoNewLibs, PtrTable, PtrsComplete, Linked, Complete, Changes;
      PtrsStay(h, machine.heap, id, dlHandlePtrMap);
      forall n
        ensures SameAt(h, machine.heap, LoaderInfo(id, n)) && SameAt(h, machine.heap, LoaderLib(id, n))
      {
        Untouched(h, machine.heap, changed, LoaderInfo(id, n));
        Untouched(h, machine.heap, changed, LoaderLib(id, n));
      }
      Untouched(h, machine.heap, changed, LocalLib);
      LinkedSame(h, machine.heap, id, filePlugins.Value());
    }

    lemma MirroredAt(n: string)
      requires Mirrors()
      ensures if n in pluginToDlHandlePtrs
              then LoaderLib(id, n) in machine.heap.slots && machine.heap.slots[LoaderLib(id, n)] == pluginToDlHandlePtrs[n]
              else LoaderLib(id, n) !in machine.heap.slots
    {
    }
  }

  // ---------------------------------------------------------------- helpers of the class

  function HandleOf(c: Code): Handle {
    if c.Dynamic? then c.handle else 0
  }

  function OpenedIn(h: Heap): Id {
    if LocalLib in h.slots then h.slots[LocalLib] else 0
  }

  function NewCodeOf(h: Heap, lib: Id): Code {
    if lib in h.blocks then h.blocks[lib].payload.code else Resident
  }

  function Renamed(names: map<string, Id>, more: set<string>, lib: Id): map<string, Id> {
    map n | n in names.Keys + more :: if n in more then lib else names[n]
  }

  lemma NamesLast(infos: seq<Info>, i: nat)
    requires i < |infos|
    ensures NamesOf(infos[..i + 1]) == NamesOf(infos[..i]) + {infos[i].name}
  {
    var a, b := infos[..i + 1], infos[..i];
    forall n
      ensures n in NamesOf(a) <==> n in NamesOf(b) || n == infos[i].name
    {
      if n == infos[i].name {
        assert a[i].name == n;
      }
      if j :| 0 <= j < |b| && b[j].name == n {
        assert a[j].name == n;
      }
    }
  }

  lemma ClearedNothing(h: Heap, w: nat)
    requires WrapperInstance(w) !in h.slots && WrapperInfo(w) !in h.slots
    ensures Cleared(h, w) == h
  {
  }

  /** A name of the registry has its Info and its library, and no other name has. */
  lemma FileKnown(h: Heap, l: nat, t: Tables, n: string)
    requires WellFormed(h) && Linked(h, l, t)
    ensures n in t.plugins <==> Held(h, LoaderInfo(l, n))
    ensures n in t.plugins <==> Held(h, LoaderLib(l, n))
    ensures n in t.plugins ==>
              && PayloadAt(h, LoaderInfo(l, n)).InfoPayload? && PayloadAt(h, LoaderInfo(l, n)).info == t.plugins[n]
              && Creatable(h, h.slots[LoaderInfo(l, n)], h.slots[LoaderLib(l, n)])
  {
    hide WellFormed;
    assert LinkedName(h, l, t, n);
    KindAt(h, LoaderLib(l, n));
  }

  lemma LoadedStores(t: Tables, delivered: seq<Info>, demangle: Demangler)
    requires Catalogue(PreparedAll(delivered, demangle))
    ensures var infos := PreparedAll(delivered, demangle); var u := AddedAll(t, infos);
            forall i | 0 <= i < |delivered| ::
              var name := demangle(delivered[i].name);
              && name in u.plugins && name in NamesOf(infos)
              && (if name in t.plugins then u.plugins[name] == t.plugins[name] else StoredAs(u.plugins[name], delivered[i], demangle))
  {
    hide AddedAll, Catalogue, StoredAs;
    var infos := PreparedAll(delivered, demangle);
    forall i | 0 <= i < |delivered|
      ensures var name := demangle(delivered[i].name); var u := AddedAll(t, infos);
              && name in u.plugins && name in NamesOf(infos)
              && (if name in t.plugins then u.plugins[name] == t.plugins[name] else StoredAs(u.plugins[name], delivered[i], demangle))
    {
      assert infos[i] == Prepared(delivered[i], demangle);
      AddedStores(t, infos, i);
      PreparedStored(delivered[i], demangle);
    }
  }

  lemma NoRound(h: Heap, l: nat, t: Tables, infos: seq<Info>, lib: Id, code: Code, names: map<string, Id>)
    ensures AddedAll(t, infos[..0]) == t && AddPlugins(h, l, t, infos[..0], lib, code) == h
    ensures NamesOf(infos[..0]) == {} && Renamed(names, NamesOf(infos[..0]), lib) == names
  {
    assert Renamed(names, {}, lib) == names;
  }

  /** What one more round of the loop does to each of its variables. */
  lemma OneRound(h: Heap, l: nat, t: Tables, infos: seq<Info>, i: nat, lib: Id, code: Code, names: map<string, Id>)
    requires i < |infos|
    ensures AddedAll(t, infos[..i + 1]) == Added(AddedAll(t, infos[..i]), infos[i])
    ensures AddPlugins(h, l, t, infos[..i + 1], lib, code) ==
            AddPlugin(AddPlugins(h, l, t, infos[..i], lib, code), l, infos[i].name in AddedAll(t, infos[..i]).plugins, infos[i], lib, code)
    ensures NamesOf(infos[..i + 1]) == NamesOf(infos[..i]) + {infos[i].name}
    ensures Renamed(names, NamesOf(infos[..i + 1]), lib) == Renamed(names, NamesOf(infos[..i]), lib)[infos[i].name := lib]
  {
    hide Added, AddPlugin;
    assert infos[..i + 1] == infos[..i] + [infos[i]];
    AddedAllLast(t, infos[..i], infos[i]);
    AddPluginsLast(h, l, t, infos[..i], infos[i], lib, code);
    NamesLast(infos, i);
    hide NamesOf;
    assert Renamed(names, NamesOf(infos[..i]) + {infos[i].name}, lib) == Renamed(names, NamesOf(infos[..i]), lib)[infos[i].name := lib];
  }

  lemma PtrsStay(h: Heap, h': Heap, l: nat, ptrs: map<Handle, Id>)
    requires WellFormed(h) && Evolves(h, h') && NoNewLibs(h, h') && PtrTable(h, l, ptrs) && PtrsComplete(h, l, ptrs)
    ensures PtrTable(h', l, ptrs) && PtrsComplete(h', l, ptrs)
  {
    hide WellFormed;
    PtrsFrame(h, h', l, ptrs);
  }

  lemma MappedAt(h: Heap, k: Handle)
    requires WellFormed(h) && k in h.os
    ensures h.os[k].count > 0 && (forall j | j in h.os && h.os[j].lib == h.os[k].lib :: j == k)
  {
    hide SlotsHeld, BlocksOwned, InstancesAnchored, LibrariesMapped;
  }

  /** `names` are the slots `LoaderLib(l, _)` of the heap. */
  ghost predicate MirroredIn(h: Heap, l: nat, names: map<string, Id>) {
    forall n :: if n in names then LoaderLib(l, n) in h.slots && h.slots[LoaderLib(l, n)] == names[n] else LoaderLib(l, n) !in h.slots
  }

  lemma LoadedMirrors(h: Heap, h': Heap, l: nat, t: Tables, infos: seq<Info>, lib: Id, code: Code, names: map<string, Id>)
    requires FilledSlots(h, h', l, t, infos, lib, code) && MirroredIn(h, l, names)
    ensures MirroredIn(h', l, Renamed(names, NamesOf(infos), lib))
  {
    forall n
      ensures n in NamesOf(infos) ==> LoaderLib(l, n) in h'.slots && h'.slots[LoaderLib(l, n)] == lib
    {
      if i :| 0 <= i < |infos| && infos[i].name == n {
        assert infos[i] in infos && FilledName(h', l, t, infos[i], lib, code);
      }
    }
  }

  lemma ForgottenMirrors(h: Heap, h': Heap, l: nat, order: seq<string>, names: map<string, Id>, forgotten: set<string>)
    requires MirroredIn(h, l, names) && h'.slots == h.slots - InfoSlots(l, order) - LibSlots(l, order) && Lists(order, forgotten)
    ensures MirroredIn(h', l, names - forgotten)
  {
    forall n
      ensures LoaderLib(l, n) in h'.slots <==> LoaderLib(l, n) in h.slots && n !in forgotten
    {
      assert LoaderLib(l, n) in LibSlots(l, order) <==> n in order;
    }
  }
}
