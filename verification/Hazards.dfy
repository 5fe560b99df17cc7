/** Runs that show that the hazards are real: each avoids nothing but one of them. */
module Hazards {
  import opened Common
  import opened Runtime
  import opened Registries
  import opened LoaderSteps
  import opened Plugins
  import opened Lifetime
  import opened Agreement
  import opened Safety
  import opened Runs

  const PLUGIN := Info("P", {}, map[ENABLE_PLUGIN_FROM_THIS := 0], {})
  const NAMESAKE := Info("P", {"alias"}, map[], {})
  const CATALOG: Catalog := map["a" := {PLUGIN}, "b" := {NAMESAKE}]
  const CODE := Dynamic(0, 0)

  /** Block 0 is the library, block 1 the Info and block 2 the instance of the plugin. */
  const TABLES := LoaderTables(Tables(map[], map["P" := PLUGIN]), map[0 := 0], map[0 := {"P"}])

  const LOADED := System(
    Heap(map[0 := Mapping("a", 0, 1, {0})], map[], 1,
         map[0 := Block(Library(CODE, 0), 1, {LoaderLib(0, "P")}), 1 := Block(InfoPayload(CODE, PLUGIN), 1, {LoaderInfo(0, "P")})],
         2, map[LoaderInfo(0, "P") := 1, LoaderLib(0, "P") := 0], false),
    map[0 := TABLES], 1, map[], map[], [], false)

  const INSTANTIATED := System(
    Heap(map[0 := Mapping("a", 0, 1, {0})], map[], 1,
         map[0 := Block(Library(CODE, 0), 2, {LoaderLib(0, "P"), InstanceLib(2)}),
             1 := Block(InfoPayload(CODE, PLUGIN), 2, {LoaderInfo(0, "P"), WrapperInfo(0)}),
             2 := Block(InstancePayload(CODE, PLUGIN), 1, {WrapperInstance(0)})],
         3, map[LoaderInfo(0, "P") := 1, LoaderLib(0, "P") := 0, WrapperInfo(0) := 1, WrapperInstance(0) := 2, InstanceLib(2) := 0], false),
    map[0 := TABLES], 1, map[FromThis(2) := Weak(Some(2), Some(1))], map[], [], false)

  lemma Extend(c: Catalog, steps: seq<Step>, step: Step)
    requires Possible(c, INITIAL, steps) && Enabled(c, Run(c, INITIAL, steps), step)
    ensures Possible(c, INITIAL, steps + [step])
    ensures Run(c, INITIAL, steps + [step]) == Next(c, Run(c, INITIAL, steps), step)
  {
    hide Enabled, Next;
    ExtendFrom(c, INITIAL, steps, step);
  }

  lemma {:induction false} ExtendFrom(c: Catalog, s: System, steps: seq<Step>, step: Step)
    requires Possible(c, s, steps) && Enabled(c, Run(c, s, steps), step)
    ensures Possible(c, s, steps + [step]) && Run(c, s, steps + [step]) == Next(c, Run(c, s, steps), step)
    decreases |steps|
  {
    hide Enabled, Next;
    if steps == [] {
      assert Possible(c, Next(c, s, step), []) && Run(c, Next(c, s, step), []) == Next(c, s, step);
      assert ([] + [step])[1..] == [];
    } else {
      ExtendFrom(c, Next(c, s, steps[0]), steps[1..], step);
      assert (steps + [step])[1..] == steps[1..] + [step];
    }
  }

  const LOADING := [NewLoader, LoadLib(0, "a", 0, [PLUGIN])]
  const INSTANTIATING := LOADING + [Instantiate(0, "P", 0)]

  const OPENED := Heap(map[0 := Mapping("a", 0, 1, {0})], map[], 1, map[0 := Block(Library(CODE, 0), 1, {LocalLib})], 1,
                       map[LocalLib := 0], false)

  const FILLED := Heap(map[0 := Mapping("a", 0, 1, {0})], map[], 1,
                       map[0 := Block(Library(CODE, 0), 2, {LocalLib, LoaderLib(0, "P")}),
                           1 := Block(InfoPayload(CODE, PLUGIN), 1, {LoaderInfo(0, "P")})],
                       2, map[LocalLib := 0, LoaderInfo(0, "P") := 1, LoaderLib(0, "P") := 0], false)

  lemma OpenedIs()
    ensures OpenLib(EMPTY_HEAP, 0, map[], "a", 0) == OPENED
  {
  }

  lemma FilledIs()
    ensures AddPlugins(OPENED, 0, EMPTY_TABLES, [PLUGIN], 0, CODE) == FILLED
  {
    var h := OPENED;
    var h1 := StoreInfo(h, 0, false, PLUGIN, CODE);
    assert {LocalLib} + {LoaderLib(0, "P")} == {LocalLib, LoaderLib(0, "P")};
    assert AssignLib(h1, 0, "P", 0) == FILLED;
    assert AddPlugin(h, 0, false, PLUGIN, 0, CODE) == FILLED;
    assert [PLUGIN][1..] == [];
  }

  lemma LocalGone()
    ensures DropLib(Touch(FILLED, CODE), LocalLib) == LOADED.heap
  {
    assert {LocalLib, LoaderLib(0, "P")} - {LocalLib} == {LoaderLib(0, "P")};
    assert Touch(FILLED, CODE) == FILLED;
    var h := DropLib(FILLED, LocalLib);
    assert h.slots == LOADED.heap.slots;
    assert h.blocks[0] == LOADED.heap.blocks[0];
    assert h.blocks == LOADED.heap.blocks;
  }

  lemma LoadedHeapIs()
    ensures LoadedHeap(EMPTY_HEAP, 0, EMPTY_LOADER, "a", 0, [PLUGIN]) == LOADED.heap
  {
    hide OpenLib, AddPlugins, DropLib, Touch;
    OpenedIs();
    FilledIs();
    LocalGone();
  }

  lemma LoadedTablesIs()
    ensures LoadedTables(EMPTY_HEAP, EMPTY_LOADER, 0, [PLUGIN]) == TABLES
  {
    assert [PLUGIN][1..] == [];
    assert Added(EMPTY_TABLES, PLUGIN) == TABLES.registry;
    assert AddedAll(EMPTY_TABLES, [PLUGIN]) == TABLES.registry;
    assert NamesOf([PLUGIN]) == {"P"};
  }

  lemma CreatedIs()
    ensures Created(LOADED.heap, 0, 1, 0) == INSTANTIATED.heap
  {
    assert {LoaderInfo(0, "P")} + {WrapperInfo(0)} == {LoaderInfo(0, "P"), WrapperInfo(0)};
    assert {LoaderLib(0, "P")} + {InstanceLib(2)} == {LoaderLib(0, "P"), InstanceLib(2)};
    var h1 := Touch(Share(LOADED.heap, WrapperInfo(0), 1), CODE);
    assert h1.blocks == map[0 := Block(Library(CODE, 0), 1, {LoaderLib(0, "P")}),
                            1 := Block(InfoPayload(CODE, PLUGIN), 2, {LoaderInfo(0, "P"), WrapperInfo(0)})];
    var h2 := MakeInstance(h1, WrapperInstance(0), CODE, PLUGIN, 0);
    assert h2.blocks == INSTANTIATED.heap.blocks;
    assert h2.slots == INSTANTIATED.heap.slots;
    assert Touch(h2, CODE) == h2;
  }

  lemma Loading()
    ensures Possible(CATALOG, INITIAL, LOADING) && Run(CATALOG, INITIAL, LOADING) == LOADED
  {
    hide LoadedHeap, LoadedTables;
    assert Possible(CATALOG, INITIAL, []) && Run(CATALOG, INITIAL, []) == INITIAL;
    Extend(CATALOG, [], NewLoader);
    var s := Run(CATALOG, INITIAL, [NewLoader]);
    assert [] + [NewLoader] == [NewLoader];
    LoadedHeapIs();
    LoadedTablesIs();
    Extend(CATALOG, [NewLoader], LoadLib(0, "a", 0, [PLUGIN]));
    assert [NewLoader] + [LoadLib(0, "a", 0, [PLUGIN])] == LOADING;
    assert Next(CATALOG, s, LoadLib(0, "a", 0, [PLUGIN])) == LOADED;
  }

  lemma InstantiatedNow()
    ensures Instantiated(LOADED, 0, "P", 0) == INSTANTIATED && Lookup(TABLES.registry, "P") == "P"
  {
    hide Created;
    CreatedIs();
  }

  lemma Instantiating()
    ensures Possible(CATALOG, INITIAL, INSTANTIATING) && Run(CATALOG, INITIAL, INSTANTIATING) == INSTANTIATED
  {
    Loading();
    hide Possible, Run;
    InstantiatedNow();
    hide Instantiated;
    Extend(CATALOG, LOADING, Instantiate(0, "P", 0));
  }

  // ---------------------------------------------------------------- clearing the last wrapper

  const DESTROY := DestroyLoader(0, ["P"], ["P"])
  const ORPHANING := INSTANTIATING + [DESTROY]

  /** Giving back one of two references. */
  lemma DropOne(h: Heap, slot: Slot, other: Slot)
    requires Held(h, slot) && slot != other
    requires h.blocks[h.slots[slot]].strong == 2 && h.blocks[h.slots[slot]].owners == {slot, other}
    ensures var id := h.slots[slot];
            var h' := h.(slots := h.slots - {slot}, blocks := h.blocks[id := Block(h.blocks[id].payload, 1, {other})]);
            DropLib(h, slot) == DropInfo(h, slot) == h'
  {
    hide CloseLib, Touch;
    assert {slot, other} - {slot} == {other};
  }

  const UNINFORMED := INSTANTIATED.heap.(
    blocks := INSTANTIATED.heap.blocks[1 := Block(InfoPayload(CODE, PLUGIN), 1, {WrapperInfo(0)})],
    slots := INSTANTIATED.heap.slots - {LoaderInfo(0, "P")})

  lemma UninformedIs()
    ensures DropInfo(INSTANTIATED.heap, LoaderInfo(0, "P")) == UNINFORMED
  {
    assert {LoaderInfo(0, "P"), WrapperInfo(0)} - {LoaderInfo(0, "P")} == {WrapperInfo(0)};
  }

  /** The Loader is gone: the wrapper alone keeps the Info, and its instance the library. */
  const ORPHANED := System(
    Heap(map[0 := Mapping("a", 0, 1, {0})], map[], 1,
         map[0 := Block(Library(CODE, 0), 1, {InstanceLib(2)}),
             1 := Block(InfoPayload(CODE, PLUGIN), 1, {WrapperInfo(0)}),
             2 := Block(InstancePayload(CODE, PLUGIN), 1, {WrapperInstance(0)})],
         3, map[WrapperInfo(0) := 1, WrapperInstance(0) := 2, InstanceLib(2) := 0], false),
    map[], 1, map[FromThis(2) := Weak(Some(2), Some(1))], map[], [], false)

  lemma OrphanedBlocks()
    ensures UNINFORMED.blocks[0 := Block(Library(CODE, 0), 1, {InstanceLib(2)})] == ORPHANED.heap.blocks
  {
  }

  lemma OrphanedSlots()
    ensures UNINFORMED.slots - {LoaderLib(0, "P")} == ORPHANED.heap.slots
  {
  }

  lemma UnlinkedIs()
    ensures DropLib(UNINFORMED, LoaderLib(0, "P")) == ORPHANED.heap
  {
    DropOne(UNINFORMED, LoaderLib(0, "P"), InstanceLib(2));
    hide DropLib, DropInfo;
    OrphanedBlocks();
    OrphanedSlots();
  }

  lemma OrphanedIs()
    ensures DropLibs(DropInfos(INSTANTIATED.heap, 0, ["P"]), 0, ["P"]) == ORPHANED.heap
  {
    hide DropInfo, DropLib;
    UninformedIs();
    UnlinkedIs();
    assert ["P"][1..] == [];
    assert DropInfos(INSTANTIATED.heap, 0, ["P"]) == UNINFORMED;
  }

  lemma Orphaning()
    ensures Possible(CATALOG, INITIAL, ORPHANING) && Run(CATALOG, INITIAL, ORPHANING) == ORPHANED
  {
    hide DropLibs, DropInfos;
    Instantiating();
    hide Possible, Run;
    OrphanedIs();
    assert INSTANTIATED.loaders - {0} == map[];
    Extend(CATALOG, INSTANTIATING, DESTROY);
  }

  lemma OrphanCleared()
    ensures Cleared(ORPHANED.heap, 0).fault
  {
    var h := ORPHANED.heap;
    var h1 := DropInstance(h, WrapperInstance(0));
    assert h1.os == map[];
  }

  /** `Clear` on the last wrapper destroys the Info after its library was closed. */
  lemma ClearRunsDeadCode()
    ensures var steps := ORPHANING + [ClearWrapper(0)];
            Possible(CATALOG, INITIAL, steps) && Run(CATALOG, INITIAL, steps).heap.fault
  {
    hide Cleared;
    Orphaning();
    hide Possible, Run;
    OrphanCleared();
    Extend(CATALOG, ORPHANING, ClearWrapper(0));
  }

  // ---------------------------------------------------------------- cleaning up during a plain delete

  const PRODUCED := System(
    Heap(map[0 := Mapping("a", 0, 1, {0})], map[], 1,
         map[0 := Block(Library(CODE, 0), 1, {InstanceLib(2)}), 1 := Block(InfoPayload(CODE, PLUGIN), 1, {WrapperInfo(0)}),
             2 := Block(InstancePayload(CODE, PLUGIN), 2, {WrapperInstance(0), Product(0)})],
         3, map[WrapperInfo(0) := 1, WrapperInstance(0) := 2, InstanceLib(2) := 0, Product(0) := 2], false),
    map[], 1, map[FromThis(2) := Weak(Some(2), Some(1))], map[0 := Made(Alive, CODE, 2)], [], false)

  const ALONE := PRODUCED.(heap := Heap(map[0 := Mapping("a", 0, 1, {0})], map[], 1,
         map[0 := Block(Library(CODE, 0), 1, {InstanceLib(2)}), 2 := Block(InstancePayload(CODE, PLUGIN), 1, {Product(0)})],
         3, map[InstanceLib(2) := 0, Product(0) := 2], false))

  const PUSHED := System(
    Heap(map[0 := Mapping("a", 0, 1, {0})], map[], 1,
         map[0 := Block(Library(CODE, 0), 1, {InstanceLib(2)}), 2 := Block(InstancePayload(CODE, PLUGIN), 2, {Product(0), Lost(0)})],
         3, map[InstanceLib(2) := 0, Product(0) := 2, Lost(0) := 2], false),
    map[], 1, map[FromThis(2) := Weak(Some(2), Some(1))], map[0 := Made(Pushed, CODE, 2)], [0], false)

  const RELEASED := System(
    Heap(map[0 := Mapping("a", 0, 1, {0})], map[], 1,
         map[0 := Block(Library(CODE, 0), 1, {InstanceLib(2)}), 2 := Block(InstancePayload(CODE, PLUGIN), 1, {Lost(0)})],
         3, map[InstanceLib(2) := 0, Lost(0) := 2], false),
    map[], 1, map[FromThis(2) := Weak(Some(2), Some(1))], map[0 := Made(Released, CODE, 2)], [0], false)

  lemma ProducedIs()
    ensures Constructed(ORPHANED, WrapperInstance(0), 0) == PRODUCED
  {
    assert {WrapperInstance(0)} + {Product(0)} == {WrapperInstance(0), Product(0)};
    var h1 := Touch(ORPHANED.heap, CODE);
    assert h1 == ORPHANED.heap;
    var h2 := Share(h1, Product(0), 2);
    assert h2.blocks == PRODUCED.heap.blocks;
    assert h2.slots == PRODUCED.heap.slots;
  }

  lemma AloneIs()
    ensures Destroyed(PRODUCED.heap, 0) == ALONE.heap
  {
    assert {WrapperInstance(0), Product(0)} - {WrapperInstance(0)} == {Product(0)};
    var h1 := DropInfo(PRODUCED.heap, WrapperInfo(0));
    InfoGone();
    hide DropInfo;
    var h2 := DropInstance(h1, WrapperInstance(0));
    assert h2.blocks == ALONE.heap.blocks;
    assert h2.slots == ALONE.heap.slots;
  }

  lemma InfoGone()
    ensures DropInfo(PRODUCED.heap, WrapperInfo(0)) ==
            PRODUCED.heap.(blocks := PRODUCED.heap.blocks - {1}, slots := PRODUCED.heap.slots - {WrapperInfo(0)})
  {
  }

  lemma PushedIs()
    ensures CopySlot(Touch(ALONE.heap, CODE), Lost(0), Product(0)) == PUSHED.heap
  {
    assert {Product(0)} + {Lost(0)} == {Product(0), Lost(0)};
    var h1 := Touch(ALONE.heap, CODE);
    assert h1 == ALONE.heap;
    var h2 := CopySlot(h1, Lost(0), Product(0));
    assert h2.blocks == PUSHED.heap.blocks;
    assert h2.slots == PUSHED.heap.slots;
  }

  lemma ReleasedIs()
    ensures DropInstance(PUSHED.heap, Product(0)) == RELEASED.heap
  {
    assert {Product(0), Lost(0)} - {Product(0)} == {Lost(0)};
    var h := DropInstance(PUSHED.heap, Product(0));
    assert h.blocks == RELEASED.heap.blocks;
    assert h.slots == RELEASED.heap.slots;
  }

  lemma CleanedUp()
    ensures !Loaded(DropLost(RELEASED.heap, [0]), CODE)
  {
    var h := DropInstance(RELEASED.heap, Lost(0));
    assert h.os == map[];
    assert [0][1..] == [];
  }

  const PRODUCING := ORPHANING + [Construct(WrapperInstance(0), 0)]
  const LEAVING := PRODUCING + [DestroyWrapper(0)]
  const DELETING := LEAVING + [BeginPlainDelete(0)]
  const RELEASING := DELETING + [ReleaseMember(0)]
  const CLEANING := RELEASING + [CleanupLostProducts]

  lemma Producing()
    ensures Possible(CATALOG, INITIAL, PRODUCING) && Run(CATALOG, INITIAL, PRODUCING) == PRODUCED
  {
    hide Constructed;
    Orphaning();
    hide Possible, Run;
    ProducedIs();
    Extend(CATALOG, ORPHANING, Construct(WrapperInstance(0), 0));
  }

  lemma Leaving()
    ensures Possible(CATALOG, INITIAL, LEAVING) && Run(CATALOG, INITIAL, LEAVING) == ALONE
  {
    hide Destroyed;
    Producing();
    hide Possible, Run;
    AloneIs();
    Extend(CATALOG, PRODUCING, DestroyWrapper(0));
  }

  lemma Deleting()
    ensures Possible(CATALOG, INITIAL, DELETING) && Run(CATALOG, INITIAL, DELETING) == PUSHED
  {
    hide CopySlot, Touch;
    Leaving();
    hide Possible, Run;
    PushedIs();
    Extend(CATALOG, LEAVING, BeginPlainDelete(0));
    assert [] + [0] == [0];
  }

  lemma Releasing()
    ensures Possible(CATALOG, INITIAL, RELEASING) && Run(CATALOG, INITIAL, RELEASING) == RELEASED
  {
    hide DropInstance;
    Deleting();
    hide Possible, Run;
    ReleasedIs();
    Extend(CATALOG, DELETING, ReleaseMember(0));
  }

  lemma Cleaning()
    ensures Possible(CATALOG, INITIAL, CLEANING)
    ensures var s := Run(CATALOG, INITIAL, CLEANING);
            !Loaded(s.heap, CODE) && s.products == map[0 := Made(Released, CODE, 2)]
  {
    hide DropLost;
    Releasing();
    hide Possible, Run;
    CleanedUp();
    Extend(CATALOG, RELEASING, CleanupLostProducts);
  }

  /** `CleanupLostProducts` during a plain `delete` lets the library go that the destructor is in. */
  lemma CleanupRunsDeadCode()
    ensures var steps := CLEANING + [LeaveDestructor(0)];
            Possible(CATALOG, INITIAL, steps) && Run(CATALOG, INITIAL, steps).heap.fault
  {
    Cleaning();
    hide Possible, Run;
    Extend(CATALOG, CLEANING, LeaveDestructor(0));
  }

  // ---------------------------------------------------------------- two libraries with one name

  const CLASHING := LOADING + [LoadLib(0, "b", 1, [NAMESAKE])]

  /** The name has the Info of the first library and the handle of the second. */
  const MIXED := Heap(map[1 := Mapping("b", 1, 1, {2})], map[], 2,
                      map[1 := Block(InfoPayload(CODE, PLUGIN), 1, {LoaderInfo(0, "P")}),
                          2 := Block(Library(Dynamic(1, 1), 0), 1, {LoaderLib(0, "P")})],
                      3, map[LoaderInfo(0, "P") := 1, LoaderLib(0, "P") := 2], false)

  const BOTH := Heap(map[0 := Mapping("a", 0, 1, {0}), 1 := Mapping("b", 1, 1, {2})], map[], 2,
                     map[0 := Block(Library(CODE, 0), 1, {LoaderLib(0, "P")}), 1 := Block(InfoPayload(CODE, PLUGIN), 1, {LoaderInfo(0, "P")}),
                         2 := Block(Library(Dynamic(1, 1), 0), 1, {LocalLib})],
                     3, map[LoaderInfo(0, "P") := 1, LoaderLib(0, "P") := 0, LocalLib := 2], false)

  const TAKEN := Heap(map[1 := Mapping("b", 1, 1, {2})], map[], 2,
                      map[1 := Block(InfoPayload(CODE, PLUGIN), 1, {LoaderInfo(0, "P")}),
                          2 := Block(Library(Dynamic(1, 1), 0), 2, {LocalLib, LoaderLib(0, "P")})],
                      3, map[LoaderInfo(0, "P") := 1, LoaderLib(0, "P") := 2, LocalLib := 2], false)

  lemma BothIs()
    ensures OpenLib(LOADED.heap, 0, TABLES.handlePtrs, "b", 1) == BOTH
  {
    var h := OpenLib(LOADED.heap, 0, TABLES.handlePtrs, "b", 1);
    assert h.os == BOTH.os;
    assert h.blocks == BOTH.blocks;
    assert h.slots == BOTH.slots;
  }

  const CLOSED := BOTH.(os := map[1 := Mapping("b", 1, 1, {2})], blocks := BOTH.blocks - {0}, slots := BOTH.slots - {LoaderLib(0, "P")})

  lemma ClosedIs()
    ensures DropLib(BOTH, LoaderLib(0, "P")) == CLOSED
  {
    assert DropLib(BOTH, LoaderLib(0, "P")).os == CLOSED.os;
  }

  lemma ReassignedIs()
    ensures Share(CLOSED, LoaderLib(0, "P"), 2) == TAKEN
  {
    ReassignedBlocks();
    assert Share(CLOSED, LoaderLib(0, "P"), 2).slots == TAKEN.slots;
  }

  lemma ReassignedBlocks()
    ensures 2 in CLOSED.blocks && Share(CLOSED, LoaderLib(0, "P"), 2).blocks == TAKEN.blocks
  {
    assert {LocalLib} + {LoaderLib(0, "P")} == {LocalLib, LoaderLib(0, "P")};
  }

  lemma TakenIs()
    ensures AddPlugins(BOTH, 0, TABLES.registry, [NAMESAKE], 2, Dynamic(1, 1)) == TAKEN
  {
    hide DropLib, Share;
    assert Touch(BOTH, Dynamic(1, 1)) == BOTH;
    ClosedIs();
    ReassignedIs();
    assert AddPlugin(BOTH, 0, true, NAMESAKE, 2, Dynamic(1, 1)) == TAKEN;
    assert [NAMESAKE][1..] == [];
  }

  lemma MixedIs()
    ensures DropLib(Touch(TAKEN, Dynamic(1, 1)), LocalLib) == MIXED
  {
    assert {LocalLib, LoaderLib(0, "P")} - {LocalLib} == {LoaderLib(0, "P")};
    assert Touch(TAKEN, Dynamic(1, 1)) == TAKEN;
    var h := DropLib(TAKEN, LocalLib);
    assert h.blocks == MIXED.blocks;
    assert h.slots == MIXED.slots;
  }

  lemma MixedLoaded()
    ensures LoadedHeap(LOADED.heap, 0, TABLES, "b", 1, [NAMESAKE]) == MIXED
  {
    hide OpenLib, AddPlugins, DropLib, Touch;
    BothIs();
    TakenIs();
    MixedIs();
  }

  lemma MixedDestroyed()
    ensures DropLibs(DropInfos(MIXED, 0, ["P"]), 0, ["P"]).fault
  {
    var h := DropInfo(MIXED, LoaderInfo(0, "P"));
    assert h.fault;
    assert ["P"][1..] == [];
    assert DropInfos(MIXED, 0, ["P"]) == h;
  }

  /** After a name clash the Loader destroys an Info whose library it has closed. */
  lemma ClashRunsDeadCode()
    ensures var steps := CLASHING + [DESTROY];
            Possible(CATALOG, INITIAL, steps) && Run(CATALOG, INITIAL, steps).heap.fault
  {
    hide LoadedHeap, DropLibs, DropInfos;
    Loading();
    hide Possible, Run;
    MixedLoaded();
    Extend(CATALOG, LOADING, LoadLib(0, "b", 1, [NAMESAKE]));
    assert Run(CATALOG, INITIAL, CLASHING).heap == MIXED;
    MixedDestroyed();
    var t := Run(CATALOG, INITIAL, CLASHING).loaders[0];
    assert t.registry.plugins.Keys == {"P"} by { OnlyP(); }
    Extend(CATALOG, CLASHING, DESTROY);
  }

  lemma OnlyP()
    ensures LoadedTables(LOADED.heap, TABLES, 1, [NAMESAKE]).registry.plugins.Keys == {"P"}
  {
    assert [NAMESAKE][1..] == [];
    assert AddedAll(TABLES.registry, [NAMESAKE]) == Added(TABLES.registry, NAMESAKE);
  }

  // ---------------------------------------------------------------- an instance tied to the wrong library

  const HOLDING := LOADING + [ExternalOpen("a", 0)]
  const MISTAKING := HOLDING + [LoadLib(0, "b", 1, [NAMESAKE])]
  const MISTYING := MISTAKING + [Instantiate(0, "P", 0)]
  const RELINQUISHING := MISTYING + [ExternalClose(0)]

  /** The same heaps, with the first library held open by the application. */
  const A_AND_B: map<Handle, Mapping> := map[0 := Mapping("a", 0, 1, {}), 1 := Mapping("b", 1, 1, {2})]
  const HELD_LOADED := LOADED.heap.(os := map[0 := Mapping("a", 0, 2, {0})], external := map[0 := 1])
  const HELD_BOTH := BOTH.(os := map[0 := Mapping("a", 0, 2, {0}), 1 := Mapping("b", 1, 1, {2})], external := map[0 := 1])
  const HELD_CLOSED := CLOSED.(os := A_AND_B, external := map[0 := 1])
  const HELD_TAKEN := TAKEN.(os := A_AND_B, external := map[0 := 1])
  const HELD_MIXED := MIXED.(os := A_AND_B, external := map[0 := 1])

  /** Block 3 is an instance of the first library with a reference to the second. */
  const MISTIED := Heap(A_AND_B, map[0 := 1], 2,
                        map[1 := Block(InfoPayload(CODE, PLUGIN), 2, {LoaderInfo(0, "P"), WrapperInfo(0)}),
                            2 := Block(Library(Dynamic(1, 1), 0), 2, {LoaderLib(0, "P"), InstanceLib(3)}),
                            3 := Block(InstancePayload(CODE, PLUGIN), 1, {WrapperInstance(0)})],
                        4, map[LoaderInfo(0, "P") := 1, LoaderLib(0, "P") := 2, WrapperInfo(0) := 1, WrapperInstance(0) := 3,
                               InstanceLib(3) := 2], false)

  const LEFT := MISTIED.(os := map[1 := Mapping("b", 1, 1, {2})], external := map[0 := 0])

  lemma HeldOpens()
    ensures ExternallyOpened(LOADED.heap, "a", 0) == HELD_LOADED
    ensures OpenLib(HELD_LOADED, 0, TABLES.handlePtrs, "b", 1) == HELD_BOTH
  {
    assert ExternallyOpened(LOADED.heap, "a", 0).os == HELD_LOADED.os;
    var h := OpenLib(HELD_LOADED, 0, TABLES.handlePtrs, "b", 1);
    assert h.os == HELD_BOTH.os;
    assert h.blocks == HELD_BOTH.blocks;
    assert h.slots == HELD_BOTH.slots;
  }

  lemma HeldCloses()
    ensures DropLib(HELD_BOTH, LoaderLib(0, "P")) == HELD_CLOSED
  {
    assert {0} - {0} == {};
    var h := DropLib(HELD_BOTH, LoaderLib(0, "P"));
    assert h.os == HELD_CLOSED.os;
    assert h.blocks == HELD_CLOSED.blocks;
  }

  lemma HeldReassigns()
    ensures Share(HELD_CLOSED, LoaderLib(0, "P"), 2) == HELD_TAKEN
  {
    ReassignedIs();
    assert Share(HELD_CLOSED, LoaderLib(0, "P"), 2).blocks == Share(CLOSED, LoaderLib(0, "P"), 2).blocks;
  }

  lemma HeldTakes()
    ensures AddPlugins(HELD_BOTH, 0, TABLES.registry, [NAMESAKE], 2, Dynamic(1, 1)) == HELD_TAKEN
  {
    hide DropLib, Share;
    assert Touch(HELD_BOTH, Dynamic(1, 1)) == HELD_BOTH;
    HeldCloses();
    HeldReassigns();
    assert AddPlugin(HELD_BOTH, 0, true, NAMESAKE, 2, Dynamic(1, 1)) == HELD_TAKEN;
    assert [NAMESAKE][1..] == [];
  }

  lemma HeldMixes()
    ensures DropLib(Touch(HELD_TAKEN, Dynamic(1, 1)), LocalLib) == HELD_MIXED
  {
    assert {LocalLib, LoaderLib(0, "P")} - {LocalLib} == {LoaderLib(0, "P")};
    assert Touch(HELD_TAKEN, Dynamic(1, 1)) == HELD_TAKEN;
    var h := DropLib(HELD_TAKEN, LocalLib);
    assert h.blocks == HELD_MIXED.blocks;
    assert h.slots == HELD_MIXED.slots;
  }

  lemma HeldLoaded()
    ensures LoadedHeap(HELD_LOADED, 0, TABLES, "b", 1, [NAMESAKE]) == HELD_MIXED
  {
    hide OpenLib, AddPlugins, DropLib, Touch;
    HeldOpens();
    HeldTakes();
    HeldMixes();
  }

  lemma MistiedIs()
    ensures Created(HELD_MIXED, 0, 1, 2) == MISTIED
  {
    assert {LoaderInfo(0, "P")} + {WrapperInfo(0)} == {LoaderInfo(0, "P"), WrapperInfo(0)};
    assert {LoaderLib(0, "P")} + {InstanceLib(3)} == {LoaderLib(0, "P"), InstanceLib(3)};
    var h1 := Touch(Share(HELD_MIXED, WrapperInfo(0), 1), CODE);
    assert !h1.fault;
    var h2 := MakeInstance(h1, WrapperInstance(0), CODE, PLUGIN, 2);
    assert h2.blocks == MISTIED.blocks;
    assert h2.slots == MISTIED.slots;
    assert Touch(h2, CODE) == h2;
  }

  lemma LeftIs()
    ensures ExternallyClosed(MISTIED, 0) == LEFT
  {
    assert ExternallyClosed(MISTIED, 0).os == LEFT.os;
  }

  lemma Mistaking()
    ensures Possible(CATALOG, INITIAL, MISTAKING)
    ensures var s := Run(CATALOG, INITIAL, MISTAKING);
            s.heap == HELD_MIXED && 0 in s.loaders && s.loaders[0].registry.plugins.Keys == {"P"}
  {
    hide LoadedHeap, ExternallyOpened;
    Loading();
    hide Possible, Run;
    HeldOpens();
    Extend(CATALOG, LOADING, ExternalOpen("a", 0));
    HeldLoaded();
    HeldAnswers();
    hide MayOpen;
    Extend(CATALOG, HOLDING, LoadLib(0, "b", 1, [NAMESAKE]));
    OnlyPHeld();
  }

  lemma HeldAnswers()
    ensures MayOpen(HELD_LOADED, "b", 1) && "b" in CATALOG && forall i :: i in [NAMESAKE] <==> i in CATALOG["b"]
  {
  }

  lemma OnlyPHeld()
    ensures LoadedTables(HELD_LOADED, TABLES, 1, [NAMESAKE]).registry.plugins.Keys == {"P"}
  {
    assert [NAMESAKE][1..] == [];
    assert AddedAll(TABLES.registry, [NAMESAKE]) == Added(TABLES.registry, NAMESAKE);
  }

  lemma Mistied(s: System)
    requires s.heap == HELD_MIXED && 0 in s.loaders && s.loaders[0].registry.plugins.Keys == {"P"}
    ensures Enabled(CATALOG, s, Instantiate(0, "P", 0)) && Next(CATALOG, s, Instantiate(0, "P", 0)).heap == MISTIED
  {
    MixedHolds();
    MistiedIs();
    assert Lookup(s.loaders[0].registry, "P") == "P" != "";
    assert Fresh(HELD_MIXED, 0);
    hide Created, Introduced, Held, PayloadAt, Lookup, Fresh;
  }

  lemma MixedHolds()
    ensures var h := HELD_MIXED;
            && Held(h, LoaderInfo(0, "P")) && h.slots[LoaderInfo(0, "P")] == 1 && PayloadAt(h, LoaderInfo(0, "P")).InfoPayload?
            && Held(h, LoaderLib(0, "P")) && h.slots[LoaderLib(0, "P")] == 2
  {
  }

  lemma Mistying()
    ensures Possible(CATALOG, INITIAL, MISTYING) && Run(CATALOG, INITIAL, MISTYING).heap == MISTIED
  {
    Mistaking();
    hide Possible, Run, Enabled, Next;
    Mistied(Run(CATALOG, INITIAL, MISTAKING));
    Extend(CATALOG, MISTAKING, Instantiate(0, "P", 0));
  }

  lemma Relinquishing()
    ensures Possible(CATALOG, INITIAL, RELINQUISHING) && Run(CATALOG, INITIAL, RELINQUISHING).heap == LEFT
  {
    hide ExternallyClosed;
    Mistying();
    hide Possible, Run;
    LeftIs();
    Extend(CATALOG, MISTYING, ExternalClose(0));
  }

  /** After a name clash an instance does not keep its own library open: once the application has
      closed that, calling the instance runs code that is gone, and nothing was wrong until then. */
  lemma CallRunsDeadCode()
    ensures var steps := RELINQUISHING + [Call(WrapperInstance(0))];
            && Possible(CATALOG, INITIAL, RELINQUISHING) && !Run(CATALOG, INITIAL, RELINQUISHING).heap.fault
            && Possible(CATALOG, INITIAL, steps) && Run(CATALOG, INITIAL, steps).heap.fault
  {
    Relinquishing();
    hide Possible, Run;
    Extend(CATALOG, RELINQUISHING, Call(WrapperInstance(0)));
  }

  // ---------------------------------------------------------------- locking a half-dead plugin

  const OBSERVING := INSTANTIATING + [Observe(0, 0)]
  const WRECKING := OBSERVING + [DestroyWrapper(0)]
  const LOCKING := WRECKING + [LockWeak(User(0), 1)]
  const STRANDING := LOCKING + [DESTROY]

  const HALF := Heap(map[0 := Mapping("a", 0, 1, {0})], map[], 1,
         map[0 := Block(Library(CODE, 0), 1, {LoaderLib(0, "P")}),
             1 := Block(InfoPayload(CODE, PLUGIN), 2, {LoaderInfo(0, "P"), WrapperInfo(1)})],
         3, map[LoaderInfo(0, "P") := 1, LoaderLib(0, "P") := 0, WrapperInfo(1) := 1], false)

  const STRANDED := Heap(map[], map[], 1, map[1 := Block(InfoPayload(CODE, PLUGIN), 1, {WrapperInfo(1)})],
                         3, map[WrapperInfo(1) := 1], false)

  const UNWRAPPED := INSTANTIATED.heap.(
    blocks := INSTANTIATED.heap.blocks[1 := Block(InfoPayload(CODE, PLUGIN), 1, {LoaderInfo(0, "P")})],
    slots := INSTANTIATED.heap.slots - {WrapperInfo(0)})

  lemma UnwrappedIs()
    ensures DropInfo(INSTANTIATED.heap, WrapperInfo(0)) == UNWRAPPED
  {
    assert {LoaderInfo(0, "P"), WrapperInfo(0)} - {WrapperInfo(0)} == {LoaderInfo(0, "P")};
  }

  const ENDED := UNWRAPPED.(blocks := UNWRAPPED.blocks - {2}, slots := UNWRAPPED.slots - {WrapperInstance(0)})

  lemma EndedIs()
    ensures Touch(Unref(UNWRAPPED, WrapperInstance(0)), CODE) == ENDED
  {
  }

  const WRECKED := Heap(map[0 := Mapping("a", 0, 1, {0})], map[], 1,
         map[0 := Block(Library(CODE, 0), 1, {LoaderLib(0, "P")}), 1 := Block(InfoPayload(CODE, PLUGIN), 1, {LoaderInfo(0, "P")})],
         3, map[LoaderInfo(0, "P") := 1, LoaderLib(0, "P") := 0], false)

  lemma WreckedBlocks()
    ensures ENDED.blocks[0 := Block(Library(CODE, 0), 1, {LoaderLib(0, "P")})] == WRECKED.blocks
  {
  }

  lemma WreckedSlots()
    ensures ENDED.slots - {InstanceLib(2)} == WRECKED.slots
  {
  }

  lemma LibraryKept()
    ensures DropLib(ENDED, InstanceLib(2)) == WRECKED
  {
    assert {LoaderLib(0, "P"), InstanceLib(2)} == {InstanceLib(2), LoaderLib(0, "P")};
    DropOne(ENDED, InstanceLib(2), LoaderLib(0, "P"));
    hide DropLib, DropInfo;
    WreckedBlocks();
    WreckedSlots();
  }

  lemma WreckedIs()
    ensures Destroyed(INSTANTIATED.heap, 0) == WRECKED
  {
    hide DropInfo, DropLib, Touch, Unref;
    UnwrappedIs();
    EndedIs();
    LibraryKept();
  }

  lemma HalfIs()
    ensures Locked(WRECKED, 1, Some(2), Some(1)) == HALF
  {
    assert {LoaderInfo(0, "P")} + {WrapperInfo(1)} == {LoaderInfo(0, "P"), WrapperInfo(1)};
    var h := Locked(WRECKED, 1, Some(2), Some(1));
    assert h.blocks == HALF.blocks;
    assert h.slots == HALF.slots;
  }

  lemma StrandedIs()
    ensures DropLibs(DropInfos(HALF, 0, ["P"]), 0, ["P"]) == STRANDED
  {
    assert {LoaderInfo(0, "P"), WrapperInfo(1)} - {LoaderInfo(0, "P")} == {WrapperInfo(1)};
    assert ["P"][1..] == [];
    var h1 := DropInfo(HALF, LoaderInfo(0, "P"));
    assert h1.blocks == HALF.blocks[1 := Block(InfoPayload(CODE, PLUGIN), 1, {WrapperInfo(1)})];
    var h2 := DropLib(h1, LoaderLib(0, "P"));
    assert h2.blocks == STRANDED.blocks && h2.slots == STRANDED.slots && h2.os == map[];
  }

  lemma Wrecking()
    ensures Possible(CATALOG, INITIAL, WRECKING)
    ensures var s := Run(CATALOG, INITIAL, WRECKING);
            s.heap == WRECKED && s.loaders == map[0 := TABLES] && User(0) in s.weaks && s.weaks[User(0)] == Weak(Some(2), Some(1))
  {
    hide Destroyed;
    Instantiating();
    hide Possible, Run;
    Extend(CATALOG, INSTANTIATING, Observe(0, 0));
    WreckedIs();
    Extend(CATALOG, OBSERVING, DestroyWrapper(0));
  }

  lemma Locking()
    ensures Possible(CATALOG, INITIAL, LOCKING) && Run(CATALOG, INITIAL, LOCKING).heap == HALF
    ensures Run(CATALOG, INITIAL, LOCKING).loaders == map[0 := TABLES]
  {
    hide Locked;
    Wrecking();
    hide Possible, Run;
    HalfIs();
    Extend(CATALOG, WRECKING, LockWeak(User(0), 1));
  }

  /** `Lock` after the instance died gives a wrapper whose Info nothing keeps loaded. */
  lemma LockRunsDeadCode()
    ensures var steps := STRANDING + [DestroyWrapper(1)];
            Possible(CATALOG, INITIAL, steps) && Run(CATALOG, INITIAL, steps).heap.fault
  {
    hide DropLibs, DropInfos;
    Locking();
    hide Possible, Run;
    StrandedIs();
    Extend(CATALOG, LOCKING, DESTROY);
    Extend(CATALOG, STRANDING, DestroyWrapper(1));
    assert DropInfo(STRANDED, WrapperInfo(1)).fault;
  }

  // ---------------------------------------------------------------- a factory whose Info is dead

  const USING := INSTANTIATING + [GetInterface(0, ENABLE_PLUGIN_FROM_THIS, 0)]
  const FORGETTING := USING + [ForgetLibrary(0, 0, ["P"])]
  const KEEPING := FORGETTING + [DestroyWrapper(0)]

  const SHARED := Heap(map[0 := Mapping("a", 0, 1, {0})], map[], 1,
         map[0 := Block(Library(CODE, 0), 2, {LoaderLib(0, "P"), InstanceLib(2)}),
             1 := Block(InfoPayload(CODE, PLUGIN), 2, {LoaderInfo(0, "P"), WrapperInfo(0)}),
             2 := Block(InstancePayload(CODE, PLUGIN), 2, {WrapperInstance(0), Interface(0)})],
         3, map[LoaderInfo(0, "P") := 1, LoaderLib(0, "P") := 0, WrapperInfo(0) := 1, WrapperInstance(0) := 2, InstanceLib(2) := 0,
                Interface(0) := 2], false)

  lemma SharedIs()
    ensures GotInterface(INSTANTIATED.heap, 0, ENABLE_PLUGIN_FROM_THIS, 0) == SHARED
  {
    assert {WrapperInstance(0)} + {Interface(0)} == {WrapperInstance(0), Interface(0)};
    var h := GotInterface(INSTANTIATED.heap, 0, ENABLE_PLUGIN_FROM_THIS, 0);
    assert h.blocks == SHARED.blocks;
    assert h.slots == SHARED.slots;
  }

  const UNKNOWN := SHARED.(
    blocks := SHARED.blocks[1 := Block(InfoPayload(CODE, PLUGIN), 1, {WrapperInfo(0)})],
    slots := SHARED.slots - {LoaderInfo(0, "P")})

  lemma UnknownIs()
    ensures DropInfo(SHARED, LoaderInfo(0, "P")) == UNKNOWN
  {
    assert {LoaderInfo(0, "P"), WrapperInfo(0)} - {LoaderInfo(0, "P")} == {WrapperInfo(0)};
  }

  const FORGOTTEN := Heap(map[0 := Mapping("a", 0, 1, {0})], map[], 1,
         map[0 := Block(Library(CODE, 0), 1, {InstanceLib(2)}), 1 := Block(InfoPayload(CODE, PLUGIN), 1, {WrapperInfo(0)}),
             2 := Block(InstancePayload(CODE, PLUGIN), 2, {WrapperInstance(0), Interface(0)})],
         3, map[WrapperInfo(0) := 1, WrapperInstance(0) := 2, InstanceLib(2) := 0, Interface(0) := 2], false)

  lemma ForgottenBlocks()
    ensures UNKNOWN.blocks[0 := Block(Library(CODE, 0), 1, {InstanceLib(2)})] == FORGOTTEN.blocks
  {
  }

  lemma ForgottenSlots()
    ensures UNKNOWN.slots - {LoaderLib(0, "P")} == FORGOTTEN.slots
  {
  }

  lemma HandedOver()
    ensures DropLib(UNKNOWN, LoaderLib(0, "P")) == FORGOTTEN
  {
    DropOne(UNKNOWN, LoaderLib(0, "P"), InstanceLib(2));
    hide DropLib, DropInfo;
    ForgottenBlocks();
    ForgottenSlots();
  }

  lemma ForgottenIs()
    ensures ForgetPlugins(SHARED, 0, ["P"]) == FORGOTTEN
  {
    hide DropInfo, DropLib;
    UnknownIs();
    HandedOver();
    assert ["P"][1..] == [];
  }

  lemma KeptAlive()
    ensures var h := Destroyed(FORGOTTEN, 0);
            Held(h, Interface(0)) && h.slots[Interface(0)] == 2 && PayloadAt(h, Interface(0)).InstancePayload? && 1 !in h.blocks
  {
    var h1 := DropInfo(FORGOTTEN, WrapperInfo(0));
    assert 1 !in h1.blocks && h1.blocks[2] == FORGOTTEN.blocks[2];
  }

  lemma Forgetting()
    ensures Possible(CATALOG, INITIAL, FORGETTING)
    ensures var s := Run(CATALOG, INITIAL, FORGETTING); s.heap == FORGOTTEN && s.weaks == INSTANTIATED.weaks && s.products == map[]
  {
    hide GotInterface, ForgetPlugins;
    Instantiating();
    hide Possible, Run;
    SharedIs();
    Extend(CATALOG, INSTANTIATING, GetInterface(0, ENABLE_PLUGIN_FROM_THIS, 0));
    ForgottenIs();
    Extend(CATALOG, USING, ForgetLibrary(0, 0, ["P"]));
  }

  lemma Keeping()
    ensures Possible(CATALOG, INITIAL, KEEPING)
    ensures var s := Run(CATALOG, INITIAL, KEEPING);
            && Held(s.heap, Interface(0)) && s.heap.slots[Interface(0)] == 2 && PayloadAt(s.heap, Interface(0)).InstancePayload?
            && 1 !in s.heap.blocks && s.weaks == INSTANTIATED.weaks && s.products == map[]
  {
    hide Destroyed;
    Forgetting();
    hide Possible, Run;
    KeptAlive();
    Extend(CATALOG, FORGETTING, DestroyWrapper(0));
  }

  /** An interface pointer keeps the instance but not the Info: the factory does not find the
      pointer to itself and takes the branch that "should never happen". */
  lemma ConstructTakesImpossibleBranch()
    ensures var steps := KEEPING + [Construct(Interface(0), 0)];
            Possible(CATALOG, INITIAL, steps) && Run(CATALOG, INITIAL, steps).broken
  {
    Keeping();
    hide Possible, Run;
    Extend(CATALOG, KEEPING, Construct(Interface(0), 0));
  }
}
