/** Whole runs of a program, in any order of steps. */
module Runs {
  import opened Common
  import opened Runtime
  import opened Registries
  import opened LoaderSteps
  import opened Plugins
  import opened Lifetime
  import opened Products
  import opened Agreement
  import opened Steps
  import opened Order
  import opened Safety

  /** Each step is enabled when its turn comes. */
  ghost predicate Possible(c: Catalog, s: System, steps: seq<Step>)
    decreases |steps|
  {
    steps == [] || (Enabled(c, s, steps[0]) && Possible(c, Next(c, s, steps[0]), steps[1..]))
  }

  ghost function Run(c: Catalog, s: System, steps: seq<Step>): System
    requires Possible(c, s, steps)
    decreases |steps|
  {
    if steps == [] then s else Run(c, Next(c, s, steps[0]), steps[1..])
  }

  /** No step is hazardous when its turn comes. */
  ghost predicate Careful(c: Catalog, s: System, steps: seq<Step>)
    requires Possible(c, s, steps)
    decreases |steps|
  {
    steps == [] || (!Hazard(s, steps[0]) && Careful(c, Next(c, s, steps[0]), steps[1..]))
  }

  ghost predicate AlwaysGood(c: Catalog, s: System, steps: seq<Step>)
    requires Possible(c, s, steps)
    decreases |steps|
  {
    Good(c, s) && (steps == [] || AlwaysGood(c, Next(c, s, steps[0]), steps[1..]))
  }

  lemma InitialGood(c: Catalog)
    ensures Good(c, INITIAL) && Base(INITIAL)
  {
    var h := EMPTY_HEAP;
    assert WellFormed(h) && Tied(h);
    hide WellFormed;
    assert forall w :: WrapperAgrees(h, w);
    assert forall p :: ProductOk(h, p, map[]) && LostOk(h, p, map[], []);
    assert LoadersBase(h, map[], 0);
  }

  // ---------------------------------------------------------------- safety

  /** Every state of a run is safe if and only if no step of it is hazardous. */
  lemma {:induction false} SafeRuns(c: Catalog, s: System, steps: seq<Step>)
    requires WellNamed(c) && Good(c, s) && Possible(c, s, steps)
    ensures AlwaysGood(c, s, steps) <==> Careful(c, s, steps)
    decreases |steps|
  {
    hide WellNamed, Good, Hazard, Enabled, Next;
    if steps == [] {
    } else {
      SafeStep(c, s, steps[0]);
      if !Hazard(s, steps[0]) {
        SafeRuns(c, Next(c, s, steps[0]), steps[1..]);
      } else {
        NotGood(c, Next(c, s, steps[0]), steps[1..]);
      }
    }
  }

  lemma NotGood(c: Catalog, s: System, steps: seq<Step>)
    requires Possible(c, s, steps) && !Good(c, s)
    ensures !AlwaysGood(c, s, steps)
  {
  }

  lemma {:induction false} EndsGood(c: Catalog, s: System, steps: seq<Step>)
    requires Possible(c, s, steps) && AlwaysGood(c, s, steps)
    ensures Good(c, Run(c, s, steps))
    decreases |steps|
  {
    hide Good, Enabled, Next;
    if steps == [] {
    } else {
      EndsGood(c, Next(c, s, steps[0]), steps[1..]);
    }
  }

  /** A program that avoids the hazards never calls, casts or destroys anything whose library is
      not loaded, and never takes a branch marked "should not be possible". */
  lemma SafeProgram(c: Catalog, steps: seq<Step>)
    requires WellNamed(c) && Possible(c, INITIAL, steps) && Careful(c, INITIAL, steps)
    ensures !Run(c, INITIAL, steps).heap.fault && !Run(c, INITIAL, steps).broken
  {
    hide WellNamed, Possible, Run, Careful, AlwaysGood, Orderly;
    InitialGood(c);
    SafeRuns(c, INITIAL, steps);
    EndsGood(c, INITIAL, steps);
  }

  // ---------------------------------------------------------------- agreement

  /** With disjoint libraries the tables of all Loaders agree in every run, hazardous or not. */
  lemma {:induction false} OrderlyRun(c: Catalog, s: System, steps: seq<Step>)
    requires WellNamed(c) && Disjoint(c) && Orderly(c, s) && Possible(c, s, steps)
    ensures Orderly(c, Run(c, s, steps))
    decreases |steps|
  {
    hide WellNamed, Disjoint, Orderly, Clashes, Enabled, Next;
    if steps == [] {
    } else {
      DisjointNeverClashes(c, s, steps[0]);
      OrderlyStep(c, s, steps[0]);
      OrderlyRun(c, Next(c, s, steps[0]), steps[1..]);
    }
  }

  lemma OrderlyProgram(c: Catalog, steps: seq<Step>)
    requires WellNamed(c) && Disjoint(c) && Possible(c, INITIAL, steps)
    ensures Orderly(c, Run(c, INITIAL, steps))
  {
    hide WellNamed, Disjoint, Possible, Run, Orderly;
    InitialGood(c);
    OrderlyRun(c, INITIAL, steps);
  }

  /** `Instantiate` finds the factory and the library of whatever `LookupPlugin` resolves. */
  lemma InstantiateSucceeds(c: Catalog, steps: seq<Step>, l: nat, nameOrAlias: string, w: nat)
    requires WellNamed(c) && Disjoint(c) && Possible(c, INITIAL, steps)
    requires var s := Run(c, INITIAL, steps); Enabled(c, s, Instantiate(l, nameOrAlias, w))
    ensures var s := Run(c, INITIAL, steps); var s' := Next(c, s, Instantiate(l, nameOrAlias, w));
            && s'.broken == s.broken && s'.heap.fault == s.heap.fault
            && Held(s'.heap, WrapperInstance(w)) && Held(s'.heap, WrapperInfo(w))
            && PayloadAt(s'.heap, WrapperInfo(w)).InfoPayload?
            && Lookup(s.loaders[l].registry, nameOrAlias) in s.loaders[l].registry.plugins
            && PayloadAt(s'.heap, WrapperInfo(w)).info == s.loaders[l].registry.plugins[Lookup(s.loaders[l].registry, nameOrAlias)]
            && PayloadAt(s'.heap, WrapperInfo(w)).info.name == Lookup(s.loaders[l].registry, nameOrAlias)
            && Loaded(s'.heap, PayloadAt(s'.heap, WrapperInstance(w)).code)
  {
    hide WellNamed, Disjoint, Possible, Run, Orderly, Lookup;
    OrderlyProgram(c, steps);
    var s := Run(c, INITIAL, steps);
    InstantiatedIs(c, s, l, nameOrAlias, w);
  }

  lemma InstantiatedIs(c: Catalog, s: System, l: nat, nameOrAlias: string, w: nat)
    requires Orderly(c, s) && l in s.loaders && Fresh(s.heap, w) && Lookup(s.loaders[l].registry, nameOrAlias) != ""
    ensures var s' := Instantiated(s, l, nameOrAlias, w); var n := Lookup(s.loaders[l].registry, nameOrAlias);
            && s'.broken == s.broken && s'.heap.fault == s.heap.fault
            && Held(s'.heap, WrapperInstance(w)) && Held(s'.heap, WrapperInfo(w))
            && PayloadAt(s'.heap, WrapperInfo(w)).InfoPayload?
            && n in s.loaders[l].registry.plugins
            && PayloadAt(s'.heap, WrapperInfo(w)).info == s.loaders[l].registry.plugins[n]
            && s.loaders[l].registry.plugins[n].name == n
            && Loaded(s'.heap, PayloadAt(s'.heap, WrapperInstance(w)).code)
  {
    hide Base, Frame, Lookup, Orderly, WellFormed, Created, Introduced, PinnedName, Loaded, Tied;
    var h, n := s.heap, Lookup(s.loaders[l].registry, nameOrAlias);
    OrderlyPinned(c, s, l, n);
    Instantiable(c, s, l, nameOrAlias);
    BaseHeap(s);
    KindAt(h, LoaderLib(l, n));
    OnePinned(h, l, n);
    var info := h.slots[LoaderInfo(l, n)];
    CreatedFrame(h, w, info, h.slots[LoaderLib(l, n)]);
    var h' := Created(h, w, info, h.slots[LoaderLib(l, n)]);
    FrameHeap(h, h', CreatedSlots(h, w));
    HeldIsIn(h', WrapperInfo(w));
    SamePayload(h, h', info);
    InstanceLoaded(h', h'.slots[WrapperInstance(w)]);
    assert LoaderBase(h, l, s.loaders[l]);
    KnownName(h, l, s.loaders[l], n);
  }

  lemma KnownName(h: Heap, l: nat, t: LoaderTables, n: string)
    requires LoaderBase(h, l, t) && n in t.registry.plugins
    ensures t.registry.plugins[n].name == n
  {
    hide PtrTable, PtrsComplete, Linked;
  }

  // ---------------------------------------------------------------- conservation

  lemma {:induction false} BaseRun(c: Catalog, s: System, steps: seq<Step>)
    requires WellNamed(c) && Base(s) && Possible(c, s, steps)
    ensures Base(Run(c, s, steps))
    decreases |steps|
  {
    hide WellNamed, Base, Enabled, Next;
    if steps == [] {
    } else {
      BaseStep(c, s, steps[0]);
      BaseRun(c, Next(c, s, steps[0]), steps[1..]);
    }
  }

  lemma BaseProgram(c: Catalog, steps: seq<Step>)
    requires WellNamed(c) && Possible(c, INITIAL, steps)
    ensures Base(Run(c, INITIAL, steps))
  {
    hide WellNamed, Possible, Run, Base, Orderly;
    InitialGood(c);
    BaseRun(c, INITIAL, steps);
  }

  /** The live control blocks that keep a handle open. */
  function LibraryBlocks(h: Heap, k: Handle): set<Id> {
    set id | id in h.blocks && IsLibraryAt(h.blocks[id], k)
  }

  function OsCount(h: Heap, k: Handle): nat {
    if k in h.os then h.os[k].count else 0
  }

  /** Who holds a block. */
  function Holders(h: Heap, id: Id): set<Slot> {
    set sl | sl in h.slots && h.slots[sl] == id
  }

  /** In every reachable state each `dlopen` is owed to one live control block or to the
      application; each block counts its holders; and a Loader has at most one block per handle. */
  lemma Conserved(s: System)
    requires Base(s)
    ensures forall k :: OsCount(s.heap, k) == External(s.heap, k) + |LibraryBlocks(s.heap, k)|
    ensures forall id | id in s.heap.blocks :: s.heap.blocks[id].strong == |Holders(s.heap, id)| > 0
    ensures UniqueLibs(s.heap)
  {
    hide WellFormed, WrappersAgree, WeaksOk, ProductsOk, LoaderBase;
    BaseHeap(s);
    CountsConserved(s.heap);
    HoldersCounted(s.heap);
  }

  lemma CountsConserved(h: Heap)
    requires WellFormed(h)
    ensures forall k :: OsCount(h, k) == External(h, k) + |LibraryBlocks(h, k)|
  {
    hide SlotsHeld, BlocksOwned, MappedOnce, InstancesAnchored;
    forall k
      ensures OsCount(h, k) == External(h, k) + |LibraryBlocks(h, k)|
    {
      if k in h.os {
        assert LibraryBlocks(h, k) == h.os[k].users;
      } else {
        assert LibraryBlocks(h, k) == {};
        assert External(h, k) == 0;
      }
    }
  }

  lemma HoldersCounted(h: Heap)
    requires WellFormed(h)
    ensures forall id | id in h.blocks :: h.blocks[id].strong == |Holders(h, id)| > 0
  {
    hide MappedOnce, InstancesAnchored, Balanced, LibrariesMapped;
    forall id | id in h.blocks
      ensures h.blocks[id].strong == |Holders(h, id)| > 0
    {
      assert Holders(h, id) == h.blocks[id].owners;
    }
  }

  /** So it is in every run, also after hazards and after name clashes. */
  lemma ConservedProgram(c: Catalog, steps: seq<Step>)
    requires WellNamed(c) && Possible(c, INITIAL, steps)
    ensures var s := Run(c, INITIAL, steps);
            && (forall k :: OsCount(s.heap, k) == External(s.heap, k) + |LibraryBlocks(s.heap, k)|)
            && (forall id | id in s.heap.blocks :: s.heap.blocks[id].strong == |Holders(s.heap, id)| > 0)
            && UniqueLibs(s.heap)
  {
    hide WellNamed, Possible, Run, Base, UniqueLibs;
    BaseProgram(c, steps);
    Conserved(Run(c, INITIAL, steps));
  }

  // ---------------------------------------------------------------- nothing leaks

  /** A Loader remembers a plugin from the library at `k`. */
  predicate RememberedAt(h: Heap, l: nat, n: string, k: Handle) {
    Held(h, LoaderLib(l, n)) && IsLibraryAt(h.blocks[h.slots[LoaderLib(l, n)]], k)
  }

  /** Somebody holds an instance that has a reference to the library at `k`. */
  predicate InUseAt(h: Heap, sl: Slot, k: Handle) {
    && (sl.WrapperInstance? || sl.Interface? || sl.Product? || sl.Lost?)
    && Held(h, sl) && Held(h, InstanceLib(h.slots[sl])) && IsLibraryAt(h.blocks[h.slots[InstanceLib(h.slots[sl])]], k)
  }

  /** Somebody holds an instance whose code is in the library at `k`. */
  predicate RunsAt(h: Heap, sl: Slot, k: Handle) {
    && (sl.WrapperInstance? || sl.Interface? || sl.Product? || sl.Lost?)
    && Held(h, sl) && PayloadAt(h, sl).code.Dynamic? && PayloadAt(h, sl).code.handle == k
  }

  /** While the tables agree, an instance uses the library that its own code is in. */
  lemma UsesOwnLibrary(c: Catalog, s: System, sl: Slot, k: Handle)
    requires Orderly(c, s)
    ensures InUseAt(s.heap, sl, k) <==> RunsAt(s.heap, sl, k)
  {
    hide Agrees, LoadersBase, WrappersAgree, WeaksOk, ProductsOk, WellFormed;
    var h := s.heap;
    KindAt(h, sl);
    if Held(h, sl) {
      assert TiedAt(h, h.slots[sl]);
      OwnLibrary(h, h.slots[sl]);
    }
  }

  lemma OwnLibrary(h: Heap, i: Id)
    requires WellFormed(h) && i in h.blocks
    ensures Held(h, InstanceLib(i)) ==> PayloadAt(h, InstanceLib(i)).Library? && PayloadAt(h, InstanceLib(i)).code.Dynamic?
    ensures h.blocks[i].payload.InstancePayload? && h.blocks[i].payload.code.Dynamic? ==> Held(h, InstanceLib(i))
  {
    hide Balanced, MappedOnce, BlocksOwned;
    assert AnchoredAt(h, i) || !(h.blocks[i].payload.InstancePayload? && h.blocks[i].payload.code.Dynamic?);
  }

  /** A library is open exactly as long as the application, a Loader or an instance needs it. */
  lemma OpenWhileNeeded(s: System, k: Handle)
    requires Base(s)
    ensures k in s.heap.os <==>
            || External(s.heap, k) > 0
            || (exists l, n :: RememberedAt(s.heap, l, n, k))
            || (exists sl :: InUseAt(s.heap, sl, k))
  {
    hide LoadersBase, WrappersAgree, WeaksOk, ProductsOk, WellFormed;
    var h := s.heap;
    if k in h.os && External(h, k) == 0 {
      SomeUser(h, k);
      var id :| id in h.blocks && IsLibraryAt(h.blocks[id], k);
      NeededBy(s, k, id);
    }
    if l, n :| RememberedAt(h, l, n, k) {
      StaysOpen(h, k, h.slots[LoaderLib(l, n)]);
    }
    if sl :| InUseAt(h, sl, k) {
      StaysOpen(h, k, h.slots[InstanceLib(h.slots[sl])]);
    }
    if External(h, k) > 0 {
      ExternalOpen(h, k);
    }
  }

  lemma SomeUser(h: Heap, k: Handle)
    requires WellFormed(h) && k in h.os && External(h, k) == 0
    ensures exists id :: id in h.blocks && IsLibraryAt(h.blocks[id], k)
  {
    hide SlotsHeld, BlocksOwned, MappedOnce, InstancesAnchored;
    var id :| id in h.os[k].users;
  }

  lemma ExternalOpen(h: Heap, k: Handle)
    requires WellFormed(h) && External(h, k) > 0
    ensures k in h.os
  {
  }

  lemma StaysOpen(h: Heap, k: Handle, id: Id)
    requires WellFormed(h) && id in h.blocks && IsLibraryAt(h.blocks[id], k)
    ensures k in h.os
  {
  }

  lemma SomeHolder(h: Heap, id: Id)
    requires WellFormed(h) && id in h.blocks
    ensures exists sl :: sl in h.slots && h.slots[sl] == id && RightKind(sl, h.blocks[id].payload)
  {
    hide MappedOnce, InstancesAnchored, Balanced, LibrariesMapped;
    var sl :| sl in h.blocks[id].owners;
  }

  lemma NeededBy(s: System, k: Handle, id: Id)
    requires Base(s) && id in s.heap.blocks && IsLibraryAt(s.heap.blocks[id], k)
    ensures (exists l, n :: RememberedAt(s.heap, l, n, k)) || (exists sl :: InUseAt(s.heap, sl, k))
  {
    hide LoadersBase, WrappersAgree, WeaksOk, ProductsOk, WellFormed;
    var h := s.heap;
    SomeHolder(h, id);
    var sl :| sl in h.slots && h.slots[sl] == id && RightKind(sl, h.blocks[id].payload);
    if sl.LoaderLib? {
      assert RememberedAt(h, sl.loader, sl.name, k);
    } else {
      var i := sl.instance;
      Anchor(h, i);
      SomeHolder(h, i);
      var holder :| holder in h.slots && h.slots[holder] == i && RightKind(holder, h.blocks[i].payload);
      assert InUseAt(h, holder, k);
    }
  }

  lemma Anchor(h: Heap, i: Id)
    requires WellFormed(h) && InstanceLib(i) in h.slots
    ensures i in h.blocks && h.blocks[i].payload.InstancePayload? && Held(h, InstanceLib(i))
  {
    hide Balanced, MappedOnce, LibrariesMapped, BlocksOwned;
  }

  lemma OpenWhileNeededProgram(c: Catalog, steps: seq<Step>, k: Handle)
    requires WellNamed(c) && Possible(c, INITIAL, steps)
    ensures var h := Run(c, INITIAL, steps).heap;
            k in h.os <==> External(h, k) > 0 || (exists l, n :: RememberedAt(h, l, n, k)) || (exists sl :: InUseAt(h, sl, k))
  {
    hide WellNamed, Possible, Run, Base, RememberedAt, InUseAt;
    BaseProgram(c, steps);
    OpenWhileNeeded(Run(c, INITIAL, steps), k);
  }

  /** The program has no Loader, wrapper, interface pointer, product or lost product any more. */
  ghost predicate LetGo(s: System) {
    s.loaders == map[]
    && forall sl | sl in s.heap.slots :: !(sl.WrapperInstance? || sl.WrapperInfo? || sl.Interface? || sl.Product? || sl.Lost?)
  }

  /** When the program has let go of everything, `dlopen` and `dlclose` are back in balance. */
  lemma NothingLeaks(s: System)
    requires Base(s) && LetGo(s)
    ensures s.heap.blocks == map[] && (forall k :: OsCount(s.heap, k) == External(s.heap, k))
  {
    hide WrappersAgree, WeaksOk, ProductsOk, WellFormed;
    var h := s.heap;
    forall sl | sl in h.slots
      ensures false
    {
      if sl.InstanceLib? {
        Anchor(h, sl.instance);
        SomeHolder(h, sl.instance);
      }
    }
    if id :| id in h.blocks {
      SomeHolder(h, id);
    }
    Conserved(s);
    assert forall k :: LibraryBlocks(h, k) == {};
  }

  /** Whatever the program did before. */
  lemma NothingLeaksProgram(c: Catalog, steps: seq<Step>)
    requires WellNamed(c) && Possible(c, INITIAL, steps) && LetGo(Run(c, INITIAL, steps))
    ensures var h := Run(c, INITIAL, steps).heap; h.blocks == map[] && (forall k :: OsCount(h, k) == External(h, k))
  {
    hide WellNamed, Possible, Run, Base, LetGo;
    BaseProgram(c, steps);
    NothingLeaks(Run(c, INITIAL, steps));
  }
}
