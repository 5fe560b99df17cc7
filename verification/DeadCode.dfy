/** Which library code each step of a program runs, and that it is a fault exactly when that code is
    not mapped: in every reachable state, also after name clashes and other hazards. */
module DeadCode {
  import opened Common
  import opened Runtime
  import opened Registries
  import opened LoaderSteps
  import opened Plugins
  import opened Lifetime
  import opened Products
  import opened Agreement
  import opened Steps
  import opened Order
  import opened Safety
  import opened Runs
  import opened WeakReferences
  import opened Effects

  // ---------------------------------------------------------------- what is not mapped is gone for good

  /** A mapping that is gone never comes back: not at the same handle, and not for the same file. */
  lemma GoneStep(c: Catalog, s: System, step: Step, code: Code)
    requires WellNamed(c) && Base(s) && Enabled(c, s, step)
    requires code.Dynamic? && code.image < s.heap.images && !Loaded(s.heap, code)
    ensures !Loaded(Next(c, s, step).heap, code) && code.image < Next(c, s, step).heap.images
  {
    hide WellNamed, Base, Enabled, Next;
    StepEvolves(c, s, step);
  }

  lemma {:induction false} GoneForGood(c: Catalog, s: System, steps: seq<Step>, code: Code)
    requires WellNamed(c) && Base(s) && Possible(c, s, steps)
    requires code.Dynamic? && code.image < s.heap.images && !Loaded(s.heap, code)
    ensures !Loaded(Run(c, s, steps).heap, code)
    decreases |steps|
  {
    hide WellNamed, Base, Enabled, Next, Loaded;
    if steps == [] {
    } else {
      GoneStep(c, s, steps[0], code);
      BaseStep(c, s, steps[0]);
      GoneForGood(c, Next(c, s, steps[0]), steps[1..], code);
    }
  }

  // ---------------------------------------------------------------- what a reset runs

  /** Resetting the last reference to an object runs code that is not mapped. */
  predicate LastIsDead(h: Heap, slot: Slot) {
    Last(h, slot) && !Loaded(h, PayloadAt(h, slot).code)
  }

  /** Resetting the instance in `slot` gives back the last reference to a library that is mapped where
      `c` is, and nobody else has that open. */
  predicate Closes(h: Heap, slot: Slot, c: Code) {
    && Last(h, slot) && Last(h, InstanceLib(h.slots[slot]))
    && var lib := PayloadAt(h, InstanceLib(h.slots[slot])).code;
       lib.Dynamic? && c.Dynamic? && lib.handle == c.handle && lib.handle in h.os && h.os[lib.handle].count <= 1
  }

  lemma LoadedAfterDrop(h: Heap, slot: Slot, c: Code)
    requires WellFormed(h) && (slot in h.slots ==> PayloadAt(h, slot).InstancePayload?)
    ensures Loaded(DropInstance(h, slot), c) <==> Loaded(h, c) && !Closes(h, slot, c)
  {
    hide MappedOnce, BlocksOwned, Balanced, LibrariesMapped, DropLib, InstancesAnchored;
    if Last(h, slot) {
      var id := h.slots[slot];
      var h1 := Touch(Unref(h, slot), PayloadAt(h, slot).code);
      assert Last(h1, InstanceLib(id)) == Last(h, InstanceLib(id)) by { AnchorElsewhere(h, slot); }
      if Loaded(h, c) {
        assert Loaded(h1, c) by { SameOs(h, h1, c); }
        DropLibLoaded(h1, InstanceLib(id), c);
      } else {
        DropLibNever(h1, InstanceLib(id), c);
      }
    } else {
      SameOs(h, DropInstance(h, slot), c);
    }
  }

  lemma AnchorElsewhere(h: Heap, slot: Slot)
    requires WellFormed(h) && Held(h, slot) && PayloadAt(h, slot).InstancePayload?
    ensures !slot.InstanceLib?
    ensures Held(h, InstanceLib(h.slots[slot])) ==>
              PayloadAt(h, InstanceLib(h.slots[slot])).Library? && h.slots[InstanceLib(h.slots[slot])] != h.slots[slot]
    ensures InstanceLib(h.slots[slot]) in h.slots ==> Held(h, InstanceLib(h.slots[slot]))
  {
    hide Balanced, MappedOnce, LibrariesMapped, BlocksOwned;
  }

  lemma DropLibNever(h: Heap, slot: Slot, c: Code)
    requires !Loaded(h, c)
    ensures !Loaded(DropLib(h, slot), c)
  {
  }

  lemma DropInstanceFaults(h: Heap, slot: Slot)
    requires WellFormed(h) && (slot.WrapperInstance? || slot.Interface? || slot.Product?)
    ensures DropInstance(h, slot).fault <==> h.fault || LastIsDead(h, slot)
  {
    hide WellFormed, Evolves, Keeps;
    KindAt(h, slot);
    DropInstanceFacts(h, slot);
  }

  /** `Clear`: the instance is destroyed first, and may take the library of the Info away. */
  predicate ClearIsDead(h: Heap, w: nat) {
    || LastIsDead(h, WrapperInstance(w))
    || (Last(h, WrapperInfo(w))
        && (!Loaded(h, PayloadAt(h, WrapperInfo(w)).code) || Closes(h, WrapperInstance(w), PayloadAt(h, WrapperInfo(w)).code)))
  }

  lemma ClearFaultsExactly(h: Heap, w: nat)
    requires WellFormed(h)
    ensures Cleared(h, w).fault <==> h.fault || ClearIsDead(h, w)
  {
    hide WellFormed, Evolves, Keeps, Loaded, Closes;
    var i, j := WrapperInstance(w), WrapperInfo(w);
    KindAt(h, i);
    KindAt(h, j);
    DropInstanceFacts(h, i);
    var h1 := DropInstance(h, i);
    if j in h.slots {
      DropInstanceOthers(h, i, j);
      LoadedAfterDrop(h, i, PayloadAt(h, j).code);
    }
    hide DropInstance;
    KindAt(h1, j);
    DropInfoFacts(h1, j);
    HeldIsIn(h, j);
  }

  /** The destructor: the Info first, and it takes nothing away. */
  predicate DestroyIsDead(h: Heap, w: nat) {
    LastIsDead(h, WrapperInfo(w)) || LastIsDead(h, WrapperInstance(w))
  }

  lemma DestroyFaultsExactly(h: Heap, w: nat)
    requires WellFormed(h)
    ensures Destroyed(h, w).fault <==> h.fault || DestroyIsDead(h, w)
  {
    hide WellFormed, Evolves, Keeps, Loaded;
    var i, j := WrapperInstance(w), WrapperInfo(w);
    KindAt(h, j);
    KindAt(h, i);
    DropInfoFacts(h, j);
    var h1 := DropInfo(h, j);
    InfoLeaves(h, j, i);
    hide DropInfo;
    KindAt(h1, i);
    DropInstanceFacts(h1, i);
    HeldIsIn(h, i);
  }

  /** Resetting an Info changes nothing about an instance or a mapping. */
  lemma InfoLeaves(h: Heap, slot: Slot, other: Slot)
    requires WellFormed(h) && slot.WrapperInfo? && other.WrapperInstance?
    ensures var h' := DropInfo(h, slot);
            && h'.os == h.os && Held(h', other) == Held(h, other) && Last(h', other) == Last(h, other)
            && (Held(h, other) ==> PayloadAt(h', other) == PayloadAt(h, other))
            && (forall c :: Loaded(h', c) == Loaded(h, c))
  {
    hide Balanced, MappedOnce, LibrariesMapped, BlocksOwned, InstancesAnchored;
  }

  // ---------------------------------------------------------------- references that are given back in a loop

  /** At some round the reset of a lost reference destroys a factory whose code is gone by then. */
  ghost predicate CleanupIsDead(h: Heap, lost: seq<nat>) {
    exists i :: 0 <= i < |lost| && LastIsDead(DropLost(h, lost[..i]), Lost(lost[i]))
  }

  lemma {:induction false} CleanupFaults(h: Heap, lost: seq<nat>)
    requires WellFormed(h)
    ensures DropLost(h, lost).fault <==> h.fault || CleanupIsDead(h, lost)
    decreases |lost|
  {
    hide WellFormed, LastIsDead, Frame;
    if lost != [] {
      var h1 := DropInstance(h, Lost(lost[0]));
      KindAt(h, Lost(lost[0]));
      DropInstanceFrame(h, Lost(lost[0]));
      FrameHeap(h, h1, {Lost(lost[0])});
      LastIsDeadMeans(h, Lost(lost[0]));
      hide DropInstance;
      CleanupFaults(h1, lost[1..]);
      forall i | 0 <= i < |lost|
        ensures i == 0 ==> DropLost(h, lost[..i]) == h
        ensures i > 0 ==> DropLost(h, lost[..i]) == DropLost(h1, lost[1..][..i - 1]) && lost[1..][i - 1] == lost[i]
      {
        assert i > 0 ==> lost[..i][1..] == lost[1..][..i - 1];
      }
    }
  }

  lemma LastIsDeadMeans(h: Heap, slot: Slot)
    ensures LastIsDead(h, slot) <==> Last(h, slot) && !Loaded(h, PayloadAt(h, slot).code)
  {
  }

  /** At some round the registry of a Loader destroys an Info whose code is gone by then. */
  ghost predicate InfosAreDead(h: Heap, l: nat, names: seq<string>) {
    exists i :: 0 <= i < |names| && LastIsDead(DropInfos(h, l, names[..i]), LoaderInfo(l, names[i]))
  }

  lemma {:induction false} InfosFault(h: Heap, l: nat, names: seq<string>)
    requires WellFormed(h)
    ensures DropInfos(h, l, names).fault <==> h.fault || InfosAreDead(h, l, names)
    decreases |names|
  {
    hide WellFormed, LastIsDead, Frame;
    if names != [] {
      var h1 := DropInfo(h, LoaderInfo(l, names[0]));
      KindAt(h, LoaderInfo(l, names[0]));
      DropInfoFrame(h, LoaderInfo(l, names[0]));
      FrameHeap(h, h1, {LoaderInfo(l, names[0])});
      LastIsDeadMeans(h, LoaderInfo(l, names[0]));
      hide DropInfo;
      InfosFault(h1, l, names[1..]);
      forall i | 0 <= i < |names|
        ensures i == 0 ==> DropInfos(h, l, names[..i]) == h
        ensures i > 0 ==> DropInfos(h, l, names[..i]) == DropInfos(h1, l, names[1..][..i - 1]) && names[1..][i - 1] == names[i]
      {
        assert i > 0 ==> names[..i][1..] == names[1..][..i - 1];
      }
    }
  }

  /** The same while a library is forgotten, where library references go in between. */
  ghost predicate ForgettingIsDead(h: Heap, l: nat, names: seq<string>) {
    exists i :: 0 <= i < |names| && LastIsDead(ForgetPlugins(h, l, names[..i]), LoaderInfo(l, names[i]))
  }

  lemma {:induction false} ForgettingFaults(h: Heap, l: nat, names: seq<string>)
    requires WellFormed(h)
    ensures ForgetPlugins(h, l, names).fault <==> h.fault || ForgettingIsDead(h, l, names)
    decreases |names|
  {
    hide WellFormed, LastIsDead, Frame, Evolves, NoNewLibs, PinnedName;
    if names != [] {
      var h0 := DropInfo(h, LoaderInfo(l, names[0]));
      KindAt(h, LoaderInfo(l, names[0]));
      DropInfoFrame(h, LoaderInfo(l, names[0]));
      FrameHeap(h, h0, {LoaderInfo(l, names[0])});
      LastIsDeadMeans(h, LoaderInfo(l, names[0]));
      var h1 := DropLib(h0, LoaderLib(l, names[0]));
      DropNamedLib(h0, l, names[0]);
      hide DropInfo, DropLib;
      ForgettingFaults(h1, l, names[1..]);
      forall i | 0 <= i < |names|
        ensures i == 0 ==> ForgetPlugins(h, l, names[..i]) == h
        ensures i > 0 ==> ForgetPlugins(h, l, names[..i]) == ForgetPlugins(h1, l, names[1..][..i - 1]) && names[1..][i - 1] == names[i]
      {
        assert i > 0 ==> names[..i][1..] == names[1..][..i - 1];
      }
    }
  }

  // ---------------------------------------------------------------- what a step runs

  /** The step runs code that is not mapped when it runs it. */
  ghost predicate RunsDead(s: System, step: Step) {
    var h := s.heap;
    match step
    case Instantiate(l, nameOrAlias, _) =>               // the factory and the casts
      l in s.loaders && var slot := LoaderInfo(l, Lookup(s.loaders[l].registry, nameOrAlias));
      Held(h, slot) && !Loaded(h, PayloadAt(h, slot).code)
    case CopyWrapper(to, _) => ClearIsDead(h, to)
    case ClearWrapper(w) => ClearIsDead(h, w)
    case DestroyWrapper(w) => DestroyIsDead(h, w)
    case DropInterface(k) => LastIsDead(h, Interface(k))
    case Call(slot) => Held(h, slot) && !Loaded(h, PayloadAt(h, slot).code)
    case LockWeak(name, _) =>                            // the casts
      && name in s.weaks && LivesIn(s.weaks[name].instance, h) && LivesIn(s.weaks[name].info, h)
      && !Loaded(h, h.blocks[s.weaks[name].info.value].payload.code)
    case Construct(slot, _) => Held(h, slot) && !Loaded(h, PayloadAt(h, slot).code)
    case CallProduct(p) => p in s.products && !Loaded(h, s.products[p].code)
    case DeleteProduct(p) => p in s.products && !Loaded(h, s.products[p].code)
    case BeginPlainDelete(p) => p in s.products && !Loaded(h, s.products[p].code)
    case ReleaseMember(p) => LastIsDead(h, Product(p))
    case LeaveDestructor(p) => p in s.products && !Loaded(h, s.products[p].code)
    case DestroyLoader(l, infoOrder, _) => InfosAreDead(h, l, infoOrder)
    case ForgetLibrary(l, handle, order) => l in s.loaders && handle in s.loaders[l].handlePlugins && ForgettingIsDead(h, l, order)
    case CleanupLostProducts => CleanupIsDead(h, s.lost)
    case _ => false
  }

  lemma CreatedFaultsExactly(h: Heap, w: nat, info: Id, lib: Id)
    requires WellFormed(h) && WrapperInfo(w) !in h.slots && WrapperInstance(w) !in h.slots
    requires info in h.blocks && h.blocks[info].payload.InfoPayload? && lib in h.blocks && h.blocks[lib].payload.Library?
    ensures Created(h, w, info, lib).fault <==> h.fault || !Loaded(h, h.blocks[info].payload.code)
  {
    hide WellFormed, Evolves, NoNewLibs, Changes;
    var p := h.blocks[info].payload;
    var h0 := Share(h, WrapperInfo(w), info);
    ShareFrame(h, WrapperInfo(w), info);
    var h1 := Touch(h0, p.code);
    TouchFrame(h0, p.code);
    MakeInstanceFrame(h1, WrapperInstance(w), p.code, p.info, lib);
  }

  lemma InstantiateFaults(s: System, l: nat, nameOrAlias: string, w: nat)
    requires Base(s) && l in s.loaders && Fresh(s.heap, w)
    ensures Instantiated(s, l, nameOrAlias, w).heap.fault <==> s.heap.fault || RunsDead(s, Instantiate(l, nameOrAlias, w))
  {
    hide Base, Lookup, Created, WellFormed, LoaderBase, Loaded, Introduced;
    var h, n := s.heap, Lookup(s.loaders[l].registry, nameOrAlias);
    BaseHeap(s);
    assert LoaderBase(h, l, s.loaders[l]);
    StoredPlugin(h, l, s.loaders[l], n);
    if Held(h, LoaderInfo(l, n)) {
      KindAt(h, LoaderLib(l, n));
      CreatedFaultsExactly(h, w, h.slots[LoaderInfo(l, n)], h.slots[LoaderLib(l, n)]);
    }
  }

  lemma LockFaults(s: System, name: WeakName, w: nat)
    requires Base(s) && name in s.weaks && Fresh(s.heap, w)
    ensures Locked(s.heap, w, s.weaks[name].instance, s.weaks[name].info).fault <==> s.heap.fault || RunsDead(s, LockWeak(name, w))
  {
    hide Base, WellFormed;
    BaseHeap(s);
    WeakAt(s, name);
    LockedFaults(s.heap, w, s.weaks[name].instance, s.weaks[name].info);
  }

  lemma LockedFaults(h: Heap, w: nat, instance: Option<Id>, info: Option<Id>)
    requires WellFormed(h) && WrapperInfo(w) !in h.slots && WrapperInstance(w) !in h.slots && Paired(h, instance, info)
    ensures Locked(h, w, instance, info).fault <==>
            h.fault || (LivesIn(instance, h) && LivesIn(info, h) && !Loaded(h, h.blocks[info.value].payload.code))
  {
    hide Sound, InstancesAnchored;
  }

  lemma DeleteFaults(s: System, p: nat)
    requires Base(s) && p in s.products && s.products[p].phase == Alive
    ensures DeletedHeap(s.heap, p, s.products[p].code).fault <==> s.heap.fault || !Loaded(s.heap, s.products[p].code)
  {
    hide Base, WellFormed, Evolves, NoNewLibs, Changes, Loaded, Closes;
    var h, code, a, b := s.heap, s.products[p].code, Product(p), LocalInstance;
    BaseHeap(s);
    ProductHeld(s, p);
    CopySlotFrame(h, b, a);
    var h1 := CopySlot(h, b, a);
    KindAt(h1, a);
    NotLast(h, a, b);
    DropInstanceFacts(h1, a);
    var h2 := DropInstance(h1, a);
    LoadedAfterDrop(h1, a, code);
    CopyLeavesOs(h, b, a, code);
    SecondHolder(h, h2, a, b);
    var h3 := Touch(h2, code);
    TouchFrame(h2, code);
    KindAt(h3, b);
    DropInstanceFacts(h3, b);
    SameOs(h2, h3, code);
  }

  /** An instance with two holders survives the reset of one of them. */
  lemma NotLast(h: Heap, a: Slot, b: Slot)
    requires WellFormed(h) && a in h.slots && b !in h.slots && a != b
    ensures !Last(CopySlot(h, b, a), a) && !Closes(CopySlot(h, b, a), a, PayloadAt(h, a).code)
  {
    hide Balanced, MappedOnce, LibrariesMapped, InstancesAnchored;
  }

  lemma CopyLeavesOs(h: Heap, to: Slot, from: Slot, c: Code)
    ensures Loaded(CopySlot(h, to, from), c) == Loaded(h, c) && CopySlot(h, to, from).fault == h.fault
  {
  }

  lemma SecondHolder(h: Heap, h2: Heap, a: Slot, b: Slot)
    requires WellFormed(h) && a in h.slots && b !in h.slots && a != b && PayloadAt(h, a).InstancePayload?
    requires h2 == DropInstance(CopySlot(h, b, a), a)
    ensures Held(h2, b) && PayloadAt(h2, b) == PayloadAt(h, a)
  {
    hide Balanced, MappedOnce, LibrariesMapped, InstancesAnchored, DropLib;
  }

  lemma BeginFaults(h: Heap, code: Code, to: Slot, from: Slot)
    ensures CopySlot(Touch(h, code), to, from).fault <==> h.fault || !Loaded(h, code)
  {
  }

  lemma ConstructFaults(s: System, slot: Slot, p: nat)
    requires Held(s.heap, slot) && FromThis(s.heap.slots[slot]) in s.weaks
    ensures Constructed(s, slot, p).heap.fault <==> s.heap.fault || !Loaded(s.heap, PayloadAt(s.heap, slot).code)
  {
  }

  lemma ProductFaultsExactly(c: Catalog, s: System, step: Step)
    requires Base(s) && Enabled(c, s, step) && ProductStep(step)
    ensures Next(c, s, step).heap.fault <==> s.heap.fault || RunsDead(s, step)
  {
    hide Base, WellFormed, DeletedHeap, CopySlot, DropInstance, Constructed, Loaded, CleanupIsDead, DropLost;
    BaseHeap(s);
    match step {
      case Construct(slot, p) =>
        KindAt(s.heap, slot);
        ConstructFaults(s, slot, p);
      case CleanupLostProducts => CleanupFaults(s.heap, s.lost);
      case _ => OneProductFaults(c, s, step);
    }
  }

  lemma OneProductFaults(c: Catalog, s: System, step: Step)
    requires Base(s) && Enabled(c, s, step) && ProductStep(step) && !step.Construct? && !step.CleanupLostProducts?
    ensures Next(c, s, step).heap.fault <==> s.heap.fault || RunsDead(s, step)
  {
    hide Base, WellFormed, DeletedHeap, CopySlot, DropInstance, Loaded, LastIsDead;
    BaseHeap(s);
    match step {
      case CallProduct(p) =>
      case DeleteProduct(p) => DeleteFaults(s, p);
      case BeginPlainDelete(p) => BeginFaults(s.heap, s.products[p].code, Lost(p), Product(p));
      case ReleaseMember(p) => DropInstanceFaults(s.heap, Product(p));
      case LeaveDestructor(p) =>
    }
  }

  lemma PointerFaultsExactly(c: Catalog, s: System, step: Step)
    requires Base(s) && Enabled(c, s, step) && PointerStep(step)
    ensures Next(c, s, step).heap.fault <==> s.heap.fault || RunsDead(s, step)
  {
    hide Base, WellFormed, Copied, Cleared, Destroyed, GotInterface, CopySlot, DropInstance, Loaded, ClearIsDead, DestroyIsDead, LastIsDead,
         Frame;
    BaseHeap(s);
    match step {
      case CopyWrapper(to, from) => CopiedFrame(s.heap, to, from); ClearFaultsExactly(s.heap, to);
      case ClearWrapper(w) => ClearFaultsExactly(s.heap, w);
      case DestroyWrapper(w) => DestroyFaultsExactly(s.heap, w);
      case GetInterface(w, i, k) => BaseGetInterface(s, w, i, k);
      case CopyInterface(to, from) => CopyInterfaceFrame(s, to, from);
      case DropInterface(k) => DropInstanceFaults(s.heap, Interface(k));
      case Call(slot) => KindAt(s.heap, slot); CallFaults(s.heap, slot);
    }
  }

  lemma CallFaults(h: Heap, slot: Slot)
    requires Held(h, slot)
    ensures Called(h, slot).fault <==> h.fault || !Loaded(h, PayloadAt(h, slot).code)
  {
  }

  lemma OtherFaultsExactly(c: Catalog, s: System, step: Step)
    requires WellNamed(c) && Base(s) && Enabled(c, s, step) && !ProductStep(step) && !PointerStep(step)
    ensures Next(c, s, step).heap.fault <==> s.heap.fault || RunsDead(s, step)
  {
    hide WellNamed, Base, WellFormed, Instantiated, InstantiatedStatic, Locked, ExternallyOpened, ExternallyClosed, LoadedHeap, LoadedTables,
         Lookup, Frame, Catalogue, FilledSlots, OpenedAs, Evolves, MayOpen, Loaded, InfosAreDead, ForgettingIsDead, DropLibs, DropInfos,
         ForgetPlugins, ForgottenTables, Lists, NoNewLibs, PinnedName;
    BaseHeap(s);
    match step {
      case NewLoader =>
      case DestroyLoader(l, infoOrder, libOrder) =>
        InfosFault(s.heap, l, infoOrder);
        DropInfosFacts(s.heap, l, infoOrder);
        DropLibsFacts(DropInfos(s.heap, l, infoOrder), l, libOrder);
      case ForgetLibrary(l, handle, order) => ForgettingFaults(s.heap, l, order);
      case LoadLib(l, lib, handle, infos) =>
        CatalogueOf(c, lib, infos);
        LoadFrame(s, l, lib, handle, infos);
      case Instantiate(l, n, w) => InstantiateFaults(s, l, n, w);
      case InstantiateStatic(info, w) => InstantiateStaticFrame(s, info, w);
      case Observe(_, _) =>
      case LockWeak(name, w) => LockFaults(s, name, w);
      case ExternalOpen(lib, handle) => ExternalOpenFrame(s.heap, lib, handle);
      case ExternalClose(handle) => ExternalCloseFrame(s.heap, handle);
    }
  }

  /** In every reachable state: a step faults exactly when it runs library code that is not mapped. */
  lemma FaultsExactly(c: Catalog, s: System, step: Step)
    requires WellNamed(c) && Base(s) && Enabled(c, s, step)
    ensures Next(c, s, step).heap.fault <==> s.heap.fault || RunsDead(s, step)
  {
    hide WellNamed, Base, Enabled, Next, RunsDead;
    if ProductStep(step) {
      ProductFaultsExactly(c, s, step);
    } else if PointerStep(step) {
      PointerFaultsExactly(c, s, step);
    } else {
      OtherFaultsExactly(c, s, step);
    }
  }

  /** A call on an instance, by a wrapper or an interface pointer. */
  lemma CallFaultsExactly(c: Catalog, s: System, slot: Slot)
    requires WellNamed(c) && Base(s) && Enabled(c, s, Call(slot))
    ensures Held(s.heap, slot)
    ensures Next(c, s, Call(slot)).heap.fault <==> s.heap.fault || !Loaded(s.heap, PayloadAt(s.heap, slot).code)
  {
    hide WellNamed, Base, WellFormed, Next, Loaded;
    BaseHeap(s);
    KindAt(s.heap, slot);
    FaultsExactly(c, s, Call(slot));
  }
}
