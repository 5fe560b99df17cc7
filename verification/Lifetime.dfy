/** The life of plugins and libraries in a program: any number of Loaders, wrappers, interface
    pointers, weak references and factory products, in any order of operations. */
module Lifetime {
  import opened Common
  import opened Runtime
  import opened Registries
  import opened LoaderSteps
  import opened Plugins

  // ---------------------------------------------------------------- states and steps

  datatype Weak = Weak(instance: Option<Id>, info: Option<Id>)

  /** A weak reference of a user, or the one inside an instance (EnablePluginFromThis). */
  datatype WeakName = User(reference: nat) | FromThis(instance: Id)

  /** A product of a factory: `delete` on it first hands the factory reference over (Pushed), then
      destroys the reference in the product (Released), and then leaves the destructor. */
  datatype Phase = Alive | Pushed | Released | Deleted

  datatype Made = Made(phase: Phase, code: Code, factory: Id)

  datatype System = System(heap: Heap,
                           loaders: map<nat, LoaderTables>,
                           nextLoader: nat,
                           weaks: map<WeakName, Weak>,
                           products: map<nat, Made>,
                           lost: seq<nat>,   // lostProducts, by the product each reference came from
                           broken: bool)     // a branch marked "should not be possible" was taken

  const INITIAL := System(EMPTY_HEAP, map[], 0, map[], map[], [], false)

  /** What each library file registers, by path. */
  type Catalog = map<string, set<Info>>

  const ENABLE_PLUGIN_FROM_THIS := "N2gz6plugin20EnablePluginFromThisE"

  datatype Step =
    | NewLoader
    | DestroyLoader(loader: nat, infoOrder: seq<string>, libOrder: seq<string>)
    | LoadLib(loader: nat, lib: string, handle: Handle, infos: seq<Info>)
    | ForgetLibrary(loader: nat, handle: Handle, order: seq<string>)
    | Instantiate(loader: nat, nameOrAlias: string, wrapper: nat)
    | InstantiateStatic(info: Info, wrapper: nat)
    | CopyWrapper(to: nat, from: nat)
    | ClearWrapper(wrapper: nat)
    | DestroyWrapper(wrapper: nat)
    | GetInterface(wrapper: nat, interfaceName: string, pointer: nat)
    | CopyInterface(to: nat, from: nat)
    | DropInterface(pointer: nat)
    | Call(slot: Slot)
    | Observe(reference: nat, wrapper: nat)
    | LockWeak(name: WeakName, wrapper: nat)
    | Construct(slot: Slot, product: nat)
    | CallProduct(product: nat)
    | DeleteProduct(product: nat)
    | BeginPlainDelete(product: nat)
    | ReleaseMember(product: nat)
    | LeaveDestructor(product: nat)
    | CleanupLostProducts
    | ExternalOpen(lib: string, handle: Handle)
    | ExternalClose(handle: Handle)

  // ---------------------------------------------------------------- what the steps do

  function Holder(h: Heap, slot: Slot): Option<Id> {
    if slot in h.slots then Some(h.slots[slot]) else None
  }

  /** The tail of `Instantiate`: an instance that wants it learns its own wrapper. */
  function Introduced(weaks: map<WeakName, Weak>, h: Heap, w: nat): map<WeakName, Weak> {
    if Held(h, WrapperInstance(w)) && Held(h, WrapperInfo(w)) && PayloadAt(h, WrapperInfo(w)).InfoPayload?
       && ENABLE_PLUGIN_FROM_THIS in PayloadAt(h, WrapperInfo(w)).info.interfaces
    then weaks[FromThis(h.slots[WrapperInstance(w)]) := Weak(Holder(h, WrapperInstance(w)), Holder(h, WrapperInfo(w)))]
    else weaks
  }

  ghost function Instantiated(s: System, l: nat, nameOrAlias: string, w: nat): System
    requires l in s.loaders
  {
    var name := Lookup(s.loaders[l].registry, nameOrAlias);
    if Held(s.heap, LoaderInfo(l, name)) && Held(s.heap, LoaderLib(l, name)) && PayloadAt(s.heap, LoaderInfo(l, name)).InfoPayload? then
      var h := Created(s.heap, w, s.heap.slots[LoaderInfo(l, name)], s.heap.slots[LoaderLib(l, name)]);
      s.(heap := h, weaks := Introduced(s.weaks, h, w))
    else s.(broken := true)
  }

  function InstantiatedStatic(s: System, info: Info, w: nat): System {
    var h := CreatedStatic(s.heap, w, info);
    s.(heap := h, weaks := Introduced(s.weaks, h, w))
  }

  /** `QueryInterfaceSharedPtr` shares the ownership of the instance, not of the Info. */
  function GotInterface(h: Heap, w: nat, interfaceName: string, k: nat): Heap {
    if Held(h, WrapperInfo(w)) && PayloadAt(h, WrapperInfo(w)).InfoPayload?
       && interfaceName in PayloadAt(h, WrapperInfo(w)).info.interfaces
    then CopySlot(h, Interface(k), WrapperInstance(w))
    else h
  }

  function Called(h: Heap, slot: Slot): Heap {
    if Held(h, slot) then Touch(h, PayloadAt(h, slot).code) else h
  }

  predicate InfoMissing(h: Heap, weak: Weak) {
    LivesIn(weak.instance, h) && !LivesIn(weak.info, h)
  }

  /** `Producing::ImplConstruct`: the factory finds the pointer to itself through its weak
      reference and stores it in the product. */
  function Constructed(s: System, slot: Slot, p: nat): System {
    if !Held(s.heap, slot) || FromThis(s.heap.slots[slot]) !in s.weaks then s
    else
      var id := s.heap.slots[slot];
      var code := PayloadAt(s.heap, slot).code;
      s.(heap := Share(Touch(s.heap, code), Product(p), id),
         products := s.products[p := Made(Alive, code, id)],
         broken := s.broken || InfoMissing(s.heap, s.weaks[FromThis(id)]))
  }

  /** `ProductDeleter`: the reference moves to a local variable and outlives the product. */
  function DeletedHeap(h: Heap, p: nat, code: Code): Heap {
    var h1 := CopySlot(h, LocalInstance, Product(p));
    DropInstance(Touch(DropInstance(h1, Product(p)), code), LocalInstance)
  }

  function DropLost(h: Heap, lost: seq<nat>): Heap
    decreases |lost|
  {
    if lost == [] then h else DropLost(DropInstance(h, Lost(lost[0])), lost[1..])
  }

  function SetPhase(s: System, p: nat, phase: Phase): map<nat, Made>
    requires p in s.products
  {
    s.products[p := s.products[p].(phase := phase)]
  }

  predicate Fresh(h: Heap, w: nat) {
    WrapperInstance(w) !in h.slots && WrapperInfo(w) !in h.slots
  }

  ghost predicate Lists(order: seq<string>, names: set<string>) {
    forall n :: n in order <==> n in names
  }

  ghost predicate Enabled(c: Catalog, s: System, step: Step) {
    var h := s.heap;
    match step
    case NewLoader => true
    case DestroyLoader(l, infoOrder, libOrder) =>
      l in s.loaders && Lists(infoOrder, s.loaders[l].registry.plugins.Keys) && Lists(libOrder, s.loaders[l].registry.plugins.Keys)
    case LoadLib(l, lib, handle, infos) =>
      l in s.loaders && lib in c && MayOpen(h, lib, handle) && (forall i :: i in infos <==> i in c[lib])
    case ForgetLibrary(l, handle, order) =>
      l in s.loaders && (handle in s.loaders[l].handlePlugins ==> Lists(order, s.loaders[l].handlePlugins[handle]))
    case Instantiate(l, nameOrAlias, w) =>
      l in s.loaders && Fresh(h, w) && Lookup(s.loaders[l].registry, nameOrAlias) != ""
    case InstantiateStatic(_, w) => Fresh(h, w)
    case CopyWrapper(_, _) => true
    case ClearWrapper(_) => true
    case DestroyWrapper(_) => true
    case GetInterface(_, _, k) => Interface(k) !in h.slots
    case CopyInterface(to, _) => Interface(to) !in h.slots
    case DropInterface(_) => true
    case Call(slot) => slot in h.slots && (slot.WrapperInstance? || slot.Interface?)
    case Observe(_, _) => true
    case LockWeak(name, w) => name in s.weaks && Fresh(h, w)
    case Construct(slot, p) =>
      && slot in h.slots && (slot.WrapperInstance? || slot.Interface?) && p !in s.products
      && FromThis(h.slots[slot]) in s.weaks
    case CallProduct(p) => p in s.products && s.products[p].phase == Alive
    case DeleteProduct(p) => p in s.products && s.products[p].phase == Alive
    case BeginPlainDelete(p) => p in s.products && s.products[p].phase == Alive
    case ReleaseMember(p) => p in s.products && s.products[p].phase == Pushed
    case LeaveDestructor(p) => p in s.products && s.products[p].phase == Released
    case CleanupLostProducts => true
    case ExternalOpen(lib, handle) => MayOpen(h, lib, handle)
    case ExternalClose(handle) => External(h, handle) > 0
  }

  ghost function Next(c: Catalog, s: System, step: Step): System
    requires Enabled(c, s, step)
  {
    var h := s.heap;
    match step
    case NewLoader =>
      s.(loaders := s.loaders[s.nextLoader := EMPTY_LOADER], nextLoader := s.nextLoader + 1)
    case DestroyLoader(l, infoOrder, libOrder) =>
      s.(heap := DropLibs(DropInfos(h, l, infoOrder), l, libOrder), loaders := s.loaders - {l})
    case LoadLib(l, lib, handle, infos) =>
      s.(heap := LoadedHeap(h, l, s.loaders[l], lib, handle, infos),
         loaders := s.loaders[l := LoadedTables(h, s.loaders[l], handle, infos)])
    case ForgetLibrary(l, handle, order) =>
      if handle !in s.loaders[l].handlePlugins then s
      else s.(heap := ForgetPlugins(h, l, order),
              loaders := s.loaders[l := ForgottenTables(s.loaders[l], handle, order)])
    case Instantiate(l, nameOrAlias, w) => Instantiated(s, l, nameOrAlias, w)
    case InstantiateStatic(info, w) => InstantiatedStatic(s, info, w)
    case CopyWrapper(to, from) => s.(heap := Copied(h, to, from))
    case ClearWrapper(w) => s.(heap := Cleared(h, w))
    case DestroyWrapper(w) => s.(heap := Destroyed(h, w))
    case GetInterface(w, interfaceName, k) => s.(heap := GotInterface(h, w, interfaceName, k))
    case CopyInterface(to, from) => s.(heap := CopySlot(h, Interface(to), Interface(from)))
    case DropInterface(k) => s.(heap := DropInstance(h, Interface(k)))
    case Call(slot) => s.(heap := Called(h, slot))
    case Observe(v, w) =>
      s.(weaks := s.weaks[User(v) := Weak(Holder(h, WrapperInstance(w)), Holder(h, WrapperInfo(w)))])
    case LockWeak(name, w) =>
      s.(heap := Locked(h, w, s.weaks[name].instance, s.weaks[name].info),
         broken := s.broken || InfoMissing(h, s.weaks[name]))
    case Construct(slot, p) => Constructed(s, slot, p)
    case CallProduct(p) => s.(heap := Touch(h, s.products[p].code))
    case DeleteProduct(p) => s.(heap := DeletedHeap(h, p, s.products[p].code), products := SetPhase(s, p, Deleted))
    case BeginPlainDelete(p) =>
      s.(heap := CopySlot(Touch(h, s.products[p].code), Lost(p), Product(p)), products := SetPhase(s, p, Pushed),
         lost := s.lost + [p])
    case ReleaseMember(p) => s.(heap := DropInstance(h, Product(p)), products := SetPhase(s, p, Released))
    case LeaveDestructor(p) => s.(heap := Touch(h, s.products[p].code), products := SetPhase(s, p, Deleted))
    case CleanupLostProducts => s.(heap := DropLost(h, s.lost), lost := [])
    case ExternalOpen(lib, handle) => s.(heap := ExternallyOpened(h, lib, handle))
    case ExternalClose(handle) => s.(heap := ExternallyClosed(h, handle))
  }

  // ---------------------------------------------------------------- what holds whatever the program does

  /** Control blocks that one Loader made for one handle. */
  predicate Rivals(a: Payload, b: Payload) {
    && a.Library? && b.Library? && a.creator == b.creator
    && a.code.Dynamic? && b.code.Dynamic? && a.code.handle == b.code.handle
  }

  /** At most one control block per Loader and handle. */
  ghost predicate UniqueLibs(h: Heap) {
    forall i, j | i in h.blocks && j in h.blocks && Rivals(h.blocks[i].payload, h.blocks[j].payload) :: i == j
  }

  ghost predicate LoaderBase(h: Heap, l: nat, t: LoaderTables) {
    PtrTable(h, l, t.handlePtrs) && PtrsComplete(h, l, t.handlePtrs) && Linked(h, l, t.registry) && Complete(t.registry)
  }

  ghost predicate LoadersBase(h: Heap, loaders: map<nat, LoaderTables>, nextLoader: nat) {
    && (forall l | l in loaders :: l < nextLoader && LoaderBase(h, l, loaders[l]))
    && (forall l, n | l !in loaders :: LoaderInfo(l, n) !in h.slots && LoaderLib(l, n) !in h.slots)
    && (forall id | id in h.blocks && h.blocks[id].payload.Library? :: h.blocks[id].payload.creator < nextLoader)
    && UniqueLibs(h)
  }

  predicate WrapperAgrees(h: Heap, w: nat) {
    Held(h, WrapperInstance(w)) && Held(h, WrapperInfo(w)) ==>
      && PayloadAt(h, WrapperInstance(w)).InstancePayload? && PayloadAt(h, WrapperInfo(w)).InfoPayload?
      && PayloadAt(h, WrapperInstance(w)).code == PayloadAt(h, WrapperInfo(w)).code
      && PayloadAt(h, WrapperInstance(w)).info == PayloadAt(h, WrapperInfo(w)).info
  }

  ghost predicate WrappersAgree(h: Heap) {
    forall w :: WrapperAgrees(h, w)
  }

  predicate OldId(h: Heap, id: Option<Id>) {
    id.Some? ==> id.value < h.next
  }

  ghost predicate WeakOk(h: Heap, weak: Weak) {
    OldId(h, weak.instance) && OldId(h, weak.info) && Paired(h, weak.instance, weak.info)
  }

  ghost predicate WeaksOk(h: Heap, weaks: map<WeakName, Weak>) {
    && (forall v | v in weaks :: WeakOk(h, weaks[v]))
    && (forall id: Id | FromThis(id) in weaks :: weaks[FromThis(id)].instance == Some(id))
  }

  ghost predicate ProductOk(h: Heap, p: nat, products: map<nat, Made>) {
    && (Product(p) in h.slots <==> p in products && (products[p].phase.Alive? || products[p].phase.Pushed?))
    && (Product(p) in h.slots ==>
          h.slots[Product(p)] == products[p].factory && Held(h, Product(p)) && PayloadAt(h, Product(p)).code == products[p].code)
  }

  ghost predicate LostOk(h: Heap, p: nat, products: map<nat, Made>, lost: seq<nat>) {
    && (Lost(p) in h.slots <==> p in lost)
    && (Lost(p) in h.slots ==>
          && p in products && !products[p].phase.Alive?
          && h.slots[Lost(p)] == products[p].factory && Held(h, Lost(p)) && PayloadAt(h, Lost(p)).code == products[p].code)
  }

  ghost predicate ProductsOk(h: Heap, products: map<nat, Made>, lost: seq<nat>) {
    && (forall p :: ProductOk(h, p, products))
    && (forall p :: LostOk(h, p, products, lost))
    && (forall i, j | 0 <= i < j < |lost| :: lost[i] != lost[j])
  }

  ghost predicate Base(s: System) {
    && WellFormed(s.heap)
    && LocalLib !in s.heap.slots && LocalInstance !in s.heap.slots
    && LoadersBase(s.heap, s.loaders, s.nextLoader)
    && WrappersAgree(s.heap)
    && WeaksOk(s.heap, s.weaks)
    && ProductsOk(s.heap, s.products, s.lost)
  }

  // ---------------------------------------------------------------- frames

  predicate ForLoaders(sl: Slot) {
    sl.LoaderInfo? || sl.LoaderLib?
  }

  predicate ForProducts(sl: Slot) {
    sl.Product? || sl.Lost?
  }

  predicate Local(sl: Slot) {
    sl.LocalLib? || sl.LocalInstance?
  }

  lemma StayingSlot(h: Heap, h': Heap, changed: set<Slot>, sl: Slot)
    requires WellFormed(h) && Frame(h, h', changed) && !sl.InstanceLib? && sl !in changed
    ensures SameAt(h, h', sl)
    ensures sl in h.slots ==> Held(h, sl) && Held(h', sl) && PayloadAt(h', sl) == PayloadAt(h, sl)
    ensures Held(h', sl) <==> Held(h, sl)
  {
    hide WellFormed, Evolves, NoNewLibs;
    assert SameAt(h, h', sl);
    HeldIsIn(h, sl);
    HeldIsIn(h', sl);
    if sl in h.slots {
      PayloadStays(h, h', sl);
    }
  }

  lemma LoaderBaseFrame(h: Heap, h': Heap, changed: set<Slot>, l: nat, t: LoaderTables)
    requires WellFormed(h) && Frame(h, h', changed) && LoaderBase(h, l, t)
    requires forall n :: LoaderInfo(l, n) !in changed && LoaderLib(l, n) !in changed
    ensures LoaderBase(h', l, t)
  {
    forall n
      ensures SameAt(h, h', LoaderInfo(l, n)) && SameAt(h, h', LoaderLib(l, n))
    {
      StayingSlot(h, h', changed, LoaderInfo(l, n));
      StayingSlot(h, h', changed, LoaderLib(l, n));
    }
    LinkedSame(h, h', l, t.registry);
    hide WellFormed, Linked, Complete, Changes;
    assert PtrTable(h', l, t.handlePtrs);
    assert PtrsComplete(h', l, t.handlePtrs);
  }

  lemma LoadersFrame(h: Heap, h': Heap, changed: set<Slot>, loaders: map<nat, LoaderTables>, nextLoader: nat)
    requires WellFormed(h) && Frame(h, h', changed) && LoadersBase(h, loaders, nextLoader)
    requires forall sl | sl in changed :: !ForLoaders(sl)
    ensures LoadersBase(h', loaders, nextLoader)
  {
    hide WellFormed, LoaderBase;
    forall l | l in loaders
      ensures LoaderBase(h', l, loaders[l])
    {
      LoaderBaseFrame(h, h', changed, l, loaders[l]);
    }
    forall l, n | l !in loaders
      ensures LoaderInfo(l, n) !in h'.slots && LoaderLib(l, n) !in h'.slots
    {
      StayingSlot(h, h', changed, LoaderInfo(l, n));
      StayingSlot(h, h', changed, LoaderLib(l, n));
    }
    hide Changes;
    assert UniqueLibs(h');
  }

  lemma WrappersFrame(h: Heap, h': Heap, changed: set<Slot>)
    requires WellFormed(h) && Frame(h, h', changed) && WrappersAgree(h)
    requires forall w | WrapperInstance(w) in changed || WrapperInfo(w) in changed :: WrapperAgrees(h', w)
    ensures WrappersAgree(h')
  {
    hide WellFormed, Evolves, NoNewLibs;
    forall w
      ensures WrapperAgrees(h', w)
    {
      if WrapperInstance(w) !in changed && WrapperInfo(w) !in changed {
        assert WrapperAgrees(h, w);
        StayingSlot(h, h', changed, WrapperInstance(w));
        StayingSlot(h, h', changed, WrapperInfo(w));
      }
    }
  }

  lemma WeakFrame(h: Heap, h': Heap, weak: Weak)
    requires Evolves(h, h') && WeakOk(h, weak)
    ensures WeakOk(h', weak)
  {
  }

  lemma WeaksFrame(h: Heap, h': Heap, weaks: map<WeakName, Weak>)
    requires Evolves(h, h') && WeaksOk(h, weaks)
    ensures WeaksOk(h', weaks)
  {
    hide Evolves, WeakOk;
    forall v | v in weaks
      ensures WeakOk(h', weaks[v])
    {
      WeakFrame(h, h', weaks[v]);
    }
  }

  lemma ProductsFrame(h: Heap, h': Heap, changed: set<Slot>, products: map<nat, Made>, lost: seq<nat>)
    requires WellFormed(h) && Frame(h, h', changed) && ProductsOk(h, products, lost)
    requires forall sl | sl in changed :: !ForProducts(sl)
    ensures ProductsOk(h', products, lost)
  {
    hide WellFormed, Evolves, NoNewLibs;
    forall p
      ensures ProductOk(h', p, products) && LostOk(h', p, products, lost)
    {
      assert ProductOk(h, p, products) && LostOk(h, p, products, lost);
      StayingSlot(h, h', changed, Product(p));
      StayingSlot(h, h', changed, Lost(p));
    }
  }

  /** Steps that only touch wrappers and interface pointers. */
  lemma BaseFrame(s: System, h': Heap, changed: set<Slot>)
    requires Base(s) && Frame(s.heap, h', changed)
    requires forall sl | sl in changed :: !ForLoaders(sl) && !ForProducts(sl) && !Local(sl)
    requires forall w | WrapperInstance(w) in changed || WrapperInfo(w) in changed :: WrapperAgrees(h', w)
    ensures Base(s.(heap := h'))
  {
    hide WellFormed, Evolves, NoNewLibs, LoadersBase, WrappersAgree, WeaksOk, ProductsOk, WrapperAgrees;
    LoadersFrame(s.heap, h', changed, s.loaders, s.nextLoader);
    WrappersFrame(s.heap, h', changed);
    WeaksFrame(s.heap, h', s.weaks);
    ProductsFrame(s.heap, h', changed, s.products, s.lost);
    StayingSlot(s.heap, h', changed, LocalLib);
    StayingSlot(s.heap, h', changed, LocalInstance);
  }

  // ---------------------------------------------------------------- Loaders keep the base

  function NameSlots(l: nat, names: set<string>): set<Slot> {
    (set n | n in names :: LoaderInfo(l, n)) + (set n | n in names :: LoaderLib(l, n))
  }

  /** A change to the slots of one Loader leaves the others alone. */
  lemma OtherLoadersFrame(h: Heap, h': Heap, changed: set<Slot>, loaders: map<nat, LoaderTables>, nextLoader: nat, l: nat)
    requires WellFormed(h) && Frame(h, h', changed) && LoadersBase(h, loaders, nextLoader) && l in loaders
    requires forall sl | sl in changed && ForLoaders(sl) :: sl.loader == l
    ensures forall k | k in loaders && k != l :: LoaderBase(h', k, loaders[k])
    ensures forall k, n | k !in loaders :: LoaderInfo(k, n) !in h'.slots && LoaderLib(k, n) !in h'.slots
    ensures forall id | id in h'.blocks && h'.blocks[id].payload.Library? :: h'.blocks[id].payload.creator < nextLoader
    ensures UniqueLibs(h')
  {
    hide WellFormed, LoaderBase;
    forall k | k in loaders && k != l
      ensures LoaderBase(h', k, loaders[k])
    {
      LoaderBaseFrame(h, h', changed, k, loaders[k]);
    }
    forall k, n | k !in loaders
      ensures LoaderInfo(k, n) !in h'.slots && LoaderLib(k, n) !in h'.slots
    {
      StayingSlot(h, h', changed, LoaderInfo(k, n));
      StayingSlot(h, h', changed, LoaderLib(k, n));
    }
    hide Changes;
    assert UniqueLibs(h');
  }

  lemma PtrsFrame(h: Heap, h': Heap, l: nat, ptrs: map<Handle, Id>)
    requires WellFormed(h) && Evolves(h, h') && NoNewLibs(h, h') && PtrTable(h, l, ptrs) && PtrsComplete(h, l, ptrs)
    ensures PtrTable(h', l, ptrs) && PtrsComplete(h', l, ptrs)
  {
    hide WellFormed;
  }

  lemma BaseNewLoader(s: System)
    requires Base(s)
    ensures LoadersBase(s.heap, s.loaders[s.nextLoader := EMPTY_LOADER], s.nextLoader + 1)
  {
    hide Balanced, LibrariesMapped, MappedOnce, BlocksOwned, InstancesAnchored;
    var h, l := s.heap, s.nextLoader;
    forall n
      ensures LinkedName(h, l, EMPTY_TABLES, n)
    {
      assert LoaderInfo(l, n) !in h.slots;
    }
    assert LoaderBase(h, l, EMPTY_LOADER);
  }

  lemma OpenedBlocks(h: Heap, l: nat, ptrs: map<Handle, Id>, lib: string, handle: Handle)
    requires WellFormed(h) && PtrTable(h, l, ptrs) && PtrsComplete(h, l, ptrs) && MayOpen(h, lib, handle) && LocalLib !in h.slots
    ensures var h1 := OpenLib(h, l, ptrs, lib, handle); var id := OpenPtrs(h, ptrs, handle)[handle];
            && h1.blocks.Keys == h.blocks.Keys + {id} && (id in h.blocks || id == h.next)
            && (forall j | j in h.blocks :: h1.blocks[j].payload == h.blocks[j].payload)
            && (forall j | j in h.blocks && h.blocks[j].payload.Library? && h.blocks[j].payload.creator == l
                          && h.blocks[j].payload.code.Dynamic? && h.blocks[j].payload.code.handle == handle :: j == id)
  {
    hide Sound, InstancesAnchored;
    OldBlocks(h);
  }

  lemma OpenedUnique(h: Heap, l: nat, ptrs: map<Handle, Id>, lib: string, handle: Handle)
    requires WellFormed(h) && PtrTable(h, l, ptrs) && PtrsComplete(h, l, ptrs) && MayOpen(h, lib, handle) && LocalLib !in h.slots
    requires UniqueLibs(h)
    ensures UniqueLibs(OpenLib(h, l, ptrs, lib, handle))
  {
    hide WellFormed, PtrTable, PtrsComplete, Evolves, Extends, MayOpen;
    var h1 := OpenLib(h, l, ptrs, lib, handle);
    var id := OpenPtrs(h, ptrs, handle)[handle];
    assert h1.blocks[id].payload == Library(NewCode(h, handle), l) by { OpenLibFacts(h, l, ptrs, lib, handle); }
    OpenedBlocks(h, l, ptrs, lib, handle);
    hide OpenLib, OpenPtrs;
    forall i, j | i in h1.blocks && j in h1.blocks && Rivals(h1.blocks[i].payload, h1.blocks[j].payload)
      ensures i == j
    {
      hide Rivals;
      if i in h.blocks && j in h.blocks {
        assert Rivals(h.blocks[i].payload, h.blocks[j].payload);
      } else {
        RivalsMeet(h1.blocks[i].payload, h1.blocks[j].payload, handle, l);
      }
    }
  }

  lemma RivalsMeet(a: Payload, b: Payload, handle: Handle, l: nat)
    requires Rivals(a, b)
    requires (a.code.Dynamic? && a.code.handle == handle && a.creator == l) || (b.code.Dynamic? && b.code.handle == handle && b.creator == l)
    ensures a.Library? && b.Library? && a.code.Dynamic? && b.code.Dynamic?
    ensures a.code.handle == b.code.handle == handle && a.creator == b.creator == l
  {
  }

  /** Opening a library keeps the tables of every Loader, with the entry of the handle updated. */
  lemma OpenedLoaders(h: Heap, loaders: map<nat, LoaderTables>, nextLoader: nat, l: nat, lib: string, handle: Handle)
    requires WellFormed(h) && LoadersBase(h, loaders, nextLoader) && l in loaders && MayOpen(h, lib, handle) && LocalLib !in h.slots
    ensures var t := loaders[l]; var h1 := OpenLib(h, l, t.handlePtrs, lib, handle);
            LoadersBase(h1, loaders[l := t.(handlePtrs := OpenPtrs(h, t.handlePtrs, handle))], nextLoader)
  {
    hide WellFormed, UniqueLibs, Complete;
    var t := loaders[l];
    assert LoaderBase(h, l, t);
    OpenedUnique(h, l, t.handlePtrs, lib, handle);
    OpenLibFacts(h, l, t.handlePtrs, lib, handle);
    OpenPtrsFacts(h, l, t.handlePtrs, lib, handle);
    OpenedBlocks(h, l, t.handlePtrs, lib, handle);
    var h1 := OpenLib(h, l, t.handlePtrs, lib, handle);
    hide OpenLib, OpenPtrs;
    LinkedSame(h, h1, l, t.registry);
    var id := OpenPtrs(h, t.handlePtrs, handle)[handle];
    forall k | k in loaders && k != l
      ensures LoaderBase(h1, k, loaders[k])
    {
      assert LoaderBase(h, k, loaders[k]);
      OpenedElsewhere(h, h1, l, id, NewCode(h, handle), k, loaders[k]);
    }
    hide LoaderBase, Extends, Evolves;
    assert forall k, n | k !in loaders :: LoaderInfo(k, n) !in h1.slots && LoaderLib(k, n) !in h1.slots;
  }

  /** A library that the Loader `l` has opened is none of another Loader's business. */
  lemma OpenedElsewhere(h: Heap, h1: Heap, l: nat, id: Id, code: Code, k: nat, t: LoaderTables)
    requires WellFormed(h) && WellFormed(h1) && Evolves(h, h1) && LoaderBase(h, k, t) && k != l
    requires h1.slots == h.slots[LocalLib := id] && id in h1.blocks && h1.blocks[id].payload == Library(code, l)
    requires h1.blocks.Keys == h.blocks.Keys + {id} && (id in h.blocks || id == h.next)
    ensures LoaderBase(h1, k, t)
  {
    hide WellFormed, Linked, Complete;
    LinkedSame(h, h1, k, t.registry);
    OldBlocks(h);
    assert PtrTable(h1, k, t.handlePtrs);
    hide PtrTable;
    assert PtrsComplete(h1, k, t.handlePtrs);
  }

  lemma LinkedNames(h: Heap, l: nat, t: Tables)
    requires WellFormed(h) && Linked(h, l, t)
    ensures forall n :: LoaderInfo(l, n) in h.slots <==> n in t.plugins
    ensures forall n :: LoaderLib(l, n) in h.slots <==> n in t.plugins
  {
    hide WellFormed;
    forall n
      ensures LoaderInfo(l, n) in h.slots <==> n in t.plugins
      ensures LoaderLib(l, n) in h.slots <==> n in t.plugins
    {
      assert LinkedName(h, l, t, n);
      HeldIsIn(h, LoaderInfo(l, n));
      HeldIsIn(h, LoaderLib(l, n));
    }
  }

  lemma FilledFrame(h: Heap, h1: Heap, h': Heap, l: nat, t: Tables, infos: seq<Info>, lib: Id, code: Code)
    requires FilledSlots(h, h', l, t, infos, lib, code) && h1.slots == h.slots[LocalLib := lib] && LocalLib !in h'.slots
    requires WellFormed(h') && Evolves(h1, h') && NoNewLibs(h1, h')
    ensures Frame(h1, h', NameSlots(l, NamesOf(infos)) + {LocalLib})
  {
    hide WellFormed, Evolves, NoNewLibs, FilledName;
    forall sl: Slot
      ensures sl.InstanceLib? || sl in NameSlots(l, NamesOf(infos)) + {LocalLib} || SameAt(h1, h', sl)
    {
      if !IsPluginSlot(sl, l, NamesOf(infos)) && sl != LocalLib {
        assert sl in h.slots <==> sl in h'.slots;
      }
    }
  }

  lemma BaseLoadLib(s: System, l: nat, lib: string, handle: Handle, infos: seq<Info>)
    requires Base(s) && l in s.loaders && MayOpen(s.heap, lib, handle) && Catalogue(infos)
    ensures Base(s.(heap := LoadedHeap(s.heap, l, s.loaders[l], lib, handle, infos),
                    loaders := s.loaders[l := LoadedTables(s.heap, s.loaders[l], handle, infos)]))
  {
    hide WellFormed, Evolves, NoNewLibs, WrappersAgree, WrapperAgrees, WeaksOk, ProductsOk, LoadedHeap, FilledSlots, Linked, Complete, PtrTable, PtrsComplete;
    var h, t := s.heap, s.loaders[l];
    assert LoaderBase(h, l, t);
    var h1 := OpenLib(h, l, t.handlePtrs, lib, handle);
    var h' := LoadedHeap(h, l, t, lib, handle, infos);
    var id := OpenPtrs(h, t.handlePtrs, handle)[handle];
    OpenLibFacts(h, l, t.handlePtrs, lib, handle);
    OpenedLoaders(h, s.loaders, s.nextLoader, l, lib, handle);
    LoadedFacts(h, l, t, lib, handle, infos);
    hide OpenLib, OpenPtrs, LoadersBase, Extends;
    FilledFrame(h, h1, h', l, t.registry, infos, id, NewCode(h, handle));
    var changed := NameSlots(l, NamesOf(infos)) + {LocalLib};
    var during := s.loaders[l := t.(handlePtrs := OpenPtrs(h, t.handlePtrs, handle))];
    var t' := LoadedTables(h, t, handle, infos);
    LoadedLoaders(h1, h', changed, during, s.nextLoader, l, t');
    assert during[l := t'] == s.loaders[l := t'];
    OpenedRest(s, h1, id);
    RestFrame(h1, h', changed, s.weaks, s.products, s.lost);
  }

  /** One Loader gets new tables that agree with the slots; the others are as before. */
  lemma LoadedLoaders(h: Heap, h': Heap, changed: set<Slot>, loaders: map<nat, LoaderTables>, nextLoader: nat, l: nat, t': LoaderTables)
    requires WellFormed(h) && Frame(h, h', changed) && LoadersBase(h, loaders, nextLoader) && l in loaders
    requires forall sl | sl in changed && ForLoaders(sl) :: sl.loader == l
    requires t'.handlePtrs == loaders[l].handlePtrs && Linked(h', l, t'.registry) && Complete(t'.registry)
    ensures LoadersBase(h', loaders[l := t'], nextLoader)
  {
    hide WellFormed, Evolves, NoNewLibs, Linked, Complete, PtrTable, PtrsComplete, Changes;
    OtherLoadersFrame(h, h', changed, loaders, nextLoader, l);
    assert LoaderBase(h, l, loaders[l]);
    PtrsFrame(h, h', l, loaders[l].handlePtrs);
    assert LoaderBase(h', l, t');
  }

  /** While the opened library is only in the local variable nothing else has changed. */
  lemma OpenedRest(s: System, h1: Heap, id: Id)
    requires Base(s) && WellFormed(h1) && Evolves(s.heap, h1) && h1.slots == s.heap.slots[LocalLib := id]
    ensures WrappersAgree(h1) && WeaksOk(h1, s.weaks) && ProductsOk(h1, s.products, s.lost) && LocalInstance !in h1.slots
  {
    hide WellFormed, Evolves, LoadersBase, WeaksOk;
    var h := s.heap;
    WeaksFrame(h, h1, s.weaks);
    forall w
      ensures WrapperAgrees(h1, w)
    {
      assert WrapperAgrees(h, w);
      SameSlot(h, h1, WrapperInstance(w));
      SameSlot(h, h1, WrapperInfo(w));
    }
    forall p
      ensures ProductOk(h1, p, s.products) && LostOk(h1, p, s.products, s.lost)
    {
      assert ProductOk(h, p, s.products) && LostOk(h, p, s.products, s.lost);
      SameSlot(h, h1, Product(p));
      SameSlot(h, h1, Lost(p));
    }
  }

  lemma SameSlot(h: Heap, h': Heap, sl: Slot)
    requires WellFormed(h) && WellFormed(h') && Evolves(h, h') && SameAt(h, h', sl)
    ensures sl in h.slots ==> Held(h, sl) && Held(h', sl) && PayloadAt(h', sl) == PayloadAt(h, sl)
    ensures Held(h', sl) <==> Held(h, sl)
  {
    hide WellFormed, Evolves;
    HeldIsIn(h, sl);
    HeldIsIn(h', sl);
    if sl in h.slots {
      PayloadStays(h, h', sl);
    }
  }

  lemma RestFrame(h: Heap, h': Heap, changed: set<Slot>, weaks: map<WeakName, Weak>, products: map<nat, Made>, lost: seq<nat>)
    requires WellFormed(h) && Frame(h, h', changed)
    requires WrappersAgree(h) && WeaksOk(h, weaks) && ProductsOk(h, products, lost) && LocalInstance !in h.slots
    requires forall sl | sl in changed :: ForLoaders(sl) || sl == LocalLib
    ensures WrappersAgree(h') && WeaksOk(h', weaks) && ProductsOk(h', products, lost) && LocalInstance !in h'.slots
  {
    hide WellFormed, Evolves, NoNewLibs, WrappersAgree, WeaksOk, ProductsOk, WrapperAgrees;
    WrappersFrame(h, h', changed);
    WeaksFrame(h, h', weaks);
    ProductsFrame(h, h', changed, products, lost);
    StayingSlot(h, h', changed, LocalInstance);
  }

  lemma BaseForget(s: System, l: nat, handle: Handle, order: seq<string>)
    requires Base(s) && l in s.loaders && handle in s.loaders[l].handlePlugins
    ensures Base(s.(heap := ForgetPlugins(s.heap, l, order), loaders := s.loaders[l := ForgottenTables(s.loaders[l], handle, order)]))
  {
    hide WellFormed, Evolves, NoNewLibs, WrappersAgree, WrapperAgrees, WeaksOk, ProductsOk, Complete, PtrTable, PtrsComplete;
    var h, t := s.heap, s.loaders[l];
    assert LoaderBase(h, l, t);
    ForgetPluginsFacts(h, l, order);
    var h' := ForgetPlugins(h, l, order);
    hide ForgetPlugins, PinnedName;
    var changed := InfoSlots(l, order) + LibSlots(l, order);
    assert Frame(h, h', changed);
    ForgottenLinked(h, h', l, t.registry, order);
    hide Linked;
    LoadedLoaders(h, h', changed, s.loaders, s.nextLoader, l, ForgottenTables(t, handle, order));
    hide LoadersBase, Changes;
    RestFrame(h, h', changed, s.weaks, s.products, s.lost);
    assert LocalLib !in h'.slots;
  }

  lemma ForgottenLinked(h: Heap, h': Heap, l: nat, t: Tables, order: seq<string>)
    requires WellFormed(h) && WellFormed(h') && Evolves(h, h') && Linked(h, l, t) && Complete(t)
    requires h'.slots == h.slots - InfoSlots(l, order) - LibSlots(l, order)
    ensures Linked(h', l, ForgottenAll(t, order)) && Complete(ForgottenAll(t, order))
  {
    hide WellFormed, Evolves, Complete;
    ForgottenAllTable(t, order);
    var t' := ForgottenAll(t, order);
    hide ForgottenAll;
    forall n
      ensures LinkedName(h', l, t', n)
    {
      assert LinkedName(h, l, t, n);
      HeldIsIn(h, LoaderInfo(l, n));
      HeldIsIn(h, LoaderLib(l, n));
      HeldIsIn(h', LoaderInfo(l, n));
      HeldIsIn(h', LoaderLib(l, n));
      assert LoaderInfo(l, n) in InfoSlots(l, order) <==> n in order;
      assert LoaderLib(l, n) in LibSlots(l, order) <==> n in order;
      if n in t'.plugins {
        PayloadStays(h, h', LoaderInfo(l, n));
      }
    }
  }

  lemma {:induction false} ForgottenAllTable(t: Tables, names: seq<string>)
    requires Complete(t)
    ensures Complete(ForgottenAll(t, names)) && ForgottenAll(t, names).plugins == t.plugins - (set n | n in names)
    decreases |names|
  {
    if names == [] {
    } else {
      ForgottenAllTable(Forgotten(t, names[0]), names[1..]);
      assert forall n :: n in names <==> n == names[0] || n in names[1..];
    }
  }

  lemma DestroyedLoader(h: Heap, h': Heap, loaders: map<nat, LoaderTables>, nextLoader: nat, l: nat, infoOrder: seq<string>, libOrder: seq<string>)
    requires WellFormed(h) && LoadersBase(h, loaders, nextLoader) && l in loaders
    requires Frame(h, h', InfoSlots(l, infoOrder) + LibSlots(l, libOrder))
    requires h'.slots == h.slots - InfoSlots(l, infoOrder) - LibSlots(l, libOrder)
    requires Lists(infoOrder, loaders[l].registry.plugins.Keys) && Lists(libOrder, loaders[l].registry.plugins.Keys)
    ensures LoadersBase(h', loaders - {l}, nextLoader)
  {
    hide WellFormed, Evolves, NoNewLibs, Changes, Complete, PtrTable, PtrsComplete;
    assert LoaderBase(h, l, loaders[l]);
    LinkedNames(h, l, loaders[l].registry);
    OtherLoadersFrame(h, h', InfoSlots(l, infoOrder) + LibSlots(l, libOrder), loaders, nextLoader, l);
    hide UniqueLibs, LoaderBase, Linked;
    forall n
      ensures LoaderInfo(l, n) !in h'.slots && LoaderLib(l, n) !in h'.slots
    {
      assert LoaderInfo(l, n) in InfoSlots(l, infoOrder) <==> n in infoOrder;
      assert LoaderLib(l, n) in LibSlots(l, libOrder) <==> n in libOrder;
    }
  }

  lemma BaseDestroyLoader(s: System, l: nat, infoOrder: seq<string>, libOrder: seq<string>)
    requires Base(s) && l in s.loaders
    requires Lists(infoOrder, s.loaders[l].registry.plugins.Keys) && Lists(libOrder, s.loaders[l].registry.plugins.Keys)
    ensures Base(s.(heap := DropLibs(DropInfos(s.heap, l, infoOrder), l, libOrder), loaders := s.loaders - {l}))
  {
    hide WellFormed, Evolves, NoNewLibs, WrappersAgree, WrapperAgrees, WeaksOk, ProductsOk, LoadersBase, Lists, PinnedName;
    var h := s.heap;
    var h1 := DropInfos(h, l, infoOrder);
    DropInfosFacts(h, l, infoOrder);
    DropLibsFacts(h1, l, libOrder);
    var h' := DropLibs(h1, l, libOrder);
    hide DropInfos, DropLibs;
    EvolvesTransitive(h, h1, h');
    NoNewLibsTransitive(h, h1, h');
    var changed := InfoSlots(l, infoOrder) + LibSlots(l, libOrder);
    assert Frame(h, h', changed);
    assert LocalLib !in h'.slots;
    DestroyedLoader(h, h', s.loaders, s.nextLoader, l, infoOrder, libOrder);
    hide Changes;
    RestFrame(h, h', changed, s.weaks, s.products, s.lost);
  }

  // ---------------------------------------------------------------- wrappers keep the base

  lemma EmptyAgrees(h: Heap, w: nat)
    requires WrapperInstance(w) !in h.slots || WrapperInfo(w) !in h.slots
    ensures WrapperAgrees(h, w)
  {
  }

  lemma BaseClear(s: System, w: nat)
    requires Base(s)
    ensures Base(s.(heap := Cleared(s.heap, w))) && Base(s.(heap := Destroyed(s.heap, w)))
  {
    hide WellFormed, Evolves, NoNewLibs, Changes, LoadersBase, WrappersAgree, WeaksOk, ProductsOk, Cleared, Destroyed;
    ClearedFrame(s.heap, w);
    DestroyedFrame(s.heap, w);
    EmptyAgrees(Cleared(s.heap, w), w);
    EmptyAgrees(Destroyed(s.heap, w), w);
    hide WrapperAgrees;
    BaseFrame(s, Cleared(s.heap, w), {WrapperInstance(w), WrapperInfo(w)});
    BaseFrame(s, Destroyed(s.heap, w), {WrapperInfo(w), WrapperInstance(w)});
  }

  lemma AgreesCopied(h: Heap, h': Heap, to: nat, from: nat)
    requires WellFormed(h) && WellFormed(h') && Evolves(h, h') && WrapperAgrees(h, from)
    requires CopiesSlot(h, h', WrapperInstance(to), WrapperInstance(from))
    requires CopiesSlot(h, h', WrapperInfo(to), WrapperInfo(from))
    ensures WrapperAgrees(h', to)
  {
    hide WellFormed, Evolves;
    HeldIsIn(h', WrapperInstance(to));
    HeldIsIn(h', WrapperInfo(to));
    HeldIsIn(h, WrapperInstance(from));
    HeldIsIn(h, WrapperInfo(from));
    if Held(h', WrapperInstance(to)) && Held(h', WrapperInfo(to)) {
      SamePayload(h, h', h.slots[WrapperInstance(from)]);
      SamePayload(h, h', h.slots[WrapperInfo(from)]);
    }
  }

  lemma BaseCopy(s: System, to: nat, from: nat)
    requires Base(s)
    ensures Base(s.(heap := Copied(s.heap, to, from)))
  {
    hide WellFormed, Evolves, NoNewLibs, Changes, LoadersBase, WeaksOk, ProductsOk, Copied;
    CopiedFrame(s.heap, to, from);
    var h' := Copied(s.heap, to, from);
    hide Copied;
    if to == from {
      EmptyAgrees(h', to);
    } else {
      assert WrapperAgrees(s.heap, from);
      AgreesCopied(s.heap, h', to, from);
    }
    hide WrapperAgrees, WrappersAgree;
    BaseFrame(s, h', {WrapperInstance(to), WrapperInfo(to)});
  }

  lemma BaseGetInterface(s: System, w: nat, interfaceName: string, k: nat)
    requires Base(s) && Interface(k) !in s.heap.slots
    ensures Base(s.(heap := GotInterface(s.heap, w, interfaceName, k)))
    ensures GotInterface(s.heap, w, interfaceName, k).fault == s.heap.fault
    ensures Frame(s.heap, GotInterface(s.heap, w, interfaceName, k), {Interface(k)})
  {
    hide WellFormed, Evolves, NoNewLibs, LoadersBase, WrappersAgree, WeaksOk, ProductsOk, WrapperAgrees;
    var h := s.heap;
    var h' := GotInterface(h, w, interfaceName, k);
    KindAt(h, WrapperInstance(w));
    CopySlotFrame(h, Interface(k), WrapperInstance(w));
    FrameRefl(h);
    hide CopySlot;
    assert Frame(h, h', {Interface(k)});
    BaseFrame(s, h', {Interface(k)});
  }

  lemma BaseCopyInterface(s: System, to: nat, from: nat)
    requires Base(s) && Interface(to) !in s.heap.slots
    ensures Base(s.(heap := CopySlot(s.heap, Interface(to), Interface(from))))
  {
    hide WellFormed, Evolves, NoNewLibs, LoadersBase, WrappersAgree, WeaksOk, ProductsOk, WrapperAgrees, Changes;
    KindAt(s.heap, Interface(from));
    CopySlotFrame(s.heap, Interface(to), Interface(from));
    hide CopySlot;
    BaseFrame(s, CopySlot(s.heap, Interface(to), Interface(from)), {Interface(to)});
  }

  lemma BaseDropInterface(s: System, k: nat)
    requires Base(s)
    ensures Base(s.(heap := DropInstance(s.heap, Interface(k))))
  {
    hide WellFormed, Evolves, NoNewLibs, LoadersBase, WrappersAgree, WeaksOk, ProductsOk, WrapperAgrees, Changes;
    KindAt(s.heap, Interface(k));
    DropInstanceFrame(s.heap, Interface(k));
    hide DropInstance;
    BaseFrame(s, DropInstance(s.heap, Interface(k)), {Interface(k)});
  }

  lemma BaseTouch(s: System, c: Code)
    requires Base(s)
    ensures Base(s.(heap := Touch(s.heap, c)))
  {
    hide WellFormed, Evolves, NoNewLibs, LoadersBase, WrappersAgree, WeaksOk, ProductsOk, WrapperAgrees, Changes;
    TouchFrame(s.heap, c);
    hide Touch;
    BaseFrame(s, Touch(s.heap, c), {});
  }

  // ---------------------------------------------------------------- instances and weak references keep the base

  lemma HolderOk(h: Heap, w: nat)
    requires WellFormed(h) && WrapperAgrees(h, w)
    ensures WeakOk(h, Weak(Holder(h, WrapperInstance(w)), Holder(h, WrapperInfo(w))))
  {
    hide WellFormed;
    KindAt(h, WrapperInstance(w));
    KindAt(h, WrapperInfo(w));
    OldBlocks(h);
  }

  lemma WeaksMore(h: Heap, weaks: map<WeakName, Weak>, name: WeakName, weak: Weak)
    requires WeaksOk(h, weaks) && WeakOk(h, weak) && (name.FromThis? ==> weak.instance == Some(name.instance))
    ensures WeaksOk(h, weaks[name := weak])
  {
    hide WeakOk;
  }

  lemma IntroducedOk(h: Heap, weaks: map<WeakName, Weak>, w: nat)
    requires WellFormed(h) && WrapperAgrees(h, w) && WeaksOk(h, weaks)
    ensures WeaksOk(h, Introduced(weaks, h, w))
  {
    hide WellFormed, WeakOk, WeaksOk;
    HolderOk(h, w);
    if Held(h, WrapperInstance(w)) {
      WeaksMore(h, weaks, FromThis(h.slots[WrapperInstance(w)]), Weak(Holder(h, WrapperInstance(w)), Holder(h, WrapperInfo(w))));
    }
  }

  lemma BaseObserve(s: System, v: nat, w: nat)
    requires Base(s)
    ensures Base(s.(weaks := s.weaks[User(v) := Weak(Holder(s.heap, WrapperInstance(w)), Holder(s.heap, WrapperInfo(w)))]))
  {
    hide WellFormed, LoadersBase, WeaksOk, ProductsOk, WrapperAgrees, WeakOk;
    assert WrapperAgrees(s.heap, w);
    HolderOk(s.heap, w);
    WeaksMore(s.heap, s.weaks, User(v), Weak(Holder(s.heap, WrapperInstance(w)), Holder(s.heap, WrapperInfo(w))));
  }

  /** Nothing but the two pointers of one wrapper, and library references of instances. */
  ghost predicate WritesWrapper(changed: set<Slot>, w: nat) {
    forall sl | sl in changed :: sl == WrapperInfo(w) || sl == WrapperInstance(w) || sl.InstanceLib?
  }

  /** Steps that fill a fresh wrapper. */
  lemma BaseFilled(s: System, h': Heap, changed: set<Slot>, w: nat)
    requires Base(s) && Frame(s.heap, h', changed) && WritesWrapper(changed, w) && WrapperAgrees(h', w)
    ensures Base(s.(heap := h', weaks := Introduced(s.weaks, h', w))) && Base(s.(heap := h'))
  {
    hide WellFormed, Evolves, NoNewLibs, Changes, LoadersBase, WrappersAgree, WeaksOk, ProductsOk, WrapperAgrees, Introduced;
    BaseFrame(s, h', changed);
    IntroducedOk(h', s.weaks, w);
  }

  lemma CreatedAgrees(h: Heap, h': Heap, w: nat, info: Id)
    requires WellFormed(h) && WellFormed(h') && Evolves(h, h') && info in h.blocks && h.blocks[info].payload.InfoPayload?
    requires WrapperInfo(w) in h'.slots && h'.slots[WrapperInfo(w)] == info
    requires WrapperInstance(w) in h'.slots && h'.slots[WrapperInstance(w)] in h'.blocks
    requires h'.blocks[h'.slots[WrapperInstance(w)]].payload == InstancePayload(h.blocks[info].payload.code, h.blocks[info].payload.info)
    ensures WrapperAgrees(h', w)
  {
    hide WellFormed, Evolves;
    KindAt(h', WrapperInfo(w));
    SamePayload(h, h', info);
  }

  lemma BaseBroken(s: System, broken: bool)
    requires Base(s)
    ensures Base(s.(broken := broken))
  {
    hide WellFormed, LoadersBase, WrappersAgree, WeaksOk, ProductsOk;
  }

  lemma BaseInstantiate(s: System, l: nat, nameOrAlias: string, w: nat)
    requires Base(s) && l in s.loaders && Fresh(s.heap, w)
    ensures Base(Instantiated(s, l, nameOrAlias, w))
  {
    hide WellFormed, Evolves, NoNewLibs, Changes, LoadersBase, WrappersAgree, WeaksOk, ProductsOk, WrapperAgrees, Lookup, Introduced;
    var h := s.heap;
    var name := Lookup(s.loaders[l].registry, nameOrAlias);
    if Held(h, LoaderInfo(l, name)) && Held(h, LoaderLib(l, name)) && PayloadAt(h, LoaderInfo(l, name)).InfoPayload? {
      var info, lib := h.slots[LoaderInfo(l, name)], h.slots[LoaderLib(l, name)];
      KindAt(h, LoaderLib(l, name));
      CreatedFrame(h, w, info, lib);
      var h' := Created(h, w, info, lib);
      assert Instantiated(s, l, nameOrAlias, w) == s.(heap := h', weaks := Introduced(s.weaks, h', w));
      hide Created, Instantiated;
      CreatedAgrees(h, h', w, info);
      BaseFilled(s, h', CreatedSlots(h, w), w);
    } else {
      hide Created;
      BaseBroken(s, true);
    }
  }

  lemma BaseInstantiateStatic(s: System, info: Info, w: nat)
    requires Base(s) && Fresh(s.heap, w)
    ensures Base(InstantiatedStatic(s, info, w)) && InstantiatedStatic(s, info, w).heap.fault == s.heap.fault
  {
    hide WellFormed, Evolves, NoNewLibs, Changes, LoadersBase, WrappersAgree, WeaksOk, ProductsOk, Introduced;
    CreatedStaticFrame(s.heap, w, info);
    var h' := CreatedStatic(s.heap, w, info);
    hide CreatedStatic;
    assert WrapperAgrees(h', w);
    hide WrapperAgrees;
    BaseFilled(s, h', {WrapperInfo(w), WrapperInstance(w)}, w);
  }

  lemma LockedAgrees(h: Heap, h': Heap, w: nat, weak: Weak)
    requires WellFormed(h) && WellFormed(h') && Evolves(h, h') && Paired(h, weak.instance, weak.info)
    requires LockedSlot(h, h', WrapperInstance(w), weak.instance) && LockedSlot(h, h', WrapperInfo(w), weak.info)
    ensures WrapperAgrees(h', w)
  {
    hide WellFormed, Evolves;
    HeldIsIn(h', WrapperInstance(w));
    HeldIsIn(h', WrapperInfo(w));
    if Held(h', WrapperInstance(w)) && Held(h', WrapperInfo(w)) {
      SamePayload(h, h', weak.instance.value);
      SamePayload(h, h', weak.info.value);
    }
  }

  lemma BaseLock(s: System, name: WeakName, w: nat)
    requires Base(s) && name in s.weaks && Fresh(s.heap, w)
    ensures var h' := Locked(s.heap, w, s.weaks[name].instance, s.weaks[name].info);
            Base(s.(heap := h')) && (Tied(s.heap) ==> h'.fault == s.heap.fault)
  {
    hide WellFormed, Evolves, NoNewLibs, Changes, LoadersBase, WrappersAgree, ProductsOk, Paired, LockedSlot;
    var weak := s.weaks[name];
    assert WeakOk(s.heap, weak);
    LockedFrame(s.heap, w, weak.instance, weak.info);
    var h' := Locked(s.heap, w, weak.instance, weak.info);
    hide Locked;
    LockedAgrees(s.heap, h', w, weak);
    hide WeakOk, WeaksOk, WrapperAgrees;
    BaseFilled(s, h', {WrapperInstance(w), WrapperInfo(w)}, w);
  }
}
