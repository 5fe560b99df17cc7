/** What each step of a program keeps, whatever the program does otherwise. */
module Steps {
  import opened Common
  import opened Runtime
  import opened Registries
  import opened LoaderSteps
  import opened Plugins
  import opened Lifetime
  import opened Products
  import opened Agreement

  predicate LoaderStep(step: Step) {
    step.NewLoader? || step.DestroyLoader? || step.LoadLib? || step.ForgetLibrary?
  }

  predicate ProductStep(step: Step) {
    || step.Construct? || step.CallProduct? || step.DeleteProduct? || step.BeginPlainDelete?
    || step.ReleaseMember? || step.LeaveDestructor? || step.CleanupLostProducts?
  }

  /** The slots that a step writes, other than those of a Loader. */
  function Written(s: System, step: Step): set<Slot> {
    match step
    case Instantiate(_, _, w) => CreatedSlots(s.heap, w)
    case InstantiateStatic(_, w) => {WrapperInfo(w), WrapperInstance(w)}
    case CopyWrapper(to, _) => {WrapperInstance(to), WrapperInfo(to)}
    case ClearWrapper(w) => {WrapperInstance(w), WrapperInfo(w)}
    case DestroyWrapper(w) => {WrapperInfo(w), WrapperInstance(w)}
    case GetInterface(_, _, k) => {Interface(k)}
    case CopyInterface(to, _) => {Interface(to)}
    case DropInterface(k) => {Interface(k)}
    case LockWeak(_, w) => {WrapperInstance(w), WrapperInfo(w)}
    case Construct(_, p) => {Product(p)}
    case DeleteProduct(p) => {Product(p)}
    case BeginPlainDelete(p) => {Lost(p)}
    case ReleaseMember(p) => {Product(p)}
    case CleanupLostProducts => LostSlots(s.lost)
    case _ => {}
  }

  /** Steps that work on wrappers, interface pointers and weak references. */
  lemma WrapperStepFrame(c: Catalog, s: System, step: Step)
    requires Base(s) && Enabled(c, s, step) && !LoaderStep(step) && !ProductStep(step)
    ensures var s' := Next(c, s, step);
            Base(s') && Frame(s.heap, s'.heap, Written(s, step)) && s'.loaders == s.loaders
  {
    hide Base, Frame, Fresh, Instantiated, InstantiatedStatic, Copied, Cleared, Destroyed, GotInterface, CopySlot, DropInstance,
         Called, Locked, ExternallyOpened, ExternallyClosed, Lookup, MayOpen, InfoMissing;
    BaseHeap(s);
    FrameRefl(s.heap);
    match step {
      case Instantiate(l, n, w) => InstantiateFrame(s, l, n, w);
      case InstantiateStatic(info, w) => InstantiateStaticFrame(s, info, w);
      case CopyWrapper(to, from) => BaseCopy(s, to, from); CopiedFrame(s.heap, to, from);
      case ClearWrapper(w) => BaseClear(s, w); ClearedFrame(s.heap, w);
      case DestroyWrapper(w) => BaseClear(s, w); DestroyedFrame(s.heap, w);
      case GetInterface(w, i, k) => BaseGetInterface(s, w, i, k);
      case CopyInterface(to, from) => BaseCopyInterface(s, to, from); CopyInterfaceFrame(s, to, from);
      case DropInterface(k) => BaseDropInterface(s, k); DropInterfaceFrame(s, k);
      case Call(slot) => CallFrame(s, slot);
      case Observe(v, w) => BaseObserve(s, v, w);
      case LockWeak(name, w) => LockFrame(s, name, w);
      case ExternalOpen(lib, handle) => ExternalOpenFrame(s.heap, lib, handle); BaseQuiet(s, ExternallyOpened(s.heap, lib, handle));
      case ExternalClose(handle) => ExternalCloseFrame(s.heap, handle); BaseQuiet(s, ExternallyClosed(s.heap, handle));
    }
  }

  lemma BaseQuiet(s: System, h': Heap)
    requires Base(s) && Frame(s.heap, h', {})
    ensures Base(s.(heap := h'))
  {
    hide Frame;
    BaseFrame(s, h', {});
  }

  lemma InstantiateFrame(s: System, l: nat, nameOrAlias: string, w: nat)
    requires Base(s) && l in s.loaders && Fresh(s.heap, w)
    ensures var s' := Instantiated(s, l, nameOrAlias, w);
            && Base(s') && Frame(s.heap, s'.heap, CreatedSlots(s.heap, w))
            && s'.loaders == s.loaders && s'.products == s.products
            && (PinnedName(s.heap, l, Lookup(s.loaders[l].registry, nameOrAlias)) ==>
                  s'.heap.fault == s.heap.fault && (Tied(s.heap) ==> Tied(s'.heap)))
  {
    hide Base, Frame, Lookup, Created, WellFormed, Introduced, Tied, CreatedSlots;
    BaseInstantiate(s, l, nameOrAlias, w);
    BaseHeap(s);
    var h := s.heap;
    var name := Lookup(s.loaders[l].registry, nameOrAlias);
    if Held(h, LoaderInfo(l, name)) && Held(h, LoaderLib(l, name)) && PayloadAt(h, LoaderInfo(l, name)).InfoPayload? {
      KindAt(h, LoaderLib(l, name));
      CreatedFrame(h, w, h.slots[LoaderInfo(l, name)], h.slots[LoaderLib(l, name)]);
    } else {
      FrameRefl(h);
      FrameMore(h, h, {}, CreatedSlots(h, w));
    }
  }

  lemma FrameMore(h: Heap, h': Heap, changed: set<Slot>, more: set<Slot>)
    requires Frame(h, h', changed) && changed <= more
    ensures Frame(h, h', more)
  {
    hide WellFormed, Evolves, NoNewLibs;
  }

  lemma InstantiateStaticFrame(s: System, info: Info, w: nat)
    requires Base(s) && Fresh(s.heap, w)
    ensures var s' := InstantiatedStatic(s, info, w);
            && Base(s') && Frame(s.heap, s'.heap, {WrapperInfo(w), WrapperInstance(w)})
            && s'.loaders == s.loaders && s'.heap.fault == s.heap.fault && s'.products == s.products
  {
    hide Base, Frame, CreatedStatic, WellFormed, Introduced;
    BaseInstantiateStatic(s, info, w);
    BaseHeap(s);
    CreatedStaticFrame(s.heap, w, info);
  }

  lemma CopyInterfaceFrame(s: System, to: nat, from: nat)
    requires Base(s) && Interface(to) !in s.heap.slots
    ensures Frame(s.heap, CopySlot(s.heap, Interface(to), Interface(from)), {Interface(to)})
    ensures CopySlot(s.heap, Interface(to), Interface(from)).fault == s.heap.fault
  {
    hide Base, Frame, WellFormed;
    BaseHeap(s);
    KindAt(s.heap, Interface(from));
    CopySlotFrame(s.heap, Interface(to), Interface(from));
  }

  lemma DropInterfaceFrame(s: System, k: nat)
    requires Base(s)
    ensures Frame(s.heap, DropInstance(s.heap, Interface(k)), {Interface(k)})
    ensures Tied(s.heap) ==> DropInstance(s.heap, Interface(k)).fault == s.heap.fault
  {
    hide Base, Frame, WellFormed, Tied;
    BaseHeap(s);
    KindAt(s.heap, Interface(k));
    DropInstanceFrame(s.heap, Interface(k));
    if Tied(s.heap) {
      DropsRunLoaded(s.heap, Interface(k));
    }
  }

  lemma CallFrame(s: System, slot: Slot)
    requires Base(s) && slot in s.heap.slots && (slot.WrapperInstance? || slot.Interface?)
    ensures Frame(s.heap, Called(s.heap, slot), {}) && (Tied(s.heap) ==> Called(s.heap, slot).fault == s.heap.fault)
    ensures Base(s.(heap := Called(s.heap, slot)))
  {
    hide Base, Frame, WellFormed, Tied;
    BaseHeap(s);
    KindAt(s.heap, slot);
    if Tied(s.heap) {
      InstanceLoaded(s.heap, s.heap.slots[slot]);
    }
    TouchFrame(s.heap, PayloadAt(s.heap, slot).code);
    BaseTouch(s, PayloadAt(s.heap, slot).code);
  }

  lemma LockFrame(s: System, name: WeakName, w: nat)
    requires Base(s) && name in s.weaks && Fresh(s.heap, w)
    ensures var h' := Locked(s.heap, w, s.weaks[name].instance, s.weaks[name].info);
            && Frame(s.heap, h', {WrapperInstance(w), WrapperInfo(w)}) && (Tied(s.heap) ==> h'.fault == s.heap.fault)
            && Base(s.(heap := h', broken := s.broken || InfoMissing(s.heap, s.weaks[name])))
            && LockedSlot(s.heap, h', WrapperInstance(w), s.weaks[name].instance)
            && LockedSlot(s.heap, h', WrapperInfo(w), s.weaks[name].info)
  {
    hide Base, Frame, WellFormed, Paired, LockedSlot, Tied;
    var weak := s.weaks[name];
    BaseHeap(s);
    WeakAt(s, name);
    BaseLock(s, name, w);
    LockedFrame(s.heap, w, weak.instance, weak.info);
    BaseBroken(s.(heap := Locked(s.heap, w, weak.instance, weak.info)), s.broken || InfoMissing(s.heap, weak));
  }

  lemma WeakAt(s: System, name: WeakName)
    requires Base(s) && name in s.weaks
    ensures Paired(s.heap, s.weaks[name].instance, s.weaks[name].info)
    ensures name.FromThis? ==> s.weaks[name].instance == Some(name.instance)
  {
    hide WellFormed, LoadersBase, WrappersAgree, ProductsOk, Paired;
    assert WeakOk(s.heap, s.weaks[name]);
  }

  /** Steps that work on the products of factories. */
  lemma ProductStepFrame(c: Catalog, s: System, step: Step)
    requires Base(s) && Enabled(c, s, step) && ProductStep(step)
    ensures var s' := Next(c, s, step);
            Base(s') && Frame(s.heap, s'.heap, Written(s, step)) && s'.loaders == s.loaders
  {
    hide Base, Frame, WellFormed, Constructed, DeletedHeap, CopySlot, DropInstance, DropLost, Touch, LostSlots, Changes, SetPhase;
    BaseHeap(s);
    var h := s.heap;
    match step {
      case Construct(slot, p) => ConstructFrame(s, slot, p);
      case CallProduct(p) => TouchFrame(h, s.products[p].code); BaseTouch(s, s.products[p].code);
      case DeleteProduct(p) => BaseDelete(s, p); ProductHeld(s, p); DeletedFrame(h, p, s.products[p].code);
      case CleanupLostProducts => BaseCleanup(s); DropLostFrame(h, s.lost);
      case _ => PlainDeleteFrame(c, s, step);
    }
  }

  lemma PlainDeleteFrame(c: Catalog, s: System, step: Step)
    requires Base(s) && Enabled(c, s, step) && (step.BeginPlainDelete? || step.ReleaseMember? || step.LeaveDestructor?)
    ensures var s' := Next(c, s, step);
            Base(s') && Frame(s.heap, s'.heap, Written(s, step)) && s'.loaders == s.loaders
  {
    hide Base, Frame, WellFormed, CopySlot, DropInstance, Touch, Changes, SetPhase;
    BaseHeap(s);
    match step {
      case BeginPlainDelete(p) => BaseBegin(s, p); BeginFrame(s, p);
      case ReleaseMember(p) => BaseRelease(s, p); KindAt(s.heap, Product(p)); DropInstanceFrame(s.heap, Product(p));
      case LeaveDestructor(p) => BaseLeave(s, p); TouchFrame(s.heap, s.products[p].code);
    }
  }

  lemma ProductHeld(s: System, p: nat)
    requires Base(s) && p in s.products && (s.products[p].phase.Alive? || s.products[p].phase.Pushed?)
    ensures Product(p) in s.heap.slots && KindOk(s.heap, Product(p)) && PayloadAt(s.heap, Product(p)).code == s.products[p].code
    ensures Tied(s.heap) ==> Loaded(s.heap, s.products[p].code)
  {
    hide WellFormed, LoadersBase, WrappersAgree, WeaksOk, Loaded, Tied;
    ProductAt(s, p);
    if Tied(s.heap) {
      InstanceLoaded(s.heap, s.heap.slots[Product(p)]);
    }
  }

  lemma BeginFrame(s: System, p: nat)
    requires Base(s) && p in s.products && s.products[p].phase.Alive?
    ensures Frame(s.heap, CopySlot(Touch(s.heap, s.products[p].code), Lost(p), Product(p)), {Lost(p)})
  {
    hide Base, Frame, WellFormed;
    BaseHeap(s);
    ProductHeld(s, p);
    LostNot(s, p);
    var h := s.heap;
    var code := s.products[p].code;
    var h1 := Touch(h, code);
    TouchFrame(h, code);
    FrameHeap(h, h1, {});
    KindAt(h1, Product(p));
    CopySlotFrame(h1, Lost(p), Product(p));
    FrameTransitive(h, h1, CopySlot(h1, Lost(p), Product(p)), {}, {Lost(p)});
    assert {} + {Lost(p)} == {Lost(p)};
  }

  lemma FrameHeap(h: Heap, h': Heap, changed: set<Slot>)
    requires Frame(h, h', changed)
    ensures WellFormed(h') && Evolves(h, h')
  {
  }

  lemma LostNot(s: System, p: nat)
    requires Base(s) && p in s.products && s.products[p].phase.Alive?
    ensures Lost(p) !in s.heap.slots
  {
    hide WellFormed, LoadersBase, WrappersAgree, WeaksOk;
    ProductAt(s, p);
  }

  lemma ConstructFrame(s: System, slot: Slot, p: nat)
    requires Base(s) && slot in s.heap.slots && (slot.WrapperInstance? || slot.Interface?) && p !in s.products
    ensures var s' := Constructed(s, slot, p);
            Base(s') && Frame(s.heap, s'.heap, {Product(p)}) && s'.loaders == s.loaders
            && (Tied(s.heap) ==> s'.heap.fault == s.heap.fault)
  {
    hide Base, Frame, WellFormed, InfoMissing;
    BaseHeap(s);
    BaseConstruct(s, slot, p);
    var h := s.heap;
    KindAt(h, slot);
    ProductAt(s, p);
    NoProduct(s, p);
    var id := h.slots[slot];
    var code := PayloadAt(h, slot).code;
    FrameRefl(h);
    FrameMore(h, h, {}, {Product(p)});
    if FromThis(id) in s.weaks {
      TouchFrame(h, code);
      var h1 := Touch(h, code);
      FrameHeap(h, h1, {});
      ShareFrame(h1, Product(p), id);
      FrameTransitive(h, h1, Share(h1, Product(p), id), {}, {Product(p)});
      assert {} + {Product(p)} == {Product(p)};
    }
  }

  lemma LoaderStepBase(c: Catalog, s: System, step: Step)
    requires WellNamed(c) && Base(s) && Enabled(c, s, step) && LoaderStep(step)
    ensures Base(Next(c, s, step))
  {
    hide WellNamed, Base, Lists, MayOpen, DropLibs, DropInfos, LoadedHeap, LoadedTables, ForgetPlugins, ForgottenTables, Catalogue;
    match step {
      case NewLoader => NewLoaderBase(s);
      case DestroyLoader(l, infoOrder, libOrder) => BaseDestroyLoader(s, l, infoOrder, libOrder);
      case LoadLib(l, lib, handle, infos) =>
        CatalogueOf(c, lib, infos);
        BaseLoadLib(s, l, lib, handle, infos);
      case ForgetLibrary(l, handle, order) =>
        if handle in s.loaders[l].handlePlugins {
          BaseForget(s, l, handle, order);
        }
    }
  }

  lemma NewLoaderBase(s: System)
    requires Base(s)
    ensures Base(s.(loaders := s.loaders[s.nextLoader := EMPTY_LOADER], nextLoader := s.nextLoader + 1))
  {
    hide WellFormed, LoadersBase, WrappersAgree, WeaksOk, ProductsOk;
    BaseNewLoader(s);
  }

  /** Every step, hazardous or not, keeps the account of references, whatever the names of the
      plugins are. */
  lemma BaseStep(c: Catalog, s: System, step: Step)
    requires WellNamed(c) && Base(s) && Enabled(c, s, step)
    ensures Base(Next(c, s, step))
  {
    hide WellNamed, Base, Frame, Written, Enabled, Next;
    if LoaderStep(step) {
      LoaderStepBase(c, s, step);
    } else if ProductStep(step) {
      ProductStepFrame(c, s, step);
    } else {
      WrapperStepFrame(c, s, step);
    }
  }

  lemma NoProduct(s: System, p: nat)
    requires Base(s) && p !in s.products
    ensures Product(p) !in s.heap.slots
  {
    hide WellFormed, LoadersBase, WrappersAgree, WeaksOk;
    ProductAt(s, p);
  }
}
