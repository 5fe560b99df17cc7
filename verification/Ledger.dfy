/** The account of factory references: `lostProducts` and the references of one factory. */
module Ledger {
  import opened Common
  import opened Runtime
  import opened Registries
  import opened LoaderSteps
  import opened Plugins
  import opened Lifetime
  import opened Products
  import opened Agreement
  import opened Steps
  import opened Order
  import opened Safety
  import opened Runs

  // ---------------------------------------------------------------- the lost count

  /** The part of a run after its last clean-up. */
  function AfterCleanup(steps: seq<Step>): seq<Step> {
    if steps == [] || steps[|steps| - 1].CleanupLostProducts? then []
    else AfterCleanup(steps[..|steps| - 1]) + [steps[|steps| - 1]]
  }

  function PlainDeletes(steps: seq<Step>): nat {
    if steps == [] then 0
    else PlainDeletes(steps[..|steps| - 1]) + if steps[|steps| - 1].BeginPlainDelete? then 1 else 0
  }

  lemma {:induction false} RunLast(c: Catalog, s: System, steps: seq<Step>)
    requires Possible(c, s, steps) && steps != []
    ensures var front, last := steps[..|steps| - 1], steps[|steps| - 1];
            && Possible(c, s, front) && Enabled(c, Run(c, s, front), last)
            && Run(c, s, steps) == Next(c, Run(c, s, front), last)
    decreases |steps|
  {
    hide Enabled, Next;
    var front, last := steps[..|steps| - 1], steps[|steps| - 1];
    if |steps| == 1 {
      assert front == [] && steps[1..] == [];
      var s' := Next(c, s, steps[0]);
      assert Run(c, s', steps[1..]) == s';
    } else {
      RunLast(c, Next(c, s, steps[0]), steps[1..]);
      assert steps[1..][..|steps| - 2] == front[1..] && steps[1..][|steps| - 2] == last;
    }
  }

  lemma LostStep(c: Catalog, s: System, step: Step)
    requires Enabled(c, s, step)
    ensures |Next(c, s, step).lost| ==
            if step.CleanupLostProducts? then 0 else |s.lost| + if step.BeginPlainDelete? then 1 else 0
  {
    hide Instantiated, Copied, Cleared, Destroyed, GotInterface, CopySlot, DropInstance, Called, Locked, ExternallyOpened,
         ExternallyClosed, Lookup, MayOpen, InfoMissing, DropLost, DeletedHeap, DropLibs, DropInfos, LoadedHeap, LoadedTables,
         ForgetPlugins, ForgottenTables, Touch, Created, CreatedStatic, Introduced, Share;
    if step.Instantiate? {
      InstantiatedLost(c, s, step);
    }
  }

  lemma InstantiatedLost(c: Catalog, s: System, step: Step)
    requires Enabled(c, s, step) && step.Instantiate?
    ensures Instantiated(s, step.loader, step.nameOrAlias, step.wrapper).lost == s.lost
  {
    hide Lookup, Created, Introduced;
  }

  /** In every run `LostProductCount` is the number of plain deletes since the last clean-up. */
  lemma {:induction false} LostCount(c: Catalog, steps: seq<Step>)
    requires Possible(c, INITIAL, steps)
    ensures |Run(c, INITIAL, steps).lost| == PlainDeletes(AfterCleanup(steps))
  {
    hide Enabled, Next;
    if steps == [] {
    } else {
      var front, last := steps[..|steps| - 1], steps[|steps| - 1];
      RunLast(c, INITIAL, steps);
      LostCount(c, front);
      LostStep(c, Run(c, INITIAL, front), last);
      if !last.CleanupLostProducts? {
        assert AfterCleanup(steps)[..|AfterCleanup(steps)| - 1] == AfterCleanup(front);
      }
    }
  }

  // ---------------------------------------------------------------- the references of one factory

  /** Users of the factory itself. */
  function Users(h: Heap, id: Id): set<Slot> {
    set sl | sl in h.slots && h.slots[sl] == id && (sl.WrapperInstance? || sl.Interface?)
  }

  /** Products that are not destroyed yet. */
  function LiveProducts(products: map<nat, Made>, id: Id): set<nat> {
    set p | p in products && (products[p].phase.Alive? || products[p].phase.Pushed?) && products[p].factory == id
  }

  /** Products that were deleted without a ProductPtr and not cleaned up after. */
  function LostProducts(products: map<nat, Made>, lost: seq<nat>, id: Id): set<nat> {
    set p | p in lost && p in products && products[p].factory == id
  }

  function ProductSlots(products: set<nat>): set<Slot> {
    set p | p in products :: Product(p)
  }

  function LostSlotsOf(products: set<nat>): set<Slot> {
    set p | p in products :: Lost(p)
  }

  lemma {:induction false} SlotCount(products: set<nat>)
    ensures |ProductSlots(products)| == |LostSlotsOf(products)| == |products|
  {
    if products == {} {
      assert ProductSlots(products) == {} && LostSlotsOf(products) == {};
    } else {
      var p :| p in products;
      SlotCount(products - {p});
      assert ProductSlots(products) == ProductSlots(products - {p}) + {Product(p)};
      assert LostSlotsOf(products) == LostSlotsOf(products - {p}) + {Lost(p)};
    }
  }

  /** Each product that is alive and each product that was lost holds exactly one reference to
      its factory, and nobody else does but the users of the factory. */
  lemma FactoryReferences(s: System, id: Id)
    requires Base(s) && id in s.heap.blocks && s.heap.blocks[id].payload.InstancePayload?
    ensures s.heap.blocks[id].strong ==
            |Users(s.heap, id)| + |LiveProducts(s.products, id)| + |LostProducts(s.products, s.lost, id)|
  {
    hide WellFormed, LoadersBase, WrappersAgree, WeaksOk, ProductsOk;
    var h := s.heap;
    HoldersCounted(h);
    var live, lost := LiveProducts(s.products, id), LostProducts(s.products, s.lost, id);
    forall sl: Slot
      ensures sl in Holders(h, id) <==> sl in Users(h, id) + ProductSlots(live) + LostSlotsOf(lost)
    {
      HolderIs(s, id, sl);
    }
    assert Holders(h, id) == Users(h, id) + ProductSlots(live) + LostSlotsOf(lost);
    SlotCount(live);
    SlotCount(lost);
  }

  lemma HolderIs(s: System, id: Id, sl: Slot)
    requires Base(s) && id in s.heap.blocks && s.heap.blocks[id].payload.InstancePayload?
    ensures sl in Holders(s.heap, id) <==>
            || sl in Users(s.heap, id)
            || (sl.Product? && sl.product in LiveProducts(s.products, id))
            || (sl.Lost? && sl.product in LostProducts(s.products, s.lost, id))
  {
    hide WellFormed, LoadersBase, WrappersAgree, WeaksOk, ProductsOk;
    KindAt(s.heap, sl);
    if sl.Product? || sl.Lost? {
      ProductAt(s, sl.product);
    }
  }

  /** The same in every run of a program. */
  lemma FactoryReferencesProgram(c: Catalog, steps: seq<Step>, id: Id)
    requires WellNamed(c) && Possible(c, INITIAL, steps)
    requires var s := Run(c, INITIAL, steps); id in s.heap.blocks && s.heap.blocks[id].payload.InstancePayload?
    ensures var s := Run(c, INITIAL, steps);
            s.heap.blocks[id].strong == |Users(s.heap, id)| + |LiveProducts(s.products, id)| + |LostProducts(s.products, s.lost, id)|
  {
    hide WellNamed, Possible, Run, Base, Users, LiveProducts, LostProducts;
    BaseProgram(c, steps);
    FactoryReferences(Run(c, INITIAL, steps), id);
  }

  // ---------------------------------------------------------------- destructors run in loaded libraries

  ghost predicate Guarded(s: System) {
    forall p :: DeleteGuarded(s, p)
  }

  /** A clean-up while a plain delete is under way. */
  ghost predicate CleansUpInside(s: System, step: Step) {
    step.CleanupLostProducts? && exists p :: MidDelete(s, p)
  }

  lemma LoaderStepGuarded(c: Catalog, s: System, step: Step)
    requires WellNamed(c) && Base(s) && Guarded(s) && Enabled(c, s, step) && LoaderStep(step)
    ensures Guarded(Next(c, s, step))
  {
    hide WellNamed, Base, Frame, Lists, MayOpen, DropLibs, DropInfos, LoadedHeap, LoadedTables, ForgetPlugins, ForgottenTables,
         PinnedName, Catalogue, WellFormed, FilledSlots, OpenedAs, DeleteGuarded;
    BaseHeap(s);
    FrameRefl(s.heap);
    var s' := Next(c, s, step);
    match step {
      case NewLoader => GuardedFrame(s, s', {});
      case DestroyLoader(l, infoOrder, libOrder) =>
        DestroyLoaderFrame(s, l, infoOrder, libOrder);
        GuardedFrame(s, s', InfoSlots(l, infoOrder) + LibSlots(l, libOrder));
      case LoadLib(l, lib, handle, infos) =>
        CatalogueOf(c, lib, infos);
        LoadFrame(s, l, lib, handle, infos);
        FilledRest(s.heap, s'.heap, l, s.loaders[l].registry, infos, OpenPtrs(s.heap, s.loaders[l].handlePtrs, handle)[handle],
                   NewCode(s.heap, handle));
        LostSame(s, s');
      case ForgetLibrary(l, handle, order) =>
        if handle in s.loaders[l].handlePlugins {
          ForgetFrame(s, l, order);
          GuardedFrame(s, s', InfoSlots(l, order) + LibSlots(l, order));
        }
    }
  }

  lemma LostSame(s: System, s': System)
    requires Guarded(s) && s'.products == s.products && forall p :: SameAt(s.heap, s'.heap, Lost(p))
    ensures Guarded(s')
  {
    forall p
      ensures DeleteGuarded(s', p)
    {
      assert DeleteGuarded(s, p) && SameAt(s.heap, s'.heap, Lost(p));
    }
  }

  lemma WrapperProducts(c: Catalog, s: System, step: Step)
    requires Enabled(c, s, step) && !LoaderStep(step) && !ProductStep(step)
    ensures Next(c, s, step).products == s.products && (forall sl | sl in Written(s, step) :: !sl.Lost?)
  {
    hide Instantiated, Copied, Cleared, Destroyed, GotInterface, CopySlot, DropInstance, Called, Locked, ExternallyOpened,
         ExternallyClosed, Lookup, MayOpen, InfoMissing, Created, CreatedStatic, Introduced, Fresh;
    if step.Instantiate? {
      InstantiatedProducts(s, step.loader, step.nameOrAlias, step.wrapper);
    }
  }

  lemma InstantiatedProducts(s: System, l: nat, nameOrAlias: string, w: nat)
    requires l in s.loaders
    ensures Instantiated(s, l, nameOrAlias, w).products == s.products
  {
    hide Lookup, Created, Introduced;
  }

  /** The product that a step works on is guarded afterwards. */
  lemma GuardedAfter(c: Catalog, s: System, step: Step, p: nat)
    requires Base(s) && Guarded(s) && Enabled(c, s, step)
    requires step == DeleteProduct(p) || step == BeginPlainDelete(p) || step == ReleaseMember(p) || step == LeaveDestructor(p)
    ensures DeleteGuarded(Next(c, s, step), p)
  {
    hide Base, Frame, WellFormed, DropInstance, CopySlot, DeletedHeap, Touch;
    match step {
      case DeleteProduct(_) =>
      case BeginPlainDelete(_) => BaseBegin(s, p);
      case ReleaseMember(_) =>
        BaseRelease(s, p);
        assert DeleteGuarded(s, p);
      case LeaveDestructor(_) =>
    }
  }

  lemma CleanupGuarded(s: System)
    requires Base(s) && !(exists p :: MidDelete(s, p))
    ensures Guarded(s.(heap := DropLost(s.heap, s.lost), lost := []))
  {
    hide Base, DropLost;
    assert forall p :: MidDelete(s, p) || DeleteGuarded(s.(heap := DropLost(s.heap, s.lost), lost := []), p);
  }

  lemma ConstructGuarded(s: System, slot: Slot, p: nat)
    requires Base(s) && Guarded(s) && slot in s.heap.slots && (slot.WrapperInstance? || slot.Interface?) && p !in s.products
    ensures Guarded(Constructed(s, slot, p))
  {
    hide Base, Frame, WellFormed, Touch, Share, InfoMissing;
    BaseHeap(s);
    ConstructFrame(s, slot, p);
    assert DeleteGuarded(s, p);
    GuardedProduct(s, Constructed(s, slot, p), {Product(p)}, p);
  }

  /** The steps of a delete change one product. */
  lemma DeleteStepWrites(c: Catalog, s: System, step: Step, p: nat)
    requires Enabled(c, s, step)
    requires step == DeleteProduct(p) || step == BeginPlainDelete(p) || step == ReleaseMember(p) || step == LeaveDestructor(p)
    ensures forall q | q != p && q in Next(c, s, step).products :: q in s.products && Next(c, s, step).products[q] == s.products[q]
    ensures forall sl | sl in Written(s, step) && sl.Lost? :: sl.product == p
  {
    hide DropInstance, CopySlot, DeletedHeap, Touch;
  }

  lemma DeleteStepGuarded(c: Catalog, s: System, step: Step, p: nat)
    requires Base(s) && Guarded(s) && Enabled(c, s, step)
    requires step == DeleteProduct(p) || step == BeginPlainDelete(p) || step == ReleaseMember(p) || step == LeaveDestructor(p)
    ensures Guarded(Next(c, s, step))
  {
    hide Base, Frame, WellFormed, Enabled, Next, Written, DeleteGuarded;
    BaseHeap(s);
    ProductStepFrame(c, s, step);
    GuardedAfter(c, s, step, p);
    DeleteStepWrites(c, s, step, p);
    GuardedProduct(s, Next(c, s, step), Written(s, step), p);
  }

  lemma ProductStepGuarded(c: Catalog, s: System, step: Step)
    requires Base(s) && Guarded(s) && Enabled(c, s, step) && ProductStep(step) && !CleansUpInside(s, step)
    ensures Guarded(Next(c, s, step))
  {
    hide Base, Frame, WellFormed, DropLost, DropInstance, CopySlot, DeletedHeap, Touch, LostSlots, Constructed, Guarded, MidDelete;
    match step {
      case Construct(slot, p) => ConstructGuarded(s, slot, p);
      case CallProduct(p) =>
        ProductStepFrame(c, s, step);
        WrittenGuarded(s, Next(c, s, step), {});
      case DeleteProduct(p) => DeleteStepGuarded(c, s, step, p);
      case BeginPlainDelete(p) => DeleteStepGuarded(c, s, step, p);
      case ReleaseMember(p) => DeleteStepGuarded(c, s, step, p);
      case LeaveDestructor(p) => DeleteStepGuarded(c, s, step, p);
      case CleanupLostProducts => CleanupGuarded(s);
    }
  }

  lemma GuardedStep(c: Catalog, s: System, step: Step)
    requires WellNamed(c) && Base(s) && Guarded(s) && Enabled(c, s, step) && !CleansUpInside(s, step)
    ensures Guarded(Next(c, s, step))
  {
    hide WellNamed, Base, Frame, Written, Next, Guarded, CleansUpInside, DeleteGuarded;
    if LoaderStep(step) {
      LoaderStepGuarded(c, s, step);
    } else if ProductStep(step) {
      ProductStepGuarded(c, s, step);
    } else {
      WrapperStepFrame(c, s, step);
      WrapperProducts(c, s, step);
      WrittenGuarded(s, Next(c, s, step), Written(s, step));
    }
  }

  lemma WrittenGuarded(s: System, s': System, changed: set<Slot>)
    requires Base(s) && Guarded(s) && Frame(s.heap, s'.heap, changed) && s'.products == s.products
    requires forall sl | sl in changed :: !sl.Lost?
    ensures Guarded(s')
  {
    hide Base, Frame, DeleteGuarded;
    BaseHeap(s);
    GuardedFrame(s, s', changed);
  }

  /** No clean-up falls inside a plain delete. */
  ghost predicate Patient(c: Catalog, s: System, steps: seq<Step>)
    requires Possible(c, s, steps)
    decreases |steps|
  {
    steps == [] || (!CleansUpInside(s, steps[0]) && Patient(c, Next(c, s, steps[0]), steps[1..]))
  }

  lemma {:induction false} GuardedRun(c: Catalog, s: System, steps: seq<Step>)
    requires WellNamed(c) && Base(s) && Guarded(s) && Possible(c, s, steps) && Patient(c, s, steps)
    ensures Guarded(Run(c, s, steps))
    decreases |steps|
  {
    hide WellNamed, Base, Enabled, Next, Guarded, CleansUpInside;
    if steps == [] {
    } else {
      BaseStep(c, s, steps[0]);
      GuardedStep(c, s, steps[0]);
      GuardedRun(c, Next(c, s, steps[0]), steps[1..]);
    }
  }

  /** Whatever else a program does: if no clean-up falls inside a plain delete, every step of every
      delete runs in a loaded library. */
  lemma DestructorsRunLoaded(c: Catalog, steps: seq<Step>, step: Step)
    requires WellNamed(c) && Disjoint(c) && Possible(c, INITIAL, steps) && Patient(c, INITIAL, steps)
    requires Enabled(c, Run(c, INITIAL, steps), step)
    requires step.DeleteProduct? || step.BeginPlainDelete? || step.ReleaseMember? || step.LeaveDestructor?
    ensures Next(c, Run(c, INITIAL, steps), step).heap.fault == Run(c, INITIAL, steps).heap.fault
  {
    hide WellNamed, Disjoint, Possible, Run, Patient, Base, Agrees, DeletedHeap, CopySlot, DropInstance, Tied;
    var s := Run(c, INITIAL, steps);
    OrderlyProgram(c, steps);
    InitialGood(c);
    GuardedRun(c, INITIAL, steps);
    match step {
      case DeleteProduct(p) => BaseDelete(s, p);
      case BeginPlainDelete(p) => BaseBegin(s, p);
      case ReleaseMember(p) => BaseRelease(s, p);
      case LeaveDestructor(p) =>
        BaseLeave(s, p);
        assert DeleteGuarded(s, p);
        if s.products[p].code.Resident? {
          ResidentRuns(s, p);
        }
    }
  }

  lemma ResidentRuns(s: System, p: nat)
    requires p in s.products && s.products[p].code.Resident?
    ensures Touch(s.heap, s.products[p].code).fault == s.heap.fault
  {
  }
}
