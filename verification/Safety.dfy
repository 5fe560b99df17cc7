/** Which steps of a program may call into a library that is gone. */
module Safety {
  import opened Common
  import opened Runtime
  import opened Registries
  import opened LoaderSteps
  import opened Plugins
  import opened Lifetime
  import opened Products
  import opened Agreement
  import opened Steps
  import opened Order

  // ---------------------------------------------------------------- safe states and hazardous steps

  /** While `delete` runs on a product from a library, lostProducts keeps the library loaded. */
  predicate DeleteGuarded(s: System, p: nat) {
    p in s.products && (s.products[p].phase.Pushed? || s.products[p].phase.Released?) && s.products[p].code.Dynamic? ==>
      Lost(p) in s.heap.slots
  }

  /** What a safe state says beyond the tables of the Loaders. */
  ghost predicate Calm(s: System) {
    && !s.heap.fault && !s.broken
    && (forall w :: InfoPinned(s.heap, w))
    && (forall p :: DeleteGuarded(s, p))
  }

  ghost predicate Good(c: Catalog, s: System) {
    Orderly(c, s) && Calm(s)
  }

  /** Only one of the two objects of a plugin is alive. */
  predicate HalfAlive(h: Heap, weak: Weak) {
    || (LivesIn(weak.instance, h) && !LivesIn(weak.info, h))
    || (!LivesIn(weak.instance, h) && LivesIn(weak.info, h) && h.blocks[weak.info.value].payload.code.Dynamic?)
  }

  predicate MidDelete(s: System, p: nat) {
    p in s.products && (s.products[p].phase.Pushed? || s.products[p].phase.Released?) && s.products[p].code.Dynamic?
  }

  /** The steps that a caller has to avoid.
      - `LoadLib` for a library with a name that the Loader knows from elsewhere.
      - `Clear` of the last wrapper of an Info whose instance holds the last reference to the library;
        copying to a wrapper clears it first.
      - `Lock` when only one of instance and Info is alive; `Construct` when the Info is dead.
      - `CleanupLostProducts` while a plain `delete` is under way. */
  ghost predicate Hazard(s: System, step: Step) {
    match step
    case LoadLib(_, _, _, _) => Clashes(s, step)
    case CopyWrapper(to, _) => ClearHazard(s.heap, to)
    case ClearWrapper(w) => ClearHazard(s.heap, w)
    case LockWeak(name, _) => name in s.weaks && HalfAlive(s.heap, s.weaks[name])
    case Construct(slot, _) =>
      Held(s.heap, slot) && FromThis(s.heap.slots[slot]) in s.weaks && InfoMissing(s.heap, s.weaks[FromThis(s.heap.slots[slot])])
    case CleanupLostProducts => exists p :: MidDelete(s, p)
    case _ => false
  }

  // ---------------------------------------------------------------- wrappers

  lemma PinnedFrame(h: Heap, h': Heap, changed: set<Slot>, w: nat)
    requires WellFormed(h) && Frame(h, h', changed) && InfoPinned(h, w)
    requires WrapperInstance(w) !in changed && WrapperInfo(w) !in changed
    ensures InfoPinned(h', w)
  {
    hide WellFormed, Evolves, NoNewLibs;
    StayingSlot(h, h', changed, WrapperInstance(w));
    StayingSlot(h, h', changed, WrapperInfo(w));
  }

  lemma PinnedOthers(h: Heap, h': Heap, changed: set<Slot>)
    requires WellFormed(h) && Frame(h, h', changed) && (forall w :: InfoPinned(h, w))
    requires forall w | WrapperInstance(w) in changed || WrapperInfo(w) in changed :: InfoPinned(h', w)
    ensures forall w :: InfoPinned(h', w)
  {
    hide InfoPinned, Frame, WellFormed;
    forall w
      ensures InfoPinned(h', w)
    {
      if WrapperInstance(w) !in changed && WrapperInfo(w) !in changed {
        PinnedFrame(h, h', changed, w);
      }
    }
  }

  /** A wrapper that has what another one had is pinned like it. */
  lemma PinnedCopied(h: Heap, h': Heap, to: nat, from: nat)
    requires WellFormed(h) && WellFormed(h') && Evolves(h, h') && InfoPinned(h, from)
    requires CopiesSlot(h, h', WrapperInstance(to), WrapperInstance(from))
    requires CopiesSlot(h, h', WrapperInfo(to), WrapperInfo(from))
    ensures InfoPinned(h', to)
  {
    hide WellFormed, Evolves;
    HeldIsIn(h', WrapperInfo(to));
    HeldIsIn(h', WrapperInstance(to));
    HeldIsIn(h, WrapperInfo(from));
    HeldIsIn(h, WrapperInstance(from));
    if WrapperInfo(to) in h'.slots {
      SamePayload(h, h', h.slots[WrapperInfo(from)]);
      if WrapperInstance(from) in h.slots {
        SamePayload(h, h', h.slots[WrapperInstance(from)]);
      }
    }
  }

  /** Agreement of both halves is enough when both are there. */
  lemma PinnedWhole(h: Heap, w: nat)
    requires WellFormed(h) && WrapperAgrees(h, w) && (WrapperInfo(w) in h.slots ==> WrapperInstance(w) in h.slots)
    ensures InfoPinned(h, w)
  {
    hide WellFormed;
    HeldIsIn(h, WrapperInfo(w));
    HeldIsIn(h, WrapperInstance(w));
  }

  /** What the weak references found decides whether the new wrapper is pinned. */
  lemma PinnedLocked(h: Heap, h': Heap, w: nat, weak: Weak)
    requires WellFormed(h) && WellFormed(h') && Evolves(h, h') && Paired(h, weak.instance, weak.info) && WrapperAgrees(h', w)
    requires LockedSlot(h, h', WrapperInstance(w), weak.instance) && LockedSlot(h, h', WrapperInfo(w), weak.info)
    ensures InfoPinned(h', w) && !InfoMissing(h, weak) <==> !HalfAlive(h, weak)
  {
    hide WellFormed, Evolves;
    HeldIsIn(h', WrapperInfo(w));
    HeldIsIn(h', WrapperInstance(w));
    if LivesIn(weak.info, h) {
      SamePayload(h, h', weak.info.value);
    }
  }

  // ---------------------------------------------------------------- products

  lemma GuardedFrame(s: System, s': System, changed: set<Slot>)
    requires WellFormed(s.heap) && Frame(s.heap, s'.heap, changed) && s'.products == s.products
    requires forall sl | sl in changed :: !sl.Lost?
    requires forall p :: DeleteGuarded(s, p)
    ensures forall p :: DeleteGuarded(s', p)
  {
    hide WellFormed, Evolves, NoNewLibs;
    forall p
      ensures DeleteGuarded(s', p)
    {
      assert DeleteGuarded(s, p);
      StayingSlot(s.heap, s'.heap, changed, Lost(p));
    }
  }

  // ---------------------------------------------------------------- steps on wrappers

  /** A step that writes the wrapper `w` only is safe when it ran no dead code, took no
      impossible branch and left the wrapper pinned. */
  lemma WrapperCalm(s: System, s': System, changed: set<Slot>, w: nat)
    requires Base(s) && Calm(s) && Base(s') && s'.products == s.products
    requires Frame(s.heap, s'.heap, changed) && WritesWrapper(changed, w)
    ensures Calm(s') <==> !s'.heap.fault && !s'.broken && InfoPinned(s'.heap, w)
  {
    hide Tied, Base, Frame, InfoPinned, DeleteGuarded;
    BaseHeap(s);
    if InfoPinned(s'.heap, w) {
      PinnedOthers(s.heap, s'.heap, changed);
    }
    GuardedFrame(s, s', changed);
  }

  /** A step that writes neither wrappers nor lost products. */
  lemma QuietCalm(s: System, s': System, changed: set<Slot>)
    requires Base(s) && Tied(s.heap) && Calm(s) && Frame(s.heap, s'.heap, changed)
    requires s'.products == s.products && s'.heap.fault == s.heap.fault && s'.broken == s.broken
    requires forall sl | sl in changed :: !sl.Lost? && !sl.WrapperInstance? && !sl.WrapperInfo?
    ensures Calm(s')
  {
    hide Tied, Base, Frame, InfoPinned, DeleteGuarded;
    BaseHeap(s);
    PinnedOthers(s.heap, s'.heap, changed);
    GuardedFrame(s, s', changed);
  }

  lemma AgreesNow(s: System, w: nat)
    requires Base(s)
    ensures WellFormed(s.heap) && WrapperAgrees(s.heap, w)
  {
    hide WellFormed, LoadersBase, WeaksOk, ProductsOk, WrapperAgrees;
  }

  /** A name that `LookupPlugin` finds has its Info and its library. */
  lemma Instantiable(c: Catalog, s: System, l: nat, nameOrAlias: string)
    requires Orderly(c, s) && l in s.loaders && Lookup(s.loaders[l].registry, nameOrAlias) != ""
    ensures var n := Lookup(s.loaders[l].registry, nameOrAlias);
            && n in s.loaders[l].registry.plugins
            && Held(s.heap, LoaderInfo(l, n)) && Held(s.heap, LoaderLib(l, n)) && PayloadAt(s.heap, LoaderInfo(l, n)).InfoPayload?
            && PayloadAt(s.heap, LoaderInfo(l, n)).info == s.loaders[l].registry.plugins[n]
  {
    hide Base, Exact, Named, PinnedName, Backed, Registered, Lookup;
    BaseHeap(s);
    var t := s.loaders[l];
    assert Agrees(c, s.heap, l, t) && LoaderBase(s.heap, l, t);
    LookupFinds(t.registry, nameOrAlias);
    assert LinkedName(s.heap, l, t.registry, Lookup(t.registry, nameOrAlias));
  }

  lemma InstantiateCalm(c: Catalog, s: System, l: nat, nameOrAlias: string, w: nat)
    requires Orderly(c, s) && Calm(s) && l in s.loaders && Fresh(s.heap, w) && Lookup(s.loaders[l].registry, nameOrAlias) != ""
    ensures Calm(Instantiated(s, l, nameOrAlias, w))
  {
    hide Tied, Base, Frame, Lookup, Calm, Orderly, WellFormed, Created, Introduced, PinnedName;
    OrderlyPinned(c, s, l, Lookup(s.loaders[l].registry, nameOrAlias));
    Instantiable(c, s, l, nameOrAlias);
    InstantiateFrame(s, l, nameOrAlias, w);
    var h, n := s.heap, Lookup(s.loaders[l].registry, nameOrAlias);
    BaseHeap(s);
    KindAt(h, LoaderLib(l, n));
    assert PayloadAt(h, LoaderLib(l, n)).code == PayloadAt(h, LoaderInfo(l, n)).code by { OnePinned(h, l, n); }
    CreatedFrame(h, w, h.slots[LoaderInfo(l, n)], h.slots[LoaderLib(l, n)]);
    var s' := Instantiated(s, l, nameOrAlias, w);
    AgreesNow(s', w);
    hide WrapperAgrees;
    PinnedWhole(s'.heap, w);
    hide InfoPinned;
    WrapperCalm(s, s', CreatedSlots(h, w), w);
    CalmFlags(s);
  }

  lemma OnePinned(h: Heap, l: nat, n: string)
    requires PinnedName(h, l, n) && Held(h, LoaderInfo(l, n))
    ensures Held(h, LoaderLib(l, n)) && PayloadAt(h, LoaderLib(l, n)).code == PayloadAt(h, LoaderInfo(l, n)).code
  {
  }

  lemma CalmFlags(s: System)
    requires Calm(s)
    ensures !s.heap.fault && !s.broken
    ensures forall w :: InfoPinned(s.heap, w)
    ensures forall p :: DeleteGuarded(s, p)
  {
  }

  lemma InstantiateStaticCalm(s: System, info: Info, w: nat)
    requires Base(s) && Tied(s.heap) && Calm(s) && Fresh(s.heap, w)
    ensures Calm(InstantiatedStatic(s, info, w))
  {
    hide Tied, Base, Frame, Calm, WellFormed, CreatedStatic, Introduced;
    InstantiateStaticFrame(s, info, w);
    BaseHeap(s);
    CreatedStaticFrame(s.heap, w, info);
    var s' := InstantiatedStatic(s, info, w);
    AgreesNow(s', w);
    hide WrapperAgrees;
    PinnedWhole(s'.heap, w);
    hide InfoPinned;
    WrapperCalm(s, s', {WrapperInfo(w), WrapperInstance(w)}, w);
    CalmFlags(s);
  }

  lemma ClearCalm(s: System, w: nat)
    requires Base(s) && Tied(s.heap) && Calm(s)
    ensures Calm(s.(heap := Cleared(s.heap, w))) <==> !ClearHazard(s.heap, w)
    ensures Calm(s.(heap := Destroyed(s.heap, w)))
  {
    hide Tied, Base, Frame, Calm, WellFormed, Cleared, Destroyed, ClearHazard;
    BaseHeap(s);
    CalmFlags(s);
    BaseClear(s, w);
    ClearedFrame(s.heap, w);
    ClearFaults(s.heap, w);
    DestroyedFrame(s.heap, w);
    DestroyedFaults(s.heap, w);
    EmptyPinned(Cleared(s.heap, w), w);
    EmptyPinned(Destroyed(s.heap, w), w);
    hide InfoPinned;
    WrapperCalm(s, s.(heap := Cleared(s.heap, w)), {WrapperInstance(w), WrapperInfo(w)}, w);
    WrapperCalm(s, s.(heap := Destroyed(s.heap, w)), {WrapperInfo(w), WrapperInstance(w)}, w);
  }

  lemma EmptyPinned(h: Heap, w: nat)
    requires WrapperInfo(w) !in h.slots
    ensures InfoPinned(h, w)
  {
  }

  lemma CopyCalm(s: System, to: nat, from: nat)
    requires Base(s) && Tied(s.heap) && Calm(s)
    ensures Calm(s.(heap := Copied(s.heap, to, from))) <==> !ClearHazard(s.heap, to)
  {
    hide Tied, Base, Frame, Calm, WellFormed, Cleared, Copied, ClearHazard, InfoPinned, CopiesSlot;
    BaseHeap(s);
    CalmFlags(s);
    BaseCopy(s, to, from);
    CopiedFrame(s.heap, to, from);
    ClearFaults(s.heap, to);
    var h' := Copied(s.heap, to, from);
    FrameHeap(s.heap, h', {WrapperInstance(to), WrapperInfo(to)});
    if to == from {
      EmptyPinned(h', to);
    } else {
      PinnedCopied(s.heap, h', to, from);
    }
    WrapperCalm(s, s.(heap := h'), {WrapperInstance(to), WrapperInfo(to)}, to);
  }

  lemma LockCalm(s: System, name: WeakName, w: nat)
    requires Base(s) && Tied(s.heap) && Calm(s) && name in s.weaks && Fresh(s.heap, w)
    ensures var s' := s.(heap := Locked(s.heap, w, s.weaks[name].instance, s.weaks[name].info),
                         broken := s.broken || InfoMissing(s.heap, s.weaks[name]));
            Calm(s') <==> !HalfAlive(s.heap, s.weaks[name])
  {
    hide Tied, Base, Frame, Calm, WellFormed, Locked, InfoPinned, LockedSlot, InfoMissing, HalfAlive, Paired;
    BaseHeap(s);
    CalmFlags(s);
    var weak := s.weaks[name];
    LockFrame(s, name, w);
    WeakAt(s, name);
    var h' := Locked(s.heap, w, weak.instance, weak.info);
    var s' := s.(heap := h', broken := s.broken || InfoMissing(s.heap, weak));
    FrameHeap(s.heap, h', {WrapperInstance(w), WrapperInfo(w)});
    AgreesNow(s', w);
    hide WrapperAgrees;
    PinnedLocked(s.heap, h', w, weak);
    WrapperCalm(s, s', {WrapperInstance(w), WrapperInfo(w)}, w);
  }

  lemma WrapperStepCalm(c: Catalog, s: System, step: Step)
    requires Orderly(c, s) && Calm(s) && Enabled(c, s, step) && !LoaderStep(step) && !ProductStep(step)
    ensures Calm(Next(c, s, step)) <==> !Hazard(s, step)
  {
    hide Tied, Base, Frame, Calm, Fresh, Instantiated, InstantiatedStatic, Copied, Cleared, Destroyed, GotInterface, CopySlot, DropInstance,
         Called, Locked, ExternallyOpened, ExternallyClosed, Lookup, MayOpen, InfoMissing, HalfAlive, ClearHazard, WellFormed;
    BaseHeap(s);
    var h := s.heap;
    match step {
      case Instantiate(l, n, w) => InstantiateCalm(c, s, l, n, w);
      case InstantiateStatic(info, w) => InstantiateStaticCalm(s, info, w);
      case CopyWrapper(to, from) => CopyCalm(s, to, from);
      case ClearWrapper(w) => ClearCalm(s, w);
      case DestroyWrapper(w) => ClearCalm(s, w);
      case LockWeak(name, w) => LockCalm(s, name, w);
      case GetInterface(w, i, k) => BaseGetInterface(s, w, i, k); QuietCalm(s, Next(c, s, step), {Interface(k)});
      case CopyInterface(to, from) => CopyInterfaceFrame(s, to, from); QuietCalm(s, Next(c, s, step), {Interface(to)});
      case DropInterface(k) => DropInterfaceFrame(s, k); QuietCalm(s, Next(c, s, step), {Interface(k)});
      case Call(slot) => CallFrame(s, slot); QuietCalm(s, Next(c, s, step), {});
      case Observe(v, w) => FrameRefl(h); QuietCalm(s, Next(c, s, step), {});
      case ExternalOpen(lib, handle) => ExternalOpenFrame(h, lib, handle); QuietCalm(s, Next(c, s, step), {});
      case ExternalClose(handle) => ExternalCloseFrame(h, handle); QuietCalm(s, Next(c, s, step), {});
    }
  }

  // ---------------------------------------------------------------- steps on products

  lemma GuardedProduct(s: System, s': System, changed: set<Slot>, p: nat)
    requires WellFormed(s.heap) && Frame(s.heap, s'.heap, changed) && (forall q :: DeleteGuarded(s, q))
    requires forall q | q != p && q in s'.products :: q in s.products && s'.products[q] == s.products[q]
    requires forall sl | sl in changed && sl.Lost? :: sl.product == p
    requires DeleteGuarded(s', p)
    ensures forall q :: DeleteGuarded(s', q)
  {
    hide WellFormed, Evolves, NoNewLibs;
    forall q
      ensures DeleteGuarded(s', q)
    {
      assert DeleteGuarded(s, q);
      if q != p {
        StayingSlot(s.heap, s'.heap, changed, Lost(q));
      }
    }
  }

  /** A step that works on product `p` only. */
  lemma ProductCalm(s: System, s': System, changed: set<Slot>, p: nat)
    requires Base(s) && Tied(s.heap) && Calm(s) && Frame(s.heap, s'.heap, changed)
    requires forall q | q != p && q in s'.products :: q in s.products && s'.products[q] == s.products[q]
    requires forall sl | sl in changed :: ForProducts(sl) && sl.product == p
    requires DeleteGuarded(s', p)
    ensures Calm(s') <==> !s'.heap.fault && !s'.broken
  {
    hide Tied, Base, Frame, InfoPinned, DeleteGuarded;
    BaseHeap(s);
    PinnedOthers(s.heap, s'.heap, changed);
    GuardedProduct(s, s', changed, p);
  }

  lemma ConstructCalm(s: System, slot: Slot, p: nat)
    requires Base(s) && Tied(s.heap) && Calm(s) && slot in s.heap.slots && (slot.WrapperInstance? || slot.Interface?) && p !in s.products
    requires FromThis(s.heap.slots[slot]) in s.weaks
    ensures Calm(Constructed(s, slot, p)) <==>
            !(Held(s.heap, slot) && InfoMissing(s.heap, s.weaks[FromThis(s.heap.slots[slot])]))
  {
    hide Tied, Base, Frame, Calm, WellFormed, InfoMissing, Touch, Share;
    BaseHeap(s);
    KindAt(s.heap, slot);
    CalmFlags(s);
    ConstructFrame(s, slot, p);
    ProductCalm(s, Constructed(s, slot, p), {Product(p)}, p);
  }

  lemma CleanupCalm(s: System)
    requires Base(s) && Tied(s.heap) && Calm(s)
    ensures Calm(s.(heap := DropLost(s.heap, s.lost), lost := [])) <==> !(exists p :: MidDelete(s, p))
  {
    hide Tied, Base, Frame, WellFormed, LostSlots, DropLost, InfoPinned;
    BaseHeap(s);
    var s' := s.(heap := DropLost(s.heap, s.lost), lost := []);
    DropLostFrame(s.heap, s.lost);
    BaseCleanup(s);
    OnlyLost(s.lost);
    PinnedOthers(s.heap, s'.heap, LostSlots(s.lost));
    NoneLost(s');
    assert forall p :: MidDelete(s, p) <==> !DeleteGuarded(s', p);
  }

  lemma OnlyLost(lost: seq<nat>)
    ensures forall sl | sl in LostSlots(lost) :: sl.Lost?
  {
  }

  lemma NoneLost(s: System)
    requires Base(s) && s.lost == []
    ensures forall p :: Lost(p) !in s.heap.slots
  {
    hide WellFormed, LoadersBase, WrappersAgree, WeaksOk;
    forall p
      ensures Lost(p) !in s.heap.slots
    {
      ProductAt(s, p);
    }
  }

  lemma ProductStepCalm(c: Catalog, s: System, step: Step)
    requires Base(s) && Tied(s.heap) && Calm(s) && Enabled(c, s, step) && ProductStep(step)
    ensures Calm(Next(c, s, step)) <==> !Hazard(s, step)
  {
    hide Tied, Base, Frame, Calm, WellFormed, Constructed, DropLost, MidDelete, InfoMissing;
    BaseHeap(s);
    match step {
      case Construct(slot, p) => KindAt(s.heap, slot); ConstructCalm(s, slot, p);
      case CleanupLostProducts => CleanupCalm(s);
      case CallProduct(p) =>
        CallProductCalm(s, p);
      case DeleteProduct(p) => DeleteCalm(s, p);
      case BeginPlainDelete(p) => BeginCalm(s, p);
      case ReleaseMember(p) => ReleaseCalm(s, p);
      case LeaveDestructor(p) => LeaveCalm(s, p);
    }
  }

  lemma CallProductCalm(s: System, p: nat)
    requires Base(s) && Tied(s.heap) && Calm(s) && p in s.products && s.products[p].phase == Alive
    ensures Calm(s.(heap := Touch(s.heap, s.products[p].code)))
  {
    hide Tied, Base, Frame, Calm, WellFormed, Touch, Loaded;
    BaseHeap(s);
    ProductHeld(s, p);
    TouchFrame(s.heap, s.products[p].code);
    QuietCalm(s, s.(heap := Touch(s.heap, s.products[p].code)), {});
  }

  lemma DeleteCalm(s: System, p: nat)
    requires Base(s) && Tied(s.heap) && Calm(s) && p in s.products && s.products[p].phase == Alive
    ensures Calm(s.(heap := DeletedHeap(s.heap, p, s.products[p].code), products := SetPhase(s, p, Deleted)))
  {
    hide Tied, Base, Frame, Calm, WellFormed, DeletedHeap;
    BaseHeap(s);
    CalmFlags(s);
    ProductHeld(s, p);
    DeletedFrame(s.heap, p, s.products[p].code);
    ProductCalm(s, s.(heap := DeletedHeap(s.heap, p, s.products[p].code), products := SetPhase(s, p, Deleted)), {Product(p)}, p);
  }

  lemma BeginCalm(s: System, p: nat)
    requires Base(s) && Tied(s.heap) && Calm(s) && p in s.products && s.products[p].phase == Alive
    ensures Calm(s.(heap := CopySlot(Touch(s.heap, s.products[p].code), Lost(p), Product(p)), products := SetPhase(s, p, Pushed),
                    lost := s.lost + [p]))
  {
    hide Tied, Base, Frame, Calm, WellFormed, CopySlot, Touch;
    CalmFlags(s);
    BeginFrame(s, p);
    BaseBegin(s, p);
    ProductCalm(s, s.(heap := CopySlot(Touch(s.heap, s.products[p].code), Lost(p), Product(p)), products := SetPhase(s, p, Pushed),
                      lost := s.lost + [p]), {Lost(p)}, p);
  }

  lemma ReleaseCalm(s: System, p: nat)
    requires Base(s) && Tied(s.heap) && Calm(s) && p in s.products && s.products[p].phase == Pushed
    ensures Calm(s.(heap := DropInstance(s.heap, Product(p)), products := SetPhase(s, p, Released)))
  {
    hide Tied, Base, Frame, Calm, WellFormed, DropInstance;
    BaseHeap(s);
    CalmFlags(s);
    KindAt(s.heap, Product(p));
    DropInstanceFrame(s.heap, Product(p));
    BaseRelease(s, p);
    assert DeleteGuarded(s, p);
    ProductCalm(s, s.(heap := DropInstance(s.heap, Product(p)), products := SetPhase(s, p, Released)), {Product(p)}, p);
  }

  lemma LeaveCalm(s: System, p: nat)
    requires Base(s) && Tied(s.heap) && Calm(s) && p in s.products && s.products[p].phase == Released
    ensures Calm(s.(heap := Touch(s.heap, s.products[p].code), products := SetPhase(s, p, Deleted)))
  {
    hide Tied, Base, Frame, Calm, WellFormed, Touch;
    BaseHeap(s);
    CalmFlags(s);
    TouchFrame(s.heap, s.products[p].code);
    BaseLeave(s, p);
    assert DeleteGuarded(s, p);
    ProductCalm(s, s.(heap := Touch(s.heap, s.products[p].code), products := SetPhase(s, p, Deleted)), {}, p);
  }

  // ---------------------------------------------------------------- steps on Loaders

  lemma LoaderWrites(s: System, h': Heap, changed: set<Slot>)
    requires Base(s) && Tied(s.heap) && Calm(s) && Frame(s.heap, h', changed) && h'.fault == s.heap.fault
    requires forall sl | sl in changed :: ForLoaders(sl)
    ensures Calm(s.(heap := h'))
  {
    hide Tied, Base, Frame, Calm;
    QuietCalm(s, s.(heap := h'), changed);
  }

  lemma CalmTables(s: System, loaders: map<nat, LoaderTables>, nextLoader: nat)
    requires Calm(s)
    ensures Calm(s.(loaders := loaders, nextLoader := nextLoader))
  {
    assert forall p :: DeleteGuarded(s, p) ==> DeleteGuarded(s.(loaders := loaders, nextLoader := nextLoader), p);
  }

  lemma LoadCalm(s: System, l: nat, lib: string, handle: Handle, infos: seq<Info>)
    requires Base(s) && Tied(s.heap) && Calm(s) && l in s.loaders && MayOpen(s.heap, lib, handle) && Catalogue(infos)
    ensures Calm(s.(heap := LoadedHeap(s.heap, l, s.loaders[l], lib, handle, infos)))
  {
    hide Tied, Base, WellFormed, LoadedHeap, FilledSlots, MayOpen, Catalogue, OpenedAs;
    LoadFrame(s, l, lib, handle, infos);
    BaseHeap(s);
    var h := s.heap;
    var s' := s.(heap := LoadedHeap(h, l, s.loaders[l], lib, handle, infos));
    var id := OpenPtrs(h, s.loaders[l].handlePtrs, handle)[handle];
    FilledRest(h, s'.heap, l, s.loaders[l].registry, infos, id, NewCode(h, handle));
    forall w
      ensures InfoPinned(s'.heap, w)
    {
      assert InfoPinned(h, w);
      SameSlot(h, s'.heap, WrapperInstance(w));
      SameSlot(h, s'.heap, WrapperInfo(w));
    }
    assert forall p :: DeleteGuarded(s, p) && SameAt(h, s'.heap, Lost(p)) ==> DeleteGuarded(s', p);
  }

  lemma LoaderStepCalm(c: Catalog, s: System, step: Step)
    requires WellNamed(c) && Orderly(c, s) && Calm(s) && Enabled(c, s, step) && LoaderStep(step)
    ensures Calm(Next(c, s, step))
  {
    hide WellNamed, Tied, Base, Agrees, Frame, Calm, Lists, MayOpen, DropLibs, DropInfos, LoadedHeap, LoadedTables, ForgetPlugins, ForgottenTables, PinnedName, Catalogue;
    var h := s.heap;
    match step {
      case NewLoader => CalmTables(s, s.loaders[s.nextLoader := EMPTY_LOADER], s.nextLoader + 1);
      case DestroyLoader(l, infoOrder, libOrder) =>
        AllPinned(c, s, l);
        DestroyLoaderFrame(s, l, infoOrder, libOrder);
        var h' := DropLibs(DropInfos(h, l, infoOrder), l, libOrder);
        LoaderWrites(s, h', InfoSlots(l, infoOrder) + LibSlots(l, libOrder));
        CalmTables(s.(heap := h'), s.loaders - {l}, s.nextLoader);
      case LoadLib(l, lib, handle, infos) =>
        CatalogueOf(c, lib, infos);
        LoadCalm(s, l, lib, handle, infos);
        CalmTables(s.(heap := LoadedHeap(h, l, s.loaders[l], lib, handle, infos)),
                   s.loaders[l := LoadedTables(h, s.loaders[l], handle, infos)], s.nextLoader);
      case ForgetLibrary(l, handle, order) =>
        if handle in s.loaders[l].handlePlugins {
          AllPinned(c, s, l);
          ForgetFrame(s, l, order);
          LoaderWrites(s, ForgetPlugins(h, l, order), InfoSlots(l, order) + LibSlots(l, order));
          CalmTables(s.(heap := ForgetPlugins(h, l, order)), s.loaders[l := ForgottenTables(s.loaders[l], handle, order)], s.nextLoader);
        }
    }
  }

  lemma AllPinned(c: Catalog, s: System, l: nat)
    requires Orderly(c, s) && l in s.loaders
    ensures forall n :: PinnedName(s.heap, l, n)
  {
    hide PinnedName, Base, Agrees;
    forall n
      ensures PinnedName(s.heap, l, n)
    {
      OrderlyPinned(c, s, l, n);
    }
  }

  // ---------------------------------------------------------------- the theorem

  /** From a safe state a step leads to a safe state again if and only if it is none of the
      hazardous ones. */
  lemma SafeStep(c: Catalog, s: System, step: Step)
    requires WellNamed(c) && Good(c, s) && Enabled(c, s, step)
    ensures Good(c, Next(c, s, step)) <==> !Hazard(s, step)
  {
    hide WellNamed, Orderly, Enabled, Next, Calm, Base, Tied;
    OrderlyStep(c, s, step);
    OrderlyBase(c, s);
    if LoaderStep(step) {
      LoaderStepCalm(c, s, step);
    } else if ProductStep(step) {
      ProductStepCalm(c, s, step);
    } else {
      WrapperStepCalm(c, s, step);
    }
  }

  lemma OrderlyBase(c: Catalog, s: System)
    requires Orderly(c, s)
    ensures Base(s) && Tied(s.heap)
  {
  }

  // ---------------------------------------------------------------- which steps fail at once

  /** Of the hazardous steps, those that do damage themselves; the others prepare it. */
  ghost predicate Fails(s: System, step: Step) {
    match step
    case CopyWrapper(to, _) => ClearHazard(s.heap, to)
    case ClearWrapper(w) => ClearHazard(s.heap, w)
    case LockWeak(name, _) => name in s.weaks && InfoMissing(s.heap, s.weaks[name])
    case Construct(_, _) => Hazard(s, step)
    case _ => false
  }

  lemma HazardFails(c: Catalog, s: System, step: Step)
    requires WellNamed(c) && Base(s) && Tied(s.heap) && Calm(s) && Enabled(c, s, step) && Hazard(s, step)
    ensures Next(c, s, step).heap.fault || Next(c, s, step).broken <==> Fails(s, step)
  {
    hide WellNamed, Tied, Base, Frame, Calm, Fresh, Copied, Cleared, Locked, MayOpen, InfoMissing, HalfAlive, ClearHazard, WellFormed,
         LoadedHeap, LoadedTables, Constructed, DropLost, MidDelete, FilledSlots, OpenedAs, Catalogue, Evolves, InfoPinned, LostSlots;
    BaseHeap(s);
    CalmFlags(s);
    match step {
      case LoadLib(l, lib, handle, infos) =>
        CatalogueOf(c, lib, infos);
        LoadFrame(s, l, lib, handle, infos);
      case CopyWrapper(to, from) =>
        CopiedFrame(s.heap, to, from);
        ClearFaults(s.heap, to);
      case ClearWrapper(w) => ClearFaults(s.heap, w);
      case LockWeak(name, w) => LockFrame(s, name, w);
      case Construct(slot, p) =>
        ConstructFrame(s, slot, p);
        ConstructBreaks(s, slot, p);
      case CleanupLostProducts => BaseCleanup(s);
    }
  }

  lemma ConstructBreaks(s: System, slot: Slot, p: nat)
    requires Held(s.heap, slot) && FromThis(s.heap.slots[slot]) in s.weaks && InfoMissing(s.heap, s.weaks[FromThis(s.heap.slots[slot])])
    ensures Constructed(s, slot, p).broken
  {
  }

  /** A step from a safe state runs code of a library that is gone, or takes an impossible branch,
      if and only if it is one of these. */
  lemma FailsExactly(c: Catalog, s: System, step: Step)
    requires WellNamed(c) && Good(c, s) && Enabled(c, s, step)
    ensures Next(c, s, step).heap.fault || Next(c, s, step).broken <==> Fails(s, step)
  {
    hide WellNamed, Orderly, Enabled, Next, Base, Tied;
    SafeStep(c, s, step);
    OrderlyBase(c, s);
    if Hazard(s, step) {
      HazardFails(c, s, step);
    } else {
      CalmFlags(Next(c, s, step));
    }
  }
}
