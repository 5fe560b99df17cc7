/** What every step of a program does, said of the state after it: who holds what, which tables and
    counters have changed, which library code was run that is not there. */
module Effects {
  import opened Common
  import opened Runtime
  import opened Registries
  import opened LoaderSteps
  import opened Plugins
  import opened Lifetime
  import opened Products
  import opened Agreement
  import opened Steps
  import opened Order
  import opened Safety
  import opened Runs

  // ---------------------------------------------------------------- what has not changed

  /** Everybody but these slots holds what they held, not counting the library references that
      instances have. */
  ghost predicate Elsewhere(h: Heap, h': Heap, slots: set<Slot>) {
    forall sl: Slot | sl !in slots && !sl.InstanceLib? :: SameAt(h, h', sl)
  }

  lemma ElsewhereFrame(h: Heap, h': Heap, changed: set<Slot>, slots: set<Slot>)
    requires Frame(h, h', changed) && (forall sl | sl in changed :: sl in slots || sl.InstanceLib?)
    ensures Elsewhere(h, h', slots)
  {
    hide Frame, SameAt;
    forall sl: Slot | sl !in slots && !sl.InstanceLib?
      ensures SameAt(h, h', sl)
    {
      Untouched(h, h', changed, sl);
    }
  }

  /** The slot holds what the other one held. */
  predicate Takes(h: Heap, from: Slot, h': Heap, to: Slot) {
    (to in h'.slots <==> from in h.slots) && (from in h.slots ==> to in h'.slots && h'.slots[to] == h.slots[from])
  }

  predicate Empty(h: Heap, slot: Slot) {
    slot !in h.slots
  }

  ghost predicate SameTables(s: System, s': System) {
    s'.loaders == s.loaders && s'.nextLoader == s.nextLoader
  }

  ghost predicate SameProducts(s: System, s': System) {
    s'.products == s.products && s'.lost == s.lost
  }

  /** What a program may do at any time, whatever it did before. */
  lemma AlwaysPossible(c: Catalog, s: System, w: nat, other: nat, k: nat, interfaceName: string, name: WeakName, info: Info)
    ensures Enabled(c, s, NewLoader) && Enabled(c, s, CleanupLostProducts)
    ensures Enabled(c, s, CopyWrapper(w, other)) && Enabled(c, s, ClearWrapper(w)) && Enabled(c, s, DestroyWrapper(w))
    ensures Enabled(c, s, Observe(k, w)) && Enabled(c, s, DropInterface(k))
    ensures Interface(k) !in s.heap.slots ==> Enabled(c, s, GetInterface(w, interfaceName, k)) && Enabled(c, s, CopyInterface(k, other))
    ensures WrapperInstance(w) in s.heap.slots ==> Enabled(c, s, Call(WrapperInstance(w)))
    ensures Interface(k) in s.heap.slots ==> Enabled(c, s, Call(Interface(k)))
    ensures name in s.weaks && Unused(s.heap, w) ==> Enabled(c, s, LockWeak(name, w))
    ensures Unused(s.heap, w) ==> Enabled(c, s, InstantiateStatic(info, w))
  {
  }

  /** Products are made by factories that know themselves, and deleted in one way or the other. */
  lemma ProductsPossible(c: Catalog, s: System, slot: Slot, p: nat)
    ensures slot in s.heap.slots && (slot.WrapperInstance? || slot.Interface?)
            && FromThis(s.heap.slots[slot]) in s.weaks && p !in s.products ==>
              Enabled(c, s, Construct(slot, p))
    ensures p in s.products && s.products[p].phase == Alive ==>
              Enabled(c, s, CallProduct(p)) && Enabled(c, s, DeleteProduct(p)) && Enabled(c, s, BeginPlainDelete(p))
    ensures p in s.products && s.products[p].phase == Pushed ==> Enabled(c, s, ReleaseMember(p))
    ensures p in s.products && s.products[p].phase == Released ==> Enabled(c, s, LeaveDestructor(p))
  {
  }

  predicate Unused(h: Heap, w: nat) {
    WrapperInstance(w) !in h.slots && WrapperInfo(w) !in h.slots
  }

  /** ... with a Loader that it has, and with a library that it has opened. */
  lemma LoadersPossible(c: Catalog, s: System, l: nat, n: string, w: nat, lib: string, k: Handle, infos: seq<Info>, order: seq<string>)
    requires l in s.loaders
    ensures n in s.loaders[l].registry.plugins && n != "" && Unused(s.heap, w) ==> Enabled(c, s, Instantiate(l, n, w))
    ensures lib in c && MayOpen(s.heap, lib, k) && (forall i :: i in infos <==> i in c[lib]) ==> Enabled(c, s, LoadLib(l, lib, k, infos))
    ensures k in s.loaders[l].handlePlugins && (forall n :: n in order <==> n in s.loaders[l].handlePlugins[k]) ==>
              Enabled(c, s, ForgetLibrary(l, k, order))
    ensures (forall n :: n in order <==> n in s.loaders[l].registry.plugins) ==> Enabled(c, s, DestroyLoader(l, order, order))
    ensures MayOpen(s.heap, lib, k) ==> Enabled(c, s, ExternalOpen(lib, k))
    ensures k in s.heap.external && s.heap.external[k] > 0 ==> Enabled(c, s, ExternalClose(k))
  {
  }

  // ---------------------------------------------------------------- wrappers and interface pointers

  /** The wrapper has a plugin that offers the interface. */
  predicate HasOffer(h: Heap, w: nat, interfaceName: string) {
    && WrapperInstance(w) in h.slots
    && WrapperInfo(w) in h.slots && h.slots[WrapperInfo(w)] in h.blocks
    && h.blocks[h.slots[WrapperInfo(w)]].payload.InfoPayload?
    && interfaceName in h.blocks[h.slots[WrapperInfo(w)]].payload.info.interfaces
  }

  /** What the steps on wrappers and interface pointers leave behind. */
  ghost predicate PointerEffect(s: System, step: Step, s': System) {
    var h, h' := s.heap, s'.heap;
    match step
    case CopyWrapper(to, from) =>
      && Elsewhere(h, h', {WrapperInstance(to), WrapperInfo(to)})
      && (if to == from then Empty(h', WrapperInstance(to)) && Empty(h', WrapperInfo(to))
          else Takes(h, WrapperInstance(from), h', WrapperInstance(to)) && Takes(h, WrapperInfo(from), h', WrapperInfo(to)))
    case ClearWrapper(w) =>
      Elsewhere(h, h', {WrapperInstance(w), WrapperInfo(w)}) && Empty(h', WrapperInstance(w)) && Empty(h', WrapperInfo(w))
    case DestroyWrapper(w) =>
      Elsewhere(h, h', {WrapperInstance(w), WrapperInfo(w)}) && Empty(h', WrapperInstance(w)) && Empty(h', WrapperInfo(w))
    case GetInterface(w, interfaceName, k) =>
      && Elsewhere(h, h', {Interface(k)})
      && (if HasOffer(h, w, interfaceName) then Takes(h, WrapperInstance(w), h', Interface(k)) else Empty(h', Interface(k)))
    case CopyInterface(to, from) => Elsewhere(h, h', {Interface(to)}) && Takes(h, Interface(from), h', Interface(to))
    case DropInterface(k) => Elsewhere(h, h', {Interface(k)}) && Empty(h', Interface(k))
    case Call(_) => Elsewhere(h, h', {})
    case _ => true
  }

  lemma CopyEffect(s: System, to: nat, from: nat)
    requires Base(s)
    ensures PointerEffect(s, CopyWrapper(to, from), s.(heap := Copied(s.heap, to, from)))
  {
    hide Base, Frame, WellFormed, Copied, Elsewhere;
    BaseHeap(s);
    CopiedFrame(s.heap, to, from);
    ElsewhereFrame(s.heap, Copied(s.heap, to, from), {WrapperInstance(to), WrapperInfo(to)}, {WrapperInstance(to), WrapperInfo(to)});
  }

  lemma ClearEffect(s: System, w: nat)
    requires Base(s)
    ensures PointerEffect(s, ClearWrapper(w), s.(heap := Cleared(s.heap, w)))
    ensures PointerEffect(s, DestroyWrapper(w), s.(heap := Destroyed(s.heap, w)))
  {
    hide Base, Frame, WellFormed, Cleared, Destroyed, Elsewhere;
    BaseHeap(s);
    ClearedFrame(s.heap, w);
    DestroyedFrame(s.heap, w);
    ElsewhereFrame(s.heap, Cleared(s.heap, w), {WrapperInstance(w), WrapperInfo(w)}, {WrapperInstance(w), WrapperInfo(w)});
    ElsewhereFrame(s.heap, Destroyed(s.heap, w), {WrapperInfo(w), WrapperInstance(w)}, {WrapperInstance(w), WrapperInfo(w)});
  }

  lemma GetEffect(s: System, w: nat, interfaceName: string, k: nat)
    requires Base(s) && Interface(k) !in s.heap.slots
    ensures PointerEffect(s, GetInterface(w, interfaceName, k), s.(heap := GotInterface(s.heap, w, interfaceName, k)))
  {
    hide Base, Frame, WellFormed, Elsewhere;
    BaseHeap(s);
    BaseGetInterface(s, w, interfaceName, k);
    ElsewhereFrame(s.heap, GotInterface(s.heap, w, interfaceName, k), {Interface(k)}, {Interface(k)});
    KindAt(s.heap, WrapperInstance(w));
    KindAt(s.heap, WrapperInfo(w));
    CopySlotFrame(s.heap, Interface(k), WrapperInstance(w));
  }

  lemma InterfaceEffect(s: System, to: nat, from: nat)
    requires Base(s)
    ensures Interface(to) !in s.heap.slots ==>
              PointerEffect(s, CopyInterface(to, from), s.(heap := CopySlot(s.heap, Interface(to), Interface(from))))
    ensures PointerEffect(s, DropInterface(to), s.(heap := DropInstance(s.heap, Interface(to))))
  {
    hide Base, Frame, WellFormed, Elsewhere;
    BaseHeap(s);
    KindAt(s.heap, Interface(from));
    KindAt(s.heap, Interface(to));
    if Interface(to) !in s.heap.slots {
      CopySlotFrame(s.heap, Interface(to), Interface(from));
      ElsewhereFrame(s.heap, CopySlot(s.heap, Interface(to), Interface(from)), {Interface(to)}, {Interface(to)});
    }
    DropInstanceFrame(s.heap, Interface(to));
    ElsewhereFrame(s.heap, DropInstance(s.heap, Interface(to)), {Interface(to)}, {Interface(to)});
  }

  lemma CallEffect(s: System, slot: Slot)
    requires Base(s) && slot in s.heap.slots && (slot.WrapperInstance? || slot.Interface?)
    ensures PointerEffect(s, Call(slot), s.(heap := Called(s.heap, slot)))
  {
    hide Base, Frame, WellFormed, Elsewhere, Called;
    CallFrame(s, slot);
    ElsewhereFrame(s.heap, Called(s.heap, slot), {}, {});
  }

  predicate PointerStep(step: Step) {
    || step.CopyWrapper? || step.ClearWrapper? || step.DestroyWrapper? || step.GetInterface? || step.CopyInterface?
    || step.DropInterface? || step.Call?
  }

  /** The steps on wrappers and interface pointers, from any state of any program. */
  lemma PointerStepEffect(c: Catalog, s: System, step: Step)
    requires Base(s) && Enabled(c, s, step) && PointerStep(step)
    ensures var s' := Next(c, s, step);
            PointerEffect(s, step, s') && SameTables(s, s') && SameProducts(s, s') && s'.weaks == s.weaks && s'.broken == s.broken
  {
    hide Base, PointerEffect, Copied, Cleared, Destroyed, GotInterface, CopySlot, DropInstance, Called;
    match step {
      case CopyWrapper(to, from) => CopyEffect(s, to, from);
      case ClearWrapper(w) => ClearEffect(s, w);
      case DestroyWrapper(w) => ClearEffect(s, w);
      case GetInterface(w, i, k) => GetEffect(s, w, i, k);
      case CopyInterface(to, from) => InterfaceEffect(s, to, from);
      case DropInterface(k) => InterfaceEffect(s, k, k);
      case Call(slot) => CallEffect(s, slot);
    }
  }

  // ---------------------------------------------------------------- making plugins

  /** A fresh instance in the wrapper, with the Info of the plugin, which learns the pointer to itself
      exactly when it offers the interface for that. */
  ghost predicate MadeIn(s: System, s': System, w: nat, code: Code, info: Info) {
    var h, h' := s.heap, s'.heap;
    && Elsewhere(h, h', {WrapperInstance(w), WrapperInfo(w)})
    && WrapperInstance(w) in h'.slots && WrapperInfo(w) in h'.slots
    && var i, j := h'.slots[WrapperInstance(w)], h'.slots[WrapperInfo(w)];
       && i !in h.blocks && h.next <= i && i in h'.blocks && h'.blocks[i].payload == InstancePayload(code, info)
       && j in h'.blocks && h'.blocks[j].payload == InfoPayload(code, info)
       && s'.weaks == (if ENABLE_PLUGIN_FROM_THIS in info.interfaces then s.weaks[FromThis(i) := Weak(Some(i), Some(j))] else s.weaks)
  }

  /** From a plugin that a Loader knows: its Info is shared, and the instance has a reference to the
      library that the Loader has for the name. */
  ghost predicate MadeFrom(s: System, s': System, w: nat, l: nat, n: string) {
    && Held(s.heap, LoaderInfo(l, n)) && PayloadAt(s.heap, LoaderInfo(l, n)).InfoPayload?
    && MadeIn(s, s', w, PayloadAt(s.heap, LoaderInfo(l, n)).code, PayloadAt(s.heap, LoaderInfo(l, n)).info)
    && Takes(s.heap, LoaderInfo(l, n), s'.heap, WrapperInfo(w))
    && Takes(s.heap, LoaderLib(l, n), s'.heap, InstanceLib(s'.heap.slots[WrapperInstance(w)]))
  }

  lemma InstantiateEffect(s: System, l: nat, nameOrAlias: string, w: nat)
    requires Base(s) && l in s.loaders && Fresh(s.heap, w)
    ensures var s' := Instantiated(s, l, nameOrAlias, w); var n := Lookup(s.loaders[l].registry, nameOrAlias);
            && SameTables(s, s') && SameProducts(s, s')
            && (if n in s.loaders[l].registry.plugins then
                  && MadeFrom(s, s', w, l, n) && s'.broken == s.broken
                  && PayloadAt(s.heap, LoaderInfo(l, n)).info == s.loaders[l].registry.plugins[n]
                else s' == s.(broken := true))
  {
    hide Base, Frame, Lookup, Created, WellFormed, Elsewhere, LoaderBase;
    var h, n := s.heap, Lookup(s.loaders[l].registry, nameOrAlias);
    BaseHeap(s);
    assert LoaderBase(h, l, s.loaders[l]);
    StoredPlugin(h, l, s.loaders[l], n);
    if n in s.loaders[l].registry.plugins {
      var info, lib := h.slots[LoaderInfo(l, n)], h.slots[LoaderLib(l, n)];
      KindAt(h, LoaderLib(l, n));
      CreatedFrame(h, w, info, lib);
      CreatedLib(h, w, info, lib);
      var h' := Created(h, w, info, lib);
      FrameHeap(h, h', CreatedSlots(h, w));
      KindAt(h', WrapperInfo(w));
      SamePayload(h, h', info);
      HeldIsIn(h', WrapperInstance(w));
      ElsewhereFrame(h, h', CreatedSlots(h, w), {WrapperInstance(w), WrapperInfo(w)});
      OldBlocks(h);
    }
  }

  lemma StoredPlugin(h: Heap, l: nat, t: LoaderTables, n: string)
    requires LoaderBase(h, l, t)
    ensures n in t.registry.plugins <==> Held(h, LoaderInfo(l, n))
    ensures n in t.registry.plugins <==> Held(h, LoaderLib(l, n))
    ensures n in t.registry.plugins ==>
              PayloadAt(h, LoaderInfo(l, n)).InfoPayload? && PayloadAt(h, LoaderInfo(l, n)).info == t.registry.plugins[n]
  {
    hide PtrTable, PtrsComplete, Complete;
    assert LinkedName(h, l, t.registry, n);
  }

  lemma CreatedLib(h: Heap, w: nat, info: Id, lib: Id)
    requires WellFormed(h) && WrapperInfo(w) !in h.slots && WrapperInstance(w) !in h.slots
    requires info in h.blocks && h.blocks[info].payload.InfoPayload?
    requires lib in h.blocks && h.blocks[lib].payload.Library?
    ensures var h' := Created(h, w, info, lib); InstanceLib(h.next) in h'.slots && h'.slots[InstanceLib(h.next)] == lib
  {
    hide WellFormed, Evolves, NoNewLibs, Changes;
    var p := h.blocks[info].payload;
    var h0 := Share(h, WrapperInfo(w), info);
    ShareFrame(h, WrapperInfo(w), info);
    TouchFrame(h0, p.code);
    MakeInstanceFrame(Touch(h0, p.code), WrapperInstance(w), p.code, p.info, lib);
  }

  lemma InstantiateStaticEffect(s: System, info: Info, w: nat)
    requires Base(s) && Fresh(s.heap, w)
    ensures var s' := InstantiatedStatic(s, info, w);
            && MadeIn(s, s', w, Resident, info) && SameTables(s, s') && SameProducts(s, s') && s'.broken == s.broken
            && s'.heap.slots[WrapperInfo(w)] !in s.heap.blocks
  {
    hide Base, Frame, CreatedStatic, WellFormed, Elsewhere;
    BaseHeap(s);
    CreatedStaticFrame(s.heap, w, info);
    OldBlocks(s.heap);
    ElsewhereFrame(s.heap, CreatedStatic(s.heap, w, info), {WrapperInfo(w), WrapperInstance(w)}, {WrapperInstance(w), WrapperInfo(w)});
  }

  /** The steps that make plugins, from any state of any program; the impossible branch is taken
      exactly when an alias leads to a name that the Loader does not know. */
  lemma MakeStepEffect(c: Catalog, s: System, step: Step)
    requires Base(s) && Enabled(c, s, step)
    ensures step.Instantiate? ==>
              var s' := Next(c, s, step); var n := Lookup(s.loaders[step.loader].registry, step.nameOrAlias);
              && SameTables(s, s') && SameProducts(s, s')
              && (if n in s.loaders[step.loader].registry.plugins then
                    && MadeFrom(s, s', step.wrapper, step.loader, n) && s'.broken == s.broken
                    && PayloadAt(s.heap, LoaderInfo(step.loader, n)).info == s.loaders[step.loader].registry.plugins[n]
                  else s' == s.(broken := true))
    ensures step.InstantiateStatic? ==>
              var s' := Next(c, s, step);
              && SameTables(s, s') && SameProducts(s, s') && s'.broken == s.broken
              && MadeIn(s, s', step.wrapper, Resident, step.info) && s'.heap.slots[WrapperInfo(step.wrapper)] !in s.heap.blocks
  {
    hide Base, Instantiated, InstantiatedStatic, Lookup, MadeFrom, MadeIn, SameTables, SameProducts;
    if step.Instantiate? {
      InstantiateEffect(s, step.loader, step.nameOrAlias, step.wrapper);
    }
    if step.InstantiateStatic? {
      InstantiateStaticEffect(s, step.info, step.wrapper);
    }
  }

  // ---------------------------------------------------------------- weak references

  /** A weak pointer gives its object if that is alive. */
  predicate Found(h: Heap, id: Option<Id>, h': Heap, slot: Slot) {
    if id.Some? && id.value in h.blocks then slot in h'.slots && h'.slots[slot] == id.value else slot !in h'.slots
  }

  ghost predicate WeakEffect(s: System, step: Step, s': System) {
    match step
    case Observe(v, w) =>
      && s'.heap == s.heap && s'.broken == s.broken
      && s'.weaks.Keys == s.weaks.Keys + {User(v)} && (forall name | name in s.weaks && name != User(v) :: s'.weaks[name] == s.weaks[name])
      && (if WrapperInstance(w) in s.heap.slots then s'.weaks[User(v)].instance == Some(s.heap.slots[WrapperInstance(w)])
          else s'.weaks[User(v)].instance == None)
      && (if WrapperInfo(w) in s.heap.slots then s'.weaks[User(v)].info == Some(s.heap.slots[WrapperInfo(w)])
          else s'.weaks[User(v)].info == None)
    case LockWeak(name, w) =>
      && name in s.weaks && s'.weaks == s.weaks
      && Elsewhere(s.heap, s'.heap, {WrapperInstance(w), WrapperInfo(w)})
      && Found(s.heap, s.weaks[name].instance, s'.heap, WrapperInstance(w))
      && Found(s.heap, s.weaks[name].info, s'.heap, WrapperInfo(w))
      && (s'.broken <==> s.broken || (WrapperInstance(w) in s'.heap.slots && WrapperInfo(w) !in s'.heap.slots))
    case _ => true
  }

  lemma WeakStepEffect(c: Catalog, s: System, step: Step)
    requires Base(s) && Enabled(c, s, step) && (step.Observe? || step.LockWeak?)
    ensures var s' := Next(c, s, step); WeakEffect(s, step, s') && SameTables(s, s') && SameProducts(s, s')
  {
    hide Base, Frame, WellFormed, Locked, Elsewhere;
    if step.LockWeak? {
      var h', w := Next(c, s, step).heap, step.wrapper;
      LockFrame(s, step.name, w);
      ElsewhereFrame(s.heap, h', {WrapperInstance(w), WrapperInfo(w)}, {WrapperInstance(w), WrapperInfo(w)});
    }
  }

  // ---------------------------------------------------------------- products of factories

  /** Nothing is different about the other products. */
  ghost predicate OtherProductsSame(s: System, s': System, p: nat) {
    forall q | q != p :: (q in s'.products <==> q in s.products) && (q in s.products ==> s'.products[q] == s.products[q])
  }

  ghost predicate PhaseEffect(s: System, s': System, p: nat, phase: Phase) {
    && OtherProductsSame(s, s', p)
    && p in s.products && p in s'.products && s'.products[p].phase == phase
    && s'.products[p].code == s.products[p].code && s'.products[p].factory == s.products[p].factory
  }

  ghost predicate ProductEffect(s: System, step: Step, s': System) {
    var h, h' := s.heap, s'.heap;
    match step
    case Construct(slot, p) =>
      && Elsewhere(h, h', {Product(p)}) && Takes(h, slot, h', Product(p)) && Held(h, slot) && s'.lost == s.lost
      && OtherProductsSame(s, s', p) && p in s'.products && s'.products[p] == Made(Alive, PayloadAt(h, slot).code, h.slots[slot])
    case CallProduct(p) => Elsewhere(h, h', {}) && SameProducts(s, s')
    case DeleteProduct(p) =>
      Elsewhere(h, h', {Product(p)}) && Empty(h', Product(p)) && PhaseEffect(s, s', p, Deleted) && s'.lost == s.lost
    case BeginPlainDelete(p) =>
      && Elsewhere(h, h', {Lost(p)}) && Takes(h, Product(p), h', Lost(p)) && Lost(p) in h'.slots
      && PhaseEffect(s, s', p, Pushed) && s'.lost == s.lost + [p]
    case ReleaseMember(p) =>
      Elsewhere(h, h', {Product(p)}) && Empty(h', Product(p)) && PhaseEffect(s, s', p, Released) && s'.lost == s.lost
    case LeaveDestructor(p) => Elsewhere(h, h', {}) && PhaseEffect(s, s', p, Deleted) && s'.lost == s.lost
    case CleanupLostProducts =>
      && (forall p :: Empty(h', Lost(p))) && (forall sl: Slot | !sl.Lost? && !sl.InstanceLib? :: SameAt(h, h', sl))
      && s'.products == s.products && s'.lost == []
    case _ => true
  }

  lemma ConstructEffect(s: System, slot: Slot, p: nat)
    requires Base(s) && slot in s.heap.slots && (slot.WrapperInstance? || slot.Interface?) && p !in s.products
    requires FromThis(s.heap.slots[slot]) in s.weaks
    ensures ProductEffect(s, Construct(slot, p), Constructed(s, slot, p))
  {
    hide Base, Frame, WellFormed, Elsewhere, InfoMissing;
    BaseHeap(s);
    KindAt(s.heap, slot);
    ConstructFrame(s, slot, p);
    ElsewhereFrame(s.heap, Constructed(s, slot, p).heap, {Product(p)}, {Product(p)});
  }

  lemma CleanupEffect(s: System)
    requires Base(s)
    ensures ProductEffect(s, CleanupLostProducts, s.(heap := DropLost(s.heap, s.lost), lost := []))
  {
    hide Base, Frame, WellFormed, DropLost, LostSlots;
    BaseHeap(s);
    var h' := DropLost(s.heap, s.lost);
    DropLostFrame(s.heap, s.lost);
    BaseCleanup(s);
    NoneLost(s.(heap := h', lost := []));
    OnlyLost(s.lost);
    forall sl: Slot | !sl.Lost? && !sl.InstanceLib?
      ensures SameAt(s.heap, h', sl)
    {
      Untouched(s.heap, h', LostSlots(s.lost), sl);
    }
  }

  lemma DeletesEffect(c: Catalog, s: System, step: Step, p: nat)
    requires Base(s) && Enabled(c, s, step)
    requires step == DeleteProduct(p) || step == BeginPlainDelete(p) || step == ReleaseMember(p) || step == LeaveDestructor(p)
    ensures ProductEffect(s, step, Next(c, s, step))
  {
    hide Base, Frame, WellFormed, Elsewhere, DeletedHeap, CopySlot, DropInstance, Touch;
    BaseHeap(s);
    var h, h' := s.heap, Next(c, s, step).heap;
    ProductStepFrame(c, s, step);
    ElsewhereFrame(h, h', Written(s, step), Written(s, step));
    match step {
      case DeleteProduct(_) => ProductHeld(s, p); DeletedFrame(h, p, s.products[p].code);
      case BeginPlainDelete(_) =>
        ProductHeld(s, p);
        LostNot(s, p);
        BeginTakes(s, p);
      case ReleaseMember(_) => KindAt(h, Product(p)); DropInstanceFrame(h, Product(p));
      case LeaveDestructor(_) =>
    }
  }

  lemma BeginTakes(s: System, p: nat)
    requires Base(s) && p in s.products && s.products[p].phase.Alive? && Product(p) in s.heap.slots && Lost(p) !in s.heap.slots
    ensures Takes(s.heap, Product(p), CopySlot(Touch(s.heap, s.products[p].code), Lost(p), Product(p)), Lost(p))
  {
    hide Base, Frame, WellFormed;
    BaseHeap(s);
    var h1 := Touch(s.heap, s.products[p].code);
    TouchFrame(s.heap, s.products[p].code);
    FrameHeap(s.heap, h1, {});
    KindAt(h1, Product(p));
    CopySlotFrame(h1, Lost(p), Product(p));
  }

  /** The steps on products, from any state of any program. */
  lemma ProductStepEffect(c: Catalog, s: System, step: Step)
    requires Base(s) && Enabled(c, s, step) && ProductStep(step)
    ensures var s' := Next(c, s, step); ProductEffect(s, step, s') && SameTables(s, s') && s'.weaks == s.weaks
  {
    hide Base, ProductEffect, DeletedHeap, CopySlot, DropInstance, Touch, DropLost;
    match step {
      case Construct(slot, p) => ConstructEffect(s, slot, p);
      case CallProduct(p) => CallProductEffect(s, p);
      case CleanupLostProducts => CleanupEffect(s);
      case DeleteProduct(p) => DeletesEffect(c, s, step, p);
      case BeginPlainDelete(p) => DeletesEffect(c, s, step, p);
      case ReleaseMember(p) => DeletesEffect(c, s, step, p);
      case LeaveDestructor(p) => DeletesEffect(c, s, step, p);
    }
  }

  /** `Construct` takes the impossible branch exactly when the weak pointers that the factory has to
      itself find the instance but not the Info. */
  lemma ConstructBreaksExactly(c: Catalog, s: System, step: Step)
    requires Base(s) && Enabled(c, s, step) && ProductStep(step)
    ensures Next(c, s, step).broken <==>
            || s.broken
            || (step.Construct? && var weak := s.weaks[FromThis(s.heap.slots[step.slot])];
                weak.instance.Some? && weak.instance.value in s.heap.blocks && !(weak.info.Some? && weak.info.value in s.heap.blocks))
  {
    hide Base, DeletedHeap, CopySlot, DropInstance, Touch, DropLost, Share;
    BaseHeap(s);
    if step.Construct? {
      KindAt(s.heap, step.slot);
    }
  }

  lemma CallProductEffect(s: System, p: nat)
    requires Base(s) && p in s.products
    ensures ProductEffect(s, CallProduct(p), s.(heap := Touch(s.heap, s.products[p].code)))
  {
  }

  // ---------------------------------------------------------------- Loaders

  /** The other Loaders have the tables they had. */
  ghost predicate OtherLoadersSame(s: System, s': System, l: nat) {
    forall k | k != l :: (k in s'.loaders <==> k in s.loaders) && (k in s.loaders ==> s'.loaders[k] == s.loaders[k])
  }

  /** No plugin of another Loader, and none of this Loader outside of `names`, has another pointer. */
  ghost predicate PluginsElsewhere(h: Heap, h': Heap, l: nat, names: set<string>) {
    forall sl: Slot | !sl.InstanceLib? && !((sl.LoaderInfo? || sl.LoaderLib?) && sl.loader == l && sl.name in names) :: SameAt(h, h', sl)
  }

  /** The Loader has this library for the plugin, and this Info unless it had one before. */
  ghost predicate PluginLoaded(s: System, s': System, l: nat, lib: string, handle: Handle, info: Info) {
    var n, h' := info.name, s'.heap;
    && l in s.loaders && l in s'.loaders && n in s'.loaders[l].registry.plugins
    && Held(h', LoaderLib(l, n)) && PayloadAt(h', LoaderLib(l, n)).Library?
    && handle in h'.os && h'.os[handle].lib == lib
    && PayloadAt(h', LoaderLib(l, n)).code == Dynamic(handle, h'.os[handle].image)
    && Held(h', LoaderInfo(l, n)) && PayloadAt(h', LoaderInfo(l, n)).InfoPayload?
    && (if n in s.loaders[l].registry.plugins then
          Takes(s.heap, LoaderInfo(l, n), h', LoaderInfo(l, n)) && s'.loaders[l].registry.plugins[n] == s.loaders[l].registry.plugins[n]
        else
          && PayloadAt(h', LoaderInfo(l, n)) == InfoPayload(Dynamic(handle, h'.os[handle].image), info)
          && s'.loaders[l].registry.plugins[n] == info)
  }

  ghost predicate OtherHandlesSame(t: LoaderTables, t': LoaderTables, handle: Handle) {
    forall k | k != handle ::
      && (k in t'.handlePlugins <==> k in t.handlePlugins)
      && (k in t.handlePlugins ==> t'.handlePlugins[k] == t.handlePlugins[k])
  }

  ghost predicate LoadEffect(s: System, l: nat, lib: string, handle: Handle, infos: seq<Info>, s': System) {
    && (forall info | info in infos :: PluginLoaded(s, s', l, lib, handle, info))
    && PluginsElsewhere(s.heap, s'.heap, l, NamesOf(infos))
    && OtherLoadersSame(s, s', l) && l in s.loaders && l in s'.loaders
    && s'.loaders[l].registry.plugins.Keys == s.loaders[l].registry.plugins.Keys + NamesOf(infos)
    && handle in s'.loaders[l].handlePlugins && s'.loaders[l].handlePlugins[handle] == NamesOf(infos)
    && OtherHandlesSame(s.loaders[l], s'.loaders[l], handle)
  }

  ghost predicate ForgetEffect(s: System, l: nat, handle: Handle, s': System) {
    && l in s.loaders
    && if handle !in s.loaders[l].handlePlugins then s' == s
       else
         var names := s.loaders[l].handlePlugins[handle];
         && PluginsElsewhere(s.heap, s'.heap, l, names)
         && (forall n | n in names :: Empty(s'.heap, LoaderInfo(l, n)) && Empty(s'.heap, LoaderLib(l, n)))
         && OtherLoadersSame(s, s', l) && l in s'.loaders
         && s'.loaders[l].registry.plugins == s.loaders[l].registry.plugins - names
         && handle !in s'.loaders[l].handlePlugins
         && OtherHandlesSame(s.loaders[l], s'.loaders[l], handle)
  }

  ghost predicate DestroyEffect(s: System, l: nat, s': System) {
    && OtherLoadersSame(s, s', l) && l !in s'.loaders
    && (forall n :: Empty(s'.heap, LoaderInfo(l, n)) && Empty(s'.heap, LoaderLib(l, n)))
    && (forall sl: Slot | !sl.InstanceLib? && !((sl.LoaderInfo? || sl.LoaderLib?) && sl.loader == l) :: SameAt(s.heap, s'.heap, sl))
  }

  ghost predicate NewEffect(s: System, s': System) {
    && s'.heap == s.heap && s.nextLoader !in s.loaders && OtherLoadersSame(s, s', s.nextLoader)
    && s.nextLoader in s'.loaders && s'.loaders[s.nextLoader].registry.plugins == map[]
    && s'.loaders[s.nextLoader].handlePlugins == map[] && s'.loaders[s.nextLoader].registry.aliases == map[]
  }

  ghost predicate LoaderEffect(s: System, step: Step, s': System) {
    match step
    case NewLoader => NewEffect(s, s')
    case DestroyLoader(l, _, _) => DestroyEffect(s, l, s')
    case LoadLib(l, lib, handle, infos) => LoadEffect(s, l, lib, handle, infos, s')
    case ForgetLibrary(l, handle, _) => ForgetEffect(s, l, handle, s')
    case _ => true
  }

  lemma {:induction false} AddedKeys(t: Tables, infos: seq<Info>)
    ensures AddedAll(t, infos).plugins.Keys == t.plugins.Keys + NamesOf(infos)
    decreases |infos|
  {
    hide IndexAdd;
    if infos != [] {
      AddedKeys(Added(t, infos[0]), infos[1..]);
      NamesFirst(infos);
      hide NamesOf;
    }
  }

  lemma LoadStepEffect(s: System, l: nat, lib: string, handle: Handle, infos: seq<Info>)
    requires Base(s) && l in s.loaders && MayOpen(s.heap, lib, handle) && Catalogue(infos)
    ensures LoadEffect(s, l, lib, handle, infos, s.(heap := LoadedHeap(s.heap, l, s.loaders[l], lib, handle, infos),
                       loaders := s.loaders[l := LoadedTables(s.heap, s.loaders[l], handle, infos)]))
  {
    hide Base, WellFormed, Evolves, LoadedHeap, FilledSlots, Complete, PtrTable, PtrsComplete, Linked, AddedAll, MayOpen, PluginLoaded,
         PluginsElsewhere, OpenedAs, Catalogue, NamesOf, LoaderBase;
    var h, t := s.heap, s.loaders[l];
    var h' := LoadedHeap(h, l, t, lib, handle, infos);
    var s' := s.(heap := h', loaders := s.loaders[l := LoadedTables(h, t, handle, infos)]);
    var id := OpenPtrs(h, t.handlePtrs, handle)[handle];
    BaseHeap(s);
    LoadFrame(s, l, lib, handle, infos);
    AddedKeys(t.registry, infos);
    forall info | info in infos
      ensures PluginLoaded(s, s', l, lib, handle, info)
    {
      assert LoaderBase(h, l, t);
      OnePluginLoaded(s, s', l, lib, handle, infos, id, info);
    }
    LoadElsewhere(h, h', l, t.registry, infos, id, NewCode(h, handle));
  }

  lemma LoadElsewhere(h: Heap, h': Heap, l: nat, t: Tables, infos: seq<Info>, id: Id, code: Code)
    requires FilledSlots(h, h', l, t, infos, id, code)
    ensures PluginsElsewhere(h, h', l, NamesOf(infos))
  {
    hide FilledName, NamesOf;
  }

  lemma OnePluginLoaded(s: System, s': System, l: nat, lib: string, handle: Handle, infos: seq<Info>, id: Id, info: Info)
    requires l in s.loaders && LoaderBase(s.heap, l, s.loaders[l]) && WellFormed(s.heap) && WellFormed(s'.heap) && Evolves(s.heap, s'.heap)
    requires s'.loaders == s.loaders[l := LoadedTables(s.heap, s.loaders[l], handle, infos)] && Catalogue(infos) && info in infos
    requires FilledSlots(s.heap, s'.heap, l, s.loaders[l].registry, infos, id, NewCode(s.heap, handle))
    requires OpenedAs(s'.heap, l, lib, handle, id, NewCode(s.heap, handle))
    ensures PluginLoaded(s, s', l, lib, handle, info)
  {
    hide WellFormed, Evolves, LoaderBase, OpenPtrs, AddedAll, NamesOf, NewCode;
    var h, h', t, n := s.heap, s'.heap, s.loaders[l], info.name;
    assert FilledName(h', l, t.registry, info, id, NewCode(h, handle));
    HeldIsIn(h', LoaderLib(l, n));
    CodeLoaded(h', id);
    var i :| 0 <= i < |infos| && infos[i] == info;
    AddedStores(t.registry, infos, i);
    StoredPlugin(h, l, t, n);
    NewCodeIs(h, handle);
    if n in t.registry.plugins {
      assert LoaderInfo(l, n) in h.slots && SameAt(h, h', LoaderInfo(l, n));
      SameSlot(h, h', LoaderInfo(l, n));
    }
  }

  lemma NewCodeIs(h: Heap, handle: Handle)
    ensures NewCode(h, handle).Dynamic? && NewCode(h, handle).handle == handle
  {
  }

  lemma CodeLoaded(h: Heap, id: Id)
    requires WellFormed(h) && id in h.blocks && h.blocks[id].payload.Library?
    ensures var code := h.blocks[id].payload.code;
            code.Dynamic? && code.handle in h.os && h.os[code.handle].image == code.image
  {
    hide SlotsHeld, BlocksOwned, Balanced, MappedOnce, InstancesAnchored;
  }

  lemma ForgetStepEffect(s: System, l: nat, handle: Handle, order: seq<string>)
    requires Base(s) && l in s.loaders && handle in s.loaders[l].handlePlugins && Lists(order, s.loaders[l].handlePlugins[handle])
    ensures ForgetEffect(s, l, handle, s.(heap := ForgetPlugins(s.heap, l, order),
                         loaders := s.loaders[l := ForgottenTables(s.loaders[l], handle, order)]))
  {
    hide Base, WellFormed, Evolves, NoNewLibs, LoaderBase, PinnedName;
    BaseHeap(s);
    ForgetPluginsFacts(s.heap, l, order);
    var h' := ForgetPlugins(s.heap, l, order);
    hide ForgetPlugins;
    assert LoaderBase(s.heap, l, s.loaders[l]);
    ForgottenPlugins(s.heap, l, s.loaders[l], order);
    assert (set n | n in order) == s.loaders[l].handlePlugins[handle];
    hide ForgottenAll, WellFormed;
    ForgottenElsewhere(s.heap, h', l, order, s.loaders[l].handlePlugins[handle]);
    hide PluginsElsewhere, InfoSlots, LibSlots, Lists;
  }

  lemma ForgottenElsewhere(h: Heap, h': Heap, l: nat, order: seq<string>, names: set<string>)
    requires h'.slots == h.slots - InfoSlots(l, order) - LibSlots(l, order) && Lists(order, names)
    ensures PluginsElsewhere(h, h', l, names)
    ensures forall n | n in names :: Empty(h', LoaderInfo(l, n)) && Empty(h', LoaderLib(l, n))
  {
    forall n
      ensures LoaderInfo(l, n) in InfoSlots(l, order) <==> n in order
      ensures LoaderLib(l, n) in LibSlots(l, order) <==> n in order
    {
    }
  }

  lemma ForgottenPlugins(h: Heap, l: nat, t: LoaderTables, order: seq<string>)
    requires LoaderBase(h, l, t)
    ensures ForgottenAll(t.registry, order).plugins == t.registry.plugins - (set n | n in order)
  {
    hide PtrTable, PtrsComplete, Linked, Complete;
    ForgottenAllTable(t.registry, order);
  }

  lemma DestroyStepEffect(s: System, l: nat, infoOrder: seq<string>, libOrder: seq<string>)
    requires Base(s) && l in s.loaders
    requires Lists(infoOrder, s.loaders[l].registry.plugins.Keys) && Lists(libOrder, s.loaders[l].registry.plugins.Keys)
    ensures DestroyEffect(s, l, s.(heap := DropLibs(DropInfos(s.heap, l, infoOrder), l, libOrder), loaders := s.loaders - {l}))
  {
    hide Base, WellFormed, Evolves, NoNewLibs, PinnedName, Lists, Frame;
    BaseHeap(s);
    BaseDestroyLoader(s, l, infoOrder, libOrder);
    DestroyLoaderFrame(s, l, infoOrder, libOrder);
    var h' := DropLibs(DropInfos(s.heap, l, infoOrder), l, libOrder);
    var s' := s.(heap := h', loaders := s.loaders - {l});
    hide DropLibs, DropInfos;
    LoaderIsOld(s');
    forall sl: Slot | !sl.InstanceLib? && !((sl.LoaderInfo? || sl.LoaderLib?) && sl.loader == l)
      ensures SameAt(s.heap, h', sl)
    {
      Untouched(s.heap, h', InfoSlots(l, infoOrder) + LibSlots(l, libOrder), sl);
    }
  }

  /** The steps of Loaders, from any state of any program. */
  lemma LoaderStepEffect(c: Catalog, s: System, step: Step)
    requires WellNamed(c) && Base(s) && Enabled(c, s, step) && LoaderStep(step)
    ensures var s' := Next(c, s, step);
            LoaderEffect(s, step, s') && SameProducts(s, s') && s'.weaks == s.weaks && s'.broken == s.broken
  {
    hide WellNamed, Base, Lists, MayOpen, DropLibs, DropInfos, LoadedHeap, LoadedTables, ForgetPlugins, ForgottenTables, Catalogue,
         DestroyEffect, LoadEffect, ForgetEffect;
    match step {
      case NewLoader => LoaderIsOld(s);
      case DestroyLoader(l, infoOrder, libOrder) => DestroyStepEffect(s, l, infoOrder, libOrder);
      case LoadLib(l, lib, handle, infos) =>
        CatalogueOf(c, lib, infos);
        LoadStepEffect(s, l, lib, handle, infos);
      case ForgetLibrary(l, handle, order) =>
        if handle in s.loaders[l].handlePlugins {
          ForgetStepEffect(s, l, handle, order);
        } else {
          NothingForgotten(s, l, handle);
        }
    }
  }

  lemma NothingForgotten(s: System, l: nat, handle: Handle)
    requires l in s.loaders && handle !in s.loaders[l].handlePlugins
    ensures ForgetEffect(s, l, handle, s)
  {
  }

  // ---------------------------------------------------------------- the application

  /** The application's own `dlopen` and `dlclose` move one count of one handle by one. */
  lemma ExternalStepEffect(c: Catalog, s: System, step: Step)
    requires Base(s) && Enabled(c, s, step) && (step.ExternalOpen? || step.ExternalClose?)
    ensures var s' := Next(c, s, step);
            && s'.heap.slots == s.heap.slots && s'.heap.blocks == s.heap.blocks && SameTables(s, s') && SameProducts(s, s')
            && s'.weaks == s.weaks && s'.broken == s.broken
            && (step.ExternalOpen? ==> CountMoves(s.heap, s'.heap, step.handle, 1)
                                       && step.handle in s'.heap.os && s'.heap.os[step.handle].lib == step.lib)
            && (step.ExternalClose? ==> CountMoves(s.heap, s'.heap, step.handle, -1))
  {
    hide Base, ExternallyOpened, ExternallyClosed, CountMoves, WellFormed, MayOpen;
    BaseHeap(s);
    if step.ExternalOpen? {
      OpenedCounts(s.heap, step.lib, step.handle);
    } else {
      ClosedCounts(s.heap, step.handle);
    }
  }

  /** One handle has so many more counts, which are all the application's own. */
  ghost predicate CountMoves(h: Heap, h': Heap, k: Handle, more: int) {
    && OsCount(h', k) == OsCount(h, k) + more && External(h', k) == External(h, k) + more
    && (forall j | j != k :: OsCount(h', j) == OsCount(h, j) && External(h', j) == External(h, j))
  }

  lemma OpenedCounts(h: Heap, lib: string, k: Handle)
    requires MayOpen(h, lib, k)
    ensures var h' := ExternallyOpened(h, lib, k);
            && h'.slots == h.slots && h'.blocks == h.blocks && CountMoves(h, h', k, 1) && k in h'.os && h'.os[k].lib == lib
  {
  }

  lemma ClosedCounts(h: Heap, k: Handle)
    requires WellFormed(h) && External(h, k) > 0
    ensures var h' := ExternallyClosed(h, k);
            h'.slots == h.slots && h'.blocks == h.blocks && CountMoves(h, h', k, -1)
  {
    hide WellFormed;
    OpenCount(h, k);
  }

  lemma OpenCount(h: Heap, k: Handle)
    requires WellFormed(h) && External(h, k) > 0
    ensures k in h.os && h.os[k].count > 0
  {
    hide SlotsHeld, BlocksOwned, MappedOnce, LibrariesMapped, InstancesAnchored;
  }
}
