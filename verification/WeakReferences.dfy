/** `WeakPluginPtr`: what a weak reference gives back later in the run. */
module WeakReferences {
  import opened Common
  import opened Runtime
  import opened Registries
  import opened LoaderSteps
  import opened Plugins
  import opened Lifetime
  import opened Products
  import opened Agreement
  import opened Steps
  import opened Order
  import opened Safety
  import opened Runs
  import opened Wrappers

  // ---------------------------------------------------------------- an instance has one Info

  predicate WrapperCarries(h: Heap, w: nat, i: Id, j: Id) {
    WrapperInstance(w) in h.slots && h.slots[WrapperInstance(w)] == i && WrapperInfo(w) in h.slots && h.slots[WrapperInfo(w)] == j
  }

  predicate WeakCarries(weaks: map<WeakName, Weak>, v: WeakName, i: Id, j: Id) {
    v in weaks && weaks[v] == Weak(Some(i), Some(j))
  }

  /** Some wrapper or some weak reference has the instance `i` together with the Info `j`. */
  ghost predicate Carries(s: System, i: Id, j: Id) {
    (exists w :: WrapperCarries(s.heap, w, i, j)) || (exists v :: WeakCarries(s.weaks, v, i, j))
  }

  /** All copies of a wrapper, and all weak references taken from them, share one Info. */
  ghost predicate Coupled(s: System) {
    forall i, j, k | Carries(s, i, j) && Carries(s, i, k) :: j == k
  }

  /** Nothing new is carried. */
  ghost predicate Shrinks(s: System, s': System) {
    forall i, j | Carries(s', i, j) :: Carries(s, i, j)
  }

  lemma ShrinksQuiet(s: System, s': System)
    requires s'.weaks == s.weaks
    requires forall w :: SameAt(s.heap, s'.heap, WrapperInstance(w)) && SameAt(s.heap, s'.heap, WrapperInfo(w))
    ensures Shrinks(s, s')
  {
    forall i, j | Carries(s', i, j)
      ensures Carries(s, i, j)
    {
      if w :| WrapperCarries(s'.heap, w, i, j) {
        assert SameAt(s.heap, s'.heap, WrapperInstance(w)) && SameAt(s.heap, s'.heap, WrapperInfo(w));
        assert WrapperCarries(s.heap, w, i, j);
      }
    }
  }

  lemma ShrinksFrame(s: System, s': System, changed: set<Slot>)
    requires Base(s) && Frame(s.heap, s'.heap, changed) && s'.weaks == s.weaks
    requires forall sl | sl in changed :: !sl.WrapperInstance? && !sl.WrapperInfo?
    ensures Shrinks(s, s')
  {
    hide Base, Frame, Shrinks, WellFormed;
    BaseHeap(s);
    forall w
      ensures SameAt(s.heap, s'.heap, WrapperInstance(w)) && SameAt(s.heap, s'.heap, WrapperInfo(w))
    {
      StayingSlot(s.heap, s'.heap, changed, WrapperInstance(w));
      StayingSlot(s.heap, s'.heap, changed, WrapperInfo(w));
    }
    ShrinksQuiet(s, s');
  }

  /** Only the wrapper `u` was written, with something that was carried before. */
  lemma ShrinksWrapper(s: System, s': System, changed: set<Slot>, u: nat)
    requires Base(s) && Frame(s.heap, s'.heap, changed) && WritesWrapper(changed, u) && s'.weaks == s.weaks
    requires forall i, j | WrapperCarries(s'.heap, u, i, j) :: Carries(s, i, j)
    ensures Shrinks(s, s')
  {
    hide Base, Frame, WellFormed;
    BaseHeap(s);
    forall i, j | Carries(s', i, j)
      ensures Carries(s, i, j)
    {
      if w :| WrapperCarries(s'.heap, w, i, j) {
        if w != u {
          StayingSlot(s.heap, s'.heap, changed, WrapperInstance(w));
          StayingSlot(s.heap, s'.heap, changed, WrapperInfo(w));
          assert WrapperCarries(s.heap, w, i, j);
        }
      }
    }
  }

  lemma CoupledShrinks(s: System, s': System)
    requires Coupled(s) && Shrinks(s, s')
    ensures Coupled(s')
  {
    hide Carries;
  }

  lemma CarriedIsOld(s: System, i: Id, j: Id)
    requires Base(s) && Carries(s, i, j)
    ensures i < s.heap.next
  {
    hide LoadersBase, WrappersAgree, ProductsOk, WellFormed;
    if w :| WrapperCarries(s.heap, w, i, j) {
      KindAt(s.heap, WrapperInstance(w));
      OldBlocks(s.heap);
    } else {
      var v :| WeakCarries(s.weaks, v, i, j);
      assert WeakOk(s.heap, s.weaks[v]);
    }
  }

  /** A new instance comes with one Info. */
  lemma CoupledFilled(s: System, h': Heap, changed: set<Slot>, w: nat, i: Id, j: Id)
    requires Base(s) && Coupled(s) && Frame(s.heap, h', changed) && WritesWrapper(changed, w) && WrapperCarries(h', w, i, j)
    requires s.heap.next <= i
    ensures Coupled(s.(heap := h', weaks := Introduced(s.weaks, h', w)))
  {
    hide Base, Frame, Coupled, WellFormed;
    BaseHeap(s);
    var s' := s.(heap := h', weaks := Introduced(s.weaks, h', w));
    forall a, b | Carries(s', a, b)
      ensures (a == i && b == j) || Carries(s, a, b)
    {
      if u :| WrapperCarries(h', u, a, b) {
        if u != w {
          StayingSlot(s.heap, h', changed, WrapperInstance(u));
          StayingSlot(s.heap, h', changed, WrapperInfo(u));
          assert WrapperCarries(s.heap, u, a, b);
        }
      } else {
        var v :| WeakCarries(s'.weaks, v, a, b);
        assert WeakCarries(s.weaks, v, a, b) || (a == i && b == j);
      }
    }
    hide Carries, Introduced;
    CoupledMore(s, s', i, j);
  }

  lemma CoupledMore(s: System, s': System, i: Id, j: Id)
    requires Base(s) && Coupled(s) && s.heap.next <= i
    requires forall a, b | Carries(s', a, b) :: (a == i && b == j) || Carries(s, a, b)
    ensures Coupled(s')
  {
    hide Base, Carries;
    forall a, b, d | Carries(s', a, b) && Carries(s', a, d)
      ensures b == d
    {
      if Carries(s, a, b) {
        CarriedIsOld(s, a, b);
      }
      if Carries(s, a, d) {
        CarriedIsOld(s, a, d);
      }
    }
  }

  lemma InstantiateCoupled(s: System, l: nat, nameOrAlias: string, w: nat)
    requires Base(s) && Coupled(s) && l in s.loaders && Fresh(s.heap, w)
    ensures Coupled(Instantiated(s, l, nameOrAlias, w))
  {
    hide Base, Frame, Lookup, Created, WellFormed, Introduced, Coupled;
    BaseHeap(s);
    var h := s.heap;
    var name := Lookup(s.loaders[l].registry, nameOrAlias);
    if Held(h, LoaderInfo(l, name)) && Held(h, LoaderLib(l, name)) && PayloadAt(h, LoaderInfo(l, name)).InfoPayload? {
      KindAt(h, LoaderLib(l, name));
      CreatedFrame(h, w, h.slots[LoaderInfo(l, name)], h.slots[LoaderLib(l, name)]);
      var h' := Created(h, w, h.slots[LoaderInfo(l, name)], h.slots[LoaderLib(l, name)]);
      CoupledFilled(s, h', CreatedSlots(h, w), w, h.next, h.slots[LoaderInfo(l, name)]);
    } else {
      ShrinksQuiet(s, s.(broken := true));
      CoupledShrinks(s, s.(broken := true));
    }
  }

  lemma InstantiateStaticCoupled(s: System, info: Info, w: nat)
    requires Base(s) && Coupled(s) && Fresh(s.heap, w)
    ensures Coupled(InstantiatedStatic(s, info, w))
  {
    hide Base, Frame, CreatedStatic, WellFormed, Introduced, Coupled;
    BaseHeap(s);
    CreatedStaticFrame(s.heap, w, info);
    CoupledFilled(s, CreatedStatic(s.heap, w, info), {WrapperInfo(w), WrapperInstance(w)}, w, s.heap.next + 1, s.heap.next);
  }

  lemma CopyShrinks(s: System, to: nat, from: nat)
    requires Base(s)
    ensures Shrinks(s, s.(heap := Copied(s.heap, to, from)))
  {
    hide Base, Frame, WellFormed, Copied, Shrinks;
    BaseHeap(s);
    CopiedFrame(s.heap, to, from);
    var h' := Copied(s.heap, to, from);
    forall i, j | WrapperCarries(h', to, i, j)
      ensures Carries(s, i, j)
    {
      assert WrapperCarries(s.heap, from, i, j);
    }
    ShrinksWrapper(s, s.(heap := h'), {WrapperInstance(to), WrapperInfo(to)}, to);
  }

  lemma ClearShrinks(s: System, w: nat)
    requires Base(s)
    ensures Shrinks(s, s.(heap := Cleared(s.heap, w))) && Shrinks(s, s.(heap := Destroyed(s.heap, w)))
  {
    hide Base, Frame, WellFormed, Cleared, Destroyed, Shrinks, Carries;
    BaseHeap(s);
    ClearedFrame(s.heap, w);
    DestroyedFrame(s.heap, w);
    ShrinksWrapper(s, s.(heap := Cleared(s.heap, w)), {WrapperInstance(w), WrapperInfo(w)}, w);
    ShrinksWrapper(s, s.(heap := Destroyed(s.heap, w)), {WrapperInfo(w), WrapperInstance(w)}, w);
  }

  lemma LockShrinks(s: System, name: WeakName, w: nat)
    requires Base(s) && name in s.weaks && Fresh(s.heap, w)
    ensures Shrinks(s, s.(heap := Locked(s.heap, w, s.weaks[name].instance, s.weaks[name].info),
                          broken := s.broken || InfoMissing(s.heap, s.weaks[name])))
  {
    hide Base, Frame, WellFormed, Locked, Shrinks, InfoMissing;
    LockFrame(s, name, w);
    var h' := Locked(s.heap, w, s.weaks[name].instance, s.weaks[name].info);
    forall i, j | WrapperCarries(h', w, i, j)
      ensures Carries(s, i, j)
    {
      assert WeakCarries(s.weaks, name, i, j);
    }
    ShrinksWrapper(s, s.(heap := h', broken := s.broken || InfoMissing(s.heap, s.weaks[name])),
                   {WrapperInstance(w), WrapperInfo(w)}, w);
  }

  lemma ObserveShrinks(s: System, v: nat, w: nat)
    ensures Shrinks(s, s.(weaks := s.weaks[User(v) := Weak(Holder(s.heap, WrapperInstance(w)), Holder(s.heap, WrapperInfo(w)))]))
  {
    var s' := s.(weaks := s.weaks[User(v) := Weak(Holder(s.heap, WrapperInstance(w)), Holder(s.heap, WrapperInfo(w)))]);
    forall i, j | Carries(s', i, j)
      ensures Carries(s, i, j)
    {
      if u :| WeakCarries(s'.weaks, u, i, j) {
        if u == User(v) {
          assert WrapperCarries(s.heap, w, i, j);
        } else {
          assert WeakCarries(s.weaks, u, i, j);
        }
      }
    }
  }

  lemma LoadShrinks(s: System, l: nat, lib: string, handle: Handle, infos: seq<Info>, loaders: map<nat, LoaderTables>)
    requires Base(s) && l in s.loaders && MayOpen(s.heap, lib, handle) && Catalogue(infos)
    ensures Shrinks(s, s.(heap := LoadedHeap(s.heap, l, s.loaders[l], lib, handle, infos), loaders := loaders))
  {
    hide Base, WellFormed, LoadedHeap, FilledSlots, MayOpen, Catalogue, OpenedAs, Shrinks;
    LoadFrame(s, l, lib, handle, infos);
    var h := s.heap;
    FilledRest(h, LoadedHeap(h, l, s.loaders[l], lib, handle, infos), l, s.loaders[l].registry, infos,
               OpenPtrs(h, s.loaders[l].handlePtrs, handle)[handle], NewCode(h, handle));
    ShrinksQuiet(s, s.(heap := LoadedHeap(h, l, s.loaders[l], lib, handle, infos), loaders := loaders));
  }

  lemma LoaderStepShrinks(c: Catalog, s: System, step: Step)
    requires WellNamed(c) && Base(s) && Enabled(c, s, step) && LoaderStep(step)
    ensures Shrinks(s, Next(c, s, step))
  {
    hide WellNamed, Base, Frame, Lists, MayOpen, DropLibs, DropInfos, LoadedHeap, LoadedTables, ForgetPlugins, ForgottenTables,
         PinnedName, Catalogue, Shrinks;
    var s' := Next(c, s, step);
    match step {
      case NewLoader => ShrinksQuiet(s, s');
      case DestroyLoader(l, infoOrder, libOrder) =>
        DestroyLoaderFrame(s, l, infoOrder, libOrder);
        ShrinksFrame(s, s', InfoSlots(l, infoOrder) + LibSlots(l, libOrder));
      case LoadLib(l, lib, handle, infos) =>
        CatalogueOf(c, lib, infos);
        LoadShrinks(s, l, lib, handle, infos, s'.loaders);
      case ForgetLibrary(l, handle, order) =>
        if handle in s.loaders[l].handlePlugins {
          ForgetFrame(s, l, order);
          ShrinksFrame(s, s', InfoSlots(l, order) + LibSlots(l, order));
        } else {
          ShrinksQuiet(s, s');
        }
    }
  }

  lemma ProductWeaks(c: Catalog, s: System, step: Step)
    requires Enabled(c, s, step) && ProductStep(step)
    ensures Next(c, s, step).weaks == s.weaks
    ensures forall sl | sl in Written(s, step) :: !sl.WrapperInstance? && !sl.WrapperInfo?
  {
    hide DropLost, DeletedHeap, DropInstance, CopySlot, Touch, Share, InfoMissing;
  }

  lemma WrapperStepCoupled(c: Catalog, s: System, step: Step)
    requires Base(s) && Coupled(s) && Enabled(c, s, step) && !LoaderStep(step) && !ProductStep(step)
    ensures Coupled(Next(c, s, step))
  {
    hide Base, Frame, Fresh, Instantiated, InstantiatedStatic, Copied, Cleared, Destroyed, GotInterface, CopySlot, DropInstance,
         Called, Locked, ExternallyOpened, ExternallyClosed, Lookup, MayOpen, InfoMissing, Coupled, Shrinks;
    var s' := Next(c, s, step);
    match step {
      case Instantiate(l, n, w) => InstantiateCoupled(s, l, n, w);
      case InstantiateStatic(info, w) => InstantiateStaticCoupled(s, info, w);
      case CopyWrapper(to, from) => CopyShrinks(s, to, from);
      case ClearWrapper(w) => ClearShrinks(s, w);
      case DestroyWrapper(w) => ClearShrinks(s, w);
      case Observe(v, w) => ObserveShrinks(s, v, w);
      case LockWeak(name, w) => LockShrinks(s, name, w);
      case GetInterface(w, i, k) => WrapperStepFrame(c, s, step); ShrinksFrame(s, s', {Interface(k)});
      case CopyInterface(to, from) => WrapperStepFrame(c, s, step); ShrinksFrame(s, s', {Interface(to)});
      case DropInterface(k) => WrapperStepFrame(c, s, step); ShrinksFrame(s, s', {Interface(k)});
      case Call(slot) => WrapperStepFrame(c, s, step); ShrinksFrame(s, s', {});
      case ExternalOpen(lib, handle) => WrapperStepFrame(c, s, step); ShrinksFrame(s, s', {});
      case ExternalClose(handle) => WrapperStepFrame(c, s, step); ShrinksFrame(s, s', {});
    }
    if !step.Instantiate? && !step.InstantiateStatic? {
      CoupledShrinks(s, s');
    }
  }

  lemma CoupledStep(c: Catalog, s: System, step: Step)
    requires WellNamed(c) && Base(s) && Coupled(s) && Enabled(c, s, step)
    ensures Coupled(Next(c, s, step))
  {
    hide WellNamed, Base, Frame, Written, Next, Coupled, Shrinks;
    var s' := Next(c, s, step);
    if LoaderStep(step) {
      LoaderStepShrinks(c, s, step);
      CoupledShrinks(s, s');
    } else if ProductStep(step) {
      ProductStepFrame(c, s, step);
      ProductWeaks(c, s, step);
      ShrinksFrame(s, s', Written(s, step));
      CoupledShrinks(s, s');
    } else {
      WrapperStepCoupled(c, s, step);
    }
  }

  lemma {:induction false} CoupledRun(c: Catalog, s: System, steps: seq<Step>)
    requires WellNamed(c) && Base(s) && Coupled(s) && Possible(c, s, steps)
    ensures Coupled(Run(c, s, steps))
    decreases |steps|
  {
    hide WellNamed, Base, Enabled, Next, Coupled;
    if steps == [] {
    } else {
      BaseStep(c, s, steps[0]);
      CoupledStep(c, s, steps[0]);
      CoupledRun(c, Next(c, s, steps[0]), steps[1..]);
    }
  }

  // ---------------------------------------------------------------- the round trip

  /** The answer of a wrapper to a query: which instance, at which offset. */
  function Answer(h: Heap, w: nat, interfaceName: string): Option<Location> {
    Offered(View(map[], HeldInstance(h, w), HeldInfo(h, w)), interfaceName)
  }

  /** In every run: while a wrapper holds the instance that a weak reference was taken of, `Lock`
      gives a wrapper equal to it, with the same answers for every interface.  It takes no impossible
      branch, and when no two libraries export one name it runs no code that is gone. */
  lemma LockRoundTrip(c: Catalog, steps: seq<Step>, name: WeakName, w: nat, u: nat, i: Id, j: Id)
    requires WellNamed(c) && Possible(c, INITIAL, steps)
    requires var s := Run(c, INITIAL, steps);
             Enabled(c, s, LockWeak(name, w)) && WeakCarries(s.weaks, name, i, j)
             && Held(s.heap, WrapperInstance(u)) && s.heap.slots[WrapperInstance(u)] == i && Held(s.heap, WrapperInfo(u))
    ensures var s := Run(c, INITIAL, steps); var s' := Next(c, s, LockWeak(name, w));
            && s'.broken == s.broken && (Disjoint(c) ==> s'.heap.fault == s.heap.fault)
            && WrapperCarries(s'.heap, w, i, j)
            && (forall n :: Answer(s'.heap, w, n) == Answer(s'.heap, u, n) == Answer(s.heap, u, n))
  {
    hide WellNamed, Disjoint, Possible, Run, Base, Coupled, Carries, Frame, Locked, Answer, WellFormed, Agrees, Tied;
    InitialGood(c);
    assert Coupled(INITIAL) by { NothingCarried(); }
    BaseProgram(c, steps);
    if Disjoint(c) {
      OrderlyProgram(c, steps);
    }
    CoupledRun(c, INITIAL, steps);
    var s := Run(c, INITIAL, steps);
    LocksTheSame(s, name, w, u, i, j);
  }

  lemma NothingCarried()
    ensures Coupled(INITIAL)
  {
  }

  lemma LocksTheSame(s: System, name: WeakName, w: nat, u: nat, i: Id, j: Id)
    requires Base(s) && Coupled(s) && name in s.weaks && Fresh(s.heap, w) && WeakCarries(s.weaks, name, i, j)
    requires Held(s.heap, WrapperInstance(u)) && s.heap.slots[WrapperInstance(u)] == i && Held(s.heap, WrapperInfo(u))
    ensures var h' := Locked(s.heap, w, s.weaks[name].instance, s.weaks[name].info);
            && !InfoMissing(s.heap, s.weaks[name]) && (Tied(s.heap) ==> h'.fault == s.heap.fault) && WrapperCarries(h', w, i, j)
            && (forall n :: Answer(h', w, n) == Answer(h', u, n) == Answer(s.heap, u, n))
  {
    hide Base, Frame, Locked, WellFormed, Tied;
    BaseHeap(s);
    var h := s.heap;
    assert Carries(s, i, h.slots[WrapperInfo(u)]) by { assert WrapperCarries(h, u, i, h.slots[WrapperInfo(u)]); }
    assert Carries(s, i, j);
    assert h.slots[WrapperInfo(u)] == j;
    hide Coupled, Carries;
    LockFrame(s, name, w);
    var h' := Locked(h, w, s.weaks[name].instance, s.weaks[name].info);
    FrameHeap(h, h', {WrapperInstance(w), WrapperInfo(w)});
    HeldIsIn(h', WrapperInstance(w));
    HeldIsIn(h', WrapperInfo(w));
    StayingSlot(h, h', {WrapperInstance(w), WrapperInfo(w)}, WrapperInstance(u));
    StayingSlot(h, h', {WrapperInstance(w), WrapperInfo(w)}, WrapperInfo(u));
  }

  // ---------------------------------------------------------------- expiry

  lemma StepEvolves(c: Catalog, s: System, step: Step)
    requires WellNamed(c) && Base(s) && Enabled(c, s, step)
    ensures Evolves(s.heap, Next(c, s, step).heap)
  {
    hide WellNamed, Base, Frame, Written, Next, Evolves;
    if LoaderStep(step) {
      LoaderStepEvolves(c, s, step);
    } else {
      OtherStepFrame(c, s, step);
      FrameHeap(s.heap, Next(c, s, step).heap, Written(s, step));
    }
  }

  lemma LoaderStepEvolves(c: Catalog, s: System, step: Step)
    requires WellNamed(c) && Base(s) && Enabled(c, s, step) && LoaderStep(step)
    ensures Evolves(s.heap, Next(c, s, step).heap)
  {
    hide WellNamed, Base, Frame, Lists, MayOpen, DropLibs, DropInfos, LoadedHeap, LoadedTables, ForgetPlugins, ForgottenTables,
         PinnedName, Catalogue, Evolves, FilledSlots, OpenedAs, WellFormed;
    BaseHeap(s);
    EvolvesRefl(s.heap);
    match step {
      case NewLoader =>
      case DestroyLoader(l, infoOrder, libOrder) =>
        DestroyLoaderFrame(s, l, infoOrder, libOrder);
        FrameHeap(s.heap, DropLibs(DropInfos(s.heap, l, infoOrder), l, libOrder), InfoSlots(l, infoOrder) + LibSlots(l, libOrder));
      case LoadLib(l, lib, handle, infos) =>
        CatalogueOf(c, lib, infos);
        LoadFrame(s, l, lib, handle, infos);
      case ForgetLibrary(l, handle, order) =>
        ForgetFrame(s, l, order);
        FrameHeap(s.heap, ForgetPlugins(s.heap, l, order), InfoSlots(l, order) + LibSlots(l, order));
    }
  }

  /** A dead object stays dead, however the program goes on. */
  lemma {:induction false} DeadStaysDead(c: Catalog, s: System, steps: seq<Step>, id: Id)
    requires WellNamed(c) && Base(s) && Possible(c, s, steps)
    requires id < s.heap.next && id !in s.heap.blocks
    ensures id !in Run(c, s, steps).heap.blocks
    decreases |steps|
  {
    hide WellNamed, Base, Enabled, Next;
    if steps == [] {
    } else {
      BaseStep(c, s, steps[0]);
      StepEvolves(c, s, steps[0]);
      DeadStaysDead(c, Next(c, s, steps[0]), steps[1..], id);
    }
  }

  /** Once the instance is dead, `IsExpired` stays true until the reference is assigned again,
      and `Lock` gives a wrapper without an instance. */
  lemma ExpiredStays(c: Catalog, s: System, steps: seq<Step>, name: WeakName, w: nat)
    requires WellNamed(c) && Base(s) && Possible(c, s, steps)
    requires name in s.weaks && !LivesIn(s.weaks[name].instance, s.heap)
    requires var s' := Run(c, s, steps); name in s'.weaks && s'.weaks[name] == s.weaks[name] && Fresh(s'.heap, w)
    ensures var s' := Run(c, s, steps);
            && !LivesIn(s'.weaks[name].instance, s'.heap)
            && Enabled(c, s', LockWeak(name, w)) && WrapperInstance(w) !in Next(c, s', LockWeak(name, w)).heap.slots
            && (forall n :: Answer(Next(c, s', LockWeak(name, w)).heap, w, n) == None)
  {
    hide WellNamed, Base, Possible, Run, Locked;
    var s' := Run(c, s, steps);
    BaseRun(c, s, steps);
    var instance := s.weaks[name].instance;
    if instance.Some? {
      assert instance.value < s.heap.next by { WeakIsOld(s, name); }
      DeadStaysDead(c, s, steps, instance.value);
    }
    LockFrame(s', name, w);
  }

  /** The same between any two moments of any run. */
  lemma ExpiredStaysProgram(c: Catalog, before: seq<Step>, after: seq<Step>, name: WeakName, w: nat)
    requires WellNamed(c) && Possible(c, INITIAL, before) && Possible(c, Run(c, INITIAL, before), after)
    requires var s := Run(c, INITIAL, before); name in s.weaks && !LivesIn(s.weaks[name].instance, s.heap)
    requires var s, s' := Run(c, INITIAL, before), Run(c, Run(c, INITIAL, before), after);
             name in s'.weaks && s'.weaks[name] == s.weaks[name] && Fresh(s'.heap, w)
    ensures var s' := Run(c, Run(c, INITIAL, before), after);
            && !LivesIn(s'.weaks[name].instance, s'.heap)
            && Enabled(c, s', LockWeak(name, w)) && WrapperInstance(w) !in Next(c, s', LockWeak(name, w)).heap.slots
            && (forall n :: Answer(Next(c, s', LockWeak(name, w)).heap, w, n) == None)
  {
    hide WellNamed, Base, Possible, Run, Enabled, Next, Answer, Fresh;
    BaseProgram(c, before);
    ExpiredStays(c, Run(c, INITIAL, before), after, name, w);
  }

  lemma WeakIsOld(s: System, name: WeakName)
    requires Base(s) && name in s.weaks
    ensures OldId(s.heap, s.weaks[name].instance)
  {
    hide WellFormed, LoadersBase, WrappersAgree, ProductsOk, Paired;
    assert WeakOk(s.heap, s.weaks[name]);
  }
}
