/** The run-time the library is written against: the reference counts of `dlopen`/`dlclose`
    and the control blocks of `std::shared_ptr`.

    Next to each count the heap records what is counted: the slots of the program that hold a
    shared pointer, and the control blocks that keep a library open.  `Sound` says that they
    agree. */
module Runtime {
  import opened Common

  type Handle = nat
  // A control block outlives its object for as long as a weak_ptr names it, so the identity of
  // a block is never reused.
  type Id = nat

  /** Where functions live: in the executable, or in one mapping of a shared library.  A handle
      may be reused after its library was unloaded; an image number never is. */
  datatype Code = Resident | Dynamic(handle: Handle, image: nat)

  /** A library that is mapped at some handle: how often `dlopen` was called for it without
      `dlclose`, and the live control blocks whose deleter will call `dlclose`. */
  datatype Mapping = Mapping(lib: string, image: nat, count: nat, users: set<Id>)

  datatype Slot =
    | LoaderLib(loader: nat, name: string)   // Loader: pluginToDlHandlePtrs[name]
    | LoaderInfo(loader: nat, name: string)  // Loader: filePlugins.plugins[name]
    | InstanceLib(instance: Id)              // PluginWithDlHandle: dlHandlePtr
    | WrapperInstance(wrapper: nat)          // Plugin: loadedInstancePtr
    | WrapperInfo(wrapper: nat)              // Plugin: info
    | Interface(pointer: nat)                // a user's std::shared_ptr<Interface>
    | Product(product: nat)                  // FactoryCounter: factoryPluginInstancePtr
    | Lost(product: nat)                     // an element of lostProducts
    | LocalLib                               // the dlHandle variable of LoadLib
    | LocalInstance                          // the variable of ProductDeleter

  datatype Payload =
    | Library(code: Code, creator: nat)
    | InfoPayload(code: Code, info: Info)
    | InstancePayload(code: Code, info: Info)

  datatype Block = Block(payload: Payload, strong: nat, owners: set<Slot>)

  datatype Heap = Heap(os: map<Handle, Mapping>,
                       external: map<Handle, nat>,
                       images: nat,
                       blocks: map<Id, Block>,
                       next: Id,
                       slots: map<Slot, Id>,
                       fault: bool)

  const EMPTY_HEAP := Heap(map[], map[], 0, map[], 0, map[], false)

  // ---------------------------------------------------------------- operations

  predicate Loaded(h: Heap, c: Code) {
    c.Resident? || (c.handle in h.os && h.os[c.handle].image == c.image)
  }

  /** Runs code that lives at `c`: a fault when it is no longer mapped. */
  function Touch(h: Heap, c: Code): Heap {
    h.(fault := h.fault || !Loaded(h, c))
  }

  /** The answers `dlopen` may give: the handle of the mapping that exists, or else any value
      that is not a handle at the moment. */
  predicate MayOpen(h: Heap, lib: string, handle: Handle) {
    if handle in h.os then h.os[handle].lib == lib
    else forall k | k in h.os :: h.os[k].lib != lib
  }

  /** A library that is mapped has one answer, its handle; any other library may get any handle that
      is free, be it new or used before. */
  lemma DlopenAnswers(h: Heap, lib: string)
    requires MappedOnce(h)
    ensures forall k | k in h.os && h.os[k].lib == lib :: forall j :: MayOpen(h, lib, j) <==> j == k
    ensures (forall k | k in h.os :: h.os[k].lib != lib) ==> forall j :: MayOpen(h, lib, j) <==> j !in h.os
  {
  }

  function Dlopen(h: Heap, lib: string, handle: Handle): Heap {
    if handle in h.os then
      var m := h.os[handle];
      h.(os := h.os[handle := m.(count := m.count + 1)])
    else
      h.(os := h.os[handle := Mapping(lib, h.images, 1, {})], images := h.images + 1)
  }

  function Dlclose(h: Heap, handle: Handle): Heap {
    if handle !in h.os then h
    else
      var m := h.os[handle];
      if m.count <= 1 then h.(os := h.os - {handle})
      else h.(os := h.os[handle := m.(count := m.count - 1)])
  }

  /** `std::make_shared`: a new control block whose only owner is `slot`. */
  function Make(h: Heap, slot: Slot, payload: Payload): Heap {
    h.(blocks := h.blocks[h.next := Block(payload, 1, {slot})], next := h.next + 1,
       slots := h.slots[slot := h.next])
  }

  /** A shared pointer to a library handle: its deleter will undo one `dlopen`. */
  function MakeLib(h: Heap, slot: Slot, handle: Handle, creator: nat): Heap
    requires handle in h.os
  {
    var m := h.os[handle];
    var h1 := h.(os := h.os[handle := m.(users := m.users + {h.next})]);
    Make(h1, slot, Library(Dynamic(handle, m.image), creator))
  }

  /** Copies a shared pointer into an empty slot. */
  function Share(h: Heap, slot: Slot, id: Id): Heap {
    if id !in h.blocks then h
    else
      var b := h.blocks[id];
      h.(blocks := h.blocks[id := b.(strong := b.strong + 1, owners := b.owners + {slot})],
         slots := h.slots[slot := id])
  }

  predicate Held(h: Heap, slot: Slot) {
    slot in h.slots && h.slots[slot] in h.blocks
  }

  predicate Last(h: Heap, slot: Slot) {
    Held(h, slot) && h.blocks[h.slots[slot]].strong <= 1
  }

  function PayloadAt(h: Heap, slot: Slot): Payload
    requires Held(h, slot)
  {
    h.blocks[h.slots[slot]].payload
  }

  /** Gives one reference back; the block goes when it was the last one. */
  function Unref(h: Heap, slot: Slot): Heap
    requires Held(h, slot)
  {
    var id := h.slots[slot];
    var b := h.blocks[id];
    h.(slots := h.slots - {slot},
       blocks := if b.strong <= 1 then h.blocks - {id}
                 else h.blocks[id := b.(strong := b.strong - 1, owners := b.owners - {slot})])
  }

  /** The deleter that `LoadLib` gives to a library handle: `dlclose` on behalf of one block. */
  function CloseLib(h: Heap, id: Id, k: Handle): Heap {
    if k !in h.os then h
    else
      var m := h.os[k];
      h.(os := if m.count <= 1 then h.os - {k}
               else h.os[k := Mapping(m.lib, m.image, m.count - 1, m.users - {id})])
  }

  /** Resets a shared pointer to a library: the deleter of the last one calls `dlclose`. */
  function DropLib(h: Heap, slot: Slot): Heap {
    if !Held(h, slot) then h
    else
      var h1 := Unref(h, slot);
      var code := PayloadAt(h, slot).code;
      if Last(h, slot) && code.Dynamic? then CloseLib(h1, h.slots[slot], code.handle) else h1
  }

  /** Resets a shared pointer to an Info: the last one destroys its `std::function` members,
      whose code is in the library. */
  function DropInfo(h: Heap, slot: Slot): Heap {
    if !Held(h, slot) then h
    else
      var o := PayloadAt(h, slot);
      var h1 := Unref(h, slot);
      if Last(h, slot) then Touch(h1, o.code) else h1
  }

  /** Resets a shared pointer to a plugin instance: the last one runs ~PluginWithDlHandle, which
      calls the deleter and only then gives up its reference to the library. */
  function DropInstance(h: Heap, slot: Slot): Heap {
    if !Held(h, slot) then h
    else
      var id := h.slots[slot];
      var o := PayloadAt(h, slot);
      var h1 := Unref(h, slot);
      if Last(h, slot) then DropLib(Touch(h1, o.code), InstanceLib(id)) else h1
  }

  // ---------------------------------------------------------------- the invariant

  function External(h: Heap, handle: Handle): nat {
    if handle in h.external then h.external[handle] else 0
  }

  predicate RightKind(slot: Slot, payload: Payload) {
    match slot
    case LoaderLib(_, _) => payload.Library?
    case InstanceLib(_) => payload.Library?
    case LocalLib => payload.Library?
    case LoaderInfo(_, _) => payload.InfoPayload?
    case WrapperInfo(_) => payload.InfoPayload?
    case WrapperInstance(_) => payload.InstancePayload?
    case Interface(_) => payload.InstancePayload?
    case Product(_) => payload.InstancePayload?
    case Lost(_) => payload.InstancePayload?
    case LocalInstance => payload.InstancePayload?
  }

  predicate SlotsHeld(h: Heap) {
    forall sl | sl in h.slots ::
      h.slots[sl] in h.blocks && sl in h.blocks[h.slots[sl]].owners && RightKind(sl, h.blocks[h.slots[sl]].payload)
  }

  predicate BlocksOwned(h: Heap) {
    forall id | id in h.blocks ::
      && id < h.next
      && h.blocks[id].strong == |h.blocks[id].owners| > 0
      && (forall sl | sl in h.blocks[id].owners :: sl in h.slots && h.slots[sl] == id)
  }

  predicate Balanced(h: Heap) {
    && (forall k | k in h.os ::
          && h.os[k].count == External(h, k) + |h.os[k].users| > 0
          && h.os[k].image < h.images
          && (forall id | id in h.os[k].users :: id in h.blocks && IsLibraryAt(h.blocks[id], k)))
    && (forall k | k in h.external && h.external[k] > 0 :: k in h.os)
  }

  predicate IsLibraryAt(b: Block, k: Handle) {
    b.payload.Library? && b.payload.code.Dynamic? && b.payload.code.handle == k
  }

  predicate LibrariesMapped(h: Heap) {
    forall id | id in h.blocks && h.blocks[id].payload.Library? ::
      && h.blocks[id].payload.code.Dynamic?
      && Loaded(h, h.blocks[id].payload.code)
      && id in h.os[h.blocks[id].payload.code.handle].users
  }

  /** A library is mapped at one handle only. */
  predicate MappedOnce(h: Heap) {
    forall j, k | j in h.os && k in h.os && h.os[j].lib == h.os[k].lib :: j == k
  }

  /** The half of the invariant that is about reference counts ... */
  predicate Owned(h: Heap) {
    SlotsHeld(h) && BlocksOwned(h)
  }

  /** ... and the half that is about the operating system. */
  predicate OsSound(h: Heap) {
    Balanced(h) && MappedOnce(h) && LibrariesMapped(h)
  }

  predicate Sound(h: Heap) {
    Owned(h) && OsSound(h)
  }

  /** Objects never change while they live. */
  predicate Keeps(h: Heap, h': Heap) {
    forall id | id in h'.blocks :: id in h.blocks && h'.blocks[id].payload == h.blocks[id].payload
  }

  /** Every block and every slot is still there, with what it had. */
  predicate Extends(h: Heap, h': Heap) {
    && (forall id | id in h.blocks :: id in h'.blocks && h'.blocks[id].payload == h.blocks[id].payload)
    && (forall sl | sl in h.slots :: sl in h'.slots && h'.slots[sl] == h.slots[sl])
  }

  // ---------------------------------------------------------------- each operation keeps the heap sound

  lemma OwnedShare(h: Heap, slot: Slot, id: Id)
    requires Owned(h) && slot !in h.slots && id in h.blocks && RightKind(slot, h.blocks[id].payload)
    ensures Owned(Share(h, slot, id))
  {
  }

  lemma OwnedMake(h: Heap, slot: Slot, payload: Payload)
    requires Owned(h) && slot !in h.slots && RightKind(slot, payload)
    ensures Owned(Make(h, slot, payload))
  {
  }

  lemma OwnedUnref(h: Heap, slot: Slot)
    requires Owned(h) && slot in h.slots
    ensures Owned(Unref(h, slot)) && Keeps(h, Unref(h, slot))
  {
    OneOwner(h, slot);
    UnrefSlots(h, slot);
    UnrefBlocks(h, slot);
    hide Unref, SlotsHeld, BlocksOwned;
  }

  lemma OneOwner(h: Heap, slot: Slot)
    requires Owned(h) && slot in h.slots
    ensures var b := h.blocks[h.slots[slot]];
            (b.strong <= 1 ==> b.owners == {slot}) && |b.owners - {slot}| == b.strong - 1
  {
    var b := h.blocks[h.slots[slot]];
    assert |b.owners - {slot}| == b.strong - 1;
  }

  lemma UnrefSlots(h: Heap, slot: Slot)
    requires SlotsHeld(h) && slot in h.slots
    requires forall sl | sl in h.slots && h.slots[sl] == h.slots[slot] && h.blocks[h.slots[slot]].strong <= 1 :: sl == slot
    ensures SlotsHeld(Unref(h, slot)) && Keeps(h, Unref(h, slot))
  {
  }

  lemma UnrefBlocks(h: Heap, slot: Slot)
    requires BlocksOwned(h) && slot in h.slots && Held(h, slot)
    requires |h.blocks[h.slots[slot]].owners - {slot}| == h.blocks[h.slots[slot]].strong - 1
    ensures BlocksOwned(Unref(h, slot))
  {
  }

  lemma OsSame(h: Heap, h': Heap)
    requires OsSound(h) && h'.os == h.os && h'.external == h.external && h'.images == h.images
    requires forall id | id in h.blocks && h.blocks[id].payload.Library? ::
               id in h'.blocks && h'.blocks[id].payload == h.blocks[id].payload
    requires forall id | id in h'.blocks && h'.blocks[id].payload.Library? ::
               id in h.blocks && h'.blocks[id].payload == h.blocks[id].payload
    ensures OsSound(h')
  {
  }

  lemma BalancedClose(h: Heap, h1: Heap, id: Id, k: Handle)
    requires Balanced(h) && k in h.os && id in h.os[k].users
    requires forall j | j in h.os && id in h.os[j].users :: j == k
    requires h1.os == h.os && h1.external == h.external && h1.images == h.images && h1.blocks == h.blocks - {id}
    ensures Balanced(CloseLib(h1, id, k))
  {
    assert |h.os[k].users - {id}| == |h.os[k].users| - 1;
  }

  lemma MappedClose(h: Heap, h1: Heap, id: Id, k: Handle)
    requires Balanced(h) && LibrariesMapped(h) && k in h.os && id in h.os[k].users
    requires h1.os == h.os && h1.blocks == h.blocks - {id}
    ensures LibrariesMapped(CloseLib(h1, id, k))
  {
    var users := h.os[k].users - {id};
    assert |users| == |h.os[k].users| - 1;
    assert h.os[k].count <= 1 ==> users == {};
    hide Balanced;
    forall j | j in h1.blocks && h1.blocks[j].payload.Library?
      ensures h1.blocks[j].payload.code.Dynamic? && (h1.blocks[j].payload.code.handle == k ==> j in users)
    {
    }
  }

  lemma OsClose(h: Heap, h1: Heap, id: Id)
    requires OsSound(h) && id in h.blocks && h.blocks[id].payload.Library?
    requires h1.os == h.os && h1.external == h.external && h1.images == h.images && h1.blocks == h.blocks - {id}
    requires h.blocks[id].payload.code.Dynamic?
    ensures OsSound(CloseLib(h1, id, h.blocks[id].payload.code.handle))
  {
    var k := h.blocks[id].payload.code.handle;
    UserOfOne(h, id);
    BalancedClose(h, h1, id, k);
    MappedClose(h, h1, id, k);
    hide Balanced, LibrariesMapped;
    assert MappedOnce(CloseLib(h1, id, k));
  }

  lemma UserOfOne(h: Heap, id: Id)
    requires Balanced(h) && LibrariesMapped(h) && id in h.blocks && h.blocks[id].payload.Library?
    ensures h.blocks[id].payload.code.Dynamic?
    ensures h.blocks[id].payload.code.handle in h.os && id in h.os[h.blocks[id].payload.code.handle].users
    ensures forall j | j in h.os && id in h.os[j].users :: j == h.blocks[id].payload.code.handle
  {
  }

  lemma SoundShare(h: Heap, slot: Slot, id: Id)
    requires Sound(h) && slot !in h.slots && id in h.blocks && RightKind(slot, h.blocks[id].payload)
    ensures Sound(Share(h, slot, id)) && Keeps(h, Share(h, slot, id)) && Extends(h, Share(h, slot, id))
  {
    hide Balanced, LibrariesMapped, MappedOnce, SlotsHeld, BlocksOwned;
    OwnedShare(h, slot, id);
    OsSame(h, Share(h, slot, id));
  }

  lemma SoundMake(h: Heap, slot: Slot, payload: Payload)
    requires Sound(h) && slot !in h.slots && RightKind(slot, payload) && !payload.Library?
    ensures Sound(Make(h, slot, payload)) && Extends(h, Make(h, slot, payload)) && h.next !in h.blocks
  {
    hide SlotsHeld, BlocksOwned, Balanced, LibrariesMapped, MappedOnce;
    OwnedMake(h, slot, payload);
    NextIsNew(h);
    OsSame(h, Make(h, slot, payload));
  }

  lemma NextIsNew(h: Heap)
    requires Owned(h)
    ensures h.next !in h.blocks
  {
  }

  lemma SoundUnref(h: Heap, slot: Slot)
    requires Sound(h) && slot in h.slots && (PayloadAt(h, slot).Library? ==> !Last(h, slot))
    ensures Sound(Unref(h, slot)) && Keeps(h, Unref(h, slot))
  {
    hide Balanced, LibrariesMapped, MappedOnce, BlocksOwned;
    OwnedUnref(h, slot);
    OsSame(h, Unref(h, slot));
  }

  lemma SoundDropLib(h: Heap, slot: Slot)
    requires Sound(h) && (slot in h.slots ==> PayloadAt(h, slot).Library?)
    ensures Sound(DropLib(h, slot)) && Keeps(h, DropLib(h, slot))
    ensures DropLib(h, slot).slots == h.slots - {slot}
    ensures DropLib(h, slot).fault == h.fault
  {
    if slot in h.slots {
      if Last(h, slot) {
        OwnedUnref(h, slot);
        OsClose(h, Unref(h, slot), h.slots[slot]);
      } else {
        SoundUnref(h, slot);
      }
    }
  }

  // ---------------------------------------------------------------- what stays

  /** What any number of operations leaves of the past: ids and images are never reused, so an
      object or a mapping that is older than the operations is what it was. */
  ghost predicate Evolves(h: Heap, h': Heap) {
    && h.next <= h'.next && h.images <= h'.images
    && (forall id | id in h'.blocks && id < h.next :: id in h.blocks && h'.blocks[id].payload == h.blocks[id].payload)
    && (forall k | k in h'.os && h'.os[k].image < h.images ::
          k in h.os && h'.os[k].image == h.os[k].image && h'.os[k].lib == h.os[k].lib)
  }

  /** No control block for a library was made. */
  ghost predicate NoNewLibs(h: Heap, h': Heap) {
    forall id | id in h'.blocks && h'.blocks[id].payload.Library? :: id < h.next
  }

  lemma NoNewLibsTransitive(h0: Heap, h1: Heap, h2: Heap)
    requires NoNewLibs(h0, h1) && NoNewLibs(h1, h2) && Evolves(h1, h2)
    ensures NoNewLibs(h0, h2)
  {
  }

  lemma EvolvesTransitive(h0: Heap, h1: Heap, h2: Heap)
    requires Evolves(h0, h1) && Evolves(h1, h2)
    ensures Evolves(h0, h2)
  {
  }

  lemma EvolvesDropLib(h: Heap, slot: Slot)
    ensures Evolves(h, DropLib(h, slot))
  {
  }

  lemma EvolvesDropInfo(h: Heap, slot: Slot)
    ensures Evolves(h, DropInfo(h, slot))
  {
  }

  lemma EvolvesDropInstance(h: Heap, slot: Slot)
    ensures Evolves(h, DropInstance(h, slot))
  {
    hide DropLib;
    if Last(h, slot) {
      var h1 := Touch(Unref(h, slot), PayloadAt(h, slot).code);
      assert Evolves(h, h1);
      EvolvesDropLib(h1, InstanceLib(h.slots[slot]));
      EvolvesTransitive(h, h1, DropInstance(h, slot));
    }
  }

  lemma EvolvesGrow(h: Heap, slot: Slot, id: Id, payload: Payload, c: Code)
    ensures Evolves(h, Share(h, slot, id)) && Evolves(h, Make(h, slot, payload)) && Evolves(h, Touch(h, c))
  {
  }

  // ---------------------------------------------------------------- plugin instances

  predicate AnchoredAt(h: Heap, id: Id) {
    Held(h, InstanceLib(id)) && id in h.blocks
  }

  /** Every instance from a shared library owns a reference to a library, and the references of
      destroyed instances are gone. */
  ghost predicate InstancesAnchored(h: Heap) {
    && (forall id | id in h.blocks && h.blocks[id].payload.InstancePayload? && h.blocks[id].payload.code.Dynamic? ::
          AnchoredAt(h, id))
    && (forall id | InstanceLib(id) in h.slots :: id in h.blocks && h.blocks[id].payload.InstancePayload?)
  }

  predicate TiedAt(h: Heap, id: Id) {
    id in h.blocks && Held(h, InstanceLib(id)) ==> PayloadAt(h, InstanceLib(id)).code == h.blocks[id].payload.code
  }

  /** The library that an instance owns a reference to is its own.  Reference counts do not need
      this; what may run does. */
  ghost predicate Tied(h: Heap) {
    forall id: Id :: TiedAt(h, id)
  }

  ghost predicate WellFormed(h: Heap) {
    Sound(h) && InstancesAnchored(h)
  }

  /** The slots that become empty when `slot`, which holds an instance, is reset. */
  function Emptied(h: Heap, slot: Slot): set<Slot> {
    if Last(h, slot) then {slot, InstanceLib(h.slots[slot])} else {slot}
  }

  lemma AnchoredRest(h: Heap, h': Heap)
    requires InstancesAnchored(h) && SlotsHeld(h') && Keeps(h, h')
    requires forall sl | sl in h'.slots :: sl in h.slots && h'.slots[sl] == h.slots[sl]
    requires forall id | InstanceLib(id) in h.slots :: InstanceLib(id) in h'.slots <==> id in h'.blocks
    ensures InstancesAnchored(h')
  {
    forall id | id in h'.blocks && h'.blocks[id].payload.InstancePayload? && h'.blocks[id].payload.code.Dynamic?
      ensures AnchoredAt(h', id)
    {
      assert AnchoredAt(h, id);
    }
  }

  lemma TouchFacts(h: Heap, c: Code)
    requires Sound(h)
    ensures Sound(Touch(h, c)) && (InstancesAnchored(h) ==> InstancesAnchored(Touch(h, c)))
  {
  }

  lemma SlotsOfBlocks(h: Heap, id: Id)
    requires Owned(h) && id in h.blocks
    ensures exists sl :: sl in h.slots && h.slots[sl] == id
  {
    var sl :| sl in h.blocks[id].owners;
  }

  lemma DropInstanceFacts(h: Heap, slot: Slot)
    requires WellFormed(h) && (slot in h.slots ==> PayloadAt(h, slot).InstancePayload?)
    ensures WellFormed(DropInstance(h, slot)) && Keeps(h, DropInstance(h, slot))
    ensures Evolves(h, DropInstance(h, slot))
    ensures DropInstance(h, slot).slots == h.slots - Emptied(h, slot)
    ensures DropInstance(h, slot).fault == (h.fault || (Last(h, slot) && !Loaded(h, PayloadAt(h, slot).code)))
  {
    hide Balanced, LibrariesMapped, MappedOnce, BlocksOwned;
    if slot in h.slots {
      SoundUnref(h, slot);
      if Last(h, slot) {
        DropLastInstance(h, slot);
      } else {
        AnchoredRest(h, Unref(h, slot));
      }
    }
    EvolvesDropInstance(h, slot);
  }

  lemma LibraryLoaded(h: Heap, slot: Slot)
    requires Sound(h) && Held(h, slot) && PayloadAt(h, slot).Library?
    ensures Loaded(h, PayloadAt(h, slot).code)
  {
  }

  lemma DropLastInstance(h: Heap, slot: Slot)
    requires WellFormed(h) && Last(h, slot) && PayloadAt(h, slot).InstancePayload?
    requires Sound(Unref(h, slot)) && Keeps(h, Unref(h, slot))
    ensures WellFormed(DropInstance(h, slot)) && Keeps(h, DropInstance(h, slot))
    ensures DropInstance(h, slot).slots == h.slots - Emptied(h, slot)
    ensures DropInstance(h, slot).fault == (h.fault || !Loaded(h, PayloadAt(h, slot).code))
  {
    hide Balanced, LibrariesMapped, MappedOnce, BlocksOwned;
    var id := h.slots[slot];
    var h1 := Unref(h, slot);
    var code := PayloadAt(h, slot).code;
    var h2 := Touch(h1, code);
    TouchFacts(h1, code);
    SoundDropLib(h2, InstanceLib(id));
    var h3 := DropLib(h2, InstanceLib(id));
    assert h3.slots == h.slots - Emptied(h, slot);
    assert id !in h3.blocks;
    forall j | InstanceLib(j) in h.slots
      ensures InstanceLib(j) in h3.slots <==> j in h3.blocks
    {
      if j != id {
        SlotsOfBlocks(h, j);
        var sl :| sl in h.slots && h.slots[sl] == j;
        assert sl in h3.slots;
      }
    }
    AnchoredRest(h, h3);
  }

  lemma DropInfoFacts(h: Heap, slot: Slot)
    requires WellFormed(h) && (slot in h.slots ==> PayloadAt(h, slot).InfoPayload?)
    ensures WellFormed(DropInfo(h, slot)) && Keeps(h, DropInfo(h, slot))
    ensures Evolves(h, DropInfo(h, slot))
    ensures DropInfo(h, slot).slots == h.slots - {slot}
    ensures DropInfo(h, slot).fault == (h.fault || (Last(h, slot) && !Loaded(h, PayloadAt(h, slot).code)))
  {
    hide Balanced, LibrariesMapped, MappedOnce, BlocksOwned;
    if slot in h.slots {
      SoundUnref(h, slot);
      AnchoredRest(h, Unref(h, slot));
      TouchFacts(Unref(h, slot), PayloadAt(h, slot).code);
    }
    EvolvesDropInfo(h, slot);
  }

  lemma DropLibFacts(h: Heap, slot: Slot)
    requires WellFormed(h) && !slot.InstanceLib? && (slot in h.slots ==> PayloadAt(h, slot).Library?)
    ensures WellFormed(DropLib(h, slot)) && Keeps(h, DropLib(h, slot))
    ensures Evolves(h, DropLib(h, slot))
    ensures DropLib(h, slot).slots == h.slots - {slot}
    ensures DropLib(h, slot).fault == h.fault
  {
    hide Balanced, LibrariesMapped, MappedOnce, BlocksOwned;
    SoundDropLib(h, slot);
    AnchoredRest(h, DropLib(h, slot));
    EvolvesDropLib(h, slot);
  }

  lemma ShareFacts(h: Heap, slot: Slot, id: Id)
    requires WellFormed(h) && slot !in h.slots && id in h.blocks && RightKind(slot, h.blocks[id].payload)
    requires !slot.InstanceLib?
    ensures WellFormed(Share(h, slot, id)) && Keeps(h, Share(h, slot, id))
    ensures Evolves(h, Share(h, slot, id))
    ensures Share(h, slot, id).slots == h.slots[slot := id]
  {
    hide Balanced, LibrariesMapped, MappedOnce, BlocksOwned;
    SoundShare(h, slot, id);
    var h' := Share(h, slot, id);
    forall j | j in h'.blocks && h'.blocks[j].payload.InstancePayload? && h'.blocks[j].payload.code.Dynamic?
      ensures AnchoredAt(h', j)
    {
      assert AnchoredAt(h, j);
    }
  }

  lemma InstanceLoaded(h: Heap, id: Id)
    requires WellFormed(h) && Tied(h) && id in h.blocks && h.blocks[id].payload.InstancePayload?
    ensures Loaded(h, h.blocks[id].payload.code)
  {
    hide Balanced, MappedOnce, BlocksOwned;
    if h.blocks[id].payload.code.Dynamic? {
      assert AnchoredAt(h, id) && TiedAt(h, id);
    }
  }

  /** Resetting `slot` destroys an instance that holds the last reference to its library, and
      nobody else has the library open. */
  predicate Unmaps(h: Heap, slot: Slot) {
    && Last(h, slot)
    && PayloadAt(h, slot).code.Dynamic?
    && Last(h, InstanceLib(h.slots[slot]))
    && PayloadAt(h, slot).code.handle in h.os
    && h.os[PayloadAt(h, slot).code.handle].count == 1
  }

  /** Destroying an instance unmaps its own library at most, and exactly when `Unmaps` says so. */
  lemma DropInstanceLoaded(h: Heap, slot: Slot, c: Code)
    requires WellFormed(h) && Tied(h) && slot in h.slots && PayloadAt(h, slot).InstancePayload? && Loaded(h, c)
    ensures Loaded(DropInstance(h, slot), c) <==> !(Unmaps(h, slot) && c == PayloadAt(h, slot).code)
  {
    hide MappedOnce, BlocksOwned, Balanced, LibrariesMapped, DropLib;
    var id := h.slots[slot];
    var code := PayloadAt(h, slot).code;
    if Last(h, slot) {
      var h1 := Touch(Unref(h, slot), code);
      assert TiedAt(h, id) && Loaded(h1, c) by { SameOs(h, h1, c); }
      LibraryOf(h, id);
      assert Last(h1, InstanceLib(id)) == Last(h, InstanceLib(id));
      DropLibLoaded(h1, InstanceLib(id), c);
    } else {
      SameOs(h, Unref(h, slot), c);
    }
  }

  lemma SameOs(h: Heap, h': Heap, c: Code)
    requires h'.os == h.os
    ensures Loaded(h', c) == Loaded(h, c)
  {
  }

  lemma LibraryOf(h: Heap, id: Id)
    requires WellFormed(h) && Tied(h) && id in h.blocks && h.blocks[id].payload.InstancePayload?
    ensures Held(h, InstanceLib(id)) <==> h.blocks[id].payload.code.Dynamic?
    ensures var code := h.blocks[id].payload.code;
            code.Dynamic? ==> code.handle in h.os && h.os[code.handle].image == code.image && h.os[code.handle].count > 0
    ensures Held(h, InstanceLib(id)) ==> PayloadAt(h, InstanceLib(id)).Library? && PayloadAt(h, InstanceLib(id)).code == h.blocks[id].payload.code
  {
    hide MappedOnce, BlocksOwned;
    assert TiedAt(h, id) && (h.blocks[id].payload.code.Dynamic? ==> AnchoredAt(h, id));
  }

  /** Giving up a library reference unmaps what is at its handle when it was the last that counts. */
  lemma DropLibLoaded(h: Heap, slot: Slot, c: Code)
    requires Loaded(h, c)
    ensures Loaded(DropLib(h, slot), c) <==>
            !(Last(h, slot) && var code := PayloadAt(h, slot).code;
              code.Dynamic? && code.handle in h.os && h.os[code.handle].count <= 1 && c.Dynamic? && c.handle == code.handle)
  {
  }

  /** ... and no reference count of an Info. */
  lemma DropInstanceOthers(h: Heap, slot: Slot, other: Slot)
    requires WellFormed(h) && (slot in h.slots ==> PayloadAt(h, slot).InstancePayload?)
    requires Held(h, other) && PayloadAt(h, other).InfoPayload?
    ensures Held(DropInstance(h, slot), other) && PayloadAt(DropInstance(h, slot), other) == PayloadAt(h, other)
    ensures Last(DropInstance(h, slot), other) == Last(h, other)
  {
    hide Balanced, LibrariesMapped, MappedOnce, BlocksOwned, InstancesAnchored, Unref, DropLib;
    if slot in h.slots {
      var id := h.slots[slot];
      UnrefOther(h, slot, other);
      if Last(h, slot) {
        var h2 := Touch(Unref(h, slot), PayloadAt(h, slot).code);
        assert InstanceLib(id) in h2.slots ==> InstanceLib(id) in h.slots && h2.slots[InstanceLib(id)] == h.slots[InstanceLib(id)] by {
          UnrefSlot(h, slot, InstanceLib(id));
        }
        DropLibOther(h2, InstanceLib(id), other);
      }
    }
  }

  lemma UnrefSlot(h: Heap, slot: Slot, other: Slot)
    requires Held(h, slot)
    ensures other in Unref(h, slot).slots ==> other in h.slots && Unref(h, slot).slots[other] == h.slots[other]
  {
  }

  lemma UnrefOther(h: Heap, slot: Slot, other: Slot)
    requires Held(h, slot) && Held(h, other) && h.slots[slot] != h.slots[other]
    ensures Held(Unref(h, slot), other) && PayloadAt(Unref(h, slot), other) == PayloadAt(h, other)
    ensures Unref(h, slot).slots[other] == h.slots[other] && Last(Unref(h, slot), other) == Last(h, other)
  {
  }

  lemma DropLibOther(h: Heap, slot: Slot, other: Slot)
    requires Held(h, other) && (slot in h.slots ==> h.slots[slot] != h.slots[other])
    ensures Held(DropLib(h, slot), other) && PayloadAt(DropLib(h, slot), other) == PayloadAt(h, other)
    ensures Last(DropLib(h, slot), other) == Last(h, other)
  {
    if Held(h, slot) {
      UnrefOther(h, slot, other);
      hide Unref;
    }
  }

  lemma AnchoredMore(h: Heap, h': Heap)
    requires InstancesAnchored(h) && SlotsHeld(h') && Extends(h, h')
    requires forall id | id in h'.blocks && id !in h.blocks && h'.blocks[id].payload.InstancePayload? && h'.blocks[id].payload.code.Dynamic? ::
               AnchoredAt(h', id)
    requires forall id | InstanceLib(id) in h'.slots && InstanceLib(id) !in h.slots ::
               id in h'.blocks && h'.blocks[id].payload.InstancePayload?
    ensures InstancesAnchored(h')
  {
    forall id | id in h'.blocks && h'.blocks[id].payload.InstancePayload? && h'.blocks[id].payload.code.Dynamic?
      ensures AnchoredAt(h', id)
    {
      if id in h.blocks {
        assert AnchoredAt(h, id);
      }
    }
  }

  function MakeInstance(h: Heap, slot: Slot, code: Code, info: Info, lib: Id): Heap {
    Share(Make(h, slot, InstancePayload(code, info)), InstanceLib(h.next), lib)
  }

  lemma SoundMakeInstance(h: Heap, slot: Slot, code: Code, info: Info, lib: Id)
    requires WellFormed(h) && slot !in h.slots && RightKind(slot, InstancePayload(code, info))
    requires lib in h.blocks && h.blocks[lib].payload.Library?
    ensures var h' := MakeInstance(h, slot, code, info, lib);
            && Sound(h') && h'.fault == h.fault && Extends(h, h') && h.next !in h.blocks
            && h'.slots == h.slots[slot := h.next][InstanceLib(h.next) := lib]
            && h'.blocks.Keys == h.blocks.Keys + {h.next}
            && h'.blocks[h.next].payload == InstancePayload(code, info)
  {
    hide Balanced, MappedOnce, LibrariesMapped, BlocksOwned, SlotsHeld, AnchoredAt;
    var h1 := Make(h, slot, InstancePayload(code, info));
    SoundMake(h, slot, InstancePayload(code, info));
    assert InstanceLib(h.next) !in h1.slots;
    SoundShare(h1, InstanceLib(h.next), lib);
  }

  /** Makes a plugin instance that owns a reference to a library. */
  lemma MakeInstanceFacts(h: Heap, slot: Slot, code: Code, info: Info, lib: Id)
    requires WellFormed(h) && slot !in h.slots && RightKind(slot, InstancePayload(code, info))
    requires lib in h.blocks && h.blocks[lib].payload.Library?
    ensures var h' := MakeInstance(h, slot, code, info, lib);
            && WellFormed(h') && h'.fault == h.fault && Extends(h, h') && h.next !in h.blocks
            && h'.slots == h.slots[slot := h.next][InstanceLib(h.next) := lib]
            && h.next in h'.blocks && h'.blocks[h.next].payload == InstancePayload(code, info)
  {
    hide Balanced, MappedOnce, LibrariesMapped, BlocksOwned, Make, Share;
    SoundMakeInstance(h, slot, code, info, lib);
    var h2 := MakeInstance(h, slot, code, info, lib);
    hide MakeInstance;
    AnchoredMore(h, h2);
  }

  lemma MakeOtherFacts(h: Heap, slot: Slot, payload: Payload)
    requires WellFormed(h) && slot !in h.slots && RightKind(slot, payload) && !slot.InstanceLib? && !payload.Library?
    requires payload.InstancePayload? ==> payload.code == Resident
    ensures WellFormed(Make(h, slot, payload)) && Extends(h, Make(h, slot, payload)) && h.next !in h.blocks
  {
    hide Balanced, LibrariesMapped, MappedOnce;
    assert h.next !in h.blocks;
    SoundMake(h, slot, payload);
    hide BlocksOwned;
    AnchoredMore(h, Make(h, slot, payload));
  }

  // ---------------------------------------------------------------- opening a library

  function NextImage(h: Heap, handle: Handle): nat {
    if handle in h.os then h.os[handle].image else h.images
  }

  /** The mapping after `dlopen` on behalf of a new control block. */
  function OpenMapping(h: Heap, lib: string, handle: Handle): Mapping {
    if handle in h.os then
      Mapping(h.os[handle].lib, h.os[handle].image, h.os[handle].count + 1, h.os[handle].users + {h.next})
    else Mapping(lib, h.images, 1, {h.next})
  }

  /** `dlopen`, and a new control block for the handle. */
  function OpenNew(h: Heap, slot: Slot, lib: string, handle: Handle, creator: nat): Heap {
    var h1 := h.(os := h.os[handle := OpenMapping(h, lib, handle)],
                 images := if handle in h.os then h.images else h.images + 1);
    Make(h1, slot, Library(Dynamic(handle, NextImage(h, handle)), creator))
  }

  lemma OpenNewIs(h: Heap, slot: Slot, lib: string, handle: Handle, creator: nat)
    ensures OpenNew(h, slot, lib, handle, creator) == MakeLib(Dlopen(h, lib, handle), slot, handle, creator)
  {
    assert {} + {h.next} == {h.next};
    assert OpenNew(h, slot, lib, handle, creator).os == MakeLib(Dlopen(h, lib, handle), slot, handle, creator).os;
  }

  lemma BalancedOpen(h: Heap, slot: Slot, lib: string, handle: Handle, creator: nat)
    requires Balanced(h) && h.next !in h.blocks
    ensures Balanced(OpenNew(h, slot, lib, handle, creator))
  {
    var h' := OpenNew(h, slot, lib, handle, creator);
    if handle in h.os {
      assert h.next !in h.os[handle].users;
    } else {
      assert External(h, handle) == 0;
    }
    assert forall k | k in h'.os && k != handle :: h'.os[k] == h.os[k] && External(h', k) == External(h, k);
  }

  lemma MappedOpen(h: Heap, slot: Slot, lib: string, handle: Handle, creator: nat)
    requires MappedOnce(h) && LibrariesMapped(h) && h.next !in h.blocks && MayOpen(h, lib, handle)
    ensures MappedOnce(OpenNew(h, slot, lib, handle, creator)) && LibrariesMapped(OpenNew(h, slot, lib, handle, creator))
  {
  }

  lemma SoundOpen(h: Heap, slot: Slot, lib: string, handle: Handle, creator: nat)
    requires Sound(h) && MayOpen(h, lib, handle) && slot !in h.slots && slot.LocalLib?
    ensures Sound(OpenNew(h, slot, lib, handle, creator)) && h.next !in h.blocks
  {
    var payload := Library(Dynamic(handle, NextImage(h, handle)), creator);
    assert h.next !in h.blocks;
    hide BlocksOwned;
    BalancedOpen(h, slot, lib, handle, creator);
    MappedOpen(h, slot, lib, handle, creator);
    hide Balanced, LibrariesMapped, MappedOnce;
    OwnedMake(h, slot, payload);
    OwnedOs(Make(h, slot, payload), OpenNew(h, slot, lib, handle, creator));
  }

  lemma OpenNewFacts(h: Heap, slot: Slot, lib: string, handle: Handle, creator: nat)
    requires WellFormed(h) && MayOpen(h, lib, handle) && slot !in h.slots && slot.LocalLib?
    ensures var h' := OpenNew(h, slot, lib, handle, creator);
            && WellFormed(h') && Extends(h, h') && Evolves(h, h') && h'.fault == h.fault
            && h'.slots == h.slots[slot := h.next] && h.next !in h.blocks
            && h'.blocks.Keys == h.blocks.Keys + {h.next}
            && h'.blocks[h.next].payload == Library(Dynamic(handle, NextImage(h, handle)), creator)
            && handle in h'.os && h'.os[handle].lib == lib && h'.os[handle].image == NextImage(h, handle)
  {
    hide Balanced, LibrariesMapped, MappedOnce, BlocksOwned;
    SoundOpen(h, slot, lib, handle, creator);
    AnchoredMore(h, OpenNew(h, slot, lib, handle, creator));
  }

  lemma OwnedOs(h: Heap, h': Heap)
    requires Owned(h) && h'.blocks == h.blocks && h'.slots == h.slots && h'.next == h.next
    ensures Owned(h')
  {
  }

  /** `dlopen` directly followed by `dlclose` changes nothing on a handle that is open. */
  lemma OpenClose(h: Heap, lib: string, handle: Handle)
    requires handle in h.os && h.os[handle].count > 0
    ensures Dlclose(Dlopen(h, lib, handle), handle) == h
  {
    var h1 := Dlopen(h, lib, handle);
    assert Dlclose(h1, handle).os == h.os;
  }

  // ---------------------------------------------------------------- the rest of the application

  /** `dlopen` and `dlclose` by the application itself, outside of the plugin library. */
  function ExternallyOpened(h: Heap, lib: string, handle: Handle): Heap {
    Dlopen(h, lib, handle).(external := h.external[handle := External(h, handle) + 1])
  }

  function ExternallyClosed(h: Heap, handle: Handle): Heap {
    if External(h, handle) == 0 then h
    else Dlclose(h, handle).(external := h.external[handle := External(h, handle) - 1])
  }

  lemma BalancedOpened(h: Heap, lib: string, handle: Handle)
    requires Balanced(h)
    ensures Balanced(ExternallyOpened(h, lib, handle))
  {
    CountAt(h, handle);
    var h' := ExternallyOpened(h, lib, handle);
    forall k | k in h'.os && k != handle
      ensures h'.os[k] == h.os[k] && External(h', k) == External(h, k)
    {
    }
  }

  lemma BalancedClosed(h: Heap, handle: Handle)
    requires Balanced(h)
    ensures Balanced(ExternallyClosed(h, handle))
  {
    hide Balanced, ExternallyClosed;
    ClosedElsewhere(h, handle);
    ClosedHere(h, handle);
    BalancedBut(h, ExternallyClosed(h, handle), handle);
  }

  /** Balanced at one handle, and everything else as it was. */
  lemma BalancedBut(h: Heap, h': Heap, handle: Handle)
    requires Balanced(h) && h'.blocks == h.blocks && h'.images == h.images && h'.os.Keys - {handle} == h.os.Keys - {handle}
    requires forall k | k in h'.os && k != handle :: k in h.os && h'.os[k] == h.os[k]
    requires forall k | k != handle :: External(h', k) == External(h, k)
    requires handle in h'.os ==>
               && handle in h.os && h'.os[handle].count == External(h', handle) + |h'.os[handle].users| > 0
               && h'.os[handle].image == h.os[handle].image && h'.os[handle].users == h.os[handle].users
    requires External(h', handle) > 0 ==> handle in h'.os
    ensures Balanced(h')
  {
    forall k | k in h'.external && h'.external[k] > 0
      ensures k in h'.os
    {
      if k != handle {
        assert External(h', k) == External(h, k) && (k in h'.os.Keys - {handle} <==> k in h.os.Keys - {handle});
      }
    }
  }

  lemma ClosedElsewhere(h: Heap, handle: Handle)
    ensures var h' := ExternallyClosed(h, handle);
            && h'.blocks == h.blocks && h'.images == h.images && h'.os.Keys - {handle} == h.os.Keys - {handle}
            && (forall k | k in h'.os && k != handle :: k in h.os && h'.os[k] == h.os[k])
            && (forall k | k != handle :: External(h', k) == External(h, k))
  {
  }

  lemma ClosedHere(h: Heap, handle: Handle)
    requires Balanced(h)
    ensures var h' := ExternallyClosed(h, handle);
            && (handle in h'.os ==>
                  && handle in h.os && h'.os[handle].count == External(h', handle) + |h'.os[handle].users| > 0
                  && h'.os[handle].image == h.os[handle].image && h'.os[handle].lib == h.os[handle].lib
                  && h'.os[handle].users == h.os[handle].users)
            && (handle in h.os && h.os[handle].users != {} ==> handle in h'.os)
            && (External(h', handle) > 0 ==> handle in h'.os)
  {
    CountAt(h, handle);
  }

  lemma LibrariesStay(h: Heap, h': Heap)
    requires LibrariesMapped(h) && h'.blocks == h.blocks
    requires forall k | k in h.os :: k in h'.os && h'.os[k].image == h.os[k].image && h'.os[k].users == h.os[k].users
    ensures LibrariesMapped(h')
  {
  }

  lemma OnceOpened(h: Heap, lib: string, handle: Handle)
    requires MappedOnce(h) && MayOpen(h, lib, handle)
    ensures MappedOnce(ExternallyOpened(h, lib, handle))
  {
    var os := ExternallyOpened(h, lib, handle).os;
    forall j, k | j in os && k in os && os[j].lib == os[k].lib
      ensures j == k
    {
    }
  }

  lemma OsOpened(h: Heap, lib: string, handle: Handle)
    requires OsSound(h) && MayOpen(h, lib, handle)
    ensures OsSound(ExternallyOpened(h, lib, handle))
  {
    hide Balanced, MappedOnce, LibrariesMapped;
    BalancedOpened(h, lib, handle);
    OnceOpened(h, lib, handle);
    hide MayOpen;
    LibrariesStay(h, ExternallyOpened(h, lib, handle));
  }

  lemma LibrariesClosed(h: Heap, h': Heap, handle: Handle)
    requires LibrariesMapped(h) && h'.blocks == h.blocks
    requires forall k | k in h.os && k != handle :: k in h'.os && h'.os[k] == h.os[k]
    requires handle in h.os && h.os[handle].users != {} ==>
               handle in h'.os && h'.os[handle].image == h.os[handle].image && h'.os[handle].users == h.os[handle].users
    ensures LibrariesMapped(h')
  {
  }

  lemma OnceClosed(h: Heap, h': Heap)
    requires MappedOnce(h) && (forall k | k in h'.os :: k in h.os && h'.os[k].lib == h.os[k].lib)
    ensures MappedOnce(h')
  {
  }

  lemma OsClosed(h: Heap, handle: Handle)
    requires OsSound(h)
    ensures OsSound(ExternallyClosed(h, handle))
  {
    hide Balanced, MappedOnce, LibrariesMapped;
    BalancedClosed(h, handle);
    ClosedElsewhere(h, handle);
    ClosedHere(h, handle);
    var h' := ExternallyClosed(h, handle);
    hide ExternallyClosed;
    assert forall k | k in h.os && k != handle :: k in h.os.Keys - {handle} && k in h'.os.Keys - {handle};
    OnceClosed(h, h');
    LibrariesClosed(h, h', handle);
  }

  lemma CountAt(h: Heap, k: Handle)
    requires Balanced(h)
    ensures k in h.os <==> External(h, k) > 0 || (k in h.os && h.os[k].users != {})
    ensures k in h.os ==> h.os[k].count == External(h, k) + |h.os[k].users|
  {
  }

  lemma AnchoredOs(h: Heap, h': Heap)
    requires WellFormed(h) && OsSound(h') && h'.blocks == h.blocks && h'.slots == h.slots && h'.next == h.next
    ensures WellFormed(h')
  {
    hide OsSound;
    assert forall id :: AnchoredAt(h, id) ==> AnchoredAt(h', id);
  }

  // ---------------------------------------------------------------- reasoning about slots

  predicate SameAt(h: Heap, h': Heap, sl: Slot) {
    if sl in h.slots then sl in h'.slots && h'.slots[sl] == h.slots[sl] else sl !in h'.slots
  }

  lemma OldBlocks(h: Heap)
    requires WellFormed(h)
    ensures forall id | id in h.blocks :: id < h.next
  {
  }

  lemma SlotHeld(h: Heap, slot: Slot)
    requires WellFormed(h) && slot in h.slots
    ensures Held(h, slot) && RightKind(slot, PayloadAt(h, slot))
  {
  }

  lemma HeldIsIn(h: Heap, slot: Slot)
    requires WellFormed(h)
    ensures Held(h, slot) <==> slot in h.slots
  {
  }

  lemma PayloadStays(h: Heap, h': Heap, slot: Slot)
    requires WellFormed(h) && WellFormed(h') && Evolves(h, h') && slot in h.slots && slot in h'.slots
    requires h'.slots[slot] == h.slots[slot]
    ensures Held(h, slot) && Held(h', slot) && PayloadAt(h', slot) == PayloadAt(h, slot)
  {
    hide Balanced, MappedOnce, LibrariesMapped, InstancesAnchored;
  }

  lemma SamePayload(h: Heap, h': Heap, id: Id)
    requires WellFormed(h) && Evolves(h, h') && id in h.blocks && id in h'.blocks
    ensures h'.blocks[id].payload == h.blocks[id].payload
  {
    hide SlotsHeld, InstancesAnchored, Balanced, MappedOnce, LibrariesMapped;
  }

  /** The slot is what it was, or it was the library reference of an instance that is gone. */
  predicate StaysAt(h: Heap, h': Heap, sl: Slot) {
    if sl.InstanceLib? then sl in h'.slots ==> SameAt(h, h', sl) else SameAt(h, h', sl)
  }

  /** What an operation did to a sound heap, seen from outside: only the slots in `changed`, and
      the library references of the instances it destroyed, are not what they were. */
  ghost predicate Changes(h: Heap, h': Heap, changed: set<Slot>) {
    forall sl: Slot :: sl in changed || StaysAt(h, h', sl)
  }

  ghost predicate Frame(h: Heap, h': Heap, changed: set<Slot>) {
    WellFormed(h') && Evolves(h, h') && NoNewLibs(h, h') && Changes(h, h', changed)
  }

  lemma Untouched(h: Heap, h': Heap, changed: set<Slot>, sl: Slot)
    requires Frame(h, h', changed) && sl !in changed && !sl.InstanceLib?
    ensures SameAt(h, h', sl)
  {
    hide WellFormed, Evolves, NoNewLibs;
    assert StaysAt(h, h', sl);
  }

  lemma FrameTransitive(h0: Heap, h1: Heap, h2: Heap, c1: set<Slot>, c2: set<Slot>)
    requires Frame(h0, h1, c1) && Frame(h1, h2, c2)
    ensures Frame(h0, h2, c1 + c2)
  {
    hide WellFormed, Evolves, NoNewLibs;
    EvolvesTransitive(h0, h1, h2);
    NoNewLibsTransitive(h0, h1, h2);
    forall sl: Slot
      ensures sl in c1 + c2 || StaysAt(h0, h2, sl)
    {
      assert sl in c1 || StaysAt(h0, h1, sl);
      assert sl in c2 || StaysAt(h1, h2, sl);
    }
  }

  lemma TiedSlots(h: Heap, h': Heap)
    requires WellFormed(h) && WellFormed(h') && Evolves(h, h') && Tied(h)
    requires forall id: Id | InstanceLib(id) in h'.slots :: SameAt(h, h', InstanceLib(id))
    ensures Tied(h')
  {
    hide Balanced, MappedOnce, LibrariesMapped, BlocksOwned;
    forall id: Id
      ensures TiedAt(h', id)
    {
      if InstanceLib(id) in h'.slots {
        assert SameAt(h, h', InstanceLib(id)) && TiedAt(h, id);
        OldBlocks(h);
      }
    }
  }

  /** An operation that makes no instance leaves every instance tied to its own library. */
  lemma TiedFrame(h: Heap, h': Heap, changed: set<Slot>)
    requires WellFormed(h) && Frame(h, h', changed) && Tied(h) && (forall sl | sl in changed :: !sl.InstanceLib?)
    ensures Tied(h')
  {
    hide WellFormed, Evolves, NoNewLibs;
    forall id: Id | InstanceLib(id) in h'.slots
      ensures SameAt(h, h', InstanceLib(id))
    {
      assert StaysAt(h, h', InstanceLib(id));
    }
    TiedSlots(h, h');
  }

  /** An instance that was made with its own library is tied to it. */
  lemma TiedMade(h: Heap, h': Heap, changed: set<Slot>)
    requires WellFormed(h) && Frame(h, h', changed) && Tied(h) && TiedAt(h', h.next)
    requires forall sl | sl in changed :: sl.InstanceLib? ==> sl.instance == h.next
    ensures Tied(h')
  {
    hide Balanced, MappedOnce, LibrariesMapped, BlocksOwned;
    forall id: Id
      ensures TiedAt(h', id)
    {
      if InstanceLib(id) in h'.slots && id != h.next {
        assert StaysAt(h, h', InstanceLib(id)) && TiedAt(h, id);
        OldBlocks(h);
      }
    }
  }

  lemma FrameRefl(h: Heap)
    requires WellFormed(h)
    ensures Frame(h, h, {})
  {
    hide Sound, InstancesAnchored;
    OldBlocks(h);
  }

  lemma DropInstanceFrame(h: Heap, slot: Slot)
    requires WellFormed(h) && (slot in h.slots ==> PayloadAt(h, slot).InstancePayload?)
    ensures Frame(h, DropInstance(h, slot), {slot}) && slot !in DropInstance(h, slot).slots
    ensures DropInstance(h, slot).fault == (h.fault || (Last(h, slot) && !Loaded(h, PayloadAt(h, slot).code)))
  {
    hide Sound, InstancesAnchored;
    DropInstanceFacts(h, slot);
    hide DropInstance;
    OldBlocks(h);
  }

  lemma DropInfoFrame(h: Heap, slot: Slot)
    requires WellFormed(h) && (slot in h.slots ==> PayloadAt(h, slot).InfoPayload?)
    ensures Frame(h, DropInfo(h, slot), {slot}) && slot !in DropInfo(h, slot).slots
    ensures DropInfo(h, slot).fault == (h.fault || (Last(h, slot) && !Loaded(h, PayloadAt(h, slot).code)))
  {
    hide Sound, InstancesAnchored;
    DropInfoFacts(h, slot);
    hide DropInfo;
    OldBlocks(h);
  }

  lemma ShareFrame(h: Heap, slot: Slot, id: Id)
    requires WellFormed(h) && slot !in h.slots && id in h.blocks && RightKind(slot, h.blocks[id].payload)
    requires !slot.InstanceLib?
    ensures Frame(h, Share(h, slot, id), {slot}) && slot in Share(h, slot, id).slots && Share(h, slot, id).slots[slot] == id
    ensures Share(h, slot, id).fault == h.fault
  {
    hide Sound, InstancesAnchored;
    ShareFacts(h, slot, id);
    OldBlocks(h);
  }

  lemma TouchFrame(h: Heap, c: Code)
    requires WellFormed(h)
    ensures Frame(h, Touch(h, c), {}) && Touch(h, c).fault == (h.fault || !Loaded(h, c))
  {
    hide SlotsHeld, BlocksOwned, AnchoredAt;
    TouchFacts(h, c);
    OldBlocks(h);
  }

  lemma BlockLoaded(h: Heap, id: Id)
    requires WellFormed(h) && id in h.blocks && h.blocks[id].payload.Library?
    ensures Loaded(h, h.blocks[id].payload.code)
  {
  }

  lemma MakeInstanceFrame(h: Heap, slot: Slot, code: Code, info: Info, lib: Id)
    requires WellFormed(h) && slot !in h.slots && RightKind(slot, InstancePayload(code, info))
    requires lib in h.blocks && h.blocks[lib].payload.Library?
    ensures var h' := MakeInstance(h, slot, code, info, lib);
            && Frame(h, h', {slot, InstanceLib(h.next)}) && h'.fault == h.fault
            && slot in h'.slots && h'.slots[slot] == h.next && h.next < h'.next && h.next !in h.blocks
            && InstanceLib(h.next) in h'.slots && h'.slots[InstanceLib(h.next)] == lib
            && h'.blocks.Keys == h.blocks.Keys + {h.next} && h'.blocks[h.next].payload == InstancePayload(code, info)
  {
    hide Sound, InstancesAnchored;
    OldBlocks(h);
    MakeInstanceFacts(h, slot, code, info, lib);
  }

  lemma SoundParts(h: Heap)
    requires WellFormed(h)
    ensures OsSound(h) && Balanced(h) && (forall id | id in h.blocks :: id < h.next)
    ensures forall k | k in h.os :: h.os[k].image < h.images && h.os[k].count == External(h, k) + |h.os[k].users|
  {
  }

  predicate OldImages(h: Heap, h': Heap) {
    h.images <= h'.images
    && forall k | k in h'.os && h'.os[k].image < h.images ::
         k in h.os && h'.os[k].image == h.os[k].image && h'.os[k].lib == h.os[k].lib
  }

  lemma OpenedImages(h: Heap, lib: string, handle: Handle)
    ensures OldImages(h, ExternallyOpened(h, lib, handle))
  {
  }

  lemma ClosedImages(h: Heap, handle: Handle)
    ensures OldImages(h, ExternallyClosed(h, handle))
  {
  }

  /** Nothing but the table of mappings has changed. */
  lemma FrameOs(h: Heap, h': Heap)
    requires WellFormed(h) && WellFormed(h') && OldImages(h, h')
    requires h'.blocks == h.blocks && h'.slots == h.slots && h'.next == h.next
    ensures Frame(h, h', {})
  {
    hide WellFormed;
    OldBlocks(h);
  }

  lemma ExternalOpenFrame(h: Heap, lib: string, handle: Handle)
    requires WellFormed(h) && MayOpen(h, lib, handle)
    ensures Frame(h, ExternallyOpened(h, lib, handle), {}) && ExternallyOpened(h, lib, handle).fault == h.fault
  {
    hide WellFormed, OsSound, Balanced;
    SoundParts(h);
    OsOpened(h, lib, handle);
    AnchoredOs(h, ExternallyOpened(h, lib, handle));
    hide OldImages;
    OpenedImages(h, lib, handle);
    FrameOs(h, ExternallyOpened(h, lib, handle));
  }

  lemma ExternalCloseFrame(h: Heap, handle: Handle)
    requires WellFormed(h)
    ensures Frame(h, ExternallyClosed(h, handle), {}) && ExternallyClosed(h, handle).fault == h.fault
  {
    hide WellFormed, OsSound, Balanced;
    SoundParts(h);
    OsClosed(h, handle);
    AnchoredOs(h, ExternallyClosed(h, handle));
    hide OldImages;
    ClosedImages(h, handle);
    FrameOs(h, ExternallyClosed(h, handle));
  }
}
