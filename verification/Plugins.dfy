/** `gz::plugin::Plugin`: the wrapper that users hold, its copies, and weak references to it. */
module Plugins {
  import opened Common
  import opened Runtime

  // ---------------------------------------------------------------- what the operations do to the references

  /** `Implementation::Clear`: the instance goes first, and then the Info. */
  function Cleared(h: Heap, w: nat): Heap {
    DropInfo(DropInstance(h, WrapperInstance(w)), WrapperInfo(w))
  }

  /** Destruction of the members: in the reverse order of their declaration. */
  function Destroyed(h: Heap, w: nat): Heap {
    DropInstance(DropInfo(h, WrapperInfo(w)), WrapperInstance(w))
  }

  function CopySlot(h: Heap, to: Slot, from: Slot): Heap {
    if Held(h, from) then Share(h, to, h.slots[from]) else h
  }

  /** `Implementation::Copy(const Implementation *)`, also when `to` is `from`. */
  function Copied(h: Heap, to: nat, from: nat): Heap {
    var h1 := Cleared(h, to);
    if to == from then h1
    else CopySlot(CopySlot(h1, WrapperInstance(to), WrapperInstance(from)), WrapperInfo(to), WrapperInfo(from))
  }

  /** `Implementation::Create` on a fresh wrapper, for a plugin from a shared library. */
  function Created(h: Heap, w: nat, info: Id, lib: Id): Heap
    requires info in h.blocks && h.blocks[info].payload.InfoPayload?
  {
    var p := h.blocks[info].payload;
    var h1 := Touch(Share(h, WrapperInfo(w), info), p.code);                       // factory()
    Touch(MakeInstance(h1, WrapperInstance(w), p.code, p.info, lib), p.code)       // the casts
  }

  /** The same for a plugin of the static registry, which copies the Info. */
  function CreatedStatic(h: Heap, w: nat, info: Info): Heap {
    Make(Make(h, WrapperInfo(w), InfoPayload(Resident, info)), WrapperInstance(w), InstancePayload(Resident, info))
  }

  /** `Implementation::Copy(info, instance)` on a fresh wrapper with what `weak_ptr::lock` gave. */
  function Locked(h: Heap, w: nat, instance: Option<Id>, info: Option<Id>): Heap {
    var h1 := if instance.Some? && instance.value in h.blocks then Share(h, WrapperInstance(w), instance.value) else h;
    var h2 := if info.Some? && info.value in h1.blocks then Share(h1, WrapperInfo(w), info.value) else h1;
    if Held(h2, WrapperInstance(w)) && Held(h2, WrapperInfo(w)) then Touch(h2, PayloadAt(h2, WrapperInfo(w)).code) else h2
  }

  // ---------------------------------------------------------------- when they are safe

  /** The instance of a wrapper keeps the library of the wrapper's Info loaded. */
  predicate InfoPinned(h: Heap, w: nat) {
    Held(h, WrapperInfo(w)) && PayloadAt(h, WrapperInfo(w)).code.Dynamic? ==>
      Held(h, WrapperInstance(w)) && PayloadAt(h, WrapperInstance(w)).code == PayloadAt(h, WrapperInfo(w)).code
  }

  /** The wrapper has the last reference to its Info, and the instance it resets first takes the
      library away. */
  predicate ClearHazard(h: Heap, w: nat) {
    Last(h, WrapperInfo(w)) && PayloadAt(h, WrapperInfo(w)).code.Dynamic? && Unmaps(h, WrapperInstance(w))
  }

  lemma ClearedFrame(h: Heap, w: nat)
    requires WellFormed(h)
    ensures Frame(h, Cleared(h, w), {WrapperInstance(w), WrapperInfo(w)})
    ensures WrapperInstance(w) !in Cleared(h, w).slots && WrapperInfo(w) !in Cleared(h, w).slots
  {
    hide WellFormed, Evolves, NoNewLibs;
    KindAt(h, WrapperInstance(w));
    KindAt(h, WrapperInfo(w));
    DropInstanceFrame(h, WrapperInstance(w));
    var h1 := DropInstance(h, WrapperInstance(w));
    KindAt(h1, WrapperInfo(w));
    DropInfoFrame(h1, WrapperInfo(w));
    hide DropInstance, DropInfo, Changes;
    FrameTransitive(h, h1, Cleared(h, w), {WrapperInstance(w)}, {WrapperInfo(w)});
    Untouched(h1, Cleared(h, w), {WrapperInfo(w)}, WrapperInstance(w));
    assert {WrapperInstance(w)} + {WrapperInfo(w)} == {WrapperInstance(w), WrapperInfo(w)};
  }

  lemma KindAt(h: Heap, slot: Slot)
    requires WellFormed(h)
    ensures slot in h.slots ==> Held(h, slot) && RightKind(slot, PayloadAt(h, slot))
  {
    if slot in h.slots {
      SlotHeld(h, slot);
    }
  }

  /** `Clear` runs library code after the library is gone exactly when `ClearHazard` holds. */
  lemma ClearFaults(h: Heap, w: nat)
    requires WellFormed(h) && Tied(h) && InfoPinned(h, w)
    ensures Cleared(h, w).fault == (h.fault || ClearHazard(h, w))
  {
    hide WellFormed, Evolves, Keeps, Tied, Unmaps, Loaded;
    var i, j := WrapperInstance(w), WrapperInfo(w);
    KindAt(h, i);
    KindAt(h, j);
    var h1 := DropInstance(h, i);
    DropInstanceFacts(h, i);
    if i in h.slots {
      InstanceLoaded(h, h.slots[i]);
    }
    if j in h.slots {
      DropInstanceOthers(h, i, j);
      if PayloadAt(h, j).code.Dynamic? {
        DropInstanceLoaded(h, i, PayloadAt(h, j).code);
      } else {
        ResidentLoaded(h1, PayloadAt(h, j).code);
      }
    }
    hide DropInstance, InfoPinned;
    KindAt(h1, j);
    DropInfoFacts(h1, j);
    HeldIsIn(h, j);
  }

  lemma DestroyedFrame(h: Heap, w: nat)
    requires WellFormed(h)
    ensures Frame(h, Destroyed(h, w), {WrapperInfo(w), WrapperInstance(w)})
    ensures WrapperInstance(w) !in Destroyed(h, w).slots && WrapperInfo(w) !in Destroyed(h, w).slots
  {
    hide WellFormed, Evolves, NoNewLibs;
    KindAt(h, WrapperInfo(w));
    DropInfoFrame(h, WrapperInfo(w));
    var h1 := DropInfo(h, WrapperInfo(w));
    KindAt(h1, WrapperInstance(w));
    DropInstanceFrame(h1, WrapperInstance(w));
    hide DropInstance, DropInfo, Changes;
    FrameTransitive(h, h1, Destroyed(h, w), {WrapperInfo(w)}, {WrapperInstance(w)});
    Untouched(h1, Destroyed(h, w), {WrapperInstance(w)}, WrapperInfo(w));
    assert {WrapperInfo(w)} + {WrapperInstance(w)} == {WrapperInfo(w), WrapperInstance(w)};
  }

  /** The order in which the members are destroyed is safe without conditions. */
  lemma DestroyedFaults(h: Heap, w: nat)
    requires WellFormed(h) && Tied(h) && InfoPinned(h, w)
    ensures Destroyed(h, w).fault == h.fault
  {
    hide WellFormed, Evolves, NoNewLibs, Changes, Tied, Loaded;
    var i, j := WrapperInstance(w), WrapperInfo(w);
    KindAt(h, j);
    KindAt(h, i);
    DropInfoFrame(h, j);
    var h1 := DropInfo(h, j);
    if j in h.slots {
      if PayloadAt(h, j).code.Dynamic? {
        InstanceLoaded(h, h.slots[i]);
      } else {
        ResidentLoaded(h, PayloadAt(h, j).code);
      }
    }
    hide DropInfo, InfoPinned;
    TiedFrame(h, h1, {j});
    DropsRunLoaded(h1, i);
  }

  lemma ResidentLoaded(h: Heap, c: Code)
    requires c.Resident?
    ensures Loaded(h, c)
  {
  }

  /** While every instance is tied to its own library, destroying one runs no code that is gone. */
  lemma DropsRunLoaded(h: Heap, slot: Slot)
    requires WellFormed(h) && Tied(h) && (slot.WrapperInstance? || slot.Interface? || slot.Product? || slot.Lost? || slot.LocalInstance?)
    ensures DropInstance(h, slot).fault == h.fault
  {
    hide WellFormed, Tied, Loaded, Evolves, NoNewLibs, Changes;
    KindAt(h, slot);
    DropInstanceFrame(h, slot);
    if slot in h.slots {
      InstanceLoaded(h, h.slots[slot]);
    }
  }

  lemma CopySlotFrame(h: Heap, to: Slot, from: Slot)
    requires WellFormed(h) && to !in h.slots && !to.InstanceLib?
    requires from in h.slots ==> RightKind(to, PayloadAt(h, from))
    ensures Frame(h, CopySlot(h, to, from), {to}) && CopySlot(h, to, from).fault == h.fault
    ensures from in h.slots ==> to in CopySlot(h, to, from).slots && CopySlot(h, to, from).slots[to] == h.slots[from]
    ensures from !in h.slots ==> to !in CopySlot(h, to, from).slots
  {
    hide WellFormed, Evolves, NoNewLibs;
    KindAt(h, from);
    HeldIsIn(h, from);
    if from in h.slots {
      ShareFrame(h, to, h.slots[from]);
    } else {
      FrameRefl(h);
    }
  }

  lemma CopiedFrame(h: Heap, to: nat, from: nat)
    requires WellFormed(h)
    ensures Frame(h, Copied(h, to, from), {WrapperInstance(to), WrapperInfo(to)})
    ensures Copied(h, to, from).fault == Cleared(h, to).fault
    ensures to == from ==> WrapperInstance(to) !in Copied(h, to, from).slots && WrapperInfo(to) !in Copied(h, to, from).slots
    ensures to != from ==> CopiesSlot(h, Copied(h, to, from), WrapperInstance(to), WrapperInstance(from))
                           && CopiesSlot(h, Copied(h, to, from), WrapperInfo(to), WrapperInfo(from))
  {
    hide WellFormed, Evolves, NoNewLibs, Changes;
    ClearedFrame(h, to);
    var h1 := Cleared(h, to);
    hide Cleared;
    if to != from {
      var i, j := WrapperInstance(to), WrapperInfo(to);
      KindAt(h1, WrapperInstance(from));
      CopySlotFrame(h1, i, WrapperInstance(from));
      var h2 := CopySlot(h1, i, WrapperInstance(from));
      Untouched(h1, h2, {i}, j);
      Untouched(h1, h2, {i}, WrapperInfo(from));
      KindAt(h2, WrapperInfo(from));
      CopySlotFrame(h2, j, WrapperInfo(from));
      var h3 := CopySlot(h2, j, WrapperInfo(from));
      hide CopySlot;
      FrameTransitive(h, h1, h2, {i, j}, {i});
      FrameTransitive(h, h2, h3, {i, j} + {i}, {j});
      assert {i, j} + {i} + {j} == {i, j};
      Untouched(h, h1, {i, j}, WrapperInstance(from));
      Untouched(h, h1, {i, j}, WrapperInfo(from));
      Untouched(h2, h3, {j}, i);
    }
  }

  /** `to` now holds what `from` held before. */
  predicate CopiesSlot(h: Heap, h': Heap, to: Slot, from: Slot) {
    if from in h.slots then to in h'.slots && h'.slots[to] == h.slots[from] else to !in h'.slots
  }

  /** What `Create` writes: the wrapper, and the library reference of the new instance. */
  function CreatedSlots(h: Heap, w: nat): set<Slot> {
    {WrapperInfo(w), WrapperInstance(w), InstanceLib(h.next)}
  }

  /** `Create` for an Info and a library that may be of different mappings: only then may it run
      code that is gone, and leave an instance that is tied to the wrong library. */
  lemma CreatedFrame(h: Heap, w: nat, info: Id, lib: Id)
    requires WellFormed(h) && WrapperInfo(w) !in h.slots && WrapperInstance(w) !in h.slots
    requires info in h.blocks && h.blocks[info].payload.InfoPayload?
    requires lib in h.blocks && h.blocks[lib].payload.Library?
    ensures var h' := Created(h, w, info, lib);
            && Frame(h, h', CreatedSlots(h, w))
            && (h.blocks[lib].payload.code == h.blocks[info].payload.code ==> h'.fault == h.fault && (Tied(h) ==> Tied(h')))
            && WrapperInfo(w) in h'.slots && h'.slots[WrapperInfo(w)] == info
            && WrapperInstance(w) in h'.slots && h'.slots[WrapperInstance(w)] == h.next && h.next < h'.next
            && h.next in h'.blocks
            && h'.blocks[h.next].payload == InstancePayload(h.blocks[info].payload.code, h.blocks[info].payload.info)
            && h'.blocks.Keys == h.blocks.Keys + {h.next}
  {
    hide WellFormed, Evolves, NoNewLibs;
    var p := h.blocks[info].payload;
    var h0 := Share(h, WrapperInfo(w), info);
    ShareFrame(h, WrapperInfo(w), info);
    var h1 := Touch(h0, p.code);
    TouchFrame(h0, p.code);
    MakeInstanceFrame(h1, WrapperInstance(w), p.code, p.info, lib);
    var h2 := MakeInstance(h1, WrapperInstance(w), p.code, p.info, lib);
    hide MakeInstance;
    TouchFrame(h2, p.code);
    FrameTransitive(h, h0, h1, {WrapperInfo(w)}, {});
    FrameTransitive(h, h1, h2, {WrapperInfo(w)} + {}, {WrapperInstance(w), InstanceLib(h1.next)});
    var h3 := Touch(h2, p.code);
    FrameTransitive(h, h2, h3, {WrapperInfo(w)} + {} + {WrapperInstance(w), InstanceLib(h1.next)}, {});
    assert {WrapperInfo(w)} + {} + {WrapperInstance(w), InstanceLib(h1.next)} + {} == CreatedSlots(h, w);
    assert SameAt(h0, h1, WrapperInfo(w)) && SameAt(h1, h2, WrapperInfo(w));
    if h.blocks[lib].payload.code == p.code {
      BlockLoaded(h0, lib);
      SamePayload(h, h2, lib);
      BlockLoaded(h2, lib);
      if Tied(h) {
        TiedMade(h, h3, CreatedSlots(h, w));
      }
    }
  }

  lemma CreatedStaticFrame(h: Heap, w: nat, info: Info)
    requires WellFormed(h) && WrapperInfo(w) !in h.slots && WrapperInstance(w) !in h.slots
    ensures var h' := CreatedStatic(h, w, info);
            && Frame(h, h', {WrapperInfo(w), WrapperInstance(w)}) && h'.fault == h.fault
            && WrapperInfo(w) in h'.slots && h'.slots[WrapperInfo(w)] == h.next
            && WrapperInstance(w) in h'.slots && h'.slots[WrapperInstance(w)] == h.next + 1
            && h'.blocks.Keys == h.blocks.Keys + {h.next, h.next + 1} && h'.next == h.next + 2
            && h'.blocks[h.next].payload == InfoPayload(Resident, info)
            && h'.blocks[h.next + 1].payload == InstancePayload(Resident, info)
  {
    hide WellFormed, Evolves, NoNewLibs, Changes;
    var i, j := WrapperInfo(w), WrapperInstance(w);
    MakeOtherFrame(h, i, InfoPayload(Resident, info));
    var h1 := Make(h, i, InfoPayload(Resident, info));
    MakeOtherFrame(h1, j, InstancePayload(Resident, info));
    FrameTransitive(h, h1, Make(h1, j, InstancePayload(Resident, info)), {i}, {j});
    assert {i} + {j} == {i, j};
  }

  lemma MakeOtherFrame(h: Heap, slot: Slot, payload: Payload)
    requires WellFormed(h) && slot !in h.slots && RightKind(slot, payload) && !slot.InstanceLib? && !payload.Library?
    requires payload.InstancePayload? ==> payload.code == Resident
    ensures Frame(h, Make(h, slot, payload), {slot}) && h.next !in h.blocks
  {
    hide Sound, InstancesAnchored;
    OldBlocks(h);
    MakeOtherFacts(h, slot, payload);
  }

  /** What two weak pointers that were taken from one wrapper may find. */
  ghost predicate Paired(h: Heap, instance: Option<Id>, info: Option<Id>) {
    && (instance.Some? && instance.value in h.blocks ==> h.blocks[instance.value].payload.InstancePayload?)
    && (info.Some? && info.value in h.blocks ==> h.blocks[info.value].payload.InfoPayload?)
    && (instance.Some? && instance.value in h.blocks && info.Some? && info.value in h.blocks ==>
          h.blocks[instance.value].payload.code == h.blocks[info.value].payload.code
          && h.blocks[instance.value].payload.info == h.blocks[info.value].payload.info)
  }

  predicate LivesIn(id: Option<Id>, h: Heap) {
    id.Some? && id.value in h.blocks
  }

  /** `slot` was filled if its weak pointer was not expired. */
  predicate LockedSlot(h: Heap, h': Heap, slot: Slot, id: Option<Id>) {
    if LivesIn(id, h) then slot in h'.slots && h'.slots[slot] == id.value else slot !in h'.slots
  }

  lemma LockedFrame(h: Heap, w: nat, instance: Option<Id>, info: Option<Id>)
    requires WellFormed(h) && WrapperInfo(w) !in h.slots && WrapperInstance(w) !in h.slots && Paired(h, instance, info)
    ensures var h' := Locked(h, w, instance, info);
            && Frame(h, h', {WrapperInstance(w), WrapperInfo(w)}) && (Tied(h) ==> h'.fault == h.fault)
            && LockedSlot(h, h', WrapperInstance(w), instance) && LockedSlot(h, h', WrapperInfo(w), info)
  {
    hide WellFormed, Evolves, NoNewLibs;
    var i, j := WrapperInstance(w), WrapperInfo(w);
    var h1 := if LivesIn(instance, h) then Share(h, i, instance.value) else h;
    FrameRefl(h);
    if LivesIn(instance, h) {
      ShareFrame(h, i, instance.value);
    }
    assert Frame(h, h1, {i});
    var h2 := if LivesIn(info, h1) then Share(h1, j, info.value) else h1;
    FrameRefl(h1);
    if LivesIn(info, h1) {
      ShareFrame(h1, j, info.value);
    }
    assert Frame(h1, h2, {j});
    FrameTransitive(h, h1, h2, {i}, {j});
    assert {i} + {j} == {i, j};
    assert SameAt(h1, h2, i);
    assert h2.blocks.Keys == h.blocks.Keys;
    HeldIsIn(h2, i);
    HeldIsIn(h2, j);
    if Held(h2, i) && Held(h2, j) {
      if Tied(h) {
        TiedFrame(h, h2, {i} + {j});
        InstanceLoaded(h2, instance.value);
      }
      TouchFrame(h2, PayloadAt(h2, j).code);
      FrameTransitive(h, h2, Locked(h, w, instance, info), {i} + {j}, {});
      assert {i} + {j} + {} == {i, j};
    }
  }
}
