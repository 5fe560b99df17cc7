/** `gz::plugin::WeakPluginPtr`. */
module WeakPointers {
  import opened Common
  import opened Runtime
  import opened Plugins
  import opened Wrappers

  class WeakPluginPtr {
    const machine: Machine
    var instance: Option<Id>
    var info: Option<Id>

    constructor (machine: Machine)
      ensures this.machine == machine && instance == None && info == None
    {
      this.machine := machine;
      instance, info := None, None;
    }

    method Assign(ptr: Plugin)
      requires ptr.machine == machine
      modifies this
      ensures instance == HeldInstance(machine.heap, ptr.wrapper)
      ensures info == if Held(machine.heap, WrapperInfo(ptr.wrapper)) then Some(machine.heap.slots[WrapperInfo(ptr.wrapper)]) else None
    {
      instance, info := None, None;
      if Held(machine.heap, WrapperInstance(ptr.wrapper)) {
        instance := Some(machine.heap.slots[WrapperInstance(ptr.wrapper)]);
      }
      if Held(machine.heap, WrapperInfo(ptr.wrapper)) {
        info := Some(machine.heap.slots[WrapperInfo(ptr.wrapper)]);
      }
    }

    /** `Lock` into a fresh wrapper: it says what the two objects offer that are still alive. */
    method Lock(wrapper: nat) returns (ptr: Plugin, sound: bool)
      requires WellFormed(machine.heap) && Paired(machine.heap, instance, info)
      requires WrapperInstance(wrapper) !in machine.heap.slots && WrapperInfo(wrapper) !in machine.heap.slots
      modifies machine
      ensures fresh(ptr) && ptr.machine == machine && ptr.wrapper == wrapper && ptr.Valid()
      ensures machine.heap == Locked(old(machine.heap), wrapper, instance, info)
      ensures ptr.Value() == ViewLocked(EMPTY_VIEW, HeldInfo(machine.heap, wrapper), HeldInstance(machine.heap, wrapper))
      ensures Faithful(ptr.Value())
      ensures HeldInfo(machine.heap, wrapper).Some? && HeldInstance(machine.heap, wrapper).Some? ==>
                CastInto(ptr.interfaces, HeldInfo(machine.heap, wrapper).value, HeldInstance(machine.heap, wrapper).value)
      ensures sound <==> (LivesIn(instance, old(machine.heap)) ==> LivesIn(info, old(machine.heap)))
    {
      ptr := new Plugin(machine, wrapper);
      sound := ptr.CopyParts(info, instance);
      EmptyFaithful();
      LockedFaithful(EMPTY_VIEW, HeldInfo(machine.heap, wrapper), HeldInstance(machine.heap, wrapper));
    }

    method IsExpired() returns (expired: bool)
      ensures expired <==> !(LivesIn(instance, machine.heap) && LivesIn(info, machine.heap))
    {
      var instanceLives := instance.Some? && instance.value in machine.heap.blocks;
      var infoLives := info.Some? && info.value in machine.heap.blocks;
      expired := !(instanceLives && infoLives);
    }
  }
}
