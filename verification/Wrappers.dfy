/** `gz::plugin::Plugin`: the map of interfaces of one wrapper, and its class. */
module Wrappers {
  import opened Common
  import opened Runtime
  import opened Plugins

  /** Where an interface is: in which instance, and at which offset. */
  datatype Location = Location(instance: Id, offset: int)

  type InterfaceMap = map<string, Option<Location>>

  // ---------------------------------------------------------------- what the operations do

  /** `Clear` keeps every key, because iterators point to the entries. */
  function Nulled(m: InterfaceMap): InterfaceMap {
    map k | k in m :: None
  }

  /** The casts of an Info applied to an instance. */
  function Cast(info: Info, instance: Id): InterfaceMap {
    map k | k in info.interfaces :: Some(Location(instance, info.interfaces[k]))
  }

  /** Each interface of the plugin is where its cast puts it in the instance, and no other entry of
      the map points anywhere. */
  ghost predicate CastInto(m: InterfaceMap, info: Info, instance: Id) {
    && (forall k | k in info.interfaces :: k in m && m[k].Some? && m[k].value.instance == instance && m[k].value.offset == info.interfaces[k])
    && (forall k | k in m && k !in info.interfaces :: m[k] == None)
  }

  /** A wrapper as its queries see it. */
  datatype View = View(interfaces: InterfaceMap, instance: Option<Id>, info: Option<Info>)

  const EMPTY_VIEW := View(map[], None, None)

  function ViewCleared(v: View): View {
    View(Nulled(v.interfaces), None, None)
  }

  /** `Create`: the instance that the factory of `info` makes is `instance`. */
  function ViewCreated(v: View, info: Option<Info>, instance: Id): View {
    if info.None? then ViewCleared(v)
    else View(Nulled(v.interfaces) + Cast(info.value, instance), Some(instance), info)
  }

  /** `Copy` from another wrapper; a null pointer for the wrapper itself, which is cleared first. */
  function ViewCopied(v: View, other: View): View {
    View(if other.instance.Some? then Nulled(v.interfaces) + other.interfaces else Nulled(v.interfaces), other.instance, other.info)
  }

  /** `Copy` from an Info and an instance does not clear the map. */
  function ViewLocked(v: View, info: Option<Info>, instance: Option<Id>): View {
    View(if info.Some? && instance.Some? then v.interfaces + Cast(info.value, instance.value) else v.interfaces, instance, info)
  }

  /** `insert` never overwrites. */
  function ViewIterated(v: View, name: string): View {
    if name in v.interfaces then v else v.(interfaces := v.interfaces[name := None])
  }

  // ---------------------------------------------------------------- queries

  function PrivateQueryInterface(v: View, name: string): Option<Location> {
    if name in v.interfaces then v.interfaces[name] else None
  }

  predicate HasInterface(v: View, name: string, demangled: bool) {
    v.info.Some? && if demangled then name in v.info.value.demangledInterfaces else name in v.interfaces
  }

  /** What the program should be told: the instance is there and its Info offers the interface. */
  function Offered(v: View, name: string): Option<Location> {
    if v.instance.Some? && v.info.Some? && name in v.info.value.interfaces
    then Some(Location(v.instance.value, v.info.value.interfaces[name])) else None
  }

  /** Every entry says what it should. */
  ghost predicate Faithful(v: View) {
    forall name :: PrivateQueryInterface(v, name) == Offered(v, name)
  }

  // ---------------------------------------------------------------- what the operations keep

  lemma EmptyFaithful()
    ensures Faithful(EMPTY_VIEW)
  {
  }

  lemma FaithfulAt(v: View, name: string)
    requires Faithful(v)
    ensures PrivateQueryInterface(v, name) == Offered(v, name)
  {
  }

  lemma ClearedFaithful(v: View)
    ensures Faithful(ViewCleared(v)) && ViewCleared(v).interfaces.Keys == v.interfaces.Keys
  {
  }

  lemma CreatedFaithful(v: View, info: Option<Info>, instance: Id)
    ensures Faithful(ViewCreated(v, info, instance))
    ensures ViewCreated(v, info, instance).interfaces.Keys ==
            v.interfaces.Keys + if info.Some? then info.value.interfaces.Keys else {}
  {
  }

  lemma CopiedFaithful(v: View, other: View)
    requires Faithful(other)
    ensures Faithful(ViewCopied(v, other))
    ensures ViewCopied(v, other).interfaces.Keys ==
            v.interfaces.Keys + if other.instance.Some? then other.interfaces.Keys else {}
  {
    var v' := ViewCopied(v, other);
    forall name
      ensures PrivateQueryInterface(v', name) == Offered(v', name)
    {
      FaithfulAt(other, name);
    }
  }

  lemma IteratedFaithful(v: View, name: string)
    requires Faithful(v)
    ensures Faithful(ViewIterated(v, name)) && ViewIterated(v, name).interfaces.Keys == v.interfaces.Keys + {name}
    ensures ViewIterated(v, name).instance == v.instance && ViewIterated(v, name).info == v.info
  {
    var v' := ViewIterated(v, name);
    forall n
      ensures PrivateQueryInterface(v', n) == Offered(v', n)
    {
      FaithfulAt(v, n);
    }
  }

  /** `Copy` from an Info and an instance gives a faithful wrapper exactly when it leaves no entry
      of an earlier instance behind; on a fresh wrapper it always does. */
  lemma LockedFaithful(v: View, info: Option<Info>, instance: Option<Id>)
    requires Faithful(v)
    ensures Faithful(ViewLocked(v, info, instance)) <==>
            (forall name | name in v.interfaces && v.interfaces[name].Some? ::
               info.Some? && instance.Some? && name in info.value.interfaces)
  {
    var v' := ViewLocked(v, info, instance);
    if forall name | name in v.interfaces && v.interfaces[name].Some? ::
         info.Some? && instance.Some? && name in info.value.interfaces {
      forall name
        ensures PrivateQueryInterface(v', name) == Offered(v', name)
      {
      }
    } else {
      var name :| name in v.interfaces && v.interfaces[name].Some?
                  && !(info.Some? && instance.Some? && name in info.value.interfaces);
      assert PrivateQueryInterface(v', name) != Offered(v', name);
    }
  }

  // ---------------------------------------------------------------- the class

  /** The state of the run-time, shared by all objects. */
  class Machine {
    var heap: Heap

    constructor ()
      ensures heap == EMPTY_HEAP
    {
      heap := EMPTY_HEAP;
    }
  }

  function HeldInfo(h: Heap, w: nat): Option<Info> {
    if Held(h, WrapperInfo(w)) && PayloadAt(h, WrapperInfo(w)).InfoPayload? then Some(PayloadAt(h, WrapperInfo(w)).info) else None
  }

  function HeldInstance(h: Heap, w: nat): Option<Id> {
    if Held(h, WrapperInstance(w)) then Some(h.slots[WrapperInstance(w)]) else None
  }

  /** An Info and a library, which may be of different mappings. */
  predicate Creatable(h: Heap, info: Id, lib: Id) {
    && info in h.blocks && h.blocks[info].payload.InfoPayload?
    && lib in h.blocks && h.blocks[lib].payload.Library?
  }

  /** `loadedInstancePtr` and `info` are the slots of this wrapper in the heap. */
  class Plugin {
    const machine: Machine
    const wrapper: nat
    var interfaces: InterfaceMap

    function Value(): View
      reads this, machine
    {
      View(interfaces, HeldInstance(machine.heap, wrapper), HeldInfo(machine.heap, wrapper))
    }

    ghost predicate Valid()
      reads this, machine
    {
      WellFormed(machine.heap)
    }

    constructor (machine: Machine, wrapper: nat)
      requires WellFormed(machine.heap)
      requires WrapperInstance(wrapper) !in machine.heap.slots && WrapperInfo(wrapper) !in machine.heap.slots
      ensures Valid() && this.machine == machine && this.wrapper == wrapper && Value() == EMPTY_VIEW
    {
      this.machine, this.wrapper, interfaces := machine, wrapper, map[];
    }

    /** The loop of `Clear` over the entries of the map. */
    method Nullify()
      modifies this
      ensures interfaces == Nulled(old(interfaces))
    {
      var rest := interfaces.Keys;
      while rest != {}
        invariant rest <= old(interfaces).Keys == interfaces.Keys
        invariant forall k | k in interfaces :: interfaces[k] == if k in rest then old(interfaces)[k] else None
        decreases rest
      {
        var k :| k in rest;
        interfaces := interfaces[k := None];
        rest := rest - {k};
      }
    }

    /** The loops that fill the map: `casts` are the entries to write. */
    method Fill(casts: InterfaceMap)
      modifies this
      ensures interfaces == old(interfaces) + casts
    {
      var rest := casts.Keys;
      while rest != {}
        invariant rest <= casts.Keys
        invariant interfaces == old(interfaces) + (map k | k in casts.Keys - rest :: casts[k])
        decreases rest
      {
        var k :| k in rest;
        interfaces := interfaces[k := casts[k]];
        rest := rest - {k};
      }
      assert (map k | k in casts.Keys - rest :: casts[k]) == casts;
    }

    method Clear()
      requires Valid()
      modifies this, machine
      ensures Valid() && machine.heap == Cleared(old(machine.heap), wrapper)
      ensures Value() == ViewCleared(old(Value()))
    {
      ClearedFrame(machine.heap, wrapper);
      machine.heap := DropInstance(machine.heap, WrapperInstance(wrapper));
      machine.heap := DropInfo(machine.heap, WrapperInfo(wrapper));
      Nullify();
    }

    /** `Create` with a library, which `dlHandlePtr` holds. */
    method Create(info: Option<Id>, lib: Id) returns (ghost instance: Id)
      requires Valid()
      requires info.Some? ==> Creatable(Cleared(machine.heap, wrapper), info.value, lib)
      modifies this, machine
      ensures Valid()
      ensures var h := Cleared(old(machine.heap), wrapper);
              && machine.heap == (if info.Some? then Created(h, wrapper, info.value, lib) else h)
              && Value() == ViewCreated(old(Value()), if info.Some? then Some(h.blocks[info.value].payload.info) else None, instance)
              && (info.Some? ==> CastInto(interfaces, h.blocks[info.value].payload.info, instance))
    {
      hide WellFormed, Evolves, NoNewLibs, Changes, Cleared;
      instance := 0;
      Clear();
      if info.None? {
        return;
      }
      ghost var h := machine.heap;
      ghost var before := interfaces;
      assert WrapperInstance(wrapper) !in h.slots && WrapperInfo(wrapper) !in h.slots by { ClearedFrame(old(machine.heap), wrapper); }
      CreatedView(h, wrapper, info.value, lib);
      var p := machine.heap.blocks[info.value].payload;
      machine.heap := Share(machine.heap, WrapperInfo(wrapper), info.value);
      machine.heap := Touch(machine.heap, p.code);
      instance := machine.heap.next;
      var made := machine.heap.next;
      machine.heap := MakeInstance(machine.heap, WrapperInstance(wrapper), p.code, p.info, lib);
      machine.heap := Touch(machine.heap, p.code);
      assert machine.heap == Created(h, wrapper, info.value, lib);
      Fill(Cast(p.info, made));
    }

    /** The same for a plugin of the static registry: there is no library, and the Info is a copy. */
    method CreateStatic(info: Info) returns (ghost instance: Id)
      requires Valid()
      modifies this, machine
      ensures Valid()
      ensures machine.heap == CreatedStatic(Cleared(old(machine.heap), wrapper), wrapper, info)
      ensures Value() == ViewCreated(old(Value()), Some(info), instance) && CastInto(interfaces, info, instance)
    {
      hide WellFormed, Evolves, NoNewLibs, Changes, Cleared;
      Clear();
      ghost var h := machine.heap;
      assert WrapperInstance(wrapper) !in h.slots && WrapperInfo(wrapper) !in h.slots by { ClearedFrame(old(machine.heap), wrapper); }
      CreatedStaticFrame(h, wrapper, info);
      machine.heap := Make(machine.heap, WrapperInfo(wrapper), InfoPayload(Resident, info));
      instance := machine.heap.next;
      var made := machine.heap.next;
      machine.heap := Make(machine.heap, WrapperInstance(wrapper), InstancePayload(Resident, info));
      Fill(Cast(info, made));
    }

    /** `Copy` from another wrapper, which may be this one. */
    method Copy(other: Plugin)
      requires Valid() && other.Valid() && other.machine == machine && (other == this <==> other.wrapper == wrapper)
      modifies this, machine
      ensures Valid() && machine.heap == Copied(old(machine.heap), wrapper, other.wrapper)
      ensures other == this ==> Value() == ViewCopied(old(Value()), ViewCleared(old(Value())))
      ensures other != this ==> Value() == ViewCopied(old(Value()), old(other.Value()))
      ensures other != this ==> other.Value() == old(other.Value())
    {
      hide WellFormed, Evolves, NoNewLibs, Changes, Cleared;
      CopiedView(machine.heap, wrapper, other.wrapper);
      ClearedFrame(machine.heap, wrapper);
      Clear();
      machine.heap := CopySlot(machine.heap, WrapperInstance(wrapper), WrapperInstance(other.wrapper));
      machine.heap := CopySlot(machine.heap, WrapperInfo(wrapper), WrapperInfo(other.wrapper));
      if Held(machine.heap, WrapperInstance(wrapper)) {
        Fill(other.interfaces);
      }
    }

    /** `Copy` from what the two weak pointers of a reference gave.  The result tells whether the
        branch was avoided in which there is an instance but no Info. */
    method CopyParts(info: Option<Id>, instance: Option<Id>) returns (sound: bool)
      requires Valid() && Paired(machine.heap, instance, info)
      requires WrapperInstance(wrapper) !in machine.heap.slots && WrapperInfo(wrapper) !in machine.heap.slots
      modifies this, machine
      ensures Valid() && machine.heap == Locked(old(machine.heap), wrapper, instance, info)
      ensures Value() == ViewLocked(old(Value()), HeldInfo(machine.heap, wrapper), HeldInstance(machine.heap, wrapper))
      ensures sound <==> !(LivesIn(instance, old(machine.heap)) && !LivesIn(info, old(machine.heap)))
    {
      hide WellFormed, Evolves, NoNewLibs, Changes, Locked, LockedSlot, Paired, Share, Touch;
      LockedFrame(machine.heap, wrapper, instance, info);
      LockedIs(machine.heap, wrapper, instance, info);
      sound := true;
      if instance.Some? && instance.value in machine.heap.blocks {
        machine.heap := Share(machine.heap, WrapperInstance(wrapper), instance.value);
      }
      if info.Some? && info.value in machine.heap.blocks {
        machine.heap := Share(machine.heap, WrapperInfo(wrapper), info.value);
      }
      if Held(machine.heap, WrapperInstance(wrapper)) {
        if !Held(machine.heap, WrapperInfo(wrapper)) {
          sound := false;
          return;
        }
        var p := PayloadAt(machine.heap, WrapperInfo(wrapper));
        machine.heap := Touch(machine.heap, p.code);
        Fill(CastOf(p, machine.heap, wrapper));
      }
    }

    method Query(name: string) returns (location: Option<Location>)
      ensures location == PrivateQueryInterface(Value(), name)
    {
      if name !in interfaces {
        return None;
      }
      location := interfaces[name];
    }

    /** `HasInterface`: by default the name is demangled, and the Info is asked. */
    method HasInterface(name: string, demangled: bool := true) returns (has: bool)
      ensures !demangled ==> (has <==> Value().info.Some? && name in interfaces)
      ensures demangled ==> (has <==> Value().info.Some? && name in Value().info.value.demangledInterfaces)
    {
      var info := HeldInfo(machine.heap, wrapper);
      if info.None? {
        return false;
      }
      if demangled {
        return name in info.value.demangledInterfaces;
      }
      return name in interfaces;
    }

    /** `PrivateGetOrCreateIterator`: the iterator is the key, which stays in the map for good. */
    method GetOrCreateIterator(name: string) returns (iterator_: string)
      modifies this
      ensures Value() == ViewIterated(old(Value()), name) && iterator_ == name && iterator_ in interfaces
    {
      if name !in interfaces {
        interfaces := interfaces[name := None];
      }
      iterator_ := name;
    }
  }

  /** The casts of a payload, when it is an Info, applied to the instance of the wrapper. */
  function CastOf(p: Payload, h: Heap, w: nat): InterfaceMap {
    if p.InfoPayload? && Held(h, WrapperInstance(w)) then Cast(p.info, h.slots[WrapperInstance(w)]) else map[]
  }

  function LockedFirst(h: Heap, w: nat, instance: Option<Id>): Heap {
    if instance.Some? && instance.value in h.blocks then Share(h, WrapperInstance(w), instance.value) else h
  }

  function LockedBoth(h: Heap, w: nat, instance: Option<Id>, info: Option<Id>): Heap {
    var h1 := LockedFirst(h, w, instance);
    if info.Some? && info.value in h1.blocks then Share(h1, WrapperInfo(w), info.value) else h1
  }

  lemma LockedIs(h: Heap, w: nat, instance: Option<Id>, info: Option<Id>)
    requires WellFormed(h) && WrapperInfo(w) !in h.slots && WrapperInstance(w) !in h.slots && Paired(h, instance, info)
    ensures var h2 := LockedBoth(h, w, instance, info);
            && (Held(h2, WrapperInstance(w)) <==> LivesIn(instance, h)) && (Held(h2, WrapperInfo(w)) <==> LivesIn(info, h))
            && (LivesIn(info, h) ==> PayloadAt(h2, WrapperInfo(w)).InfoPayload?)
            && Locked(h, w, instance, info) ==
               (if LivesIn(instance, h) && LivesIn(info, h) then Touch(h2, PayloadAt(h2, WrapperInfo(w)).code) else h2)
            && (forall c :: HeldInstance(Touch(h2, c), w) == HeldInstance(h2, w) && HeldInfo(Touch(h2, c), w) == HeldInfo(h2, w))
  {
    hide Sound, InstancesAnchored;
  }

  lemma CopiedView(h: Heap, to: nat, from: nat)
    requires WellFormed(h)
    ensures var h' := Copied(h, to, from);
            && WellFormed(h')
            && (to == from ==> HeldInstance(h', to) == None && HeldInfo(h', to) == None)
            && (to != from ==> HeldInstance(h', to) == HeldInstance(h', from) == HeldInstance(h, from))
            && (to != from ==> HeldInfo(h', to) == HeldInfo(h', from) == HeldInfo(h, from))
  {
    hide WellFormed, Evolves, NoNewLibs, Changes;
    CopiedFrame(h, to, from);
    var h' := Copied(h, to, from);
    hide Copied;
    HeldIsIn(h', WrapperInstance(to));
    HeldIsIn(h', WrapperInfo(to));
    if to != from {
      HeldIsIn(h, WrapperInstance(from));
      HeldIsIn(h, WrapperInfo(from));
      Untouched(h, h', {WrapperInstance(to), WrapperInfo(to)}, WrapperInstance(from));
      Untouched(h, h', {WrapperInstance(to), WrapperInfo(to)}, WrapperInfo(from));
      HeldIsIn(h', WrapperInstance(from));
      HeldIsIn(h', WrapperInfo(from));
      if WrapperInfo(from) in h.slots {
        SamePayload(h, h', h.slots[WrapperInfo(from)]);
      }
    }
  }

  lemma CreatedView(h: Heap, w: nat, info: Id, lib: Id)
    requires WellFormed(h) && WrapperInfo(w) !in h.slots && WrapperInstance(w) !in h.slots
    requires Creatable(h, info, lib)
    ensures var h' := Created(h, w, info, lib);
            WellFormed(h') && HeldInstance(h', w) == Some(h.next) && HeldInfo(h', w) == Some(h.blocks[info].payload.info)
  {
    hide WellFormed, Evolves, NoNewLibs, Changes;
    CreatedFrame(h, w, info, lib);
    var h' := Created(h, w, info, lib);
    hide Created;
    HeldIsIn(h', WrapperInfo(w));
    SamePayload(h, h', info);
  }
}
