/** All the wrappers of a program: how they are made, filled and copied from one another, and what
    the iterators of the specialised ones find. */
module Pools {
  import opened Common
  import opened Runtime
  import opened Registration
  import opened Wrappers

  /** `SpecializedPlugin<interfaces...>`: its leaves each keep an iterator to one entry. */
  type Specialization = seq<string>

  datatype Wrapper = Wrapper(view: View, specialization: Specialization)

  type Pool = map<nat, Wrapper>

  datatype Action =
    | New(wrapper: nat, specialization: Specialization)
    | Clear(wrapper: nat)
    | Create(wrapper: nat, info: Option<Info>, made: Id)
    | Copy(to: nat, from: nat)
    | Iterate(wrapper: nat, name: string)
    | Lock(wrapper: nat, info: Option<Info>, instance: Option<Id>)

  // ---------------------------------------------------------------- what the actions do

  /** The constructors of the leaves: each asks for the iterator to its entry. */
  function Leaves(specialization: Specialization): View
    decreases |specialization|
  {
    if specialization == [] then EMPTY_VIEW
    else ViewIterated(Leaves(specialization[..|specialization| - 1]), specialization[|specialization| - 1])
  }

  predicate Allowed(p: Pool, a: Action) {
    match a
    case New(w, _) => w !in p
    case Clear(w) => w in p
    case Create(w, _, _) => w in p
    case Copy(to, from) => to in p && from in p
    case Iterate(w, _) => w in p
    case Lock(w, _, _) => w !in p
  }

  function With(p: Pool, w: nat, view: View): Pool
    requires w in p
  {
    p[w := p[w].(view := view)]
  }

  /** `Copy` clears its target first, also when that is its source. */
  function Acted(p: Pool, a: Action): Pool
    requires Allowed(p, a)
  {
    match a
    case New(w, specialization) => p[w := Wrapper(Leaves(specialization), specialization)]
    case Clear(w) => With(p, w, ViewCleared(p[w].view))
    case Create(w, info, instance) => With(p, w, ViewCreated(p[w].view, info, instance))
    case Copy(to, from) => With(p, to, ViewCopied(p[to].view, With(p, to, ViewCleared(p[to].view))[from].view))
    case Iterate(w, name) => With(p, w, ViewIterated(p[w].view, name))
    case Lock(w, info, instance) => p[w := Wrapper(ViewLocked(EMPTY_VIEW, info, instance), [])]
  }

  /** Each action is possible when its turn comes. */
  predicate Permitted(actions: seq<Action>)
    decreases |actions|, 0
  {
    actions == []
    || (Permitted(actions[..|actions| - 1]) && Allowed(After(actions[..|actions| - 1]), actions[|actions| - 1]))
  }

  /** The wrappers after all these actions, in a program that starts without any. */
  function After(actions: seq<Action>): Pool
    requires Permitted(actions)
    decreases |actions|, 1
  {
    if actions == [] then map[] else Acted(After(actions[..|actions| - 1]), actions[|actions| - 1])
  }

  // ---------------------------------------------------------------- which keys a wrapper has

  /** The names that a wrapper has ever had to do with: those it is specialised for, those that an
      iterator was asked for, those that the plugins offer which were ever made or locked in it,
      and those that the wrappers knew which it was copied from while they had an instance. */
  function Known(actions: seq<Action>, w: nat): set<string>
    requires Permitted(actions)
    decreases |actions|
  {
    if actions == [] then {}
    else
      var front := actions[..|actions| - 1];
      match actions[|actions| - 1]
      case New(u, specialization) => if u == w then (set n | n in specialization) else Known(front, w)
      case Create(u, info, _) => Known(front, w) + if u == w && info.Some? then info.value.interfaces.Keys else {}
      case Copy(to, from) => Known(front, w) + if to == w && from != w && After(front)[from].view.instance.Some? then Known(front, from) else {}
      case Iterate(u, name) => Known(front, w) + if u == w then {name} else {}
      case Lock(u, info, instance) =>
        if u != w then Known(front, w)
        else if info.Some? && instance.Some? then info.value.interfaces.Keys else {}
      case Clear(_) => Known(front, w)
  }

  lemma {:induction false} LeavesFaithful(specialization: Specialization)
    ensures Faithful(Leaves(specialization)) && Leaves(specialization).interfaces.Keys == (set n | n in specialization)
    ensures Leaves(specialization).instance == None && Leaves(specialization).info == None
    decreases |specialization|
  {
    hide Faithful, ViewIterated;
    if specialization == [] {
      EmptyFaithful();
    } else {
      var front, last := specialization[..|specialization| - 1], specialization[|specialization| - 1];
      assert specialization == front + [last];
      LeavesFaithful(front);
      IteratedFaithful(Leaves(front), last);
    }
  }

  lemma LockedKeys(info: Option<Info>, instance: Option<Id>)
    ensures Faithful(ViewLocked(EMPTY_VIEW, info, instance))
    ensures ViewLocked(EMPTY_VIEW, info, instance).interfaces.Keys ==
            if info.Some? && instance.Some? then info.value.interfaces.Keys else {}
  {
    EmptyFaithful();
    LockedFaithful(EMPTY_VIEW, info, instance);
  }

  /** The wrapper that an action works on keeps its keys and says what it should. */
  lemma ActedOn(p: Pool, a: Action, w: nat)
    requires Allowed(p, a) && w in p && Faithful(p[w].view) && (a.Copy? ==> Faithful(p[a.from].view))
    ensures var v, v' := p[w].view, Acted(p, a)[w].view;
            && Faithful(v') && Acted(p, a)[w].specialization == p[w].specialization
            && v'.interfaces.Keys == v.interfaces.Keys +
               match a
               case Create(u, info, _) => if u == w && info.Some? then info.value.interfaces.Keys else {}
               case Copy(to, from) => if to == w && from != w && p[from].view.instance.Some? then p[from].view.interfaces.Keys else {}
               case Iterate(u, name) => if u == w then {name} else {}
               case _ => {}
  {
    hide Faithful, ViewCreated, ViewCopied, ViewIterated;
    var v := p[w].view;
    ClearedFaithful(v);
    match a {
      case New(_, _) =>
      case Clear(_) =>
      case Create(_, info, instance) => CreatedFaithful(v, info, instance);
      case Copy(to, from) =>
        if w == to {
          CopiedFaithful(v, With(p, w, ViewCleared(v))[from].view);
        }
      case Iterate(_, name) => IteratedFaithful(v, name);
      case Lock(_, _, _) =>
    }
  }

  /** Through any actions on any wrappers, every wrapper has exactly the keys of the names it knows,
      those it is specialised for among them, and every entry says what it should. */
  lemma {:induction false} LifeKeeps(actions: seq<Action>, w: nat)
    requires Permitted(actions) && w in After(actions)
    ensures var x := After(actions)[w];
            && Faithful(x.view) && x.view.interfaces.Keys == Known(actions, w)
            && (set n | n in x.specialization) <= Known(actions, w)
    decreases |actions|
  {
    hide Faithful, ViewCreated, ViewCopied, ViewIterated, ViewCleared, ViewLocked, Leaves;
    var front, last := actions[..|actions| - 1], actions[|actions| - 1];
    var p := After(front);
    if w !in p {
      if last.New? {
        LeavesFaithful(last.specialization);
      } else {
        LockedKeys(last.info, last.instance);
      }
    } else {
      LifeKeeps(front, w);
      if last.Copy? {
        LifeKeeps(front, last.from);
      }
      ActedOn(p, last, w);
    }
  }

  /** So no entry is ever removed: an iterator that was valid at some moment stays valid. */
  lemma {:induction false} IteratorsValid(actions: seq<Action>, n: nat, w: nat)
    requires Permitted(actions) && n <= |actions|
    ensures Permitted(actions[..n])
    ensures w in After(actions[..n]) ==>
              && w in After(actions) && After(actions)[w].specialization == After(actions[..n])[w].specialization
              && After(actions[..n])[w].view.interfaces.Keys <= After(actions)[w].view.interfaces.Keys
    decreases |actions|
  {
    hide Faithful, ViewCreated, ViewCopied, ViewIterated, ViewCleared, ViewLocked, Leaves;
    if n == |actions| {
      assert actions[..n] == actions;
    } else {
      var front, last := actions[..|actions| - 1], actions[|actions| - 1];
      assert front[..n] == actions[..n];
      IteratorsValid(front, n, w);
      if w in After(actions[..n]) {
        LifeKeeps(front, w);
        if last.Copy? {
          LifeKeeps(front, last.from);
        }
        ActedOn(After(front), last, w);
      }
    }
  }

  // ---------------------------------------------------------------- specialised access

  /** Whether the leaf for `interfaceName` is among the bases, by recursion over the base classes. */
  predicate IsBase(interfaceName: string, specialization: Specialization) {
    specialization != [] && (specialization[0] == interfaceName || IsBase(interfaceName, specialization[1..]))
  }

  /** `it->second` for the iterator that the leaf for `interfaceName` keeps. */
  function Dereferenced(v: View, interfaceName: string): Option<Location>
    requires interfaceName in v.interfaces
  {
    v.interfaces[interfaceName]
  }

  lemma {:induction false} BaseIsListed(interfaceName: string, specialization: Specialization)
    ensures IsBase(interfaceName, specialization) <==> interfaceName in specialization
    decreases |specialization|
  {
    if specialization != [] {
      BaseIsListed(interfaceName, specialization[1..]);
      assert specialization == [specialization[0]] + specialization[1..];
    }
  }

  predicate Iterable(x: Wrapper) {
    forall n | n in x.specialization :: n in x.view.interfaces
  }

  /** The selection that the compiler makes: the leaf if there is one, the generic query if not. */
  function SpecializedQuery(x: Wrapper, interfaceName: string): Option<Location>
    requires Iterable(x)
  {
    if |x.specialization| == 1 then
      if x.specialization[0] == interfaceName then Dereferenced(x.view, interfaceName)
      else PrivateQueryInterface(x.view, interfaceName)
    else if IsBase(interfaceName, x.specialization) then
      assert interfaceName in x.specialization by { BaseIsListed(interfaceName, x.specialization); }
      Dereferenced(x.view, interfaceName)
    else PrivateQueryInterface(x.view, interfaceName)
  }

  /** The same selection for `HasInterface`: a leaf looks whether its entry is null. */
  predicate SpecializedHas(x: Wrapper, interfaceName: string)
    requires Iterable(x)
  {
    if |x.specialization| == 1 then
      if x.specialization[0] == interfaceName then Dereferenced(x.view, interfaceName).Some?
      else HasInterface(x.view, interfaceName, false)
    else if IsBase(interfaceName, x.specialization) then
      assert interfaceName in x.specialization by { BaseIsListed(interfaceName, x.specialization); }
      Dereferenced(x.view, interfaceName).Some?
    else HasInterface(x.view, interfaceName, false)
  }

  /** Whatever happens to a specialised wrapper, its iterators stay valid, and every query through
      them equals the generic query: it finds an interface exactly when the instance is alive and
      its Info offers the interface. */
  lemma SpecializedAccess(actions: seq<Action>, w: nat, interfaceName: string)
    requires Permitted(actions) && w in After(actions)
    ensures var x := After(actions)[w];
            && Iterable(x)
            && SpecializedQuery(x, interfaceName) == PrivateQueryInterface(x.view, interfaceName) == Offered(x.view, interfaceName)
  {
    hide Faithful, Offered, After, Known;
    var x := After(actions)[w];
    LifeKeeps(actions, w);
    assert Iterable(x) by {
      forall n | n in x.specialization
        ensures n in x.view.interfaces
      {
        assert n in (set m | m in x.specialization);
      }
    }
    BaseIsListed(interfaceName, x.specialization);
    FaithfulAt(x.view, interfaceName);
  }

  // ---------------------------------------------------------------- HasInterface counts keys

  /** A wrapper that has an Info knows the name from somewhere, and its plugin does not offer it. */
  predicate Stale(actions: seq<Action>, w: nat, name: string)
    requires Permitted(actions) && w in After(actions)
  {
    After(actions)[w].view.info.Some? && name in Known(actions, w) && Offered(After(actions)[w].view, name).None?
  }

  /** `HasInterface` without demangling is wrong exactly for a name that the wrapper knows from its
      past or its specialisation, and that its plugin does not offer. */
  lemma HasInterfaceMeans(actions: seq<Action>, w: nat, name: string)
    requires Permitted(actions) && w in After(actions)
    ensures (HasInterface(After(actions)[w].view, name, false) <==> PrivateQueryInterface(After(actions)[w].view, name).Some?)
            <==> !Stale(actions, w, name)
  {
    hide Faithful, After, Known;
    LifeKeeps(actions, w);
    FaithfulAt(After(actions)[w].view, name);
  }

  /** Asked by its demangled name, whatever a wrapper with a registered plugin has been through:
      `HasInterface` is true exactly for the interfaces of the plugin, and so agrees with the query
      by the mangled name unless only the Info is there, which `Lock` can leave behind. */
  lemma DemangledHasMeans(actions: seq<Action>, w: nat, p: Info, demangle: Demangler, k: string)
    requires Permitted(actions) && w in After(actions) && After(actions)[w].view.info.Some?
    requires StoredAs(After(actions)[w].view.info.value, p, demangle) && p.demangledInterfaces == {} && Injective(demangle)
    ensures var v := After(actions)[w].view;
            && (HasInterface(v, demangle(k), true) <==> k in p.interfaces)
            && ((HasInterface(v, demangle(k), true) <==> PrivateQueryInterface(v, k).Some?) <==> v.instance.Some? || k !in p.interfaces)
  {
    hide Faithful, After, Known;
    LifeKeeps(actions, w);
    FaithfulAt(After(actions)[w].view, k);
  }

  /** A leaf does better: asked for an interface that it is specialised for, a wrapper is right. */
  lemma SpecializedHasMeans(actions: seq<Action>, w: nat, name: string)
    requires Permitted(actions) && w in After(actions)
    ensures var x := After(actions)[w];
            && Iterable(x)
            && ((SpecializedHas(x, name) <==> PrivateQueryInterface(x.view, name).Some?)
                <==> name in x.specialization || !Stale(actions, w, name))
  {
    hide Faithful, Offered, After, Known, Stale, HasInterface;
    var x := After(actions)[w];
    SpecializedAccess(actions, w, name);
    HasInterfaceMeans(actions, w, name);
    BaseIsListed(name, x.specialization);
    if |x.specialization| == 1 {
      assert name in x.specialization <==> x.specialization[0] == name;
    }
  }

  /** A wrapper specialised for "S" that holds a plugin without "S". */
  lemma HasInterfaceCountsNull()
    ensures var info := Info("P", {}, map["I" := 0], {}); var actions := [New(0, ["S"]), Create(0, Some(info), 0)];
            && Permitted(actions) && 0 in After(actions) && Stale(actions, 0, "S")
            && HasInterface(After(actions)[0].view, "S", false) && PrivateQueryInterface(After(actions)[0].view, "S") == None
            && Iterable(After(actions)[0]) && !SpecializedHas(After(actions)[0], "S")
  {
    var info := Info("P", {}, map["I" := 0], {});
    var actions := [New(0, ["S"]), Create(0, Some(info), 0)];
    assert actions[..1] == [New(0, ["S"])] && actions[..1][..0] == [];
    assert ["S"][..0] == [];
    assert Leaves(["S"]) == View(map["S" := None], None, None);
    assert After(actions[..1]) == map[0 := Wrapper(Leaves(["S"]), ["S"])];
    assert "S"[0] != "I"[0];
    assert "S" in (set n | n in ["S"]);
    hide Known;
    LifeKeeps(actions, 0);
  }

  /** Assigning a wrapper to itself is clearing it: afterwards no query finds anything. */
  lemma CopySelfEmpties(actions: seq<Action>, w: nat, name: string)
    requires Permitted(actions) && w in After(actions)
    ensures var again := actions + [Copy(w, w)];
            && Permitted(again) && After(again) == Acted(After(actions), Clear(w))
            && PrivateQueryInterface(After(again)[w].view, name) == None
            && Known(again, w) == Known(actions, w)
  {
    hide Known, Permitted, After;
    var again := actions + [Copy(w, w)];
    assert again[..|again| - 1] == actions;
    OneMore(again);
    var v := After(actions)[w].view;
    assert ViewCopied(v, ViewCleared(v)) == ViewCleared(v);
  }

  lemma OneMore(actions: seq<Action>)
    requires actions != [] && Permitted(actions[..|actions| - 1])
    requires Allowed(After(actions[..|actions| - 1]), actions[|actions| - 1])
    ensures Permitted(actions) && After(actions) == Acted(After(actions[..|actions| - 1]), actions[|actions| - 1])
    ensures forall w | actions[|actions| - 1] == Copy(w, w) :: Known(actions, w) == Known(actions[..|actions| - 1], w)
  {
  }
}
