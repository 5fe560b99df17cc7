# Verified model of gz-plugin

A Dafny model of the plugin library and of self-contained algorithms next to it, with proofs.

**The plugin and library lifetime protocol.** `Runtime` models the two kinds of counts that the
library is written against: the `dlopen` counter of each mapped library and the control blocks of
`std::shared_ptr`. The heap records next to each count what is counted, and its invariant says that
they agree. Running code (a call, a cast, a deleter, the destruction of a `std::function`) of a
library that is not mapped sets a fault flag. A handle may be reused by the system after its library
was unloaded; a mapping is told apart from later ones at the same handle by an image number.
`LoaderSteps`, `Plugins` and `Products` say what each operation of `Loader`, `Plugin`,
`WeakPluginPtr` and the factories does to the references; `Lifetime` puts them together as a state
machine with any number of Loaders, wrappers, interface pointers, weak references and products, in
any order of steps, next to an application that opens and closes libraries itself. `Order` and
`Safety` prove for single steps, and `Runs`, `WeakReferences`, `Ledger` and `LoadForget` for whole
runs, when the tables agree, when everything that runs is loaded, and what is conserved. Conservation
of counts needs nothing but the invariant `Base`, which every step keeps; that an instance has a
reference to its own library (`Tied`) is kept apart from it, because a name clash can break it, and is
used only where dead code is discussed. `Effects` and `DeadCode` say of every single step, in any
reachable state, what it leaves behind and when it runs code that is not there, without the functions
that the state machine is made of. `Answers` says what the registries answer in terms of the
registrations. `Hazards` has the concrete runs in which the code does go
wrong. `Pools` follows the maps of interfaces of all wrappers of a program.

Where the code does not keep its own promises, the theorems say exactly when it does: a step from a
safe state is safe if and only if it is not one of five kinds of steps (a `LoadLib` that clashes, a
`Clear` or assignment that destroys the last instance before the last Info, a `Lock` or a `Construct`
on a plugin of which one half is dead, a clean-up during a plain delete), and each of these is
decided by the reference counts before the step.

The code is followed where its comments say otherwise. The note at core/src/Plugin.cc:282-302 wants
the Info of a wrapper to go before the instance, and the destructor does so, but `Clear` (lines
113-114) does the opposite. The branch of core/src/Plugin.cc:236-248 that "should never happen" is
reachable, because an interface pointer keeps an instance but not its Info. `HasInterface` with a
mangled name counts map keys, null entries included; `Pools` says for which names that makes it wrong. The polynomial systems add the initial time
twice, once in the initial state and once in every formula, which the exactness results take as it is.

**The classes.** `Registries`, `Registration`, `Wrappers`, `WeakPointers`, `Factories` and `Loaders`
have the classes of the library with their fields, loops and updates in place; their methods are
proved equal to the functions that the state machine is made of. Shared pointers are slots of the
heap; where C++ iterates over an unordered container, the method takes any order, and a ghost result
says which it was.

**The integrators.** `Integrators`, `Polynomials` and `Circular` treat the example integrators over
the real numbers.

**Algorithms of the vendored gtest.** `SimpleRegex`, `Utf8`, `Decimal128`, `StringLiterals` and
`Shuffling`.

Assumptions, all stated as preconditions: within one library plugin names are distinct and not empty;
where a theorem needs it, distinct libraries export disjoint names; demangling is an injective
function; casts of one plugin type to one interface are the same function wherever they are
registered; strings given to the regular expression matcher have no NUL inside and can be indexed by
`size_t`.

## Model

| member | source | states |
|---|---|---|
| `Safety.SafeStep` | core/src/Plugin.cc:78-104 | From a safe state (tables agree, nothing dead was run, no impossible branch taken, wrappers pinned, plain deletes guarded) an arbitrary step of the program leads to a safe state if and only if it is none of the hazardous steps, each of which is decided by looking at the state before the step |
| `Safety.FailsExactly` | core/src/Plugin.cc:81-104 | A step from a safe state runs code of a library that is gone, or takes an impossible branch, if and only if it is a Clear or an assignment in the hazardous case, a Lock on an instance whose Info is dead, or a Construct whose factory has lost its Info; the other hazards (a clash, a clean-up during a plain delete, a Lock on a dead instance) do their damage later |
| `Runs.SafeRuns` | core/src/Plugin.cc:282-302 | For every catalogue of libraries, every safe state and every sequence of steps: all states of the run are safe if and only if no step is hazardous when its turn comes |
| `Runs.SafeProgram` | loader/src/Loader.cc:66-87 | A program that starts from nothing and avoids the hazards never calls, casts or destroys an instance or an Info whose library is not loaded, and never takes a branch marked "should not be possible" or "should never happen" |
| `DeadCode.FaultsExactly` | core/src/Plugin.cc:28-104 | In every reachable state, after name clashes and other hazards too: any step faults if and only if the factory, cast, deleter, destructor or method that it runs is in a mapping that is gone, with the code and the moment named for each kind of step; for the steps that give references back in a loop that is some round of the loop |
| `DeadCode.CallFaultsExactly` | core/src/Plugin.cc:28-47 | A call on an instance, through a wrapper or an interface pointer, faults if and only if the code of the instance is not mapped |
| `DeadCode.GoneForGood` | loader/src/Loader.cc:479-506 | Code whose mapping is gone never counts as loaded again in any run, whatever is mapped later at the same handle or from the same file |
| `Effects.PointerStepEffect` | core/src/Plugin.cc:111-221 | What every wrapper and interface pointer holds after a copy, a clear, a destruction, a query for a shared interface pointer (given exactly when the plugin offers the interface), a copy or a reset of such a pointer, or a call; everything else is as it was |
| `Effects.MakeStepEffect` | loader/src/Loader.cc:276-308 | Instantiate makes a new instance with the code and Info of the plugin and a reference to the library that the Loader has for its name, introduces it to itself exactly when it offers that interface, and takes the impossible branch exactly when the Loader does not know the name |
| `Effects.WeakStepEffect` | core/src/WeakPluginPtr.cc:74-100 | A weak reference takes what the wrapper holds; Lock fills each half of the wrapper exactly when that object is alive, and takes the impossible branch exactly when it finds the instance but not the Info |
| `Effects.ProductStepEffect` | core/src/Factory.cc:60-94 | Who holds the factory after each step in the life of a product, and which products are alive, being deleted, deleted or lost |
| `Effects.ConstructBreaksExactly` | core/include/gz/plugin/detail/Factory.hh:135-143 | Construct takes the impossible branch exactly when the weak pointers of the factory find its instance but not its Info |
| `Effects.LoaderStepEffect` | loader/src/Loader.cc:146-188 | After a load each plugin of the library is known with this library, and with this Info unless it had one; after forgetting or destroying exactly the listed pointers and names are gone; other names, handles and Loaders are as they were |
| `Effects.ExternalStepEffect` | loader/src/Loader.cc:320-332 | The application's own dlopen and dlclose move one count of one handle by one |
| `Runtime.DlopenAnswers` | loader/src/Loader.cc:449-458 | A library that is mapped is given its handle, and any other library any handle that is free, used before or not |
| `Effects.AlwaysPossible` | core/include/gz/plugin/detail/PluginPtr.hh:33-188 | The state machine forbids nothing that the API allows: wrappers and interface pointers may be copied, cleared, destroyed, called and observed in any state, and new ones made whenever an unused wrapper or pointer is at hand |
| `Effects.ProductsPossible` | core/include/gz/plugin/detail/Factory.hh:66-143 | A factory that knows itself may construct in any state, and a living product may be called or deleted either way |
| `Effects.LoadersPossible` | loader/src/Loader.cc:146-188 | Any library may be loaded, any loaded one forgotten and any known plugin instantiated in any state |
| `Order.OrderlyStep` | loader/src/Loader.cc:166-185 | If the tables of all Loaders agree before a step, they agree after it if and only if the step is not a LoadLib that clashes with a name the Loader knows from elsewhere |
| `Order.DisjointNeverClashes` | loader/src/Loader.cc:176-182 | When no two libraries export one name, no LoadLib clashes, even though handles may be reused and libraries unloaded and mapped again |
| `Runs.OrderlyProgram` | loader/src/Loader.cc:359-427 | With disjoint libraries the plugin table, the table from names to library pointers and the table from handles to names of every Loader agree in every run, hazardous or not |
| `Runs.InstantiateSucceeds` | loader/src/Loader.cc:276-308 | In every run with disjoint libraries, Instantiate of a name or alias that resolves never takes an impossible branch and yields an instance and an Info of the plugin it resolves to, with the library loaded |
| `Runs.ConservedProgram` | loader/src/Loader.cc:479-522 | In every run of any program, after name clashes and after every other hazard too: each handle's dlopen count is what the application itself owes plus the number of live control blocks for that handle; each control block's count is the number of its holders and positive; a Loader has at most one live block per handle |
| `Runs.Conserved` | loader/src/Loader.cc:93-103 | The same as a consequence of the invariant that every step keeps |
| `Runs.OpenWhileNeeded` | core/src/Plugin.cc:28-47 | In every state with the invariant a library is mapped if and only if the application has it open, a Loader remembers a plugin of it, or a wrapper, interface pointer, product or lost product holds an instance that has a reference to it |
| `Runs.OpenWhileNeededProgram` | core/src/Plugin.cc:28-47 | So it is at the end of every run |
| `Runs.UsesOwnLibrary` | core/src/Plugin.cc:28-47 | While the tables agree, the library that a held instance has a reference to is the one its own code is in |
| `Runs.NothingLeaks` | loader/src/Loader.cc:320-334 | When the program has let go of all Loaders, wrappers, pointers and products, no control block is left and every dlopen has had its dlclose |
| `Runs.NothingLeaksProgram` | loader/src/Loader.cc:320-334 | So it is at the end of every run that lets go of everything, whatever it did before |
| `Steps.BaseStep` | loader/src/Loader.cc:479-522 | Every step of a program, hazardous or not and whatever the plugins are called, keeps the invariant that the account of references follows from |
| `Steps.WrapperStepFrame` | core/include/gz/plugin/detail/PluginPtr.hh:33-188 | Every step on wrappers, interface pointers and weak references, and every dlopen or dlclose of the application, keeps the invariant and changes only the references it says it changes |
| `Steps.ProductStepFrame` | core/include/gz/plugin/detail/Factory.hh:66-143 | Every step on products keeps the invariant and changes only the references it says it changes |
| `Order.LoadOrderly` | loader/src/Loader.cc:146-188 | LoadLib without a clash keeps the agreement of the tables of all Loaders |
| `Order.ClashDisorders` | loader/src/Loader.cc:176-182 | LoadLib with a clash always leaves a name whose Info and library pointer belong to different libraries or mappings |
| `Order.ForgetOrderly` | loader/src/Loader.cc:635-670 | Forgetting a library keeps the agreement of the tables of all Loaders |
| `Order.DestroyLoaderFrame` | loader/src/Loader.cc:66-87 | Destroying a Loader, the registry first and the library pointers last, runs no dead code when the tables agree |
| `Agreement.LoadedAgrees` | loader/src/Loader.cc:176-186 | After a load without clash every plugin of the registry is listed for the handle of its library, with the Info that library exports, and every listed name is a plugin whose library has that handle |
| `Agreement.AgreesForgotten` | loader/src/Loader.cc:641-663 | The same after forgetting, in whatever order the names are traversed |
| `Safety.ClearCalm` | core/src/Plugin.cc:111-124 | Clear is safe if and only if it is not the case that the wrapper holds the last reference to its Info and its instance is the last to keep the library open; destroying the wrapper is always safe |
| `Safety.CopyCalm` | core/src/Plugin.cc:192-221 | Assigning a wrapper is safe under exactly the condition of Clear on the target |
| `Safety.LockCalm` | core/src/WeakPluginPtr.cc:82-100 | Lock is safe if and only if not only one of instance and (library) Info is alive |
| `Safety.ConstructCalm` | core/include/gz/plugin/detail/Factory.hh:135-143 | Construct is safe if and only if the Info of the factory is still alive |
| `Safety.CleanupCalm` | core/src/Factory.cc:84-94 | CleanupLostProducts is safe if and only if no plain delete of a product from a library is under way |
| `Safety.LeaveCalm` | core/src/Factory.cc:60-81 | Leaving the destructor of a product is safe while lostProducts has its reference |
| `Hazards.ClearRunsDeadCode` | core/src/Plugin.cc:113-114 | A concrete run: after the Loader is gone, Clear on the last wrapper destroys the Info after its library was closed |
| `Hazards.ClashRunsDeadCode` | loader/src/detail/Registry.cc:224-225 | A concrete run: after a name clash the Loader destroys an Info whose library it has closed |
| `Hazards.CallRunsDeadCode` | loader/src/Loader.cc:176-182 | A concrete run: after a name clash an instance has a reference to the wrong library; the application closes the right one, without a fault so far, and a call on the instance runs code that is gone |
| `Hazards.LockRunsDeadCode` | core/src/WeakPluginPtr.cc:89-99 | A concrete run: Lock after the instance died gives a wrapper whose Info outlives the library |
| `Hazards.ConstructTakesImpossibleBranch` | core/src/Plugin.cc:234-248 | A concrete run: an interface pointer keeps a factory but not its Info, and Construct takes the branch that "should never happen" |
| `Hazards.CleanupRunsDeadCode` | core/src/Factory.cc:84-94 | A concrete run: a clean-up between the release of a product's reference and the end of its destructor unmaps the code of the destructor |
| `Runtime.DropInstanceFacts` | core/src/Plugin.cc:49-104 | Resetting a reference to an instance keeps the heap well-formed; the last one runs the deleter while the library is open and then gives back the instance's reference to the library |
| `Runtime.DropInstanceLoaded` | core/src/Plugin.cc:81-104 | While every instance has a reference to its own library: destroying an instance unmaps no other library, and its own exactly when it held the last reference and nobody else has it open |
| `Runtime.InstanceLoaded` | core/src/Plugin.cc:28-47 | While an instance is alive that has a reference to its own library, its code is loaded |
| `Runtime.OpenClose` | loader/src/Loader.cc:320-332 | dlopen directly followed by dlclose changes nothing on an open handle |
| `LoaderSteps.LoadedFacts` | loader/src/Loader.cc:146-188 | LoadLib keeps the heap well-formed, runs no dead code, gives every delivered name this library and, unless it had one, the delivered Info, and changes no other reference |
| `LoaderSteps.ForgetPluginsFacts` | loader/src/Loader.cc:641-655 | Forgetting erases exactly the references of the listed names, Info before library, and runs no dead code when each Info belongs to its library |
| `Plugins.ClearFaults` | core/src/Plugin.cc:111-124 | While the wrapper is pinned and instances have references to their own libraries, Clear runs dead code exactly in the hazardous case |
| `Plugins.DestroyedFaults` | core/src/Plugin.cc:278-302 | Under the same conditions the order in which the members are destroyed never runs dead code |
| `Plugins.CreatedFrame` | core/src/Plugin.cc:134-188 | Create, for an Info and a library of the same mapping or not, writes only the wrapper and the library reference of the new instance; for the same mapping it runs no dead code and the instance is tied to its own library |
| `Plugins.CopiedFrame` | core/src/Plugin.cc:192-221 | After Copy the target holds what the source held, and nothing when it is the source itself; no other reference changes |
| `Plugins.LockedFrame` | core/src/Plugin.cc:228-260 | Copy from an Info and an instance fills each half of a fresh wrapper exactly when that object is alive |
| `Loaders.Loader.LoadLib` | loader/src/Loader.cc:146-188 | The method with its loops produces exactly the tables and references that the whole-run theorems are about, returns the names of the delivered plugins, and does nothing when dlopen fails; a plugin that was not known is stored under its demangled name with the delivered aliases and casts and with the demangled names of all its interfaces, and a known one is kept |
| `Loaders.Loader.OpenLibrary` | loader/src/Loader.cc:430-523 | Calling dlopen and then undoing it when the weak pointer of the handle is still alive, or else making a new control block |
| `Loaders.Loader.AddEach` | loader/src/Loader.cc:166-185 | The loop over the delivered Infos |
| `Loaders.Loader.ForgetHandle` | loader/src/Loader.cc:635-670 | The loop over the names of a handle, in any order of the set |
| `Loaders.Loader.ForgetLibrary` | loader/src/Loader.cc:311-335 | Finds the handle of a mapped library, undoes the dlopen, and forgets its plugins; fails, changing nothing, exactly when this Loader has nothing for the library |
| `Loaders.Loader.ForgetLibraryOfPlugin` | loader/src/Loader.cc:338-349 | Resolves the name, file plugins first, and forgets the library of a plugin that came from a file |
| `Loaders.Loader.LookupPlugin` | loader/src/Loader.cc:253-273 | What the registry of file plugins resolves wins; otherwise what the static registry resolves, the empty string included |
| `Loaders.Loader.FromFile` | loader/src/Loader.cc:288-293 | Makes the wrapper of a file plugin from its stored Info and library pointer, and takes the impossible branch exactly when the name is not in the registry |
| `Loaders.Loader.Instantiate` | loader/src/Loader.cc:276-308 | For every Loader, after a clash too: gives a non-empty wrapper exactly when LookupPlugin is not empty and no impossible branch is taken, of the plugin whose name LookupPlugin answers, a file plugin whenever the file registry resolves the string, saying exactly the interfaces its Info offers; an impossible branch is taken exactly when an alias leads to a name that its registry does not know, and never while the alias indices are exact; the instance is introduced to itself exactly when it offers that interface; the Loader stays valid |
| `Registries.Registry.AddInfo` | loader/src/detail/Registry.cc:220-228 | Adds the aliases to the index and the Info unless its name is known |
| `Registries.Registry.ForgetInfo` | loader/src/detail/Registry.cc:231-240 | Erases the name from the index entries of its aliases and from the table; the lookup with at() never fails |
| `Registries.LookupIn` | loader/src/detail/Registry.cc:168-198 | A name resolves to itself, an alias to the only entry of the index, anything else to the empty string |
| `Registries.Registry.WithAlias` | loader/src/detail/Registry.cc:137-153 | The index entry, and the string itself when it is a name |
| `Registries.Registry.Implementing` | loader/src/detail/Registry.cc:109-134 | The stored plugins that have the string among their demangled interface names, or among the keys of their casts |
| `Answers.StaticAnswers` | loader/src/detail/StaticRegistry.cc:45-91 | For every sequence of registrations: the static registry finds a plugin by an interface exactly when some registration for that name brought it, by its mangled name or by the demangled one; it lists exactly the demangled names of all of them; aliases likewise; and a string resolves to the plugin of that name, or else to the only plugin it is an alias of, or else to nothing |
| `Answers.LoadedAnswers` | loader/src/Loader.cc:166-185 | The same for a Loader after loading a library, in terms of what the library delivered |
| `Answers.SpellingsAgree` | loader/src/detail/Registry.cc:109-134 | An interface is implemented by the same plugins under its mangled and its demangled name |
| `Registries.Registry.Interfaces` | loader/src/detail/Registry.cc:95-106 | All demangled interface names of all plugins |
| `Registries.AddKeepsExact` | loader/src/detail/Registry.cc:220-228 | Adding keeps the alias index the exact inverse of the stored alias sets if and only if a re-added name brings no alias that the stored Info lacks |
| `Registries.StaleAlias` | loader/src/detail/Registry.cc:221-225 | A concrete sequence: a name added twice with different aliases and then forgotten leaves an alias that resolves to a plugin that is not there |
| `Registries.ForgetKeepsExact` | loader/src/detail/Registry.cc:231-240 | Forgetting keeps the index exact |
| `Registries.QueriesMean` | loader/src/detail/Registry.cc:137-198 | With an exact index the queries are functions of the stored plugins alone: who bears a string as name or alias |
| `Registries.LookupFinds` | loader/src/detail/Registry.cc:168-198 | A string resolves if and only if it is a name or has exactly one bearer, and then to a plugin of the table that bears it |
| `Registries.LoadThenForget` | loader/src/Loader.cc:641-655 | Forgetting what was just added restores every answer to every query for every string, including aliases that had become ambiguous |
| `Registries.LoadTwice` | loader/src/detail/Registry.cc:220-228 | Adding the same Infos again, in any order, changes no answer |
| `LoadForget.LoadForgetRestores` | loader/src/Loader.cc:635-670 | For the whole program state: LoadLib of a library that is not remembered, then ForgetLibrary, restores every answer of the registry, every reference count and every dlopen count |
| `LoadForget.LoadAgainKeeps` | loader/src/Loader.cc:479-506 | LoadLib of a library of which the Loader remembers some plugin, in any state whose tables agree and whose handles list all plugins of their libraries: gets the same handle and changes no answer, no reference count and no dlopen count |
| `LoadForget.LoadAgainKeepsProgram` | loader/src/Loader.cc:479-506 | So it is at any moment of any run with disjoint libraries, however long ago the library was loaded |
| `LoadForget.RemembersStep` | loader/src/Loader.cc:185 | Every step without a clash keeps it that a handle for which a Loader lists any plugin is open and lists exactly the plugins that the library there exports, and that the library pointers of a Loader are its own blocks |
| `Registration.PluginHook.Input` | register/include/gz/plugin/detail/Register.hh:135-163 | Accumulates one registration: a new name is inserted; a known one gets the casts and aliases it lacks, and no cast that it has is replaced; other plugins are as they were |
| `Registration.StaticRegistry.AddInfo` | loader/src/detail/StaticRegistry.cc:45-91 | The same in the static registry, under the demangled name and with the alias index; the demangled name of every interface that is brought is added, and no other |
| `Registration.StaticAddKeepsExact` | loader/src/detail/StaticRegistry.cc:45-91 | The static registry keeps its alias index exact whatever is added |
| `Registration.HookCollects` | register/include/gz/plugin/detail/Register.hh:135-163 | After any compatible registrations the hook holds for each name exactly the casts and aliases that some registration brought |
| `Registration.HookOrder` | register/include/gz/plugin/detail/Register.hh:135-163 | Neither the order nor the repetition of registrations matters to the hook |
| `Registration.StaticOrder` | loader/src/detail/StaticRegistry.cc:45-91 | Neither matters to the static registry, for any query |
| `Registration.StaticAndDynamicAgree` | loader/src/Loader.cc:166-185 | Registrations accumulated by the hook and loaded answer every query like the same registrations made in the static registry, for an injective demangling |
| `Pools.LifeKeeps` | core/src/Plugin.cc:116-123 | For a pool of wrappers that start empty and are made, filled, cleared, copied from one another or from themselves, asked for iterators and locked, in any order: every wrapper has exactly the keys it has ever had to do with, its specialised interfaces among them, and every entry is non-null exactly when the instance is there and its Info offers the interface, with the location that the cast gives |
| `Pools.IteratorsValid` | core/src/Plugin.cc:116-121 | Between any two moments no entry of any wrapper is removed, so that no iterator is invalidated |
| `Pools.SpecializedAccess` | core/include/gz/plugin/detail/SpecializedPlugin.hh:104-164 | For every wrapper of such a pool and every list of specialised interfaces: the cached iterators are valid and every query, dispatched at compile time, equals the generic query, which finds an interface exactly when the instance is there and its Info offers it |
| `Pools.BaseIsListed` | core/include/gz/plugin/detail/SpecializedPlugin.hh:184-199 | The recursion over base classes finds the leaf of an interface exactly when the interface is in the list |
| `Pools.HasInterfaceMeans` | core/src/Plugin.cc:306-320 | HasInterface without demangling differs from the query if and only if the wrapper has an Info, knows the name from its specialisation, an iterator, or a plugin made, locked or copied in at any time of its life, and its present plugin does not offer it |
| `Pools.DemangledHasMeans` | core/src/Plugin.cc:306-320 | HasInterface with the demangled name is true exactly for the interfaces of a registered plugin, whatever the wrapper has been through, and so agrees with the query by the mangled name unless the plugin offers the interface and only its Info is there |
| `Wrappers.Plugin.HasInterface` | core/src/Plugin.cc:306-320 | By default the demangled names of the Info are asked, otherwise the keys of the map; nothing without an Info |
| `Pools.SpecializedHasMeans` | core/include/gz/plugin/detail/SpecializedPlugin.hh:136-153 | The specialised HasInterface agrees with the query if and only if the interface is one the wrapper is specialised for or the generic one is right |
| `Pools.HasInterfaceCountsNull` | core/src/Plugin.cc:319 | A concrete wrapper that claims to have a specialised interface which its plugin does not offer, while its leaf knows better |
| `Wrappers.LockedFaithful` | core/src/Plugin.cc:228-260 | Copy from an Info and an instance leaves a faithful map if and only if no entry of an earlier instance survives, which always holds on a fresh wrapper |
| `Wrappers.Plugin.Clear` | core/src/Plugin.cc:111-124 | Drops the instance and then the Info, and nulls every entry without removing a key |
| `Wrappers.Plugin.Create` | core/src/Plugin.cc:134-188 | Makes an instance that owns a reference to the library, whether that is the library of the Info or not, and fills the map with the casts of the Info |
| `Wrappers.Plugin.CreateStatic` | core/src/Plugin.cc:372-376 | The same for a static plugin, with its own copy of the Info |
| `Wrappers.Plugin.Copy` | core/src/Plugin.cc:192-221 | Copies references and entries of another wrapper; on itself it empties the wrapper |
| `Pools.CopySelfEmpties` | core/src/Plugin.cc:192-204 | Assigning a wrapper to itself is clearing it: no query finds anything, no key goes, and no other wrapper changes |
| `Wrappers.Plugin.CopyParts` | core/src/Plugin.cc:228-260 | Fills a wrapper from what two weak pointers gave, and tells whether the branch for a missing Info was taken |
| `Wrappers.Plugin.GetOrCreateIterator` | core/src/Plugin.cc:392-399 | Inserts a null entry unless the key exists; never overwrites |
| `WeakPointers.WeakPluginPtr.Assign` | core/src/WeakPluginPtr.cc:74-79 | Takes weak references to the two objects of a wrapper |
| `WeakPointers.WeakPluginPtr.Lock` | core/src/WeakPluginPtr.cc:82-100 | Gives a wrapper that says exactly what the objects offer that are still alive |
| `WeakPointers.WeakPluginPtr.IsExpired` | core/src/WeakPluginPtr.cc:103-114 | True exactly when one of the two objects is dead |
| `WeakReferences.CoupledStep` | core/src/WeakPluginPtr.cc:74-79 | Every step, hazardous or not, keeps it that all wrappers and weak references with one instance have one Info |
| `WeakReferences.LockRoundTrip` | core/src/WeakPluginPtr.cc:82-100 | In every run: while some wrapper with its Info holds the instance of a weak reference, Lock gives a wrapper equal to it, with the same answer for every interface name, and takes no impossible branch; if no two libraries export one name it also runs no dead code |
| `WeakReferences.ExpiredStays` | core/src/WeakPluginPtr.cc:103-114 | Once the instance is dead, the reference stays expired however the program goes on, until it is assigned again, and Lock gives a wrapper without instance that answers no query |
| `WeakReferences.ExpiredStaysProgram` | core/src/WeakPluginPtr.cc:103-114 | So it is between any two moments of any run |
| `Ledger.LostCount` | core/src/Factory.cc:96-100 | In every run LostProductCount is the number of plain deletes since the last clean-up |
| `Ledger.FactoryReferences` | core/include/gz/plugin/detail/Factory.hh:135-143 | A factory's reference count is the number of its users plus one for each product that is not destroyed plus one for each lost product |
| `Ledger.FactoryReferencesProgram` | core/src/Factory.cc:60-81 | The same at the end of every run |
| `Ledger.DestructorsRunLoaded` | core/src/Factory.cc:60-94 | In every run with disjoint libraries, hazardous otherwise or not: if no clean-up falls inside a plain delete, every step of every delete, by ProductDeleter or plain, runs in a loaded library |
| `Products.DeletedFrame` | core/include/gz/plugin/detail/Factory.hh:66-85 | ProductDeleter gives back the reference of the product and no other, after the product was destroyed; while instances have references to their own libraries it runs no dead code |
| `Factories.LostProductManager.Delete` | core/include/gz/plugin/detail/Factory.hh:66-85 | The deleter with its swap hands nothing to lostProducts |
| `Factories.LostProductManager.CounterDestroyed` | core/src/Factory.cc:60-81 | The destructor of FactoryCounter hands a reference it still has to lostProducts |
| `Factories.LostProductManager.CleanupLostProducts` | core/src/Factory.cc:84-94 | Gives back all references of lostProducts in order |
| `Integrators.Add` | examples/plugins/RungeKutta4.cc:30-42 | The loop computes the componentwise sum |
| `Integrators.Times` | examples/plugins/RungeKutta4.cc:45-53 | The loop computes the scaled vector |
| `Integrators.Integrator.SetTimeStep` | examples/plugins/RungeKutta4.cc:66-73 | Accepts exactly the positive steps and leaves the old one in force otherwise |
| `Integrators.RungeKutta` | examples/plugins/RungeKutta4.cc:82-97 | The nested expression is the classical tableau |
| `Integrators.Integrator.Integrate` | examples/plugins/ForwardEuler.cc:82-89 | One step of the chosen scheme |
| `Integrators.TestIntegrator` | examples/integrators.cc:106-117 | The loop ends at the time and with the state of the n-step function of the scheme |
| `Polynomials.RungeKuttaStepExact` | examples/plugins/RungeKutta4.cc:82-97 | One Runge-Kutta step from an exact state is exact on all four systems |
| `Polynomials.RungeKuttaExact` | examples/plugins/PolynomialODE.cc:32-172 | For all parameters, steps and step counts the Runge-Kutta state is exact(time) on all four polynomial systems |
| `Polynomials.EulerLags` | examples/plugins/PolynomialODE.cc:32-92 | For all parameters, steps and step counts Forward Euler lags behind the exact position by n a h^2 / 2 on both parabolic systems, with the velocity of the system exact |
| `Circular.StepGrows` | examples/plugins/ExponentialODE.cc:81-86 | One step multiplies the squared radius by 1 - z^6/72 + z^8/576 (Runge-Kutta) or 1 + z^2 (Euler), z = w h |
| `Circular.StepsGrow` | examples/integrators.cc:113-117 | n steps multiply it by the n-th power |
| `Circular.RungeKuttaStable` | examples/plugins/RungeKutta4.cc:90-96 | The radius that Runge-Kutta computes does not grow if and only if z^2 <= 8 |
| `Circular.EulerGrows` | examples/plugins/ForwardEuler.cc:82-89 | The radius that Euler computes grows if and only if z is not 0 |
| `SimpleRegex.ValidateRegex` | test/gtest_vendor/src/gtest-port.cc:791-842 | The loop accepts exactly what the recursive acceptor accepts, null included |
| `SimpleRegex.ValidMeans` | test/gtest_vendor/src/gtest-port.cc:791-842 | A string is accepted if and only if it is an optional caret, atoms with or without a repetition, and an optional dollar |
| `SimpleRegex.RenderUnique` | test/gtest_vendor/src/gtest-port.cc:791-842 | An accepted string has one reading only |
| `SimpleRegex.MatchRepetitionAndRegexAtHead` | test/gtest_vendor/src/gtest-port.cc:851-870 | The loop with its two bounds answers whether a prefix is in the language of the repeated atom followed by the rest |
| `SimpleRegex.MatchRegexAtHead` | test/gtest_vendor/src/gtest-port.cc:875-898 | Answers whether a prefix is in the language, and the mutual recursion terminates |
| `SimpleRegex.MatchRegexAnywhere` | test/gtest_vendor/src/gtest-port.cc:909-919 | For every valid expression: true exactly when some substring is in its language, which is built from listed characters and not from the tests of the matcher, at the start for a caret and at the end for a dollar |
| `SimpleRegex.AtomMeans` | test/gtest_vendor/src/gtest-port.cc:750-779 | The character test is membership in the class that the atom stands for, with the ten digits, the 52 letters, the six white-space and the 32 punctuation characters listed one by one |
| `SimpleRegex.EscapesListed` | test/gtest_vendor/src/gtest-port.cc:743-746 | What may follow a backslash are the listed punctuation characters and class letters |
| `Utf8.IsValidUTF8` | test/gtest_vendor/src/gtest-printers.cc:481-512 | The loop accepts exactly what the recursive validator accepts, and reads no byte at or behind the length |
| `Utf8.ValidMeans` | test/gtest_vendor/src/gtest-printers.cc:481-512 | A byte string is accepted if and only if it is a concatenation of encodings of Unicode scalar values (RFC 3629) |
| `Utf8.DecodingUnique` | test/gtest_vendor/src/gtest-printers.cc:481-512 | It is so in one way only |
| `Utf8.EncodedCharacter` | test/gtest_vendor/src/gtest-printers.cc:487-508 | The encoding of a scalar value is taken as one character, whatever follows, and decodes to it |
| `Decimal128.DivideBy10` | test/gtest_vendor/src/gtest-printers.cc:305-316 | Both limbs and the digit of the long division, with every 64-bit operation proved not to overflow |
| `Decimal128.PrintUnsigned` | test/gtest_vendor/src/gtest-printers.cc:289-321 | Writes the decimal numeral of any 128-bit value, at most 39 digits in the 40-byte buffer |
| `Decimal128.PrintSigned` | test/gtest_vendor/src/gtest-printers.cc:322-329 | The same with a sign, the least value included |
| `Decimal128.NumeralReads` | test/gtest_vendor/src/gtest-printers.cc:305-318 | A numeral decodes to its number and has no leading zero |
| `Decimal128.NumeralUnique` | test/gtest_vendor/src/gtest-printers.cc:305-318 | Every string of digits without a leading zero is the numeral of the number it denotes |
| `Decimal128.SignedReads` | test/gtest_vendor/src/gtest-printers.cc:322-329 | What is printed for a signed value reads back as the value |
| `StringLiterals.PrintAsCharLiteralTo` | test/gtest_vendor/src/gtest-printers.cc:149-193 | The text and the format of each byte |
| `StringLiterals.PrintCharsAsStringTo` | test/gtest_vendor/src/gtest-printers.cc:337-360 | The loop prints the literal, breaking it after a hexadecimal escape that a digit follows; only printable characters come out, and a text of printable characters without quotes and backslashes comes out as it is |
| `StringLiterals.LiteralText` | test/gtest_vendor/src/gtest-printers.cc:149-193 | Each byte is printed as a two-character escape, as itself if it is between a space and a tilde, or as backslash, x and its upper-case hexadecimal number without leading zero |
| `StringLiterals.RoundTrip` | test/gtest_vendor/src/gtest-printers.cc:337-360 | Read as adjacent string literals, the text gives the bytes back if and only if no NUL is directly followed by an octal digit, and otherwise fewer bytes; what it gives is stated exactly |
| `StringLiterals.NulThenDigit` | test/gtest_vendor/src/gtest-printers.cc:152-154 | The shortest string that does not read back |
| `Shuffling.ShuffleRange` | test/gtest_vendor/src/gtest-internal-inl.h:302-322 | Outside the range nothing changes, and inside the result is the shuffle by the answers of the generator; a bad range is refused |
| `Shuffling.Permutes` | test/gtest_vendor/src/gtest-internal-inl.h:315-321 | The shuffle is a permutation |
| `Shuffling.LastIsChosen` | test/gtest_vendor/src/gtest-internal-inl.h:315-321 | The first answer of the generator says which element goes last, the last one takes its place, and the others are shuffled by the rest of the answers |
| `Shuffling.ChoicesUnique` | test/gtest_vendor/src/gtest-internal-inl.h:315-321 | Different answers of the generator give different permutations of distinct elements |
| `Shuffling.ChoicesExist` | test/gtest_vendor/src/gtest-internal-inl.h:315-321 | Every permutation is the result of some answers of the generator |

## Left out

- `dlopen` flags, path search, `dlerror` messages and RTLD_NODELETE: foreign calls; the answer of `dlopen` is a parameter, constrained to the handle of an existing mapping or to an unused one.
- The API version, size and alignment handshake of `LoadPlugins` and `GzPluginHook`: one-branch checks; the delivered Infos are a parameter.
- The control block of a stored Info is a slot of its Loader, not a field of the class `Registry`, whose tables hold the Info itself.
- A move of a `PluginPtr` hands over the wrapper object; in terms of wrapper objects it is the destruction of the target's old wrapper, so it has no step of its own. Comparison and hash of pointers compare instances and would add only easy members.
- Processes and threads: steps are interleaved one at a time, with a plain delete split in three steps; the wait in `CleanupLostProducts` is not modelled, only the interleavings it is meant to make unlikely.
- A product whose factory never learnt its own pointer (created without a Loader) holds no reference and is not tracked; nor is a pointer given to `ProductDeleter` that is no FactoryCounter.
- Wrappers.Plugin.CopyParts: for a fresh wrapper only, because `WeakPluginPtr::Lock`, its one caller, passes a fresh one; what the assignment of the two pointers does to an older content is not stated.
- Rounding: the integrators are treated over the reals. The two integrator plugins are one class with a tag, because they share everything but one method.
- `ComputeError` and the timing of `TestIntegrator`: the relative error divides by the exact value, which may be zero.
- The exponential and spiral systems, and the closed form of the circular one: transcendental; the circular results hold for every initial state.
- `PrettyStr`, messages on stderr, the command line tool, the robot example and the compile-time checks of const casts.
- `RE::FullMatch` and `RE::PartialMatch` around the matcher, the wide-character overloads of the string printer, and the random generator behind the shuffle, whose answers are a parameter.
- Everything else of the vendored gtest.
