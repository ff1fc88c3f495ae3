# coi: a verified model of the dependency-injection container

`coi` is a dependency-injection container for Rust. Services are registered under string
keys with a provider and a lifetime kind:

- Transient: a new instance on every resolve.
- Scoped: one instance per scope.
- Singleton: one instance for the container and every scope derived from it.

`resolve` looks the key up, checks the provider's output type, and calls the provider. The
provider resolves its own dependencies through the same container.

The repository holds three revisions of this container. They are modelled separately.

- **Current engine** (`src/container.rs`, `src/resolvable.rs`, `src/registration.rs`):
  - `CoiSpec` is the reference semantics. It gives one resolve at a time over a `View` of
    the resolve-once slots: `Unresolved`, `Building` or `Resolved(value)`.
  - `Coi` holds the imperative classes `Resolvable`, `Container` and `ContainerBuilder`.
    Each resolving method is proved to return what `CoiSpec` returns and to leave the slots
    as `CoiSpec` says.
  - `Lifetimes` proves the lifetime guarantees of the `RegistrationKind` documentation and
    of the integration tests.
- **Older engine** (`src/lib.rs`):
  - `LegacySpec` is the reference semantics. It models a container with its chain of
    ancestors: each level has its provider map and its cache of resolved instances.
  - `Legacy` holds the classes `Container` (with its link to the parent) and `ContainerBuilder`,
    proved against `LegacySpec`.
  - `LegacyLifetimes` proves the lifetime and lookup guarantees.
- **Oldest engine** (`coi/src/lib.rs`): `AsyncCoi` models a plain key → provider map with no
  cache. Its error type and `Display` text are the shared `Errors` module.

Shared across the engines:

- **Type tags.** Type erasure is replaced by a type tag next to every erased value and
  provider; a tag that differs is a `TypeMismatch`.
- **Instance ids.** `Arc` identity is replaced by instance ids from a counter
  (`Providers.Heap`), so "same instance" and "distinct instance" can be stated.
- **Providers.** A provider is an oracle in the shape the derive macro generates: an output
  tag, the dependencies it resolves in order, and an optional failure of its own.
- **Provider log.** A ghost log `invoked` records every provider call, in order.
- **Acyclic dependencies.** Registries with any dependency cycle are not modelled. When a
  resolve reaches a cycle, the crate reports no error. It blocks on a slot that is still
  BUILDING (a Singleton or Scoped key, src/resolvable.rs:77-80), or it recurses until the
  stack overflows (a cycle through Transient keys only, src/container.rs:60-63, and every
  cycle in the older engine, src/lib.rs:630). A type mismatch met on the way cuts the cycle
  first. Every resolve requires a `rank` map that drops along each registered dependency
  (`Ranked`). This condition covers the whole registry, so it also excludes registries whose
  cycle no resolve reaches.

## Model

| member | source | states |
|---|---|---|
| Errors.Display | coi/src/lib.rs:134-142 | each error's text starts with the prefix of its kind ("Key not found: ", "Type mismatch for key: ", "Inner error: ") and with no other kind's prefix, so the kind can be told from the text |
| Errors.Source | coi/src/lib.rs:144-151 | only `Inner` has an underlying cause; that cause is the text after "Inner error: " in the display |
| Errors.Parse | coi/src/lib.rs:134-142 | reads an error back from its text; whatever it returns displays as that text |
| Errors.ParseDisplay | coi/src/lib.rs:134-142 | `Display` is invertible: every error is read back from its displayed text |
| Errors.DisplayInjective | coi/src/lib.rs:229-243 | two different errors never display alike |
| Providers.Heap.Allocate | coi-derive/src/provides.rs:139 | `Arc::new`: an instance with an id never handed out before, holding the resolved dependencies |
| CoiSpec.Resolve | src/container.rs:38-65 | an unregistered key is `KeyNotFound` and touches nothing; a Transient provider of another type is `TypeMismatch` and is not called; otherwise a Transient resolve calls the provider and builds a new instance; every success has the requested type; the view stays consistent and only unresolved slots of lower or equal rank change |
| CoiSpec.SlotResolve | src/resolvable.rs:44-94 | a RESOLVED slot returns its stored value (or `TypeMismatch` for another type) and changes nothing; an UNRESOLVED slot calls the provider and ends RESOLVED with the returned value, or UNRESOLVED again after an error |
| CoiSpec.Settle | src/resolvable.rs:107-123 | the result is passed on unchanged; the slot becomes RESOLVED with the value or UNRESOLVED after an error |
| CoiSpec.ResolveInner | src/container.rs:67-92 | uses the provider map of the key's kind and is never reached for Transient; a success is a new instance of the requested type |
| CoiSpec.Provide | coi-derive/src/provides.rs:131-141 | the provider is logged first; a success is a new instance of its output type |
| CoiSpec.ResolveDeps | coi-derive/src/provides.rs:138 | the dependencies are resolved in order; on success one instance per dependency |
| CoiSpec.Built | src/container.rs:272-295 | one UNRESOLVED slot per Singleton and per Scoped provider; the view is consistent and idle |
| CoiSpec.ScopedView | src/container.rs:96-111 | the singleton slots are kept; every scoped key gets a fresh UNRESOLVED slot; consistency and idleness are preserved |
| CoiSpec.StartBuilding | src/resolvable.rs:53-61 | marking an UNRESOLVED slot BUILDING keeps the view consistent |
| CoiSpec.SettleConsistent | src/resolvable.rs:107-123 | settling a slot to UNRESOLVED, or to an allocated value, keeps the view consistent |
| Coi.Resolvable.constructor | src/resolvable.rs:37-42 | a new slot is UNRESOLVED with no item |
| Coi.Resolvable.Resolve | src/resolvable.rs:44-94 | returns exactly `CoiSpec.SlotResolve` and leaves the slots in its view; the container stays valid (marker in the three states, item present iff RESOLVED) |
| Coi.Resolvable.ResolveInner | src/resolvable.rs:97-124 | returns the container's `resolve_inner` result and settles this slot as `CoiSpec.Settle` says |
| Coi.Resolvable.Settle | src/resolvable.rs:107-123 | BUILDING → RESOLVED with the value stored, or BUILDING → UNRESOLVED after an error; no other slot changes |
| Coi.Container.Resolve | src/container.rs:38-65 | returns exactly `CoiSpec.Resolve`; the Singleton and Scoped lookups of the slot maps never fail on a built container |
| Coi.Container.ResolveInner | src/container.rs:67-92 | returns exactly `CoiSpec.ResolveInner`; the provider-map lookups never fail |
| Coi.Container.Provide | coi-derive/src/provides.rs:131-141 | returns exactly `CoiSpec.Provide` |
| Coi.Container.Construct | coi-derive/src/provides.rs:139 | the provider's own failure as `Inner`, or a new instance of its output type holding the dependencies |
| Coi.Container.ResolveDependencies | coi-derive/src/provides.rs:138 | the loop returns exactly `CoiSpec.ResolveDeps`, stopping at the first error |
| Coi.Container.Analyze | src/container.rs:161-187 | `Missing(from, to)` is reported exactly for each declared dependency `to` of a tracked `from` that is not tracked; the analysis passes iff there is none |
| Coi.Container.Scoped | src/container.rs:96-111 | the same registry and singleton slots, one fresh slot per scoped key; the view is `CoiSpec.ScopedView` of the parent's |
| Coi.FreshSlots | src/container.rs:273-283 | one fresh UNRESOLVED slot per key, no two shared |
| Coi.ContainerBuilder.constructor | src/container.rs:216-225 | every map starts empty |
| Coi.ContainerBuilder.Register | src/container.rs:229-234 | `register_as` with Transient |
| Coi.ContainerBuilder.RegisterAs | src/container.rs:238-258 | records the kind and inserts the provider into the map of that kind only; the other maps are unchanged; every key's provider stays where its kind says |
| Coi.ContainerBuilder.TrackDependencies | src/container.rs:263-269 | records the declared dependencies; the registry is unchanged |
| Coi.Container.constructor | src/container.rs:285-294 | the container holds exactly the registry maps, slot maps and dependency map it is given |
| Coi.ContainerBuilder.Build | src/container.rs:272-295 | the registry moves into a container whose slots are fresh and whose view is `CoiSpec.Built` |
| Lifetimes.NestedScopes | src/container.rs:96-111 | any number of nested `scoped()` calls keep the singleton slots and leave every scoped slot UNRESOLVED |
| Lifetimes.ResolvedAgain | src/registration.rs:20-26 | Singleton and Scoped: a second resolve in the same container returns the same instance and calls no provider |
| Lifetimes.SingletonAcrossScopes | src/registration.rs:27-36 | Singleton: through any chain of scopes the root's instance is returned and no provider is called |
| Lifetimes.SingletonSharedWithParentAndSiblings | src/registration.rs:27-36 | Singleton, scope first: after a scope resolves it, the container the scope came from and any sibling scope return the scope's instance and change nothing |
| Lifetimes.CachedSingleton | src/resolvable.rs:81-93 | a Singleton whose shared slot is RESOLVED to an instance of the requested type returns it and changes nothing |
| Lifetimes.SingletonFromScopeFirst | src/registration.rs:27-36 | on containers: a scope resolves a Singleton, then its parent, then a second scope of that parent; all three results are the same instance |
| Lifetimes.ResolveInFreshScope | src/container.rs:96-111 | `scoped()` then a resolve in the scope returns `CoiSpec.Resolve` on `CoiSpec.ScopedView` of the parent; the parent then shows the scope's singleton slots and allocator with its own scoped slots, unchanged |
| Lifetimes.ParentSeesScope | src/container.rs:96-111 | a container whose scoped slots are untouched, next to a valid scope sharing its singleton slots, is valid and shows the scope's singleton slots |
| Lifetimes.SlotsApart | src/container.rs:272-283 | a container's scoped slots are none of its singleton slots |
| Lifetimes.ScopedSlotsKept | src/container.rs:96-111 | scoped slots nothing wrote to still show the same cells and stay valid |
| Lifetimes.ScopedFreshInNewScope | src/registration.rs:66-75 | Scoped: a new scope calls the provider again and gets a different instance |
| Lifetimes.TransientDistinct | src/registration.rs:99-106 | Transient: every resolve calls the provider, and two resolves return distinct instances |
| Lifetimes.RetryAfterFailure | src/resolvable.rs:107-116 | a failed build leaves the slot UNRESOLVED, so the next resolve calls the provider again |
| Lifetimes.SlotBuild | src/resolvable.rs:53-62 | an UNRESOLVED slot goes BUILDING and returns what the key's provider returns |
| Lifetimes.DepsStep | coi-derive/src/provides.rs:138 | one resolved dependency continues the loop with that instance appended; its error stops the loop and is passed on |
| Lifetimes.TransientSeesScope | coi-test/tests/scoped.rs:202-219 | a transient needing an already-built scoped dependency holds that very instance |
| Lifetimes.SameScopeRegardlessOfNesting | coi-test/tests/scoped.rs:202-219 | a scoped service reaching a scoped dependency directly and through a transient sees the same instance both ways |
| Lifetimes.ProvidedParts | coi-derive/src/provides.rs:131-141 | a provider that succeeds holds exactly the instances its dependency loop produced |
| Lifetimes.DependenciesShareScope | coi-test/tests/scoped.rs:202-219 | in the dependency loop, the transient resolved second holds the scoped instance resolved first |
| Lifetimes.ScopedSlotFilled | src/resolvable.rs:44-94 | a Scoped key that resolved leaves its slot RESOLVED to the instance handed out |
| Lifetimes.SecondDependency | coi-test/tests/scoped.rs:202-219 | with the scoped dependency already built, the transient resolved second holds it and the loop ends with both |
| Lifetimes.KeyNotFoundIffUnregistered | src/container.rs:42-45 | `KeyNotFound(key)` is returned exactly when `key` has no registration |
| Lifetimes.ResolveMissingBelow | src/container.rs:38-65 | a `KeyNotFound` raised while resolving a registered key names a key lower in the dependency order |
| Lifetimes.SlotMissingBelow | src/resolvable.rs:44-94 | the same for a Singleton or Scoped slot |
| Lifetimes.ProvideMissingBelow | coi-derive/src/provides.rs:131-141 | the same for a provider call |
| Lifetimes.DepsMissingBelow | coi-derive/src/provides.rs:138 | the same for the dependency loop |
| Lifetimes.DepsMissingStep | coi-derive/src/provides.rs:138 | the same for one step of the dependency loop |
| LegacySpec.State.Parent | src/lib.rs:609-615 | the same allocator and log, seen from the parent container |
| LegacySpec.CheckResolved | src/lib.rs:531-541 | nothing iff the key is not cached; the cached instance iff it has the requested type; `TypeMismatch(key)` otherwise |
| LegacySpec.Resolve | src/lib.rs:591-647 | the cache comes first and a hit changes nothing; the container's own provider comes next, otherwise the parent; a Scoped or Singleton success is cached here with the returned value; caches only grow, and only with keys of the key's rank or lower |
| LegacySpec.ResolveInParent | src/lib.rs:604-618 | the answer found through the parent keeps every container consistent, grows the caches only with keys of the key's rank or lower and leaves this container's own level untouched |
| LegacySpec.InParent | src/lib.rs:609-615 | below the root, the answer is the parent's result with the parent's new state and this container's level appended |
| LegacySpec.ParentConsistent | src/lib.rs:609-615 | the parent of a consistent, acyclic chain is itself consistent and acyclic |
| LegacySpec.ResolveHere | src/lib.rs:620-646 | a provider of another type is `TypeMismatch` and is not called; otherwise the provider is called; the key ends up cached iff the kind is not Transient and the provider succeeded |
| LegacySpec.Store | src/lib.rs:634-645 | `or_insert` finds the key absent, stores the new instance and hands it out, so the `unwrap` cannot fail |
| LegacySpec.StoreGrows | src/lib.rs:634-645 | storing the resolved key keeps the cache growth within the key's rank |
| LegacySpec.Adopt | src/lib.rs:609-615 | the parent's result and state, with the child's own level unchanged |
| LegacySpec.AdoptGrows | src/lib.rs:609-615 | appending the child's untouched level to the parent's grown state keeps every container consistent and grows the child's state within the key's rank |
| LegacySpec.Provide | src/lib.rs:630 | the provider is logged first; a success is a new instance of its output type |
| LegacySpec.Construct | src/lib.rs:630 | a dependency error or the provider's own failure leaves the state as it was; a success is a new instance of the provider's type under the next id, holding the dependencies |
| LegacySpec.DepsStep | coi-derive/src/provides.rs:138 | one resolved dependency continues the loop from the state it left; its error stops the loop and is passed on |
| LegacySpec.ResolveDeps | coi-derive/src/provides.rs:138 | the dependencies are resolved in order through the same container; on success one instance per dependency |
| LegacySpec.ScopedLevel | src/lib.rs:652-675 | exactly the Scoped and Transient registrations, unchanged, with an empty cache |
| LegacySpec.Scoped | src/lib.rs:652-675 | a child whose parent is the container itself, left unchanged; consistency and ranking are preserved |
| LegacySpec.Built | src/lib.rs:838-846 | a root container with the registrations and an empty cache |
| LegacySpec.GrowsTransitive | src/lib.rs:591-647 | cache growth composes across nested resolves |
| LegacySpec.GrowsRanked | src/lib.rs:591-647 | cache growth keeps every provider map, hence the ranking |
| Legacy.Container.constructor | src/lib.rs:587-589 | a container with the given providers and parent and an empty cache |
| Legacy.Container.Chain | src/lib.rs:522-529 | the levels from the root to this container, which is last |
| Legacy.Container.Resolve | src/lib.rs:591-647 | returns exactly `LegacySpec.Resolve` and leaves the chain of containers in its state |
| Legacy.Container.ResolveInParent | src/lib.rs:604-618 | returns exactly `LegacySpec.ResolveInParent` |
| Legacy.Container.ResolveHere | src/lib.rs:620-646 | returns exactly `LegacySpec.ResolveHere` |
| Legacy.Container.Cache | src/lib.rs:634-645 | storing a new Scoped or Singleton instance hands out that instance and leaves the state `LegacySpec.Store` describes |
| Legacy.Container.OrInsert | src/lib.rs:638-644 | the entry already stored under the key, or the new value, which is then stored; no other level changes |
| Legacy.Container.Provide | src/lib.rs:630 | returns exactly `LegacySpec.Provide` |
| Legacy.Container.Construct | src/lib.rs:630 | returns exactly `LegacySpec.Construct` and advances the allocator only on success |
| Legacy.Container.ResolveDependencies | coi-derive/src/provides.rs:138 | the loop returns exactly `LegacySpec.ResolveDeps` |
| Legacy.Container.Scoped | src/lib.rs:652-675 | a fresh child of this container whose state is `LegacySpec.Scoped` of this one's |
| Legacy.ContainerBuilder.constructor | src/lib.rs:776-782 | no registration yet |
| Legacy.ContainerBuilder.Register | src/lib.rs:786-796 | a Transient registration, replacing any earlier one under the key |
| Legacy.ContainerBuilder.RegisterAs | src/lib.rs:808-835 | a later registration under the same key replaces the earlier one |
| Legacy.ContainerBuilder.Build | src/lib.rs:838-846 | a root container whose state is `LegacySpec.Built` |
| LegacyLifetimes.NestedScopes | src/lib.rs:652-675 | nested scopes drop every Singleton registration and start with empty caches |
| LegacyLifetimes.CachedSingletonThroughScopes | src/lib.rs:604-618 | a cached Singleton is returned unchanged through any chain of scopes |
| LegacyLifetimes.CachedHere | src/lib.rs:531-541 | a container hands out the instance it has cached and changes nothing |
| LegacyLifetimes.OneScopeDeeper | src/lib.rs:652-675 | one more nested scope hands out the cached Singleton unchanged |
| LegacyLifetimes.ThroughOneScope | src/lib.rs:604-618 | a scope that does not register a key hands out its parent's answer unchanged |
| LegacyLifetimes.SingletonAcrossScopes | src/lib.rs:482-498 | Singleton: after one success, every scope derived from the container returns that instance and changes nothing |
| LegacyLifetimes.SingletonSharedWithParentAndSiblings | src/lib.rs:604-618 | Singleton, scope first: the scope does not register it, so the parent builds and caches it; afterwards the parent and any scope taken from it return that instance and change nothing |
| LegacyLifetimes.SingletonFromScopeFirst | src/lib.rs:482-498 | on containers: a scope resolves a Singleton, then its parent, then a second scope of that parent; all three results are the same instance |
| LegacyLifetimes.ResolveInFreshScope | src/lib.rs:652-675 | `scoped()` then a resolve in the scope returns `LegacySpec.Resolve` on `LegacySpec.Scoped` of the parent; the parent then holds the levels below the scope's own and stays consistent |
| LegacyLifetimes.ResolvedAgain | src/lib.rs:442-449 | Scoped and Singleton: a second resolve in the same container returns the same instance and changes nothing |
| LegacyLifetimes.ScopedFreshInNewScope | src/lib.rs:450-458 | Scoped: a new scope calls the provider again, gets a different instance and caches it for itself |
| LegacyLifetimes.FreshBuild | src/lib.rs:620-646 | an uncached Scoped or Singleton key is built by calling its provider, gets an id never handed out before, and a second resolve returns it unchanged |
| LegacyLifetimes.TransientDistinct | src/lib.rs:412-419 | Transient: every resolve calls the provider, caches nothing, and two resolves return distinct instances |
| LegacyLifetimes.SameProviders | src/lib.rs:591-647 | a resolve leaves the container's registrations unchanged |
| LegacyLifetimes.RetryAfterFailure | src/lib.rs:634-645 | a failed Scoped or Singleton build caches nothing, so the next resolve calls the provider again |
| LegacyLifetimes.KeyNotFoundIffUnregistered | src/lib.rs:604-618 | `KeyNotFound(key)` is returned exactly when neither the container nor any ancestor registers the key |
| LegacyLifetimes.RegisteredNotMissing | src/lib.rs:620-646 | a key the container registers is never reported as `KeyNotFound` under its own name |
| LegacyLifetimes.ParentAnswer | src/lib.rs:604-618 | a key the container neither caches nor registers gets the parent's result |
| LegacyLifetimes.UnregisteredInParent | src/lib.rs:604-618 | below the root, a key missing here is missing from the whole chain iff it is missing from the parent's chain |
| LegacyLifetimes.ResolveMissingRanked | src/lib.rs:591-647 | a `KeyNotFound` names the key itself or a key lower in the dependency order |
| LegacyLifetimes.ProvideMissingRanked | src/lib.rs:630 | the same for a provider call |
| LegacyLifetimes.DepsMissingRanked | coi-derive/src/provides.rs:138 | the same for the dependency loop |
| LegacyLifetimes.DepsMissingStep | coi-derive/src/provides.rs:138 | the same for one step of the dependency loop |
| AsyncCoi.Resolve | coi/src/lib.rs:166-179 | an unregistered key is `KeyNotFound`; a provider of another type is `TypeMismatch` and is not called; otherwise the provider is called; a success is a new instance of the requested type |
| AsyncCoi.Provide | coi/src/lib.rs:216-223 | the provider is logged first; a success is a new instance of its output type |
| AsyncCoi.ResolveDeps | coi-derive/src/provides.rs:138 | the dependencies are resolved in order; on success one instance per dependency |
| AsyncCoi.NoMemoisation | coi/src/lib.rs:177-178 | a second resolve calls the provider again and returns a different instance |
| AsyncCoi.KeyNotFoundIffUnregistered | coi/src/lib.rs:170-173 | `KeyNotFound(key)` is returned exactly when the key is unregistered |
| AsyncCoi.ResolveMissingBelow | coi/src/lib.rs:166-179 | a `KeyNotFound` names the key itself or a key lower in the dependency order |
| AsyncCoi.ProvideMissingBelow | coi/src/lib.rs:177-178 | the same for a provider call |
| AsyncCoi.DepsMissingBelow | coi-derive/src/provides.rs:138 | the same for the dependency loop |
| AsyncCoi.HistoryIndependent | coi/src/lib.rs:166-179 | nothing but the allocator carries over between resolves: the same result and the same provider calls, whatever came before |
| AsyncCoi.ProvideHistoryIndependent | coi/src/lib.rs:177-178 | the same for a provider call |
| AsyncCoi.DepsHistoryIndependent | coi-derive/src/provides.rs:138 | the same for the dependency loop |
| AsyncCoi.ContainerBuilder.constructor | coi/src/lib.rs:189-193 | no provider yet |
| AsyncCoi.ContainerBuilder.Register | coi/src/lib.rs:196-206 | a later provider under the same key replaces the earlier one |
| AsyncCoi.ContainerBuilder.Build | coi/src/lib.rs:209-213 | the container gets exactly the registered providers |

## Left out

- Concurrency is not modelled. This covers the slot's `RwLock` and `AtomicU8` orderings, the
  `Mutex` of the older container, and the multi-threaded benchmark. Everything runs in one
  thread, where the compare-and-swap from UNRESOLVED always succeeds.
- The BUILDING wait loop (src/resolvable.rs:77-80) is not modelled. In one thread it is
  reached only through a dependency cycle that comes back to a Singleton or Scoped key still
  being built, and there it blocks. The `BuildingFrom` precondition rules it out: every slot
  being built belongs to a provider still on the call stack.
- Registries with any dependency cycle are not modelled: every resolve requires `Ranked`,
  which holds for the whole registry. When a resolve reaches a cycle, the crate blocks on a
  BUILDING slot or overflows the stack, unless a type mismatch cuts the cycle first; it never
  returns an error for the cycle itself.
- Coi.Container.Analyze: cycle detection is not modelled. The petgraph `toposort`,
  `dot_graph` and the `AnalysisNode` display are left out, so on a cyclic graph without
  missing dependencies the model passes where the crate reports `Cycle`.
- Coi.Container.Analyze: only which `Missing` pairs are reported is stated. Their order and
  multiplicity are not.
- Coi.Container.Analyze: it requires every tracked key to be registered. The crate indexes
  `kind_lookup` with each tracked key and panics on one that is not registered.
- Lifetimes.ScopedFreshInNewScope: it requires the provider's output to be the requested
  type. The view does not record that a stored value's type is its provider's output.
- `Any` and `downcast_ref` are replaced by type tags. `Arc` identity and cloning are replaced
  by instance ids: a clone is the same `Instance` value.
- The derive macros (coi-derive), `src/macros.rs` and `src/provide.rs` are not modelled. A
  provider is an oracle: an output tag, dependencies resolved in order, and an optional
  failure whose description is kept as text.
- The `thiserror` message attributes on src/lib.rs's `Error` are not modelled. The shared
  `Errors` module follows the hand-written `Display` of coi/src/lib.rs. Its text for `Inner`
  keeps only the wrapped error's description.
- The older engine's `dependency_map`, `dependency_graph`, `analyze` and `dot_graph` are not
  modelled, because they share the graph library with the cycle check.
- The oldest engine's `async` resolve is modelled as an ordinary call. Each provider future
  is awaited before the next dependency is resolved, so the order of calls is unchanged.
- The builders take `self` by value and return it. Here they are objects updated in place.
- The ghost provider log and the allocator's id counter exist only in the model. They are
  what make "called again" and "a different instance" statable.
- The actix integration, the benchmarks and coi/tests/scoped.rs are not part of this model.
