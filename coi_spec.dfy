/** Reference semantics of the current container (src/container.rs with src/resolvable.rs),
    one resolve at a time.

    The container's immutable registry is a `Registry`; the mutable part, the resolve-once
    slots, is seen through a `View`: one `Cell` per singleton slot and per scoped slot, plus the
    allocator's next id and the log of provider invocations. Every operation maps a view to an
    `Outcome`: what `resolve` returns and the view afterwards.

    Providers may resolve their own dependencies, so the functions are mutually recursive.
    They terminate because the dependency graph is acyclic, witnessed by a `rank` that drops
    along every registered dependency. Registries with any cycle are excluded: a resolve that
    reaches one blocks on a BUILDING slot or overflows the stack, unless a type mismatch cuts
    the cycle first. */
module CoiSpec {

  import opened Wrappers
  import opened Errors
  import opened Providers
  import opened Registration

  /** The four immutable maps a built container shares with all its scopes. */
  datatype Registry = Registry(
    kinds: map<Key, RegistrationKind>,
    singletons: map<Key, Provider>,
    scopeds: map<Key, Provider>,
    transients: map<Key, Provider>)
  {
    function ProvidersOf(kind: RegistrationKind): map<Key, Provider>
    {
      match kind
      case Singleton => singletons
      case Scoped => scopeds
      case Transient => transients
    }

    /** The builder's invariant: the map a key's kind names holds a provider for it. */
    ghost predicate Complete()
    {
      forall k | k in kinds :: k in ProvidersOf(kinds[k])
    }

    /** The provider `resolve` ends up calling for `k`. */
    function ProviderFor(k: Key): Provider
      requires Complete() && k in kinds
    {
      ProvidersOf(kinds[k])[k]
    }
  }

  /** `rank` witnesses that the registered dependency graph has no cycle. */
  ghost predicate Ranked(reg: Registry, rank: map<Key, nat>)
  {
    && reg.Complete()
    && forall k | k in reg.kinds ::
         forall d | d in reg.ProviderFor(k).deps :: RankOf(rank, d.key) < RankOf(rank, k)
  }

  /** The three slot states UNRESOLVED, BUILDING and RESOLVED, the last with its stored value. */
  datatype Cell = Unresolved | Building | Resolved(value: Instance)

  /** What one container's resolve can change: its singleton slots (shared with every scope),
      its scoped slots (its own), the allocator, and the log of provider invocations. */
  datatype View = View(
    singletons: map<Key, Cell>,
    scopeds: map<Key, Cell>,
    next: nat,
    invoked: seq<Key>)
  {
    function CellsOf(kind: RegistrationKind): map<Key, Cell>
      requires kind != Transient
    {
      if kind == Singleton then singletons else scopeds
    }

    function With(kind: RegistrationKind, k: Key, c: Cell): View
      requires kind != Transient
    {
      if kind == Singleton then this.(singletons := singletons[k := c])
      else this.(scopeds := scopeds[k := c])
    }
  }

  /** The result of an operation and the view it leaves behind. */
  datatype Outcome<T> = Outcome(result: Result<T>, view: View)

  ghost predicate StoredBelow(cells: map<Key, Cell>, next: nat)
  {
    forall k | k in cells && cells[k].Resolved? :: cells[k].value.id < next
  }

  /** A view fits the registry: one slot per singleton and per scoped provider, and every
      stored instance was allocated before `next`. */
  ghost predicate Consistent(reg: Registry, v: View)
  {
    && v.singletons.Keys == reg.singletons.Keys
    && v.scopeds.Keys == reg.scopeds.Keys
    && StoredBelow(v.singletons, v.next)
    && StoredBelow(v.scopeds, v.next)
  }

  ghost predicate BuildingRankedFrom(rank: map<Key, nat>, cells: map<Key, Cell>, r: nat)
  {
    forall k | k in cells && cells[k].Building? :: r <= RankOf(rank, k)
  }

  /** Every slot being built belongs to a key of rank `r` or more: in a single thread these are
      exactly the keys whose providers are still on the call stack. */
  ghost predicate BuildingFrom(rank: map<Key, nat>, v: View, r: nat)
  {
    BuildingRankedFrom(rank, v.singletons, r) && BuildingRankedFrom(rank, v.scopeds, r)
  }

  /** No slot is being built: the state between two top-level resolves. */
  ghost predicate Idle(v: View)
  {
    && (forall k | k in v.singletons :: !v.singletons[k].Building?)
    && (forall k | k in v.scopeds :: !v.scopeds[k].Building?)
  }

  /** How slots may change during a resolve of rank `r`: only an UNRESOLVED slot of rank at
      most `r` changes, and never into BUILDING. A RESOLVED slot keeps its value. */
  ghost predicate CellsEvolve(rank: map<Key, nat>, m: map<Key, Cell>, m': map<Key, Cell>, r: nat)
  {
    && m'.Keys == m.Keys
    && forall k | k in m ::
         m'[k] == m[k] || (RankOf(rank, k) <= r && m[k].Unresolved? && !m'[k].Building?)
  }

  ghost predicate Evolves(rank: map<Key, nat>, v: View, v': View, r: nat)
  {
    && v.next <= v'.next
    && v.invoked <= v'.invoked
    && CellsEvolve(rank, v.singletons, v'.singletons, r)
    && CellsEvolve(rank, v.scopeds, v'.scopeds, r)
  }

  lemma EvolvesTransitive(rank: map<Key, nat>, v0: View, v1: View, v2: View, r1: nat, r2: nat, r: nat)
    requires Evolves(rank, v0, v1, r1) && Evolves(rank, v1, v2, r2) && r1 <= r && r2 <= r
    ensures Evolves(rank, v0, v2, r)
  {
  }

  lemma EvolvesKeepsBuilding(rank: map<Key, nat>, v: View, v': View, r: nat, b: nat)
    requires Evolves(rank, v, v', r) && BuildingFrom(rank, v, b)
    ensures BuildingFrom(rank, v', b)
  {
  }

  /** Marking an UNRESOLVED slot of rank `r` as BUILDING keeps the view consistent and every
      building slot at rank `r` or above. */
  lemma StartBuilding(reg: Registry, rank: map<Key, nat>, v: View, key: Key, kind: RegistrationKind)
    requires kind != Transient && Consistent(reg, v) && key in v.CellsOf(kind)
    requires BuildingFrom(rank, v, RankOf(rank, key) + 1)
    ensures Consistent(reg, v.With(kind, key, Building))
    ensures BuildingFrom(rank, v.With(kind, key, Building), RankOf(rank, key))
  {
  }

  /** Settling the slot that was marked BUILDING, after a build that evolved the view. */
  lemma SettleSlot(reg: Registry, rank: map<Key, nat>, v: View, v2: View, key: Key, kind: RegistrationKind, c: Cell)
    requires kind != Transient && key in v.CellsOf(kind) && v.CellsOf(kind)[key].Unresolved? && !c.Building?
    requires Evolves(rank, v.With(kind, key, Building), v2, RankOf(rank, key))
    requires Consistent(reg, v2) && (c.Resolved? ==> c.value.id < v2.next)
    ensures Evolves(rank, v, v2.With(kind, key, c), RankOf(rank, key))
    ensures Consistent(reg, v2.With(kind, key, c))
  {
    if kind == Singleton {
      CellsSettle(rank, v.singletons, v2.singletons, key, c, v2.next);
    } else {
      CellsSettle(rank, v.scopeds, v2.scopeds, key, c, v2.next);
    }
  }

  lemma CellsSettle(rank: map<Key, nat>, m: map<Key, Cell>, m2: map<Key, Cell>, key: Key, c: Cell, next: nat)
    requires key in m && m[key].Unresolved? && !c.Building?
    requires CellsEvolve(rank, m[key := Building], m2, RankOf(rank, key))
    requires StoredBelow(m2, next) && (c.Resolved? ==> c.value.id < next)
    ensures CellsEvolve(rank, m, m2[key := c], RankOf(rank, key))
    ensures StoredBelow(m2[key := c], next)
  {
    var m3 := m2[key := c];
    forall k | k in m
      ensures m3[k] == m[k] || (RankOf(rank, k) <= RankOf(rank, key) && m[k].Unresolved? && !m3[k].Building?)
    {
      if k != key {
        assert m[key := Building][k] == m[k];
      }
    }
  }

  /** `Container::resolve`: dispatch on the key's kind. */
  ghost function Resolve(reg: Registry, rank: map<Key, nat>, v: View, key: Key, tag: TypeTag): (o: Outcome<Instance>)
    requires Ranked(reg, rank) && Consistent(reg, v) && BuildingFrom(rank, v, RankOf(rank, key) + 1)
    ensures Consistent(reg, o.view) && Evolves(rank, v, o.view, RankOf(rank, key))
    ensures o.result.Ok? ==> o.result.value.tag == tag && o.result.value.id < o.view.next
    ensures Idle(v) ==> Idle(o.view)
    ensures key !in reg.kinds ==> o == Outcome(Err(KeyNotFound(key)), v)
    ensures key in reg.kinds && reg.kinds[key] == Transient ==>
              if reg.transients[key].output != tag then o == Outcome(Err(TypeMismatch(key)), v)
              else |v.invoked| < |o.view.invoked| && o.view.invoked[|v.invoked|] == key
                   && (o.result.Ok? ==> v.next <= o.result.value.id)
    decreases RankOf(rank, key), 4, 0
  {
    if key !in reg.kinds then Outcome(Err(KeyNotFound(key)), v)
    else
      match reg.kinds[key]
      case Singleton => SlotResolve(reg, rank, v, key, Singleton, tag)
      case Scoped => SlotResolve(reg, rank, v, key, Scoped, tag)
      case Transient =>
        var p := reg.transients[key];
        if p.output != tag then Outcome(Err(TypeMismatch(key)), v)
        else Provide(reg, rank, v, key, p)
  }

  /** `Resolvable::resolve` on the slot of `key`: a RESOLVED slot hands out its value (if it has
      the requested type); an UNRESOLVED one goes to BUILDING, runs `resolve_inner`, and ends
      RESOLVED on success or back to UNRESOLVED on failure. */
  ghost function SlotResolve(reg: Registry, rank: map<Key, nat>, v: View, key: Key, kind: RegistrationKind, tag: TypeTag): (o: Outcome<Instance>)
    requires Ranked(reg, rank) && Consistent(reg, v) && BuildingFrom(rank, v, RankOf(rank, key) + 1)
    requires key in reg.kinds && reg.kinds[key] == kind && kind != Transient
    ensures Consistent(reg, o.view) && Evolves(rank, v, o.view, RankOf(rank, key))
    ensures o.result.Ok? ==> o.result.value.tag == tag && o.result.value.id < o.view.next
    ensures o.result.Ok? ==> o.view.CellsOf(kind)[key] == Resolved(o.result.value)
    ensures v.CellsOf(kind)[key].Resolved? ==>
              o.view == v && o.result == (if v.CellsOf(kind)[key].value.tag == tag then Ok(v.CellsOf(kind)[key].value)
                                          else Err(TypeMismatch(key)))
    ensures v.CellsOf(kind)[key].Unresolved? ==>
              && (o.result.Ok? ==> v.next <= o.result.value.id)
              && (o.result.Err? ==> o.view.CellsOf(kind)[key] == Unresolved)
              && (reg.ProvidersOf(kind)[key].output == tag ==>
                    |v.invoked| < |o.view.invoked| && o.view.invoked[|v.invoked|] == key)
    decreases RankOf(rank, key), 3, 0
  {
    var cell := v.CellsOf(kind)[key];
    if cell.Resolved? then
      Outcome(if cell.value.tag == tag then Ok(cell.value) else Err(TypeMismatch(key)), v)
    else
      StartBuilding(reg, rank, v, key, kind);
      var o := ResolveInner(reg, rank, v.With(kind, key, Building), key, kind, tag);
      SettleSlot(reg, rank, v, o.view, key, kind, if o.result.Ok? then Resolved(o.result.value) else Unresolved);
      Settle(reg, o, key, kind)
  }

  /** Settling a cell to Unresolved, or to a value allocated before, keeps the view consistent. */
  lemma SettleConsistent(reg: Registry, v: View, key: Key, kind: RegistrationKind, c: Cell)
    requires kind != Transient && Consistent(reg, v) && key in v.CellsOf(kind)
    requires c.Resolved? ==> c.value.id < v.next
    ensures Consistent(reg, v.With(kind, key, c))
  {
  }

  /** The end of `Resolvable::resolve_inner`: store the value and mark the slot RESOLVED, or,
      when the build failed, mark it UNRESOLVED again so that a later call retries. The
      result is passed on unchanged. */
  ghost function Settle(reg: Registry, o: Outcome<Instance>, key: Key, kind: RegistrationKind): (s: Outcome<Instance>)
    requires kind != Transient && Consistent(reg, o.view) && key in o.view.CellsOf(kind)
    requires o.result.Ok? ==> o.result.value.id < o.view.next
    ensures Consistent(reg, s.view) && s.result == o.result
    ensures s.view.CellsOf(kind)[key] == if o.result.Ok? then Resolved(o.result.value) else Unresolved
  {
    Outcome(o.result, o.view.With(kind, key, if o.result.Ok? then Resolved(o.result.value) else Unresolved))
  }

  /** `Container::resolve_inner`: the provider of `key` in the map of its kind, if it builds
      the requested type. */
  ghost function ResolveInner(reg: Registry, rank: map<Key, nat>, v: View, key: Key, kind: RegistrationKind, tag: TypeTag): (o: Outcome<Instance>)
    requires Ranked(reg, rank) && Consistent(reg, v) && BuildingFrom(rank, v, RankOf(rank, key))
    requires key in reg.kinds && reg.kinds[key] == kind && kind != Transient
    ensures Consistent(reg, o.view) && Evolves(rank, v, o.view, RankOf(rank, key))
    ensures o.result.Ok? ==> o.result.value.tag == tag && v.next <= o.result.value.id < o.view.next
    decreases RankOf(rank, key), 2, 0
  {
    var p := reg.ProvidersOf(kind)[key];
    if p.output != tag then Outcome(Err(TypeMismatch(key)), v)
    else Provide(reg, rank, v, key, p)
  }

  /** `Provide::provide` for the provider registered under `key`: log the invocation, resolve
      the dependencies in order, then construct a fresh instance (or fail). */
  ghost function Provide(reg: Registry, rank: map<Key, nat>, v: View, key: Key, p: Provider): (o: Outcome<Instance>)
    requires Ranked(reg, rank) && Consistent(reg, v) && BuildingFrom(rank, v, RankOf(rank, key))
    requires key in reg.kinds && p == reg.ProviderFor(key)
    ensures Consistent(reg, o.view) && Evolves(rank, v, o.view, RankOf(rank, key))
    ensures |v.invoked| < |o.view.invoked| && o.view.invoked[|v.invoked|] == key
    ensures o.result.Ok? ==> o.result.value.tag == p.output && v.next <= o.result.value.id < o.view.next
    decreases RankOf(rank, key), 1, 0
  {
    var v1 := v.(invoked := v.invoked + [key]);
    var deps := ResolveDeps(reg, rank, v1, RankOf(rank, key), p.deps, 0, []);
    if deps.result.Err? then Outcome(Err(deps.result.error), deps.view)
    else if p.failure.Some? then Outcome(Err(Inner(p.failure.value)), deps.view)
    else
      Outcome(Ok(Instance(deps.view.next, p.output, deps.result.value)),
              deps.view.(next := deps.view.next + 1))
  }

  /** The dependencies `deps[i..]` resolved in order after `acc`, stopping at the first error. */
  ghost function ResolveDeps(reg: Registry, rank: map<Key, nat>, v: View, bound: nat,
                             deps: seq<Dependency>, i: nat, acc: seq<Instance>): (o: Outcome<seq<Instance>>)
    requires Ranked(reg, rank) && Consistent(reg, v) && BuildingFrom(rank, v, bound)
    requires i <= |deps| && forall d | d in deps :: RankOf(rank, d.key) < bound
    ensures Consistent(reg, o.view) && Evolves(rank, v, o.view, bound)
    ensures o.result.Ok? ==> |o.result.value| == |acc| + |deps| - i
    decreases bound, 0, |deps| - i
  {
    if i == |deps| then Outcome(Ok(acc), v)
    else
      var d := Resolve(reg, rank, v, deps[i].key, deps[i].tag);
      EvolvesKeepsBuilding(rank, v, d.view, RankOf(rank, deps[i].key), bound);
      if d.result.Err? then Outcome(Err(d.result.error), d.view)
      else
        var o := ResolveDeps(reg, rank, d.view, bound, deps, i + 1, acc + [d.result.value]);
        EvolvesTransitive(rank, v, d.view, o.view, RankOf(rank, deps[i].key), bound, bound);
        o
  }

  /** The slots `build` creates: one fresh slot per singleton and per scoped provider. */
  function Built(reg: Registry, next: nat, invoked: seq<Key>): (v: View)
    ensures Consistent(reg, v) && Idle(v)
    ensures forall k | k in v.singletons :: v.singletons[k] == Unresolved
    ensures forall k | k in v.scopeds :: v.scopeds[k] == Unresolved
  {
    View(map k | k in reg.singletons :: Unresolved, map k | k in reg.scopeds :: Unresolved, next, invoked)
  }

  /** The view of `scoped()`: the same singleton slots, a fresh slot per scoped key. */
  function ScopedView(v: View): (c: View)
    ensures c.singletons == v.singletons && c.next == v.next && c.invoked == v.invoked
    ensures c.scopeds.Keys == v.scopeds.Keys && forall k | k in c.scopeds :: c.scopeds[k] == Unresolved
    ensures forall reg: Registry :: Consistent(reg, v) ==> Consistent(reg, c)
    ensures Idle(v) ==> Idle(c)
  {
    v.(scopeds := map k | k in v.scopeds :: Unresolved)
  }
}
