/** The current container (src/container.rs, src/resolvable.rs), run in a single thread.

    `Resolvable` and `Container` call each other (a slot runs its container's provider, a
    provider resolves through its container), so they share this module. Every resolving
    method is proved to behave exactly as the reference semantics in `CoiSpec` says, seen
    through `Container.View`. */
module Coi {

  import opened Wrappers
  import opened Errors
  import opened Providers
  import opened Registration
  import Spec = CoiSpec

  /** A problem `Container.Analyze` reports: `from` declares a dependency on `to`, and `to`
      has no tracked registration. */
  datatype AnalysisError = Missing(from: Key, to: Key)

  /** The result of `Container.Analyze`: `Ok(())`, or the errors found. */
  datatype Analysis = Passed | Failed(errors: seq<AnalysisError>)

  /** `from` is tracked, declares `to` among its dependencies, and `to` is not tracked. */
  predicate IsMissing(dependencyMap: map<Key, seq<Key>>, from: Key, to: Key)
  {
    from in dependencyMap && to in dependencyMap[from] && to !in dependencyMap
  }

  /** The width of the slot's atomic state marker. */
  newtype u8 = x: int | 0 <= x < 256

  const UNRESOLVED: u8 := 0
  const BUILDING: u8 := 1
  const RESOLVED: u8 := 2

  /** A resolve-once slot: a state marker and the stored value. */
  class Resolvable {
    var state: u8
    var item: Option<Instance>

    /** The marker only holds the three states, and a value is stored exactly when RESOLVED. */
    ghost predicate Valid()
      reads this
    {
      && (state == UNRESOLVED || state == BUILDING || state == RESOLVED)
      && (item.Some? <==> state == RESOLVED)
    }

    /** The slot as a cell of the reference semantics. */
    function Cell(): Spec.Cell
      reads this
    {
      if state == RESOLVED && item.Some? then Spec.Resolved(item.value)
      else if state == BUILDING then Spec.Building
      else Spec.Unresolved
    }

    constructor ()
      ensures Valid() && state == UNRESOLVED && item == None
    {
      state := UNRESOLVED;
      item := None;
    }

    /** Resolves `key` through this slot. In one thread the compare-and-swap from UNRESOLVED
        always wins and the wait loop is never entered: a BUILDING slot on entry means a
        dependency cycle, on which the crate blocks forever, and the precondition rules it out. */
    method Resolve(key: Key, kind: RegistrationKind, tag: TypeTag, container: Container, heap: Heap,
                   ghost rank: map<Key, nat>) returns (r: Result<Instance>)
      requires container.Valid(heap) && Spec.Ranked(container.Reg(), rank)
      requires key in container.kindLookup && container.kindLookup[key] == kind && kind != Transient
      requires this == container.SlotOf(kind, key)
      requires Spec.BuildingFrom(rank, container.View(heap), RankOf(rank, key) + 1)
      modifies container.Slots(), heap
      ensures container.Valid(heap)
      ensures Spec.Outcome(r, container.View(heap))
           == Spec.SlotResolve(container.Reg(), rank, old(container.View(heap)), key, kind, tag)
      decreases RankOf(rank, key), 4
    {
      ghost var v := container.View(heap);
      assert this in container.Slots() && v.CellsOf(kind)[key] == Cell();
      if state == UNRESOLVED {
        state := BUILDING;
        SlotWritten(container, heap, kind, key, v);
        Spec.StartBuilding(container.Reg(), rank, v, key, kind);
        r := ResolveInner(key, kind, tag, container, heap, rank);
        return;
      }
      var stored := item.value;
      if stored.tag == tag {
        r := Ok(stored);
      } else {
        r := Err(TypeMismatch(key));
      }
    }

    /** Runs the container's `resolve_inner` for a slot this call moved to BUILDING, then
        settles the slot. */
    method ResolveInner(key: Key, kind: RegistrationKind, tag: TypeTag, container: Container, heap: Heap,
                        ghost rank: map<Key, nat>) returns (r: Result<Instance>)
      requires container.Valid(heap) && Spec.Ranked(container.Reg(), rank)
      requires key in container.kindLookup && container.kindLookup[key] == kind && kind != Transient
      requires this == container.SlotOf(kind, key) && state == BUILDING
      requires Spec.BuildingFrom(rank, container.View(heap), RankOf(rank, key))
      modifies container.Slots(), heap
      ensures container.Valid(heap)
      ensures Spec.Outcome(r, container.View(heap))
           == Spec.Settle(container.Reg(),
                          Spec.ResolveInner(container.Reg(), rank, old(container.View(heap)), key, kind, tag),
                          key, kind)
      decreases RankOf(rank, key), 3
    {
      ghost var o := Spec.ResolveInner(container.Reg(), rank, container.View(heap), key, kind, tag);
      r := container.ResolveInner(key, kind, tag, heap, rank);
      assert o == Spec.Outcome(r, container.View(heap));
      assert o.view.CellsOf(kind)[key] == Spec.Building;
      assert container.View(heap).CellsOf(kind)[key] == Cell();
      Settle(r, key, kind, container, heap);
    }

    /** Records the outcome of this slot's build: the value and RESOLVED, or UNRESOLVED again
        after an error. The crate asserts the marker is still BUILDING before either store. */
    method Settle(r: Result<Instance>, ghost key: Key, ghost kind: RegistrationKind, container: Container, heap: Heap)
      requires container.Valid(heap)
      requires key in container.kindLookup && container.kindLookup[key] == kind && kind != Transient
      requires this == container.SlotOf(kind, key) && state == BUILDING
      requires r.Ok? ==> r.value.id < heap.next
      modifies this
      ensures container.Valid(heap)
      ensures container.View(heap)
           == old(container.View(heap)).With(kind, key, if r.Ok? then Spec.Resolved(r.value) else Spec.Unresolved)
    {
      ghost var before := container.View(heap);
      if r.Err? {
        assert state == BUILDING;
        state := UNRESOLVED;
      } else {
        item := Some(r.value);
        assert state == BUILDING;
        state := RESOLVED;
      }
      SlotWritten(container, heap, kind, key, before);
      forall t | t in container.Slots() && t != this ensures t.Valid() {
        assert old(t.Valid());
      }
      Spec.SettleConsistent(container.Reg(), before, key, kind, Cell());
    }
  }

  /** A built container: the shared registry maps, the singleton slots (shared with every
      scope derived from it) and its own scoped slots. */
  class Container {
    const kindLookup: map<Key, RegistrationKind>
    const singletonProviderMap: map<Key, Provider>
    const scopedProviderMap: map<Key, Provider>
    const transientProviderMap: map<Key, Provider>
    const singletonResolvedMap: map<Key, Resolvable>
    const scopedResolvedMap: map<Key, Resolvable>
    const dependencyMap: map<Key, seq<Key>>

    constructor (kindLookup: map<Key, RegistrationKind>,
                 singletonProviderMap: map<Key, Provider>,
                 scopedProviderMap: map<Key, Provider>,
                 transientProviderMap: map<Key, Provider>,
                 singletonResolvedMap: map<Key, Resolvable>,
                 scopedResolvedMap: map<Key, Resolvable>,
                 dependencyMap: map<Key, seq<Key>>)
      ensures this.kindLookup == kindLookup
      ensures this.singletonProviderMap == singletonProviderMap
      ensures this.scopedProviderMap == scopedProviderMap
      ensures this.transientProviderMap == transientProviderMap
      ensures this.singletonResolvedMap == singletonResolvedMap
      ensures this.scopedResolvedMap == scopedResolvedMap
      ensures this.dependencyMap == dependencyMap
    {
      this.kindLookup := kindLookup;
      this.singletonProviderMap := singletonProviderMap;
      this.scopedProviderMap := scopedProviderMap;
      this.transientProviderMap := transientProviderMap;
      this.singletonResolvedMap := singletonResolvedMap;
      this.scopedResolvedMap := scopedResolvedMap;
      this.dependencyMap := dependencyMap;
    }

    function Reg(): Spec.Registry
    {
      Spec.Registry(kindLookup, singletonProviderMap, scopedProviderMap, transientProviderMap)
    }

    function Slots(): set<Resolvable>
    {
      singletonResolvedMap.Values + scopedResolvedMap.Values
    }

    function SlotOf(kind: RegistrationKind, key: Key): Resolvable
      requires kind != Transient
      requires key in (if kind == Singleton then singletonResolvedMap else scopedResolvedMap)
    {
      if kind == Singleton then singletonResolvedMap[key] else scopedResolvedMap[key]
    }

    /** No two keys share a slot, and no slot is both a singleton and a scoped one. */
    ghost predicate SlotsDistinct()
    {
      && (forall k1, k2 | k1 in singletonResolvedMap && k2 in singletonResolvedMap && k1 != k2 ::
            singletonResolvedMap[k1] != singletonResolvedMap[k2])
      && (forall k1, k2 | k1 in scopedResolvedMap && k2 in scopedResolvedMap && k1 != k2 ::
            scopedResolvedMap[k1] != scopedResolvedMap[k2])
      && (forall k1, k2 | k1 in singletonResolvedMap && k2 in scopedResolvedMap ::
            singletonResolvedMap[k1] != scopedResolvedMap[k2])
    }

    /** The singleton slots as cells. */
    function SingletonCells(): map<Key, Spec.Cell>
      reads singletonResolvedMap.Values
    {
      map k | k in singletonResolvedMap :: singletonResolvedMap[k].Cell()
    }

    /** The scoped slots as cells. */
    function ScopedCells(): map<Key, Spec.Cell>
      reads scopedResolvedMap.Values
    {
      map k | k in scopedResolvedMap :: scopedResolvedMap[k].Cell()
    }

    /** The slots as cells, with the allocator's state. */
    ghost function View(heap: Heap): Spec.View
      reads Slots(), heap
    {
      Spec.View(SingletonCells(), ScopedCells(), heap.next, heap.invoked)
    }

    /** The builder's invariant (every `unwrap` on the resolve path finds its entry) and one
        slot of its own per singleton and per scoped provider. */
    ghost predicate Wired()
    {
      && Reg().Complete()
      && singletonResolvedMap.Keys == singletonProviderMap.Keys
      && scopedResolvedMap.Keys == scopedProviderMap.Keys
      && SlotsDistinct()
    }

    ghost predicate SlotsValid()
      reads Slots()
    {
      forall s | s in Slots() :: s.Valid()
    }

    /** Wired, every slot valid, and a view that fits the registry. */
    ghost predicate Valid(heap: Heap)
      reads Slots(), heap
    {
      Wired() && SlotsValid() && Spec.Consistent(Reg(), View(heap))
    }

    /** `Container::resolve`. */
    method Resolve(key: Key, tag: TypeTag, heap: Heap, ghost rank: map<Key, nat>) returns (r: Result<Instance>)
      requires Valid(heap) && Spec.Ranked(Reg(), rank)
      requires Spec.BuildingFrom(rank, View(heap), RankOf(rank, key) + 1)
      modifies Slots(), heap
      ensures Valid(heap)
      ensures Spec.Outcome(r, View(heap)) == Spec.Resolve(Reg(), rank, old(View(heap)), key, tag)
      decreases RankOf(rank, key), 5
    {
      if key !in kindLookup {
        return Err(KeyNotFound(key));
      }
      var kind := kindLookup[key];
      match kind
      case Singleton =>
        r := singletonResolvedMap[key].Resolve(key, kind, tag, this, heap, rank);
      case Scoped =>
        r := scopedResolvedMap[key].Resolve(key, kind, tag, this, heap, rank);
      case Transient =>
        var p := transientProviderMap[key];
        if p.output != tag {
          r := Err(TypeMismatch(key));
        } else {
          r := Provide(key, p, heap, rank);
        }
    }

    /** `Container::resolve_inner`: only ever called for a singleton or scoped key. */
    method ResolveInner(key: Key, kind: RegistrationKind, tag: TypeTag, heap: Heap,
                        ghost rank: map<Key, nat>) returns (r: Result<Instance>)
      requires Valid(heap) && Spec.Ranked(Reg(), rank)
      requires key in kindLookup && kindLookup[key] == kind && kind != Transient
      requires Spec.BuildingFrom(rank, View(heap), RankOf(rank, key))
      modifies Slots(), heap
      ensures Valid(heap)
      ensures Spec.Outcome(r, View(heap)) == Spec.ResolveInner(Reg(), rank, old(View(heap)), key, kind, tag)
      decreases RankOf(rank, key), 2
    {
      var p := if kind == Singleton then singletonProviderMap[key] else scopedProviderMap[key];
      if p.output != tag {
        r := Err(TypeMismatch(key));
      } else {
        r := Provide(key, p, heap, rank);
      }
    }

    /** `provide(self)` for the provider registered under `key`, in the shape the derive macro
        generates: resolve each dependency through this container, then construct. */
    method Provide(key: Key, p: Provider, heap: Heap, ghost rank: map<Key, nat>) returns (r: Result<Instance>)
      requires Valid(heap) && Spec.Ranked(Reg(), rank)
      requires key in kindLookup && p == Reg().ProviderFor(key)
      requires Spec.BuildingFrom(rank, View(heap), RankOf(rank, key))
      modifies Slots(), heap
      ensures Valid(heap)
      ensures Spec.Outcome(r, View(heap)) == Spec.Provide(Reg(), rank, old(View(heap)), key, p)
      decreases RankOf(rank, key), 1
    {
      heap.Record(key);
      assert View(heap) == old(View(heap)).(invoked := old(View(heap)).invoked + [key]);
      var deps := ResolveDependencies(key, p, heap, rank);
      if deps.Err? {
        return Err(deps.error);
      }
      r := Construct(p, deps.value, heap);
    }

    /** The construction step once every dependency resolved: the provider's own failure, or
        a fresh instance of its output type holding the dependencies. */
    method Construct(p: Provider, parts: seq<Instance>, heap: Heap) returns (r: Result<Instance>)
      requires Valid(heap)
      modifies heap
      ensures Valid(heap)
      ensures p.failure.Some? ==> r == Err(Inner(p.failure.value)) && View(heap) == old(View(heap))
      ensures p.failure.None? ==> r == Ok(Instance(old(heap.next), p.output, parts))
      ensures p.failure.None? ==> View(heap) == old(View(heap)).(next := old(heap.next) + 1)
    {
      if p.failure.Some? {
        return Err(Inner(p.failure.value));
      }
      var x := heap.Allocate(p.output, parts);
      r := Ok(x);
      assert SingletonCells() == old(SingletonCells()) && ScopedCells() == old(ScopedCells());
    }

    /** The dependencies of `key`'s provider, resolved one after the other; the first error
        is returned as it is. */
    method ResolveDependencies(key: Key, p: Provider, heap: Heap, ghost rank: map<Key, nat>)
      returns (r: Result<seq<Instance>>)
      requires Valid(heap) && Spec.Ranked(Reg(), rank)
      requires key in kindLookup && p == Reg().ProviderFor(key)
      requires Spec.BuildingFrom(rank, View(heap), RankOf(rank, key))
      modifies Slots(), heap
      ensures Valid(heap)
      ensures Spec.Outcome(r, View(heap))
           == Spec.ResolveDeps(Reg(), rank, old(View(heap)), RankOf(rank, key), p.deps, 0, [])
      decreases RankOf(rank, key), 0
    {
      var parts: seq<Instance> := [];
      var i := 0;
      while i < |p.deps|
        invariant 0 <= i <= |p.deps|
        invariant Valid(heap)
        invariant Spec.BuildingFrom(rank, View(heap), RankOf(rank, key))
        invariant Spec.ResolveDeps(Reg(), rank, old(View(heap)), RankOf(rank, key), p.deps, 0, [])
               == Spec.ResolveDeps(Reg(), rank, View(heap), RankOf(rank, key), p.deps, i, parts)
      {
        assert p.deps[i] in p.deps;
        ghost var vi := View(heap);
        var d := Resolve(p.deps[i].key, p.deps[i].tag, heap, rank);
        Spec.EvolvesKeepsBuilding(rank, vi, View(heap), RankOf(rank, p.deps[i].key), RankOf(rank, key));
        if d.Err? {
          return Err(d.error);
        }
        parts := parts + [d.value];
        i := i + 1;
      }
      r := Ok(parts);
    }

    /** The missing-dependency part of `Container::analyze`: every declared dependency that is
        not itself a tracked key is reported, and the analysis passes exactly when there is
        none. Every tracked key must be registered, or the crate's graph construction panics. */
    method Analyze() returns (a: Analysis)
      requires dependencyMap.Keys <= kindLookup.Keys
      ensures a.Passed? <==> forall from, to :: !IsMissing(dependencyMap, from, to)
      ensures a.Failed? ==> forall from, to :: Missing(from, to) in a.errors <==> IsMissing(dependencyMap, from, to)
    {
      var errors: seq<AnalysisError> := [];
      var todo := dependencyMap.Keys;
      while todo != {}
        invariant todo <= dependencyMap.Keys
        invariant forall from, to :: Missing(from, to) in errors <==>
                    (from !in todo && IsMissing(dependencyMap, from, to))
      {
        var from :| from in todo;
        var deps := dependencyMap[from];
        var j := 0;
        while j < |deps|
          invariant 0 <= j <= |deps|
          invariant forall f, t :: Missing(f, t) in errors <==>
                      ((f !in todo && IsMissing(dependencyMap, f, t)) ||
                       (f == from && t in deps[..j] && t !in dependencyMap))
        {
          if deps[j] !in dependencyMap {
            errors := errors + [Missing(from, deps[j])];
          }
          j := j + 1;
        }
        assert deps[..j] == deps;
        todo := todo - {from};
      }
      if |errors| > 0 {
        assert Missing(errors[0].from, errors[0].to) in errors;
        a := Failed(errors);
      } else {
        a := Passed;
      }
    }

    /** `Container::scoped`: the same registry and singleton slots, fresh scoped slots. The
        container itself is left as it was. */
    method Scoped(ghost heap: Heap) returns (c: Container)
      requires Valid(heap)
      ensures c.Reg() == Reg() && c.dependencyMap == dependencyMap
      ensures c.singletonResolvedMap == singletonResolvedMap
      ensures c.scopedResolvedMap.Keys == scopedResolvedMap.Keys
      ensures forall k | k in c.scopedResolvedMap :: fresh(c.scopedResolvedMap[k])
      ensures c.Valid(heap) && c.View(heap) == Spec.ScopedView(View(heap))
    {
      var slots := FreshSlots(scopedResolvedMap.Keys);
      assert forall k1, k2 | k1 in singletonResolvedMap && k2 in slots :: singletonResolvedMap[k1] != slots[k2];
      c := new Container(kindLookup, singletonProviderMap, scopedProviderMap, transientProviderMap,
                         singletonResolvedMap, slots, dependencyMap);
      assert c.Wired() && c.SlotsValid();
      assert c.SingletonCells() == SingletonCells();
      assert c.ScopedCells() == map k | k in scopedResolvedMap :: Spec.Unresolved;
    }
  }

  /** The view of a container whose slots, all but the one of `key`, still show the cells of
      `v`, and whose allocator still shows `v`'s counter and log. */
  lemma SlotWritten(c: Container, heap: Heap, kind: RegistrationKind, key: Key, v: Spec.View)
    requires c.Reg().Complete() && c.SlotsDistinct()
    requires c.singletonResolvedMap.Keys == c.singletonProviderMap.Keys == v.singletons.Keys
    requires c.scopedResolvedMap.Keys == c.scopedProviderMap.Keys == v.scopeds.Keys
    requires key in c.kindLookup && c.kindLookup[key] == kind && kind != Transient
    requires heap.next == v.next && heap.invoked == v.invoked
    requires forall k | k in c.singletonResolvedMap && c.singletonResolvedMap[k] != c.SlotOf(kind, key) ::
               c.singletonResolvedMap[k].Cell() == v.singletons[k]
    requires forall k | k in c.scopedResolvedMap && c.scopedResolvedMap[k] != c.SlotOf(kind, key) ::
               c.scopedResolvedMap[k].Cell() == v.scopeds[k]
    ensures c.View(heap) == v.With(kind, key, c.SlotOf(kind, key).Cell())
  {
    var w := v.With(kind, key, c.SlotOf(kind, key).Cell());
    forall k | k in c.singletonResolvedMap ensures c.SingletonCells()[k] == w.singletons[k] {
    }
    assert c.SingletonCells() == w.singletons;
    forall k | k in c.scopedResolvedMap ensures c.ScopedCells()[k] == w.scopeds[k] {
    }
    assert c.ScopedCells() == w.scopeds;
  }

  /** One fresh UNRESOLVED slot per key. */
  method FreshSlots(keys: set<Key>) returns (m: map<Key, Resolvable>)
    ensures m.Keys == keys
    ensures forall k | k in m :: fresh(m[k]) && m[k].Valid() && m[k].state == UNRESOLVED
    ensures forall k1, k2 | k1 in m && k2 in m && k1 != k2 :: m[k1] != m[k2]
  {
    m := map[];
    var todo := keys;
    while todo != {}
      invariant todo <= keys && m.Keys == keys - todo
      invariant forall k | k in m :: fresh(m[k]) && m[k].Valid() && m[k].state == UNRESOLVED
      invariant forall k1, k2 | k1 in m && k2 in m && k1 != k2 :: m[k1] != m[k2]
    {
      var k :| k in todo;
      var s := new Resolvable();
      m := m[k := s];
      todo := todo - {k};
    }
  }

  /** Accumulates registrations; `Build` turns them into a container. */
  class ContainerBuilder {
    var kindLookup: map<Key, RegistrationKind>
    var singletonMap: map<Key, Provider>
    var scopedMap: map<Key, Provider>
    var transientMap: map<Key, Provider>
    var dependencyMap: map<Key, seq<Key>>

    function Reg(): Spec.Registry
      reads this
    {
      Spec.Registry(kindLookup, singletonMap, scopedMap, transientMap)
    }

    ghost predicate Valid()
      reads this
    {
      Reg().Complete()
    }

    constructor ()
      ensures Valid()
      ensures kindLookup == map[] && singletonMap == map[] && scopedMap == map[] && transientMap == map[]
      ensures dependencyMap == map[]
    {
      kindLookup := map[];
      singletonMap := map[];
      scopedMap := map[];
      transientMap := map[];
      dependencyMap := map[];
    }

    /** `register`: a transient registration. */
    method Register(key: Key, provider: Provider)
      requires Valid()
      modifies this
      ensures Valid()
      ensures kindLookup == old(kindLookup)[key := Transient]
      ensures transientMap == old(transientMap)[key := provider]
      ensures singletonMap == old(singletonMap) && scopedMap == old(scopedMap)
      ensures dependencyMap == old(dependencyMap)
    {
      RegisterAs(key, provider, Transient);
    }

    /** `register_as`: record the key's kind and put the provider in that kind's map only. */
    method RegisterAs(key: Key, provider: Provider, kind: RegistrationKind)
      requires Valid()
      modifies this
      ensures Valid()
      ensures kindLookup == old(kindLookup)[key := kind]
      ensures singletonMap == if kind == Singleton then old(singletonMap)[key := provider] else old(singletonMap)
      ensures scopedMap == if kind == Scoped then old(scopedMap)[key := provider] else old(scopedMap)
      ensures transientMap == if kind == Transient then old(transientMap)[key := provider] else old(transientMap)
      ensures dependencyMap == old(dependencyMap)
    {
      kindLookup := kindLookup[key := kind];
      match kind
      case Singleton => singletonMap := singletonMap[key := provider];
      case Scoped => scopedMap := scopedMap[key := provider];
      case Transient => transientMap := transientMap[key := provider];
    }

    /** `track_dependencies`: the declared dependencies of `key`, for `Analyze`. */
    method TrackDependencies(key: Key, deps: seq<Key>)
      modifies this
      ensures dependencyMap == old(dependencyMap)[key := deps]
      ensures Reg() == old(Reg())
    {
      dependencyMap := dependencyMap[key := deps];
    }

    /** `build`: the registry maps move into the container, which gets one fresh UNRESOLVED
        slot per singleton provider and per scoped provider. */
    method Build(heap: Heap) returns (c: Container)
      requires Valid()
      ensures fresh(c) && forall s | s in c.Slots() :: fresh(s)
      ensures c.Reg() == Reg() && c.dependencyMap == dependencyMap
      ensures c.Valid(heap) && c.View(heap) == Spec.Built(Reg(), heap.next, heap.invoked)
    {
      var singletons := FreshSlots(singletonMap.Keys);
      var scopeds := FreshSlots(scopedMap.Keys);
      assert forall k1, k2 | k1 in singletons && k2 in scopeds :: singletons[k1] != scopeds[k2];
      c := new Container(kindLookup, singletonMap, scopedMap, transientMap, singletons, scopeds, dependencyMap);
      assert c.Wired() && c.SlotsValid();
      assert c.SingletonCells() == map k | k in singletonMap :: Spec.Unresolved;
      assert c.ScopedCells() == map k | k in scopedMap :: Spec.Unresolved;
    }
  }
}
