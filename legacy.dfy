/** The older container (src/lib.rs) as objects. Every container owns its provider map and
    its cache of resolved instances and may point to a parent; `scoped()` creates a child of
    the container it is called on. The methods are proved against `LegacySpec`: each one
    returns what the reference function returns and leaves the chain of containers in the
    state it describes. */
module Legacy {

  import opened Errors
  import opened Providers
  import K = Registration
  import Spec = LegacySpec

  /** `Container` with its `InnerContainer`. `Repr` is the container and all its ancestors,
      `depth` the number of ancestors. */
  class Container {
    const providerMap: map<Key, Spec.Registration>
    var resolvedMap: map<Key, Instance>
    const parent: Container?
    ghost const Repr: set<Container>
    ghost const depth: nat

    ghost predicate Valid()
      decreases depth
    {
      && this in Repr
      && (parent == null ==> depth == 0 && Repr == {this})
      && (parent != null ==>
            && depth == parent.depth + 1
            && Repr == parent.Repr + {this}
            && this !in parent.Repr
            && parent.Valid())
    }

    /** The levels from the root container down to this one. */
    ghost function Chain(): (ch: seq<Spec.Level>)
      requires Valid()
      reads Repr
      ensures |ch| == depth + 1 && ch[depth] == Spec.Level(providerMap, resolvedMap)
      decreases depth
    {
      (if parent == null then [] else parent.Chain()) + [Spec.Level(providerMap, resolvedMap)]
    }

    ghost function State(heap: Heap): (s: Spec.State)
      requires Valid()
      reads Repr, heap
      ensures s.Valid()
    {
      Spec.State(Chain(), heap.next, heap.invoked)
    }

    /** `Container::new` around an `InnerContainer` with an empty cache. */
    constructor (providerMap: map<Key, Spec.Registration>, parent: Container?)
      requires parent != null ==> parent.Valid()
      ensures Valid() && this.providerMap == providerMap && this.parent == parent
      ensures resolvedMap == map[]
    {
      this.providerMap := providerMap;
      this.parent := parent;
      resolvedMap := map[];
      if parent == null {
        Repr := {this};
        depth := 0;
      } else {
        Repr := parent.Repr + {this};
        depth := parent.depth + 1;
      }
    }

    /** `Container::resolve`: the cache, then the own providers, then the parent. */
    method Resolve(key: Key, tag: TypeTag, heap: Heap, ghost rank: map<Key, nat>) returns (r: Result<Instance>)
      requires Valid() && Spec.Consistent(State(heap)) && Spec.Ranked(rank, Chain())
      modifies Repr, heap
      ensures Spec.Outcome(r, State(heap)) == Spec.Resolve(rank, old(State(heap)), key, tag)
      decreases RankOf(rank, key), depth, 4
    {
      var cached := Spec.CheckResolved(resolvedMap, key, tag);
      if cached.Some? {
        return cached.value;
      }
      if key !in providerMap {
        r := ResolveInParent(key, tag, heap, rank);
        return;
      }
      r := ResolveHere(key, tag, heap, rank);
    }

    /** `Container::resolve` for a key this container does not register: the parent's
        answer, or `KeyNotFound` at the root. */
    method ResolveInParent(key: Key, tag: TypeTag, heap: Heap, ghost rank: map<Key, nat>) returns (r: Result<Instance>)
      requires Valid() && Spec.Consistent(State(heap)) && Spec.Ranked(rank, Chain())
      requires key !in providerMap
      modifies Repr, heap
      ensures Spec.Outcome(r, State(heap)) == Spec.ResolveInParent(rank, old(State(heap)), key, tag)
      decreases RankOf(rank, key), depth, 2
    {
      if parent == null {
        return Err(KeyNotFound(key));
      }
      ghost var s := State(heap);
      assert s.Parent() == parent.State(heap);
      Spec.ParentConsistent(rank, s);
      r := parent.Resolve(key, tag, heap, rank);
      assert Chain() == parent.Chain() + [s.Current()];
      Spec.InParent(rank, s, key, tag, r, parent.State(heap), State(heap));
    }

    /** The rest of `Container::resolve` once the key's registration was found here. */
    method ResolveHere(key: Key, tag: TypeTag, heap: Heap, ghost rank: map<Key, nat>) returns (r: Result<Instance>)
      requires Valid() && Spec.Consistent(State(heap)) && Spec.Ranked(rank, Chain())
      requires key in providerMap && key !in resolvedMap
      modifies Repr, heap
      ensures Spec.Outcome(r, State(heap)) == Spec.ResolveHere(rank, old(State(heap)), key, tag)
      decreases RankOf(rank, key), depth, 3
    {
      var registration := providerMap[key];
      if registration.provider.output != tag {
        return Err(TypeMismatch(key));
      }
      r := Provide(key, registration.provider, heap, rank);
      if registration.kind != K.Transient && r.Ok? {
        var stored := Cache(key, r.value, heap);
        r := Ok(stored);
      }
    }

    /** The Scoped and Singleton arm of `Container::resolve`: store the new instance with
        `or_insert` and hand out the stored entry. Nothing the provider resolved stored this
        key, so the entry is the new instance. */
    method Cache(key: Key, x: Instance, heap: Heap) returns (stored: Instance)
      requires Valid() && Spec.Consistent(State(heap))
      requires key in providerMap && key !in resolvedMap && providerMap[key].kind != K.Transient
      requires x.tag == providerMap[key].provider.output && x.id < heap.next
      modifies this
      ensures Spec.Outcome(Ok(stored), State(heap)) == Spec.Store(Spec.Outcome(Ok(x), old(State(heap))), key)
    {
      ghost var provided := Spec.Outcome(Ok(x), State(heap));
      stored := OrInsert(key, x);
      assert State(heap).chain == Spec.Store(provided, key).state.chain;
    }

    /** `resolved_map.entry(key).or_insert(x)`: the entry already stored under `key`, or `x`,
        which is then stored. */
    method OrInsert(key: Key, x: Instance) returns (stored: Instance)
      requires Valid()
      modifies this
      ensures key in old(resolvedMap) ==> resolvedMap == old(resolvedMap) && stored == old(resolvedMap)[key]
      ensures key !in old(resolvedMap) ==> resolvedMap == old(resolvedMap)[key := x] && stored == x
      ensures Chain() == old(Chain())[depth := Spec.Level(providerMap, resolvedMap)]
    {
      if key !in resolvedMap {
        resolvedMap := resolvedMap[key := x];
      }
      stored := resolvedMap[key];
    }

    /** `Provide::provide` with this container: log the call, resolve the dependencies through
        this container, then construct. */
    method Provide(key: Key, p: Provider, heap: Heap, ghost rank: map<Key, nat>) returns (r: Result<Instance>)
      requires Valid() && Spec.Consistent(State(heap)) && Spec.Ranked(rank, Chain())
      requires key in providerMap && p == providerMap[key].provider
      modifies Repr, heap
      ensures Spec.Outcome(r, State(heap)) == Spec.Provide(rank, old(State(heap)), key, p)
      decreases RankOf(rank, key), depth, 1
    {
      heap.Record(key);
      assert Spec.RankedLevel(rank, Chain()[depth]);
      var parts := ResolveDependencies(p.deps, RankOf(rank, key), heap, rank);
      r := Construct(p, parts, heap);
    }

    /** The end of `Provide::provide`: pass a dependency error on, then the provider's own
        failure, else allocate the new instance. */
    method Construct(p: Provider, parts: Result<seq<Instance>>, heap: Heap) returns (r: Result<Instance>)
      requires Valid()
      modifies heap
      ensures Spec.Outcome(r, State(heap)) == Spec.Construct(p, Spec.Outcome(parts, old(State(heap))))
    {
      if parts.Err? {
        return Err(parts.error);
      }
      if p.failure.Some? {
        return Err(Inner(p.failure.value));
      }
      var x := heap.Allocate(p.output, parts.value);
      r := Ok(x);
    }

    /** The derived provider's dependency loop: resolve each dependency in order through this
        container, stopping at the first error. */
    method ResolveDependencies(deps: seq<Dependency>, ghost bound: nat, heap: Heap, ghost rank: map<Key, nat>)
      returns (r: Result<seq<Instance>>)
      requires Valid() && Spec.Consistent(State(heap)) && Spec.Ranked(rank, Chain())
      requires forall d | d in deps :: RankOf(rank, d.key) < bound
      modifies Repr, heap
      ensures Spec.Outcome(r, State(heap)) == Spec.ResolveDeps(rank, old(State(heap)), bound, deps, 0, [])
      decreases bound, depth, 0
    {
      ghost var goal := Spec.ResolveDeps(rank, State(heap), bound, deps, 0, []);
      var parts := [];
      var i := 0;
      while i < |deps|
        invariant 0 <= i <= |deps|
        invariant Spec.Consistent(State(heap)) && Spec.Ranked(rank, Chain())
        invariant goal == Spec.ResolveDeps(rank, State(heap), bound, deps, i, parts)
        decreases |deps| - i
      {
        assert deps[i] in deps;
        ghost var before := State(heap);
        var x := Resolve(deps[i].key, deps[i].tag, heap, rank);
        Spec.DepsStep(rank, before, bound, deps, i, parts, Spec.Outcome(x, State(heap)));
        if x.Err? {
          return Err(x.error);
        }
        parts := parts + [x.value];
        i := i + 1;
      }
      r := Ok(parts);
    }

    /** `Container::scoped`: a child holding the Scoped and Transient registrations of this
        container, with an empty cache; this container is left as it was. */
    method Scoped(ghost heap: Heap) returns (c: Container)
      requires Valid()
      ensures fresh(c) && c.Valid() && c.parent == this
      ensures c.State(heap) == Spec.Scoped(State(heap))
    {
      var kept := map k | k in providerMap && providerMap[k].kind != K.Singleton :: providerMap[k];
      c := new Container(kept, this);
    }
  }

  /** `ContainerBuilder`: the registrations collected so far. */
  class ContainerBuilder {
    var providerMap: map<Key, Spec.Registration>

    constructor ()
      ensures providerMap == map[]
    {
      providerMap := map[];
    }

    /** `register`: a Transient registration. */
    method Register(key: Key, provider: Provider)
      modifies this
      ensures providerMap == old(providerMap)[key := Spec.Registration(K.Transient, provider)]
    {
      RegisterAs(key, Spec.Registration(K.Transient, provider));
    }

    /** `register_as`: a later registration under the same key replaces the earlier one. */
    method RegisterAs(key: Key, registration: Spec.Registration)
      modifies this
      ensures providerMap == old(providerMap)[key := registration]
    {
      providerMap := providerMap[key := registration];
    }

    /** `build`: a root container with every registration and an empty cache. */
    method Build(heap: Heap) returns (c: Container)
      ensures fresh(c) && c.Valid() && c.parent == null
      ensures c.State(heap) == Spec.Built(providerMap, heap.next, heap.invoked)
    {
      c := new Container(providerMap, null);
    }
  }
}
