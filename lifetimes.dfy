/** The lifetime guarantees of the current container, stated over its reference semantics:
    what a sequence of resolves on one container, and on the scopes derived from it, hands out.
    Every lemma starts from an idle view (no slot being built), the state between two calls
    made by user code. */
module Lifetimes {

  import opened Wrappers
  import opened Errors
  import opened Providers
  import opened Registration
  import opened CoiSpec
  import Coi

  /** The view of `n` nested `scoped()` calls. */
  function NestedScopes(v: View, n: nat): (c: View)
    ensures c.singletons == v.singletons && c.next == v.next && c.invoked == v.invoked
    ensures c.scopeds.Keys == v.scopeds.Keys
    ensures n > 0 ==> forall k | k in c.scopeds :: c.scopeds[k] == Unresolved
    ensures forall reg: Registry :: Consistent(reg, v) ==> Consistent(reg, c)
    ensures Idle(v) ==> Idle(c)
    decreases n
  {
    if n == 0 then v else ScopedView(NestedScopes(v, n - 1))
  }

  /** Singleton and Scoped: once a key resolved in a container, resolving it again in the same
      container returns the same instance and calls no provider. */
  lemma ResolvedAgain(reg: Registry, rank: map<Key, nat>, v: View, key: Key, tag: TypeTag)
    requires Ranked(reg, rank) && Consistent(reg, v) && Idle(v)
    requires key in reg.kinds && reg.kinds[key] != Transient
    ensures var first := Resolve(reg, rank, v, key, tag);
            first.result.Ok? ==> Resolve(reg, rank, first.view, key, tag) == first
  {
  }

  /** Singleton: through any chain of `scoped()`, a key resolved in the root keeps resolving to
      the root's instance, and no provider is called. */
  lemma SingletonAcrossScopes(reg: Registry, rank: map<Key, nat>, v: View, key: Key, tag: TypeTag, n: nat)
    requires Ranked(reg, rank) && Consistent(reg, v) && Idle(v)
    requires key in reg.kinds && reg.kinds[key] == Singleton
    ensures var first := Resolve(reg, rank, v, key, tag);
            var scope := NestedScopes(first.view, n);
            first.result.Ok? ==> Resolve(reg, rank, scope, key, tag) == Outcome(first.result, scope)
  {
  }

  /** Singleton, the other order: a scope resolves the key first. Singleton slots and the
      allocator are shared, so afterwards the container the scope came from shows the scope's
      singleton slots with its own scoped slots, and a sibling scope (taken from it before or
      after) shows those singleton slots with fresh scoped ones. Both hand out the scope's
      instance and change nothing. */
  lemma SingletonSharedWithParentAndSiblings(reg: Registry, rank: map<Key, nat>, v: View,
                                            key: Key, tag: TypeTag)
    requires Ranked(reg, rank) && Consistent(reg, v) && Idle(v)
    requires key in reg.kinds && reg.kinds[key] == Singleton
    ensures var a := Resolve(reg, rank, ScopedView(v), key, tag);
            var root := a.view.(scopeds := v.scopeds);
            a.result.Ok? ==>
              && Consistent(reg, root) && Idle(root)
              && Resolve(reg, rank, root, key, tag) == Outcome(a.result, root)
              && Resolve(reg, rank, ScopedView(root), key, tag) == Outcome(a.result, ScopedView(root))
  {
    var child := ScopedView(v);
    var a := Resolve(reg, rank, child, key, tag);
    if a.result.Ok? {
      var root := a.view.(scopeds := v.scopeds);
      assert Resolve(reg, rank, child, key, tag) == SlotResolve(reg, rank, child, key, Singleton, tag);
      assert StoredBelow(v.scopeds, a.view.next);
      CachedSingleton(reg, rank, root, key, tag, a.result.value);
      CachedSingleton(reg, rank, ScopedView(root), key, tag, a.result.value);
    }
  }

  /** The same order on containers: a scope resolves the Singleton first, then the container
      it came from, then a second scope taken from that container. All three get one
      instance. */
  method SingletonFromScopeFirst(root: Coi.Container, key: Key, tag: TypeTag, heap: Heap, ghost rank: map<Key, nat>)
    returns (a: Result<Instance>, b: Result<Instance>, c: Result<Instance>)
    requires root.Valid(heap) && Ranked(root.Reg(), rank) && Idle(root.View(heap))
    requires key in root.kindLookup && root.kindLookup[key] == Singleton
    modifies root.Slots(), heap
    ensures a.Ok? ==> b == a && c == a
  {
    ghost var v := root.View(heap);
    a := ResolveInFreshScope(root, key, tag, heap, rank);
    SingletonSharedWithParentAndSiblings(root.Reg(), rank, v, key, tag);
    ghost var w := root.View(heap);
    b := root.Resolve(key, tag, heap, rank);
    if a.Ok? {
      assert root.View(heap) == w;
    }
    c := ResolveInFreshScope(root, key, tag, heap, rank);
  }

  /** `scoped()` followed by a resolve in the new scope: the scope's result, and the container
      it came from now shows the scope's singleton slots and allocator with its own scoped
      slots. */
  method ResolveInFreshScope(root: Coi.Container, key: Key, tag: TypeTag, heap: Heap, ghost rank: map<Key, nat>)
    returns (a: Result<Instance>)
    requires root.Valid(heap) && Ranked(root.Reg(), rank) && Idle(root.View(heap))
    modifies root.Slots(), heap
    ensures var o := Resolve(root.Reg(), rank, ScopedView(old(root.View(heap))), key, tag);
            && a == o.result
            && root.Valid(heap) && root.View(heap) == o.view.(scopeds := old(root.View(heap)).scopeds)
  {
    ghost var v := root.View(heap);
    SlotsApart(root);
    var child := root.Scoped(heap);
    ghost var own := root.scopedResolvedMap.Values;
    assert own !! child.Slots();
    assert child.View(heap) == ScopedView(v);
    ghost var o := Resolve(root.Reg(), rank, ScopedView(v), key, tag);
    a := child.Resolve(key, tag, heap, rank);
    assert a == o.result && child.View(heap) == o.view;
    ScopedSlotsKept(root);
    ParentSeesScope(root, child, heap, v);
  }

  /** A container's scoped slots are none of its singleton slots. */
  lemma SlotsApart(c: Coi.Container)
    requires c.SlotsDistinct()
    ensures c.scopedResolvedMap.Values !! c.singletonResolvedMap.Values
  {
  }

  /** Scoped slots that nothing wrote still show the same cells. */
  twostate lemma ScopedSlotsKept(c: Coi.Container)
    requires unchanged(c.scopedResolvedMap.Values)
    ensures c.ScopedCells() == old(c.ScopedCells())
    ensures forall t | t in c.scopedResolvedMap.Values :: old(t.Valid()) ==> t.Valid()
  {
  }

  /** A container whose scoped slots still show `v`, next to a valid scope of it that shares
      its singleton slots and allocator: the container is valid and shows the scope's
      singleton slots with `v`'s scoped ones. */
  lemma ParentSeesScope(root: Coi.Container, child: Coi.Container, heap: Heap, v: View)
    requires root.Wired() && child.Valid(heap)
    requires child.Reg() == root.Reg() && child.singletonResolvedMap == root.singletonResolvedMap
    requires forall t | t in root.scopedResolvedMap.Values :: t.Valid()
    requires root.ScopedCells() == v.scopeds && v.next <= heap.next && StoredBelow(v.scopeds, v.next)
    ensures root.Valid(heap) && root.View(heap) == child.View(heap).(scopeds := v.scopeds)
  {
    assert root.SingletonCells() == child.SingletonCells();
  }

  /** A Singleton whose slot is RESOLVED to an instance of the requested type hands it out and
      changes nothing. */
  lemma CachedSingleton(reg: Registry, rank: map<Key, nat>, w: View, key: Key, tag: TypeTag, x: Instance)
    requires Ranked(reg, rank) && Consistent(reg, w) && Idle(w)
    requires key in reg.kinds && reg.kinds[key] == Singleton
    requires key in w.singletons && w.singletons[key] == Resolved(x) && x.tag == tag
    ensures Resolve(reg, rank, w, key, tag) == Outcome(Ok(x), w)
  {
    assert Resolve(reg, rank, w, key, tag) == SlotResolve(reg, rank, w, key, Singleton, tag);
  }

  /** Scoped: a key resolved in a container resolves, in a scope derived from it, to a
      different instance, built by calling the provider again. */
  lemma ScopedFreshInNewScope(reg: Registry, rank: map<Key, nat>, v: View, key: Key, tag: TypeTag)
    requires Ranked(reg, rank) && Consistent(reg, v) && Idle(v)
    requires key in reg.kinds && reg.kinds[key] == Scoped && reg.scopeds[key].output == tag
    ensures var first := Resolve(reg, rank, v, key, tag);
            var scope := ScopedView(first.view);
            var second := Resolve(reg, rank, scope, key, tag);
            first.result.Ok? ==>
              && |scope.invoked| < |second.view.invoked| && second.view.invoked[|scope.invoked|] == key
              && (second.result.Ok? ==> second.result.value.id != first.result.value.id)
  {
  }

  /** Transient: every resolve calls the provider, and two resolves return distinct instances. */
  lemma TransientDistinct(reg: Registry, rank: map<Key, nat>, v: View, key: Key, tag: TypeTag)
    requires Ranked(reg, rank) && Consistent(reg, v) && Idle(v)
    requires key in reg.kinds && reg.kinds[key] == Transient && reg.transients[key].output == tag
    ensures var first := Resolve(reg, rank, v, key, tag);
            var second := Resolve(reg, rank, first.view, key, tag);
            && first.view.invoked[|v.invoked|] == key
            && second.view.invoked[|first.view.invoked|] == key
            && (first.result.Ok? && second.result.Ok? ==> first.result.value.id != second.result.value.id)
  {
  }

  /** Singleton and Scoped: a build that fails leaves the slot UNRESOLVED, so the next resolve
      calls the provider again instead of remembering the error. */
  lemma RetryAfterFailure(reg: Registry, rank: map<Key, nat>, v: View, key: Key, tag: TypeTag)
    requires Ranked(reg, rank) && Consistent(reg, v) && Idle(v)
    requires key in reg.kinds && reg.kinds[key] != Transient
    requires reg.ProviderFor(key).output == tag
    requires v.CellsOf(reg.kinds[key])[key] == Unresolved
    ensures var first := Resolve(reg, rank, v, key, tag);
            var second := Resolve(reg, rank, first.view, key, tag);
            first.result.Err? ==>
              && first.view.CellsOf(reg.kinds[key])[key] == Unresolved
              && |first.view.invoked| < |second.view.invoked|
              && second.view.invoked[|first.view.invoked|] == key
  {
  }

  /** One resolved dependency continues the fold with the instance appended. */
  lemma DepsStep(reg: Registry, rank: map<Key, nat>, v: View, bound: nat, deps: seq<Dependency>, i: nat, acc: seq<Instance>)
    requires Ranked(reg, rank) && Consistent(reg, v) && BuildingFrom(rank, v, bound)
    requires i < |deps| && forall d | d in deps :: RankOf(rank, d.key) < bound
    ensures var d := Resolve(reg, rank, v, deps[i].key, deps[i].tag);
            && (d.result.Err? ==> ResolveDeps(reg, rank, v, bound, deps, i, acc).result == Err(d.result.error))
            && (d.result.Ok? ==>
                  BuildingFrom(rank, d.view, bound) &&
                  ResolveDeps(reg, rank, v, bound, deps, i, acc)
                  == ResolveDeps(reg, rank, d.view, bound, deps, i + 1, acc + [d.result.value]))
  {
    assert deps[i] in deps;
    var d := Resolve(reg, rank, v, deps[i].key, deps[i].tag);
    EvolvesKeepsBuilding(rank, v, d.view, RankOf(rank, deps[i].key), bound);
  }

  /** A transient `h` whose provider needs only the scoped `i`, resolved in a scope where `i` is
      built already: the new instance holds that very `i`. */
  lemma TransientSeesScope(reg: Registry, rank: map<Key, nat>, v: View, h: Key, th: TypeTag, i: Key, ti: TypeTag, x: Instance)
    requires Ranked(reg, rank) && Consistent(reg, v) && BuildingFrom(rank, v, RankOf(rank, h) + 1)
    requires h in reg.kinds && reg.kinds[h] == Transient && reg.transients[h] == Provider(th, [Dependency(i, ti)], None)
    requires i in reg.kinds && reg.kinds[i] == Scoped && i in v.scopeds && v.scopeds[i] == Resolved(x) && x.tag == ti
    ensures var o := Resolve(reg, rank, v, h, th);
            o.result.Ok? && o.result.value.parts == [x]
  {
    var ph := reg.transients[h];
    assert ph.deps[0] in ph.deps;
    var vh := v.(invoked := v.invoked + [h]);
    DepsStep(reg, rank, vh, RankOf(rank, h), ph.deps, 0, []);
    assert Resolve(reg, rank, vh, i, ti) == Outcome(Ok(x), vh);
  }

  /** Singleton and Scoped: resolving a key whose slot is UNRESOLVED marks the slot BUILDING and
      returns exactly what the key's provider returns. */
  lemma SlotBuild(reg: Registry, rank: map<Key, nat>, v: View, key: Key, tag: TypeTag)
    requires Ranked(reg, rank) && Consistent(reg, v) && BuildingFrom(rank, v, RankOf(rank, key) + 1)
    requires key in reg.kinds && reg.kinds[key] != Transient && reg.ProviderFor(key).output == tag
    requires v.CellsOf(reg.kinds[key])[key] == Unresolved
    ensures Consistent(reg, v.With(reg.kinds[key], key, Building))
    ensures BuildingFrom(rank, v.With(reg.kinds[key], key, Building), RankOf(rank, key))
    ensures Resolve(reg, rank, v, key, tag).result
         == Provide(reg, rank, v.With(reg.kinds[key], key, Building), key, reg.ProviderFor(key)).result
  {
    var kind := reg.kinds[key];
    StartBuilding(reg, rank, v, key, kind);
    var vb := v.With(kind, key, Building);
    var inner := ResolveInner(reg, rank, vb, key, kind, tag);
    assert inner == Provide(reg, rank, vb, key, reg.ProviderFor(key));
    assert SlotResolve(reg, rank, v, key, kind, tag).result == inner.result;
    assert Resolve(reg, rank, v, key, tag) == SlotResolve(reg, rank, v, key, kind, tag);
  }

  /** Two paths inside one scope to the same scoped `i` reach the same instance: building the
      scoped `d`, which needs `i` directly and through the transient `h`, gives `d` an `i` and
      an `h` holding that same `i`. The registry has the shape of one integration test
      (coi-test/tests/scoped.rs:202-219); the general fact behind it is that a resolve only
      evolves the view (`Evolves`: a RESOLVED slot keeps its value) and that a RESOLVED slot
      hands out its value (`SlotResolve`). */
  lemma {:induction false} SameScopeRegardlessOfNesting(reg: Registry, rank: map<Key, nat>, v: View,
                                                        d: Key, td: TypeTag, i: Key, ti: TypeTag, h: Key, th: TypeTag)
    requires Ranked(reg, rank) && Consistent(reg, v) && Idle(v)
    requires d in reg.kinds && reg.kinds[d] == Scoped
    requires reg.scopeds[d] == Provider(td, [Dependency(i, ti), Dependency(h, th)], None)
    requires i in reg.kinds && reg.kinds[i] == Scoped
    requires h in reg.kinds && reg.kinds[h] == Transient && reg.transients[h] == Provider(th, [Dependency(i, ti)], None)
    requires v.scopeds[d] == Unresolved
    ensures var o := Resolve(reg, rank, v, d, td);
            o.result.Ok? ==> |o.result.value.parts| == 2 && o.result.value.parts[1].parts == [o.result.value.parts[0]]
  {
    var p3 := reg.scopeds[d];
    var vb := v.With(Scoped, d, Building);
    var v1 := vb.(invoked := vb.invoked + [d]);
    SlotBuild(reg, rank, v, d, td);
    ProvidedParts(reg, rank, vb, d, p3);
    assert Dependency(i, ti) in p3.deps && Dependency(h, th) in p3.deps;
    DependenciesShareScope(reg, rank, v1, RankOf(rank, d), p3.deps, i, ti, h, th);
  }

  /** A provider that succeeds holds the instances its dependency fold produced. */
  lemma ProvidedParts(reg: Registry, rank: map<Key, nat>, v: View, key: Key, p: Provider)
    requires Ranked(reg, rank) && Consistent(reg, v) && BuildingFrom(rank, v, RankOf(rank, key))
    requires key in reg.kinds && p == reg.ProviderFor(key)
    ensures var o := Provide(reg, rank, v, key, p);
            var d := ResolveDeps(reg, rank, v.(invoked := v.invoked + [key]), RankOf(rank, key), p.deps, 0, []);
            o.result.Ok? ==> d.result.Ok? && o.result.value.parts == d.result.value
  {
  }

  /** The dependency fold of such a `d`, `[i, h]` with `h` needing `[i]` as in that test: the
      `h` it resolves second holds the `i` it resolved first. */
  lemma DependenciesShareScope(reg: Registry, rank: map<Key, nat>, v: View, bound: nat, deps: seq<Dependency>,
                               i: Key, ti: TypeTag, h: Key, th: TypeTag)
    requires Ranked(reg, rank) && Consistent(reg, v) && BuildingFrom(rank, v, bound)
    requires deps == [Dependency(i, ti), Dependency(h, th)] && RankOf(rank, i) < bound && RankOf(rank, h) < bound
    requires i in reg.kinds && reg.kinds[i] == Scoped
    requires h in reg.kinds && reg.kinds[h] == Transient && reg.transients[h] == Provider(th, [Dependency(i, ti)], None)
    ensures var o := ResolveDeps(reg, rank, v, bound, deps, 0, []);
            o.result.Ok? ==> |o.result.value| == 2 && o.result.value[1].parts == [o.result.value[0]]
  {
    DepsStep(reg, rank, v, bound, deps, 0, []);
    var a := Resolve(reg, rank, v, i, ti);
    if a.result.Ok? {
      ScopedSlotFilled(reg, rank, v, i, ti);
      assert [] + [a.result.value] == [a.result.value];
      SecondDependency(reg, rank, a.view, bound, deps, i, ti, h, th, a.result.value);
    }
  }

  /** A Scoped key that resolved leaves its slot RESOLVED to the instance handed out. */
  lemma ScopedSlotFilled(reg: Registry, rank: map<Key, nat>, v: View, key: Key, tag: TypeTag)
    requires Ranked(reg, rank) && Consistent(reg, v) && BuildingFrom(rank, v, RankOf(rank, key) + 1)
    requires key in reg.kinds && reg.kinds[key] == Scoped
    ensures var o := Resolve(reg, rank, v, key, tag);
            o.result.Ok? ==> key in o.view.scopeds && o.view.scopeds[key] == Resolved(o.result.value)
  {
    assert Resolve(reg, rank, v, key, tag) == SlotResolve(reg, rank, v, key, Scoped, tag);
  }

  /** The second turn of that fold, for the same test's shape: with `i` already RESOLVED to
      `x`, the transient `h` is built holding `x`, and the fold ends with both. */
  lemma SecondDependency(reg: Registry, rank: map<Key, nat>, v: View, bound: nat, deps: seq<Dependency>,
                         i: Key, ti: TypeTag, h: Key, th: TypeTag, x: Instance)
    requires Ranked(reg, rank) && Consistent(reg, v) && BuildingFrom(rank, v, bound)
    requires deps == [Dependency(i, ti), Dependency(h, th)] && RankOf(rank, i) < bound && RankOf(rank, h) < bound
    requires i in reg.kinds && reg.kinds[i] == Scoped && i in v.scopeds && v.scopeds[i] == Resolved(x) && x.tag == ti
    requires h in reg.kinds && reg.kinds[h] == Transient && reg.transients[h] == Provider(th, [Dependency(i, ti)], None)
    ensures var o := ResolveDeps(reg, rank, v, bound, deps, 1, [x]);
            o.result.Ok? ==> |o.result.value| == 2 && o.result.value[0] == x && o.result.value[1].parts == [x]
  {
    DepsStep(reg, rank, v, bound, deps, 1, [x]);
    TransientSeesScope(reg, rank, v, h, th, i, ti, x);
    var b := Resolve(reg, rank, v, h, th);
    assert [x] + [b.result.value] == [x, b.result.value];
    assert ResolveDeps(reg, rank, b.view, bound, deps, 2, [x, b.result.value]).result == Ok([x, b.result.value]);
  }

  /** Any `KeyNotFound` in `r` names a key of rank below `b`. */
  ghost predicate MissingBelow<T>(rank: map<Key, nat>, r: Result<T>, b: nat)
  {
    r.Err? && r.error.KeyNotFound? ==> RankOf(rank, r.error.key) < b
  }

  /** `KeyNotFound(key)` is the answer exactly when `key` has no registration: a missing
      dependency is reported under its own key, never under the key asked for. */
  lemma {:induction false} KeyNotFoundIffUnregistered(reg: Registry, rank: map<Key, nat>, v: View, key: Key, tag: TypeTag)
    requires Ranked(reg, rank) && Consistent(reg, v) && BuildingFrom(rank, v, RankOf(rank, key) + 1)
    ensures Resolve(reg, rank, v, key, tag).result == Err(KeyNotFound(key)) <==> key !in reg.kinds
  {
    ResolveMissingBelow(reg, rank, v, key, tag);
  }

  /** A `KeyNotFound` raised while resolving a registered `key` names a key below it in the
      dependency order. */
  lemma {:induction false} ResolveMissingBelow(reg: Registry, rank: map<Key, nat>, v: View, key: Key, tag: TypeTag)
    requires Ranked(reg, rank) && Consistent(reg, v) && BuildingFrom(rank, v, RankOf(rank, key) + 1)
    ensures key in reg.kinds ==> MissingBelow(rank, Resolve(reg, rank, v, key, tag).result, RankOf(rank, key))
    decreases RankOf(rank, key), 2
  {
    if key in reg.kinds {
      var kind := reg.kinds[key];
      if kind == Transient {
        if reg.transients[key].output == tag {
          ProvideMissingBelow(reg, rank, v, key, reg.transients[key]);
        }
      } else {
        SlotMissingBelow(reg, rank, v, key, kind, tag);
      }
    }
  }

  /** The same for the slot of a Singleton or Scoped key. */
  lemma {:induction false} SlotMissingBelow(reg: Registry, rank: map<Key, nat>, v: View, key: Key,
                                            kind: RegistrationKind, tag: TypeTag)
    requires Ranked(reg, rank) && Consistent(reg, v) && BuildingFrom(rank, v, RankOf(rank, key) + 1)
    requires key in reg.kinds && reg.kinds[key] == kind && kind != Transient
    ensures MissingBelow(rank, SlotResolve(reg, rank, v, key, kind, tag).result, RankOf(rank, key))
    decreases RankOf(rank, key), 1
  {
    if v.CellsOf(kind)[key].Unresolved? {
      StartBuilding(reg, rank, v, key, kind);
      var vb := v.With(kind, key, Building);
      var p := reg.ProvidersOf(kind)[key];
      if p.output == tag {
        ProvideMissingBelow(reg, rank, vb, key, p);
      }
      assert SlotResolve(reg, rank, v, key, kind, tag).result == ResolveInner(reg, rank, vb, key, kind, tag).result;
    }
  }

  lemma {:induction false} ProvideMissingBelow(reg: Registry, rank: map<Key, nat>, v: View, key: Key, p: Provider)
    requires Ranked(reg, rank) && Consistent(reg, v) && BuildingFrom(rank, v, RankOf(rank, key))
    requires key in reg.kinds && p == reg.ProviderFor(key)
    ensures MissingBelow(rank, Provide(reg, rank, v, key, p).result, RankOf(rank, key))
    decreases RankOf(rank, key), 0
  {
    DepsMissingBelow(reg, rank, v.(invoked := v.invoked + [key]), RankOf(rank, key), p.deps, 0, []);
  }

  lemma {:induction false} DepsMissingBelow(reg: Registry, rank: map<Key, nat>, v: View, bound: nat,
                                            deps: seq<Dependency>, i: nat, acc: seq<Instance>)
    requires Ranked(reg, rank) && Consistent(reg, v) && BuildingFrom(rank, v, bound)
    requires i <= |deps| && forall d | d in deps :: RankOf(rank, d.key) < bound
    ensures MissingBelow(rank, ResolveDeps(reg, rank, v, bound, deps, i, acc).result, bound)
    decreases bound, 0, |deps| - i, 1
  {
    if i < |deps| {
      DepsMissingStep(reg, rank, v, bound, deps, i, acc);
    }
  }

  /** The first remaining dependency fails with a key below `bound`, or the rest of the fold
      runs from the view it left. */
  lemma {:induction false} DepsMissingStep(reg: Registry, rank: map<Key, nat>, v: View, bound: nat,
                                           deps: seq<Dependency>, i: nat, acc: seq<Instance>)
    requires Ranked(reg, rank) && Consistent(reg, v) && BuildingFrom(rank, v, bound)
    requires i < |deps| && forall d | d in deps :: RankOf(rank, d.key) < bound
    ensures MissingBelow(rank, ResolveDeps(reg, rank, v, bound, deps, i, acc).result, bound)
    decreases bound, 0, |deps| - i, 0
  {
    assert deps[i] in deps;
    ResolveMissingBelow(reg, rank, v, deps[i].key, deps[i].tag);
    DepsStep(reg, rank, v, bound, deps, i, acc);
    var d := Resolve(reg, rank, v, deps[i].key, deps[i].tag);
    if d.result.Ok? {
      DepsMissingBelow(reg, rank, d.view, bound, deps, i + 1, acc + [d.result.value]);
    }
  }
}
