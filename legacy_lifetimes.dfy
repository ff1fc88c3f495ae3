/** What the older container (src/lib.rs) promises about lifetimes and lookups, stated over
    its reference semantics. */
module LegacyLifetimes {

  import opened Errors
  import opened Providers
  import K = Registration
  import opened LegacySpec
  import Legacy

  /** `n` nested calls of `scoped()`, each on the child the previous one returned. */
  function NestedScopes(s: State, n: nat): (c: State)
    requires s.Valid()
    ensures |c.chain| == |s.chain| + n && c.next == s.next && c.invoked == s.invoked
    ensures Consistent(s) ==> Consistent(c)
    ensures forall rank: map<Key, nat> :: Ranked(rank, s.chain) ==> Ranked(rank, c.chain)
    ensures n > 0 ==> c.Current().resolved == map[]
    ensures n > 0 ==> forall k | k in c.Current().providers ::
                        k in s.Current().providers && s.Current().providers[k].kind != K.Singleton
  {
    if n == 0 then s else Scoped(NestedScopes(s, n - 1))
  }

  /** Resolving `key` in `t` returns `x` and leaves `t` as it was. */
  ghost predicate HandsOut(rank: map<Key, nat>, t: State, key: Key, tag: TypeTag, x: Instance)
  {
    Consistent(t) && Ranked(rank, t.chain) && Resolve(rank, t, key, tag) == Outcome(Ok(x), t)
  }

  /** A Singleton cached by a container is handed out, unchanged, through any chain of scopes
      derived from it: no scope registers the key, so every lookup falls through to it. */
  lemma {:induction false} CachedSingletonThroughScopes(rank: map<Key, nat>, s: State, key: Key, tag: TypeTag, n: nat)
    requires Consistent(s) && Ranked(rank, s.chain)
    requires key in s.Current().providers && s.Current().providers[key].kind == K.Singleton
    requires key in s.Current().resolved && s.Current().resolved[key].tag == tag
    ensures HandsOut(rank, NestedScopes(s, n), key, tag, s.Current().resolved[key])
  {
    if n == 0 {
      CachedHere(rank, s, key, tag);
    } else {
      CachedSingletonThroughScopes(rank, s, key, tag, n - 1);
      OneScopeDeeper(rank, s, key, tag, n - 1);
      assert n - 1 + 1 == n;
    }
  }

  /** A container hands out what it has cached, and changes nothing. */
  lemma CachedHere(rank: map<Key, nat>, s: State, key: Key, tag: TypeTag)
    requires Consistent(s) && Ranked(rank, s.chain)
    requires key in s.Current().resolved && s.Current().resolved[key].tag == tag
    ensures HandsOut(rank, NestedScopes(s, 0), key, tag, s.Current().resolved[key])
  {
    assert NestedScopes(s, 0) == s;
  }

  /** The step of the induction above: one more scope passes the cached Singleton on. */
  lemma OneScopeDeeper(rank: map<Key, nat>, s: State, key: Key, tag: TypeTag, m: nat)
    requires Consistent(s) && Ranked(rank, s.chain)
    requires key in s.Current().providers && s.Current().providers[key].kind == K.Singleton
    requires key in s.Current().resolved
    requires HandsOut(rank, NestedScopes(s, m), key, tag, s.Current().resolved[key])
    ensures HandsOut(rank, NestedScopes(s, m + 1), key, tag, s.Current().resolved[key])
  {
    var u := NestedScopes(s, m);
    assert NestedScopes(s, m + 1) == Scoped(u);
    ThroughOneScope(rank, u, key, tag, s.Current().resolved[key]);
  }

  /** A scope that does not register a key hands out what its parent hands out, unchanged. */
  lemma ThroughOneScope(rank: map<Key, nat>, u: State, key: Key, tag: TypeTag, x: Instance)
    requires Consistent(u) && Ranked(rank, u.chain)
    requires key !in ScopedLevel(u.Current()).providers
    requires Resolve(rank, u, key, tag) == Outcome(Ok(x), u)
    ensures Resolve(rank, Scoped(u), key, tag) == Outcome(Ok(x), Scoped(u))
  {
    var t := Scoped(u);
    InParent(rank, t, key, tag, Ok(x), u, t);
  }

  /** Singleton: once a container resolved it, every scope derived from that container, however
      deep, resolves the same instance and changes nothing. */
  lemma SingletonAcrossScopes(rank: map<Key, nat>, s: State, key: Key, tag: TypeTag, n: nat)
    requires Consistent(s) && Ranked(rank, s.chain)
    requires key in s.Current().providers && s.Current().providers[key].kind == K.Singleton
    ensures var first := Resolve(rank, s, key, tag);
            first.result.Ok? ==>
              Resolve(rank, NestedScopes(first.state, n), key, tag) == Outcome(first.result, NestedScopes(first.state, n))
  {
    var first := Resolve(rank, s, key, tag);
    if first.result.Ok? {
      CachedSingletonThroughScopes(rank, first.state, key, tag, n);
    }
  }

  /** Singleton, the other order: a scope resolves the key first. The scope does not register
      it, so the parent builds and caches it; afterwards the parent, and any scope taken from it
      then, hand out the scope's instance and change nothing. */
  lemma SingletonSharedWithParentAndSiblings(rank: map<Key, nat>, s: State, key: Key, tag: TypeTag)
    requires Consistent(s) && Ranked(rank, s.chain)
    requires key in s.Current().providers && s.Current().providers[key].kind == K.Singleton
    ensures var a := Resolve(rank, Scoped(s), key, tag);
            a.result.Ok? ==>
              && |a.state.chain| > 1
              && HandsOut(rank, a.state.Parent(), key, tag, a.result.value)
              && HandsOut(rank, Scoped(a.state.Parent()), key, tag, a.result.value)
  {
    var c := Scoped(s);
    var first := Resolve(rank, s, key, tag);
    var t := State(first.state.chain + [c.Current()], first.state.next, first.state.invoked);
    InParent(rank, c, key, tag, first.result, first.state, t);
    assert Resolve(rank, c, key, tag) == Outcome(first.result, t);
    if first.result.Ok? {
      assert t.chain[..|t.chain| - 1] == first.state.chain;
      SameProviders(rank, s, first.state, RankOf(rank, key) + 1);
      ThroughOneScope(rank, first.state, key, tag, first.result.value);
    }
  }

  /** The same order on containers: a scope resolves the Singleton first, then the container
      it came from, then a second scope taken from that container. All three get one
      instance. */
  method SingletonFromScopeFirst(root: Legacy.Container, key: Key, tag: TypeTag, heap: Heap, ghost rank: map<Key, nat>)
    returns (a: Result<Instance>, b: Result<Instance>, c: Result<Instance>)
    requires root.Valid() && Consistent(root.State(heap)) && Ranked(rank, root.Chain())
    requires key in root.providerMap && root.providerMap[key].kind == K.Singleton
    modifies root.Repr, heap
    ensures a.Ok? ==> b == a && c == a
  {
    ghost var s := root.State(heap);
    a := ResolveInFreshScope(root, key, tag, heap, rank);
    SingletonSharedWithParentAndSiblings(rank, s, key, tag);
    ghost var w := root.State(heap);
    b := root.Resolve(key, tag, heap, rank);
    if a.Ok? {
      assert root.State(heap) == w;
    }
    c := ResolveInFreshScope(root, key, tag, heap, rank);
  }

  /** `scoped()` followed by a resolve in the new scope: the scope's result, and the container
      it came from now holds the levels below the scope's own. */
  method ResolveInFreshScope(root: Legacy.Container, key: Key, tag: TypeTag, heap: Heap, ghost rank: map<Key, nat>)
    returns (a: Result<Instance>)
    requires root.Valid() && Consistent(root.State(heap)) && Ranked(rank, root.Chain())
    modifies root.Repr, heap
    ensures var o := Resolve(rank, Scoped(old(root.State(heap))), key, tag);
            && a == o.result && |o.state.chain| > 1
            && root.Valid() && root.State(heap) == o.state.Parent()
            && Consistent(root.State(heap)) && Ranked(rank, root.Chain())
  {
    var child := root.Scoped(heap);
    a := child.Resolve(key, tag, heap, rank);
    assert root.State(heap) == child.State(heap).Parent();
    ParentConsistent(rank, child.State(heap));
  }

  /** Scoped and Singleton: a second resolve in the same container returns the first one's
      instance and changes nothing. */
  lemma ResolvedAgain(rank: map<Key, nat>, s: State, key: Key, tag: TypeTag)
    requires Consistent(s) && Ranked(rank, s.chain)
    requires key in s.Current().providers && s.Current().providers[key].kind != K.Transient
    ensures var first := Resolve(rank, s, key, tag);
            first.result.Ok? ==> Resolve(rank, first.state, key, tag) == first
  {
  }

  /** Scoped: a fresh scope invokes the provider again and gets a new instance, which it then
      keeps for itself. */
  lemma ScopedFreshInNewScope(rank: map<Key, nat>, s: State, key: Key, tag: TypeTag)
    requires Consistent(s) && Ranked(rank, s.chain)
    requires key in s.Current().providers && s.Current().providers[key].kind == K.Scoped
    ensures var first := Resolve(rank, s, key, tag);
            var child := Scoped(first.state);
            var second := Resolve(rank, child, key, tag);
            first.result.Ok? ==>
              && |child.invoked| < |second.state.invoked| && second.state.invoked[|child.invoked|] == key
              && (second.result.Ok? ==> second.result.value != first.result.value)
              && (second.result.Ok? ==> Resolve(rank, second.state, key, tag) == second)
  {
    var first := Resolve(rank, s, key, tag);
    if first.result.Ok? {
      SameProviders(rank, s, first.state, RankOf(rank, key) + 1);
      assert LevelConsistent(first.state.Current(), first.state.next);
      FreshBuild(rank, Scoped(first.state), key, tag);
    }
  }

  /** A Scoped or Singleton key registered but not yet cached is built by invoking its
      provider, gets an id not handed out before, and is cached. */
  lemma FreshBuild(rank: map<Key, nat>, c: State, key: Key, tag: TypeTag)
    requires Consistent(c) && Ranked(rank, c.chain)
    requires key in c.Current().providers && key !in c.Current().resolved
    requires c.Current().providers[key].kind != K.Transient
    requires c.Current().providers[key].provider.output == tag
    ensures var o := Resolve(rank, c, key, tag);
            && |c.invoked| < |o.state.invoked| && o.state.invoked[|c.invoked|] == key
            && (o.result.Ok? ==> c.next <= o.result.value.id)
            && (o.result.Ok? ==> Resolve(rank, o.state, key, tag) == o)
  {
  }

  /** Transient: every resolve invokes the provider, nothing is cached under the key, and two
      resolves hand out distinct instances. */
  lemma TransientDistinct(rank: map<Key, nat>, s: State, key: Key, tag: TypeTag)
    requires Consistent(s) && Ranked(rank, s.chain)
    requires key in s.Current().providers && s.Current().providers[key].kind == K.Transient
    requires s.Current().providers[key].provider.output == tag
    ensures var first := Resolve(rank, s, key, tag);
            var second := Resolve(rank, first.state, key, tag);
            && key !in first.state.Current().resolved && key !in second.state.Current().resolved
            && |s.invoked| < |first.state.invoked| && first.state.invoked[|s.invoked|] == key
            && |first.state.invoked| < |second.state.invoked| && second.state.invoked[|first.state.invoked|] == key
            && (first.result.Ok? && second.result.Ok? ==> first.result.value != second.result.value)
  {
    assert LevelConsistent(s.Current(), s.next);
    var first := Resolve(rank, s, key, tag);
    assert first == ResolveHere(rank, s, key, tag);
    SameProviders(rank, s, first.state, RankOf(rank, key) + 1);
    var second := Resolve(rank, first.state, key, tag);
    assert second == ResolveHere(rank, first.state, key, tag);
  }

  /** A resolve leaves the container's own registrations as they were. */
  lemma SameProviders(rank: map<Key, nat>, s: State, s': State, r: nat)
    requires s.Valid() && Grows(rank, s, s', r)
    ensures s'.Valid() && s'.Current().providers == s.Current().providers
  {
    assert LevelGrows(rank, s.chain[|s.chain| - 1], s'.chain[|s.chain| - 1], r);
  }

  /** A failed Scoped or Singleton build caches nothing, so the next resolve calls the
      provider again. */
  lemma RetryAfterFailure(rank: map<Key, nat>, s: State, key: Key, tag: TypeTag)
    requires Consistent(s) && Ranked(rank, s.chain)
    requires key in s.Current().providers && key !in s.Current().resolved
    requires s.Current().providers[key].provider.output == tag
    ensures var first := Resolve(rank, s, key, tag);
            first.result.Err? ==>
              && key !in first.state.Current().resolved
              && var second := Resolve(rank, first.state, key, tag);
                 |first.state.invoked| < |second.state.invoked| && second.state.invoked[|first.state.invoked|] == key
  {
    var first := Resolve(rank, s, key, tag);
    assert first == ResolveHere(rank, s, key, tag);
    if first.result.Err? {
      SameProviders(rank, s, first.state, RankOf(rank, key) + 1);
      var second := Resolve(rank, first.state, key, tag);
      assert second == ResolveHere(rank, first.state, key, tag);
    }
  }

  /** A `KeyNotFound` error raised while resolving `key` names `key` itself or a key below it in
      the dependency order. */
  lemma {:induction false} ResolveMissingRanked(rank: map<Key, nat>, s: State, key: Key, tag: TypeTag)
    requires Consistent(s) && Ranked(rank, s.chain)
    ensures var o := Resolve(rank, s, key, tag);
            o.result.Err? && o.result.error.KeyNotFound? ==>
              o.result.error.key == key || RankOf(rank, o.result.error.key) < RankOf(rank, key)
    decreases RankOf(rank, key), |s.chain|, 1
  {
    var c := s.Current();
    if key !in c.resolved {
      if key !in c.providers {
        if |s.chain| > 1 {
          ResolveMissingRanked(rank, s.Parent(), key, tag);
        }
      } else if c.providers[key].provider.output == tag {
        ProvideMissingRanked(rank, s, key, c.providers[key].provider);
      }
    }
  }

  /** Any `KeyNotFound` in `r` names a key of rank below `b`. */
  ghost predicate MissingBelow<T>(rank: map<Key, nat>, r: Result<T>, b: nat)
  {
    r.Err? && r.error.KeyNotFound? ==> RankOf(rank, r.error.key) < b
  }

  lemma {:induction false} ProvideMissingRanked(rank: map<Key, nat>, s: State, key: Key, p: Provider)
    requires Consistent(s) && Ranked(rank, s.chain)
    requires key in s.Current().providers && p == s.Current().providers[key].provider
    ensures MissingBelow(rank, Provide(rank, s, key, p).result, RankOf(rank, key))
    decreases RankOf(rank, key), |s.chain|, 0
  {
    assert RankedLevel(rank, s.Current());
    DepsMissingRanked(rank, s.(invoked := s.invoked + [key]), RankOf(rank, key), p.deps, 0, []);
  }

  lemma {:induction false} DepsMissingRanked(rank: map<Key, nat>, s: State, bound: nat,
                                             deps: seq<Dependency>, i: nat, acc: seq<Instance>)
    requires Consistent(s) && Ranked(rank, s.chain)
    requires i <= |deps| && forall d | d in deps :: RankOf(rank, d.key) < bound
    ensures MissingBelow(rank, ResolveDeps(rank, s, bound, deps, i, acc).result, bound)
    decreases bound, |s.chain|, 0, |deps| - i, 1
  {
    if i < |deps| {
      DepsMissingStep(rank, s, bound, deps, i, acc);
    }
  }

  /** The first remaining dependency fails with a key below `bound`, or the rest of the loop
      runs from the state it left. */
  lemma {:induction false} DepsMissingStep(rank: map<Key, nat>, s: State, bound: nat,
                                           deps: seq<Dependency>, i: nat, acc: seq<Instance>)
    requires Consistent(s) && Ranked(rank, s.chain)
    requires i < |deps| && forall d | d in deps :: RankOf(rank, d.key) < bound
    ensures MissingBelow(rank, ResolveDeps(rank, s, bound, deps, i, acc).result, bound)
    decreases bound, |s.chain|, 0, |deps| - i, 0
  {
    assert deps[i] in deps;
    ResolveMissingRanked(rank, s, deps[i].key, deps[i].tag);
    var d := Resolve(rank, s, deps[i].key, deps[i].tag);
    if d.result.Ok? {
      DepsMissingRanked(rank, d.state, bound, deps, i + 1, acc + [d.result.value]);
    }
  }

  /** `KeyNotFound(key)` is the answer exactly when neither the container nor any ancestor
      registers `key`. */
  lemma {:induction false} KeyNotFoundIffUnregistered(rank: map<Key, nat>, s: State, key: Key, tag: TypeTag)
    requires Consistent(s) && Ranked(rank, s.chain)
    ensures Resolve(rank, s, key, tag).result == Err(KeyNotFound(key)) <==>
            forall j | 0 <= j < |s.chain| :: key !in s.chain[j].providers
    decreases |s.chain|
  {
    if key in s.Current().providers {
      RegisteredNotMissing(rank, s, key, tag);
      assert key in s.chain[|s.chain| - 1].providers;
    } else {
      assert LevelConsistent(s.Current(), s.next);
      if |s.chain| > 1 {
        ParentConsistent(rank, s);
        KeyNotFoundIffUnregistered(rank, s.Parent(), key, tag);
        ParentAnswer(rank, s, key, tag);
        UnregisteredInParent(s, key);
      }
    }
  }

  /** Below the root, a key this container does not register is unregistered in the whole
      chain exactly when it is unregistered in the parent's chain. */
  lemma UnregisteredInParent(s: State, key: Key)
    requires s.Valid() && |s.chain| > 1 && key !in s.Current().providers
    ensures (forall j | 0 <= j < |s.chain| :: key !in s.chain[j].providers) <==>
            (forall j | 0 <= j < |s.Parent().chain| :: key !in s.Parent().chain[j].providers)
  {
    assert forall j | 0 <= j < |s.chain| - 1 :: s.Parent().chain[j] == s.chain[j];
  }

  /** A key the container registers is never reported missing under its own name: the
      provider's dependencies are all of lower rank. */
  lemma RegisteredNotMissing(rank: map<Key, nat>, s: State, key: Key, tag: TypeTag)
    requires Consistent(s) && Ranked(rank, s.chain)
    requires key in s.Current().providers
    ensures Resolve(rank, s, key, tag).result != Err(KeyNotFound(key))
  {
    var c := s.Current();
    if key !in c.resolved && c.providers[key].provider.output == tag {
      ProvideMissingRanked(rank, s, key, c.providers[key].provider);
    }
  }

  /** A key the container neither caches nor registers gets the parent's answer. */
  lemma ParentAnswer(rank: map<Key, nat>, s: State, key: Key, tag: TypeTag)
    requires Consistent(s) && Ranked(rank, s.chain) && |s.chain| > 1
    requires key !in s.Current().providers && key !in s.Current().resolved
    requires Consistent(s.Parent()) && Ranked(rank, s.Parent().chain)
    ensures Resolve(rank, s, key, tag).result == Resolve(rank, s.Parent(), key, tag).result
  {
  }
}
