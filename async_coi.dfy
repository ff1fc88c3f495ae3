/** The oldest container (coi/src/lib.rs): a map from keys to providers with no lifetimes and
    no cache. Every resolve looks the provider up, checks its type and calls it; the provider
    resolves its own dependencies through the same container. Awaiting is sequential here, so
    the `async` functions are modelled as ordinary ones. */
module AsyncCoi {

  import opened Errors
  import opened Providers

  /** What a resolve changes outside the container: the allocator's next id and the log of
      provider invocations. */
  datatype World = World(next: nat, invoked: seq<Key>)

  /** The result of an operation and the world it leaves behind. */
  datatype Outcome<T> = Outcome(result: Result<T>, world: World)

  /** `Container`: the provider map `build` handed over; resolving never changes it. */
  datatype Container = Container(providerMap: map<Key, Provider>)
  {
    /** `rank` witnesses that the registered dependency graph has no cycle. */
    ghost predicate Ranked(rank: map<Key, nat>)
    {
      forall k | k in providerMap ::
        forall d | d in providerMap[k].deps :: RankOf(rank, d.key) < RankOf(rank, k)
    }
  }

  /** `Container::resolve`: `KeyNotFound` for an unregistered key, `TypeMismatch` for a
      provider of another type (which is then not called), otherwise the provider's result.
      Nothing is remembered: every call that passes both checks calls the provider again. */
  ghost function Resolve(c: Container, rank: map<Key, nat>, w: World, key: Key, tag: TypeTag): (o: Outcome<Instance>)
    requires c.Ranked(rank)
    ensures w.next <= o.world.next && w.invoked <= o.world.invoked
    ensures o.result.Ok? ==> o.result.value.tag == tag && w.next <= o.result.value.id < o.world.next
    ensures key !in c.providerMap ==> o == Outcome(Err(KeyNotFound(key)), w)
    ensures key in c.providerMap && c.providerMap[key].output != tag ==> o == Outcome(Err(TypeMismatch(key)), w)
    ensures key in c.providerMap && c.providerMap[key].output == tag ==>
              |w.invoked| < |o.world.invoked| && o.world.invoked[|w.invoked|] == key
    decreases RankOf(rank, key), 2, 0
  {
    if key !in c.providerMap then Outcome(Err(KeyNotFound(key)), w)
    else
      var p := c.providerMap[key];
      if p.output != tag then Outcome(Err(TypeMismatch(key)), w)
      else Provide(c, rank, w, key, p)
  }

  /** `Provide::provide`: log the call, resolve the dependencies in order, then construct. */
  ghost function Provide(c: Container, rank: map<Key, nat>, w: World, key: Key, p: Provider): (o: Outcome<Instance>)
    requires c.Ranked(rank) && key in c.providerMap && p == c.providerMap[key]
    ensures w.next <= o.world.next && |w.invoked| < |o.world.invoked|
    ensures o.world.invoked[..|w.invoked| + 1] == w.invoked + [key]
    ensures o.result.Ok? ==> o.result.value.tag == p.output && w.next <= o.result.value.id < o.world.next
    decreases RankOf(rank, key), 1, 0
  {
    var w1 := w.(invoked := w.invoked + [key]);
    var deps := ResolveDeps(c, rank, w1, RankOf(rank, key), p.deps, 0, []);
    if deps.result.Err? then Outcome(Err(deps.result.error), deps.world)
    else if p.failure.Some? then Outcome(Err(Inner(p.failure.value)), deps.world)
    else Outcome(Ok(Instance(deps.world.next, p.output, deps.result.value)), deps.world.(next := deps.world.next + 1))
  }

  /** The dependencies `deps[i..]` resolved in order after `acc`, stopping at the first error. */
  ghost function ResolveDeps(c: Container, rank: map<Key, nat>, w: World, bound: nat,
                             deps: seq<Dependency>, i: nat, acc: seq<Instance>): (o: Outcome<seq<Instance>>)
    requires c.Ranked(rank) && i <= |deps| && forall d | d in deps :: RankOf(rank, d.key) < bound
    ensures w.next <= o.world.next && w.invoked <= o.world.invoked
    ensures o.result.Ok? ==> |o.result.value| == |acc| + |deps| - i
    decreases bound, 0, |deps| - i
  {
    if i == |deps| then Outcome(Ok(acc), w)
    else
      assert deps[i] in deps;
      var d := Resolve(c, rank, w, deps[i].key, deps[i].tag);
      if d.result.Err? then Outcome(Err(d.result.error), d.world)
      else ResolveDeps(c, rank, d.world, bound, deps, i + 1, acc + [d.result.value])
  }

  /** No memoisation: a second resolve of the same key calls the provider again and, when both
      succeed, hands out a different instance. */
  lemma NoMemoisation(c: Container, rank: map<Key, nat>, w: World, key: Key, tag: TypeTag)
    requires c.Ranked(rank) && key in c.providerMap && c.providerMap[key].output == tag
    ensures var first := Resolve(c, rank, w, key, tag);
            var second := Resolve(c, rank, first.world, key, tag);
            && |first.world.invoked| < |second.world.invoked| && second.world.invoked[|first.world.invoked|] == key
            && (first.result.Ok? && second.result.Ok? ==> first.result.value != second.result.value)
  {
  }

  /** Any `KeyNotFound` in `r` names a key of rank below `b`. */
  ghost predicate MissingBelow<T>(rank: map<Key, nat>, r: Result<T>, b: nat)
  {
    r.Err? && r.error.KeyNotFound? ==> RankOf(rank, r.error.key) < b
  }

  /** `KeyNotFound(key)` is the answer exactly when `key` is not registered: a missing
      dependency is reported under its own key, never under the key asked for. */
  lemma {:induction false} KeyNotFoundIffUnregistered(c: Container, rank: map<Key, nat>, w: World, key: Key, tag: TypeTag)
    requires c.Ranked(rank)
    ensures Resolve(c, rank, w, key, tag).result == Err(KeyNotFound(key)) <==> key !in c.providerMap
  {
    if key in c.providerMap && c.providerMap[key].output == tag {
      ProvideMissingBelow(c, rank, w, key, c.providerMap[key]);
    }
  }

  lemma {:induction false} ResolveMissingBelow(c: Container, rank: map<Key, nat>, w: World, key: Key, tag: TypeTag)
    requires c.Ranked(rank)
    ensures MissingBelow(rank, Resolve(c, rank, w, key, tag).result, RankOf(rank, key) + 1)
    decreases RankOf(rank, key), 2, 0
  {
    if key in c.providerMap && c.providerMap[key].output == tag {
      ProvideMissingBelow(c, rank, w, key, c.providerMap[key]);
    }
  }

  lemma {:induction false} ProvideMissingBelow(c: Container, rank: map<Key, nat>, w: World, key: Key, p: Provider)
    requires c.Ranked(rank) && key in c.providerMap && p == c.providerMap[key]
    ensures MissingBelow(rank, Provide(c, rank, w, key, p).result, RankOf(rank, key))
    decreases RankOf(rank, key), 1, 0
  {
    DepsMissingBelow(c, rank, w.(invoked := w.invoked + [key]), RankOf(rank, key), p.deps, 0, []);
  }

  lemma {:induction false} DepsMissingBelow(c: Container, rank: map<Key, nat>, w: World, bound: nat,
                                            deps: seq<Dependency>, i: nat, acc: seq<Instance>)
    requires c.Ranked(rank) && i <= |deps| && forall d | d in deps :: RankOf(rank, d.key) < bound
    ensures MissingBelow(rank, ResolveDeps(c, rank, w, bound, deps, i, acc).result, bound)
    decreases bound, 0, |deps| - i
  {
    if i < |deps| {
      assert deps[i] in deps;
      ResolveMissingBelow(c, rank, w, deps[i].key, deps[i].tag);
      var d := Resolve(c, rank, w, deps[i].key, deps[i].tag);
      if d.result.Ok? {
        DepsMissingBelow(c, rank, d.world, bound, deps, i + 1, acc + [d.result.value]);
      }
    }
  }

  /** Nothing but the allocator carries over between resolves: from two worlds with the same
      next id, a resolve returns the same result, allocates as much and calls the same
      providers in the same order, whatever was resolved before. */
  lemma {:induction false} HistoryIndependent(c: Container, rank: map<Key, nat>, w1: World, w2: World, key: Key, tag: TypeTag)
    requires c.Ranked(rank) && w1.next == w2.next
    ensures var o1 := Resolve(c, rank, w1, key, tag);
            var o2 := Resolve(c, rank, w2, key, tag);
            && o1.result == o2.result && o1.world.next == o2.world.next
            && o1.world.invoked[|w1.invoked|..] == o2.world.invoked[|w2.invoked|..]
    decreases RankOf(rank, key), 2, 0
  {
    if key in c.providerMap && c.providerMap[key].output == tag {
      ProvideHistoryIndependent(c, rank, w1, w2, key, c.providerMap[key]);
    }
  }

  lemma {:induction false} ProvideHistoryIndependent(c: Container, rank: map<Key, nat>, w1: World, w2: World, key: Key, p: Provider)
    requires c.Ranked(rank) && key in c.providerMap && p == c.providerMap[key] && w1.next == w2.next
    ensures var o1 := Provide(c, rank, w1, key, p);
            var o2 := Provide(c, rank, w2, key, p);
            && o1.result == o2.result && o1.world.next == o2.world.next
            && o1.world.invoked[|w1.invoked|..] == o2.world.invoked[|w2.invoked|..]
    decreases RankOf(rank, key), 1, 0
  {
    var v1 := w1.(invoked := w1.invoked + [key]);
    var v2 := w2.(invoked := w2.invoked + [key]);
    DepsHistoryIndependent(c, rank, v1, v2, RankOf(rank, key), p.deps, 0, []);
    var d1 := ResolveDeps(c, rank, v1, RankOf(rank, key), p.deps, 0, []);
    var d2 := ResolveDeps(c, rank, v2, RankOf(rank, key), p.deps, 0, []);
    SuffixAfterStep(w1.invoked, key, d1.world.invoked);
    SuffixAfterStep(w2.invoked, key, d2.world.invoked);
  }

  /** A log that extends `log + [key]` is `log`, then `key`, then what came after. */
  lemma SuffixAfterStep(log: seq<Key>, key: Key, log': seq<Key>)
    requires log + [key] <= log'
    ensures log'[|log|..] == [key] + log'[|log| + 1..]
  {
  }

  lemma {:induction false} DepsHistoryIndependent(c: Container, rank: map<Key, nat>, w1: World, w2: World, bound: nat,
                                                  deps: seq<Dependency>, i: nat, acc: seq<Instance>)
    requires c.Ranked(rank) && i <= |deps| && forall d | d in deps :: RankOf(rank, d.key) < bound
    requires w1.next == w2.next
    ensures var o1 := ResolveDeps(c, rank, w1, bound, deps, i, acc);
            var o2 := ResolveDeps(c, rank, w2, bound, deps, i, acc);
            && o1.result == o2.result && o1.world.next == o2.world.next
            && o1.world.invoked[|w1.invoked|..] == o2.world.invoked[|w2.invoked|..]
    decreases bound, 0, |deps| - i
  {
    if i < |deps| {
      assert deps[i] in deps;
      HistoryIndependent(c, rank, w1, w2, deps[i].key, deps[i].tag);
      var d1 := Resolve(c, rank, w1, deps[i].key, deps[i].tag);
      var d2 := Resolve(c, rank, w2, deps[i].key, deps[i].tag);
      if d1.result.Ok? {
        DepsHistoryIndependent(c, rank, d1.world, d2.world, bound, deps, i + 1, acc + [d1.result.value]);
        var o1 := ResolveDeps(c, rank, d1.world, bound, deps, i + 1, acc + [d1.result.value]);
        var o2 := ResolveDeps(c, rank, d2.world, bound, deps, i + 1, acc + [d1.result.value]);
        SuffixJoin(w1.invoked, d1.world.invoked, o1.world.invoked);
        SuffixJoin(w2.invoked, d2.world.invoked, o2.world.invoked);
      }
    }
  }

  /** What was logged from `a` on is what was logged up to `b`, then after it. */
  lemma SuffixJoin(a: seq<Key>, b: seq<Key>, c: seq<Key>)
    requires a <= b <= c
    ensures c[|a|..] == b[|a|..] + c[|b|..]
  {
  }

  /** `ContainerBuilder`: the providers registered so far. */
  class ContainerBuilder {
    var providerMap: map<Key, Provider>

    constructor ()
      ensures providerMap == map[]
    {
      providerMap := map[];
    }

    /** `register`: a later provider under the same key replaces the earlier one. */
    method Register(key: Key, provider: Provider)
      modifies this
      ensures providerMap == old(providerMap)[key := provider]
    {
      providerMap := providerMap[key := provider];
    }

    /** `build`: the container gets exactly the registered providers. */
    method Build() returns (c: Container)
      ensures c.providerMap == providerMap
    {
      c := Container(providerMap);
    }
  }
}
