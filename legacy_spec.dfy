/** Reference semantics of the older container (src/lib.rs), one resolve at a time.

    A container there owns one provider map, a cache of resolved instances and an optional
    parent; `scoped()` makes a child whose parent is the container it was called on. The model
    sees a container together with its ancestors as a `State`: the chain of `Level`s from the
    root to the container itself, plus the allocator's next id and the log of provider
    invocations. A resolve may fill the cache of the container or of any ancestor, so every
    operation maps a whole state to an `Outcome`.

    As for the current engine, termination rests on a `rank` that drops along every
    registered dependency. Registries with any cycle are excluded: a resolve that reaches one
    recurses until the stack overflows, unless a type mismatch cuts the cycle first. */
module LegacySpec {

  import opened Wrappers
  import opened Errors
  import opened Providers
  import K = Registration

  /** `Registration<T>`: a provider and the kind it was registered under. */
  datatype Registration = Registration(kind: K.RegistrationKind, provider: Provider)

  /** One `InnerContainer`: its `provider_map` and its `resolved_map`. */
  datatype Level = Level(providers: map<Key, Registration>, resolved: map<Key, Instance>)

  /** A container with its ancestors, root first and the container itself last. */
  datatype State = State(chain: seq<Level>, next: nat, invoked: seq<Key>)
  {
    ghost predicate Valid()
    {
      |chain| > 0
    }

    /** The container the state is about. */
    function Current(): Level
      requires Valid()
    {
      chain[|chain| - 1]
    }

    /** The same state seen from the parent container. */
    function Parent(): (p: State)
      requires |chain| > 1
      ensures p.Valid() && p.next == next && p.invoked == invoked
    {
      this.(chain := chain[..|chain| - 1])
    }
  }

  /** The result of an operation and the state it leaves behind. */
  datatype Outcome<T> = Outcome(result: Result<T>, state: State)

  /** `rank` witnesses that the dependencies registered at this level have no cycle. */
  ghost predicate RankedLevel(rank: map<Key, nat>, l: Level)
  {
    forall k | k in l.providers ::
      forall d | d in l.providers[k].provider.deps :: RankOf(rank, d.key) < RankOf(rank, k)
  }

  ghost predicate Ranked(rank: map<Key, nat>, chain: seq<Level>)
  {
    forall j | 0 <= j < |chain| :: RankedLevel(rank, chain[j])
  }

  /** A cache entry was built by this level's own Scoped or Singleton provider, before `next`. */
  ghost predicate LevelConsistent(l: Level, next: nat)
  {
    forall k | k in l.resolved ::
      && k in l.providers
      && l.providers[k].kind != K.Transient
      && l.resolved[k].tag == l.providers[k].provider.output
      && l.resolved[k].id < next
  }

  ghost predicate Consistent(s: State)
  {
    s.Valid() && forall j | 0 <= j < |s.chain| :: LevelConsistent(s.chain[j], s.next)
  }

  /** How a level may change during a resolve: its providers stay, every cache entry stays, and
      a new entry belongs to a key of rank below `r`. */
  ghost predicate LevelGrows(rank: map<Key, nat>, l: Level, l': Level, r: nat)
  {
    && l'.providers == l.providers
    && (forall k | k in l.resolved :: k in l'.resolved && l'.resolved[k] == l.resolved[k])
    && (forall k | k in l'.resolved && k !in l.resolved :: RankOf(rank, k) < r)
  }

  ghost predicate Grows(rank: map<Key, nat>, s: State, s': State, r: nat)
  {
    && |s'.chain| == |s.chain|
    && s.next <= s'.next
    && s.invoked <= s'.invoked
    && forall j | 0 <= j < |s.chain| :: LevelGrows(rank, s.chain[j], s'.chain[j], r)
  }

  lemma GrowsTransitive(rank: map<Key, nat>, s0: State, s1: State, s2: State, r1: nat, r2: nat, r: nat)
    requires Grows(rank, s0, s1, r1) && Grows(rank, s1, s2, r2) && r1 <= r && r2 <= r
    ensures Grows(rank, s0, s2, r)
  {
    forall j | 0 <= j < |s0.chain|
      ensures LevelGrows(rank, s0.chain[j], s2.chain[j], r)
    {
      assert LevelGrows(rank, s0.chain[j], s1.chain[j], r1);
      assert LevelGrows(rank, s1.chain[j], s2.chain[j], r2);
    }
  }

  /** Growing keeps every provider map, hence the ranking, and keeps old entries below `next`. */
  lemma GrowsRanked(rank: map<Key, nat>, s: State, s': State, r: nat)
    requires Grows(rank, s, s', r) && Ranked(rank, s.chain)
    ensures Ranked(rank, s'.chain)
  {
    forall j | 0 <= j < |s'.chain|
      ensures RankedLevel(rank, s'.chain[j])
    {
      assert LevelGrows(rank, s.chain[j], s'.chain[j], r);
      assert RankedLevel(rank, s.chain[j]);
    }
  }

  /** `InnerContainer::check_resolved`: a cached instance of the requested type, a type
      mismatch for a cached instance of another type, or nothing when the key is not cached. */
  function CheckResolved(resolved: map<Key, Instance>, key: Key, tag: TypeTag): (r: Option<Result<Instance>>)
    ensures r.Some? <==> key in resolved
    ensures r.Some? && r.value.Ok? <==> key in resolved && resolved[key].tag == tag
    ensures r.Some? && r.value.Ok? ==> r.value.value == resolved[key]
    ensures r.Some? && r.value.Err? ==> r.value.error == TypeMismatch(key)
  {
    if key !in resolved then None
    else if resolved[key].tag == tag then Some(Ok(resolved[key]))
    else Some(Err(TypeMismatch(key)))
  }

  /** `Container::resolve`: the cache first, then this container's providers, then the parent. */
  ghost function Resolve(rank: map<Key, nat>, s: State, key: Key, tag: TypeTag): (o: Outcome<Instance>)
    requires Consistent(s) && Ranked(rank, s.chain)
    ensures Consistent(o.state) && Ranked(rank, o.state.chain)
    ensures Grows(rank, s, o.state, RankOf(rank, key) + 1)
    ensures o.result.Ok? ==> o.result.value.tag == tag && o.result.value.id < o.state.next
    ensures key in s.Current().resolved ==> o.state == s
    ensures key in s.Current().providers && key !in s.Current().resolved ==> o == ResolveHere(rank, s, key, tag)
    ensures o.result.Ok? && key in s.Current().providers && s.Current().providers[key].kind != K.Transient ==>
              key in o.state.Current().resolved && o.state.Current().resolved[key] == o.result.value
    decreases RankOf(rank, key), |s.chain|, 4
  {
    var c := s.Current();
    var cached := CheckResolved(c.resolved, key, tag);
    if cached.Some? then Outcome(cached.value, s)
    else if key !in c.providers then ResolveInParent(rank, s, key, tag)
    else ResolveHere(rank, s, key, tag)
  }

  /** `Container::resolve` for a key this container has neither cached nor registered: the
      parent's answer, or `KeyNotFound` at the root. */
  ghost function ResolveInParent(rank: map<Key, nat>, s: State, key: Key, tag: TypeTag): (o: Outcome<Instance>)
    requires Consistent(s) && Ranked(rank, s.chain)
    requires key !in s.Current().providers
    ensures Consistent(o.state) && Ranked(rank, o.state.chain)
    ensures Grows(rank, s, o.state, RankOf(rank, key) + 1)
    ensures o.result.Ok? ==> o.result.value.tag == tag && o.result.value.id < o.state.next
    ensures o.state.Current() == s.Current()
    decreases RankOf(rank, key), |s.chain|, 1
  {
    if |s.chain| == 1 then Outcome(Err(KeyNotFound(key)), s)
    else
      ParentConsistent(rank, s);
      var o := Resolve(rank, s.Parent(), key, tag);
      Adopt(rank, s, o, key)
  }

  /** Below the root, the parent's answer: its result, and its state with this container's
      own level appended unchanged. */
  lemma InParent(rank: map<Key, nat>, s: State, key: Key, tag: TypeTag, r: Result<Instance>, p: State, t: State)
    requires Consistent(s) && Ranked(rank, s.chain) && |s.chain| > 1
    requires key !in s.Current().providers
    requires Consistent(s.Parent()) && Ranked(rank, s.Parent().chain)
    requires Outcome(r, p) == Resolve(rank, s.Parent(), key, tag)
    requires t == State(p.chain + [s.Current()], p.next, p.invoked)
    ensures Outcome(r, t) == ResolveInParent(rank, s, key, tag)
  {
  }

  /** The parent of a consistent, ranked state is consistent and ranked. */
  lemma ParentConsistent(rank: map<Key, nat>, s: State)
    requires Consistent(s) && Ranked(rank, s.chain) && |s.chain| > 1
    ensures Consistent(s.Parent()) && Ranked(rank, s.Parent().chain)
  {
    assert forall j | 0 <= j < |s.chain| - 1 :: s.Parent().chain[j] == s.chain[j];
  }

  /** The rest of `Container::resolve` once the provider was found in this container's own
      map: a provider of another type is a type mismatch and is not invoked; a Transient
      result is passed on as it is; a Scoped or Singleton success is stored in this
      container's cache, and a failure is passed on without touching the cache. */
  ghost function ResolveHere(rank: map<Key, nat>, s: State, key: Key, tag: TypeTag): (o: Outcome<Instance>)
    requires Consistent(s) && Ranked(rank, s.chain)
    requires key in s.Current().providers && key !in s.Current().resolved
    ensures Consistent(o.state) && Ranked(rank, o.state.chain)
    ensures Grows(rank, s, o.state, RankOf(rank, key) + 1)
    ensures o.result.Ok? ==> o.result.value.tag == tag && o.result.value.id < o.state.next
    ensures s.Current().providers[key].provider.output != tag ==> o == Outcome(Err(TypeMismatch(key)), s)
    ensures s.Current().providers[key].provider.output == tag ==>
              && |s.invoked| < |o.state.invoked| && o.state.invoked[|s.invoked|] == key
              && (o.result.Ok? ==> s.next <= o.result.value.id)
              && (o.result.Ok? && s.Current().providers[key].kind != K.Transient <==>
                    key in o.state.Current().resolved)
    ensures o.result.Ok? && s.Current().providers[key].kind != K.Transient ==>
              key in o.state.Current().resolved && o.state.Current().resolved[key] == o.result.value
    decreases RankOf(rank, key), |s.chain|, 3
  {
    var registration := s.Current().providers[key];
    if registration.provider.output != tag then Outcome(Err(TypeMismatch(key)), s)
    else
      var provided := Provide(rank, s, key, registration.provider);
      assert LevelGrows(rank, s.Current(), provided.state.Current(), RankOf(rank, key));
      if registration.kind == K.Transient || provided.result.Err? then provided
      else
        var o := Store(provided, key);
        StoreGrows(rank, s, provided, o, key);
        o
  }

  lemma StoreGrows(rank: map<Key, nat>, s: State, provided: Outcome<Instance>, o: Outcome<Instance>, key: Key)
    requires Consistent(s) && Grows(rank, s, provided.state, RankOf(rank, key))
    requires Consistent(provided.state) && |o.state.chain| == |provided.state.chain|
    requires o.state.next == provided.state.next && o.state.invoked == provided.state.invoked
    requires forall j | 0 <= j < |s.chain| - 1 :: o.state.chain[j] == provided.state.chain[j]
    requires o.state.Current().providers == provided.state.Current().providers
    requires key !in provided.state.Current().resolved
    requires o.result.Ok? && o.state.Current().resolved == provided.state.Current().resolved[key := o.result.value]
    ensures Grows(rank, s, o.state, RankOf(rank, key) + 1)
  {
    var n := |s.chain| - 1;
    forall j | 0 <= j < |s.chain|
      ensures LevelGrows(rank, s.chain[j], o.state.chain[j], RankOf(rank, key) + 1)
    {
      assert LevelGrows(rank, s.chain[j], provided.state.chain[j], RankOf(rank, key));
    }
  }

  /** The answer of the parent, seen from the child: the child's own level is untouched. */
  ghost function Adopt(rank: map<Key, nat>, s: State, o: Outcome<Instance>, key: Key): (a: Outcome<Instance>)
    requires Consistent(s) && Ranked(rank, s.chain) && |s.chain| > 1
    requires Consistent(o.state) && Ranked(rank, o.state.chain)
    requires Grows(rank, s.Parent(), o.state, RankOf(rank, key) + 1)
    ensures a.result == o.result && a.state.next == o.state.next && a.state.invoked == o.state.invoked
    ensures |a.state.chain| == |s.chain| && a.state.Current() == s.Current() && a.state.Parent() == o.state
    ensures Consistent(a.state) && Ranked(rank, a.state.chain)
    ensures Grows(rank, s, a.state, RankOf(rank, key) + 1)
  {
    var a := Outcome(o.result, o.state.(chain := o.state.chain + [s.Current()]));
    assert a.state.chain[..|a.state.chain| - 1] == o.state.chain;
    AdoptGrows(rank, s, o.state, a.state, RankOf(rank, key) + 1);
    a
  }

  /** Appending the child's untouched level to the parent's grown state grows the child's
      state, and keeps it consistent and ranked. */
  lemma AdoptGrows(rank: map<Key, nat>, s: State, p: State, a: State, r: nat)
    requires Consistent(s) && Ranked(rank, s.chain) && |s.chain| > 1
    requires Consistent(p) && Ranked(rank, p.chain) && Grows(rank, s.Parent(), p, r)
    requires a == p.(chain := p.chain + [s.Current()])
    ensures Consistent(a) && Ranked(rank, a.chain) && Grows(rank, s, a, r)
  {
    assert LevelConsistent(s.Current(), s.next);
    forall j | 0 <= j < |s.chain|
      ensures LevelGrows(rank, s.chain[j], a.chain[j], r)
      ensures LevelConsistent(a.chain[j], a.next) && RankedLevel(rank, a.chain[j])
    {
      if j < |s.chain| - 1 {
        assert s.chain[j] == s.Parent().chain[j] && a.chain[j] == p.chain[j];
        assert LevelGrows(rank, s.Parent().chain[j], p.chain[j], r);
      }
    }
  }

  /** The end of a Scoped or Singleton resolve: `entry(key).or_insert(..)` on this container's
      cache. The key is absent at that point (nothing a provider resolves has its rank), so the
      new instance is stored and handed out, and the `unwrap` after it cannot fail. */
  ghost function Store(o: Outcome<Instance>, key: Key): (s: Outcome<Instance>)
    requires Consistent(o.state) && o.result.Ok? && o.result.value.id < o.state.next
    requires key in o.state.Current().providers && key !in o.state.Current().resolved
    requires o.state.Current().providers[key].kind != K.Transient
    requires o.result.value.tag == o.state.Current().providers[key].provider.output
    ensures Consistent(s.state) && s.result == o.result
    ensures |s.state.chain| == |o.state.chain| && s.state.next == o.state.next && s.state.invoked == o.state.invoked
    ensures forall j | 0 <= j < |o.state.chain| - 1 :: s.state.chain[j] == o.state.chain[j]
    ensures s.state.Current().providers == o.state.Current().providers
    ensures s.state.Current().resolved == o.state.Current().resolved[key := o.result.value]
  {
    var c := o.state.Current();
    var n := |o.state.chain| - 1;
    var s := Outcome(o.result, o.state.(chain := o.state.chain[n := c.(resolved := c.resolved[key := o.result.value])]));
    assert forall j | 0 <= j < n :: s.state.chain[j] == o.state.chain[j];
    s
  }

  /** `Provide::provide` with the container the provider was found in: log the invocation,
      resolve the dependencies in order through that container, then construct. */
  ghost function Provide(rank: map<Key, nat>, s: State, key: Key, p: Provider): (o: Outcome<Instance>)
    requires Consistent(s) && Ranked(rank, s.chain)
    requires key in s.Current().providers && p == s.Current().providers[key].provider
    ensures Consistent(o.state) && Ranked(rank, o.state.chain) && Grows(rank, s, o.state, RankOf(rank, key))
    ensures |s.invoked| < |o.state.invoked| && o.state.invoked[|s.invoked|] == key
    ensures o.result.Ok? ==> o.result.value.tag == p.output && s.next <= o.result.value.id < o.state.next
    decreases RankOf(rank, key), |s.chain|, 1
  {
    var s1 := s.(invoked := s.invoked + [key]);
    assert Grows(rank, s, s1, 0);
    assert RankedLevel(rank, s.Current());
    var deps := ResolveDeps(rank, s1, RankOf(rank, key), p.deps, 0, []);
    GrowsTransitive(rank, s, s1, deps.state, 0, RankOf(rank, key), RankOf(rank, key));
    Construct(p, deps)
  }

  /** The end of `provide`: a dependency error is passed on, then the provider's own failure;
      otherwise the next id names a new instance of the provider's type. */
  ghost function Construct(p: Provider, d: Outcome<seq<Instance>>): (o: Outcome<Instance>)
    ensures o.state.chain == d.state.chain && o.state.invoked == d.state.invoked
    ensures o.result.Ok? <==> d.result.Ok? && p.failure.None?
    ensures o.result.Ok? ==> o.result.value == Instance(d.state.next, p.output, d.result.value)
                             && o.state.next == d.state.next + 1
    ensures o.result.Err? ==> o.state == d.state
    ensures Consistent(d.state) ==> Consistent(o.state)
  {
    if d.result.Err? then Outcome(Err(d.result.error), d.state)
    else if p.failure.Some? then Outcome(Err(Inner(p.failure.value)), d.state)
    else
      var o := Outcome(Ok(Instance(d.state.next, p.output, d.result.value)), d.state.(next := d.state.next + 1));
      assert forall j | 0 <= j < |o.state.chain| :: o.state.chain[j] == d.state.chain[j];
      o
  }

  /** The dependencies `deps[i..]` resolved in order after `acc`, stopping at the first error. */
  ghost function ResolveDeps(rank: map<Key, nat>, s: State, bound: nat,
                             deps: seq<Dependency>, i: nat, acc: seq<Instance>): (o: Outcome<seq<Instance>>)
    requires Consistent(s) && Ranked(rank, s.chain)
    requires i <= |deps| && forall d | d in deps :: RankOf(rank, d.key) < bound
    ensures Consistent(o.state) && Ranked(rank, o.state.chain) && Grows(rank, s, o.state, bound)
    ensures o.result.Ok? ==> |o.result.value| == |acc| + |deps| - i
    decreases bound, |s.chain|, 0, |deps| - i
  {
    if i == |deps| then Outcome(Ok(acc), s)
    else
      assert deps[i] in deps;
      var d := Resolve(rank, s, deps[i].key, deps[i].tag);
      if d.result.Err? then
        GrowsTransitive(rank, s, d.state, d.state, RankOf(rank, deps[i].key) + 1, 0, bound);
        Outcome(Err(d.result.error), d.state)
      else
        var o := ResolveDeps(rank, d.state, bound, deps, i + 1, acc + [d.result.value]);
        GrowsTransitive(rank, s, d.state, o.state, RankOf(rank, deps[i].key) + 1, bound, bound);
        o
  }

  /** One turn of the dependency loop: the loop stops at an error, or goes on from the state
      the dependency's resolve left. */
  lemma DepsStep(rank: map<Key, nat>, s: State, bound: nat, deps: seq<Dependency>, i: nat, acc: seq<Instance>,
                 d: Outcome<Instance>)
    requires Consistent(s) && Ranked(rank, s.chain)
    requires i < |deps| && forall d | d in deps :: RankOf(rank, d.key) < bound
    requires d == Resolve(rank, s, deps[i].key, deps[i].tag)
    ensures Consistent(d.state) && Ranked(rank, d.state.chain)
    ensures d.result.Err? ==> ResolveDeps(rank, s, bound, deps, i, acc) == Outcome(Err(d.result.error), d.state)
    ensures d.result.Ok? ==>
              ResolveDeps(rank, s, bound, deps, i, acc) == ResolveDeps(rank, d.state, bound, deps, i + 1, acc + [d.result.value])
  {
  }

  /** The level `scoped()` adds: exactly the Scoped and Transient registrations of the
      container it is called on, and an empty cache. */
  function ScopedLevel(l: Level): (c: Level)
    ensures c.resolved == map[]
    ensures forall k :: k in c.providers <==> k in l.providers && l.providers[k].kind != K.Singleton
    ensures forall k | k in c.providers :: c.providers[k] == l.providers[k]
  {
    Level(map k | k in l.providers && l.providers[k].kind != K.Singleton :: l.providers[k], map[])
  }

  /** `scoped()`: a child of the current container, which itself is left as it was. */
  function Scoped(s: State): (c: State)
    requires s.Valid()
    ensures |c.chain| == |s.chain| + 1 && c.Parent() == s && c.Current() == ScopedLevel(s.Current())
    ensures Consistent(s) ==> Consistent(c)
    ensures forall rank: map<Key, nat> :: Ranked(rank, s.chain) ==> Ranked(rank, c.chain)
  {
    var c := s.(chain := s.chain + [ScopedLevel(s.Current())]);
    assert c.chain[..|s.chain|] == s.chain;
    assert forall rank: map<Key, nat> :: RankedLevel(rank, s.Current()) ==> RankedLevel(rank, c.Current());
    c
  }

  /** `build`: a root container with the registered providers and an empty cache. */
  function Built(providers: map<Key, Registration>, next: nat, invoked: seq<Key>): (s: State)
    ensures Consistent(s) && |s.chain| == 1 && s.Current() == Level(providers, map[])
  {
    State([Level(providers, map[])], next, invoked)
  }
}
