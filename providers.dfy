/** What the containers need to know about providers and the values they build.

    Type erasure is replaced by a type tag carried next to every erased value and provider;
    identity of the shared handles is replaced by a numeric instance id. */
module Providers {

  import opened Wrappers

  /** A registration key (a `&'static str` or `String` in the crate). */
  type Key = string

  /** Names a concrete Rust type; two tags are equal iff the types are. */
  type TypeTag = string

  /** A constructed value behind a shared handle: its identity, its type and the instances
      injected into it, in the order they were resolved. */
  datatype Instance = Instance(id: nat, tag: TypeTag, parts: seq<Instance>)

  /** One injected field: the key it is resolved under and the type it is resolved as. */
  datatype Dependency = Dependency(key: Key, tag: TypeTag)

  /** A provider as the derive macro generates it: resolve every dependency in order (the first
      error is returned), then construct an instance of `output`. A hand-written provider may
      fail at the construction step; `failure` holds the description of that error. */
  datatype Provider = Provider(output: TypeTag, deps: seq<Dependency>, failure: Option<string>)

  /** The position of a key in the dependency order; unregistered keys come first. */
  function RankOf(rank: map<Key, nat>, k: Key): nat
  {
    if k in rank then rank[k] + 1 else 0
  }

  /** The allocator behind `Arc::new`: every instance it hands out gets an id never used
      before. `invoked` records, for the model only, every provider invocation in order. */
  class Heap {
    var next: nat
    ghost var invoked: seq<Key>

    constructor ()
      ensures next == 0 && invoked == []
    {
      next := 0;
      invoked := [];
    }

    method Allocate(tag: TypeTag, parts: seq<Instance>) returns (x: Instance)
      modifies this
      ensures x == Instance(old(next), tag, parts)
      ensures next == old(next) + 1 && invoked == old(invoked)
    {
      x := Instance(next, tag, parts);
      next := next + 1;
    }

    /** Notes that the provider registered under `key` was called. */
    ghost method Record(key: Key)
      modifies this
      ensures invoked == old(invoked) + [key] && next == old(next)
    {
      invoked := invoked + [key];
    }
  }
}
