/**
 The buffer manager: which shared-memory buffers the hub tracks, who owns them, and the
 library references that stand behind them. Each method here runs alone, as it does under
 the manager's lock; the interleavings of its steps are in BufferProtocol.
 */
module Buffers {
  import opened Wrappers

  /** What a library buffer holds, by the family of its element type. */
  datatype Readable = Floats(xs: seq<real>) | Wholes(ns: seq<int>) | Untyped(code: int)

  datatype Metadata = Metadata(byteSize: int)

  datatype Tracked = Tracked(requestor: string, bufferId: string, buffer: Readable, metadata: Metadata)

  /** Tracked buffers by id. */
  type Store = map<string, Tracked>

  datatype BufferError = Library(message: string) | NotFound | NotOwner | NoSamples | UnsupportedType

  /** The shared-memory library and the script server, which both answer as they like; and
      the number of references that the hub holds in the library, by buffer. */
  class Services {
    const readable: (string, nat) -> Result<Readable, BufferError>
    const metadata: (string, nat) -> Result<Metadata, BufferError>
    const handOver: (string, nat) -> Option<BufferError>
    ghost var refs: multiset<string>
    var clock: nat

    constructor (readable: (string, nat) -> Result<Readable, BufferError>,
                 metadata: (string, nat) -> Result<Metadata, BufferError>,
                 handOver: (string, nat) -> Option<BufferError>)
      ensures refs == multiset{} && clock == 0
      ensures this.readable == readable && this.metadata == metadata && this.handOver == handOver
    {
      this.readable, this.metadata, this.handOver := readable, metadata, handOver;
      refs, clock := multiset{}, 0;
    }

    method GetBuffer(id: string) returns (r: Result<Readable, BufferError>)
      modifies this
      ensures r == readable(id, old(clock)) && clock == old(clock) + 1
      ensures refs == old(refs) + if r.Ok? then multiset{id} else multiset{}
    {
      r := readable(id, clock);
      clock := clock + 1;
      if r.Ok? {
        refs := refs + multiset{id};
      }
    }

    method GetMetadata(id: string) returns (r: Result<Metadata, BufferError>)
      modifies this`clock
      ensures r == metadata(id, old(clock)) && clock == old(clock) + 1
    {
      r := metadata(id, clock);
      clock := clock + 1;
    }

    /** Gives a reference back; there must be one. */
    method Release(id: string)
      requires id in refs
      modifies this`refs
      ensures refs == old(refs) - multiset{id}
    {
      refs := refs - multiset{id};
    }

    /** Asks the script server to let go of its own copy. */
    method ReleaseServerCopy(id: string) returns (failure: Option<BufferError>)
      modifies this`clock
      ensures failure == handOver(id, old(clock)) && clock == old(clock) + 1
    {
      failure := handOver(id, clock);
      clock := clock + 1;
    }
  }

  /** What acquiring a buffer comes to, from the moment `clock` on. */
  function Acquired(services: Services, clock: nat, id: string): Result<(Readable, Metadata), BufferError> {
    var buffer :- services.readable(id, clock);
    var metadata :- services.metadata(id, clock + 1);
    match services.handOver(id, clock + 2)
    case Some(e) => Err(e)
    case None => Ok((buffer, metadata))
  }

  /** All three answers decide: the buffer, its metadata, and the hand-over of the server's copy;
      the first that fails is the error. */
  lemma AcquiredExactly(services: Services, clock: nat, id: string)
    ensures Acquired(services, clock, id).Ok? <==>
            && services.readable(id, clock).Ok? && services.metadata(id, clock + 1).Ok?
            && services.handOver(id, clock + 2).None?
    ensures Acquired(services, clock, id).Ok? ==>
              Acquired(services, clock, id).value
              == (services.readable(id, clock).value, services.metadata(id, clock + 1).value)
    ensures Acquired(services, clock, id).Err? ==>
              Acquired(services, clock, id).error
              == if services.readable(id, clock).Err? then services.readable(id, clock).error
                 else if services.metadata(id, clock + 1).Err? then services.metadata(id, clock + 1).error
                 else services.handOver(id, clock + 2).value
  {
  }

  /** The entry holds what the library answered for its buffer at some moment. */
  ghost predicate FromLibrary(services: Services, id: string, t: Tracked) {
    t.bufferId == id && exists clock: nat :: Acquired(services, clock, id) == Ok((t.buffer, t.metadata))
  }

  /** At some moment the buffer could not be acquired, for this reason. */
  ghost predicate NotAcquired(services: Services, id: string, e: BufferError) {
    exists clock: nat :: Acquired(services, clock, id) == Err(e)
  }

  // ------------------------------------------------------------------- samples

  function Reals(ns: seq<int>): (r: seq<real>)
    ensures |r| == |ns|
  {
    seq(|ns|, i requires 0 <= i < |ns| => ns[i] as real)
  }

  /** The samples of a buffer, or why it has none. */
  function SamplesIn(b: Readable): Result<seq<real>, BufferError> {
    match b
    case Floats(xs) => if xs == [] then Err(NoSamples) else Ok(xs)
    case Wholes(ns) => if ns == [] then Err(NoSamples) else Ok(Reals(ns))
    case Untyped(_) => Err(UnsupportedType)
  }

  /** The buffer holds these samples: real ones as they are, whole ones as the same numbers. */
  predicate Holds(b: Readable, xs: seq<real>) {
    xs != [] &&
    match b
    case Floats(ys) => ys == xs
    case Wholes(ns) => |ns| == |xs| && forall i | 0 <= i < |ns| :: xs[i] == ns[i] as real
    case Untyped(_) => false
  }

  lemma SamplesAreHeld(b: Readable, xs: seq<real>)
    ensures SamplesIn(b) == Ok(xs) <==> Holds(b, xs)
  {
    match b {
      case Wholes(ns) =>
        if Holds(b, xs) {
          assert Reals(ns) == xs;
        }
      case _ =>
    }
  }

  lemma SamplesHeld(b: Readable)
    ensures SamplesIn(b).Ok? <==> exists xs :: Holds(b, xs)
    ensures SamplesIn(b).Ok? ==> Holds(b, SamplesIn(b).value)
  {
    forall xs { SamplesAreHeld(b, xs); }
  }

  method CopyWholes(ns: seq<int>) returns (r: Result<seq<real>, BufferError>)
    ensures r == SamplesIn(Wholes(ns))
    ensures r.Ok? <==> ns != []
    ensures r.Ok? ==> |r.value| == |ns| && forall i | 0 <= i < |ns| :: r.value[i] == ns[i] as real
  {
    if |ns| == 0 {
      return Err(NoSamples);
    }
    var samples := new real[|ns|];
    for i := 0 to |ns|
      invariant forall j | 0 <= j < i :: samples[j] == ns[j] as real
    {
      samples[i] := ns[i] as real;
    }
    assert samples[..] == Reals(ns);
    r := Ok(samples[..]);
  }

  // ---------------------------------------------------------------- the manager

  predicate OwnedBy(store: Store, requestor: string, id: string) {
    id in store && store[id].requestor == requestor
  }

  /** What a consumer gets for a buffer. */
  function Consumed(store: Store, requestor: string, id: string): Result<seq<real>, BufferError> {
    if id !in store then Err(NotFound)
    else if store[id].requestor != requestor then Err(NotOwner)
    else SamplesIn(store[id].buffer)
  }

  /** What is tracked after a buffer was consumed: an owned one is gone, come what may. */
  function AfterConsuming(store: Store, requestor: string, id: string): Store {
    if OwnedBy(store, requestor, id) then store - {id} else store
  }

  function Without(store: Store, requestor: string): Store {
    map id | id in store && store[id].requestor != requestor :: store[id]
  }

  /** The sum of the sizes of all tracked buffers. */
  ghost function BytesIn(store: Store): int {
    if store == map[] then 0
    else
      var id :| id in store;
      store[id].metadata.byteSize + BytesIn(store - {id})
  }

  lemma RemoveBoth(store: Store, a: string, b: string)
    ensures store - {a} - {b} == store - {b} - {a}
  {
  }

  /** The sum does not depend on the order in which the entries are added up. */
  lemma {:induction false} BytesWithout(store: Store, id: string)
    requires id in store
    ensures BytesIn(store) == store[id].metadata.byteSize + BytesIn(store - {id})
    decreases |store|
  {
    var first :| first in store && BytesIn(store) == store[first].metadata.byteSize + BytesIn(store - {first});
    if first != id {
      BytesWithout(store - {first}, id);
      BytesWithout(store - {id}, first);
      RemoveBoth(store, first, id);
    }
  }

  /** The library holds one reference for every tracked buffer, one for every entry that was
      overwritten, and no other. */
  ghost predicate Accounted(refs: multiset<string>, tracked: set<string>, overwritten: multiset<string>) {
    refs == multiset(tracked) + overwritten
  }

  lemma AccountedAfterTracking(refs: multiset<string>, tracked: set<string>, overwritten: multiset<string>, id: string)
    requires Accounted(refs, tracked, overwritten)
    ensures Accounted(refs + multiset{id}, tracked + {id},
                      overwritten + if id in tracked then multiset{id} else multiset{})
  {
  }

  lemma AccountedAfterRelease(refs: multiset<string>, tracked: set<string>, overwritten: multiset<string>, id: string)
    requires Accounted(refs, tracked, overwritten) && id in tracked
    ensures id in refs && Accounted(refs - multiset{id}, tracked - {id}, overwritten)
  {
  }

  lemma AcquireAndRelease(refs: multiset<string>, id: string)
    ensures id in refs + multiset{id} && refs + multiset{id} - multiset{id} == refs
  {
  }

  class DataBufferManager {
    const services: Services
    var buffers: Store
    /** References of entries that a later registration of the same id has overwritten. */
    ghost var overwritten: multiset<string>

    /** Every entry is filed under its own id, and the library references are accounted for. */
    ghost predicate Valid()
      reads this, services
    {
      && (forall id :: id in buffers ==> buffers[id].bufferId == id)
      && Accounted(services.refs, buffers.Keys, overwritten)
    }

    constructor (services: Services)
      requires services.refs == multiset{}
      ensures Valid() && buffers == map[] && overwritten == multiset{} && this.services == services
    {
      this.services := services;
      buffers, overwritten := map[], multiset{};
    }

    /** Takes a library reference, reads the metadata and has the script server let go of its
        copy; the reference is given back when a later step fails. */
    method Acquire(id: string) returns (r: Result<(Readable, Metadata), BufferError>)
      modifies services
      ensures r == Acquired(services, old(services.clock), id)
      ensures services.refs == old(services.refs) + if r.Ok? then multiset{id} else multiset{}
    {
      AcquireAndRelease(services.refs, id);
      var buffer := services.GetBuffer(id);
      if buffer.Err? {
        return Err(buffer.error);
      }
      var metadata := services.GetMetadata(id);
      if metadata.Err? {
        services.Release(id);
        return Err(metadata.error);
      }
      var failure := services.ReleaseServerCopy(id);
      if failure.Some? {
        services.Release(id);
        return Err(failure.value);
      }
      r := Ok((buffer.value, metadata.value));
    }

    /** Registration tracks the buffer under its new owner, in place of an entry that may be
        there, if and only if the library has it and its metadata and the script server lets go
        of its copy. Otherwise it reports the first of these failures, and leaves everything as
        it was. */
    method RegisterBuffer(requestor: string, id: string) returns (failure: Option<BufferError>)
      requires Valid()
      modifies this, services
      ensures Valid()
      ensures failure.None? <==>
              && services.readable(id, old(services.clock)).Ok? && services.metadata(id, old(services.clock) + 1).Ok?
              && services.handOver(id, old(services.clock) + 2).None?
      ensures failure.None? ==>
                && buffers
                   == old(buffers)[id := Tracked(requestor, id, services.readable(id, old(services.clock)).value,
                                                 services.metadata(id, old(services.clock) + 1).value)]
                && overwritten == old(overwritten) + if id in old(buffers) then multiset{id} else multiset{}
      ensures failure.Some? ==>
                && buffers == old(buffers) && overwritten == old(overwritten) && services.refs == old(services.refs)
                && failure.value
                   == if services.readable(id, old(services.clock)).Err?
                      then services.readable(id, old(services.clock)).error
                      else if services.metadata(id, old(services.clock) + 1).Err?
                      then services.metadata(id, old(services.clock) + 1).error
                      else services.handOver(id, old(services.clock) + 2).value
    {
      AcquiredExactly(services, services.clock, id);
      AccountedAfterTracking(services.refs, buffers.Keys, overwritten, id);
      var acquired := Acquire(id);
      if acquired.Err? {
        assert services.refs == old(services.refs);
        return Some(acquired.error);
      }
      overwritten := overwritten + if id in buffers then multiset{id} else multiset{};
      buffers := buffers[id := Tracked(requestor, id, acquired.value.0, acquired.value.1)];
      failure := None;
    }

    /** Reads a buffer for its owner and stops tracking it, even when it cannot be read because it
        is empty or of an unknown type. */
    method ConsumeSamples(requestor: string, id: string) returns (r: Result<seq<real>, BufferError>)
      requires Valid()
      modifies this`buffers, services`refs
      ensures Valid()
      ensures r == Consumed(old(buffers), requestor, id)
      ensures buffers == AfterConsuming(old(buffers), requestor, id)
      ensures id in old(buffers) && old(buffers)[id].requestor == requestor ==>
                && buffers == old(buffers) - {id} && services.refs == old(services.refs) - multiset{id}
                && (r.Ok? <==> exists xs :: Holds(old(buffers)[id].buffer, xs))
                && (r.Ok? ==> Holds(old(buffers)[id].buffer, r.value))
      ensures !(id in old(buffers) && old(buffers)[id].requestor == requestor) ==>
                && buffers == old(buffers) && services.refs == old(services.refs)
                && r == Err(if id in old(buffers) then NotOwner else NotFound)
    {
      if id !in buffers {
        return Err(NotFound);
      }
      var tracked := buffers[id];
      if tracked.requestor != requestor {
        return Err(NotOwner);
      }
      match tracked.buffer {
        case Floats(xs) => r := if xs == [] then Err(NoSamples) else Ok(xs);
        case Wholes(ns) => r := CopyWholes(ns);
        case Untyped(_) => r := Err(UnsupportedType);
      }
      SamplesHeld(tracked.buffer);
      AccountedAfterRelease(services.refs, buffers.Keys, overwritten, id);
      services.Release(id);
      buffers := buffers - {id};
    }

    method ReleaseBuffer(id: string) returns (failure: Option<BufferError>)
      requires Valid()
      modifies this`buffers, services`refs
      ensures Valid()
      ensures failure == if id in old(buffers) then None else Some(NotFound)
      ensures buffers == old(buffers) - {id}
    {
      if id !in buffers {
        return Some(NotFound);
      }
      AccountedAfterRelease(services.refs, buffers.Keys, overwritten, id);
      services.Release(id);
      buffers := buffers - {buffers[id].bufferId};
      failure := None;
    }

    /** Releases every buffer of one requestor, deleting while it walks the map in any order. */
    method ReleaseRequestor(requestor: string)
      requires Valid()
      modifies this`buffers, services`refs
      ensures Valid()
      ensures buffers == Without(old(buffers), requestor)
    {
      ghost var before := buffers;
      var remaining := buffers.Keys;
      while remaining != {}
        invariant Valid() && remaining <= buffers.Keys
        invariant forall id :: id in buffers <==>
                    id in before && (id in remaining || before[id].requestor != requestor)
        invariant forall id :: id in buffers ==> buffers[id] == before[id]
        decreases remaining
      {
        var id :| id in remaining;
        if buffers[id].requestor == requestor {
          AccountedAfterRelease(services.refs, buffers.Keys, overwritten, id);
          services.Release(id);
          buffers := buffers - {id};
        }
        remaining := remaining - {id};
      }
    }

    /** The tracked bytes, added up in a uint64. */
    method TotalBytes() returns (total: int)
      ensures total == Uint64(BytesIn(buffers))
    {
      total := 0;
      ghost var added := 0;
      var rest := buffers;
      while rest != map[]
        invariant added + BytesIn(rest) == BytesIn(buffers)
        invariant total == Uint64(added)
        decreases rest.Keys
      {
        var id :| id in rest;
        BytesWithout(rest, id);
        var size := rest[id].metadata.byteSize;
        Uint64Add(added, size);
        total := Uint64(total + size);
        added := added + size;
        rest := rest - {id};
      }
    }
  }
}
