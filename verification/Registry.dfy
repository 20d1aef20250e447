/**
 One primitive measurement from end to end: encode, run the script, register the buffers it
 returned, decode, and clean up on every way out.
 */
module Registry {
  import opened Wrappers
  import opened Ports
  import opened RowMajor
  import opened Planner
  import opened PlanStructure
  import opened PlanExecution
  import opened PrimitiveCode
  import opened PlanMeaning
  import opened Averaging
  import opened Buffers
  import opened WireCodec
  import opened Decoder
  import opened PrimitiveDecoding
  import opened DispatchProtocol
  import opened EndToEnd

  // ------------------------------------------------------------ registering buffers

  /** The entry is `owner`'s and holds what the library answered. */
  ghost predicate ClaimedEntry(services: Services, owner: string, id: string, t: Tracked) {
    t.requestor == owner && FromLibrary(services, id, t)
  }

  /** `owner` has registered `ids`, one after the other, and nothing else has changed. */
  ghost predicate Claimed(services: Services, before: Store, after: Store, owner: string, ids: seq<string>) {
    && after.Keys == before.Keys + IdSet(ids)
    && forall id :: id in after ==>
         if id in ids then ClaimedEntry(services, owner, id, after[id]) else after[id] == before[id]
  }

  predicate Untracked(before: Store, ids: seq<string>) {
    IdSet(ids) !! before.Keys
  }

  /** Nothing tracked was registered again. */
  predicate FreshIds(before: Store, ids: seq<string>) {
    DistinctIds(ids) && Untracked(before, ids)
  }

  /** References are overwritten exactly when something tracked was registered again. */
  ghost predicate OverwritesCounted(before: Store, ids: seq<string>, was: multiset<string>, now: multiset<string>) {
    was <= now && (now == was <==> FreshIds(before, ids))
  }

  lemma ClaimedSnoc(services: Services, before: Store, mid: Store, after: Store, owner: string, ids: seq<string>,
                    id: string)
    requires Claimed(services, before, mid, owner, ids)
    requires after.Keys == mid.Keys + {id} && ClaimedEntry(services, owner, id, after[id])
    requires forall x :: x in mid && x != id ==> after[x] == mid[x]
    ensures Claimed(services, before, after, owner, ids + [id])
  {
    IdSetSnoc(ids, id);
  }

  lemma FreshSnoc(services: Services, before: Store, mid: Store, owner: string, ids: seq<string>, id: string)
    requires Claimed(services, before, mid, owner, ids)
    ensures FreshIds(before, ids + [id]) <==> FreshIds(before, ids) && id !in mid
  {
    IdSetSnoc(ids, id);
    var all := ids + [id];
    if FreshIds(before, all) {
      assert forall i | 0 <= i < |ids| :: ids[i] == all[i];
      assert all[|ids|] == id;
      assert id !in ids;
    }
    if FreshIds(before, ids) && id !in mid {
      forall i, j | 0 <= i < j < |all|
        ensures all[i] != all[j]
      {
        assert all[i] == ids[i] && ids[i] in ids;
      }
    }
  }

  /** What `owner` has claimed so far, since the manager stood at `before`. */
  ghost predicate Claiming(manager: DataBufferManager, owner: string, before: Store, was: multiset<string>,
                           claimed: seq<string>)
    reads manager
  {
    && Claimed(manager.services, before, manager.buffers, owner, claimed)
    && OverwritesCounted(before, claimed, was, manager.overwritten)
  }

  lemma TakenFromLibrary(services: Services, clock: nat, owner: string, id: string)
    requires services.readable(id, clock).Ok? && services.metadata(id, clock + 1).Ok?
    requires services.handOver(id, clock + 2).None?
    ensures ClaimedEntry(services, owner, id, Tracked(owner, id, services.readable(id, clock).value,
                                                      services.metadata(id, clock + 1).value))
  {
    AcquiredExactly(services, clock, id);
  }

  lemma RefusedByLibrary(services: Services, clock: nat, id: string)
    requires !(&& services.readable(id, clock).Ok? && services.metadata(id, clock + 1).Ok?
               && services.handOver(id, clock + 2).None?)
    ensures NotAcquired(services, id, if services.readable(id, clock).Err? then services.readable(id, clock).error
                                      else if services.metadata(id, clock + 1).Err?
                                      then services.metadata(id, clock + 1).error
                                      else services.handOver(id, clock + 2).value)
  {
    AcquiredExactly(services, clock, id);
  }

  /** A registration, in terms of what the library has answered at some moment. */
  method RegisterAnswered(manager: DataBufferManager, owner: string, id: string) returns (failure: Option<BufferError>)
    requires manager.Valid()
    modifies manager, manager.services
    ensures manager.Valid()
    ensures failure.Some? ==>
              && NotAcquired(manager.services, id, failure.value)
              && manager.buffers == old(manager.buffers) && manager.overwritten == old(manager.overwritten)
    ensures failure.None? ==>
              && id in manager.buffers && ClaimedEntry(manager.services, owner, id, manager.buffers[id])
              && manager.buffers == old(manager.buffers)[id := manager.buffers[id]]
              && manager.overwritten
                 == old(manager.overwritten) + if id in old(manager.buffers) then multiset{id} else multiset{}
  {
    ghost var clock := manager.services.clock;
    failure := manager.RegisterBuffer(owner, id);
    if failure.Some? {
      RefusedByLibrary(manager.services, clock, id);
    } else {
      TakenFromLibrary(manager.services, clock, owner, id);
    }
  }

  method RegisterOne(manager: DataBufferManager, owner: string, id: string, ghost before: Store,
                     ghost was: multiset<string>, ghost claimed: seq<string>)
    returns (failure: Option<BufferError>)
    requires manager.Valid() && Claiming(manager, owner, before, was, claimed)
    modifies manager, manager.services
    ensures manager.Valid()
    ensures Claiming(manager, owner, before, was, if failure.None? then claimed + [id] else claimed)
    ensures failure.Some? ==> NotAcquired(manager.services, id, failure.value)
  {
    ghost var mid := manager.buffers;
    FreshSnoc(manager.services, before, mid, owner, claimed, id);
    failure := RegisterAnswered(manager, owner, id);
    if failure.None? {
      ClaimedSnoc(manager.services, before, mid, manager.buffers, owner, claimed, id);
    }
  }

  lemma NextId(claimed: seq<string>, ids: seq<string>, i: nat)
    requires i < |ids|
    ensures (claimed + ids[..i]) + [ids[i]] == claimed + ids[..i + 1]
  {
  }

  /** Registering ids one after the other, up to the first failure. */
  method RegisterIds(manager: DataBufferManager, owner: string, ids: seq<string>, ghost before: Store,
                     ghost was: multiset<string>, ghost claimed: seq<string>)
    returns (failure: Option<BufferError>, ghost n: nat)
    requires manager.Valid() && Claiming(manager, owner, before, was, claimed)
    modifies manager, manager.services
    ensures manager.Valid() && n <= |ids| && (failure.None? ==> n == |ids|)
    ensures Claiming(manager, owner, before, was, claimed + ids[..n])
    ensures failure.Some? ==> n < |ids| && NotAcquired(manager.services, ids[n], failure.value)
  {
    failure, n := None, 0;
    assert claimed + ids[..0] == claimed;
    for i := 0 to |ids|
      invariant manager.Valid() && n == i && failure.None?
      invariant Claiming(manager, owner, before, was, claimed + ids[..i])
    {
      NextId(claimed, ids, i);
      failure := RegisterOne(manager, owner, ids[i], before, was, claimed + ids[..i]);
      if failure.Some? {
        return;
      }
      n := i + 1;
    }
  }

  /** Scanning one returned value for buffers. */
  method RegisterBuffers(manager: DataBufferManager, owner: string, v: Value, ghost before: Store,
                         ghost was: multiset<string>, ghost claimed: seq<string>)
    returns (failure: Option<BufferError>, ghost n: nat)
    requires manager.Valid() && Claiming(manager, owner, before, was, claimed)
    modifies manager, manager.services
    ensures manager.Valid() && n <= |IdsIn(v)| && (failure.None? ==> n == |IdsIn(v)|)
    ensures Claiming(manager, owner, before, was, claimed + IdsIn(v)[..n])
    ensures failure.Some? ==> n < |IdsIn(v)| && NotAcquired(manager.services, IdsIn(v)[n], failure.value)
  {
    match v {
      case DataBuffer(id) =>
        failure := RegisterOne(manager, owner, id, before, was, claimed);
        n := if failure.None? then 1 else 0;
        assert claimed + [id][..0] == claimed && claimed + [id][..1] == claimed + [id];
      case DataBufferArray(ids) =>
        failure, n := RegisterIds(manager, owner, ids, before, was, claimed);
      case _ =>
        failure, n := None, 0;
        assert claimed + [] == claimed;
    }
  }

  /** The first id that was not claimed could not be acquired. */
  ghost predicate StoppedShort(services: Services, claimed: seq<string>, ids: seq<string>, e: BufferError) {
    claimed <= ids && |claimed| < |ids| && NotAcquired(services, ids[|claimed|], e)
  }

  /** Stopping within a part is stopping at the same place of the whole. */
  lemma StoppedShortWithin(services: Services, a: seq<string>, own: seq<string>, b: seq<string>, all: seq<string>,
                           e: BufferError)
    requires StoppedShort(services, own, b, e) && a + b <= all
    ensures StoppedShort(services, a + own, all, e)
  {
    assert (a + b)[|a| + |own|] == b[|own|];
  }

  lemma ReturnsNext(rs: seq<Return>, j: nat)
    requires j < |rs|
    ensures IdsOfReturns(rs[..j + 1]) == IdsOfReturns(rs[..j]) + IdsIn(rs[j].value)
  {
    assert rs[..j + 1][..j] == rs[..j];
  }

  lemma CallsNext(calls: seq<Call>, i: nat)
    requires i < |calls|
    ensures ReturnedIds(calls[..i + 1]) == ReturnedIds(calls[..i]) + IdsOfReturns(calls[i].values)
  {
    assert calls[..i + 1][..i] == calls[..i];
  }

  lemma {:induction false} ReturnsPrefix(rs: seq<Return>, j: nat)
    requires j <= |rs|
    ensures IdsOfReturns(rs[..j]) <= IdsOfReturns(rs)
  {
    if j < |rs| {
      assert rs[..|rs| - 1][..j] == rs[..j];
      ReturnsPrefix(rs[..|rs| - 1], j);
    } else {
      assert rs[..j] == rs;
    }
  }

  lemma {:induction false} CallsPrefix(calls: seq<Call>, i: nat)
    requires i <= |calls|
    ensures ReturnedIds(calls[..i]) <= ReturnedIds(calls)
  {
    if i < |calls| {
      assert calls[..|calls| - 1][..i] == calls[..i];
      CallsPrefix(calls[..|calls| - 1], i);
    } else {
      assert calls[..i] == calls;
    }
  }

  /** Registering the buffers of one call. */
  method RegisterCall(manager: DataBufferManager, owner: string, rs: seq<Return>, ghost before: Store,
                      ghost was: multiset<string>, ghost claimed: seq<string>)
    returns (failure: Option<BufferError>, ghost own: seq<string>)
    requires manager.Valid() && Claiming(manager, owner, before, was, claimed)
    modifies manager, manager.services
    ensures manager.Valid() && own <= IdsOfReturns(rs) && (failure.None? ==> own == IdsOfReturns(rs))
    ensures Claiming(manager, owner, before, was, claimed + own)
    ensures failure.Some? ==> StoppedShort(manager.services, own, IdsOfReturns(rs), failure.value)
  {
    failure, own := None, [];
    assert claimed + [] == claimed;
    for j := 0 to |rs|
      invariant manager.Valid() && failure.None? && own == IdsOfReturns(rs[..j])
      invariant Claiming(manager, owner, before, was, claimed + own)
    {
      ReturnsNext(rs, j);
      ReturnsPrefix(rs, j + 1);
      ghost var n;
      failure, n := RegisterBuffers(manager, owner, rs[j].value, before, was, claimed + own);
      ghost var next := IdsIn(rs[j].value)[..n];
      AppendAssociative(claimed, own, next);
      own := own + next;
      if failure.Some? {
        StoppedShortWithin(manager.services, IdsOfReturns(rs[..j]), next, IdsIn(rs[j].value), IdsOfReturns(rs),
                           failure.value);
        return;
      }
    }
    assert rs[..|rs|] == rs;
  }

  /** Registering the buffers of all calls, up to the first failure: what has been claimed is
      a beginning of the returned ids, and all of them if nothing failed. */
  method RegisterReturns(manager: DataBufferManager, owner: string, calls: seq<Call>)
    returns (failure: Option<BufferError>, ghost claimed: seq<string>)
    requires manager.Valid()
    modifies manager, manager.services
    ensures manager.Valid() && claimed <= ReturnedIds(calls) && (failure.None? ==> claimed == ReturnedIds(calls))
    ensures Claiming(manager, owner, old(manager.buffers), old(manager.overwritten), claimed)
    ensures failure.Some? ==> StoppedShort(manager.services, claimed, ReturnedIds(calls), failure.value)
  {
    failure, claimed := None, [];
    ghost var before, was := manager.buffers, manager.overwritten;
    for i := 0 to |calls|
      invariant manager.Valid() && failure.None? && claimed == ReturnedIds(calls[..i])
      invariant Claiming(manager, owner, before, was, claimed)
    {
      ghost var own;
      failure, own := RegisterCall(manager, owner, calls[i].values, before, was, claimed);
      CallsNext(calls, i);
      if failure.Some? {
        CallsPrefix(calls, i + 1);
        StoppedShortWithin(manager.services, claimed, own, IdsOfReturns(calls[i].values), ReturnedIds(calls),
                           failure.value);
      }
      claimed := claimed + own;
      if failure.Some? {
        return;
      }
    }
    assert calls[..|calls|] == calls;
  }

  // ---------------------------------------------------------------- the dispatcher

  ghost predicate NoneOwnedBy(store: Store, owner: string) {
    forall id :: id in store ==> store[id].requestor != owner
  }

  /** The buffers that an answer returns. */
  function AnsweredIds(answer: Result<seq<Call>, string>): seq<string> {
    if answer.Ok? then ReturnedIds(answer.value) else []
  }

  /** Only buffers that the answer returned were claimed, in their order. */
  predicate ClaimedFrom(answer: Result<seq<Call>, string>, claimed: seq<string>) {
    claimed <= AnsweredIds(answer)
  }

  class Dispatcher {
    const manager: DataBufferManager
    /** What the script server answers to a script and its arguments, call by call. */
    const execute: (nat, string, Arguments) -> Result<seq<Call>, string>
    var counter: nat

    constructor (manager: DataBufferManager, execute: (nat, string, Arguments) -> Result<seq<Call>, string>)
      ensures this.manager == manager && this.execute == execute && counter == 0
    {
      this.manager, this.execute := manager, execute;
      counter := 0;
    }

    /** The next id of the counter. */
    method NextMeasurementId() returns (id: string)
      modifies this
      ensures counter == old(counter) + 1 && id == MeasurementId(counter)
    {
      counter := counter + 1;
      id := MeasurementId(counter);
    }

    /** Runs one script under a fresh id and registers what it returns. */
    method RunOne(script: string, arguments: Arguments) returns (result: MeasurementResult, ghost claimed: seq<string>)
      requires manager.Valid()
      modifies this, manager, manager.services
      ensures manager.Valid() && counter == old(counter) + 1 && result.id == MeasurementId(counter)
      ensures Claiming(manager, result.id, old(manager.buffers), old(manager.overwritten), claimed)
      ensures ClaimedFrom(execute(counter, script, arguments), claimed)
      ensures
        match execute(counter, script, arguments)
        case Err(message) => result.calls == Err(MeasurementFailed(message))
        case Ok(calls) =>
          if result.calls.Ok? then result.calls == Ok(calls) && claimed == ReturnedIds(calls)
          else result.calls.error.BufferFailed?
               && StoppedShort(manager.services, claimed, ReturnedIds(calls), result.calls.error.error)
    {
      var id := NextMeasurementId();
      claimed := [];
      var answer := execute(counter, script, arguments);
      if answer.Err? {
        result := MeasurementResult(id, Err(MeasurementFailed(answer.error)));
        return;
      }
      var failure;
      failure, claimed := RegisterReturns(manager, id, answer.value);
      result := MeasurementResult(id, if failure.Some? then Err(BufferFailed(failure.value)) else Ok(answer.value));
    }

    method ReleaseMeasurementBuffers(id: string)
      requires manager.Valid()
      modifies manager`buffers, manager.services`refs
      ensures manager.Valid() && manager.buffers == Without(old(manager.buffers), id)
    {
      manager.ReleaseRequestor(id);
    }
  }

  // ------------------------------------------------------------------ the registry

  datatype Definition = Definition(script: string, encoder: Option<EncoderKind>, decodes: bool)

  /** The scripts that the program comes with. */
  const PRIMITIVE_MEASUREMENTS: map<int, Definition> :=
    map[0 := Definition("measure_get_set", Some(GetSetEncoder), true),
        1 := Definition("measure_1D_buffered", Some(Encoder1D), true),
        2 := Definition("measure_2D_buffered", Some(Encoder2D), true)]

  /** The script that each encoder's arguments are for, by the schema they follow. */
  function ScriptOf(kind: EncoderKind): string {
    match kind
    case GetSetEncoder => "measure_get_set"
    case Encoder1D => "measure_1D_buffered"
    case Encoder2D => "measure_2D_buffered"
  }

  /** The definition's encoder writes the arguments of its own script. */
  predicate Matched(d: Definition) {
    d.encoder.Some? && d.script == ScriptOf(d.encoder.value)
  }

  lemma OwnScripts(dim: nat)
    requires dim in PRIMITIVE_MEASUREMENTS
    ensures Matched(PRIMITIVE_MEASUREMENTS[dim]) && PRIMITIVE_MEASUREMENTS[dim].encoder == Some(EncoderFor(dim))
  {
  }

  datatype RegistryError = NoDimensions | Repeated(dim: int) | Unregistered(dim: int) | Incomplete(dim: int)

  predicate CompleteDefinition(d: Definition) {
    d.script != "" && d.encoder.Some? && d.decodes
  }

  /** A dimension that can be registered. */
  predicate Offered(definitions: map<int, Definition>, dim: int) {
    dim in definitions && CompleteDefinition(definitions[dim])
  }

  /** Selects the requested definitions; they must be distinct, known and complete. */
  method BuildMeasurementRegistry(dims: seq<int>, definitions: map<int, Definition>)
    returns (r: Result<map<int, Definition>, RegistryError>)
    ensures r.Ok? <==> && dims != []
                       && (forall i, j | 0 <= i < j < |dims| :: dims[i] != dims[j])
                       && forall i | 0 <= i < |dims| :: Offered(definitions, dims[i])
    ensures r.Ok? ==> forall i | 0 <= i < |dims| ::
              && dims[i] in definitions && definitions[dims[i]].script != ""
              && definitions[dims[i]].encoder.Some? && definitions[dims[i]].decodes
    ensures r.Ok? ==> && r.value.Keys == (set d | d in dims)
                      && forall d :: d in r.value ==> d in definitions && r.value[d] == definitions[d]
  {
    if |dims| == 0 {
      return Err(NoDimensions);
    }
    var selected: map<int, Definition> := map[];
    for k := 0 to |dims|
      invariant forall i, j | 0 <= i < j < k :: dims[i] != dims[j]
      invariant forall i | 0 <= i < k :: Offered(definitions, dims[i])
      invariant forall d :: d in selected <==> d in dims[..k]
      invariant forall d :: d in selected ==> d in definitions && selected[d] == definitions[d]
    {
      var dim := dims[k];
      if dim in selected {
        return Err(Repeated(dim));
      }
      if dim !in definitions {
        return Err(Unregistered(dim));
      }
      if !CompleteDefinition(definitions[dim]) {
        return Err(Incomplete(dim));
      }
      selected := selected[dim := definitions[dim]];
    }
    assert dims[..|dims|] == dims;
    assert selected.Keys == set d | d in dims;
    r := Ok(selected);
  }

  datatype RunError =
    | NotAvailable(dim: int) | NegativeCount | Encoding(encodeError: EncodeError)
    | Dispatching(dispatchError: DecodeError) | DecodingFailed(primitiveError: PrimitiveError)

  /** What is tracked after a measurement: its own entries are gone, and so are those that it
      re-registered over somebody else's. */
  function AfterRun(before: Store, id: string, claimed: seq<string>): Store {
    Without(before, id) - IdSet(claimed)
  }

  lemma CleanUp(services: Services, before: Store, registered: Store, decoded: Store, id: string, claimed: seq<string>)
    requires Claimed(services, before, registered, id, claimed) && OnlyTakenFrom(id, registered, decoded)
    ensures Without(decoded, id) == AfterRun(before, id, claimed)
    ensures NoneOwnedBy(Without(decoded, id), id)
  {
    assert Without(registered, id).Keys == AfterRun(before, id, claimed).Keys;
  }

  lemma BeginningOf(before: Store, ids: seq<string>, claimed: seq<string>)
    requires claimed <= ids
    ensures Untracked(before, ids) ==> Untracked(before, claimed)
    ensures DistinctIds(ids) ==> DistinctIds(claimed)
  {
    assert forall i | 0 <= i < |claimed| :: claimed[i] == ids[i];
  }

  /** A measurement leaves exactly what it found if and only if its id was new and it claimed
      nothing that was tracked. */
  lemma LeavesWhatItFound(before: Store, id: string, claimed: seq<string>)
    ensures AfterRun(before, id, claimed) == before <==> NoneOwnedBy(before, id) && Untracked(before, claimed)
  {
    var after := AfterRun(before, id, claimed);
    forall x | x in before
      ensures x in after <==> before[x].requestor != id && x !in claimed
    {
    }
    if after == before {
      assert forall x :: x in IdSet(claimed) ==> x !in after;
    }
    if NoneOwnedBy(before, id) && Untracked(before, claimed) {
      assert after.Keys == before.Keys;
    }
  }

  /** So with a new id it leaves what it found whenever its script returns only buffers that
      nobody tracks, however few of them it got to claim; and no reference is lost if the
      script returns none of them twice. */
  lemma LeavesNoTrace(before: Store, id: string, answer: Result<seq<Call>, string>, claimed: seq<string>)
    requires NoneOwnedBy(before, id) && Untracked(before, AnsweredIds(answer)) && ClaimedFrom(answer, claimed)
    ensures AfterRun(before, id, claimed) == before
    ensures DistinctIds(AnsweredIds(answer)) ==> FreshIds(before, claimed)
  {
    BeginningOf(before, AnsweredIds(answer), claimed);
    LeavesWhatItFound(before, id, claimed);
  }

  /** One visit to the script server: its number, what was tracked before, what was sent, which
      of the returned buffers were claimed, what was tracked once they were, and the step counts
      used for decoding. */
  datatype Visit = Visit(counter: nat, before: Store, script: string, arguments: Arguments, claimed: seq<string>,
                         registered: Store, counts: seq<int>)

  class MeasurementRegistry {
    const measurements: map<int, Definition>
    const dispatcher: Dispatcher
    const codec: Codec
    const units: Units

    constructor (measurements: map<int, Definition>, dispatcher: Dispatcher, codec: Codec, units: Units)
      ensures this.measurements == measurements && this.dispatcher == dispatcher
      ensures this.codec == codec && this.units == units
    {
      this.measurements, this.dispatcher, this.codec, this.units := measurements, dispatcher, codec, units;
    }

    /** The input gets as far as its script. */
    ghost predicate Dispatchable(input: PrimitiveInput, points: NumberOfPoints) {
      && input.choice in measurements && measurements[input.choice].encoder.Some? && PointsValid(input, points)
      && Accepts(measurements[input.choice].encoder.value, codec, input)
    }

    /** Why an input does not get as far as its script. */
    ghost predicate RefusedWith(input: PrimitiveInput, points: NumberOfPoints, e: RunError) {
      !Dispatchable(input, points) &&
      if input.choice !in measurements then e == NotAvailable(input.choice)
      else if !PointsValid(input, points) then e == NegativeCount
      else e.Encoding?
    }

    /** What the script server answers to a visit. */
    function AnswerTo(v: Visit): Result<seq<Call>, string> {
      dispatcher.execute(v.counter, v.script, v.arguments)
    }

    /** The input's own script was called with the input's encoding, and only buffers that it
        returned were claimed. */
    ghost predicate Dispatched(input: PrimitiveInput, points: NumberOfPoints, v: Visit) {
      && Dispatchable(input, points)
      && v.script == measurements[input.choice].script
      && EncodedBy(measurements[input.choice].encoder.value, codec, input, v.arguments)
      && ClaimedFrom(AnswerTo(v), v.claimed)
    }

    /** All buffers that the script returned have been claimed. */
    ghost predicate Registered(v: Visit) {
      && AnswerTo(v).Ok? && v.claimed == AnsweredIds(AnswerTo(v))
      && Claimed(dispatcher.manager.services, v.before, v.registered, MeasurementId(v.counter), v.claimed)
    }

    /** What the decoder is given. */
    function ResultOf(v: Visit): MeasurementResult
      requires AnswerTo(v).Ok?
    {
      MeasurementResult(MeasurementId(v.counter), Ok(AnswerTo(v).value))
    }

    /** The output is what the script returned: each getter's samples as its returns and the
        registered buffers hold them. */
    ghost predicate Explained(input: PrimitiveInput, points: NumberOfPoints, out: Output, v: Visit)
    {
      && Registered(v)
      && PrimitiveDecodes(units, v.registered, ResultOf(v), input, v.counts, points)
      && out == OutputOf(units, v.registered, AnswerTo(v).value, input, v.counts, points)
    }

    /** Why a measurement fails after its script was called: the script failed, a buffer could
        not be acquired, or what was returned does not decode. */
    ghost predicate FailsWith(input: PrimitiveInput, points: NumberOfPoints, e: RunError, v: Visit)
    {
      match e
      case Dispatching(MeasurementFailed(message)) => AnswerTo(v) == Err(message)
      case Dispatching(BufferFailed(reason)) =>
        && AnswerTo(v).Ok?
        && StoppedShort(dispatcher.manager.services, v.claimed, AnsweredIds(AnswerTo(v)), reason)
      case DecodingFailed(_) =>
        && Registered(v)
        && forall counts :: !PrimitiveDecodes(units, v.registered, ResultOf(v), input, counts, points)
      case _ => false
    }

    /** Runs one primitive measurement. An input that does not get as far as its script leaves
        nothing changed. After that every way out, be it a failing script, a registration
        failing midway, a decoding error or success, leaves no entry of the measurement's id,
        takes no entry of anybody else but those it re-registered, and loses a library reference
        exactly when it re-registered something. So with a new id, and a script that returns
        buffers that nobody tracks, what is tracked is what was tracked before; and no reference
        is lost if it returns none of them twice. */
    method RunMeasurement(input: PrimitiveInput, points: NumberOfPoints)
      returns (r: Result<Output, RunError>, ghost visit: Option<Visit>)
      requires dispatcher.manager.Valid()
      requires BoundedInput(input)
      requires forall d :: d in measurements ==> CompleteDefinition(measurements[d])
      modifies dispatcher, dispatcher.manager, dispatcher.manager.services
      ensures dispatcher.manager.Valid()
      ensures visit.Some? <==> Dispatchable(input, points)
      ensures input.choice !in measurements ==> r == Err(NotAvailable(input.choice))
      ensures input.choice in measurements && (exists g :: g in input.getters && PointsOf(points, g) < 0) ==>
                r == Err(NegativeCount)
      ensures visit.None? ==>
                && dispatcher.counter == old(dispatcher.counter)
                && dispatcher.manager.buffers == old(dispatcher.manager.buffers)
                && dispatcher.manager.overwritten == old(dispatcher.manager.overwritten)
                && r.Err? && RefusedWith(input, points, r.error)
      ensures visit.Some? ==>
                && visit.value.counter == dispatcher.counter == old(dispatcher.counter) + 1
                && visit.value.before == old(dispatcher.manager.buffers)
                && Dispatched(input, points, visit.value)
                && dispatcher.manager.buffers
                   == AfterRun(old(dispatcher.manager.buffers), MeasurementId(dispatcher.counter), visit.value.claimed)
                && OverwritesCounted(old(dispatcher.manager.buffers), visit.value.claimed,
                                     old(dispatcher.manager.overwritten), dispatcher.manager.overwritten)
                && (r.Err? ==> FailsWith(input, points, r.error, visit.value))
                && (r.Ok? ==> Explained(input, points, r.value, visit.value))
      ensures visit.Some? && NoneOwnedBy(old(dispatcher.manager.buffers), MeasurementId(dispatcher.counter))
              && Untracked(old(dispatcher.manager.buffers), AnsweredIds(AnswerTo(visit.value))) ==>
                && dispatcher.manager.buffers == old(dispatcher.manager.buffers)
                && (DistinctIds(AnsweredIds(AnswerTo(visit.value))) ==>
                      dispatcher.manager.overwritten == old(dispatcher.manager.overwritten))
      ensures r.Ok? ==> LeafSized(input, points, r.value)
    {
      visit := None;
      if input.choice !in measurements {
        return Err(NotAvailable(input.choice)), None;
      }
      for i := 0 to |input.getters|
        invariant forall j | 0 <= j < i :: PointsOf(points, input.getters[j]) >= 0
      {
        if PointsOf(points, input.getters[i]) < 0 {
          return Err(NegativeCount), None;
        }
      }
      var measurement := measurements[input.choice];
      assert CompleteDefinition(measurement);
      var variables := EncodeWith(measurement.encoder.value, codec, input);
      if variables.Err? {
        return Err(Encoding(variables.error)), None;
      }
      ghost var v;
      ghost var before := dispatcher.manager.buffers;
      r, v := DispatchAndDecode(measurement.script, variables.value, input, points);
      visit := Some(v);
      if NoneOwnedBy(before, MeasurementId(v.counter)) && Untracked(before, AnsweredIds(AnswerTo(v))) {
        LeavesNoTrace(before, MeasurementId(v.counter), AnswerTo(v), v.claimed);
      }
    }

    method DispatchAndDecode(script: string, arguments: Arguments, input: PrimitiveInput, points: NumberOfPoints)
      returns (r: Result<Output, RunError>, ghost v: Visit)
      requires dispatcher.manager.Valid()
      requires BoundedInput(input)
      modifies dispatcher, dispatcher.manager, dispatcher.manager.services
      ensures dispatcher.manager.Valid()
      ensures v.counter == dispatcher.counter == old(dispatcher.counter) + 1
      ensures v.before == old(dispatcher.manager.buffers)
      ensures v.script == script && v.arguments == arguments && ClaimedFrom(AnswerTo(v), v.claimed)
      ensures dispatcher.manager.buffers
           == AfterRun(old(dispatcher.manager.buffers), MeasurementId(dispatcher.counter), v.claimed)
      ensures OverwritesCounted(old(dispatcher.manager.buffers), v.claimed, old(dispatcher.manager.overwritten),
                                dispatcher.manager.overwritten)
      ensures r.Err? ==> FailsWith(input, points, r.error, v)
      ensures r.Ok? ==> Explained(input, points, r.value, v)
      ensures r.Ok? ==> LeafSized(input, points, r.value)
    {
      var manager := dispatcher.manager;
      ghost var before := manager.buffers;
      var result;
      ghost var claimed;
      result, claimed := dispatcher.RunOne(script, arguments);
      v := Visit(dispatcher.counter, before, script, arguments, claimed, manager.buffers, []);
      if result.calls.Err? {
        CleanUp(manager.services, before, manager.buffers, manager.buffers, result.id, claimed);
        dispatcher.ReleaseMeasurementBuffers(result.id);
        r := Err(Dispatching(result.calls.error));
        return;
      }
      ghost var counts;
      r, counts := DecodeAndRelease(result, input, points, v);
      v := v.(counts := counts);
    }

    /** What is done once all buffers are registered: decoding, and then the clean-up. */
    method DecodeAndRelease(result: MeasurementResult, input: PrimitiveInput, points: NumberOfPoints,
                            ghost v: Visit)
      returns (r: Result<Output, RunError>, ghost counts: seq<int>)
      requires dispatcher.manager.Valid() && BoundedInput(input)
      requires Registered(v) && v.registered == dispatcher.manager.buffers
      requires result == ResultOf(v)
      modifies dispatcher.manager`buffers, dispatcher.manager.services`refs
      ensures dispatcher.manager.Valid()
      ensures dispatcher.manager.buffers == AfterRun(v.before, MeasurementId(v.counter), v.claimed)
      ensures r.Err? ==> r.error.DecodingFailed? &&
                         forall c :: !PrimitiveDecodes(units, v.registered, result, input, c, points)
      ensures r.Ok? ==>
                && PrimitiveDecodes(units, v.registered, result, input, counts, points)
                && r.value == OutputOf(units, v.registered, result.calls.value, input, counts, points)
                && LeafSized(input, points, r.value)
    {
      counts := [];
      var manager := dispatcher.manager;
      var output := DecodePrimitive(units, manager, result, input, points);
      CleanUp(manager.services, v.before, v.registered, manager.buffers, result.id, v.claimed);
      dispatcher.ReleaseMeasurementBuffers(result.id);
      if output.Err? {
        r := Err(DecodingFailed(output.error));
        return;
      }
      counts :| PrimitiveDecodes(units, v.registered, result, input, counts, points);
      DecodedSizes(units, v.registered, result, input, counts, points);
      r := Ok(output.value);
    }
  }
}
