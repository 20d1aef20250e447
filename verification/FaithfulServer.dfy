/**
 Script servers that do what their arguments say: what they are, that a measurement with one of
 them cannot fail and returns the device's responses, and that there are such servers.
 */
module FaithfulServer {
  import opened Wrappers
  import opened Division
  import opened RowMajor
  import opened Planner
  import opened PlanExecution
  import opened PrimitiveCode
  import opened PlanMeaning
  import opened Averaging
  import opened Shapes
  import opened Buffers
  import opened WireCodec
  import opened Decoder
  import opened PrimitiveDecoding
  import opened DispatchProtocol
  import opened EndToEnd
  import opened Registry
  import opened PlanRuns
  import opened ScriptArguments

  // ------------------------------------------------------------- what is measured

  /** Whatever the scripts return for one of the inputs decodes to the responses of a device
      along the voltages that a row-major script goes through for it. */
  ghost predicate RowMajorScripts(registry: MeasurementRegistry, inputs: seq<PrimitiveInput>, points: NumberOfPoints,
                                  response: Response, step: Stepping)
  {
    forall input, v, out | input in inputs && registry.Dispatched(input, points, v)
                           && registry.Explained(input, points, out, v) ::
      HasCounts(input) && out == EmitAll(response, LeafTrace(input, step), input.getters)
  }

  /** The outputs are those of the row-major executor. */
  lemma OutputsOfScripts(registry: MeasurementRegistry, inputs: seq<PrimitiveInput>, points: NumberOfPoints,
                         visits: seq<Visit>, outs: seq<Output>, run: Result<Output, RunError>, response: Response,
                         step: Stepping)
    requires RanOn(registry, inputs, points, visits, outs, run) && run.Ok?
    requires RowMajorScripts(registry, inputs, points, response, step)
    ensures RunList(inputs, RowMajorScript(response, step), []).result == Ok(run.value)
  {
    forall i, hist | 0 <= i < |inputs|
      ensures RowMajorScript(response, step)(hist, inputs[i]) == Ok(outs[i])
    {
      assert Explains(registry, points)(inputs[i], visits[i], outs[i]);
      assert inputs[i] in inputs;
    }
    SteadyRun(inputs, RowMajorScript(response, step), outs);
  }

  // ------------------------------------------------------------- faithful answers

  /** A device: the samples that it measures at an assignment of voltages, in the unit whose symbol
      it reports with them, and how its scripts step through a sweep. */
  datatype Device = Device(measured: Response, step: Stepping, symbol: Target -> string)

  /** What is to be seen of a device: its responses in the units that the getters ask for. */
  datatype View = View(response: Response, step: Stepping, symbol: Target -> string)

  /** At this moment the library has the buffer with these samples, and lets go of it. */
  ghost predicate HoldsNow(services: Services, id: string, clock: nat, xs: seq<real>) {
    && services.readable(id, clock).Ok? && Holds(services.readable(id, clock).value, xs)
    && services.metadata(id, clock).Ok? && services.handOver(id, clock).None?
  }

  ghost predicate AlwaysHolds(services: Services, id: string, xs: seq<real>) {
    forall clock: nat :: HoldsNow(services, id, clock, xs)
  }

  /** Such a buffer can always be acquired. */
  lemma AlwaysAcquired(services: Services, id: string, clock: nat, xs: seq<real>)
    requires AlwaysHolds(services, id, xs)
    ensures Acquired(services, clock, id).Ok? && SamplesIn(Acquired(services, clock, id).value.0) == Ok(xs)
  {
    assert HoldsNow(services, id, clock, xs) && HoldsNow(services, id, clock + 1, xs);
    assert HoldsNow(services, id, clock + 2, xs);
    SamplesAreHeld(services.readable(id, clock).value, xs);
  }

  /** The answer does what the arguments say, whatever input they were made for: for each target
      they name it returns one buffer, which holds what the device measures along the voltages that
      they go through. */
  ghost predicate Obeys(services: Services, device: Device, reader: Reader, arguments: Arguments, ids: seq<string>,
                        answer: Result<seq<Call>, string>)
  {
    && WellFormed(arguments) && |ids| == |arguments.getters|
    && DistinctIds(ids) && (forall k | 0 <= k < |ids| :: ids[k] != "")
    && answer == Ok(CallsFor(ReadTargets(reader, arguments.getters), device.symbol, ids))
    && forall k | 0 <= k < |ids| ::
         AlwaysHolds(services, ids[k], Emit(device.measured, TraceOf(reader, arguments, device.step),
                                            ReadTargets(reader, arguments.getters)[k]))
  }

  /** The script that takes arguments of this kind. */
  function ScriptTaking(arguments: Arguments): string {
    match arguments
    case GetSet(_, _, _) => "measure_get_set"
    case Buffered1D(_, _, _, _) => "measure_1D_buffered"
    case Buffered2D(_, _, _, _, _, _, _) => "measure_2D_buffered"
  }

  /** Whenever a script is called for one of the inputs with arguments of its own kind, it does
      what they say. */
  ghost predicate Faithful(registry: MeasurementRegistry, inputs: seq<PrimitiveInput>, points: NumberOfPoints,
                           device: Device, reader: Reader)
  {
    forall input, v | input in inputs && registry.Dispatched(input, points, v)
                      && v.script == ScriptTaking(v.arguments) ::
      exists ids :: Obeys(registry.dispatcher.manager.services, device, reader, v.arguments, ids, registry.AnswerTo(v))
  }

  /** The reported unit is known, and `response` is what the device measures of `g`, converted into
      `unit` sample by sample. */
  ghost predicate Reports(units: Units, device: Device, response: Response, g: Target, unit: int) {
    && device.symbol(g) != "" && units.convertible(device.symbol(g), unit)
    && forall a :: ConvertsTo(units, device.symbol(g), unit, device.measured(a, g), response(a, g))
  }

  /** What makes `response` the responses of the device as seen through the inputs: the script
      reads its arguments as they were written, and each getter is converted into its own unit. */
  ghost predicate Seen(registry: MeasurementRegistry, inputs: seq<PrimitiveInput>, device: Device, reader: Reader,
                       response: Response)
  {
    && Reads(reader, registry.codec) && StandsStill(device.step)
    && forall i | 0 <= i < |inputs| ::
         && inputs[i].choice in registry.measurements && Matched(registry.measurements[inputs[i].choice])
         && SeenBy(registry.units, device, response, inputs[i])
  }

  ghost predicate SeenBy(units: Units, device: Device, response: Response, input: PrimitiveInput) {
    UnitsKnown(input) && forall g | g in input.getters :: Reports(units, device, response, g, input.getterUnits[g])
  }

  /** The buffer holds the responses of one getter along a trace, up to the conversion of units. */
  ghost predicate HoldsResponses(registry: MeasurementRegistry, view: View, trace: seq<Assignment>, g: Target,
                                 unit: int, id: string)
  {
    exists xs ::
      && AlwaysHolds(registry.dispatcher.manager.services, id, xs)
      && Converted(registry.units, view.symbol(g), unit, xs) == Some(Emit(view.response, trace, g))
  }

  function ReturnOf(symbol: string, id: string): Return {
    Return("samples", DataBuffer(id), symbol)
  }

  function CallFor(g: Target, symbol: string, id: string): Call {
    Call(g.instrument, g.channel, g.group, "measure", [ReturnOf(symbol, id)])
  }

  /** One call for each getter, returning one buffer. */
  function CallsFor(getters: seq<Target>, symbol: Target -> string, ids: seq<string>): seq<Call>
    requires |ids| == |getters|
  {
    if getters == [] then []
    else
      var last := |getters| - 1;
      CallsFor(getters[..last], symbol, ids[..last]) + [CallFor(getters[last], symbol(getters[last]), ids[last])]
  }

  /** The reported units can be converted to the getters' own. */
  ghost predicate Understood(units: Units, symbol: Target -> string, input: PrimitiveInput) {
    UnitsKnown(input) &&
    forall g | g in input.getters :: symbol(g) != "" && units.convertible(symbol(g), input.getterUnits[g])
  }

  /** The answer serves the input: for each getter one buffer of its own, which holds the
      device's responses along the input's trace. */
  ghost predicate Serves(registry: MeasurementRegistry, view: View, input: PrimitiveInput, ids: seq<string>,
                         answer: Result<seq<Call>, string>)
  {
    && HasCounts(input) && Understood(registry.units, view.symbol, input)
    && |ids| == |input.getters| && DistinctIds(ids) && (forall k | 0 <= k < |ids| :: ids[k] != "")
    && answer == Ok(CallsFor(input.getters, view.symbol, ids))
    && forall k | 0 <= k < |ids| ::
         HoldsResponses(registry, view, LeafTrace(input, view.step), input.getters[k],
                        input.getterUnits[input.getters[k]], ids[k])
  }

  /** There are as many samples per position as are expected, and not more in all than an array can
      hold. */
  ghost predicate Expected(response: Response, input: PrimitiveInput, points: NumberOfPoints) {
    && HasCounts(input)
    && forall g | g in input.getters ::
         && (forall a :: |response(a, g)| == SamplesPerPosition(PointsOf(points, g)))
         && Sized(CountsOf(input) + [SamplesPerPosition(PointsOf(points, g))])
  }

  // ------------------------------------------------------- what the answers say

  lemma OneReturn(r: Return)
    ensures IdsOfReturns([r]) == IdsIn(r.value)
  {
    assert [r][..0] == [];
    assert [] + IdsIn(r.value) == IdsIn(r.value);
  }

  lemma ReturnedIdsSnoc(init: seq<Call>, call: Call)
    ensures ReturnedIds(init + [call]) == ReturnedIds(init) + IdsOfReturns(call.values)
  {
    assert (init + [call])[..|init|] == init;
  }

  lemma {:induction false} CallsForIds(getters: seq<Target>, symbol: Target -> string, ids: seq<string>)
    requires |ids| == |getters|
    ensures ReturnedIds(CallsFor(getters, symbol, ids)) == ids
  {
    if getters != [] {
      var last := |getters| - 1;
      CallsForIds(getters[..last], symbol, ids[..last]);
      OneReturn(ReturnOf(symbol(getters[last]), ids[last]));
      ReturnedIdsSnoc(CallsFor(getters[..last], symbol, ids[..last]),
                      CallFor(getters[last], symbol(getters[last]), ids[last]));
      assert ids == ids[..last] + [ids[last]];
    }
  }

  lemma ItemsSnoc(units: Units, init: seq<Call>, call: Call, spec: TargetSpec)
    ensures Items(units, init + [call], spec)
         == Items(units, init, spec) + if OnTarget(call, spec.target) then WantedItems(units, call.values, spec) else []
  {
    assert (init + [call])[..|init|] == init;
  }

  lemma {:induction false} NoItems(units: Units, getters: seq<Target>, symbol: Target -> string, ids: seq<string>,
                                   spec: TargetSpec)
    requires |ids| == |getters| && spec.target !in getters
    ensures Items(units, CallsFor(getters, symbol, ids), spec) == []
  {
    if getters != [] {
      var last := |getters| - 1;
      NoItems(units, getters[..last], symbol, ids[..last], spec);
      ItemsSnoc(units, CallsFor(getters[..last], symbol, ids[..last]),
                CallFor(getters[last], symbol(getters[last]), ids[last]), spec);
      assert getters[last] in getters;
    }
  }

  /** What a getter is read from: its own buffer. */
  lemma {:induction false} OneItem(units: Units, getters: seq<Target>, symbol: Target -> string, ids: seq<string>,
                                   spec: TargetSpec, k: nat)
    requires |ids| == |getters| && k < |getters| && Distinct(getters) && spec.target == getters[k]
    requires symbol(getters[k]) != "" && units.convertible(symbol(getters[k]), spec.unit)
    ensures Items(units, CallsFor(getters, symbol, ids), spec)
         == [Item(ReturnOf(symbol(getters[k]), ids[k]), spec.unit)]
  {
    var last := |getters| - 1;
    var init, own := getters[..last], ReturnOf(symbol(getters[last]), ids[last]);
    ItemsSnoc(units, CallsFor(init, symbol, ids[..last]), CallFor(getters[last], symbol(getters[last]), ids[last]),
              spec);
    if k < last {
      assert getters[k] != getters[last];
      OneItem(units, init, symbol, ids[..last], spec, k);
    } else {
      NoItems(units, init, symbol, ids[..last], spec);
      assert [own][..0] == [];
      assert WantedItems(units, [own], spec) == [Item(own, spec.unit)];
    }
  }

  /** The job is read from one item, whose buffer is `id`, and to the full. */
  ghost predicate ReadsItem(units: Units, store: Store, job: Job, item: Item, id: string) {
    && job.items == [item] && IdsIn(item.ret.value) == [id] && Sized(job.spec.shape)
    && ItemSamples(units, store, item).Some? && |ItemSamples(units, store, item).value| == Product(job.spec.shape)
  }

  lemma DenotedOne(units: Units, store: Store, item: Item)
    requires ItemSamples(units, store, item).Some?
    ensures Denoted(units, store, [item]) == ItemSamples(units, store, item).value
  {
    assert [item][..0] == [];
    assert [] + ItemSamples(units, store, item).value == ItemSamples(units, store, item).value;
  }

  /** Together the jobs are read from these buffers, and each to the full. */
  ghost predicate ReadsAll(units: Units, store: Store, jobs: seq<Job>, ids: seq<string>) {
    && ItemIds(JobItems(jobs)) == ids && AllRead(units, store, JobItems(jobs)) && AllComplete(units, store, jobs)
  }

  lemma ReadsNext(units: Units, store: Store, jobs: seq<Job>, ids: seq<string>, job: Job, item: Item, id: string)
    requires ReadsAll(units, store, jobs, ids) && ReadsItem(units, store, job, item, id)
    ensures ReadsAll(units, store, jobs + [job], ids + [id])
  {
    JobsSnoc(units, store, jobs, job);
    ReadSnoc(units, store, JobItems(jobs), item);
    DenotedOne(units, store, item);
  }

  lemma {:induction false} OneItemEach(units: Units, store: Store, jobs: seq<Job>, items: seq<Item>, ids: seq<string>)
    requires |items| == |jobs| == |ids|
    requires forall k | 0 <= k < |jobs| :: ReadsItem(units, store, jobs[k], items[k], ids[k])
    ensures ReadsAll(units, store, jobs, ids)
  {
    if jobs == [] {
      assert ids == [];
    } else {
      var n := |jobs| - 1;
      OneItemEach(units, store, jobs[..n], items[..n], ids[..n]);
      assert jobs == jobs[..n] + [jobs[n]] && ids == ids[..n] + [ids[n]];
      ReadsNext(units, store, jobs[..n], ids[..n], jobs[n], items[n], ids[n]);
    }
  }

  /** A registered buffer can be read by its measurement, and holds what the library says. */
  lemma RegisteredHolds(registry: MeasurementRegistry, v: Visit, id: string, xs: seq<real>)
    requires registry.Registered(v) && id in v.claimed && id != ""
    requires AlwaysHolds(registry.dispatcher.manager.services, id, xs)
    ensures Usable(v.registered, MeasurementId(v.counter), id)
    ensures SamplesOfIds(v.registered, [id]) == xs
  {
    var services := registry.dispatcher.manager.services;
    assert id in v.registered && ClaimedEntry(services, MeasurementId(v.counter), id, v.registered[id]);
    var entry := v.registered[id];
    var clock: nat :| Acquired(services, clock, id) == Ok((entry.buffer, entry.metadata));
    AlwaysAcquired(services, id, clock, xs);
    assert [id][..0] == [];
    assert [] + xs == xs;
  }

  lemma {:induction false} EmitLength(response: Response, trace: seq<Assignment>, g: Target, n: nat)
    requires forall a :: |response(a, g)| == n
    ensures |Emit(response, trace, g)| == |trace| * n
  {
    if trace != [] {
      EmitLength(response, trace[..|trace| - 1], g, n);
      OneMore(|trace| - 1, n);
    }
  }

  lemma LeafTraceLength(input: PrimitiveInput, step: Stepping)
    requires HasCounts(input)
    ensures Positive(CountsOf(input)) && |LeafTrace(input, step)| == Product(CountsOf(input))
  {
    var counts := CountsOf(input);
    CountsPositive(input, counts);
    assert Nats(counts) == counts;
    WalkLength(counts, [], |counts|);
    assert counts[0..|counts|] == counts;
  }

  lemma SpecSize(input: PrimitiveInput, points: NumberOfPoints, response: Response, step: Stepping, g: Target)
    requires Expected(response, input, points) && g in input.getters
    ensures Positive(CountsOf(input)) && SamplesPerPosition(PointsOf(points, g)) > 0
    ensures |Emit(response, LeafTrace(input, step), g)|
         == Product(CountsOf(input) + [SamplesPerPosition(PointsOf(points, g))])
  {
    var counts, n := CountsOf(input), SamplesPerPosition(PointsOf(points, g));
    assert (counts + [n])[|counts|] == n;
    LeafTraceLength(input, step);
    EmitLength(response, LeafTrace(input, step), g, n);
    ProductSnoc(counts, n);
  }

  /** The item that getter `k` is read from. */
  function ItemFor(input: PrimitiveInput, symbol: Target -> string, ids: seq<string>, k: nat): Item
    requires k < |input.getters| == |ids| && UnitsKnown(input)
  {
    Item(ReturnOf(symbol(input.getters[k]), ids[k]), input.getterUnits[input.getters[k]])
  }

  /** A registered buffer of the device is read as the device's responses. */
  lemma HeldSamples(registry: MeasurementRegistry, view: View, trace: seq<Assignment>, v: Visit, g: Target,
                    unit: int, id: string)
    requires registry.Registered(v) && id in v.claimed && id != ""
    requires HoldsResponses(registry, view, trace, g, unit, id)
    ensures Usable(v.registered, MeasurementId(v.counter), id)
    ensures ItemSamples(registry.units, v.registered, Item(ReturnOf(view.symbol(g), id), unit))
         == Some(Emit(view.response, trace, g))
  {
    var xs :| AlwaysHolds(registry.dispatcher.manager.services, id, xs)
              && Converted(registry.units, view.symbol(g), unit, xs) == Some(Emit(view.response, trace, g));
    RegisteredHolds(registry, v, id, xs);
  }

  lemma ServedSamples(registry: MeasurementRegistry, input: PrimitiveInput, view: View, v: Visit,
                      ids: seq<string>, k: nat)
    requires Serves(registry, view, input, ids, registry.AnswerTo(v)) && registry.Registered(v) && k < |ids|
    ensures Usable(v.registered, MeasurementId(v.counter), ids[k])
    ensures ItemSamples(registry.units, v.registered, ItemFor(input, view.symbol, ids, k))
         == Some(Emit(view.response, LeafTrace(input, view.step), input.getters[k]))
  {
    var g := input.getters[k];
    CallsForIds(input.getters, view.symbol, ids);
    assert v.claimed == ids && ids[k] in ids;
    HeldSamples(registry, view, LeafTrace(input, view.step), v, g, input.getterUnits[g], ids[k]);
  }

  lemma ServedItem(registry: MeasurementRegistry, input: PrimitiveInput, points: NumberOfPoints, view: View,
                   answer: Result<seq<Call>, string>, ids: seq<string>, counts: seq<int>, k: nat)
    requires Serves(registry, view, input, ids, answer) && Distinct(input.getters) && k < |ids|
    ensures Items(registry.units, answer.value, SpecFor(input, counts, points, input.getters[k]))
         == [ItemFor(input, view.symbol, ids, k)]
  {
    var g := input.getters[k];
    assert g in input.getters;
    OneItem(registry.units, input.getters, view.symbol, ids, SpecFor(input, counts, points, g), k);
  }

  lemma JobOf(units: Units, calls: seq<Call>, input: PrimitiveInput, counts: seq<int>, points: NumberOfPoints, k: nat)
    requires UnitsKnown(input) && k < |input.getters|
    ensures
      var jobs, spec := Jobs(units, calls, SpecsFor(input, counts, points)),
                        SpecFor(input, counts, points, input.getters[k]);
      |jobs| == |input.getters| && jobs[k] == Job(Items(units, calls, spec), spec)
  {
    JobAt(units, map[], calls, SpecsFor(input, counts, points), k);
  }

  /** Getter `k` is read to the full. */
  lemma ServedJob(registry: MeasurementRegistry, input: PrimitiveInput, points: NumberOfPoints, view: View,
                  v: Visit, ids: seq<string>, job: Job, k: nat)
    requires Serves(registry, view, input, ids, registry.AnswerTo(v)) && registry.Registered(v) && k < |ids|
    requires Distinct(input.getters) && PointsValid(input, points) && Expected(view.response, input, points)
    requires job.spec == SpecFor(input, CountsOf(input), points, input.getters[k])
    requires job.items == Items(registry.units, registry.AnswerTo(v).value, job.spec)
    ensures ReadsItem(registry.units, v.registered, job, ItemFor(input, view.symbol, ids, k), ids[k])
  {
    assert input.getters[k] in input.getters;
    ServedSamples(registry, input, view, v, ids, k);
    ServedItem(registry, input, points, view, registry.AnswerTo(v), ids, CountsOf(input), k);
    SpecSize(input, points, view.response, view.step, input.getters[k]);
  }

  /** A faithful answer that has been registered decodes. */
  lemma ServedDecodes(registry: MeasurementRegistry, input: PrimitiveInput, points: NumberOfPoints, view: View,
                      v: Visit, ids: seq<string>)
    requires Serves(registry, view, input, ids, registry.AnswerTo(v)) && registry.Registered(v)
    requires Distinct(input.getters) && input.getters != [] && PointsValid(input, points)
    requires Expected(view.response, input, points)
    ensures PrimitiveDecodes(registry.units, v.registered, registry.ResultOf(v), input, CountsOf(input), points)
  {
    var units, store, owner := registry.units, v.registered, MeasurementId(v.counter);
    var jobs := Jobs(units, registry.AnswerTo(v).value, SpecsFor(input, CountsOf(input), points));
    var items := seq(|ids|, k requires 0 <= k < |ids| => ItemFor(input, view.symbol, ids, k));
    forall k | 0 <= k < |ids|
      ensures |jobs| == |ids| && ReadsItem(units, store, jobs[k], items[k], ids[k])
      ensures Usable(store, owner, ids[k])
    {
      ServedSamples(registry, input, view, v, ids, k);
      JobOf(units, registry.AnswerTo(v).value, input, CountsOf(input), points, k);
      ServedJob(registry, input, points, view, v, ids, jobs[k], k);
    }
    OneItemEach(units, store, jobs, items, ids);
    AllUsableMeans(store, owner, ids);
  }

  /** And what it decodes to are the device's responses, whatever step counts it is decoded with. */
  lemma ServedOutput(registry: MeasurementRegistry, input: PrimitiveInput, points: NumberOfPoints, view: View,
                     v: Visit, ids: seq<string>, counts: seq<int>)
    requires Serves(registry, view, input, ids, registry.AnswerTo(v)) && registry.Registered(v)
    requires Distinct(input.getters)
    ensures OutputOf(registry.units, v.registered, registry.AnswerTo(v).value, input, counts, points)
         == EmitAll(view.response, LeafTrace(input, view.step), input.getters)
  {
    forall g | g in input.getters
      ensures SamplesFor(registry.units, v.registered, registry.AnswerTo(v).value, SpecFor(input, counts, points, g))
           == Emit(view.response, LeafTrace(input, view.step), g)
    {
      var k :| 0 <= k < |input.getters| && input.getters[k] == g;
      ServedGetter(registry, input, points, view, v, ids, counts, k);
    }
  }

  lemma ServedGetter(registry: MeasurementRegistry, input: PrimitiveInput, points: NumberOfPoints, view: View,
                     v: Visit, ids: seq<string>, counts: seq<int>, k: nat)
    requires Serves(registry, view, input, ids, registry.AnswerTo(v)) && registry.Registered(v)
    requires Distinct(input.getters) && k < |input.getters|
    ensures SamplesFor(registry.units, v.registered, registry.AnswerTo(v).value,
                       SpecFor(input, counts, points, input.getters[k]))
         == Emit(view.response, LeafTrace(input, view.step), input.getters[k])
  {
    ServedSamples(registry, input, view, v, ids, k);
    ServedItem(registry, input, points, view, registry.AnswerTo(v), ids, counts, k);
    DenotedOne(registry.units, v.registered, ItemFor(input, view.symbol, ids, k));
  }

  // ------------------------------------------------- measuring with a faithful server

  /** What the encoders ask of the getters. */
  lemma DispatchedGetters(registry: MeasurementRegistry, input: PrimitiveInput, points: NumberOfPoints, v: Visit)
    requires registry.Dispatched(input, points, v)
    ensures Distinct(input.getters) && input.getters != [] && PointsValid(input, points)
  {
  }

  lemma {:induction false} EmitConverted(units: Units, device: Device, response: Response, trace: seq<Assignment>,
                                         g: Target, unit: int)
    requires Reports(units, device, response, g, unit)
    ensures Converted(units, device.symbol(g), unit, Emit(device.measured, trace, g))
         == Some(Emit(response, trace, g))
  {
    ConvertedExactly(units, device.symbol(g), unit, Emit(device.measured, trace, g), Emit(response, trace, g));
    if trace != [] {
      var init, last := trace[..|trace| - 1], trace[|trace| - 1];
      EmitConverted(units, device, response, init, g, unit);
      ConvertedExactly(units, device.symbol(g), unit, Emit(device.measured, init, g), Emit(response, init, g));
      assert ConvertsTo(units, device.symbol(g), unit, device.measured(last, g), response(last, g));
    }
  }

  lemma SentToItsScript(registry: MeasurementRegistry, input: PrimitiveInput, points: NumberOfPoints, v: Visit)
    requires registry.Dispatched(input, points, v) && Matched(registry.measurements[input.choice])
    ensures v.script == ScriptTaking(v.arguments)
  {
  }

  /** An answer that does what the arguments say serves the input that they were made for. */
  lemma ObeyingServes(registry: MeasurementRegistry, input: PrimitiveInput, points: NumberOfPoints, device: Device,
                      reader: Reader, response: Response, v: Visit, ids: seq<string>)
    requires registry.Dispatched(input, points, v) && SeenBy(registry.units, device, response, input)
    requires Reads(reader, registry.codec) && StandsStill(device.step)
    requires Obeys(registry.dispatcher.manager.services, device, reader, v.arguments, ids, registry.AnswerTo(v))
    ensures Serves(registry, View(response, device.step, device.symbol), input, ids, registry.AnswerTo(v))
  {
    var view := View(response, device.step, device.symbol);
    ArgumentsMean(reader, registry.measurements[input.choice].encoder.value, registry.codec, input, v.arguments,
                  device.step);
    var trace := LeafTrace(input, device.step);
    forall k | 0 <= k < |ids|
      ensures HoldsResponses(registry, view, trace, input.getters[k], input.getterUnits[input.getters[k]], ids[k])
    {
      var g := input.getters[k];
      assert g in input.getters;
      EmitConverted(registry.units, device, response, trace, g, input.getterUnits[g]);
      assert AlwaysHolds(registry.dispatcher.manager.services, ids[k], Emit(device.measured, trace, g));
    }
  }

  /** A visit to a faithful server is answered with what serves its input. */
  lemma FaithfulServes(registry: MeasurementRegistry, inputs: seq<PrimitiveInput>, points: NumberOfPoints,
                       device: Device, reader: Reader, response: Response, input: PrimitiveInput, v: Visit)
    returns (ids: seq<string>)
    requires Faithful(registry, inputs, points, device, reader) && Seen(registry, inputs, device, reader, response)
    requires input in inputs && registry.Dispatched(input, points, v)
    ensures Serves(registry, View(response, device.step, device.symbol), input, ids, registry.AnswerTo(v))
  {
    var i :| 0 <= i < |inputs| && inputs[i] == input;
    SentToItsScript(registry, input, points, v);
    ids :| Obeys(registry.dispatcher.manager.services, device, reader, v.arguments, ids, registry.AnswerTo(v));
    ObeyingServes(registry, input, points, device, reader, response, v, ids);
  }

  /** A faithful server is row-major. */
  lemma FaithfulIsRowMajor(registry: MeasurementRegistry, inputs: seq<PrimitiveInput>, points: NumberOfPoints,
                           device: Device, reader: Reader, response: Response)
    requires Faithful(registry, inputs, points, device, reader) && Seen(registry, inputs, device, reader, response)
    ensures RowMajorScripts(registry, inputs, points, response, device.step)
  {
    var view := View(response, device.step, device.symbol);
    forall input, v, out | input in inputs && registry.Dispatched(input, points, v)
                           && registry.Explained(input, points, out, v)
      ensures HasCounts(input) && out == EmitAll(response, LeafTrace(input, device.step), input.getters)
    {
      var ids := FaithfulServes(registry, inputs, points, device, reader, response, input, v);
      DispatchedGetters(registry, input, points, v);
      ServedOutput(registry, input, points, view, v, ids, v.counts);
    }
  }

  lemma HeldIsAcquired(registry: MeasurementRegistry, view: View, trace: seq<Assignment>, input: PrimitiveInput,
                       ids: seq<string>, k: nat, e: BufferError)
    requires k < |ids| == |input.getters| && input.getters[k] in input.getterUnits
    requires HoldsResponses(registry, view, trace, input.getters[k], input.getterUnits[input.getters[k]], ids[k])
    ensures !NotAcquired(registry.dispatcher.manager.services, ids[k], e)
  {
    var services, g := registry.dispatcher.manager.services, input.getters[k];
    var xs :| AlwaysHolds(services, ids[k], xs)
              && Converted(registry.units, view.symbol(g), input.getterUnits[g], xs)
                 == Some(Emit(view.response, trace, g));
    forall clock: nat
      ensures Acquired(services, clock, ids[k]).Ok?
    {
      AlwaysAcquired(services, ids[k], clock, xs);
    }
  }

  /** No visit that is answered like that can fail. */
  lemma FaithfulNeverFails(registry: MeasurementRegistry, input: PrimitiveInput, points: NumberOfPoints,
                           view: View, v: Visit, ids: seq<string>, e: RunError)
    requires registry.Dispatched(input, points, v) && Expected(view.response, input, points)
    requires Serves(registry, view, input, ids, registry.AnswerTo(v))
    ensures !registry.FailsWith(input, points, e, v)
  {
    if registry.FailsWith(input, points, e, v) {
      match e {
        case Dispatching(BufferFailed(reason)) =>
          CallsForIds(input.getters, view.symbol, ids);
          HeldIsAcquired(registry, view, LeafTrace(input, view.step), input, ids, |v.claimed|, reason);
        case DecodingFailed(_) =>
          DispatchedGetters(registry, input, points, v);
          ServedDecodes(registry, input, points, view, v, ids);
        case _ =>
      }
    }
  }

  /** The inputs get as far as their scripts, and what is answered to them is expected. */
  ghost predicate AllServed(registry: MeasurementRegistry, inputs: seq<PrimitiveInput>, points: NumberOfPoints,
                            response: Response)
  {
    forall i | 0 <= i < |inputs| :: registry.Dispatchable(inputs[i], points) && Expected(response, inputs[i], points)
  }

  /** With a faithful server the execution of any list of such inputs succeeds, and returns the
      responses of the device along their traces, in the getters' units, merged in order. */
  lemma FaithfulRun(registry: MeasurementRegistry, inputs: seq<PrimitiveInput>, points: NumberOfPoints, device: Device,
                    reader: Reader, response: Response, visits: seq<Visit>, outs: seq<Output>,
                    run: Result<Output, RunError>)
    requires RanOn(registry, inputs, points, visits, outs, run)
    requires Faithful(registry, inputs, points, device, reader) && Seen(registry, inputs, device, reader, response)
    requires AllServed(registry, inputs, points, response)
    ensures run.Ok? && RunList(inputs, RowMajorScript(response, device.step), []).result == Ok(run.value)
  {
    if run.Err? {
      var n := |outs|;
      assert inputs[n] in inputs && registry.Dispatchable(inputs[n], points);
      assert VisitFailed(registry, points, inputs[n], visits[n], run.error);
      var ids := FaithfulServes(registry, inputs, points, device, reader, response, inputs[n], visits[n]);
      FaithfulNeverFails(registry, inputs[n], points, View(response, device.step, device.symbol), visits[n], ids,
                         run.error);
      assert false;
    }
    FaithfulIsRowMajor(registry, inputs, points, device, reader, response);
    OutputsOfScripts(registry, inputs, points, visits, outs, run, response, device.step);
  }

  // ------------------------------------------------------- there are such servers

  /** Input `i` of the list is sent as these arguments. */
  ghost predicate SentAs(kind: EncoderKind, codec: Codec, inputs: seq<PrimitiveInput>, i: int, arguments: Arguments) {
    && 0 <= i < |inputs| && Accepts(kind, codec, inputs[i]) && EncodedBy(kind, codec, inputs[i], arguments)
  }

  /** The name of the buffer for getter `k` of `n` of input `i`. */
  function BufferId(n: nat, i: nat, k: nat): string {
    "buffer-" + Decimal(i * n + k)
  }

  function BufferIds(n: nat, i: nat): (ids: seq<string>)
    ensures |ids| == n && forall k | 0 <= k < n :: ids[k] == BufferId(n, i, k)
  {
    seq(n, k requires 0 <= k < n => BufferId(n, i, k))
  }

  lemma BufferIdInjective(n: nat, i: nat, k: nat, j: nat, l: nat)
    requires k < n && l < n && BufferId(n, i, k) == BufferId(n, j, l)
    ensures i == j && k == l
  {
    var prefix := "buffer-";
    assert BufferId(n, i, k)[|prefix|..] == Decimal(i * n + k);
    assert BufferId(n, j, l)[|prefix|..] == Decimal(j * n + l);
    DecimalInjective(i * n + k, j * n + l);
    SamePlace(n, i, k, j, l);
  }

  lemma SamePlace(n: nat, i: nat, k: nat, j: nat, l: nat)
    requires k < n && l < n && i * n + k == j * n + l
    ensures i == j && k == l
  {
    DivisionUnique(i * n + k, n, i, k);
    DivisionUnique(j * n + l, n, j, l);
  }

  /** A server that looks at the arguments alone: it finds an input that is sent as them, and
      names that input's buffers. */
  ghost function ServerOf(kind: EncoderKind, codec: Codec, inputs: seq<PrimitiveInput>, symbol: Target -> string)
    : (nat, string, Arguments) -> Result<seq<Call>, string>
  {
    (number, script, arguments) =>
      if exists i :: SentAs(kind, codec, inputs, i, arguments) then
        var i :| SentAs(kind, codec, inputs, i, arguments);
        Ok(CallsFor(inputs[i].getters, symbol, BufferIds(|inputs[i].getters|, i)))
      else Err("unknown arguments")
  }

  /** The buffer holds what getter `k` of input `i` returns. */
  ghost predicate StoredFor(inputs: seq<PrimitiveInput>, id: string, i: int, k: int) {
    && 0 <= i < |inputs| && 0 <= k < |inputs[i].getters| && HasCounts(inputs[i])
    && id == BufferId(|inputs[i].getters|, i, k)
  }

  /** A library that holds those buffers. */
  ghost function LibraryOf(inputs: seq<PrimitiveInput>, device: Device)
    : (string, nat) -> Result<Readable, BufferError>
  {
    (id, clock) =>
      if exists i, k :: StoredFor(inputs, id, i, k) then
        var i, k :| StoredFor(inputs, id, i, k);
        Ok(Floats(Emit(device.measured, LeafTrace(inputs[i], device.step), inputs[i].getters[k])))
      else Err(NotFound)
  }

  /** The inputs of one plan: as many getters, and as many axes. */
  predicate Alike(inputs: seq<PrimitiveInput>, n: nat, d: int) {
    forall i | 0 <= i < |inputs| :: |inputs[i].getters| == n && inputs[i].choice == d
  }

  lemma LibraryHolds(inputs: seq<PrimitiveInput>, device: Device, n: nat, d: int, i: int, k: int, clock: nat)
    requires Alike(inputs, n, d) && 0 <= i < |inputs| && 0 <= k < n && HasCounts(inputs[i])
    ensures LibraryOf(inputs, device)(BufferId(n, i, k), clock)
         == Ok(Floats(Emit(device.measured, LeafTrace(inputs[i], device.step), inputs[i].getters[k])))
  {
    var id := BufferId(n, i, k);
    assert StoredFor(inputs, id, i, k);
    forall j, l | StoredFor(inputs, id, j, l)
      ensures i == j && k == l
    {
      BufferIdInjective(n, i, k, j, l);
    }
  }

  lemma ServerAnswers(kind: EncoderKind, codec: Codec, inputs: seq<PrimitiveInput>, symbol: Target -> string, i: int,
                      number: nat, script: string, arguments: Arguments)
    returns (j: int)
    requires SentAs(kind, codec, inputs, i, arguments)
    ensures SentAs(kind, codec, inputs, j, arguments)
    ensures ServerOf(kind, codec, inputs, symbol)(number, script, arguments)
         == Ok(CallsFor(inputs[j].getters, symbol, BufferIds(|inputs[j].getters|, j)))
  {
    j :| SentAs(kind, codec, inputs, j, arguments)
         && ServerOf(kind, codec, inputs, symbol)(number, script, arguments)
            == Ok(CallsFor(inputs[j].getters, symbol, BufferIds(|inputs[j].getters|, j)));
  }

  /** The registry's library is the one for these inputs, and never refuses. */
  ghost predicate Stocked(services: Services, inputs: seq<PrimitiveInput>, device: Device) {
    && services.readable == LibraryOf(inputs, device)
    && (forall id, clock :: services.metadata(id, clock).Ok?)
    && forall id, clock :: services.handOver(id, clock).None?
  }

  /** A sweep with positions has samples. */
  lemma SomethingMeasured(input: PrimitiveInput, points: NumberOfPoints, device: Device, g: Target)
    requires Expected(device.measured, input, points) && g in input.getters
    ensures Emit(device.measured, LeafTrace(input, device.step), g) != []
  {
    SpecSize(input, points, device.measured, device.step, g);
    ProductPositive(CountsOf(input) + [SamplesPerPosition(PointsOf(points, g))]);
  }

  lemma StockedHolds(services: Services, inputs: seq<PrimitiveInput>, points: NumberOfPoints, device: Device, n: nat,
                     d: int, i: int, k: int)
    requires Stocked(services, inputs, device) && Alike(inputs, n, d) && 0 <= i < |inputs| && 0 <= k < n
    requires Expected(device.measured, inputs[i], points)
    ensures AlwaysHolds(services, BufferId(n, i, k),
                        Emit(device.measured, LeafTrace(inputs[i], device.step), inputs[i].getters[k]))
  {
    var id, xs := BufferId(n, i, k), Emit(device.measured, LeafTrace(inputs[i], device.step), inputs[i].getters[k]);
    SomethingMeasured(inputs[i], points, device, inputs[i].getters[k]);
    forall clock: nat
      ensures HoldsNow(services, id, clock, xs)
    {
      LibraryHolds(inputs, device, n, d, i, k, clock);
    }
  }

  lemma BufferIdsDistinct(n: nat, i: nat)
    ensures DistinctIds(BufferIds(n, i)) && forall k | 0 <= k < n :: BufferIds(n, i)[k] != ""
  {
    var ids := BufferIds(n, i);
    forall k, l | 0 <= k < l < n
      ensures ids[k] != ids[l]
    {
      if ids[k] == ids[l] {
        BufferIdInjective(n, i, k, i, l);
      }
    }
  }

  /** The buffers named for an input do what the arguments that it is sent as say. */
  lemma NamedObey(services: Services, kind: EncoderKind, codec: Codec, inputs: seq<PrimitiveInput>,
                  points: NumberOfPoints, device: Device, reader: Reader, n: nat, d: int, arguments: Arguments, j: int)
    requires Reads(reader, codec) && StandsStill(device.step)
    requires Stocked(services, inputs, device) && Alike(inputs, n, d) && SentAs(kind, codec, inputs, j, arguments)
    requires Expected(device.measured, inputs[j], points)
    ensures Obeys(services, device, reader, arguments, BufferIds(n, j),
                  Ok(CallsFor(inputs[j].getters, device.symbol, BufferIds(n, j))))
  {
    var ids := BufferIds(n, j);
    BufferIdsDistinct(n, j);
    ArgumentsMean(reader, kind, codec, inputs[j], arguments, device.step);
    forall k | 0 <= k < n
      ensures AlwaysHolds(services, ids[k],
                          Emit(device.measured, LeafTrace(inputs[j], device.step), inputs[j].getters[k]))
    {
      StockedHolds(services, inputs, points, device, n, d, j, k);
    }
  }

  /** There are faithful servers for every device, however what it measures depends on the voltages
      and in whatever unit it reports: with a codec that can be read back, and sweeps that stand
      still when their ends are the same, the server that looks at the arguments alone is one. */
  lemma BuiltIsFaithful(registry: MeasurementRegistry, inputs: seq<PrimitiveInput>, points: NumberOfPoints,
                        device: Device, reader: Reader, kind: EncoderKind, n: nat, d: int)
    requires Reads(reader, registry.codec) && StandsStill(device.step) && Alike(inputs, n, d)
    requires d in registry.measurements && registry.measurements[d].encoder == Some(kind)
    requires forall i | 0 <= i < |inputs| :: Expected(device.measured, inputs[i], points)
    requires registry.dispatcher.execute == ServerOf(kind, registry.codec, inputs, device.symbol)
    requires Stocked(registry.dispatcher.manager.services, inputs, device)
    ensures Faithful(registry, inputs, points, device, reader)
  {
    var services := registry.dispatcher.manager.services;
    forall input, v | input in inputs && registry.Dispatched(input, points, v)
                      && v.script == ScriptTaking(v.arguments)
      ensures exists ids :: Obeys(services, device, reader, v.arguments, ids, registry.AnswerTo(v))
    {
      var i :| 0 <= i < |inputs| && inputs[i] == input;
      assert SentAs(kind, registry.codec, inputs, i, v.arguments);
      var j := ServerAnswers(kind, registry.codec, inputs, device.symbol, i, v.counter, v.script, v.arguments);
      NamedObey(services, kind, registry.codec, inputs, points, device, reader, n, d, v.arguments, j);
      assert Obeys(services, device, reader, v.arguments, BufferIds(n, j), registry.AnswerTo(v));
    }
  }

  /** A device that tells one assignment of voltages from all others is such a device. */
  lemma DetectorExpected(input: PrimitiveInput, points: NumberOfPoints, a: Assignment)
    requires HasCounts(input) && Product(Nats(CountsOf(input))) <= MAX_INT
    requires forall g | g in input.getters :: SamplesPerPosition(PointsOf(points, g)) == 1
    ensures Expected(Detector(a), input, points)
    ensures forall b, g :: b != a ==> Detector(a)(b, g) != Detector(a)(a, g)
  {
    CountsPositive(input, CountsOf(input));
    assert Nats(CountsOf(input)) == CountsOf(input);
    ProductSnoc(CountsOf(input), 1);
    forall b, g | b != a
      ensures Detector(a)(b, g) != Detector(a)(a, g)
    {
      assert Detector(a)(b, g)[0] == 0.0 && Detector(a)(a, g)[0] == 1.0;
    }
  }
}
