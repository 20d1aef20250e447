/**
 A whole measurement request: build the registry, plan, read the numbers of points, execute,
 average, label the arrays, and record them.
 */
module Handler {
  import opened Wrappers
  import opened Ports
  import opened RowMajor
  import opened Planner
  import opened PlanStructure
  import opened PlanExecution
  import opened PrimitiveCode
  import opened PlanMeaning
  import opened Averaging
  import opened Shapes
  import opened Buffers
  import opened WireCodec
  import opened Decoder
  import opened EndToEnd
  import opened Registry
  import opened PrimitiveDecoding
  import opened PlanRuns
  import opened GetterMeaning
  import opened ScriptArguments
  import opened FaithfulServer

  datatype HandleError =
    | Registering(registryError: RegistryError) | Planning(planError: PlanError) | ReadingPoints(message: string)
    | Executing(runError: RunError) | AveragingFailed(averageError: AverageError) | Recording(recordError: string)

  /** Single points are all there is. */
  predicate OnlyDim0(dims: seq<int>) {
    dims != [] && forall d | d in dims :: d == 0
  }

  /** Nothing is read from the device when single points are all there is. */
  function PointsUsed(dims: seq<int>, sampleCounts: Result<NumberOfPoints, string>): Result<NumberOfPoints, string> {
    if OnlyDim0(dims) then Ok(map[]) else sampleCounts
  }

  /** The numbers of points in use: none when every dimensionality on offer is zero, and otherwise
      those that were read. */
  ghost predicate PointsInUse(dims: seq<int>, sampleCounts: Result<NumberOfPoints, string>, points: NumberOfPoints) {
    if forall d | d in dims :: d == 0 then points == map[] else sampleCounts == Ok(points)
  }

  lemma PointsAreThose(dims: seq<int>, sampleCounts: Result<NumberOfPoints, string>)
    requires dims != []
    ensures PointsUsed(dims, sampleCounts).Ok? ==>
              PointsInUse(dims, sampleCounts, PointsUsed(dims, sampleCounts).value)
    ensures PointsUsed(dims, sampleCounts).Err? ==>
              (exists d :: d in dims && d != 0) && sampleCounts == Err(PointsUsed(dims, sampleCounts).error)
  {
  }

  method ReportShape(p: Plan) returns (shape: seq<int>)
    ensures PlanShape(p, shape)
  {
    match p {
      case Native(input, _) => shape := NativeShape(input.setters);
      case Nested(_, stored) => shape := stored;
    }
  }

  // --------------------------------------------------------- averaging and labelling

  /** The arrays of an executed plan: one for each getter of the merged output, with its averages
      and the plan's shape. */
  ghost predicate Labels(getters: seq<InstrumentPort>, ports: seq<ConnectedPort>, plan: Plan, merged: Output,
                         points: NumberOfPoints, order: seq<Target>, ranges: seq<LabelledArray>)
  {
    && GettersUpTo(getters, ports, |getters|).Ok?
    && ListsOnce(order, merged.Keys)
    && exists shape ::
         && PlanShape(plan, shape)
         && RangesOf(ranges, order, AveragedOutput(merged, points), GettersUpTo(getters, ports, |getters|).value.1,
                     shape)
  }

  /** Some getter has no port, or not as many averages as the plan's shape asks for. */
  ghost predicate CannotLabel(getters: seq<InstrumentPort>, ports: seq<ConnectedPort>, plan: Plan, merged: Output,
                              points: NumberOfPoints)
  {
    exists shape ::
      PlanShape(plan, shape) && !LengthsMatch(getters, AveragedOutput(merged, points), ports, shape)
  }

  /** Every array has the lengths of all axes as its shape, and one number per position. */
  predicate FullArrays(axes: Waveform, ranges: seq<LabelledArray>) {
    forall i | 0 <= i < |ranges| :: ranges[i].shape == ShapeOf(axes) && |ranges[i].data| == Product(ShapeOf(axes))
  }

  /** Unless an axis is empty, there is exactly one array for every getter target. */
  ghost predicate OneEach(getters: seq<InstrumentPort>, axes: Waveform, ports: seq<ConnectedPort>, order: seq<Target>)
    requires GettersUpTo(getters, ports, |getters|).Ok?
  {
    NoEmptyAxis(axes) ==> ListsOnce(order, set t | t in GetterTargets(getters, ports))
  }

  /** The request can be planned, and has an int's worth of positions at most. */
  ghost predicate WellPosed(getters: seq<InstrumentPort>, axes: Waveform, ports: seq<ConnectedPort>) {
    Plannable(getters, axes, ports) && Product(ShapeOf(axes)) <= MAX_INT
  }

  datatype LabelError = NotAveraged(averageError: AverageError) | NotLabelled(rangeError: RangeError)

  lemma RangesAreFull(axes: Waveform, ranges: seq<LabelledArray>, order: seq<Target>, averaged: Output,
                      portOf: map<Target, InstrumentPort>, shape: seq<int>)
    requires RangesOf(ranges, order, averaged, portOf, shape) && shape == ShapeOf(axes)
    requires forall t :: t in averaged ==> |averaged[t]| == Product(ShapeOf(axes))
    ensures FullArrays(axes, ranges)
  {
  }

  /** What a well-posed request guarantees of the outputs of its leaves. */
  lemma PosedOutputs(getters: seq<InstrumentPort>, axes: Waveform, ports: seq<ConnectedPort>, dims: seq<int>,
                     plan: Plan, points: NumberOfPoints, outs: seq<Output>, shape: seq<int>)
    requires WellPosed(getters, axes, ports) && BuildPlanSpec(getters, axes, ports, map[], dims) == Ok(plan)
    requires LeavesSized(InputsOf(plan), points, outs) && PlanShape(plan, shape)
    ensures shape == ShapeOf(axes) && OutputAverageable(MergeAll(outs), points)
    ensures LengthsMatch(getters, AveragedOutput(MergeAll(outs), points), ports, shape)
    ensures forall t :: t in MergeAll(outs) ==> |AveragedOutput(MergeAll(outs), points)[t]| == Product(ShapeOf(axes))
    ensures NoEmptyAxis(axes) ==> MergeAll(outs).Keys == set t | t in GetterTargets(getters, ports)
  {
    RecordedSamplesConserved(getters, axes, ports, dims, points, outs);
    PlannedRangesFit(getters, axes, ports, dims, points, MergeAll(outs), shape);
    ConservedAverages(ShapeOf(axes), GetterTargets(getters, ports), points, MergeAll(outs));
    if NoEmptyAxis(axes) {
      ProductPositive(ShapeOf(axes));
      NoGetterMissing(ShapeOf(axes), GetterTargets(getters, ports), points, MergeAll(outs));
    }
  }

  /** For a well-posed request neither averaging nor labelling can fail. */
  lemma PosedCannotFail(getters: seq<InstrumentPort>, axes: Waveform, ports: seq<ConnectedPort>, dims: seq<int>,
                        plan: Plan, points: NumberOfPoints, outs: seq<Output>)
    requires WellPosed(getters, axes, ports) && BuildPlanSpec(getters, axes, ports, map[], dims) == Ok(plan)
    requires LeavesSized(InputsOf(plan), points, outs)
    ensures !CannotLabel(getters, ports, plan, MergeAll(outs), points)
    ensures OutputAverageable(MergeAll(outs), points)
  {
    RecordedSamplesConserved(getters, axes, ports, dims, points, outs);
    ConservedAverages(ShapeOf(axes), GetterTargets(getters, ports), points, MergeAll(outs));
    forall shape | PlanShape(plan, shape)
      ensures LengthsMatch(getters, AveragedOutput(MergeAll(outs), points), ports, shape)
    {
      PosedOutputs(getters, axes, ports, dims, plan, points, outs, shape);
    }
  }

  /** And then every array is full, and no getter is missing. */
  lemma PosedLabels(getters: seq<InstrumentPort>, axes: Waveform, ports: seq<ConnectedPort>, dims: seq<int>, plan: Plan,
                    points: NumberOfPoints, outs: seq<Output>, order: seq<Target>, ranges: seq<LabelledArray>)
    requires WellPosed(getters, axes, ports) && BuildPlanSpec(getters, axes, ports, map[], dims) == Ok(plan)
    requires LeavesSized(InputsOf(plan), points, outs)
    requires Labels(getters, ports, plan, MergeAll(outs), points, order, ranges)
    ensures FullArrays(axes, ranges) && OneEach(getters, axes, ports, order)
  {
    var merged, portOf := MergeAll(outs), GettersUpTo(getters, ports, |getters|).value.1;
    var shape :| PlanShape(plan, shape) && RangesOf(ranges, order, AveragedOutput(merged, points), portOf, shape);
    PosedOutputs(getters, axes, ports, dims, plan, points, outs, shape);
    RangesAreFull(axes, ranges, order, AveragedOutput(merged, points), portOf, shape);
  }

  /** What follows execution: averaging, and labelling with the plan's own shape. */
  method AverageAndLabel(getters: seq<InstrumentPort>, ports: seq<ConnectedPort>, plan: Plan, points: NumberOfPoints,
                         output: Output)
    returns (r: Result<seq<LabelledArray>, LabelError>, ghost order: seq<Target>)
    ensures exists shape :: PlanShape(plan, shape)
    ensures r.Ok? ==> Labels(getters, ports, plan, output, points, order, r.value)
    ensures r.Err? ==> if r.error.NotAveraged? then !OutputAverageable(output, points)
                       else CannotLabel(getters, ports, plan, output, points)
  {
    order := [];
    var shape := ReportShape(plan);
    var averaged := AverageOutput(output, points);
    if averaged.Err? {
      r := Err(NotAveraged(averaged.error));
      return;
    }
    var ranges;
    ranges, order := BuildRanges(getters, averaged.value, ports, shape);
    r := if ranges.Err? then Err(NotLabelled(ranges.error)) else Ok(ranges.value);
  }

  // --------------------------------------------------------------- the whole request

  /** The scripts of the offered dimensionalities. */
  ghost predicate SelectedFrom(selected: map<int, Definition>, dims: seq<int>, definitions: map<int, Definition>) {
    && selected.Keys == (set d | d in dims)
    && forall d :: d in selected ==> Offered(definitions, d) && selected[d] == definitions[d]
  }

  /** The registry was built from the offered dimensionalities. */
  ghost predicate Selected(registry: MeasurementRegistry, dims: seq<int>, definitions: map<int, Definition>,
                           dispatcher: Dispatcher, codec: Codec, units: Units)
  {
    && registry.dispatcher == dispatcher && registry.codec == codec && registry.units == units
    && SelectedFrom(registry.measurements, dims, definitions)
  }

  lemma SelectedComplete(dims: seq<int>, definitions: map<int, Definition>, selected: map<int, Definition>)
    requires forall i | 0 <= i < |dims| :: Offered(definitions, dims[i])
    requires selected.Keys == set d | d in dims
    requires forall d :: d in selected ==> d in definitions && selected[d] == definitions[d]
    ensures forall d :: d in selected ==> Offered(definitions, d) && CompleteDefinition(selected[d])
  {
    forall d | d in selected
      ensures Offered(definitions, d)
    {
      var i :| 0 <= i < |dims| && dims[i] == d;
      assert Offered(definitions, dims[i]);
    }
  }

  /** What led to a response: the registry, the visits to the script server, the outputs of the
      leaves, how their execution ended, and the order of the arrays. */
  datatype Trace = Trace(registry: MeasurementRegistry, visits: seq<Visit>, outs: seq<Output>,
                         run: Result<Output, RunError>, order: seq<Target>)

  /** The request got as far as executing its plan, and the trace records how that went. */
  ghost predicate Executed(getters: seq<InstrumentPort>, axes: Waveform, ports: seq<ConnectedPort>, dims: seq<int>,
                           definitions: map<int, Definition>, dispatcher: Dispatcher, codec: Codec, units: Units,
                           sampleCounts: Result<NumberOfPoints, string>, t: Trace)
  {
    && BuildPlanSpec(getters, axes, ports, map[], dims).Ok? && PointsUsed(dims, sampleCounts).Ok?
    && Selected(t.registry, dims, definitions, dispatcher, codec, units)
    && RanOn(t.registry, InputsOf(BuildPlanSpec(getters, axes, ports, map[], dims).value),
             PointsUsed(dims, sampleCounts).value, t.visits, t.outs, t.run)
  }

  /** The response to an executed request, and how it follows from the execution. Arrays that
      could not be labelled are dropped without an error. */
  ghost predicate Responds(getters: seq<InstrumentPort>, axes: Waveform, ports: seq<ConnectedPort>, dims: seq<int>,
                           points: NumberOfPoints, recording: Option<string>, t: Trace,
                           r: Result<seq<LabelledArray>, HandleError>)
    requires BuildPlanSpec(getters, axes, ports, map[], dims).Ok?
  {
    var plan := BuildPlanSpec(getters, axes, ports, map[], dims).value;
    match t.run
    case Err(e) => r == Err(Executing(e))
    case Ok(merged) =>
      match r
      case Err(AveragingFailed(_)) => !OutputAverageable(merged, points)
      case Err(Recording(message)) => recording == Some(message)
      case Err(_) => false
      case Ok(arrays) =>
        && recording.None?
        && (|| Labels(getters, ports, plan, merged, points, t.order, arrays)
            || (arrays == [] && CannotLabel(getters, ports, plan, merged, points)))
  }

  // ------------------------------------------------------------ what is not encoded

  /** The program's own scripts, a two-dimensional one among those on offer, and a request of
      three axes or more that has nothing else against it. */
  ghost predicate BeyondTheEncoders(getters: seq<InstrumentPort>, axes: Waveform, ports: seq<ConnectedPort>,
                                    dims: seq<int>, definitions: map<int, Definition>, codec: Codec,
                                    points: Result<NumberOfPoints, string>)
  {
    && definitions == PRIMITIVE_MEASUREMENTS && Offers(dims) && 2 in dims
    && EncodableRequest(getters, axes, ports, codec) && |axes| > 2
    && points.Ok? && forall g | g in GetterTargets(getters, ports) :: PointsOf(points.value, g) >= 0
  }

  /** Distinct dimensionalities that the program has scripts for. */
  predicate Offers(dims: seq<int>) {
    (forall i, j | 0 <= i < j < |dims| :: dims[i] != dims[j]) && forall d | d in dims :: 0 <= d <= 2
  }

  /** A plannable request without empty axes, whose getters and values the encoders take. */
  ghost predicate EncodableRequest(getters: seq<InstrumentPort>, axes: Waveform, ports: seq<ConnectedPort>,
                                   codec: Codec)
  {
    && Plannable(getters, axes, ports) && NoEmptyAxis(axes) && TotalCodec(codec)
    && GetterTargets(getters, ports) != [] && Distinct(GetterTargets(getters, ports))
  }

  /** On the program's own scripts, the leaves of such a request get as far as their script exactly
      when the largest dimensionality in reach is below two, or there are two axes. */
  lemma LeavesDispatchable(registry: MeasurementRegistry, getters: seq<InstrumentPort>, axes: Waveform,
                           ports: seq<ConnectedPort>, dims: seq<int>, d: nat, points: NumberOfPoints)
    requires EncodableRequest(getters, axes, ports, registry.codec) && Offers(dims)
    requires d in dims && d <= |axes| && forall e | e in dims :: !(d < e <= |axes|)
    requires forall g | g in GetterTargets(getters, ports) :: PointsOf(points, g) >= 0
    requires d in registry.measurements && registry.measurements[d] == PRIMITIVE_MEASUREMENTS[d]
    ensures
      var r := BuildPlanSpec(getters, axes, ports, map[], dims);
      && r.Ok? && InputsOf(r.value) != []
      && forall i | 0 <= i < |InputsOf(r.value)| ::
           && InputsOf(r.value)[i].choice == d && PointsValid(InputsOf(r.value)[i], points)
           && (registry.Dispatchable(InputsOf(r.value)[i], points) <==> d < 2 || |axes| == 2)
  {
    PlanEncodes(registry.codec, getters, axes, ports, dims, d);
    assert registry.measurements[d].encoder == Some(EncoderFor(d));
  }

  lemma BeyondIsPlanned(getters: seq<InstrumentPort>, axes: Waveform, ports: seq<ConnectedPort>, dims: seq<int>,
                        definitions: map<int, Definition>, codec: Codec, points: Result<NumberOfPoints, string>)
    requires BeyondTheEncoders(getters, axes, ports, dims, definitions, codec, points)
    ensures dims != [] && forall i | 0 <= i < |dims| :: Offered(definitions, dims[i])
    ensures BuildPlanSpec(getters, axes, ports, map[], dims).Ok?
  {
    PlanEncodes(codec, getters, axes, ports, dims, 2);
    forall i | 0 <= i < |dims|
      ensures Offered(definitions, dims[i])
    {
      assert dims[i] in dims;
    }
  }

  /** Such a request always ends in an encoding error, before any script is called. */
  lemma BeyondIsRefused(getters: seq<InstrumentPort>, axes: Waveform, ports: seq<ConnectedPort>, dims: seq<int>,
                        definitions: map<int, Definition>, codec: Codec, points: Result<NumberOfPoints, string>,
                        registry: MeasurementRegistry, visits: seq<Visit>, outs: seq<Output>,
                        run: Result<Output, RunError>)
    requires BeyondTheEncoders(getters, axes, ports, dims, definitions, codec, points)
    requires Selected(registry, dims, definitions, registry.dispatcher, codec, registry.units)
    requires BuildPlanSpec(getters, axes, ports, map[], dims).Ok?
    requires RanOn(registry, InputsOf(BuildPlanSpec(getters, axes, ports, map[], dims).value), points.value, visits,
                   outs, run)
    ensures run.Err? && run.error.Encoding? && visits == []
  {
    var inputs := InputsOf(BuildPlanSpec(getters, axes, ports, map[], dims).value);
    LeavesDispatchable(registry, getters, axes, ports, dims, 2, points.value);
    RefusedFromTheStart(registry, inputs, points.value, visits, outs, run);
  }

  // ------------------------------------------------------------------ the request

  /** The registry can be built from the offered dimensionalities. */
  predicate Registrable(dims: seq<int>, definitions: map<int, Definition>) {
    && dims != [] && (forall i, j | 0 <= i < j < |dims| :: dims[i] != dims[j])
    && forall i | 0 <= i < |dims| :: Offered(definitions, dims[i])
  }

  /** The request gets as far as executing its plan. */
  ghost predicate Executable(getters: seq<InstrumentPort>, axes: Waveform, ports: seq<ConnectedPort>, dims: seq<int>,
                             definitions: map<int, Definition>, points: Result<NumberOfPoints, string>)
  {
    Registrable(dims, definitions) && BuildPlanSpec(getters, axes, ports, map[], dims).Ok? && points.Ok?
  }

  /** Why a request does not get as far as that. */
  ghost predicate EndsEarly(getters: seq<InstrumentPort>, axes: Waveform, ports: seq<ConnectedPort>, dims: seq<int>,
                            definitions: map<int, Definition>, sampleCounts: Result<NumberOfPoints, string>,
                            e: HandleError)
  {
    if !Registrable(dims, definitions) then e.Registering?
    else if BuildPlanSpec(getters, axes, ports, map[], dims).Err?
      then e == Planning(BuildPlanSpec(getters, axes, ports, map[], dims).error)
    else e.ReadingPoints? && sampleCounts == Err(e.message) && exists d :: d in dims && d != 0
  }

  /** Handling a request, up to the response. Each visit to the script server is made for its own
      leaf, in order and with its own number; the arrays are the averages of what the scripts
      returned; and what is tracked afterwards is what the visits leave. For a well-posed request
      averaging and labelling cannot fail, whatever dimensionalities were on offer and whether
      points were read or not. */
  method Measure(getters: seq<InstrumentPort>, axes: Waveform, ports: seq<ConnectedPort>, dims: seq<int>,
                 definitions: map<int, Definition>, dispatcher: Dispatcher, codec: Codec, units: Units,
                 sampleCounts: Result<NumberOfPoints, string>, recording: Option<string>)
    returns (r: Result<seq<LabelledArray>, HandleError>, ghost trace: Option<Trace>)
    requires dispatcher.manager.Valid()
    modifies dispatcher, dispatcher.manager, dispatcher.manager.services
    ensures dispatcher.manager.Valid()
    ensures trace.Some? <==> Executable(getters, axes, ports, dims, definitions, PointsUsed(dims, sampleCounts))
    ensures trace.None? ==>
              && r.Err? && EndsEarly(getters, axes, ports, dims, definitions, sampleCounts, r.error)
              && dispatcher.counter == old(dispatcher.counter)
              && dispatcher.manager.buffers == old(dispatcher.manager.buffers)
              && dispatcher.manager.overwritten == old(dispatcher.manager.overwritten)
    ensures trace.Some? ==>
              && Executed(getters, axes, ports, dims, definitions, dispatcher, codec, units, sampleCounts, trace.value)
              && PointsInUse(dims, sampleCounts, PointsUsed(dims, sampleCounts).value)
              && Left(trace.value.registry, old(dispatcher.manager.buffers), old(dispatcher.counter),
                      old(dispatcher.manager.overwritten), trace.value.visits)
              && Responds(getters, axes, ports, dims, PointsUsed(dims, sampleCounts).value, recording, trace.value, r)
    ensures trace.Some? && WellPosed(getters, axes, ports) ==>
              if r.Ok? then FullArrays(axes, r.value) && OneEach(getters, axes, ports, trace.value.order)
              else r.error.Executing? || r.error.Recording?
    ensures trace.Some? && TidyServer(dispatcher, old(dispatcher.manager.buffers), old(dispatcher.counter),
                                      |InputsOf(BuildPlanSpec(getters, axes, ports, map[], dims).value)|) ==>
              && dispatcher.manager.buffers == old(dispatcher.manager.buffers)
              && (ServesOnce(dispatcher, old(dispatcher.counter),
                             |InputsOf(BuildPlanSpec(getters, axes, ports, map[], dims).value)|) ==>
                    dispatcher.manager.overwritten == old(dispatcher.manager.overwritten))
    ensures BeyondTheEncoders(getters, axes, ports, dims, definitions, codec, PointsUsed(dims, sampleCounts)) ==>
              && r.Err? && r.error.Executing? && r.error.runError.Encoding?
              && dispatcher.counter == old(dispatcher.counter)
  {
    ghost var beyond :=
      BeyondTheEncoders(getters, axes, ports, dims, definitions, codec, PointsUsed(dims, sampleCounts));
    if beyond {
      BeyondIsPlanned(getters, axes, ports, dims, definitions, codec, PointsUsed(dims, sampleCounts));
    }
    var prepared := Prepare(getters, axes, ports, dims, definitions, sampleCounts);
    if prepared.Err? {
      return Err(prepared.error), None;
    }
    var Prepared(selected, plan, points) := prepared.value;
    var registry := new MeasurementRegistry(selected, dispatcher, codec, units);
    ghost var t;
    r, t := RunPlanned(getters, axes, ports, dims, plan, points, registry, recording);
    trace := Some(t);
    if beyond {
      BeyondIsRefused(getters, axes, ports, dims, definitions, codec, Ok(points), registry, t.visits, t.outs, t.run);
    }
  }

  datatype Prepared = Prepared(selected: map<int, Definition>, plan: Plan, points: NumberOfPoints)

  /** What comes before execution: choosing the scripts, planning, and reading the numbers of
      points. */
  method Prepare(getters: seq<InstrumentPort>, axes: Waveform, ports: seq<ConnectedPort>, dims: seq<int>,
                 definitions: map<int, Definition>, sampleCounts: Result<NumberOfPoints, string>)
    returns (r: Result<Prepared, HandleError>)
    ensures r.Ok? <==> Executable(getters, axes, ports, dims, definitions, PointsUsed(dims, sampleCounts))
    ensures r.Err? ==> EndsEarly(getters, axes, ports, dims, definitions, sampleCounts, r.error)
    ensures r.Ok? ==>
              && SelectedFrom(r.value.selected, dims, definitions)
              && (forall d :: d in r.value.selected ==> CompleteDefinition(r.value.selected[d]))
              && BuildPlanSpec(getters, axes, ports, map[], dims) == Ok(r.value.plan)
              && BoundedInputs(InputsOf(r.value.plan)) && PointsUsed(dims, sampleCounts) == Ok(r.value.points)
              && PointsInUse(dims, sampleCounts, r.value.points)
  {
    var selected := BuildMeasurementRegistry(dims, definitions);
    if selected.Err? {
      return Err(Registering(selected.error));
    }
    var plan := BuildPlan(Planner.Request.Request(getters, [axes]), ports, dims);
    if plan.Err? {
      return Err(Planning(plan.error));
    }
    var points := PointsUsed(dims, sampleCounts);
    PointsAreThose(dims, sampleCounts);
    if points.Err? {
      return Err(ReadingPoints(points.error));
    }
    SelectedComplete(dims, definitions, selected.value);
    PlanBounded(getters, axes, ports, map[], dims);
    r := Ok(Prepared(selected.value, plan.value, points.value));
  }

  /** From the plan to the response. */
  method RunPlanned(getters: seq<InstrumentPort>, axes: Waveform, ports: seq<ConnectedPort>, dims: seq<int>,
                    plan: Plan, points: NumberOfPoints, registry: MeasurementRegistry, recording: Option<string>)
    returns (r: Result<seq<LabelledArray>, HandleError>, ghost t: Trace)
    requires registry.dispatcher.manager.Valid() && BoundedInputs(InputsOf(plan))
    requires forall d :: d in registry.measurements ==> CompleteDefinition(registry.measurements[d])
    requires BuildPlanSpec(getters, axes, ports, map[], dims) == Ok(plan)
    modifies registry.dispatcher, registry.dispatcher.manager, registry.dispatcher.manager.services
    ensures registry.dispatcher.manager.Valid() && t.registry == registry
    ensures RanOn(registry, InputsOf(plan), points, t.visits, t.outs, t.run)
    ensures Left(registry, old(registry.dispatcher.manager.buffers), old(registry.dispatcher.counter),
                 old(registry.dispatcher.manager.overwritten), t.visits)
    ensures Responds(getters, axes, ports, dims, points, recording, t, r)
    ensures WellPosed(getters, axes, ports) ==>
              if r.Ok? then FullArrays(axes, r.value) && OneEach(getters, axes, ports, t.order)
              else r.error.Executing? || r.error.Recording?
    ensures TidyServer(registry.dispatcher, old(registry.dispatcher.manager.buffers), old(registry.dispatcher.counter),
                       |InputsOf(plan)|) ==>
              && registry.dispatcher.manager.buffers == old(registry.dispatcher.manager.buffers)
              && (ServesOnce(registry.dispatcher, old(registry.dispatcher.counter), |InputsOf(plan)|) ==>
                    registry.dispatcher.manager.overwritten == old(registry.dispatcher.manager.overwritten))
  {
    ghost var before, from := registry.dispatcher.manager.buffers, registry.dispatcher.counter;
    var output;
    ghost var visits, outs, order;
    output, visits, outs := ExecuteOn(registry, plan, points);
    if TidyServer(registry.dispatcher, before, from, |InputsOf(plan)|) {
      TidyServerLeavesNoTrace(registry, InputsOf(plan), points, before, from, visits, outs, output);
    }
    r, order := Respond(getters, axes, ports, dims, plan, points, registry, output, visits, outs, recording);
    t := Trace(registry, visits, outs, output, order);
  }

  /** From the merged outputs to the response. */
  method Respond(getters: seq<InstrumentPort>, axes: Waveform, ports: seq<ConnectedPort>, dims: seq<int>, plan: Plan,
                 points: NumberOfPoints, registry: MeasurementRegistry, output: Result<Output, RunError>,
                 ghost visits: seq<Visit>, ghost outs: seq<Output>, recording: Option<string>)
    returns (r: Result<seq<LabelledArray>, HandleError>, ghost order: seq<Target>)
    requires BuildPlanSpec(getters, axes, ports, map[], dims) == Ok(plan)
    requires RanOn(registry, InputsOf(plan), points, visits, outs, output)
    ensures Responds(getters, axes, ports, dims, points, recording, Trace(registry, visits, outs, output, order), r)
    ensures WellPosed(getters, axes, ports) ==>
              if r.Ok? then FullArrays(axes, r.value) && OneEach(getters, axes, ports, order)
              else r.error.Executing? || r.error.Recording?
  {
    order := [];
    if output.Err? {
      r := Err(Executing(output.error));
      return;
    }
    RanSized(registry, InputsOf(plan), points, visits, outs, output);
    var labelled;
    labelled, order := AverageAndLabel(getters, ports, plan, points, output.value);
    if WellPosed(getters, axes, ports) {
      PosedCannotFail(getters, axes, ports, dims, plan, points, outs);
      PosedLabels(getters, axes, ports, dims, plan, points, outs, order, labelled.value);
    }
    if labelled.Err? && labelled.error.NotAveraged? {
      r := Err(AveragingFailed(labelled.error.averageError));
    } else if recording.Some? {
      r := Err(Recording(recording.value));
    } else {
      r := Ok(if labelled.Ok? then labelled.value else []);
    }
  }

  // ------------------------------------------------------------- what is measured

  /** Meaning on the whole stack: with scripts that are row-major for the plan's own inputs, and
      ports that step through their axes' points, the merged samples of an executed request are
      the device's responses along the row-major walk over the whole sweep, whatever scripts were
      available. */
  lemma MeasuresTheReference(registry: MeasurementRegistry, getters: seq<InstrumentPort>, axes: Waveform,
                             ports: seq<ConnectedPort>, dims: seq<int>, plan: Plan, points: NumberOfPoints,
                             visits: seq<Visit>, outs: seq<Output>, run: Result<Output, RunError>,
                             response: Response, step: Stepping)
    requires Plannable(getters, axes, ports) && NoEmptyAxis(axes) && Agreement(axes, Root(axes, ports), step)
    requires BuildPlanSpec(getters, axes, ports, map[], dims) == Ok(plan)
    requires RanOn(registry, InputsOf(plan), points, visits, outs, run)
    requires run.Ok? && RowMajorScripts(registry, InputsOf(plan), points, response, step)
    ensures run.value == EmitAll(response, ReferenceTrace(axes, Root(axes, ports)), GetterTargets(getters, ports))
  {
    OutputsOfScripts(registry, InputsOf(plan), points, visits, outs, run, response, step);
    RowMajorRun(getters, axes, ports, dims, plan, run.value, response, step);
  }

  lemma RowMajorRun(getters: seq<InstrumentPort>, axes: Waveform, ports: seq<ConnectedPort>, dims: seq<int>,
                    plan: Plan, merged: Output, response: Response, step: Stepping)
    requires Plannable(getters, axes, ports) && NoEmptyAxis(axes) && Agreement(axes, Root(axes, ports), step)
    requires BuildPlanSpec(getters, axes, ports, map[], dims) == Ok(plan)
    requires RunList(InputsOf(plan), RowMajorScript(response, step), []).result == Ok(merged)
    ensures merged == EmitAll(response, ReferenceTrace(axes, Root(axes, ports)), GetterTargets(getters, ports))
  {
    ExecutionIsFlat(plan, RowMajorScript(response, step), []);
    PlanningSucceeds(getters, axes, ports, dims);
    PlanMeaning.PlanMeaning(getters, axes, ports, dims, RowMajorScript(response, step), response, step, []);
  }

  lemma {:induction false} LastNamer(targets: seq<Target>, t: Target, n: nat) returns (j: nat)
    requires n <= |targets| && t in targets[..n]
    ensures j < n && targets[j] == t && LastToName(targets, j, n)
  {
    if targets[n - 1] == t {
      j := n - 1;
    } else {
      assert targets[..n] == targets[..n - 1] + [targets[n - 1]];
      j := LastNamer(targets, t, n - 1);
    }
  }

  /** The array carries the gate, the unit and the kind of instrument of the last getter that names
      its target. */
  ghost predicate CarriesLabel(getters: seq<InstrumentPort>, targets: seq<Target>, t: Target, labelled: LabelledArray)
    requires |targets| == |getters|
  {
    exists j | 0 <= j < |getters| ::
      && targets[j] == t && LastToName(targets, j, |getters|)
      && labelled.connection == getters[j].pseudoName && labelled.unit == getters[j].unit
      && labelled.instrumentType == getters[j].instrumentType
  }

  lemma LabelOf(getters: seq<InstrumentPort>, ports: seq<ConnectedPort>, t: Target, data: seq<real>, shape: seq<int>)
    requires GettersUpTo(getters, ports, |getters|).Ok? && t in GettersUpTo(getters, ports, |getters|).value.1
    ensures |GetterTargets(getters, ports)| == |getters|
    ensures CarriesLabel(getters, GetterTargets(getters, ports), t,
                         LabelledFor(GettersUpTo(getters, ports, |getters|).value.1[t], data, shape))
  {
    var targets := GetterTargets(getters, ports);
    GettersInOrder(getters, ports, |getters|);
    assert targets[..|getters|] == targets;
    var j := LastNamer(targets, t, |getters|);
  }

  /** And each array of the response holds the averages of its getter's responses along it, under
      its getter's label. */
  lemma ArraysOfReference(getters: seq<InstrumentPort>, ports: seq<ConnectedPort>, plan: Plan, points: NumberOfPoints,
                          trace: seq<Assignment>, response: Response, order: seq<Target>, ranges: seq<LabelledArray>)
    requires GettersUpTo(getters, ports, |getters|).Ok?
    requires Labels(getters, ports, plan, EmitAll(response, trace, GetterTargets(getters, ports)), points, order,
                    ranges)
    ensures |GetterTargets(getters, ports)| == |getters|
    ensures |ranges| == |order| && ListsOnce(order, set t | t in GetterTargets(getters, ports))
    ensures forall i | 0 <= i < |ranges| ::
              && ranges[i].data == AveragedOrRaw(Emit(response, trace, order[i]), PointsOf(points, order[i]))
              && CarriesLabel(getters, GetterTargets(getters, ports), order[i], ranges[i])
  {
    assert EmitAll(response, trace, GetterTargets(getters, ports)).Keys == set t | t in GetterTargets(getters, ports);
    GettersInOrder(getters, ports, |getters|);
    forall i | 0 <= i < |ranges|
      ensures CarriesLabel(getters, GetterTargets(getters, ports), order[i], ranges[i])
    {
      LabelOf(getters, ports, order[i], ranges[i].data, ranges[i].shape);
    }
  }

  /** What is read in leaf `k` for getter `j`: the samples that its own calls report, each converted
      into the unit of the request's port. */
  ghost predicate ReadInPortUnit(registry: MeasurementRegistry, ports: seq<ConnectedPort>, port: InstrumentPort,
                                 v: Visit, t: Target, data: seq<real>)
  {
    && EndpointOf(port, ports, t) && registry.AnswerTo(v).Ok?
    && exists items: seq<Item> ::
         && InWantedUnits(registry.units, Readings(v.registered, items), data)
         && forall item | item in items ::
              && item.unit == port.unit
              && exists call | call in registry.AnswerTo(v).value ::
                   call.instrument == t.instrument && call.group == t.group && call.channel == t.channel
                   && item.ret in call.values
  }

  lemma LeafReads(registry: MeasurementRegistry, getters: seq<InstrumentPort>, ports: seq<ConnectedPort>,
                  input: PrimitiveInput, points: NumberOfPoints, v: Visit, out: Output, j: nat)
    requires ReadsPorts(getters, ports, input) && registry.Explained(input, points, out, v)
    requires j < |getters| && LastToName(input.getters, j, |getters|)
    ensures input.getters[j] in out
    ensures ReadInPortUnit(registry, ports, getters[j], v, input.getters[j], out[input.getters[j]])
  {
    var g, calls := input.getters[j], registry.AnswerTo(v).value;
    assert g in input.getters;
    OutputReads(registry.units, v.registered, registry.ResultOf(v), input, v.counts, points, g);
    var items := Items(registry.units, calls, SpecFor(input, v.counts, points, g));
    assert ReadAs(registry.units, v.registered, calls, input, g, items, out[g]);
    forall item | item in items
      ensures exists call | call in calls ::
                call.instrument == g.instrument && call.group == g.group && call.channel == g.channel
                && item.ret in call.values
    {
      assert Belongs(registry.units, calls, input, g, item.ret);
    }
  }

  /** In an executed plan every leaf reads every getter in the unit of its port. */
  lemma PlanReads(registry: MeasurementRegistry, getters: seq<InstrumentPort>, axes: Waveform,
                  ports: seq<ConnectedPort>, dims: seq<int>, plan: Plan, points: NumberOfPoints, visits: seq<Visit>,
                  outs: seq<Output>, run: Result<Output, RunError>, k: nat, j: nat)
    requires BuildPlanSpec(getters, axes, ports, map[], dims) == Ok(plan)
    requires RanOn(registry, InputsOf(plan), points, visits, outs, run) && k < |outs|
    ensures |outs| <= |InputsOf(plan)| && |outs| <= |visits| && ReadsPorts(getters, ports, InputsOf(plan)[k])
    ensures j < |getters| && LastToName(InputsOf(plan)[k].getters, j, |getters|) ==>
              && InputsOf(plan)[k].getters[j] in outs[k]
              && ReadInPortUnit(registry, ports, getters[j], visits[k], InputsOf(plan)[k].getters[j],
                                outs[k][InputsOf(plan)[k].getters[j]])
  {
    PlanReadsPorts(getters, axes, ports, map[], dims);
    assert Explains(registry, points)(InputsOf(plan)[k], visits[k], outs[k]);
    if j < |getters| && LastToName(InputsOf(plan)[k].getters, j, |getters|) {
      LeafReads(registry, getters, ports, InputsOf(plan)[k], points, visits[k], outs[k], j);
    }
  }

  // ------------------------------------------------------ with a faithful server

  /** There are as many samples per position as were announced, and never more in all than an array
      can hold. */
  ghost predicate Announced(response: Response, shape: seq<nat>, targets: seq<Target>, points: NumberOfPoints) {
    forall g | g in targets ::
      && PointsOf(points, g) >= 0 && (forall a :: |response(a, g)| == SamplesPerPosition(PointsOf(points, g)))
      && Product(shape) * SamplesPerPosition(PointsOf(points, g)) <= MAX_INT
  }

  /** `response` is what the device measures, for every getter in the unit of the request's port. */
  ghost predicate InPortUnits(units: Units, device: Device, getters: seq<InstrumentPort>, targets: seq<Target>,
                              response: Response)
    requires |targets| == |getters|
  {
    forall i | 0 <= i < |getters| :: Reports(units, device, response, targets[i], getters[i].unit)
  }

  lemma PartFits(shape: seq<nat>, m: nat, n: nat)
    requires m <= |shape| && Product(shape) * n <= MAX_INT && forall a | 0 <= a < |shape| :: shape[a] > 0
    ensures Product(shape[m..]) * n <= MAX_INT
  {
    ProductPositive(shape[..m]);
    assert shape == shape[..m] + shape[m..];
    ProductAppend(shape[..m], shape[m..]);
    FactorFits(Product(shape), Product(shape[..m]), Product(shape[m..]), n);
  }

  lemma FactorFits(product: nat, a: nat, b: nat, n: nat)
    requires product == a * b && a > 0 && product * n <= MAX_INT
    ensures b * n <= MAX_INT
  {
    Regroup(a, b, n);
    AtLeastOnceOf(a, b * n);
  }

  lemma AtLeastOnceOf(a: nat, b: int)
    requires a > 0
    ensures b >= 0 ==> a * b >= b
  {
  }

  /** What a leaf of a plan is answered is expected. */
  lemma LeafExpected(getters: seq<InstrumentPort>, axes: Waveform, ports: seq<ConnectedPort>, pre: seq<nat>,
                     points: NumberOfPoints, response: Response)
    requires Plannable(getters, axes, ports) && NoEmptyAxis(axes) && |pre| <= |axes|
    requires Announced(response, ShapeOf(axes), GetterTargets(getters, ports), points)
    ensures Expected(response, LeafInput(getters, axes, ports, pre), points)
  {
    var input, shape := LeafInput(getters, axes, ports, pre), SweptShape(axes, pre);
    LeafCountsAre(getters, axes, ports, pre);
    forall g | g in input.getters
      ensures Sized(CountsOf(input) + [SamplesPerPosition(PointsOf(points, g))])
    {
      var n := SamplesPerPosition(PointsOf(points, g));
      assert g in GetterTargets(getters, ports);
      PartFits(ShapeOf(axes), |pre|, n);
      ProductSnoc(shape, n);
    }
  }

  /** What is answered to the leaves of a plan is expected, and the leaves are alike. */
  lemma PlanExpected(getters: seq<InstrumentPort>, axes: Waveform, ports: seq<ConnectedPort>, dims: seq<int>, d: nat,
                     plan: Plan, inputs: seq<PrimitiveInput>, points: NumberOfPoints, response: Response)
    requires Plannable(getters, axes, ports) && NoEmptyAxis(axes)
    requires d in dims && d <= |axes| && (forall e | e in dims :: !(d < e <= |axes|))
    requires Announced(response, ShapeOf(axes), GetterTargets(getters, ports), points)
    requires BuildPlanSpec(getters, axes, ports, map[], dims) == Ok(plan) && inputs == InputsOf(plan)
    ensures Alike(inputs, |GetterTargets(getters, ports)|, d)
    ensures forall i | 0 <= i < |inputs| ::
              Expected(response, inputs[i], points) && inputs[i].getters == GetterTargets(getters, ports)
  {
    var walk := WalkOfPlan(getters, axes, ports, dims, d, plan);
    WalkExpected(getters, axes, ports, walk, d, points, response, inputs);
  }

  lemma WalkOfPlan(getters: seq<InstrumentPort>, axes: Waveform, ports: seq<ConnectedPort>, dims: seq<int>, d: nat,
                   plan: Plan)
    returns (walk: seq<seq<nat>>)
    requires Plannable(getters, axes, ports) && BuildPlanSpec(getters, axes, ports, map[], dims) == Ok(plan)
    requires d in dims && d <= |axes| && (forall e | e in dims :: !(d < e <= |axes|))
    ensures InputsOf(plan) == InputsAt(getters, axes, ports, walk)
    ensures forall i | 0 <= i < |walk| :: |walk[i]| == |axes| - d
  {
    var m := |axes| - d;
    walk := Walk(ShapeOf(axes), [], m);
    InputsOfPlan(getters, axes, ports, dims, m);
  }

  lemma WalkExpected(getters: seq<InstrumentPort>, axes: Waveform, ports: seq<ConnectedPort>, walk: seq<seq<nat>>,
                     d: nat, points: NumberOfPoints, response: Response, inputs: seq<PrimitiveInput>)
    requires Plannable(getters, axes, ports) && NoEmptyAxis(axes) && d <= |axes|
    requires inputs == InputsAt(getters, axes, ports, walk) && forall i | 0 <= i < |walk| :: |walk[i]| == |axes| - d
    requires Announced(response, ShapeOf(axes), GetterTargets(getters, ports), points)
    ensures forall i | 0 <= i < |inputs| ::
              && Expected(response, inputs[i], points)
              && inputs[i].getters == GetterTargets(getters, ports) && inputs[i].choice == d
  {
    forall i | 0 <= i < |inputs|
      ensures Expected(response, inputs[i], points)
    {
      LeafExpected(getters, axes, ports, walk[i], points, response);
    }
  }

  /** Each leaf sees the device in the units of the ports. */
  lemma LeafSees(getters: seq<InstrumentPort>, ports: seq<ConnectedPort>, units: Units, device: Device,
                 response: Response, input: PrimitiveInput)
    requires ReadsPorts(getters, ports, input) && Distinct(input.getters)
    requires InPortUnits(units, device, getters, input.getters, response)
    ensures SeenBy(units, device, response, input)
  {
    forall g | g in input.getters
      ensures g in input.getterUnits && Reports(units, device, response, g, input.getterUnits[g])
    {
      var i :| 0 <= i < |input.getters| && input.getters[i] == g;
      assert LastToName(input.getters, i, |getters|);
      assert Reports(units, device, response, input.getters[i], getters[i].unit);
    }
  }

  lemma PlanSees(registry: MeasurementRegistry, getters: seq<InstrumentPort>, axes: Waveform,
                 ports: seq<ConnectedPort>, dims: seq<int>, d: nat, plan: Plan, targets: seq<Target>, device: Device,
                 reader: Reader, response: Response)
    requires BuildPlanSpec(getters, axes, ports, map[], dims) == Ok(plan)
    requires Distinct(targets) && |targets| == |getters|
    requires InPortUnits(registry.units, device, getters, targets, response)
    requires d in registry.measurements && Matched(registry.measurements[d])
    requires forall i | 0 <= i < |InputsOf(plan)| ::
               InputsOf(plan)[i].choice == d && InputsOf(plan)[i].getters == targets
    requires Reads(reader, registry.codec) && StandsStill(device.step)
    ensures Seen(registry, InputsOf(plan), device, reader, response)
  {
    var inputs := InputsOf(plan);
    PlanReadsPorts(getters, axes, ports, map[], dims);
    forall i | 0 <= i < |inputs|
      ensures SeenBy(registry.units, device, response, inputs[i])
    {
      assert ReadsPorts(getters, ports, inputs[i]);
      LeafSees(getters, ports, registry.units, device, response, inputs[i]);
    }
  }

  /** The largest dimensionality in reach is `d`, and the program's own script for it can take all
      leaves of the request. */
  ghost predicate Takes(registry: MeasurementRegistry, getters: seq<InstrumentPort>, axes: Waveform,
                        ports: seq<ConnectedPort>, dims: seq<int>, d: nat)
  {
    && EncodableRequest(getters, axes, ports, registry.codec) && Offers(dims)
    && d in dims && d <= |axes| && (forall e | e in dims :: !(d < e <= |axes|)) && (d < 2 || |axes| == 2)
    && d in registry.measurements && registry.measurements[d] == PRIMITIVE_MEASUREMENTS[d]
  }

  lemma TakesMeans(registry: MeasurementRegistry, getters: seq<InstrumentPort>, axes: Waveform,
                   ports: seq<ConnectedPort>, dims: seq<int>, d: nat)
    requires Takes(registry, getters, axes, ports, dims, d)
    ensures Plannable(getters, axes, ports) && NoEmptyAxis(axes) && Distinct(GetterTargets(getters, ports))
    ensures registry.measurements[d].encoder == Some(EncoderFor(d)) && Matched(registry.measurements[d])
  {
    OwnScripts(d);
  }

  /** All leaves of a request that can be encoded get as far as their scripts. */
  lemma LeavesServed(registry: MeasurementRegistry, getters: seq<InstrumentPort>, axes: Waveform,
                     ports: seq<ConnectedPort>, dims: seq<int>, d: nat, plan: Plan, points: NumberOfPoints,
                     response: Response)
    requires Takes(registry, getters, axes, ports, dims, d)
    requires Announced(response, ShapeOf(axes), GetterTargets(getters, ports), points)
    requires BuildPlanSpec(getters, axes, ports, map[], dims) == Ok(plan)
    ensures AllServed(registry, InputsOf(plan), points, response)
    ensures Alike(InputsOf(plan), |GetterTargets(getters, ports)|, d)
    ensures forall i | 0 <= i < |InputsOf(plan)| :: InputsOf(plan)[i].getters == GetterTargets(getters, ports)
  {
    LeavesDispatchable(registry, getters, axes, ports, dims, d, points);
    TakesMeans(registry, getters, axes, ports, dims, d);
    PlanExpected(getters, axes, ports, dims, d, plan, InputsOf(plan), points, response);
  }

  /** A request that can be encoded, on a faithful server, with ports that step through their
      axes' points: its execution succeeds and returns the device's responses along the row-major
      walk over the whole sweep, in the units of the getters' ports. */
  lemma FaithfulExecution(registry: MeasurementRegistry, getters: seq<InstrumentPort>, axes: Waveform,
                          ports: seq<ConnectedPort>, dims: seq<int>, d: nat, plan: Plan, points: NumberOfPoints,
                          device: Device, reader: Reader, response: Response, visits: seq<Visit>, outs: seq<Output>,
                          run: Result<Output, RunError>)
    requires Takes(registry, getters, axes, ports, dims, d)
    requires Agreement(axes, Root(axes, ports), device.step) && StandsStill(device.step)
    requires Reads(reader, registry.codec)
    requires |GetterTargets(getters, ports)| == |getters|
    requires InPortUnits(registry.units, device, getters, GetterTargets(getters, ports), response)
    requires Announced(response, ShapeOf(axes), GetterTargets(getters, ports), points)
    requires BuildPlanSpec(getters, axes, ports, map[], dims) == Ok(plan)
    requires Faithful(registry, InputsOf(plan), points, device, reader)
    requires RanOn(registry, InputsOf(plan), points, visits, outs, run)
    ensures run == Ok(EmitAll(response, ReferenceTrace(axes, Root(axes, ports)), GetterTargets(getters, ports)))
  {
    TakesMeans(registry, getters, axes, ports, dims, d);
    LeavesServed(registry, getters, axes, ports, dims, d, plan, points, response);
    PlanSees(registry, getters, axes, ports, dims, d, plan, GetterTargets(getters, ports), device, reader, response);
    FaithfulRun(registry, InputsOf(plan), points, device, reader, response, visits, outs, run);
    RowMajorRun(getters, axes, ports, dims, plan, run.value, response, device.step);
  }

  lemma NothingToFail(getters: seq<InstrumentPort>, axes: Waveform, ports: seq<ConnectedPort>, dims: seq<int>,
                      plan: Plan, points: NumberOfPoints, recording: Option<string>, t: Trace, merged: Output,
                      r: Result<seq<LabelledArray>, HandleError>)
    requires BuildPlanSpec(getters, axes, ports, map[], dims) == Ok(plan) && t.run == Ok(merged)
    requires !CannotLabel(getters, ports, plan, merged, points) && OutputAverageable(merged, points)
    requires Responds(getters, axes, ports, dims, points, recording, t, r)
    ensures if recording.Some? then r == Err(Recording(recording.value))
            else r.Ok? && Labels(getters, ports, plan, merged, points, t.order, r.value)
  {
  }

  /** When a well-posed request has been executed, its arrays are labelled, unless the recorder
      fails. */
  lemma PosedResponds(getters: seq<InstrumentPort>, axes: Waveform, ports: seq<ConnectedPort>, dims: seq<int>,
                      plan: Plan, points: NumberOfPoints, recording: Option<string>, t: Trace,
                      r: Result<seq<LabelledArray>, HandleError>)
    requires WellPosed(getters, axes, ports) && BuildPlanSpec(getters, axes, ports, map[], dims) == Ok(plan)
    requires RanOn(t.registry, InputsOf(plan), points, t.visits, t.outs, t.run) && t.run.Ok?
    requires Responds(getters, axes, ports, dims, points, recording, t, r)
    ensures if recording.Some? then r == Err(Recording(recording.value))
            else r.Ok? && Labels(getters, ports, plan, t.run.value, points, t.order, r.value)
  {
    RanSized(t.registry, InputsOf(plan), points, t.visits, t.outs, t.run);
    PosedCannotFail(getters, axes, ports, dims, plan, points, t.outs);
    NothingToFail(getters, axes, ports, dims, plan, points, recording, t, MergeAll(t.outs), r);
  }

  /** And its response has for each getter the averages of those responses under the getter's label,
      with no way to fail but in the recorder. */
  lemma FaithfulResponse(getters: seq<InstrumentPort>, axes: Waveform, ports: seq<ConnectedPort>, dims: seq<int>,
                         plan: Plan, points: NumberOfPoints, response: Response, recording: Option<string>, t: Trace,
                         r: Result<seq<LabelledArray>, HandleError>)
    requires WellPosed(getters, axes, ports) && BuildPlanSpec(getters, axes, ports, map[], dims) == Ok(plan)
    requires RanOn(t.registry, InputsOf(plan), points, t.visits, t.outs, t.run)
    requires t.run == Ok(EmitAll(response, ReferenceTrace(axes, Root(axes, ports)), GetterTargets(getters, ports)))
    requires Responds(getters, axes, ports, dims, points, recording, t, r)
    ensures |GetterTargets(getters, ports)| == |getters|
    ensures if recording.Some? then r == Err(Recording(recording.value))
            else
              && r.Ok? && |r.value| == |t.order| && ListsOnce(t.order, set g | g in GetterTargets(getters, ports))
              && forall i | 0 <= i < |r.value| ::
                   && r.value[i].data == AveragedOrRaw(Emit(response, ReferenceTrace(axes, Root(axes, ports)),
                                                            t.order[i]), PointsOf(points, t.order[i]))
                   && CarriesLabel(getters, GetterTargets(getters, ports), t.order[i], r.value[i])
  {
    GettersCount(getters, ports, |getters|);
    PosedResponds(getters, axes, ports, dims, plan, points, recording, t, r);
    if recording.None? {
      ArraysOfReference(getters, ports, plan, points, ReferenceTrace(axes, Root(axes, ports)), response, t.order,
                        r.value);
    }
  }

  /** And there is a faithful server for each such request and each device that measures as
      announced, however that depends on the voltages: the one that looks at the arguments alone. */
  lemma RequestCanBeServed(registry: MeasurementRegistry, getters: seq<InstrumentPort>, axes: Waveform,
                           ports: seq<ConnectedPort>, dims: seq<int>, d: nat, plan: Plan, points: NumberOfPoints,
                           device: Device, reader: Reader)
    requires Takes(registry, getters, axes, ports, dims, d)
    requires Announced(device.measured, ShapeOf(axes), GetterTargets(getters, ports), points)
    requires Reads(reader, registry.codec) && StandsStill(device.step)
    requires BuildPlanSpec(getters, axes, ports, map[], dims) == Ok(plan)
    requires registry.dispatcher.execute == ServerOf(EncoderFor(d), registry.codec, InputsOf(plan), device.symbol)
    requires Stocked(registry.dispatcher.manager.services, InputsOf(plan), device)
    ensures Faithful(registry, InputsOf(plan), points, device, reader)
  {
    TakesMeans(registry, getters, axes, ports, dims, d);
    PlanExpected(getters, axes, ports, dims, d, plan, InputsOf(plan), points, device.measured);
    BuiltIsFaithful(registry, InputsOf(plan), points, device, reader, EncoderFor(d),
                    |GetterTargets(getters, ports)|, d);
  }
}
