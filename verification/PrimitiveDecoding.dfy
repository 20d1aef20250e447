/**
 From the result of one primitive measurement to the samples of its getters.
 */
module PrimitiveDecoding {
  import opened Wrappers
  import opened RowMajor
  import opened Planner
  import opened PlanExecution
  import opened PrimitiveCode
  import opened Averaging
  import opened Shapes
  import opened Buffers
  import opened WireCodec
  import opened Decoder

  /** Samples per position: one, unless a number was read from the device. */
  function SamplesPerPosition(n: int): int {
    if n == 0 then 1 else n
  }

  function SpecFor(input: PrimitiveInput, counts: seq<int>, points: NumberOfPoints, g: Target): TargetSpec
    requires g in input.getterUnits
  {
    TargetSpec(g, input.getterUnits[g], counts + [SamplesPerPosition(PointsOf(points, g))], input.choice != 0)
  }

  predicate UnitsKnown(input: PrimitiveInput) {
    forall g | g in input.getters :: g in input.getterUnits
  }

  predicate PointsValid(input: PrimitiveInput, points: NumberOfPoints) {
    forall g | g in input.getters :: PointsOf(points, g) >= 0
  }

  function SpecsFor(input: PrimitiveInput, counts: seq<int>, points: NumberOfPoints): (specs: seq<TargetSpec>)
    requires UnitsKnown(input)
    ensures |specs| == |input.getters|
  {
    seq(|input.getters|, i requires 0 <= i < |input.getters| => SpecFor(input, counts, points, input.getters[i]))
  }

  /** The measurement can be decoded, with these step counts. */
  ghost predicate PrimitiveDecodes(units: Units, store: Store, result: MeasurementResult, input: PrimitiveInput,
                                   counts: seq<int>, points: NumberOfPoints) {
    && Counted(input, counts) && input.getters != [] && UnitsKnown(input) && PointsValid(input, points)
    && result.calls.Ok?
    && var jobs := Jobs(units, result.calls.value, SpecsFor(input, counts, points));
       Decodable(units, store, result.id, JobItems(jobs)) && AllComplete(units, store, jobs)
  }

  function SamplesFor(units: Units, store: Store, calls: seq<Call>, spec: TargetSpec): seq<real> {
    Denoted(units, store, Items(units, calls, spec))
  }

  /** The samples of every getter, read off the returns of its own calls. */
  function OutputOf(units: Units, store: Store, calls: seq<Call>, input: PrimitiveInput, counts: seq<int>,
                    points: NumberOfPoints): Output
    requires UnitsKnown(input)
  {
    map g | g in input.getters :: SamplesFor(units, store, calls, SpecFor(input, counts, points, g))
  }

  /** The return belongs to the getter: it comes from a call on the getter's endpoint, with a unit
      that converts to the getter's own, and in a buffer unless this is a point measurement. */
  ghost predicate Belongs(units: Units, calls: seq<Call>, input: PrimitiveInput, g: Target, ret: Return)
    requires g in input.getterUnits
  {
    && (exists call | call in calls ::
          call.instrument == g.instrument && call.group == g.group && call.channel == g.channel && ret in call.values)
    && ret.unit != "" && units.convertible(ret.unit, input.getterUnits[g])
    && (input.choice != 0 ==> ret.value.DataBuffer? || ret.value.DataBufferArray?)
  }

  /** The output of a getter: what the returns that belong to it report, each sample converted into
      the getter's unit. */
  ghost predicate ReadAs(units: Units, store: Store, calls: seq<Call>, input: PrimitiveInput, g: Target,
                         items: seq<Item>, data: seq<real>)
    requires g in input.getterUnits
  {
    && InWantedUnits(units, Readings(store, items), data)
    && (forall item | item in items :: item.unit == input.getterUnits[g])
    && (forall ret | Belongs(units, calls, input, g, ret) :: exists item | item in items :: item.ret == ret)
    && forall item | item in items :: Belongs(units, calls, input, g, item.ret)
  }

  lemma OutputReads(units: Units, store: Store, result: MeasurementResult, input: PrimitiveInput, counts: seq<int>,
                    points: NumberOfPoints, g: Target)
    requires PrimitiveDecodes(units, store, result, input, counts, points) && g in input.getters
    ensures ReadAs(units, store, result.calls.value, input, g,
                   Items(units, result.calls.value, SpecFor(input, counts, points, g)),
                   OutputOf(units, store, result.calls.value, input, counts, points)[g])
  {
    var calls, spec := result.calls.value, SpecFor(input, counts, points, g);
    var specs := SpecsFor(input, counts, points);
    var k :| 0 <= k < |input.getters| && input.getters[k] == g;
    JobAt(units, store, calls, specs, k);
    JobDecodable(units, store, result.id, Jobs(units, calls, specs), k);
    DenotedIsConverted(units, store, result.id, Items(units, calls, spec));
    forall item
      ensures item in Items(units, calls, spec) <==>
              item.unit == input.getterUnits[g] && Belongs(units, calls, input, g, item.ret)
    {
      ItemsAre(units, calls, spec, item);
    }
    forall ret | Belongs(units, calls, input, g, ret)
      ensures exists item | item in Items(units, calls, spec) :: item.ret == ret
    {
      assert Item(ret, input.getterUnits[g]) in Items(units, calls, spec);
    }
  }

  datatype PrimitiveError = NegativePoints | BadCounts | NoGetters | MissingUnit | Decoding(error: DecodeError)

  method BuildSpecs(input: PrimitiveInput, counts: seq<int>, points: NumberOfPoints)
    returns (r: Result<seq<TargetSpec>, PrimitiveError>)
    ensures r.Ok? <==> UnitsKnown(input)
    ensures r.Ok? ==> r.value == SpecsFor(input, counts, points)
  {
    var specs: seq<TargetSpec> := [];
    for i := 0 to |input.getters|
      invariant |specs| == i
      invariant forall j | 0 <= j < i :: input.getters[j] in input.getterUnits
                                         && specs[j] == SpecFor(input, counts, points, input.getters[j])
    {
      var getter := input.getters[i];
      if getter !in input.getterUnits {
        return Err(MissingUnit);
      }
      var n := PointsOf(points, getter);
      if n == 0 {
        n := 1;
      }
      specs := specs + [TargetSpec(getter, input.getterUnits[getter], counts + [n], input.choice != 0)];
    }
    r := Ok(specs);
  }

  /** Filing each series under its target; a later series replaces an earlier one. */
  ghost predicate Filed(series: seq<Series>, out: Output) {
    && (forall t :: t in out ==> exists i :: 0 <= i < |series| && series[i].target == t && series[i].data == out[t])
    && forall i | 0 <= i < |series| :: series[i].target in out
  }

  method FileSeries(series: seq<Series>) returns (out: Output)
    ensures Filed(series, out)
  {
    out := map[];
    for k := 0 to |series|
      invariant Filed(series[..k], out)
    {
      ghost var before := out;
      out := out[series[k].target := series[k].data];
      FiledNext(series[..k], before, series[k], out);
      assert series[..k] + [series[k]] == series[..k + 1];
    }
    assert series[..|series|] == series;
  }

  lemma FiledNext(init: seq<Series>, before: Output, s: Series, after: Output)
    requires Filed(init, before) && after == before[s.target := s.data]
    ensures Filed(init + [s], after)
  {
    var all := init + [s];
    forall t | t in after
      ensures exists i :: 0 <= i < |all| && all[i].target == t && all[i].data == after[t]
    {
      if t == s.target {
        assert all[|init|] == s;
      } else {
        var i :| 0 <= i < |init| && init[i].target == t && init[i].data == before[t];
        assert all[i] == init[i];
      }
    }
  }

  /** When the samples depend on the specification alone, the series of all getters are filed
      into just one output, even if a getter is named twice. */
  lemma FiledOutput(input: PrimitiveInput, counts: seq<int>, points: NumberOfPoints, series: seq<Series>, out: Output,
                    data: TargetSpec -> seq<real>)
    requires UnitsKnown(input) && |series| == |input.getters| && Filed(series, out)
    requires forall i | 0 <= i < |series| :: series[i].target == input.getters[i]
                                             && series[i].data == data(SpecFor(input, counts, points, input.getters[i]))
    ensures out == map g | g in input.getters :: data(SpecFor(input, counts, points, g))
  {
    forall t | t in input.getters
      ensures t in out
    {
      var i :| 0 <= i < |input.getters| && input.getters[i] == t;
      assert series[i].target == t;
    }
  }

  lemma SeriesMakeOutput(units: Units, store: Store, calls: seq<Call>, input: PrimitiveInput, counts: seq<int>,
                         points: NumberOfPoints, series: seq<Series>, out: Output)
    requires UnitsKnown(input) && |series| == |input.getters|
    requires series == AllSeries(units, store, Jobs(units, calls, SpecsFor(input, counts, points)))
    requires Filed(series, out)
    ensures out == OutputOf(units, store, calls, input, counts, points)
  {
    var data := spec => SamplesFor(units, store, calls, spec);
    forall i | 0 <= i < |series|
      ensures series[i].target == input.getters[i]
              && series[i].data == data(SpecFor(input, counts, points, input.getters[i]))
    {
      JobAt(units, store, calls, SpecsFor(input, counts, points), i);
    }
    FiledOutput(input, counts, points, series, out, data);
  }

  /** Decoding one primitive measurement. It succeeds exactly when its step counts exist, its
      getters have units and valid numbers of points, and their returns can be decoded to
      exactly the expected numbers of samples; and whatever happens, only the measurement's
      own buffers are taken. */
  method DecodePrimitive(units: Units, manager: DataBufferManager, result: MeasurementResult, input: PrimitiveInput,
                         points: NumberOfPoints)
    returns (r: Result<Output, PrimitiveError>)
    requires manager.Valid()
    requires BoundedInput(input)
    modifies manager`buffers, manager.services`refs
    ensures manager.Valid()
    ensures r.Ok? ==> exists c :: PrimitiveDecodes(units, old(manager.buffers), result, input, c, points)
    ensures forall counts | PrimitiveDecodes(units, old(manager.buffers), result, input, counts, points) ::
              && r == Ok(OutputOf(units, old(manager.buffers), result.calls.value, input, counts, points))
              && manager.buffers == old(manager.buffers) - Consumes(units, result, input, counts, points)
    ensures OnlyTakenFrom(result.id, old(manager.buffers), manager.buffers)
  {
    for i := 0 to |input.getters|
      invariant forall j | 0 <= j < i :: PointsOf(points, input.getters[j]) >= 0
    {
      if PointsOf(points, input.getters[i]) < 0 {
        return Err(NegativePoints);
      }
    }
    var counted := AxisCounts(input);
    if counted.Err? {
      return Err(BadCounts);
    }
    var c := counted.value;
    forall counts | Counted(input, counts)
      ensures counts == c
    {
      CountsUnique(input, counts, c);
    }
    if |input.getters| == 0 {
      return Err(PrimitiveError.NoGetters);
    }
    var specs := BuildSpecs(input, c, points);
    if specs.Err? {
      return Err(specs.error);
    }
    r := DecodeSpecs(units, manager, result, input, points, c, specs.value);
  }

  /** The ids of the buffers that decoding consumes. */
  ghost function Consumes(units: Units, result: MeasurementResult, input: PrimitiveInput, counts: seq<int>,
                          points: NumberOfPoints): set<string>
    requires result.calls.Ok? && UnitsKnown(input)
  {
    IdSet(ItemIds(JobItems(Jobs(units, result.calls.value, SpecsFor(input, counts, points)))))
  }

  method DecodeSpecs(units: Units, manager: DataBufferManager, result: MeasurementResult, input: PrimitiveInput,
                     points: NumberOfPoints, counts: seq<int>, specs: seq<TargetSpec>)
    returns (r: Result<Output, PrimitiveError>)
    requires manager.Valid()
    requires Counted(input, counts) && input.getters != [] && UnitsKnown(input) && PointsValid(input, points)
    requires specs == SpecsFor(input, counts, points)
    modifies manager`buffers, manager.services`refs
    ensures manager.Valid()
    ensures r.Ok? <==> PrimitiveDecodes(units, old(manager.buffers), result, input, counts, points)
    ensures r.Ok? ==> && r.value == OutputOf(units, old(manager.buffers), result.calls.value, input, counts, points)
                      && manager.buffers == old(manager.buffers) - Consumes(units, result, input, counts, points)
    ensures OnlyTakenFrom(result.id, old(manager.buffers), manager.buffers)
  {
    ghost var store := manager.buffers;
    var series := DecodeTargets(units, manager, result, specs);
    if result.calls.Ok? {
      DecodingExact(units, store, result.id, Jobs(units, result.calls.value, specs));
      DecodingTakesOwn(units, store, result.id, Jobs(units, result.calls.value, specs));
      JobAt(units, store, result.calls.value, specs, 0);
    }
    if series.Err? {
      return Err(Decoding(series.error));
    }
    var out := FileSeries(series.value);
    SeriesMakeOutput(units, store, result.calls.value, input, counts, points, series.value, out);
    r := Ok(out);
  }
}
