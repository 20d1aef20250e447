/**
 Samples are conserved from the leaves of a plan to the arrays of the response: merging and
 averaging leave exactly one number per position of the sweep.
 */
module EndToEnd {
  import opened Wrappers
  import opened Division
  import opened Ports
  import opened RowMajor
  import opened Planner
  import opened PlanStructure
  import opened PlanExecution
  import opened PrimitiveCode
  import opened PlanMeaning
  import opened Averaging
  import opened Shapes
  import opened Buffers
  import opened WireCodec
  import opened Decoder
  import opened PrimitiveDecoding

  // ------------------------------------------------------------ what a leaf gives

  /** Every getter has its number of samples for each position of the counted box. */
  ghost predicate SizedBy(input: PrimitiveInput, counts: seq<int>, points: NumberOfPoints, out: Output) {
    && Positive(counts)
    && (forall g :: g in out <==> g in input.getters)
    && forall g :: g in out ==>
         PointsOf(points, g) >= 0 && |out[g]| == Product(counts) * SamplesPerPosition(PointsOf(points, g))
  }

  lemma CountsPositive(input: PrimitiveInput, counts: seq<int>)
    requires Counted(input, counts)
    ensures Positive(counts)
  {
    forall a | 0 <= a < |counts|
      ensures counts[a] > 0
    {
      assert SweptOn(input.setters, a);
      var t :| t in input.setters && IsSweep(input.setters[t]) && input.setters[t].axis == a;
      assert CountedAt(input.setters[t], counts);
    }
  }

  /** What decodes has these sizes. */
  lemma DecodedSizes(units: Units, store: Store, result: MeasurementResult, input: PrimitiveInput, counts: seq<int>,
                     points: NumberOfPoints)
    requires PrimitiveDecodes(units, store, result, input, counts, points)
    ensures SizedBy(input, counts, points, OutputOf(units, store, result.calls.value, input, counts, points))
  {
    CountsPositive(input, counts);
    var calls, specs := result.calls.value, SpecsFor(input, counts, points);
    forall g | g in input.getters
      ensures |SamplesFor(units, store, calls, SpecFor(input, counts, points, g))|
           == Product(counts) * SamplesPerPosition(PointsOf(points, g))
    {
      var i :| 0 <= i < |input.getters| && input.getters[i] == g;
      JobAt(units, store, calls, specs, i);
      ProductSnoc(counts, SamplesPerPosition(PointsOf(points, g)));
    }
  }

  /** An executor whose successful answers have been decoded. */
  ghost predicate DecodingExecutor(b: Behaviour, points: NumberOfPoints) {
    forall hist, input: PrimitiveInput | b(hist, input).Ok? ::
      exists counts :: Counted(input, counts) && SizedBy(input, counts, points, b(hist, input).value)
  }

  // ----------------------------------------------------------------- conservation

  /** The leaves of a plan, by the positions at which they are held. */
  lemma PlanInputs(getters: seq<InstrumentPort>, axes: Waveform, ports: seq<ConnectedPort>, dims: seq<int>)
    returns (m: nat)
    requires Plannable(getters, axes, ports) && BuildPlanSpec(getters, axes, ports, map[], dims).Ok?
    ensures m <= |axes|
    ensures InputsOf(BuildPlanSpec(getters, axes, ports, map[], dims).value)
         == InputsAt(getters, axes, ports, Walk(ShapeOf(axes), [], m))
    ensures |Walk(ShapeOf(axes), [], m)| == Product(ShapeOf(axes)[..m])
    ensures forall i | 0 <= i < |Walk(ShapeOf(axes), [], m)| :: |Walk(ShapeOf(axes), [], m)[i]| == m
  {
    var shape := ShapeOf(axes);
    PlanningSucceeds(getters, axes, ports, dims);
    if !Reachable(dims, |shape|) {
      var a :| 0 <= a < |axes| && axes[a].points == [];
      assert shape[a] == 0;
    }
    m := StopExists(dims, shape, 0);
    InputsOfPlan(getters, axes, ports, dims, m);
  }

  /** Every getter, and nothing else, has samples for `n` positions. */
  ghost predicate Blocks(targets: seq<Target>, points: NumberOfPoints, n: nat, out: Output) {
    && (forall t :: t in out ==> t in targets && PointsOf(points, t) >= 0)
    && forall t | t in targets :: |SamplesOf(out, t)| == n * SamplesPerPosition(PointsOf(points, t))
  }

  /** Every getter, and nothing else, has samples for every position of the whole sweep. */
  ghost predicate Conserved(shape: seq<nat>, targets: seq<Target>, points: NumberOfPoints, out: Output) {
    Blocks(targets, points, Product(shape), out)
  }

  /** A sweep that has positions has samples of every getter. */
  lemma NoGetterMissing(shape: seq<nat>, targets: seq<Target>, points: NumberOfPoints, out: Output)
    requires Conserved(shape, targets, points, out) && Product(shape) > 0
    ensures out.Keys == set t | t in targets
  {
    forall t | t in targets
      ensures t in out
    {
      NotZero(Product(shape), SamplesPerPosition(PointsOf(points, t)));
      assert |SamplesOf(out, t)| != 0;
    }
  }

  lemma NotZero(a: nat, n: int)
    requires a > 0 && n != 0
    ensures a * n != 0
  {
  }

  lemma MergedBlocks(targets: seq<Target>, points: NumberOfPoints, m: nat, n: nat, sum: nat, a: Output, b: Output)
    requires Blocks(targets, points, m, a) && Blocks(targets, points, n, b) && sum == m + n
    ensures Blocks(targets, points, sum, Merge(a, b))
  {
    forall t | t in targets
      ensures |SamplesOf(Merge(a, b), t)| == sum * SamplesPerPosition(PointsOf(points, t))
    {
      MergeSamples(a, b, t);
      SumTimes(m, n, sum, SamplesPerPosition(PointsOf(points, t)));
    }
  }

  lemma NoBlocks(targets: seq<Target>, points: NumberOfPoints)
    ensures Blocks(targets, points, 0, map[])
  {
  }

  lemma {:induction false} MergedAllBlocks(targets: seq<Target>, points: NumberOfPoints, size: nat, outs: seq<Output>,
                                           total: nat)
    requires total == |outs| * size && forall i | 0 <= i < |outs| :: Blocks(targets, points, size, outs[i])
    ensures Blocks(targets, points, total, MergeAll(outs))
  {
    if outs == [] {
      NoBlocks(targets, points);
    } else {
      var init, last := outs[..|outs| - 1], outs[|outs| - 1];
      var before := |init| * size;
      OneMore(|init|, size);
      MergedAllBlocks(targets, points, size, init, before);
      MergedBlocks(targets, points, before, size, total, MergeAll(init), last);
    }
  }

  lemma LeafBlocks(getters: seq<InstrumentPort>, axes: Waveform, ports: seq<ConnectedPort>, pre: seq<nat>,
                   points: NumberOfPoints, out: Output)
    requires Plannable(getters, axes, ports) && |pre| <= |axes|
    requires LeafSized(LeafInput(getters, axes, ports, pre), points, out)
    ensures Blocks(GetterTargets(getters, ports), points, Product(ShapeOf(axes)[|pre|..]), out)
  {
    var counts :| Counted(LeafInput(getters, axes, ports, pre), counts)
                  && SizedBy(LeafInput(getters, axes, ports, pre), counts, points, out);
    LeafCounts(getters, axes, ports, pre, counts);
  }

  /** The outputs of all leaves, in order, each as large as its input asks for. */
  ghost predicate LeavesSized(inputs: seq<PrimitiveInput>, points: NumberOfPoints, outs: seq<Output>) {
    |outs| == |inputs| && forall i | 0 <= i < |outs| :: LeafSized(inputs[i], points, outs[i])
  }

  ghost predicate LeafSized(input: PrimitiveInput, points: NumberOfPoints, out: Output) {
    exists counts :: Counted(input, counts) && SizedBy(input, counts, points, out)
  }

  /** Sample conservation: whatever dimensionalities were on offer, and whether points were
      read or not, merging the outputs of all leaves of a plan gives every getter the product
      of all axis lengths, times its samples per position. */
  lemma RecordedSamplesConserved(getters: seq<InstrumentPort>, axes: Waveform, ports: seq<ConnectedPort>,
                                 dims: seq<int>, points: NumberOfPoints, outs: seq<Output>)
    requires Plannable(getters, axes, ports) && BuildPlanSpec(getters, axes, ports, map[], dims).Ok?
    requires LeavesSized(InputsOf(BuildPlanSpec(getters, axes, ports, map[], dims).value), points, outs)
    ensures Conserved(ShapeOf(axes), GetterTargets(getters, ports), points, MergeAll(outs))
  {
    var plan, shape := BuildPlanSpec(getters, axes, ports, map[], dims).value, ShapeOf(axes);
    var m := PlanInputs(getters, axes, ports, dims);
    var walk, inputs := Walk(shape, [], m), InputsOf(plan);
    assert shape[..m] + shape[m..] == shape;
    ProductAppend(shape[..m], shape[m..]);
    forall i | 0 <= i < |outs|
      ensures Blocks(GetterTargets(getters, ports), points, Product(shape[m..]), outs[i])
    {
      assert LeafSized(inputs[i], points, outs[i]);
      LeafBlocks(getters, axes, ports, walk[i], points, outs[i]);
    }
    MergedAllBlocks(GetterTargets(getters, ports), points, Product(shape[m..]), outs, Product(shape));
  }

  /** So a plan that runs through has these samples, whatever the executor, as long as what it
      answers has been decoded. */
  lemma SamplesConserved(getters: seq<InstrumentPort>, axes: Waveform, ports: seq<ConnectedPort>, dims: seq<int>,
                         b: Behaviour, points: NumberOfPoints, hist: seq<PrimitiveInput>)
    requires Plannable(getters, axes, ports) && BuildPlanSpec(getters, axes, ports, map[], dims).Ok?
    requires DecodingExecutor(b, points)
    requires Execute(BuildPlanSpec(getters, axes, ports, map[], dims).value, b, hist).result.Ok?
    ensures Conserved(ShapeOf(axes), GetterTargets(getters, ports), points,
                      Execute(BuildPlanSpec(getters, axes, ports, map[], dims).value, b, hist).result.value)
  {
    var plan := BuildPlanSpec(getters, axes, ports, map[], dims).value;
    ExecutionMergesAnswers(plan, b, hist);
    ExecutionIsFlat(plan, b, hist);
    AnswersSized(InputsOf(plan), b, points, hist);
    RecordedSamplesConserved(getters, axes, ports, dims, points, AnswersOf(InputsOf(plan), b, hist));
  }

  lemma AnswersSized(inputs: seq<PrimitiveInput>, b: Behaviour, points: NumberOfPoints, hist: seq<PrimitiveInput>)
    requires DecodingExecutor(b, points) && RunList(inputs, b, hist).result.Ok?
    ensures LeavesSized(inputs, points, AnswersOf(inputs, b, hist))
  {
    forall i | 0 <= i < |inputs|
      ensures |AnswersOf(inputs, b, hist)| == |inputs| && LeafSized(inputs[i], points, AnswersOf(inputs, b, hist)[i])
    {
      AnswersAt(inputs, b, hist, i);
      assert b(hist + inputs[..i], inputs[i]).Ok?;
    }
  }

  lemma LeafAnswers(getters: seq<InstrumentPort>, axes: Waveform, ports: seq<ConnectedPort>, walk: seq<seq<nat>>,
                    m: nat, b: Behaviour, points: NumberOfPoints, hist: seq<PrimitiveInput>, j: nat)
    requires Plannable(getters, axes, ports) && m <= |axes| && DecodingExecutor(b, points)
    requires j < |walk| && |walk[j]| == m
    requires Answer(InputsAt(getters, axes, ports, walk), b, hist, j).Ok?
    ensures Conserved(ShapeOf(axes)[m..], GetterTargets(getters, ports), points,
                      Answer(InputsAt(getters, axes, ports, walk), b, hist, j).value)
  {
    LeafBlocks(getters, axes, ports, walk[j], points, Answer(InputsAt(getters, axes, ports, walk), b, hist, j).value);
  }

  // ---------------------------------------------------------- averaging and ranges

  lemma AveragedLength(data: seq<real>, n: int, size: nat)
    requires n >= 0 && |data| == size * SamplesPerPosition(n)
    ensures AverageableOrRaw(data, n) && |AveragedOrRaw(data, n)| == size
  {
    if n > 0 {
      Commute(size, n);
      Division.WholeBlocks(size, n);
      WholeBlocksDivide(|data|, n);
      AveragesLength(data, n);
      SameFactor(n, |Averages(data, n)|, size);
    }
  }

  lemma Commute(x: int, y: int)
    ensures x * y == y * x
  {
  }

  lemma SameFactor(p: int, x: int, y: int)
    requires p > 0 && p * x == p * y
    ensures x == y
  {
    DivisionUnique(p * x, p, x, 0);
    DivisionUnique(p * x, p, y, 0);
  }

  /** Averaging a conserved output succeeds and leaves one number per position. */
  lemma ConservedAverages(shape: seq<nat>, targets: seq<Target>, points: NumberOfPoints, out: Output)
    requires Conserved(shape, targets, points, out)
    ensures OutputAverageable(out, points)
    ensures forall t :: t in out ==> |AveragedOutput(out, points)[t]| == Product(shape)
  {
    forall t | t in out
      ensures AverageableOrRaw(out[t], PointsOf(points, t))
      ensures |AveragedOrRaw(out[t], PointsOf(points, t))| == Product(shape)
    {
      AveragedLength(out[t], PointsOf(points, t), Product(shape));
    }
  }

  /** Averaging once after merging all leaves is averaging inside every leaf. */
  lemma AveragingInLeaves(getters: seq<InstrumentPort>, axes: Waveform, ports: seq<ConnectedPort>, dims: seq<int>,
                          b: Behaviour, points: NumberOfPoints, hist: seq<PrimitiveInput>)
    requires Plannable(getters, axes, ports) && BuildPlanSpec(getters, axes, ports, map[], dims).Ok?
    requires DecodingExecutor(b, points)
    ensures
      var plan := BuildPlanSpec(getters, axes, ports, map[], dims).value;
      Execute(plan, Leafwise(b, points), hist).result == AveragedResult(Execute(plan, b, hist).result, points)
  {
    var plan, shape := BuildPlanSpec(getters, axes, ports, map[], dims).value, ShapeOf(axes);
    var m := PlanInputs(getters, axes, ports, dims);
    var walk := Walk(shape, [], m);
    var inputs := InputsAt(getters, axes, ports, walk);
    forall j | 0 <= j < |inputs| && Answer(inputs, b, hist, j).Ok?
      ensures OutputAverageable(Answer(inputs, b, hist, j).value, points)
    {
      LeafAnswers(getters, axes, ports, walk, m, b, points, hist, j);
      ConservedAverages(shape[m..], GetterTargets(getters, ports), points, Answer(inputs, b, hist, j).value);
    }
    AveragingCommutes(plan, b, hist, points);
  }

  lemma {:induction false} GettersHavePorts(getters: seq<InstrumentPort>, ports: seq<ConnectedPort>, k: nat)
    requires k <= |getters| && GettersUpTo(getters, ports, k).Ok?
    ensures forall t :: t in GettersUpTo(getters, ports, k).value.0 ==> t in GettersUpTo(getters, ports, k).value.1
  {
    if k > 0 {
      GettersHavePorts(getters, ports, k - 1);
    }
  }

  /** What a planned request hands to the final check: averaging succeeds, every getter has a
      port, and its averages are as many as the machine product of the plan's shape. */
  lemma PlannedRangesFit(getters: seq<InstrumentPort>, axes: Waveform, ports: seq<ConnectedPort>, dims: seq<int>,
                         points: NumberOfPoints, out: Output, shape: seq<int>)
    requires Plannable(getters, axes, ports) && Product(ShapeOf(axes)) <= MAX_INT
    requires BuildPlanSpec(getters, axes, ports, map[], dims).Ok?
    requires PlanShape(BuildPlanSpec(getters, axes, ports, map[], dims).value, shape)
    requires Conserved(ShapeOf(axes), GetterTargets(getters, ports), points, out)
    ensures shape == ShapeOf(axes) && OutputAverageable(out, points)
    ensures LengthsMatch(getters, AveragedOutput(out, points), ports, shape)
  {
    RootShape(getters, axes, ports, dims, shape);
    ConservedAverages(ShapeOf(axes), GetterTargets(getters, ports), points, out);
    GettersHavePorts(getters, ports, |getters|);
    WrappedProductIs(ShapeOf(axes));
  }
}
