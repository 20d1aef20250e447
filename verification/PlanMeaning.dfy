/**
 What a plan means: the voltages its leaves go through, and the samples that a row-major
 script returns for them. The reference is a row-major walk over the whole sweep.
 */
module PlanMeaning {
  import opened Wrappers
  import opened Ports
  import opened RowMajor
  import opened Planner
  import opened PlanStructure
  import opened PlanExecution
  import opened PrimitiveCode

  // ------------------------------------------------------------ counts of a leaf

  /** The lengths of the axes that are not held. */
  function SweptShape(axes: Waveform, pre: seq<nat>): seq<nat>
    requires |pre| <= |axes|
  {
    ShapeOf(axes)[|pre|..]
  }

  predicate NoEmptyAxis(axes: Waveform) {
    forall a | 0 <= a < |axes| :: |axes[a].points| > 0
  }

  /** What a leaf's setters look like: held below the prefix, and otherwise sweeping. */
  lemma LeafSetter(getters: seq<InstrumentPort>, axes: Waveform, ports: seq<ConnectedPort>, pre: seq<nat>, t: Target)
    requires Plannable(getters, axes, ports) && |pre| <= |axes|
    requires t in LeafInput(getters, axes, ports, pre).setters
    ensures
      var s, g := LeafInput(getters, axes, ports, pre).setters[t], Root(axes, ports)[t].axis;
      && 0 <= g < |axes|
      && if g < |pre| then s == Input(0, Coordinate(axes, pre, g), None, None)
         else s.axis == g - |pre| && s.stop.Some? && s.num == Some(SweptShape(axes, pre)[g - |pre|])
  {
    RootSweeps(getters, axes, ports);
  }

  /** Every primitive axis of a leaf is swept by some setter, with the length of the global
      axis it stands for. */
  lemma LeafAxisSetter(getters: seq<InstrumentPort>, axes: Waveform, ports: seq<ConnectedPort>, pre: seq<nat>, a: nat)
    returns (t: Target)
    requires Plannable(getters, axes, ports) && |pre| + a < |axes|
    ensures
      var s := LeafInput(getters, axes, ports, pre).setters;
      t in s && s[t].axis == a && s[t].stop.Some? && s[t].num == Some(SweptShape(axes, pre)[a])
  {
    RootSweeps(getters, axes, ports);
    var root := Root(axes, ports);
    InAxisNumbers(|axes|, |pre| + a);
    assert |pre| + a in SweptAxes(root);
    t :| t in root && root[t].num.Some? && root[t].axis == |pre| + a;
    LeafSetter(getters, axes, ports, pre, t);
  }

  /** Counting a leaf succeeds exactly when none of its swept axes is empty, and then gives
      their lengths in order. */
  lemma LeafCounts(getters: seq<InstrumentPort>, axes: Waveform, ports: seq<ConnectedPort>, pre: seq<nat>,
                   counts: seq<int>)
    requires Plannable(getters, axes, ports) && |pre| <= |axes|
    ensures Counted(LeafInput(getters, axes, ports, pre), counts) <==>
            counts == SweptShape(axes, pre) && forall a | |pre| <= a < |axes| :: |axes[a].points| > 0
  {
    var input, shape := LeafInput(getters, axes, ports, pre), SweptShape(axes, pre);
    if Counted(input, counts) {
      forall a | 0 <= a < |counts|
        ensures counts[a] == shape[a] && shape[a] > 0
      {
        var t := LeafAxisSetter(getters, axes, ports, pre, a);
        assert CountedAt(input.setters[t], counts);
      }
      forall a | |pre| <= a < |axes|
        ensures |axes[a].points| > 0
      {
        assert shape[a - |pre|] > 0;
      }
    }
    if counts == shape && forall a | |pre| <= a < |axes| :: |axes[a].points| > 0 {
      forall t | t in input.setters
        ensures !IsSweep(input.setters[t]) ==> input.setters[t].stop.None?
        ensures IsSweep(input.setters[t]) ==> CountedAt(input.setters[t], counts)
      {
        LeafSetter(getters, axes, ports, pre, t);
      }
      forall a | 0 <= a < |counts|
        ensures SweptOn(input.setters, a)
      {
        var t := LeafAxisSetter(getters, axes, ports, pre, a);
        assert IsSweep(input.setters[t]);
      }
    }
  }

  lemma LeafShapeAt(getters: seq<InstrumentPort>, axes: Waveform, ports: seq<ConnectedPort>, pre: seq<nat>,
                    shape: seq<int>, a: nat)
    requires Plannable(getters, axes, ports) && |pre| + a < |axes| && a < |shape|
    requires NativeShapeOf(LeafInput(getters, axes, ports, pre).setters, shape)
    ensures shape[a] == SweptShape(axes, pre)[a]
  {
    var setters := LeafInput(getters, axes, ports, pre).setters;
    var t := LeafAxisSetter(getters, axes, ports, pre, a);
    assert IsSweep(setters[t]);
    assert HasCount(setters, a, shape[a]);
    var u :| u in setters && setters[u].axis == a && setters[u].num == Some(shape[a]);
    LeafSetter(getters, axes, ports, pre, u);
  }

  /** A leaf's own shape lists the lengths of its swept axes, whatever the map order. */
  lemma LeafShape(getters: seq<InstrumentPort>, axes: Waveform, ports: seq<ConnectedPort>, pre: seq<nat>,
                  shape: seq<int>)
    requires Plannable(getters, axes, ports) && |pre| <= |axes|
    requires NativeShapeOf(LeafInput(getters, axes, ports, pre).setters, shape)
    ensures shape == SweptShape(axes, pre)
  {
    LeafAxesDense(getters, axes, ports, pre);
    AxisNumbersSize(|axes| - |pre|);
    forall a | 0 <= a < |shape|
      ensures shape[a] == SweptShape(axes, pre)[a]
    {
      LeafShapeAt(getters, axes, ports, pre, shape, a);
    }
  }

  /** The shape that a plan reports: stored in a nested plan, recomputed in a native one. */
  ghost predicate PlanShape(p: Plan, shape: seq<int>) {
    match p
    case Native(input, _) => NativeShapeOf(input.setters, shape)
    case Nested(_, stored) => shape == stored
  }

  /** The root plan reports the lengths of all axes, whatever dimensionalities were on offer. */
  lemma RootShape(getters: seq<InstrumentPort>, axes: Waveform, ports: seq<ConnectedPort>, dims: seq<int>,
                  shape: seq<int>)
    requires Plannable(getters, axes, ports)
    requires BuildPlanSpec(getters, axes, ports, map[], dims).Ok?
    requires PlanShape(BuildPlanSpec(getters, axes, ports, map[], dims).value, shape)
    ensures shape == ShapeOf(axes)
  {
    assert FixedAt(axes, []) == map[];
    BuildPlanStep(getters, axes, ports, dims, []);
    if |axes| in dims {
      LeafShape(getters, axes, ports, [], shape);
    }
  }

  // ------------------------------------------------------------------ voltages

  /** The voltages of all setters at one position of a measurement. */
  type Assignment = map<Target, real>

  /** How a script steps a sweep: the voltage at point `j` of `num` from `start` to `stop`. */
  type Stepping = (real, real, int, int) -> real

  /** The voltage of one setter at a primitive position. */
  function Voltage(s: Input, pos: seq<nat>, step: Stepping): real {
    if s.num.Some? && s.stop.Some? && 0 <= s.axis < |pos|
    then step(s.start, s.stop.value, s.num.value, pos[s.axis])
    else s.start
  }

  function AssignmentAt(setters: Setters, pos: seq<nat>, step: Stepping): Assignment {
    map t | t in setters :: Voltage(setters[t], pos, step)
  }

  /** The reference: every target stands at the point of its own axis. */
  function ReferenceAt(axes: Waveform, root: Setters, pos: seq<nat>): Assignment {
    map t | t in root :: Coordinate(axes, pos, root[t].axis)
  }

  function References(axes: Waveform, root: Setters, walk: seq<seq<nat>>): (r: seq<Assignment>)
    ensures |r| == |walk| && forall i | 0 <= i < |walk| :: r[i] == ReferenceAt(axes, root, walk[i])
  {
    seq(|walk|, i requires 0 <= i < |walk| => ReferenceAt(axes, root, walk[i]))
  }

  /** Stepping a port's sweep gives the axis's own points. A held axis uses those points, a
      swept one uses the port's bounds and direction; nothing in the program ties the two. */
  ghost predicate Agreement(axes: Waveform, root: Setters, step: Stepping) {
    forall t, j: nat | t in root && 0 <= root[t].axis < |axes| && j < |axes[root[t].axis].points| ::
      AgreesAt(axes, root[t], step, j)
  }

  predicate AgreesAt(axes: Waveform, s: Input, step: Stepping, j: nat)
    requires 0 <= s.axis < |axes| && j < |axes[s.axis].points|
  {
    s.num.Some? && s.stop.Some? ==> step(s.start, s.stop.value, s.num.value, j) == axes[s.axis].points[j]
  }

  ghost predicate HasCounts(input: PrimitiveInput) {
    exists counts :: Counted(input, counts)
  }

  ghost function CountsOf(input: PrimitiveInput): (counts: seq<int>)
    requires HasCounts(input)
    ensures Counted(input, counts)
  {
    var counts :| Counted(input, counts); counts
  }

  function Nats(counts: seq<int>): (r: seq<nat>)
    ensures |r| == |counts| && forall i | 0 <= i < |r| :: r[i] == if counts[i] >= 0 then counts[i] else 0
  {
    seq(|counts|, i requires 0 <= i < |counts| => if counts[i] >= 0 then counts[i] else 0)
  }

  /** The voltages along a walk of primitive positions. */
  function Trace(setters: Setters, walk: seq<seq<nat>>, step: Stepping): (r: seq<Assignment>)
    ensures |r| == |walk|
  {
    seq(|walk|, i requires 0 <= i < |walk| => AssignmentAt(setters, walk[i], step))
  }

  /** The voltages that a row-major script goes through for one primitive measurement. */
  ghost function LeafTrace(input: PrimitiveInput, step: Stepping): seq<Assignment>
    requires HasCounts(input)
  {
    Trace(input.setters, Walk(Nats(CountsOf(input)), [], |CountsOf(input)|), step)
  }

  lemma HeldOrStepped(axes: Waveform, s: Input, pre: seq<nat>, q: seq<nat>, step: Stepping)
    requires |pre + q| == |axes| && InBox(ShapeOf(axes), pre + q) && 0 <= s.axis < |axes|
    requires s.num.Some? && s.stop.Some?
    requires forall j: nat | j < |axes[s.axis].points| :: AgreesAt(axes, s, step, j)
    ensures Voltage(InputAt(axes, pre, s), q, step) == Coordinate(axes, pre + q, s.axis)
  {
    assert (pre + q)[s.axis] < ShapeOf(axes)[s.axis];
    assert AgreesAt(axes, s, step, (pre + q)[s.axis]);
  }

  /** With agreement, a leaf's assignment at a primitive position is the reference at the
      full position. */
  lemma LeafAssignment(getters: seq<InstrumentPort>, axes: Waveform, ports: seq<ConnectedPort>, pre: seq<nat>,
                       q: seq<nat>, step: Stepping)
    requires Plannable(getters, axes, ports) && Agreement(axes, Root(axes, ports), step)
    requires |pre + q| == |axes| && InBox(ShapeOf(axes), pre + q)
    ensures AssignmentAt(LeafInput(getters, axes, ports, pre).setters, q, step)
         == ReferenceAt(axes, Root(axes, ports), pre + q)
  {
    var root := Root(axes, ports);
    RootSweeps(getters, axes, ports);
    forall t | t in root
      ensures Voltage(InputAt(axes, pre, root[t]), q, step) == Coordinate(axes, pre + q, root[t].axis)
    {
      HeldOrStepped(axes, root[t], pre, q, step);
    }
  }

  lemma LeafCountsAre(getters: seq<InstrumentPort>, axes: Waveform, ports: seq<ConnectedPort>, pre: seq<nat>)
    requires Plannable(getters, axes, ports) && |pre| <= |axes| && NoEmptyAxis(axes)
    ensures HasCounts(LeafInput(getters, axes, ports, pre))
    ensures CountsOf(LeafInput(getters, axes, ports, pre)) == SweptShape(axes, pre)
    ensures Nats(SweptShape(axes, pre)) == SweptShape(axes, pre)
  {
    LeafCounts(getters, axes, ports, pre, SweptShape(axes, pre));
    LeafCounts(getters, axes, ports, pre, CountsOf(LeafInput(getters, axes, ports, pre)));
  }

  lemma InBoxBelow(axes: Waveform, pre: seq<nat>, q: seq<nat>)
    requires InBox(ShapeOf(axes), pre) && InBox(SweptShape(axes, pre), q)
    ensures InBox(ShapeOf(axes), pre + q)
  {
    forall a | 0 <= a < |pre + q|
      ensures (pre + q)[a] < ShapeOf(axes)[a]
    {
      if a >= |pre| {
        assert SweptShape(axes, pre)[a - |pre|] == ShapeOf(axes)[a];
      }
    }
  }

  /** With agreement, what a leaf goes through is the reference over the positions below it. */
  lemma LeafTraceIs(getters: seq<InstrumentPort>, axes: Waveform, ports: seq<ConnectedPort>, pre: seq<nat>,
                    step: Stepping)
    requires Plannable(getters, axes, ports) && Agreement(axes, Root(axes, ports), step)
    requires InBox(ShapeOf(axes), pre) && NoEmptyAxis(axes)
    ensures HasCounts(LeafInput(getters, axes, ports, pre))
    ensures LeafTrace(LeafInput(getters, axes, ports, pre), step)
         == References(axes, Root(axes, ports), Walk(ShapeOf(axes), pre, |axes|))
  {
    var input, shape := LeafInput(getters, axes, ports, pre), SweptShape(axes, pre);
    LeafCountsAre(getters, axes, ports, pre);
    var walk := Walk(shape, [], |shape|);
    WalkShift(ShapeOf(axes), pre, []);
    assert pre + [] == pre;
    forall q | q in walk
      ensures AssignmentAt(input.setters, q, step) == ReferenceAt(axes, Root(axes, ports), pre + q)
    {
      WalkEntries(shape, [], |shape|);
      InBoxBelow(axes, pre, q);
      LeafAssignment(getters, axes, ports, pre, q, step);
    }
    TraceIsReference(axes, Root(axes, ports), input.setters, pre, walk, step);
  }

  lemma TraceIsReference(axes: Waveform, root: Setters, setters: Setters, pre: seq<nat>, walk: seq<seq<nat>>,
                         step: Stepping)
    requires forall q :: q in walk ==> AssignmentAt(setters, q, step) == ReferenceAt(axes, root, pre + q)
    ensures Trace(setters, walk, step) == References(axes, root, Prefixed(pre, walk))
  {
    forall i | 0 <= i < |walk|
      ensures Trace(setters, walk, step)[i] == References(axes, root, Prefixed(pre, walk))[i]
    {
      assert walk[i] in walk;
    }
  }

  // ------------------------------------------------------------------- samples

  /** The samples that one getter returns while the setters stand at an assignment. */
  type Response = (Assignment, Target) -> seq<real>

  /** The samples of a getter along a trace, one assignment after the other. */
  function Emit(response: Response, trace: seq<Assignment>, g: Target): seq<real> {
    if trace == [] then []
    else Emit(response, trace[..|trace| - 1], g) + response(trace[|trace| - 1], g)
  }

  lemma {:induction false} EmitAppend(response: Response, a: seq<Assignment>, b: seq<Assignment>, g: Target)
    ensures Emit(response, a + b, g) == Emit(response, a, g) + Emit(response, b, g)
  {
    if b == [] {
      assert a + b == a;
    } else {
      EmitAppend(response, a, b[..|b| - 1], g);
      assert (a + b)[..|a + b| - 1] == a + b[..|b| - 1];
    }
  }

  function EmitAll(response: Response, trace: seq<Assignment>, getters: seq<Target>): Output {
    map g | g in getters :: Emit(response, trace, g)
  }

  lemma EmitAllAppend(response: Response, a: seq<Assignment>, b: seq<Assignment>, getters: seq<Target>)
    ensures Merge(EmitAll(response, a, getters), EmitAll(response, b, getters)) == EmitAll(response, a + b, getters)
  {
    forall g { EmitAppend(response, a, b, g); }
  }

  /** An executor whose scripts emit positions in row-major order: every input that has step
      counts is answered with the responses along its own trace. */
  ghost predicate RowMajorExecutor(b: Behaviour, response: Response, step: Stepping) {
    forall hist, input: PrimitiveInput | HasCounts(input) ::
      b(hist, input) == Ok(EmitAll(response, LeafTrace(input, step), input.getters))
  }

  function GetterTargets(getters: seq<InstrumentPort>, ports: seq<ConnectedPort>): seq<Target>
    requires GettersUpTo(getters, ports, |getters|).Ok?
  {
    GettersUpTo(getters, ports, |getters|).value.0
  }

  /** The inputs of the leaves held at the entries of a walk. */
  function InputsAt(getters: seq<InstrumentPort>, axes: Waveform, ports: seq<ConnectedPort>, walk: seq<seq<nat>>)
    : (r: seq<PrimitiveInput>)
    requires Plannable(getters, axes, ports)
    ensures |r| == |walk|
  {
    seq(|walk|, i requires 0 <= i < |walk| => LeafInput(getters, axes, ports, walk[i]))
  }

  /** Running the leaves of a walk row by row gives the responses along the reference, over
      the positions below the entries of the walk. */
  lemma {:induction false} RunWalk(getters: seq<InstrumentPort>, axes: Waveform, ports: seq<ConnectedPort>,
                                   walk: seq<seq<nat>>, b: Behaviour, response: Response, step: Stepping,
                                   hist: seq<PrimitiveInput>)
    requires Plannable(getters, axes, ports) && Agreement(axes, Root(axes, ports), step) && NoEmptyAxis(axes)
    requires RowMajorExecutor(b, response, step)
    requires forall i | 0 <= i < |walk| :: |walk[i]| <= |axes| && InBox(ShapeOf(axes), walk[i])
    requires walk != []
    ensures RunList(InputsAt(getters, axes, ports, walk), b, hist).result
         == Ok(EmitAll(response, References(axes, Root(axes, ports), WalkAll(ShapeOf(axes), walk, |axes|)),
                       GetterTargets(getters, ports)))
  {
    var init, last := walk[..|walk| - 1], walk[|walk| - 1];
    var targets := GetterTargets(getters, ports);
    var below := References(axes, Root(axes, ports), Walk(ShapeOf(axes), last, |axes|));
    InputsAtSnoc(getters, axes, ports, init, last);
    assert walk == init + [last];
    ReferencesBelow(axes, Root(axes, ports), init, last);
    LeafTraceIs(getters, axes, ports, last, step);
    var done := RunList(InputsAt(getters, axes, ports, init), b, hist);
    assert b(done.calls, LeafInput(getters, axes, ports, last)) == Ok(EmitAll(response, below, targets));
    if init == [] {
      assert [] + below == below;
      RunListSnoc([], LeafInput(getters, axes, ports, last), b, hist, map[], EmitAll(response, below, targets));
      MergeNothing(EmitAll(response, below, targets));
    } else {
      RunWalk(getters, axes, ports, init, b, response, step, hist);
      var before := References(axes, Root(axes, ports), WalkAll(ShapeOf(axes), init, |axes|));
      RunListSnoc(InputsAt(getters, axes, ports, init), LeafInput(getters, axes, ports, last), b, hist,
                  EmitAll(response, before, targets), EmitAll(response, below, targets));
      EmitAllAppend(response, before, below, targets);
    }
  }

  lemma InputsAtSnoc(getters: seq<InstrumentPort>, axes: Waveform, ports: seq<ConnectedPort>, init: seq<seq<nat>>,
                     last: seq<nat>)
    requires Plannable(getters, axes, ports)
    ensures InputsAt(getters, axes, ports, init + [last])
         == InputsAt(getters, axes, ports, init) + [LeafInput(getters, axes, ports, last)]
    ensures InputsAt(getters, axes, ports, []) == []
  {
  }

  lemma ReferencesBelow(axes: Waveform, root: Setters, init: seq<seq<nat>>, last: seq<nat>)
    requires forall i | 0 <= i < |init| :: |init[i]| <= |axes|
    requires |last| <= |axes|
    ensures References(axes, root, WalkAll(ShapeOf(axes), init + [last], |axes|))
         == References(axes, root, WalkAll(ShapeOf(axes), init, |axes|))
            + References(axes, root, Walk(ShapeOf(axes), last, |axes|))
    ensures References(axes, root, WalkAll(ShapeOf(axes), [], |axes|)) == []
  {
    WalkAllSnoc(ShapeOf(axes), init, last, |axes|);
    ReferencesAppend(axes, root, WalkAll(ShapeOf(axes), init, |axes|), Walk(ShapeOf(axes), last, |axes|));
  }

  lemma ReferencesAppend(axes: Waveform, root: Setters, a: seq<seq<nat>>, b: seq<seq<nat>>)
    ensures References(axes, root, a + b) == References(axes, root, a) + References(axes, root, b)
  {
  }

  /** The inputs of a plan's leaves, by the positions at which they are held. */
  lemma InputsOfPlan(getters: seq<InstrumentPort>, axes: Waveform, ports: seq<ConnectedPort>, dims: seq<int>, m: nat)
    requires Plannable(getters, axes, ports) && StopsAt(dims, ShapeOf(axes), 0, m)
    ensures BuildPlanSpec(getters, axes, ports, map[], dims).Ok?
    ensures
      var plan, walk := BuildPlanSpec(getters, axes, ports, map[], dims).value, Walk(ShapeOf(axes), [], m);
      && InputsOf(plan) == InputsAt(getters, axes, ports, walk)
      && |walk| == Product(ShapeOf(axes)[..m])
      && forall i | 0 <= i < |walk| :: |walk[i]| == m && InBox(ShapeOf(axes), walk[i])
  {
    var shape := ShapeOf(axes);
    PlanLeaves(getters, axes, ports, dims, m);
    var plan, walk := BuildPlanSpec(getters, axes, ports, map[], dims).value, Walk(shape, [], m);
    InputsOfLeaves(plan);
    assert InputsOf(plan) == InputsAt(getters, axes, ports, walk);
    WalkLength(shape, [], m);
    assert shape[0..m] == shape[..m];
    WalkEntries(shape, [], m);
    forall i | 0 <= i < |walk|
      ensures |walk[i]| == m && InBox(shape, walk[i])
    {
      assert walk[i] in walk;
    }
  }

  /** The reference trace of a sweep: its row-major walk. */
  function ReferenceTrace(axes: Waveform, root: Setters): seq<Assignment> {
    References(axes, root, Walk(ShapeOf(axes), [], |axes|))
  }

  /** Meaning preservation. Whatever dimensionalities are on offer, if one of them is in
      reach then the plan's merged output is, getter by getter, the responses along the
      row-major walk over the whole sweep. */
  lemma PlanMeaning(getters: seq<InstrumentPort>, axes: Waveform, ports: seq<ConnectedPort>, dims: seq<int>,
                    b: Behaviour, response: Response, step: Stepping, hist: seq<PrimitiveInput>)
    requires Plannable(getters, axes, ports) && Agreement(axes, Root(axes, ports), step) && NoEmptyAxis(axes)
    requires Reachable(dims, |axes|) && RowMajorExecutor(b, response, step)
    ensures
      var plan := BuildPlanSpec(getters, axes, ports, map[], dims);
      && plan.Ok?
      && Execute(plan.value, b, hist).result
         == Ok(EmitAll(response, ReferenceTrace(axes, Root(axes, ports)), GetterTargets(getters, ports)))
  {
    var shape := ShapeOf(axes);
    var m := StopExists(dims, shape, 0);
    InputsOfPlan(getters, axes, ports, dims, m);
    ProductPositive(shape[..m]);
    ExecutionIsFlat(BuildPlanSpec(getters, axes, ports, map[], dims).value, b, hist);
    RunWhole(getters, axes, ports, Walk(shape, [], m), m, b, response, step, hist);
  }

  /** Running the leaves of a walk over the first axes goes through the whole sweep. */
  lemma RunWhole(getters: seq<InstrumentPort>, axes: Waveform, ports: seq<ConnectedPort>, walk: seq<seq<nat>>, m: nat,
                 b: Behaviour, response: Response, step: Stepping, hist: seq<PrimitiveInput>)
    requires Plannable(getters, axes, ports) && Agreement(axes, Root(axes, ports), step) && NoEmptyAxis(axes)
    requires RowMajorExecutor(b, response, step) && m <= |axes| && walk == Walk(ShapeOf(axes), [], m) && walk != []
    requires forall i | 0 <= i < |walk| :: |walk[i]| == m && InBox(ShapeOf(axes), walk[i])
    ensures RunList(InputsAt(getters, axes, ports, walk), b, hist).result
         == Ok(EmitAll(response, ReferenceTrace(axes, Root(axes, ports)), GetterTargets(getters, ports)))
  {
    WalkInStages(ShapeOf(axes), [], m, |axes|);
    RunWalk(getters, axes, ports, walk, b, response, step, hist);
  }

  /** The result does not depend on which scripts happen to be available. */
  lemma ScriptsDoNotMatter(getters: seq<InstrumentPort>, axes: Waveform, ports: seq<ConnectedPort>,
                           dims1: seq<int>, dims2: seq<int>, b: Behaviour, response: Response, step: Stepping)
    requires Plannable(getters, axes, ports) && Agreement(axes, Root(axes, ports), step) && NoEmptyAxis(axes)
    requires Reachable(dims1, |axes|) && Reachable(dims2, |axes|) && RowMajorExecutor(b, response, step)
    ensures
      var p1, p2 := BuildPlanSpec(getters, axes, ports, map[], dims1),
                    BuildPlanSpec(getters, axes, ports, map[], dims2);
      p1.Ok? && p2.Ok? && Execute(p1.value, b, []).result == Execute(p2.value, b, []).result
  {
    PlanMeaning(getters, axes, ports, dims1, b, response, step, []);
    PlanMeaning(getters, axes, ports, dims2, b, response, step, []);
  }

  // -------------------------------------------------- the agreement is necessary

  /** The row-major executor itself, as a value. */
  ghost function RowMajorScript(response: Response, step: Stepping): Behaviour {
    (hist, input: PrimitiveInput) =>
      if HasCounts(input) then Ok(EmitAll(response, LeafTrace(input, step), input.getters)) else Err("no step counts")
  }

  /** A response that singles out one assignment. */
  function Detector(a: Assignment): Response {
    (b: Assignment, g: Target) => if a == b then [1.0] else [0.0]
  }

  lemma {:induction false} DetectorSamples(a: Assignment, trace: seq<Assignment>, g: Target)
    ensures |Emit(Detector(a), trace, g)| == |trace|
    ensures forall i | 0 <= i < |trace| :: Emit(Detector(a), trace, g)[i] == if trace[i] == a then 1.0 else 0.0
  {
    if trace != [] {
      DetectorSamples(a, trace[..|trace| - 1], g);
    }
  }

  /** Traces that differ somewhere are told apart by some response. */
  lemma TracesToldApart(t1: seq<Assignment>, t2: seq<Assignment>, k: nat, getters: seq<Target>)
    requires k < |t1| && k < |t2| && t1[k] != t2[k] && getters != []
    ensures EmitAll(Detector(t1[k]), t1, getters) != EmitAll(Detector(t1[k]), t2, getters)
  {
    var g := getters[0];
    DetectorSamples(t1[k], t1, g);
    DetectorSamples(t1[k], t2, g);
    assert EmitAll(Detector(t1[k]), t1, getters)[g][k] == 1.0;
    assert EmitAll(Detector(t1[k]), t2, getters)[g][k] == 0.0;
  }

  /** The position with index `j` on one axis and zero on the others. */
  function Corner(n: nat, axis: nat, j: nat): seq<nat> {
    seq(n, a => if a == axis then j else 0)
  }

  /** Where no axis is swept, no stepping is involved: with single points alone the trace is
      always the reference. */
  lemma PointsGiveTheReference(getters: seq<InstrumentPort>, axes: Waveform, ports: seq<ConnectedPort>,
                               response: Response, step: Stepping)
    requires Plannable(getters, axes, ports) && NoEmptyAxis(axes)
    ensures
      var p := BuildPlanSpec(getters, axes, ports, map[], [0]);
      && p.Ok?
      && Execute(p.value, RowMajorScript(response, step), []).result
         == Ok(EmitAll(response, ReferenceTrace(axes, Root(axes, ports)), GetterTargets(getters, ports)))
  {
    var shape, n := ShapeOf(axes), |axes|;
    assert StopsAt([0], shape, 0, n);
    InputsOfPlan(getters, axes, ports, [0], n);
    ProductPositive(shape[..n]);
    ExecutionIsFlat(BuildPlanSpec(getters, axes, ports, map[], [0]).value, RowMajorScript(response, step), []);
    RunPoints(getters, axes, ports, Walk(shape, [], n), response, step);
  }

  lemma PointTrace(getters: seq<InstrumentPort>, axes: Waveform, ports: seq<ConnectedPort>, pos: seq<nat>,
                   step: Stepping)
    requires Plannable(getters, axes, ports) && |pos| == |axes|
    ensures HasCounts(LeafInput(getters, axes, ports, pos))
    ensures LeafTrace(LeafInput(getters, axes, ports, pos), step) == [ReferenceAt(axes, Root(axes, ports), pos)]
  {
    var input, root := LeafInput(getters, axes, ports, pos), Root(axes, ports);
    RootSweeps(getters, axes, ports);
    LeafCounts(getters, axes, ports, pos, []);
    assert |CountsOf(input)| == 0;
    assert Walk(Nats(CountsOf(input)), [], 0) == [[]];
    assert AssignmentAt(input.setters, [], step) == ReferenceAt(axes, root, pos);
  }

  lemma {:induction false} RunPoints(getters: seq<InstrumentPort>, axes: Waveform, ports: seq<ConnectedPort>,
                                     walk: seq<seq<nat>>, response: Response, step: Stepping)
    requires Plannable(getters, axes, ports) && walk != []
    requires forall i | 0 <= i < |walk| :: |walk[i]| == |axes|
    ensures RunList(InputsAt(getters, axes, ports, walk), RowMajorScript(response, step), []).result
         == Ok(EmitAll(response, References(axes, Root(axes, ports), walk), GetterTargets(getters, ports)))
  {
    var init, last := walk[..|walk| - 1], walk[|walk| - 1];
    var root, targets, b := Root(axes, ports), GetterTargets(getters, ports), RowMajorScript(response, step);
    var here := [ReferenceAt(axes, root, last)];
    InputsAtSnoc(getters, axes, ports, init, last);
    assert walk == init + [last];
    assert References(axes, root, walk) == References(axes, root, init) + here;
    PointTrace(getters, axes, ports, last, step);
    var done := RunList(InputsAt(getters, axes, ports, init), b, []);
    assert b(done.calls, LeafInput(getters, axes, ports, last)) == Ok(EmitAll(response, here, targets));
    if init == [] {
      assert References(axes, root, walk) == here;
      RunListSnoc([], LeafInput(getters, axes, ports, last), b, [], map[], EmitAll(response, here, targets));
      MergeNothing(EmitAll(response, here, targets));
    } else {
      RunPoints(getters, axes, ports, init, response, step);
      RunListSnoc(InputsAt(getters, axes, ports, init), LeafInput(getters, axes, ports, last), b, [],
                  EmitAll(response, References(axes, root, init), targets), EmitAll(response, here, targets));
      EmitAllAppend(response, References(axes, root, init), here, targets);
    }
  }

  /** The whole sweep as one primitive measurement, position by position. */
  lemma WholeTraceAt(getters: seq<InstrumentPort>, axes: Waveform, ports: seq<ConnectedPort>, step: Stepping,
                     pos: seq<nat>)
    requires Plannable(getters, axes, ports) && NoEmptyAxis(axes)
    requires |pos| == |axes| && InBox(ShapeOf(axes), pos)
    ensures HasCounts(LeafInput(getters, axes, ports, []))
    ensures
      var trace, k := LeafTrace(LeafInput(getters, axes, ports, []), step), Rank(ShapeOf(axes), pos);
      && k < |trace| && k < |ReferenceTrace(axes, Root(axes, ports))|
      && trace[k] == AssignmentAt(LeafInput(getters, axes, ports, []).setters, pos, step)
      && ReferenceTrace(axes, Root(axes, ports))[k] == ReferenceAt(axes, Root(axes, ports), pos)
  {
    var input, shape := LeafInput(getters, axes, ports, []), ShapeOf(axes);
    LeafCounts(getters, axes, ports, [], shape);
    LeafCounts(getters, axes, ports, [], CountsOf(input));
    assert Nats(CountsOf(input)) == shape;
    WalkIsRowMajor(shape, pos);
  }

  lemma WholeSweepRuns(getters: seq<InstrumentPort>, axes: Waveform, ports: seq<ConnectedPort>,
                       response: Response, step: Stepping)
    requires Plannable(getters, axes, ports) && HasCounts(LeafInput(getters, axes, ports, []))
    ensures
      var p := BuildPlanSpec(getters, axes, ports, map[], [|axes|]);
      && p.Ok?
      && Execute(p.value, RowMajorScript(response, step), []).result
         == Ok(EmitAll(response, LeafTrace(LeafInput(getters, axes, ports, []), step), GetterTargets(getters, ports)))
  {
    assert FixedAt(axes, []) == map[];
    BuildPlanStep(getters, axes, ports, [|axes|], []);
  }

  /** A port that misses point `j` of its axis is elsewhere at the corner position. */
  lemma MissesAtCorner(getters: seq<InstrumentPort>, axes: Waveform, ports: seq<ConnectedPort>, step: Stepping,
                       t: Target, j: nat)
    requires Plannable(getters, axes, ports) && NoEmptyAxis(axes)
    requires t in Root(axes, ports)
    requires 0 <= Root(axes, ports)[t].axis < |axes| && j < |axes[Root(axes, ports)[t].axis].points|
    requires !AgreesAt(axes, Root(axes, ports)[t], step, j)
    ensures
      var pos := Corner(|axes|, Root(axes, ports)[t].axis, j);
      && InBox(ShapeOf(axes), pos)
      && AssignmentAt(LeafInput(getters, axes, ports, []).setters, pos, step)
         != ReferenceAt(axes, Root(axes, ports), pos)
  {
    var root := Root(axes, ports);
    RootSweeps(getters, axes, ports);
    var pos := Corner(|axes|, root[t].axis, j);
    var setters := LeafInput(getters, axes, ports, []).setters;
    assert setters[t] == InputAt(axes, [], root[t]);
    assert AssignmentAt(setters, pos, step)[t] != ReferenceAt(axes, root, pos)[t];
  }

  /** Without agreement the result does depend on the scripts: a port that does not step
      through its axis's points makes the whole sweep in one script and the sweep in single
      points return different samples, for some response of the device. */
  lemma DisagreementShows(getters: seq<InstrumentPort>, axes: Waveform, ports: seq<ConnectedPort>, step: Stepping)
    returns (response: Response)
    requires Plannable(getters, axes, ports) && NoEmptyAxis(axes) && getters != []
    requires !Agreement(axes, Root(axes, ports), step)
    ensures
      var whole, points := BuildPlanSpec(getters, axes, ports, map[], [|axes|]),
                           BuildPlanSpec(getters, axes, ports, map[], [0]);
      && whole.Ok? && points.Ok?
      && Execute(whole.value, RowMajorScript(response, step), []).result
         != Execute(points.value, RowMajorScript(response, step), []).result
  {
    var root := Root(axes, ports);
    var t, j: nat :| t in root && 0 <= root[t].axis < |axes| && j < |axes[root[t].axis].points|
                     && !AgreesAt(axes, root[t], step, j);
    MissesAtCorner(getters, axes, ports, step, t, j);
    var pos := Corner(|axes|, root[t].axis, j);
    WholeTraceAt(getters, axes, ports, step, pos);
    var k := Rank(ShapeOf(axes), pos);
    var swept := LeafTrace(LeafInput(getters, axes, ports, []), step);
    response := Detector(swept[k]);
    GettersCount(getters, ports, |getters|);
    TracesToldApart(swept, ReferenceTrace(axes, root), k, GetterTargets(getters, ports));
    WholeSweepRuns(getters, axes, ports, response, step);
    PointsGiveTheReference(getters, axes, ports, response, step);
  }

  lemma {:induction false} GettersCount(getters: seq<InstrumentPort>, ports: seq<ConnectedPort>, k: nat)
    requires k <= |getters| && GettersUpTo(getters, ports, k).Ok?
    ensures |GettersUpTo(getters, ports, k).value.0| == k
  {
    if k > 0 {
      GettersCount(getters, ports, k - 1);
    }
  }

  // ----------------------------------------------------------- what encodes

  /** A leaf has a held setter exactly when it lies below the root: so a two-dimensional leaf,
      whose script has no field for held setters, encodes only when the sweep has exactly two
      axes. */
  lemma WholeSweepOnly(getters: seq<InstrumentPort>, axes: Waveform, ports: seq<ConnectedPort>, pre: seq<nat>)
    requires Plannable(getters, axes, ports) && |pre| <= |axes|
    ensures
      var setters := LeafInput(getters, axes, ports, pre).setters;
      (forall t :: t in setters ==> IsSweep(setters[t])) <==> pre == []
  {
    var setters, root := LeafInput(getters, axes, ports, pre).setters, Root(axes, ports);
    RootSweeps(getters, axes, ports);
    if pre != [] {
      InAxisNumbers(|axes|, 0);
      assert 0 in SweptAxes(root);
      var t :| t in root && root[t].num.Some? && root[t].axis == 0;
      assert t in setters && !IsSweep(setters[t]);
    }
  }

  ghost predicate TotalCodec(codec: Codec) {
    (forall t :: codec.target(t).Some?) && forall a, b :: codec.domain(a, b).Some?
  }

  /** When serialisation never refuses, a planned leaf passes its encoder's checks exactly when
      the getters are distinct, there is one, and no axis it sweeps is empty; the 2D encoder
      asks in addition that nothing is held. */
  lemma LeafEncodes(codec: Codec, getters: seq<InstrumentPort>, axes: Waveform, ports: seq<ConnectedPort>,
                    pre: seq<nat>)
    requires Plannable(getters, axes, ports) && |pre| <= |axes| && TotalCodec(codec)
    ensures
      var input := LeafInput(getters, axes, ports, pre);
      && (Encodable(codec, input, input.choice) <==>
            && input.getters != [] && Distinct(input.getters)
            && forall a | |pre| <= a < |axes| :: |axes[a].points| > 0)
      && ((forall t :: t in input.setters ==> Sweepable(codec, input.setters[t])) <==> pre == [])
  {
    var input := LeafInput(getters, axes, ports, pre);
    LeafCounts(getters, axes, ports, pre, SweptShape(axes, pre));
    forall counts: seq<int> { LeafCounts(getters, axes, ports, pre, counts); }
    WholeSweepOnly(getters, axes, ports, pre);
    forall t | t in input.setters
      ensures Sweepable(codec, input.setters[t]) <==> IsSweep(input.setters[t])
    {
      LeafSetter(getters, axes, ports, pre, t);
    }
  }

  /** The encoder that a dimensionality's script comes with. */
  function EncoderFor(d: nat): EncoderKind
    requires d <= 2
  {
    if d == 0 then GetSetEncoder else if d == 1 then Encoder1D else Encoder2D
  }

  lemma LeafAccepted(codec: Codec, getters: seq<InstrumentPort>, axes: Waveform, ports: seq<ConnectedPort>,
                     pre: seq<nat>)
    requires Plannable(getters, axes, ports) && TotalCodec(codec) && |axes| - 2 <= |pre| <= |axes|
    requires NoEmptyAxis(axes) && GetterTargets(getters, ports) != [] && Distinct(GetterTargets(getters, ports))
    ensures Accepts(EncoderFor(|axes| - |pre|), codec, LeafInput(getters, axes, ports, pre))
       <==> |axes| - |pre| < 2 || pre == []
  {
    LeafEncodes(codec, getters, axes, ports, pre);
  }

  /** Which planned requests can be encoded. With a dimensionality of at most two as the largest
      one in reach, no empty axis, and getters that the encoders take, every leaf of the plan is
      encoded if it is at most one-dimensional or the whole of a two-axis sweep; and otherwise
      none is. */
  lemma PlanEncodes(codec: Codec, getters: seq<InstrumentPort>, axes: Waveform, ports: seq<ConnectedPort>,
                    dims: seq<int>, d: nat)
    requires Plannable(getters, axes, ports) && TotalCodec(codec)
    requires d in dims && d <= |axes| && d <= 2 && forall e | e in dims :: !(d < e <= |axes|)
    requires NoEmptyAxis(axes) && GetterTargets(getters, ports) != [] && Distinct(GetterTargets(getters, ports))
    ensures
      var r := BuildPlanSpec(getters, axes, ports, map[], dims);
      && r.Ok? && InputsOf(r.value) != []
      && forall i | 0 <= i < |InputsOf(r.value)| ::
           && InputsOf(r.value)[i].choice == d && InputsOf(r.value)[i].getters == GetterTargets(getters, ports)
           && (Accepts(EncoderFor(d), codec, InputsOf(r.value)[i]) <==> d < 2 || |axes| == 2)
  {
    var m, shape := |axes| - d, ShapeOf(axes);
    InputsOfPlan(getters, axes, ports, dims, m);
    ProductPositive(shape[..m]);
    var walk := Walk(shape, [], m);
    forall i | 0 <= i < |walk|
      ensures Accepts(EncoderFor(d), codec, LeafInput(getters, axes, ports, walk[i])) <==> d < 2 || |axes| == 2
    {
      LeafAccepted(codec, getters, axes, ports, walk[i]);
    }
  }
}
