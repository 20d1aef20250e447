/**
 The Cartesian planner: rewriting an n-axis sweep into a tree of primitive
 measurements of a dimensionality the executor supports.

 Functions give the recursive rewriting; the methods at the end of each section
 are the loops that the program runs, proved to compute those functions.
 */
module Planner {
  import opened Wrappers
  import opened Ports

  datatype Target = Target(instrument: string, group: string, channel: int)

  datatype Domain = Domain(lesser: real, greater: real)

  datatype Labelled = Labelled(port: InstrumentPort, domain: Domain)

  /** One waveform axis: the ports that move together along it, the direction each of
      them moves in, and the points of the unit space along it. */
  datatype Axis = Axis(coupled: seq<Labelled>, increasing: map<string, bool>, points: seq<real>)

  type Waveform = seq<Axis>

  datatype Request = Request(getters: seq<InstrumentPort>, waveforms: seq<Waveform>)

  /** The instruction for one setter: a held voltage, or a sweep along a primitive axis. */
  datatype Input = Input(axis: int, start: real, stop: Option<real>, num: Option<int>)

  type Setters = map<Target, Input>

  datatype PrimitiveInput = PrimitiveInput(
    setters: Setters, getters: seq<Target>, getterUnits: map<Target, int>, choice: int)

  /** Fixed values by global axis number, a uint8. */
  type FixedAxes = map<int, real>

  datatype Plan =
    | Native(input: PrimitiveInput, fixed: FixedAxes)
    | Nested(children: seq<Plan>, shape: seq<nat>)

  datatype PlanError = NoWaveforms | PortNotFound | MissingIncreasing | CannotDecompose

  // ------------------------------------------------------------------ targets

  function ConvertToTarget(port: InstrumentPort, ports: seq<ConnectedPort>): Result<Target, PlanError> {
    match ResolvePort(port, ports)
    case None => Err(PortNotFound)
    case Some(cp) => Ok(Target(cp.entry.instrumentName, cp.entry.channelGroup, cp.entry.channel))
  }

  /** The getters' targets, and the port that each target was last named by. */
  function GettersUpTo(getters: seq<InstrumentPort>, ports: seq<ConnectedPort>, k: nat)
    : Result<(seq<Target>, map<Target, InstrumentPort>), PlanError>
    requires k <= |getters|
  {
    if k == 0 then Ok(([], map[]))
    else
      var prev :- GettersUpTo(getters, ports, k - 1);
      var t :- ConvertToTarget(getters[k - 1], ports);
      Ok((prev.0 + [t], prev.1[t := getters[k - 1]]))
  }

  lemma {:induction false} GettersErrorStays(getters: seq<InstrumentPort>, ports: seq<ConnectedPort>, k: nat, n: nat)
    requires k <= n <= |getters|
    requires GettersUpTo(getters, ports, k).Err?
    ensures GettersUpTo(getters, ports, n) == GettersUpTo(getters, ports, k)
  {
    if k < n {
      GettersErrorStays(getters, ports, k, n - 1);
    }
  }

  method BuildGetters(getters: seq<InstrumentPort>, ports: seq<ConnectedPort>)
    returns (r: Result<(seq<Target>, map<Target, InstrumentPort>), PlanError>)
    ensures r == GettersUpTo(getters, ports, |getters|)
  {
    var targets: seq<Target> := [];
    var portMap: map<Target, InstrumentPort> := map[];
    for k := 0 to |getters|
      invariant GettersUpTo(getters, ports, k) == Ok((targets, portMap))
    {
      var target := ConvertToTarget(getters[k], ports);
      if target.Err? {
        assert GettersUpTo(getters, ports, k + 1) == Err(target.error);
        GettersErrorStays(getters, ports, k + 1, |getters|);
        return Err(target.error);
      }
      targets := targets + [target.value];
      portMap := portMap[target.value := getters[k]];
    }
    r := Ok((targets, portMap));
  }

  // ------------------------------------------------------------------ setters

  function InputFromDomain(domain: Domain, increasing: bool, num: int, axis: int): Input {
    if increasing then Input(axis, domain.lesser, Some(domain.greater), Some(num))
    else Input(axis, domain.greater, Some(domain.lesser), Some(num))
  }

  /** One port of an axis, held at `value` if there is one and swept otherwise. */
  function PortInput(axis: Axis, l: Labelled, value: Option<real>, primitiveAxis: int): Result<Input, PlanError> {
    match value
    case Some(v) => Ok(Input(0, v, None, None))
    case None =>
      if l.port.pseudoName.name in axis.increasing
      then Ok(InputFromDomain(l.domain, axis.increasing[l.port.pseudoName.name], |axis.points|, primitiveAxis))
      else Err(MissingIncreasing)
  }

  /** The setters of one axis, over its first `k` ports; a later port wins a shared target. */
  function AxisSettersUpTo(axis: Axis, ports: seq<ConnectedPort>, value: Option<real>, primitiveAxis: int, k: nat)
    : Result<Setters, PlanError>
    requires k <= |axis.coupled|
  {
    if k == 0 then Ok(map[])
    else
      var prev :- AxisSettersUpTo(axis, ports, value, primitiveAxis, k - 1);
      var t :- ConvertToTarget(axis.coupled[k - 1].port, ports);
      var input :- PortInput(axis, axis.coupled[k - 1], value, primitiveAxis);
      Ok(prev[t := input])
  }

  function AxisSetters(axis: Axis, ports: seq<ConnectedPort>, value: Option<real>, primitiveAxis: int)
    : Result<Setters, PlanError>
  {
    AxisSettersUpTo(axis, ports, value, primitiveAxis, |axis.coupled|)
  }

  function FixedValue(fixed: FixedAxes, globalAxis: nat): Option<real> {
    if Uint8(globalAxis) in fixed then Some(fixed[Uint8(globalAxis)]) else None
  }

  /** How many of the first `i` global axes are still swept. */
  function SweptBefore(fixed: FixedAxes, i: nat): nat {
    if i == 0 then 0 else SweptBefore(fixed, i - 1) + if FixedValue(fixed, i - 1).None? then 1 else 0
  }

  /** The setters over the first `i` axes; a later axis wins a shared target. Primitive
      axes number the swept global axes, in a uint8 counter. */
  function SettersUpTo(axes: Waveform, fixed: FixedAxes, ports: seq<ConnectedPort>, i: nat): Result<Setters, PlanError>
    requires i <= |axes|
  {
    if i == 0 then Ok(map[])
    else
      var prev :- SettersUpTo(axes, fixed, ports, i - 1);
      var m :- AxisSetters(axes[i - 1], ports, FixedValue(fixed, i - 1), Uint8(SweptBefore(fixed, i - 1)));
      Ok(prev + m)
  }

  lemma {:induction false} AxisErrorStays(axis: Axis, ports: seq<ConnectedPort>, value: Option<real>, p: int,
                                          k: nat, n: nat)
    requires k <= n <= |axis.coupled|
    requires AxisSettersUpTo(axis, ports, value, p, k).Err?
    ensures AxisSettersUpTo(axis, ports, value, p, n) == AxisSettersUpTo(axis, ports, value, p, k)
  {
    if k < n {
      AxisErrorStays(axis, ports, value, p, k, n - 1);
    }
  }

  lemma {:induction false} SettersErrorStays(axes: Waveform, fixed: FixedAxes, ports: seq<ConnectedPort>, i: nat,
                                             n: nat)
    requires i <= n <= |axes|
    requires SettersUpTo(axes, fixed, ports, i).Err?
    ensures SettersUpTo(axes, fixed, ports, n) == SettersUpTo(axes, fixed, ports, i)
  {
    if i < n {
      SettersErrorStays(axes, fixed, ports, i, n - 1);
    }
  }

  lemma OverridingLast(before: Setters, added: Setters, t: Target, input: Input)
    ensures (before + added)[t := input] == before + added[t := input]
  {
  }

  /** The inner loop of setter building: the ports of one axis, written over `before`. */
  method BuildAxisSetters(axis: Axis, ports: seq<ConnectedPort>, value: Option<real>, primitiveAxis: int,
                          before: Setters)
    returns (r: Result<Setters, PlanError>)
    ensures r == match AxisSetters(axis, ports, value, primitiveAxis)
                 case Ok(m) => Ok(before + m)
                 case Err(e) => Err(e)
  {
    var out := before;
    ghost var added: Setters := map[];
    for k := 0 to |axis.coupled|
      invariant AxisSettersUpTo(axis, ports, value, primitiveAxis, k) == Ok(added)
      invariant out == before + added
    {
      var target := ConvertToTarget(axis.coupled[k].port, ports);
      if target.Err? {
        AxisErrorStays(axis, ports, value, primitiveAxis, k + 1, |axis.coupled|);
        return Err(target.error);
      }
      var input := PortInput(axis, axis.coupled[k], value, primitiveAxis);
      if input.Err? {
        AxisErrorStays(axis, ports, value, primitiveAxis, k + 1, |axis.coupled|);
        return Err(input.error);
      }
      OverridingLast(before, added, target.value, input.value);
      out := out[target.value := input.value];
      added := added[target.value := input.value];
    }
    r := Ok(out);
  }

  method BuildSetters(axes: Waveform, fixed: FixedAxes, ports: seq<ConnectedPort>)
    returns (r: Result<Setters, PlanError>)
    ensures r == SettersUpTo(axes, fixed, ports, |axes|)
  {
    var out: Setters := map[];
    var primitiveAxis := 0;
    for globalAxis := 0 to |axes|
      invariant SettersUpTo(axes, fixed, ports, globalAxis) == Ok(out)
      invariant primitiveAxis == Uint8(SweptBefore(fixed, globalAxis))
    {
      var value := FixedValue(fixed, globalAxis);
      var next := BuildAxisSetters(axes[globalAxis], ports, value, primitiveAxis, out);
      if next.Err? {
        SettersErrorStays(axes, fixed, ports, globalAxis + 1, |axes|);
        return next;
      }
      out := next.value;
      if value.None? {
        Uint8Step(SweptBefore(fixed, globalAxis));
        primitiveAxis := Uint8(primitiveAxis + 1);
      }
    }
    r := Ok(out);
  }

  // ---------------------------------------------------------- primitive inputs

  /** The primitive axes that some setter sweeps. */
  function SweptAxes(setters: Setters): set<int> {
    set t | t in setters && setters[t].num.Some? :: setters[t].axis
  }

  /** Counting the distinct swept axes, with a uint8 counter and in any map order. */
  method CountSweptAxes(setters: Setters) returns (dim: int)
    ensures dim == Uint8(|SweptAxes(setters)|)
  {
    var seen: set<int> := {};
    dim := 0;
    var remaining := setters.Keys;
    while remaining != {}
      invariant remaining <= setters.Keys
      invariant seen == set t | t in setters && t !in remaining && setters[t].num.Some? :: setters[t].axis
      invariant dim == Uint8(|seen|)
      decreases remaining
    {
      var t :| t in remaining;
      if setters[t].num.Some? && setters[t].axis !in seen {
        Uint8Step(|seen|);
        seen := seen + {setters[t].axis};
        dim := Uint8(dim + 1);
      }
      remaining := remaining - {t};
    }
    assert seen == SweptAxes(setters);
  }

  /** The unit of each getter's port. */
  function UnitsOf(portOf: map<Target, InstrumentPort>): map<Target, int> {
    map t | t in portOf :: portOf[t].unit
  }

  function PrimitiveInputOf(getters: seq<InstrumentPort>, axes: Waveform, fixed: FixedAxes, ports: seq<ConnectedPort>)
    : Result<PrimitiveInput, PlanError>
  {
    var g :- GettersUpTo(getters, ports, |getters|);
    var s :- SettersUpTo(axes, fixed, ports, |axes|);
    Ok(PrimitiveInput(s, g.0, UnitsOf(g.1), Uint8(|SweptAxes(s)|)))
  }

  method BuildPrimitiveInput(getters: seq<InstrumentPort>, axes: Waveform, fixed: FixedAxes, ports: seq<ConnectedPort>)
    returns (r: Result<PrimitiveInput, PlanError>)
    ensures r == PrimitiveInputOf(getters, axes, fixed, ports)
  {
    var g := BuildGetters(getters, ports);
    if g.Err? {
      return Err(g.error);
    }
    var s := BuildSetters(axes, fixed, ports);
    if s.Err? {
      return Err(s.error);
    }
    var dim := CountSweptAxes(s.value);
    r := Ok(PrimitiveInput(s.value, g.value.0, UnitsOf(g.value.1), dim));
  }

  /** Axis numbers and dimensions are uint8s. */
  predicate BoundedInput(input: PrimitiveInput) {
    0 <= input.choice < 256 && forall t | t in input.setters :: 0 <= input.setters[t].axis < 256
  }

  lemma {:induction false} AxisSettersBounded(axis: Axis, ports: seq<ConnectedPort>, value: Option<real>, p: int,
                                              k: nat)
    requires k <= |axis.coupled| && AxisSettersUpTo(axis, ports, value, p, k).Ok? && 0 <= p < 256
    ensures
      var m := AxisSettersUpTo(axis, ports, value, p, k).value;
      forall t :: t in m ==> 0 <= m[t].axis < 256
  {
    if k > 0 {
      AxisSettersBounded(axis, ports, value, p, k - 1);
    }
  }

  lemma {:induction false} SettersBounded(axes: Waveform, fixed: FixedAxes, ports: seq<ConnectedPort>, i: nat)
    requires i <= |axes| && SettersUpTo(axes, fixed, ports, i).Ok?
    ensures
      var m := SettersUpTo(axes, fixed, ports, i).value;
      forall t :: t in m ==> 0 <= m[t].axis < 256
  {
    if i > 0 {
      SettersBounded(axes, fixed, ports, i - 1);
      AxisSettersBounded(axes[i - 1], ports, FixedValue(fixed, i - 1), Uint8(SweptBefore(fixed, i - 1)),
                         |axes[i - 1].coupled|);
    }
  }

  // ------------------------------------------------------------------- planning

  /** The lowest global axis from `i` on that is not fixed. */
  function FirstSwept(axes: Waveform, fixed: FixedAxes, i: nat): (r: Option<nat>)
    requires i <= |axes|
    ensures r.Some? ==> i <= r.value < |axes| && FixedValue(fixed, r.value).None?
    decreases |axes| - i
  {
    if i == |axes| then None
    else if FixedValue(fixed, i).None? then Some(i)
    else FirstSwept(axes, fixed, i + 1)
  }

  lemma {:induction false} FirstSweptIsFirst(axes: Waveform, fixed: FixedAxes, i: nat)
    requires i <= |axes|
    ensures
      var r := FirstSwept(axes, fixed, i);
      forall j | i <= j < if r.Some? then r.value else |axes| :: FixedValue(fixed, j).Some?
    decreases |axes| - i
  {
    if i < |axes| && FixedValue(fixed, i).Some? {
      FirstSweptIsFirst(axes, fixed, i + 1);
    }
  }

  /** The axes still to be fixed: the measure of the recursion. */
  ghost function StillSwept(axes: Waveform, fixed: FixedAxes): set<int> {
    set i | 0 <= i < |axes| && FixedValue(fixed, i).None?
  }

  function ShapeOf(axes: Waveform): seq<nat> {
    seq(|axes|, i requires 0 <= i < |axes| => |axes[i].points|)
  }

  lemma FixingShrinks(axes: Waveform, fixed: FixedAxes, i: nat, value: real)
    requires i < |axes| && FixedValue(fixed, i).None?
    ensures StillSwept(axes, fixed[Uint8(i) := value]) < StillSwept(axes, fixed)
  {
    assert i in StillSwept(axes, fixed) && i !in StillSwept(axes, fixed[Uint8(i) := value]);
  }

  /** The recursive decomposition: a native leaf when the dimensionality is supported,
      and otherwise one child for every point of the lowest axis that is not fixed. */
  function BuildPlanSpec(getters: seq<InstrumentPort>, axes: Waveform, ports: seq<ConnectedPort>, fixed: FixedAxes,
                         dims: seq<int>)
    : Result<Plan, PlanError>
    decreases StillSwept(axes, fixed), 1, 0
  {
    var input :- PrimitiveInputOf(getters, axes, fixed, ports);
    if input.choice in dims then Ok(Native(input, fixed))
    else
      match FirstSwept(axes, fixed, 0)
      case None => Err(CannotDecompose)
      case Some(axis) =>
        var children :- ChildrenUpTo(getters, axes, ports, fixed, dims, axis, |axes[axis].points|);
        Ok(Nested(children, ShapeOf(axes)))
  }

  /** The plans for the first `k` points of the axis that is being fixed. */
  function ChildrenUpTo(getters: seq<InstrumentPort>, axes: Waveform, ports: seq<ConnectedPort>, fixed: FixedAxes,
                        dims: seq<int>, axis: nat, k: nat)
    : Result<seq<Plan>, PlanError>
    requires axis < |axes| && FixedValue(fixed, axis).None?
    requires k <= |axes[axis].points|
    decreases StillSwept(axes, fixed), 0, k
  {
    if k == 0 then Ok([])
    else
      FixingShrinks(axes, fixed, axis, axes[axis].points[k - 1]);
      var prev :- ChildrenUpTo(getters, axes, ports, fixed, dims, axis, k - 1);
      var child :- BuildPlanSpec(getters, axes, ports, fixed[Uint8(axis) := axes[axis].points[k - 1]], dims);
      Ok(prev + [child])
  }

  lemma {:induction false} ChildrenErrorStays(getters: seq<InstrumentPort>, axes: Waveform, ports: seq<ConnectedPort>,
                                              fixed: FixedAxes, dims: seq<int>, axis: nat, k: nat, n: nat)
    requires axis < |axes| && FixedValue(fixed, axis).None?
    requires k <= n <= |axes[axis].points|
    requires ChildrenUpTo(getters, axes, ports, fixed, dims, axis, k).Err?
    ensures ChildrenUpTo(getters, axes, ports, fixed, dims, axis, n)
         == ChildrenUpTo(getters, axes, ports, fixed, dims, axis, k)
  {
    if k < n {
      ChildrenErrorStays(getters, axes, ports, fixed, dims, axis, k, n - 1);
    }
  }

  method BuildPlanFrom(getters: seq<InstrumentPort>, axes: Waveform, ports: seq<ConnectedPort>, fixed: FixedAxes,
                       dims: seq<int>)
    returns (r: Result<Plan, PlanError>)
    ensures r == BuildPlanSpec(getters, axes, ports, fixed, dims)
    decreases StillSwept(axes, fixed)
  {
    var built := BuildPrimitiveInput(getters, axes, fixed, ports);
    if built.Err? {
      return Err(built.error);
    }
    var input := built.value;
    if input.choice in dims {
      return Ok(Native(input, fixed));
    }
    var reduce := FirstSwept(axes, fixed, 0);
    if reduce.None? {
      return Err(CannotDecompose);
    }
    var axis := reduce.value;
    var values := axes[axis].points;
    var children: seq<Plan> := [];
    for k := 0 to |values|
      invariant ChildrenUpTo(getters, axes, ports, fixed, dims, axis, k) == Ok(children)
    {
      FixingShrinks(axes, fixed, axis, values[k]);
      var child := BuildPlanFrom(getters, axes, ports, fixed[Uint8(axis) := values[k]], dims);
      if child.Err? {
        ChildrenErrorStays(getters, axes, ports, fixed, dims, axis, k + 1, |values|);
        return child;
      }
      children := children + [child.value];
    }
    r := Ok(Nested(children, ShapeOf(axes)));
  }

  /** Planning a request, which must carry at least one waveform. */
  method BuildPlan(req: Request, ports: seq<ConnectedPort>, dims: seq<int>) returns (r: Result<Plan, PlanError>)
    ensures r == if req.waveforms == [] then Err(NoWaveforms)
                 else BuildPlanSpec(req.getters, req.waveforms[0], ports, map[], dims)
  {
    if req.waveforms == [] {
      return Err(NoWaveforms);
    }
    r := BuildPlanFrom(req.getters, req.waveforms[0], ports, map[], dims);
  }
}
