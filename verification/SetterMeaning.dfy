/**
 Which instruction each target ends up with: the one of the last port that names it, with
 that port's own bounds and direction.
 */
module SetterMeaning {
  import opened Wrappers
  import opened Ports
  import opened Planner
  import opened PlanStructure

  // -------------------------------------------------------------------- setters

  /** Port `j` of the axis names `t`, and none of its later ports up to `k` does. */
  predicate LastOnAxis(axis: Axis, ports: seq<ConnectedPort>, j: nat, k: nat, t: Target)
    requires j < k <= |axis.coupled|
  {
    && ConvertToTarget(axis.coupled[j].port, ports) == Ok(t)
    && forall l | j < l < k :: ConvertToTarget(axis.coupled[l].port, ports) != Ok(t)
  }

  lemma {:induction false} AxisDrives(axis: Axis, ports: seq<ConnectedPort>, value: Option<real>, p: int, j: nat,
                                      k: nat, t: Target)
    requires j < k <= |axis.coupled| && AxisSettersUpTo(axis, ports, value, p, k).Ok?
    requires LastOnAxis(axis, ports, j, k, t)
    ensures PortInput(axis, axis.coupled[j], value, p).Ok?
    ensures
      var m := AxisSettersUpTo(axis, ports, value, p, k).value;
      t in m && m[t] == PortInput(axis, axis.coupled[j], value, p).value
  {
    if j < k - 1 {
      AxisDrives(axis, ports, value, p, j, k - 1, t);
    }
  }

  /** The primitive axis that stands for global axis `a`. */
  function PrimitiveAxis(fixed: FixedAxes, a: nat): int {
    Uint8(SweptBefore(fixed, a))
  }

  lemma SettersLast(axes: Waveform, fixed: FixedAxes, ports: seq<ConnectedPort>, i: nat)
    requires i < |axes| && SettersUpTo(axes, fixed, ports, i + 1).Ok?
    ensures SettersUpTo(axes, fixed, ports, i).Ok?
    ensures AxisSetters(axes[i], ports, FixedValue(fixed, i), PrimitiveAxis(fixed, i)).Ok?
    ensures SettersUpTo(axes, fixed, ports, i + 1).value
         == SettersUpTo(axes, fixed, ports, i).value
            + AxisSetters(axes[i], ports, FixedValue(fixed, i), PrimitiveAxis(fixed, i)).value
  {
  }

  /** A target is driven by the last port that names it: held at its axis's value if that is
      fixed, and otherwise swept over that port's own domain and in its own direction. */
  lemma {:induction false} PortDrivesTarget(axes: Waveform, fixed: FixedAxes, ports: seq<ConnectedPort>, a: nat, j: nat,
                                            i: nat, t: Target)
    requires a < i <= |axes| && j < |axes[a].coupled| && SettersUpTo(axes, fixed, ports, i).Ok?
    requires LastOnAxis(axes[a], ports, j, |axes[a].coupled|, t)
    requires forall b | a < b < i :: !OnAxis(axes[b], ports, t)
    ensures PortInput(axes[a], axes[a].coupled[j], FixedValue(fixed, a), PrimitiveAxis(fixed, a)).Ok?
    ensures
      var s := SettersUpTo(axes, fixed, ports, i).value;
      t in s && s[t] == PortInput(axes[a], axes[a].coupled[j], FixedValue(fixed, a), PrimitiveAxis(fixed, a)).value
  {
    var last := i - 1;
    SettersLast(axes, fixed, ports, last);
    if a == last {
      AxisDrives(axes[a], ports, FixedValue(fixed, a), PrimitiveAxis(fixed, a), j, |axes[a].coupled|, t);
    } else {
      PortDrivesTarget(axes, fixed, ports, a, j, last, t);
      AxisSettersTargets(axes[last], ports, FixedValue(fixed, last), PrimitiveAxis(fixed, last), |axes[last].coupled|);
      assert t !in AxisSetters(axes[last], ports, FixedValue(fixed, last), PrimitiveAxis(fixed, last)).value;
    }
  }

  /** And no target is driven that no port names. */
  lemma {:induction false} OnlyNamedTargets(axes: Waveform, fixed: FixedAxes, ports: seq<ConnectedPort>, i: nat,
                                            t: Target)
    returns (a: nat)
    requires i <= |axes| && SettersUpTo(axes, fixed, ports, i).Ok? && t in SettersUpTo(axes, fixed, ports, i).value
    ensures a < i && OnAxis(axes[a], ports, t)
  {
    var last := i - 1;
    SettersLast(axes, fixed, ports, last);
    if t in AxisSetters(axes[last], ports, FixedValue(fixed, last), PrimitiveAxis(fixed, last)).value {
      AxisSettersTargets(axes[last], ports, FixedValue(fixed, last), PrimitiveAxis(fixed, last), |axes[last].coupled|);
      a := last;
    } else {
      a := OnlyNamedTargets(axes, fixed, ports, last, t);
    }
  }

  // ------------------------------------------------------------------ directions

  /** A stepping that starts at the start and ends at the stop. */
  ghost predicate MeetsEnds(step: (real, real, int, int) -> real) {
    forall start, stop, num | num > 1 ::
      step(start, stop, num, 0) == start && step(start, stop, num, num - 1) == stop
  }

  /** An increasing port is swept from the lesser bound of its domain to the greater one, a
      decreasing port the other way round, over as many points as its axis has. */
  lemma SweepDirection(axis: Axis, l: Labelled, p: int, step: (real, real, int, int) -> real)
    requires MeetsEnds(step) && |axis.points| > 1 && l.port.pseudoName.name in axis.increasing
    ensures
      var r := PortInput(axis, l, None, p);
      var up, n := axis.increasing[l.port.pseudoName.name], |axis.points|;
      && r.Ok? && r.value.stop.Some? && r.value.num == Some(n)
      && step(r.value.start, r.value.stop.value, n, 0) == (if up then l.domain.lesser else l.domain.greater)
      && step(r.value.start, r.value.stop.value, n, n - 1) == (if up then l.domain.greater else l.domain.lesser)
  {
    var s := InputFromDomain(l.domain, axis.increasing[l.port.pseudoName.name], |axis.points|, p);
    assert step(s.start, s.stop.value, |axis.points|, 0) == s.start;
    assert step(s.start, s.stop.value, |axis.points|, |axis.points| - 1) == s.stop.value;
  }

  // ------------------------------------------------------------- dimensionality

  /** The last port of an axis keeps its target swept on the axis's number. */
  lemma AxisStaysSwept(axes: Waveform, ports: seq<ConnectedPort>, a: nat)
    requires a < |axes| && SettersUpTo(axes, map[], ports, |axes|).Ok? && AxesKeepTargets(axes, ports)
    ensures Uint8(a) in SweptAxes(SettersUpTo(axes, map[], ports, |axes|).value)
  {
    var s, j := SettersUpTo(axes, map[], ports, |axes|).value, |axes[a].coupled| - 1;
    PortResolves(axes, ports, a, j, |axes|);
    var t := ConvertToTarget(axes[a].coupled[j].port, ports).value;
    assert OnAxis(axes[a], ports, t);
    PortDrivesTarget(axes, map[], ports, a, j, |axes|, t);
    SweptBeforeNone(a);
    assert s[t].num.Some? && s[t].axis == Uint8(a);
  }

  /** When the setters can be built, every port resolves. */
  lemma {:induction false} PortResolves(axes: Waveform, ports: seq<ConnectedPort>, a: nat, j: nat, i: nat)
    requires a < i <= |axes| && j < |axes[a].coupled| && SettersUpTo(axes, map[], ports, i).Ok?
    ensures ConvertToTarget(axes[a].coupled[j].port, ports).Ok?
  {
    SettersLast(axes, map[], ports, i - 1);
    if a == i - 1 {
      AxisPortResolves(axes[a], ports, None, PrimitiveAxis(map[], a), j, |axes[a].coupled|);
    } else {
      PortResolves(axes, ports, a, j, i - 1);
    }
  }

  lemma {:induction false} AxisPortResolves(axis: Axis, ports: seq<ConnectedPort>, value: Option<real>, p: int, j: nat,
                                            k: nat)
    requires j < k <= |axis.coupled| && AxisSettersUpTo(axis, ports, value, p, k).Ok?
    ensures ConvertToTarget(axis.coupled[j].port, ports).Ok?
  {
    if j < k - 1 {
      AxisPortResolves(axis, ports, value, p, j, k - 1);
    }
  }

  /** The dimensionality of a sweep whose axes keep their targets is its number of axes exactly
      when there are at most 255 of them; any more use up all 256 values of the axis counter,
      and count as none. */
  lemma DimensionIsExact(getters: seq<InstrumentPort>, axes: Waveform, ports: seq<ConnectedPort>)
    requires GettersUpTo(getters, ports, |getters|).Ok?
    requires SettersUpTo(axes, map[], ports, |axes|).Ok? && AxesKeepTargets(axes, ports)
    ensures
      var r := PrimitiveInputOf(getters, axes, map[], ports);
      && r.Ok?
      && (r.value.choice == |axes| <==> |axes| <= 255)
      && (|axes| > 255 ==> r.value.choice == 0 && SweptAxes(r.value.setters) == AxisNumbers(256))
  {
    if |axes| <= 255 {
      FewAxesCount(getters, axes, ports);
    } else {
      ManyAxesWrap(getters, axes, ports, 256);
    }
  }

  lemma FewAxesCount(getters: seq<InstrumentPort>, axes: Waveform, ports: seq<ConnectedPort>)
    requires GettersUpTo(getters, ports, |getters|).Ok? && |axes| <= 255
    requires SettersUpTo(axes, map[], ports, |axes|).Ok? && AxesKeepTargets(axes, ports)
    ensures PrimitiveInputOf(getters, axes, map[], ports).Ok?
    ensures PrimitiveInputOf(getters, axes, map[], ports).value.choice == |axes|
  {
    DisjointTargetsArePlannable(getters, axes, ports);
    PrimitiveInputAt(getters, axes, ports, []);
    assert FixedAt(axes, []) == map[];
  }

  lemma ManyAxesWrap(getters: seq<InstrumentPort>, axes: Waveform, ports: seq<ConnectedPort>, width: nat)
    requires GettersUpTo(getters, ports, |getters|).Ok? && width == 256 <= |axes|
    requires SettersUpTo(axes, map[], ports, |axes|).Ok? && AxesKeepTargets(axes, ports)
    ensures
      var r := PrimitiveInputOf(getters, axes, map[], ports);
      r.Ok? && r.value.choice == 0 && SweptAxes(r.value.setters) == AxisNumbers(width)
  {
    var s, g := SettersUpTo(axes, map[], ports, |axes|).value, GettersUpTo(getters, ports, |getters|).value;
    AllNumbersUsed(axes, ports, width);
    AxisNumbersSize(width);
    PrimitiveInputFrom(getters, axes, map[], ports, PrimitiveInput(s, g.0, UnitsOf(g.1), 0));
  }

  lemma AllNumbersUsed(axes: Waveform, ports: seq<ConnectedPort>, width: nat)
    requires width == 256 <= |axes| && SettersUpTo(axes, map[], ports, |axes|).Ok? && AxesKeepTargets(axes, ports)
    ensures SweptAxes(SettersUpTo(axes, map[], ports, |axes|).value) == AxisNumbers(width)
  {
    var s := SettersUpTo(axes, map[], ports, |axes|).value;
    SettersBounded(axes, map[], ports, |axes|);
    forall a: int
      ensures a in SweptAxes(s) <==> a in AxisNumbers(width)
    {
      InAxisNumbers(width, a);
      if 0 <= a < width {
        AxisStaysSwept(axes, ports, a);
      }
    }
  }

  // ------------------------------------------------------------------- a witness

  /** One port per axis, told apart by their names. */
  function PortNumber(a: nat): InstrumentPort {
    InstrumentPort(seq(a, i => 'x'), "dac", 0, "", 0, NO_CONNECTION, 0, 0, 0, 0)
  }

  function ConnectedNumber(a: nat): ConnectedPort {
    ConnectedPort(PortEntry("dac", "analog", a, 0, 0, 0, 0, 0, 0, ""), seq(a, i => 'x'), "", NO_CONNECTION)
  }

  function WidePorts(n: nat): seq<ConnectedPort> {
    seq(n, a requires 0 <= a < n => ConnectedNumber(a))
  }

  /** A sweep of `n` axes with two points each, every axis moving a port of its own. */
  function WideSweep(n: nat): Waveform {
    seq(n, a requires 0 <= a < n => Axis([Labelled(PortNumber(a), Domain(0.0, 1.0))], map["" := true], [0.0, 1.0]))
  }

  lemma NumbersResolve(n: nat, a: nat)
    requires a < n
    ensures ConvertToTarget(PortNumber(a), WidePorts(n)) == Ok(Target("dac", "analog", a))
  {
    var port, ports := PortNumber(a), WidePorts(n);
    assert Answers(ports[a], port);
    ResolvesFirstAnswer(port, ports);
    forall i | 0 <= i < n && Answers(ports[i], port)
      ensures i == a
    {
      assert |ports[i].portName| == i;
    }
  }

  lemma {:induction false} WideSettersBuild(n: nat, i: nat)
    requires i <= n
    ensures SettersUpTo(WideSweep(n), map[], WidePorts(n), i).Ok?
  {
    if i > 0 {
      WideSettersBuild(n, i - 1);
      NumbersResolve(n, i - 1);
      var axis, p := WideSweep(n)[i - 1], PrimitiveAxis(map[], i - 1);
      assert AxisSettersUpTo(axis, WidePorts(n), None, p, 0) == Ok(map[]);
      assert AxisSettersUpTo(axis, WidePorts(n), None, p, 1).Ok?;
    }
  }

  lemma WideAxesKeepTargets(n: nat)
    ensures AxesKeepTargets(WideSweep(n), WidePorts(n))
  {
    forall a, t | 0 <= a < n && OnAxis(WideSweep(n)[a], WidePorts(n), t)
      ensures t == Target("dac", "analog", a)
    {
      NumbersResolve(n, a);
    }
  }

  /** The bound is met by real requests: where single points are supported, a sweep of 256
      axes is planned as one point measurement that sweeps all of them. */
  lemma AxisCounterWraps()
    ensures
      var axes, ports := WideSweep(256), WidePorts(256);
      var plan := BuildPlanSpec([], axes, ports, map[], [0]);
      && plan.Ok? && plan.value.Native? && plan.value.input.choice == 0
      && SweptAxes(plan.value.input.setters) == AxisNumbers(256)
  {
    WideSweepPlans(256);
  }

  lemma WideSweepPlans(n: nat)
    requires n == 256
    ensures
      var plan := BuildPlanSpec([], WideSweep(n), WidePorts(n), map[], [0]);
      && plan.Ok? && plan.value.Native? && plan.value.input.choice == 0
      && SweptAxes(plan.value.input.setters) == AxisNumbers(n)
  {
    WideSettersBuild(n, n);
    WideAxesKeepTargets(n);
    DimensionIsExact([], WideSweep(n), WidePorts(n));
    var input := PrimitiveInputOf([], WideSweep(n), map[], WidePorts(n)).value;
    assert input.choice in [0];
  }
}
