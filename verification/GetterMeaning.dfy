/**
 What is read: the endpoint and the unit of every getter, in each leaf of a plan, as the
 request's own ports give them.
 */
module GetterMeaning {
  import opened Wrappers
  import opened Ports
  import opened Planner
  import opened PlanExecution

  /** The target is the endpoint of a listed port that the request describes, with its gate if the
      request names one. */
  ghost predicate EndpointOf(port: InstrumentPort, ports: seq<ConnectedPort>, t: Target) {
    exists p | p in ports ::
      && Describes(port, p.portName, p.entry) && (port.pseudoName != NO_CONNECTION ==> p.handle == port.pseudoName)
      && t.instrument == p.entry.instrumentName && t.group == p.entry.channelGroup && t.channel == p.entry.channel
  }

  lemma TargetIsEndpoint(port: InstrumentPort, ports: seq<ConnectedPort>, t: Target)
    requires ConvertToTarget(port, ports) == Ok(t)
    ensures EndpointOf(port, ports, t)
  {
    ResolvedAgrees(port, ports);
  }

  /** No getter from `i + 1` to `k` names the target that getter `i` names. */
  predicate LastToName(targets: seq<Target>, i: nat, k: nat)
    requires i < k <= |targets|
  {
    forall j | i < j < k :: targets[j] != targets[i]
  }

  lemma LastToNameOfInit(init: seq<Target>, t: Target, i: nat)
    requires i < |init| && LastToName(init + [t], i, |init| + 1)
    ensures init[i] != t && LastToName(init, i, |init|)
  {
    var targets := init + [t];
    assert targets[|init|] != targets[i];
    forall j | i < j < |init|
      ensures init[j] != init[i]
    {
      assert targets[j] != targets[i];
    }
  }

  /** Each target is filed under the last port that names it. */
  ghost predicate FiledUnderLast(getters: seq<InstrumentPort>, targets: seq<Target>,
                                 portOf: map<Target, InstrumentPort>)
    requires |targets| <= |getters|
  {
    && (forall t :: t in portOf <==> t in targets)
    && forall i | 0 <= i < |targets| && LastToName(targets, i, |targets|) ::
         targets[i] in portOf && portOf[targets[i]] == getters[i]
  }

  lemma FiledUnderLastSnoc(getters: seq<InstrumentPort>, init: seq<Target>, portOf: map<Target, InstrumentPort>,
                           t: Target)
    requires |init| < |getters| && FiledUnderLast(getters, init, portOf)
    ensures FiledUnderLast(getters, init + [t], portOf[t := getters[|init|]])
  {
    var targets, next := init + [t], portOf[t := getters[|init|]];
    forall i | 0 <= i < |targets| && LastToName(targets, i, |targets|)
      ensures targets[i] in next && next[targets[i]] == getters[i]
    {
      if i < |init| {
        LastToNameOfInit(init, t, i);
      }
    }
  }

  /** Getter by getter in order; a target is filed under the last port that names it. */
  lemma {:induction false} GettersInOrder(getters: seq<InstrumentPort>, ports: seq<ConnectedPort>, k: nat)
    requires k <= |getters| && GettersUpTo(getters, ports, k).Ok?
    ensures
      var (targets, portOf) := GettersUpTo(getters, ports, k).value;
      && |targets| == k
      && (forall i | 0 <= i < k :: ConvertToTarget(getters[i], ports) == Ok(targets[i]))
      && FiledUnderLast(getters, targets, portOf)
  {
    if k > 0 {
      GettersInOrder(getters, ports, k - 1);
      var (init, before) := GettersUpTo(getters, ports, k - 1).value;
      FiledUnderLastSnoc(getters, init, before, ConvertToTarget(getters[k - 1], ports).value);
    }
  }

  // ----------------------------------------------------------------------- units

  /** The input reads each getter's endpoint, in order, and each target in the unit of the last
      port that names it. */
  ghost predicate ReadsPorts(getters: seq<InstrumentPort>, ports: seq<ConnectedPort>, input: PrimitiveInput) {
    && |input.getters| == |getters|
    && (forall i | 0 <= i < |getters| :: EndpointOf(getters[i], ports, input.getters[i]))
    && (forall t :: t in input.getterUnits <==> t in input.getters)
    && forall i | 0 <= i < |getters| && LastToName(input.getters, i, |getters|) ::
         input.getters[i] in input.getterUnits && input.getterUnits[input.getters[i]] == getters[i].unit
  }

  lemma InputReadsPorts(getters: seq<InstrumentPort>, axes: Waveform, fixed: FixedAxes, ports: seq<ConnectedPort>)
    requires PrimitiveInputOf(getters, axes, fixed, ports).Ok?
    ensures ReadsPorts(getters, ports, PrimitiveInputOf(getters, axes, fixed, ports).value)
  {
    GettersInOrder(getters, ports, |getters|);
    var input := PrimitiveInputOf(getters, axes, fixed, ports).value;
    forall i | 0 <= i < |getters|
      ensures EndpointOf(getters[i], ports, input.getters[i])
    {
      TargetIsEndpoint(getters[i], ports, input.getters[i]);
    }
  }

  ghost predicate AllReadPorts(getters: seq<InstrumentPort>, ports: seq<ConnectedPort>, inputs: seq<PrimitiveInput>) {
    forall i | 0 <= i < |inputs| :: ReadsPorts(getters, ports, inputs[i])
  }

  /** In every leaf of every plan. */
  lemma {:induction false} PlanReadsPorts(getters: seq<InstrumentPort>, axes: Waveform, ports: seq<ConnectedPort>,
                                          fixed: FixedAxes, dims: seq<int>)
    requires BuildPlanSpec(getters, axes, ports, fixed, dims).Ok?
    ensures AllReadPorts(getters, ports, InputsOf(BuildPlanSpec(getters, axes, ports, fixed, dims).value))
    decreases StillSwept(axes, fixed), 1, 0
  {
    InputReadsPorts(getters, axes, fixed, ports);
    var input := PrimitiveInputOf(getters, axes, fixed, ports).value;
    if input.choice !in dims {
      var axis := FirstSwept(axes, fixed, 0).value;
      ChildrenReadPorts(getters, axes, ports, fixed, dims, axis, |axes[axis].points|);
    }
  }

  lemma {:induction false} ChildrenReadPorts(getters: seq<InstrumentPort>, axes: Waveform, ports: seq<ConnectedPort>,
                                             fixed: FixedAxes, dims: seq<int>, axis: nat, k: nat)
    requires axis < |axes| && FixedValue(fixed, axis).None? && k <= |axes[axis].points|
    requires ChildrenUpTo(getters, axes, ports, fixed, dims, axis, k).Ok?
    ensures AllReadPorts(getters, ports, InputsOfAll(ChildrenUpTo(getters, axes, ports, fixed, dims, axis, k).value))
    decreases StillSwept(axes, fixed), 0, k
  {
    if k > 0 {
      var value := axes[axis].points[k - 1];
      FixingShrinks(axes, fixed, axis, value);
      ChildrenReadPorts(getters, axes, ports, fixed, dims, axis, k - 1);
      PlanReadsPorts(getters, axes, ports, fixed[Uint8(axis) := value], dims);
      var prev := ChildrenUpTo(getters, axes, ports, fixed, dims, axis, k - 1).value;
      var child := BuildPlanSpec(getters, axes, ports, fixed[Uint8(axis) := value], dims).value;
      InputsOfAllSnoc(prev, child);
    }
  }
}
