/**
 What the planner builds: which plans exist, how many leaves they have, in which order
 the leaves stand and what each leaf holds fixed and sweeps.
 */
module PlanStructure {
  import opened Wrappers
  import opened Ports
  import opened RowMajor
  import opened Planner

  // ------------------------------------------------- what one axis contributes

  function Held(m: Setters, v: real): Setters {
    map t | t in m :: Input(0, v, None, None)
  }

  function Renumbered(m: Setters, p: int): Setters {
    map t | t in m :: m[t].(axis := p)
  }

  ghost predicate FullSweeps(axis: Axis, m: Setters, p: int) {
    forall t :: t in m ==> m[t].axis == p && m[t].num == Some(|axis.points|) && m[t].stop.Some?
  }

  /** Fixing an axis replaces each of its sweeps by the fixed value; renumbering it
      changes only the axis number. */
  lemma {:induction false} AxisSettersByMode(axis: Axis, ports: seq<ConnectedPort>, p: int, p': int, v: real, k: nat)
    requires k <= |axis.coupled|
    requires AxisSettersUpTo(axis, ports, None, p, k).Ok?
    ensures
      var m := AxisSettersUpTo(axis, ports, None, p, k).value;
      && AxisSettersUpTo(axis, ports, Some(v), p', k) == Ok(Held(m, v))
      && AxisSettersUpTo(axis, ports, None, p', k) == Ok(Renumbered(m, p'))
      && FullSweeps(axis, m, p)
  {
    var m := AxisSettersUpTo(axis, ports, None, p, k).value;
    if k == 0 {
      assert Held(m, v) == map[] && Renumbered(m, p') == map[];
    } else {
      AxisSettersByMode(axis, ports, p, p', v, k - 1);
      var prev := AxisSettersUpTo(axis, ports, None, p, k - 1).value;
      var t := ConvertToTarget(axis.coupled[k - 1].port, ports).value;
      var input := PortInput(axis, axis.coupled[k - 1], None, p).value;
      assert m == prev[t := input];
      assert Held(m, v) == Held(prev, v)[t := Input(0, v, None, None)];
      assert Renumbered(m, p') == Renumbered(prev, p')[t := input.(axis := p')];
    }
  }

  // --------------------------------------------------------- fixing a prefix

  /** The point at which the axes that `pre` reaches are held. */
  function Coordinate(axes: Waveform, pre: seq<nat>, a: int): real {
    if 0 <= a < |pre| && a < |axes| && pre[a] < |axes[a].points| then axes[a].points[pre[a]] else 0.0
  }

  /** The values held when the axes before `|pre|` stand at the points `pre`. */
  function FixedAt(axes: Waveform, pre: seq<nat>): FixedAxes {
    map a | 0 <= a < |pre| :: Coordinate(axes, pre, a)
  }

  /** One setter of the whole sweep, once the axes before `|pre|` are held at `pre` and
      the others are numbered from zero. */
  function InputAt(axes: Waveform, pre: seq<nat>, input: Input): Input {
    if input.axis < |pre| then Input(0, Coordinate(axes, pre, input.axis), None, None)
    else input.(axis := input.axis - |pre|)
  }

  function SettersAt(axes: Waveform, root: Setters, pre: seq<nat>): Setters {
    map t | t in root :: InputAt(axes, pre, root[t])
  }

  lemma FixedAtValue(axes: Waveform, pre: seq<nat>, i: nat)
    requires |pre| <= |axes| <= 255 && i < |axes|
    ensures FixedValue(FixedAt(axes, pre), i) == if i < |pre| then Some(Coordinate(axes, pre, i)) else None
  {
  }

  lemma {:induction false} SweptBeforeAt(axes: Waveform, pre: seq<nat>, i: nat)
    requires |pre| <= |axes| <= 255 && i <= |axes|
    ensures SweptBefore(FixedAt(axes, pre), i) == if i <= |pre| then 0 else i - |pre|
  {
    if i > 0 {
      SweptBeforeAt(axes, pre, i - 1);
      FixedAtValue(axes, pre, i - 1);
    }
  }

  lemma {:induction false} SweptBeforeNone(i: nat)
    ensures SweptBefore(map[], i) == i
  {
    if i > 0 {
      SweptBeforeNone(i - 1);
    }
  }

  /** In the setters of the first `i` axes of the whole sweep, every setter is a full sweep
      of the axis it is numbered by. */
  ghost predicate Sweeps(axes: Waveform, s: Setters, i: nat)
    requires i <= |axes|
  {
    forall t :: t in s ==>
      0 <= s[t].axis < i && s[t].num == Some(|axes[s[t].axis].points|) && s[t].stop.Some?
  }

  lemma SweepsOverride(axes: Waveform, s: Setters, m: Setters, a: nat)
    requires a < |axes| && Sweeps(axes, s, a) && FullSweeps(axes[a], m, a)
    ensures Sweeps(axes, s + m, a + 1)
  {
  }

  /** Holding a prefix distributes over the axis-by-axis override. */
  lemma SettersAtOverride(axes: Waveform, s: Setters, m: Setters, pre: seq<nat>, a: nat)
    requires a < |axes|
    requires Sweeps(axes, s, a) && FullSweeps(axes[a], m, a) && Sweeps(axes, s + m, a + 1)
    ensures SettersAt(axes, s + m, pre)
         == SettersAt(axes, s, pre)
            + if a < |pre| then Held(m, Coordinate(axes, pre, a)) else Renumbered(m, a - |pre|)
  {
    var lhs := SettersAt(axes, s + m, pre);
    var over := if a < |pre| then Held(m, Coordinate(axes, pre, a)) else Renumbered(m, a - |pre|);
    var rhs := SettersAt(axes, s, pre) + over;
    assert lhs.Keys == rhs.Keys;
    forall t | t in lhs
      ensures lhs[t] == rhs[t]
    {
      if t in m {
        assert over[t] == InputAt(axes, pre, m[t]);
      }
    }
  }

  /** One axis of the two builds, with the axis number that each of them gives it. */
  lemma AxisAfterFixing(axes: Waveform, ports: seq<ConnectedPort>, pre: seq<nat>, a: nat)
    requires |pre| <= |axes| <= 255 && a < |axes|
    requires AxisSetters(axes[a], ports, None, a).Ok?
    ensures FullSweeps(axes[a], AxisSetters(axes[a], ports, None, a).value, a)
    ensures AxisSetters(axes[a], ports, FixedValue(FixedAt(axes, pre), a), Uint8(SweptBefore(FixedAt(axes, pre), a)))
         == var m := AxisSetters(axes[a], ports, None, a).value;
            Ok(if a < |pre| then Held(m, Coordinate(axes, pre, a)) else Renumbered(m, a - |pre|))
  {
    SweptBeforeAt(axes, pre, a);
    FixedAtValue(axes, pre, a);
    AxisSettersByMode(axes[a], ports, a, if a < |pre| then 0 else a - |pre|,
                      Coordinate(axes, pre, a), |axes[a].coupled|);
  }

  lemma SettersStep(axes: Waveform, fixed: FixedAxes, ports: seq<ConnectedPort>, a: nat, s: Setters, m: Setters)
    requires a < |axes|
    requires SettersUpTo(axes, fixed, ports, a) == Ok(s)
    requires AxisSetters(axes[a], ports, FixedValue(fixed, a), Uint8(SweptBefore(fixed, a))) == Ok(m)
    ensures SettersUpTo(axes, fixed, ports, a + 1) == Ok(s + m)
  {
  }

  /** Building the whole sweep goes through the same axes, each under its own number. */
  lemma WholeSweepStep(axes: Waveform, ports: seq<ConnectedPort>, a: nat)
    requires a < |axes| <= 255
    requires SettersUpTo(axes, map[], ports, a + 1).Ok?
    ensures SettersUpTo(axes, map[], ports, a).Ok? && AxisSetters(axes[a], ports, None, a).Ok?
    ensures SettersUpTo(axes, map[], ports, a + 1)
         == Ok(SettersUpTo(axes, map[], ports, a).value + AxisSetters(axes[a], ports, None, a).value)
  {
    SweptBeforeNone(a);
  }

  /** Setter building after fixing a prefix is setter building for the whole sweep,
      followed by holding that prefix. */
  lemma {:induction false} SettersAfterFixing(axes: Waveform, ports: seq<ConnectedPort>, pre: seq<nat>, i: nat)
    requires |pre| <= |axes| <= 255 && i <= |axes|
    requires SettersUpTo(axes, map[], ports, i).Ok?
    ensures Sweeps(axes, SettersUpTo(axes, map[], ports, i).value, i)
    ensures SettersUpTo(axes, FixedAt(axes, pre), ports, i)
         == Ok(SettersAt(axes, SettersUpTo(axes, map[], ports, i).value, pre))
  {
    if i == 0 {
      assert SettersAt(axes, map[], pre) == map[];
    } else {
      var a := i - 1;
      WholeSweepStep(axes, ports, a);
      SettersAfterFixing(axes, ports, pre, a);
      AxisAfterFixing(axes, ports, pre, a);
      var s, m := SettersUpTo(axes, map[], ports, a).value, AxisSetters(axes[a], ports, None, a).value;
      SweepsOverride(axes, s, m, a);
      SettersAtOverride(axes, s, m, pre, a);
      SettersStep(axes, FixedAt(axes, pre), ports, a, SettersAt(axes, s, pre),
                  if a < |pre| then Held(m, Coordinate(axes, pre, a)) else Renumbered(m, a - |pre|));
    }
  }

  // --------------------------------------------------------- requests and leaves

  /** The setters of the whole sweep. */
  function Root(axes: Waveform, ports: seq<ConnectedPort>): Setters
    requires SettersUpTo(axes, map[], ports, |axes|).Ok?
  {
    SettersUpTo(axes, map[], ports, |axes|).value
  }

  function AxisNumbers(n: nat): set<int> {
    if n == 0 then {} else AxisNumbers(n - 1) + {n - 1}
  }

  lemma {:induction false} InAxisNumbers(n: nat, a: int)
    ensures a in AxisNumbers(n) <==> 0 <= a < n
  {
    if n > 0 {
      InAxisNumbers(n - 1, a);
    }
  }

  lemma {:induction false} AxisNumbersSize(n: nat)
    ensures |AxisNumbers(n)| == n
  {
    if n > 0 {
      AxisNumbersSize(n - 1);
      InAxisNumbers(n - 1, n - 1);
    }
  }

  /** A request the planner can work on: every port resolves and every swept port has a
      direction (so the whole sweep builds), the axes fit the uint8 axis numbers, and no
      axis loses all its targets to later axes. */
  ghost predicate Plannable(getters: seq<InstrumentPort>, axes: Waveform, ports: seq<ConnectedPort>) {
    && |axes| <= 255
    && GettersUpTo(getters, ports, |getters|).Ok?
    && SettersUpTo(axes, map[], ports, |axes|).Ok?
    && SweptAxes(Root(axes, ports)) == AxisNumbers(|axes|)
  }

  lemma RootSweeps(getters: seq<InstrumentPort>, axes: Waveform, ports: seq<ConnectedPort>)
    requires Plannable(getters, axes, ports)
    ensures Sweeps(axes, Root(axes, ports), |axes|)
  {
    SettersAfterFixing(axes, ports, [], |axes|);
  }

  /** The primitive measurement with the axes before `|pre|` held at the points `pre`. */
  function LeafInput(getters: seq<InstrumentPort>, axes: Waveform, ports: seq<ConnectedPort>, pre: seq<nat>)
    : PrimitiveInput
    requires Plannable(getters, axes, ports)
  {
    var g := GettersUpTo(getters, ports, |getters|).value;
    PrimitiveInput(SettersAt(axes, Root(axes, ports), pre), g.0, UnitsOf(g.1), |axes| - |pre|)
  }

  /** Holding a prefix removes its axes from the swept ones and shifts the others. */
  lemma SweptAxesAt(axes: Waveform, root: Setters, pre: seq<nat>, a: int)
    requires Sweeps(axes, root, |axes|)
    ensures a in SweptAxes(SettersAt(axes, root, pre)) <==> 0 <= a && a + |pre| in SweptAxes(root)
  {
    var s := SettersAt(axes, root, pre);
    if a in SweptAxes(s) {
      var t :| t in s && s[t].num.Some? && s[t].axis == a;
      assert root[t].axis == a + |pre|;
    }
    if 0 <= a && a + |pre| in SweptAxes(root) {
      var t :| t in root && root[t].num.Some? && root[t].axis == a + |pre|;
      assert s[t].axis == a && s[t].num.Some?;
    }
  }

  lemma DenseAfterHolding(axes: Waveform, root: Setters, pre: seq<nat>)
    requires |pre| <= |axes| && Sweeps(axes, root, |axes|) && SweptAxes(root) == AxisNumbers(|axes|)
    ensures SweptAxes(SettersAt(axes, root, pre)) == AxisNumbers(|axes| - |pre|)
  {
    forall a: int
      ensures a in SweptAxes(SettersAt(axes, root, pre)) <==> a in AxisNumbers(|axes| - |pre|)
    {
      SweptAxesAt(axes, root, pre, a);
      InAxisNumbers(|axes|, a + |pre|);
      InAxisNumbers(|axes| - |pre|, a);
    }
  }

  /** The swept primitive axes of a leaf are dense: exactly 0 up to its dimensionality. */
  lemma LeafAxesDense(getters: seq<InstrumentPort>, axes: Waveform, ports: seq<ConnectedPort>, pre: seq<nat>)
    requires Plannable(getters, axes, ports) && |pre| <= |axes|
    ensures SweptAxes(LeafInput(getters, axes, ports, pre).setters) == AxisNumbers(|axes| - |pre|)
  {
    RootSweeps(getters, axes, ports);
    DenseAfterHolding(axes, Root(axes, ports), pre);
  }

  /** Building the primitive input below a fixed prefix gives the leaf input, and its
      dimensionality is the number of axes that are still swept. */
  lemma PrimitiveInputAt(getters: seq<InstrumentPort>, axes: Waveform, ports: seq<ConnectedPort>, pre: seq<nat>)
    requires Plannable(getters, axes, ports) && |pre| <= |axes|
    ensures PrimitiveInputOf(getters, axes, FixedAt(axes, pre), ports) == Ok(LeafInput(getters, axes, ports, pre))
  {
    SettersAfterFixing(axes, ports, pre, |axes|);
    LeafDimension(getters, axes, ports, pre);
    PrimitiveInputFrom(getters, axes, FixedAt(axes, pre), ports, LeafInput(getters, axes, ports, pre));
  }

  lemma PrimitiveInputFrom(getters: seq<InstrumentPort>, axes: Waveform, fixed: FixedAxes, ports: seq<ConnectedPort>,
                           input: PrimitiveInput)
    requires GettersUpTo(getters, ports, |getters|).Ok?
    requires input.getters == GettersUpTo(getters, ports, |getters|).value.0
    requires input.getterUnits == UnitsOf(GettersUpTo(getters, ports, |getters|).value.1)
    requires SettersUpTo(axes, fixed, ports, |axes|) == Ok(input.setters)
    requires input.choice == Uint8(|SweptAxes(input.setters)|)
    ensures PrimitiveInputOf(getters, axes, fixed, ports) == Ok(input)
  {
  }

  lemma LeafDimension(getters: seq<InstrumentPort>, axes: Waveform, ports: seq<ConnectedPort>, pre: seq<nat>)
    requires Plannable(getters, axes, ports) && |pre| <= |axes|
    ensures Uint8(|SweptAxes(SettersAt(axes, Root(axes, ports), pre))|) == |axes| - |pre|
  {
    RootSweeps(getters, axes, ports);
    DenseAfterHolding(axes, Root(axes, ports), pre);
    DimensionFits(SweptAxes(SettersAt(axes, Root(axes, ports), pre)), |axes| - |pre|);
  }

  lemma DimensionFits(swept: set<int>, n: nat)
    requires swept == AxisNumbers(n) && n <= 255
    ensures Uint8(|swept|) == n
  {
    AxisNumbersSize(n);
  }

  // ------------------------------------------------------------ the plan's leaves

  /** The native plans of a tree, in execution order. */
  function Leaves(p: Plan): seq<Plan>
    decreases p, 1
  {
    match p
    case Native(_, _) => [p]
    case Nested(children, _) => LeavesOfAll(children)
  }

  function LeavesOfAll(ps: seq<Plan>): seq<Plan>
    decreases ps, 0
  {
    if ps == [] then [] else LeavesOfAll(ps[..|ps| - 1]) + Leaves(ps[|ps| - 1])
  }

  function Leaf(getters: seq<InstrumentPort>, axes: Waveform, ports: seq<ConnectedPort>, pre: seq<nat>): Plan
    requires Plannable(getters, axes, ports)
  {
    Native(LeafInput(getters, axes, ports, pre), FixedAt(axes, pre))
  }

  /** The leaves held at the entries of a walk, one by one. */
  function LeavesAt(getters: seq<InstrumentPort>, axes: Waveform, ports: seq<ConnectedPort>, walk: seq<seq<nat>>)
    : (r: seq<Plan>)
    requires Plannable(getters, axes, ports)
    ensures |r| == |walk|
  {
    seq(|walk|, i requires 0 <= i < |walk| => Leaf(getters, axes, ports, walk[i]))
  }

  lemma LeavesAtAppend(getters: seq<InstrumentPort>, axes: Waveform, ports: seq<ConnectedPort>,
                       w1: seq<seq<nat>>, w2: seq<seq<nat>>)
    requires Plannable(getters, axes, ports)
    ensures LeavesAt(getters, axes, ports, w1 + w2)
         == LeavesAt(getters, axes, ports, w1) + LeavesAt(getters, axes, ports, w2)
  {
  }

  lemma LeavesOfAllSnoc(ps: seq<Plan>, p: Plan)
    ensures LeavesOfAll(ps + [p]) == LeavesOfAll(ps) + Leaves(p)
  {
    assert (ps + [p])[..|ps|] == ps;
  }

  lemma FixNext(axes: Waveform, pre: seq<nat>, j: nat)
    requires InBox(ShapeOf(axes), pre) && |pre| < |axes| <= 255 && j < |axes[|pre|].points|
    ensures InBox(ShapeOf(axes), pre + [j])
    ensures FixedAt(axes, pre)[Uint8(|pre|) := axes[|pre|].points[j]] == FixedAt(axes, pre + [j])
  {
    var next := FixedAt(axes, pre + [j]);
    forall a | 0 <= a < |pre|
      ensures FixedAt(axes, pre)[a] == next[a]
    {
      assert (pre + [j])[a] == pre[a];
    }
  }

  lemma {:induction false} FirstSweptAt(axes: Waveform, pre: seq<nat>, i: nat)
    requires i <= |pre| <= |axes| <= 255
    ensures FirstSwept(axes, FixedAt(axes, pre), i) == if |pre| == |axes| then None else Some(|pre|)
    decreases |pre| - i
  {
    if i < |axes| {
      FixedAtValue(axes, pre, i);
    }
    if i < |pre| {
      FirstSweptAt(axes, pre, i + 1);
    }
  }

  /** The plan over the children of one axis. */
  function Parent(axes: Waveform, children: Result<seq<Plan>, PlanError>): Result<Plan, PlanError> {
    if children.Err? then Err(children.error) else Ok(Nested(children.value, ShapeOf(axes)))
  }

  /** A dimensionality that is supported makes a leaf. */
  lemma SupportedStops(getters: seq<InstrumentPort>, axes: Waveform, ports: seq<ConnectedPort>, fixed: FixedAxes,
                       dims: seq<int>, input: PrimitiveInput)
    requires PrimitiveInputOf(getters, axes, fixed, ports) == Ok(input) && input.choice in dims
    ensures BuildPlanSpec(getters, axes, ports, fixed, dims) == Ok(Native(input, fixed))
  {
  }

  /** Any other has its next axis fixed, if there is one. */
  lemma UnsupportedSplits(getters: seq<InstrumentPort>, axes: Waveform, ports: seq<ConnectedPort>, fixed: FixedAxes,
                          dims: seq<int>, input: PrimitiveInput, k: nat)
    requires PrimitiveInputOf(getters, axes, fixed, ports) == Ok(input) && input.choice !in dims
    requires k <= |axes| && FirstSwept(axes, fixed, 0) == if k == |axes| then None else Some(k)
    ensures k == |axes| ==> BuildPlanSpec(getters, axes, ports, fixed, dims) == Err(CannotDecompose)
    ensures k < |axes| ==>
              && FixedValue(fixed, k).None?
              && BuildPlanSpec(getters, axes, ports, fixed, dims)
                 == Parent(axes, ChildrenUpTo(getters, axes, ports, fixed, dims, k, |axes[k].points|))
  {
  }

  lemma StopStep(getters: seq<InstrumentPort>, axes: Waveform, ports: seq<ConnectedPort>, dims: seq<int>, pre: seq<nat>)
    requires Plannable(getters, axes, ports) && |pre| <= |axes| && |axes| - |pre| in dims
    ensures BuildPlanSpec(getters, axes, ports, FixedAt(axes, pre), dims) == Ok(Leaf(getters, axes, ports, pre))
  {
    PrimitiveInputAt(getters, axes, ports, pre);
    SupportedStops(getters, axes, ports, FixedAt(axes, pre), dims, LeafInput(getters, axes, ports, pre));
  }

  lemma SplitStep(getters: seq<InstrumentPort>, axes: Waveform, ports: seq<ConnectedPort>, dims: seq<int>,
                  pre: seq<nat>)
    requires Plannable(getters, axes, ports) && |pre| <= |axes| && |axes| - |pre| !in dims
    ensures |pre| == |axes| ==> BuildPlanSpec(getters, axes, ports, FixedAt(axes, pre), dims) == Err(CannotDecompose)
    ensures |pre| < |axes| ==>
              && FixedValue(FixedAt(axes, pre), |pre|).None?
              && BuildPlanSpec(getters, axes, ports, FixedAt(axes, pre), dims)
                 == Parent(axes, ChildrenUpTo(getters, axes, ports, FixedAt(axes, pre), dims, |pre|,
                                              |axes[|pre|].points|))
  {
    PrimitiveInputAt(getters, axes, ports, pre);
    FirstSweptAt(axes, pre, 0);
    UnsupportedSplits(getters, axes, ports, FixedAt(axes, pre), dims, LeafInput(getters, axes, ports, pre), |pre|);
  }

  /** One step of the recursion below a fixed prefix. */
  lemma BuildPlanStep(getters: seq<InstrumentPort>, axes: Waveform, ports: seq<ConnectedPort>, dims: seq<int>,
                      pre: seq<nat>)
    requires Plannable(getters, axes, ports) && |pre| <= |axes|
    ensures |pre| < |axes| ==> FixedValue(FixedAt(axes, pre), |pre|).None?
    ensures |axes| - |pre| in dims ==>
              BuildPlanSpec(getters, axes, ports, FixedAt(axes, pre), dims) == Ok(Leaf(getters, axes, ports, pre))
    ensures |axes| - |pre| !in dims && |pre| == |axes| ==>
              BuildPlanSpec(getters, axes, ports, FixedAt(axes, pre), dims) == Err(CannotDecompose)
    ensures |axes| - |pre| !in dims && |pre| < |axes| ==>
              BuildPlanSpec(getters, axes, ports, FixedAt(axes, pre), dims)
              == Parent(axes, ChildrenUpTo(getters, axes, ports, FixedAt(axes, pre), dims, |pre|, |axes[|pre|].points|))
  {
    if |axes| - |pre| in dims {
      StopStep(getters, axes, ports, dims, pre);
    } else {
      SplitStep(getters, axes, ports, dims, pre);
    }
    if |pre| < |axes| {
      FixedAtValue(axes, pre, |pre|);
    }
  }

  lemma ChildrenStep(getters: seq<InstrumentPort>, axes: Waveform, ports: seq<ConnectedPort>, dims: seq<int>,
                     pre: seq<nat>, k: nat)
    requires InBox(ShapeOf(axes), pre) && |pre| < |axes| <= 255 && k < |axes[|pre|].points|
    requires FixedValue(FixedAt(axes, pre), |pre|).None?
    requires ChildrenUpTo(getters, axes, ports, FixedAt(axes, pre), dims, |pre|, k).Ok?
    ensures
      var prev := ChildrenUpTo(getters, axes, ports, FixedAt(axes, pre), dims, |pre|, k).value;
      var child := BuildPlanSpec(getters, axes, ports, FixedAt(axes, pre + [k]), dims);
      ChildrenUpTo(getters, axes, ports, FixedAt(axes, pre), dims, |pre|, k + 1)
      == if child.Err? then Err(child.error) else Ok(prev + [child.value])
  {
    FixNext(axes, pre, k);
  }

  // ------------------------------------------------------------- the plan's shape

  /** The tree of a plan with its primitive measurements left out: each leaf keeps only the
      positions at which the axes before it are held. */
  datatype Tree = Stop(pre: seq<nat>) | Split(children: seq<Tree>)

  function Grow(shape: seq<nat>, dims: seq<int>, pre: seq<nat>): Option<Tree>
    requires |pre| <= |shape|
    decreases |shape| - |pre|, 1, 0
  {
    if |shape| - |pre| in dims then Some(Stop(pre))
    else if |pre| == |shape| then None
    else
      match GrowUpTo(shape, dims, pre, shape[|pre|])
      case None => None
      case Some(children) => Some(Split(children))
  }

  function GrowUpTo(shape: seq<nat>, dims: seq<int>, pre: seq<nat>, k: nat): Option<seq<Tree>>
    requires |pre| < |shape|
    decreases |shape| - |pre|, 0, k
  {
    if k == 0 then Some([])
    else
      match GrowUpTo(shape, dims, pre, k - 1)
      case None => None
      case Some(prev) =>
        match Grow(shape, dims, pre + [k - 1])
        case None => None
        case Some(child) => Some(prev + [child])
  }

  function Render(getters: seq<InstrumentPort>, axes: Waveform, ports: seq<ConnectedPort>, t: Tree): Plan
    requires Plannable(getters, axes, ports)
    decreases t, 1
  {
    match t
    case Stop(pre) => Leaf(getters, axes, ports, pre)
    case Split(children) => Nested(RenderAll(getters, axes, ports, children), ShapeOf(axes))
  }

  function RenderAll(getters: seq<InstrumentPort>, axes: Waveform, ports: seq<ConnectedPort>, ts: seq<Tree>): seq<Plan>
    requires Plannable(getters, axes, ports)
    decreases ts, 0
  {
    if ts == [] then []
    else RenderAll(getters, axes, ports, ts[..|ts| - 1]) + [Render(getters, axes, ports, ts[|ts| - 1])]
  }

  function RenderResult(getters: seq<InstrumentPort>, axes: Waveform, ports: seq<ConnectedPort>, t: Option<Tree>)
    : Result<Plan, PlanError>
    requires Plannable(getters, axes, ports)
  {
    if t.None? then Err(CannotDecompose) else Ok(Render(getters, axes, ports, t.value))
  }

  lemma RenderAllSnoc(getters: seq<InstrumentPort>, axes: Waveform, ports: seq<ConnectedPort>, ts: seq<Tree>, t: Tree)
    requires Plannable(getters, axes, ports)
    ensures RenderAll(getters, axes, ports, ts + [t])
         == RenderAll(getters, axes, ports, ts) + [Render(getters, axes, ports, t)]
  {
    assert (ts + [t])[..|ts|] == ts;
  }

  function RenderAllResult(getters: seq<InstrumentPort>, axes: Waveform, ports: seq<ConnectedPort>,
                           ts: Option<seq<Tree>>): Result<seq<Plan>, PlanError>
    requires Plannable(getters, axes, ports)
  {
    if ts.None? then Err(CannotDecompose) else Ok(RenderAll(getters, axes, ports, ts.value))
  }

  /** One more child, on both sides. */
  lemma ChildRendered(getters: seq<InstrumentPort>, axes: Waveform, ports: seq<ConnectedPort>,
                      ts: seq<Tree>, child: Option<Tree>, rendered: Result<Plan, PlanError>)
    requires Plannable(getters, axes, ports) && rendered == RenderResult(getters, axes, ports, child)
    ensures (if rendered.Err? then Err(rendered.error) else Ok(RenderAll(getters, axes, ports, ts) + [rendered.value]))
         == RenderAllResult(getters, axes, ports, if child.None? then None else Some(ts + [child.value]))
  {
    if child.Some? {
      RenderAllSnoc(getters, axes, ports, ts, child.value);
    }
  }

  /** Planning is growing the tree and filling in each leaf's primitive measurement. */
  lemma {:induction false} PlanIsRendered(getters: seq<InstrumentPort>, axes: Waveform, ports: seq<ConnectedPort>,
                                          dims: seq<int>, pre: seq<nat>)
    requires Plannable(getters, axes, ports) && InBox(ShapeOf(axes), pre)
    ensures BuildPlanSpec(getters, axes, ports, FixedAt(axes, pre), dims)
         == RenderResult(getters, axes, ports, Grow(ShapeOf(axes), dims, pre))
    decreases |axes| - |pre|, 1, 0
  {
    BuildPlanStep(getters, axes, ports, dims, pre);
    if |axes| - |pre| !in dims && |pre| < |axes| {
      ChildrenAreRendered(getters, axes, ports, dims, pre, |axes[|pre|].points|);
    }
  }

  lemma {:induction false} ChildrenAreRendered(getters: seq<InstrumentPort>, axes: Waveform, ports: seq<ConnectedPort>,
                                               dims: seq<int>, pre: seq<nat>, k: nat)
    requires Plannable(getters, axes, ports) && InBox(ShapeOf(axes), pre) && |pre| < |axes|
    requires FixedValue(FixedAt(axes, pre), |pre|).None? && k <= |axes[|pre|].points|
    ensures ChildrenUpTo(getters, axes, ports, FixedAt(axes, pre), dims, |pre|, k)
         == RenderAllResult(getters, axes, ports, GrowUpTo(ShapeOf(axes), dims, pre, k))
    decreases |axes| - |pre|, 0, k
  {
    if k > 0 {
      ChildrenAreRendered(getters, axes, ports, dims, pre, k - 1);
      var prev := GrowUpTo(ShapeOf(axes), dims, pre, k - 1);
      if prev.None? {
        ChildrenErrorStays(getters, axes, ports, FixedAt(axes, pre), dims, |pre|, k - 1, k);
      } else {
        FixNext(axes, pre, k - 1);
        PlanIsRendered(getters, axes, ports, dims, pre + [k - 1]);
        ChildrenStep(getters, axes, ports, dims, pre, k - 1);
        ChildRendered(getters, axes, ports, prev.value, Grow(ShapeOf(axes), dims, pre + [k - 1]),
                      BuildPlanSpec(getters, axes, ports, FixedAt(axes, pre + [k - 1]), dims));
      }
    }
  }

  // --------------------------------------------------------- where fixing stops

  function Stops(t: Tree): seq<seq<nat>>
    decreases t, 1
  {
    match t
    case Stop(pre) => [pre]
    case Split(children) => StopsOfAll(children)
  }

  function StopsOfAll(ts: seq<Tree>): seq<seq<nat>>
    decreases ts, 0
  {
    if ts == [] then [] else StopsOfAll(ts[..|ts| - 1]) + Stops(ts[|ts| - 1])
  }

  lemma StopsOfAllSnoc(ts: seq<Tree>, t: Tree)
    ensures StopsOfAll(ts + [t]) == StopsOfAll(ts) + Stops(t)
  {
    assert (ts + [t])[..|ts|] == ts;
  }

  lemma {:induction false} RenderedLeaves(getters: seq<InstrumentPort>, axes: Waveform, ports: seq<ConnectedPort>,
                                          t: Tree)
    requires Plannable(getters, axes, ports)
    ensures Leaves(Render(getters, axes, ports, t)) == LeavesAt(getters, axes, ports, Stops(t))
    decreases t, 1
  {
    if t.Split? {
      RenderedLeavesOfAll(getters, axes, ports, t.children);
    }
  }

  lemma {:induction false} RenderedLeavesOfAll(getters: seq<InstrumentPort>, axes: Waveform, ports: seq<ConnectedPort>,
                                               ts: seq<Tree>)
    requires Plannable(getters, axes, ports)
    ensures LeavesOfAll(RenderAll(getters, axes, ports, ts)) == LeavesAt(getters, axes, ports, StopsOfAll(ts))
    decreases ts, 0
  {
    if ts != [] {
      var init, last := ts[..|ts| - 1], ts[|ts| - 1];
      RenderedLeavesOfAll(getters, axes, ports, init);
      RenderedLeaves(getters, axes, ports, last);
      LeavesOfAllSnoc(RenderAll(getters, axes, ports, init), Render(getters, axes, ports, last));
      LeavesAtAppend(getters, axes, ports, StopsOfAll(init), Stops(last));
    }
  }

  /** Fixing goes on from depth `k` to depth `m`: no number of axes left before is supported.
      There it stops, at a supported number of axes, or because the axis fixed last has no
      points and so needs no child. */
  predicate StopsAt(dims: seq<int>, shape: seq<nat>, k: nat, m: nat) {
    && k <= m <= |shape|
    && (forall d | d in dims :: !(|shape| - m < d <= |shape| - k))
    && (|shape| - m in dims || (k < m && shape[m - 1] == 0))
  }

  /** When fixing can stop, the tree exists and stops at the row-major walk over exactly the
      axes that had to be fixed. */
  lemma {:induction false} GrownStops(shape: seq<nat>, dims: seq<int>, pre: seq<nat>, m: nat)
    requires |pre| <= |shape| && StopsAt(dims, shape, |pre|, m)
    ensures Grow(shape, dims, pre).Some?
    ensures Stops(Grow(shape, dims, pre).value) == Walk(shape, pre, m)
    decreases |shape| - |pre|, 1, 0
  {
    if |pre| < m {
      GrownStopsUpTo(shape, dims, pre, m, shape[|pre|]);
    }
  }

  lemma {:induction false} GrownStopsUpTo(shape: seq<nat>, dims: seq<int>, pre: seq<nat>, m: nat, k: nat)
    requires |pre| < m <= |shape| && k <= shape[|pre|] && StopsAt(dims, shape, |pre|, m)
    ensures GrowUpTo(shape, dims, pre, k).Some?
    ensures StopsOfAll(GrowUpTo(shape, dims, pre, k).value) == WalkUpTo(shape, pre, m, k)
    decreases |shape| - |pre|, 0, k
  {
    if k > 0 {
      GrownStopsUpTo(shape, dims, pre, m, k - 1);
      GrownStops(shape, dims, pre + [k - 1], m);
      StopsOfAllSnoc(GrowUpTo(shape, dims, pre, k - 1).value, Grow(shape, dims, pre + [k - 1]).value);
    }
  }

  // ----------------------------------------------------- when planning succeeds

  predicate Reachable(dims: seq<int>, n: nat) {
    exists d | d in dims :: 0 <= d <= n
  }

  /** With nothing in reach, the tree does not exist if every axis that would have to be
      fixed has a point: the first child is grown, and its first child. */
  lemma {:induction false} GrowthFails(shape: seq<nat>, dims: seq<int>, pre: seq<nat>)
    requires |pre| <= |shape| && !Reachable(dims, |shape| - |pre|)
    requires forall a | |pre| <= a < |shape| :: shape[a] > 0
    ensures Grow(shape, dims, pre).None?
    decreases |shape| - |pre|
  {
    if |pre| < |shape| {
      GrowthFails(shape, dims, pre + [0]);
      assert GrowUpTo(shape, dims, pre, 1).None?;
      GrowthStaysFailed(shape, dims, pre, shape[|pre|]);
    }
  }

  lemma {:induction false} GrowthStaysFailed(shape: seq<nat>, dims: seq<int>, pre: seq<nat>, k: nat)
    requires |pre| < |shape| && 1 <= k && GrowUpTo(shape, dims, pre, 1).None?
    ensures GrowUpTo(shape, dims, pre, k).None?
  {
    if k > 1 {
      GrowthStaysFailed(shape, dims, pre, k - 1);
    }
  }

  lemma {:induction false} StopExists(dims: seq<int>, shape: seq<nat>, k: nat) returns (m: nat)
    requires k <= |shape|
    requires Reachable(dims, |shape| - k) || exists a | k <= a < |shape| :: shape[a] == 0
    ensures StopsAt(dims, shape, k, m)
    decreases |shape| - k
  {
    if |shape| - k in dims {
      m := k;
    } else if shape[k] == 0 {
      m := k + 1;
    } else {
      if Reachable(dims, |shape| - k) {
        var d :| d in dims && 0 <= d <= |shape| - k;
        assert 0 <= d <= |shape| - (k + 1);
      }
      m := StopExists(dims, shape, k + 1);
    }
  }

  /** Planning succeeds exactly when some supported dimensionality is at most the number of
      axes, or an axis has no points. */
  lemma PlanningSucceeds(getters: seq<InstrumentPort>, axes: Waveform, ports: seq<ConnectedPort>, dims: seq<int>)
    requires Plannable(getters, axes, ports)
    ensures BuildPlanSpec(getters, axes, ports, map[], dims).Ok? <==>
            Reachable(dims, |axes|) || exists a | 0 <= a < |axes| :: axes[a].points == []
  {
    var shape := ShapeOf(axes);
    assert FixedAt(axes, []) == map[];
    forall a | 0 <= a < |axes| ensures shape[a] == 0 <==> axes[a].points == [] {}
    PlanIsRendered(getters, axes, ports, dims, []);
    if Reachable(dims, |shape|) || exists a | 0 <= a < |shape| :: shape[a] == 0 {
      var m := StopExists(dims, shape, 0);
      GrownStops(shape, dims, [], m);
    } else {
      GrowthFails(shape, dims, []);
    }
  }

  /** Where fixing stops decides the leaves of the whole plan. */
  lemma PlanLeaves(getters: seq<InstrumentPort>, axes: Waveform, ports: seq<ConnectedPort>, dims: seq<int>, m: nat)
    requires Plannable(getters, axes, ports) && StopsAt(dims, ShapeOf(axes), 0, m)
    ensures
      var r := BuildPlanSpec(getters, axes, ports, map[], dims);
      r.Ok? && Leaves(r.value) == LeavesAt(getters, axes, ports, Walk(ShapeOf(axes), [], m))
  {
    assert FixedAt(axes, []) == map[];
    PlanIsRendered(getters, axes, ports, dims, []);
    GrownStops(ShapeOf(axes), dims, [], m);
    RenderedLeaves(getters, axes, ports, Grow(ShapeOf(axes), dims, []).value);
  }

  /** Leaf `i` of `leaves` is held at entry `i` of the walk over the first `m` axes, and has
      the dimensionality of the others. */
  ghost predicate LeavesHeld(getters: seq<InstrumentPort>, axes: Waveform, ports: seq<ConnectedPort>,
                             walk: seq<seq<nat>>, m: nat, leaves: seq<Plan>)
    requires Plannable(getters, axes, ports)
  {
    |leaves| == |walk| && forall i | 0 <= i < |walk| ::
      && |walk[i]| == m && InBox(ShapeOf(axes), walk[i])
      && leaves[i] == Leaf(getters, axes, ports, walk[i])
      && leaves[i].input.choice == |axes| - m
      && leaves[i].fixed.Keys == AxisNumbers(m)
  }

  lemma LeavesAtHeld(getters: seq<InstrumentPort>, axes: Waveform, ports: seq<ConnectedPort>, m: nat)
    requires Plannable(getters, axes, ports) && m <= |axes|
    ensures LeavesHeld(getters, axes, ports, Walk(ShapeOf(axes), [], m), m,
                       LeavesAt(getters, axes, ports, Walk(ShapeOf(axes), [], m)))
  {
    var walk := Walk(ShapeOf(axes), [], m);
    WalkEntries(ShapeOf(axes), [], m);
    forall i | 0 <= i < |walk|
      ensures |walk[i]| == m && InBox(ShapeOf(axes), walk[i]) && FixedAt(axes, walk[i]).Keys == AxisNumbers(m)
    {
      assert walk[i] in walk;
      forall a: int { InAxisNumbers(m, a); }
    }
  }

  /** The shape of the decomposition. Every leaf has the largest supported dimensionality
      that fits; exactly the axes before it are held, at one position of their row-major
      walk each and in that order; and there are as many leaves as such positions. */
  lemma Decomposition(getters: seq<InstrumentPort>, axes: Waveform, ports: seq<ConnectedPort>, dims: seq<int>, d: nat)
    requires Plannable(getters, axes, ports)
    requires d in dims && d <= |axes| && forall e | e in dims :: !(d < e <= |axes|)
    ensures
      var r := BuildPlanSpec(getters, axes, ports, map[], dims);
      var walk := Walk(ShapeOf(axes), [], |axes| - d);
      && r.Ok?
      && |Leaves(r.value)| == Product(ShapeOf(axes)[..|axes| - d])
      && LeavesHeld(getters, axes, ports, walk, |axes| - d, Leaves(r.value))
  {
    var m := |axes| - d;
    PlanLeaves(getters, axes, ports, dims, m);
    LeavesAtHeld(getters, axes, ports, m);
    WalkLength(ShapeOf(axes), [], m);
    assert ShapeOf(axes)[0..m] == ShapeOf(axes)[..m];
  }

  // --------------------------------------------------------- the hypotheses

  /** Every axis moves some port, and no target sits on two axes. */
  ghost predicate AxesKeepTargets(axes: Waveform, ports: seq<ConnectedPort>) {
    && (forall a | 0 <= a < |axes| :: axes[a].coupled != [])
    && forall a, b, t | 0 <= a < b < |axes| :: !(OnAxis(axes[a], ports, t) && OnAxis(axes[b], ports, t))
  }

  /** No axis loses all its targets when each has a port and no target sits on two axes. */
  lemma DisjointTargetsArePlannable(getters: seq<InstrumentPort>, axes: Waveform, ports: seq<ConnectedPort>)
    requires |axes| <= 255 && GettersUpTo(getters, ports, |getters|).Ok?
    requires SettersUpTo(axes, map[], ports, |axes|).Ok?
    requires AxesKeepTargets(axes, ports)
    ensures Plannable(getters, axes, ports)
  {
    SettersAfterFixing(axes, ports, [], |axes|);
    forall a: int
      ensures a in SweptAxes(Root(axes, ports)) <==> a in AxisNumbers(|axes|)
    {
      InAxisNumbers(|axes|, a);
      if 0 <= a < |axes| {
        AxisKept(axes, ports, a, |axes|);
      }
    }
  }

  /** Some port of the axis resolves to the target. */
  predicate OnAxis(axis: Axis, ports: seq<ConnectedPort>, t: Target) {
    exists k | 0 <= k < |axis.coupled| :: ConvertToTarget(axis.coupled[k].port, ports) == Ok(t)
  }

  lemma {:induction false} AxisSettersTargets(axis: Axis, ports: seq<ConnectedPort>, value: Option<real>, p: int,
                                              k: nat)
    requires k <= |axis.coupled| && AxisSettersUpTo(axis, ports, value, p, k).Ok?
    ensures forall t :: t in AxisSettersUpTo(axis, ports, value, p, k).value ==> OnAxis(axis, ports, t)
    ensures k > 0 ==> AxisSettersUpTo(axis, ports, value, p, k).value != map[]
  {
    if k > 0 {
      AxisSettersTargets(axis, ports, value, p, k - 1);
      var t := ConvertToTarget(axis.coupled[k - 1].port, ports).value;
      assert OnAxis(axis, ports, t);
      assert t in AxisSettersUpTo(axis, ports, value, p, k).value;
    }
  }

  lemma {:induction false} AxisKept(axes: Waveform, ports: seq<ConnectedPort>, a: nat, i: nat)
    requires a < i <= |axes| <= 255 && SettersUpTo(axes, map[], ports, i).Ok?
    requires axes[a].coupled != []
    requires forall b, t | a < b < i :: !(OnAxis(axes[a], ports, t) && OnAxis(axes[b], ports, t))
    ensures a in SweptAxes(SettersUpTo(axes, map[], ports, i).value)
  {
    var t := AxisKeeps(axes, ports, a, i);
    var s := SettersUpTo(axes, map[], ports, i).value;
    assert s[t].num.Some? && s[t].axis == a;
  }

  lemma {:induction false} AxisKeeps(axes: Waveform, ports: seq<ConnectedPort>, a: nat, i: nat) returns (t: Target)
    requires a < i <= |axes| <= 255 && SettersUpTo(axes, map[], ports, i).Ok?
    requires axes[a].coupled != []
    requires forall b, t | a < b < i :: !(OnAxis(axes[a], ports, t) && OnAxis(axes[b], ports, t))
    ensures OnAxis(axes[a], ports, t)
    ensures
      var s := SettersUpTo(axes, map[], ports, i).value;
      t in s && s[t].axis == a && s[t].num.Some?
  {
    var last := i - 1;
    WholeSweepStep(axes, ports, last);
    var m := AxisSetters(axes[last], ports, None, last).value;
    AxisSettersTargets(axes[last], ports, None, last, |axes[last].coupled|);
    if a == last {
      AxisSettersByMode(axes[a], ports, a, a, 0.0, |axes[a].coupled|);
      t :| t in m;
    } else {
      t := AxisKeeps(axes, ports, a, last);
    }
  }
}
