/**
 Running a plan: leaves in tree order, outputs merged per getter, and the first error
 ending the run. Nesting turns out not to matter: a plan runs like the list of its leaves.
 */
module PlanExecution {
  import opened Wrappers
  import opened Ports
  import opened Planner
  import opened PlanStructure

  /** Samples by getter. */
  type Output = map<Target, seq<real>>

  /** What an executor answers to an input, given all inputs it was sent before. */
  type Behaviour = (seq<PrimitiveInput>, PrimitiveInput) -> Result<Output, string>

  class Executor {
    const behaviour: Behaviour
    var calls: seq<PrimitiveInput>

    constructor (behaviour: Behaviour)
      ensures this.behaviour == behaviour && calls == []
    {
      this.behaviour := behaviour;
      calls := [];
    }

    method Run(input: PrimitiveInput) returns (r: Result<Output, string>)
      modifies this`calls
      ensures calls == old(calls) + [input]
      ensures r == behaviour(old(calls), input)
    {
      r := behaviour(calls, input);
      calls := calls + [input];
    }
  }

  // ------------------------------------------------------------------- merging

  /** A missing getter reads as no samples, as a Go map lookup does. */
  function SamplesOf(out: Output, t: Target): seq<real> {
    if t in out then out[t] else []
  }

  function Merge(total: Output, newData: Output): Output {
    map t | t in total.Keys + newData.Keys :: SamplesOf(total, t) + SamplesOf(newData, t)
  }

  /** Appending getter by getter, in any map order. */
  method MergeOutputs(total: Output, newData: Output) returns (merged: Output)
    ensures merged == Merge(total, newData)
  {
    merged := total;
    var remaining := newData.Keys;
    while remaining != {}
      invariant remaining <= newData.Keys
      invariant merged.Keys == total.Keys + (newData.Keys - remaining)
      invariant forall t :: t in merged ==>
                  merged[t] == SamplesOf(total, t) + if t in remaining then [] else SamplesOf(newData, t)
      decreases remaining
    {
      var t :| t in remaining;
      merged := merged[t := SamplesOf(merged, t) + newData[t]];
      remaining := remaining - {t};
    }
  }

  lemma MergeSamples(a: Output, b: Output, t: Target)
    ensures SamplesOf(Merge(a, b), t) == SamplesOf(a, t) + SamplesOf(b, t)
  {
  }

  lemma MergeNothing(a: Output)
    ensures Merge(map[], a) == a && Merge(a, map[]) == a
  {
    forall t | t in a
      ensures Merge(map[], a)[t] == a[t] && Merge(a, map[])[t] == a[t]
    {
      assert [] + a[t] == a[t] && a[t] + [] == a[t];
    }
    assert Merge(map[], a).Keys == a.Keys && Merge(a, map[]).Keys == a.Keys;
  }

  lemma SameSamples(a: Output, b: Output)
    requires a.Keys == b.Keys && forall t :: SamplesOf(a, t) == SamplesOf(b, t)
    ensures a == b
  {
    forall t | t in a
      ensures a[t] == b[t]
    {
      assert SamplesOf(a, t) == SamplesOf(b, t);
    }
  }

  lemma MergeKeys(a: Output, b: Output)
    ensures Merge(a, b).Keys == a.Keys + b.Keys
  {
  }

  lemma MergeAssociative(a: Output, b: Output, c: Output)
    ensures Merge(Merge(a, b), c) == Merge(a, Merge(b, c))
  {
    var ab, bc := Merge(a, b), Merge(b, c);
    MergeKeys(a, b);
    MergeKeys(b, c);
    MergeKeys(ab, c);
    MergeKeys(a, bc);
    forall t
      ensures SamplesOf(Merge(ab, c), t) == SamplesOf(Merge(a, bc), t)
    {
      MergeSamples(a, b, t);
      MergeSamples(b, c, t);
      MergeSamples(ab, c, t);
      MergeSamples(a, bc, t);
      AppendAssociative(SamplesOf(a, t), SamplesOf(b, t), SamplesOf(c, t));
    }
    SameSamples(Merge(ab, c), Merge(a, bc));
  }

  // ------------------------------------------------------------------- running

  datatype Run = Run(result: Result<Output, string>, calls: seq<PrimitiveInput>)

  /** Running a plan after the calls `hist`. */
  function Execute(p: Plan, b: Behaviour, hist: seq<PrimitiveInput>): Run
    decreases p, 1, 0
  {
    match p
    case Native(input, _) => Run(b(hist, input), hist + [input])
    case Nested(children, _) => ExecuteUpTo(children, b, hist, |children|)
  }

  /** Running the first `k` children, merging as it goes and stopping at an error. */
  function ExecuteUpTo(ps: seq<Plan>, b: Behaviour, hist: seq<PrimitiveInput>, k: nat): Run
    requires k <= |ps|
    decreases ps, 0, k
  {
    if k == 0 then Run(Ok(map[]), hist)
    else
      var prev := ExecuteUpTo(ps, b, hist, k - 1);
      if prev.result.Err? then prev
      else
        var next := Execute(ps[k - 1], b, prev.calls);
        if next.result.Err? then next
        else Run(Ok(Merge(prev.result.value, next.result.value)), next.calls)
  }

  lemma {:induction false} ExecutionErrorStays(ps: seq<Plan>, b: Behaviour, hist: seq<PrimitiveInput>, k: nat, n: nat)
    requires k <= n <= |ps| && ExecuteUpTo(ps, b, hist, k).result.Err?
    ensures ExecuteUpTo(ps, b, hist, n) == ExecuteUpTo(ps, b, hist, k)
  {
    if k < n {
      ExecutionErrorStays(ps, b, hist, k, n - 1);
    }
  }

  method ExecutePlan(p: Plan, executor: Executor) returns (r: Result<Output, string>)
    modifies executor`calls
    ensures Run(r, executor.calls) == Execute(p, executor.behaviour, old(executor.calls))
    decreases p
  {
    if p.Native? {
      r := executor.Run(p.input);
      return;
    }
    ghost var b, hist := executor.behaviour, executor.calls;
    var out: Output := map[];
    for k := 0 to |p.children|
      invariant ExecuteUpTo(p.children, b, hist, k) == Run(Ok(out), executor.calls)
    {
      var result := ExecutePlan(p.children[k], executor);
      if result.Err? {
        assert ExecuteUpTo(p.children, b, hist, k + 1) == Run(result, executor.calls);
        ExecutionErrorStays(p.children, b, hist, k + 1, |p.children|);
        return result;
      }
      out := MergeOutputs(out, result.value);
    }
    r := Ok(out);
  }

  // -------------------------------------------------- nesting does not matter

  /** The inputs of a plan's leaves, in execution order. */
  function InputsOf(p: Plan): seq<PrimitiveInput>
    decreases p, 1
  {
    match p
    case Native(input, _) => [input]
    case Nested(children, _) => InputsOfAll(children)
  }

  function InputsOfAll(ps: seq<Plan>): seq<PrimitiveInput>
    decreases ps, 0
  {
    if ps == [] then [] else InputsOfAll(ps[..|ps| - 1]) + InputsOf(ps[|ps| - 1])
  }

  predicate BoundedInputs(inputs: seq<PrimitiveInput>) {
    forall i | 0 <= i < |inputs| :: BoundedInput(inputs[i])
  }

  lemma {:induction false} ChildBounded(ps: seq<Plan>, k: nat)
    requires k < |ps| && BoundedInputs(InputsOfAll(ps))
    ensures BoundedInputs(InputsOf(ps[k]))
  {
    var init, last := InputsOfAll(ps[..|ps| - 1]), InputsOf(ps[|ps| - 1]);
    assert InputsOfAll(ps) == init + last;
    if k < |ps| - 1 {
      assert forall i | 0 <= i < |init| :: init[i] == InputsOfAll(ps)[i];
      ChildBounded(ps[..|ps| - 1], k);
    } else {
      assert forall i | 0 <= i < |last| :: last[i] == InputsOfAll(ps)[|init| + i];
    }
  }

  /** Whatever the planner builds fits the uint8 fields. */
  lemma {:induction false} PlanBounded(getters: seq<InstrumentPort>, axes: Waveform, ports: seq<ConnectedPort>,
                                       fixed: FixedAxes, dims: seq<int>)
    requires BuildPlanSpec(getters, axes, ports, fixed, dims).Ok?
    ensures BoundedInputs(InputsOf(BuildPlanSpec(getters, axes, ports, fixed, dims).value))
    decreases StillSwept(axes, fixed), 1, 0
  {
    SettersBounded(axes, fixed, ports, |axes|);
    var input := PrimitiveInputOf(getters, axes, fixed, ports).value;
    if input.choice !in dims {
      var axis := FirstSwept(axes, fixed, 0).value;
      ChildrenBounded(getters, axes, ports, fixed, dims, axis, |axes[axis].points|);
    }
  }

  lemma {:induction false} ChildrenBounded(getters: seq<InstrumentPort>, axes: Waveform, ports: seq<ConnectedPort>,
                                           fixed: FixedAxes, dims: seq<int>, axis: nat, k: nat)
    requires axis < |axes| && FixedValue(fixed, axis).None? && k <= |axes[axis].points|
    requires ChildrenUpTo(getters, axes, ports, fixed, dims, axis, k).Ok?
    ensures BoundedInputs(InputsOfAll(ChildrenUpTo(getters, axes, ports, fixed, dims, axis, k).value))
    decreases StillSwept(axes, fixed), 0, k
  {
    if k > 0 {
      var value := axes[axis].points[k - 1];
      FixingShrinks(axes, fixed, axis, value);
      ChildrenBounded(getters, axes, ports, fixed, dims, axis, k - 1);
      PlanBounded(getters, axes, ports, fixed[Uint8(axis) := value], dims);
      var prev := ChildrenUpTo(getters, axes, ports, fixed, dims, axis, k - 1).value;
      var child := BuildPlanSpec(getters, axes, ports, fixed[Uint8(axis) := value], dims).value;
      InputsOfAllSnoc(prev, child);
    }
  }

  lemma InputsOfAllSnoc(ps: seq<Plan>, p: Plan)
    ensures InputsOfAll(ps + [p]) == InputsOfAll(ps) + InputsOf(p)
  {
    assert (ps + [p])[..|ps|] == ps;
  }

  /** `inputs` are the inputs of `leaves`, which are all native. */
  ghost predicate InputsAre(leaves: seq<Plan>, inputs: seq<PrimitiveInput>) {
    |leaves| == |inputs| && forall i | 0 <= i < |leaves| :: leaves[i].Native? && leaves[i].input == inputs[i]
  }

  lemma {:induction false} InputsOfLeaves(p: Plan)
    ensures InputsAre(Leaves(p), InputsOf(p))
    decreases p, 1
  {
    if p.Nested? {
      InputsOfAllLeaves(p.children);
    }
  }

  lemma {:induction false} InputsOfAllLeaves(ps: seq<Plan>)
    ensures InputsAre(LeavesOfAll(ps), InputsOfAll(ps))
    decreases ps, 0
  {
    if ps != [] {
      InputsOfAllLeaves(ps[..|ps| - 1]);
      InputsOfLeaves(ps[|ps| - 1]);
    }
  }

  /** Sending a list of inputs, merging and stopping at an error. */
  function RunList(inputs: seq<PrimitiveInput>, b: Behaviour, hist: seq<PrimitiveInput>): Run {
    if inputs == [] then Run(Ok(map[]), hist)
    else
      var prev := RunList(inputs[..|inputs| - 1], b, hist);
      if prev.result.Err? then prev
      else
        var input := inputs[|inputs| - 1];
        var out := b(prev.calls, input);
        if out.Err? then Run(out, prev.calls + [input])
        else Run(Ok(Merge(prev.result.value, out.value)), prev.calls + [input])
  }

  lemma {:induction false} RunListCalls(inputs: seq<PrimitiveInput>, b: Behaviour, hist: seq<PrimitiveInput>)
    requires RunList(inputs, b, hist).result.Ok?
    ensures RunList(inputs, b, hist).calls == hist + inputs
  {
    if inputs == [] {
      assert hist + inputs == hist;
    } else {
      RunListCalls(inputs[..|inputs| - 1], b, hist);
      assert hist + inputs == hist + inputs[..|inputs| - 1] + [inputs[|inputs| - 1]];
    }
  }

  /** One more input that is answered the same way whatever was sent before. */
  lemma RunListSnoc(init: seq<PrimitiveInput>, last: PrimitiveInput, b: Behaviour, hist: seq<PrimitiveInput>,
                    before: Output, out: Output)
    requires RunList(init, b, hist).result == Ok(before)
    requires b(RunList(init, b, hist).calls, last) == Ok(out)
    ensures RunList(init + [last], b, hist).result == Ok(Merge(before, out))
  {
    assert (init + [last])[..|init|] == init;
  }

  /** Going on after `prev` with `next`. */
  function Then(prev: Run, next: Run): Run {
    if prev.result.Err? then prev
    else if next.result.Err? then next
    else Run(Ok(Merge(prev.result.value, next.result.value)), next.calls)
  }

  lemma {:induction false} RunListAppend(a: seq<PrimitiveInput>, c: seq<PrimitiveInput>, b: Behaviour,
                                         hist: seq<PrimitiveInput>)
    ensures RunList(a + c, b, hist) == Then(RunList(a, b, hist), RunList(c, b, RunList(a, b, hist).calls))
  {
    var first := RunList(a, b, hist);
    if c == [] {
      assert a + c == a;
      if first.result.Ok? {
        MergeNothing(first.result.value);
      }
    } else {
      var init, last := c[..|c| - 1], c[|c| - 1];
      RunListAppend(a, init, b, hist);
      assert (a + c)[..|a + c| - 1] == a + init;
      var mid := RunList(init, b, first.calls);
      if first.result.Ok? && mid.result.Ok? {
        var out := b(mid.calls, last);
        if out.Ok? {
          MergeAssociative(first.result.value, mid.result.value, out.value);
        }
      }
    }
  }

  lemma OneChildMore(ps: seq<Plan>, b: Behaviour, hist: seq<PrimitiveInput>, k: nat)
    requires 0 < k <= |ps|
    ensures ExecuteUpTo(ps, b, hist, k)
         == Then(ExecuteUpTo(ps, b, hist, k - 1), Execute(ps[k - 1], b, ExecuteUpTo(ps, b, hist, k - 1).calls))
  {
  }

  /** The leaves of one more plan, run after those of the others. */
  lemma FlatSnoc(init: seq<Plan>, last: Plan, b: Behaviour, hist: seq<PrimitiveInput>, prev: Run, next: Run)
    requires prev == RunList(InputsOfAll(init), b, hist) && next == RunList(InputsOf(last), b, prev.calls)
    ensures RunList(InputsOfAll(init + [last]), b, hist) == Then(prev, next)
  {
    InputsOfAllSnoc(init, last);
    RunListAppend(InputsOfAll(init), InputsOf(last), b, hist);
  }

  /** Running a plan is running the list of its leaves, however deep the nesting. */
  lemma {:induction false} ExecutionIsFlat(p: Plan, b: Behaviour, hist: seq<PrimitiveInput>)
    ensures Execute(p, b, hist) == RunList(InputsOf(p), b, hist)
    decreases p, 1, 0
  {
    match p {
      case Native(input, _) =>
        assert [input][..0] == [];
        var out := b(hist, input);
        if out.Ok? {
          MergeNothing(out.value);
        }
      case Nested(children, _) =>
        ChildrenAreFlat(children, b, hist, |children|);
        assert children[..|children|] == children;
    }
  }

  lemma {:induction false} ChildrenAreFlat(ps: seq<Plan>, b: Behaviour, hist: seq<PrimitiveInput>, k: nat)
    requires k <= |ps|
    ensures ExecuteUpTo(ps, b, hist, k) == RunList(InputsOfAll(ps[..k]), b, hist)
    decreases ps, 0, k
  {
    if k == 0 {
      assert ps[..0] == [];
    } else {
      var init, last, prev := ps[..k - 1], ps[k - 1], ExecuteUpTo(ps, b, hist, k - 1);
      assert ps[..k] == init + [last];
      ChildrenAreFlat(ps, b, hist, k - 1);
      ExecutionIsFlat(last, b, prev.calls);
      OneChildMore(ps, b, hist, k);
      FlatSnoc(init, last, b, hist, prev, Execute(last, b, prev.calls));
    }
  }

  // ----------------------------------------------------------------- fail fast

  /** The answer to input `j`, when every input before it has been sent. */
  function Answer(inputs: seq<PrimitiveInput>, b: Behaviour, hist: seq<PrimitiveInput>, j: nat): Result<Output, string>
    requires j < |inputs|
  {
    b(hist + inputs[..j], inputs[j])
  }

  /** The samples of `t` in the answers to all inputs, one after the other. */
  function Collected(inputs: seq<PrimitiveInput>, b: Behaviour, hist: seq<PrimitiveInput>, t: Target): seq<real> {
    if inputs == [] then []
    else
      var last := |inputs| - 1;
      var answer := Answer(inputs, b, hist, last);
      Collected(inputs[..last], b, hist, t) + if answer.Ok? then SamplesOf(answer.value, t) else []
  }

  /** What running a list of inputs amounts to: `stop` is the first failing input, or the
      number of inputs. */
  ghost predicate RanTo(inputs: seq<PrimitiveInput>, b: Behaviour, hist: seq<PrimitiveInput>, r: Run, stop: nat) {
    && stop <= |inputs|
    && (forall j | 0 <= j < stop :: Answer(inputs, b, hist, j).Ok?)
    && (stop == |inputs| ==>
          && r.result.Ok? && r.calls == hist + inputs
          && forall t :: SamplesOf(r.result.value, t) == Collected(inputs, b, hist, t))
    && (stop < |inputs| ==>
          && Answer(inputs, b, hist, stop).Err?
          && r.result == Answer(inputs, b, hist, stop)
          && r.calls == hist + inputs[..stop + 1])
  }

  lemma RunListCollects(inputs: seq<PrimitiveInput>, b: Behaviour, hist: seq<PrimitiveInput>, prev: Run)
    requires inputs != []
    requires prev.result.Ok? && Answer(inputs, b, hist, |inputs| - 1).Ok?
    requires forall t :: SamplesOf(prev.result.value, t) == Collected(inputs[..|inputs| - 1], b, hist, t)
    ensures forall t ::
              SamplesOf(Merge(prev.result.value, Answer(inputs, b, hist, |inputs| - 1).value), t)
              == Collected(inputs, b, hist, t)
  {
    forall t
      ensures SamplesOf(Merge(prev.result.value, Answer(inputs, b, hist, |inputs| - 1).value), t)
           == Collected(inputs, b, hist, t)
    {
      MergeSamples(prev.result.value, Answer(inputs, b, hist, |inputs| - 1).value, t);
    }
  }

  lemma AnswerOfInit(init: seq<PrimitiveInput>, last: PrimitiveInput, b: Behaviour, hist: seq<PrimitiveInput>, j: nat)
    requires j < |init|
    ensures Answer(init + [last], b, hist, j) == Answer(init, b, hist, j)
  {
    assert (init + [last])[..j] == init[..j];
  }

  /** A run that has stopped takes no notice of one more input. */
  lemma StoppedBefore(init: seq<PrimitiveInput>, last: PrimitiveInput, b: Behaviour, hist: seq<PrimitiveInput>,
                      r: Run, stop: nat)
    requires RanTo(init, b, hist, r, stop) && stop < |init|
    ensures RanTo(init + [last], b, hist, r, stop)
  {
    forall j | 0 <= j <= stop
      ensures Answer(init + [last], b, hist, j) == Answer(init, b, hist, j)
    {
      AnswerOfInit(init, last, b, hist, j);
    }
    assert (init + [last])[..stop + 1] == init[..stop + 1];
  }

  /** A run that got through takes one more step. */
  lemma OneFurther(init: seq<PrimitiveInput>, last: PrimitiveInput, b: Behaviour, hist: seq<PrimitiveInput>, prev: Run)
    requires RanTo(init, b, hist, prev, |init|)
    ensures
      var answer := b(hist + init, last);
      var r := if answer.Err? then answer else Ok(Merge(prev.result.value, answer.value));
      RanTo(init + [last], b, hist, Run(r, hist + init + [last]), if answer.Err? then |init| else |init| + 1)
  {
    var inputs := init + [last];
    forall j | 0 <= j < |init|
      ensures Answer(inputs, b, hist, j) == Answer(init, b, hist, j)
    {
      AnswerOfInit(init, last, b, hist, j);
    }
    assert inputs[..|init|] == init && inputs[..|init| + 1] == inputs;
    assert hist + inputs == hist + init + [last];
    if Answer(inputs, b, hist, |init|).Ok? {
      RunListCollects(inputs, b, hist, prev);
    }
  }

  lemma {:induction false} RunListStops(inputs: seq<PrimitiveInput>, b: Behaviour, hist: seq<PrimitiveInput>)
    returns (stop: nat)
    ensures RanTo(inputs, b, hist, RunList(inputs, b, hist), stop)
  {
    if inputs == [] {
      stop := 0;
      assert hist + inputs == hist;
    } else {
      var init, last := inputs[..|inputs| - 1], inputs[|inputs| - 1];
      assert inputs == init + [last];
      stop := RunListStops(init, b, hist);
      var prev := RunList(init, b, hist);
      if stop < |init| {
        StoppedBefore(init, last, b, hist, prev, stop);
      } else {
        OneFurther(init, last, b, hist, prev);
        if b(hist + init, last).Ok? {
          stop := stop + 1;
        }
      }
    }
  }

  /** Fail-fast execution at every nesting level. The executor is called on a plan's leaves
      in their order; a run that succeeds calls it once per leaf and returns every getter's
      samples in leaf order; and when leaf `stop` is the first to fail, it is the last one
      called and its error, without any output, is the result of the whole plan. */
  lemma ExecutionFailsFast(p: Plan, b: Behaviour, hist: seq<PrimitiveInput>) returns (stop: nat)
    ensures InputsAre(Leaves(p), InputsOf(p))
    ensures RanTo(InputsOf(p), b, hist, Execute(p, b, hist), stop)
  {
    InputsOfLeaves(p);
    ExecutionIsFlat(p, b, hist);
    stop := RunListStops(InputsOf(p), b, hist);
  }

  // ------------------------------------------------------------------- replaying

  /** Outputs merged one after the other. */
  function MergeAll(outs: seq<Output>): Output {
    if outs == [] then map[] else Merge(MergeAll(outs[..|outs| - 1]), outs[|outs| - 1])
  }

  lemma MergeAllSnoc(init: seq<Output>, last: Output)
    ensures MergeAll(init + [last]) == Merge(MergeAll(init), last)
  {
    assert (init + [last])[..|init|] == init;
  }

  lemma MergeAllOne(out: Output)
    ensures MergeAll([out]) == out
  {
    assert [out][..0] == [];
    MergeNothing(out);
  }

  /** Merging in groups is merging all. */
  lemma {:induction false} MergeAllAppend(a: seq<Output>, b: seq<Output>)
    ensures MergeAll(a + b) == Merge(MergeAll(a), MergeAll(b))
  {
    if b == [] {
      assert a + b == a;
      MergeNothing(MergeAll(a));
    } else {
      var init, last := b[..|b| - 1], b[|b| - 1];
      assert b == init + [last] && a + b == (a + init) + [last];
      MergeAllAppend(a, init);
      MergeAllSnoc(a + init, last);
      MergeAllSnoc(init, last);
      MergeAssociative(MergeAll(a), MergeAll(init), last);
    }
  }

  /** The answers of a run, one per input. */
  function AnswersOf(inputs: seq<PrimitiveInput>, b: Behaviour, hist: seq<PrimitiveInput>): seq<Output> {
    if inputs == [] then []
    else
      var last := |inputs| - 1;
      AnswersOf(inputs[..last], b, hist)
      + [if Answer(inputs, b, hist, last).Ok? then Answer(inputs, b, hist, last).value else map[]]
  }

  lemma {:induction false} RunMerges(inputs: seq<PrimitiveInput>, b: Behaviour, hist: seq<PrimitiveInput>)
    requires RunList(inputs, b, hist).result.Ok?
    ensures RunList(inputs, b, hist).result == Ok(MergeAll(AnswersOf(inputs, b, hist)))
  {
    if inputs != [] {
      var init, last := inputs[..|inputs| - 1], inputs[|inputs| - 1];
      RunMerges(init, b, hist);
      RunListCalls(init, b, hist);
      MergeAllSnoc(AnswersOf(init, b, hist), b(hist + init, last).value);
    }
  }

  lemma {:induction false} AnswersAt(inputs: seq<PrimitiveInput>, b: Behaviour, hist: seq<PrimitiveInput>, j: nat)
    requires j < |inputs| && RunList(inputs, b, hist).result.Ok?
    ensures |AnswersOf(inputs, b, hist)| == |inputs|
    ensures Answer(inputs, b, hist, j) == Ok(AnswersOf(inputs, b, hist)[j])
  {
    var init, last := inputs[..|inputs| - 1], inputs[|inputs| - 1];
    assert inputs == init + [last];
    RunListCalls(init, b, hist);
    if j < |init| {
      AnswersAt(init, b, hist, j);
      AnswerOfInit(init, last, b, hist, j);
    } else if init != [] {
      AnswersAt(init, b, hist, 0);
    }
  }

  /** What a plan returns is the merged answers to its leaves, one per leaf and in their order. */
  lemma ExecutionMergesAnswers(p: Plan, b: Behaviour, hist: seq<PrimitiveInput>)
    requires Execute(p, b, hist).result.Ok?
    ensures Execute(p, b, hist).result == Ok(MergeAll(AnswersOf(InputsOf(p), b, hist)))
  {
    ExecutionIsFlat(p, b, hist);
    RunMerges(InputsOf(p), b, hist);
  }

  /** When an executor answers each input in the same way whatever came before, the run merges
      these answers. */
  lemma {:induction false} SteadyRun(inputs: seq<PrimitiveInput>, b: Behaviour, outs: seq<Output>)
    requires |outs| == |inputs|
    requires forall i, hist | 0 <= i < |inputs| :: b(hist, inputs[i]) == Ok(outs[i])
    ensures RunList(inputs, b, []).result == Ok(MergeAll(outs))
  {
    if inputs != [] {
      var n := |inputs| - 1;
      SteadyRun(inputs[..n], b, outs[..n]);
      assert inputs == inputs[..n] + [inputs[n]] && outs == outs[..n] + [outs[n]];
      RunListSnoc(inputs[..n], inputs[n], b, [], MergeAll(outs[..n]), outs[n]);
    }
  }
}
