/**
 Executing a whole plan on the registry: one visit to the script server per leaf, what each of
 them returned, and what is tracked in between and in the end.
 */
module PlanRuns {
  import opened Wrappers
  import opened Planner
  import opened PlanExecution
  import opened PrimitiveCode
  import opened Averaging
  import opened Buffers
  import opened WireCodec
  import opened Decoder
  import opened DispatchProtocol
  import opened EndToEnd
  import opened Registry

  // --------------------------------------------------------- what is left tracked

  /** What is tracked after some visits. */
  function AfterVisits(before: Store, visits: seq<Visit>): Store {
    if visits == [] then before
    else
      var init := visits[..|visits| - 1];
      AfterRun(AfterVisits(before, init), MeasurementId(visits[|visits| - 1].counter), visits[|visits| - 1].claimed)
  }

  lemma AfterVisitsSnoc(before: Store, init: seq<Visit>, v: Visit)
    ensures AfterVisits(before, init + [v])
         == AfterRun(AfterVisits(before, init), MeasurementId(v.counter), v.claimed)
  {
    assert (init + [v])[..|init|] == init;
  }

  lemma {:induction false} AfterVisitsAppend(before: Store, a: seq<Visit>, b: seq<Visit>)
    ensures AfterVisits(before, a + b) == AfterVisits(AfterVisits(before, a), b)
  {
    if b == [] {
      assert a + b == a;
    } else {
      var init, last := b[..|b| - 1], b[|b| - 1];
      assert b == init + [last] && a + b == (a + init) + [last];
      AfterVisitsAppend(before, a, init);
      AfterVisitsSnoc(before, a + init, last);
      AfterVisitsSnoc(AfterVisits(before, a), init, last);
    }
  }

  /** None of the visits re-registered anything. */
  predicate AllFresh(before: Store, visits: seq<Visit>) {
    visits == [] ||
    var init := visits[..|visits| - 1];
    AllFresh(before, init) && FreshIds(AfterVisits(before, init), visits[|visits| - 1].claimed)
  }

  lemma AllFreshSnoc(before: Store, init: seq<Visit>, v: Visit)
    ensures AllFresh(before, init + [v]) <==>
            AllFresh(before, init) && FreshIds(AfterVisits(before, init), v.claimed)
  {
    assert (init + [v])[..|init|] == init;
  }

  lemma {:induction false} AllFreshAppend(before: Store, a: seq<Visit>, b: seq<Visit>)
    ensures AllFresh(before, a + b) <==>
            AllFresh(before, a) && AllFresh(AfterVisits(before, a), b)
  {
    if b == [] {
      assert a + b == a;
    } else {
      var init, last := b[..|b| - 1], b[|b| - 1];
      assert b == init + [last] && a + b == (a + init) + [last];
      AllFreshAppend(before, a, init);
      AllFreshSnoc(before, a + init, last);
      AllFreshSnoc(AfterVisits(before, a), init, last);
      AfterVisitsAppend(before, a, init);
    }
  }

  // -------------------------------------------------------------- runs of visits

  /** A condition on a visit: its input, the visit, and its output. */
  type VisitCheck = (PrimitiveInput, Visit, Output) -> bool

  /** The first inputs have been visited, one after the other, and `outs` are their outputs. */
  predicate Visited(ok: VisitCheck, inputs: seq<PrimitiveInput>, visits: seq<Visit>, outs: seq<Output>) {
    && |outs| <= |inputs| && |outs| <= |visits|
    && forall i | 0 <= i < |outs| :: ok(inputs[i], visits[i], outs[i])
  }

  lemma Prefixes<T>(s: seq<T>, more: seq<T>, n: nat)
    requires n < |s|
    ensures (s + more)[..n] == s[..n] && (s + more)[n] == s[n]
  {
  }

  lemma Suffixes<T>(s: seq<T>, more: seq<T>, n: nat)
    requires n < |more|
    ensures (s + more)[..|s| + n] == s + more[..n] && (s + more)[|s| + n] == more[n]
  {
  }

  /** Further inputs and visits take nothing away. */
  lemma VisitedExtends(ok: VisitCheck, inputs: seq<PrimitiveInput>, moreInputs: seq<PrimitiveInput>,
                       visits: seq<Visit>, more: seq<Visit>, outs: seq<Output>)
    requires Visited(ok, inputs, visits, outs)
    ensures Visited(ok, inputs + moreInputs, visits + more, outs)
  {
    forall i | 0 <= i < |outs|
      ensures ok((inputs + moreInputs)[i], (visits + more)[i], outs[i])
    {
      assert ok(inputs[i], visits[i], outs[i]);
    }
  }

  lemma VisitedAppend(ok: VisitCheck, a: seq<PrimitiveInput>, b: seq<PrimitiveInput>, va: seq<Visit>, vb: seq<Visit>,
                      oa: seq<Output>, ob: seq<Output>)
    requires Visited(ok, a, va, oa) && |oa| == |va| == |a|
    requires Visited(ok, b, vb, ob)
    ensures Visited(ok, a + b, va + vb, oa + ob)
  {
    forall i | 0 <= i < |oa + ob|
      ensures ok((a + b)[i], (va + vb)[i], (oa + ob)[i])
    {
      if i < |oa| {
        assert ok(a[i], va[i], oa[i]);
      } else {
        assert ok(b[i - |oa|], vb[i - |oa|], ob[i - |oa|]);
      }
    }
  }

  /** Conditions on a failure, before and after the script was called. */
  type RefusalCheck = (PrimitiveInput, RunError) -> bool
  type FailureCheck = (PrimitiveInput, Visit, RunError) -> bool

  /** Input `n` is the one that failed, after those before it were visited. */
  predicate FailedAfter(refused: RefusalCheck, failed: FailureCheck, inputs: seq<PrimitiveInput>, visits: seq<Visit>,
                        n: nat, e: RunError)
  {
    && n < |inputs|
    && (|visits| == n || |visits| == n + 1)
    && if |visits| == n then refused(inputs[n], e) else failed(inputs[n], visits[n], e)
  }

  lemma FailedAppend(refused: RefusalCheck, failed: FailureCheck, a: seq<PrimitiveInput>, b: seq<PrimitiveInput>,
                     va: seq<Visit>, vb: seq<Visit>, n: nat, e: RunError)
    requires |va| == |a| && FailedAfter(refused, failed, b, vb, n, e)
    ensures FailedAfter(refused, failed, a + b, va + vb, |a| + n, e)
  {
    Suffixes(a, b, n);
    if |vb| == n + 1 {
      Suffixes(va, vb, n);
    }
  }

  lemma FailedExtends(refused: RefusalCheck, failed: FailureCheck, inputs: seq<PrimitiveInput>,
                      more: seq<PrimitiveInput>, visits: seq<Visit>, n: nat, e: RunError)
    requires FailedAfter(refused, failed, inputs, visits, n, e)
    ensures FailedAfter(refused, failed, inputs + more, visits, n, e)
  {
    Prefixes(inputs, more, n);
  }

  /** How the execution of a list of inputs ended: with all of them visited and their outputs
      merged, or with the first failure. */
  predicate Ended(ok: VisitCheck, refused: RefusalCheck, failed: FailureCheck, inputs: seq<PrimitiveInput>,
                  visits: seq<Visit>, outs: seq<Output>, r: Result<Output, RunError>)
  {
    && Visited(ok, inputs, visits, outs)
    && match r
       case Ok(merged) => |outs| == |visits| == |inputs| && merged == MergeAll(outs)
       case Err(e) => FailedAfter(refused, failed, inputs, visits, |outs|, e)
  }

  lemma EndedAppend(ok: VisitCheck, refused: RefusalCheck, failed: FailureCheck, a: seq<PrimitiveInput>,
                    b: seq<PrimitiveInput>, va: seq<Visit>, vb: seq<Visit>, oa: seq<Output>, ob: seq<Output>,
                    first: Output, r: Result<Output, RunError>)
    requires Ended(ok, refused, failed, a, va, oa, Ok(first)) && Ended(ok, refused, failed, b, vb, ob, r)
    ensures Ended(ok, refused, failed, a + b, va + vb, oa + ob, if r.Err? then r else Ok(Merge(first, r.value)))
  {
    VisitedAppend(ok, a, b, va, vb, oa, ob);
    if r.Ok? {
      MergeAllAppend(oa, ob);
    } else {
      FailedAppend(refused, failed, a, b, va, vb, |ob|, r.error);
    }
  }

  /** An error of the first inputs is the error of all. */
  lemma EndedExtends(ok: VisitCheck, refused: RefusalCheck, failed: FailureCheck, inputs: seq<PrimitiveInput>,
                     more: seq<PrimitiveInput>, visits: seq<Visit>, outs: seq<Output>, r: Result<Output, RunError>)
    requires Ended(ok, refused, failed, inputs, visits, outs, r) && r.Err?
    ensures Ended(ok, refused, failed, inputs + more, visits, outs, r)
  {
    VisitedExtends(ok, inputs, more, visits, [], outs);
    assert visits + [] == visits;
    FailedExtends(refused, failed, inputs, more, visits, |outs|, r.error);
  }

  lemma OneVisit(ok: VisitCheck, refused: RefusalCheck, failed: FailureCheck, input: PrimitiveInput, v: Visit,
                 out: Output)
    requires ok(input, v, out)
    ensures Ended(ok, refused, failed, [input], [v], [out], Ok(out))
  {
    MergeAllOne(out);
  }

  lemma OneFailure(ok: VisitCheck, refused: RefusalCheck, failed: FailureCheck, input: PrimitiveInput,
                   visits: seq<Visit>, e: RunError)
    requires |visits| <= 1
    requires if visits == [] then refused(input, e) else failed(input, visits[0], e)
    ensures Ended(ok, refused, failed, [input], visits, [], Err(e))
  {
    assert visits[..0] == [];
  }

  /** What holds of every visit that is good or failed holds of all visits of a run. */
  lemma VisitMade(ok: VisitCheck, refused: RefusalCheck, failed: FailureCheck, inputs: seq<PrimitiveInput>,
                  visits: seq<Visit>, outs: seq<Output>, r: Result<Output, RunError>,
                  made: (PrimitiveInput, Visit) -> bool, i: nat)
    requires Ended(ok, refused, failed, inputs, visits, outs, r) && i < |visits|
    requires forall input, v, out | ok(input, v, out) :: made(input, v)
    requires forall input, v, e | failed(input, v, e) :: made(input, v)
    ensures |visits| <= |inputs| && made(inputs[i], visits[i])
  {
    if i < |outs| {
      assert ok(inputs[i], visits[i], outs[i]);
    }
  }

  /** The visits were made one after the other: each got the next number, and found tracked
      what those before it had left. */
  predicate Chained(before: Store, from: nat, visits: seq<Visit>) {
    visits == [] ||
    var init, last := visits[..|visits| - 1], visits[|visits| - 1];
    Chained(before, from, init) && last.counter == from + |visits| && last.before == AfterVisits(before, init)
  }

  lemma ChainedSnoc(before: Store, from: nat, init: seq<Visit>, v: Visit)
    ensures Chained(before, from, init + [v]) <==>
            Chained(before, from, init) && v.counter == from + |init| + 1 && v.before == AfterVisits(before, init)
  {
    assert (init + [v])[..|init|] == init;
  }

  lemma {:induction false} ChainedAppend(before: Store, from: nat, store: Store, number: nat, a: seq<Visit>,
                                         b: seq<Visit>)
    requires store == AfterVisits(before, a) && number == from + |a|
    requires Chained(before, from, a) && Chained(store, number, b)
    ensures Chained(before, from, a + b)
  {
    if b == [] {
      assert a + b == a;
    } else {
      var init, last := b[..|b| - 1], b[|b| - 1];
      assert b == init + [last] && a + b == (a + init) + [last];
      ChainedAppend(before, from, store, number, a, init);
      ChainedSnoc(before, from, a + init, last);
      AfterVisitsAppend(before, a, init);
    }
  }

  lemma {:induction false} ChainedAt(before: Store, from: nat, visits: seq<Visit>, i: nat)
    requires Chained(before, from, visits) && i < |visits|
    ensures visits[i].counter == from + i + 1 && visits[i].before == AfterVisits(before, visits[..i])
  {
    if i < |visits| - 1 {
      var init := visits[..|visits| - 1];
      ChainedAt(before, from, init, i);
      assert init[..i] == visits[..i];
    }
  }

  // --------------------------------------------------------------- on the registry

  /** The visit was made for the input, and the output is what it returned. */
  ghost predicate VisitExplained(registry: MeasurementRegistry, points: NumberOfPoints, input: PrimitiveInput, v: Visit,
                                 out: Output)
  {
    registry.Dispatched(input, points, v) && registry.Explained(input, points, out, v) && LeafSized(input, points, out)
  }

  /** The visit was made for the input, and failed for the given reason. */
  ghost predicate VisitFailed(registry: MeasurementRegistry, points: NumberOfPoints, input: PrimitiveInput, v: Visit,
                              e: RunError)
  {
    registry.Dispatched(input, points, v) && registry.FailsWith(input, points, e, v)
  }

  ghost function Explains(registry: MeasurementRegistry, points: NumberOfPoints): VisitCheck {
    (input: PrimitiveInput, v: Visit, out: Output) => VisitExplained(registry, points, input, v, out)
  }

  ghost function Refuses(registry: MeasurementRegistry, points: NumberOfPoints): RefusalCheck {
    (input: PrimitiveInput, e: RunError) => registry.RefusedWith(input, points, e)
  }

  ghost function Fails(registry: MeasurementRegistry, points: NumberOfPoints): FailureCheck {
    (input: PrimitiveInput, v: Visit, e: RunError) => VisitFailed(registry, points, input, v, e)
  }

  /** How the execution of a plan's leaves ended on the registry. */
  ghost predicate RanOn(registry: MeasurementRegistry, inputs: seq<PrimitiveInput>, points: NumberOfPoints,
                        visits: seq<Visit>, outs: seq<Output>, r: Result<Output, RunError>)
  {
    Ended(Explains(registry, points), Refuses(registry, points), Fails(registry, points), inputs, visits, outs, r)
  }

  /** What a list of visits leaves behind: the counter, what is tracked, and whether a library
      reference was lost. */
  ghost predicate Left(registry: MeasurementRegistry, before: Store, from: nat, was: multiset<string>,
                       visits: seq<Visit>)
    reads registry.dispatcher, registry.dispatcher.manager
  {
    && Chained(before, from, visits)
    && registry.dispatcher.counter == from + |visits|
    && registry.dispatcher.manager.buffers == AfterVisits(before, visits)
    && was <= registry.dispatcher.manager.overwritten
    && (registry.dispatcher.manager.overwritten == was <==> AllFresh(before, visits))
  }

  lemma OneVisitLeaves(before: Store, from: nat, v: Visit)
    requires v.counter == from + 1 && v.before == before
    ensures AfterVisits(before, [v]) == AfterRun(before, MeasurementId(v.counter), v.claimed)
    ensures AllFresh(before, [v]) <==> FreshIds(before, v.claimed)
    ensures Chained(before, from, [v])
  {
    assert [v][..0] == [];
    assert AfterVisits(before, []) == before;
  }

  method ExecuteLeaf(registry: MeasurementRegistry, input: PrimitiveInput, points: NumberOfPoints)
    returns (r: Result<Output, RunError>, ghost visits: seq<Visit>, ghost outs: seq<Output>)
    requires registry.dispatcher.manager.Valid() && BoundedInput(input)
    requires forall d :: d in registry.measurements ==> CompleteDefinition(registry.measurements[d])
    modifies registry.dispatcher, registry.dispatcher.manager, registry.dispatcher.manager.services
    ensures registry.dispatcher.manager.Valid()
    ensures Left(registry, old(registry.dispatcher.manager.buffers), old(registry.dispatcher.counter),
                 old(registry.dispatcher.manager.overwritten), visits)
    ensures RanOn(registry, [input], points, visits, outs, r)
  {
    ghost var before, from := registry.dispatcher.manager.buffers, registry.dispatcher.counter;
    ghost var visit;
    r, visit := registry.RunMeasurement(input, points);
    visits := if visit.Some? then [visit.value] else [];
    outs := if r.Ok? then [r.value] else [];
    if visit.Some? {
      OneVisitLeaves(before, from, visit.value);
    }
    LeafRan(registry, input, points, visit, r);
  }

  /** What one measurement reports, as the end of a list of one input. */
  lemma LeafRan(registry: MeasurementRegistry, input: PrimitiveInput, points: NumberOfPoints, visit: Option<Visit>,
                r: Result<Output, RunError>)
    requires r.Ok? ==> visit.Some? && VisitExplained(registry, points, input, visit.value, r.value)
    requires r.Err? && visit.Some? ==> VisitFailed(registry, points, input, visit.value, r.error)
    requires r.Err? && visit.None? ==> registry.RefusedWith(input, points, r.error)
    ensures RanOn(registry, [input], points, if visit.Some? then [visit.value] else [],
                  if r.Ok? then [r.value] else [], r)
  {
    var ok, refused, failed := Explains(registry, points), Refuses(registry, points), Fails(registry, points);
    match r {
      case Ok(out) =>
        OneVisit(ok, refused, failed, input, visit.value, out);
      case Err(e) =>
        OneFailure(ok, refused, failed, input, if visit.Some? then [visit.value] else [], e);
    }
  }

  lemma ChildInputs(ps: seq<Plan>, k: nat)
    requires k < |ps|
    ensures InputsOfAll(ps[..k + 1]) == InputsOfAll(ps[..k]) + InputsOf(ps[k])
  {
    assert ps[..k + 1][..k] == ps[..k];
  }

  lemma {:induction false} InputsSplit(ps: seq<Plan>, k: nat) returns (rest: seq<PrimitiveInput>)
    requires k <= |ps|
    ensures InputsOfAll(ps) == InputsOfAll(ps[..k]) + rest
  {
    if k == |ps| {
      assert ps[..k] == ps;
      rest := [];
    } else {
      assert ps[..|ps| - 1][..k] == ps[..k];
      var init := InputsSplit(ps[..|ps| - 1], k);
      rest := init + InputsOf(ps[|ps| - 1]);
    }
  }

  lemma LeftThen(registry: MeasurementRegistry, before: Store, from: nat, was: multiset<string>, store: Store,
                 number: nat, mid: multiset<string>, va: seq<Visit>, vb: seq<Visit>)
    requires was <= mid && (mid == was <==> AllFresh(before, va)) && Chained(before, from, va)
    requires store == AfterVisits(before, va) && number == from + |va|
    requires Left(registry, store, number, mid, vb)
    ensures Left(registry, before, from, was, va + vb)
  {
    AfterVisitsAppend(before, va, vb);
    AllFreshAppend(before, va, vb);
    ChainedAppend(before, from, store, number, va, vb);
  }

  /** One more child, after `inputs` have been executed. */
  method ExecuteChild(registry: MeasurementRegistry, p: Plan, points: NumberOfPoints, out: Output,
                      ghost inputs: seq<PrimitiveInput>, ghost before: Store, ghost from: nat,
                      ghost was: multiset<string>, ghost earlier: seq<Visit>, ghost done: seq<Output>)
    returns (r: Result<Output, RunError>, ghost visits: seq<Visit>, ghost outs: seq<Output>)
    requires registry.dispatcher.manager.Valid() && BoundedInputs(InputsOf(p))
    requires forall d :: d in registry.measurements ==> CompleteDefinition(registry.measurements[d])
    requires Left(registry, before, from, was, earlier)
    requires RanOn(registry, inputs, points, earlier, done, Ok(out))
    modifies registry.dispatcher, registry.dispatcher.manager, registry.dispatcher.manager.services
    ensures registry.dispatcher.manager.Valid()
    ensures Left(registry, before, from, was, visits)
    ensures RanOn(registry, inputs + InputsOf(p), points, visits, outs, r)
    decreases p, 1
  {
    var result;
    ghost var own, given;
    ghost var mid := registry.dispatcher.manager.overwritten;
    ghost var store, number := registry.dispatcher.manager.buffers, registry.dispatcher.counter;
    result, own, given := ExecuteOn(registry, p, points);
    LeftThen(registry, before, from, was, store, number, mid, earlier, own);
    EndedAppend(Explains(registry, points), Refuses(registry, points), Fails(registry, points), inputs, InputsOf(p),
                earlier, own, done, given, out, result);
    visits, outs := earlier + own, done + given;
    if result.Err? {
      r := result;
      return;
    }
    var merged := MergeOutputs(out, result.value);
    r := Ok(merged);
  }

  /** Executing a whole plan. The script server is visited once per leaf, in order, up to the
      first failure, which ends the execution; each output is what its own script returned for
      its own input; on success they are merged in order; and what is tracked afterwards is
      what the visits leave. */
  method ExecuteOn(registry: MeasurementRegistry, p: Plan, points: NumberOfPoints)
    returns (r: Result<Output, RunError>, ghost visits: seq<Visit>, ghost outs: seq<Output>)
    requires registry.dispatcher.manager.Valid() && BoundedInputs(InputsOf(p))
    requires forall d :: d in registry.measurements ==> CompleteDefinition(registry.measurements[d])
    modifies registry.dispatcher, registry.dispatcher.manager, registry.dispatcher.manager.services
    ensures registry.dispatcher.manager.Valid()
    ensures Left(registry, old(registry.dispatcher.manager.buffers), old(registry.dispatcher.counter),
                 old(registry.dispatcher.manager.overwritten), visits)
    ensures RanOn(registry, InputsOf(p), points, visits, outs, r)
    decreases p, 0
  {
    if p.Native? {
      assert BoundedInput(InputsOf(p)[0]);
      r, visits, outs := ExecuteLeaf(registry, p.input, points);
      return;
    }
    r, visits, outs := ExecuteChildren(registry, p.children, points);
  }

  lemma ChildFailureStays(registry: MeasurementRegistry, children: seq<Plan>, k: nat, points: NumberOfPoints,
                          visits: seq<Visit>, outs: seq<Output>, r: Result<Output, RunError>)
    requires k <= |children| && r.Err?
    requires RanOn(registry, InputsOfAll(children[..k]), points, visits, outs, r)
    ensures RanOn(registry, InputsOfAll(children), points, visits, outs, r)
  {
    var rest := InputsSplit(children, k);
    EndedExtends(Explains(registry, points), Refuses(registry, points), Fails(registry, points),
                 InputsOfAll(children[..k]), rest, visits, outs, r);
  }

  /** Child `k`, after those before it. */
  method ExecuteNext(registry: MeasurementRegistry, children: seq<Plan>, k: nat, points: NumberOfPoints, out: Output,
                     ghost before: Store, ghost from: nat, ghost was: multiset<string>, ghost earlier: seq<Visit>,
                     ghost done: seq<Output>)
    returns (r: Result<Output, RunError>, ghost visits: seq<Visit>, ghost outs: seq<Output>)
    requires registry.dispatcher.manager.Valid() && k < |children| && BoundedInputs(InputsOfAll(children))
    requires forall d :: d in registry.measurements ==> CompleteDefinition(registry.measurements[d])
    requires Left(registry, before, from, was, earlier)
    requires RanOn(registry, InputsOfAll(children[..k]), points, earlier, done, Ok(out))
    modifies registry.dispatcher, registry.dispatcher.manager, registry.dispatcher.manager.services
    ensures registry.dispatcher.manager.Valid()
    ensures Left(registry, before, from, was, visits)
    ensures RanOn(registry, InputsOfAll(if r.Ok? then children[..k + 1] else children), points, visits, outs, r)
    decreases children, 0
  {
    ChildBounded(children, k);
    ChildInputs(children, k);
    r, visits, outs := ExecuteChild(registry, children[k], points, out, InputsOfAll(children[..k]), before, from, was,
                                    earlier, done);
    if r.Err? {
      ChildFailureStays(registry, children, k + 1, points, visits, outs, r);
    }
  }

  method ExecuteChildren(registry: MeasurementRegistry, children: seq<Plan>, points: NumberOfPoints)
    returns (r: Result<Output, RunError>, ghost visits: seq<Visit>, ghost outs: seq<Output>)
    requires registry.dispatcher.manager.Valid() && BoundedInputs(InputsOfAll(children))
    requires forall d :: d in registry.measurements ==> CompleteDefinition(registry.measurements[d])
    modifies registry.dispatcher, registry.dispatcher.manager, registry.dispatcher.manager.services
    ensures registry.dispatcher.manager.Valid()
    ensures Left(registry, old(registry.dispatcher.manager.buffers), old(registry.dispatcher.counter),
                 old(registry.dispatcher.manager.overwritten), visits)
    ensures RanOn(registry, InputsOfAll(children), points, visits, outs, r)
    decreases children, 1
  {
    ghost var manager := registry.dispatcher.manager;
    ghost var before, from, was := manager.buffers, registry.dispatcher.counter, manager.overwritten;
    var out: Output := map[];
    r, visits, outs := Ok(out), [], [];
    NothingRan(registry, children, points, before, from);
    for k := 0 to |children|
      invariant registry.dispatcher.manager.Valid() && r == Ok(out)
      invariant Left(registry, before, from, was, visits)
      invariant RanOn(registry, InputsOfAll(children[..k]), points, visits, outs, Ok(out))
    {
      r, visits, outs := ExecuteNext(registry, children, k, points, out, before, from, was, visits, outs);
      if r.Err? {
        return;
      }
      out := r.value;
    }
    AllInputs(children);
  }

  lemma AllInputs(children: seq<Plan>)
    ensures InputsOfAll(children[..|children|]) == InputsOfAll(children)
  {
    assert children[..|children|] == children;
  }

  lemma NothingRan(registry: MeasurementRegistry, children: seq<Plan>, points: NumberOfPoints, before: Store,
                   from: nat)
    ensures RanOn(registry, InputsOfAll(children[..0]), points, [], [], Ok(map[]))
    ensures AfterVisits(before, []) == before && AllFresh(before, []) && Chained(before, from, [])
  {
    assert children[..0] == [];
  }

  // ------------------------------------------------------------------ consequences

  /** The outputs of a run have the sizes that their inputs ask for, and are merged. */
  lemma RanSized(registry: MeasurementRegistry, inputs: seq<PrimitiveInput>, points: NumberOfPoints, visits: seq<Visit>,
                 outs: seq<Output>, r: Result<Output, RunError>)
    requires RanOn(registry, inputs, points, visits, outs, r) && r.Ok?
    ensures LeavesSized(inputs, points, outs) && r == Ok(MergeAll(outs))
  {
    forall i | 0 <= i < |outs|
      ensures LeafSized(inputs[i], points, outs[i])
    {
      assert Explains(registry, points)(inputs[i], visits[i], outs[i]);
    }
  }

  /** Every visit of a run was made for its own input. */
  lemma RunVisits(registry: MeasurementRegistry, inputs: seq<PrimitiveInput>, points: NumberOfPoints,
                  visits: seq<Visit>, outs: seq<Output>, r: Result<Output, RunError>, i: nat)
    requires RanOn(registry, inputs, points, visits, outs, r) && i < |visits|
    ensures |visits| <= |inputs| && registry.Dispatched(inputs[i], points, visits[i])
  {
    VisitMade(Explains(registry, points), Refuses(registry, points), Fails(registry, points), inputs, visits, outs, r,
              (input: PrimitiveInput, v: Visit) => registry.Dispatched(input, points, v), i);
  }

  /** An input that does not get as far as its script ends the execution at once. */
  lemma RefusedFromTheStart(registry: MeasurementRegistry, inputs: seq<PrimitiveInput>, points: NumberOfPoints,
                            visits: seq<Visit>, outs: seq<Output>, r: Result<Output, RunError>)
    requires RanOn(registry, inputs, points, visits, outs, r)
    requires inputs != [] && !registry.Dispatchable(inputs[0], points)
    ensures r.Err? && visits == [] && registry.RefusedWith(inputs[0], points, r.error)
  {
    if visits != [] {
      RunVisits(registry, inputs, points, visits, outs, r, 0);
    }
  }

  lemma {:induction false} VisitsOnlyRemove(before: Store, visits: seq<Visit>)
    ensures AfterVisits(before, visits).Items <= before.Items
  {
    if visits != [] {
      VisitsOnlyRemove(before, visits[..|visits| - 1]);
    }
  }

  lemma SameItems(a: Store, b: Store)
    requires a.Items <= b.Items && b.Items <= a.Items
    ensures a == b
  {
    assert a.Items == b.Items;
    forall id | id in a
      ensures id in b && b[id] == a[id]
    {
      assert (id, a[id]) in a.Items;
    }
    forall id | id in b
      ensures id in a
    {
      assert (id, b[id]) in b.Items;
    }
  }

  /** Visits leave exactly what they found if and only if each had a new id and claimed nothing
      that was tracked. */
  lemma {:induction false} VisitsLeaveWhatTheyFound(before: Store, visits: seq<Visit>)
    ensures AfterVisits(before, visits) == before <==>
            forall i | 0 <= i < |visits| ::
              NoneOwnedBy(before, MeasurementId(visits[i].counter)) && Untracked(before, visits[i].claimed)
  {
    if visits != [] {
      var init, last := visits[..|visits| - 1], visits[|visits| - 1];
      var mid := AfterVisits(before, init);
      VisitsLeaveWhatTheyFound(before, init);
      LeavesWhatItFound(before, MeasurementId(last.counter), last.claimed);
      if AfterVisits(before, visits) == before {
        VisitsOnlyRemove(before, init);
        assert before.Items <= mid.Items;
        SameItems(mid, before);
      }
      assert visits == init + [last];
    }
  }

  /** The visit has a new id, and its script returned only buffers that nobody tracked. */
  ghost predicate TidyVisit(registry: MeasurementRegistry, before: Store, v: Visit) {
    && NoneOwnedBy(before, MeasurementId(v.counter))
    && Untracked(before, AnsweredIds(registry.AnswerTo(v)))
    && ClaimedFrom(registry.AnswerTo(v), v.claimed)
  }

  /** The visit's script returned no buffer twice. */
  predicate ReturnsOnce(registry: MeasurementRegistry, v: Visit) {
    DistinctIds(AnsweredIds(registry.AnswerTo(v)))
  }

  /** Tidy visits leave what they found, and lose no reference if no buffer is returned twice. */
  lemma {:induction false} TidyVisitsLeaveNoTrace(registry: MeasurementRegistry, before: Store, visits: seq<Visit>)
    requires forall i | 0 <= i < |visits| :: TidyVisit(registry, before, visits[i])
    ensures AfterVisits(before, visits) == before
    ensures (forall i | 0 <= i < |visits| :: ReturnsOnce(registry, visits[i])) ==> AllFresh(before, visits)
  {
    if visits != [] {
      var init, last := visits[..|visits| - 1], visits[|visits| - 1];
      TidyVisitsLeaveNoTrace(registry, before, init);
      LeavesNoTrace(before, MeasurementId(last.counter), registry.AnswerTo(last), last.claimed);
      if forall i | 0 <= i < |visits| :: ReturnsOnce(registry, visits[i]) {
        assert forall i | 0 <= i < |init| :: init[i] == visits[i];
        assert ReturnsOnce(registry, last);
      }
    }
  }

  /** The ids that the next `n` measurements get are new, and whatever scripts they run return
      only buffers that are not tracked now. */
  ghost predicate TidyServer(dispatcher: Dispatcher, before: Store, from: nat, n: nat) {
    forall number | from < number <= from + n ::
      && NoneOwnedBy(before, MeasurementId(number))
      && forall script, arguments :: Untracked(before, AnsweredIds(dispatcher.execute(number, script, arguments)))
  }

  /** No script that they run returns a buffer twice. */
  ghost predicate ServesOnce(dispatcher: Dispatcher, from: nat, n: nat) {
    forall number, script, arguments | from < number <= from + n ::
      DistinctIds(AnsweredIds(dispatcher.execute(number, script, arguments)))
  }

  lemma ServedTidily(registry: MeasurementRegistry, before: Store, from: nat, n: nat, v: Visit)
    requires TidyServer(registry.dispatcher, before, from, n) && from < v.counter <= from + n
    requires ClaimedFrom(registry.AnswerTo(v), v.claimed)
    ensures TidyVisit(registry, before, v)
    ensures ServesOnce(registry.dispatcher, from, n) ==> ReturnsOnce(registry, v)
  {
  }

  /** With such a server, executing a plan leaves what it found, however it ends. */
  lemma TidyServerLeavesNoTrace(registry: MeasurementRegistry, inputs: seq<PrimitiveInput>, points: NumberOfPoints,
                                before: Store, from: nat, visits: seq<Visit>, outs: seq<Output>,
                                r: Result<Output, RunError>)
    requires RanOn(registry, inputs, points, visits, outs, r) && Chained(before, from, visits)
    requires TidyServer(registry.dispatcher, before, from, |inputs|)
    ensures AfterVisits(before, visits) == before
    ensures ServesOnce(registry.dispatcher, from, |inputs|) ==> AllFresh(before, visits)
  {
    forall i | 0 <= i < |visits|
      ensures TidyVisit(registry, before, visits[i])
      ensures ServesOnce(registry.dispatcher, from, |inputs|) ==> ReturnsOnce(registry, visits[i])
    {
      RunVisits(registry, inputs, points, visits, outs, r, i);
      ChainedAt(before, from, visits, i);
      ServedTidily(registry, before, from, |inputs|, visits[i]);
    }
    TidyVisitsLeaveNoTrace(registry, before, visits);
  }
}
