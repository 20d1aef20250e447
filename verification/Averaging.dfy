/**
 Block averaging of repeated samples, and why averaging a merged sweep once is the same as
 averaging inside every leaf of its plan.
 */
module Averaging {
  import opened Wrappers
  import opened Division
  import opened Planner
  import opened PlanExecution

  function Sum(s: seq<real>): real {
    if s == [] then 0.0 else Sum(s[..|s| - 1]) + s[|s| - 1]
  }

  /** The sums of the consecutive blocks of `points` samples. */
  function BlockSums(data: seq<real>, points: int): seq<real>
    requires points > 0
  {
    if |data| < points then []
    else
      var last := |data| - points;
      BlockSums(data[..last], points) + [Sum(data[last..])]
  }

  function Scaled(sums: seq<real>, points: int): (r: seq<real>)
    requires points > 0
    ensures |r| == |sums|
  {
    seq(|sums|, i requires 0 <= i < |sums| => sums[i] / points as real)
  }

  /** The averages of the consecutive blocks of `points` samples. */
  function Averages(data: seq<real>, points: int): seq<real>
    requires points > 0
  {
    Scaled(BlockSums(data, points), points)
  }

  datatype AverageError = InvalidCount | NotDivisible

  /** `n` samples come in whole blocks. */
  predicate WholeBlocks(n: nat, points: int)
    requires points > 0
  {
    n == 0 || (n >= points && WholeBlocks(n - points, points))
  }

  lemma {:induction false} WholeBlocksDivide(n: nat, points: int)
    requires points > 0
    ensures WholeBlocks(n, points) <==> n % points == 0
  {
    BlockStep(n, points);
    if n >= points {
      WholeBlocksDivide(n - points, points);
    }
  }

  predicate Averageable(data: seq<real>, points: int) {
    points > 0 && WholeBlocks(|data|, points)
  }

  method AverageData(data: seq<real>, points: int) returns (r: Result<seq<real>, AverageError>)
    ensures r.Ok? <==> points > 0 && |data| % points == 0
    ensures r.Ok? ==> Averageable(data, points) && r.value == Averages(data, points)
    ensures points <= 0 ==> r == Err(InvalidCount)
  {
    if points <= 0 {
      return Err(InvalidCount);
    }
    WholeBlocksDivide(|data|, points);
    if |data| % points != 0 {
      return Err(NotDivisible);
    }
    var out := AverageBlocks(data, points);
    r := Ok(out);
  }

  method AverageBlocks(data: seq<real>, points: int) returns (out: seq<real>)
    requires Averageable(data, points)
    ensures out == Averages(data, points)
  {
    out := [];
    var i := 0;
    while i < |data|
      invariant 0 <= i <= |data| && WholeBlocks(|data| - i, points)
      invariant out == Averages(data[..i], points)
    {
      var sum := 0.0;
      for j := 0 to points
        invariant sum == Sum(data[i..i + j])
      {
        SumNext(data, i, j);
        sum := sum + data[i + j];
      }
      AveragesNext(data, i, points);
      out := out + [sum / points as real];
      i := i + points;
    }
    assert data[..i] == data;
  }

  // --------------------------------------------------------------------- laws

  lemma BlockSumsSnoc(init: seq<real>, block: seq<real>, points: int)
    requires |block| == points > 0
    ensures BlockSums(init + block, points) == BlockSums(init, points) + [Sum(block)]
  {
    assert (init + block)[..|init|] == init && (init + block)[|init|..] == block;
  }

  lemma SumNext(data: seq<real>, i: nat, j: nat)
    requires i + j < |data|
    ensures Sum(data[i..i + j + 1]) == Sum(data[i..i + j]) + data[i + j]
  {
    assert data[i..i + j + 1] == data[i..i + j] + [data[i + j]];
    SumSnoc(data[i..i + j], data[i + j]);
  }

  lemma AveragesNext(data: seq<real>, i: nat, points: int)
    requires points > 0 && i + points <= |data|
    ensures Averages(data[..i + points], points)
         == Averages(data[..i], points) + [Sum(data[i..i + points]) / points as real]
  {
    assert data[..i + points] == data[..i] + data[i..i + points];
    BlockSumsSnoc(data[..i], data[i..i + points], points);
  }

  /** Splitting off the last block. */
  lemma LastBlock(data: seq<real>, points: int) returns (init: seq<real>, block: seq<real>)
    requires Averageable(data, points) && data != []
    ensures data == init + block && |block| == points && Averageable(init, points) && |init| < |data|
  {
    init, block := data[..|data| - points], data[|data| - points..];
  }

  lemma {:induction false} SumAppend(a: seq<real>, b: seq<real>)
    ensures Sum(a + b) == Sum(a) + Sum(b)
  {
    if b == [] {
      assert a + b == a;
    } else {
      SumAppend(a, b[..|b| - 1]);
      assert (a + b)[..|a + b| - 1] == a + b[..|b| - 1];
    }
  }

  lemma SumSnoc(s: seq<real>, x: real)
    ensures Sum(s + [x]) == Sum(s) + x
  {
    assert (s + [x])[..|s|] == s;
  }

  lemma {:induction false} BlockSumsTotal(data: seq<real>, points: int)
    requires Averageable(data, points)
    ensures Sum(BlockSums(data, points)) == Sum(data)
    decreases |data|
  {
    if data != [] {
      var init, block := LastBlock(data, points);
      BlockSumsTotal(init, points);
      BlockSumsSnoc(init, block, points);
      SumAppend(init, block);
      SumSnoc(BlockSums(init, points), Sum(block));
    }
  }

  lemma {:induction false} BlockSumsLength(data: seq<real>, points: int)
    requires Averageable(data, points)
    ensures points * |BlockSums(data, points)| == |data|
    decreases |data|
  {
    if data != [] {
      var init, block := LastBlock(data, points);
      BlockSumsLength(init, points);
      BlockSumsSnoc(init, block, points);
      OneMore(|BlockSums(init, points)|, points);
    }
  }

  lemma {:induction false} ScaledTotal(sums: seq<real>, points: int)
    requires points > 0
    ensures points as real * Sum(Scaled(sums, points)) == Sum(sums)
  {
    if sums != [] {
      var init, last := sums[..|sums| - 1], sums[|sums| - 1];
      ScaledTotal(init, points);
      assert Scaled(sums, points) == Scaled(init, points) + [last / points as real];
      SumSnoc(Scaled(init, points), last / points as real);
    }
  }

  /** Averaging keeps the total, up to the number of samples per average. */
  lemma AveragingKeepsTheTotal(data: seq<real>, points: int)
    requires Averageable(data, points)
    ensures points as real * Sum(Averages(data, points)) == Sum(data)
  {
    ScaledTotal(BlockSums(data, points), points);
    BlockSumsTotal(data, points);
  }

  /** Averaging divides the number of samples by exactly the number per average. */
  lemma AveragesLength(data: seq<real>, points: int)
    requires Averageable(data, points)
    ensures points * |Averages(data, points)| == |data|
  {
    BlockSumsLength(data, points);
  }

  lemma {:induction false} BlockSumsAppend(a: seq<real>, b: seq<real>, points: int)
    requires Averageable(b, points)
    ensures BlockSums(a + b, points) == BlockSums(a, points) + BlockSums(b, points)
    decreases |b|
  {
    if b == [] {
      assert a + b == a;
    } else {
      var init, block := LastBlock(b, points);
      BlockSumsAppend(a, init, points);
      BlockSumsSnoc(init, block, points);
      BlockSumsSnoc(a + init, block, points);
      AppendAssociative(a, init, block);
      AppendAssociative(BlockSums(a, points), BlockSums(init, points), [Sum(block)]);
    }
  }

  lemma {:induction false} WholeBlocksAppend(m: nat, n: nat, points: int)
    requires points > 0 && WholeBlocks(m, points) && WholeBlocks(n, points)
    ensures WholeBlocks(m + n, points)
  {
    if n > 0 {
      WholeBlocksAppend(m, n - points, points);
    }
  }

  /** Averaging is a homomorphism on whole blocks. */
  lemma AveragesAppend(a: seq<real>, b: seq<real>, points: int)
    requires Averageable(a, points) && Averageable(b, points)
    ensures Averageable(a + b, points)
    ensures Averages(a + b, points) == Averages(a, points) + Averages(b, points)
  {
    WholeBlocksAppend(|a|, |b|, points);
    BlockSumsAppend(a, b, points);
  }

  lemma {:induction false} BlockSumAt(data: seq<real>, points: int, k: nat)
    requires Averageable(data, points) && k < |BlockSums(data, points)|
    ensures 0 <= points * k <= points * k + points <= |data|
    ensures BlockSums(data, points)[k] == Sum(data[points * k..points * k + points])
    decreases |data|
  {
    var init, block := LastBlock(data, points);
    BlockSumsSnoc(init, block, points);
    BlockSumsLength(init, points);
    if k == |BlockSums(init, points)| {
      LastSlice(init, block);
    } else {
      BlockSumAt(init, points, k);
      SliceOfInit(init, block, points * k, points * k + points);
    }
  }

  lemma LastSlice(init: seq<real>, block: seq<real>)
    ensures (init + block)[|init|..|init| + |block|] == block
  {
  }

  lemma SliceOfInit(init: seq<real>, block: seq<real>, from: nat, to: nat)
    requires from <= to <= |init|
    ensures (init + block)[from..to] == init[from..to]
  {
  }

  /** Each average is the mean of its own block of consecutive samples. */
  lemma AverageAt(data: seq<real>, points: int, k: nat)
    requires Averageable(data, points) && k < |Averages(data, points)|
    ensures 0 <= points * k <= points * k + points <= |data|
    ensures points as real * Averages(data, points)[k] == Sum(data[points * k..points * k + points])
  {
    BlockSumAt(data, points, k);
  }

  // ------------------------------------------------------------ merged outputs

  /** Samples per position by getter; a missing getter reads as 0, for "not read". */
  type NumberOfPoints = map<Target, int>

  function PointsOf(points: NumberOfPoints, t: Target): int {
    if t in points then points[t] else 0
  }

  predicate AverageableOrRaw(data: seq<real>, n: int) {
    n == 0 || Averageable(data, n)
  }

  function AveragedOrRaw(data: seq<real>, n: int): seq<real> {
    if n > 0 then Averages(data, n) else data
  }

  ghost predicate OutputAverageable(out: Output, points: NumberOfPoints) {
    forall t :: t in out ==> AverageableOrRaw(out[t], PointsOf(points, t))
  }

  function AveragedOutput(out: Output, points: NumberOfPoints): Output {
    map t | t in out :: AveragedOrRaw(out[t], PointsOf(points, t))
  }

  /** Averaging a merged output in place, getter by getter in any map order. */
  method AverageOutput(out: Output, points: NumberOfPoints) returns (r: Result<Output, AverageError>)
    ensures r.Ok? <==> OutputAverageable(out, points)
    ensures r.Ok? ==> r.value == AveragedOutput(out, points)
  {
    var averaged := out;
    var remaining := out.Keys;
    while remaining != {}
      invariant remaining <= out.Keys && averaged.Keys == out.Keys
      invariant forall t :: t in out && t !in remaining ==> AverageableOrRaw(out[t], PointsOf(points, t))
      invariant forall t :: t in out ==>
                  averaged[t] == if t in remaining then out[t] else AveragedOrRaw(out[t], PointsOf(points, t))
      decreases remaining
    {
      var t :| t in remaining;
      var n := PointsOf(points, t);
      if n != 0 {
        var data := AverageData(averaged[t], n);
        if data.Err? {
          WholeBlocksDivide(|out[t]|, if n > 0 then n else 1);
          assert !AverageableOrRaw(out[t], n);
          return Err(data.error);
        }
        averaged := averaged[t := data.value];
      }
      remaining := remaining - {t};
    }
    r := Ok(averaged);
  }

  lemma AveragedMergeAt(a: Output, b: Output, points: NumberOfPoints, t: Target)
    requires OutputAverageable(a, points) && OutputAverageable(b, points) && (t in a || t in b)
    ensures AverageableOrRaw(SamplesOf(Merge(a, b), t), PointsOf(points, t))
    ensures AveragedOrRaw(SamplesOf(Merge(a, b), t), PointsOf(points, t))
         == SamplesOf(AveragedOutput(a, points), t) + SamplesOf(AveragedOutput(b, points), t)
  {
    MergeSamples(a, b, t);
    var x, y, n := SamplesOf(a, t), SamplesOf(b, t), PointsOf(points, t);
    assert AverageableOrRaw(x, n) && AverageableOrRaw(y, n);
    if n != 0 {
      AveragesAppend(x, y, n);
    }
  }

  /** Averaging a merged output is merging the averaged outputs. */
  lemma AveragedMerge(a: Output, b: Output, points: NumberOfPoints)
    requires OutputAverageable(a, points) && OutputAverageable(b, points)
    ensures OutputAverageable(Merge(a, b), points)
    ensures AveragedOutput(Merge(a, b), points) == Merge(AveragedOutput(a, points), AveragedOutput(b, points))
  {
    forall t | t in Merge(a, b)
      ensures AverageableOrRaw(Merge(a, b)[t], PointsOf(points, t))
      ensures AveragedOutput(Merge(a, b), points)[t]
           == SamplesOf(AveragedOutput(a, points), t) + SamplesOf(AveragedOutput(b, points), t)
    {
      AveragedMergeAt(a, b, points, t);
    }
    MergeKeys(AveragedOutput(a, points), AveragedOutput(b, points));
    assert AveragedOutput(Merge(a, b), points).Keys == a.Keys + b.Keys;
  }

  // ------------------------------------------------ averaging inside every leaf

  function AveragedResult(r: Result<Output, string>, points: NumberOfPoints): Result<Output, string> {
    if r.Ok? then Ok(AveragedOutput(r.value, points)) else r
  }

  /** The executor that averages inside every primitive measurement. */
  function Leafwise(b: Behaviour, points: NumberOfPoints): Behaviour {
    (hist: seq<PrimitiveInput>, input: PrimitiveInput) => AveragedResult(b(hist, input), points)
  }

  ghost predicate AnswersAverageable(inputs: seq<PrimitiveInput>, b: Behaviour, hist: seq<PrimitiveInput>,
                                     points: NumberOfPoints) {
    forall j | 0 <= j < |inputs| && Answer(inputs, b, hist, j).Ok? ::
      OutputAverageable(Answer(inputs, b, hist, j).value, points)
  }

  lemma {:induction false} RunListAverages(inputs: seq<PrimitiveInput>, b: Behaviour, hist: seq<PrimitiveInput>,
                                           points: NumberOfPoints)
    requires AnswersAverageable(inputs, b, hist, points)
    ensures RunList(inputs, Leafwise(b, points), hist).calls == RunList(inputs, b, hist).calls
    ensures RunList(inputs, Leafwise(b, points), hist).result
         == AveragedResult(RunList(inputs, b, hist).result, points)
    ensures RunList(inputs, b, hist).result.Ok? ==>
              && RunList(inputs, b, hist).calls == hist + inputs
              && OutputAverageable(RunList(inputs, b, hist).result.value, points)
  {
    if inputs == [] {
      assert hist + inputs == hist;
    } else {
      var last := |inputs| - 1;
      var init := inputs[..last];
      forall j | 0 <= j < last
        ensures Answer(init, b, hist, j) == Answer(inputs, b, hist, j)
      {
        assert init[..j] == inputs[..j];
      }
      RunListAverages(init, b, hist, points);
      var prev := RunList(init, b, hist);
      if prev.result.Ok? && Answer(inputs, b, hist, last).Ok? {
        AveragedMerge(prev.result.value, Answer(inputs, b, hist, last).value, points);
        assert hist + inputs == hist + init + [inputs[last]];
      }
    }
  }

  /** Averaging commutes with decomposition: averaging the merged output of a plan once is
      averaging inside each of its leaves, at every level of nesting. */
  lemma AveragingCommutes(p: Plan, b: Behaviour, hist: seq<PrimitiveInput>, points: NumberOfPoints)
    requires AnswersAverageable(InputsOf(p), b, hist, points)
    ensures Execute(p, Leafwise(b, points), hist)
         == Run(AveragedResult(Execute(p, b, hist).result, points), Execute(p, b, hist).calls)
    ensures Execute(p, b, hist).result.Ok? ==> OutputAverageable(Execute(p, b, hist).result.value, points)
  {
    ExecutionIsFlat(p, b, hist);
    ExecutionIsFlat(p, Leafwise(b, points), hist);
    RunListAverages(InputsOf(p), b, hist, points);
  }
}
