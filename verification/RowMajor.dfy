/**
 Row-major walks over a box of indices: the order in which the planner nests its
 children and in which a script is to emit its positions.
 */
module RowMajor {

  /** All positions of length `m` that extend `pre`, the last index moving fastest. */
  function Walk(shape: seq<nat>, pre: seq<nat>, m: nat): seq<seq<nat>>
    requires |pre| <= m <= |shape|
    decreases m - |pre|, 1, 0
  {
    if |pre| == m then [pre] else WalkUpTo(shape, pre, m, shape[|pre|])
  }

  /** The part of the walk in which the next index stays below `k`. */
  function WalkUpTo(shape: seq<nat>, pre: seq<nat>, m: nat, k: nat): seq<seq<nat>>
    requires |pre| < m <= |shape|
    decreases m - |pre|, 0, k
  {
    if k == 0 then [] else WalkUpTo(shape, pre, m, k - 1) + Walk(shape, pre + [k - 1], m)
  }

  function Product(shape: seq<nat>): nat {
    if shape == [] then 1 else shape[0] * Product(shape[1..])
  }

  predicate InBox(shape: seq<nat>, pos: seq<nat>) {
    |pos| <= |shape| && forall a | 0 <= a < |pos| :: pos[a] < shape[a]
  }

  /** The place of a position in row-major order, by Horner's rule. */
  function Rank(shape: seq<nat>, pos: seq<nat>): nat
    requires |pos| <= |shape|
  {
    if pos == [] then 0
    else Rank(shape, pos[..|pos| - 1]) * shape[|pos| - 1] + pos[|pos| - 1]
  }

  // ------------------------------------------------------------------- length

  lemma {:induction false} WalkLength(shape: seq<nat>, pre: seq<nat>, m: nat)
    requires |pre| <= m <= |shape|
    ensures |Walk(shape, pre, m)| == Product(shape[|pre|..m])
    decreases m - |pre|, 1, 0
  {
    if |pre| < m {
      WalkUpToLength(shape, pre, m, shape[|pre|]);
      assert shape[|pre|..m][1..] == shape[|pre| + 1..m];
    }
  }

  lemma {:induction false} WalkUpToLength(shape: seq<nat>, pre: seq<nat>, m: nat, k: nat)
    requires |pre| < m <= |shape|
    ensures |WalkUpTo(shape, pre, m, k)| == k * Product(shape[|pre| + 1..m])
    decreases m - |pre|, 0, k
  {
    if k > 0 {
      WalkUpToLength(shape, pre, m, k - 1);
      WalkLength(shape, pre + [k - 1], m);
      var p := Product(shape[|pre| + 1..m]);
      assert (k - 1) * p + p == k * p;
    }
  }

  // ----------------------------------------------------------------- contents

  /** Every entry extends `pre`, has length `m` and stays inside the box. */
  lemma {:induction false} WalkEntries(shape: seq<nat>, pre: seq<nat>, m: nat)
    requires |pre| <= m <= |shape| && InBox(shape, pre)
    ensures forall q :: q in Walk(shape, pre, m) ==> |q| == m && InBox(shape, q) && q[..|pre|] == pre
    decreases m - |pre|, 1, 0
  {
    if |pre| < m {
      WalkUpToEntries(shape, pre, m, shape[|pre|]);
    }
  }

  lemma {:induction false} WalkUpToEntries(shape: seq<nat>, pre: seq<nat>, m: nat, k: nat)
    requires |pre| < m <= |shape| && InBox(shape, pre) && k <= shape[|pre|]
    ensures forall q :: q in WalkUpTo(shape, pre, m, k) ==> |q| == m && InBox(shape, q) && q[..|pre|] == pre
    decreases m - |pre|, 0, k
  {
    if k > 0 {
      WalkUpToEntries(shape, pre, m, k - 1);
      WalkEntries(shape, pre + [k - 1], m);
      forall q | q in Walk(shape, pre + [k - 1], m)
        ensures q[..|pre|] == pre
      {
        assert q[..|pre| + 1][..|pre|] == q[..|pre|];
      }
    }
  }

  /** The weight of the digits that follow `pre`: how far one step of its last index moves. */
  function Stride(shape: seq<nat>, from: nat, m: nat): nat
    requires from <= m <= |shape|
  {
    Product(shape[from..m])
  }

  /** The rank of `pos` relative to its first `k` indices. */
  function RankFrom(shape: seq<nat>, pos: seq<nat>, k: nat): nat
    requires k <= |pos| <= |shape|
    decreases |pos| - k
  {
    if k == |pos| then 0
    else pos[k] * Stride(shape, k + 1, |pos|) + RankFrom(shape, pos, k + 1)
  }

  lemma {:induction false} WalkAtFrom(shape: seq<nat>, pos: seq<nat>, k: nat)
    requires InBox(shape, pos) && k <= |pos|
    ensures RankFrom(shape, pos, k) < |Walk(shape, pos[..k], |pos|)|
    ensures Walk(shape, pos[..k], |pos|)[RankFrom(shape, pos, k)] == pos
    decreases |pos| - k, 1, 0
  {
    if k == |pos| {
      assert pos[..k] == pos;
    } else {
      WalkUpToAt(shape, pos, k, shape[k]);
    }
  }

  lemma {:induction false} WalkUpToAt(shape: seq<nat>, pos: seq<nat>, k: nat, j: nat)
    requires InBox(shape, pos) && k < |pos| && pos[k] < j
    ensures RankFrom(shape, pos, k) < |WalkUpTo(shape, pos[..k], |pos|, j)|
    ensures WalkUpTo(shape, pos[..k], |pos|, j)[RankFrom(shape, pos, k)] == pos
    decreases |pos| - k, 0, j
  {
    if pos[k] < j - 1 {
      WalkUpToAt(shape, pos, k, j - 1);
    } else {
      WalkAtFrom(shape, pos, k + 1);
      assert pos[..k] + [j - 1] == pos[..k + 1];
      WalkUpToLength(shape, pos[..k], |pos|, j - 1);
    }
  }

  lemma {:induction false} ProductSnoc(shape: seq<nat>, last: nat)
    ensures Product(shape + [last]) == Product(shape) * last
  {
    if shape == [] {
      assert shape + [last] == [last];
      assert [last][1..] == [];
    } else {
      ProductSnoc(shape[1..], last);
      assert (shape + [last])[1..] == shape[1..] + [last];
      assert shape[0] * (Product(shape[1..]) * last) == shape[0] * Product(shape[1..]) * last;
    }
  }

  lemma {:induction false} ProductPositive(shape: seq<nat>)
    requires forall a | 0 <= a < |shape| :: shape[a] > 0
    ensures Product(shape) > 0
  {
    if shape != [] {
      ProductPositive(shape[1..]);
    }
  }

  lemma {:induction false} StrideSnoc(shape: seq<nat>, from: nat, m: nat)
    requires from <= m < |shape|
    ensures Stride(shape, from, m + 1) == Stride(shape, from, m) * shape[m]
  {
    assert shape[from..m + 1] == shape[from..m] + [shape[m]];
    ProductSnoc(shape[from..m], shape[m]);
  }

  lemma HornerStep(a: nat, b: nat, r: nat, s: nat)
    ensures a * (b * s) + r * s == (a * b + r) * s
  {
    assert a * (b * s) == a * b * s;
  }

  lemma {:induction false} RankFromSnoc(shape: seq<nat>, init: seq<nat>, last: nat, k: nat)
    requires k <= |init| < |shape|
    ensures RankFrom(shape, init + [last], k) == RankFrom(shape, init, k) * shape[|init|] + last
    decreases |init| - k
  {
    var pos, m := init + [last], |init|;
    if k == m {
      assert RankFrom(shape, pos, k + 1) == 0;
      assert shape[k + 1..m + 1] == [];
    } else {
      RankFromSnoc(shape, init, last, k + 1);
      StrideSnoc(shape, k + 1, m);
      HornerStep(init[k], Stride(shape, k + 1, m), RankFrom(shape, init, k + 1), shape[m]);
    }
  }

  lemma {:induction false} RankFromStart(shape: seq<nat>, pos: seq<nat>)
    requires |pos| <= |shape|
    ensures RankFrom(shape, pos, 0) == Rank(shape, pos)
  {
    if pos != [] {
      var init, last := pos[..|pos| - 1], pos[|pos| - 1];
      assert init + [last] == pos;
      RankFromSnoc(shape, init, last, 0);
      RankFromStart(shape, init);
    }
  }

  /** The walk is row-major: every position of the box stands at its Horner rank, and the
      walk holds nothing else. */
  lemma WalkIsRowMajor(shape: seq<nat>, pos: seq<nat>)
    requires |pos| == |shape| && InBox(shape, pos)
    ensures |Walk(shape, [], |shape|)| == Product(shape)
    ensures Rank(shape, pos) < Product(shape)
    ensures Walk(shape, [], |shape|)[Rank(shape, pos)] == pos
  {
    WalkLength(shape, [], |shape|);
    assert shape[0..|shape|] == shape;
    WalkAtFrom(shape, pos, 0);
    assert pos[..0] == [];
    RankFromStart(shape, pos);
  }

  // -------------------------------------------------------------- composition

  /** Prefixing every entry of a walk. */
  function Prefixed(pre: seq<nat>, walk: seq<seq<nat>>): (r: seq<seq<nat>>)
    ensures |r| == |walk| && forall i | 0 <= i < |walk| :: r[i] == pre + walk[i]
  {
    seq(|walk|, i requires 0 <= i < |walk| => pre + walk[i])
  }

  /** A walk below `pre` is a walk of the remaining axes with `pre` in front. */
  lemma {:induction false} WalkShift(shape: seq<nat>, pre: seq<nat>, q: seq<nat>)
    requires |pre| + |q| <= |shape|
    ensures Walk(shape, pre + q, |shape|) == Prefixed(pre, Walk(shape[|pre|..], q, |shape| - |pre|))
    decreases |shape| - |q|, 1, 0
  {
    if |pre| + |q| < |shape| {
      WalkUpToShift(shape, pre, q, shape[|pre| + |q|]);
    }
  }

  lemma {:induction false} WalkUpToShift(shape: seq<nat>, pre: seq<nat>, q: seq<nat>, k: nat)
    requires |pre| + |q| < |shape|
    ensures WalkUpTo(shape, pre + q, |shape|, k)
         == Prefixed(pre, WalkUpTo(shape[|pre|..], q, |shape| - |pre|, k))
    decreases |shape| - |q|, 0, k
  {
    if k > 0 {
      WalkUpToShift(shape, pre, q, k - 1);
      WalkShift(shape, pre, q + [k - 1]);
      assert pre + q + [k - 1] == pre + (q + [k - 1]);
    }
  }

  /** The walks to depth `n` below each entry of a walk, one after the other. */
  function WalkAll(shape: seq<nat>, starts: seq<seq<nat>>, n: nat): seq<seq<nat>>
    requires n <= |shape| && forall i | 0 <= i < |starts| :: |starts[i]| <= n
  {
    if starts == [] then []
    else WalkAll(shape, starts[..|starts| - 1], n) + Walk(shape, starts[|starts| - 1], n)
  }

  lemma WalkAllSnoc(shape: seq<nat>, init: seq<seq<nat>>, last: seq<nat>, n: nat)
    requires n <= |shape| && (forall i | 0 <= i < |init| :: |init[i]| <= n) && |last| <= n
    ensures forall i | 0 <= i < |init + [last]| :: |(init + [last])[i]| <= n
    ensures WalkAll(shape, init + [last], n) == WalkAll(shape, init, n) + Walk(shape, last, n)
  {
    assert (init + [last])[..|init|] == init;
  }

  lemma {:induction false} WalkAllAppend(shape: seq<nat>, a: seq<seq<nat>>, b: seq<seq<nat>>, n: nat)
    requires n <= |shape| && (forall i | 0 <= i < |a| :: |a[i]| <= n) && (forall i | 0 <= i < |b| :: |b[i]| <= n)
    ensures forall i | 0 <= i < |a + b| :: |(a + b)[i]| <= n
    ensures WalkAll(shape, a + b, n) == WalkAll(shape, a, n) + WalkAll(shape, b, n)
  {
    if b == [] {
      assert a + b == a;
    } else {
      var init := b[..|b| - 1];
      WalkAllAppend(shape, a, init, n);
      assert (a + b)[..|a + b| - 1] == a + init;
    }
  }

  lemma EntriesShort(walk: seq<seq<nat>>, n: nat)
    requires forall q :: q in walk ==> |q| <= n
    ensures forall i | 0 <= i < |walk| :: |walk[i]| <= n
  {
    forall i | 0 <= i < |walk|
      ensures |walk[i]| <= n
    {
      assert walk[i] in walk;
    }
  }

  /** Walking to depth `n` is walking to depth `m` and from each entry on to depth `n`. */
  lemma {:induction false} WalkInStages(shape: seq<nat>, pre: seq<nat>, m: nat, n: nat)
    requires |pre| <= m <= n <= |shape| && InBox(shape, pre)
    ensures forall q :: q in Walk(shape, pre, m) ==> |q| <= n
    ensures Walk(shape, pre, n) == WalkAll(shape, Walk(shape, pre, m), n)
    decreases m - |pre|, 1, 0
  {
    WalkEntries(shape, pre, m);
    if |pre| < m {
      WalkUpToInStages(shape, pre, m, n, shape[|pre|]);
    } else {
      assert [pre][..0] == [];
    }
  }

  lemma {:induction false} WalkUpToInStages(shape: seq<nat>, pre: seq<nat>, m: nat, n: nat, k: nat)
    requires |pre| < m <= n <= |shape| && InBox(shape, pre) && k <= shape[|pre|]
    ensures forall q :: q in WalkUpTo(shape, pre, m, k) ==> |q| <= n
    ensures WalkUpTo(shape, pre, n, k) == WalkAll(shape, WalkUpTo(shape, pre, m, k), n)
    decreases m - |pre|, 0, k
  {
    WalkUpToEntries(shape, pre, m, k);
    if k > 0 {
      var before, below := WalkUpTo(shape, pre, m, k - 1), Walk(shape, pre + [k - 1], m);
      WalkUpToInStages(shape, pre, m, n, k - 1);
      WalkInStages(shape, pre + [k - 1], m, n);
      EntriesShort(before, n);
      EntriesShort(below, n);
      WalkAllAppend(shape, before, below, n);
    }
  }
}
