/**
 Encoding one primitive measurement for its script: the step counts of the swept axes,
 the canonical order of the setters, and the script's arguments.
 */
module PrimitiveCode {
  import opened Wrappers
  import opened Planner

  datatype EncodeError = WrongDimension | NoGetters | RepeatedGetter | NotSerializable
                       | InvalidSweep | NoFixedField

  // -------------------------------------------------------------- axis counts

  predicate IsSweep(input: Input) {
    input.num.Some?
  }

  /** `counts` are the step counts of the input: held setters have no stop; each swept one
      has a stop, an axis in range and a positive count that is its axis's count; and every
      axis is swept by some setter. */
  ghost predicate Counted(input: PrimitiveInput, counts: seq<int>) {
    && |counts| == input.choice
    && (forall t :: t in input.setters && !IsSweep(input.setters[t]) ==> input.setters[t].stop.None?)
    && (forall t :: t in input.setters && IsSweep(input.setters[t]) ==> CountedAt(input.setters[t], counts))
    && (forall a | 0 <= a < |counts| :: SweptOn(input.setters, a))
  }

  predicate CountedAt(s: Input, counts: seq<int>)
    requires s.num.Some?
  {
    s.stop.Some? && 0 <= s.axis < |counts| && 0 < s.num.value == counts[s.axis]
  }

  ghost predicate SweptOn(setters: Setters, axis: int) {
    exists t :: t in setters && IsSweep(setters[t]) && setters[t].axis == axis
  }

  /** No two vectors count the same input. */
  lemma CountsUnique(input: PrimitiveInput, a: seq<int>, b: seq<int>)
    requires Counted(input, a) && Counted(input, b)
    ensures a == b
  {
    forall i | 0 <= i < |a|
      ensures a[i] == b[i]
    {
      assert SweptOn(input.setters, i);
      var t :| t in input.setters && IsSweep(input.setters[t]) && input.setters[t].axis == i;
      assert CountedAt(input.setters[t], a) && CountedAt(input.setters[t], b);
    }
  }

  /** The setters that the loop has seen agree with the counts it has filled in. */
  ghost predicate CountedSoFar(setters: Setters, seen: set<Target>, counts: seq<int>)
    requires seen <= setters.Keys
  {
    && (forall t :: t in seen && !IsSweep(setters[t]) ==> setters[t].stop.None?)
    && (forall t :: t in seen && IsSweep(setters[t]) ==> CountedAt(setters[t], counts))
    && (forall a | 0 <= a < |counts| ::
          counts[a] == 0 || exists t :: t in seen && IsSweep(setters[t]) && setters[t].axis == a)
  }

  /** Whatever order the map is walked in, counting succeeds exactly when the input has step
      counts, and then returns them. */
  method AxisCounts(input: PrimitiveInput) returns (r: Result<seq<int>, EncodeError>)
    requires BoundedInput(input)
    ensures r.Ok? ==> Counted(input, r.value)
    ensures r.Err? ==> r.error == InvalidSweep && forall counts :: !Counted(input, counts)
  {
    var counts := new int[input.choice](_ => 0);
    var remaining := input.setters.Keys;
    while remaining != {}
      invariant remaining <= input.setters.Keys
      invariant CountedSoFar(input.setters, input.setters.Keys - remaining, counts[..])
      decreases remaining
    {
      var t :| t in remaining;
      var setter := input.setters[t];
      if setter.num.None? {
        if setter.stop.Some? {
          return Err(InvalidSweep);
        }
      } else {
        if setter.stop.None? || setter.axis >= Uint8(counts.Length) || setter.num.value <= 0 {
          return Err(InvalidSweep);
        }
        if counts[setter.axis] != 0 && counts[setter.axis] != setter.num.value {
          ConflictingCounts(input, t, input.setters.Keys - remaining, counts[..]);
          return Err(InvalidSweep);
        }
        counts[setter.axis] := setter.num.value;
      }
      remaining := remaining - {t};
    }
    assert input.setters.Keys - {} == input.setters.Keys;
    for axis := 0 to counts.Length
      invariant forall a | 0 <= a < axis :: counts[a] != 0
    {
      if counts[axis] == 0 {
        NothingSwept(input, counts[..], axis);
        return Err(InvalidSweep);
      }
    }
    AllSwept(input, counts[..]);
    r := Ok(counts[..]);
  }

  /** Setters that sweep one axis must agree on its count. */
  lemma CoupledSettersAgree(input: PrimitiveInput, counts: seq<int>, t: Target, u: Target)
    requires Counted(input, counts) && t in input.setters && u in input.setters
    requires IsSweep(input.setters[t]) && IsSweep(input.setters[u]) && input.setters[t].axis == input.setters[u].axis
    ensures input.setters[t].num == input.setters[u].num
  {
    assert CountedAt(input.setters[t], counts) && CountedAt(input.setters[u], counts);
  }

  lemma ConflictingCounts(input: PrimitiveInput, t: Target, seen: set<Target>, counts: seq<int>)
    requires t in input.setters && seen <= input.setters.Keys && CountedSoFar(input.setters, seen, counts)
    requires IsSweep(input.setters[t]) && 0 <= input.setters[t].axis < |counts|
    requires counts[input.setters[t].axis] != 0 && counts[input.setters[t].axis] != input.setters[t].num.value
    ensures forall c :: !Counted(input, c)
  {
    var u :| u in seen && IsSweep(input.setters[u]) && input.setters[u].axis == input.setters[t].axis;
    assert CountedAt(input.setters[u], counts);
    forall c | Counted(input, c)
      ensures input.setters[t].num == input.setters[u].num
    {
      CoupledSettersAgree(input, c, t, u);
    }
  }

  /** An axis that nothing sweeps keeps its zero. */
  lemma NothingSwept(input: PrimitiveInput, counts: seq<int>, axis: nat)
    requires |counts| == input.choice && CountedSoFar(input.setters, input.setters.Keys, counts)
    requires axis < |counts| && counts[axis] == 0
    ensures forall c :: !Counted(input, c)
  {
    forall t | t in input.setters && IsSweep(input.setters[t])
      ensures input.setters[t].axis != axis
    {
      assert CountedAt(input.setters[t], counts);
    }
    assert !SweptOn(input.setters, axis);
  }

  lemma AllSwept(input: PrimitiveInput, counts: seq<int>)
    requires |counts| == input.choice && CountedSoFar(input.setters, input.setters.Keys, counts)
    requires forall a | 0 <= a < |counts| :: counts[a] != 0
    ensures Counted(input, counts)
  {
    forall a | 0 <= a < |counts|
      ensures SweptOn(input.setters, a)
    {
      assert counts[a] != 0;
      var t :| t in input.setters.Keys && IsSweep(input.setters[t]) && input.setters[t].axis == a;
    }
  }

  // ------------------------------------------------------- the native plan's shape

  /** What a native plan reports: as many lengths as it has swept axes (in a uint8), each
      the count of some setter of that axis, or zero for an axis without one. */
  ghost predicate NativeShapeOf(setters: Setters, shape: seq<int>) {
    && |shape| == Uint8(|SweptAxes(setters)|)
    && forall a | 0 <= a < |shape| ::
         if SweptOn(setters, a) then HasCount(setters, a, shape[a]) else shape[a] == 0
  }

  ghost predicate HasCount(setters: Setters, axis: int, count: int) {
    exists t :: t in setters && setters[t].axis == axis && setters[t].num == Some(count)
  }

  method NativeShape(setters: Setters) returns (shape: seq<int>)
    ensures NativeShapeOf(setters, shape) && |shape| == |SweptAxes(setters)| % 256
    ensures forall a | 0 <= a < |shape| ::
              || (exists t | t in setters :: setters[t].axis == a && setters[t].num == Some(shape[a]))
              || (shape[a] == 0 && forall t | t in setters :: setters[t].num.None? || setters[t].axis != a)
  {
    var counts: map<int, int> := map[];
    var remaining := setters.Keys;
    while remaining != {}
      invariant remaining <= setters.Keys
      invariant counts.Keys == set t | t in setters && t !in remaining && setters[t].num.Some? :: setters[t].axis
      invariant forall a :: a in counts ==> HasCount(setters, a, counts[a])
      decreases remaining
    {
      var t :| t in remaining;
      if setters[t].num.Some? {
        counts := counts[setters[t].axis := setters[t].num.value];
        assert HasCount(setters, setters[t].axis, setters[t].num.value);
      }
      remaining := remaining - {t};
    }
    assert counts.Keys == SweptAxes(setters);
    shape := [];
    for axis := 0 to Uint8(|counts|)
      invariant |shape| == axis
      invariant forall a | 0 <= a < axis :: shape[a] == if a in counts then counts[a] else 0
    {
      shape := shape + [if axis in counts then counts[axis] else 0];
    }
  }

  /** The two independent shape computations agree wherever the encoder accepts the input
      and the input's dimension is its number of swept axes. */
  lemma ShapesAgree(input: PrimitiveInput, counts: seq<int>, shape: seq<int>)
    requires input.choice == Uint8(|SweptAxes(input.setters)|)
    requires Counted(input, counts) && NativeShapeOf(input.setters, shape)
    ensures counts == shape
  {
    forall a | 0 <= a < |counts|
      ensures counts[a] == shape[a]
    {
      assert SweptOn(input.setters, a);
      var t :| t in input.setters && input.setters[t].axis == a && input.setters[t].num == Some(shape[a]);
      assert CountedAt(input.setters[t], counts);
    }
  }

  // ------------------------------------------------------- the order of setters

  /** Go's order on strings: byte by byte, a proper prefix first. */
  predicate StringLess(a: string, b: string) {
    && b != []
    && (a == [] || a[0] < b[0] || (a[0] == b[0] && StringLess(a[1..], b[1..])))
  }

  /** Instrument, then group, then channel. */
  predicate TargetLess(a: Target, b: Target) {
    if a.instrument != b.instrument then StringLess(a.instrument, b.instrument)
    else if a.group != b.group then StringLess(a.group, b.group)
    else a.channel < b.channel
  }

  /** The first difference decides, and a proper prefix comes first. */
  predicate FirstDifference(a: string, b: string, k: nat) {
    k <= |a| && k < |b| && a[..k] == b[..k] && (k == |a| || a[k] < b[k])
  }

  lemma {:induction false} StringLessMeans(a: string, b: string)
    ensures StringLess(a, b) <==> exists k: nat :: FirstDifference(a, b, k)
  {
    if StringLess(a, b) {
      var k := DifferenceOf(a, b);
    }
    forall k: nat | FirstDifference(a, b, k)
      ensures StringLess(a, b)
    {
      DifferenceOrders(a, b, k);
    }
  }

  lemma {:induction false} DifferenceOf(a: string, b: string) returns (k: nat)
    requires StringLess(a, b)
    ensures FirstDifference(a, b, k)
  {
    if a == [] || a[0] < b[0] {
      k := 0;
    } else {
      var rest := DifferenceOf(a[1..], b[1..]);
      k := rest + 1;
      assert a[..k] == [a[0]] + a[1..][..rest] && b[..k] == [b[0]] + b[1..][..rest];
    }
  }

  lemma {:induction false} DifferenceOrders(a: string, b: string, k: nat)
    requires FirstDifference(a, b, k)
    ensures StringLess(a, b)
  {
    if k > 0 {
      assert a[0] == a[..k][0] == b[..k][0] == b[0];
      assert a[1..][..k - 1] == a[..k][1..] && b[1..][..k - 1] == b[..k][1..];
      DifferenceOrders(a[1..], b[1..], k - 1);
    }
  }

  /** The instruments are in order; within one the groups are; and within one the channels. */
  ghost predicate Before(a: Target, b: Target) {
    || (exists k: nat :: FirstDifference(a.instrument, b.instrument, k))
    || (a.instrument == b.instrument && exists k: nat :: FirstDifference(a.group, b.group, k))
    || (a.instrument == b.instrument && a.group == b.group && a.channel < b.channel)
  }

  lemma TargetLessMeans(a: Target, b: Target)
    ensures TargetLess(a, b) <==> Before(a, b)
  {
    StringLessMeans(a.instrument, b.instrument);
    StringLessMeans(a.group, b.group);
    StringLessTotal(a.instrument, b.instrument);
    StringLessTotal(a.group, b.group);
    StringLessMeans(a.instrument, a.instrument);
  }

  predicate StrictlySorted(s: seq<Target>) {
    forall i, j | 0 <= i < j < |s| :: TargetLess(s[i], s[j])
  }

  lemma {:induction false} StringLessTotal(a: string, b: string)
    ensures StringLess(a, b) || a == b || StringLess(b, a)
    ensures !(StringLess(a, b) && StringLess(b, a))
  {
    if a != [] && b != [] && a[0] == b[0] {
      StringLessTotal(a[1..], b[1..]);
      assert a == [a[0]] + a[1..] && b == [b[0]] + b[1..];
    }
  }

  lemma {:induction false} StringLessTransitive(a: string, b: string, c: string)
    requires StringLess(a, b) && StringLess(b, c)
    ensures StringLess(a, c)
  {
    if a != [] && a[0] == b[0] == c[0] {
      StringLessTransitive(a[1..], b[1..], c[1..]);
    }
  }

  lemma TargetLessTotal(a: Target, b: Target)
    ensures TargetLess(a, b) || a == b || TargetLess(b, a)
    ensures !(TargetLess(a, b) && TargetLess(b, a)) && !TargetLess(a, a)
  {
    StringLessTotal(a.instrument, b.instrument);
    StringLessTotal(a.group, b.group);
  }

  lemma TargetLessTransitive(a: Target, b: Target, c: Target)
    requires TargetLess(a, b) && TargetLess(b, c)
    ensures TargetLess(a, c)
  {
    StringLessTotal(a.instrument, b.instrument);
    StringLessTotal(a.group, b.group);
    if a.instrument != b.instrument && b.instrument != c.instrument {
      StringLessTransitive(a.instrument, b.instrument, c.instrument);
    } else if a.instrument == b.instrument == c.instrument && a.group != b.group && b.group != c.group {
      StringLessTransitive(a.group, b.group, c.group);
    }
  }

  /** A set of targets has one strictly sorted listing: the order of the setters does not
      depend on the order in which the map was walked. */
  lemma {:induction false} SortedListingUnique(a: seq<Target>, b: seq<Target>)
    requires StrictlySorted(a) && StrictlySorted(b)
    requires forall t :: t in a <==> t in b
    ensures a == b
  {
    assert a == [] <==> b == [] by {
      assert a != [] ==> a[0] in b;
      assert b != [] ==> b[0] in a;
    }
    if a != [] {
      SameFirst(a, b);
      SameFirst(b, a);
      TargetLessTotal(a[0], b[0]);
      SameRest(a, b);
      SortedListingUnique(a[1..], b[1..]);
      assert a == [a[0]] + a[1..] && b == [b[0]] + b[1..];
    }
  }

  /** The first element of one listing is not after any element of the other. */
  lemma SameFirst(a: seq<Target>, b: seq<Target>)
    requires a != [] && b != [] && StrictlySorted(a) && b[0] in a
    ensures a[0] == b[0] || TargetLess(a[0], b[0])
  {
    var i :| 0 <= i < |a| && a[i] == b[0];
  }

  lemma SameRest(a: seq<Target>, b: seq<Target>)
    requires a != [] && b != [] && StrictlySorted(a) && StrictlySorted(b) && a[0] == b[0]
    requires forall t :: t in a <==> t in b
    ensures StrictlySorted(a[1..]) && StrictlySorted(b[1..])
    ensures forall t :: t in a[1..] <==> t in b[1..]
  {
    HeadNotInTail(a);
    HeadNotInTail(b);
    forall t
      ensures t in a[1..] <==> t in b[1..]
    {
      assert t in a <==> t == a[0] || t in a[1..];
      assert t in b <==> t == b[0] || t in b[1..];
    }
  }

  lemma HeadNotInTail(a: seq<Target>)
    requires a != [] && StrictlySorted(a)
    ensures a[0] !in a[1..]
  {
    forall i | 1 <= i < |a|
      ensures a[i] != a[0]
    {
      TargetLessTotal(a[0], a[i]);
    }
  }

  /** Stands in for the library sort: insertion of one target into a sorted list. */
  method InsertTarget(sorted: seq<Target>, t: Target) returns (r: seq<Target>)
    requires StrictlySorted(sorted) && t !in sorted
    ensures StrictlySorted(r)
    ensures forall u :: u in r <==> u == t || u in sorted
  {
    var i := 0;
    while i < |sorted| && TargetLess(sorted[i], t)
      invariant 0 <= i <= |sorted|
      invariant forall j | 0 <= j < i :: TargetLess(sorted[j], t)
    {
      i := i + 1;
    }
    if i < |sorted| {
      TargetLessTotal(sorted[i], t);
      forall j | i < j < |sorted|
        ensures TargetLess(t, sorted[j])
      {
        TargetLessTransitive(t, sorted[i], sorted[j]);
      }
    }
    r := sorted[..i] + [t] + sorted[i..];
    forall u
      ensures u in r <==> u == t || u in sorted
    {
      assert sorted == sorted[..i] + sorted[i..];
    }
  }

  /** The setters' targets in their canonical order. */
  method SortedTargets(setters: Setters) returns (targets: seq<Target>)
    ensures StrictlySorted(targets)
    ensures forall t :: t in targets <==> t in setters
    ensures forall i, j | 0 <= i < j < |targets| :: Before(targets[i], targets[j])
  {
    targets := [];
    var remaining := setters.Keys;
    while remaining != {}
      invariant remaining <= setters.Keys
      invariant StrictlySorted(targets)
      invariant forall t :: t in targets <==> t in setters && t !in remaining
      decreases remaining
    {
      var t :| t in remaining;
      targets := InsertTarget(targets, t);
      remaining := remaining - {t};
    }
    forall i, j | 0 <= i < j < |targets|
      ensures Before(targets[i], targets[j])
    {
      TargetLessMeans(targets[i], targets[j]);
    }
  }

  // ------------------------------------------------------------------ encoding

  /** Serialisation of targets and of voltage domains; either may refuse its argument. */
  datatype Codec = Codec(target: Target -> Option<string>, domain: (real, real) -> Option<string>)

  /** The arguments of the three scripts. */
  datatype Arguments =
    | GetSet(setVoltages: seq<real>, getters: seq<string>, setters: seq<string>)
    | Buffered1D(domains: seq<string>, getters: seq<string>, numSteps: int, setters: seq<string>)
    | Buffered2D(xSetters: seq<string>, getters: seq<string>, ySetters: seq<string>, numXSteps: int,
                 yDomains: seq<string>, xDomains: seq<string>, numYSteps: int)

  predicate Distinct(getters: seq<Target>) {
    forall i, j | 0 <= i < j < |getters| :: getters[i] != getters[j]
  }

  predicate Serializable(codec: Codec, targets: seq<Target>) {
    forall i | 0 <= i < |targets| :: codec.target(targets[i]).Some?
  }

  predicate SerializedAs(codec: Codec, targets: seq<Target>, out: seq<string>) {
    |out| == |targets| && forall i | 0 <= i < |targets| :: codec.target(targets[i]) == Some(out[i])
  }

  method GetterArray(codec: Codec, getters: seq<Target>) returns (r: Result<seq<string>, EncodeError>)
    ensures r.Ok? <==> getters != [] && Distinct(getters) && Serializable(codec, getters)
    ensures r.Ok? ==> SerializedAs(codec, getters, r.value)
  {
    if |getters| == 0 {
      return Err(NoGetters);
    }
    var out: seq<string> := [];
    var seen: set<Target> := {};
    for i := 0 to |getters|
      invariant forall t :: t in seen <==> t in getters[..i]
      invariant Distinct(getters[..i])
      invariant SerializedAs(codec, getters[..i], out)
    {
      if getters[i] in seen {
        var j :| 0 <= j < i && getters[..i][j] == getters[i];
        assert getters[j] == getters[i];
        return Err(RepeatedGetter);
      }
      seen := seen + {getters[i]};
      var encoded := codec.target(getters[i]);
      if encoded.None? {
        return Err(NotSerializable);
      }
      assert getters[..i + 1] == getters[..i] + [getters[i]];
      out := out + [encoded.value];
    }
    assert getters[..|getters|] == getters;
    r := Ok(out);
  }

  method SerializeTargets(codec: Codec, targets: seq<Target>) returns (r: Result<seq<string>, EncodeError>)
    ensures r.Ok? <==> Serializable(codec, targets)
    ensures r.Ok? ==> SerializedAs(codec, targets, r.value)
  {
    var out: seq<string> := [];
    for i := 0 to |targets|
      invariant SerializedAs(codec, targets[..i], out)
    {
      var encoded := codec.target(targets[i]);
      if encoded.None? {
        return Err(NotSerializable);
      }
      out := out + [encoded.value];
    }
    assert targets[..|targets|] == targets;
    r := Ok(out);
  }

  /** The canonical order of an input's setters. */
  ghost predicate Canonical(input: PrimitiveInput, targets: seq<Target>) {
    StrictlySorted(targets) && forall t :: t in targets <==> t in input.setters
  }

  /** What all three encoders ask for before they look at the voltages. */
  ghost predicate Encodable(codec: Codec, input: PrimitiveInput, dim: int) {
    && input.choice == dim
    && input.getters != [] && Distinct(input.getters) && Serializable(codec, input.getters)
    && (forall t :: t in input.setters ==> codec.target(t).Some?)
    && exists counts :: Counted(input, counts)
  }

  datatype Validated = Validated(getters: seq<string>, targets: seq<Target>, setters: seq<string>, counts: seq<int>)

  /** The stop of a setter's domain: its own start for a held one. */
  function StopOf(s: Input): real {
    if s.stop.Some? then s.stop.value else s.start
  }

  method ValidateEncoder(codec: Codec, input: PrimitiveInput, dim: int) returns (r: Result<Validated, EncodeError>)
    requires BoundedInput(input)
    ensures r.Ok? <==> Encodable(codec, input, dim)
    ensures r.Ok? ==>
              && SerializedAs(codec, input.getters, r.value.getters)
              && Canonical(input, r.value.targets)
              && SerializedAs(codec, r.value.targets, r.value.setters)
              && Counted(input, r.value.counts)
  {
    if input.choice != dim {
      return Err(WrongDimension);
    }
    var getters := GetterArray(codec, input.getters);
    if getters.Err? {
      return Err(getters.error);
    }
    var targets := SortedTargets(input.setters);
    var setters := SerializeTargets(codec, targets);
    if setters.Err? {
      var i :| 0 <= i < |targets| && codec.target(targets[i]).None?;
      assert targets[i] in targets;
      return Err(setters.error);
    }
    forall t | t in input.setters
      ensures codec.target(t).Some?
    {
      assert t in targets;
    }
    var counts := AxisCounts(input);
    if counts.Err? {
      return Err(counts.error);
    }
    r := Ok(Validated(getters.value, targets, setters.value, counts.value));
  }

  /** The three encoders. */
  datatype EncoderKind = GetSetEncoder | Encoder1D | Encoder2D

  predicate Sweepable(codec: Codec, s: Input) {
    IsSweep(s) && s.stop.Some? && codec.domain(s.start, StopOf(s)).Some?
  }

  /** What an encoder accepts. */
  ghost predicate Accepts(kind: EncoderKind, codec: Codec, input: PrimitiveInput) {
    match kind
    case GetSetEncoder => Encodable(codec, input, 0)
    case Encoder1D =>
      && Encodable(codec, input, 1)
      && forall t :: t in input.setters ==> codec.domain(input.setters[t].start, StopOf(input.setters[t])).Some?
    case Encoder2D =>
      && Encodable(codec, input, 2)
      && forall t :: t in input.setters ==> Sweepable(codec, input.setters[t])
  }

  /** Entry `i` of the voltages is the voltage of target `i` of the canonical order. */
  ghost predicate ListsVoltages(codec: Codec, input: PrimitiveInput, targets: seq<Target>, a: Arguments)
    requires a.GetSet?
  {
    && Canonical(input, targets) && SerializedAs(codec, targets, a.setters)
    && |a.setVoltages| == |targets|
    && forall i | 0 <= i < |targets| ::
         targets[i] in input.setters && a.setVoltages[i] == input.setters[targets[i]].start
  }

  /** The voltages are those of the setters, in their canonical order. */
  ghost predicate EncodesGetSet(codec: Codec, input: PrimitiveInput, a: Arguments) {
    && a.GetSet? && SerializedAs(codec, input.getters, a.getters)
    && exists targets :: ListsVoltages(codec, input, targets, a)
  }

  /** A point measurement: entry `i` of the voltages belongs to entry `i` of the setters. */
  method EncodeGetSet(codec: Codec, input: PrimitiveInput) returns (r: Result<Arguments, EncodeError>)
    requires BoundedInput(input)
    ensures r.Ok? <==> Accepts(GetSetEncoder, codec, input)
    ensures r.Ok? ==> EncodesGetSet(codec, input, r.value)
  {
    var v := ValidateEncoder(codec, input, 0);
    if v.Err? {
      return Err(v.error);
    }
    var targets := v.value.targets;
    assert forall i | 0 <= i < |targets| :: targets[i] in targets;
    var voltages: seq<real> := [];
    for i := 0 to |targets|
      invariant |voltages| == i
      invariant forall j | 0 <= j < i :: voltages[j] == input.setters[targets[j]].start
    {
      voltages := voltages + [input.setters[targets[i]].start];
    }
    r := Ok(GetSet(voltages, v.value.getters, v.value.setters));
    assert ListsVoltages(codec, input, targets, r.value);
  }

  /** A setter's serialised domain. */
  predicate DomainAs(codec: Codec, s: Input, out: string) {
    codec.domain(s.start, StopOf(s)) == Some(out)
  }

  /** Entry `i` of the domains is the domain of target `i` of the canonical order. */
  ghost predicate ListsDomains(codec: Codec, input: PrimitiveInput, targets: seq<Target>, a: Arguments)
    requires a.Buffered1D?
  {
    && Canonical(input, targets) && SerializedAs(codec, targets, a.setters)
    && |a.domains| == |targets|
    && forall i | 0 <= i < |targets| ::
         targets[i] in input.setters && DomainAs(codec, input.setters[targets[i]], a.domains[i])
  }

  /** The domains are those of the setters, in their canonical order. */
  ghost predicate Encodes1D(codec: Codec, input: PrimitiveInput, a: Arguments) {
    && a.Buffered1D? && SerializedAs(codec, input.getters, a.getters)
    && Counted(input, [a.numSteps])
    && exists targets :: ListsDomains(codec, input, targets, a)
  }

  /** A one-dimensional sweep: held setters travel as domains that do not move. */
  method Encode1DBuffered(codec: Codec, input: PrimitiveInput) returns (r: Result<Arguments, EncodeError>)
    requires BoundedInput(input)
    ensures r.Ok? <==> Accepts(Encoder1D, codec, input)
    ensures r.Ok? ==> Encodes1D(codec, input, r.value)
  {
    var v := ValidateEncoder(codec, input, 1);
    if v.Err? {
      return Err(v.error);
    }
    var targets := v.value.targets;
    assert forall i | 0 <= i < |targets| :: targets[i] in targets;
    var domains: seq<string> := [];
    for i := 0 to |targets|
      invariant |domains| == i
      invariant forall j | 0 <= j < i :: DomainAs(codec, input.setters[targets[j]], domains[j])
    {
      var setter := input.setters[targets[i]];
      var value := codec.domain(setter.start, StopOf(setter));
      if value.None? {
        return Err(NotSerializable);
      }
      domains := domains + [value.value];
    }
    forall t | t in input.setters
      ensures codec.domain(input.setters[t].start, StopOf(input.setters[t])).Some?
    {
      assert t in targets;
      var i :| 0 <= i < |targets| && targets[i] == t;
      assert DomainAs(codec, input.setters[targets[i]], domains[i]);
    }
    assert [v.value.counts[0]] == v.value.counts;
    r := Ok(Buffered1D(domains, v.value.getters, v.value.counts[0], v.value.setters));
    assert ListsDomains(codec, input, targets, r.value);
  }

  /** The targets that sweep primitive axis `axis`, in the order of the list. */
  function OnPrimitiveAxis(setters: Setters, targets: seq<Target>, axis: int): seq<Target>
    requires forall i | 0 <= i < |targets| :: targets[i] in setters
  {
    if targets == [] then []
    else
      var last := |targets| - 1;
      OnPrimitiveAxis(setters, targets[..last], axis)
      + if setters[targets[last]].axis == axis then [targets[last]] else []
  }

  /** Two lists hold what one list holds, length for length. */
  ghost predicate SplitsInto(targets: seq<Target>, x: seq<Target>, y: seq<Target>) {
    |x| + |y| == |targets| && multiset(x) + multiset(y) == multiset(targets)
  }

  lemma SplitsIntoSnoc(init: seq<Target>, x: seq<Target>, y: seq<Target>, t: Target)
    requires SplitsInto(init, x, y)
    ensures SplitsInto(init + [t], x + [t], y) && SplitsInto(init + [t], x, y + [t])
  {
  }

  lemma OnPrimitiveAxisSnoc(setters: Setters, init: seq<Target>, t: Target, axis: int)
    requires t in setters && forall i | 0 <= i < |init| :: init[i] in setters
    ensures forall i | 0 <= i < |init + [t]| :: (init + [t])[i] in setters
    ensures OnPrimitiveAxis(setters, init + [t], axis)
         == if setters[t].axis == axis then OnPrimitiveAxis(setters, init, axis) + [t]
            else OnPrimitiveAxis(setters, init, axis)
  {
    assert (init + [t])[..|init|] == init;
  }

  /** The list splits into the targets of axis 0 and those of axis 1. */
  lemma {:induction false} TwoAxesPartition(setters: Setters, targets: seq<Target>)
    requires forall i | 0 <= i < |targets| :: targets[i] in setters && 0 <= setters[targets[i]].axis < 2
    ensures SplitsInto(targets, OnPrimitiveAxis(setters, targets, 0), OnPrimitiveAxis(setters, targets, 1))
  {
    if targets != [] {
      var init, t := targets[..|targets| - 1], targets[|targets| - 1];
      assert init + [t] == targets;
      TwoAxesPartition(setters, init);
      SplitsIntoSnoc(init, OnPrimitiveAxis(setters, init, 0), OnPrimitiveAxis(setters, init, 1), t);
      OnPrimitiveAxisSnoc(setters, init, t, 0);
      OnPrimitiveAxisSnoc(setters, init, t, 1);
    }
  }

  /** Position by position, `domains` are the domains of `targets`. */
  predicate DomainsAre(codec: Codec, setters: Setters, targets: seq<Target>, domains: seq<string>)
    requires forall i | 0 <= i < |targets| :: targets[i] in setters
  {
    |domains| == |targets| && forall i | 0 <= i < |targets| :: DomainAs(codec, setters[targets[i]], domains[i])
  }

  /** What the two-dimensional encoder has split off after the first targets of the list. */
  ghost predicate SplitSoFar(codec: Codec, setters: Setters, targets: seq<Target>, axis: int,
                             encoded: seq<string>, domains: seq<string>)
    requires forall i | 0 <= i < |targets| :: targets[i] in setters
  {
    && (forall i | 0 <= i < |OnPrimitiveAxis(setters, targets, axis)| ::
          OnPrimitiveAxis(setters, targets, axis)[i] in setters)
    && SerializedAs(codec, OnPrimitiveAxis(setters, targets, axis), encoded)
    && DomainsAre(codec, setters, OnPrimitiveAxis(setters, targets, axis), domains)
  }

  lemma SplitStep(codec: Codec, setters: Setters, targets: seq<Target>, t: Target, axis: int,
                  encoded: seq<string>, domains: seq<string>, e: string, d: string)
    requires forall i | 0 <= i < |targets| :: targets[i] in setters
    requires t in setters && codec.target(t) == Some(e) && DomainAs(codec, setters[t], d)
    requires SplitSoFar(codec, setters, targets, axis, encoded, domains)
    ensures forall i | 0 <= i < |targets + [t]| :: (targets + [t])[i] in setters
    ensures if setters[t].axis == axis
            then SplitSoFar(codec, setters, targets + [t], axis, encoded + [e], domains + [d])
            else SplitSoFar(codec, setters, targets + [t], axis, encoded, domains)
  {
    assert (targets + [t])[..|targets|] == targets;
  }

  datatype SplitLists = SplitLists(xTargets: seq<string>, xDomains: seq<string>,
                                   yTargets: seq<string>, yDomains: seq<string>)

  /** The loop of the two-dimensional encoder, over setters whose axis is 0 or 1. */
  method SplitByAxis(codec: Codec, setters: Setters, targets: seq<Target>, encoded: seq<string>)
    returns (r: Result<SplitLists, EncodeError>)
    requires forall i | 0 <= i < |targets| :: targets[i] in setters
    requires SerializedAs(codec, targets, encoded)
    ensures r.Ok? <==> forall i | 0 <= i < |targets| :: Sweepable(codec, setters[targets[i]])
    ensures r.Ok? ==>
              && SplitSoFar(codec, setters, targets, 0, r.value.xTargets, r.value.xDomains)
              && SplitSoFar(codec, setters, targets, 1, r.value.yTargets, r.value.yDomains)
  {
    var xDomains: seq<string>, yDomains: seq<string> := [], [];
    var xTargets: seq<string>, yTargets: seq<string> := [], [];
    for i := 0 to |targets|
      invariant SplitSoFar(codec, setters, targets[..i], 0, xTargets, xDomains)
      invariant SplitSoFar(codec, setters, targets[..i], 1, yTargets, yDomains)
      invariant forall j | 0 <= j < i :: Sweepable(codec, setters[targets[j]])
    {
      var t := targets[i];
      var setter := setters[t];
      if setter.num.None? || setter.stop.None? {
        return Err(NoFixedField);
      }
      var value := codec.domain(setter.start, setter.stop.value);
      if value.None? {
        return Err(NotSerializable);
      }
      assert targets[..i + 1] == targets[..i] + [t];
      SplitStep(codec, setters, targets[..i], t, 0, xTargets, xDomains, encoded[i], value.value);
      SplitStep(codec, setters, targets[..i], t, 1, yTargets, yDomains, encoded[i], value.value);
      if setter.axis == 0 {
        xTargets := xTargets + [encoded[i]];
        xDomains := xDomains + [value.value];
      } else if setter.axis == 1 {
        yTargets := yTargets + [encoded[i]];
        yDomains := yDomains + [value.value];
      }
    }
    assert targets[..|targets|] == targets;
    r := Ok(SplitLists(xTargets, xDomains, yTargets, yDomains));
  }

  /** The X lists are the targets of axis 0 with their domains, the Y lists those of axis 1. */
  ghost predicate ListsGrid(codec: Codec, input: PrimitiveInput, targets: seq<Target>, a: Arguments)
    requires a.Buffered2D?
  {
    && Canonical(input, targets)
    && (forall i | 0 <= i < |targets| :: targets[i] in input.setters)
    && SplitSoFar(codec, input.setters, targets, 0, a.xSetters, a.xDomains)
    && SplitSoFar(codec, input.setters, targets, 1, a.ySetters, a.yDomains)
  }

  /** The grid is that of the setters, in their canonical order. */
  ghost predicate Encodes2D(codec: Codec, input: PrimitiveInput, a: Arguments) {
    && a.Buffered2D? && SerializedAs(codec, input.getters, a.getters)
    && Counted(input, [a.numXSteps, a.numYSteps])
    && exists targets :: ListsGrid(codec, input, targets, a)
  }

  /** A two-dimensional sweep has no field for a held setter: it encodes exactly when every
      setter sweeps. The X lists are the axis-0 setters and the Y lists the axis-1 setters,
      both in canonical order and each paired with its domains. */
  method Encode2DBuffered(codec: Codec, input: PrimitiveInput) returns (r: Result<Arguments, EncodeError>)
    requires BoundedInput(input)
    ensures r.Ok? <==> Accepts(Encoder2D, codec, input)
    ensures r.Ok? ==> Encodes2D(codec, input, r.value)
  {
    var v := ValidateEncoder(codec, input, 2);
    if v.Err? {
      return Err(v.error);
    }
    var targets, counts := v.value.targets, v.value.counts;
    assert forall i | 0 <= i < |targets| :: targets[i] in targets;
    var split := SplitByAxis(codec, input.setters, targets, v.value.setters);
    if split.Err? {
      return Err(split.error);
    }
    forall t | t in input.setters
      ensures Sweepable(codec, input.setters[t])
    {
      assert t in targets;
      var i :| 0 <= i < |targets| && targets[i] == t;
    }
    assert [counts[0], counts[1]] == counts;
    r := Ok(Buffered2D(split.value.xTargets, v.value.getters, split.value.yTargets, counts[0],
                       split.value.yDomains, split.value.xDomains, counts[1]));
    assert ListsGrid(codec, input, targets, r.value);
  }

  ghost predicate EncodedBy(kind: EncoderKind, codec: Codec, input: PrimitiveInput, arguments: Arguments) {
    match kind
    case GetSetEncoder => EncodesGetSet(codec, input, arguments)
    case Encoder1D => Encodes1D(codec, input, arguments)
    case Encoder2D => Encodes2D(codec, input, arguments)
  }

  method EncodeWith(kind: EncoderKind, codec: Codec, input: PrimitiveInput) returns (r: Result<Arguments, EncodeError>)
    requires BoundedInput(input)
    ensures r.Ok? <==> Accepts(kind, codec, input)
    ensures r.Ok? ==> EncodedBy(kind, codec, input, r.value)
  {
    match kind {
      case GetSetEncoder => r := EncodeGetSet(codec, input);
      case Encoder1D => r := Encode1DBuffered(codec, input);
      case Encoder2D => r := Encode2DBuffered(codec, input);
    }
  }
}
