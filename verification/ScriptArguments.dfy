/**
 What the arguments of a script say: which targets to read, and which voltages to go through.
 A script knows nothing but its arguments, so their meaning is given here on its own; what an
 encoder writes has to mean what its input asks for.
 */
module ScriptArguments {
  import opened Wrappers
  import opened RowMajor
  import opened Planner
  import opened PrimitiveCode
  import opened PlanMeaning

  /** How a script reads serialised targets and domains. */
  datatype Reader = Reader(target: string -> Target, domain: string -> (real, real))

  /** The reader undoes the codec. */
  ghost predicate Reads(reader: Reader, codec: Codec) {
    && (forall t :: codec.target(t).Some? ==> reader.target(codec.target(t).value) == t)
    && forall a, b :: codec.domain(a, b).Some? ==> reader.domain(codec.domain(a, b).value) == (a, b)
  }

  /** Different targets, and different domains, are serialised differently. */
  ghost predicate InjectiveCodec(codec: Codec) {
    && (forall t, u :: codec.target(t).Some? && codec.target(t) == codec.target(u) ==> t == u)
    && forall a, b, c, d :: codec.domain(a, b).Some? && codec.domain(a, b) == codec.domain(c, d) ==> a == c && b == d
  }

  /** The reader of an injective codec. */
  ghost function ReaderOf(codec: Codec): Reader {
    Reader(s => if exists t :: codec.target(t) == Some(s) then
                  var t :| codec.target(t) == Some(s); t
                else Target("", "", 0),
           s => if exists a, b :: codec.domain(a, b) == Some(s) then
                  var a, b :| codec.domain(a, b) == Some(s); (a, b)
                else (0.0, 0.0))
  }

  lemma ReaderReads(codec: Codec)
    requires InjectiveCodec(codec)
    ensures Reads(ReaderOf(codec), codec)
  {
    var reader := ReaderOf(codec);
    forall t | codec.target(t).Some?
      ensures reader.target(codec.target(t).value) == t
    {
      assert codec.target(t) == Some(codec.target(t).value);
      assert codec.target(reader.target(codec.target(t).value)) == codec.target(t);
    }
    forall a, b | codec.domain(a, b).Some?
      ensures reader.domain(codec.domain(a, b).value) == (a, b)
    {
      assert codec.domain(a, b) == Some(codec.domain(a, b).value);
      var d := reader.domain(codec.domain(a, b).value);
      assert codec.domain(d.0, d.1) == codec.domain(a, b);
    }
  }

  // ------------------------------------------------------------ what they mean

  function ReadTargets(reader: Reader, names: seq<string>): (r: seq<Target>)
    ensures |r| == |names| && forall k | 0 <= k < |names| :: r[k] == reader.target(names[k])
  {
    seq(|names|, k requires 0 <= k < |names| => reader.target(names[k]))
  }

  /** Bringing one target after the other to its voltage. */
  function Assigned(targets: seq<Target>, voltages: seq<real>): Assignment
    requires |voltages| == |targets|
  {
    if targets == [] then map[]
    else
      var k := |targets| - 1;
      Assigned(targets[..k], voltages[..k])[targets[k] := voltages[k]]
  }

  /** The voltages at step `j` of `n`, each along its own domain. */
  function Stepped(reader: Reader, domains: seq<string>, n: int, j: nat, step: Stepping): (r: seq<real>)
    ensures |r| == |domains|
    ensures forall k | 0 <= k < |domains| ::
              r[k] == step(reader.domain(domains[k]).0, reader.domain(domains[k]).1, n, j)
  {
    seq(|domains|, k requires 0 <= k < |domains| =>
      step(reader.domain(domains[k]).0, reader.domain(domains[k]).1, n, j))
  }

  /** Entry by entry, the lists of the arguments belong together. */
  predicate WellFormed(arguments: Arguments) {
    match arguments
    case GetSet(setVoltages, _, setters) => |setVoltages| == |setters|
    case Buffered1D(domains, _, numSteps, setters) => |domains| == |setters| && numSteps >= 0
    case Buffered2D(xSetters, _, ySetters, numXSteps, yDomains, xDomains, numYSteps) =>
      |xDomains| == |xSetters| && |yDomains| == |ySetters| && numXSteps >= 0 && numYSteps >= 0
  }

  /** One step of a one-dimensional sweep. */
  function LineAt(reader: Reader, a: Arguments, j: nat, step: Stepping): Assignment
    requires a.Buffered1D? && WellFormed(a)
  {
    Assigned(ReadTargets(reader, a.setters), Stepped(reader, a.domains, a.numSteps, j, step))
  }

  /** One step of a two-dimensional sweep: the X setters at step `x`, the Y setters at step `y`. */
  function GridAt(reader: Reader, a: Arguments, x: nat, y: nat, step: Stepping): Assignment
    requires a.Buffered2D? && WellFormed(a)
  {
    Assigned(ReadTargets(reader, a.xSetters), Stepped(reader, a.xDomains, a.numXSteps, x, step))
    + Assigned(ReadTargets(reader, a.ySetters), Stepped(reader, a.yDomains, a.numYSteps, y, step))
  }

  /** The first `k` rows of a two-dimensional sweep: the X steps outside, the Y steps inside. */
  function Rows(reader: Reader, a: Arguments, k: nat, step: Stepping): seq<Assignment>
    requires a.Buffered2D? && WellFormed(a)
  {
    if k == 0 then []
    else Rows(reader, a, k - 1, step) + seq(a.numYSteps, y requires 0 <= y => GridAt(reader, a, k - 1, y, step))
  }

  /** The voltages that the arguments tell a script to go through, in their order. */
  function TraceOf(reader: Reader, arguments: Arguments, step: Stepping): seq<Assignment>
    requires WellFormed(arguments)
  {
    match arguments
    case GetSet(setVoltages, _, setters) => [Assigned(ReadTargets(reader, setters), setVoltages)]
    case Buffered1D(_, _, numSteps, _) =>
      seq(numSteps, j requires 0 <= j => LineAt(reader, arguments, j, step))
    case Buffered2D(_, _, _, numXSteps, _, _, _) => Rows(reader, arguments, numXSteps, step)
  }

  // ------------------------------------------------- they mean what was asked for

  /** A sweep whose ends are the same stays where it is. */
  ghost predicate StandsStill(step: Stepping) {
    forall x, n, j :: step(x, x, n, j) == x
  }

  lemma Stands(step: Stepping, x: real, n: int, j: int)
    requires StandsStill(step)
    ensures step(x, x, n, j) == x
  {
  }

  lemma ReadSerialized(reader: Reader, codec: Codec, targets: seq<Target>, names: seq<string>)
    requires Reads(reader, codec) && SerializedAs(codec, targets, names)
    ensures ReadTargets(reader, names) == targets
  {
    forall i | 0 <= i < |targets|
      ensures reader.target(names[i]) == targets[i]
    {
      assert codec.target(targets[i]) == Some(names[i]);
    }
  }

  lemma ReadDomain(reader: Reader, codec: Codec, s: Input, name: string)
    requires Reads(reader, codec) && DomainAs(codec, s, name)
    ensures reader.domain(name) == (s.start, StopOf(s))
  {
    assert codec.domain(s.start, StopOf(s)) == Some(name);
  }

  /** Voltages that agree with an assignment make up its part on the targets. */
  lemma {:induction false} AssignedAgrees(targets: seq<Target>, voltages: seq<real>, m: Assignment, t: Target)
    requires |voltages| == |targets|
    requires forall k | 0 <= k < |targets| :: targets[k] in m && voltages[k] == m[targets[k]]
    ensures t in Assigned(targets, voltages) <==> t in targets
    ensures t in targets ==> t in m && Assigned(targets, voltages)[t] == m[t]
  {
    if targets != [] {
      var k := |targets| - 1;
      assert targets == targets[..k] + [targets[k]];
      AssignedAgrees(targets[..k], voltages[..k], m, t);
    }
  }

  lemma AssignedIs(targets: seq<Target>, voltages: seq<real>, m: Assignment)
    requires |voltages| == |targets| && forall t :: t in targets <==> t in m
    requires forall k | 0 <= k < |targets| :: targets[k] in m && voltages[k] == m[targets[k]]
    ensures Assigned(targets, voltages) == m
  {
    forall t
      ensures t in Assigned(targets, voltages) <==> t in m
      ensures t in m ==> Assigned(targets, voltages)[t] == m[t]
    {
      AssignedAgrees(targets, voltages, m, t);
    }
  }

  /** The voltages of a point measurement. */
  lemma PointTrace(reader: Reader, codec: Codec, input: PrimitiveInput, arguments: Arguments, step: Stepping)
    requires Reads(reader, codec) && EncodesGetSet(codec, input, arguments)
    ensures WellFormed(arguments)
    ensures TraceOf(reader, arguments, step) == [AssignmentAt(input.setters, [], step)]
  {
    var targets :| ListsVoltages(codec, input, targets, arguments);
    ReadSerialized(reader, codec, targets, arguments.setters);
    AssignedIs(targets, arguments.setVoltages, AssignmentAt(input.setters, [], step));
  }

  /** A held setter is a sweep that does not move. */
  lemma OneAxisVoltage(s: Input, counts: seq<int>, pos: seq<nat>, step: Stepping)
    requires StandsStill(step) && |counts| == |pos| == 1
    requires if IsSweep(s) then CountedAt(s, counts) else s.stop.None?
    ensures Voltage(s, pos, step) == step(s.start, StopOf(s), counts[0], pos[0])
  {
    if !IsSweep(s) {
      Stands(step, s.start, counts[0], pos[0]);
    }
  }

  lemma LineStep(reader: Reader, codec: Codec, input: PrimitiveInput, targets: seq<Target>, arguments: Arguments,
                 j: nat, step: Stepping)
    requires Reads(reader, codec) && StandsStill(step) && arguments.Buffered1D? && WellFormed(arguments)
    requires ListsDomains(codec, input, targets, arguments) && Counted(input, [arguments.numSteps])
    ensures LineAt(reader, arguments, j, step) == AssignmentAt(input.setters, [j], step)
  {
    var voltages := Stepped(reader, arguments.domains, arguments.numSteps, j, step);
    ReadSerialized(reader, codec, targets, arguments.setters);
    forall k | 0 <= k < |targets|
      ensures voltages[k] == Voltage(input.setters[targets[k]], [j], step)
    {
      ReadDomain(reader, codec, input.setters[targets[k]], arguments.domains[k]);
      OneAxisVoltage(input.setters[targets[k]], [arguments.numSteps], [j], step);
    }
    AssignedIs(targets, voltages, AssignmentAt(input.setters, [j], step));
  }

  /** The voltages of a one-dimensional sweep. Held setters travel as domains that do not move. */
  lemma LineTrace(reader: Reader, codec: Codec, input: PrimitiveInput, arguments: Arguments, step: Stepping)
    requires Reads(reader, codec) && StandsStill(step) && Encodes1D(codec, input, arguments)
    ensures WellFormed(arguments) && |TraceOf(reader, arguments, step)| == arguments.numSteps
    ensures forall j | 0 <= j < arguments.numSteps ::
              TraceOf(reader, arguments, step)[j] == AssignmentAt(input.setters, [j], step)
  {
    var targets :| ListsDomains(codec, input, targets, arguments);
    StepsPositive(input, [arguments.numSteps], 0);
    forall j | 0 <= j < arguments.numSteps
      ensures LineAt(reader, arguments, j, step) == AssignmentAt(input.setters, [j], step)
    {
      LineStep(reader, codec, input, targets, arguments, j, step);
    }
  }

  lemma StepsPositive(input: PrimitiveInput, counts: seq<int>, a: nat)
    requires Counted(input, counts) && a < |counts|
    ensures counts[a] > 0
  {
    assert SweptOn(input.setters, a);
    var t :| t in input.setters && IsSweep(input.setters[t]) && input.setters[t].axis == a;
    assert CountedAt(input.setters[t], counts);
  }

  lemma {:induction false} OnPrimitiveAxisMeans(setters: Setters, targets: seq<Target>, axis: int, t: Target)
    requires forall i | 0 <= i < |targets| :: targets[i] in setters
    ensures t in OnPrimitiveAxis(setters, targets, axis) <==> t in targets && t in setters && setters[t].axis == axis
  {
    if targets != [] {
      var init, last := targets[..|targets| - 1], targets[|targets| - 1];
      assert targets == init + [last];
      OnPrimitiveAxisMeans(setters, init, axis, t);
      OnPrimitiveAxisSnoc(setters, init, last, axis);
    }
  }

  ghost predicate AllSweep(codec: Codec, input: PrimitiveInput) {
    forall t :: t in input.setters ==> Sweepable(codec, input.setters[t])
  }

  /** The setters of one axis, at step `j` along it. */
  lemma AxisStep(reader: Reader, codec: Codec, input: PrimitiveInput, targets: seq<Target>, axis: nat,
                 encoded: seq<string>, domains: seq<string>, counts: seq<int>, pos: seq<nat>, step: Stepping,
                 t: Target)
    requires Reads(reader, codec) && AllSweep(codec, input) && Counted(input, counts) && |counts| == |pos| == 2
    requires axis < 2 && forall i | 0 <= i < |targets| :: targets[i] in input.setters
    requires SplitSoFar(codec, input.setters, targets, axis, encoded, domains)
    ensures
      var part := Assigned(ReadTargets(reader, encoded), Stepped(reader, domains, counts[axis], pos[axis], step));
      && (t in part <==> t in targets && t in input.setters && input.setters[t].axis == axis)
      && (t in part ==> part[t] == Voltage(input.setters[t], pos, step))
  {
    var own, m := OnPrimitiveAxis(input.setters, targets, axis), AssignmentAt(input.setters, pos, step);
    var voltages := Stepped(reader, domains, counts[axis], pos[axis], step);
    ReadSerialized(reader, codec, own, encoded);
    forall k | 0 <= k < |own|
      ensures own[k] in m && voltages[k] == m[own[k]]
    {
      OnPrimitiveAxisMeans(input.setters, targets, axis, own[k]);
      assert own[k] in own;
      var s := input.setters[own[k]];
      assert Sweepable(codec, s) && CountedAt(s, counts);
      ReadDomain(reader, codec, s, domains[k]);
    }
    AssignedAgrees(own, voltages, m, t);
    OnPrimitiveAxisMeans(input.setters, targets, axis, t);
  }

  lemma GridStep(reader: Reader, codec: Codec, input: PrimitiveInput, targets: seq<Target>, arguments: Arguments,
                 x: nat, y: nat, step: Stepping)
    requires Reads(reader, codec) && AllSweep(codec, input) && arguments.Buffered2D? && WellFormed(arguments)
    requires ListsGrid(codec, input, targets, arguments)
    requires Counted(input, [arguments.numXSteps, arguments.numYSteps])
    ensures GridAt(reader, arguments, x, y, step) == AssignmentAt(input.setters, [x, y], step)
  {
    var counts, pos := [arguments.numXSteps, arguments.numYSteps], [x, y];
    forall t
      ensures t in GridAt(reader, arguments, x, y, step) <==> t in input.setters
      ensures t in input.setters ==>
                GridAt(reader, arguments, x, y, step)[t] == Voltage(input.setters[t], pos, step)
    {
      AxisStep(reader, codec, input, targets, 0, arguments.xSetters, arguments.xDomains, counts, pos, step, t);
      AxisStep(reader, codec, input, targets, 1, arguments.ySetters, arguments.yDomains, counts, pos, step, t);
      if t in input.setters {
        assert Sweepable(codec, input.setters[t]) && CountedAt(input.setters[t], counts);
      }
    }
  }

  /** The first `k` rows are the first `k` rows of the walk. */
  lemma {:induction false} RowsAre(reader: Reader, codec: Codec, input: PrimitiveInput, targets: seq<Target>,
                                   arguments: Arguments, shape: seq<nat>, k: nat, step: Stepping)
    requires Reads(reader, codec) && AllSweep(codec, input) && arguments.Buffered2D? && WellFormed(arguments)
    requires ListsGrid(codec, input, targets, arguments)
    requires Counted(input, [arguments.numXSteps, arguments.numYSteps])
    requires shape == [arguments.numXSteps, arguments.numYSteps]
    ensures Rows(reader, arguments, k, step) == Trace(input.setters, WalkUpTo(shape, [], 2, k), step)
  {
    if k > 0 {
      var x := k - 1;
      RowsAre(reader, codec, input, targets, arguments, shape, x, step);
      RowWalk(shape, x, arguments.numYSteps);
      var row := Walk(shape, [x], 2);
      assert [] + [x] == [x];
      forall y | 0 <= y < arguments.numYSteps
        ensures GridAt(reader, arguments, x, y, step) == AssignmentAt(input.setters, row[y], step)
      {
        GridStep(reader, codec, input, targets, arguments, x, y, step);
      }
      TraceAppend(input.setters, WalkUpTo(shape, [], 2, x), row, step);
      assert seq(arguments.numYSteps, y requires 0 <= y => GridAt(reader, arguments, x, y, step))
          == Trace(input.setters, row, step);
    }
  }

  lemma TraceAppend(setters: Setters, a: seq<seq<nat>>, b: seq<seq<nat>>, step: Stepping)
    ensures Trace(setters, a + b, step) == Trace(setters, a, step) + Trace(setters, b, step)
  {
  }

  lemma {:induction false} RowWalk(shape: seq<nat>, x: nat, k: nat)
    requires |shape| == 2
    ensures |WalkUpTo(shape, [x], 2, k)| == k && forall y | 0 <= y < k :: WalkUpTo(shape, [x], 2, k)[y] == [x, y]
  {
    if k > 0 {
      RowWalk(shape, x, k - 1);
      assert [x] + [k - 1] == [x, k - 1];
    }
  }

  lemma {:induction false} LineWalk(shape: seq<nat>, k: nat)
    requires |shape| == 1
    ensures |WalkUpTo(shape, [], 1, k)| == k && forall j | 0 <= j < k :: WalkUpTo(shape, [], 1, k)[j] == [j]
  {
    if k > 0 {
      LineWalk(shape, k - 1);
      assert [] + [k - 1] == [k - 1];
    }
  }

  /** The trace of an input with known step counts. */
  lemma LeafTraceWith(input: PrimitiveInput, counts: seq<int>, shape: seq<nat>, step: Stepping)
    requires Counted(input, counts) && shape == counts
    ensures HasCounts(input) && LeafTrace(input, step) == Trace(input.setters, Walk(shape, [], |shape|), step)
  {
    CountsUnique(input, counts, CountsOf(input));
    assert Nats(counts) == shape;
  }

  /** The arguments of a script mean what its input asks for: read as what they are, they name the
      input's getters in their order, and take the setters through the input's voltages in their
      row-major order. For the two-dimensional script the X setters are those of the outer axis. */
  lemma ArgumentsMean(reader: Reader, kind: EncoderKind, codec: Codec, input: PrimitiveInput, arguments: Arguments,
                      step: Stepping)
    requires Reads(reader, codec) && StandsStill(step)
    requires Accepts(kind, codec, input) && EncodedBy(kind, codec, input, arguments)
    ensures WellFormed(arguments) && ReadTargets(reader, arguments.getters) == input.getters
    ensures HasCounts(input) && TraceOf(reader, arguments, step) == LeafTrace(input, step)
  {
    ReadSerialized(reader, codec, input.getters, arguments.getters);
    match kind {
      case GetSetEncoder =>
        assert CountsOf(input) == [];
        PointTrace(reader, codec, input, arguments, step);
        LeafTraceWith(input, [], [], step);
      case Encoder1D =>
        LineMeans(reader, codec, input, arguments, step);
      case Encoder2D =>
        GridMeans(reader, codec, input, arguments, step);
    }
  }

  lemma LineMeans(reader: Reader, codec: Codec, input: PrimitiveInput, arguments: Arguments, step: Stepping)
    requires Reads(reader, codec) && StandsStill(step) && Encodes1D(codec, input, arguments)
    ensures WellFormed(arguments) && HasCounts(input)
    ensures TraceOf(reader, arguments, step) == LeafTrace(input, step)
  {
    LineTrace(reader, codec, input, arguments, step);
    var shape: seq<nat> := [arguments.numSteps];
    LeafTraceWith(input, [arguments.numSteps], shape, step);
    LineWalk(shape, arguments.numSteps);
  }

  lemma GridMeans(reader: Reader, codec: Codec, input: PrimitiveInput, arguments: Arguments, step: Stepping)
    requires Reads(reader, codec) && AllSweep(codec, input) && Encodes2D(codec, input, arguments)
    ensures WellFormed(arguments) && HasCounts(input)
    ensures TraceOf(reader, arguments, step) == LeafTrace(input, step)
  {
    var counts := [arguments.numXSteps, arguments.numYSteps];
    var targets :| ListsGrid(codec, input, targets, arguments);
    StepsPositive(input, counts, 0);
    StepsPositive(input, counts, 1);
    var shape: seq<nat> := counts;
    LeafTraceWith(input, counts, shape, step);
    RowsAre(reader, codec, input, targets, arguments, shape, arguments.numXSteps, step);
  }

  /** So with an injective codec the arguments determine getters and voltages. */
  lemma ArgumentsDetermineTrace(kind: EncoderKind, codec: Codec, a: PrimitiveInput, b: PrimitiveInput,
                                arguments: Arguments, step: Stepping)
    requires InjectiveCodec(codec) && StandsStill(step)
    requires Accepts(kind, codec, a) && EncodedBy(kind, codec, a, arguments)
    requires Accepts(kind, codec, b) && EncodedBy(kind, codec, b, arguments)
    ensures a.getters == b.getters
    ensures HasCounts(a) && HasCounts(b) && LeafTrace(a, step) == LeafTrace(b, step)
  {
    ReaderReads(codec);
    ArgumentsMean(ReaderOf(codec), kind, codec, a, arguments, step);
    ArgumentsMean(ReaderOf(codec), kind, codec, b, arguments, step);
  }
}
