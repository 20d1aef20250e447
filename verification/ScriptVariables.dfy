/**
 How the arguments of a script travel: as named variables of a job request, under whose names the
 script finds them again.
 */
module ScriptVariables {
  import opened Wrappers
  import opened PrimitiveCode
  import opened WireCodec

  /** The variables that the encoders return. */
  function VariablesOf(a: Arguments): seq<Variable> {
    match a
    case GetSet(setVoltages, getters, setters) =>
      [Variable("setVoltages", DoubleArray(setVoltages)),
       Variable("getters", InstrumentTargetArray(getters)),
       Variable("setters", InstrumentTargetArray(setters))]
    case Buffered1D(domains, getters, numSteps, setters) =>
      [Variable("setVoltageDomains", InstrumentDomainArray(domains)),
       Variable("getters", InstrumentTargetArray(getters)),
       Variable("numSteps", Whole(I64, numSteps)),
       Variable("setters", InstrumentTargetArray(setters))]
    case Buffered2D(xSetters, getters, ySetters, numXSteps, yDomains, xDomains, numYSteps) =>
      [Variable("bufferedXSetters", InstrumentTargetArray(xSetters)),
       Variable("bufferedGetters", InstrumentTargetArray(getters)),
       Variable("bufferedYSetters", InstrumentTargetArray(ySetters)),
       Variable("numXSteps", Whole(I64, numXSteps)),
       Variable("setYVoltageDomains", InstrumentDomainArray(yDomains)),
       Variable("setXVoltageDomains", InstrumentDomainArray(xDomains)),
       Variable("numYSteps", Whole(I64, numYSteps))]
  }

  /** The numbers of steps fit an int64. */
  predicate StepsFit(a: Arguments) {
    match a
    case GetSet(_, _, _) => true
    case Buffered1D(_, _, numSteps, _) => 0 <= numSteps <= MAX_INT
    case Buffered2D(_, _, _, numXSteps, _, _, numYSteps) => 0 <= numXSteps <= MAX_INT && 0 <= numYSteps <= MAX_INT
  }

  predicate Finds(globals: map<string, Wire>, name: string, w: Wire) {
    name in globals && globals[name] == w
  }

  /** What the schema of each script makes it look for. */
  predicate FindsArguments(globals: map<string, Wire>, a: Arguments) {
    match a
    case GetSet(setVoltages, getters, setters) =>
      && Finds(globals, "setVoltages", WDArray(setVoltages))
      && Finds(globals, "getters", WTArray(getters)) && Finds(globals, "setters", WTArray(setters))
    case Buffered1D(domains, getters, numSteps, setters) =>
      && Finds(globals, "setVoltageDomains", WDnArray(domains)) && Finds(globals, "numSteps", WI(numSteps))
      && Finds(globals, "getters", WTArray(getters)) && Finds(globals, "setters", WTArray(setters))
    case Buffered2D(xSetters, getters, ySetters, numXSteps, yDomains, xDomains, numYSteps) =>
      && Finds(globals, "bufferedGetters", WTArray(getters))
      && Finds(globals, "bufferedXSetters", WTArray(xSetters)) && Finds(globals, "bufferedYSetters", WTArray(ySetters))
      && Finds(globals, "setXVoltageDomains", WDnArray(xDomains))
      && Finds(globals, "setYVoltageDomains", WDnArray(yDomains))
      && Finds(globals, "numXSteps", WI(numXSteps)) && Finds(globals, "numYSteps", WI(numYSteps))
  }

  lemma DifferAt(a: string, b: string, k: nat)
    requires k < |a| && k < |b| && a[k] != b[k]
    ensures a != b
  {
  }

  lemma NamesDiffer(a: Arguments)
    ensures DistinctNames(VariablesOf(a))
  {
    if a.Buffered2D? {
      GridNamesDiffer(a);
    } else {
      DifferAt("getters", "setters", 0);
    }
  }

  lemma GridNamesDiffer(a: Arguments)
    requires a.Buffered2D?
    ensures DistinctNames(VariablesOf(a))
  {
    DifferAt("bufferedXSetters", "bufferedYSetters", 8);
    DifferAt("setXVoltageDomains", "setYVoltageDomains", 3);
    DifferAt("numXSteps", "numYSteps", 3);
  }

  lemma VariableFound(request: JobRequest, vs: seq<Variable>, i: nat)
    requires Carries(request, vs) && DistinctNames(vs) && i < |vs|
    ensures vs[i].name in request.globals && Ok(request.globals[vs[i].name]) == Encode(vs[i].value)
  {
    assert LastOfItsName(vs, i);
  }

  /** What a variable is found as. */
  lemma FoundAs(globals: map<string, Wire>, vs: seq<Variable>, i: nat, name: string, v: Value, w: Wire)
    requires AllFound(globals, vs) && i < |vs| && vs[i] == Variable(name, v) && Encode(v) == Ok(w)
    ensures Finds(globals, name, w)
  {
  }

  ghost predicate AllFound(globals: map<string, Wire>, vs: seq<Variable>) {
    forall i | 0 <= i < |vs| :: vs[i].name in globals && Ok(globals[vs[i].name]) == Encode(vs[i].value)
  }

  lemma PointFound(globals: map<string, Wire>, a: Arguments)
    requires a.GetSet? && AllFound(globals, VariablesOf(a))
    ensures FindsArguments(globals, a)
  {
    var vs := VariablesOf(a);
    FoundAs(globals, vs, 0, "setVoltages", DoubleArray(a.setVoltages), WDArray(a.setVoltages));
    FoundAs(globals, vs, 1, "getters", InstrumentTargetArray(a.getters), WTArray(a.getters));
    FoundAs(globals, vs, 2, "setters", InstrumentTargetArray(a.setters), WTArray(a.setters));
  }

  lemma LineFound(globals: map<string, Wire>, a: Arguments)
    requires a.Buffered1D? && StepsFit(a) && AllFound(globals, VariablesOf(a))
    ensures FindsArguments(globals, a)
  {
    var vs := VariablesOf(a);
    FoundAs(globals, vs, 0, "setVoltageDomains", InstrumentDomainArray(a.domains), WDnArray(a.domains));
    FoundAs(globals, vs, 1, "getters", InstrumentTargetArray(a.getters), WTArray(a.getters));
    FoundAs(globals, vs, 2, "numSteps", Whole(I64, a.numSteps), WI(a.numSteps));
    FoundAs(globals, vs, 3, "setters", InstrumentTargetArray(a.setters), WTArray(a.setters));
  }

  lemma GridTargetsFound(globals: map<string, Wire>, a: Arguments)
    requires a.Buffered2D? && AllFound(globals, VariablesOf(a))
    ensures Finds(globals, "bufferedXSetters", WTArray(a.xSetters))
    ensures Finds(globals, "bufferedGetters", WTArray(a.getters))
    ensures Finds(globals, "bufferedYSetters", WTArray(a.ySetters))
  {
    var vs := VariablesOf(a);
    FoundAs(globals, vs, 0, "bufferedXSetters", InstrumentTargetArray(a.xSetters), WTArray(a.xSetters));
    FoundAs(globals, vs, 1, "bufferedGetters", InstrumentTargetArray(a.getters), WTArray(a.getters));
    FoundAs(globals, vs, 2, "bufferedYSetters", InstrumentTargetArray(a.ySetters), WTArray(a.ySetters));
  }

  lemma GridDomainsFound(globals: map<string, Wire>, a: Arguments)
    requires a.Buffered2D? && AllFound(globals, VariablesOf(a))
    ensures Finds(globals, "setYVoltageDomains", WDnArray(a.yDomains))
    ensures Finds(globals, "setXVoltageDomains", WDnArray(a.xDomains))
  {
    var vs := VariablesOf(a);
    FoundAs(globals, vs, 4, "setYVoltageDomains", InstrumentDomainArray(a.yDomains), WDnArray(a.yDomains));
    FoundAs(globals, vs, 5, "setXVoltageDomains", InstrumentDomainArray(a.xDomains), WDnArray(a.xDomains));
  }

  lemma GridStepsFound(globals: map<string, Wire>, a: Arguments)
    requires a.Buffered2D? && StepsFit(a) && AllFound(globals, VariablesOf(a))
    ensures Finds(globals, "numXSteps", WI(a.numXSteps)) && Finds(globals, "numYSteps", WI(a.numYSteps))
  {
    var vs := VariablesOf(a);
    FoundAs(globals, vs, 3, "numXSteps", Whole(I64, a.numXSteps), WI(a.numXSteps));
    FoundAs(globals, vs, 6, "numYSteps", Whole(I64, a.numYSteps), WI(a.numYSteps));
  }

  lemma GridFound(globals: map<string, Wire>, a: Arguments)
    requires a.Buffered2D? && StepsFit(a) && AllFound(globals, VariablesOf(a))
    ensures FindsArguments(globals, a)
  {
    GridTargetsFound(globals, a);
    GridDomainsFound(globals, a);
    GridStepsFound(globals, a);
  }

  lemma AllSendable(a: Arguments, i: nat)
    requires i < |VariablesOf(a)|
    ensures Sendable(VariablesOf(a)[i])
  {
  }

  /** The arguments of a script can always be sent, and it finds each of them under its own name,
      in the wire form of its kind. */
  lemma ArgumentsTravel(script: string, a: Arguments)
    requires StepsFit(a)
    ensures
      var r := BuiltUpTo(script, VariablesOf(a), |VariablesOf(a)|);
      r.Request? && r.request.script == script && FindsArguments(r.request.globals, a)
  {
    var vs := VariablesOf(a);
    var end := RequestBuilt(script, vs);
    var r := BuiltUpTo(script, vs, |vs|);
    if !r.Request? {
      AllSendable(a, end);
      assert false;
    }
    NamesDiffer(a);
    AllCarried(r.request, vs);
    match a {
      case GetSet(_, _, _) => PointFound(r.request.globals, a);
      case Buffered1D(_, _, _, _) => LineFound(r.request.globals, a);
      case Buffered2D(_, _, _, _, _, _, _) => GridFound(r.request.globals, a);
    }
  }

  lemma AllCarried(request: JobRequest, vs: seq<Variable>)
    requires Carries(request, vs) && DistinctNames(vs)
    ensures AllFound(request.globals, vs)
  {
    forall i | 0 <= i < |vs|
      ensures vs[i].name in request.globals && Ok(request.globals[vs[i].name]) == Encode(vs[i].value)
    {
      VariableFound(request, vs, i);
    }
  }
}
