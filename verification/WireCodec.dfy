/**
 Dynamically typed script values and their wire form: encoding, decoding, the type manifest
 beside the encoded values, and the tag that the wire loses.
 */
module WireCodec {
  import opened Wrappers

  datatype IntKind = I | I8 | I16 | I32 | I64 | U | U8 | U16 | U32 | U64

  /** What a variable may hold; `Other` stands for every dynamic type the encoder and the
      manifest know nothing of. */
  datatype Value =
    | Nil
    | Bool(b: bool)
    | Whole(kind: IntKind, n: int)
    | Float32(x: real)
    | Float64(x: real)
    | Str(s: string)
    | DataBuffer(id: string)
    | CallStack(s: string)
    | InstrumentDomain(s: string)
    | InstrumentTarget(s: string)
    | Int64Array(ns: seq<int>)
    | DoubleArray(xs: seq<real>)
    | BoolArray(bs: seq<bool>)
    | StringArray(strings: seq<string>)
    | DataBufferArray(ids: seq<string>)
    | CallStackArray(strings: seq<string>)
    | InstrumentTargetArray(strings: seq<string>)
    | InstrumentDomainArray(strings: seq<string>)
    | MixedMap(fields: map<string, Value>)
    | Other(typeName: string)

  /** A protobuf value: possibly a nil message, or one whose kind is not set. */
  datatype Wire =
    | Absent
    | Unset
    | IsNil(flag: bool)
    | WB(b: bool)
    | WI(n: int)
    | WD(x: real)
    | WS(s: string)
    | WIArray(ns: seq<int>)
    | WDArray(xs: seq<real>)
    | WBArray(bs: seq<bool>)
    | WSArray(strings: seq<string>)
    | WDbArray(ids: seq<string>)
    | WCsArray(strings: seq<string>)
    | WTArray(strings: seq<string>)
    | WDnArray(strings: seq<string>)
    | WMArray(items: seq<Wire>)
    | WMMap(fields: map<string, Wire>)

  function Lowest(kind: IntKind): int {
    match kind
    case I8 => -0x80
    case I16 => -0x8000
    case I32 => -0x8000_0000
    case I | I64 => -MAX_INT - 1
    case _ => 0
  }

  function Highest(kind: IntKind): int {
    match kind
    case I8 => 0x7F
    case I16 => 0x7FFF
    case I32 => 0x7FFF_FFFF
    case I | I64 => MAX_INT
    case U8 => 0xFF
    case U16 => 0xFFFF
    case U32 => 0xFFFF_FFFF
    case U | U64 => WIDTH - 1
  }

  /** The numbers that a Go integer of the kind can hold. */
  predicate InRange(v: Value) {
    v.Whole? ==> Lowest(v.kind) <= v.n <= Highest(v.kind)
  }

  // ----------------------------------------------------------------- encoding

  datatype CodecError = Unencodable

  function Encode(v: Value): Result<Wire, CodecError> {
    match v
    case Nil => Ok(IsNil(true))
    case Bool(b) => Ok(WB(b))
    case Whole(kind, n) => if kind.U64? && n > MAX_INT then Err(Unencodable) else Ok(WI(Int64(n)))
    case Float32(x) => Ok(WD(x))
    case Float64(x) => Ok(WD(x))
    case Str(s) => Ok(WS(s))
    case CallStack(s) => Ok(WS(s))
    case InstrumentDomain(s) => Ok(WS(s))
    case InstrumentTarget(s) => Ok(WS(s))
    case Int64Array(ns) => Ok(WIArray(ns))
    case DoubleArray(xs) => Ok(WDArray(xs))
    case BoolArray(bs) => Ok(WBArray(bs))
    case StringArray(strings) => Ok(WSArray(strings))
    case DataBufferArray(ids) => Ok(WDbArray(ids))
    case CallStackArray(strings) => Ok(WCsArray(strings))
    case InstrumentTargetArray(strings) => Ok(WTArray(strings))
    case InstrumentDomainArray(strings) => Ok(WDnArray(strings))
    case MixedMap(fields) =>
      if forall k | k in fields :: Encode(fields[k]).Ok?
      then Ok(WMMap(map k | k in fields :: Encode(fields[k]).value))
      else Err(Unencodable)
    case DataBuffer(_) => Err(Unencodable)
    case Other(_) => Err(Unencodable)
  }

  // ----------------------------------------------------------------- decoding

  datatype Decoded = Value(v: Value) | Panic

  function Decode(w: Wire): Decoded {
    match w
    case Absent => Value(Nil)
    case IsNil(_) => Value(Nil)
    case WB(b) => Value(Bool(b))
    case WI(n) => Value(Whole(I64, n))
    case WD(x) => Value(Float64(x))
    case WS(s) => Value(Str(s))
    case WIArray(ns) => Value(Int64Array(ns))
    case WDArray(xs) => Value(DoubleArray(xs))
    case WBArray(bs) => Value(BoolArray(bs))
    case WSArray(strings) => Value(StringArray(strings))
    case WDbArray(ids) => Value(DataBufferArray(ids))
    case WCsArray(strings) => Value(CallStackArray(strings))
    case WTArray(strings) => Value(InstrumentTargetArray(strings))
    case WDnArray(strings) => Value(InstrumentDomainArray(strings))
    case WMMap(fields) =>
      if forall k | k in fields :: Decode(fields[k]).Value?
      then Value(MixedMap(map k | k in fields :: Decode(fields[k]).v))
      else Panic
    case WMArray(_) => Panic
    case Unset => Panic
  }

  // -------------------------------------------------------------- round trips

  /** The form in which a value comes back: whole numbers as int64, all floats as float64,
      tagged strings as plain ones, at every depth. */
  function Normalize(v: Value): Value {
    match v
    case Whole(_, n) => Whole(I64, Int64(n))
    case Float32(x) => Float64(x)
    case CallStack(s) => Str(s)
    case InstrumentDomain(s) => Str(s)
    case InstrumentTarget(s) => Str(s)
    case MixedMap(fields) => MixedMap(map k | k in fields :: Normalize(fields[k]))
    case _ => v
  }

  lemma EncodesFields(values: map<string, Value>, wires: map<string, Wire>)
    requires values.Keys == wires.Keys && forall k :: k in values ==> Encode(values[k]) == Ok(wires[k])
    ensures Encode(MixedMap(values)) == Ok(WMMap(wires))
  {
    var r := Encode(MixedMap(values));
    assert r.Ok?;
    assert r.value.fields == wires;
  }

  lemma DecodesFields(wires: map<string, Wire>, values: map<string, Value>)
    requires values.Keys == wires.Keys && forall k :: k in wires ==> Decode(wires[k]) == Decoded.Value(values[k])
    ensures Decode(WMMap(wires)) == Decoded.Value(MixedMap(values))
  {
    var r := Decode(WMMap(wires));
    assert r.Value?;
    assert r.v.fields == values;
  }

  /** Decoding what was encoded gives the normal form; in particular it never panics. */
  lemma {:induction false} DecodeEncode(v: Value)
    requires Encode(v).Ok?
    ensures Decode(Encode(v).value) == Decoded.Value(Normalize(v))
  {
    if v.MixedMap? {
      var wires := Encode(v).value.fields;
      forall k | k in wires
        ensures Decode(wires[k]) == Decoded.Value(Normalize(v).fields[k])
      {
        DecodeEncode(v.fields[k]);
      }
      DecodesFields(wires, Normalize(v).fields);
    }
  }

  lemma {:induction false} NormalizeIdempotent(v: Value)
    ensures Normalize(Normalize(v)) == Normalize(v)
  {
    if v.MixedMap? {
      forall k | k in v.fields
        ensures Normalize(Normalize(v.fields[k])) == Normalize(v.fields[k])
      {
        NormalizeIdempotent(v.fields[k]);
      }
      assert Normalize(Normalize(v)).fields == Normalize(v).fields;
    }
  }

  /** Normalizing loses nothing that the wire keeps: two accepted values have the same wire
      form exactly when they have the same normal form. */
  lemma {:induction false} SameWireSameNormalForm(v: Value, u: Value)
    requires Encode(v).Ok? && Encode(u).Ok?
    ensures Encode(v) == Encode(u) <==> Normalize(v) == Normalize(u)
  {
    DecodeEncode(v);
    DecodeEncode(u);
    if Normalize(v) == Normalize(u) {
      EncodeNormal(v);
      EncodeNormal(u);
    }
  }

  /** A normal form is encoded like the value it comes from. */
  lemma {:induction false} EncodeNormal(v: Value)
    requires Encode(v).Ok?
    ensures Encode(Normalize(v)) == Encode(v)
  {
    if v.MixedMap? {
      var normal, wires := Normalize(v).fields, Encode(v).value.fields;
      forall k | k in normal
        ensures Encode(normal[k]) == Ok(wires[k])
      {
        EncodeNormal(v.fields[k]);
      }
      EncodesFields(normal, wires);
    }
  }

  /** The wire values that an encoder sends: no nil message, no kind left unset, no mixed
      array, the nil flag up, and whole numbers of 64 bits, at every depth. */
  predicate Canonical(w: Wire) {
    match w
    case Absent => false
    case Unset => false
    case WMArray(_) => false
    case IsNil(flag) => flag
    case WI(n) => -MAX_INT - 1 <= n <= MAX_INT
    case WMMap(fields) => forall k | k in fields :: Canonical(fields[k])
    case _ => true
  }

  lemma {:induction false} EncodingsAreCanonical(v: Value)
    requires Encode(v).Ok?
    ensures Canonical(Encode(v).value)
  {
    if v.MixedMap? {
      var wires := Encode(v).value.fields;
      forall k | k in wires
        ensures Canonical(wires[k])
      {
        EncodingsAreCanonical(v.fields[k]);
      }
    }
  }

  lemma {:induction false} CanonicalReencodes(w: Wire)
    requires Canonical(w)
    ensures Decode(w).Value? && Encode(Decode(w).v) == Ok(w)
  {
    if w.WMMap? {
      forall k | k in w.fields
        ensures Decode(w.fields[k]).Value? && Encode(Decode(w.fields[k]).v) == Ok(w.fields[k])
      {
        CanonicalReencodes(w.fields[k]);
      }
      EncodesFields(Decode(w).v.fields, w.fields);
    }
  }

  /** Re-encoding a decoded wire value gives it back exactly when it is canonical. */
  lemma EncodeDecode(w: Wire)
    ensures Canonical(w) <==> Decode(w).Value? && Encode(Decode(w).v) == Ok(w)
  {
    if Canonical(w) {
      CanonicalReencodes(w);
    } else if Decode(w).Value? && Encode(Decode(w).v) == Ok(w) {
      EncodingsAreCanonical(Decode(w).v);
    }
  }

  /** The encoder accepts exactly the values without a data buffer, an unknown type or a
      uint64 beyond int64, at every depth. */
  predicate Accepted(v: Value) {
    match v
    case DataBuffer(_) => false
    case Other(_) => false
    case Whole(kind, n) => kind.U64? ==> n <= MAX_INT
    case MixedMap(fields) => forall k | k in fields :: Accepted(fields[k])
    case _ => true
  }

  lemma {:induction false} EncodesAccepted(v: Value)
    ensures Encode(v).Ok? <==> Accepted(v)
  {
    if v.MixedMap? {
      forall k | k in v.fields
        ensures Encode(v.fields[k]).Ok? <==> Accepted(v.fields[k])
      {
        EncodesAccepted(v.fields[k]);
      }
    }
  }

  /** An accepted number comes back unchanged, except that a uint beyond int64 wraps around
      without a complaint. */
  lemma NumberSurvives(v: Value)
    requires v.Whole? && InRange(v) && Encode(v).Ok?
    ensures Encode(v).value == WI(v.n) <==> v.n <= MAX_INT
    ensures v.n > MAX_INT ==> v.kind == U && Encode(v).value == WI(v.n - WIDTH)
  {
  }

  // ---------------------------------------------------------- the type manifest

  datatype LuaType = Unspecified | Int64Type | DoubleType | BoolType | StringType | DataBufferType | CallStackType
                   | Int64ArrayType | DoubleArrayType | BoolArrayType | StringArrayType | DataBufferArrayType
                   | CallStackArrayType | MixedArrayType | TargetType | TargetArrayType | DomainType | DomainArrayType

  /** The declared type of a value, or nothing where the program panics. */
  function LuaTypeOf(v: Value): Option<LuaType> {
    match v
    case Nil => Some(Unspecified)
    case Whole(kind, _) => if kind.I64? then Some(Int64Type) else None
    case Float64(_) => Some(DoubleType)
    case Bool(_) => Some(BoolType)
    case Str(_) => Some(StringType)
    case DataBuffer(_) => Some(DataBufferType)
    case CallStack(_) => Some(CallStackType)
    case InstrumentDomain(_) => Some(DomainType)
    case InstrumentTarget(_) => Some(TargetType)
    case Int64Array(_) => Some(Int64ArrayType)
    case DoubleArray(_) => Some(DoubleArrayType)
    case BoolArray(_) => Some(BoolArrayType)
    case StringArray(_) => Some(StringArrayType)
    case DataBufferArray(_) => Some(DataBufferArrayType)
    case CallStackArray(_) => Some(CallStackArrayType)
    case InstrumentDomainArray(_) => Some(DomainArrayType)
    case InstrumentTargetArray(_) => Some(TargetArrayType)
    case MixedMap(_) => Some(Unspecified)
    case Float32(_) => None
    case Other(_) => None
  }

  /** The values that a declared type is for. */
  predicate Declares(t: LuaType, v: Value) {
    match t
    case Unspecified => v.Nil? || v.MixedMap?
    case Int64Type => v.Whole? && v.kind == I64
    case DoubleType => v.Float64?
    case BoolType => v.Bool?
    case StringType => v.Str?
    case DataBufferType => v.DataBuffer?
    case CallStackType => v.CallStack?
    case TargetType => v.InstrumentTarget?
    case DomainType => v.InstrumentDomain?
    case Int64ArrayType => v.Int64Array?
    case DoubleArrayType => v.DoubleArray?
    case BoolArrayType => v.BoolArray?
    case StringArrayType => v.StringArray?
    case DataBufferArrayType => v.DataBufferArray?
    case CallStackArrayType => v.CallStackArray?
    case TargetArrayType => v.InstrumentTargetArray?
    case DomainArrayType => v.InstrumentDomainArray?
    case MixedArrayType => false
  }

  lemma DeclaredType(v: Value, t: LuaType)
    ensures LuaTypeOf(v) == Some(t) <==> Declares(t, v)
  {
  }

  /** What the script server finds on the wire under a declared type: the value itself, in the
      field of its kind; the fields of a map hold the forms of its values. */
  predicate CarriedAs(t: LuaType, v: Value, w: Wire) {
    match t
    case Unspecified =>
      if v.MixedMap?
      then && w.WMMap? && w.fields.Keys == v.fields.Keys
           && forall k | k in v.fields :: Encode(v.fields[k]) == Ok(w.fields[k])
      else w == IsNil(true)
    case Int64Type => v.Whole? && w == WI(v.n)
    case DoubleType => v.Float64? && w == WD(v.x)
    case BoolType => v.Bool? && w == WB(v.b)
    case StringType => v.Str? && w == WS(v.s)
    case CallStackType => v.CallStack? && w == WS(v.s)
    case TargetType => v.InstrumentTarget? && w == WS(v.s)
    case DomainType => v.InstrumentDomain? && w == WS(v.s)
    case Int64ArrayType => v.Int64Array? && w == WIArray(v.ns)
    case DoubleArrayType => v.DoubleArray? && w == WDArray(v.xs)
    case BoolArrayType => v.BoolArray? && w == WBArray(v.bs)
    case StringArrayType => v.StringArray? && w == WSArray(v.strings)
    case DataBufferArrayType => v.DataBufferArray? && w == WDbArray(v.ids)
    case CallStackArrayType => v.CallStackArray? && w == WCsArray(v.strings)
    case TargetArrayType => v.InstrumentTargetArray? && w == WTArray(v.strings)
    case DomainArrayType => v.InstrumentDomainArray? && w == WDnArray(v.strings)
    case DataBufferType => false
    case MixedArrayType => false
  }

  /** The manifest tells the truth about the wire: under each declared type stands a value that
      the type is for, in the form that belongs to it. */
  lemma ManifestFitsWire(v: Value, t: LuaType, w: Wire)
    requires LuaTypeOf(v) == Some(t) && Encode(v) == Ok(w) && InRange(v)
    ensures Declares(t, v) && CarriedAs(t, v, w)
  {
    DeclaredType(v, t);
  }

  /** What a value and its place in the manifest stand for: two values send the same type
      and the same wire form exactly when they are equal, or are two maps with the same
      normal form. */
  lemma TypeAndWireDetermine(v: Value, u: Value)
    requires Encode(v).Ok? && Encode(u).Ok? && LuaTypeOf(v).Some? && LuaTypeOf(u).Some?
    requires InRange(v) && InRange(u)
    ensures LuaTypeOf(v) == LuaTypeOf(u) && Encode(v) == Encode(u)
       <==> v == u || (v.MixedMap? && u.MixedMap? && Normalize(v) == Normalize(u))
  {
    SameWireSameNormalForm(v, u);
  }

  /** Inside a map the tags are lost for good: distinct maps send the same type and wire. */
  lemma MapsLoseTags()
    ensures
      var v, u := MixedMap(map["a" := CallStack("x")]), MixedMap(map["a" := Str("x")]);
      v != u && Encode(v).Ok? && LuaTypeOf(v) == LuaTypeOf(u) && Encode(v) == Encode(u)
  {
    var v, u := MixedMap(map["a" := CallStack("x")]), MixedMap(map["a" := Str("x")]);
    assert v.fields["a"] != u.fields["a"];
    EncodesFields(v.fields, map["a" := WS("x")]);
    EncodesFields(u.fields, map["a" := WS("x")]);
  }

  // -------------------------------------------------------------- job requests

  datatype Variable = Variable(name: string, value: Value)

  datatype Parameter = Parameter(name: string, luaType: LuaType)

  datatype JobRequest = JobRequest(script: string, globals: map<string, Wire>, parameters: seq<Parameter>)

  datatype Built = Request(request: JobRequest) | Failed(name: string) | Panicked

  /** A variable that goes into a request. */
  predicate Sendable(v: Variable) {
    Encode(v.value).Ok? && LuaTypeOf(v.value).Some?
  }

  /** The request lists the variables in order, and a global holds the value of the last
      variable of its name. */
  ghost predicate Carries(request: JobRequest, variables: seq<Variable>) {
    && |request.parameters| == |variables|
    && (forall i | 0 <= i < |variables| ::
          && Sendable(variables[i])
          && request.parameters[i] == Parameter(variables[i].name, LuaTypeOf(variables[i].value).value))
    && (forall name :: name in request.globals <==> exists i :: 0 <= i < |variables| && variables[i].name == name)
    && (forall i | 0 <= i < |variables| :: LastOfItsName(variables, i) ==>
          && variables[i].name in request.globals
          && Ok(request.globals[variables[i].name]) == Encode(variables[i].value))
  }

  predicate LastOfItsName(variables: seq<Variable>, i: nat)
    requires i < |variables|
  {
    forall j | i < j < |variables| :: variables[j].name != variables[i].name
  }

  predicate DistinctNames(variables: seq<Variable>) {
    forall i, j | 0 <= i < j < |variables| :: variables[i].name != variables[j].name
  }

  /** The request after the first `k` variables, or where building it ended before. */
  function BuiltUpTo(script: string, variables: seq<Variable>, k: nat): Built
    requires k <= |variables|
  {
    if k == 0 then Request(JobRequest(script, map[], []))
    else
      var prev := BuiltUpTo(script, variables, k - 1);
      if !prev.Request? then prev else WithVariable(prev.request, variables[k - 1])
  }

  function WithVariable(request: JobRequest, v: Variable): Built {
    var wire := Encode(v.value);
    if wire.Err? then Failed(v.name)
    else
      var luaType := LuaTypeOf(v.value);
      if luaType.None? then Panicked
      else Request(request.(globals := request.globals[v.name := wire.value],
                            parameters := request.parameters + [Parameter(v.name, luaType.value)]))
  }

  lemma {:induction false} BuildEnded(script: string, variables: seq<Variable>, k: nat, n: nat)
    requires k <= n <= |variables| && !BuiltUpTo(script, variables, k).Request?
    ensures BuiltUpTo(script, variables, n) == BuiltUpTo(script, variables, k)
  {
    if k < n {
      BuildEnded(script, variables, k, n - 1);
    }
  }

  method BuildMeasureJobRequest(script: string, variables: seq<Variable>) returns (r: Built)
    ensures r == BuiltUpTo(script, variables, |variables|)
  {
    var globals: map<string, Wire> := map[];
    var params: seq<Parameter> := [];
    for i := 0 to |variables|
      invariant BuiltUpTo(script, variables, i) == Request(JobRequest(script, globals, params))
    {
      var name, v := variables[i].name, variables[i].value;
      var value := Encode(v);
      if value.Err? {
        BuildEnded(script, variables, i + 1, |variables|);
        return Failed(name);
      }
      globals := globals[name := value.value];
      var luaType := LuaTypeOf(v);
      if luaType.None? {
        BuildEnded(script, variables, i + 1, |variables|);
        return Panicked;
      }
      params := params + [Parameter(name, luaType.value)];
    }
    r := Request(JobRequest(script, globals, params));
  }

  /** Variable `i` is the first that cannot be sent, and decides how building ends. */
  ghost predicate EndsAt(r: Built, variables: seq<Variable>, i: nat) {
    && i < |variables| && !Sendable(variables[i])
    && (forall j | 0 <= j < i :: Sendable(variables[j]))
    && r == if Encode(variables[i].value).Err? then Failed(variables[i].name) else Panicked
  }

  lemma PrefixSnoc(variables: seq<Variable>, k: nat)
    requires 0 < k <= |variables|
    ensures variables[..k] == variables[..k - 1] + [variables[k - 1]]
  {
  }

  lemma {:induction false} RequestCarries(script: string, variables: seq<Variable>, k: nat)
    requires k <= |variables| && BuiltUpTo(script, variables, k).Request?
    ensures BuiltUpTo(script, variables, k).request.script == script
    ensures Carries(BuiltUpTo(script, variables, k).request, variables[..k])
  {
    if k > 0 {
      PrefixSnoc(variables, k);
      RequestCarries(script, variables, k - 1);
      var prev := BuiltUpTo(script, variables, k - 1).request;
      CarriesNext(prev, BuiltUpTo(script, variables, k).request, variables[..k - 1], variables[k - 1]);
    }
  }

  lemma {:induction false} RequestEnds(script: string, variables: seq<Variable>, k: nat) returns (end: nat)
    requires k <= |variables| && !BuiltUpTo(script, variables, k).Request?
    ensures end < k && EndsAt(BuiltUpTo(script, variables, k), variables, end)
  {
    if BuiltUpTo(script, variables, k - 1).Request? {
      end := k - 1;
      RequestCarries(script, variables, k - 1);
      forall j | 0 <= j < end
        ensures Sendable(variables[j])
      {
        assert Sendable(variables[..end][j]);
      }
    } else {
      end := RequestEnds(script, variables, k - 1);
    }
  }

  /** Building succeeds exactly when every variable can be sent, and then the request carries
      them; otherwise the first variable that cannot be sent decides between an error, when
      the encoder refuses it, and a panic, when only the manifest does. */
  lemma RequestBuilt(script: string, variables: seq<Variable>) returns (end: nat)
    ensures
      var r := BuiltUpTo(script, variables, |variables|);
      if r.Request?
      then r.request.script == script && Carries(r.request, variables)
      else end < |variables| && EndsAt(r, variables, end)
  {
    end := 0;
    if BuiltUpTo(script, variables, |variables|).Request? {
      RequestCarries(script, variables, |variables|);
      assert variables[..|variables|] == variables;
    } else {
      end := RequestEnds(script, variables, |variables|);
    }
  }

  lemma CarriesNext(before: JobRequest, after: JobRequest, variables: seq<Variable>, v: Variable)
    requires Carries(before, variables) && WithVariable(before, v) == Request(after)
    ensures Carries(after, variables + [v])
  {
    var all, n := variables + [v], |variables|;
    forall name
      ensures name in after.globals <==> exists i :: 0 <= i < |all| && all[i].name == name
    {
      if name == v.name {
        assert all[n].name == name;
      } else if name in before.globals {
        var i :| 0 <= i < n && variables[i].name == name;
        assert all[i].name == name;
      }
    }
    forall i | 0 <= i < |all| && LastOfItsName(all, i)
      ensures all[i].name in after.globals && Ok(after.globals[all[i].name]) == Encode(all[i].value)
    {
      if i < n {
        assert all[n].name != all[i].name;
        forall j | i < j < n
          ensures variables[j].name != variables[i].name
        {
          assert all[j].name != all[i].name;
        }
        assert LastOfItsName(variables, i);
      }
    }
  }

  /** The values agree as far as the wire can tell. */
  predicate SameUpToMapTags(v: Value, u: Value) {
    v == u || (v.MixedMap? && u.MixedMap? && Normalize(v) == Normalize(u))
  }

  /** The variables can be recovered from a request. With distinct names, equal requests come
      from the same names in the same order with the same values, tags of strings included,
      except for tags inside maps. */
  lemma RequestDeterminesVariables(request: JobRequest, vs: seq<Variable>, us: seq<Variable>)
    requires Carries(request, vs) && Carries(request, us)
    requires DistinctNames(vs) && DistinctNames(us)
    requires forall i | 0 <= i < |vs| :: InRange(vs[i].value)
    requires forall i | 0 <= i < |us| :: InRange(us[i].value)
    ensures |vs| == |us|
    ensures forall i | 0 <= i < |vs| ::
              vs[i].name == us[i].name && SameUpToMapTags(vs[i].value, us[i].value)
  {
    forall i | 0 <= i < |vs|
      ensures vs[i].name == us[i].name && SameUpToMapTags(vs[i].value, us[i].value)
    {
      assert request.parameters[i] == Parameter(vs[i].name, LuaTypeOf(vs[i].value).value);
      assert request.parameters[i] == Parameter(us[i].name, LuaTypeOf(us[i].value).value);
      assert LastOfItsName(vs, i) && LastOfItsName(us, i);
      TypeAndWireDetermine(vs[i].value, us[i].value);
    }
  }

  // ------------------------------------------------------------- call results

  datatype Param = Param(name: string, wire: Wire, unit: string, luaType: LuaType)

  datatype Command = Command(instrument: string, channel: int, group: string, verb: string, params: seq<Param>)

  datatype Return = Return(name: string, value: Value, unit: string)

  datatype Call = Call(instrument: string, channel: int, group: string, verb: string, values: seq<Return>)

  /** A buffer id travels as a string; its declared type turns it back into a buffer. */
  function Retag(luaType: LuaType, v: Value): Value {
    if luaType == DataBufferType && v.Str? then DataBuffer(v.s) else v
  }

  /** How the script server sends a returned value, with its declared type beside it. */
  function SendReturn(v: Value): Result<Wire, CodecError> {
    if v.DataBuffer? then Ok(WS(v.id)) else Encode(v)
  }

  /** Returned buffers come back as buffers, and everything else in its normal form; so the
      only strings that become buffers are those that were buffers. */
  lemma RetagRecovers(v: Value)
    requires LuaTypeOf(v).Some? && (v.DataBuffer? || Encode(v).Ok?)
    ensures SendReturn(v).Ok? && Decode(SendReturn(v).value).Value?
    ensures Retag(LuaTypeOf(v).value, Decode(SendReturn(v).value).v) == Normalize(v)
    ensures Retag(LuaTypeOf(v).value, Decode(SendReturn(v).value).v).DataBuffer? <==> v.DataBuffer?
  {
    if !v.DataBuffer? {
      DecodeEncode(v);
    }
  }

  /** Exactly the strings that are declared as a buffer become buffers; nothing else changes,
      whatever the declared type. */
  lemma RetagsBuffersOnly(t: LuaType, v: Value)
    ensures v.Str? && t == DataBufferType ==> Retag(t, v) == DataBuffer(v.s)
    ensures !(v.Str? && t == DataBufferType) ==> Retag(t, v) == v
  {
  }

  predicate ReturnOf(p: Param, r: Return) {
    Decode(p.wire).Value? && r == Return(p.name, Retag(p.luaType, Decode(p.wire).v), p.unit)
  }

  predicate ReturnsOf(params: seq<Param>, values: seq<Return>) {
    |values| == |params| && forall i | 0 <= i < |params| :: ReturnOf(params[i], values[i])
  }

  predicate CallOf(cmd: Command, call: Call) {
    && ReturnsOf(cmd.params, call.values)
    && call == Call(cmd.instrument, cmd.channel, cmd.group, cmd.verb, call.values)
  }

  /** Reading the results of a job, in order. It panics, giving nothing, exactly when some
      returned value is one that cannot be decoded. */
  method CallResults(commands: seq<Command>) returns (r: Option<seq<Call>>)
    ensures r.None? <==> exists i, j | 0 <= i < |commands| && 0 <= j < |commands[i].params| ::
                           Decode(commands[i].params[j].wire).Panic?
    ensures r.Some? ==> |r.value| == |commands| && forall i | 0 <= i < |commands| :: CallOf(commands[i], r.value[i])
  {
    var results: seq<Call> := [];
    for i := 0 to |commands|
      invariant |results| == i && forall k | 0 <= k < i :: CallOf(commands[k], results[k])
      invariant forall k, j | 0 <= k < i && 0 <= j < |commands[k].params| :: Decode(commands[k].params[j].wire).Value?
    {
      var cmd := commands[i];
      var values: seq<Return> := [];
      for j := 0 to |cmd.params|
        invariant ReturnsOf(cmd.params[..j], values)
      {
        var param := cmd.params[j];
        var value := Decode(param.wire);
        if value.Panic? {
          assert Decode(commands[i].params[j].wire).Panic?;
          return None;
        }
        values := values + [Return(param.name, Retag(param.luaType, value.v), param.unit)];
      }
      assert cmd.params[..|cmd.params|] == cmd.params;
      results := results + [Call(cmd.instrument, cmd.channel, cmd.group, cmd.verb, values)];
      assert CallOf(cmd, results[i]);
      forall j | 0 <= j < |cmd.params|
        ensures Decode(commands[i].params[j].wire).Value?
      {
        assert ReturnOf(cmd.params[j], values[j]);
      }
    }
    r := Some(results);
  }

  // --------------------------------------------------- calls that come back

  /** How the script server sends a return: its value on the wire, with name, unit and type. */
  ghost predicate SentReturn(r: Return, p: Param) {
    && p.name == r.name && p.unit == r.unit
    && LuaTypeOf(r.value) == Some(p.luaType) && SendReturn(r.value) == Ok(p.wire)
  }

  /** And a call, with its instrument and its returns in order. */
  ghost predicate SentCall(call: Call, cmd: Command) {
    && cmd.instrument == call.instrument && cmd.group == call.group && cmd.channel == call.channel
    && cmd.verb == call.verb && |cmd.params| == |call.values|
    && forall j | 0 <= j < |call.values| :: SentReturn(call.values[j], cmd.params[j])
  }

  /** The calls are the same, up to the normal form of what they return. */
  predicate SameCall(call: Call, back: Call) {
    && back.instrument == call.instrument && back.group == call.group && back.channel == call.channel
    && back.verb == call.verb && |back.values| == |call.values|
    && forall j | 0 <= j < |call.values| ::
         && back.values[j].name == call.values[j].name && back.values[j].unit == call.values[j].unit
         && back.values[j].value == Normalize(call.values[j].value)
  }

  /** What the script server sends of a call comes back as that call: buffers as buffers, and every
      other value in its normal form. */
  lemma CallsComeBack(call: Call, cmd: Command, back: Call)
    requires SentCall(call, cmd) && CallOf(cmd, back)
    ensures SameCall(call, back)
  {
    forall j | 0 <= j < |call.values|
      ensures back.values[j].name == call.values[j].name && back.values[j].unit == call.values[j].unit
      ensures back.values[j].value == Normalize(call.values[j].value)
    {
      assert SentReturn(call.values[j], cmd.params[j]) && ReturnOf(cmd.params[j], back.values[j]);
      RetagRecovers(call.values[j].value);
    }
  }
}
