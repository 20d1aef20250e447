/**
 Decoding a measurement: collecting the samples of each getter from the returns of the
 script, consuming the buffers that hold them.
 */
module Decoder {
  import opened Wrappers
  import opened RowMajor
  import opened Planner
  import opened Shapes
  import opened Buffers
  import opened WireCodec

  /** Units by symbol and number: which symbols can be converted to a unit at all, and the
      conversion of one sample. A unit converts to itself by leaving samples alone. */
  datatype Units = Units(convertible: (string, int) -> bool, convert: (string, int, real) -> Option<real>)

  datatype TargetSpec = TargetSpec(target: Target, unit: int, shape: seq<int>, buffersOnly: bool)

  datatype Series = Series(target: Target, unit: int, data: seq<real>, shape: seq<int>)

  datatype DecodeError =
    | MeasurementFailed(message: string) | NoSpecs | BadShape | EmptyId | BufferFailed(error: BufferError)
    | UnsupportedValue | NotConvertible | WrongCount

  /** A result, and what is still tracked afterwards. */
  datatype Outcome<T> = Outcome(result: Result<T, DecodeError>, store: Store)

  // ------------------------------------------------------------ reading buffers

  function ConsumeBufferSpec(store: Store, owner: string, id: string): Outcome<seq<real>> {
    if id == "" then Outcome(Err(EmptyId), store)
    else
      match Consumed(store, owner, id)
      case Err(e) => Outcome(Err(BufferFailed(e)), AfterConsuming(store, owner, id))
      case Ok(samples) => Outcome(Ok(samples), AfterConsuming(store, owner, id))
  }

  /** Consuming buffers one after the other, up to the first failure. */
  function ConsumeIds(store: Store, owner: string, ids: seq<string>): Outcome<seq<real>> {
    if ids == [] then Outcome(Ok([]), store)
    else
      var prev := ConsumeIds(store, owner, ids[..|ids| - 1]);
      if prev.result.Err? then prev
      else
        var next := ConsumeBufferSpec(prev.store, owner, ids[|ids| - 1]);
        if next.result.Err? then next
        else Outcome(Ok(prev.result.value + next.result.value), next.store)
  }

  function IdsIn(v: Value): seq<string> {
    match v
    case DataBuffer(id) => [id]
    case DataBufferArray(ids) => ids
    case _ => []
  }

  predicate HoldsBuffers(v: Value) {
    v.DataBuffer? || v.DataBufferArray?
  }

  predicate IsScalar(v: Value) {
    v.Float64? || (v.Whole? && v.kind.I64?)
  }

  function ScalarOf(v: Value): real
    requires IsScalar(v)
  {
    if v.Float64? then v.x else v.n as real
  }

  function ReturnSamplesSpec(store: Store, owner: string, v: Value): Outcome<seq<real>> {
    if HoldsBuffers(v) then ConsumeIds(store, owner, IdsIn(v))
    else if IsScalar(v) then Outcome(Ok([ScalarOf(v)]), store)
    else Outcome(Err(UnsupportedValue), store)
  }

  // -------------------------------------------------------------- what is read

  /** A matched return with the unit that its samples are to be converted to. */
  datatype Item = Item(ret: Return, unit: int)

  predicate OnTarget(call: Call, t: Target) {
    call.instrument == t.instrument && call.group == t.group && call.channel == t.channel
  }

  predicate Wanted(units: Units, r: Return, spec: TargetSpec) {
    r.unit != "" && units.convertible(r.unit, spec.unit) && (spec.buffersOnly ==> HoldsBuffers(r.value))
  }

  function WantedItems(units: Units, rs: seq<Return>, spec: TargetSpec): seq<Item> {
    if rs == [] then []
    else
      var last := rs[|rs| - 1];
      WantedItems(units, rs[..|rs| - 1], spec) + if Wanted(units, last, spec) then [Item(last, spec.unit)] else []
  }

  /** The returns that make up a series, in call and return order. */
  function Items(units: Units, calls: seq<Call>, spec: TargetSpec): seq<Item> {
    if calls == [] then []
    else
      var last := calls[|calls| - 1];
      Items(units, calls[..|calls| - 1], spec)
      + if OnTarget(last, spec.target) then WantedItems(units, last.values, spec) else []
  }

  /** The converted samples, if every sample converts. */
  function Converted(units: Units, symbol: string, unit: int, xs: seq<real>): Option<seq<real>> {
    if xs == [] then Some([])
    else
      var init := Converted(units, symbol, unit, xs[..|xs| - 1]);
      var last := units.convert(symbol, unit, xs[|xs| - 1]);
      if init.None? || last.None? then None else Some(init.value + [last.value])
  }

  /** Sample by sample, `ys` are the conversions of `xs`. */
  predicate ConvertsTo(units: Units, symbol: string, unit: int, xs: seq<real>, ys: seq<real>) {
    |ys| == |xs| && forall i | 0 <= i < |xs| :: units.convert(symbol, unit, xs[i]) == Some(ys[i])
  }

  lemma {:induction false} ConvertedExactly(units: Units, symbol: string, unit: int, xs: seq<real>, ys: seq<real>)
    ensures Converted(units, symbol, unit, xs) == Some(ys) <==> ConvertsTo(units, symbol, unit, xs, ys)
  {
    if xs == [] {
      assert ConvertsTo(units, symbol, unit, xs, ys) <==> ys == [];
    } else {
      var n := |xs| - 1;
      if |ys| == |xs| {
        ConvertedExactly(units, symbol, unit, xs[..n], ys[..n]);
        assert ys == ys[..n] + [ys[n]];
      }
      if Converted(units, symbol, unit, xs) == Some(ys) {
        ConvertedExactly(units, symbol, unit, xs[..n], Converted(units, symbol, unit, xs[..n]).value);
      }
    }
  }

  /** All samples convert, or some sample does not. */
  lemma {:induction false} ConvertedFails(units: Units, symbol: string, unit: int, xs: seq<real>)
    ensures Converted(units, symbol, unit, xs).Some? <==>
            forall i | 0 <= i < |xs| :: units.convert(symbol, unit, xs[i]).Some?
  {
    if xs != [] {
      ConvertedFails(units, symbol, unit, xs[..|xs| - 1]);
      assert forall i | 0 <= i < |xs| - 1 :: xs[..|xs| - 1][i] == xs[i];
    }
  }

  function DecodeItem(units: Units, store: Store, owner: string, item: Item): Outcome<seq<real>> {
    var raw := ReturnSamplesSpec(store, owner, item.ret.value);
    if raw.result.Err? then raw
    else
      match Converted(units, item.ret.unit, item.unit, raw.result.value)
      case None => Outcome(Err(NotConvertible), raw.store)
      case Some(xs) => Outcome(Ok(xs), raw.store)
  }

  function DecodeItems(units: Units, store: Store, owner: string, items: seq<Item>): Outcome<seq<real>> {
    if items == [] then Outcome(Ok([]), store)
    else
      var prev := DecodeItems(units, store, owner, items[..|items| - 1]);
      if prev.result.Err? then prev
      else
        var next := DecodeItem(units, prev.store, owner, items[|items| - 1]);
        if next.result.Err? then next
        else Outcome(Ok(prev.result.value + next.result.value), next.store)
  }

  /** A requested series with the returns that make it up. */
  datatype Job = Job(items: seq<Item>, spec: TargetSpec)

  function Jobs(units: Units, calls: seq<Call>, specs: seq<TargetSpec>): seq<Job> {
    if specs == [] then []
    else
      var last := specs[|specs| - 1];
      Jobs(units, calls, specs[..|specs| - 1]) + [Job(Items(units, calls, last), last)]
  }

  function DecodeJob(units: Units, store: Store, owner: string, job: Job): Outcome<Series> {
    if !Sized(job.spec.shape) then Outcome(Err(BadShape), store)
    else
      var read := DecodeItems(units, store, owner, job.items);
      match read.result
      case Err(e) => Outcome(Err(e), read.store)
      case Ok(data) =>
        if |data| != Product(job.spec.shape) then Outcome(Err(WrongCount), read.store)
        else Outcome(Ok(Series(job.spec.target, job.spec.unit, data, job.spec.shape)), read.store)
  }

  function Appended(series: seq<Series>, next: Outcome<Series>): Outcome<seq<Series>> {
    match next.result
    case Err(e) => Outcome(Err(e), next.store)
    case Ok(s) => Outcome(Ok(series + [s]), next.store)
  }

  function DecodeJobs(units: Units, store: Store, owner: string, jobs: seq<Job>): Outcome<seq<Series>> {
    if jobs == [] then Outcome(Ok([]), store)
    else
      var prev := DecodeJobs(units, store, owner, jobs[..|jobs| - 1]);
      if prev.result.Err? then prev
      else Appended(prev.result.value, DecodeJob(units, prev.store, owner, jobs[|jobs| - 1]))
  }

  // ------------------------------------------------------------ exact consumption

  predicate DistinctIds(ids: seq<string>) {
    forall i, j | 0 <= i < j < |ids| :: ids[i] != ids[j]
  }

  function IdSet(ids: seq<string>): set<string> {
    set id | id in ids
  }

  /** A buffer that its owner can read: named, tracked for the owner, typed and not empty. */
  predicate Usable(store: Store, owner: string, id: string) {
    id != "" && OwnedBy(store, owner, id) && SamplesIn(store[id].buffer).Ok?
  }

  /** The buffers are distinct and the owner can read each of them. */
  predicate AllUsable(store: Store, owner: string, ids: seq<string>) {
    ids == [] ||
    var init, last := ids[..|ids| - 1], ids[|ids| - 1];
    AllUsable(store, owner, init) && Usable(store, owner, last) && last !in init
  }

  lemma {:induction false} AllUsableMeans(store: Store, owner: string, ids: seq<string>)
    ensures AllUsable(store, owner, ids) <==>
            DistinctIds(ids) && forall i | 0 <= i < |ids| :: Usable(store, owner, ids[i])
    ensures forall i | 0 <= i < |ids| && Usable(store, owner, ids[i]) ::
              && ids[i] != "" && ids[i] in store && store[ids[i]].requestor == owner
              && exists xs :: Holds(store[ids[i]].buffer, xs)
  {
    if ids != [] {
      var init, last := ids[..|ids| - 1], ids[|ids| - 1];
      AllUsableMeans(store, owner, init);
      if Usable(store, owner, last) {
        SamplesHeld(store[last].buffer);
      }
      assert forall i | 0 <= i < |init| :: init[i] == ids[i];
    }
  }

  function BufferSamples(store: Store, id: string): seq<real> {
    if id in store && SamplesIn(store[id].buffer).Ok? then SamplesIn(store[id].buffer).value else []
  }

  function SamplesOfIds(store: Store, ids: seq<string>): seq<real> {
    if ids == [] then [] else SamplesOfIds(store, ids[..|ids| - 1]) + BufferSamples(store, ids[|ids| - 1])
  }

  lemma AllUsableSnoc(store: Store, owner: string, init: seq<string>, last: string)
    ensures AllUsable(store, owner, init + [last]) <==>
            AllUsable(store, owner, init) && Usable(store, owner, last) && last !in init
  {
    assert (init + [last])[..|init|] == init;
  }

  lemma IdSetSnoc(init: seq<string>, last: string)
    ensures IdSet(init + [last]) == IdSet(init) + {last}
  {
  }

  lemma RemoveInSteps(store: Store, a: set<string>, b: set<string>)
    ensures store - (a + b) == store - a - b
  {
  }

  lemma ConsumeOneExact(store: Store, owner: string, gone: set<string>, id: string)
    ensures
      var r := ConsumeBufferSpec(store - gone, owner, id);
      && (r.result.Ok? <==> Usable(store, owner, id) && id !in gone)
      && (r.result.Ok? ==> r == Outcome(Ok(BufferSamples(store, id)), store - (gone + {id})))
  {
    RemoveInSteps(store, gone, {id});
  }

  /** Consuming succeeds exactly when the buffers are distinct and all readable by the owner;
      then each is consumed once, nothing else goes, and the samples come in order. */
  lemma {:induction false} ConsumeIdsExact(store: Store, owner: string, ids: seq<string>)
    ensures ConsumeIds(store, owner, ids).result.Ok? <==> AllUsable(store, owner, ids)
    ensures AllUsable(store, owner, ids) ==>
              ConsumeIds(store, owner, ids) == Outcome(Ok(SamplesOfIds(store, ids)), store - IdSet(ids))
  {
    if ids == [] {
      assert store - IdSet([]) == store;
    } else {
      var init, last := ids[..|ids| - 1], ids[|ids| - 1];
      assert ids == init + [last];
      ConsumeIdsExact(store, owner, init);
      AllUsableSnoc(store, owner, init, last);
      IdSetSnoc(init, last);
      ConsumeOneExact(store, owner, IdSet(init), last);
    }
  }

  /** Buffers can be consumed in two goes: what the first go takes is gone for the second. */
  lemma {:induction false} AllUsableAppend(store: Store, owner: string, a: seq<string>, b: seq<string>)
    ensures AllUsable(store, owner, a + b) <==>
            AllUsable(store, owner, a) && AllUsable(store - IdSet(a), owner, b)
  {
    if b == [] {
      assert a + b == a;
    } else {
      var init, last := b[..|b| - 1], b[|b| - 1];
      assert b == init + [last] && a + b == (a + init) + [last];
      AllUsableAppend(store, owner, a, init);
      AllUsableSnoc(store, owner, a + init, last);
      AllUsableSnoc(store - IdSet(a), owner, init, last);
    }
  }

  lemma {:induction false} SamplesAfterRemoval(store: Store, owner: string, gone: set<string>, ids: seq<string>)
    requires AllUsable(store - gone, owner, ids)
    ensures SamplesOfIds(store - gone, ids) == SamplesOfIds(store, ids)
  {
    if ids != [] {
      var init, last := ids[..|ids| - 1], ids[|ids| - 1];
      assert ids == init + [last];
      AllUsableSnoc(store - gone, owner, init, last);
      SamplesAfterRemoval(store, owner, gone, init);
    }
  }

  // -------------------------------------------------------------- exact decoding

  /** The samples that a returned value stands for. */
  function RawSamples(store: Store, v: Value): seq<real> {
    if IsScalar(v) then [ScalarOf(v)] else SamplesOfIds(store, IdsIn(v))
  }

  function ItemSamples(units: Units, store: Store, item: Item): Option<seq<real>> {
    if HoldsBuffers(item.ret.value) || IsScalar(item.ret.value)
    then Converted(units, item.ret.unit, item.unit, RawSamples(store, item.ret.value))
    else None
  }

  function ItemIds(items: seq<Item>): seq<string> {
    if items == [] then [] else ItemIds(items[..|items| - 1]) + IdsIn(items[|items| - 1].ret.value)
  }

  /** All samples of the items, one after the other, as far as they can be read. */
  function Denoted(units: Units, store: Store, items: seq<Item>): seq<real> {
    if items == [] then []
    else
      var last := ItemSamples(units, store, items[|items| - 1]);
      Denoted(units, store, items[..|items| - 1]) + if last.Some? then last.value else []
  }

  predicate AllRead(units: Units, store: Store, items: seq<Item>) {
    items == [] ||
    (AllRead(units, store, items[..|items| - 1]) && ItemSamples(units, store, items[|items| - 1]).Some?)
  }

  /** The items can be decoded: their buffers are distinct and readable by the owner, their
      other values are numbers, and every sample converts. */
  predicate Decodable(units: Units, store: Store, owner: string, items: seq<Item>) {
    AllUsable(store, owner, ItemIds(items)) && AllRead(units, store, items)
  }

  lemma IdSetAppend(a: seq<string>, b: seq<string>)
    ensures IdSet(a + b) == IdSet(a) + IdSet(b)
  {
  }

  /** One item, after other buffers are gone. */
  lemma DecodeItemExact(units: Units, store: Store, owner: string, before: seq<string>, item: Item)
    requires AllUsable(store, owner, before)
    ensures
      var ids := IdsIn(item.ret.value);
      var r := DecodeItem(units, store - IdSet(before), owner, item);
      && (r.result.Ok? <==> AllUsable(store, owner, before + ids) && ItemSamples(units, store, item).Some?)
      && (r.result.Ok? ==> && r.result.value == ItemSamples(units, store, item).value
                           && r.store == store - IdSet(before + ids))
  {
    var ids, rest := IdsIn(item.ret.value), store - IdSet(before);
    AllUsableAppend(store, owner, before, ids);
    ConsumeIdsExact(rest, owner, ids);
    if AllUsable(rest, owner, ids) {
      SamplesAfterRemoval(store, owner, IdSet(before), ids);
      IdSetAppend(before, ids);
      RemoveInSteps(store, IdSet(before), IdSet(ids));
    }
    if !HoldsBuffers(item.ret.value) {
      assert IdsIn(item.ret.value) == [] && before + [] == before;
    }
  }

  lemma DecodableSnoc(units: Units, store: Store, owner: string, init: seq<Item>, last: Item)
    ensures ItemIds(init + [last]) == ItemIds(init) + IdsIn(last.ret.value)
    ensures Decodable(units, store, owner, init + [last]) <==>
            && Decodable(units, store, owner, init) && ItemSamples(units, store, last).Some?
            && AllUsable(store, owner, ItemIds(init) + IdsIn(last.ret.value))
  {
    var items := init + [last];
    assert items[..|items| - 1] == init && items[|init|] == last;
    AllUsableAppend(store, owner, ItemIds(init), IdsIn(last.ret.value));
  }

  /** Decoding a list of returns succeeds exactly when they can be decoded from what is
      tracked at the start; the samples are those that the returns stand for, in order, and
      exactly the buffers they mention are consumed. */
  lemma {:induction false} DecodeItemsExact(units: Units, store: Store, owner: string, items: seq<Item>)
    ensures DecodeItems(units, store, owner, items).result.Ok? <==> Decodable(units, store, owner, items)
    ensures Decodable(units, store, owner, items) ==>
              DecodeItems(units, store, owner, items)
              == Outcome(Ok(Denoted(units, store, items)), store - IdSet(ItemIds(items)))
  {
    if items == [] {
      assert store - IdSet([]) == store;
    } else {
      var init, last := items[..|items| - 1], items[|items| - 1];
      assert items == init + [last];
      DecodeItemsExact(units, store, owner, init);
      DecodableSnoc(units, store, owner, init, last);
      if Decodable(units, store, owner, init) {
        DecodeItemExact(units, store, owner, ItemIds(init), last);
      }
    }
  }

  lemma {:induction false} DecodableAppend(units: Units, store: Store, owner: string, a: seq<Item>, b: seq<Item>)
    ensures ItemIds(a + b) == ItemIds(a) + ItemIds(b)
    ensures Decodable(units, store, owner, a + b) <==>
            Decodable(units, store, owner, a) && Decodable(units, store - IdSet(ItemIds(a)), owner, b)
    ensures Decodable(units, store, owner, a + b) ==>
              Denoted(units, store - IdSet(ItemIds(a)), b) == Denoted(units, store, b)
  {
    var gone := store - IdSet(ItemIds(a));
    if b == [] {
      assert a + b == a && ItemIds(a) + [] == ItemIds(a);
    } else {
      var init, last := b[..|b| - 1], b[|b| - 1];
      assert b == init + [last] && a + b == (a + init) + [last];
      DecodableAppend(units, store, owner, a, init);
      DecodableSnoc(units, store, owner, a + init, last);
      DecodableSnoc(units, gone, owner, init, last);
      var ids, lastIds := ItemIds(init), IdsIn(last.ret.value);
      AppendAssociative(ItemIds(a), ids, lastIds);
      AllUsableAppend(store, owner, ItemIds(a), ids + lastIds);
      if AllUsable(gone, owner, ids + lastIds) {
        ItemSamplesAfterRemoval(units, store, owner, IdSet(ItemIds(a)), ids, last);
      }
    }
  }

  lemma ItemSamplesAfterRemoval(units: Units, store: Store, owner: string, gone: set<string>, before: seq<string>,
                                item: Item)
    requires AllUsable(store - gone, owner, before + IdsIn(item.ret.value))
    ensures ItemSamples(units, store - gone, item) == ItemSamples(units, store, item)
  {
    var ids := IdsIn(item.ret.value);
    AllUsableAppend(store - gone, owner, before, ids);
    RemoveInSteps(store, gone, IdSet(before));
    SamplesAfterRemoval(store, owner, gone + IdSet(before), ids);
    SamplesOfSmaller(store - gone, owner, IdSet(before), ids);
  }

  lemma SamplesOfSmaller(store: Store, owner: string, gone: set<string>, ids: seq<string>)
    requires AllUsable(store - gone, owner, ids)
    ensures SamplesOfIds(store - gone, ids) == SamplesOfIds(store, ids)
  {
    SamplesAfterRemoval(store, owner, gone, ids);
  }

  // ------------------------------------------------------- several targets at once

  function JobItems(jobs: seq<Job>): seq<Item> {
    if jobs == [] then [] else JobItems(jobs[..|jobs| - 1]) + jobs[|jobs| - 1].items
  }

  /** The number of samples is the one that the plan expects. */
  predicate Complete(units: Units, store: Store, job: Job) {
    Sized(job.spec.shape) && |Denoted(units, store, job.items)| == Product(job.spec.shape)
  }

  /** The series that a job stands for, read off what is tracked at the start. */
  function SeriesOf(units: Units, store: Store, job: Job): Series {
    Series(job.spec.target, job.spec.unit, Denoted(units, store, job.items), job.spec.shape)
  }

  predicate AllComplete(units: Units, store: Store, jobs: seq<Job>) {
    jobs == [] ||
    (AllComplete(units, store, jobs[..|jobs| - 1]) && Complete(units, store, jobs[|jobs| - 1]))
  }

  function AllSeries(units: Units, store: Store, jobs: seq<Job>): (r: seq<Series>)
    ensures |r| == |jobs|
  {
    if jobs == [] then []
    else AllSeries(units, store, jobs[..|jobs| - 1]) + [SeriesOf(units, store, jobs[|jobs| - 1])]
  }

  // ------------------------------------------------------ what a series holds

  /** A sample as it was reported, with the symbol of its unit and the unit it is wanted in. */
  datatype Reading = Reading(symbol: string, unit: int, x: real)

  /** The samples in a tracked buffer, whole ones as real numbers. */
  function HeldIn(store: Store, id: string): seq<real> {
    if id !in store then []
    else
      match store[id].buffer
      case Floats(xs) => xs
      case Wholes(ns) => seq(|ns|, i requires 0 <= i < |ns| => ns[i] as real)
      case Untyped(_) => []
  }

  function HeldInAll(store: Store, ids: seq<string>): seq<real> {
    if ids == [] then [] else HeldInAll(store, ids[..|ids| - 1]) + HeldIn(store, ids[|ids| - 1])
  }

  /** The samples that a returned value reports: a number reports itself, a buffer what it holds,
      and several buffers what they hold one after the other. */
  function Reported(store: Store, v: Value): seq<real> {
    match v
    case Float64(x) => [x]
    case Whole(kind, n) => if kind == I64 then [n as real] else []
    case DataBuffer(id) => HeldIn(store, id)
    case DataBufferArray(ids) => HeldInAll(store, ids)
    case _ => []
  }

  function ReadingsOf(store: Store, item: Item): (r: seq<Reading>)
    ensures |r| == |Reported(store, item.ret.value)|
  {
    var xs := Reported(store, item.ret.value);
    seq(|xs|, i requires 0 <= i < |xs| => Reading(item.ret.unit, item.unit, xs[i]))
  }

  function Readings(store: Store, items: seq<Item>): seq<Reading> {
    if items == [] then [] else Readings(store, items[..|items| - 1]) + ReadingsOf(store, items[|items| - 1])
  }

  /** Reading by reading, `xs` are the conversions into the wanted units. */
  predicate InWantedUnits(units: Units, readings: seq<Reading>, xs: seq<real>) {
    && |xs| == |readings|
    && forall i | 0 <= i < |xs| :: units.convert(readings[i].symbol, readings[i].unit, readings[i].x) == Some(xs[i])
  }

  lemma HeldSamples(store: Store, owner: string, id: string)
    requires Usable(store, owner, id)
    ensures HeldIn(store, id) == BufferSamples(store, id)
  {
  }

  lemma {:induction false} HeldInOrder(store: Store, owner: string, ids: seq<string>)
    requires AllUsable(store, owner, ids)
    ensures HeldInAll(store, ids) == SamplesOfIds(store, ids)
  {
    if ids != [] {
      HeldInOrder(store, owner, ids[..|ids| - 1]);
      HeldSamples(store, owner, ids[|ids| - 1]);
    }
  }

  lemma ItemReported(units: Units, store: Store, owner: string, item: Item)
    requires AllUsable(store, owner, IdsIn(item.ret.value)) && ItemSamples(units, store, item).Some?
    ensures InWantedUnits(units, ReadingsOf(store, item), ItemSamples(units, store, item).value)
  {
    var v, ys := item.ret.value, ItemSamples(units, store, item).value;
    HeldInOrder(store, owner, IdsIn(v));
    if v.DataBuffer? {
      assert [v.id][..0] == [];
      assert [] + BufferSamples(store, v.id) == BufferSamples(store, v.id);
      HeldSamples(store, owner, v.id);
    }
    assert Reported(store, v) == RawSamples(store, v);
    ConvertedExactly(units, item.ret.unit, item.unit, RawSamples(store, v), ys);
  }

  lemma InWantedUnitsAppend(units: Units, a: seq<Reading>, b: seq<Reading>, xs: seq<real>, ys: seq<real>)
    requires InWantedUnits(units, a, xs) && InWantedUnits(units, b, ys)
    ensures InWantedUnits(units, a + b, xs + ys)
  {
  }

  /** The samples of a series are what its returns report, in call and return order, each of them
      converted from its reported unit into the wanted one. */
  lemma {:induction false} DenotedIsConverted(units: Units, store: Store, owner: string, items: seq<Item>)
    requires Decodable(units, store, owner, items)
    ensures InWantedUnits(units, Readings(store, items), Denoted(units, store, items))
  {
    if items != [] {
      var init, last := items[..|items| - 1], items[|items| - 1];
      assert items == init + [last];
      DecodableSnoc(units, store, owner, init, last);
      AllUsableAppend(store, owner, ItemIds(init), IdsIn(last.ret.value));
      UsableAnyway(store, owner, IdSet(ItemIds(init)), IdsIn(last.ret.value));
      DenotedIsConverted(units, store, owner, init);
      ItemReported(units, store, owner, last);
      InWantedUnitsAppend(units, Readings(store, init), ReadingsOf(store, last), Denoted(units, store, init),
                          ItemSamples(units, store, last).value);
    }
  }

  lemma {:induction false} UsableAnyway(store: Store, owner: string, gone: set<string>, ids: seq<string>)
    requires AllUsable(store - gone, owner, ids)
    ensures AllUsable(store, owner, ids)
  {
    if ids != [] {
      UsableAnyway(store, owner, gone, ids[..|ids| - 1]);
    }
  }

  /** Which returns a series is read from: those of the calls on its target that have a unit
      convertible to the wanted one, and are buffers if only buffers are wanted. */
  ghost predicate ReadFrom(units: Units, call: Call, ret: Return, spec: TargetSpec) {
    && call.instrument == spec.target.instrument && call.group == spec.target.group
    && call.channel == spec.target.channel && ret in call.values
    && ret.unit != "" && units.convertible(ret.unit, spec.unit)
    && (spec.buffersOnly ==> ret.value.DataBuffer? || ret.value.DataBufferArray?)
  }

  lemma {:induction false} WantedItemsAre(units: Units, rs: seq<Return>, spec: TargetSpec, item: Item)
    ensures item in WantedItems(units, rs, spec) <==>
            item.ret in rs && item.unit == spec.unit && Wanted(units, item.ret, spec)
  {
    if rs != [] {
      var init, last := rs[..|rs| - 1], rs[|rs| - 1];
      assert rs == init + [last];
      WantedItemsAre(units, init, spec, item);
    }
  }

  lemma {:induction false} ItemsAre(units: Units, calls: seq<Call>, spec: TargetSpec, item: Item)
    ensures item in Items(units, calls, spec) <==>
            item.unit == spec.unit && exists call | call in calls :: ReadFrom(units, call, item.ret, spec)
  {
    if calls != [] {
      var init, last := calls[..|calls| - 1], calls[|calls| - 1];
      assert calls == init + [last];
      ItemsAre(units, init, spec, item);
      WantedItemsAre(units, last.values, spec, item);
      assert item in (if OnTarget(last, spec.target) then WantedItems(units, last.values, spec) else []) <==>
             item.unit == spec.unit && ReadFrom(units, last, item.ret, spec);
    }
  }

  /** One job, after other items are gone. */
  lemma DecodeJobExact(units: Units, store: Store, owner: string, before: seq<Item>, job: Job)
    requires Decodable(units, store, owner, before)
    ensures
      var r := DecodeJob(units, store - IdSet(ItemIds(before)), owner, job);
      && (r.result.Ok? <==> Decodable(units, store, owner, before + job.items) && Complete(units, store, job))
      && (r.result.Ok? ==> r == Outcome(Ok(SeriesOf(units, store, job)), store - IdSet(ItemIds(before + job.items))))
  {
    var rest := store - IdSet(ItemIds(before));
    DecodableAppend(units, store, owner, before, job.items);
    DecodeItemsExact(units, rest, owner, job.items);
    IdSetAppend(ItemIds(before), ItemIds(job.items));
    RemoveInSteps(store, IdSet(ItemIds(before)), IdSet(ItemIds(job.items)));
  }

  lemma DecodeJobsSnoc(units: Units, store: Store, owner: string, init: seq<Job>, job: Job)
    ensures
      var prev := DecodeJobs(units, store, owner, init);
      DecodeJobs(units, store, owner, init + [job])
      == if prev.result.Err? then prev else Appended(prev.result.value, DecodeJob(units, prev.store, owner, job))
  {
    assert (init + [job])[..|init|] == init;
  }

  lemma JobsSnoc(units: Units, store: Store, init: seq<Job>, job: Job)
    ensures JobItems(init + [job]) == JobItems(init) + job.items
    ensures AllComplete(units, store, init + [job]) <==> AllComplete(units, store, init) && Complete(units, store, job)
    ensures AllSeries(units, store, init + [job]) == AllSeries(units, store, init) + [SeriesOf(units, store, job)]
  {
    assert (init + [job])[..|init|] == init;
  }

  /** What decoding amounts to. It succeeds exactly when the returns of all targets together
      can be decoded and each target has as many samples as its shape. Then each series is the
      samples of its own returns, in call and return order, and each buffer that some matching
      return mentions is consumed exactly once, with every other buffer left tracked. */
  lemma {:induction false} DecodingExact(units: Units, store: Store, owner: string, jobs: seq<Job>)
    ensures
      var r := DecodeJobs(units, store, owner, jobs);
      && (r.result.Ok? <==> Decodable(units, store, owner, JobItems(jobs)) && AllComplete(units, store, jobs))
      && (r.result.Ok? ==> r == Outcome(Ok(AllSeries(units, store, jobs)), store - IdSet(ItemIds(JobItems(jobs)))))
  {
    if jobs == [] {
      assert store - IdSet([]) == store;
    } else {
      var init, last := jobs[..|jobs| - 1], jobs[|jobs| - 1];
      assert jobs == init + [last];
      DecodingExact(units, store, owner, init);
      DecodeJobsSnoc(units, store, owner, init, last);
      JobsSnoc(units, store, init, last);
      DecodableAppend(units, store, owner, JobItems(init), last.items);
      if Decodable(units, store, owner, JobItems(init)) {
        DecodeJobExact(units, store, owner, JobItems(init), last);
      }
    }
  }

  /** The jobs of a list of specifications, one by one. */
  lemma {:induction false} JobAt(units: Units, store: Store, calls: seq<Call>, specs: seq<TargetSpec>, i: nat)
    requires i < |specs|
    ensures |Jobs(units, calls, specs)| == |specs|
    ensures Jobs(units, calls, specs)[i] == Job(Items(units, calls, specs[i]), specs[i])
    ensures AllComplete(units, store, Jobs(units, calls, specs)) ==>
              Complete(units, store, Jobs(units, calls, specs)[i])
    ensures AllSeries(units, store, Jobs(units, calls, specs))[i]
         == SeriesOf(units, store, Jobs(units, calls, specs)[i])
  {
    var init, last := specs[..|specs| - 1], specs[|specs| - 1];
    JobsSnoc(units, store, Jobs(units, calls, init), Job(Items(units, calls, last), last));
    if i < |specs| - 1 {
      JobAt(units, store, calls, init, i);
    } else if init != [] {
      JobAt(units, store, calls, init, 0);
    }
  }

  lemma ReadSnoc(units: Units, store: Store, init: seq<Item>, item: Item)
    ensures ItemIds(init + [item]) == ItemIds(init) + IdsIn(item.ret.value)
    ensures AllRead(units, store, init + [item]) <==>
            AllRead(units, store, init) && ItemSamples(units, store, item).Some?
  {
    assert (init + [item])[..|init|] == init;
  }

  lemma {:induction false} AllReadAppend(units: Units, store: Store, a: seq<Item>, b: seq<Item>)
    ensures AllRead(units, store, a + b) <==> AllRead(units, store, a) && AllRead(units, store, b)
  {
    if b == [] {
      assert a + b == a;
    } else {
      var init, last := b[..|b| - 1], b[|b| - 1];
      assert b == init + [last] && a + b == (a + init) + [last];
      AllReadAppend(units, store, a, init);
      ReadSnoc(units, store, a + init, last);
      ReadSnoc(units, store, init, last);
    }
  }

  /** What can be decoded together can be decoded apart. */
  lemma DecodableApart(units: Units, store: Store, owner: string, a: seq<Item>, b: seq<Item>)
    requires Decodable(units, store, owner, a + b)
    ensures Decodable(units, store, owner, a) && Decodable(units, store, owner, b)
  {
    DecodableAppend(units, store, owner, a, b);
    AllReadAppend(units, store, a, b);
    UsableAnyway(store, owner, IdSet(ItemIds(a)), ItemIds(b));
  }

  lemma {:induction false} JobDecodable(units: Units, store: Store, owner: string, jobs: seq<Job>, k: nat)
    requires k < |jobs| && Decodable(units, store, owner, JobItems(jobs))
    ensures Decodable(units, store, owner, jobs[k].items)
  {
    var init, last := jobs[..|jobs| - 1], jobs[|jobs| - 1];
    var before := JobItems(init);
    assert JobItems(jobs) == before + last.items;
    DecodableApart(units, store, owner, before, last.items);
    if k < |jobs| - 1 {
      JobDecodable(units, store, owner, init, k);
    }
  }

  lemma {:induction false} ReadMeans(units: Units, store: Store, items: seq<Item>, i: nat)
    requires AllRead(units, store, items) && i < |items|
    ensures ItemSamples(units, store, items[i]).Some?
  {
    if i < |items| - 1 {
      ReadMeans(units, store, items[..|items| - 1], i);
    }
  }

  /** What decoding returns for each target: as many samples as its shape says, and these are what
      the returns of its own calls report, all of them numbers or buffers, converted into its
      unit. */
  lemma SeriesHold(units: Units, store: Store, result: MeasurementResult, specs: seq<TargetSpec>, k: nat)
    requires DecodeTargetsSpec(units, store, result, specs).result.Ok? && k < |specs|
    ensures
      var series, spec := DecodeTargetsSpec(units, store, result, specs).result.value, specs[k];
      && |series| == |specs| && result.calls.Ok?
      && series[k].target == spec.target && series[k].unit == spec.unit && series[k].shape == spec.shape
      && Sized(spec.shape) && |series[k].data| == Product(spec.shape)
      && InWantedUnits(units, Readings(store, Items(units, result.calls.value, spec)), series[k].data)
      && forall item | item in Items(units, result.calls.value, spec) ::
           || item.ret.value.Float64? || (item.ret.value.Whole? && item.ret.value.kind == I64)
           || item.ret.value.DataBuffer? || item.ret.value.DataBufferArray?
  {
    var jobs := Jobs(units, result.calls.value, specs);
    DecodingExact(units, store, result.id, jobs);
    JobAt(units, store, result.calls.value, specs, k);
    JobDecodable(units, store, result.id, jobs, k);
    DenotedIsConverted(units, store, result.id, jobs[k].items);
    forall item | item in jobs[k].items
      ensures ItemSamples(units, store, item).Some?
    {
      var i :| 0 <= i < |jobs[k].items| && jobs[k].items[i] == item;
      ReadMeans(units, store, jobs[k].items, i);
    }
  }

  // ------------------------------------------------------------ non-interference

  function CallsOn(calls: seq<Call>, t: Target): seq<Call> {
    if calls == [] then []
    else
      var last := calls[|calls| - 1];
      CallsOn(calls[..|calls| - 1], t) + if OnTarget(last, t) then [last] else []
  }

  lemma {:induction false} ItemsOfOwnCalls(units: Units, calls: seq<Call>, spec: TargetSpec)
    ensures Items(units, calls, spec) == Items(units, CallsOn(calls, spec.target), spec)
  {
    if calls != [] {
      var init, last := calls[..|calls| - 1], calls[|calls| - 1];
      ItemsOfOwnCalls(units, init, spec);
      if OnTarget(last, spec.target) {
        assert (CallsOn(init, spec.target) + [last])[..|CallsOn(init, spec.target)|] == CallsOn(init, spec.target);
      } else {
        assert Items(units, calls, spec) == Items(units, init, spec);
        assert CallsOn(calls, spec.target) == CallsOn(init, spec.target);
      }
    }
  }

  /** Decoding looks at each target's own calls only: the same calls on every target, however
      they are mixed with others, make the same jobs, whose decoding is the same. */
  lemma {:induction false} OtherCallsDoNotMatter(units: Units, calls: seq<Call>, others: seq<Call>,
                                                 specs: seq<TargetSpec>)
    requires forall i | 0 <= i < |specs| :: CallsOn(calls, specs[i].target) == CallsOn(others, specs[i].target)
    ensures Jobs(units, calls, specs) == Jobs(units, others, specs)
  {
    if specs != [] {
      OtherCallsDoNotMatter(units, calls, others, specs[..|specs| - 1]);
      ItemsOfOwnCalls(units, calls, specs[|specs| - 1]);
      ItemsOfOwnCalls(units, others, specs[|specs| - 1]);
    }
  }

  lemma {:induction false} CallsOnAppend(a: seq<Call>, b: seq<Call>, t: Target)
    ensures CallsOn(a + b, t) == CallsOn(a, t) + CallsOn(b, t)
  {
    if b == [] {
      assert a + b == a;
    } else {
      assert (a + b)[..|a + b| - 1] == a + b[..|b| - 1];
      CallsOnAppend(a, b[..|b| - 1], t);
    }
  }

  /** Inserting calls of other targets, anywhere, leaves the calls of a target alone. */
  lemma InsertedCalls(a: seq<Call>, other: seq<Call>, b: seq<Call>, t: Target)
    requires CallsOn(other, t) == []
    ensures CallsOn(a + other + b, t) == CallsOn(a + b, t)
  {
    CallsOnAppend(a + other, b, t);
    CallsOnAppend(a, other, t);
    CallsOnAppend(a, b, t);
  }

  /** So does exchanging two neighbouring calls that are not both on it. */
  lemma ExchangedCalls(a: seq<Call>, x: Call, y: Call, b: seq<Call>, t: Target)
    requires !(OnTarget(x, t) && OnTarget(y, t))
    ensures CallsOn(a + [x, y] + b, t) == CallsOn(a + [y, x] + b, t)
  {
    CallsOnAppend(a + [x, y], b, t);
    CallsOnAppend(a, [x, y], t);
    CallsOnAppend(a + [y, x], b, t);
    CallsOnAppend(a, [y, x], t);
    assert [x, y] == [x] + [y] && [y, x] == [y] + [x];
    CallsOnAppend([x], [y], t);
    CallsOnAppend([y], [x], t);
    assert CallsOn([x], t) == [] || CallsOn([y], t) == [] by {
      assert [x][..0] == [] && [y][..0] == [];
    }
  }

  // ------------------------------------------------------------ whose buffers go

  /** Nothing but buffers of `owner` has gone, and nothing has come. */
  ghost predicate OnlyTakenFrom(owner: string, before: Store, after: Store) {
    after.Items <= before.Items && Without(after, owner) == Without(before, owner)
  }

  lemma ConsumingTakesOwn(store: Store, owner: string, id: string)
    ensures OnlyTakenFrom(owner, store, AfterConsuming(store, owner, id))
  {
    var after := AfterConsuming(store, owner, id);
    assert after.Items <= store.Items;
    forall x | x in Without(store, owner)
      ensures x in Without(after, owner) && Without(after, owner)[x] == Without(store, owner)[x]
    {
    }
    assert Without(after, owner).Keys == Without(store, owner).Keys;
  }

  lemma {:induction false} IdsTakeOwn(store: Store, owner: string, ids: seq<string>)
    ensures OnlyTakenFrom(owner, store, ConsumeIds(store, owner, ids).store)
  {
    if ids != [] {
      var prev := ConsumeIds(store, owner, ids[..|ids| - 1]);
      IdsTakeOwn(store, owner, ids[..|ids| - 1]);
      ConsumingTakesOwn(prev.store, owner, ids[|ids| - 1]);
    }
  }

  lemma {:induction false} ItemsTakeOwn(units: Units, store: Store, owner: string, items: seq<Item>)
    ensures OnlyTakenFrom(owner, store, DecodeItems(units, store, owner, items).store)
  {
    if items != [] {
      var prev := DecodeItems(units, store, owner, items[..|items| - 1]);
      ItemsTakeOwn(units, store, owner, items[..|items| - 1]);
      IdsTakeOwn(prev.store, owner, IdsIn(items[|items| - 1].ret.value));
    }
  }

  lemma JobTakesOwn(units: Units, store: Store, owner: string, job: Job)
    ensures OnlyTakenFrom(owner, store, DecodeJob(units, store, owner, job).store)
  {
    ItemsTakeOwn(units, store, owner, job.items);
  }

  /** However decoding ends, only the measurement's own buffers have been taken. */
  lemma {:induction false} DecodingTakesOwn(units: Units, store: Store, owner: string, jobs: seq<Job>)
    ensures OnlyTakenFrom(owner, store, DecodeJobs(units, store, owner, jobs).store)
  {
    if jobs != [] {
      var init, last := jobs[..|jobs| - 1], jobs[|jobs| - 1];
      assert jobs == init + [last];
      DecodingTakesOwn(units, store, owner, init);
      DecodeJobsSnoc(units, store, owner, init, last);
      var prev := DecodeJobs(units, store, owner, init);
      JobTakesOwn(units, prev.store, owner, last);
    }
  }

  // --------------------------------------------------------------------- the loops

  method ConsumeBuffer(manager: DataBufferManager, owner: string, id: string)
    returns (r: Result<seq<real>, DecodeError>)
    requires manager.Valid()
    modifies manager`buffers, manager.services`refs
    ensures manager.Valid()
    ensures Outcome(r, manager.buffers) == ConsumeBufferSpec(old(manager.buffers), owner, id)
  {
    if id == "" {
      return Err(EmptyId);
    }
    var samples := manager.ConsumeSamples(owner, id);
    r := if samples.Err? then Err(BufferFailed(samples.error)) else Ok(samples.value);
  }

  lemma {:induction false} ConsumeErrorStays(store: Store, owner: string, ids: seq<string>, k: nat)
    requires k <= |ids| && ConsumeIds(store, owner, ids[..k]).result.Err?
    ensures ConsumeIds(store, owner, ids) == ConsumeIds(store, owner, ids[..k])
  {
    if k < |ids| {
      assert ids[..|ids| - 1][..k] == ids[..k];
      ConsumeErrorStays(store, owner, ids[..|ids| - 1], k);
    } else {
      assert ids[..k] == ids;
    }
  }

  lemma ConsumeNext(store: Store, owner: string, ids: seq<string>, i: nat)
    requires i < |ids| && ConsumeIds(store, owner, ids[..i]).result.Ok?
    ensures
      var prev := ConsumeIds(store, owner, ids[..i]);
      var next := ConsumeBufferSpec(prev.store, owner, ids[i]);
      ConsumeIds(store, owner, ids[..i + 1])
      == if next.result.Err? then next else Outcome(Ok(prev.result.value + next.result.value), next.store)
  {
    assert ids[..i + 1][..i] == ids[..i];
  }

  /** The buffers of one return, one after the other. */
  method ConsumeAll(manager: DataBufferManager, owner: string, ids: seq<string>)
    returns (r: Result<seq<real>, DecodeError>)
    requires manager.Valid()
    modifies manager`buffers, manager.services`refs
    ensures manager.Valid()
    ensures Outcome(r, manager.buffers) == ConsumeIds(old(manager.buffers), owner, ids)
  {
    ghost var before := manager.buffers;
    var values: seq<real> := [];
    for i := 0 to |ids|
      invariant manager.Valid()
      invariant ConsumeIds(before, owner, ids[..i]) == Outcome(Ok(values), manager.buffers)
    {
      ConsumeNext(before, owner, ids, i);
      var chunk := ConsumeBuffer(manager, owner, ids[i]);
      if chunk.Err? {
        ConsumeErrorStays(before, owner, ids, i + 1);
        return Err(chunk.error);
      }
      values := values + chunk.value;
    }
    assert ids[..|ids|] == ids;
    r := Ok(values);
  }

  method ReturnSamples(manager: DataBufferManager, owner: string, v: Value) returns (r: Result<seq<real>, DecodeError>)
    requires manager.Valid()
    modifies manager`buffers, manager.services`refs
    ensures manager.Valid()
    ensures Outcome(r, manager.buffers) == ReturnSamplesSpec(old(manager.buffers), owner, v)
  {
    if IsScalar(v) {
      return Ok([ScalarOf(v)]);
    }
    if !HoldsBuffers(v) {
      return Err(UnsupportedValue);
    }
    r := ConsumeAll(manager, owner, IdsIn(v));
  }

  lemma {:induction false} ConvertedStops(units: Units, symbol: string, unit: int, xs: seq<real>, k: nat)
    requires k <= |xs| && Converted(units, symbol, unit, xs[..k]).None?
    ensures Converted(units, symbol, unit, xs).None?
  {
    if k < |xs| {
      assert xs[..|xs| - 1][..k] == xs[..k];
      ConvertedStops(units, symbol, unit, xs[..|xs| - 1], k);
    } else {
      assert xs[..k] == xs;
    }
  }

  /** Converting samples in place; nothing is touched between units that do not convert. */
  method ConvertSamples(units: Units, values: array<real>, symbol: string, unit: int) returns (ok: bool)
    modifies values
    ensures ok <==> units.convertible(symbol, unit) && Converted(units, symbol, unit, old(values[..])).Some?
    ensures ok ==> values[..] == Converted(units, symbol, unit, old(values[..])).value
    ensures ok <==> && units.convertible(symbol, unit)
                    && forall i | 0 <= i < values.Length :: units.convert(symbol, unit, old(values[i])).Some?
    ensures ok ==> forall i | 0 <= i < values.Length :: units.convert(symbol, unit, old(values[i])) == Some(values[i])
    ensures !units.convertible(symbol, unit) ==> values[..] == old(values[..])
  {
    if !units.convertible(symbol, unit) {
      return false;
    }
    ghost var before := values[..];
    ConvertedFails(units, symbol, unit, before);
    for i := 0 to values.Length
      invariant Converted(units, symbol, unit, before[..i]) == Some(values[..i])
      invariant values[i..] == before[i..]
    {
      assert values[i] == before[i] && before[..i + 1][..i] == before[..i];
      var converted := units.convert(symbol, unit, values[i]);
      if converted.None? {
        ConvertedStops(units, symbol, unit, before, i + 1);
        return false;
      }
      values[i] := converted.value;
      assert values[..i + 1] == values[..i] + [converted.value];
    }
    assert before[..values.Length] == before && values[..values.Length] == values[..];
    ConvertedExactly(units, symbol, unit, before, values[..]);
    ok := true;
  }

  lemma {:induction false} DecodeErrorStays(units: Units, store: Store, owner: string, a: seq<Item>, b: seq<Item>)
    requires DecodeItems(units, store, owner, a).result.Err?
    ensures DecodeItems(units, store, owner, a + b) == DecodeItems(units, store, owner, a)
  {
    if b == [] {
      assert a + b == a;
    } else {
      assert (a + b)[..|a + b| - 1] == a + b[..|b| - 1];
      DecodeErrorStays(units, store, owner, a, b[..|b| - 1]);
    }
  }

  lemma DecodeItemsSnoc(units: Units, store: Store, owner: string, init: seq<Item>, last: Item)
    requires DecodeItems(units, store, owner, init).result.Ok?
    ensures
      var prev := DecodeItems(units, store, owner, init);
      var next := DecodeItem(units, prev.store, owner, last);
      DecodeItems(units, store, owner, init + [last])
      == if next.result.Err? then next else Outcome(Ok(prev.result.value + next.result.value), next.store)
  {
    assert (init + [last])[..|init|] == init;
  }

  lemma {:induction false} WantedPrefix(units: Units, rs: seq<Return>, spec: TargetSpec, k: nat)
    returns (rest: seq<Item>)
    requires k <= |rs|
    ensures WantedItems(units, rs, spec) == WantedItems(units, rs[..k], spec) + rest
  {
    if k == |rs| {
      assert rs[..k] == rs;
      rest := [];
    } else {
      assert rs[..|rs| - 1][..k] == rs[..k];
      var init := WantedPrefix(units, rs[..|rs| - 1], spec, k);
      var last := rs[|rs| - 1];
      rest := init + if Wanted(units, last, spec) then [Item(last, spec.unit)] else [];
    }
  }

  lemma {:induction false} ItemsPrefix(units: Units, calls: seq<Call>, spec: TargetSpec, k: nat)
    returns (rest: seq<Item>)
    requires k <= |calls|
    ensures Items(units, calls, spec) == Items(units, calls[..k], spec) + rest
  {
    if k == |calls| {
      assert calls[..k] == calls;
      rest := [];
    } else {
      assert calls[..|calls| - 1][..k] == calls[..k];
      var init := ItemsPrefix(units, calls[..|calls| - 1], spec, k);
      var last := calls[|calls| - 1];
      rest := init + if OnTarget(last, spec.target) then WantedItems(units, last.values, spec) else [];
    }
  }

  /** One matching return: its samples, converted. */
  method ReadItem(units: Units, manager: DataBufferManager, owner: string, item: Item)
    returns (r: Result<seq<real>, DecodeError>)
    requires manager.Valid() && units.convertible(item.ret.unit, item.unit)
    modifies manager`buffers, manager.services`refs
    ensures manager.Valid()
    ensures Outcome(r, manager.buffers) == DecodeItem(units, old(manager.buffers), owner, item)
  {
    var samples := ReturnSamples(manager, owner, item.ret.value);
    if samples.Err? {
      return samples;
    }
    var xs := samples.value;
    var chunk := new real[|xs|](i requires 0 <= i < |xs| => xs[i]);
    assert chunk[..] == xs;
    var ok := ConvertSamples(units, chunk, item.ret.unit, item.unit);
    r := if ok then Ok(chunk[..]) else Err(NotConvertible);
  }

  lemma WantedNext(units: Units, rs: seq<Return>, spec: TargetSpec, j: nat, items: seq<Item>)
    requires j < |rs|
    ensures items + WantedItems(units, rs[..j + 1], spec)
         == (items + WantedItems(units, rs[..j], spec))
            + if Wanted(units, rs[j], spec) then [Item(rs[j], spec.unit)] else []
  {
    assert rs[..j + 1][..j] == rs[..j];
    var sofar := items + WantedItems(units, rs[..j], spec);
    assert sofar + [] == sofar;
  }

  lemma CallErrorStays(units: Units, store: Store, owner: string, rs: seq<Return>, spec: TargetSpec, j: nat,
                       items: seq<Item>)
    requires j <= |rs|
    requires DecodeItems(units, store, owner, items + WantedItems(units, rs[..j], spec)).result.Err?
    ensures DecodeItems(units, store, owner, items + WantedItems(units, rs, spec))
         == DecodeItems(units, store, owner, items + WantedItems(units, rs[..j], spec))
  {
    var rest := WantedPrefix(units, rs, spec, j);
    AppendAssociative(items, WantedItems(units, rs[..j], spec), rest);
    DecodeErrorStays(units, store, owner, items + WantedItems(units, rs[..j], spec), rest);
  }

  /** One return of a matching call, after `items` have been read from `store`. */
  method ReadReturn(units: Units, manager: DataBufferManager, owner: string, ret: Return, spec: TargetSpec,
                    values: seq<real>, ghost store: Store, ghost items: seq<Item>)
    returns (r: Result<seq<real>, DecodeError>)
    requires manager.Valid()
    requires DecodeItems(units, store, owner, items) == Outcome(Ok(values), manager.buffers)
    modifies manager`buffers, manager.services`refs
    ensures manager.Valid()
    ensures Outcome(r, manager.buffers)
         == DecodeItems(units, store, owner, items + if Wanted(units, ret, spec) then [Item(ret, spec.unit)] else [])
  {
    if !Wanted(units, ret, spec) {
      assert items + [] == items;
      return Ok(values);
    }
    var item := Item(ret, spec.unit);
    DecodeItemsSnoc(units, store, owner, items, item);
    var chunk := ReadItem(units, manager, owner, item);
    r := if chunk.Err? then chunk else Ok(values + chunk.value);
  }

  /** The returns of one matching call, after `items` have been read from `store`. */
  method ReadCall(units: Units, manager: DataBufferManager, owner: string, rs: seq<Return>, spec: TargetSpec,
                  values: seq<real>, ghost store: Store, ghost items: seq<Item>)
    returns (r: Result<seq<real>, DecodeError>)
    requires manager.Valid()
    requires DecodeItems(units, store, owner, items) == Outcome(Ok(values), manager.buffers)
    modifies manager`buffers, manager.services`refs
    ensures manager.Valid()
    ensures Outcome(r, manager.buffers) == DecodeItems(units, store, owner, items + WantedItems(units, rs, spec))
  {
    r := Ok(values);
    assert items + [] == items;
    for j := 0 to |rs|
      invariant manager.Valid() && r.Ok?
      invariant DecodeItems(units, store, owner, items + WantedItems(units, rs[..j], spec))
             == Outcome(r, manager.buffers)
    {
      WantedNext(units, rs, spec, j, items);
      r := ReadReturn(units, manager, owner, rs[j], spec, r.value, store, items + WantedItems(units, rs[..j], spec));
      if r.Err? {
        CallErrorStays(units, store, owner, rs, spec, j + 1, items);
        return;
      }
    }
    assert rs[..|rs|] == rs;
  }

  method ReadTarget(units: Units, manager: DataBufferManager, owner: string, calls: seq<Call>, spec: TargetSpec)
    returns (r: Result<Series, DecodeError>)
    requires manager.Valid()
    modifies manager`buffers, manager.services`refs
    ensures manager.Valid()
    ensures Outcome(r, manager.buffers)
         == DecodeJob(units, old(manager.buffers), owner, Job(Items(units, calls, spec), spec))
  {
    ghost var store := manager.buffers;
    var expected := ShapeSize(spec.shape);
    if expected.Err? {
      return Err(BadShape);
    }
    var values: seq<real> := [];
    for i := 0 to |calls|
      invariant manager.Valid()
      invariant DecodeItems(units, store, owner, Items(units, calls[..i], spec)) == Outcome(Ok(values), manager.buffers)
    {
      ghost var sofar := Items(units, calls[..i], spec);
      assert calls[..i + 1][..i] == calls[..i];
      if OnTarget(calls[i], spec.target) {
        var more := ReadCall(units, manager, owner, calls[i].values, spec, values, store, sofar);
        if more.Err? {
          ghost var rest := ItemsPrefix(units, calls, spec, i + 1);
          DecodeErrorStays(units, store, owner, Items(units, calls[..i + 1], spec), rest);
          return Err(more.error);
        }
        values := more.value;
      } else {
        assert Items(units, calls[..i + 1], spec) == sofar;
      }
    }
    assert calls[..|calls|] == calls;
    if |values| != expected.value as int {
      return Err(WrongCount);
    }
    r := Ok(Series(spec.target, spec.unit, values, spec.shape));
  }

  lemma {:induction false} JobErrorStays(units: Units, store: Store, owner: string, a: seq<Job>, b: seq<Job>)
    requires DecodeJobs(units, store, owner, a).result.Err?
    ensures DecodeJobs(units, store, owner, a + b) == DecodeJobs(units, store, owner, a)
  {
    if b == [] {
      assert a + b == a;
    } else {
      assert a + b == (a + b[..|b| - 1]) + [b[|b| - 1]];
      JobErrorStays(units, store, owner, a, b[..|b| - 1]);
      DecodeJobsSnoc(units, store, owner, a + b[..|b| - 1], b[|b| - 1]);
    }
  }

  lemma {:induction false} JobsPrefix(units: Units, calls: seq<Call>, specs: seq<TargetSpec>, k: nat)
    returns (rest: seq<Job>)
    requires k <= |specs|
    ensures Jobs(units, calls, specs) == Jobs(units, calls, specs[..k]) + rest
  {
    if k == |specs| {
      assert specs[..k] == specs;
      rest := [];
    } else {
      assert specs[..|specs| - 1][..k] == specs[..k];
      var init := JobsPrefix(units, calls, specs[..|specs| - 1], k);
      rest := init + [Job(Items(units, calls, specs[|specs| - 1]), specs[|specs| - 1])];
    }
  }

  /** The outcome of a measurement: its id, and the calls or the error. */
  datatype MeasurementResult = MeasurementResult(id: string, calls: Result<seq<Call>, DecodeError>)

  function DecodeTargetsSpec(units: Units, store: Store, result: MeasurementResult, specs: seq<TargetSpec>)
    : Outcome<seq<Series>>
  {
    match result.calls
    case Err(e) => Outcome(Err(e), store)
    case Ok(calls) =>
      if specs == [] then Outcome(Err(NoSpecs), store)
      else DecodeJobs(units, store, result.id, Jobs(units, calls, specs))
  }

  lemma NextJob(units: Units, calls: seq<Call>, specs: seq<TargetSpec>, k: nat)
    requires k < |specs|
    ensures Jobs(units, calls, specs[..k + 1])
         == Jobs(units, calls, specs[..k]) + [Job(Items(units, calls, specs[k]), specs[k])]
  {
    assert specs[..k + 1][..k] == specs[..k];
  }

  method ReadNext(units: Units, manager: DataBufferManager, owner: string, calls: seq<Call>, spec: TargetSpec,
                  out: seq<Series>, ghost store: Store, ghost jobs: seq<Job>)
    returns (r: Result<seq<Series>, DecodeError>)
    requires manager.Valid()
    requires DecodeJobs(units, store, owner, jobs) == Outcome(Ok(out), manager.buffers)
    modifies manager`buffers, manager.services`refs
    ensures manager.Valid()
    ensures Outcome(r, manager.buffers)
         == DecodeJobs(units, store, owner, jobs + [Job(Items(units, calls, spec), spec)])
  {
    DecodeJobsSnoc(units, store, owner, jobs, Job(Items(units, calls, spec), spec));
    var series := ReadTarget(units, manager, owner, calls, spec);
    r := if series.Err? then Err(series.error) else Ok(out + [series.value]);
  }

  method DecodeAll(units: Units, manager: DataBufferManager, owner: string, calls: seq<Call>, specs: seq<TargetSpec>)
    returns (r: Result<seq<Series>, DecodeError>)
    requires manager.Valid()
    modifies manager`buffers, manager.services`refs
    ensures manager.Valid()
    ensures Outcome(r, manager.buffers) == DecodeJobs(units, old(manager.buffers), owner, Jobs(units, calls, specs))
  {
    ghost var store := manager.buffers;
    r := Ok([]);
    for k := 0 to |specs|
      invariant manager.Valid() && r.Ok?
      invariant DecodeJobs(units, store, owner, Jobs(units, calls, specs[..k])) == Outcome(r, manager.buffers)
    {
      NextJob(units, calls, specs, k);
      r := ReadNext(units, manager, owner, calls, specs[k], r.value, store, Jobs(units, calls, specs[..k]));
      if r.Err? {
        ghost var rest := JobsPrefix(units, calls, specs, k + 1);
        JobErrorStays(units, store, owner, Jobs(units, calls, specs[..k + 1]), rest);
        return;
      }
    }
    assert specs[..|specs|] == specs;
  }

  method DecodeTargets(units: Units, manager: DataBufferManager, result: MeasurementResult, specs: seq<TargetSpec>)
    returns (r: Result<seq<Series>, DecodeError>)
    requires manager.Valid()
    modifies manager`buffers, manager.services`refs
    ensures manager.Valid()
    ensures Outcome(r, manager.buffers) == DecodeTargetsSpec(units, old(manager.buffers), result, specs)
    ensures result.calls.Err? ==> r == Err(result.calls.error) && manager.buffers == old(manager.buffers)
    ensures result.calls.Ok? && specs == [] ==> r == Err(NoSpecs) && manager.buffers == old(manager.buffers)
  {
    if result.calls.Err? {
      return Err(result.calls.error);
    }
    if |specs| == 0 {
      return Err(NoSpecs);
    }
    r := DecodeAll(units, manager, result.id, result.calls.value, specs);
  }
}
