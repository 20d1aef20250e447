/**
 Machine arithmetic over shapes: the checked product that sizes a decoded series, and the
 unchecked one against which the final ranges are compared.
 */
module Shapes {
  import opened Wrappers
  import opened Division
  import opened Ports
  import opened RowMajor
  import opened Planner
  import opened PlanExecution

  /** Go's int. */
  newtype Int = x: int | -0x8000_0000_0000_0000 <= x <= 0x7FFF_FFFF_FFFF_FFFF

  datatype ShapeError = EmptyShape | NonPositive | TooLarge

  predicate Positive(shape: seq<int>) {
    forall a | 0 <= a < |shape| :: shape[a] > 0
  }

  /** A shape whose product fits in an int. */
  predicate Sized(shape: seq<int>) {
    shape != [] && Positive(shape) && Product(shape) <= MAX_INT
  }

  lemma {:induction false} ProductAppend(a: seq<nat>, b: seq<nat>)
    ensures Product(a + b) == Product(a) * Product(b)
  {
    if a == [] {
      assert a + b == b;
    } else {
      ProductAppend(a[1..], b);
      assert (a + b)[1..] == a[1..] + b;
      Regroup(a[0], Product(a[1..]), Product(b));
    }
  }

  lemma Regroup(x: nat, y: nat, z: nat)
    ensures x * (y * z) == (x * y) * z
  {
  }

  /** No prefix of a positive shape has a larger product than the whole. */
  lemma PrefixProduct(shape: seq<nat>, i: nat)
    requires i <= |shape| && Positive(shape)
    ensures Product(shape[..i]) <= Product(shape)
  {
    assert shape[..i] + shape[i..] == shape;
    ProductAppend(shape[..i], shape[i..]);
    ProductPositive(shape[i..]);
    ProductGrows(Product(shape[..i]), 1, Product(shape[i..]));
  }

  lemma QuotientBounds(size: int, length: int)
    requires size >= 1 && length >= 1
    ensures size <= MAX_INT / length <==> size * length <= MAX_INT
    ensures size <= MAX_INT / length ==> length <= MAX_INT
  {
    var q := MAX_INT / length;
    assert MAX_INT == length * q + MAX_INT % length;
    assert size * length == length * size;
    if size <= q {
      ProductGrows(length, size, q);
      ProductGrows(length, 1, size);
    } else {
      ProductGrows(length, q + 1, size);
      assert length * (q + 1) == length * q + length;
    }
  }

  /** The size of a shape. It is exact: an Int holds every intermediate product. */
  method ShapeSize(shape: seq<int>) returns (r: Result<Int, ShapeError>)
    ensures r.Ok? <==> Sized(shape)
    ensures r.Ok? <==> shape != [] && (forall a | 0 <= a < |shape| :: shape[a] > 0) && Product(shape) <= MAX_INT
    ensures r.Ok? ==> r.value as int == Product(shape)
    ensures r == Err(EmptyShape) <==> shape == []
    ensures r == Err(NonPositive) ==> !Positive(shape)
    ensures r == Err(TooLarge) ==> exists i | 0 < i <= |shape| :: Positive(shape[..i]) && Product(shape[..i]) > MAX_INT
  {
    if |shape| == 0 {
      return Err(EmptyShape);
    }
    var size: Int := 1;
    for axis := 0 to |shape|
      invariant Positive(shape[..axis]) && size >= 1
      invariant size as int == Product(shape[..axis])
    {
      var length := shape[axis];
      if length <= 0 {
        return Err(NonPositive);
      }
      assert shape[..axis + 1] == shape[..axis] + [length];
      ProductSnoc(shape[..axis], length);
      QuotientBounds(size as int, length);
      if size as int > MAX_INT / length {
        assert Positive(shape[..axis + 1]) && Product(shape[..axis + 1]) > MAX_INT;
        if Positive(shape) {
          PrefixProduct(shape, axis + 1);
        }
        return Err(TooLarge);
      }
      ProductGrows(size as int, 1, length);
      size := size * length as Int;
    }
    assert shape[..|shape|] == shape;
    r := Ok(size);
  }

  // -------------------------------------------------------- unchecked products

  /** The product as the machine computes it, from left to right without a check. */
  function WrappedProduct(shape: seq<int>): int {
    if shape == [] then 1 else Int64(WrappedProduct(shape[..|shape| - 1]) * shape[|shape| - 1])
  }

  lemma Int64Multiple(x: int, k: int)
    ensures Int64(x + WIDTH * k) == Int64(x)
  {
    Congruent(x + MAX_INT + 1, WIDTH, k);
  }

  lemma WrapThenMultiply(x: int, y: int)
    ensures Int64(Int64(x) * y) == Int64(x * y)
  {
    var k := (x + MAX_INT + 1) / WIDTH;
    assert x == Int64(x) + WIDTH * k;
    MultiplyOut(Int64(x), WIDTH, k, y);
    Int64Multiple(Int64(x) * y, k * y);
  }

  lemma MultiplyOut(a: int, w: int, k: int, y: int)
    ensures (a + w * k) * y == a * y + w * (k * y)
  {
  }

  /** Wrapping at every step is wrapping once at the end. */
  lemma {:induction false} WrappedProductIs(shape: seq<nat>)
    ensures WrappedProduct(shape) == Int64(Product(shape))
  {
    if shape != [] {
      var init, last := shape[..|shape| - 1], shape[|shape| - 1];
      WrappedProductIs(init);
      assert shape == init + [last];
      ProductSnoc(init, last);
      WrapThenMultiply(Product(init), last);
    }
  }

  // ------------------------------------------------------------------- ranges

  /** An array with what it was acquired from: the gate, the unit and the kind of instrument. */
  datatype LabelledArray = LabelledArray(
    connection: Connection, unit: int, instrumentType: int, data: seq<real>, shape: seq<int>)

  function LabelledFor(port: InstrumentPort, data: seq<real>, shape: seq<int>): LabelledArray {
    LabelledArray(port.pseudoName, port.unit, port.instrumentType, data, shape)
  }

  datatype RangeError = Unresolved(error: PlanError) | MissingPort | WrongLength

  /** `order` lists the targets, each of them once. */
  ghost predicate ListsOnce(order: seq<Target>, targets: set<Target>) {
    && (forall t :: t in order <==> t in targets)
    && forall i, j | 0 <= i < j < |order| :: order[i] != order[j]
  }

  ghost predicate RangesOf(ranges: seq<LabelledArray>, order: seq<Target>, output: Output,
                           portOf: map<Target, InstrumentPort>, shape: seq<int>) {
    |ranges| == |order| && forall i | 0 <= i < |ranges| ::
      && order[i] in output && order[i] in portOf
      && ranges[i] == LabelledFor(portOf[order[i]], output[order[i]], shape)
  }

  /** Every getter of the output has a port, and as many samples as the machine product of the
      shape. */
  ghost predicate LengthsMatch(getters: seq<InstrumentPort>, output: Output, ports: seq<ConnectedPort>, shape: seq<int>)
  {
    && GettersUpTo(getters, ports, |getters|).Ok?
    && output.Keys <= GettersUpTo(getters, ports, |getters|).value.1.Keys
    && forall t :: t in output ==> |output[t]| == WrappedProduct(shape)
  }

  /** One labelled array per getter, in the map's order. It fails exactly when some getter
      has no port, or holds a number of samples other than the machine product of the shape. */
  method BuildRanges(getters: seq<InstrumentPort>, output: Output, ports: seq<ConnectedPort>, shape: seq<int>)
    returns (r: Result<seq<LabelledArray>, RangeError>, ghost order: seq<Target>)
    ensures r.Ok? <==> LengthsMatch(getters, output, ports, shape)
    ensures r.Ok? <==> && GettersUpTo(getters, ports, |getters|).Ok?
                       && (forall t :: t in output ==> t in GettersUpTo(getters, ports, |getters|).value.1)
                       && forall t :: t in output ==> |output[t]| == WrappedProduct(shape)
    ensures r.Ok? ==> && ListsOnce(order, output.Keys)
                      && RangesOf(r.value, order, output, GettersUpTo(getters, ports, |getters|).value.1, shape)
  {
    order := [];
    var resolved := BuildGetters(getters, ports);
    if resolved.Err? {
      r := Err(Unresolved(resolved.error));
      return;
    }
    var portOf := resolved.value.1;
    var out: seq<LabelledArray> := [];
    var remaining := output.Keys;
    while remaining != {}
      invariant remaining <= output.Keys
      invariant ListsOnce(order, output.Keys - remaining)
      invariant RangesOf(out, order, output, portOf, shape)
      invariant forall t :: t in output && t !in remaining ==> t in portOf && |output[t]| == WrappedProduct(shape)
      decreases remaining
    {
      var t :| t in remaining;
      if t !in portOf {
        r := Err(MissingPort);
        return;
      }
      var expected := 1;
      for i := 0 to |shape|
        invariant expected == WrappedProduct(shape[..i])
      {
        assert shape[..i + 1][..i] == shape[..i];
        expected := Int64(expected * shape[i]);
      }
      assert shape[..|shape|] == shape;
      if |output[t]| != expected {
        r := Err(WrongLength);
        return;
      }
      out := out + [LabelledFor(portOf[t], output[t], shape)];
      order := order + [t];
      remaining := remaining - {t};
    }
    r := Ok(out);
  }
}
