/** The network object: construction (`Init` and the public constructors that
    call it), the clone constructor, the `Weights`/`Biases` setters, the
    delegate setters and the introspection getters. Tensor values live
    directly in the network value; the storage sharing of the clone
    constructor is modelled separately in module Aliasing. */
module Network {
  import opened Errors
  import opened Tensors
  import opened Activations

  /** The random-value delegate: `sampler(k, min, max)` is the value the
      delegate returns on its `k`-th invocation with bounds `min, max`. The
      generator's internal state is thereby a parameter of the model. */
  type Sampler = (nat, real, real) -> real

  /** A network object. `Uninitialized` is an instance whose constructor never
      ran, so `Init` never set its fields; every tensor field is null. */
  datatype Network =
    | Uninitialized
    | Initialized(layers: seq<int>, weights: Tensor3, biases: Tensor2,
                  sampler: Sampler, activation: Activation)

  /** What every constructor establishes and every operation keeps: the
      tensors have exactly the shape the layer array dictates. */
  predicate Valid(net: Network)
  {
    net.Initialized? ==>
      ValidLayers(net.layers) && WeightsShaped(net.layers, net.weights) && BiasesShaped(net.layers, net.biases)
  }

  /** Default bounds of the constructors that take none. */
  const DefaultMinWeight: real := -10.0
  const DefaultMaxWeight: real := 10.0
  const DefaultMinBias: real := -1.0
  const DefaultMaxBias: real := 1.0

  /** A freshly allocated weight tensor: every cell holds the default 0. */
  function ZeroWeights(layers: seq<int>): (w: Tensor3)
    requires ValidLayers(layers)
    ensures WeightsShaped(layers, w)
    ensures forall x, y, z :: 0 <= x < |w| && 0 <= y < |w[x]| && 0 <= z < |w[x][y]| ==> w[x][y][z] == 0.0
  {
    seq(|layers| - 1, x requires 0 <= x < |layers| - 1 =>
      seq(layers[x], y => seq(layers[x + 1], z => 0.0)))
  }

  /** A freshly allocated bias tensor: every cell holds the default 0. */
  function ZeroBiases(layers: seq<int>): (b: Tensor2)
    requires ValidLayers(layers)
    ensures BiasesShaped(layers, b)
    ensures forall x, y :: 0 <= x < |b| && 0 <= y < |b[x]| ==> b[x][y] == 0.0
  {
    seq(|layers| - 1, x requires 0 <= x < |layers| - 1 => seq(layers[x + 1], y => 0.0))
  }

  /** The weight tensor drawn from the sampler in `x, y, z` order, the first
      draw being number `start`. */
  function SampledWeights(layers: seq<int>, sampler: Sampler, start: nat, min: real, max: real): (w: Tensor3)
    requires ValidLayers(layers)
    ensures WeightsShaped(layers, w)
  {
    seq(|layers| - 1, x requires 0 <= x < |layers| - 1 =>
      seq(layers[x], y requires 0 <= y < layers[x] =>
        seq(layers[x + 1], z requires 0 <= z < layers[x + 1] => sampler(start + WeightDraw(layers, x, y, z), min, max))))
  }

  /** The bias tensor drawn from the sampler in `x, y` order, the first draw
      being number `start`. */
  function SampledBiases(layers: seq<int>, sampler: Sampler, start: nat, min: real, max: real): (b: Tensor2)
    requires ValidLayers(layers)
    ensures BiasesShaped(layers, b)
  {
    seq(|layers| - 1, x requires 0 <= x < |layers| - 1 =>
      seq(layers[x + 1], y requires 0 <= y < layers[x + 1] => sampler(start + BiasDraw(layers, x, y), min, max)))
  }

  /** Whether `(x, y, z)` addresses a cell of a possibly jagged tensor. */
  predicate InBounds3(t: Tensor3, x: int, y: int, z: int)
  {
    0 <= x < |t| && 0 <= y < |t[x]| && 0 <= z < |t[x][y]|
  }

  /** Whether `(x, y)` addresses a cell of a possibly jagged tensor. */
  predicate InBounds2(t: Tensor2, x: int, y: int)
  {
    0 <= x < |t| && 0 <= y < |t[x]|
  }

  /** Fill-by-coordinate with the bounds guard as evidently intended: each
      cell of `base` takes the cell of `value` at the same coordinate when
      `value` has one and keeps its own value otherwise. */
  function OverlayWeights(base: Tensor3, value: Tensor3): (w: Tensor3)
    ensures SameShape3(w, base)
    ensures forall x, y, z :: InBounds3(base, x, y, z) && InBounds3(value, x, y, z) ==> w[x][y][z] == value[x][y][z]
    ensures forall x, y, z :: InBounds3(base, x, y, z) && !InBounds3(value, x, y, z) ==> w[x][y][z] == base[x][y][z]
  {
    seq(|base|, x requires 0 <= x < |base| =>
      seq(|base[x]|, y requires 0 <= y < |base[x]| =>
        seq(|base[x][y]|, z requires 0 <= z < |base[x][y]| =>
          if InBounds3(value, x, y, z) then value[x][y][z] else base[x][y][z])))
  }

  /** The bias counterpart of `OverlayWeights`. */
  function OverlayBiases(base: Tensor2, value: Tensor2): (b: Tensor2)
    ensures SameShape2(b, base)
    ensures forall x, y :: InBounds2(base, x, y) && InBounds2(value, x, y) ==> b[x][y] == value[x][y]
    ensures forall x, y :: InBounds2(base, x, y) && !InBounds2(value, x, y) ==> b[x][y] == base[x][y]
  {
    seq(|base|, x requires 0 <= x < |base| =>
      seq(|base[x]|, y requires 0 <= y < |base[x]| =>
        if InBounds2(value, x, y) then value[x][y] else base[x][y]))
  }

  /** Number of sampler draws construction spends on weights: none when a
      weight tensor is supplied. */
  function WeightDrawsAtInit(layers: seq<int>, weights: Option<Tensor3>): nat
    requires ValidLayers(layers)
  {
    if weights.Some? then 0 else WeightCount(layers)
  }

  /** `Init`, which every public constructor calls. A null hidden-width array
      fails on its `Length`; a negative width fails when the array of that
      size is allocated (every width is allocated: the first by the weight
      loop, the others by the bias loop). Supplied tensors are copied by
      coordinate onto zero-filled storage; absent ones are sampled. A null
      activation selects the linear one. */
  function Init(inputCount: int, hiddenLayerSize: Option<seq<int>>, outputCount: int,
                minWeight: real, maxWeight: real, minBias: real, maxBias: real,
                weights: Option<Tensor3>, biases: Option<Tensor2>,
                randomValue: Sampler, activationFunc: Option<Activation>): (r: Result<Network>)
    ensures hiddenLayerSize.None? ==> r == Err(NullArg)
    ensures hiddenLayerSize.Some? ==>
      (r.Ok? <==> ValidLayers(Topology(inputCount, hiddenLayerSize.value, outputCount)))
    ensures hiddenLayerSize.Some? && !ValidLayers(Topology(inputCount, hiddenLayerSize.value, outputCount)) ==>
      r == Err(Overflow)
    ensures r.Err? ==> r.error == NullArg || r.error == Overflow
    ensures r.Ok? ==> && r.value.Initialized? && Valid(r.value)
                      && r.value.layers == Topology(inputCount, hiddenLayerSize.value, outputCount)
                      && r.value.sampler == randomValue
                      && r.value.activation == activationFunc.GetOr(Linear)
  {
    match hiddenLayerSize
    case None => Err(NullArg)
    case Some(hidden) =>
      var layers := Topology(inputCount, hidden, outputCount);
      if !ValidLayers(layers) then Err(Overflow)
      else
        Ok(Initialized(layers, InitialWeights(layers, weights, randomValue, minWeight, maxWeight),
                       InitialBiases(layers, weights, biases, randomValue, minBias, maxBias),
                       randomValue, activationFunc.GetOr(Linear)))
  }

  /** The weights construction leaves: the supplied tensor copied onto zeros,
      or one draw per cell. */
  function InitialWeights(layers: seq<int>, weights: Option<Tensor3>, randomValue: Sampler,
                          minWeight: real, maxWeight: real): (w: Tensor3)
    requires ValidLayers(layers)
    ensures WeightsShaped(layers, w)
  {
    match weights
    case Some(v) => OverlayWeights(ZeroWeights(layers), v)
    case None => SampledWeights(layers, randomValue, 0, minWeight, maxWeight)
  }

  /** The biases construction leaves: the supplied tensor copied onto zeros,
      or one draw per cell, after the draws spent on weights. */
  function InitialBiases(layers: seq<int>, weights: Option<Tensor3>, biases: Option<Tensor2>,
                         randomValue: Sampler, minBias: real, maxBias: real): (b: Tensor2)
    requires ValidLayers(layers)
    ensures BiasesShaped(layers, b)
  {
    match biases
    case Some(v) => OverlayBiases(ZeroBiases(layers), v)
    case None => SampledBiases(layers, randomValue, WeightDrawsAtInit(layers, weights), minBias, maxBias)
  }

  /** The basic constructor: default bounds, default functions. The default
      sampler is System.Random based and not part of this model, so the
      sampler in effect is still a parameter. */
  function NewNetwork(inputCount: int, hiddenLayerSize: Option<seq<int>>, outputCount: int,
                      randomValue: Sampler, activationFunc: Option<Activation>): (r: Result<Network>)
    ensures hiddenLayerSize.None? ==> r == Err(NullArg)
    ensures hiddenLayerSize.Some? ==>
      (r.Ok? <==> ValidLayers(Topology(inputCount, hiddenLayerSize.value, outputCount)))
    ensures hiddenLayerSize.Some? && !ValidLayers(Topology(inputCount, hiddenLayerSize.value, outputCount)) ==>
      r == Err(Overflow)
    ensures r.Ok? ==> && r.value.Initialized? && Valid(r.value)
                      && r.value.layers == Topology(inputCount, hiddenLayerSize.value, outputCount)
                      && r.value.sampler == randomValue
                      && r.value.activation == activationFunc.GetOr(Linear)
    ensures r.Ok? ==> forall x, y, z :: InBounds3(r.value.weights, x, y, z) ==>
              r.value.weights[x][y][z] == randomValue(WeightDraw(r.value.layers, x, y, z), -10.0, 10.0)
    ensures r.Ok? ==> forall x, y :: InBounds2(r.value.biases, x, y) ==>
              r.value.biases[x][y] ==
                randomValue(WeightCount(r.value.layers) + BiasDraw(r.value.layers, x, y), -1.0, 1.0)
  {
    if hiddenLayerSize.Some? && ValidLayers(Topology(inputCount, hiddenLayerSize.value, outputCount)) then
      var layers := Topology(inputCount, hiddenLayerSize.value, outputCount);
      SampledWeightCells(layers, randomValue, 0, DefaultMinWeight, DefaultMaxWeight);
      SampledBiasCells(layers, randomValue, WeightCount(layers), DefaultMinBias, DefaultMaxBias);
      Init(inputCount, hiddenLayerSize, outputCount, DefaultMinWeight, DefaultMaxWeight,
           DefaultMinBias, DefaultMaxBias, None, None, randomValue, activationFunc)
    else
      Init(inputCount, hiddenLayerSize, outputCount, DefaultMinWeight, DefaultMaxWeight,
           DefaultMinBias, DefaultMaxBias, None, None, randomValue, activationFunc)
  }

  /** Every cell of a sampled weight tensor is the draw with its fill-order
      number. */
  lemma SampledWeightCells(layers: seq<int>, sampler: Sampler, start: nat, min: real, max: real)
    requires ValidLayers(layers)
    ensures var w := SampledWeights(layers, sampler, start, min, max);
            forall x, y, z :: InBounds3(w, x, y, z) ==> w[x][y][z] == sampler(start + WeightDraw(layers, x, y, z), min, max)
  {
  }

  /** Every cell of a sampled bias tensor is the draw with its fill-order
      number. */
  lemma SampledBiasCells(layers: seq<int>, sampler: Sampler, start: nat, min: real, max: real)
    requires ValidLayers(layers)
    ensures var b := SampledBiases(layers, sampler, start, min, max);
            forall x, y :: InBounds2(b, x, y) ==> b[x][y] == sampler(start + BiasDraw(layers, x, y), min, max)
  {
  }

  /** The delegate keeps every draw within the bounds it is given, as Unity's
      `Random.Range` does. The library's default delegate does so only when
      `min <= 0 <= max`: it scales a draw from [-1, 1) by `-min` below zero
      and by `max` above it, so `min = 0.5, max = 1` can yield 0.25. */
  ghost predicate RespectsBounds(sampler: Sampler)
  {
    forall k, lo, hi :: lo <= hi ==> lo <= sampler(k, lo, hi) <= hi
  }

  /** The scaling of the library's default delegate: a uniform draw `u` from
      [-1, 1) is scaled by `-min` when negative and by `max` otherwise. The
      generator that produces `u` is not modelled. */
  function DefaultRandomValue(u: real, min: real, max: real): (r: real)
    ensures min == 0.0 && max == 0.0 ==> r == 0.0
    ensures u == 0.0 ==> r == 0.0
  {
    if u < 0.0 then u * -min else u * max
  }

  /** When the bounds straddle 0 the default delegate keeps within them. */
  lemma DefaultWithinStraddlingBounds(u: real, min: real, max: real)
    requires -1.0 <= u < 1.0 && min <= 0.0 <= max
    ensures min <= DefaultRandomValue(u, min, max) <= max
  {
    if u < 0.0 {
      NegativeScale(u, -min);
      assert min <= u * -min <= 0.0;
    } else {
      ScaleWithin(u, max);
      assert 0.0 <= u * max <= max;
    }
  }

  /** A negative fraction of a non-negative amount lies between minus the
      amount and 0. */
  lemma NegativeScale(u: real, m: real)
    requires -1.0 <= u < 0.0 && 0.0 <= m
    ensures -m <= u * m <= 0.0
  {
    ScaleWithin(-u, m);
    assert (-u) * m == -(u * m);
  }

  /** A fraction of a non-negative amount lies between 0 and the amount. */
  lemma ScaleWithin(a: real, b: real)
    requires 0.0 <= a <= 1.0 && 0.0 <= b
    ensures 0.0 <= a * b <= b
  {
    assert b - a * b == (1.0 - a) * b;
  }

  /** On the degenerate bounds `[0, 0]` the default delegate draws 0 whatever
      its generator yields, which is what `DegenerateMutationKeepsOutputs`
      asks of a delegate. */
  lemma DefaultDrawsZeroOnZeroBounds(units: nat -> real)
    ensures forall k: nat :: 0.0 <= DefaultRandomValue(units(k), 0.0, 0.0) <= 0.0
  {
  }

  /** The default delegate leaves bounds that do not straddle 0: with
      `min = 0.5, max = 1` the draw `u = -0.5` yields 0.25. So it does not
      satisfy `RespectsBounds`. */
  lemma DefaultLeavesBounds()
    ensures DefaultRandomValue(-0.5, 0.5, 1.0) == 0.25 < 0.5
    ensures !RespectsBounds((k: nat, lo: real, hi: real) => DefaultRandomValue(-0.5, lo, hi))
  {
    var s: Sampler := (k: nat, lo: real, hi: real) => DefaultRandomValue(-0.5, lo, hi);
    assert s(0, 0.5, 1.0) == 0.25;
  }

  /** The default delegate as its documentation promises it (lines 176-179:
      a value between the given minimum and maximum): the unit draw mapped
      affinely onto the bounds. */
  function IntendedRandomValue(u: real, min: real, max: real): (r: real)
    ensures u == -1.0 ==> r == min
    ensures min == max ==> r == min
  {
    min + (u + 1.0) / 2.0 * (max - min)
  }

  /** The intended delegate keeps a unit draw within any ordered bounds. */
  lemma IntendedWithinBounds(u: real, min: real, max: real)
    requires -1.0 <= u < 1.0 && min <= max
    ensures min <= IntendedRandomValue(u, min, max) <= max
  {
    var t := (u + 1.0) / 2.0;
    var d := max - min;
    ScaleWithin(t, d);
    assert IntendedRandomValue(u, min, max) == min + t * d;
  }

  /** A delegate built on the intended scaling respects every pair of
      bounds, whatever unit draws its generator yields. */
  lemma IntendedRespectsBounds(units: nat -> real)
    requires forall k: nat :: -1.0 <= units(k) < 1.0
    ensures RespectsBounds((k: nat, lo: real, hi: real) => IntendedRandomValue(units(k), lo, hi))
  {
    forall k: nat, lo: real, hi: real | lo <= hi
      ensures lo <= IntendedRandomValue(units(k), lo, hi) <= hi
    {
      IntendedWithinBounds(units(k), lo, hi);
    }
  }

  /** Construction places each weight exactly: a sampled weight is the draw
      with its fill-order number, a supplied one is the supplied cell or the
      default 0 where the supplied tensor has none (it is not sampled). */
  lemma InitWeightCells(inputCount: int, hidden: seq<int>, outputCount: int,
                        minWeight: real, maxWeight: real, minBias: real, maxBias: real,
                        weights: Option<Tensor3>, biases: Option<Tensor2>,
                        randomValue: Sampler, activationFunc: Option<Activation>,
                        x: nat, y: nat, z: nat)
    requires ValidLayers(Topology(inputCount, hidden, outputCount))
    requires x < |hidden| + 1 && y < Topology(inputCount, hidden, outputCount)[x]
    requires z < Topology(inputCount, hidden, outputCount)[x + 1]
    ensures var r := Init(inputCount, Some(hidden), outputCount, minWeight, maxWeight, minBias, maxBias,
                          weights, biases, randomValue, activationFunc);
            var layers := Topology(inputCount, hidden, outputCount);
            && r.Ok?
            && (weights.None? ==>
                  r.value.weights[x][y][z] == randomValue(WeightDraw(layers, x, y, z), minWeight, maxWeight))
            && (weights.Some? && InBounds3(weights.value, x, y, z) ==>
                  r.value.weights[x][y][z] == weights.value[x][y][z])
            && (weights.Some? && !InBounds3(weights.value, x, y, z) ==>
                  r.value.weights[x][y][z] == 0.0)
  {
  }

  /** Construction places each bias exactly. Sampled biases are drawn after
      all sampled weights, so no bias shares a draw with a weight. */
  lemma InitBiasCells(inputCount: int, hidden: seq<int>, outputCount: int,
                      minWeight: real, maxWeight: real, minBias: real, maxBias: real,
                      weights: Option<Tensor3>, biases: Option<Tensor2>,
                      randomValue: Sampler, activationFunc: Option<Activation>,
                      x: nat, y: nat)
    requires ValidLayers(Topology(inputCount, hidden, outputCount))
    requires x < |hidden| + 1 && y < Topology(inputCount, hidden, outputCount)[x + 1]
    ensures var r := Init(inputCount, Some(hidden), outputCount, minWeight, maxWeight, minBias, maxBias,
                          weights, biases, randomValue, activationFunc);
            var layers := Topology(inputCount, hidden, outputCount);
            && r.Ok?
            && (biases.None? ==>
                  r.value.biases[x][y] == randomValue(WeightDrawsAtInit(layers, weights) + BiasDraw(layers, x, y), minBias, maxBias))
            && (biases.None? && weights.None? ==>
                  WeightDrawsAtInit(layers, weights) + BiasDraw(layers, x, y) >= WeightCount(layers))
            && (biases.Some? && InBounds2(biases.value, x, y) ==>
                  r.value.biases[x][y] == biases.value[x][y])
            && (biases.Some? && !InBounds2(biases.value, x, y) ==>
                  r.value.biases[x][y] == 0.0)
  {
    var layers := Topology(inputCount, hidden, outputCount);
    var b := InitialBiases(layers, weights, biases, randomValue, minBias, maxBias);
    assert Init(inputCount, Some(hidden), outputCount, minWeight, maxWeight, minBias, maxBias,
                weights, biases, randomValue, activationFunc).value.biases == b;
    if biases.None? {
      SampledBiasCells(layers, randomValue, WeightDrawsAtInit(layers, weights), minBias, maxBias);
      assert InBounds2(b, x, y);
    } else {
      assert InBounds2(ZeroBiases(layers), x, y);
    }
  }

  /** Input width: the first layer, or -1 on an uninitialized network. */
  function InputCount(net: Network): (n: int)
    requires Valid(net)
    ensures n == -1 <==> net.Uninitialized?
    ensures net.Initialized? ==> n == net.layers[0]
  {
    if net.Initialized? then net.layers[0] else -1
  }

  /** Number of hidden layers, or -1 on an uninitialized network. */
  function HiddenLayerCount(net: Network): (n: int)
    requires Valid(net)
    ensures n == -1 <==> net.Uninitialized?
    ensures net.Initialized? ==> n + 2 == |net.layers|
  {
    if net.Initialized? then |net.layers| - 2 else -1
  }

  /** The hidden widths, or null on an uninitialized network. */
  function HiddenNeurons(net: Network): (r: Option<seq<int>>)
    requires Valid(net)
    ensures r.None? <==> net.Uninitialized?
    ensures r.Some? ==> |r.value| == HiddenLayerCount(net)
    ensures r.Some? ==> forall i :: 0 <= i < |r.value| ==> r.value[i] == net.layers[i + 1]
  {
    if net.Initialized? then Some(net.layers[1..|net.layers| - 1]) else None
  }

  /** Output width: the last layer, or -1 on an uninitialized network. */
  function OutputCount(net: Network): (n: int)
    requires Valid(net)
    ensures n == -1 <==> net.Uninitialized?
    ensures net.Initialized? ==> n == net.layers[|net.layers| - 1]
  {
    if net.Initialized? then net.layers[|net.layers| - 1] else -1
  }

  /** The introspection getters recover the constructor's arguments. */
  lemma InitIntrospection(inputCount: int, hidden: seq<int>, outputCount: int,
                          minWeight: real, maxWeight: real, minBias: real, maxBias: real,
                          weights: Option<Tensor3>, biases: Option<Tensor2>,
                          randomValue: Sampler, activationFunc: Option<Activation>)
    requires ValidLayers(Topology(inputCount, hidden, outputCount))
    ensures var r := Init(inputCount, Some(hidden), outputCount, minWeight, maxWeight, minBias, maxBias,
                          weights, biases, randomValue, activationFunc);
            && r.Ok?
            && InputCount(r.value) == inputCount
            && HiddenLayerCount(r.value) == |hidden|
            && HiddenNeurons(r.value) == Some(hidden)
            && OutputCount(r.value) == outputCount
  {
    var layers := Topology(inputCount, hidden, outputCount);
    assert layers[1..|layers| - 1] == hidden;
  }

  /** The `Weights` getter returns the stored tensor (null when uninitialized). */
  function Weights(net: Network): (r: Option<Tensor3>)
    ensures r.None? <==> net.Uninitialized?
  {
    if net.Initialized? then Some(net.weights) else None
  }

  /** The `Biases` getter returns the stored tensor (null when uninitialized). */
  function Biases(net: Network): (r: Option<Tensor2>)
    ensures r.None? <==> net.Uninitialized?
  {
    if net.Initialized? then Some(net.biases) else None
  }

  /** The `Weights` setter with the bounds guard as evidently intended: it
      copies the supplied tensor into the existing storage by coordinate,
      keeping old values where the supplied tensor is too small and ignoring
      supplied cells beyond the network's shape. */
  function SetWeights(net: Network, value: Option<Tensor3>): (r: Result<Network>)
    ensures net.Uninitialized? <==> r == Err(NotInitialized)
    ensures net.Initialized? && value.None? <==> r == Err(NullArg)
    ensures r.Ok? ==> && r.value.Initialized?
                      && r.value == net.(weights := r.value.weights)
                      && SameShape3(r.value.weights, net.weights)
    ensures Valid(net) && r.Ok? ==> Valid(r.value)
    ensures r.Ok? ==> forall x, y, z :: InBounds3(net.weights, x, y, z) ==>
              r.value.weights[x][y][z] ==
                (if InBounds3(value.value, x, y, z) then value.value[x][y][z] else net.weights[x][y][z])
  {
    if net.Uninitialized? then Err(NotInitialized)
    else if value.None? then Err(NullArg)
    else Ok(net.(weights := OverlayWeights(net.weights, value.value)))
  }

  /** The `Biases` setter with the bounds guard as evidently intended. */
  function SetBiases(net: Network, value: Option<Tensor2>): (r: Result<Network>)
    ensures net.Uninitialized? <==> r == Err(NotInitialized)
    ensures net.Initialized? && value.None? <==> r == Err(NullArg)
    ensures r.Ok? ==> && r.value.Initialized?
                      && r.value == net.(biases := r.value.biases)
                      && SameShape2(r.value.biases, net.biases)
    ensures Valid(net) && r.Ok? ==> Valid(r.value)
    ensures r.Ok? ==> forall x, y :: InBounds2(net.biases, x, y) ==>
              r.value.biases[x][y] == (if InBounds2(value.value, x, y) then value.value[x][y] else net.biases[x][y])
  {
    if net.Uninitialized? then Err(NotInitialized)
    else if value.None? then Err(NullArg)
    else Ok(net.(biases := OverlayBiases(net.biases, value.value)))
  }

  /** Setting full-shape weights, then reading them back, returns them. */
  lemma SetThenGetWeights(net: Network, value: Tensor3)
    requires net.Initialized? && Valid(net) && WeightsShaped(net.layers, value)
    ensures SetWeights(net, Some(value)).Ok?
    ensures Weights(SetWeights(net, Some(value)).value) == Some(value)
    ensures Valid(SetWeights(net, Some(value)).value)
  {
    var w := OverlayWeights(net.weights, value);
    assert forall x, y :: 0 <= x < |w| && 0 <= y < |w[x]| ==> w[x][y] == value[x][y];
    assert forall x :: 0 <= x < |w| ==> w[x] == value[x];
    assert w == value;
  }

  /** Setting full-shape biases, then reading them back, returns them. */
  lemma SetThenGetBiases(net: Network, value: Tensor2)
    requires net.Initialized? && Valid(net) && BiasesShaped(net.layers, value)
    ensures SetBiases(net, Some(value)).Ok?
    ensures Biases(SetBiases(net, Some(value)).value) == Some(value)
    ensures Valid(SetBiases(net, Some(value)).value)
  {
    var b := OverlayBiases(net.biases, value);
    assert forall x :: 0 <= x < |b| ==> b[x] == value[x];
    assert b == value;
  }

  /** Writing back what the getters return leaves an initialized network as
      it was. */
  lemma GetThenSetIsIdentity(net: Network)
    requires net.Initialized?
    ensures SetWeights(net, Weights(net)) == Ok(net)
    ensures SetBiases(net, Biases(net)) == Ok(net)
  {
    var w := OverlayWeights(net.weights, net.weights);
    assert forall x, y :: 0 <= x < |w| && 0 <= y < |w[x]| ==> w[x][y] == net.weights[x][y];
    assert forall x :: 0 <= x < |w| ==> w[x] == net.weights[x];
    assert w == net.weights;
    var b := OverlayBiases(net.biases, net.biases);
    assert forall x :: 0 <= x < |b| ==> b[x] == net.biases[x];
    assert b == net.biases;
  }

  /** The `randomValue` setter: a null delegate is refused. */
  function SetSampler(net: Network, value: Option<Sampler>): (r: Result<Network>)
    ensures value.None? <==> r == Err(NullArg)
    ensures r.Ok? && net.Initialized? ==> r.value == net.(sampler := value.value)
    ensures r.Ok? ==> Valid(r.value) == Valid(net)
  {
    match value
    case None => Err(NullArg)
    case Some(s) => if net.Initialized? then Ok(net.(sampler := s)) else Ok(net)
  }

  /** The `activationFunction` setter: a null delegate is refused. */
  function SetActivation(net: Network, value: Option<Activation>): (r: Result<Network>)
    ensures value.None? <==> r == Err(NullArg)
    ensures r.Ok? && net.Initialized? ==> r.value == net.(activation := value.value)
    ensures r.Ok? ==> Valid(r.value) == Valid(net)
  {
    match value
    case None => Err(NullArg)
    case Some(f) => if net.Initialized? then Ok(net.(activation := f)) else Ok(net)
  }

  /** The clone constructor, read with value semantics: the clone has the
      source's layers, tensors and delegates. Module Aliasing models the
      storage sharing of the original. */
  function Clone(instance: Option<Network>): (r: Result<Network>)
    ensures instance.None? <==> r == Err(NullArg)
    ensures instance == Some(Uninitialized) <==> r == Err(NotInitialized)
    ensures r.Ok? ==> instance.Some? && r.value.Initialized? && r.value == instance.value
  {
    match instance
    case None => Err(NullArg)
    case Some(source) => if source.Uninitialized? then Err(NotInitialized) else Ok(source)
  }
}
