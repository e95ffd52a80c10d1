/** The fill-by-coordinate bounds guards exactly as the source writes them,
    next to the intended guards of module Network. The weight guard compares
    `z` with the supplied row's length instead of its last index, and the
    bias guard used by construction compares `x` with the network's own row
    count instead of the supplied one's; a supplied tensor that is short at
    such a level makes the copy read past its end and raise
    IndexOutOfRangeException instead of keeping the cell. */
module Legacy {
  import opened Errors
  import opened Tensors
  import opened Activations
  import opened Network

  /** What the copy loop does at one cell. */
  datatype Cell = Skip | Take(v: real) | Fault

  /** The weight guard of `Init` and of the `Weights` setter (`z` is compared
      with the row length, not with its last index). */
  function WeightCellAsWritten(value: Tensor3, x: nat, y: nat, z: nat): (c: Cell)
    ensures c.Fault? <==> x < |value| && y < |value[x]| && z == |value[x][y]|
    ensures c.Take? <==> InBounds3(value, x, y, z)
    ensures c.Take? ==> c.v == value[x][y][z]
  {
    if x > |value| - 1 || y > |value[x]| - 1 || z > |value[x][y]| then Skip
    else if z < |value[x][y]| then Take(value[x][y][z])
    else Fault
  }

  /** The bias guard of `Init`: `x` is compared with the network's own row
      count `rows`, and `y` with the supplied row length. */
  function InitBiasCellAsWritten(rows: nat, value: Tensor2, x: nat, y: nat): (c: Cell)
    requires x < rows
    ensures c.Fault? <==> x >= |value| || y == |value[x]|
    ensures c.Take? <==> InBounds2(value, x, y)
    ensures c.Take? ==> c.v == value[x][y]
  {
    if x > rows - 1 then Skip
    else if x >= |value| then Fault
    else if y > |value[x]| then Skip
    else if y < |value[x]| then Take(value[x][y])
    else Fault
  }

  /** The bias guard of the `Biases` setter: `x` is checked against the
      supplied tensor, `y` against the supplied row length. */
  function SetBiasCellAsWritten(value: Tensor2, x: nat, y: nat): (c: Cell)
    ensures c.Fault? <==> x < |value| && y == |value[x]|
    ensures c.Take? <==> InBounds2(value, x, y)
    ensures c.Take? ==> c.v == value[x][y]
  {
    if x > |value| - 1 || y > |value[x]| then Skip
    else if y < |value[x]| then Take(value[x][y])
    else Fault
  }

  /** The value a cell of `base` ends with when the loop does not fault. */
  function Settle(c: Cell, previous: real): real
  {
    if c.Take? then c.v else previous
  }

  /** Some cell of `base` makes the as-written weight copy fault. */
  ghost predicate WeightFault(base: Tensor3, value: Tensor3)
  {
    exists x: nat, y: nat, z: nat :: InBounds3(base, x, y, z) && WeightCellAsWritten(value, x, y, z).Fault?
  }

  /** The weight copy of `Init` and of the setter, as written: it faults if
      any cell faults, and otherwise writes every cell the guard admits. */
  ghost function FillWeightsAsWritten(base: Tensor3, value: Tensor3): (r: Result<Tensor3>)
    ensures r.Err? <==> WeightFault(base, value)
    ensures r.Err? ==> r.error == IndexOutOfRange
    ensures r.Ok? ==> SameShape3(r.value, base)
  {
    if WeightFault(base, value) then Err(IndexOutOfRange)
    else Ok(seq(|base|, x requires 0 <= x < |base| =>
              seq(|base[x]|, y requires 0 <= y < |base[x]| =>
                seq(|base[x][y]|, z requires 0 <= z < |base[x][y]| =>
                  Settle(WeightCellAsWritten(value, x, y, z), base[x][y][z])))))
  }

  /** The as-written weight copy faults exactly when a supplied row that the
      guard admits is shorter than the row it is copied into. */
  lemma WeightFaultIffShortRow(base: Tensor3, value: Tensor3)
    ensures WeightFault(base, value) <==>
      exists x: nat, y: nat :: x < |base| && x < |value| && y < |base[x]| && y < |value[x]|
                               && |value[x][y]| < |base[x][y]|
  {
    if WeightFault(base, value) {
      var x: nat, y: nat, z: nat :| InBounds3(base, x, y, z) && WeightCellAsWritten(value, x, y, z).Fault?;
      assert x < |base| && x < |value| && y < |base[x]| && y < |value[x]| && |value[x][y]| < |base[x][y]|;
    }
    if exists x: nat, y: nat :: x < |base| && x < |value| && y < |base[x]| && y < |value[x]|
                               && |value[x][y]| < |base[x][y]| {
      var x: nat, y: nat :| x < |base| && x < |value| && y < |base[x]| && y < |value[x]|
                            && |value[x][y]| < |base[x][y]|;
      assert InBounds3(base, x, y, |value[x][y]|) && WeightCellAsWritten(value, x, y, |value[x][y]|).Fault?;
    }
  }

  /** Where the as-written weight copy succeeds it agrees with the intended
      one. */
  lemma FillWeightsAsWrittenAgrees(base: Tensor3, value: Tensor3)
    ensures FillWeightsAsWritten(base, value).Ok? ==> FillWeightsAsWritten(base, value).value == OverlayWeights(base, value)
  {
    if !WeightFault(base, value) {
      var a := FillWeightsAsWritten(base, value).value;
      var b := OverlayWeights(base, value);
      forall x, y | 0 <= x < |base| && 0 <= y < |base[x]|
        ensures a[x][y] == b[x][y]
      {
        forall z | 0 <= z < |base[x][y]|
          ensures a[x][y][z] == b[x][y][z]
        {
          assert !(InBounds3(base, x, y, z) && WeightCellAsWritten(value, x, y, z).Fault?);
        }
      }
      assert forall x :: 0 <= x < |base| ==> a[x] == b[x];
    }
  }

  /** Some cell of `base` makes the as-written bias copy of `Init` fault. */
  ghost predicate InitBiasFault(base: Tensor2, value: Tensor2)
  {
    exists x: nat, y: nat :: InBounds2(base, x, y) && InitBiasCellAsWritten(|base|, value, x, y).Fault?
  }

  /** The bias copy of `Init`, as written. */
  ghost function FillBiasesAsWritten(base: Tensor2, value: Tensor2): (r: Result<Tensor2>)
    ensures r.Err? <==> InitBiasFault(base, value)
    ensures r.Err? ==> r.error == IndexOutOfRange
    ensures r.Ok? ==> SameShape2(r.value, base)
  {
    if InitBiasFault(base, value) then Err(IndexOutOfRange)
    else Ok(seq(|base|, x requires 0 <= x < |base| =>
              seq(|base[x]|, y requires 0 <= y < |base[x]| =>
                Settle(InitBiasCellAsWritten(|base|, value, x, y), base[x][y]))))
  }

  /** The as-written bias copy of `Init` faults exactly when a non-empty
      network row has no supplied row or a shorter one. */
  lemma InitBiasFaultIffShortRow(base: Tensor2, value: Tensor2)
    ensures InitBiasFault(base, value) <==>
      exists x: nat :: x < |base| && |base[x]| > 0 && (x >= |value| || |value[x]| < |base[x]|)
  {
    if InitBiasFault(base, value) {
      var x: nat, y: nat :| InBounds2(base, x, y) && InitBiasCellAsWritten(|base|, value, x, y).Fault?;
      assert x < |base| && |base[x]| > 0 && (x >= |value| || |value[x]| < |base[x]|);
    }
    if exists x: nat :: x < |base| && |base[x]| > 0 && (x >= |value| || |value[x]| < |base[x]|) {
      var x: nat :| x < |base| && |base[x]| > 0 && (x >= |value| || |value[x]| < |base[x]|);
      if x >= |value| {
        assert InBounds2(base, x, 0) && InitBiasCellAsWritten(|base|, value, x, 0).Fault?;
      } else {
        assert InBounds2(base, x, |value[x]|) && InitBiasCellAsWritten(|base|, value, x, |value[x]|).Fault?;
      }
    }
  }

  /** Where the as-written bias copy of `Init` succeeds it agrees with the
      intended one. */
  lemma FillBiasesAsWrittenAgrees(base: Tensor2, value: Tensor2)
    ensures FillBiasesAsWritten(base, value).Ok? ==> FillBiasesAsWritten(base, value).value == OverlayBiases(base, value)
  {
    if !InitBiasFault(base, value) {
      var a := FillBiasesAsWritten(base, value).value;
      var b := OverlayBiases(base, value);
      forall x | 0 <= x < |base|
        ensures a[x] == b[x]
      {
        forall y | 0 <= y < |base[x]|
          ensures a[x][y] == b[x][y]
        {
          assert !(InBounds2(base, x, y) && InitBiasCellAsWritten(|base|, value, x, y).Fault?);
        }
      }
    }
  }

  /** Some cell of `base` makes the as-written `Biases` setter fault. */
  ghost predicate SetBiasFault(base: Tensor2, value: Tensor2)
  {
    exists x: nat, y: nat :: InBounds2(base, x, y) && SetBiasCellAsWritten(value, x, y).Fault?
  }

  /** `Init` with the guards as written. It raises the same exceptions as
      `Init` and, in addition, IndexOutOfRange for a short supplied tensor. */
  ghost function InitAsWritten(inputCount: int, hiddenLayerSize: Option<seq<int>>, outputCount: int,
                               minWeight: real, maxWeight: real, minBias: real, maxBias: real,
                               weights: Option<Tensor3>, biases: Option<Tensor2>,
                               randomValue: Sampler, activationFunc: Option<Activation>): (r: Result<Network>)
    ensures hiddenLayerSize.None? ==> r == Err(NullArg)
    ensures hiddenLayerSize.Some? && !ValidLayers(Topology(inputCount, hiddenLayerSize.value, outputCount)) ==>
      r == Err(Overflow)
    ensures r.Err? ==> r.error == NullArg || r.error == Overflow || r.error == IndexOutOfRange
    ensures hiddenLayerSize.Some? && ValidLayers(Topology(inputCount, hiddenLayerSize.value, outputCount)) ==>
      var layers := Topology(inputCount, hiddenLayerSize.value, outputCount);
      (r == Err(IndexOutOfRange) <==>
         (weights.Some? && WeightFault(ZeroWeights(layers), weights.value))
         || (biases.Some? && InitBiasFault(ZeroBiases(layers), biases.value)))
    ensures r.Ok? ==> && r.value.Initialized? && Valid(r.value)
                      && r.value.layers == Topology(inputCount, hiddenLayerSize.value, outputCount)
                      && r.value.sampler == randomValue
                      && r.value.activation == activationFunc.GetOr(Linear)
  {
    match hiddenLayerSize
    case None => Err(NullArg)
    case Some(hidden) =>
      var layers := Topology(inputCount, hidden, outputCount);
      if !ValidLayers(layers) then Err(Overflow)
      else
        var w := match weights
          case Some(v) => FillWeightsAsWritten(ZeroWeights(layers), v)
          case None => Ok(SampledWeights(layers, randomValue, 0, minWeight, maxWeight));
        var b := match biases
          case Some(v) => FillBiasesAsWritten(ZeroBiases(layers), v)
          case None => Ok(SampledBiases(layers, randomValue, WeightDrawsAtInit(layers, weights), minBias, maxBias));
        if w.Err? || b.Err? then Err(IndexOutOfRange)
        else Ok(Initialized(layers, w.value, b.value, randomValue, activationFunc.GetOr(Linear)))
  }

  /** The as-written construction differs from the intended one only by
      faulting: whatever it builds, the intended `Init` builds too, and every
      other exception is the same. */
  lemma InitAsWrittenAgrees(inputCount: int, hiddenLayerSize: Option<seq<int>>, outputCount: int,
                            minWeight: real, maxWeight: real, minBias: real, maxBias: real,
                            weights: Option<Tensor3>, biases: Option<Tensor2>,
                            randomValue: Sampler, activationFunc: Option<Activation>)
    ensures var legacy := InitAsWritten(inputCount, hiddenLayerSize, outputCount, minWeight, maxWeight, minBias, maxBias,
                                        weights, biases, randomValue, activationFunc);
            var intended := Init(inputCount, hiddenLayerSize, outputCount, minWeight, maxWeight, minBias, maxBias,
                                 weights, biases, randomValue, activationFunc);
            (legacy.Ok? || legacy.error != IndexOutOfRange) ==> legacy == intended
  {
    var legacy := InitAsWritten(inputCount, hiddenLayerSize, outputCount, minWeight, maxWeight, minBias, maxBias,
                                weights, biases, randomValue, activationFunc);
    var intended := Init(inputCount, hiddenLayerSize, outputCount, minWeight, maxWeight, minBias, maxBias,
                         weights, biases, randomValue, activationFunc);
    if hiddenLayerSize.Some? && ValidLayers(Topology(inputCount, hiddenLayerSize.value, outputCount)) && legacy.Ok? {
      var layers := Topology(inputCount, hiddenLayerSize.value, outputCount);
      var wl := match weights
        case Some(v) => FillWeightsAsWritten(ZeroWeights(layers), v)
        case None => Ok(SampledWeights(layers, randomValue, 0, minWeight, maxWeight));
      var bl := match biases
        case Some(v) => FillBiasesAsWritten(ZeroBiases(layers), v)
        case None => Ok(SampledBiases(layers, randomValue, WeightDrawsAtInit(layers, weights), minBias, maxBias));
      var w := InitialWeights(layers, weights, randomValue, minWeight, maxWeight);
      var b := InitialBiases(layers, weights, biases, randomValue, minBias, maxBias);
      assert legacy == if wl.Err? || bl.Err? then Err(IndexOutOfRange)
                       else Ok(Initialized(layers, wl.value, bl.value, randomValue, activationFunc.GetOr(Linear)));
      assert intended == Ok(Initialized(layers, w, b, randomValue, activationFunc.GetOr(Linear)));
      if weights.Some? {
        FillWeightsAsWrittenAgrees(ZeroWeights(layers), weights.value);
      }
      if biases.Some? {
        FillBiasesAsWrittenAgrees(ZeroBiases(layers), biases.value);
      }
      assert wl.value == w && bl.value == b;
    }
  }

  /** The `Weights` setter as written. */
  ghost function SetWeightsAsWritten(net: Network, value: Option<Tensor3>): (r: Result<Network>)
    ensures net.Uninitialized? ==> r == Err(NotInitialized)
    ensures net.Initialized? && value.None? ==> r == Err(NullArg)
    ensures net.Initialized? && value.Some? ==> (r == Err(IndexOutOfRange) <==> WeightFault(net.weights, value.value))
    ensures r.Ok? ==> && net.Initialized? && r.value.Initialized? && r.value == net.(weights := r.value.weights)
                      && SameShape3(r.value.weights, net.weights)
  {
    if net.Uninitialized? then Err(NotInitialized)
    else if value.None? then Err(NullArg)
    else match FillWeightsAsWritten(net.weights, value.value)
      case Err(e) => Err(e)
      case Ok(w) => Ok(net.(weights := w))
  }

  /** The as-written `Weights` setter agrees with the intended one except
      where it faults. */
  lemma SetWeightsAsWrittenAgrees(net: Network, value: Option<Tensor3>)
    ensures var legacy := SetWeightsAsWritten(net, value);
            (legacy.Ok? || legacy.error != IndexOutOfRange) ==> legacy == SetWeights(net, value)
  {
    if net.Initialized? && value.Some? {
      FillWeightsAsWrittenAgrees(net.weights, value.value);
    }
  }

  /** The `Biases` setter as written. */
  ghost function SetBiasesAsWritten(net: Network, value: Option<Tensor2>): (r: Result<Network>)
    ensures net.Uninitialized? ==> r == Err(NotInitialized)
    ensures net.Initialized? && value.None? ==> r == Err(NullArg)
    ensures net.Initialized? && value.Some? ==> (r == Err(IndexOutOfRange) <==> SetBiasFault(net.biases, value.value))
    ensures r.Ok? ==> && net.Initialized? && r.value.Initialized? && r.value == net.(biases := r.value.biases)
                      && SameShape2(r.value.biases, net.biases)
  {
    if net.Uninitialized? then Err(NotInitialized)
    else if value.None? then Err(NullArg)
    else if SetBiasFault(net.biases, value.value) then Err(IndexOutOfRange)
    else Ok(net.(biases := seq(|net.biases|, x requires 0 <= x < |net.biases| =>
                             seq(|net.biases[x]|, y requires 0 <= y < |net.biases[x]| =>
                               Settle(SetBiasCellAsWritten(value.value, x, y), net.biases[x][y])))))
  }

  /** The as-written `Biases` setter agrees with the intended one except
      where it faults. */
  lemma SetBiasesAsWrittenAgrees(net: Network, value: Option<Tensor2>)
    ensures var legacy := SetBiasesAsWritten(net, value);
            (legacy.Ok? || legacy.error != IndexOutOfRange) ==> legacy == SetBiases(net, value)
  {
    if net.Initialized? && value.Some? && !SetBiasFault(net.biases, value.value) {
      var a := SetBiasesAsWritten(net, value).value.biases;
      var b := OverlayBiases(net.biases, value.value);
      forall x | 0 <= x < |net.biases|
        ensures a[x] == b[x]
      {
        forall y | 0 <= y < |net.biases[x]|
          ensures a[x][y] == b[x][y]
        {
          assert !(InBounds2(net.biases, x, y) && SetBiasCellAsWritten(value.value, x, y).Fault?);
        }
      }
      assert a == b;
    }
  }

  /** Input that shows the weight guard's off-by-one: one input, one output,
      a supplied weight tensor whose only row is empty. The guard does not
      skip the missing cell, the copy faults; the intended copy keeps the
      default 0. */
  lemma ShortWeightRowFaults()
    ensures InitAsWritten(1, Some([]), 1, -10.0, 10.0, -1.0, 1.0, Some([[[]]]), None,
                          (k: nat, lo: real, hi: real) => 0.0, None) == Err(IndexOutOfRange)
    ensures var r := Init(1, Some([]), 1, -10.0, 10.0, -1.0, 1.0, Some([[[]]]), None,
                          (k: nat, lo: real, hi: real) => 0.0, None);
            r.Ok? && r.value.weights == [[[0.0]]]
  {
    var layers := Topology(1, [], 1);
    assert layers == [1, 1];
    assert InBounds3(ZeroWeights(layers), 0, 0, 0) && WeightCellAsWritten([[[]]], 0, 0, 0).Fault?;
    var w := OverlayWeights(ZeroWeights(layers), [[[]]]);
    assert w[0][0][0] == 0.0;
    assert w[0][0] == [0.0];
    assert w[0] == [[0.0]];
  }

  /** Input that shows the bias guard's wrong comparison: a supplied bias
      tensor with no rows. The guard checks `x` against the network's own
      row count, so the copy reads a row that is not there; the intended
      copy keeps the default 0. */
  lemma MissingBiasRowFaults()
    ensures InitAsWritten(1, Some([]), 1, -10.0, 10.0, -1.0, 1.0, None, Some([]),
                          (k: nat, lo: real, hi: real) => 0.0, None) == Err(IndexOutOfRange)
    ensures var r := Init(1, Some([]), 1, -10.0, 10.0, -1.0, 1.0, None, Some([]),
                          (k: nat, lo: real, hi: real) => 0.0, None);
            r.Ok? && r.value.biases == [[0.0]]
  {
    var layers := Topology(1, [], 1);
    assert layers == [1, 1];
    assert InBounds2(ZeroBiases(layers), 0, 0) && InitBiasCellAsWritten(1, [], 0, 0).Fault?;
    var b := OverlayBiases(ZeroBiases(layers), []);
    assert b[0][0] == 0.0;
    assert b[0] == [0.0];
  }

  /** Input that shows the `Biases` setter's off-by-one: an empty supplied
      row. The setter faults; the intended setter keeps the old bias. */
  lemma ShortBiasRowSetterFaults(net: Network)
    requires net.Initialized? && net.layers == [1, 1] && Valid(net)
    ensures SetBiasesAsWritten(net, Some([[]])) == Err(IndexOutOfRange)
    ensures SetBiases(net, Some([[]])) == Ok(net)
  {
    assert InBounds2(net.biases, 0, 0) && SetBiasCellAsWritten([[]], 0, 0).Fault?;
    var b := OverlayBiases(net.biases, [[]]);
    assert b[0] == net.biases[0];
    assert b == net.biases;
  }
}
