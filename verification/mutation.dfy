/** The mutation operators `AddRandomNumbersToWeights` and
    `AddRandomNumbersToBiases`: every cell gets one sampled offset added in
    place. `start` is the number of draws the network's delegate has already
    served, so the offsets are the delegate's next values in fill order. */
module Mutation {
  import opened Errors
  import opened Tensors
  import opened Network
  import Forward
  import Activations

  /** Cellwise sum of two weight tensors of the same shape. */
  function AddWeightTensors(a: Tensor3, d: Tensor3): (s: Tensor3)
    requires SameShape3(a, d)
    ensures SameShape3(s, a)
    ensures forall x, y, z :: InBounds3(a, x, y, z) ==> s[x][y][z] == a[x][y][z] + d[x][y][z]
  {
    seq(|a|, x requires 0 <= x < |a| =>
      seq(|a[x]|, y requires 0 <= y < |a[x]| =>
        seq(|a[x][y]|, z requires 0 <= z < |a[x][y]| => a[x][y][z] + d[x][y][z])))
  }

  /** Cellwise sum of two bias tensors of the same shape. */
  function AddBiasTensors(a: Tensor2, d: Tensor2): (s: Tensor2)
    requires SameShape2(a, d)
    ensures SameShape2(s, a)
    ensures forall x, y :: InBounds2(a, x, y) ==> s[x][y] == a[x][y] + d[x][y]
  {
    seq(|a|, x requires 0 <= x < |a| =>
      seq(|a[x]|, y requires 0 <= y < |a[x]| => a[x][y] + d[x][y]))
  }

  /** Adds the delegate's next draws, one per weight in fill order. */
  function AddRandomNumbersToWeights(net: Network, minimumValue: real, maximumValue: real, start: nat): (r: Result<Network>)
    requires Valid(net)
    ensures r.Err? <==> net.Uninitialized?
    ensures r.Err? ==> r.error == NotInitialized
    ensures r.Ok? ==> && r.value.Initialized? && Valid(r.value)
                      && r.value == net.(weights := r.value.weights)
                      && SameShape3(r.value.weights, net.weights)
    ensures r.Ok? ==> forall x, y, z :: InBounds3(net.weights, x, y, z) ==>
              r.value.weights[x][y][z] ==
                net.weights[x][y][z] + net.sampler(start + WeightDraw(net.layers, x, y, z), minimumValue, maximumValue)
  {
    if net.Uninitialized? then Err(NotInitialized)
    else
      var offsets := SampledWeights(net.layers, net.sampler, start, minimumValue, maximumValue);
      Ok(net.(weights := AddWeightTensors(net.weights, offsets)))
  }

  /** Adds the delegate's next draws, one per bias in fill order. */
  function AddRandomNumbersToBiases(net: Network, minimumValue: real, maximumValue: real, start: nat): (r: Result<Network>)
    requires Valid(net)
    ensures r.Err? <==> net.Uninitialized?
    ensures r.Err? ==> r.error == NotInitialized
    ensures r.Ok? ==> && r.value.Initialized? && Valid(r.value)
                      && r.value == net.(biases := r.value.biases)
                      && SameShape2(r.value.biases, net.biases)
    ensures r.Ok? ==> forall x, y :: InBounds2(net.biases, x, y) ==>
              r.value.biases[x][y] ==
                net.biases[x][y] + net.sampler(start + BiasDraw(net.layers, x, y), minimumValue, maximumValue)
  {
    if net.Uninitialized? then Err(NotInitialized)
    else
      var offsets := SampledBiases(net.layers, net.sampler, start, minimumValue, maximumValue);
      Ok(net.(biases := AddBiasTensors(net.biases, offsets)))
  }

  /** With a bounded delegate each weight moves by at most the given bounds. */
  lemma WeightDrift(net: Network, minimumValue: real, maximumValue: real, start: nat)
    requires net.Initialized? && Valid(net) && RespectsBounds(net.sampler) && minimumValue <= maximumValue
    ensures forall x, y, z :: InBounds3(net.weights, x, y, z) ==>
              var w := AddRandomNumbersToWeights(net, minimumValue, maximumValue, start).value.weights[x][y][z];
              net.weights[x][y][z] + minimumValue <= w <= net.weights[x][y][z] + maximumValue
  {
    forall x, y, z | InBounds3(net.weights, x, y, z)
      ensures var w := AddRandomNumbersToWeights(net, minimumValue, maximumValue, start).value.weights[x][y][z];
              net.weights[x][y][z] + minimumValue <= w <= net.weights[x][y][z] + maximumValue
    {
      var k := start + WeightDraw(net.layers, x, y, z);
      assert minimumValue <= net.sampler(k, minimumValue, maximumValue) <= maximumValue;
    }
  }

  /** With a bounded delegate each bias moves by at most the given bounds. */
  lemma BiasDrift(net: Network, minimumValue: real, maximumValue: real, start: nat)
    requires net.Initialized? && Valid(net) && RespectsBounds(net.sampler) && minimumValue <= maximumValue
    ensures forall x, y :: InBounds2(net.biases, x, y) ==>
              var b := AddRandomNumbersToBiases(net, minimumValue, maximumValue, start).value.biases[x][y];
              net.biases[x][y] + minimumValue <= b <= net.biases[x][y] + maximumValue
  {
    forall x, y | InBounds2(net.biases, x, y)
      ensures var b := AddRandomNumbersToBiases(net, minimumValue, maximumValue, start).value.biases[x][y];
              net.biases[x][y] + minimumValue <= b <= net.biases[x][y] + maximumValue
    {
      var k := start + BiasDraw(net.layers, x, y);
      assert minimumValue <= net.sampler(k, minimumValue, maximumValue) <= maximumValue;
    }
  }

  /** A delegate that draws nothing but zeros leaves the weights as they were. */
  lemma ZeroDrawsKeepWeights(net: Network, minimumValue: real, maximumValue: real, start: nat)
    requires net.Initialized? && Valid(net)
    requires forall k: nat :: net.sampler(k, minimumValue, maximumValue) == 0.0
    ensures AddRandomNumbersToWeights(net, minimumValue, maximumValue, start) == Ok(net)
  {
    var w := AddRandomNumbersToWeights(net, minimumValue, maximumValue, start).value.weights;
    forall x, y | 0 <= x < |w| && 0 <= y < |w[x]|
      ensures w[x][y] == net.weights[x][y]
    {
      forall z | 0 <= z < |w[x][y]|
        ensures w[x][y][z] == net.weights[x][y][z]
      {
        assert InBounds3(net.weights, x, y, z);
        assert net.sampler(start + WeightDraw(net.layers, x, y, z), minimumValue, maximumValue) == 0.0;
      }
    }
    assert forall x :: 0 <= x < |w| ==> w[x] == net.weights[x];
    assert w == net.weights;
  }

  /** A delegate that draws nothing but zeros leaves the biases as they were. */
  lemma ZeroDrawsKeepBiases(net: Network, minimumValue: real, maximumValue: real, start: nat)
    requires net.Initialized? && Valid(net)
    requires forall k: nat :: net.sampler(k, minimumValue, maximumValue) == 0.0
    ensures AddRandomNumbersToBiases(net, minimumValue, maximumValue, start) == Ok(net)
  {
    var b := AddRandomNumbersToBiases(net, minimumValue, maximumValue, start).value.biases;
    forall x | 0 <= x < |b|
      ensures b[x] == net.biases[x]
    {
      forall y | 0 <= y < |b[x]|
        ensures b[x][y] == net.biases[x][y]
      {
        assert InBounds2(net.biases, x, y);
        assert net.sampler(start + BiasDraw(net.layers, x, y), minimumValue, maximumValue) == 0.0;
      }
    }
    assert b == net.biases;
  }

  /** Mutating with the degenerate bounds `[0, 0]`, under a delegate that
      draws 0 there (the default delegate and Unity's `Random.Range` both do),
      changes no parameter, so every evaluation answers as before. */
  lemma DegenerateMutationKeepsOutputs(net: Network, startW: nat, startB: nat, inputs: Option<Vector>)
    requires net.Initialized? && Valid(net)
    requires forall k: nat :: 0.0 <= net.sampler(k, 0.0, 0.0) <= 0.0
    ensures AddRandomNumbersToWeights(net, 0.0, 0.0, startW) == Ok(net)
    ensures AddRandomNumbersToBiases(net, 0.0, 0.0, startB) == Ok(net)
    ensures Forward.GetOutput(AddRandomNumbersToWeights(net, 0.0, 0.0, startW).value, inputs) == Forward.GetOutput(net, inputs)
  {
    forall k: nat
      ensures net.sampler(k, 0.0, 0.0) == 0.0
    {
      assert 0.0 <= net.sampler(k, 0.0, 0.0) <= 0.0;
    }
    ZeroDrawsKeepWeights(net, 0.0, 0.0, startW);
    ZeroDrawsKeepBiases(net, 0.0, 0.0, startB);
  }

  /** Both operators draw from the one network-wide delegate, so whichever
      runs second continues the draw count where the first stopped. In
      either order both succeed, and the topology, the tensor shapes and the
      delegates come out the same. */
  lemma MutationOrdersAgreeOnShape(net: Network, wMin: real, wMax: real, bMin: real, bMax: real, start: nat)
    requires net.Initialized? && Valid(net)
    ensures var a := AddRandomNumbersToBiases(AddRandomNumbersToWeights(net, wMin, wMax, start).value,
                                              bMin, bMax, start + WeightCount(net.layers));
            var b := AddRandomNumbersToWeights(AddRandomNumbersToBiases(net, bMin, bMax, start).value,
                                               wMin, wMax, start + BiasCount(net.layers));
            && a.Ok? && b.Ok?
            && a.value.layers == b.value.layers == net.layers
            && a.value.sampler == b.value.sampler && a.value.activation == b.value.activation
            && SameShape3(a.value.weights, b.value.weights) && SameShape2(a.value.biases, b.value.biases)
  {
  }

  /** The order of the two operators matters: on a 1-1 network of zeros whose
      delegate returns its draw number, weights first leaves the weight at 0
      (it takes draw 0), while biases first leaves it at 1 (it takes draw 1,
      after the bias). */
  lemma MutationOrderMatters()
    ensures var net: Network := Initialized([1, 1], [[[0.0]]], [[0.0]], (k: nat, lo: real, hi: real) => k as real, Activations.Linear);
            var a := AddRandomNumbersToBiases(AddRandomNumbersToWeights(net, 0.0, 1.0, 0).value,
                                              0.0, 1.0, WeightCount(net.layers));
            var b := AddRandomNumbersToWeights(AddRandomNumbersToBiases(net, 0.0, 1.0, 0).value,
                                               0.0, 1.0, BiasCount(net.layers));
            && Valid(net)
            && a.Ok? && b.Ok?
            && a.value.weights[0][0][0] == 0.0 && a.value.biases[0][0] == 1.0
            && b.value.weights[0][0][0] == 1.0 && b.value.biases[0][0] == 0.0
            && a != b
  {
    var net: Network := Initialized([1, 1], [[[0.0]]], [[0.0]], (k: nat, lo: real, hi: real) => k as real, Activations.Linear);
    assert WeightCount(net.layers) == 1 && BiasCount(net.layers) == 1;
    assert WeightDraw(net.layers, 0, 0, 0) == 0 && BiasDraw(net.layers, 0, 0) == 0;
    assert InBounds3(net.weights, 0, 0, 0) && InBounds2(net.biases, 0, 0);
  }
}
