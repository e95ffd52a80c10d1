/** Forward evaluation (`GetOutput`): the functional layer recurrence, the
    error paths in the source's order, the properties of the pass, and an
    imperative version with the source's accumulation loops. */
module Forward {
  import opened Errors
  import opened Tensors
  import opened Activations
  import opened Network

  /** `prev[0]*w[0][z] + ... + prev[n-1]*w[n-1][z]`, accumulated from the
      first source neuron upwards. */
  function WeightedSum(prev: Vector, w: Matrix, z: nat, n: nat): real
    requires n <= |prev| && n <= |w|
    requires forall y :: 0 <= y < n ==> z < |w[y]|
  {
    if n == 0 then 0.0 else WeightedSum(prev, w, z, n - 1) + prev[n - 1] * w[n - 1][z]
  }

  /** A boundary matrix connects every neuron of `prev` to every neuron that
      has a bias in `b`. */
  predicate LayerFits(prev: Vector, w: Matrix, b: Vector)
  {
    |w| == |prev| && forall y :: 0 <= y < |w| ==> |w[y]| == |b|
  }

  /** One boundary of the pass: each destination neuron is the activation of
      its weighted input sum plus its bias. */
  function Layer(prev: Vector, w: Matrix, b: Vector, act: Activation): (next: Vector)
    requires LayerFits(prev, w, b)
    ensures |next| == |b|
    ensures forall z :: 0 <= z < |b| ==> next[z] == act(WeightedSum(prev, w, z, |prev|) + b[z])
  {
    seq(|b|, z requires 0 <= z < |b| => act(WeightedSum(prev, w, z, |prev|) + b[z]))
  }

  /** The values of layer `x` for these inputs: layer 0 is the first
      `layers[0]` inputs, every later layer is computed from the one before. */
  function LayerValues(net: Network, inputs: Vector, x: nat): (v: Vector)
    requires net.Initialized? && Valid(net) && |inputs| >= net.layers[0] && x < |net.layers|
    ensures |v| == net.layers[x]
  {
    if x == 0 then inputs[..net.layers[0]]
    else Layer(LayerValues(net, inputs, x - 1), net.weights[x - 1], net.biases[x - 1], net.activation)
  }

  /** `GetOutput`: null inputs are refused before the initialization check,
      too few inputs after it; otherwise the last layer's values. */
  function GetOutput(net: Network, inputs: Option<Vector>): (r: Result<Vector>)
    requires Valid(net)
    ensures inputs.None? <==> r == Err(NullArg)
    ensures inputs.Some? && net.Uninitialized? <==> r == Err(NotInitialized)
    ensures (r.Err? && r.error.InvalidInput?) <==>
              (inputs.Some? && net.Initialized? && |inputs.value| < net.layers[0])
    ensures r.Err? && r.error.InvalidInput? ==>
              r.error.given == |inputs.value| && r.error.required == net.layers[0]
    ensures r.Ok? ==> |r.value| == net.layers[|net.layers| - 1]
  {
    match inputs
    case None => Err(NullArg)
    case Some(v) =>
      if net.Uninitialized? then Err(NotInitialized)
      else if |v| < net.layers[0] then Err(InvalidInput(|v|, net.layers[0]))
      else Ok(LayerValues(net, v, |net.layers| - 1))
  }

  /** Evaluation succeeds exactly when enough inputs are given to an
      initialized network. */
  lemma GetOutputSucceeds(net: Network, inputs: Vector)
    requires Valid(net)
    ensures GetOutput(net, Some(inputs)).Ok? <==> net.Initialized? && |inputs| >= net.layers[0]
  {
  }

  /** Only the first `layers[0]` inputs matter. */
  lemma {:induction false} LayerValuesUseInputPrefix(net: Network, inputs: Vector, x: nat)
    requires net.Initialized? && Valid(net) && |inputs| >= net.layers[0] && x < |net.layers|
    ensures LayerValues(net, inputs, x) == LayerValues(net, inputs[..net.layers[0]], x)
  {
    if x > 0 {
      LayerValuesUseInputPrefix(net, inputs, x - 1);
    } else {
      assert inputs[..net.layers[0]][..net.layers[0]] == inputs[..net.layers[0]];
    }
  }

  /** Trailing extra inputs are ignored. */
  lemma ExtraInputsIgnored(net: Network, inputs: Vector)
    requires net.Initialized? && Valid(net) && |inputs| >= net.layers[0]
    ensures GetOutput(net, Some(inputs)) == GetOutput(net, Some(inputs[..net.layers[0]]))
  {
    LayerValuesUseInputPrefix(net, inputs, |net.layers| - 1);
  }

  /** A weighted sum over all-zero weights is zero. */
  lemma {:induction false} WeightedSumOfZeroWeights(prev: Vector, w: Matrix, z: nat, n: nat)
    requires n <= |prev| && n <= |w|
    requires forall y :: 0 <= y < n ==> z < |w[y]| && w[y][z] == 0.0
    ensures WeightedSum(prev, w, z, n) == 0.0
  {
    if n > 0 {
      WeightedSumOfZeroWeights(prev, w, z, n - 1);
    }
  }

  /** Every tensor cell is zero. */
  ghost predicate AllZero(net: Network)
    requires net.Initialized?
  {
    && (forall x, y, z :: InBounds3(net.weights, x, y, z) ==> net.weights[x][y][z] == 0.0)
    && (forall x, y :: InBounds2(net.biases, x, y) ==> net.biases[x][y] == 0.0)
  }

  /** With zero weights and biases every non-input layer is `act(0)`. */
  lemma ZeroNetworkLayer(net: Network, inputs: Vector, x: nat)
    requires net.Initialized? && Valid(net) && |inputs| >= net.layers[0]
    requires 0 < x < |net.layers| && AllZero(net) && net.activation(0.0) == 0.0
    ensures forall z :: 0 <= z < net.layers[x] ==> LayerValues(net, inputs, x)[z] == 0.0
  {
    var prev := LayerValues(net, inputs, x - 1);
    var w := net.weights[x - 1];
    forall z | 0 <= z < net.layers[x]
      ensures LayerValues(net, inputs, x)[z] == 0.0
    {
      forall y | 0 <= y < |w|
        ensures z < |w[y]| && w[y][z] == 0.0
      {
        assert InBounds3(net.weights, x - 1, y, z);
      }
      WeightedSumOfZeroWeights(prev, w, z, |prev|);
      assert InBounds2(net.biases, x - 1, z);
    }
  }

  /** With all-zero weights and biases and an activation that fixes 0 (such
      as Linear or ReLu) the output is all zeros, whatever the inputs. */
  lemma ZeroNetworkOutputsZero(net: Network, inputs: Vector)
    requires net.Initialized? && Valid(net) && |inputs| >= net.layers[0]
    requires AllZero(net) && net.activation(0.0) == 0.0
    ensures GetOutput(net, Some(inputs)).Ok?
    ensures var out := GetOutput(net, Some(inputs)).value;
            |out| == net.layers[|net.layers| - 1] && forall z :: 0 <= z < |out| ==> out[z] == 0.0
  {
    ZeroNetworkLayer(net, inputs, |net.layers| - 1);
  }

  /** Every output lies in the range of the activation. */
  lemma OutputWithinActivationRange(net: Network, inputs: Vector, lo: real, hi: real)
    requires net.Initialized? && Valid(net) && |inputs| >= net.layers[0]
    requires forall v :: lo <= net.activation(v) <= hi
    ensures forall z :: 0 <= z < |GetOutput(net, Some(inputs)).value| ==>
              lo <= GetOutput(net, Some(inputs)).value[z] <= hi
  {
  }

  /** A network with the step activation only ever answers 0 or 1. */
  lemma StepNetworkOutputsBinary(net: Network, inputs: Vector)
    requires net.Initialized? && Valid(net) && |inputs| >= net.layers[0]
    requires net.activation == Step
    ensures forall z :: 0 <= z < |GetOutput(net, Some(inputs)).value| ==>
              GetOutput(net, Some(inputs)).value[z] in {0.0, 1.0}
  {
    OutputWithinActivationRange(net, inputs, 0.0, 1.0);
  }

  /** The worked example: topology [3, 2, 2, 1], every weight and bias 1,
      linear activation, inputs [1, 1, 1]. Each first hidden neuron is
      3 + 1 = 4, each second hidden neuron 4 + 4 + 1 = 9, the output
      9 + 9 + 1 = 19. */
  lemma OnesExample()
    ensures var net := Initialized([3, 2, 2, 1],
                                   [[[1.0, 1.0], [1.0, 1.0], [1.0, 1.0]], [[1.0, 1.0], [1.0, 1.0]], [[1.0], [1.0]]],
                                   [[1.0, 1.0], [1.0, 1.0], [1.0]],
                                   (k: nat, lo: real, hi: real) => 0.0, Linear);
            Valid(net) && GetOutput(net, Some([1.0, 1.0, 1.0])) == Ok([19.0])
  {
    var net := Initialized([3, 2, 2, 1],
                           [[[1.0, 1.0], [1.0, 1.0], [1.0, 1.0]], [[1.0, 1.0], [1.0, 1.0]], [[1.0], [1.0]]],
                           [[1.0, 1.0], [1.0, 1.0], [1.0]],
                           (k: nat, lo: real, hi: real) => 0.0, Linear);
    var inputs := [1.0, 1.0, 1.0];
    assert LayerValues(net, inputs, 0) == inputs;
    var h1 := LayerValues(net, inputs, 1);
    assert h1[0] == 4.0 && h1[1] == 4.0;
    assert h1 == [4.0, 4.0];
    var h2 := LayerValues(net, inputs, 2);
    assert h2 == Layer(h1, net.weights[1], net.biases[1], Linear);
    assert WeightedSum(h1, net.weights[1], 0, 1) == 4.0;
    assert WeightedSum(h1, net.weights[1], 1, 1) == 4.0;
    assert h2[0] == 9.0 && h2[1] == 9.0;
    assert h2 == [9.0, 9.0];
    var out := LayerValues(net, inputs, 3);
    assert out == Layer(h2, net.weights[2], net.biases[2], Linear);
    assert WeightedSum(h2, net.weights[2], 0, 1) == 9.0;
    assert out[0] == 19.0;
    assert out == [19.0];
  }

  /** One boundary as the source computes it: the destination buffer starts
      at zero, every source neuron adds its weighted contribution to every
      destination neuron, then each destination gets its bias and the
      activation. */
  method ComputeLayer(prev: Vector, w: Matrix, b: Vector, act: Activation) returns (next: Vector)
    requires LayerFits(prev, w, b)
    ensures next == Layer(prev, w, b, act)
  {
    var acc := seq(|b|, _ => 0.0);
    var y := 0;
    while y < |w|
      invariant 0 <= y <= |w| && |acc| == |b|
      invariant forall k :: 0 <= k < |b| ==> acc[k] == WeightedSum(prev, w, k, y)
    {
      var z := 0;
      while z < |w[y]|
        invariant 0 <= z <= |w[y]| && |acc| == |b|
        invariant forall k :: 0 <= k < z ==> acc[k] == WeightedSum(prev, w, k, y + 1)
        invariant forall k :: z <= k < |b| ==> acc[k] == WeightedSum(prev, w, k, y)
      {
        acc := acc[z := acc[z] + prev[y] * w[y][z]];
        z := z + 1;
      }
      y := y + 1;
    }
    next := acc;
    var i := 0;
    while i < |next|
      invariant 0 <= i <= |next| && |next| == |b|
      invariant forall k :: 0 <= k < i ==> next[k] == act(WeightedSum(prev, w, k, |prev|) + b[k])
      invariant forall k :: i <= k < |b| ==> next[k] == WeightedSum(prev, w, k, |prev|)
    {
      next := next[i := act(next[i] + b[i])];
      i := i + 1;
    }
  }

  /** `GetOutput` with the source's loops: checks in the source's order, copy
      the first inputs, then compute the layers one boundary at a time. */
  method GetOutputLoop(net: Network, inputs: Option<Vector>) returns (r: Result<Vector>)
    requires Valid(net)
    ensures r == GetOutput(net, inputs)
  {
    if inputs.None? {
      return Err(NullArg);
    }
    if net.Uninitialized? {
      return Err(NotInitialized);
    }
    var given := inputs.value;
    if |given| < net.layers[0] {
      return Err(InvalidInput(|given|, net.layers[0]));
    }
    var current := given[..net.layers[0]];
    var x := 0;
    while x < |net.weights|
      invariant 0 <= x <= |net.weights|
      invariant current == LayerValues(net, given, x)
    {
      current := ComputeLayer(current, net.weights[x], net.biases[x], net.activation);
      x := x + 1;
    }
    return Ok(current);
  }
}
