/** Topology (layer widths) and the nested tensors of a fully connected
    feed-forward network, with the shape predicates that tie them together. */
module Tensors {

  type Vector = seq<real>
  /** `m[from][to]`: the weights of one layer boundary. */
  type Matrix = seq<Vector>
  /** `w[layer][from][to]`: one matrix per layer boundary. */
  type Tensor3 = seq<Matrix>
  /** `b[layer][neuron]`: one bias row per non-input layer. */
  type Tensor2 = seq<Vector>

  /** The layer array of a network that construction can produce: input
      width, hidden widths, output width, none of them negative. */
  predicate ValidLayers(layers: seq<int>)
  {
    |layers| >= 2 && forall i :: 0 <= i < |layers| ==> layers[i] >= 0
  }

  /** Boundary `x` of the weight tensor is `layers[x] x layers[x+1]`. */
  predicate WeightsShaped(layers: seq<int>, w: Tensor3)
  {
    && |layers| >= 1
    && |w| == |layers| - 1
    && (forall x :: 0 <= x < |w| ==> |w[x]| == layers[x])
    && (forall x, y :: 0 <= x < |w| && 0 <= y < |w[x]| ==> |w[x][y]| == layers[x + 1])
  }

  /** Row `x` of the bias tensor has one entry per neuron of layer `x+1`. */
  predicate BiasesShaped(layers: seq<int>, b: Tensor2)
  {
    && |layers| >= 1
    && |b| == |layers| - 1
    && (forall x :: 0 <= x < |b| ==> |b[x]| == layers[x + 1])
  }

  /** Two weight tensors have the same jagged shape. */
  predicate SameShape3(a: Tensor3, b: Tensor3)
  {
    && |a| == |b|
    && (forall x :: 0 <= x < |a| ==> |a[x]| == |b[x]|)
    && (forall x, y :: 0 <= x < |a| && 0 <= y < |a[x]| ==> |a[x][y]| == |b[x][y]|)
  }

  /** Two bias tensors have the same jagged shape. */
  predicate SameShape2(a: Tensor2, b: Tensor2)
  {
    |a| == |b| && forall x :: 0 <= x < |a| ==> |a[x]| == |b[x]|
  }

  /** The layer array built from the constructor's three width arguments. */
  function Topology(inputCount: int, hidden: seq<int>, outputCount: int): seq<int>
  {
    [inputCount] + hidden + [outputCount]
  }

  /** The layer array as `Init` builds it: allocate, set both ends, then copy
      the hidden widths one by one. */
  method BuildLayers(inputCount: int, hidden: seq<int>, outputCount: int) returns (layers: seq<int>)
    ensures layers == Topology(inputCount, hidden, outputCount)
    ensures |layers| == |hidden| + 2
    ensures layers[0] == inputCount && layers[|layers| - 1] == outputCount
    ensures layers[1..|layers| - 1] == hidden
  {
    layers := seq(|hidden| + 2, _ => 0);
    layers := layers[0 := inputCount];
    layers := layers[|layers| - 1 := outputCount];
    var i := 0;
    while i < |hidden|
      invariant 0 <= i <= |hidden|
      invariant |layers| == |hidden| + 2
      invariant layers[0] == inputCount && layers[|layers| - 1] == outputCount
      invariant forall k :: 0 <= k < i ==> layers[k + 1] == hidden[k]
    {
      layers := layers[i + 1 := hidden[i]];
      i := i + 1;
    }
    assert layers[1..|layers| - 1] == hidden;
  }

  /** Weights of boundaries `0 .. x-1`: the number of sampler draws that
      precede boundary `x` when weights are filled in `x, y, z` order. */
  function WeightsBefore(layers: seq<int>, x: nat): (n: nat)
    requires ValidLayers(layers) && x <= |layers| - 1
  {
    if x == 0 then 0 else WeightsBefore(layers, x - 1) + layers[x - 1] * layers[x]
  }

  /** Total number of weights of a network with this topology. */
  function WeightCount(layers: seq<int>): nat
    requires ValidLayers(layers)
  {
    WeightsBefore(layers, |layers| - 1)
  }

  /** Position of weight `(x, y, z)` in the fill order of the triple loop. */
  function WeightDraw(layers: seq<int>, x: nat, y: nat, z: nat): nat
    requires ValidLayers(layers) && x < |layers| - 1
  {
    WeightsBefore(layers, x) + y * layers[x + 1] + z
  }

  /** Biases of rows `0 .. x-1`. */
  function BiasesBefore(layers: seq<int>, x: nat): (n: nat)
    requires ValidLayers(layers) && x <= |layers| - 1
  {
    if x == 0 then 0 else BiasesBefore(layers, x - 1) + layers[x]
  }

  /** Total number of biases of a network with this topology. */
  function BiasCount(layers: seq<int>): nat
    requires ValidLayers(layers)
  {
    BiasesBefore(layers, |layers| - 1)
  }

  /** Position of bias `(x, y)` in the fill order of the double loop. */
  function BiasDraw(layers: seq<int>, x: nat, y: nat): nat
    requires ValidLayers(layers) && x < |layers| - 1
  {
    BiasesBefore(layers, x) + y
  }

  lemma {:induction false} WeightsBeforeMonotone(layers: seq<int>, a: nat, b: nat)
    requires ValidLayers(layers) && a <= b <= |layers| - 1
    ensures WeightsBefore(layers, a) <= WeightsBefore(layers, b)
    decreases b - a
  {
    if a < b {
      WeightsBeforeMonotone(layers, a, b - 1);
      assert layers[b - 1] * layers[b] >= 0;
    }
  }

  lemma {:induction false} BiasesBeforeMonotone(layers: seq<int>, a: nat, b: nat)
    requires ValidLayers(layers) && a <= b <= |layers| - 1
    ensures BiasesBefore(layers, a) <= BiasesBefore(layers, b)
    decreases b - a
  {
    if a < b {
      BiasesBeforeMonotone(layers, a, b - 1);
    }
  }

  lemma MulMonotone(a: nat, b: nat, c: nat)
    requires a <= b
    ensures a * c <= b * c
  {
  }

  /** The row-major position of a cell determines the cell. */
  lemma RowMajorInjective(cols: nat, y1: nat, z1: nat, y2: nat, z2: nat)
    requires z1 < cols && z2 < cols
    requires y1 * cols + z1 == y2 * cols + z2
    ensures y1 == y2 && z1 == z2
  {
    if y1 < y2 {
      MulMonotone(y1 + 1, y2, cols);
    } else if y2 < y1 {
      MulMonotone(y2 + 1, y1, cols);
    }
  }

  /** Weight `(x, y, z)` is drawn after every weight of the earlier
      boundaries and before every weight of the later ones. */
  lemma WeightDrawInBoundary(layers: seq<int>, x: nat, y: nat, z: nat)
    requires ValidLayers(layers)
    requires x < |layers| - 1 && y < layers[x] && z < layers[x + 1]
    ensures WeightsBefore(layers, x) <= WeightDraw(layers, x, y, z) < WeightsBefore(layers, x + 1)
  {
    var cols: nat := layers[x + 1];
    MulMonotone(y + 1, layers[x], cols);
    assert y * cols + z < (y + 1) * cols;
  }

  /** Every weight draws a distinct sampler value: the fill order numbers the
      cells `0 .. WeightCount-1` without repetition. */
  lemma WeightDrawsDistinct(layers: seq<int>, x1: nat, y1: nat, z1: nat, x2: nat, y2: nat, z2: nat)
    requires ValidLayers(layers)
    requires x1 < |layers| - 1 && y1 < layers[x1] && z1 < layers[x1 + 1]
    requires x2 < |layers| - 1 && y2 < layers[x2] && z2 < layers[x2 + 1]
    ensures WeightDraw(layers, x1, y1, z1) < WeightCount(layers)
    ensures WeightDraw(layers, x1, y1, z1) == WeightDraw(layers, x2, y2, z2) <==> x1 == x2 && y1 == y2 && z1 == z2
  {
    WeightDrawInBoundary(layers, x1, y1, z1);
    WeightDrawInBoundary(layers, x2, y2, z2);
    WeightsBeforeMonotone(layers, x1 + 1, |layers| - 1);
    if x1 < x2 {
      WeightsBeforeMonotone(layers, x1 + 1, x2);
    } else if x2 < x1 {
      WeightsBeforeMonotone(layers, x2 + 1, x1);
    } else if WeightDraw(layers, x1, y1, z1) == WeightDraw(layers, x2, y2, z2) {
      RowMajorInjective(layers[x1 + 1], y1, z1, y2, z2);
    }
  }

  /** Every bias draws a distinct sampler value, numbered `0 .. BiasCount-1`. */
  lemma BiasDrawsDistinct(layers: seq<int>, x1: nat, y1: nat, x2: nat, y2: nat)
    requires ValidLayers(layers)
    requires x1 < |layers| - 1 && y1 < layers[x1 + 1]
    requires x2 < |layers| - 1 && y2 < layers[x2 + 1]
    ensures BiasDraw(layers, x1, y1) < BiasCount(layers)
    ensures BiasDraw(layers, x1, y1) == BiasDraw(layers, x2, y2) <==> x1 == x2 && y1 == y2
  {
    BiasesBeforeMonotone(layers, x1 + 1, |layers| - 1);
    if x1 < x2 {
      BiasesBeforeMonotone(layers, x1 + 1, x2);
    } else if x2 < x1 {
      BiasesBeforeMonotone(layers, x2 + 1, x1);
    }
  }
}
