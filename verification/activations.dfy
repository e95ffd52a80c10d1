/** The scalar activation functions offered to networks. Sigmoid and tanh
    need the exponential and are not part of this model. */
module Activations {

  /** A per-neuron transform, applied after the bias is added. */
  type Activation = real -> real

  /** 1 for a positive input, 0 otherwise. */
  function Step(input: real): (r: real)
    ensures r == 0.0 || r == 1.0
    ensures r == 1.0 <==> input > 0.0
  {
    if input > 0.0 then 1.0 else 0.0
  }

  /** The identity; also the activation a network gets when none is given. */
  function Linear(input: real): (r: real)
    ensures r == input
  {
    input
  }

  /** The larger of the input and 0. */
  function ReLu(input: real): (r: real)
    ensures r >= 0.0 && r >= input
    ensures r == input || r == 0.0
  {
    if input > 0.0 then input else 0.0
  }

  /** ReLu passes an input through exactly where Step fires. */
  lemma ReLuIsInputTimesStep(input: real)
    ensures ReLu(input) == input * Step(input)
  {
  }

  /** Step depends only on the sign ReLu keeps. */
  lemma StepAfterReLu(input: real)
    ensures Step(ReLu(input)) == Step(input)
    ensures ReLu(ReLu(input)) == ReLu(input)
  {
  }
}
