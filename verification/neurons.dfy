/**
  A single sigmoid unit (`MultiInputNeuron`, Neuron.cs): a weight vector, a
  bias and the output of the last forward pass, which the backward pass reads
  instead of recomputing it.

  The activation is a parameter `sigmoid`; the code's `1/(1+e^-x)` has no
  exact counterpart over the reals, and nothing below depends on its shape.
 */
module Neurons {
  import opened Errors
  import opened Vectors

  datatype Neuron = Neuron(weights: Vector, bias: real, lastOutput: real)

  /** A random draw in `[0, 1)` scaled to the initial range `[-0.1, 0.1)`. */
  function InitialValue(draw: real): real
  {
    (draw * 2.0 - 1.0) * 0.1
  }

  /**
    `new MultiInputNeuron(inputSize)`: `inputSize` weights, then the bias, each
    taken from successive draws of the random source, so all start in
    `[-0.1, 0.1)`; the cached output starts at the default 0.
   */
  method New(inputSize: nat, draws: seq<real>) returns (n: Neuron)
    requires |draws| > inputSize
    requires forall k :: 0 <= k < |draws| ==> 0.0 <= draws[k] < 1.0
    ensures |n.weights| == inputSize
    ensures forall i :: 0 <= i < inputSize ==> n.weights[i] == InitialValue(draws[i])
    ensures forall i :: 0 <= i < inputSize ==> -0.1 <= n.weights[i] < 0.1
    ensures n.bias == InitialValue(draws[inputSize]) && -0.1 <= n.bias < 0.1
    ensures n.lastOutput == 0.0
  {
    var weights := Zeros(inputSize);
    var i := 0;
    while i < inputSize
      invariant 0 <= i <= inputSize
      invariant |weights| == inputSize
      invariant forall k :: 0 <= k < i ==> weights[k] == InitialValue(draws[k])
      invariant forall k :: 0 <= k < i ==> -0.1 <= weights[k] < 0.1
    {
      weights := weights[i := InitialValue(draws[i])];
      i := i + 1;
    }
    n := Neuron(weights, InitialValue(draws[inputSize]), 0.0);
  }

  /**
    The sigmoid's derivative written in terms of the sigmoid's own output `o`:
    `o * (1 - o)`. For an output in `[0, 1]` it lies in `[0, 1/4]`.
   */
  function SigmoidDerivative(output: real): (d: real)
    ensures 0.0 <= output <= 1.0 ==> 0.0 <= d <= 0.25
  {
    DerivativeBounds(output);
    output * (1.0 - output)
  }

  lemma DerivativeBounds(o: real)
    ensures 0.0 <= o <= 1.0 ==> 0.0 <= o * (1.0 - o) <= 0.25
  {
    assert o * (1.0 - o) == 0.25 - (o - 0.5) * (o - 0.5);
    assert (o - 0.5) * (o - 0.5) >= 0.0;
    assert o * (1.0 - o) == o - o * o;
    if 0.0 <= o <= 1.0 {
      assert o * o <= o * 1.0;
    }
  }

  /** The local gradient: the incoming error scaled by the activation's derivative. */
  function Delta(error: real, output: real): real
  {
    error * SigmoidDerivative(output)
  }

  /** `w[i] += c * x[i]` for every `i`. */
  function Step(w: Vector, x: Vector, c: real): (r: Vector)
    requires |w| == |x|
    ensures |r| == |w|
    ensures forall i :: 0 <= i < |r| ==> r[i] == w[i] + c * x[i]
  {
    seq(|w|, i requires 0 <= i < |w| => w[i] + c * x[i])
  }

  /** `c * w[i]` for every `i`. */
  function Scale(w: Vector, c: real): (r: Vector)
    ensures |r| == |w|
    ensures forall i :: 0 <= i < |r| ==> r[i] == c * w[i]
  {
    seq(|w|, i requires 0 <= i < |w| => c * w[i])
  }

  /**
    `FeedForward`: throws `ArgumentException` unless there is one input per
    weight; otherwise returns `sigmoid(w . x + bias)` and caches it, leaving
    the weights and the bias alone.
   */
  function FeedForward(n: Neuron, inputs: Vector, sigmoid: real -> real): (r: Result<(Neuron, real)>)
    ensures r.Err? <==> |inputs| != |n.weights|
    ensures r.Err? ==> r.error == ArgumentError
    ensures r.Ok? ==> r.value.1 == sigmoid(Dot(n.weights, inputs) + n.bias)
    ensures r.Ok? ==> r.value.0.weights == n.weights && r.value.0.bias == n.bias
    ensures r.Ok? ==> r.value.0.lastOutput == r.value.1
  {
    if |inputs| != |n.weights| then Err(ArgumentError)
    else
      var output := sigmoid(Dot(n.weights, inputs) + n.bias);
      Ok((n.(lastOutput := output), output))
  }

  /**
    Two forward passes on the same input with nothing in between give the same
    output and leave the neuron in the same state: the forward pass has no
    hidden effect beyond the cache.
   */
  lemma FeedForwardIdempotent(n: Neuron, inputs: Vector, sigmoid: real -> real)
    requires FeedForward(n, inputs, sigmoid).Ok?
    ensures FeedForward(FeedForward(n, inputs, sigmoid).value.0, inputs, sigmoid)
            == FeedForward(n, inputs, sigmoid)
  {
  }

  /**
    `Backpropagate`: throws `ArgumentException` unless there is one input per
    weight. Otherwise, with `delta` computed from the CACHED output, returns the
    error share `delta * w[i]` of every input, taken from the weights before
    the update, and moves each weight by `lr * delta * x[i]` and the bias by
    `lr * delta`. The cache is left as it was.
   */
  function Backpropagate(n: Neuron, inputs: Vector, error: real, learningRate: real): (r: Result<(Neuron, Vector)>)
    ensures r.Err? <==> |inputs| != |n.weights|
    ensures r.Err? ==> r.error == ArgumentError
    ensures r.Ok? ==> |r.value.1| == |inputs| && |r.value.0.weights| == |n.weights|
    ensures r.Ok? ==> forall i :: 0 <= i < |inputs| ==>
              r.value.1[i] == Delta(error, n.lastOutput) * n.weights[i]
    ensures r.Ok? ==> forall i :: 0 <= i < |inputs| ==>
              r.value.0.weights[i] == n.weights[i] + learningRate * Delta(error, n.lastOutput) * inputs[i]
    ensures r.Ok? ==> r.value.0.bias == n.bias + learningRate * Delta(error, n.lastOutput)
    ensures r.Ok? ==> r.value.0.lastOutput == n.lastOutput
  {
    if |inputs| != |n.weights| then Err(ArgumentError)
    else
      var delta := Delta(error, n.lastOutput);
      var updated := n.(weights := Step(n.weights, inputs, learningRate * delta),
                        bias := n.bias + learningRate * delta);
      Ok((updated, Scale(n.weights, delta)))
  }

  /**
    The two loops of `Backpropagate` as written: the error shares are written
    into a fresh vector first, and only then are the weights overwritten in
    place. The result is the one `Backpropagate` describes, so every error
    share uses the weight as it was before the update.
   */
  method BackpropagateLoops(n: Neuron, inputs: Vector, error: real, learningRate: real)
    returns (r: Result<(Neuron, Vector)>)
    ensures r == Backpropagate(n, inputs, error, learningRate)
  {
    if |inputs| != |n.weights| {
      return Err(ArgumentError);
    }
    var delta := error * SigmoidDerivative(n.lastOutput);
    var previousLayerErrors := Zeros(|inputs|);
    var i := 0;
    while i < |n.weights|
      invariant 0 <= i <= |n.weights|
      invariant |previousLayerErrors| == |inputs|
      invariant forall k :: 0 <= k < i ==> previousLayerErrors[k] == delta * n.weights[k]
    {
      previousLayerErrors := previousLayerErrors[i := delta * n.weights[i]];
      i := i + 1;
    }
    // `learningRate * delta * inputs[i]` associates as `(learningRate * delta) * inputs[i]`
    var rate := learningRate * delta;
    var weights := n.weights;
    i := 0;
    while i < |weights|
      invariant 0 <= i <= |weights| == |n.weights|
      invariant forall k :: 0 <= k < i ==> weights[k] == n.weights[k] + rate * inputs[k]
      invariant forall k :: i <= k < |weights| ==> weights[k] == n.weights[k]
    {
      weights := weights[i := weights[i] + rate * inputs[i]];
      i := i + 1;
    }
    var bias := n.bias + rate;
    assert delta == Delta(error, n.lastOutput);
    r := Ok((n.(weights := weights, bias := bias), previousLayerErrors));
    var expected := Backpropagate(n, inputs, error, learningRate).value;
    forall k | 0 <= k < |inputs|
      ensures weights[k] == expected.0.weights[k]
      ensures previousLayerErrors[k] == expected.1[k]
    {
    }
    assert expected.1 == previousLayerErrors;
    assert expected.0 == n.(weights := weights, bias := bias);
  }

  /**
    When the local gradient vanishes (no error, or a cached output of exactly
    0 or 1, which includes a neuron never fed forward) the backward pass
    changes nothing and passes back only zeros.
   */
  lemma NoUpdateWhenDeltaVanishes(n: Neuron, inputs: Vector, error: real, learningRate: real)
    requires |inputs| == |n.weights|
    requires error == 0.0 || n.lastOutput == 0.0 || n.lastOutput == 1.0
    ensures Backpropagate(n, inputs, error, learningRate) == Ok((n, Zeros(|inputs|)))
  {
    DeltaVanishes(error, n.lastOutput);
    var delta := Delta(error, n.lastOutput);
    var r := Backpropagate(n, inputs, error, learningRate).value;
    forall i | 0 <= i < |inputs|
      ensures r.0.weights[i] == n.weights[i] && r.1[i] == 0.0
    {
      assert r.0.weights[i] == n.weights[i] + learningRate * delta * inputs[i];
      assert learningRate * delta == 0.0;
      assert r.1[i] == delta * n.weights[i];
    }
    assert learningRate * delta == 0.0;
    assert r.0.weights == n.weights && r.0.bias == n.bias;
    assert r.0 == n;
    assert r.1 == Zeros(|inputs|);
  }

  /** No error, or a saturated output, leaves no local gradient. */
  lemma DeltaVanishes(error: real, output: real)
    requires error == 0.0 || output == 0.0 || output == 1.0
    ensures Delta(error, output) == 0.0
  {
    if error != 0.0 {
      assert output * (1.0 - output) == 0.0;
    }
  }
}
