/**
  The array-of-neurons layer (Layer.cs): `neuronCount` independent neurons that
  all read the same input vector. The backward pass hands each neuron its own
  error and sums the neurons' error shares into one vector for the previous
  layer.
 */
module Layers {
  import opened Errors
  import opened Vectors
  import Neurons

  datatype Layer = Layer(neurons: seq<Neurons.Neuron>)

  /** Every neuron of `l` has exactly `width` weights. */
  predicate HasWidth(l: Layer, width: nat)
  {
    forall n :: 0 <= n < |l.neurons| ==> |l.neurons[n].weights| == width
  }

  /**
    The layer constructor: `neuronCount` neurons, the i-th made by the factory
    call `createNeuron(i, inputsPerNeuron)`. The call number stands for the
    factory's hidden random state, so neurons may differ.
   */
  method New(neuronCount: nat, inputsPerNeuron: nat, createNeuron: (nat, nat) -> Neurons.Neuron)
    returns (l: Layer)
    ensures |l.neurons| == neuronCount
    ensures forall i :: 0 <= i < neuronCount ==> l.neurons[i] == createNeuron(i, inputsPerNeuron)
    ensures (forall i :: 0 <= i < neuronCount ==> |createNeuron(i, inputsPerNeuron).weights| == inputsPerNeuron)
            ==> HasWidth(l, inputsPerNeuron)
  {
    var neurons: seq<Neurons.Neuron> := [];
    var i := 0;
    while i < neuronCount
      invariant 0 <= i <= neuronCount
      invariant |neurons| == i
      invariant forall k :: 0 <= k < i ==> neurons[k] == createNeuron(k, inputsPerNeuron)
    {
      neurons := neurons + [createNeuron(i, inputsPerNeuron)];
      i := i + 1;
    }
    l := Layer(neurons);
  }

  /**
    The chain-rule fan-in at input `j`: the sum over neurons `n` of
    `deltas[n] * rows[n][j]`, taken in neuron order.
   */
  function FanIn(deltas: seq<real>, rows: seq<Vector>, j: nat): real
    requires |rows| == |deltas|
    requires forall n :: 0 <= n < |rows| ==> j < |rows[n]|
    decreases |deltas|
  {
    if |deltas| == 0 then 0.0
    else FanIn(deltas[..|deltas| - 1], rows[..|rows| - 1], j) + deltas[|deltas| - 1] * rows[|rows| - 1][j]
  }

  /** One more neuron of a prefix fan-in. */
  lemma FanInSnoc(deltas: seq<real>, rows: seq<Vector>, k: nat, j: nat)
    requires |rows| == |deltas| && k < |deltas|
    requires forall n :: 0 <= n < |rows| ==> j < |rows[n]|
    ensures FanIn(deltas[..k + 1], rows[..k + 1], j) == FanIn(deltas[..k], rows[..k], j) + deltas[k] * rows[k][j]
  {
    assert deltas[..k + 1][..k] == deltas[..k];
    assert rows[..k + 1][..k] == rows[..k];
  }

  /** The local gradient of each of the first `k` neurons, from its own error and cached output. */
  function Deltas(neurons: seq<Neurons.Neuron>, errors: Vector, k: nat): (d: seq<real>)
    requires k <= |neurons| && k <= |errors|
    ensures |d| == k
    ensures forall n :: 0 <= n < k ==> d[n] == Neurons.Delta(errors[n], neurons[n].lastOutput)
  {
    seq(k, n requires 0 <= n < k => Neurons.Delta(errors[n], neurons[n].lastOutput))
  }

  /** The weight vectors of the first `k` neurons. */
  function WeightRows(neurons: seq<Neurons.Neuron>, k: nat): (rows: seq<Vector>)
    requires k <= |neurons|
    ensures |rows| == k
    ensures forall n :: 0 <= n < k ==> rows[n] == neurons[n].weights
  {
    seq(k, n requires 0 <= n < k => neurons[n].weights)
  }

  /** `acc[j] += shares[j]` for every `j`. */
  function Accumulate(acc: Vector, shares: Vector): (r: Vector)
    requires |acc| == |shares|
    ensures |r| == |acc|
    ensures forall j :: 0 <= j < |r| ==> r[j] == acc[j] + shares[j]
  {
    seq(|acc|, j requires 0 <= j < |acc| => acc[j] + shares[j])
  }

  /** The first `k` iterations of the forward loop. */
  function ForwardPrefix(neurons: seq<Neurons.Neuron>, inputs: Vector, sigmoid: real -> real, k: nat)
    : (r: Result<(seq<Neurons.Neuron>, Vector)>)
    requires k <= |neurons|
    ensures r.Ok? <==> forall n :: 0 <= n < k ==> |neurons[n].weights| == |inputs|
    ensures r.Err? ==> r.error == ArgumentError
    ensures r.Ok? ==> |r.value.0| == k && |r.value.1| == k
    ensures r.Ok? ==> forall n :: 0 <= n < k ==>
              Neurons.FeedForward(neurons[n], inputs, sigmoid) == Ok((r.value.0[n], r.value.1[n]))
    decreases k
  {
    if k == 0 then Ok(([], []))
    else
      match ForwardPrefix(neurons, inputs, sigmoid, k - 1)
      case Err(e) => Err(e)
      case Ok((updated, outputs)) =>
        match Neurons.FeedForward(neurons[k - 1], inputs, sigmoid)
        case Err(e) => Err(e)
        case Ok((neuron, output)) => Ok((updated + [neuron], outputs + [output]))
  }

  /**
    `Layer.FeedForward`: entry `n` of the returned vector is neuron `n`'s
    forward output, which that neuron also caches. It fails with the neurons'
    `ArgumentException` exactly when some neuron's width differs from the input
    length (so a layer without neurons accepts any input).
   */
  function FeedForward(l: Layer, inputs: Vector, sigmoid: real -> real): (r: Result<(Layer, Vector)>)
    ensures r.Ok? <==> forall n :: 0 <= n < |l.neurons| ==> |l.neurons[n].weights| == |inputs|
    ensures r.Err? ==> r.error == ArgumentError
    ensures r.Ok? ==> |r.value.1| == |l.neurons| && |r.value.0.neurons| == |l.neurons|
    ensures r.Ok? ==> forall n :: 0 <= n < |l.neurons| ==>
              && r.value.1[n] == sigmoid(Dot(l.neurons[n].weights, inputs) + l.neurons[n].bias)
              && r.value.0.neurons[n] == l.neurons[n].(lastOutput := r.value.1[n])
  {
    match ForwardPrefix(l.neurons, inputs, sigmoid, |l.neurons|)
    case Err(e) => Err(e)
    case Ok((neurons, outputs)) => Ok((Layer(neurons), outputs))
  }

  /**
    The forward pass is determined by its neurons: a layer and output vector
    that agree with every neuron's sigmoid and cache are what it returns.
   */
  lemma FeedForwardFromNeurons(l: Layer, inputs: Vector, sigmoid: real -> real, updated: Layer, outputs: Vector)
    requires HasWidth(l, |inputs|)
    requires |outputs| == |l.neurons| && |updated.neurons| == |l.neurons|
    requires forall n :: 0 <= n < |l.neurons| ==>
               && outputs[n] == sigmoid(Dot(l.neurons[n].weights, inputs) + l.neurons[n].bias)
               && updated.neurons[n] == l.neurons[n].(lastOutput := outputs[n])
    ensures FeedForward(l, inputs, sigmoid) == Ok((updated, outputs))
  {
    FeedForwardOutputs(l, inputs, sigmoid, outputs);
    var r := FeedForward(l, inputs, sigmoid);
    forall n | 0 <= n < |l.neurons|
      ensures r.value.0.neurons[n] == updated.neurons[n]
    {
    }
    assert r.value.0.neurons == updated.neurons;
  }

  /** The outputs half of `FeedForwardFromNeurons`. */
  lemma FeedForwardOutputs(l: Layer, inputs: Vector, sigmoid: real -> real, outputs: Vector)
    requires HasWidth(l, |inputs|) && |outputs| == |l.neurons|
    requires forall n :: 0 <= n < |l.neurons| ==>
               outputs[n] == sigmoid(Dot(l.neurons[n].weights, inputs) + l.neurons[n].bias)
    ensures FeedForward(l, inputs, sigmoid).Ok?
    ensures FeedForward(l, inputs, sigmoid).value.1 == outputs
  {
    var r := FeedForward(l, inputs, sigmoid);
    forall n | 0 <= n < |l.neurons|
      ensures r.value.1[n] == outputs[n]
    {
    }
  }

  /**
    Feeding the same input twice in a row gives the same outputs and the same
    layer state: the forward pass changes nothing but the cached outputs.
   */
  lemma FeedForwardIdempotent(l: Layer, inputs: Vector, sigmoid: real -> real)
    requires FeedForward(l, inputs, sigmoid).Ok?
    ensures FeedForward(FeedForward(l, inputs, sigmoid).value.0, inputs, sigmoid) == FeedForward(l, inputs, sigmoid)
  {
    var (l1, out1) := FeedForward(l, inputs, sigmoid).value;
    var second := FeedForward(l1, inputs, sigmoid);
    assert second.Ok?;
    var (l2, out2) := second.value;
    assert out2 == out1;
    assert l2.neurons == l1.neurons;
  }

  /** The first `k` iterations of the backward loop. */
  function BackwardPrefix(neurons: seq<Neurons.Neuron>, inputs: Vector, errors: Vector, learningRate: real, k: nat)
    : (r: Result<(seq<Neurons.Neuron>, Vector)>)
    requires k <= |neurons|
    ensures r.Ok? <==> k <= |errors| && forall n :: 0 <= n < k ==> |neurons[n].weights| == |inputs|
    ensures r.Ok? ==> |r.value.0| == k && |r.value.1| == |inputs|
    ensures r.Err? ==> r.error == IndexOutOfRange || r.error == ArgumentError
    ensures r.Err? ==> (r.error == IndexOutOfRange
                        <==> |errors| < k && forall n :: 0 <= n < |errors| ==> |neurons[n].weights| == |inputs|)
    decreases k
  {
    if k == 0 then Ok(([], Zeros(|inputs|)))
    else
      match BackwardPrefix(neurons, inputs, errors, learningRate, k - 1)
      case Err(e) => Err(e)
      case Ok((updated, acc)) =>
        if k - 1 >= |errors| then Err(IndexOutOfRange)
        else
          match Neurons.Backpropagate(neurons[k - 1], inputs, errors[k - 1], learningRate)
          case Err(e) => Err(e)
          case Ok((neuron, shares)) => Ok((updated + [neuron], Accumulate(acc, shares)))
  }

  /** One iteration of the backward loop, as `BackwardPrefix` takes it. */
  lemma BackwardPrefixUnfold(neurons: seq<Neurons.Neuron>, inputs: Vector, errors: Vector, learningRate: real, k: nat)
    requires 0 < k <= |neurons|
    requires BackwardPrefix(neurons, inputs, errors, learningRate, k).Ok?
    ensures BackwardPrefix(neurons, inputs, errors, learningRate, k - 1).Ok?
    ensures Neurons.Backpropagate(neurons[k - 1], inputs, errors[k - 1], learningRate).Ok?
    ensures var prev := BackwardPrefix(neurons, inputs, errors, learningRate, k - 1).value;
            var step := Neurons.Backpropagate(neurons[k - 1], inputs, errors[k - 1], learningRate).value;
            BackwardPrefix(neurons, inputs, errors, learningRate, k).value
              == (prev.0 + [step.0], Accumulate(prev.1, step.1))
  {
  }

  /** After the first `k` iterations of the backward loop, each of those neurons holds its own update. */
  lemma {:induction false} BackwardPrefixNeurons(neurons: seq<Neurons.Neuron>, inputs: Vector, errors: Vector,
                                                 learningRate: real, k: nat)
    requires k <= |neurons|
    requires BackwardPrefix(neurons, inputs, errors, learningRate, k).Ok?
    ensures forall n :: 0 <= n < k ==>
              BackwardPrefix(neurons, inputs, errors, learningRate, k).value.0[n]
              == Neurons.Backpropagate(neurons[n], inputs, errors[n], learningRate).value.0
    decreases k
  {
    if k > 0 {
      BackwardPrefixNeurons(neurons, inputs, errors, learningRate, k - 1);
      BackwardPrefixUnfold(neurons, inputs, errors, learningRate, k);
      var prev := BackwardPrefix(neurons, inputs, errors, learningRate, k - 1).value.0;
      var step := Neurons.Backpropagate(neurons[k - 1], inputs, errors[k - 1], learningRate).value.0;
      var updated := BackwardPrefix(neurons, inputs, errors, learningRate, k).value.0;
      assert updated == prev + [step];
      forall n | 0 <= n < k
        ensures updated[n] == Neurons.Backpropagate(neurons[n], inputs, errors[n], learningRate).value.0
      {
        if n < k - 1 {
          assert updated[n] == prev[n];
        }
      }
    }
  }

  /** After the first `k` iterations of the backward loop, the accumulator holds the fan-in over those neurons. */
  lemma {:induction false} BackwardPrefixFanIn(neurons: seq<Neurons.Neuron>, inputs: Vector, errors: Vector,
                                               learningRate: real, k: nat)
    requires k <= |neurons|
    requires BackwardPrefix(neurons, inputs, errors, learningRate, k).Ok?
    ensures forall j :: 0 <= j < |inputs| ==>
              BackwardPrefix(neurons, inputs, errors, learningRate, k).value.1[j]
              == FanIn(Deltas(neurons, errors, k), WeightRows(neurons, k), j)
    decreases k
  {
    if k > 0 {
      BackwardPrefixFanIn(neurons, inputs, errors, learningRate, k - 1);
      BackwardPrefixUnfold(neurons, inputs, errors, learningRate, k);
      var acc := BackwardPrefix(neurons, inputs, errors, learningRate, k - 1).value.1;
      FanInStep(neurons, inputs, errors, learningRate, k - 1, acc);
    }
  }

  /** Adding neuron `k`'s error shares extends the fan-in over the first `k` neurons to `k + 1`. */
  lemma FanInStep(neurons: seq<Neurons.Neuron>, inputs: Vector, errors: Vector, learningRate: real, k: nat,
                  acc: Vector)
    requires k < |neurons| && k < |errors|
    requires forall n :: 0 <= n <= k ==> |neurons[n].weights| == |inputs|
    requires |acc| == |inputs|
    requires forall j :: 0 <= j < |inputs| ==> acc[j] == FanIn(Deltas(neurons, errors, k), WeightRows(neurons, k), j)
    ensures Neurons.Backpropagate(neurons[k], inputs, errors[k], learningRate).Ok?
    ensures forall j :: 0 <= j < |inputs| ==>
              Accumulate(acc, Neurons.Backpropagate(neurons[k], inputs, errors[k], learningRate).value.1)[j]
              == FanIn(Deltas(neurons, errors, k + 1), WeightRows(neurons, k + 1), j)
  {
    var shares := Neurons.Backpropagate(neurons[k], inputs, errors[k], learningRate).value.1;
    var d, w := Deltas(neurons, errors, k + 1), WeightRows(neurons, k + 1);
    assert d[..k] == Deltas(neurons, errors, k);
    assert w[..k] == WeightRows(neurons, k);
    forall j | 0 <= j < |inputs|
      ensures Accumulate(acc, shares)[j] == FanIn(d, w, j)
    {
      assert shares[j] == Neurons.Delta(errors[k], neurons[k].lastOutput) * neurons[k].weights[j];
      FanInSnoc(d, w, k, j);
      assert d[..k + 1] == d && w[..k + 1] == w;
    }
  }

  /**
    `Layer.Backpropagate`: neuron `n` is handed `errors[n]` and updates itself
    from that error and the shared inputs alone; entry `j` of the result is the
    sum over all neurons of `delta_n * w_n[j]`, with the weights as they were
    before the pass. It fails when `errors` has fewer entries than there are
    neurons or some neuron's width differs from the input length.
   */
  function Backpropagate(l: Layer, inputs: Vector, errors: Vector, learningRate: real): (r: Result<(Layer, Vector)>)
    ensures r.Ok? <==> |l.neurons| <= |errors| && HasWidth(l, |inputs|)
    ensures r.Err? ==> r.error == IndexOutOfRange || r.error == ArgumentError
    ensures r.Err? ==> (r.error == IndexOutOfRange
                        <==> |errors| < |l.neurons| && forall n :: 0 <= n < |errors| ==> |l.neurons[n].weights| == |inputs|)
    ensures r.Ok? ==> |r.value.1| == |inputs| && |r.value.0.neurons| == |l.neurons|
    ensures r.Ok? ==> forall n :: 0 <= n < |l.neurons| ==>
              r.value.0.neurons[n] == Neurons.Backpropagate(l.neurons[n], inputs, errors[n], learningRate).value.0
    ensures r.Ok? ==> forall j :: 0 <= j < |inputs| ==>
              r.value.1[j] == FanIn(Deltas(l.neurons, errors, |l.neurons|), WeightRows(l.neurons, |l.neurons|), j)
  {
    if BackwardPrefix(l.neurons, inputs, errors, learningRate, |l.neurons|).Ok? then
      BackwardPrefixNeurons(l.neurons, inputs, errors, learningRate, |l.neurons|);
      BackwardPrefixFanIn(l.neurons, inputs, errors, learningRate, |l.neurons|);
      var (neurons, previousLayerErrors) := BackwardPrefix(l.neurons, inputs, errors, learningRate, |l.neurons|).value;
      Ok((Layer(neurons), previousLayerErrors))
    else
      Err(BackwardPrefix(l.neurons, inputs, errors, learningRate, |l.neurons|).error)
  }

  /** A successful backward pass keeps the layer's shape: as many neurons, each as wide as the inputs. */
  lemma BackpropagateKeepsShape(l: Layer, inputs: Vector, errors: Vector, learningRate: real)
    requires Backpropagate(l, inputs, errors, learningRate).Ok?
    ensures |Backpropagate(l, inputs, errors, learningRate).value.0.neurons| == |l.neurons|
    ensures HasWidth(Backpropagate(l, inputs, errors, learningRate).value.0, |inputs|)
  {
    var updated := Backpropagate(l, inputs, errors, learningRate).value.0;
    forall n | 0 <= n < |l.neurons|
      ensures |updated.neurons[n].weights| == |inputs|
    {
      assert |l.neurons[n].weights| == |inputs|;
    }
  }
}
