/**
  The two-input demonstration neuron of Program.cs (`SimpleNeuron`) and the
  OR and XORBad drivers that train it example by example.

  Unlike `MultiInputNeuron` it keeps no cached output: its backward pass
  recomputes the forward pass with the current weights. Its driver loop is the
  trainer's loop written out by hand for a network of one neuron with two
  inputs and one output, which `AsNetwork` makes precise.
 */
module SimpleNeurons {
  import opened Errors
  import opened Vectors
  import Neurons
  import Training

  datatype SimpleNeuron = SimpleNeuron(w1: real, w2: real, bias: real)

  /** Both weights and the bias start at zero. */
  const Initial := SimpleNeuron(0.0, 0.0, 0.0)

  /** A freshly made neuron outputs `sigmoid(0)` whatever its two inputs. */
  lemma InitialOutput(x1: real, x2: real, sigmoid: real -> real)
    ensures Initial.w1 == 0.0 && Initial.w2 == 0.0 && Initial.bias == 0.0
    ensures FeedForward(Initial, x1, x2, sigmoid) == sigmoid(0.0)
  {
  }

  /** The fixed learning rate of the OR and XORBad drivers. */
  const Rate: real := 0.1

  /** The weighted input `w1 * x1 + w2 * x2 + bias`. */
  function PreActivation(n: SimpleNeuron, x1: real, x2: real): real
  {
    n.w1 * x1 + n.w2 * x2 + n.bias
  }

  /**
    `FeedForward`: the activation of the weighted input, which is the general
    neuron's formula `sigmoid(w . x + bias)` on the two inputs.
   */
  function FeedForward(n: SimpleNeuron, x1: real, x2: real, sigmoid: real -> real): (y: real)
    ensures y == sigmoid(Dot([n.w1, n.w2], [x1, x2]) + n.bias)
  {
    PreActivationIsDot(n, x1, x2);
    sigmoid(PreActivation(n, x1, x2))
  }

  /**
    `Backpropagate`: the output is recomputed from the current weights, and
    each weight moves by the bias's step times its own input. With a sigmoid
    whose output lies in `[0, 1]` and a learning rate of at least zero, the
    bias moves in the direction of the error.
   */
  function Backpropagate(n: SimpleNeuron, x1: real, x2: real, error: real, learningRate: real,
                         sigmoid: real -> real): (r: SimpleNeuron)
    ensures r.w1 - n.w1 == (r.bias - n.bias) * x1
    ensures r.w2 - n.w2 == (r.bias - n.bias) * x2
    ensures r.bias - n.bias == learningRate * Neurons.Delta(error, FeedForward(n, x1, x2, sigmoid))
    ensures 0.0 <= FeedForward(n, x1, x2, sigmoid) <= 1.0 && learningRate >= 0.0 ==> (r.bias - n.bias) * error >= 0.0
  {
    var step := Step(learningRate, error, FeedForward(n, x1, x2, sigmoid));
    SimpleNeuron(n.w1 + step * x1, n.w2 + step * x2, n.bias + step)
  }

  /**
    `learningRate * error * SigmoidDerivative(output)`: the learning rate times
    the local gradient, which for an output in `[0, 1]` and a rate of at least
    zero has the sign of the error.
   */
  function Step(learningRate: real, error: real, output: real): (s: real)
    ensures s == learningRate * Neurons.Delta(error, output)
    ensures 0.0 <= output <= 1.0 && learningRate >= 0.0 ==> s * error >= 0.0
  {
    var derivative := Neurons.SigmoidDerivative(output);
    SignOfStep(learningRate, error, derivative);
    learningRate * error * derivative
  }

  lemma SignOfStep(rate: real, error: real, derivative: real)
    ensures rate >= 0.0 && derivative >= 0.0 ==> (rate * error * derivative) * error >= 0.0
  {
    var c := rate * derivative;
    var square := error * error;
    assert (rate * error * derivative) * error == c * square;
    assert square >= 0.0;
    if rate >= 0.0 && derivative >= 0.0 {
      assert c >= 0.0;
      assert c * square >= 0.0;
    }
  }

  /** The neuron as a `MultiInputNeuron` with weights `[w1, w2]` and the given cached output. */
  function AsNeuron(n: SimpleNeuron, cached: real): Neurons.Neuron
  {
    Neurons.Neuron([n.w1, n.w2], n.bias, cached)
  }

  /** The forward pass is the general neuron's forward pass on the two inputs. */
  lemma FeedForwardAgrees(n: SimpleNeuron, x1: real, x2: real, sigmoid: real -> real, cached: real)
    ensures Neurons.FeedForward(AsNeuron(n, cached), [x1, x2], sigmoid)
            == Ok((AsNeuron(n, FeedForward(n, x1, x2, sigmoid)), FeedForward(n, x1, x2, sigmoid)))
  {
    PreActivationIsDot(n, x1, x2);
  }

  /** The weighted input is the dot product of the weights and inputs, plus the bias. */
  lemma PreActivationIsDot(n: SimpleNeuron, x1: real, x2: real)
    ensures Dot([n.w1, n.w2], [x1, x2]) + n.bias == PreActivation(n, x1, x2)
  {
    assert DotTo([n.w1, n.w2], [x1, x2], 1) == n.w1 * x1;
  }

  /**
    Recomputing the output and then updating is what the general neuron does
    when a forward pass on the same inputs has just filled its cache.
   */
  lemma BackpropagateAgrees(n: SimpleNeuron, x1: real, x2: real, error: real, learningRate: real,
                            sigmoid: real -> real, cached: real)
    ensures var fed := Neurons.FeedForward(AsNeuron(n, cached), [x1, x2], sigmoid).value.0;
            && Neurons.Backpropagate(fed, [x1, x2], error, learningRate).Ok?
            && Neurons.Backpropagate(fed, [x1, x2], error, learningRate).value.0
               == AsNeuron(Backpropagate(n, x1, x2, error, learningRate, sigmoid), FeedForward(n, x1, x2, sigmoid))
  {
    FeedForwardAgrees(n, x1, x2, sigmoid, cached);
    var output := FeedForward(n, x1, x2, sigmoid);
    var fed := AsNeuron(n, output);
    var general := Neurons.Backpropagate(fed, [x1, x2], error, learningRate).value.0;
    var simple := Backpropagate(n, x1, x2, error, learningRate, sigmoid);
    var step := Step(learningRate, error, output);
    assert general.weights[0] == n.w1 + step * x1;
    assert general.weights[1] == n.w2 + step * x2;
    assert simple.w1 == n.w1 + step * x1 && simple.w2 == n.w2 + step * x2;
    assert |general.weights| == 2;
    assert general.weights == [simple.w1, simple.w2];
  }

  /** Without an error the neuron is left exactly as it was. */
  lemma NoErrorNoChange(n: SimpleNeuron, x1: real, x2: real, learningRate: real, sigmoid: real -> real)
    ensures Backpropagate(n, x1, x2, 0.0, learningRate, sigmoid) == n
  {
    var r := Backpropagate(n, x1, x2, 0.0, learningRate, sigmoid);
    assert r.bias - n.bias == 0.0;
  }

  /** A weight whose input is zero is not moved, whatever the error. */
  lemma ZeroInputKeepsWeight(n: SimpleNeuron, x1: real, x2: real, error: real, learningRate: real, sigmoid: real -> real)
    ensures x1 == 0.0 ==> Backpropagate(n, x1, x2, error, learningRate, sigmoid).w1 == n.w1
    ensures x2 == 0.0 ==> Backpropagate(n, x1, x2, error, learningRate, sigmoid).w2 == n.w2
  {
    var r := Backpropagate(n, x1, x2, error, learningRate, sigmoid);
    assert r.w1 - n.w1 == (r.bias - n.bias) * x1;
    assert r.w2 - n.w2 == (r.bias - n.bias) * x2;
  }

  /**
    The neuron behind the `NeuralNetwork` interface: one input vector of (at
    least) two entries, one output. Reading a missing entry throws, as
    indexing the drivers' arrays does.
   */
  function NetworkFeedForward(sigmoid: real -> real, n: SimpleNeuron, x: Vector): (r: Result<(SimpleNeuron, Vector)>)
    ensures r.Ok? <==> |x| >= 2
    ensures r.Err? ==> r.error == IndexOutOfRange
    ensures r.Ok? ==> r.value.0 == n && |r.value.1| == 1
  {
    if |x| < 2 then Err(IndexOutOfRange) else Ok((n, [FeedForward(n, x[0], x[1], sigmoid)]))
  }

  function NetworkBackPropagate(sigmoid: real -> real, n: SimpleNeuron, x: Vector, errors: Vector, learningRate: real)
    : (r: Result<SimpleNeuron>)
    ensures r.Ok? <==> |x| >= 2 && |errors| >= 1
    ensures r.Err? ==> r.error == IndexOutOfRange
  {
    if |x| < 2 || |errors| == 0 then Err(IndexOutOfRange)
    else Ok(Backpropagate(n, x[0], x[1], errors[0], learningRate, sigmoid))
  }

  function AsNetwork(sigmoid: real -> real): (ops: Training.NetworkOps<SimpleNeuron>)
    ensures forall n, x :: ops.feedForward(n, x) == NetworkFeedForward(sigmoid, n, x)
    ensures forall n, x, errors, learningRate ::
              ops.backPropagate(n, x, errors, learningRate) == NetworkBackPropagate(sigmoid, n, x, errors, learningRate)
  {
    Training.NetworkOps((n, x) => NetworkFeedForward(sigmoid, n, x),
                        (n, x, errors, learningRate) => NetworkBackPropagate(sigmoid, n, x, errors, learningRate))
  }

  /** One pass of the driver's inner loop over the examples, as the generic trainer would run it. */
  lemma ExampleAgrees(n: SimpleNeuron, data: Training.TrainingSet, i: nat, sigmoid: real -> real)
    requires i < |data.inputs|
    ensures Training.ExampleStep(AsNetwork(sigmoid), n, data, i)
            == if |data.inputs[i]| < 2 || i >= |data.expected| || |data.expected[i]| == 0 then Err(IndexOutOfRange)
               else
                 var x := data.inputs[i];
                 var error := data.expected[i][0] - FeedForward(n, x[0], x[1], sigmoid);
                 Ok((Backpropagate(n, x[0], x[1], error, data.learningRate, sigmoid), Training.Abs(error)))
  {
    if |data.inputs[i]| >= 2 && i < |data.expected| && |data.expected[i]| > 0 {
      var x := data.inputs[i];
      var output := FeedForward(n, x[0], x[1], sigmoid);
      var errors := Training.Residuals(data.expected, i, [output]).value;
      assert errors == [data.expected[i][0] - output];
      assert Training.AbsSum(errors) == Training.AbsSumTo(errors, 0) + Training.Abs(errors[0]);
    }
  }

  /**
    The body of the drivers' inner loop: feed example `i` forward, take its
    error against the first expected entry, train on it at the fixed rate and
    report the absolute error. It is the generic trainer's step for the
    one-neuron network.
   */
  method RunExample(neuron: SimpleNeuron, inputs: seq<Vector>, expected: seq<Vector>, i: nat, sigmoid: real -> real)
    returns (r: Result<(SimpleNeuron, real)>)
    requires i < |inputs|
    ensures r == Training.ExampleStep(AsNetwork(sigmoid), neuron, Training.TrainingSet(inputs, expected, Rate), i)
  {
    ExampleAgrees(neuron, Training.TrainingSet(inputs, expected, Rate), i, sigmoid);
    if |inputs[i]| < 2 || i >= |expected| || |expected[i]| == 0 {
      return Err(IndexOutOfRange);
    }
    var output := FeedForward(neuron, inputs[i][0], inputs[i][1], sigmoid);
    var error := expected[i][0] - output;
    r := Ok((Backpropagate(neuron, inputs[i][0], inputs[i][1], error, Rate, sigmoid), Training.Abs(error)));
  }

  /**
    One epoch of the OR / XORBad driver: every example once, in order, the
    absolute errors summed into the epoch's total. It is the generic
    trainer's epoch for the one-neuron network.
   */
  method RunEpoch(n: SimpleNeuron, inputs: seq<Vector>, expected: seq<Vector>, sigmoid: real -> real)
    returns (r: Result<(SimpleNeuron, real)>)
    ensures r == Training.Epoch(AsNetwork(sigmoid), n, Training.TrainingSet(inputs, expected, Rate))
  {
    var ops, data := AsNetwork(sigmoid), Training.TrainingSet(inputs, expected, Rate);
    var neuron, totalError := n, 0.0;
    for i := 0 to |inputs|
      invariant Training.EpochTo(ops, n, data, i) == Ok((neuron, totalError))
    {
      var next := RunNext(n, inputs, expected, sigmoid, i, neuron, totalError);
      if next.Err? {
        return next;
      }
      neuron, totalError := next.value.0, next.value.1;
    }
    r := Ok((neuron, totalError));
  }

  /**
    One iteration of the driver's example loop: example `i` trained on top of
    the epoch so far, its absolute error added to the running total. When the
    example throws, so does the whole epoch.
   */
  method RunNext(n: SimpleNeuron, inputs: seq<Vector>, expected: seq<Vector>, sigmoid: real -> real, i: nat,
                 neuron: SimpleNeuron, totalError: real) returns (r: Result<(SimpleNeuron, real)>)
    requires i < |inputs|
    requires Training.EpochTo(AsNetwork(sigmoid), n, Training.TrainingSet(inputs, expected, Rate), i)
             == Ok((neuron, totalError))
    ensures r == Training.EpochTo(AsNetwork(sigmoid), n, Training.TrainingSet(inputs, expected, Rate), i + 1)
    ensures r.Err? ==> r == Training.Epoch(AsNetwork(sigmoid), n, Training.TrainingSet(inputs, expected, Rate))
  {
    var ops, data := AsNetwork(sigmoid), Training.TrainingSet(inputs, expected, Rate);
    var step := RunExample(neuron, inputs, expected, i, sigmoid);
    Training.EpochToNext(ops, n, data, i, neuron, totalError);
    if step.Err? {
      Training.ExampleFailureEndsEpoch(ops, n, data, i, neuron, totalError);
      return Err(step.error);
    }
    r := Ok((step.value.0, totalError + step.value.1));
  }

  /** Every example has two inputs and an expected entry: the driver never indexes out of range. */
  predicate WellFormed(inputs: seq<Vector>, expected: seq<Vector>)
  {
    && |inputs| <= |expected|
    && (forall i :: 0 <= i < |inputs| ==> |inputs[i]| >= 2)
    && (forall i :: 0 <= i < |inputs| ==> |expected[i]| >= 1)
  }

  /** On well-formed data the driver's epochs never throw. */
  lemma WellFormedEpochsSucceed(n: SimpleNeuron, inputs: seq<Vector>, expected: seq<Vector>,
                                sigmoid: real -> real, epochs: nat)
    requires WellFormed(inputs, expected)
    ensures Training.Epochs(AsNetwork(sigmoid), n, Training.TrainingSet(inputs, expected, Rate), epochs).Ok?
  {
    var ops, data := AsNetwork(sigmoid), Training.TrainingSet(inputs, expected, Rate);
    var anything := (m: SimpleNeuron) => true;
    forall m, i | 0 <= i < |inputs| && anything(m)
      ensures Training.ExampleStep(ops, m, data, i).Ok? && anything(Training.ExampleStep(ops, m, data, i).value.0)
    {
      ExampleAgrees(m, data, i, sigmoid);
    }
    Training.EpochsKeep(ops, n, data, epochs, anything);
  }

  /** The four corners of the unit square, in the drivers' order. */
  const Corners: seq<Vector> := [[0.0, 0.0], [0.0, 1.0], [1.0, 0.0], [1.0, 1.0]]
  const OrTargets: seq<Vector> := [[0.0], [1.0], [1.0], [1.0]]
  const XorTargets: seq<Vector> := [[0.0], [1.0], [1.0], [0.0]]

  /** Both drivers' data are well formed, so their 100000 epochs never throw. */
  lemma DriversSucceed(sigmoid: real -> real, epochs: nat)
    ensures Training.Epochs(AsNetwork(sigmoid), Initial, Training.TrainingSet(Corners, OrTargets, Rate), epochs).Ok?
    ensures Training.Epochs(AsNetwork(sigmoid), Initial, Training.TrainingSet(Corners, XorTargets, Rate), epochs).Ok?
  {
    WellFormedEpochsSucceed(Initial, Corners, OrTargets, sigmoid, epochs);
    WellFormedEpochsSucceed(Initial, Corners, XorTargets, sigmoid, epochs);
  }

  ghost predicate Monotone(sigmoid: real -> real)
  {
    forall a, b :: a <= b ==> sigmoid(a) <= sigmoid(b)
  }

  /** The neuron separates the corners as `targets` asks, with outputs above `threshold` for ones and below it for zeros. */
  predicate Separates(n: SimpleNeuron, sigmoid: real -> real, threshold: real, targets: seq<Vector>)
    requires |targets| == 4 && forall i :: 0 <= i < 4 ==> |targets[i]| == 1
  {
    forall i :: 0 <= i < 4 ==>
      var output := FeedForward(n, Corners[i][0], Corners[i][1], sigmoid);
      if targets[i][0] == 1.0 then output > threshold else output < threshold
  }

  /** The output at each corner is the activation of the bias plus the weights of the inputs that are on. */
  lemma CornerOutputs(n: SimpleNeuron, sigmoid: real -> real)
    ensures FeedForward(n, Corners[0][0], Corners[0][1], sigmoid) == sigmoid(n.bias)
    ensures FeedForward(n, Corners[1][0], Corners[1][1], sigmoid) == sigmoid(n.w2 + n.bias)
    ensures FeedForward(n, Corners[2][0], Corners[2][1], sigmoid) == sigmoid(n.w1 + n.bias)
    ensures FeedForward(n, Corners[3][0], Corners[3][1], sigmoid) == sigmoid(n.w1 + n.w2 + n.bias)
  {
  }

  /**
    Why XORBad is bad: with any monotone activation, no weights and bias and
    no threshold separate XOR, because the pre-activations of the two
    diagonals have the same sum.
   */
  lemma XorNotSeparable(n: SimpleNeuron, sigmoid: real -> real, threshold: real)
    requires Monotone(sigmoid)
    ensures !Separates(n, sigmoid, threshold, XorTargets)
  {
    CornerOutputs(n, sigmoid);
    assert XorTargets[0][0] == 0.0 && XorTargets[1][0] == 1.0 && XorTargets[2][0] == 1.0 && XorTargets[3][0] == 0.0;
    var z00, z01, z10, z11 := n.bias, n.w2 + n.bias, n.w1 + n.bias, n.w1 + n.w2 + n.bias;
    // the diagonals' pre-activations have the same sum, so one of them reaches
    // the other diagonal's and monotonicity carries that to the outputs
    assert z00 + z11 == z01 + z10;
    if z01 <= z00 {
      assert sigmoid(z01) <= sigmoid(z00);
    } else {
      assert z10 <= z11;
      assert sigmoid(z10) <= sigmoid(z11);
    }
  }

  /** OR, by contrast, is separable by a single neuron under any strictly increasing activation. */
  lemma OrSeparable(sigmoid: real -> real)
    requires forall a, b :: a < b ==> sigmoid(a) < sigmoid(b)
    ensures Separates(SimpleNeuron(2.0, 2.0, -1.0), sigmoid, sigmoid(0.0), OrTargets)
  {
    var n := SimpleNeuron(2.0, 2.0, -1.0);
    CornerOutputs(n, sigmoid);
    assert sigmoid(-1.0) < sigmoid(0.0) < sigmoid(1.0) < sigmoid(3.0);
  }
}
