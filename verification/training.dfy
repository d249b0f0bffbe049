/**
  The trainer (Trainer.cs): for each epoch, every training example is fed
  forward, the residuals `expected - output` are formed and summed in absolute
  value into the epoch's total error, and the residuals are propagated back.

  The trainer only sees the `NeuralNetwork` interface (Program.cs), so the
  model is generic in the network type `N`: `NetworkOps` carries the two
  interface operations, and `Implementation` plugs in the layered network of
  NeuralNetwork.cs.
 */
module Training {
  import opened Errors
  import opened Vectors
  import Networks
  import Layers

  /** The `NeuralNetwork` interface: a forward pass and a backward pass, each returning the new network. */
  datatype NetworkOps<!N> = NetworkOps(
    feedForward: (N, Vector) -> Result<(N, Vector)>,
    backPropagate: (N, Vector, Vector, real) -> Result<N>)

  /** The layered network (NeuralNetwork.cs) behind the interface, over any layer type. */
  function Implementation<L(!new)>(layerOps: Networks.LayerOps<L>): (ops: NetworkOps<Networks.Network<L>>)
    ensures forall net, inputs :: ops.feedForward(net, inputs) == Networks.Forward(net, inputs, layerOps)
    ensures forall net, inputs, errors, learningRate ::
              ops.backPropagate(net, inputs, errors, learningRate)
              == Networks.BackPropagate(net, inputs, errors, learningRate, layerOps)
  {
    NetworkOps((net, inputs) => Networks.Forward(net, inputs, layerOps),
               (net, inputs, errors, learningRate) => Networks.BackPropagate(net, inputs, errors, learningRate, layerOps))
  }

  /** The trainer's fixed data: the examples, their expected outputs and the learning rate. */
  datatype TrainingSet = TrainingSet(inputs: seq<Vector>, expected: seq<Vector>, learningRate: real)

  /** `Math.Abs` on a double. */
  function Abs(x: real): (r: real)
    ensures r >= 0.0
    ensures r == x || r == -x
  {
    if x < 0.0 then -x else x
  }

  /** The sum of the absolute values of the first `k` entries, left to right. */
  function AbsSumTo(v: Vector, k: nat): (s: real)
    requires k <= |v|
    ensures s >= 0.0
    decreases k
  {
    if k == 0 then 0.0 else AbsSumTo(v, k - 1) + Abs(v[k - 1])
  }

  /** A partial absolute sum reads only the first `k` entries. */
  lemma {:induction false} AbsSumToAgree(a: Vector, b: Vector, k: nat)
    requires k <= |a| && k <= |b|
    requires forall j :: 0 <= j < k ==> a[j] == b[j]
    ensures AbsSumTo(a, k) == AbsSumTo(b, k)
    decreases k
  {
    if k > 0 {
      AbsSumToAgree(a, b, k - 1);
    }
  }

  /** The absolute error of one example: the sum of `|errors[j]|` over the whole vector. */
  function AbsSum(v: Vector): (s: real)
    ensures s >= 0.0
  {
    AbsSumTo(v, |v|)
  }

  /** A prefix has no absolute error exactly when every entry in it is zero. */
  lemma {:induction false} AbsSumToZero(v: Vector, k: nat)
    requires k <= |v|
    ensures AbsSumTo(v, k) == 0.0 <==> forall j :: 0 <= j < k ==> v[j] == 0.0
    decreases k
  {
    if k > 0 {
      AbsSumToZero(v, k - 1);
    }
  }

  /** A vector has no absolute error exactly when it is all zeros. */
  lemma AbsSumZero(v: Vector)
    ensures AbsSum(v) == 0.0 <==> v == Zeros(|v|)
  {
    AbsSumToZero(v, |v|);
    if AbsSum(v) == 0.0 {
      assert v == Zeros(|v|);
    }
  }

  /**
    The residuals of example `i`, as a reference definition: entry `j` is
    `expected[i][j] - outputs[j]`. The expected row is read only when there is
    an output, so an empty output never fails; otherwise a missing row or a
    row shorter than the output throws the index exception.
   */
  function Residuals(expected: seq<Vector>, i: nat, outputs: Vector): (r: Result<Vector>)
    ensures r.Ok? <==> |outputs| == 0 || (i < |expected| && |outputs| <= |expected[i]|)
    ensures r.Err? ==> r.error == IndexOutOfRange
    ensures r.Ok? ==> |r.value| == |outputs|
    ensures r.Ok? ==> forall j :: 0 <= j < |outputs| ==> r.value[j] == expected[i][j] - outputs[j]
  {
    if |outputs| == 0 then Ok([])
    else if i >= |expected| || |expected[i]| < |outputs| then Err(IndexOutOfRange)
    else Ok(seq(|outputs|, j requires 0 <= j < |outputs| => expected[i][j] - outputs[j]))
  }

  /**
    Zero residuals mean a perfect fit: the example contributes no error
    exactly when the outputs equal the start of the expected row.
   */
  lemma ResidualsZeroIffFit(expected: seq<Vector>, i: nat, outputs: Vector)
    requires Residuals(expected, i, outputs).Ok?
    ensures |outputs| > 0 ==> i < |expected| && |outputs| <= |expected[i]|
    ensures AbsSum(Residuals(expected, i, outputs).value) == 0.0
            <==> (|outputs| == 0 || outputs == expected[i][..|outputs|])
  {
    var r := Residuals(expected, i, outputs).value;
    AbsSumZero(r);
    if |outputs| > 0 {
      if r == Zeros(|r|) {
        forall j | 0 <= j < |outputs|
          ensures outputs[j] == expected[i][..|outputs|][j]
        {
          assert r[j] == expected[i][j] - outputs[j];
        }
      }
      if outputs == expected[i][..|outputs|] {
        forall j | 0 <= j < |r|
          ensures r[j] == 0.0
        {
          assert expected[i][..|outputs|][j] == expected[i][j];
        }
      }
    }
  }

  /**
    The inner loop of `Train`: `errors[j] = expected[i][j] - outputs[j]` and
    the running total gains `|errors[j]|`, for `j` from 0; the first missing
    cell throws.
   */
  method ResidualLoop(expected: seq<Vector>, i: nat, outputs: Vector, total: real)
    returns (r: Result<Vector>, newTotal: real)
    ensures r == Residuals(expected, i, outputs)
    ensures r.Ok? ==> newTotal == total + AbsSum(r.value)
  {
    var errors := Zeros(|outputs|);
    newTotal := total;
    var j := 0;
    while j < |outputs|
      invariant 0 <= j <= |outputs| && |errors| == |outputs|
      invariant j > 0 ==> i < |expected| && j <= |expected[i]|
      invariant forall k :: 0 <= k < j ==> errors[k] == expected[i][k] - outputs[k]
      invariant newTotal == total + AbsSumTo(errors, j)
    {
      if i >= |expected| || j >= |expected[i]| {
        return Err(IndexOutOfRange), newTotal;
      }
      var previous := errors;
      errors := errors[j := expected[i][j] - outputs[j]];
      AbsSumToAgree(previous, errors, j);
      newTotal := newTotal + Abs(errors[j]);
      j := j + 1;
    }
    if |outputs| > 0 {
      assert errors == Residuals(expected, i, outputs).value;
    }
    r := Ok(errors);
  }

  /**
    One example, as a reference definition: feed input `i` forward, form the
    residuals against expected row `i`, and propagate them back with the same
    input. The result is the trained network and the example's absolute error.
   */
  function ExampleStep<N>(ops: NetworkOps<N>, net: N, data: TrainingSet, i: nat): (r: Result<(N, real)>)
    requires i < |data.inputs|
    ensures r.Ok? ==> r.value.1 >= 0.0
  {
    match ops.feedForward(net, data.inputs[i])
    case Err(e) => Err(e)
    case Ok((fed, outputs)) =>
      match Residuals(data.expected, i, outputs)
      case Err(e) => Err(e)
      case Ok(errors) =>
        match ops.backPropagate(fed, data.inputs[i], errors, data.learningRate)
        case Err(e) => Err(e)
        case Ok(trained) => Ok((trained, AbsSum(errors)))
  }

  /**
    The first `k` examples of an epoch, in order, as a reference definition:
    the network after them and the total absolute error they contribute. The
    first failing example ends the epoch with its exception.
   */
  function EpochTo<N>(ops: NetworkOps<N>, net: N, data: TrainingSet, k: nat): (r: Result<(N, real)>)
    requires k <= |data.inputs|
    ensures r.Ok? ==> r.value.1 >= 0.0
    ensures k == 0 ==> r == Ok((net, 0.0))
    decreases k
  {
    if k == 0 then Ok((net, 0.0))
    else
      match EpochTo(ops, net, data, k - 1)
      case Err(e) => Err(e)
      case Ok((current, total)) =>
        match ExampleStep(ops, current, data, k - 1)
        case Err(e) => Err(e)
        case Ok((trained, error)) => Ok((trained, total + error))
  }

  /** A whole epoch: every example once, in order. */
  function Epoch<N>(ops: NetworkOps<N>, net: N, data: TrainingSet): (r: Result<(N, real)>)
    ensures r.Ok? ==> r.value.1 >= 0.0
    ensures |data.inputs| == 0 ==> r == Ok((net, 0.0))
  {
    EpochTo(ops, net, data, |data.inputs|)
  }

  /**
    The first `epochs` epochs, as a reference definition: the network after
    them and the total absolute error of each epoch, in order.
   */
  function Epochs<N>(ops: NetworkOps<N>, net: N, data: TrainingSet, epochs: nat): (r: Result<(N, seq<real>)>)
    ensures r.Ok? ==> |r.value.1| == epochs
    ensures r.Ok? ==> forall e :: 0 <= e < epochs ==> r.value.1[e] >= 0.0
    decreases epochs
  {
    if epochs == 0 then Ok((net, []))
    else
      match Epochs(ops, net, data, epochs - 1)
      case Err(e) => Err(e)
      case Ok((current, totals)) =>
        match Epoch(ops, current, data)
        case Err(e) => Err(e)
        case Ok((trained, total)) => Ok((trained, totals + [total]))
  }

  /**
    `Train`: the epoch count is a signed integer, and a count of zero or less
    runs no epoch at all. The per-epoch totals are what the console line
    reports, before dividing by the number of examples.
   */
  function Train<N>(ops: NetworkOps<N>, net: N, data: TrainingSet, epochs: int): (r: Result<(N, seq<real>)>)
    ensures epochs <= 0 ==> r == Ok((net, []))
    ensures r.Ok? ==> |r.value.1| == if epochs <= 0 then 0 else epochs
    ensures r.Ok? ==> forall e :: 0 <= e < |r.value.1| ==> r.value.1[e] >= 0.0
  {
    if epochs <= 0 then Ok((net, [])) else Epochs(ops, net, data, epochs)
  }

  /** The epoch after `i + 1` examples continues the one after `i` with example `i`'s step. */
  lemma EpochToNext<N>(ops: NetworkOps<N>, net: N, data: TrainingSet, i: nat, current: N, total: real)
    requires i < |data.inputs| && EpochTo(ops, net, data, i) == Ok((current, total))
    ensures ExampleStep(ops, current, data, i).Err? ==>
              EpochTo(ops, net, data, i + 1) == Err(ExampleStep(ops, current, data, i).error)
    ensures ExampleStep(ops, current, data, i).Ok? ==>
              EpochTo(ops, net, data, i + 1)
              == Ok((ExampleStep(ops, current, data, i).value.0, total + ExampleStep(ops, current, data, i).value.1))
  {
  }

  /** Once an example fails, the epoch fails with its exception: no later example runs. */
  lemma {:induction false} EpochToFailurePersists<N>(ops: NetworkOps<N>, net: N, data: TrainingSet,
                                                    k: nat, m: nat, e: Error)
    requires k <= m <= |data.inputs|
    requires EpochTo(ops, net, data, k) == Err(e)
    ensures EpochTo(ops, net, data, m) == Err(e)
    decreases m
  {
    if k < m {
      EpochToFailurePersists(ops, net, data, k, m - 1, e);
    }
  }

  /** An example that throws on top of the epoch so far ends the whole epoch with its exception. */
  lemma ExampleFailureEndsEpoch<N>(ops: NetworkOps<N>, net: N, data: TrainingSet, i: nat, current: N, total: real)
    requires i < |data.inputs| && EpochTo(ops, net, data, i) == Ok((current, total))
    requires ExampleStep(ops, current, data, i).Err?
    ensures Epoch(ops, net, data) == Err(ExampleStep(ops, current, data, i).error)
  {
    EpochToNext(ops, net, data, i, current, total);
    EpochToFailurePersists(ops, net, data, i + 1, |data.inputs|, ExampleStep(ops, current, data, i).error);
  }

  /** Once an epoch fails, training fails with its exception: no later epoch runs. */
  lemma {:induction false} EpochsFailurePersists<N>(ops: NetworkOps<N>, net: N, data: TrainingSet,
                                                   k: nat, m: nat, e: Error)
    requires k <= m
    requires Epochs(ops, net, data, k) == Err(e)
    ensures Epochs(ops, net, data, m) == Err(e)
    decreases m
  {
    if k < m {
      EpochsFailurePersists(ops, net, data, k, m - 1, e);
    }
  }

  /**
    The body of the example loop of `Train`: the forward pass, the residual
    loop adding to the running total, and the backward pass on the same input.
   */
  method RunExample<N>(ops: NetworkOps<N>, net: N, data: TrainingSet, i: nat, total: real)
    returns (r: Result<N>, newTotal: real)
    requires i < |data.inputs|
    ensures r.Err? <==> ExampleStep(ops, net, data, i).Err?
    ensures r.Err? ==> r.error == ExampleStep(ops, net, data, i).error
    ensures r.Ok? ==> r.value == ExampleStep(ops, net, data, i).value.0
    ensures r.Ok? ==> newTotal == total + ExampleStep(ops, net, data, i).value.1
  {
    newTotal := total;
    var forward := ops.feedForward(net, data.inputs[i]);
    if forward.Err? {
      return Err(forward.error), newTotal;
    }
    var (fed, outputs) := forward.value;
    var errors;
    errors, newTotal := ResidualLoop(data.expected, i, outputs, newTotal);
    if errors.Err? {
      return Err(errors.error), newTotal;
    }
    var backward := ops.backPropagate(fed, data.inputs[i], errors.value, data.learningRate);
    if backward.Err? {
      return Err(backward.error), newTotal;
    }
    r := Ok(backward.value);
  }

  /** The example loop of `Train`: every example once, in order, starting from a zero total. */
  method RunEpoch<N>(ops: NetworkOps<N>, net: N, data: TrainingSet) returns (r: Result<(N, real)>)
    ensures r == Epoch(ops, net, data)
  {
    var current := net;
    var total := 0.0;
    var i := 0;
    while i < |data.inputs|
      invariant 0 <= i <= |data.inputs|
      invariant EpochTo(ops, net, data, i) == Ok((current, total))
    {
      var step;
      step, total := RunExample(ops, current, data, i, total);
      if step.Err? {
        EpochToFailurePersists(ops, net, data, i + 1, |data.inputs|, step.error);
        return Err(step.error);
      }
      current := step.value;
      i := i + 1;
    }
    r := Ok((current, total));
  }

  /**
    `Train` with its loops: each epoch restarts the total at zero, runs every
    example, and reports the total; the first exception ends training.
   */
  method TrainLoops<N>(ops: NetworkOps<N>, net: N, data: TrainingSet, epochs: int)
    returns (r: Result<(N, seq<real>)>)
    ensures r == Train(ops, net, data, epochs)
  {
    var current := net;
    var totals: seq<real> := [];
    var epoch := 0;
    while epoch < epochs
      invariant 0 <= epoch && (epochs <= 0 ==> epoch == 0) && (epochs > 0 ==> epoch <= epochs)
      invariant Epochs(ops, net, data, epoch) == Ok((current, totals))
    {
      var run := RunEpoch(ops, current, data);
      if run.Err? {
        EpochsFailurePersists(ops, net, data, epoch + 1, epochs, run.error);
        return Err(run.error);
      }
      current, totals := run.value.0, totals + [run.value.1];
      epoch := epoch + 1;
    }
    r := Ok((current, totals));
  }

  /**
    Training for `a + b` epochs is training for `a` epochs and then for `b`
    more from where the first run stopped, the totals following on.
   */
  lemma {:induction false} EpochsSplit<N>(ops: NetworkOps<N>, net: N, data: TrainingSet, a: nat, b: nat)
    ensures Epochs(ops, net, data, a).Err? ==> Epochs(ops, net, data, a + b) == Epochs(ops, net, data, a)
    ensures Epochs(ops, net, data, a).Ok? ==>
              var (current, totals) := Epochs(ops, net, data, a).value;
              && (Epochs(ops, current, data, b).Err? ==> Epochs(ops, net, data, a + b) == Epochs(ops, current, data, b))
              && (Epochs(ops, current, data, b).Ok? ==>
                    Epochs(ops, net, data, a + b)
                    == Ok((Epochs(ops, current, data, b).value.0, totals + Epochs(ops, current, data, b).value.1)))
    decreases b
  {
    if b > 0 {
      EpochsSplit(ops, net, data, a, b - 1);
      if Epochs(ops, net, data, a).Ok? {
        var (current, totals) := Epochs(ops, net, data, a).value;
        if Epochs(ops, current, data, b - 1).Ok? {
          var (later, more) := Epochs(ops, current, data, b - 1).value;
          if Epoch(ops, later, data).Ok? {
            assert totals + (more + [Epoch(ops, later, data).value.1])
                   == (totals + more) + [Epoch(ops, later, data).value.1];
          }
        }
      }
    } else {
      if Epochs(ops, net, data, a).Ok? {
        assert Epochs(ops, net, data, a).value.1 + [] == Epochs(ops, net, data, a).value.1;
      }
    }
  }

  /** With no examples every epoch is empty: the network is untouched and every total is zero. */
  lemma {:induction false} NoExamplesNoChange<N>(ops: NetworkOps<N>, net: N, data: TrainingSet, epochs: nat)
    requires |data.inputs| == 0
    ensures Epochs(ops, net, data, epochs) == Ok((net, Zeros(epochs)))
    decreases epochs
  {
    if epochs > 0 {
      NoExamplesNoChange(ops, net, data, epochs - 1);
      assert Zeros(epochs - 1) + [0.0] == Zeros(epochs);
    }
  }

  /**
    With the layered network, the trainer's backward pass never re-runs the
    forward pass: the network it hands over already records the trail of the
    example, so the backward pass runs over that trail whatever input is passed.
   */
  lemma TrainerUsesRecordedTrail<L(!new)>(layerOps: Networks.LayerOps<L>, net: Networks.Network<L>, inputs: Vector,
                                          errors: Vector, learningRate: real, other: Vector)
    requires Networks.Forward(net, inputs, layerOps).Ok?
    ensures var fed := Networks.Forward(net, inputs, layerOps).value.0;
            && |fed.activations| == |net.layers| + 1
            && Networks.Prepared(fed, other, layerOps) == Ok(fed)
            && Implementation(layerOps).backPropagate(fed, inputs, errors, learningRate)
               == Implementation(layerOps).backPropagate(fed, other, errors, learningRate)
  {
    var fed := Networks.Forward(net, inputs, layerOps).value.0;
    Networks.BackPropagateIgnoresInputs(fed, inputs, other, errors, learningRate, layerOps);
  }

  /**
    Training data that fits a network of the given widths: every input has
    the first width and, when the network has outputs, every example has an
    expected row at least as long as the output.
   */
  predicate Fits(data: TrainingSet, sizes: seq<nat>)
  {
    && |sizes| > 0
    && (forall i :: 0 <= i < |data.inputs| ==> |data.inputs[i]| == sizes[0])
    && (sizes[|sizes| - 1] > 0 ==>
          && |data.inputs| <= |data.expected|
          && forall i :: 0 <= i < |data.inputs| ==> sizes[|sizes| - 1] <= |data.expected[i]|)
  }

  /** One example on a well-shaped array-of-neurons network with fitting data never throws and keeps the shape. */
  lemma ShapedExampleSucceeds(sigmoid: real -> real, net: Networks.Network<Layers.Layer>, sizes: seq<nat>,
                              data: TrainingSet, i: nat)
    requires Networks.Shaped(net.layers, sizes) && Fits(data, sizes) && i < |data.inputs|
    ensures ExampleStep(Implementation(Networks.ArrayLayer(sigmoid)), net, data, i).Ok?
    ensures Networks.Shaped(ExampleStep(Implementation(Networks.ArrayLayer(sigmoid)), net, data, i).value.0.layers, sizes)
  {
    var layerOps := Networks.ArrayLayer(sigmoid);
    var x := data.inputs[i];
    Networks.ShapedForwardSucceeds(net.layers, sizes, x, sigmoid);
    var forward := Networks.Forward(net, x, layerOps);
    assert forward.Ok?;
    var (fed, outputs) := forward.value;
    assert |outputs| == sizes[|net.layers|];
    var residuals := Residuals(data.expected, i, outputs);
    assert residuals.Ok?;
    Networks.ShapedBackPropagateSucceeds(fed, sizes, x, residuals.value, data.learningRate, sigmoid);
  }

  /**
    A property of networks that every example keeps, never throwing from a
    network that has it, is kept by the first `k` examples of an epoch.
   */
  lemma {:induction false} EpochToKeeps<N>(ops: NetworkOps<N>, net: N, data: TrainingSet, k: nat, keeps: N -> bool)
    requires k <= |data.inputs| && keeps(net)
    requires forall m, i :: 0 <= i < |data.inputs| && keeps(m) ==>
               ExampleStep(ops, m, data, i).Ok? && keeps(ExampleStep(ops, m, data, i).value.0)
    ensures EpochTo(ops, net, data, k).Ok? && keeps(EpochTo(ops, net, data, k).value.0)
    decreases k
  {
    if k > 0 {
      EpochToKeeps(ops, net, data, k - 1, keeps);
      var (current, total) := EpochTo(ops, net, data, k - 1).value;
      assert ExampleStep(ops, current, data, k - 1).Ok? && keeps(ExampleStep(ops, current, data, k - 1).value.0);
      EpochToNext(ops, net, data, k - 1, current, total);
    }
  }

  /** Such a property is kept by any number of epochs, none of which throws. */
  lemma {:induction false} EpochsKeep<N>(ops: NetworkOps<N>, net: N, data: TrainingSet, epochs: nat, keeps: N -> bool)
    requires keeps(net)
    requires forall m, i :: 0 <= i < |data.inputs| && keeps(m) ==>
               ExampleStep(ops, m, data, i).Ok? && keeps(ExampleStep(ops, m, data, i).value.0)
    ensures Epochs(ops, net, data, epochs).Ok? && keeps(Epochs(ops, net, data, epochs).value.0)
    decreases epochs
  {
    if epochs > 0 {
      EpochsKeep(ops, net, data, epochs - 1, keeps);
      EpochToKeeps(ops, Epochs(ops, net, data, epochs - 1).value.0, data, |data.inputs|, keeps);
    }
  }

  /**
    Training a well-shaped array-of-neurons network on fitting data never
    throws, for any epoch count, and every layer keeps its width.
   */
  lemma ShapedTrainingSucceeds(sigmoid: real -> real, net: Networks.Network<Layers.Layer>,
                               sizes: seq<nat>, data: TrainingSet, epochs: int)
    requires Networks.Shaped(net.layers, sizes) && Fits(data, sizes)
    ensures Train(Implementation(Networks.ArrayLayer(sigmoid)), net, data, epochs).Ok?
    ensures Networks.Shaped(Train(Implementation(Networks.ArrayLayer(sigmoid)), net, data, epochs).value.0.layers, sizes)
  {
    if epochs > 0 {
      var ops := Implementation(Networks.ArrayLayer(sigmoid));
      var keeps := (m: Networks.Network<Layers.Layer>) => Networks.Shaped(m.layers, sizes);
      forall m, i | 0 <= i < |data.inputs| && keeps(m)
        ensures ExampleStep(ops, m, data, i).Ok? && keeps(ExampleStep(ops, m, data, i).value.0)
      {
        ShapedExampleSucceeds(sigmoid, m, sizes, data, i);
      }
      EpochsKeep(ops, net, data, epochs, keeps);
    }
  }
}
