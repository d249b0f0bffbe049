/**
  The network (NeuralNetwork.cs): a chain of layers built from a list of layer
  widths, a forward pass that records the activation trail, and a backward
  pass that threads the error vector through the layers from the last to the
  first, each layer reading its inputs from the trail.

  The network holds its layers through the `Layer` interface (Program.cs), so
  the model is generic in the layer type `L`: `LayerOps` carries the
  interface's two operations, and `ArrayLayer` plugs in the array-of-neurons
  layer of Layer.cs.
 */
module Networks {
  import opened Errors
  import opened Vectors
  import Layers

  /**
    The `Layer` interface: the forward pass returns the layer with its new
    caches and the outputs; the backward pass returns the updated layer and
    the error vector for the layer below.
   */
  datatype LayerOps<!L> = LayerOps(
    feedForward: (L, Vector) -> Result<(L, Vector)>,
    backpropagate: (L, Vector, Vector, real) -> Result<(L, Vector)>)

  /** The array-of-neurons layer (Layer.cs) behind the `Layer` interface. */
  function ArrayLayer(sigmoid: real -> real): (ops: LayerOps<Layers.Layer>)
    ensures forall l, inputs :: ops.feedForward(l, inputs) == Layers.FeedForward(l, inputs, sigmoid)
    ensures forall l, inputs, errors, learningRate ::
              ops.backpropagate(l, inputs, errors, learningRate) == Layers.Backpropagate(l, inputs, errors, learningRate)
  {
    LayerOps((l, inputs) => Layers.FeedForward(l, inputs, sigmoid),
             (l, inputs, errors, learningRate) => Layers.Backpropagate(l, inputs, errors, learningRate))
  }

  /**
    The layers and the activation trail of the last forward pass; the trail is
    empty until the first forward pass.
   */
  datatype Network<L> = Network(layers: seq<L>, activations: seq<Vector>)

  /**
    Array-of-neurons layers matching the width list: layer `k` has
    `sizes[k + 1]` neurons of `sizes[k]` weights each.
   */
  predicate Shaped(layers: seq<Layers.Layer>, sizes: seq<nat>)
  {
    && |sizes| == |layers| + 1
    && forall k :: 0 <= k < |layers| ==>
         |layers[k].neurons| == sizes[k + 1] && Layers.HasWidth(layers[k], sizes[k])
  }

  /** A non-empty sequence is its last element appended to the rest. */
  lemma SnocParts<T>(s: seq<T>)
    requires |s| > 0
    ensures s[..|s|] == s
    ensures s[..|s| - 1] + [s[|s| - 1]] == s
  {
  }

  /**
    The constructor: one layer per consecutive pair of `layerSizes`, made by
    the factory call `createLayer(k, layerSizes[k + 1], layerSizes[k])`; the
    call number `k` stands for the factory's hidden random state. A width list
    with fewer than two entries gives a network without layers. The
    activation trail starts empty.
   */
  method New<L>(layerSizes: seq<nat>, createLayer: (nat, nat, nat) -> L) returns (net: Network<L>)
    ensures |layerSizes| <= 1 ==> net.layers == []
    ensures |layerSizes| >= 1 ==> |net.layers| == |layerSizes| - 1
    ensures forall k :: 0 <= k < |net.layers| ==> net.layers[k] == createLayer(k, layerSizes[k + 1], layerSizes[k])
    ensures net.activations == []
  {
    var layers: seq<L> := [];
    var i := 1;
    while i < |layerSizes|
      invariant 1 <= i <= |layerSizes| || (|layerSizes| == 0 && i == 1)
      invariant |layers| == i - 1
      invariant forall k :: 0 <= k < |layers| ==> layers[k] == createLayer(k, layerSizes[k + 1], layerSizes[k])
    {
      layers := layers + [createLayer(i - 1, layerSizes[i], layerSizes[i - 1])];
      i := i + 1;
    }
    net := Network(layers, []);
  }

  /**
    A factory that builds each array-of-neurons layer with the requested
    neuron count and input width yields a network matching the width list.
   */
  lemma FactoryShaped(layers: seq<Layers.Layer>, layerSizes: seq<nat>, createLayer: (nat, nat, nat) -> Layers.Layer)
    requires |layerSizes| >= 1 && |layers| == |layerSizes| - 1
    requires forall k :: 0 <= k < |layers| ==> layers[k] == createLayer(k, layerSizes[k + 1], layerSizes[k])
    requires forall k :: 0 <= k && k + 1 < |layerSizes| ==>
               |createLayer(k, layerSizes[k + 1], layerSizes[k]).neurons| == layerSizes[k + 1]
               && Layers.HasWidth(createLayer(k, layerSizes[k + 1], layerSizes[k]), layerSizes[k])
    ensures Shaped(layers, layerSizes)
  {
    forall k | 0 <= k < |layers|
      ensures |layers[k].neurons| == layerSizes[k + 1] && Layers.HasWidth(layers[k], layerSizes[k])
    {
      assert layers[k] == createLayer(k, layerSizes[k + 1], layerSizes[k]);
    }
  }

  /**
    The forward pass through `layers`, as a reference definition: each layer
    is fed the previous layer's output (the first one the input). The result
    holds the layers with their new caches and the output of every layer, in
    order.
   */
  function ForwardLayers<L>(layers: seq<L>, inputs: Vector, ops: LayerOps<L>)
    : (r: Result<(seq<L>, seq<Vector>)>)
    ensures r.Ok? ==> |r.value.0| == |layers| && |r.value.1| == |layers|
    decreases |layers|
  {
    if |layers| == 0 then Ok(([], []))
    else
      var n := |layers| - 1;
      match ForwardLayers(layers[..n], inputs, ops)
      case Err(e) => Err(e)
      case Ok((updated, outputs)) =>
        match ops.feedForward(layers[n], ([inputs] + outputs)[n])
        case Err(e) => Err(e)
        case Ok((layer, output)) => Ok((updated + [layer], outputs + [output]))
  }

  /**
    A successful forward pass runs along its trail: the input, then the output
    of each layer in order, each layer having been fed the entry before its own.
   */
  lemma {:induction false} ForwardLayersTrail<L>(layers: seq<L>, inputs: Vector, ops: LayerOps<L>)
    requires ForwardLayers(layers, inputs, ops).Ok?
    ensures ForwardTrail(layers, ops, ForwardLayers(layers, inputs, ops).value.0,
                         [inputs] + ForwardLayers(layers, inputs, ops).value.1)
    decreases |layers|
  {
    if |layers| > 0 {
      var n := |layers| - 1;
      ForwardLayersTrail(layers[..n], inputs, ops);
      var (updated, outputs) := ForwardLayers(layers[..n], inputs, ops).value;
      var trail := [inputs] + outputs;
      var (layer, output) := ops.feedForward(layers[n], trail[n]).value;
      ForwardTrailSnoc(layers, ops, updated, trail, layer, output);
      assert trail + [output] == [inputs] + (outputs + [output]);
    }
  }

  /**
    `updated` and `trail` are what a forward pass through `layers` leaves:
    layer `k` fed `trail[k]` becomes `updated[k]` and outputs `trail[k + 1]`.
   */
  ghost predicate ForwardTrail<L>(layers: seq<L>, ops: LayerOps<L>,
                               updated: seq<L>, trail: seq<Vector>)
  {
    && |updated| == |layers| && |trail| == |layers| + 1
    && forall k {:trigger updated[k]} :: 0 <= k < |layers| ==>
         ops.feedForward(layers[k], trail[k]) == Ok((updated[k], trail[k + 1]))
  }

  /** A trail for all layers but the last, followed by the last layer's step, is a trail for the whole chain. */
  lemma ForwardTrailSnoc<L>(layers: seq<L>, ops: LayerOps<L>, updated: seq<L>,
                         trail: seq<Vector>, layer: L, output: Vector)
    requires |layers| > 0
    requires ForwardTrail(layers[..|layers| - 1], ops, updated, trail)
    requires ops.feedForward(layers[|layers| - 1], trail[|layers| - 1]) == Ok((layer, output))
    ensures ForwardTrail(layers, ops, updated + [layer], trail + [output])
  {
    var n := |layers| - 1;
    forall k | 0 <= k < |layers|
      ensures ops.feedForward(layers[k], (trail + [output])[k])
              == Ok(((updated + [layer])[k], (trail + [output])[k + 1]))
    {
      if k < n {
        assert layers[k] == layers[..n][k];
      }
    }
  }

  /** The first `n` steps of a forward trail are a forward trail of the first `n` layers. */
  lemma ForwardTrailPrefix<L>(layers: seq<L>, ops: LayerOps<L>,
                           updated: seq<L>, trail: seq<Vector>, n: nat)
    requires ForwardTrail(layers, ops, updated, trail) && n <= |layers|
    ensures ForwardTrail(layers[..n], ops, updated[..n], trail[..n + 1])
  {
    forall k | 0 <= k < n
      ensures ops.feedForward(layers[..n][k], trail[..n + 1][k])
              == Ok((updated[..n][k], trail[..n + 1][k + 1]))
    {
      assert ops.feedForward(layers[k], trail[k]) == Ok((updated[k], trail[k + 1]));
    }
  }

  /**
    The trail determines the forward pass: whenever every layer fed its trail
    entry produces the next one, the forward pass succeeds with exactly those
    layers and outputs. With the contract of `ForwardLayers` this makes the
    trail equations a complete description of a successful forward pass.
   */
  lemma {:induction false} ForwardLayersFollowsTrail<L>(layers: seq<L>, ops: LayerOps<L>,
                                                     updated: seq<L>, trail: seq<Vector>)
    requires ForwardTrail(layers, ops, updated, trail)
    ensures ForwardLayers(layers, trail[0], ops) == Ok((updated, trail[1..]))
    decreases |layers|
  {
    if |layers| > 0 {
      var n := |layers| - 1;
      ForwardTrailPrefix(layers, ops, updated, trail, n);
      ForwardLayersFollowsTrail(layers[..n], ops, updated[..n], trail[..n + 1]);
      var step := ops.feedForward(layers[n], trail[n]);
      assert step == Ok((updated[n], trail[n + 1]));
      ForwardLayersSnoc(layers, trail[0], ops, n, updated[..n], trail[..n + 1], step);
      SnocParts(layers);
      SnocParts(updated);
      SnocParts(trail);
    } else {
      assert updated == [] && trail[1..] == [];
    }
  }

  /**
    A forward pass that fails on a prefix of the chain fails on the whole
    chain, with the same exception: no later layer runs.
   */
  lemma {:induction false} ForwardLayersFailurePersists<L>(layers: seq<L>, inputs: Vector,
                                                        ops: LayerOps<L>, i: nat, e: Error)
    requires i <= |layers|
    requires ForwardLayers(layers[..i], inputs, ops) == Err(e)
    ensures ForwardLayers(layers, inputs, ops) == Err(e)
    decreases |layers|
  {
    if i == |layers| {
      assert layers[..i] == layers;
    } else {
      var n := |layers| - 1;
      assert layers[..n][..i] == layers[..i];
      ForwardLayersFailurePersists(layers[..n], inputs, ops, i, e);
    }
  }

  /** One more layer of a successful forward prefix, as the loop of `FeedForward` takes it. */
  lemma ForwardLayersSnoc<L>(layers: seq<L>, inputs: Vector, ops: LayerOps<L>, i: nat,
                          updated: seq<L>, trail: seq<Vector>, step: Result<(L, Vector)>)
    requires i < |layers| && |trail| == i + 1 && trail[0] == inputs
    requires ForwardLayers(layers[..i], inputs, ops) == Ok((updated, trail[1..]))
    requires step == ops.feedForward(layers[i], trail[i])
    ensures step.Err? ==> ForwardLayers(layers[..i + 1], inputs, ops) == Err(step.error)
    ensures step.Ok? ==>
              ForwardLayers(layers[..i + 1], inputs, ops) == Ok((updated + [step.value.0], (trail + [step.value.1])[1..]))
  {
    assert layers[..i + 1][..i] == layers[..i];
    assert [inputs] + trail[1..] == trail;
    if step.Ok? {
      assert (trail + [step.value.1])[1..] == trail[1..] + [step.value.1];
    }
  }

  /**
    `FeedForward` as a reference definition: the network with its new layer
    caches and the trail `[inputs] + outputs`, and the last trail entry.
   */
  function Forward<L>(net: Network<L>, inputs: Vector, ops: LayerOps<L>): (r: Result<(Network<L>, Vector)>)
    ensures r.Err? <==> ForwardLayers(net.layers, inputs, ops).Err?
    ensures r.Ok? ==> |r.value.0.layers| == |net.layers| && |r.value.0.activations| == |net.layers| + 1
    ensures r.Ok? ==> r.value.0.activations[0] == inputs && r.value.1 == r.value.0.activations[|net.layers|]
  {
    match ForwardLayers(net.layers, inputs, ops)
    case Err(e) => Err(e)
    case Ok((layers, outputs)) =>
      var trail := [inputs] + outputs;
      Ok((Network(layers, trail), trail[|net.layers|]))
  }

  /**
    `FeedForward`: the trail is reset to the input, each layer in order is fed
    the previous output and appends its own output to the trail, and the last
    output is returned (the input itself when there are no layers). The first
    layer that throws ends the pass with its exception.
   */
  method FeedForward<L>(net: Network<L>, inputs: Vector, ops: LayerOps<L>) returns (r: Result<(Network<L>, Vector)>)
    ensures r.Err? <==> ForwardLayers(net.layers, inputs, ops).Err?
    ensures r.Ok? ==> |r.value.0.layers| == |net.layers| && |r.value.0.activations| == |net.layers| + 1
    ensures r.Ok? ==> r.value.0.activations[0] == inputs
    ensures r.Ok? ==> r.value.1 == r.value.0.activations[|net.layers|]
    ensures r.Ok? ==> ForwardTrail(net.layers, ops, r.value.0.layers, r.value.0.activations)
    ensures r.Ok? ==> ForwardLayers(net.layers, inputs, ops) == Ok((r.value.0.layers, r.value.0.activations[1..]))
    ensures net.layers == [] ==> r == Ok((Network([], [inputs]), inputs))
    ensures r == Forward(net, inputs, ops)
  {
    var layers, activations := ForwardLoop(net.layers, inputs, ops);
    if layers.Err? {
      return Err(layers.error);
    }
    ForwardLayersTrail(net.layers, inputs, ops);
    assert [inputs] + activations[1..] == activations;
    if net.layers == [] {
      assert activations == [inputs];
    }
    r := Ok((Network(layers.value, activations), activations[|net.layers|]));
  }

  /**
    The loop of `FeedForward`: each layer in order is fed the last entry of
    the trail and appends its output to it; the first failing layer stops the
    loop.
   */
  method ForwardLoop<L>(layers: seq<L>, inputs: Vector, ops: LayerOps<L>)
    returns (r: Result<seq<L>>, activations: seq<Vector>)
    ensures r.Err? <==> ForwardLayers(layers, inputs, ops).Err?
    ensures r.Err? ==> ForwardLayers(layers, inputs, ops) == Err(r.error)
    ensures r.Ok? ==> |activations| == |layers| + 1 && activations[0] == inputs
    ensures r.Ok? ==> ForwardLayers(layers, inputs, ops) == Ok((r.value, activations[1..]))
  {
    activations := [inputs];
    var updated: seq<L> := [];
    var i := 0;
    assert layers[..0] == [] && activations[1..] == [];
    while i < |layers|
      invariant 0 <= i <= |layers|
      invariant |activations| == i + 1 && activations[0] == inputs
      invariant ForwardLayers(layers[..i], inputs, ops) == Ok((updated, activations[1..]))
    {
      var step := ops.feedForward(layers[i], activations[i]);
      ForwardLayersSnoc(layers, inputs, ops, i, updated, activations, step);
      if step.Err? {
        ForwardLayersFailurePersists(layers, inputs, ops, i + 1, step.error);
        return Err(step.error), activations;
      }
      updated := updated + [step.value.0];
      activations := activations + [step.value.1];
      i := i + 1;
    }
    assert layers[..i] == layers;
    r := Ok(updated);
  }

  /**
    A well-shaped network fed an input of the first width never throws: every
    trail entry has the width of its position in the width list, and the
    layers keep their shapes.
   */
  lemma {:induction false} ShapedForwardSucceeds(layers: seq<Layers.Layer>, sizes: seq<nat>, inputs: Vector,
                                                 sigmoid: real -> real)
    requires Shaped(layers, sizes) && |inputs| == sizes[0]
    ensures ForwardLayers(layers, inputs, ArrayLayer(sigmoid)).Ok?
    ensures var trail := [inputs] + ForwardLayers(layers, inputs, ArrayLayer(sigmoid)).value.1;
            forall k :: 0 <= k <= |layers| ==> |trail[k]| == sizes[k]
    ensures Shaped(ForwardLayers(layers, inputs, ArrayLayer(sigmoid)).value.0, sizes)
    decreases |layers|
  {
    if |layers| > 0 {
      var n := |layers| - 1;
      assert Shaped(layers[..n], sizes[..n + 1]) by {
        forall k | 0 <= k < n
          ensures |layers[..n][k].neurons| == sizes[..n + 1][k + 1] && Layers.HasWidth(layers[..n][k], sizes[..n + 1][k])
        {
          assert layers[..n][k] == layers[k];
        }
      }
      ShapedForwardSucceeds(layers[..n], sizes[..n + 1], inputs, sigmoid);
      var (updated, outputs) := ForwardLayers(layers[..n], inputs, ArrayLayer(sigmoid)).value;
      var trail := [inputs] + outputs;
      assert |trail[n]| == sizes[n];
      var step := Layers.FeedForward(layers[n], trail[n], sigmoid);
      assert step.Ok?;
      var (layer, output) := step.value;
      var all := ForwardLayers(layers, inputs, ArrayLayer(sigmoid)).value;
      assert all == (updated + [layer], outputs + [output]);
      var whole := [inputs] + all.1;
      assert whole == trail + [output];
      forall k | 0 <= k <= |layers|
        ensures |whole[k]| == sizes[k]
      {
        if k <= n {
          assert whole[k] == trail[k];
        }
      }
      forall k | 0 <= k < |layers|
        ensures |all.0[k].neurons| == sizes[k + 1] && Layers.HasWidth(all.0[k], sizes[k])
      {
        if k < n {
          assert all.0[k] == updated[k];
        } else {
          assert all.0[k] == layer;
          forall m | 0 <= m < |layer.neurons|
            ensures |layer.neurons[m].weights| == sizes[k]
          {
            assert layer.neurons[m].weights == layers[n].neurons[m].weights;
          }
        }
      }
    }
  }

  /**
    The backward pass through layers `k - 1` down to `0`, as a reference
    definition: layer `k - 1` takes `errors` with its recorded inputs
    `activations[k - 1]`, and the error vector it returns is handed to the
    layer below. The result holds the updated layers and the error vector for
    the network's input. A trail too short for a layer throws the list's
    `ArgumentOutOfRangeException`, which is an `ArgumentException`.
   */
  function BackwardLayers<L>(ops: LayerOps<L>, layers: seq<L>, activations: seq<Vector>, errors: Vector,
                          learningRate: real, k: nat): (r: Result<(seq<L>, Vector)>)
    requires k <= |layers|
    ensures r.Ok? ==> |r.value.0| == |layers|
    ensures r.Ok? ==> forall m :: k <= m < |layers| ==> r.value.0[m] == layers[m]
    ensures k > |activations| ==> r == Err(ArgumentError)
    decreases k
  {
    if k == 0 then Ok((layers, errors))
    else if k - 1 >= |activations| then Err(ArgumentError)
    else
      match ops.backpropagate(layers[k - 1], activations[k - 1], errors, learningRate)
      case Err(e) => Err(e)
      case Ok((layer, previousErrors)) =>
        BackwardLayers(ops, layers[k - 1 := layer], activations, previousErrors, learningRate, k - 1)
  }

  /**
    `updated` and `errorTrail` are what a backward pass through layers
    `k - 1 .. 0` leaves: layer `m` fed `activations[m]` and `errorTrail[m + 1]`
    becomes `updated[m]` and returns `errorTrail[m]`; layers from `k` up are
    untouched.
   */
  ghost predicate BackwardTrail<L>(ops: LayerOps<L>, layers: seq<L>, activations: seq<Vector>, learningRate: real, k: nat,
                                updated: seq<L>, errorTrail: seq<Vector>)
  {
    && k <= |layers| && k <= |activations| && |updated| == |layers| && |errorTrail| == k + 1
    && (forall m :: k <= m < |layers| ==> updated[m] == layers[m])
    && (forall m {:trigger updated[m]} :: 0 <= m < k ==>
          ops.backpropagate(layers[m], activations[m], errorTrail[m + 1], learningRate)
          == Ok((updated[m], errorTrail[m])))
  }

  /**
    The error trail determines the backward pass: whenever each layer, fed its
    inputs and the errors from the layer above, returns the next entry of the
    trail, the backward pass succeeds with exactly those layers.
   */
  lemma {:induction false} BackwardLayersFollowsTrail<L>(ops: LayerOps<L>, layers: seq<L>, activations: seq<Vector>,
                                                      learningRate: real, k: nat,
                                                      updated: seq<L>, errorTrail: seq<Vector>)
    requires BackwardTrail(ops, layers, activations, learningRate, k, updated, errorTrail)
    ensures BackwardLayers(ops, layers, activations, errorTrail[k], learningRate, k) == Ok((updated, errorTrail[0]))
    decreases k
  {
    if k == 0 {
      assert layers == updated;
    } else {
      var next := layers[k - 1 := updated[k - 1]];
      assert ops.backpropagate(layers[k - 1], activations[k - 1], errorTrail[k], learningRate)
             == Ok((updated[k - 1], errorTrail[k - 1]));
      assert BackwardTrail(ops, next, activations, learningRate, k - 1, updated, errorTrail[..k]) by {
        forall m | 0 <= m < k - 1
          ensures ops.backpropagate(next[m], activations[m], errorTrail[..k][m + 1], learningRate)
                  == Ok((updated[m], errorTrail[..k][m]))
        {
          assert ops.backpropagate(layers[m], activations[m], errorTrail[m + 1], learningRate)
                 == Ok((updated[m], errorTrail[m]));
        }
      }
      BackwardLayersFollowsTrail(ops, next, activations, learningRate, k - 1, updated, errorTrail[..k]);
    }
  }

  /**
    A successful backward pass runs along an error trail: the top layer
    receives the given errors, each layer hands the errors it returns to the
    layer below, and the pass ends with the errors the bottom layer returned.
    With `BackwardLayersFollowsTrail` this makes the trail equations a complete
    description of a successful backward pass.
   */
  lemma {:induction false} BackwardLayersTrail<L>(ops: LayerOps<L>, layers: seq<L>, activations: seq<Vector>, errors: Vector,
                                               learningRate: real, k: nat)
    returns (trail: seq<Vector>)
    requires k <= |layers|
    requires BackwardLayers(ops, layers, activations, errors, learningRate, k).Ok?
    ensures BackwardTrail(ops, layers, activations, learningRate, k,
                          BackwardLayers(ops, layers, activations, errors, learningRate, k).value.0, trail)
    ensures trail[k] == errors
    ensures trail[0] == BackwardLayers(ops, layers, activations, errors, learningRate, k).value.1
    decreases k
  {
    if k == 0 {
      trail := [errors];
    } else {
      var step := ops.backpropagate(layers[k - 1], activations[k - 1], errors, learningRate);
      BackwardLayersUnfold(ops, layers, activations, errors, learningRate, k, step);
      assert step.Ok?;
      var layer, previousErrors := step.value.0, step.value.1;
      assert step == Ok((layer, previousErrors));
      var next := layers[k - 1 := layer];
      var updated := BackwardLayers(ops, next, activations, previousErrors, learningRate, k - 1).value.0;
      var inner := BackwardLayersTrail(ops, next, activations, previousErrors, learningRate, k - 1);
      assert inner[k - 1] == previousErrors;
      assert BackwardTrail(ops, next, activations, learningRate, k - 1, updated, inner);
      trail := inner + [errors];
      BackwardTrailExtend(ops, layers, activations, learningRate, k, errors, layer, previousErrors, updated, inner);
    }
  }

  /** A trail for layers `k - 2 .. 0` after layer `k - 1` has taken its step is a trail for layers `k - 1 .. 0`. */
  lemma BackwardTrailExtend<L>(ops: LayerOps<L>, layers: seq<L>, activations: seq<Vector>, learningRate: real, k: nat,
                            errors: Vector, layer: L, previousErrors: Vector,
                            updated: seq<L>, inner: seq<Vector>)
    requires 0 < k <= |layers| && k - 1 < |activations|
    requires ops.backpropagate(layers[k - 1], activations[k - 1], errors, learningRate) == Ok((layer, previousErrors))
    requires BackwardTrail(ops, layers[k - 1 := layer], activations, learningRate, k - 1, updated, inner)
    requires inner[k - 1] == previousErrors
    ensures BackwardTrail(ops, layers, activations, learningRate, k, updated, inner + [errors])
  {
    var next, trail := layers[k - 1 := layer], inner + [errors];
    forall m | 0 <= m < k - 1
      ensures ops.backpropagate(layers[m], activations[m], trail[m + 1], learningRate)
              == Ok((updated[m], trail[m]))
    {
      assert next[m] == layers[m] && trail[m + 1] == inner[m + 1] && trail[m] == inner[m];
    }
    assert updated[k - 1] == layer;
  }

  /** One iteration of the backward pass, as `BackwardLayers` takes it. */
  lemma BackwardLayersUnfold<L>(ops: LayerOps<L>, layers: seq<L>, activations: seq<Vector>, errors: Vector,
                             learningRate: real, k: nat, step: Result<(L, Vector)>)
    requires 0 < k <= |layers| && k - 1 < |activations|
    requires step == ops.backpropagate(layers[k - 1], activations[k - 1], errors, learningRate)
    ensures step.Err? ==> BackwardLayers(ops, layers, activations, errors, learningRate, k) == Err(step.error)
    ensures step.Ok? ==>
              BackwardLayers(ops, layers, activations, errors, learningRate, k)
              == BackwardLayers(ops, layers[k - 1 := step.value.0], activations, step.value.1, learningRate, k - 1)
  {
  }

  /**
    One iteration of the backward loop: layer `i - 1` takes its recorded inputs
    and the current errors; what is left of the backward pass afterwards is
    the pass over the layers below it with the errors it returned.
   */
  method BackwardStep<L>(ops: LayerOps<L>, layers: seq<L>, activations: seq<Vector>, errors: Vector, learningRate: real, i: nat)
    returns (r: Result<(seq<L>, Vector)>)
    requires 0 < i <= |layers|
    ensures r.Err? ==> BackwardLayers(ops, layers, activations, errors, learningRate, i) == Err(r.error)
    ensures r.Ok? ==> |r.value.0| == |layers|
    ensures r.Ok? ==> BackwardLayers(ops, layers, activations, errors, learningRate, i)
                      == BackwardLayers(ops, r.value.0, activations, r.value.1, learningRate, i - 1)
  {
    if i - 1 >= |activations| {
      return Err(ArgumentError);
    }
    var step := ops.backpropagate(layers[i - 1], activations[i - 1], errors, learningRate);
    if step.Err? {
      return Err(step.error);
    }
    r := Ok((layers[i - 1 := step.value.0], step.value.1));
  }

  /**
    The backward loop of `BackPropagate` over a given trail: for `i` from the
    last layer down to the first, layer `i` takes `activations[i]` and the
    current errors and replaces them with the errors it returns; a trail
    entry missing for a layer throws.
   */
  method BackwardLoop<L>(ops: LayerOps<L>, layers: seq<L>, activations: seq<Vector>, outputErrors: Vector, learningRate: real)
    returns (r: Result<(seq<L>, Vector)>)
    ensures r == BackwardLayers(ops, layers, activations, outputErrors, learningRate, |layers|)
  {
    var current := layers;
    var errors := outputErrors;
    var i: nat := |layers|;
    while i > 0
      invariant i <= |current| == |layers|
      invariant BackwardLayers(ops, current, activations, errors, learningRate, i)
                == BackwardLayers(ops, layers, activations, outputErrors, learningRate, |layers|)
    {
      var step := BackwardStep(ops, current, activations, errors, learningRate, i);
      if step.Err? {
        return Err(step.error);
      }
      current, errors := step.value.0, step.value.1;
      i := i - 1;
    }
    BackwardLayersDone(ops, current, activations, errors, learningRate);
    r := Ok((current, errors));
  }

  /** With no layer left to run, the backward pass returns its inputs. */
  lemma BackwardLayersDone<L>(ops: LayerOps<L>, layers: seq<L>, activations: seq<Vector>, errors: Vector, learningRate: real)
    ensures BackwardLayers(ops, layers, activations, errors, learningRate, 0) == Ok((layers, errors))
  {
  }

  /**
    The backward loop together with the error trail it runs along: when it
    succeeds, the error vector each layer received is the one the layer above
    returned (`outputErrors` for the last layer), and the loop ends with the
    errors the first layer returned.
   */
  method BackwardPass<L>(ops: LayerOps<L>, layers: seq<L>, activations: seq<Vector>, outputErrors: Vector, learningRate: real)
    returns (r: Result<(seq<L>, Vector)>, ghost errorTrail: seq<Vector>)
    ensures r == BackwardLayers(ops, layers, activations, outputErrors, learningRate, |layers|)
    ensures r.Ok? ==> BackwardTrail(ops, layers, activations, learningRate, |layers|, r.value.0, errorTrail)
    ensures r.Ok? ==> errorTrail[|layers|] == outputErrors && errorTrail[0] == r.value.1
  {
    r := BackwardLoop(ops, layers, activations, outputErrors, learningRate);
    errorTrail := [];
    if r.Ok? {
      errorTrail := BackwardLayersTrail(ops, layers, activations, outputErrors, learningRate, |layers|);
    }
  }

  /**
    The first half of `BackPropagate`: a network with a recorded trail is used
    as it is; one without is first fed `initialInputs`.
   */
  function Prepared<L>(net: Network<L>, initialInputs: Vector, ops: LayerOps<L>): (r: Result<Network<L>>)
    ensures |net.activations| > 0 ==> r == Ok(net)
    ensures |net.activations| == 0 ==> (r.Ok? <==> ForwardLayers(net.layers, initialInputs, ops).Ok?)
    ensures r.Ok? ==> |r.value.layers| == |net.layers|
    ensures r.Ok? && |net.activations| == 0 ==> |r.value.activations| == |net.layers| + 1
  {
    if |net.activations| == 0 then
      match Forward(net, initialInputs, ops)
      case Err(e) => Err(e)
      case Ok((fed, _)) => Ok(fed)
    else Ok(net)
  }

  /**
    `BackPropagate` as a reference definition: when no forward pass has
    recorded a trail yet, one is run on `initialInputs` first; then the
    backward pass runs over the recorded trail, and its final error vector is
    discarded. The input the caller passes is otherwise ignored.
   */
  function BackPropagate<L>(net: Network<L>, initialInputs: Vector, outputErrors: Vector, learningRate: real,
                         ops: LayerOps<L>): (r: Result<Network<L>>)
    ensures r.Ok? ==> |r.value.layers| == |net.layers|
    ensures r.Ok? && |net.activations| > 0 ==> r.value.activations == net.activations
    ensures r.Ok? && |net.activations| == 0 ==> |r.value.activations| == |net.layers| + 1
  {
    match Prepared(net, initialInputs, ops)
    case Err(e) => Err(e)
    case Ok(fed) =>
      match BackwardLayers(ops, fed.layers, fed.activations, outputErrors, learningRate, |fed.layers|)
      case Err(e) => Err(e)
      case Ok((layers, _)) => Ok(Network(layers, fed.activations))
  }

  /**
    The method form of `BackPropagate`: the forward pass on `initialInputs`
    runs only when no trail is recorded, then the backward loop runs over the
    trail.
   */
  method BackPropagateLoop<L>(net: Network<L>, initialInputs: Vector, outputErrors: Vector, learningRate: real,
                           ops: LayerOps<L>) returns (r: Result<Network<L>>)
    ensures r == BackPropagate(net, initialInputs, outputErrors, learningRate, ops)
  {
    var fed := net;
    if |net.activations| == 0 {
      var forward := FeedForward(net, initialInputs, ops);
      if forward.Err? {
        assert Prepared(net, initialInputs, ops) == Err(forward.error);
        return Err(forward.error);
      }
      fed := forward.value.0;
      assert [initialInputs] + fed.activations[1..] == fed.activations;
    }
    assert Prepared(net, initialInputs, ops) == Ok(fed);
    var backward, _ := BackwardPass(ops, fed.layers, fed.activations, outputErrors, learningRate);
    if backward.Err? {
      return Err(backward.error);
    }
    r := Ok(Network(backward.value.0, fed.activations));
  }

  /** Once a trail is recorded, the inputs passed to `BackPropagate` make no difference. */
  lemma BackPropagateIgnoresInputs<L>(net: Network<L>, inputs1: Vector, inputs2: Vector, outputErrors: Vector,
                                   learningRate: real, ops: LayerOps<L>)
    requires |net.activations| > 0
    ensures BackPropagate(net, inputs1, outputErrors, learningRate, ops)
            == BackPropagate(net, inputs2, outputErrors, learningRate, ops)
  {
  }

  /**
    Before any forward pass, `BackPropagate` is a forward pass on the given
    input followed by the backward pass over the trail it records.
   */
  lemma BackPropagateFeedsFirst<L>(net: Network<L>, inputs: Vector, outputErrors: Vector, learningRate: real,
                                ops: LayerOps<L>)
    requires net.activations == []
    ensures Forward(net, inputs, ops).Err? ==>
              BackPropagate(net, inputs, outputErrors, learningRate, ops) == Err(Forward(net, inputs, ops).error)
    ensures Forward(net, inputs, ops).Ok? ==>
              BackPropagate(net, inputs, outputErrors, learningRate, ops)
              == BackPropagate(Forward(net, inputs, ops).value.0, inputs, outputErrors, learningRate, ops)
  {
  }

  /**
    `fits(l, a, b)` says that layer `l` takes `a` inputs and has `b` neurons.
    A layer kind keeps that shape on the way back when a fitting layer, fed
    `a` inputs and at least `b` errors, never throws, still fits afterwards
    and hands down `a` errors.
   */
  ghost predicate StepKeepsShape<L(!new)>(ops: LayerOps<L>, fits: (L, nat, nat) -> bool)
  {
    forall l, b: nat, inputs: Vector, errors: Vector, learningRate: real
      | fits(l, |inputs|, b) && |errors| >= b ::
        && ops.backpropagate(l, inputs, errors, learningRate).Ok?
        && fits(ops.backpropagate(l, inputs, errors, learningRate).value.0, |inputs|, b)
        && |ops.backpropagate(l, inputs, errors, learningRate).value.1| == |inputs|
  }

  /** Layer `k` of the chain fits widths `sizes[k]` and `sizes[k + 1]`. */
  predicate FitsAll<L>(fits: (L, nat, nat) -> bool, layers: seq<L>, sizes: seq<nat>)
  {
    && |sizes| == |layers| + 1
    && forall k :: 0 <= k < |layers| ==> fits(layers[k], sizes[k], sizes[k + 1])
  }

  /**
    For a layer kind that keeps its shape, a chain that fits the width list
    and whose recorded inputs have its widths never throws on the way back,
    provided the top layer gets an error for each of its neurons; the updated
    chain still fits.
   */
  lemma {:induction false} BackwardKeepsShape<L(!new)>(ops: LayerOps<L>, fits: (L, nat, nat) -> bool, layers: seq<L>,
                                                 sizes: seq<nat>, activations: seq<Vector>, errors: Vector,
                                                 learningRate: real, k: nat)
    requires StepKeepsShape(ops, fits) && FitsAll(fits, layers, sizes)
    requires k <= |layers| && k <= |activations|
    requires forall m :: 0 <= m < k ==> |activations[m]| == sizes[m]
    requires |errors| >= sizes[k]
    ensures BackwardLayers(ops, layers, activations, errors, learningRate, k).Ok?
    ensures FitsAll(fits, BackwardLayers(ops, layers, activations, errors, learningRate, k).value.0, sizes)
    decreases k
  {
    if k > 0 {
      assert fits(layers[k - 1], |activations[k - 1]|, sizes[k]);
      var step := ops.backpropagate(layers[k - 1], activations[k - 1], errors, learningRate);
      var next := layers[k - 1 := step.value.0];
      forall n | 0 <= n < |next|
        ensures fits(next[n], sizes[n], sizes[n + 1])
      {
        if n != k - 1 {
          assert next[n] == layers[n];
        }
      }
      BackwardKeepsShape(ops, fits, next, sizes, activations, step.value.1, learningRate, k - 1);
    }
  }

  /** The shape `Shaped` asks of each array layer: `a` inputs per neuron and `b` neurons. */
  predicate ArrayFits(l: Layers.Layer, a: nat, b: nat)
  {
    |l.neurons| == b && Layers.HasWidth(l, a)
  }

  /**
    A layer whose neurons all take the input's width, handed an error for each
    neuron, never throws in `Backpropagate`, keeps its shape and hands down an
    error per input.
   */
  lemma ArrayLayerKeepsShape(sigmoid: real -> real)
    ensures StepKeepsShape(ArrayLayer(sigmoid), ArrayFits)
  {
    forall l, b: nat, inputs: Vector, errors: Vector, learningRate: real
      | ArrayFits(l, |inputs|, b) && |errors| >= b
      ensures Layers.Backpropagate(l, inputs, errors, learningRate).Ok?
      ensures ArrayFits(Layers.Backpropagate(l, inputs, errors, learningRate).value.0, |inputs|, b)
      ensures |Layers.Backpropagate(l, inputs, errors, learningRate).value.1| == |inputs|
    {
      Layers.BackpropagateKeepsShape(l, inputs, errors, learningRate);
    }
  }

  /**
    A well-shaped chain whose recorded inputs have the widths of the width
    list never throws on the way back, provided the error vector handed to
    the top layer has an entry for each of its neurons; the updated chain
    keeps its shape.
   */
  lemma ShapedBackwardSucceeds(sigmoid: real -> real, layers: seq<Layers.Layer>, sizes: seq<nat>,
                               activations: seq<Vector>, errors: Vector, learningRate: real, k: nat)
    requires Shaped(layers, sizes) && k <= |layers| && k <= |activations|
    requires forall m :: 0 <= m < k ==> |activations[m]| == sizes[m]
    requires |errors| >= sizes[k]
    ensures BackwardLayers(ArrayLayer(sigmoid), layers, activations, errors, learningRate, k).Ok?
    ensures Shaped(BackwardLayers(ArrayLayer(sigmoid), layers, activations, errors, learningRate, k).value.0, sizes)
  {
    ArrayLayerKeepsShape(sigmoid);
    ShapedFitsAll(layers, sizes);
    BackwardKeepsShape(ArrayLayer(sigmoid), ArrayFits, layers, sizes, activations, errors, learningRate, k);
    ShapedFitsAll(BackwardLayers(ArrayLayer(sigmoid), layers, activations, errors, learningRate, k).value.0, sizes);
  }

  /** `Shaped` is `FitsAll` with the array layer's fit. */
  lemma ShapedFitsAll(layers: seq<Layers.Layer>, sizes: seq<nat>)
    ensures Shaped(layers, sizes) <==> FitsAll(ArrayFits, layers, sizes)
  {
    if FitsAll(ArrayFits, layers, sizes) {
      forall k | 0 <= k < |layers|
        ensures |layers[k].neurons| == sizes[k + 1] && Layers.HasWidth(layers[k], sizes[k])
      {
        assert ArrayFits(layers[k], sizes[k], sizes[k + 1]);
      }
    }
  }

  /**
    A well-shaped network, fed an input of the first width and handed an
    error for every output neuron, never throws in `BackPropagate`, whether
    the trail is recorded by an earlier forward pass or by its own.
   */
  lemma ShapedBackPropagateSucceeds(net: Network<Layers.Layer>, sizes: seq<nat>, inputs: Vector, outputErrors: Vector,
                                    learningRate: real, sigmoid: real -> real)
    requires Shaped(net.layers, sizes) && |inputs| == sizes[0] && |outputErrors| >= sizes[|net.layers|]
    requires net.activations == []
             || (|net.activations| == |net.layers| + 1
                 && forall m :: 0 <= m <= |net.layers| ==> |net.activations[m]| == sizes[m])
    ensures BackPropagate(net, inputs, outputErrors, learningRate, ArrayLayer(sigmoid)).Ok?
    ensures Shaped(BackPropagate(net, inputs, outputErrors, learningRate, ArrayLayer(sigmoid)).value.layers, sizes)
  {
    if net.activations == [] {
      ShapedForwardSucceeds(net.layers, sizes, inputs, sigmoid);
      var (layers, outputs) := ForwardLayers(net.layers, inputs, ArrayLayer(sigmoid)).value;
      ShapedBackwardSucceeds(sigmoid, layers, sizes, [inputs] + outputs, outputErrors, learningRate, |layers|);
    } else {
      ShapedBackwardSucceeds(sigmoid, net.layers, sizes, net.activations, outputErrors, learningRate, |net.layers|);
    }
  }
}
