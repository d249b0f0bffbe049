# neurons-assemble in Dafny

A model of the backpropagation engine of `neurons-assemble`, a small C#
program that trains feed-forward sigmoid networks by per-example gradient
descent. The model covers:

- the `Vector` type, including its dot product;
- the array-of-neurons network: `MultiInputNeuron`, `Layer` and
  `NeuralNetworkImpl`;
- the structure-of-arrays `OptimizedLayer`, with its SIMD dot product and
  its chunked backward loop;
- the `Trainer` loop;
- the MNIST pre-processing: byte images flattened to `[0, 1]` doubles and
  one-hot labels;
- the two-input `SimpleNeuron` with its OR / XOR drivers.

The model is plain Dafny with value semantics:

- Doubles are `real`.
- Every mutating operation returns the new state.
- Every exception the C# code can throw becomes an `Err` of
  `Errors.Result`: `ArgumentError` for `ArgumentException`, including the
  `ArgumentOutOfRangeException` of a `List<T>` index, `IndexOutOfRange` for
  an array index outside the array, and `Overflow` for a negative array
  size.
- The sigmoid is a parameter `sigmoid: real -> real`, because `Math.Exp`
  has no exact counterpart over the reals.
- Random draws (`NextDouble`, `NextGaussian`) are sequences passed in.
- The hardware lane count `Vector<double>.Count` is a parameter
  `vectorSize > 0`.

Modules, in dependency order:

| file | module | models |
|---|---|---|
| errors.dfy | `Errors` | the exceptions as a result type |
| indexing.dfy | `Indexing` | row-major offsets `row * width + col` |
| vectors.dfy | `Vectors` | Vector.cs |
| lanes.dfy | `Lanes` | the `System.Numerics.Vector<double>` lane operations OptimizedLayer.cs uses |
| neurons.dfy | `Neurons` | Neuron.cs |
| layers.dfy | `Layers` | Layer.cs |
| optimized_layers.dfy | `OptimizedLayers` | OptimizedLayer.cs |
| networks.dfy | `Networks` | NeuralNetwork.cs, generic over the `Layer` interface |
| training.dfy | `Training` | Trainer.cs, generic over the `NeuralNetwork` interface |
| mnist.dfy | `Mnist` | `ConvertByteArrayToDoubleArray` and the labels of `Load` in MNist.cs |
| simple_neurons.dfy | `SimpleNeurons` | `SimpleNeuron`, `OR` and `XORBad` in Program.cs |

Main results:

- **The optimized layer computes what the neuron layer computes.**
  `OptimizedLayers.FeedForward` and `OptimizedLayers.Backpropagate` compute
  exactly what `Layers.FeedForward` and `Layers.Backpropagate` compute on the
  same parameters seen as an array of neurons, for distinct buffers that are
  at least as long as the layer reads. This holds for every lane count.
- **The chunked loops read each index once, in order.** The chunk loop
  followed by the remainder loop visits every index of a row exactly once,
  in increasing order.
- **Backpropagation in the neuron layer.** A neuron's update depends only on
  its own error. The error vector handed down is the sum of
  `delta_n * w_n[j]` over the weights as they were before the update.
- **A matching network trains without failing.** If the layer widths match
  the training data, training raises no exception, for any number of
  epochs, and the network keeps its shape.
- **`BackPropagate` uses the recorded trail.** It reads the activations
  recorded by the last forward pass. The input it is handed matters only
  when no forward pass has happened yet.
- **MNIST conversion.** The flattening of images round-trips. Every pixel
  value lies in `[0, 1]`. The one-hot labels decode back to their digit,
  and a label of 10 or more throws.
- **The two-input neuron.** `SimpleNeuron` is the general neuron specialised
  to two inputs. Every update moves each weight by the bias step times its
  input. No single neuron with a monotone activation separates XOR, while
  one with weights (2, 2, -1) separates OR.

Where the code is open to more than one reading, the model follows what the
code does. Four points:

- **Random draws.** `Layer`'s constructor hands the factory only the input
  count. The model passes the neuron index as well, so that each neuron can
  get its own random draws.
- **Error order in `Layer.Backpropagate`.** `errors[i]` is read before the
  neuron checks its width, so a short error vector throws `IndexOutOfRange`
  first. A width mismatch at an earlier neuron throws `ArgumentError`
  before the short vector is reached.
- **`NeuralNetworkImpl.BackPropagate`.** It uses its `initialInputs`
  argument only when no forward pass has been recorded.
- **The `Trainer` average.** It divides `totalError` by the number of
  examples. That is a division by zero for an empty training set, and the
  value is only printed.

## Model

| member | source | states |
|---|---|---|
| Indexing.RowCell | OptimizedLayer.cs:112 | cell `col` of the row that starts at `row * width` is cell `row * width + col` of the flat buffer, and that offset is in range |
| Indexing.RowWithin | OptimizedLayer.cs:31 | every row of a `rows x width` buffer lies inside the buffer |
| Indexing.FlatIndexBounds | MNist.cs:34-37 | every (row, column) pair of a `rows x cols` grid maps to an offset inside the `rows * cols` array |
| Indexing.FlatIndexOrdered | MNist.cs:35-37 | every cell of an earlier row comes before every cell of a later row, so the row loop never revisits a written cell |
| Indexing.FlatIndexInjective | MNist.cs:37 | two different (row, column) pairs never share an offset |
| Indexing.FlatIndexSurjective | MNist.cs:34-37 | every offset of the array is the image of the pair (k / width, k % width), so the loops leave no cell unwritten |
| Indexing.RowsDisjoint | OptimizedLayer.cs:112 | the weight rows of two different neurons do not overlap |
| Vectors.New | Vector.cs:8-11 | a new vector has the requested length and is all zeros; a negative size fails with an overflow error |
| Vectors.FromArray | Vector.cs:13-17 | the copy constructor gives a fresh array with the same length and elements, so later writes to one do not affect the other |
| Vectors.Get | Vector.cs:19-21 | reading succeeds exactly for indices in `[0, Length)`; any other index throws `IndexOutOfRange` |
| Vectors.Set | Vector.cs:19-22 | writing succeeds exactly for indices in `[0, Length)`, keeps the length, and throws `IndexOutOfRange` otherwise |
| Vectors.GetAfterSet | Vector.cs:19-23 | reading back a written index gives the written value; every other index reads as before |
| Vectors.GetAfterNew | Vector.cs:8-23 | every cell of a fresh vector reads as 0 |
| Vectors.DotProduct | Vector.cs:27-38 | the loop returns the dot product of two equal-length vectors; unequal lengths throw `ArgumentException`; two empty vectors give 0 |
| Vectors.DotToAgree | Vector.cs:32-37 | the running sum after `k` steps depends only on the first `k` cells of each vector |
| Vectors.DotLast | Vector.cs:32-37 | the dot product is the dot product without the last cells plus the product of the last cells |
| Vectors.DotSnoc | Vector.cs:33-36 | one more loop iteration adds `v1[i] * v2[i]` to the dot product of the prefixes |
| Vectors.DotAppend | Vector.cs:27-38 | the dot product of two concatenations is the sum of the dot products of the parts |
| Vectors.DotSymmetric | Vector.cs:27-38 | swapping the two arguments gives the same dot product |
| Vectors.SumSnoc | OptimizedLayer.cs:82-86 | adding lane `i` to the running sum gives the sum of the first `i + 1` lanes |
| Vectors.Zeroed | OptimizedLayer.cs:130 | clearing a vector keeps its length and sets every cell to 0 |
| Lanes.Splat | OptimizedLayer.cs:155-156 | a broadcast vector holds the same scalar in each of its lanes |
| Lanes.Add | OptimizedLayer.cs:78 | lane `l` of a sum is the sum of lane `l` of each operand |
| Lanes.Mul | OptimizedLayer.cs:168 | lane `l` of a product is the product of lane `l` of each operand |
| Lanes.Load | OptimizedLayer.cs:76-77 | an unaligned read of `width` lanes at `offset` sees cells `offset .. offset + width - 1` |
| Lanes.Store | OptimizedLayer.cs:169 | an unaligned write of a lane vector at `offset` replaces exactly those cells and keeps the length |
| Lanes.StoreKeepsSlice | OptimizedLayer.cs:169-173 | a write to one chunk leaves every slice outside the chunk unchanged |
| Lanes.ScaledAddLeft | OptimizedLayer.cs:172-173 | loading a chunk, adding a splat factor times the source chunk and storing back adds `c * src[k]` to every cell of the chunk |
| Lanes.ScaledAddRight | OptimizedLayer.cs:165-169 | the same with the factor on the right: each cell of the chunk gains `src[k] * c` |
| Lanes.SumZero | OptimizedLayer.cs:71 | the lanes of the zero vector add up to 0 |
| Lanes.SumAdd | OptimizedLayer.cs:78 | the lanes of a lane-wise sum add up to the sum of the operands' lane totals |
| Lanes.SumMul | OptimizedLayer.cs:78-86 | the lanes of a lane-wise product add up to the dot product of the operands |
| Neurons.New | Neuron.cs:16-24 | each weight and then the bias takes the next draw, mapped to `(2d - 1) * 0.1`, so every parameter lies in `[-0.1, 0.1)`; the cached output starts at 0 |
| Neurons.SigmoidDerivative | Neuron.cs:36 | for an output in `[0, 1]` the derivative lies in `[0, 1/4]` |
| Neurons.DerivativeBounds | Neuron.cs:36 | `o * (1 - o)` is between 0 and 1/4 on the unit interval |
| Neurons.Step | Neuron.cs:54-57 | the weight update keeps the length and adds `c * inputs[i]` to weight `i` |
| Neurons.Scale | Neuron.cs:47-51 | the error share of input `i` is `delta * w[i]` |
| Neurons.FeedForward | Neuron.cs:26-33 | the output is `sigmoid(w . x + bias)` and is cached as `lastOutput`; weights and bias are untouched; a width mismatch throws `ArgumentException` |
| Neurons.FeedForwardIdempotent | Neuron.cs:26-33 | feeding the same input twice gives the same neuron and output as feeding it once |
| Neurons.Backpropagate | Neuron.cs:38-63 | with `delta = error * o(1 - o)` on the cached output, the errors handed back are `delta * w[i]` of the OLD weights, weight `i` gains `rate * delta * x[i]`, the bias gains `rate * delta`, and the cache is kept; a width mismatch throws |
| Neurons.BackpropagateLoops | Neuron.cs:38-63 | the two loops plus the bias update compute exactly the reference update, including the error-share loop reading the weights before they move |
| Neurons.NoUpdateWhenDeltaVanishes | Neuron.cs:43-60 | a zero error or a saturated cached output (0 or 1) leaves the neuron unchanged and hands back all-zero errors |
| Neurons.DeltaVanishes | Neuron.cs:43-44 | the local gradient is 0 when the error is 0 or the cached output is 0 or 1 |
| Layers.New | Layer.cs:9-16 | the layer has `neuronCount` neurons, neuron `i` being what the factory builds for input width `inputsPerNeuron` |
| Layers.FanInSnoc | Layer.cs:34-43 | accumulating neuron `k`'s share extends the fan-in sum over neurons `0 .. k-1` by `delta_k * w_k[j]` |
| Layers.Deltas | Layer.cs:37 | neuron `n` is handed `errors[n]` and turns it into its local gradient from its own cached output |
| Layers.Accumulate | Layer.cs:40-43 | adding a neuron's errors adds them cell by cell and keeps the length |
| Layers.ForwardPrefix | Layer.cs:20-24 | the first `k` neurons succeed exactly when all have the input's width, and output `n` is neuron `n`'s own forward value |
| Layers.FeedForward | Layer.cs:18-26 | output `n` is neuron `n`'s forward value on the shared input, every neuron caches it, and the pass fails with `ArgumentException` exactly when some neuron's width differs |
| Layers.FeedForwardFromNeurons | Layer.cs:18-26 | given each neuron's own forward result, the layer's result is assembled from them in order |
| Layers.FeedForwardOutputs | Layer.cs:18-26 | the layer's output vector is exactly the vector of each neuron's outputs |
| Layers.FeedForwardIdempotent | Layer.cs:18-26 | feeding the same input twice gives the same layer and outputs as feeding it once |
| Layers.BackwardPrefix | Layer.cs:31-44 | the first `k` iterations succeed exactly when `errors` has `k` entries and those neurons have the input's width, and the accumulator keeps the input length; a failure is `IndexOutOfRange` exactly when `errors` is short and every neuron it covers has the input's width, and `ArgumentError` otherwise |
| Layers.BackwardPrefixUnfold | Layer.cs:34-44 | one more iteration appends the next neuron's update and adds its error shares to the accumulator |
| Layers.BackwardPrefixNeurons | Layer.cs:34-37 | after `k` iterations each of those neurons holds its own update, which depends on no other neuron |
| Layers.BackwardPrefixFanIn | Layer.cs:31-44 | after `k` iterations cell `j` of the accumulator is the sum over those neurons of `delta_n * w_n[j]` with the pre-update weights |
| Layers.FanInStep | Layer.cs:37-43 | neuron `k`'s error shares extend the fan-in from `k` neurons to `k + 1` |
| Layers.Backpropagate | Layer.cs:28-47 | each neuron is replaced by its own update from `errors[n]`; the result is `sum_n delta_n * w_n[j]` over the old weights; it fails exactly when `errors` is too short or a width differs; the failure is `IndexOutOfRange` exactly when `errors` is short and every neuron it covers has the input's width, and `ArgumentError` otherwise |
| Layers.BackpropagateKeepsShape | Layer.cs:28-47 | a successful backward pass keeps the neuron count and every neuron's width |
| OptimizedLayers.RowOf | OptimizedLayer.cs:112 | the row at `weights + n * inputSize` lies inside the buffer and is row `n` of the row-major layout |
| OptimizedLayers.WeightsOf | OptimizedLayer.cs:150 | neuron `n`'s weights are `inputSize` long |
| OptimizedLayers.WeightRowsOf | OptimizedLayer.cs:146-150 | the buffer holds one row per neuron, in neuron order |
| OptimizedLayers.DeltasOf | OptimizedLayer.cs:148-149 | neuron `n`'s local gradient is `errors[n] * o(1 - o)` on its cached output |
| OptimizedLayers.ToLayer | OptimizedLayer.cs:10-19 | the buffers seen as an array of neurons: neuron `n` owns weight row `n`, bias `n` and cached output `n`, all `inputSize` wide |
| OptimizedLayers.New | OptimizedLayer.cs:25-57 | the buffers have the sizes the constructor allocates; weights and then biases take the Gaussian draws in buffer order; outputs and caches start at 0 |
| OptimizedLayers.VectorizedLength | OptimizedLayer.cs:69 | the vectorized length is the largest multiple of the lane count not above the length, and the remainder is shorter than one chunk |
| OptimizedLayers.Range | OptimizedLayer.cs:89 | the remainder loop's indices are `lo .. hi - 1` in increasing order |
| OptimizedLayers.RangeAppend | OptimizedLayer.cs:74-92 | two adjacent index ranges joined give the combined range |
| OptimizedLayers.ChunkFits | OptimizedLayer.cs:74 | a chunk that starts below a multiple of the lane count ends at or below it, so no chunk read overruns |
| OptimizedLayers.ChunksCover | OptimizedLayer.cs:74-79 | the chunk loop from any chunk boundary visits every index up to the vectorized length, each once, in order |
| OptimizedLayers.ScheduleVisitsEachIndexOnce | OptimizedLayer.cs:69-92 | the chunk loop followed by the remainder loop visits every index of `[0, length)` exactly once and in increasing order, for every lane count |
| OptimizedLayers.ChunkStep | OptimizedLayer.cs:74-79 | one chunk iteration extends the lane partial sums from the dot product of the prefix to that of the prefix plus the chunk |
| OptimizedLayers.PrefixThenChunk | OptimizedLayer.cs:74-79 | the dot product up to the chunk's end is that up to its start plus that of the chunk |
| OptimizedLayers.ChunkedProducts | OptimizedLayer.cs:71-79 | the lane partial sums add up to the dot product of the vectorized prefix, and the loop reads exactly the chunk indices |
| OptimizedLayers.HorizontalSum | OptimizedLayer.cs:82-86 | the horizontal loop returns the sum of all lanes |
| OptimizedLayers.SimdDotProduct | OptimizedLayer.cs:66-95 | the result is the plain dot product of the first `length` cells, for every lane count, and the indices are read each once and in order |
| OptimizedLayers.ForwardAgrees | OptimizedLayer.cs:97-125 | buffers holding `sigmoid(row_n . x + bias_n)` for each neuron are what the array-of-neurons layer computes on the same parameters |
| OptimizedLayers.ForwardOutputsAgree | OptimizedLayer.cs:110-118 | each neuron of the array view computes the optimized layer's output |
| OptimizedLayers.ForwardCachesAgree | OptimizedLayer.cs:117-119 | writing the outputs to the cache buffer caches each output in the matching neuron of the array view |
| OptimizedLayers.FeedForward | OptimizedLayer.cs:97-125 | output `n` is `sigmoid(bias_n + row_n . x)` and is written to both outputs and cache; weights and biases are untouched; the returned vector is the output buffer; the result equals the array-of-neurons `FeedForward` |
| OptimizedLayers.StoreRow | OptimizedLayer.cs:150-173 | writing row `n` back sets that row and no other |
| OptimizedLayers.StoreOtherRow | OptimizedLayer.cs:150-173 | writing row `n` leaves every other row `m` as it was |
| OptimizedLayers.WriteRow | OptimizedLayer.cs:173 | the buffer after a row write holds the new row at `n` and the old rows elsewhere |
| OptimizedLayers.UpdateChunk | OptimizedLayer.cs:160-174 | one chunk iteration moves the weights in the chunk by `rate * x[k]` and adds `w[k] * delta` (old weight) to the errors there; cells outside the chunk are kept |
| OptimizedLayers.UpdateChunks | OptimizedLayer.cs:160-174 | the chunk loop updates exactly the vectorized prefix of the row and of the error buffer, and keeps the tail |
| OptimizedLayers.UpdateRemainder | OptimizedLayer.cs:177-184 | the remainder loop finishes the row: every weight is moved and every error share added, past the vectorized prefix too |
| OptimizedLayers.UpdateRow | OptimizedLayer.cs:153-184 | the inner loops move weight `k` by `rate * delta * x[k]` and add `w[k] * delta` to error `k`, each computed from the OLD weight, for every lane count |
| OptimizedLayers.BackwardFanInStep | OptimizedLayer.cs:167-180 | neuron `n`'s error shares extend the fan-in over neurons `0 .. n-1` to `0 .. n` |
| OptimizedLayers.ViewsAgree | OptimizedLayer.cs:146-150 | the array view has the same local gradients and weight rows as the buffers |
| OptimizedLayers.NeuronAgrees | OptimizedLayer.cs:146-187 | updated row `n` and bias `n` are the update the array-of-neurons neuron `n` makes from `errors[n]` |
| OptimizedLayers.BackwardAgrees | OptimizedLayer.cs:127-191 | buffers holding each neuron's own update, and errors holding the fan-in, are what the array-of-neurons `Backpropagate` returns |
| OptimizedLayers.UpdatedRow | OptimizedLayer.cs:171-183 | weight `i` of neuron `n` after its update is `w[i] + rate * delta_n * x[i]` |
| OptimizedLayers.RowStepIs | OptimizedLayer.cs:160-184 | the row the inner loops leave is neuron `n`'s updated row |
| OptimizedLayers.RowsStep | OptimizedLayer.cs:146-184 | writing neuron `n`'s updated row advances the invariant "rows before `n` updated, the rest original" by one |
| OptimizedLayers.BiasesStep | OptimizedLayer.cs:187 | moving bias `n` by `rate * delta_n` advances the bias invariant by one neuron |
| OptimizedLayers.ErrorsStep | OptimizedLayer.cs:167-180 | adding neuron `n`'s shares advances the invariant "error cell `j` is the fan-in of neurons before `n`" by one |
| OptimizedLayers.BackwardNeuron | OptimizedLayer.cs:146-188 | one iteration of the neuron loop advances the weight, bias and error invariants by one neuron |
| OptimizedLayers.Backpropagate | OptimizedLayer.cs:127-191 | the error buffer is first cleared; each neuron's row and bias get its own update; error cell `j` is `sum_n delta_n * w_n[j]` over the old weights, and cells past `inputSize` are 0; outputs and caches are untouched; the result equals the array-of-neurons `Backpropagate` |
| OptimizedLayers.BackwardResult | OptimizedLayer.cs:127-191 | the buffers left after the whole neuron loop are the array-of-neurons layer's backward result |
| OptimizedLayers.WeightsResult | OptimizedLayer.cs:146-184 | after the loop every neuron's row is its updated weights |
| Networks.ArrayLayer | Program.cs:15-19 | the array-of-neurons layer answers the `Layer` interface's two calls with its own forward and backward passes |
| Networks.New | NeuralNetwork.cs:9-13 | a width list of `n >= 1` entries builds `n - 1` layers, layer `k` having `sizes[k+1]` neurons of `sizes[k]` inputs; no trail is recorded |
| Networks.FactoryShaped | NeuralNetwork.cs:9-13 | when the factory builds layers of the requested shape, the network's layers match the width list |
| Networks.ForwardLayers | NeuralNetwork.cs:20-24 | a successful pass returns one updated layer and one output per layer |
| Networks.ForwardLayersTrail | NeuralNetwork.cs:19-24 | a successful pass runs along its trail: each layer is fed the previous entry of the trail, starting from the input |
| Networks.ForwardTrailSnoc | NeuralNetwork.cs:20-23 | a trail for all but the last layer, plus the last layer's step, is a trail for the whole chain |
| Networks.ForwardTrailPrefix | NeuralNetwork.cs:19-24 | the first `n` steps of a trail are a trail of the first `n` layers |
| Networks.ForwardLayersFollowsTrail | NeuralNetwork.cs:19-24 | any recorded trail is what the forward pass computes from its first entry |
| Networks.ForwardLayersFailurePersists | NeuralNetwork.cs:20-24 | once a layer throws, the whole forward pass throws the same exception |
| Networks.ForwardLayersSnoc | NeuralNetwork.cs:20-24 | one more layer either throws its own exception or extends the updated layers and outputs by one |
| Networks.Forward | NeuralNetwork.cs:17-25 | the trail starts with the input, holds one entry per layer more, and ends with the returned output |
| Networks.FeedForward | NeuralNetwork.cs:17-25 | the aggregate loop records the input and every layer's output in order and returns the last; it fails exactly when a layer throws; a network without layers returns its input |
| Networks.ForwardLoop | NeuralNetwork.cs:20-24 | the aggregate loop computes the reference forward pass and trail |
| Networks.ShapedForwardSucceeds | NeuralNetwork.cs:9-25 | a network whose layers match the width list, fed an input of the first width, never throws; each trail entry has its layer's width and the shape is kept |
| Networks.BackwardLayers | NeuralNetwork.cs:36-41 | the pass keeps the layer count and leaves layers at and above `k` untouched; a trail too short for a layer throws `ArgumentError`, the list's `ArgumentOutOfRangeException` |
| Networks.BackwardLayersFollowsTrail | NeuralNetwork.cs:36-41 | an error trail in which each layer took its recorded input and the error above it is what the backward pass computes |
| Networks.BackwardLayersTrail | NeuralNetwork.cs:36-41 | a successful backward pass runs along an error trail from the output errors to the final error vector |
| Networks.BackwardTrailExtend | NeuralNetwork.cs:36-41 | a trail below layer `k - 1`, after that layer's own step, extends to a trail from layer `k - 1` |
| Networks.BackwardLayersUnfold | NeuralNetwork.cs:36-41 | one step of the reverse aggregate either throws the layer's exception or continues one layer down with the layer replaced and its errors handed down |
| Networks.BackwardStep | NeuralNetwork.cs:40 | one call of the aggregate's lambda either throws what the reference pass throws or advances the reference pass by one layer |
| Networks.BackwardLoop | NeuralNetwork.cs:36-41 | the reverse loop over layer indices computes the reference backward pass |
| Networks.BackwardLayersDone | NeuralNetwork.cs:36-41 | with no layer left, the backward pass returns its layers and errors unchanged |
| Networks.BackwardPass | NeuralNetwork.cs:36-41 | the reverse aggregate computes the reference pass and leaves an error trail from the output errors to the input errors |
| Networks.Prepared | NeuralNetwork.cs:29-34 | a network with a recorded trail is used as it is; one without is fed `initialInputs` first, and this fails exactly when that forward pass fails |
| Networks.BackPropagate | NeuralNetwork.cs:27-42 | the layer count is kept; an existing trail is kept as it was; a missing trail is recorded first |
| Networks.BackPropagateLoop | NeuralNetwork.cs:27-42 | the method with its fallback forward pass and reverse aggregate computes the reference `BackPropagate` |
| Networks.BackPropagateIgnoresInputs | NeuralNetwork.cs:29-34 | once a trail is recorded, the inputs passed to `BackPropagate` make no difference |
| Networks.BackPropagateFeedsFirst | NeuralNetwork.cs:30-34 | without a trail, `BackPropagate` fails as the forward pass on `initialInputs` fails, or else back-propagates over the trail that pass records |
| Networks.BackwardKeepsShape | NeuralNetwork.cs:36-41 | for any layer kind whose backward step keeps a layer's shape, a chain fitting the width list with inputs of its widths and enough output errors never throws on the way back and still fits |
| Networks.ArrayLayerKeepsShape | Layer.cs:28-47 | a layer whose neurons take the input's width, handed an error per neuron, never throws, keeps its neuron count and widths and hands down one error per input |
| Networks.ShapedBackwardSucceeds | NeuralNetwork.cs:36-41 | over a trail whose entries match the width list, with enough output errors, the backward pass never throws and keeps the shape |
| Networks.ShapedBackPropagateSucceeds | NeuralNetwork.cs:27-42 | a matching network with no trail, given an input of the first width and enough errors, back-propagates without throwing and keeps its shape |
| Training.Implementation | Program.cs:21-25 | `NeuralNetworkImpl` answers the `NeuralNetwork` interface's two calls with its forward pass and its `BackPropagate` |
| Training.Abs | Trainer.cs:38 | the absolute error is non-negative and is the error or its negation |
| Training.AbsSumTo | Trainer.cs:34-39 | the running absolute-error total is never negative |
| Training.AbsSum | Trainer.cs:34-39 | the absolute-error total of an example is never negative |
| Training.AbsSumToAgree | Trainer.cs:34-39 | the running total over `k` entries depends only on those entries |
| Training.AbsSumToZero | Trainer.cs:34-39 | the running total over `k` entries is 0 exactly when all those entries are 0 |
| Training.AbsSumZero | Trainer.cs:34-39 | an example adds nothing to the total exactly when all its errors are 0 |
| Training.Residuals | Trainer.cs:34-39 | the residual vector succeeds exactly when the outputs are empty or row `i` of the expected outputs exists and is at least as long; it throws `IndexOutOfRange` otherwise; entry `j` is `expected[i][j] - outputs[j]`, one per output |
| Training.ResidualsZeroIffFit | Trainer.cs:34-39 | an example adds nothing to the total exactly when its outputs equal the start of the expected row (or there are no outputs) |
| Training.ResidualLoop | Trainer.cs:34-39 | the inner loop computes the residuals and adds the sum of their absolute values to the running total |
| Training.ExampleStep | Trainer.cs:31-42 | the error an example contributes is never negative |
| Training.EpochTo | Trainer.cs:31-42 | the total after `k` examples is never negative, and after none the network is unchanged |
| Training.Epoch | Trainer.cs:26-42 | an epoch's total error is never negative, and an epoch over no examples leaves the network unchanged |
| Training.Epochs | Trainer.cs:24-46 | the run records one non-negative total per epoch |
| Training.Train | Trainer.cs:22-47 | a zero or negative epoch count does nothing; otherwise one non-negative total is recorded per epoch |
| Training.EpochToNext | Trainer.cs:31-42 | example `i` either throws, ending the epoch with its exception, or moves the network on and adds its error to the total |
| Training.ExampleFailureEndsEpoch | Trainer.cs:31-42 | an example that throws on top of the epoch so far ends the whole epoch with its exception |
| Training.EpochToFailurePersists | Trainer.cs:31-42 | an exception at an example ends the whole epoch with that exception |
| Training.EpochsFailurePersists | Trainer.cs:24-46 | an exception in an epoch ends the whole run with that exception |
| Training.RunExample | Trainer.cs:33-41 | forward pass, residual loop and `BackPropagate` compute the reference example step and add its error to the running total |
| Training.RunEpoch | Trainer.cs:26-42 | the example loop computes the reference epoch |
| Training.TrainLoops | Trainer.cs:22-47 | the epoch loop computes the reference training run |
| Training.EpochsSplit | Trainer.cs:24-46 | `a + b` epochs are `a` epochs followed by `b` more from the resulting network, with the totals concatenated, and an exception in the first `a` ends the run |
| Training.NoExamplesNoChange | Trainer.cs:24-46 | with no examples every epoch leaves the network as it is and records a total of 0 |
| Training.TrainerUsesRecordedTrail | Trainer.cs:33-41 | after the trainer's forward pass a trail of one entry per layer plus one is recorded; `BackPropagate` then uses it as it is, and the input vector built again for it makes no difference |
| Training.ShapedExampleSucceeds | Trainer.cs:31-42 | on a matching network, an example whose input has the first width and whose expected row covers the last width is trained on without throwing, and the shape is kept |
| Training.EpochToKeeps | Trainer.cs:31-42 | if every example step from a network with some property succeeds and keeps it, then the epoch prefix succeeds and keeps it |
| Training.EpochsKeep | Trainer.cs:24-46 | the same holds for any number of epochs |
| Training.ShapedTrainingSucceeds | Trainer.cs:22-47 | training a matching network on fitting data never throws, for any epoch count, and keeps the network's shape |
| Mnist.Normalize | MNist.cs:37 | a byte divided by 255 lies in `[0, 1]` and times 255 gives the byte back |
| Mnist.NormalizeRoundTrip | MNist.cs:37 | normalisation loses no information: scaling back recovers the byte |
| Mnist.ScaleRow | MNist.cs:36-37 | a converted row keeps its length and holds each pixel divided by 255 |
| Mnist.FlattenTo | MNist.cs:35-37 | the first `k` rows flatten to `k * cols` values |
| Mnist.Flatten | MNist.cs:25-40 | the flat array has `rows * cols` entries |
| Mnist.FlattenToAt | MNist.cs:35-37 | pixel `(i, j)` of the first `k` rows lands at offset `i * cols + j` |
| Mnist.FlattenAt | MNist.cs:37 | pixel `(i, j)` lands at offset `i * cols + j` of the flat array, divided by 255 |
| Mnist.FlattenUnique | MNist.cs:32-37 | any array of the right length holding pixel `(i, j) / 255` at `i * cols + j` is the flattened image, so no cell is left unset |
| Mnist.FlattenInUnitRange | MNist.cs:37 | every value of a flattened image lies in `[0, 1]` |
| Mnist.Unflatten | MNist.cs:28-37 | cutting a flat array back into rows gives `rows` rows of `cols` pixels |
| Mnist.FlattenRoundTrip | MNist.cs:25-40 | cutting a flattened image back into rows and de-normalising recovers the image exactly |
| Mnist.ConvertByteArrayToDoubleArray | MNist.cs:25-40 | the nested loops fill every cell: the result is the flattened image, and every value lies in `[0, 1]` |
| Mnist.OneHot | MNist.cs:18-19 | a label below 10 gives ten entries, 1 at the label and 0 elsewhere; a label of 10 or more throws `IndexOutOfRange` |
| Mnist.OneHotRoundTrip | MNist.cs:18-19 | the position of the single 1 of a one-hot row is the label |
| Mnist.LoadAll | MNist.cs:5-23 | loading succeeds exactly when every label is below 10; inputs and outputs are parallel to the items, input `i` is item `i`'s flattened image and output `i` its one-hot label |
| Mnist.Load | MNist.cs:5-23 | the loader's loop computes the reference load, including the exception on the first bad label |
| Mnist.LoadFailurePersists | MNist.cs:14-20 | a bad label among the first `k` items makes the whole load throw the same exception |
| Mnist.LoadedDataFits | MNist.cs:14-22 | loaded images of the first width and a last width of at most 10 give training data that fits the network's widths |
| SimpleNeurons.InitialOutput | Program.cs:72-76 | a new neuron has both weights and the bias at 0, so it outputs `sigmoid(0)` on every input |
| SimpleNeurons.Backpropagate | Program.cs:81-89 | each weight moves by the bias step times its own input; the bias step is `rate * error * o(1 - o)` on a fresh forward output; with an output in `[0, 1]` and a non-negative rate the bias moves in the direction of the error |
| SimpleNeurons.Step | Program.cs:84-88 | the shared step is the rate times the local gradient, and it has the error's sign when the output is in `[0, 1]` |
| SimpleNeurons.SignOfStep | Program.cs:84-88 | a non-negative rate and derivative give a step of the error's sign |
| SimpleNeurons.ZeroInputKeepsWeight | Program.cs:86-87 | a weight whose input is 0 does not move, whatever the error |
| SimpleNeurons.NoErrorNoChange | Program.cs:81-89 | a zero error leaves the neuron unchanged |
| SimpleNeurons.FeedForward | Program.cs:76 | the output is the activation of `w . x + bias` on `[x1, x2]`, the general neuron's formula |
| SimpleNeurons.PreActivationIsDot | Program.cs:76 | `w1 * x1 + w2 * x2 + bias` is the general neuron's dot product plus bias |
| SimpleNeurons.FeedForwardAgrees | Program.cs:76 | the two-input neuron's output is the general neuron's output on `[x1, x2]` |
| SimpleNeurons.BackpropagateAgrees | Program.cs:81-89 | the two-input update, which runs its own forward pass, is the general neuron's update after a forward pass on the same input |
| SimpleNeurons.NetworkFeedForward | Program.cs:106 | reading `inputs[i][0]` and `[1]` throws `IndexOutOfRange` exactly when the input has fewer than two entries; otherwise there is one output and the neuron is unchanged |
| SimpleNeurons.NetworkBackPropagate | Program.cs:107-108 | the update throws `IndexOutOfRange` exactly when the input has fewer than two entries or there is no error entry |
| SimpleNeurons.AsNetwork | Program.cs:103-110 | the driver's body answers the forward and backward calls of a one-neuron network |
| SimpleNeurons.ExampleAgrees | Program.cs:103-110 | one iteration of the driver is the generic trainer's example step: it throws on a short input or a missing target and otherwise moves the neuron and adds `abs(error)` to the total |
| SimpleNeurons.RunExample | Program.cs:104-110 | the driver's loop body computes the trainer's example step |
| SimpleNeurons.RunNext | Program.cs:103-110 | one iteration of the driver's loop on top of the epoch so far is the trainer's epoch one example further; when it throws, so does the whole epoch |
| SimpleNeurons.RunEpoch | Program.cs:101-115 | one epoch of the driver loop computes the trainer's epoch at rate 0.1 |
| SimpleNeurons.WellFormedEpochsSucceed | Program.cs:101-115 | with two-entry inputs and non-empty targets, any number of epochs runs without throwing |
| SimpleNeurons.DriversSucceed | Program.cs:94-149 | the OR and XORBad drivers, from the zero neuron, run any number of epochs without throwing |
| SimpleNeurons.CornerOutputs | Program.cs:76 | at the four corners of the unit square the neuron outputs `sigmoid(b)`, `sigmoid(w2 + b)`, `sigmoid(w1 + b)` and `sigmoid(w1 + w2 + b)` |
| SimpleNeurons.XorNotSeparable | Program.cs:128-149 | with a monotone activation, no two-input neuron puts the XOR corners on the right sides of any threshold, so the XORBad driver cannot succeed whatever the epoch count |
| SimpleNeurons.OrSeparable | Program.cs:94-115 | with a strictly increasing activation, weights (2, 2) and bias -1 separate the OR corners |

## Left out

- Floating point: doubles are modelled as exact reals. Rounding, NaN and infinities are not modelled, and the SIMD and scalar dot products are proved equal over the reals, not bit for bit.
- `Sigmoid` (`1 / (1 + exp(-x))`) is a parameter: `Math.Exp` has no exact counterpart over the reals. Properties that need a monotone or strictly increasing activation state that as a precondition.
- Randomness: the draws of `NextDouble` and `NextGaussian` are sequences passed in. `Neurons.New` and `OptimizedLayers.New` take them that way, and the Xavier scale `sqrt(1 / inputSize)` is folded into the Gaussian draws.
- `unsafe` pointers, `fixed` and `Unsafe.Read`/`Write` become reads and writes of sequence slices. The hardware lane count `Vector<double>.Count` is the parameter `vectorSize`.
- Neurons.New: the input width is a `nat`, so the `OverflowException` that `new Vector(inputSize)` (Vector.cs:10) raises for a negative `int` width is not modelled. Every caller passes a non-negative width.
- Layers.New: the neuron count is a `nat`, so the `OverflowException` that `new MultiInputNeuron[neuronCount]` (Layer.cs:11) raises for a negative count is not modelled. Every caller passes a non-negative count.
- OptimizedLayers.New: the sizes are `nat`, so the `OverflowException` of the buffer allocations (OptimizedLayer.cs:31-34) for a negative size is not modelled. Every caller passes non-negative sizes.
- Networks.New: the widths are `nat`, so a negative width, which the layer constructors would reject with an `OverflowException`, is not modelled. Every caller passes non-negative widths.
- 32-bit sizes: `neuronCount * inputSize` and `rows * cols` are unbounded `nat`, so an `int` overflow of those products is not modelled.
- State after an exception: the C# objects may be half-updated when an exception escapes, for example the neurons before the failing one in `Layer.FeedForward`. The model returns only the exception.
- OptimizedLayers.FeedForward: the input buffer is a value distinct from the layer's own `_outputs`. A square layer fed its own `_outputVector` reads outputs it has already overwritten (OptimizedLayer.cs:115-119), and that aliased behaviour is not modelled. In the repository a layer is only fed the previous layer's output or the network's input, never its own output. An input shorter than `inputSize` is excluded by a precondition, because the C# reads past its end through a pointer without a check.
- OptimizedLayers.Backpropagate: `inputs`, `errors` and `outputErrors` are distinct values. The C# clears `outputErrors` first (OptimizedLayer.cs:130), so an `outputErrors` that is the same `Vector` as `errors` makes every delta 0, and one that is the same `Vector` as `inputs` makes the weight steps use zeros. That aliased behaviour is not modelled. The four-argument method is not called anywhere in the repository. Buffers shorter than the layer reads are excluded by a precondition, because the C# reads and writes past their end through pointers without a check.
- Output aliasing: `OptimizedLayer` returns its own `_outputVector`, which wraps `_outputs`, so a caller holding the vector sees it change on the next pass. The model returns the buffer's value.
- Vector members: `Vector(double[], takeOwnership)`, `AsSpan`, `AsReadOnlySpan` and `Zero`, used by OptimizedLayer.cs, are not defined in Vector.cs. The model uses slices and `Vectors.Zeroed` for them.
- Interface mismatch: `OptimizedLayer` declares `Layer` as its base type. Its four-argument `void Backpropagate` does not match the `Layer` interface, so it is modelled on its own and compared with the array-of-neurons layer, not plugged into the network.
- `LayerImpl` and the factory: Program.cs builds layers through `LayerImpl` and `NeuralNetworkFactoryImpl`, while Layer.cs defines `Layer`. The model takes the factory as a function parameter. NeuralNetworkFactory.cs and TrainingBenchmark.cs are not part of this model.
- Console output, `Stopwatch` timings, `ToString`, `Main` and argument parsing are I/O and not modelled. The per-epoch average `totalError / n` is only printed, and it is NaN for an empty training set. The model records the total.
- The `MNist` driver in Program.cs calls `Train(1)`, but `Trainer.Train` takes no argument. Its epoch count is not modelled.
- `FileReaderMNIST.LoadImagesAndLables` and the gzip files are I/O: `Mnist.Load` takes the decoded items.
- OR and XORBad drivers: the 100000-epoch constant and the print every 10000 epochs are not modelled. The epoch count is a parameter of `SimpleNeurons.DriversSucceed`, and convergence is not claimed.
- The `XOR` driver is `Trainer` on a 2-3-1 network and is covered by the generic training lemmas. Its concrete run is not modelled.
- Vectors.DotProduct: does not state that the arguments are left unmodified. Vectors are values in the model, so the guarantee is implicit.
- Training.ExampleStep: its contract states only that the example's error is non-negative. What the step does is pinned down by `Training.RunExample`, `Training.TrainerUsesRecordedTrail` and `SimpleNeurons.ExampleAgrees`.
- Training.EpochTo: its contract states only the sign of the total and the empty prefix. The example-by-example behaviour is stated by `Training.EpochToNext` and `Training.EpochToFailurePersists`.
- Training.Epochs: its contract states only the number and sign of the totals. Composition and failure are stated by `Training.EpochsSplit` and `Training.EpochsFailurePersists`.
- Networks.ForwardLayers: its contract states only the result lengths. The pass itself is characterised by `Networks.ForwardLayersTrail` and `Networks.ForwardLayersFollowsTrail`.
- Networks.BackwardLayers: its contract states the lengths, the untouched upper layers and the short-trail `ArgumentError`. The pass itself is characterised by `Networks.BackwardLayersTrail` and `Networks.BackwardLayersFollowsTrail`.
