/**
  The structure-of-arrays layer (OptimizedLayer.cs): the weights of all
  neurons live in one row-major buffer of `neuronCount` rows of `inputSize`
  cells, the biases, outputs and cached outputs in arrays of their own. The
  loops walk the rows in chunks of `vectorSize` lanes and finish each row
  element by element.

  The buffers are values here; a pass returns the buffers it overwrote.
 */
module OptimizedLayers {
  import opened Errors
  import opened Vectors
  import opened Indexing
  import Lanes
  import Neurons
  import Layers

  datatype OptimizedLayer = OptimizedLayer(
    neuronCount: nat,
    inputSize: nat,
    allWeights: Vector,
    allBiases: Vector,
    outputs: Vector,
    lastOutputs: Vector)

  /** The buffer sizes the constructor allocates. */
  predicate Valid(l: OptimizedLayer)
  {
    && |l.allWeights| == l.neuronCount * l.inputSize
    && |l.allBiases| == l.neuronCount
    && |l.outputs| == l.neuronCount
    && |l.lastOutputs| == l.neuronCount
  }

  /** Row `n` of a `rows x width` buffer. */
  function RowOf(flat: Vector, n: nat, rows: nat, width: nat): (r: Vector)
    requires |flat| == rows * width && n < rows
    ensures n * width + width <= |flat|
    ensures r == Row(flat, n, width)
  {
    RowWithin(n, rows, width);
    Row(flat, n, width)
  }

  /** The weights of neuron `n`: what `weightsPtr + n * inputSize` points at. */
  function WeightsOf(l: OptimizedLayer, n: nat): (w: Vector)
    requires Valid(l) && n < l.neuronCount
    ensures |w| == l.inputSize
  {
    RowOf(l.allWeights, n, l.neuronCount, l.inputSize)
  }

  /** The weight rows of all neurons, in neuron order. */
  function WeightRowsOf(l: OptimizedLayer): (rows: seq<Vector>)
    requires Valid(l)
    ensures |rows| == l.neuronCount
    ensures forall n :: 0 <= n < l.neuronCount ==> rows[n] == WeightsOf(l, n)
  {
    seq(l.neuronCount, n requires 0 <= n < l.neuronCount => WeightsOf(l, n))
  }

  /** The local gradient of every neuron, from its error and cached output. */
  function DeltasOf(l: OptimizedLayer, errors: Vector): (d: seq<real>)
    requires Valid(l) && l.neuronCount <= |errors|
    ensures |d| == l.neuronCount
    ensures forall n :: 0 <= n < l.neuronCount ==> d[n] == Neurons.Delta(errors[n], l.lastOutputs[n])
  {
    seq(l.neuronCount, n requires 0 <= n < l.neuronCount => Neurons.Delta(errors[n], l.lastOutputs[n]))
  }

  /**
    The same layer seen as an array of neurons: neuron `n` owns row `n` of the
    weight buffer, bias `n` and cached output `n`.
   */
  function ToLayer(l: OptimizedLayer): (layer: Layers.Layer)
    requires Valid(l)
    ensures |layer.neurons| == l.neuronCount
    ensures Layers.HasWidth(layer, l.inputSize)
    ensures forall n :: 0 <= n < l.neuronCount ==>
              layer.neurons[n] == Neurons.Neuron(WeightsOf(l, n), l.allBiases[n], l.lastOutputs[n])
  {
    Layers.Layer(seq(l.neuronCount, n requires 0 <= n < l.neuronCount =>
      Neurons.Neuron(WeightsOf(l, n), l.allBiases[n], l.lastOutputs[n])))
  }

  /**
    The constructor: every weight and then every bias takes the next draw of
    the Gaussian source, in buffer order; outputs and cached outputs start at 0.
   */
  method New(neuronCount: nat, inputSize: nat, gaussian: seq<real>) returns (l: OptimizedLayer)
    requires |gaussian| >= neuronCount * inputSize + neuronCount
    ensures Valid(l)
    ensures l.neuronCount == neuronCount && l.inputSize == inputSize
    ensures forall k :: 0 <= k < neuronCount * inputSize ==> l.allWeights[k] == gaussian[k]
    ensures forall n :: 0 <= n < neuronCount ==> l.allBiases[n] == gaussian[neuronCount * inputSize + n]
    ensures l.outputs == Zeros(neuronCount) && l.lastOutputs == Zeros(neuronCount)
  {
    var allWeights := Zeros(neuronCount * inputSize);
    var i := 0;
    while i < |allWeights|
      invariant 0 <= i <= |allWeights| == neuronCount * inputSize
      invariant forall k :: 0 <= k < i ==> allWeights[k] == gaussian[k]
    {
      allWeights := allWeights[i := gaussian[i]];
      i := i + 1;
    }
    var allBiases := Zeros(neuronCount);
    i := 0;
    while i < |allBiases|
      invariant 0 <= i <= |allBiases| == neuronCount
      invariant forall n :: 0 <= n < i ==> allBiases[n] == gaussian[neuronCount * inputSize + n]
    {
      allBiases := allBiases[i := gaussian[|allWeights| + i]];
      i := i + 1;
    }
    l := OptimizedLayer(neuronCount, inputSize, allWeights, allBiases, Zeros(neuronCount), Zeros(neuronCount));
  }

  /** `length - length % vectorSize`: the largest multiple of the lane count not above `length`. */
  function VectorizedLength(length: nat, vectorSize: nat): (vl: nat)
    requires vectorSize > 0
    ensures vl <= length && length - vl < vectorSize
    ensures vl == (length / vectorSize) * vectorSize
  {
    length - length % vectorSize
  }

  /** The indices `lo, lo + 1, ..., hi - 1`. */
  function Range(lo: nat, hi: nat): (r: seq<nat>)
    requires lo <= hi
    ensures |r| == hi - lo
    ensures forall k :: 0 <= k < |r| ==> r[k] == lo + k
  {
    seq(hi - lo, k requires 0 <= k < hi - lo => lo + k)
  }

  lemma RangeAppend(lo: nat, mid: nat, hi: nat)
    requires lo <= mid <= hi
    ensures Range(lo, mid) + Range(mid, hi) == Range(lo, hi)
  {
    var a, b := Range(lo, mid) + Range(mid, hi), Range(lo, hi);
    forall k | 0 <= k < |b|
      ensures a[k] == b[k]
    {
      if k >= mid - lo {
        assert a[k] == Range(mid, hi)[k - (mid - lo)];
      }
    }
  }

  /** The indices the chunk loop `for (i = start; i < end; i += vectorSize)` touches, in order. */
  function ChunkIndices(start: nat, end: nat, vectorSize: nat): seq<nat>
    requires vectorSize > 0
    decreases end - start
  {
    if start >= end then [] else Range(start, start + vectorSize) + ChunkIndices(start + vectorSize, end, vectorSize)
  }

  /** The order in which a row's indices are visited: whole chunks, then the remainder. */
  function Schedule(length: nat, vectorSize: nat): seq<nat>
    requires vectorSize > 0
  {
    var vectorizedLength := VectorizedLength(length, vectorSize);
    ChunkIndices(0, vectorizedLength, vectorSize) + Range(vectorizedLength, length)
  }

  /** A chunk that starts below a multiple of the lane count ends at or below it. */
  lemma ChunkFits(chunks: nat, total: nat, vectorSize: nat)
    requires chunks * vectorSize < total * vectorSize
    ensures chunks < total
    ensures chunks * vectorSize + vectorSize <= total * vectorSize
    ensures (chunks + 1) * vectorSize == chunks * vectorSize + vectorSize
  {
    if total <= chunks {
      MulMonotone(total, chunks, vectorSize);
    }
    RowWithin(chunks, total, vectorSize);
  }

  lemma {:induction false} ChunksCover(chunks: nat, total: nat, vectorSize: nat)
    requires vectorSize > 0 && chunks <= total
    ensures chunks * vectorSize <= total * vectorSize
    ensures ChunkIndices(chunks * vectorSize, total * vectorSize, vectorSize)
            == Range(chunks * vectorSize, total * vectorSize)
    decreases total - chunks
  {
    MulMonotone(chunks, total, vectorSize);
    if chunks < total {
      RowWithin(chunks, total, vectorSize);
      assert (chunks + 1) * vectorSize == chunks * vectorSize + vectorSize;
      ChunksCover(chunks + 1, total, vectorSize);
      RangeAppend(chunks * vectorSize, chunks * vectorSize + vectorSize, total * vectorSize);
    }
  }

  /**
    The chunk loop followed by the remainder loop visits every index of
    `[0, length)` exactly once and in increasing order, whatever the lane count.
   */
  lemma ScheduleVisitsEachIndexOnce(length: nat, vectorSize: nat)
    requires vectorSize > 0
    ensures Schedule(length, vectorSize) == Range(0, length)
  {
    var vectorizedLength := VectorizedLength(length, vectorSize);
    ChunksCover(0, length / vectorSize, vectorSize);
    RangeAppend(0, vectorizedLength, length);
  }

  /** One chunk of the vectorized dot product extends the prefix dot product by `width` terms. */
  lemma ChunkStep(w: Vector, x: Vector, i: nat, width: nat, acc: Vector)
    requires i + width <= |w| && i + width <= |x| && |acc| == width
    requires Sum(acc) == Dot(w[..i], x[..i])
    ensures Sum(Lanes.Add(acc, Lanes.Mul(Lanes.Load(w, i, width), Lanes.Load(x, i, width))))
            == Dot(w[..i + width], x[..i + width])
  {
    var wv, xv := Lanes.Load(w, i, width), Lanes.Load(x, i, width);
    Lanes.SumAdd(acc, Lanes.Mul(wv, xv));
    Lanes.SumMul(wv, xv);
    PrefixThenChunk(w, x, i, width);
  }

  /** The dot product over `[0, i + width)` is the one over `[0, i)` plus the one over the chunk. */
  lemma PrefixThenChunk(w: Vector, x: Vector, i: nat, width: nat)
    requires i + width <= |w| && i + width <= |x|
    ensures Dot(w[..i + width], x[..i + width])
            == Dot(w[..i], x[..i]) + Dot(Lanes.Load(w, i, width), Lanes.Load(x, i, width))
  {
    var wv, xv := Lanes.Load(w, i, width), Lanes.Load(x, i, width);
    assert w[..i] + wv == w[..i + width];
    assert x[..i] + xv == x[..i + width];
    DotAppend(w[..i], wv, x[..i], xv);
  }

  /**
    The vectorized loop of `SIMDDotProduct`: lane-wise products of whole
    chunks, accumulated in a vector of partial sums. The partial sums add up
    to the dot product of the cells the chunks cover, and `visited` records
    those cells in the order they are read.
   */
  method ChunkedProducts(weights: Vector, inputs: Vector, length: nat, vectorSize: nat)
    returns (sumVector: Vector, ghost visited: seq<nat>)
    requires vectorSize > 0
    requires length <= |weights| && length <= |inputs|
    ensures |sumVector| == vectorSize
    ensures Sum(sumVector) == Dot(weights[..VectorizedLength(length, vectorSize)], inputs[..VectorizedLength(length, vectorSize)])
    ensures visited == ChunkIndices(0, VectorizedLength(length, vectorSize), vectorSize)
  {
    var vectorizedLength := VectorizedLength(length, vectorSize);
    ghost var total := length / vectorSize;
    sumVector := Lanes.Splat(0.0, vectorSize);
    Lanes.SumZero(vectorSize);
    var i := 0;
    ghost var chunks := 0;
    visited := [];
    while i < vectorizedLength
      invariant chunks <= total && i == chunks * vectorSize && i <= vectorizedLength
      invariant |sumVector| == vectorSize
      invariant Sum(sumVector) == Dot(weights[..i], inputs[..i])
      invariant visited == Range(0, i)
      decreases vectorizedLength - i
    {
      ChunkFits(chunks, total, vectorSize);
      var weightVec := Lanes.Load(weights, i, vectorSize);
      var inputVec := Lanes.Load(inputs, i, vectorSize);
      ChunkStep(weights, inputs, i, vectorSize, sumVector);
      sumVector := Lanes.Add(sumVector, Lanes.Mul(weightVec, inputVec));
      RangeAppend(0, i, i + vectorSize);
      visited := visited + Range(i, i + vectorSize);
      i := i + vectorSize;
      chunks := chunks + 1;
      MulMonotone(chunks, total, vectorSize);
    }
    ChunksCover(0, total, vectorSize);
  }

  /** The horizontal add of `SIMDDotProduct`: the lanes of `v` summed in order. */
  method HorizontalSum(v: Vector) returns (sum: real)
    ensures sum == Sum(v)
  {
    sum := 0.0;
    var lane := 0;
    while lane < |v|
      invariant 0 <= lane <= |v|
      invariant sum == Sum(v[..lane])
    {
      SumSnoc(v, lane);
      sum := sum + v[lane];
      lane := lane + 1;
    }
    assert v[..|v|] == v;
  }

  /**
    `SIMDDotProduct`: lane-wise products accumulated chunk by chunk, the lanes
    summed, then the remaining products added one by one. The result is the
    dot product of the first `length` cells, and `visited` records the indices
    read, in order.
   */
  method SimdDotProduct(weights: Vector, inputs: Vector, length: nat, vectorSize: nat)
    returns (sum: real, ghost visited: seq<nat>)
    requires vectorSize > 0
    requires length <= |weights| && length <= |inputs|
    ensures sum == Dot(weights[..length], inputs[..length])
    ensures visited == Schedule(length, vectorSize)
  {
    var vectorizedLength := VectorizedLength(length, vectorSize);
    var sumVector;
    sumVector, visited := ChunkedProducts(weights, inputs, length, vectorSize);
    sum := HorizontalSum(sumVector);
    var i := vectorizedLength;
    while i < length
      invariant vectorizedLength <= i <= length
      invariant sum == Dot(weights[..i], inputs[..i])
      invariant visited == ChunkIndices(0, vectorizedLength, vectorSize) + Range(vectorizedLength, i)
    {
      DotSnoc(weights, inputs, i);
      sum := sum + weights[i] * inputs[i];
      assert Range(vectorizedLength, i + 1) == Range(vectorizedLength, i) + [i];
      visited := visited + [i];
      i := i + 1;
    }
  }

  /** The array-of-neurons forward pass agrees with the given outputs of the structure-of-arrays one. */
  lemma ForwardAgrees(l: OptimizedLayer, inputs: Vector, sigmoid: real -> real, outputVector: Vector)
    requires Valid(l) && |inputs| == l.inputSize && |outputVector| == l.neuronCount
    requires forall n :: 0 <= n < l.neuronCount ==>
               outputVector[n] == sigmoid(Dot(WeightsOf(l, n), inputs) + l.allBiases[n])
    ensures Valid(l.(outputs := outputVector, lastOutputs := outputVector))
    ensures Layers.FeedForward(ToLayer(l), inputs, sigmoid)
            == Ok((ToLayer(l.(outputs := outputVector, lastOutputs := outputVector)), outputVector))
  {
    var updated := l.(outputs := outputVector, lastOutputs := outputVector);
    ForwardOutputsAgree(l, inputs, sigmoid, outputVector);
    ForwardCachesAgree(l, outputVector);
    Layers.FeedForwardFromNeurons(ToLayer(l), inputs, sigmoid, ToLayer(updated), outputVector);
  }

  /** Every neuron of the array view computes the optimized layer's output. */
  lemma ForwardOutputsAgree(l: OptimizedLayer, inputs: Vector, sigmoid: real -> real, outputVector: Vector)
    requires Valid(l) && |inputs| == l.inputSize && |outputVector| == l.neuronCount
    requires forall n :: 0 <= n < l.neuronCount ==>
               outputVector[n] == sigmoid(Dot(WeightsOf(l, n), inputs) + l.allBiases[n])
    ensures forall n :: 0 <= n < l.neuronCount ==>
              outputVector[n] == sigmoid(Dot(ToLayer(l).neurons[n].weights, inputs) + ToLayer(l).neurons[n].bias)
  {
    forall n | 0 <= n < l.neuronCount
      ensures outputVector[n] == sigmoid(Dot(ToLayer(l).neurons[n].weights, inputs) + ToLayer(l).neurons[n].bias)
    {
      var neuron := ToLayer(l).neurons[n];
      assert neuron.weights == WeightsOf(l, n) && neuron.bias == l.allBiases[n];
    }
  }

  /** Caching the outputs in the optimized layer caches them in every neuron of the array view. */
  lemma ForwardCachesAgree(l: OptimizedLayer, outputVector: Vector)
    requires Valid(l) && |outputVector| == l.neuronCount
    ensures Valid(l.(outputs := outputVector, lastOutputs := outputVector))
    ensures forall n :: 0 <= n < l.neuronCount ==>
              ToLayer(l.(outputs := outputVector, lastOutputs := outputVector)).neurons[n]
              == ToLayer(l).neurons[n].(lastOutput := outputVector[n])
  {
    var updated := l.(outputs := outputVector, lastOutputs := outputVector);
    forall n | 0 <= n < l.neuronCount
      ensures ToLayer(updated).neurons[n] == ToLayer(l).neurons[n].(lastOutput := outputVector[n])
    {
      assert WeightsOf(updated, n) == WeightsOf(l, n);
    }
  }

  /**
    `FeedForward`: neuron `n`'s output is `sigmoid(bias[n] + row[n] . x)` over
    the first `inputSize` inputs, written to both the outputs and the cache.
    The vector handed back is the layer's own output buffer, so the returned
    layer's outputs are the returned vector. The weights and biases are not
    touched, and the result is what the array-of-neurons layer with the same
    parameters computes.
   */
  method FeedForward(l: OptimizedLayer, inputs: Vector, vectorSize: nat, sigmoid: real -> real)
    returns (updated: OptimizedLayer, outputVector: Vector)
    requires Valid(l) && vectorSize > 0 && l.inputSize <= |inputs|
    ensures updated == l.(outputs := outputVector, lastOutputs := outputVector)
    ensures Valid(updated) && |outputVector| == l.neuronCount
    ensures forall n :: 0 <= n < l.neuronCount ==>
              outputVector[n] == sigmoid(l.allBiases[n] + Dot(WeightsOf(l, n), inputs[..l.inputSize]))
    ensures Layers.FeedForward(ToLayer(l), inputs[..l.inputSize], sigmoid) == Ok((ToLayer(updated), outputVector))
  {
    var outputs := l.outputs;
    var lastOutputs := l.lastOutputs;
    var neuron := 0;
    while neuron < l.neuronCount
      invariant 0 <= neuron <= l.neuronCount
      invariant |outputs| == l.neuronCount && |lastOutputs| == l.neuronCount
      invariant forall m :: 0 <= m < neuron ==>
                  && outputs[m] == sigmoid(l.allBiases[m] + Dot(WeightsOf(l, m), inputs[..l.inputSize]))
                  && lastOutputs[m] == outputs[m]
    {
      var neuronWeights := WeightsOf(l, neuron);
      var dot;
      ghost var trace;
      dot, trace := SimdDotProduct(neuronWeights, inputs, l.inputSize, vectorSize);
      assert neuronWeights[..l.inputSize] == neuronWeights;
      var sum := l.allBiases[neuron] + dot;
      var output := sigmoid(sum);
      outputs := outputs[neuron := output];
      lastOutputs := lastOutputs[neuron := output];
      neuron := neuron + 1;
    }
    assert lastOutputs == outputs;
    outputVector := outputs;
    updated := l.(outputs := outputs, lastOutputs := lastOutputs);
    forall n | 0 <= n < l.neuronCount
      ensures outputVector[n] == sigmoid(Dot(WeightsOf(l, n), inputs[..l.inputSize]) + l.allBiases[n])
    {
      assert l.allBiases[n] + Dot(WeightsOf(l, n), inputs[..l.inputSize])
             == Dot(WeightsOf(l, n), inputs[..l.inputSize]) + l.allBiases[n];
    }
    ForwardAgrees(l, inputs[..l.inputSize], sigmoid, outputVector);
  }

  /** Writing a row back changes that row and no other. */
  lemma StoreRow(flat: Vector, n: nat, rows: nat, width: nat, row: Vector)
    requires |flat| == rows * width && n < rows && |row| == width
    ensures n * width + |row| <= |flat|
    ensures |Lanes.Store(flat, n * width, row)| == rows * width
    ensures RowOf(Lanes.Store(flat, n * width, row), n, rows, width) == row
    ensures forall m :: 0 <= m < rows && m != n ==>
              RowOf(Lanes.Store(flat, n * width, row), m, rows, width) == RowOf(flat, m, rows, width)
  {
    RowWithin(n, rows, width);
    var r := Lanes.Store(flat, n * width, row);
    assert r == flat[..n * width] + row + flat[n * width + width..];
    forall m | 0 <= m < rows && m != n
      ensures RowOf(r, m, rows, width) == RowOf(flat, m, rows, width)
    {
      StoreOtherRow(flat, n, m, rows, width, row);
    }
  }

  /** Row `m` of the buffer is untouched by writing row `n != m`. */
  lemma StoreOtherRow(flat: Vector, n: nat, m: nat, rows: nat, width: nat, row: Vector)
    requires |flat| == rows * width && n < rows && m < rows && m != n && |row| == width
    ensures n * width + |row| <= |flat|
    ensures RowOf(Lanes.Store(flat, n * width, row), m, rows, width) == RowOf(flat, m, rows, width)
  {
    RowWithin(n, rows, width);
    RowWithin(m, rows, width);
    if m < n {
      RowWithin(m, n, width);
    } else {
      RowWithin(n, m, width);
    }
    Lanes.StoreKeepsSlice(flat, n * width, row, m * width, m * width + width);
  }

  /**
    `Unsafe.Write` of a whole row: the buffer with row `n` replaced by `row`.
    Callers see only which rows change.
   */
  method WriteRow(flat: Vector, n: nat, rows: nat, width: nat, row: Vector) returns (r: Vector)
    requires |flat| == rows * width && n < rows && |row| == width
    ensures |r| == rows * width
    ensures RowOf(r, n, rows, width) == row
    ensures forall m :: 0 <= m < rows && m != n ==> RowOf(r, m, rows, width) == RowOf(flat, m, rows, width)
  {
    StoreRow(flat, n, rows, width, row);
    r := Lanes.Store(flat, n * width, row);
  }

  /**
    One pass of the vectorized inner loop of `Backpropagate`, at cells
    `[i, i + width)`: the error accumulator gains `w * delta` lane-wise and the
    weights gain `(learningRate * delta) * x`, both from the values loaded
    before either write. Every other cell is kept.
   */
  method UpdateChunk(row: Vector, inputs: Vector, outputErrors: Vector, i: nat, width: nat,
                     deltaVector: Vector, learningRateDeltaVector: Vector, delta: real, rate: real)
    returns (rowAfter: Vector, errorsAfter: Vector)
    requires i + width <= |row| && |row| <= |inputs| && |row| <= |outputErrors|
    requires |deltaVector| == width && |learningRateDeltaVector| == width
    requires forall l :: 0 <= l < width ==> deltaVector[l] == delta
    requires forall l :: 0 <= l < width ==> learningRateDeltaVector[l] == rate
    ensures |rowAfter| == |row| && |errorsAfter| == |outputErrors|
    ensures forall k :: i <= k < i + width ==> rowAfter[k] == row[k] + rate * inputs[k]
    ensures forall k :: i <= k < i + width ==> errorsAfter[k] == outputErrors[k] + row[k] * delta
    ensures forall k :: 0 <= k < |row| && (k < i || i + width <= k) ==> rowAfter[k] == row[k]
    ensures forall k :: 0 <= k < |outputErrors| && (k < i || i + width <= k) ==> errorsAfter[k] == outputErrors[k]
  {
    var weightVec := Lanes.Load(row, i, width);
    var inputVec := Lanes.Load(inputs, i, width);
    errorsAfter := Lanes.Store(outputErrors, i, Lanes.Add(Lanes.Load(outputErrors, i, width), Lanes.Mul(weightVec, deltaVector)));
    rowAfter := Lanes.Store(row, i, Lanes.Add(weightVec, Lanes.Mul(learningRateDeltaVector, inputVec)));
    Lanes.ScaledAddRight(outputErrors, i, deltaVector, delta, row);
    Lanes.ScaledAddLeft(row, i, learningRateDeltaVector, rate, inputs);
  }

  /**
    The vectorized inner loop of `Backpropagate`: whole chunks of `vectorSize`
    cells, up to `vectorizedLength`, each updated as `UpdateChunk` describes.
   */
  method UpdateChunks(row: Vector, inputs: Vector, outputErrors: Vector, vectorSize: nat,
                      deltaVector: Vector, learningRateDeltaVector: Vector, delta: real, rate: real)
    returns (newRow: Vector, newErrors: Vector)
    requires vectorSize > 0
    requires |row| <= |inputs| && |row| <= |outputErrors|
    requires |deltaVector| == vectorSize && |learningRateDeltaVector| == vectorSize
    requires forall l :: 0 <= l < vectorSize ==> deltaVector[l] == delta
    requires forall l :: 0 <= l < vectorSize ==> learningRateDeltaVector[l] == rate
    ensures |newRow| == |row| && |newErrors| == |outputErrors|
    ensures forall k :: 0 <= k < VectorizedLength(|row|, vectorSize) ==> newRow[k] == row[k] + rate * inputs[k]
    ensures forall k :: VectorizedLength(|row|, vectorSize) <= k < |row| ==> newRow[k] == row[k]
    ensures forall k :: 0 <= k < VectorizedLength(|row|, vectorSize) ==>
              newErrors[k] == outputErrors[k] + row[k] * delta
    ensures forall k :: VectorizedLength(|row|, vectorSize) <= k < |outputErrors| ==> newErrors[k] == outputErrors[k]
  {
    var vectorizedLength := VectorizedLength(|row|, vectorSize);
    ghost var total := |row| / vectorSize;
    newRow, newErrors := row, outputErrors;
    var i := 0;
    ghost var chunks := 0;
    while i < vectorizedLength
      invariant chunks <= total && i == chunks * vectorSize && i <= vectorizedLength
      invariant |newRow| == |row| && |newErrors| == |outputErrors|
      invariant forall k :: 0 <= k < i ==> newRow[k] == row[k] + rate * inputs[k]
      invariant forall k :: i <= k < |row| ==> newRow[k] == row[k]
      invariant forall k :: 0 <= k < i ==> newErrors[k] == outputErrors[k] + row[k] * delta
      invariant forall k :: i <= k < |outputErrors| ==> newErrors[k] == outputErrors[k]
      decreases vectorizedLength - i
    {
      ChunkFits(chunks, total, vectorSize);
      newRow, newErrors := UpdateChunk(newRow, inputs, newErrors, i, vectorSize, deltaVector,
                                       learningRateDeltaVector, delta, rate);
      i := i + vectorSize;
      chunks := chunks + 1;
      MulMonotone(chunks, total, vectorSize);
    }
  }

  /**
    The inner loops of `Backpropagate` for one neuron: every cell `i` of the
    row adds `w[i] * delta` to `outputErrors[i]` (reading the weight before its
    update) and then moves the weight by `learningRate * delta * inputs[i]`,
    chunk by chunk and then element by element. Cells past the row are kept.
   */
  method UpdateRow(row: Vector, inputs: Vector, outputErrors: Vector, delta: real, learningRate: real,
                   vectorSize: nat)
    returns (newRow: Vector, newErrors: Vector)
    requires vectorSize > 0
    requires |row| <= |inputs| && |row| <= |outputErrors|
    ensures |newRow| == |row| && |newErrors| == |outputErrors|
    ensures forall k :: 0 <= k < |row| ==> newRow[k] == row[k] + learningRate * delta * inputs[k]
    ensures forall k :: 0 <= k < |row| ==> newErrors[k] == outputErrors[k] + row[k] * delta
    ensures forall k :: |row| <= k < |outputErrors| ==> newErrors[k] == outputErrors[k]
  {
    var inputSize := |row|;
    var vectorizedLength := VectorizedLength(inputSize, vectorSize);
    var deltaVector := Lanes.Splat(delta, vectorSize);
    var learningRateVector := Lanes.Splat(learningRate, vectorSize);
    var learningRateDeltaVector := Lanes.Mul(learningRateVector, deltaVector);
    var rate := learningRate * delta;
    var chunkedRow, chunkedErrors := UpdateChunks(row, inputs, outputErrors, vectorSize, deltaVector,
                                                  learningRateDeltaVector, delta, rate);
    newRow, newErrors := UpdateRemainder(row, inputs, outputErrors, vectorizedLength, chunkedRow, chunkedErrors,
                                         delta, learningRate);
  }

  /**
    The scalar tail of the inner loops of `Backpropagate`: cells
    `[start, |row|)` that the chunks did not reach are updated one at a time,
    the error share read from the weight before the weight moves.
   */
  method UpdateRemainder(row: Vector, inputs: Vector, outputErrors: Vector, start: nat,
                         partialRow: Vector, partialErrors: Vector, delta: real, learningRate: real)
    returns (newRow: Vector, newErrors: Vector)
    requires start <= |row| <= |inputs| && |row| <= |outputErrors|
    requires |partialRow| == |row| && |partialErrors| == |outputErrors|
    requires forall k :: 0 <= k < start ==> partialRow[k] == row[k] + learningRate * delta * inputs[k]
    requires forall k :: start <= k < |row| ==> partialRow[k] == row[k]
    requires forall k :: 0 <= k < start ==> partialErrors[k] == outputErrors[k] + row[k] * delta
    requires forall k :: start <= k < |outputErrors| ==> partialErrors[k] == outputErrors[k]
    ensures |newRow| == |row| && |newErrors| == |outputErrors|
    ensures forall k :: 0 <= k < |row| ==> newRow[k] == row[k] + learningRate * delta * inputs[k]
    ensures forall k :: 0 <= k < |row| ==> newErrors[k] == outputErrors[k] + row[k] * delta
    ensures forall k :: |row| <= k < |outputErrors| ==> newErrors[k] == outputErrors[k]
  {
    newRow, newErrors := partialRow, partialErrors;
    var i := start;
    while i < |row|
      invariant start <= i <= |row|
      invariant |newRow| == |row| && |newErrors| == |outputErrors|
      invariant forall k :: 0 <= k < i ==> newRow[k] == row[k] + learningRate * delta * inputs[k]
      invariant forall k :: i <= k < |row| ==> newRow[k] == row[k]
      invariant forall k :: 0 <= k < i ==> newErrors[k] == outputErrors[k] + row[k] * delta
      invariant forall k :: i <= k < |outputErrors| ==> newErrors[k] == outputErrors[k]
    {
      assert newRow[i] == row[i] && newErrors[i] == outputErrors[i];
      newErrors := newErrors[i := newErrors[i] + newRow[i] * delta];
      newRow := newRow[i := newRow[i] + learningRate * delta * inputs[i]];
      i := i + 1;
    }
  }

  /** One neuron of the backward loop: its error shares extend the fan-in by one neuron. */
  lemma BackwardFanInStep(deltas: seq<real>, rows: seq<Vector>, width: nat, n: nat, delta: real, row: Vector,
                          acc: Vector, newAcc: Vector)
    requires |rows| == |deltas| && n < |deltas| && deltas[n] == delta && rows[n] == row
    requires forall m :: 0 <= m < |rows| ==> |rows[m]| == width
    requires |acc| >= width && |newAcc| >= width
    requires forall j :: 0 <= j < width ==> acc[j] == Layers.FanIn(deltas[..n], rows[..n], j)
    requires forall k :: 0 <= k < width ==> newAcc[k] == acc[k] + row[k] * delta
    ensures forall j :: 0 <= j < width ==> newAcc[j] == Layers.FanIn(deltas[..n + 1], rows[..n + 1], j)
  {
    forall j | 0 <= j < width
      ensures newAcc[j] == Layers.FanIn(deltas[..n + 1], rows[..n + 1], j)
    {
      Layers.FanInSnoc(deltas, rows, n, j);
    }
  }

  /** The neuron view has the same local gradients and weight rows as the buffers. */
  lemma ViewsAgree(l: OptimizedLayer, errors: Vector)
    requires Valid(l) && l.neuronCount <= |errors|
    ensures Layers.Deltas(ToLayer(l).neurons, errors, l.neuronCount) == DeltasOf(l, errors)
    ensures Layers.WeightRows(ToLayer(l).neurons, l.neuronCount) == WeightRowsOf(l)
  {
    var neurons := ToLayer(l).neurons;
    var d1, d2 := Layers.Deltas(neurons, errors, l.neuronCount), DeltasOf(l, errors);
    forall n | 0 <= n < l.neuronCount
      ensures d1[n] == d2[n]
    {
    }
    var r1, r2 := Layers.WeightRows(neurons, l.neuronCount), WeightRowsOf(l);
    forall n | 0 <= n < l.neuronCount
      ensures r1[n] == r2[n]
    {
    }
  }

  /** Neuron `n` after the array-of-neurons backward pass is neuron `n` of the updated buffers. */
  lemma NeuronAgrees(l: OptimizedLayer, updated: OptimizedLayer, inputs: Vector, errors: Vector,
                     learningRate: real, n: nat)
    requires Valid(l) && Valid(updated) && n < l.neuronCount
    requires updated.neuronCount == l.neuronCount && updated.inputSize == l.inputSize
    requires updated.lastOutputs == l.lastOutputs
    requires |inputs| == l.inputSize && l.neuronCount <= |errors|
    requires WeightsOf(updated, n) == UpdatedRow(l, inputs, errors, learningRate, n)
    requires updated.allBiases[n] == l.allBiases[n] + learningRate * Neurons.Delta(errors[n], l.lastOutputs[n])
    ensures Neurons.Backpropagate(ToLayer(l).neurons[n], inputs, errors[n], learningRate).Ok?
    ensures Neurons.Backpropagate(ToLayer(l).neurons[n], inputs, errors[n], learningRate).value.0
            == ToLayer(updated).neurons[n]
  {
    var before := Neurons.Neuron(WeightsOf(l, n), l.allBiases[n], l.lastOutputs[n]);
    assert ToLayer(l).neurons[n] == before;
    var after := Neurons.Backpropagate(before, inputs, errors[n], learningRate).value.0;
    var w := WeightsOf(updated, n);
    forall k | 0 <= k < |inputs|
      ensures after.weights[k] == w[k]
    {
    }
    assert after.weights == w;
    assert after == Neurons.Neuron(w, updated.allBiases[n], updated.lastOutputs[n]);
  }

  /** The array-of-neurons backward pass agrees with the given result of the structure-of-arrays one. */
  lemma BackwardAgrees(l: OptimizedLayer, updated: OptimizedLayer, inputs: Vector, errors: Vector,
                       learningRate: real, outputErrors: Vector)
    requires Valid(l) && Valid(updated)
    requires updated.neuronCount == l.neuronCount && updated.inputSize == l.inputSize
    requires updated.lastOutputs == l.lastOutputs
    requires |inputs| == l.inputSize && l.neuronCount <= |errors| && |outputErrors| == l.inputSize
    requires forall n :: 0 <= n < l.neuronCount ==>
               WeightsOf(updated, n) == UpdatedRow(l, inputs, errors, learningRate, n)
    requires forall n :: 0 <= n < l.neuronCount ==>
               updated.allBiases[n] == l.allBiases[n] + learningRate * Neurons.Delta(errors[n], l.lastOutputs[n])
    requires forall j :: 0 <= j < l.inputSize ==>
               outputErrors[j] == Layers.FanIn(DeltasOf(l, errors), WeightRowsOf(l), j)
    ensures Layers.Backpropagate(ToLayer(l), inputs, errors, learningRate) == Ok((ToLayer(updated), outputErrors))
  {
    var layer, target := ToLayer(l), ToLayer(updated);
    var r := Layers.Backpropagate(layer, inputs, errors, learningRate);
    assert r.Ok?;
    ViewsAgree(l, errors);
    assert r.value.1 == outputErrors;
    forall n | 0 <= n < l.neuronCount
      ensures r.value.0.neurons[n] == target.neurons[n]
    {
      NeuronAgrees(l, updated, inputs, errors, learningRate, n);
    }
    assert r.value.0.neurons == target.neurons;
  }

  /** Row `n` after neuron `n`'s own update. */
  function UpdatedRow(l: OptimizedLayer, inputs: Vector, errors: Vector, learningRate: real, n: nat): (r: Vector)
    requires Valid(l) && n < l.neuronCount && l.neuronCount <= |errors| && |inputs| == l.inputSize
    ensures |r| == l.inputSize
    ensures forall i :: 0 <= i < |r| ==>
              r[i] == WeightsOf(l, n)[i] + learningRate * Neurons.Delta(errors[n], l.lastOutputs[n]) * inputs[i]
  {
    Neurons.Step(WeightsOf(l, n), inputs, learningRate * Neurons.Delta(errors[n], l.lastOutputs[n]))
  }

  /** Bias `n` after neuron `n`'s own update. */
  function UpdatedBias(l: OptimizedLayer, errors: Vector, learningRate: real, n: nat): real
    requires Valid(l) && n < l.neuronCount && l.neuronCount <= |errors|
  {
    l.allBiases[n] + learningRate * Neurons.Delta(errors[n], l.lastOutputs[n])
  }

  /** The row the inner loops leave behind is row `n` after neuron `n`'s own update. */
  lemma RowStepIs(l: OptimizedLayer, inputs: Vector, x: Vector, errors: Vector, learningRate: real, n: nat,
                  delta: real, row: Vector, newRow: Vector)
    requires Valid(l) && n < l.neuronCount && l.neuronCount <= |errors|
    requires l.inputSize <= |inputs| && x == inputs[..l.inputSize]
    requires delta == errors[n] * Neurons.SigmoidDerivative(l.lastOutputs[n])
    requires row == WeightsOf(l, n) && |newRow| == |row|
    requires forall k :: 0 <= k < |row| ==> newRow[k] == row[k] + learningRate * delta * inputs[k]
    ensures newRow == UpdatedRow(l, x, errors, learningRate, n)
  {
    var step := UpdatedRow(l, x, errors, learningRate, n);
    forall k | 0 <= k < |row|
      ensures newRow[k] == step[k]
    {
      assert x[k] == inputs[k];
    }
  }

  /** Rows `0 .. neuron` are updated and the rest are as they were. */
  ghost predicate RowsDone(l: OptimizedLayer, x: Vector, errors: Vector, learningRate: real, weights: Vector, neuron: nat)
    requires Valid(l) && |x| == l.inputSize && l.neuronCount <= |errors| && neuron <= l.neuronCount
  {
    && |weights| == l.neuronCount * l.inputSize
    && (forall m :: 0 <= m < neuron ==>
          RowOf(weights, m, l.neuronCount, l.inputSize) == UpdatedRow(l, x, errors, learningRate, m))
    && (forall m :: neuron <= m < l.neuronCount ==>
          RowOf(weights, m, l.neuronCount, l.inputSize) == WeightsOf(l, m))
  }

  /** Biases `0 .. neuron` are updated and the rest are as they were. */
  ghost predicate BiasesDone(l: OptimizedLayer, errors: Vector, learningRate: real, biases: Vector, neuron: nat)
    requires Valid(l) && l.neuronCount <= |errors| && neuron <= l.neuronCount
  {
    && |biases| == l.neuronCount
    && (forall m :: 0 <= m < neuron ==> biases[m] == UpdatedBias(l, errors, learningRate, m))
    && (forall m :: neuron <= m < l.neuronCount ==> biases[m] == l.allBiases[m])
  }

  /** The error buffer holds the fan-in of neurons `0 .. neuron` and zeros past `inputSize`. */
  ghost predicate ErrorsDone(l: OptimizedLayer, errors: Vector, newErrors: Vector, length: nat, neuron: nat)
    requires Valid(l) && l.neuronCount <= |errors| && neuron <= l.neuronCount
  {
    && |newErrors| == length && l.inputSize <= length
    && (forall j :: 0 <= j < l.inputSize ==>
          newErrors[j] == Layers.FanIn(DeltasOf(l, errors)[..neuron], WeightRowsOf(l)[..neuron], j))
    && (forall j :: l.inputSize <= j < length ==> newErrors[j] == 0.0)
  }

  /** Writing the updated row of `neuron` advances the weight buffer by one neuron. */
  lemma RowsStep(l: OptimizedLayer, x: Vector, errors: Vector, learningRate: real, weights: Vector,
                 written: Vector, newRow: Vector, neuron: nat)
    requires Valid(l) && |x| == l.inputSize && l.neuronCount <= |errors| && neuron < l.neuronCount
    requires RowsDone(l, x, errors, learningRate, weights, neuron)
    requires |written| == l.neuronCount * l.inputSize
    requires newRow == UpdatedRow(l, x, errors, learningRate, neuron)
    requires RowOf(written, neuron, l.neuronCount, l.inputSize) == newRow
    requires forall m :: 0 <= m < l.neuronCount && m != neuron ==>
               RowOf(written, m, l.neuronCount, l.inputSize) == RowOf(weights, m, l.neuronCount, l.inputSize)
    ensures RowsDone(l, x, errors, learningRate, written, neuron + 1)
  {
  }

  /** Moving bias `neuron` advances the bias buffer by one neuron. */
  lemma BiasesStep(l: OptimizedLayer, errors: Vector, learningRate: real, biases: Vector, neuron: nat, delta: real)
    requires Valid(l) && l.neuronCount <= |errors| && neuron < l.neuronCount
    requires BiasesDone(l, errors, learningRate, biases, neuron)
    requires delta == errors[neuron] * Neurons.SigmoidDerivative(l.lastOutputs[neuron])
    ensures BiasesDone(l, errors, learningRate, biases[neuron := biases[neuron] + learningRate * delta], neuron + 1)
  {
  }

  /** Adding the error shares of `neuron` advances the error buffer by one neuron. */
  lemma ErrorsStep(l: OptimizedLayer, errors: Vector, newErrors: Vector, accumulated: Vector, length: nat,
                   neuron: nat, delta: real, row: Vector)
    requires Valid(l) && l.neuronCount <= |errors| && neuron < l.neuronCount
    requires ErrorsDone(l, errors, newErrors, length, neuron)
    requires delta == errors[neuron] * Neurons.SigmoidDerivative(l.lastOutputs[neuron])
    requires row == WeightsOf(l, neuron) && |accumulated| == |newErrors|
    requires forall k :: 0 <= k < |row| ==> accumulated[k] == newErrors[k] + row[k] * delta
    requires forall k :: |row| <= k < |newErrors| ==> accumulated[k] == newErrors[k]
    ensures ErrorsDone(l, errors, accumulated, length, neuron + 1)
  {
    BackwardFanInStep(DeltasOf(l, errors), WeightRowsOf(l), l.inputSize, neuron, delta, row, newErrors, accumulated);
  }

  /** One iteration of the neuron loop of `Backpropagate`. */
  method BackwardNeuron(l: OptimizedLayer, inputs: Vector, ghost x: Vector, errors: Vector, learningRate: real,
                        vectorSize: nat, weights: Vector, biases: Vector, newErrors: Vector, ghost length: nat,
                        neuron: nat)
    returns (weights': Vector, biases': Vector, newErrors': Vector)
    requires Valid(l) && vectorSize > 0 && l.neuronCount <= |errors| && neuron < l.neuronCount
    requires l.inputSize <= |inputs| && x == inputs[..l.inputSize]
    requires RowsDone(l, x, errors, learningRate, weights, neuron)
    requires BiasesDone(l, errors, learningRate, biases, neuron)
    requires ErrorsDone(l, errors, newErrors, length, neuron)
    ensures RowsDone(l, x, errors, learningRate, weights', neuron + 1)
    ensures BiasesDone(l, errors, learningRate, biases', neuron + 1)
    ensures ErrorsDone(l, errors, newErrors', length, neuron + 1)
  {
    var neuronCount, inputSize := l.neuronCount, l.inputSize;
    var delta := errors[neuron] * Neurons.SigmoidDerivative(l.lastOutputs[neuron]);
    var neuronWeights := RowOf(weights, neuron, neuronCount, inputSize);
    assert neuronWeights == WeightsOf(l, neuron);
    var newRow;
    newRow, newErrors' := UpdateRow(neuronWeights, inputs, newErrors, delta, learningRate, vectorSize);
    ErrorsStep(l, errors, newErrors, newErrors', length, neuron, delta, neuronWeights);
    RowStepIs(l, inputs, x, errors, learningRate, neuron, delta, neuronWeights, newRow);
    weights' := WriteRow(weights, neuron, neuronCount, inputSize, newRow);
    RowsStep(l, x, errors, learningRate, weights, weights', newRow, neuron);
    biases' := biases[neuron := biases[neuron] + learningRate * delta];
    BiasesStep(l, errors, learningRate, biases, neuron, delta);
  }

  /**
    `Backpropagate`: clears `outputErrors`, then for each neuron `n` in order
    takes `delta_n` from `errors[n]` and the cached output, adds
    `w_n[i] * delta_n` to `outputErrors[i]` and moves `w_n[i]` by
    `learningRate * delta_n * inputs[i]` and the bias by `learningRate * delta_n`.
    So entry `i` of the result is the fan-in over all neurons with the weights
    as they were before the pass, entries past `inputSize` stay 0, and the
    outcome is what the array-of-neurons layer with the same parameters
    computes. The outputs and the cache are left alone.

    The loops read `inputs`, `errors` and `outputErrors` through raw pointers,
    so the buffers must be at least as long as the layer reads.
   */
  method Backpropagate(l: OptimizedLayer, inputs: Vector, errors: Vector, outputErrors: Vector,
                       learningRate: real, vectorSize: nat)
    returns (updated: OptimizedLayer, newErrors: Vector)
    requires Valid(l) && vectorSize > 0
    requires l.inputSize <= |inputs| && l.neuronCount <= |errors| && l.inputSize <= |outputErrors|
    ensures Valid(updated)
    ensures updated.neuronCount == l.neuronCount && updated.inputSize == l.inputSize
    ensures updated.outputs == l.outputs && updated.lastOutputs == l.lastOutputs
    ensures forall n :: 0 <= n < l.neuronCount ==>
              WeightsOf(updated, n)
              == UpdatedRow(l, inputs[..l.inputSize], errors, learningRate, n)
    ensures forall n :: 0 <= n < l.neuronCount ==>
              updated.allBiases[n] == l.allBiases[n] + learningRate * Neurons.Delta(errors[n], l.lastOutputs[n])
    ensures |newErrors| == |outputErrors|
    ensures forall j :: 0 <= j < l.inputSize ==>
              newErrors[j] == Layers.FanIn(DeltasOf(l, errors), WeightRowsOf(l), j)
    ensures forall j :: l.inputSize <= j < |outputErrors| ==> newErrors[j] == 0.0
    ensures Layers.Backpropagate(ToLayer(l), inputs[..l.inputSize], errors, learningRate)
            == Ok((ToLayer(updated), newErrors[..l.inputSize]))
  {
    var neuronCount, inputSize := l.neuronCount, l.inputSize;
    ghost var x := inputs[..inputSize];
    newErrors := Zeroed(outputErrors);
    var weights, biases := l.allWeights, l.allBiases;
    assert DeltasOf(l, errors)[..0] == [] && WeightRowsOf(l)[..0] == [];
    var neuron := 0;
    while neuron < neuronCount
      invariant 0 <= neuron <= neuronCount
      invariant RowsDone(l, x, errors, learningRate, weights, neuron)
      invariant BiasesDone(l, errors, learningRate, biases, neuron)
      invariant ErrorsDone(l, errors, newErrors, |outputErrors|, neuron)
    {
      weights, biases, newErrors :=
        BackwardNeuron(l, inputs, x, errors, learningRate, vectorSize, weights, biases, newErrors, |outputErrors|, neuron);
      neuron := neuron + 1;
    }
    updated := l.(allWeights := weights, allBiases := biases);
    BackwardResult(l, updated, x, errors, learningRate, newErrors, |outputErrors|);
  }

  /** The buffers the loop leaves behind are the layer the array-of-neurons pass computes. */
  lemma BackwardResult(l: OptimizedLayer, updated: OptimizedLayer, x: Vector, errors: Vector, learningRate: real,
                       newErrors: Vector, length: nat)
    requires Valid(l) && |x| == l.inputSize && l.neuronCount <= |errors|
    requires updated.neuronCount == l.neuronCount && updated.inputSize == l.inputSize
    requires updated.outputs == l.outputs && updated.lastOutputs == l.lastOutputs
    requires RowsDone(l, x, errors, learningRate, updated.allWeights, l.neuronCount)
    requires BiasesDone(l, errors, learningRate, updated.allBiases, l.neuronCount)
    requires ErrorsDone(l, errors, newErrors, length, l.neuronCount)
    ensures Valid(updated)
    ensures forall n :: 0 <= n < l.neuronCount ==>
              WeightsOf(updated, n) == UpdatedRow(l, x, errors, learningRate, n)
    ensures forall n :: 0 <= n < l.neuronCount ==>
              updated.allBiases[n] == l.allBiases[n] + learningRate * Neurons.Delta(errors[n], l.lastOutputs[n])
    ensures forall j :: 0 <= j < l.inputSize ==>
              newErrors[j] == Layers.FanIn(DeltasOf(l, errors), WeightRowsOf(l), j)
    ensures Layers.Backpropagate(ToLayer(l), x, errors, learningRate) == Ok((ToLayer(updated), newErrors[..l.inputSize]))
  {
    var n := l.neuronCount;
    assert DeltasOf(l, errors)[..n] == DeltasOf(l, errors) && WeightRowsOf(l)[..n] == WeightRowsOf(l);
    WeightsResult(l, updated, x, errors, learningRate);
    BackwardAgrees(l, updated, x, errors, learningRate, newErrors[..l.inputSize]);
  }

  /** Every row the loop leaves behind is that neuron's updated weight vector. */
  lemma WeightsResult(l: OptimizedLayer, updated: OptimizedLayer, x: Vector, errors: Vector, learningRate: real)
    requires Valid(l) && Valid(updated) && |x| == l.inputSize && l.neuronCount <= |errors|
    requires updated.neuronCount == l.neuronCount && updated.inputSize == l.inputSize
    requires RowsDone(l, x, errors, learningRate, updated.allWeights, l.neuronCount)
    ensures forall n :: 0 <= n < l.neuronCount ==>
              WeightsOf(updated, n) == UpdatedRow(l, x, errors, learningRate, n)
  {
    forall m | 0 <= m < l.neuronCount
      ensures WeightsOf(updated, m)
              == UpdatedRow(l, x, errors, learningRate, m)
    {
      assert WeightsOf(updated, m) == RowOf(updated.allWeights, m, l.neuronCount, l.inputSize);
      assert RowOf(updated.allWeights, m, l.neuronCount, l.inputSize) == UpdatedRow(l, x, errors, learningRate, m);
    }
  }
}
