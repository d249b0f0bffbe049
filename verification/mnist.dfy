/**
  Turning MNIST records into training data: each 2-D image of bytes is
  flattened row by row and scaled into `[0, 1]`, and each digit becomes a
  one-hot row of ten outputs. Reading and decompressing the files is left to
  the caller: `Load` receives the decoded records.
 */
module Mnist {
  import opened Errors
  import opened Vectors
  import Indexing
  import Training

  newtype Byte = b: int | 0 <= b < 256

  /** `byte[,]`: a rectangular grid of bytes, every row as wide as every other. */
  type Grid = g: seq<seq<Byte>> | forall i, j :: 0 <= i < |g| && 0 <= j < |g| ==> |g[i]| == |g[j]|

  /** `GetLength(1)`; a grid without rows has no cells either way. */
  function Cols(g: Grid): nat
  {
    if |g| == 0 then 0 else |g[0]|
  }

  /** One decoded record: an image and its digit label. */
  datatype Item = Item(image: Grid, digit: Byte)

  /** The number of digit classes, the width of a one-hot label row. */
  const Digits: nat := 10

  /** `(double)b / 255.0`: a byte scaled into the unit interval, losing nothing. */
  function Normalize(b: Byte): (x: real)
    ensures 0.0 <= x <= 1.0
    ensures x * 255.0 == b as real
  {
    b as real / 255.0
  }

  /** Reads a scaled pixel back as a byte, clamping anything outside the byte range. */
  function Denormalize(x: real): Byte
  {
    var n := (x * 255.0).Floor;
    if n < 0 then 0 else if n > 255 then 255 else n as Byte
  }

  lemma NormalizeRoundTrip(b: Byte)
    ensures Denormalize(Normalize(b)) == b
  {
    assert Normalize(b) * 255.0 == b as real;
  }

  function ScaleRow(row: seq<Byte>): (r: Vector)
    ensures |r| == |row|
    ensures forall j :: 0 <= j < |row| ==> r[j] == Normalize(row[j])
  {
    seq(|row|, j requires 0 <= j < |row| => Normalize(row[j]))
  }

  /** The first `k` rows of the image, scaled and laid end to end: a reference definition. */
  function FlattenTo(g: Grid, k: nat): (r: Vector)
    requires k <= |g|
    ensures |r| == k * Cols(g)
    decreases k
  {
    if k == 0 then []
    else
      assert |g[k - 1]| == Cols(g);
      FlattenTo(g, k - 1) + ScaleRow(g[k - 1])
  }

  /** The whole image, row after row. */
  function Flatten(g: Grid): (r: Vector)
    ensures |r| == |g| * Cols(g)
  {
    FlattenTo(g, |g|)
  }

  /** Pixel `(i, j)` of the first `k` rows sits at the row-major position of `(i, j)`. */
  lemma {:induction false} FlattenToAt(g: Grid, k: nat, i: nat, j: nat)
    requires k <= |g| && i < k && j < Cols(g)
    ensures Indexing.FlatIndex(i, j, Cols(g)) < |FlattenTo(g, k)|
    ensures FlattenTo(g, k)[Indexing.FlatIndex(i, j, Cols(g))] == Normalize(g[i][j])
    decreases k
  {
    var cols := Cols(g);
    Indexing.FlatIndexBounds(i, j, k, cols);
    if i < k - 1 {
      FlattenToAt(g, k - 1, i, j);
    } else {
      assert |g[k - 1]| == cols;
      assert Indexing.FlatIndex(i, j, cols) == |FlattenTo(g, k - 1)| + j;
    }
  }

  /** Every cell of the flattened image is the scaled pixel of its row and column. */
  lemma FlattenAt(g: Grid, i: nat, j: nat)
    requires i < |g| && j < Cols(g)
    ensures Indexing.FlatIndex(i, j, Cols(g)) < |Flatten(g)|
    ensures Flatten(g)[Indexing.FlatIndex(i, j, Cols(g))] == Normalize(g[i][j])
  {
    FlattenToAt(g, |g|, i, j);
  }

  /** A buffer of the right size holding the scaled pixel at every row-major position is the flattened image. */
  lemma FlattenUnique(g: Grid, v: Vector)
    requires |v| == |g| * Cols(g)
    requires forall i, j :: 0 <= i < |g| && 0 <= j < Cols(g) ==>
               Indexing.FlatIndex(i, j, Cols(g)) < |v| && v[Indexing.FlatIndex(i, j, Cols(g))] == Normalize(g[i][j])
    ensures v == Flatten(g)
  {
    var flat := Flatten(g);
    forall k | 0 <= k < |v|
      ensures v[k] == flat[k]
    {
      Indexing.FlatIndexSurjective(k, |g|, Cols(g));
      FlattenAt(g, k / Cols(g), k % Cols(g));
    }
  }

  /** Every input produced from an image lies in `[0, 1]`. */
  lemma FlattenInUnitRange(g: Grid)
    ensures forall k :: 0 <= k < |Flatten(g)| ==> 0.0 <= Flatten(g)[k] <= 1.0
  {
    var flat := Flatten(g);
    forall k | 0 <= k < |flat|
      ensures 0.0 <= flat[k] <= 1.0
    {
      Indexing.FlatIndexSurjective(k, |g|, Cols(g));
      FlattenAt(g, k / Cols(g), k % Cols(g));
    }
  }

  /** Cuts a flat buffer back into `rows` rows of `cols` bytes. */
  function Unflatten(v: Vector, rows: nat, cols: nat): (g: seq<seq<Byte>>)
    requires |v| == rows * cols
    ensures |g| == rows
    ensures forall i :: 0 <= i < rows ==> |g[i]| == cols
  {
    seq(rows, i requires 0 <= i < rows =>
      Indexing.RowWithin(i, rows, cols);
      seq(cols, j requires 0 <= j < cols => Denormalize(v[i * cols + j])))
  }

  /** Flattening loses nothing: the image can be read back from its inputs. */
  lemma FlattenRoundTrip(g: Grid)
    ensures Unflatten(Flatten(g), |g|, Cols(g)) == g
  {
    var back := Unflatten(Flatten(g), |g|, Cols(g));
    forall i | 0 <= i < |g|
      ensures back[i] == g[i]
    {
      assert |g[i]| == Cols(g);
      forall j | 0 <= j < Cols(g)
        ensures back[i][j] == g[i][j]
      {
        FlattenAt(g, i, j);
        NormalizeRoundTrip(g[i][j]);
      }
    }
  }

  /**
    `ConvertByteArrayToDoubleArray`: a buffer of `rows * cols` zeros, filled
    by a row loop and a column loop at the row-major position of each pixel.
   */
  method ConvertByteArrayToDoubleArray(g: Grid) returns (r: Vector)
    ensures r == Flatten(g)
    ensures forall k :: 0 <= k < |r| ==> 0.0 <= r[k] <= 1.0
  {
    var rows, cols := |g|, Cols(g);
    r := Zeros(rows * cols);
    for i := 0 to rows
      invariant |r| == rows * cols
      invariant forall p, q :: 0 <= p < i && 0 <= q < cols ==>
                  Indexing.FlatIndex(p, q, cols) < |r| && r[Indexing.FlatIndex(p, q, cols)] == Normalize(g[p][q])
    {
      assert |g[i]| == cols;
      Indexing.RowWithin(i, rows, cols);
      for j := 0 to cols
        invariant |r| == rows * cols
        invariant forall p, q :: 0 <= p < i && 0 <= q < cols ==>
                  Indexing.FlatIndex(p, q, cols) < |r| && r[Indexing.FlatIndex(p, q, cols)] == Normalize(g[p][q])
        invariant forall q :: 0 <= q < j ==> r[Indexing.FlatIndex(i, q, cols)] == Normalize(g[i][q])
      {
        forall p, q | 0 <= p < i && 0 <= q < cols
          ensures Indexing.FlatIndex(p, q, cols) != i * cols + j
        {
          Indexing.FlatIndexOrdered(p, q, i, j, cols);
        }
        r := r[i * cols + j := Normalize(g[i][j])];
      }
    }
    FlattenUnique(g, r);
    FlattenInUnitRange(g);
  }

  /**
    `output[i] = new double[10]; output[i][digit] = 1.0`: ten zeros with a
    one at the label; a label past the last digit throws.
   */
  function OneHot(digit: Byte): (r: Result<Vector>)
    ensures r.Ok? <==> (digit as int) < Digits
    ensures r.Err? ==> r.error == IndexOutOfRange
    ensures r.Ok? ==> |r.value| == Digits
    ensures r.Ok? ==> forall k :: 0 <= k < Digits ==> r.value[k] == if k == digit as int then 1.0 else 0.0
  {
    Set(Zeros(Digits), digit as int, 1.0)
  }

  /** The position of the first `1.0` in `v` at or after `k`, or `-1` when there is none. */
  function FindOne(v: Vector, k: nat): (r: int)
    requires k <= |v|
    ensures r == -1 || k <= r < |v|
    decreases |v| - k
  {
    if k == |v| then -1 else if v[k] == 1.0 then k else FindOne(v, k + 1)
  }

  /** The digit a one-hot row stands for. */
  function Decode(v: Vector): int
  {
    FindOne(v, 0)
  }

  lemma {:induction false} FindOneSkipsZeros(v: Vector, k: nat, target: nat)
    requires k <= target < |v| && v[target] == 1.0
    requires forall m :: k <= m < target ==> v[m] == 0.0
    ensures FindOne(v, k) == target
    decreases target - k
  {
    if k < target {
      FindOneSkipsZeros(v, k + 1, target);
    }
  }

  /** Decoding a one-hot digit gives the digit back. */
  lemma OneHotRoundTrip(digit: Byte)
    requires OneHot(digit).Ok?
    ensures Decode(OneHot(digit).value) == digit as int
  {
    FindOneSkipsZeros(OneHot(digit).value, 0, digit as int);
  }

  /**
    The reference for `Load`: one input row and one digit row per record, in
    order; the first record with a digit outside the ten digits throws.
   */
  function LoadAll(data: seq<Item>): (r: Result<(seq<Vector>, seq<Vector>)>)
    ensures r.Ok? <==> forall i :: 0 <= i < |data| ==> (data[i].digit as int) < Digits
    ensures r.Err? ==> r.error == IndexOutOfRange
    ensures r.Ok? ==> |r.value.0| == |data| && |r.value.1| == |data|
    ensures r.Ok? ==> forall i :: 0 <= i < |data| ==>
              r.value.0[i] == Flatten(data[i].image) && r.value.1[i] == OneHot(data[i].digit).value
    decreases |data|
  {
    if |data| == 0 then Ok(([], []))
    else
      var last := data[|data| - 1];
      match LoadAll(data[..|data| - 1])
      case Err(e) => Err(e)
      case Ok((inputs, outputs)) =>
        match OneHot(last.digit)
        case Err(e) => Err(e)
        case Ok(row) => Ok((inputs + [Flatten(last.image)], outputs + [row]))
  }

  /** `Load`: the record loop, converting each image and writing its digit row. */
  method Load(data: seq<Item>) returns (r: Result<(seq<Vector>, seq<Vector>)>)
    ensures r == LoadAll(data)
  {
    var inputs, outputs := [], [];
    for i := 0 to |data|
      invariant LoadAll(data[..i]) == Ok((inputs, outputs))
    {
      var item := data[i];
      var image := ConvertByteArrayToDoubleArray(item.image);
      var row := OneHot(item.digit);
      assert data[..i + 1][..i] == data[..i];
      if row.Err? {
        LoadFailurePersists(data, i + 1, row.error);
        return Err(row.error);
      }
      inputs, outputs := inputs + [image], outputs + [row.value];
    }
    assert data[..|data|] == data;
    r := Ok((inputs, outputs));
  }

  /** Once a record's digit throws, loading the remaining records throws the same way. */
  lemma {:induction false} LoadFailurePersists(data: seq<Item>, k: nat, e: Error)
    requires k <= |data| && LoadAll(data[..k]) == Err(e)
    ensures LoadAll(data) == Err(e)
    decreases |data| - k
  {
    if k < |data| {
      assert data[..k + 1][..k] == data[..k];
      LoadFailurePersists(data, k + 1, e);
    } else {
      assert data[..k] == data;
    }
  }

  /**
    Loaded records are training data for a network whose first layer takes
    the image's pixel count and whose output has at most ten neurons.
   */
  lemma LoadedDataFits(data: seq<Item>, sizes: seq<nat>, learningRate: real)
    requires LoadAll(data).Ok? && |sizes| > 0 && sizes[|sizes| - 1] <= Digits
    requires forall i :: 0 <= i < |data| ==> |data[i].image| * Cols(data[i].image) == sizes[0]
    ensures Training.Fits(Training.TrainingSet(LoadAll(data).value.0, LoadAll(data).value.1, learningRate), sizes)
  {
  }
}
