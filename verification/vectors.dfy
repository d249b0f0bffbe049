/**
  The `Vector` primitive (Vector.cs): a fixed-length buffer of doubles, modelled
  as a sequence of reals, with its constructors, indexer and the length-checked
  dot product.
 */
module Vectors {
  import opened Errors

  type Vector = seq<real>

  /** A vector of `n` zeros: what `new double[n]` holds. */
  function Zeros(n: nat): (v: Vector)
    ensures |v| == n
    ensures forall i :: 0 <= i < n ==> v[i] == 0.0
  {
    seq(n, _ => 0.0)
  }

  /** Reference definition of the dot product, summed left to right. */
  function Dot(a: Vector, b: Vector): real
    requires |a| == |b|
  {
    DotTo(a, b, |a|)
  }

  /** The sum of the first `k` products `a[i] * b[i]`, left to right. */
  function DotTo(a: Vector, b: Vector, k: nat): real
    requires k <= |a| && k <= |b|
    decreases k
  {
    if k == 0 then 0.0 else DotTo(a, b, k - 1) + a[k - 1] * b[k - 1]
  }

  /** Reference definition of the sum of the elements, left to right. */
  function Sum(s: Vector): real
    decreases |s|
  {
    if |s| == 0 then 0.0 else Sum(s[..|s| - 1]) + s[|s| - 1]
  }

  /** A partial dot product reads only the first `k` entries of each side. */
  lemma {:induction false} DotToAgree(a: Vector, b: Vector, c: Vector, d: Vector, k: nat)
    requires k <= |a| && k <= |b| && k <= |c| && k <= |d|
    requires forall i :: 0 <= i < k ==> a[i] == c[i] && b[i] == d[i]
    ensures DotTo(a, b, k) == DotTo(c, d, k)
    decreases k
  {
    if k > 0 {
      DotToAgree(a, b, c, d, k - 1);
    }
  }

  /** The dot product is the dot product of all but the last entries plus the last product. */
  lemma DotLast(a: Vector, b: Vector)
    requires |a| == |b| && |a| > 0
    ensures Dot(a, b) == Dot(a[..|a| - 1], b[..|b| - 1]) + a[|a| - 1] * b[|b| - 1]
  {
    var n := |a| - 1;
    DotToAgree(a, b, a[..n], b[..n], n);
  }

  /** One more term of a prefix dot product. */
  lemma DotSnoc(a: Vector, b: Vector, i: nat)
    requires i < |a| && i < |b|
    ensures Dot(a[..i + 1], b[..i + 1]) == Dot(a[..i], b[..i]) + a[i] * b[i]
  {
    DotLast(a[..i + 1], b[..i + 1]);
    assert a[..i + 1][..i] == a[..i];
    assert b[..i + 1][..i] == b[..i];
  }

  /** One more term of a prefix sum. */
  lemma SumSnoc(s: Vector, i: nat)
    requires i < |s|
    ensures Sum(s[..i + 1]) == Sum(s[..i]) + s[i]
  {
    assert s[..i + 1][..i] == s[..i];
  }

  /** The dot product of concatenations splits into the dot products of the parts. */
  lemma {:induction false} DotAppend(a: Vector, b: Vector, c: Vector, d: Vector)
    requires |a| == |c| && |b| == |d|
    ensures Dot(a + b, c + d) == Dot(a, c) + Dot(b, d)
    decreases |b|
  {
    if |b| == 0 {
      assert a + b == a;
      assert c + d == c;
    } else {
      var n := |b| - 1;
      DotAppend(a, b[..n], c, d[..n]);
      DotLast(a + b, c + d);
      DotLast(b, d);
      assert (a + b)[..|a + b| - 1] == a + b[..n];
      assert (c + d)[..|c + d| - 1] == c + d[..n];
    }
  }

  /** Over the reals the dot product does not depend on the order of its arguments. */
  lemma {:induction false} DotSymmetric(a: Vector, b: Vector)
    requires |a| == |b|
    ensures Dot(a, b) == Dot(b, a)
    decreases |a|
  {
    if |a| > 0 {
      DotSymmetric(a[..|a| - 1], b[..|b| - 1]);
      DotLast(a, b);
      DotLast(b, a);
    }
  }

  /**
    `new Vector(size)`: a zero-filled vector of exactly `size` elements; a
    negative size makes the array allocation throw.
   */
  function New(size: int): (r: Result<Vector>)
    ensures r.Ok? <==> size >= 0
    ensures r.Err? ==> r.error == Overflow
    ensures r.Ok? ==> |r.value| == size && forall i :: 0 <= i < size ==> r.value[i] == 0.0
  {
    if size < 0 then Err(Overflow) else Ok(Zeros(size))
  }

  /**
    `new Vector(elements)`: allocates its own array and copies every element,
    so the vector never shares storage with the caller's array.
   */
  method FromArray(elements: array<real>) returns (v: array<real>)
    ensures fresh(v) && v != elements
    ensures v.Length == elements.Length
    ensures forall i :: 0 <= i < v.Length ==> v[i] == elements[i]
  {
    v := new real[elements.Length];
    var i := 0;
    while i < elements.Length
      invariant 0 <= i <= elements.Length
      invariant forall k :: 0 <= k < i ==> v[k] == elements[k]
    {
      v[i] := elements[i];
      i := i + 1;
    }
  }

  /** The indexer's getter: the element at `index`, or the range error. */
  function Get(v: Vector, index: int): (r: Result<real>)
    ensures r.Ok? <==> 0 <= index < |v|
    ensures r.Err? ==> r.error == IndexOutOfRange
  {
    if 0 <= index < |v| then Ok(v[index]) else Err(IndexOutOfRange)
  }

  /** The indexer's setter: the vector with `index` overwritten, or the range error. */
  function Set(v: Vector, index: int, x: real): (r: Result<Vector>)
    ensures r.Ok? <==> 0 <= index < |v|
    ensures r.Err? ==> r.error == IndexOutOfRange
    ensures r.Ok? ==> |r.value| == |v|
  {
    if 0 <= index < |v| then Ok(v[index := x]) else Err(IndexOutOfRange)
  }

  /** After `v[index] = x`, reading `index` gives `x` and every other index reads as before. */
  lemma GetAfterSet(v: Vector, index: int, x: real, other: int)
    requires Set(v, index, x).Ok?
    ensures Get(Set(v, index, x).value, index) == Ok(x)
    ensures other != index ==> Get(Set(v, index, x).value, other) == Get(v, other)
  {
  }

  /** A fresh vector reads as zero at every index it has. */
  lemma GetAfterNew(size: int, index: int)
    requires New(size).Ok? && 0 <= index < size
    ensures Get(New(size).value, index) == Ok(0.0)
  {
  }

  /**
    `Vector.DotProduct`: throws `ArgumentException` exactly when the lengths
    differ; otherwise the left-to-right loop computes the dot product (0 for
    two empty vectors).
   */
  method DotProduct(v1: Vector, v2: Vector) returns (r: Result<real>)
    ensures r.Err? <==> |v1| != |v2|
    ensures r.Err? ==> r.error == ArgumentError
    ensures r.Ok? ==> r.value == Dot(v1, v2)
    ensures |v1| == 0 && |v2| == 0 ==> r == Ok(0.0)
  {
    if |v1| != |v2| {
      return Err(ArgumentError);
    }
    var sum := 0.0;
    var i := 0;
    while i < |v1|
      invariant 0 <= i <= |v1|
      invariant sum == Dot(v1[..i], v2[..i])
    {
      DotSnoc(v1, v2, i);
      sum := sum + v1[i] * v2[i];
      i := i + 1;
    }
    assert v1[..i] == v1 && v2[..i] == v2;
    return Ok(sum);
  }

  /** `Vector.Zero()` (used by the optimized layer): every element becomes 0, the length stays. */
  function Zeroed(v: Vector): (r: Vector)
    ensures |r| == |v|
    ensures forall i :: 0 <= i < |r| ==> r[i] == 0.0
  {
    Zeros(|v|)
  }
}
