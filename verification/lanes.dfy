/**
  `System.Numerics.Vector<double>` as the optimized layer uses it: a short
  vector of `width` lanes, where `width` stands for the hardware's
  `Vector<double>.Count`. `Load` and `Store` stand for `Unsafe.Read` and
  `Unsafe.Write` at a pointer offset into a buffer.
 */
module Lanes {
  import opened Vectors

  /** `new Vector<double>(x)` and `Vector<double>.Zero`: every lane holds `x`. */
  function Splat(x: real, width: nat): (v: Vector)
    ensures |v| == width
    ensures forall l :: 0 <= l < width ==> v[l] == x
  {
    seq(width, _ => x)
  }

  /** Lane-wise `+`. */
  function Add(a: Vector, b: Vector): (v: Vector)
    requires |a| == |b|
    ensures |v| == |a|
    ensures forall l :: 0 <= l < |v| ==> v[l] == a[l] + b[l]
  {
    seq(|a|, l requires 0 <= l < |a| => a[l] + b[l])
  }

  /** Lane-wise `*`. */
  function Mul(a: Vector, b: Vector): (v: Vector)
    requires |a| == |b|
    ensures |v| == |a|
    ensures forall l :: 0 <= l < |v| ==> v[l] == a[l] * b[l]
  {
    seq(|a|, l requires 0 <= l < |a| => a[l] * b[l])
  }

  /** `Unsafe.Read<Vector<double>>(buffer + offset)`: `width` consecutive cells. */
  function Load(buffer: Vector, offset: nat, width: nat): (v: Vector)
    requires offset + width <= |buffer|
    ensures |v| == width
    ensures forall l :: 0 <= l < width ==> v[l] == buffer[offset + l]
    ensures forall k :: offset <= k < offset + width ==> v[k - offset] == buffer[k]
  {
    buffer[offset .. offset + width]
  }

  /** `Unsafe.Write(buffer + offset, v)`: the cells under `v` are replaced, all others kept. */
  function Store(buffer: Vector, offset: nat, v: Vector): (r: Vector)
    requires offset + |v| <= |buffer|
    ensures |r| == |buffer|
    ensures forall k :: 0 <= k < |r| && (k < offset || offset + |v| <= k) ==> r[k] == buffer[k]
    ensures forall k :: offset <= k < offset + |v| ==> r[k] == v[k - offset]
  {
    buffer[..offset] + v + buffer[offset + |v|..]
  }

  /** A store leaves every slice outside the stored cells as it was. */
  lemma StoreKeepsSlice(buffer: Vector, offset: nat, v: Vector, a: nat, b: nat)
    requires offset + |v| <= |buffer| && a <= b <= |buffer|
    requires b <= offset || offset + |v| <= a
    ensures Store(buffer, offset, v)[a..b] == buffer[a..b]
  {
    var r := Store(buffer, offset, v);
    forall k | a <= k < b
      ensures r[k] == buffer[k]
    {
    }
  }

  /**
    A fused load, multiply-add and store with a broadcast factor on the left:
    each cell of the chunk gains `c * src[k]`; every other cell is kept.
   */
  lemma ScaledAddLeft(buffer: Vector, offset: nat, factor: Vector, c: real, src: Vector)
    requires offset + |factor| <= |buffer| && offset + |factor| <= |src|
    requires forall l :: 0 <= l < |factor| ==> factor[l] == c
    ensures var r := Store(buffer, offset, Add(Load(buffer, offset, |factor|), Mul(factor, Load(src, offset, |factor|))));
            && |r| == |buffer|
            && (forall k :: offset <= k < offset + |factor| ==> r[k] == buffer[k] + c * src[k])
            && (forall k :: 0 <= k < |r| && (k < offset || offset + |factor| <= k) ==> r[k] == buffer[k])
  {
    var w := |factor|;
    var loaded := Load(src, offset, w);
    var r := Store(buffer, offset, Add(Load(buffer, offset, w), Mul(factor, loaded)));
    forall k | offset <= k < offset + w
      ensures r[k] == buffer[k] + c * src[k]
    {
      assert r[k] == Load(buffer, offset, w)[k - offset] + factor[k - offset] * loaded[k - offset];
    }
  }

  /**
    The same with the broadcast factor on the right: each cell of the chunk
    gains `src[k] * c`; every other cell is kept.
   */
  lemma ScaledAddRight(buffer: Vector, offset: nat, factor: Vector, c: real, src: Vector)
    requires offset + |factor| <= |buffer| && offset + |factor| <= |src|
    requires forall l :: 0 <= l < |factor| ==> factor[l] == c
    ensures var r := Store(buffer, offset, Add(Load(buffer, offset, |factor|), Mul(Load(src, offset, |factor|), factor)));
            && |r| == |buffer|
            && (forall k :: offset <= k < offset + |factor| ==> r[k] == buffer[k] + src[k] * c)
            && (forall k :: 0 <= k < |r| && (k < offset || offset + |factor| <= k) ==> r[k] == buffer[k])
  {
    var w := |factor|;
    var loaded := Load(src, offset, w);
    var r := Store(buffer, offset, Add(Load(buffer, offset, w), Mul(loaded, factor)));
    forall k | offset <= k < offset + w
      ensures r[k] == buffer[k] + src[k] * c
    {
      assert r[k] == Load(buffer, offset, w)[k - offset] + loaded[k - offset] * factor[k - offset];
    }
  }

  /** `Vector<double>.Zero` sums to zero. */
  lemma SumZero(width: nat)
    ensures Sum(Splat(0.0, width)) == 0.0
    decreases width
  {
    if width > 0 {
      SumZero(width - 1);
      assert Splat(0.0, width)[..width - 1] == Splat(0.0, width - 1);
    }
  }

  /** Summing a lane-wise sum is summing the two parts. */
  lemma {:induction false} SumAdd(a: Vector, b: Vector)
    requires |a| == |b|
    ensures Sum(Add(a, b)) == Sum(a) + Sum(b)
    decreases |a|
  {
    if |a| > 0 {
      var n := |a| - 1;
      SumAdd(a[..n], b[..n]);
      assert Add(a, b)[..n] == Add(a[..n], b[..n]);
    }
  }

  /** Summing a lane-wise product is the dot product. */
  lemma {:induction false} SumMul(a: Vector, b: Vector)
    requires |a| == |b|
    ensures Sum(Mul(a, b)) == Dot(a, b)
    decreases |a|
  {
    if |a| > 0 {
      var n := |a| - 1;
      SumMul(a[..n], b[..n]);
      DotLast(a, b);
      var lhs, rhs := Mul(a, b)[..n], Mul(a[..n], b[..n]);
      assert |lhs| == |rhs|;
      forall l | 0 <= l < n
        ensures lhs[l] == rhs[l]
      {
        assert lhs[l] == a[l] * b[l];
        assert rhs[l] == a[..n][l] * b[..n][l];
      }
      assert lhs == rhs;
    }
  }
}
