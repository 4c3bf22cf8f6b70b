/** Tensors as nested sequences of reals, and the small amount of real
    arithmetic over them (sums, means, dot products, a dense linear map) that
    the network modules are built from. Floating point is modelled as `real`. */
module Tensors {

  type Vector = seq<real>
  type Matrix = seq<Vector>
  type Tensor3 = seq<Matrix>

  /** `m` has shape (rows, cols). */
  predicate IsMatrix(m: Matrix, rows: nat, cols: nat) {
    |m| == rows && forall i :: 0 <= i < rows ==> |m[i]| == cols
  }

  /** `t` has shape (c, h, w): channels, then height, then width. */
  predicate IsTensor3(t: Tensor3, c: nat, h: nat, w: nat) {
    |t| == c && forall i :: 0 <= i < c ==> IsMatrix(t[i], h, w)
  }

  function Sum(s: Vector): real {
    if |s| == 0 then 0.0 else s[0] + Sum(s[1..])
  }

  /** The mean of a non-empty vector (`torch.mean` over one dimension). */
  function Mean(s: Vector): real
    requires |s| > 0
  {
    Sum(s) / (|s| as real)
  }

  function AddConst(s: Vector, c: real): Vector {
    seq(|s|, i requires 0 <= i < |s| => s[i] + c)
  }

  function Scale(s: Vector, k: real): Vector {
    seq(|s|, i requires 0 <= i < |s| => s[i] * k)
  }

  /** Element-wise product. */
  function Hadamard(a: Vector, b: Vector): Vector
    requires |a| == |b|
  {
    seq(|a|, i requires 0 <= i < |a| => a[i] * b[i])
  }

  function VecAdd(a: Vector, b: Vector): Vector
    requires |a| == |b|
  {
    seq(|a|, i requires 0 <= i < |a| => a[i] + b[i])
  }

  function Dot(a: Vector, b: Vector): real
    requires |a| == |b|
  {
    if |a| == 0 then 0.0 else a[0] * b[0] + Dot(a[1..], b[1..])
  }

  /** `F.linear(x, W, b)` for one input row: output o is row o of W dotted with x, plus b[o]. */
  function Linear(w: Matrix, b: Vector, x: Vector): Vector
    requires IsMatrix(w, |b|, |x|)
  {
    seq(|b|, o requires 0 <= o < |b| => Dot(w[o], x) + b[o])
  }

  /** `nn.ReLU`: max(0, x) element-wise. */
  function Relu(v: Vector): Vector {
    seq(|v|, i requires 0 <= i < |v| => if v[i] > 0.0 then v[i] else 0.0)
  }

  /** Adding a constant to every entry adds |s| copies of it to the sum. */
  lemma {:induction false} SumAddConst(s: Vector, c: real)
    ensures Sum(AddConst(s, c)) == Sum(s) + (|s| as real) * c
  {
    if |s| > 0 {
      assert AddConst(s, c)[1..] == AddConst(s[1..], c);
      SumAddConst(s[1..], c);
    }
  }

  /** Scaling every entry scales the sum. */
  lemma {:induction false} SumScale(s: Vector, k: real)
    ensures Sum(Scale(s, k)) == Sum(s) * k
  {
    if |s| > 0 {
      forall i | 0 <= i < |s| - 1
        ensures Scale(s, k)[1..][i] == Scale(s[1..], k)[i]
      {
      }
      assert Scale(s, k)[1..] == Scale(s[1..], k);
      SumScale(s[1..], k);
    }
  }

  /** The dot product distributes over a sum of vectors. */
  lemma {:induction false} DotAdd(a: Vector, b: Vector, x: Vector)
    requires |a| == |b| == |x|
    ensures Dot(VecAdd(a, b), x) == Dot(a, x) + Dot(b, x)
  {
    if |a| > 0 {
      assert VecAdd(a, b)[1..] == VecAdd(a[1..], b[1..]) by {
        forall k | 0 <= k < |a| - 1 ensures VecAdd(a, b)[1..][k] == VecAdd(a[1..], b[1..])[k] {}
      }
      DotAdd(a[1..], b[1..], x[1..]);
      assert (a[0] + b[0]) * x[0] == a[0] * x[0] + b[0] * x[0];
    }
  }

  /** Scaling a vector scales its dot products. */
  lemma {:induction false} DotScale(v: Vector, k: real, x: Vector)
    requires |v| == |x|
    ensures Dot(Scale(v, k), x) == k * Dot(v, x)
  {
    if |v| > 0 {
      assert Scale(v, k)[1..] == Scale(v[1..], k) by {
        forall j | 0 <= j < |v| - 1 ensures Scale(v, k)[1..][j] == Scale(v[1..], k)[j] {}
      }
      DotScale(v[1..], k, x[1..]);
      assert (v[0] * k) * x[0] == k * (v[0] * x[0]);
      assert k * (v[0] * x[0]) + k * Dot(v[1..], x[1..]) == k * (v[0] * x[0] + Dot(v[1..], x[1..]));
    }
  }

  /** A scalar factor inside an element-wise product may be pulled out. */
  lemma HadamardScale(s: Vector, p: Vector, k: real)
    requires |s| == |p|
    ensures Hadamard(s, Scale(p, k)) == Scale(Hadamard(s, p), k)
  {
    forall i | 0 <= i < |s|
      ensures Hadamard(s, Scale(p, k))[i] == Scale(Hadamard(s, p), k)[i]
    {
      assert s[i] * (p[i] * k) == (s[i] * p[i]) * k;
    }
  }

  /** An element-wise factor may move from one side of a dot product to the other. */
  lemma {:induction false} DotHadamard(s: Vector, p: Vector, x: Vector)
    requires |s| == |p| == |x|
    ensures Dot(Hadamard(s, p), x) == Dot(s, Hadamard(p, x))
  {
    if |s| > 0 {
      assert Hadamard(s, p)[1..] == Hadamard(s[1..], p[1..]) by {
        forall k | 0 <= k < |s| - 1 ensures Hadamard(s, p)[1..][k] == Hadamard(s[1..], p[1..])[k] {}
      }
      assert Hadamard(p, x)[1..] == Hadamard(p[1..], x[1..]) by {
        forall k | 0 <= k < |s| - 1 ensures Hadamard(p, x)[1..][k] == Hadamard(p[1..], x[1..])[k] {}
      }
      DotHadamard(s[1..], p[1..], x[1..]);
      assert (s[0] * p[0]) * x[0] == s[0] * (p[0] * x[0]);
    }
  }

  /** A sum of positive entries is positive when there is at least one entry. */
  lemma {:induction false} SumPositive(s: Vector)
    requires |s| > 0
    requires forall i :: 0 <= i < |s| ==> s[i] > 0.0
    ensures Sum(s) > 0.0
  {
    if |s| > 1 {
      SumPositive(s[1..]);
    }
  }

  /** Shifting every entry by c shifts the mean by c. */
  lemma MeanAddConst(s: Vector, c: real)
    requires |s| > 0
    ensures Mean(AddConst(s, c)) == Mean(s) + c
  {
    SumAddConst(s, c);
    var n := |s| as real;
    calc {
      Mean(AddConst(s, c));
      (Sum(s) + n * c) / n;
      Sum(s) / n + (n * c) / n;
      Mean(s) + c;
    }
  }

  /** A product of positive reals is positive. */
  lemma PositiveProduct(a: real, b: real)
    requires a > 0.0 && b > 0.0
    ensures a * b > 0.0
  {
  }

  /** A product of naturals is non-negative. */
  lemma {:induction false} MulNonneg(x: int, y: int)
    requires x >= 0 && y >= 0
    ensures x * y >= 0
  {
    if x > 0 {
      MulNonneg(x - 1, y);
      assert x * y == (x - 1) * y + y;
    }
  }

  /** The row-major index of grid position (i, j) in a grid of width w. */
  function Flat(i: nat, j: nat, w: nat): nat {
    i * w + j
  }

  /** The row-major index of (i, j) in an h-by-w grid lies inside the grid. */
  lemma RowMajorBound(i: nat, j: nat, h: nat, w: nat)
    requires i < h && j < w
    ensures Flat(i, j, w) < h * w
  {
    MulNonneg(h - i - 1, w);
    assert h * w == i * w + w + (h - i - 1) * w;
  }

  /** An index below h*w splits into its row n / w (below h) and its column n % w. */
  lemma RowMajorSplit(n: nat, h: nat, w: nat)
    requires n < h * w
    ensures w > 0 && n / w < h && n % w < w && n == Flat(n / w, n % w, w)
  {
    var q := n / w;
    if w > 0 && q >= h {
      MulNonneg(q - h, w);
      assert false;
    }
  }

  /** Row i, column j of a grid of width w is recovered from its row-major index. */
  lemma RowMajorDivMod(i: nat, j: nat, w: nat)
    requires j < w
    ensures Flat(i, j, w) / w == i && Flat(i, j, w) % w == j
  {
    var n := Flat(i, j, w);
    var q, r := n / w, n % w;
    assert n == q * w + r && 0 <= r < w;
    if q > i {
      MulNonneg(q - i - 1, w);
      assert false;
    } else if q < i {
      MulNonneg(i - q - 1, w);
      assert false;
    }
  }
}
