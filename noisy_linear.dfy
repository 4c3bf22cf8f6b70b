/** The factorized Gaussian noise layer of noisy-nets DQN (`FactorizedNoisyLinear`).
    The effective weight is mu + sigma * epsilon, where the noise epsilon is the
    outer product of an output-noise vector and an input-noise vector, and the bias
    noise is the output-noise vector itself.

    Random draws (`torch.randn`, `init.uniform_`) are inputs of the methods, and the
    square root is a parameter `sqrt` that is only assumed to be the principal square
    root (`IsSqrt`). */
module NoisyLinear {
  import opened Tensors

  /** `torch.sign`: -1, 0 or 1. */
  function Sign(x: real): real {
    if x > 0.0 then 1.0 else if x < 0.0 then -1.0 else 0.0
  }

  function Abs(x: real): real {
    if x < 0.0 then -x else x
  }

  /** `sqrt` behaves as the principal square root on the non-negative reals. */
  ghost predicate IsSqrt(sqrt: real -> real) {
    forall y :: y >= 0.0 ==> sqrt(y) >= 0.0 && sqrt(y) * sqrt(y) == y
  }

  /** The noise transform f(x) = sgn(x) * sqrt(|x|): it keeps the sign of its
      argument (so f(0) == 0) and its square is |x|. */
  function NoiseTransform(x: real, sqrt: real -> real): (r: real)
    requires IsSqrt(sqrt)
    ensures Sign(r) == Sign(x)
    ensures r * r == Abs(x)
  {
    var root := sqrt(Abs(x));
    assert root >= 0.0 && root * root == Abs(x);
    assert x != 0.0 ==> root > 0.0;
    Sign(x) * root
  }

  /** Sign and square pin the transform down: any value with the sign of x whose
      square is |x| is f(x). */
  lemma NoiseTransformUnique(x: real, r: real, sqrt: real -> real)
    requires IsSqrt(sqrt)
    requires Sign(r) == Sign(x) && r * r == Abs(x)
    ensures r == NoiseTransform(x, sqrt)
  {
    var t := NoiseTransform(x, sqrt);
    assert (r - t) * (r + t) == r * r - t * t == 0.0;
  }

  /** `_get_noise`: f applied element-wise to a vector of standard-normal draws. */
  function GetNoise(draws: Vector, sqrt: real -> real): (r: Vector)
    requires IsSqrt(sqrt)
    ensures |r| == |draws|
    ensures forall k :: 0 <= k < |r| ==> Sign(r[k]) == Sign(draws[k]) && r[k] * r[k] == Abs(draws[k])
  {
    seq(|draws|, k requires 0 <= k < |draws| => NoiseTransform(draws[k], sqrt))
  }

  /** `epsilon_out.outer(epsilon_in)`: row o is epsilon_in scaled by epsilon_out[o]. */
  function Outer(epsOut: Vector, epsIn: Vector): Matrix {
    seq(|epsOut|, o requires 0 <= o < |epsOut| => Scale(epsIn, epsOut[o]))
  }

  /** mu + sigma * epsilon for one row (or for the bias vector). */
  function PerturbRow(mu: Vector, sigma: Vector, eps: Vector): Vector
    requires |mu| == |sigma| == |eps|
  {
    VecAdd(mu, Hadamard(sigma, eps))
  }

  predicate SameShape(a: Matrix, b: Matrix) {
    |a| == |b| && forall o :: 0 <= o < |a| ==> |a[o]| == |b[o]|
  }

  /** mu + sigma * epsilon for a weight matrix. */
  function Perturb(mu: Matrix, sigma: Matrix, eps: Matrix): Matrix
    requires SameShape(mu, sigma) && SameShape(mu, eps)
  {
    seq(|mu|, o requires 0 <= o < |mu| => PerturbRow(mu[o], sigma[o], eps[o]))
  }

  function Zeros(n: nat): Vector {
    seq(n, _ => 0.0)
  }

  function ZeroMatrix(rows: nat, cols: nat): Matrix {
    seq(rows, _ => Zeros(cols))
  }

  /** The factorized form of the noisy layer:
      y = mu_W x + mu_b + eps_out * (sigma_W (eps_in * x) + sigma_b). */
  function FactorizedForward(weightMu: Matrix, weightSigma: Matrix, biasMu: Vector, biasSigma: Vector,
                             epsIn: Vector, epsOut: Vector, x: Vector): Vector
    requires IsMatrix(weightMu, |biasMu|, |x|) && IsMatrix(weightSigma, |biasMu|, |x|)
    requires |biasSigma| == |epsOut| == |biasMu| && |epsIn| == |x|
  {
    VecAdd(Linear(weightMu, biasMu, x), Hadamard(epsOut, Linear(weightSigma, biasSigma, Hadamard(epsIn, x))))
  }

  /** One row of the factorized weight: perturbing by e * epsIn is the same as
      adding e times sigma dotted with (epsIn * x). */
  lemma {:induction false} DotPerturbRow(mu: Vector, sigma: Vector, epsIn: Vector, e: real, x: Vector)
    requires |mu| == |sigma| == |epsIn| == |x|
    ensures Dot(PerturbRow(mu, sigma, Scale(epsIn, e)), x) == Dot(mu, x) + e * Dot(sigma, Hadamard(epsIn, x))
  {
    var h := Hadamard(sigma, epsIn);
    var noise := Scale(h, e);
    ScaledNoiseRow(mu, sigma, epsIn, e);
    DotAdd(mu, noise, x);
    DotScale(h, e, x);
    DotHadamard(sigma, epsIn, x);
    SubstituteScaled(Dot(VecAdd(mu, noise), x), Dot(mu, x), Dot(noise, x), e, Dot(h, x), Dot(sigma, Hadamard(epsIn, x)));
  }

  /** Scaling the input noise scales the noise term of the row. */
  lemma ScaledNoiseRow(mu: Vector, sigma: Vector, epsIn: Vector, e: real)
    requires |mu| == |sigma| == |epsIn|
    ensures PerturbRow(mu, sigma, Scale(epsIn, e)) == VecAdd(mu, Scale(Hadamard(sigma, epsIn), e))
  {
    HadamardScale(sigma, epsIn, e);
  }

  lemma SubstituteScaled(r: real, a: real, n: real, e: real, d: real, f: real)
    requires r == a + n && n == e * d && d == f
    ensures r == a + e * f
  {}

  /** With factorized noise, the perturbed linear map equals the factorized form. */
  lemma FactorizedLinear(weightMu: Matrix, weightSigma: Matrix, biasMu: Vector, biasSigma: Vector,
                         epsIn: Vector, epsOut: Vector, x: Vector)
    requires IsMatrix(weightMu, |biasMu|, |x|) && IsMatrix(weightSigma, |biasMu|, |x|)
    requires |biasSigma| == |epsOut| == |biasMu| && |epsIn| == |x|
    ensures Linear(Perturb(weightMu, weightSigma, Outer(epsOut, epsIn)), PerturbRow(biasMu, biasSigma, epsOut), x)
         == FactorizedForward(weightMu, weightSigma, biasMu, biasSigma, epsIn, epsOut, x)
  {
    var w := Perturb(weightMu, weightSigma, Outer(epsOut, epsIn));
    var b := PerturbRow(biasMu, biasSigma, epsOut);
    var lhs := Linear(w, b, x);
    var rhs := FactorizedForward(weightMu, weightSigma, biasMu, biasSigma, epsIn, epsOut, x);
    forall o | 0 <= o < |biasMu|
      ensures lhs[o] == rhs[o]
    {
      DotPerturbRow(weightMu[o], weightSigma[o], epsIn, epsOut[o], x);
      var d := Dot(weightSigma[o], Hadamard(epsIn, x));
      assert lhs[o] == Dot(weightMu[o], x) + epsOut[o] * d + (biasMu[o] + biasSigma[o] * epsOut[o]);
      assert rhs[o] == Dot(weightMu[o], x) + biasMu[o] + epsOut[o] * (d + biasSigma[o]);
    }
  }

  /** With all-zero noise, the perturbed linear map is the plain linear map on the means. */
  lemma NoiselessLinear(weightMu: Matrix, weightSigma: Matrix, biasMu: Vector, biasSigma: Vector, x: Vector)
    requires IsMatrix(weightMu, |biasMu|, |x|) && IsMatrix(weightSigma, |biasMu|, |x|)
    requires |biasSigma| == |biasMu|
    ensures Linear(Perturb(weightMu, weightSigma, ZeroMatrix(|biasMu|, |x|)), PerturbRow(biasMu, biasSigma, Zeros(|biasMu|)), x)
         == Linear(weightMu, biasMu, x)
  {
    var w := Perturb(weightMu, weightSigma, ZeroMatrix(|biasMu|, |x|));
    forall o | 0 <= o < |biasMu|
      ensures w[o] == weightMu[o]
    {
      assert w[o] == PerturbRow(weightMu[o], weightSigma[o], Zeros(|x|));
    }
    assert w == weightMu;
    assert PerturbRow(biasMu, biasSigma, Zeros(|biasMu|)) == biasMu;
  }

  /** The initialisation scale s = 1/sqrt(in_features): positive, and s^2 * in_features == 1. */
  function InitScale(inFeatures: nat, sqrt: real -> real): (s: real)
    requires IsSqrt(sqrt) && inFeatures > 0
    ensures s > 0.0 && s * s * (inFeatures as real) == 1.0
  {
    var n := inFeatures as real;
    var root := sqrt(n);
    assert root * root == n && root >= 0.0;
    assert root > 0.0;
    var s := 1.0 / root;
    assert s * root == 1.0;
    assert s * s * n == (s * root) * (s * root);
    s
  }

  /** The initial noise scale sigma_0 / sqrt(in_features). */
  function SigmaInit(sigma0: real, inFeatures: nat, sqrt: real -> real): real
    requires IsSqrt(sqrt) && inFeatures > 0
  {
    sigma0 * InitScale(inFeatures, sqrt)
  }

  /** The contents of a two-dimensional buffer, row by row. */
  function MatrixOf(a: array2<real>): Matrix
    reads a
  {
    seq(a.Length0, i requires 0 <= i < a.Length0 reads a =>
      seq(a.Length1, j requires 0 <= j < a.Length1 reads a => a[i, j]))
  }

  /** The layer. The parameters (weightMu, weightSigma, biasMu, biasSigma) and the
      noise buffers (weightEpsilon, biasEpsilon) are fixed-size tensors updated in place. */
  class FactorizedNoisyLinear {
    const inFeatures: nat
    const outFeatures: nat
    const sigma0: real

    const weightMu: array2<real>
    const weightSigma: array2<real>
    const weightEpsilon: array2<real>
    const biasMu: array<real>
    const biasSigma: array<real>
    const biasEpsilon: array<real>

    /** Buffer shapes are (out_features x in_features) and (out_features), and
        the six tensors are distinct objects. */
    ghost predicate Valid()
      reads this
    {
      && weightMu.Length0 == outFeatures && weightMu.Length1 == inFeatures
      && weightSigma.Length0 == outFeatures && weightSigma.Length1 == inFeatures
      && weightEpsilon.Length0 == outFeatures && weightEpsilon.Length1 == inFeatures
      && biasMu.Length == outFeatures && biasSigma.Length == outFeatures && biasEpsilon.Length == outFeatures
      && weightMu != weightSigma && weightMu != weightEpsilon && weightSigma != weightEpsilon
      && biasMu != biasSigma && biasMu != biasEpsilon && biasSigma != biasEpsilon
    }

    /** `forward`: F.linear with weight mu + sigma * epsilon and bias formed the same way. */
    function Forward(x: Vector): (y: Vector)
      reads this, weightMu, weightSigma, weightEpsilon, biasMu, biasSigma, biasEpsilon
      requires Valid() && |x| == inFeatures
      ensures |y| == outFeatures
    {
      Linear(Perturb(MatrixOf(weightMu), MatrixOf(weightSigma), MatrixOf(weightEpsilon)),
             PerturbRow(biasMu[..], biasSigma[..], biasEpsilon[..]), x)
    }

    constructor (inFeatures: nat, outFeatures: nat, sigma0: real, sqrt: real -> real,
                 uniformWeight: Matrix, uniformBias: Vector, gaussianIn: Vector, gaussianOut: Vector)
      requires IsSqrt(sqrt) && inFeatures > 0
      requires IsMatrix(uniformWeight, outFeatures, inFeatures) && |uniformBias| == outFeatures
      requires |gaussianIn| == inFeatures && |gaussianOut| == outFeatures
      ensures Valid()
      ensures fresh(weightMu) && fresh(weightSigma) && fresh(weightEpsilon)
      ensures fresh(biasMu) && fresh(biasSigma) && fresh(biasEpsilon)
      ensures this.inFeatures == inFeatures && this.outFeatures == outFeatures && this.sigma0 == sigma0
      ensures MatrixOf(weightMu) == UniformInitMatrix(uniformWeight, InitScale(inFeatures, sqrt))
      ensures biasMu[..] == UniformInit(uniformBias, InitScale(inFeatures, sqrt))
      ensures MatrixOf(weightSigma) == ConstantMatrix(outFeatures, inFeatures, SigmaInit(sigma0, inFeatures, sqrt))
      ensures biasSigma[..] == Constant(outFeatures, SigmaInit(sigma0, inFeatures, sqrt))
      ensures MatrixOf(weightEpsilon) == Outer(GetNoise(gaussianOut, sqrt), GetNoise(gaussianIn, sqrt))
      ensures biasEpsilon[..] == GetNoise(gaussianOut, sqrt)
    {
      this.inFeatures := inFeatures;
      this.outFeatures := outFeatures;
      this.sigma0 := sigma0;
      weightMu := new real[outFeatures, inFeatures];
      weightSigma := new real[outFeatures, inFeatures];
      weightEpsilon := new real[outFeatures, inFeatures];
      biasMu := new real[outFeatures];
      biasSigma := new real[outFeatures];
      biasEpsilon := new real[outFeatures];
      new;
      ResetParameters(uniformWeight, uniformBias, sqrt);
      ghost var mu, sigma := MatrixOf(weightMu), MatrixOf(weightSigma);
      ghost var bMu, bSigma := biasMu[..], biasSigma[..];
      ResetNoise(gaussianIn, gaussianOut, sqrt);
      assert MatrixOf(weightMu) == mu && MatrixOf(weightSigma) == sigma;
      assert biasMu[..] == bMu && biasSigma[..] == bSigma;
    }

    /** `reset_parameters`: the means are drawn uniformly from [-s, s) with
        s = 1/sqrt(in_features) (see `UniformInit`), and every noise scale is set to
        sigma_0 * s. The noise buffers are untouched. */
    method ResetParameters(uniformWeight: Matrix, uniformBias: Vector, sqrt: real -> real)
      requires Valid() && IsSqrt(sqrt) && inFeatures > 0
      requires IsMatrix(uniformWeight, outFeatures, inFeatures) && |uniformBias| == outFeatures
      modifies weightMu, weightSigma, biasMu, biasSigma
      ensures Valid()
      ensures MatrixOf(weightMu) == UniformInitMatrix(uniformWeight, InitScale(inFeatures, sqrt))
      ensures biasMu[..] == UniformInit(uniformBias, InitScale(inFeatures, sqrt))
      ensures MatrixOf(weightSigma) == ConstantMatrix(outFeatures, inFeatures, SigmaInit(sigma0, inFeatures, sqrt))
      ensures biasSigma[..] == Constant(outFeatures, SigmaInit(sigma0, inFeatures, sqrt))
      ensures MatrixOf(weightEpsilon) == old(MatrixOf(weightEpsilon)) && biasEpsilon[..] == old(biasEpsilon[..])
    {
      var s := InitScale(inFeatures, sqrt);
      CopyMatrix(weightMu, UniformInitMatrix(uniformWeight, s));
      var sigmaInit := SigmaInit(sigma0, inFeatures, sqrt);
      CopyMatrix(weightSigma, ConstantMatrix(outFeatures, inFeatures, sigmaInit));
      CopyVector(biasMu, UniformInit(uniformBias, s));
      CopyVector(biasSigma, Constant(outFeatures, sigmaInit));
    }

    /** `reset_noise`: draws epsilon_in and epsilon_out through f, writes their outer
        product into the weight noise and epsilon_out into the bias noise. Afterwards
        `Forward` is the factorized form; the parameters are untouched. */
    method ResetNoise(gaussianIn: Vector, gaussianOut: Vector, sqrt: real -> real)
      requires Valid() && IsSqrt(sqrt)
      requires |gaussianIn| == inFeatures && |gaussianOut| == outFeatures
      modifies weightEpsilon, biasEpsilon
      ensures Valid()
      ensures MatrixOf(weightEpsilon) == Outer(GetNoise(gaussianOut, sqrt), GetNoise(gaussianIn, sqrt))
      ensures biasEpsilon[..] == GetNoise(gaussianOut, sqrt)
      ensures unchanged(weightMu, weightSigma, biasMu, biasSigma)
      ensures forall x :: |x| == inFeatures ==>
        Forward(x) == FactorizedForward(MatrixOf(weightMu), MatrixOf(weightSigma), biasMu[..], biasSigma[..],
                                        GetNoise(gaussianIn, sqrt), GetNoise(gaussianOut, sqrt), x)
    {
      var epsIn := GetNoise(gaussianIn, sqrt);
      var epsOut := GetNoise(gaussianOut, sqrt);
      CopyMatrix(weightEpsilon, Outer(epsOut, epsIn));
      CopyVector(biasEpsilon, epsOut);
      forall x | |x| == inFeatures
        ensures Forward(x) == FactorizedForward(MatrixOf(weightMu), MatrixOf(weightSigma), biasMu[..], biasSigma[..],
                                                epsIn, epsOut, x)
      {
        FactorizedLinear(MatrixOf(weightMu), MatrixOf(weightSigma), biasMu[..], biasSigma[..], epsIn, epsOut, x);
      }
    }

    /** `disable_noise`: both noise buffers become all-zero, after which `Forward`
        is the plain linear map on the means. Calling it again changes nothing. */
    method DisableNoise()
      requires Valid()
      modifies weightEpsilon, biasEpsilon
      ensures Valid()
      ensures MatrixOf(weightEpsilon) == ZeroMatrix(outFeatures, inFeatures)
      ensures biasEpsilon[..] == Zeros(outFeatures)
      ensures unchanged(weightMu, weightSigma, biasMu, biasSigma)
      ensures forall x :: |x| == inFeatures ==> Forward(x) == Linear(MatrixOf(weightMu), biasMu[..], x)
    {
      CopyMatrix(weightEpsilon, ZeroMatrix(outFeatures, inFeatures));
      CopyVector(biasEpsilon, Zeros(outFeatures));
      forall x | |x| == inFeatures
        ensures Forward(x) == Linear(MatrixOf(weightMu), biasMu[..], x)
      {
        NoiselessLinear(MatrixOf(weightMu), MatrixOf(weightSigma), biasMu[..], biasSigma[..], x);
      }
    }
  }

  /** `init.uniform_(t, -s, s)` on unit draws u: each entry becomes -s + 2 s u. */
  function UniformInit(unit: Vector, s: real): Vector {
    seq(|unit|, i requires 0 <= i < |unit| => -s + 2.0 * s * unit[i])
  }

  /** Unit draws in [0, 1) land in [-s, s) and keep their order. */
  lemma UniformInitRange(unit: Vector, s: real)
    requires s > 0.0
    requires forall i :: 0 <= i < |unit| ==> 0.0 <= unit[i] < 1.0
    ensures |UniformInit(unit, s)| == |unit|
    ensures forall i :: 0 <= i < |unit| ==> -s <= UniformInit(unit, s)[i] < s
    ensures forall i, j :: 0 <= i < |unit| && 0 <= j < |unit| ==>
      (UniformInit(unit, s)[i] <= UniformInit(unit, s)[j] <==> unit[i] <= unit[j])
  {
    var r := UniformInit(unit, s);
    forall i | 0 <= i < |unit|
      ensures -s <= r[i] < s
    {
      PositiveProduct(s, 1.0 - unit[i]);
      assert r[i] == s - 2.0 * s * (1.0 - unit[i]);
    }
    forall i, j | 0 <= i < |unit| && 0 <= j < |unit|
      ensures r[i] <= r[j] <==> unit[i] <= unit[j]
    {
      var d := unit[j] - unit[i];
      assert r[j] - r[i] == 2.0 * s * d;
      if d > 0.0 { PositiveProduct(2.0 * s, d); }
      if d < 0.0 { PositiveProduct(2.0 * s, -d); }
    }
  }

  function UniformInitMatrix(unit: Matrix, s: real): Matrix {
    seq(|unit|, o requires 0 <= o < |unit| => UniformInit(unit[o], s))
  }

  /** `init.constant_`. */
  function Constant(n: nat, c: real): Vector {
    seq(n, _ => c)
  }

  function ConstantMatrix(rows: nat, cols: nat, c: real): Matrix {
    seq(rows, _ => Constant(cols, c))
  }

  /** In-place `copy_` into a two-dimensional buffer of the same shape. */
  method CopyMatrix(a: array2<real>, m: Matrix)
    requires IsMatrix(m, a.Length0, a.Length1)
    modifies a
    ensures MatrixOf(a) == m
  {
    forall o, i | 0 <= o < a.Length0 && 0 <= i < a.Length1 {
      a[o, i] := m[o][i];
    }
    MatrixOfIs(a, m);
  }

  /** In-place `copy_` into a one-dimensional buffer of the same length. */
  method CopyVector(a: array<real>, v: Vector)
    requires |v| == a.Length
    modifies a
    ensures a[..] == v
  {
    forall o | 0 <= o < a.Length {
      a[o] := v[o];
    }
  }

  /** Pointwise agreement with a matrix of the buffer's shape is equality of contents. */
  lemma MatrixOfIs(a: array2<real>, m: Matrix)
    requires IsMatrix(m, a.Length0, a.Length1)
    requires forall o, i :: 0 <= o < a.Length0 && 0 <= i < a.Length1 ==> a[o, i] == m[o][i]
    ensures MatrixOf(a) == m
  {
    var v := MatrixOf(a);
    forall o | 0 <= o < a.Length0
      ensures v[o] == m[o]
    {
    }
  }
}
