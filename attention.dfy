/** Soft attention (`SolfAttention`) and the encoder that feeds it
    (`HumanUnderstandableEncoding`). Each spatial location gets a score from two
    dense layers with a ReLU between them; a softmax over the locations turns the
    scores into weights; each location's feature vector is scaled by its own weight.

    The exponential is a parameter `exp` that is only assumed to be positive
    (`PositiveExp`). */
module Attention {
  import opened Tensors

  ghost predicate PositiveExp(exp: real -> real) {
    forall x :: exp(x) > 0.0
  }

  /** The exponentiated scores, each positive. */
  function Exps(scores: Vector, exp: real -> real): (e: Vector)
    requires PositiveExp(exp)
    ensures |e| == |scores| && forall n :: 0 <= n < |e| ==> e[n] == exp(scores[n]) && e[n] > 0.0
  {
    var e := seq(|scores|, n requires 0 <= n < |scores| => exp(scores[n]));
    forall n | 0 <= n < |e|
      ensures e[n] > 0.0
    {
      var v := scores[n];
      assert exp(v) > 0.0;
    }
    e
  }

  /** Division of positive entries by their total: the results are positive and sum
      to 1 when there is at least one. */
  function Normalize(e: Vector): (r: Vector)
    requires forall n :: 0 <= n < |e| ==> e[n] > 0.0
    ensures |r| == |e|
    ensures forall n :: 0 <= n < |r| ==> r[n] > 0.0
    ensures |e| > 0 ==> Sum(r) == 1.0
  {
    if |e| == 0 then []
    else
      SumPositive(e);
      var total := Sum(e);
      var k := 1.0 / total;
      SumScale(e, k);
      var r := Scale(e, k);
      forall n | 0 <= n < |r|
        ensures r[n] > 0.0
      {
        PositiveProduct(e[n], k);
      }
      r
  }

  /** `nn.Softmax`: the weights are positive and sum to 1 over a non-empty set of
      locations. */
  function Softmax(scores: Vector, exp: real -> real): (alpha: Vector)
    requires PositiveExp(exp)
    ensures |alpha| == |scores|
    ensures forall n :: 0 <= n < |alpha| ==> alpha[n] > 0.0
    ensures |scores| > 0 ==> Sum(alpha) == 1.0
  {
    Normalize(Exps(scores, exp))
  }

  /** The softmax weights of two locations are in the ratio of their exponentiated
      scores. */
  lemma SoftmaxProportional(scores: Vector, exp: real -> real, n: nat, m: nat)
    requires PositiveExp(exp) && n < |scores| && m < |scores|
    ensures Softmax(scores, exp)[n] * exp(scores[m]) == Softmax(scores, exp)[m] * exp(scores[n])
  {
    var e := Exps(scores, exp);
    SumPositive(e);
    var k := 1.0 / Sum(e);
    assert Softmax(scores, exp) == Scale(e, k);
    ProductSwap(e[n], e[m], k);
  }

  lemma ProductSwap(x: real, y: real, k: real)
    ensures (x * k) * y == (y * k) * x
  {
  }


  /** `encoder_att` (features_dim -> attention_dim) and `full_att` (attention_dim -> 1). */
  datatype AttentionParams = AttentionParams(encoderWeight: Matrix, encoderBias: Vector,
                                             fullWeight: Vector, fullBias: real)

  predicate WellFormed(p: AttentionParams, featuresDim: nat) {
    IsMatrix(p.encoderWeight, |p.encoderBias|, featuresDim) && |p.fullWeight| == |p.encoderBias|
  }

  /** The score of one location: full_att(relu(encoder_att(v))), squeezed to a scalar. */
  function Score(p: AttentionParams, v: Vector): real
    requires WellFormed(p, |v|)
  {
    Dot(p.fullWeight, Relu(Linear(p.encoderWeight, p.encoderBias, v))) + p.fullBias
  }

  function Scores(p: AttentionParams, features: Matrix, featuresDim: nat): Vector
    requires WellFormed(p, featuresDim)
    requires forall n :: 0 <= n < |features| ==> |features[n]| == featuresDim
  {
    seq(|features|, n requires 0 <= n < |features| => Score(p, features[n]))
  }

  /** `SolfAttention.forward` for one batch element (locations, features_dim): the
      weights are the softmax of the location scores, and each location's vector is
      scaled by its own weight, so the encoding has the shape of the input. */
  function Attend(features: Matrix, p: AttentionParams, featuresDim: nat, exp: real -> real)
    : (r: (Matrix, Vector))
    requires PositiveExp(exp) && WellFormed(p, featuresDim)
    requires IsMatrix(features, |features|, featuresDim)
    ensures r.1 == Softmax(Scores(p, features, featuresDim), exp)
    ensures |r.1| == |features| && (forall n :: 0 <= n < |features| ==> r.1[n] > 0.0)
    ensures |features| > 0 ==> Sum(r.1) == 1.0
    ensures |r.0| == |features| && forall n :: 0 <= n < |features| ==> r.0[n] == Scale(features[n], r.1[n])
  {
    var alpha := Softmax(Scores(p, features, featuresDim), exp);
    (seq(|features|, n requires 0 <= n < |features| => Scale(features[n], alpha[n])), alpha)
  }

  /** What `SolfAttention.forward` returns: the reweighted features and the weights. */
  datatype AttentionOutput = AttentionOutput(encoding: seq<Matrix>, alpha: Matrix)

  /** `SolfAttention.forward` on (batch, locations, features_dim), batch element by
      batch element. */
  function SoftAttention(features: seq<Matrix>, p: AttentionParams, featuresDim: nat, exp: real -> real)
    : (r: AttentionOutput)
    requires PositiveExp(exp) && WellFormed(p, featuresDim)
    requires forall b :: 0 <= b < |features| ==> IsMatrix(features[b], |features[b]|, featuresDim)
    ensures |r.alpha| == |features| && |r.encoding| == |features|
    ensures forall b :: 0 <= b < |features| ==> (r.encoding[b], r.alpha[b]) == Attend(features[b], p, featuresDim, exp)
  {
    var outs := seq(|features|, b requires 0 <= b < |features| => Attend(features[b], p, featuresDim, exp));
    AttentionOutput(seq(|features|, b requires 0 <= b < |features| => outs[b].0),
                    seq(|features|, b requires 0 <= b < |features| => outs[b].1))
  }

  /** Row n of the location view: the C features at grid position (n / w, n % w). */
  function LocationRow(t: Tensor3, c: nat, h: nat, w: nat, n: nat): (r: Vector)
    requires IsTensor3(t, c, h, w) && n < h * w
    ensures |r| == c
  {
    RowMajorSplit(n, h, w);
    seq(c, ci requires 0 <= ci < c => t[ci][n / w][n % w])
  }

  /** `x.permute(0,2,3,1).view(B, -1, C)` for one batch element: the (C, H, W) map
      becomes H*W location rows of C features. */
  function ToLocations(t: Tensor3, c: nat, h: nat, w: nat): (m: Matrix)
    requires IsTensor3(t, c, h, w)
    ensures IsMatrix(m, h * w, c)
  {
    var hw := h * w;
    seq(hw, n requires 0 <= n < hw => LocationRow(t, c, h, w, n))
  }

  /** Grid position (i, j) of channel ci is feature ci of location row i*w + j. */
  lemma ToLocationsAt(t: Tensor3, c: nat, h: nat, w: nat, ci: nat, i: nat, j: nat)
    requires IsTensor3(t, c, h, w) && ci < c && i < h && j < w
    ensures Flat(i, j, w) < h * w && ToLocations(t, c, h, w)[Flat(i, j, w)][ci] == t[ci][i][j]
  {
    RowMajorBound(i, j, h, w);
    RowMajorDivMod(i, j, w);
  }

  /** `x.reshape(B, H, W, C).permute(0,3,1,2)` for one batch element: back from
      location rows to the (C, H, W) layout, position (i, j) read from row i*w + j. */
  function FromLocations(m: Matrix, c: nat, h: nat, w: nat): (t: Tensor3)
    requires IsMatrix(m, h * w, c)
    ensures IsTensor3(t, c, h, w)
  {
    seq(c, ci requires 0 <= ci < c => seq(h, i requires 0 <= i < h => seq(w, j requires 0 <= j < w =>
      RowMajorBound(i, j, h, w);
      m[Flat(i, j, w)][ci])))
  }

  /** Grid position (i, j) of channel ci of the restored map is feature ci of
      location row i*w + j. */
  lemma FromLocationsAt(m: Matrix, c: nat, h: nat, w: nat, ci: nat, i: nat, j: nat)
    requires IsMatrix(m, h * w, c) && ci < c && i < h && j < w
    ensures Flat(i, j, w) < h * w && FromLocations(m, c, h, w)[ci][i][j] == m[Flat(i, j, w)][ci]
  {
    RowMajorBound(i, j, h, w);
  }

  /** Restoring the layout after the location view gives back the original map. */
  lemma LayoutRoundTrip(t: Tensor3, c: nat, h: nat, w: nat)
    requires IsTensor3(t, c, h, w)
    ensures FromLocations(ToLocations(t, c, h, w), c, h, w) == t
  {
    var back := FromLocations(ToLocations(t, c, h, w), c, h, w);
    forall ci | 0 <= ci < c
      ensures back[ci] == t[ci]
    {
      forall i | 0 <= i < h
        ensures back[ci][i] == t[ci][i]
      {
        forall j | 0 <= j < w
          ensures back[ci][i][j] == t[ci][i][j]
        {
          ToLocationsAt(t, c, h, w, ci, i, j);
        }
      }
    }
  }

  /** And the location view of a restored map gives back the location rows. */
  lemma LocationsRoundTrip(m: Matrix, c: nat, h: nat, w: nat)
    requires IsMatrix(m, h * w, c)
    ensures ToLocations(FromLocations(m, c, h, w), c, h, w) == m
  {
    var t := FromLocations(m, c, h, w);
    var m' := ToLocations(t, c, h, w);
    forall n | 0 <= n < h * w
      ensures m'[n] == m[n]
    {
      RowMajorSplit(n, h, w);
      var i, j := n / w, n % w;
      forall ci | 0 <= ci < c
        ensures m'[n][ci] == m[n][ci]
      {
        ToLocationsAt(t, c, h, w, ci, i, j);
      }
    }
  }

  /** The location views of a batch of (C, H, W) maps. */
  function Locations(x: seq<Tensor3>, c: nat, h: nat, w: nat): (r: seq<Matrix>)
    requires forall b :: 0 <= b < |x| ==> IsTensor3(x[b], c, h, w)
    ensures |r| == |x| && forall b :: 0 <= b < |x| ==> r[b] == ToLocations(x[b], c, h, w)
  {
    seq(|x|, b requires 0 <= b < |x| => ToLocations(x[b], c, h, w))
  }

  /** `HumanUnderstandableEncoding.forward` after its convolutions, for one batch
      element: attend over the location view and restore the layout. The map keeps
      its shape and every entry is scaled by the weight of its own grid position;
      the weights are those of the attention over the location rows (`EncodeScales`). */
  function Encode(t: Tensor3, c: nat, h: nat, w: nat, p: AttentionParams, exp: real -> real)
    : (r: (Tensor3, Vector))
    requires PositiveExp(exp) && WellFormed(p, c) && IsTensor3(t, c, h, w)
    ensures r.1 == Attend(ToLocations(t, c, h, w), p, c, exp).1
    ensures |r.1| == h * w && (forall n :: 0 <= n < h * w ==> r.1[n] > 0.0)
    ensures h * w > 0 ==> Sum(r.1) == 1.0
    ensures IsTensor3(r.0, c, h, w)
  {
    var a := Attend(ToLocations(t, c, h, w), p, c, exp);
    (FromLocations(a.0, c, h, w), a.1)
  }

  /** The encoder scales entry (ci, i, j) of the map by the weight of grid position
      (i, j), and by nothing else. */
  lemma EncodeScales(t: Tensor3, c: nat, h: nat, w: nat, p: AttentionParams, exp: real -> real,
                     ci: nat, i: nat, j: nat)
    requires PositiveExp(exp) && WellFormed(p, c) && IsTensor3(t, c, h, w)
    requires ci < c && i < h && j < w
    ensures var r := Encode(t, c, h, w, p, exp);
      Flat(i, j, w) < h * w && r.0[ci][i][j] == t[ci][i][j] * r.1[Flat(i, j, w)]
  {
    var loc := ToLocations(t, c, h, w);
    var a := Attend(loc, p, c, exp);
    ToLocationsAt(t, c, h, w, ci, i, j);
    FromLocationsAt(a.0, c, h, w, ci, i, j);
  }

  /** The attention encoder. Its three convolutions with their ReLUs are not part of
      this model: `Forward` receives their (batch, channels, H', W') output, where
      channels is 2 * channels_step. The field `att` holds the weights of the latest
      call. */
  class HumanUnderstandableEncoding {
    const channels: nat
    const attention: AttentionParams
    var att: Matrix

    constructor (channelsStep: nat, attention: AttentionParams)
      requires WellFormed(attention, 2 * channelsStep)
      ensures channels == 2 * channelsStep && this.attention == attention
      ensures att == []
    {
      channels := 2 * channelsStep;
      this.attention := attention;
      att := [];
    }

    /** `forward` after the convolutions, batch element by batch element (`Encode`);
        `att` is overwritten with the (batch, H'*W') weights, which are those of
        `SolfAttention` over the batch's location views. The location view infers
        its length from the batch size and the channel count, and raises when
        either is zero. Its layers and their shapes are `Backbones.EncoderLayers`. */
    method Forward(x: seq<Tensor3>, h: nat, w: nat, exp: real -> real) returns (y: seq<Tensor3>)
      requires |x| > 0 && channels >= 1
      requires PositiveExp(exp) && WellFormed(attention, channels)
      requires forall b :: 0 <= b < |x| ==> IsTensor3(x[b], channels, h, w)
      modifies this
      ensures |y| == |x| && |att| == |x|
      ensures forall b :: 0 <= b < |x| ==> (y[b], att[b]) == Encode(x[b], channels, h, w, attention, exp)
      ensures att == SoftAttention(Locations(x, channels, h, w), attention, channels, exp).alpha
    {
      var outs := seq(|x|, b requires 0 <= b < |x| => Encode(x[b], channels, h, w, attention, exp));
      y := seq(|x|, b requires 0 <= b < |x| => outs[b].0);
      att := seq(|x|, b requires 0 <= b < |x| => outs[b].1);
      ghost var batch := SoftAttention(Locations(x, channels, h, w), attention, channels, exp);
      forall b | 0 <= b < |x|
        ensures att[b] == batch.alpha[b]
      {
      }
    }
  }
}
