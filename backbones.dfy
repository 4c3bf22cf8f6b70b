/** The backbones (`NatureCNN`, `DuelingNatureCNN`, `ImpalaCNNSmall`,
    `ImpalaCNNLarge`) and their building blocks (`ImpalaCNNResidual`,
    `ImpalaCNNBlock`) at the level of tensor shapes. A network is the list of
    layers of its `nn.Sequential` trunk plus a head; running it on the shape of one
    input example (channels, height, width) gives the shape of its output, or
    `None` where PyTorch would raise a shape error. Weights, numerics and the batch
    dimension are not part of this module. */
module Backbones {
  import opened Wrappers
  import Tensors

  type Shape = seq<nat>

  /** One layer of a trunk, with the constructor arguments that decide shapes. */
  datatype Layer =
    | Conv(inChannels: nat, outChannels: nat, kernel: nat, stride: nat, padding: nat)
    | MaxPool(kernel: nat, stride: nat, padding: nat)
    | AdaptiveMaxPool(outHeight: nat, outWidth: nat)
    | ReLU
    | Flatten
    | Dense(inFeatures: nat, outFeatures: nat)
    | Residual(depth: nat, spectralNorm: bool)
    | Attention(featuresDim: nat)

  /** Output length of a convolution or pooling window along one axis:
      floor((n + 2p - k) / s) + 1, undefined when the padded input is shorter than
      the window or the stride is zero. */
  function WindowOut(n: nat, kernel: nat, stride: nat, padding: nat): Option<nat> {
    if stride == 0 || n + 2 * padding < kernel then None
    else Some((n + 2 * padding - kernel) / stride + 1)
  }

  /** `nn.Conv2d` on a (C, H, W) example: the channel count must match, and a
      convolution without output channels fails PyTorch's weight check. */
  function ConvShape(inC: nat, outC: nat, k: nat, s: nat, p: nat, x: Shape): (r: Option<Shape>)
    ensures r.Some? <==> && |x| == 3 && x[0] == inC && outC >= 1
                         && WindowOut(x[1], k, s, p).Some? && WindowOut(x[2], k, s, p).Some?
    ensures r.Some? ==> r.value == [outC, WindowOut(x[1], k, s, p).value, WindowOut(x[2], k, s, p).value]
  {
    if |x| != 3 || x[0] != inC || outC == 0 then None
    else match (WindowOut(x[1], k, s, p), WindowOut(x[2], k, s, p))
      case (Some(h), Some(w)) => Some([outC, h, w])
      case _ => None
  }

  /** `nn.MaxPool2d`: as a convolution window, the padding may be at most half
      the kernel, and the input must have at least one channel. The channel count
      is kept. */
  function MaxPoolShape(k: nat, s: nat, p: nat, x: Shape): (r: Option<Shape>)
    ensures r.Some? <==> && |x| == 3 && x[0] >= 1 && 2 * p <= k
                         && WindowOut(x[1], k, s, p).Some? && WindowOut(x[2], k, s, p).Some?
    ensures r.Some? ==> r.value == [x[0], WindowOut(x[1], k, s, p).value, WindowOut(x[2], k, s, p).value]
  {
    if |x| != 3 || x[0] == 0 || 2 * p > k then None
    else match (WindowOut(x[1], k, s, p), WindowOut(x[2], k, s, p))
      case (Some(h), Some(w)) => Some([x[0], h, w])
      case _ => None
  }

  function Product(x: Shape): nat {
    if |x| == 0 then 1 else x[0] * Product(x[1..])
  }

  /** `ImpalaCNNResidual.forward`: relu, conv_0, relu, conv_1 (both 3x3, stride 1,
      padding 1, depth to depth), then the sum with the block's input, which needs
      the two shapes to agree. The spectral norm wrapper does not change shapes. */
  function ResidualShape(depth: nat, x: Shape): (r: Option<Shape>)
    ensures r.Some? ==> r.value == x && |x| == 3 && x[0] == depth && depth >= 1
  {
    match ConvShape(depth, depth, 3, 1, 1, x)
    case None => None
    case Some(y) =>
      match ConvShape(depth, depth, 3, 1, 1, y)
      case None => None
      case Some(z) => if z == x then Some(x) else None
  }

  /** The output shape of one layer. */
  function Apply(l: Layer, x: Shape): Option<Shape> {
    match l
    case Conv(inC, outC, k, s, p) => ConvShape(inC, outC, k, s, p, x)
    case MaxPool(k, s, p) => MaxPoolShape(k, s, p, x)
    case AdaptiveMaxPool(oh, ow) =>
      if |x| == 3 && x[0] > 0 && x[1] > 0 && x[2] > 0 then Some([x[0], oh, ow]) else None
    case ReLU => Some(x)
    case Flatten => Some([Product(x)])
    case Dense(i, o) => if |x| > 0 && x[|x| - 1] == i then Some(x[..|x| - 1] + [o]) else None
    case Residual(d, _) => ResidualShape(d, x)
    case Attention(f) => if |x| == 3 && x[0] == f then Some(x) else None
  }

  /** `nn.Sequential`: the layers in order, failing at the first shape error. */
  function Run(layers: seq<Layer>, x: Shape): Option<Shape> {
    RunFrom(layers, 0, x)
  }

  /** The layers from index i on. */
  function RunFrom(layers: seq<Layer>, i: nat, x: Shape): Option<Shape>
    requires i <= |layers|
    decreases |layers| - i
  {
    if i == |layers| then Some(x)
    else match Apply(layers[i], x)
      case None => None
      case Some(y) => RunFrom(layers, i + 1, y)
  }

  /** The head of a network: the trunk's last layer, or a `Dueling` head with its
      value and advantage branches. */
  datatype Head = Plain | DuelingHead(value: seq<Layer>, advantage: seq<Layer>)

  datatype Network = Network(trunk: seq<Layer>, head: Head)

  /** Elementwise broadcasting of two shapes of the same rank. */
  function Broadcast(a: Shape, b: Shape): Option<Shape> {
    if |a| != |b| then None
    else if forall i :: 0 <= i < |a| ==> a[i] == b[i] || a[i] == 1 || b[i] == 1 then
      Some(seq(|a|, i requires 0 <= i < |a| => if a[i] == 1 then b[i] else a[i]))
    else None
  }

  /** `Dueling.forward` on shapes: flatten, run the advantage branch and, unless
      only the advantages are asked for, the value branch, whose output is
      broadcast against the advantages. */
  function DuelingShape(value: seq<Layer>, advantage: seq<Layer>, x: Shape, advantagesOnly: bool): (r: Option<Shape>)
    ensures r.Some? ==> Run(advantage, [Product(x)]).Some?
    ensures advantagesOnly ==> r == Run(advantage, [Product(x)])
    ensures !advantagesOnly && r.Some? ==> Run(value, [Product(x)]).Some?
  {
    var flat := [Product(x)];
    match Run(advantage, flat)
    case None => None
    case Some(a) =>
      if advantagesOnly then Some(a)
      else match Run(value, flat)
        case None => None
        case Some(v) => Broadcast(v, a)
  }

  /** `forward` of a backbone; a plain network ignores `advantages_only`. */
  function Forward(net: Network, x: Shape, advantagesOnly: bool): (r: Option<Shape>)
    ensures r.Some? ==> Run(net.trunk, x).Some?
    ensures net.head.Plain? ==> r == Run(net.trunk, x)
  {
    match Run(net.trunk, x)
    case None => None
    case Some(f) =>
      match net.head
      case Plain => Some(f)
      case DuelingHead(v, a) => DuelingShape(v, a, f, advantagesOnly)
  }

  // ----- The backbones -----

  function NatureTrunk(depth: nat): seq<Layer> {
    [Conv(depth, 32, 8, 4, 0), ReLU, Conv(32, 64, 4, 2, 0), ReLU, Conv(64, 64, 3, 1, 0), ReLU]
  }

  /** Two dense layers with a ReLU between them (`linear_layer`, `nn.ReLU`, `linear_layer`). */
  function Mlp(inFeatures: nat, hidden: nat, outFeatures: nat): seq<Layer> {
    [Dense(inFeatures, hidden), ReLU, Dense(hidden, outFeatures)]
  }

  function NatureCNN(depth: nat, actions: nat): Network {
    Network(NatureTrunk(depth) + [Flatten] + Mlp(3136, 512, actions), Plain)
  }

  /** The two branches of a dueling head on `features` inputs. */
  function DuelingBranches(features: nat, hidden: nat, actions: nat): Head {
    DuelingHead(Mlp(features, hidden, 1), Mlp(features, hidden, actions))
  }

  function DuelingNatureCNN(depth: nat, actions: nat): Network {
    Network(NatureTrunk(depth), DuelingBranches(3136, 512, actions))
  }

  /** The small IMPALA trunk with its adaptive pooling to 6x6. */
  function ImpalaSmallTrunk(depth: nat): seq<Layer> {
    [Conv(depth, 16, 8, 4, 0), ReLU, Conv(16, 32, 4, 2, 0), ReLU, AdaptiveMaxPool(6, 6)]
  }

  function ImpalaCNNSmall(depth: nat, actions: nat): Network {
    Network(ImpalaSmallTrunk(depth), DuelingBranches(1152, 256, actions))
  }

  /** `ImpalaCNNBlock`. networks.py defines it, but no backbone uses it. */
  function ImpalaCNNBlock(depthIn: nat, depthOut: nat, spectralNorm: bool): seq<Layer> {
    [Conv(depthIn, depthOut, 3, 1, 1), MaxPool(3, 2, 1), Residual(depthOut, spectralNorm), Residual(depthOut, spectralNorm)]
  }

  /** The `spectral_norm` argument of `ImpalaCNNLarge`: `False` by default, or a
      string. */
  datatype SpectralNormSetting = Flag(b: bool) | Name(s: string)

  /** Which of the two residual blocks get spectral normalisation: `norm_func`
      for the first block and `norm_func_last` for the second. */
  function NormSelection(setting: SpectralNormSetting): (r: (bool, bool))
    ensures setting == Name("all") ==> r == (true, true)
    ensures setting == Name("last") ==> r == (false, true)
    ensures setting != Name("all") && setting != Name("last") ==> r == (false, false)
    ensures r.0 ==> r.1
  {
    (setting == Name("all"), setting == Name("last") || setting == Name("all"))
  }

  /** The layers of `HumanUnderstandableEncoding` (its values and its `att` field
      are the class `Attention.HumanUnderstandableEncoding`): three convolutions
      with ReLUs (3x3 stride 3,
      2x2 stride 2, 1x1 stride 1, all unpadded) and the shape-preserving attention
      over the 2 * channels_step channels. */
  function EncoderLayers(numInputs: nat, channelsStep: nat): seq<Layer> {
    [Conv(numInputs, channelsStep, 3, 3, 0), ReLU,
     Conv(channelsStep, 2 * channelsStep, 2, 2, 0), ReLU,
     Conv(2 * channelsStep, 2 * channelsStep, 1, 1, 0), ReLU,
     Attention(2 * channelsStep)]
  }

  /** `ImpalaCNNLarge.AFE`: pooling, the two residual blocks with their spectral
      norm selection, a ReLU and adaptive pooling to 8x8. */
  function FeatureExtractor(modelSize: nat, setting: SpectralNormSetting): seq<Layer> {
    var norms := NormSelection(setting);
    [MaxPool(3, 2, 1), Residual(32 * modelSize, norms.0), Residual(32 * modelSize, norms.1),
     ReLU, AdaptiveMaxPool(8, 8)]
  }

  /** The residual blocks of the extractor carry the selection: the first is
      normalised exactly for "all", the second exactly for "last" and "all", so a
      boolean setting normalises neither. */
  lemma FeatureExtractorNorms(modelSize: nat, setting: SpectralNormSetting)
    ensures FeatureExtractor(modelSize, setting)[1] == Residual(32 * modelSize, setting == Name("all"))
    ensures FeatureExtractor(modelSize, setting)[2]
         == Residual(32 * modelSize, setting == Name("last") || setting == Name("all"))
    ensures setting.Flag? ==>
              !FeatureExtractor(modelSize, setting)[1].spectralNorm && !FeatureExtractor(modelSize, setting)[2].spectralNorm
  {
  }

  function ImpalaCNNLarge(depth: nat, actions: nat, modelSize: nat, setting: SpectralNormSetting): Network {
    Network(EncoderLayers(depth, 16 * modelSize) + FeatureExtractor(modelSize, setting),
            DuelingBranches(2048 * modelSize, 256, actions))
  }

  // ----- Properties -----

  /** Running a concatenation runs the first part, then the second on its output. */
  lemma {:induction false} RunFromAppend(a: seq<Layer>, b: seq<Layer>, i: nat, x: Shape)
    requires i <= |a|
    ensures RunFrom(a + b, i, x) == match RunFrom(a, i, x) case None => None case Some(y) => Run(b, y)
    decreases |a| - i
  {
    if i == |a| {
      RunFromSuffix(a, b, 0, x);
    } else {
      assert (a + b)[i] == a[i];
      match Apply(a[i], x)
      case None =>
      case Some(y) => RunFromAppend(a, b, i + 1, y);
    }
  }

  /** Running a + b from index |a| + i is running b from index i. */
  lemma {:induction false} RunFromSuffix(a: seq<Layer>, b: seq<Layer>, i: nat, x: Shape)
    requires i <= |b|
    ensures RunFrom(a + b, |a| + i, x) == RunFrom(b, i, x)
    decreases |b| - i
  {
    if i < |b| {
      assert (a + b)[|a| + i] == b[i];
      match Apply(b[i], x)
      case None =>
      case Some(y) => RunFromSuffix(a, b, i + 1, y);
    }
  }

  lemma RunAppend(a: seq<Layer>, b: seq<Layer>, x: Shape)
    ensures Run(a + b, x) == match Run(a, x) case None => None case Some(y) => Run(b, y)
  {
    RunFromAppend(a, b, 0, x);
  }

  /** A 3x3 window with stride 1 and padding 1 keeps every non-zero length. */
  lemma SamePadding(n: nat)
    ensures WindowOut(n, 3, 1, 1) == if n >= 1 then Some(n) else None
  {
  }

  /** A 3x3 window with stride 2 and padding 1 halves a non-zero length, rounding up. */
  lemma HalvingPool(n: nat)
    ensures WindowOut(n, 3, 2, 1) == if n >= 1 then Some((n + 1) / 2) else None
  {
  }

  /** The residual block maps a (C, H, W) example to the same shape exactly when C is
      the block's depth, at least one, and H, W are non-zero; otherwise the
      convolutions fail. */
  lemma ResidualPreservesShape(depth: nat, x: Shape, spectralNorm: bool)
    ensures Apply(Residual(depth, spectralNorm), x)
         == if |x| == 3 && x[0] == depth && depth >= 1 && x[1] >= 1 && x[2] >= 1 then Some(x) else None
  {
    if |x| == 3 && x[0] == depth && depth >= 1 && x[1] >= 1 && x[2] >= 1 {
      SamePadding(x[1]);
      SamePadding(x[2]);
      assert ConvShape(depth, depth, 3, 1, 1, x) == Some([depth, x[1], x[2]]);
      assert [depth, x[1], x[2]] == x;
    }
  }

  /** `ImpalaCNNBlock` halves height and width (rounding up) and sets the depth, on
      any non-empty input of the right depth, provided the output depth is at
      least one. */
  lemma ImpalaCNNBlockShape(depthIn: nat, depthOut: nat, spectralNorm: bool, x: Shape)
    ensures Run(ImpalaCNNBlock(depthIn, depthOut, spectralNorm), x)
         == if |x| == 3 && x[0] == depthIn && depthOut >= 1 && x[1] >= 1 && x[2] >= 1
            then Some([depthOut, (x[1] + 1) / 2, (x[2] + 1) / 2]) else None
  {
    var L := ImpalaCNNBlock(depthIn, depthOut, spectralNorm);
    if |x| == 3 && x[0] == depthIn && depthOut >= 1 && x[1] >= 1 && x[2] >= 1 {
      var y := [depthOut, x[1], x[2]];
      var z := [depthOut, (x[1] + 1) / 2, (x[2] + 1) / 2];
      assert RunFrom(L, 0, x) == RunFrom(L, 1, y) by {
        SamePadding(x[1]);
        SamePadding(x[2]);
      }
      assert RunFrom(L, 1, y) == RunFrom(L, 2, z) by {
        HalvingPool(x[1]);
        HalvingPool(x[2]);
        assert MaxPoolShape(3, 2, 1, y) == Some(z);
      }
      assert RunFrom(L, 2, z) == Some(z) by {
        ResidualPreservesShape(depthOut, z, spectralNorm);
        assert RunFrom(L, 3, z) == RunFrom(L, 4, z);
      }
    } else if |x| == 3 && x[0] == depthIn && depthOut >= 1 {
      SamePadding(x[1]);
      SamePadding(x[2]);
      assert ConvShape(depthIn, depthOut, 3, 1, 1, x) == None;
    }
  }

  /** Height (or width) after the three convolutions of the Nature trunk. */
  function NatureSide(n: nat): (r: Option<nat>)
    ensures r.Some? <==> n >= 36
    ensures r == Some(7) <==> 84 <= n <= 91
  {
    match WindowOut(n, 8, 4, 0)
    case None => None
    case Some(a) =>
      match WindowOut(a, 4, 2, 0)
      case None => None
      case Some(b) => WindowOut(b, 3, 1, 0)
  }

  /** The Nature trunk turns a (depth, H, W) frame into 64 maps of the reduced size. */
  lemma NatureTrunkShape(depth: nat, x: Shape)
    ensures Run(NatureTrunk(depth), x)
         == if |x| == 3 && x[0] == depth && NatureSide(x[1]).Some? && NatureSide(x[2]).Some?
            then Some([64, NatureSide(x[1]).value, NatureSide(x[2]).value]) else None
  {
    var L := NatureTrunk(depth);
    if |x| == 3 && x[0] == depth && x[1] >= 8 && x[2] >= 8 {
      var h, w := x[1], x[2];
      var h1, w1 := (h - 8) / 4 + 1, (w - 8) / 4 + 1;
      assert RunFrom(L, 0, x) == RunFrom(L, 2, [32, h1, w1]) by {
        assert RunFrom(L, 0, x) == RunFrom(L, 1, [32, h1, w1]);
      }
      if h1 >= 4 && w1 >= 4 {
        var h2, w2 := (h1 - 4) / 2 + 1, (w1 - 4) / 2 + 1;
        assert RunFrom(L, 2, [32, h1, w1]) == RunFrom(L, 4, [64, h2, w2]) by {
          assert RunFrom(L, 2, [32, h1, w1]) == RunFrom(L, 3, [64, h2, w2]);
        }
        assert NatureSide(h) == if h2 >= 3 then Some(h2 - 2) else None;
        assert NatureSide(w) == if w2 >= 3 then Some(w2 - 2) else None;
        if h2 >= 3 && w2 >= 3 {
          var z := [64, h2 - 2, w2 - 2];
          assert RunFrom(L, 4, [64, h2, w2]) == Some(z) by {
            assert RunFrom(L, 5, z) == Some(z);
          }
        } else {
          assert RunFrom(L, 4, [64, h2, w2]) == None;
        }
      } else {
        assert RunFrom(L, 2, [32, h1, w1]) == None;
      }
    }
  }

  /** The head's dense layers accept exactly vectors of their input width. */
  lemma MlpShape(inFeatures: nat, hidden: nat, outFeatures: nat, n: nat)
    ensures Run(Mlp(inFeatures, hidden, outFeatures), [n]) == if n == inFeatures then Some([outFeatures]) else None
  {
    var L := Mlp(inFeatures, hidden, outFeatures);
    if n == inFeatures {
      assert [n][..0] + [hidden] == [hidden];
      assert [hidden][..0] + [outFeatures] == [outFeatures];
      assert RunFrom(L, 0, [n]) == RunFrom(L, 1, [hidden]);
      assert RunFrom(L, 1, [hidden]) == RunFrom(L, 2, [hidden]);
      assert RunFrom(L, 2, [hidden]) == Some([outFeatures]);
    }
  }

  /** A one-element value broadcasts against any one-dimensional advantage shape. */
  lemma BroadcastSingleton(n: nat)
    ensures Broadcast([1], [n]) == Some([n])
  {
    var b := Broadcast([1], [n]);
    assert b.Some? && |b.value| == 1 && b.value[0] == n;
    assert b.value == [n];
  }

  /** A dueling head answers one value per action, with or without the value branch,
      exactly when the flattened features have the width its branches expect. */
  lemma DuelingBranchesShape(features: nat, hidden: nat, actions: nat, x: Shape, advantagesOnly: bool)
    ensures DuelingShape(Mlp(features, hidden, 1), Mlp(features, hidden, actions), x, advantagesOnly)
         == if Product(x) == features then Some([actions]) else None
  {
    MlpShape(features, hidden, 1, Product(x));
    MlpShape(features, hidden, actions, Product(x));
    BroadcastSingleton(actions);
  }

  /** The number of entries of a (C, H, W) example. */
  lemma ProductOfThree(c: nat, h: nat, w: nat)
    ensures Product([c, h, w]) == c * (h * w)
  {
    assert [w][1..] == [];
    assert Product([w]) == w;
    assert [h, w][1..] == [w];
    assert Product([h, w]) == h * w;
    assert [c, h, w][1..] == [h, w];
  }

  /** The input frames the Nature trunk and its 3136-wide classifier accept: the
      trunk must leave 64 maps of 49 positions. */
  predicate NatureAccepts(depth: nat, x: Shape) {
    && |x| == 3 && x[0] == depth
    && NatureSide(x[1]).Some? && NatureSide(x[2]).Some?
    && NatureSide(x[1]).value * NatureSide(x[2]).value == 49
  }

  /** On square frames the Nature networks accept exactly sides 84 to 91, so
      every 84x84 frame of the right depth. */
  lemma NatureAcceptsSquare(depth: nat, c: nat, h: nat)
    ensures NatureAccepts(depth, [c, h, h]) <==> c == depth && 84 <= h <= 91
  {
    var x: Shape := [c, h, h];
    if c == depth && NatureSide(h).Some? {
      var s := NatureSide(h).value;
      if s < 7 {
        MulLess(s, s, 6);
      } else if s > 7 {
        MulLess(8, 8, s);
      }
    }
  }

  /** A product of two factors at most k is at most k * k. */
  lemma MulLess(m: nat, n: nat, k: nat)
    requires m <= k && n <= k
    ensures m * n <= k * k
  {
    Tensors.MulNonneg(k - m, n);
    Tensors.MulNonneg(k - n, k);
  }

  /** `NatureCNN.forward`: one value per action for every accepted frame, a shape
      error for every other; `advantages_only` is ignored. */
  lemma NatureCNNShape(depth: nat, actions: nat, x: Shape, advantagesOnly: bool)
    ensures Forward(NatureCNN(depth, actions), x, advantagesOnly)
         == if NatureAccepts(depth, x) then Some([actions]) else None
  {
    var trunk := NatureTrunk(depth);
    NatureTrunkShape(depth, x);
    RunAppend(trunk + [Flatten], Mlp(3136, 512, actions), x);
    RunAppend(trunk, [Flatten], x);
    if NatureAccepts(depth, x) || Run(trunk, x).Some? {
      var f := [64, NatureSide(x[1]).value, NatureSide(x[2]).value];
      assert Run(trunk, x) == Some(f);
      assert Run([Flatten], f) == Some([Product(f)]);
      ProductOfThree(64, f[1], f[2]);
      MlpShape(3136, 512, actions, Product(f));
    }
  }

  /** `DuelingNatureCNN.forward`: the same frames as `NatureCNN`, and one value per
      action whether or not only the advantages are asked for. */
  lemma DuelingNatureCNNShape(depth: nat, actions: nat, x: Shape, advantagesOnly: bool)
    ensures Forward(DuelingNatureCNN(depth, actions), x, advantagesOnly)
         == if NatureAccepts(depth, x) then Some([actions]) else None
  {
    NatureTrunkShape(depth, x);
    if NatureAccepts(depth, x) || Run(NatureTrunk(depth), x).Some? {
      var f := [64, NatureSide(x[1]).value, NatureSide(x[2]).value];
      assert Run(NatureTrunk(depth), x) == Some(f);
      ProductOfThree(64, f[1], f[2]);
      DuelingBranchesShape(3136, 512, actions, f, advantagesOnly);
      assert Forward(DuelingNatureCNN(depth, actions), x, advantagesOnly)
          == DuelingShape(Mlp(3136, 512, 1), Mlp(3136, 512, actions), f, advantagesOnly);
    }
  }

  /** The small IMPALA trunk accepts frames of at least 20x20 of its depth and
      always leaves 32 maps of 6x6. */
  lemma ImpalaSmallTrunkShape(depth: nat, x: Shape)
    ensures Run(ImpalaSmallTrunk(depth), x)
         == if |x| == 3 && x[0] == depth && x[1] >= 20 && x[2] >= 20 then Some([32, 6, 6]) else None
  {
    var L := ImpalaSmallTrunk(depth);
    if |x| == 3 && x[0] == depth && x[1] >= 8 && x[2] >= 8 {
      var h1, w1 := (x[1] - 8) / 4 + 1, (x[2] - 8) / 4 + 1;
      assert RunFrom(L, 0, x) == RunFrom(L, 2, [16, h1, w1]) by {
        assert RunFrom(L, 0, x) == RunFrom(L, 1, [16, h1, w1]);
      }
      if h1 >= 4 && w1 >= 4 {
        var y := [32, (h1 - 4) / 2 + 1, (w1 - 4) / 2 + 1];
        assert RunFrom(L, 2, [16, h1, w1]) == Some([32, 6, 6]) by {
          assert RunFrom(L, 2, [16, h1, w1]) == RunFrom(L, 4, y);
        }
      } else {
        assert RunFrom(L, 2, [16, h1, w1]) == None;
      }
    }
  }

  /** `ImpalaCNNSmall.forward`: one value per action for every frame of its depth
      and at least 20x20, a shape error for every other. */
  lemma ImpalaCNNSmallShape(depth: nat, actions: nat, x: Shape, advantagesOnly: bool)
    ensures Forward(ImpalaCNNSmall(depth, actions), x, advantagesOnly)
         == if |x| == 3 && x[0] == depth && x[1] >= 20 && x[2] >= 20 then Some([actions]) else None
  {
    ImpalaSmallTrunkShape(depth, x);
    if |x| == 3 && x[0] == depth && x[1] >= 20 && x[2] >= 20 {
      ProductOfThree(32, 6, 6);
      DuelingBranchesShape(1152, 256, actions, [32, 6, 6], advantagesOnly);
      assert Forward(ImpalaCNNSmall(depth, actions), x, advantagesOnly)
          == DuelingShape(Mlp(1152, 256, 1), Mlp(1152, 256, actions), [32, 6, 6], advantagesOnly);
    }
  }

  /** The encoding's first two windows: 3x3 with stride 3, then 2x2 with stride 2. */
  lemma EncodingWindows(n: nat)
    ensures WindowOut(n, 3, 3, 0) == if n >= 3 then Some(n / 3) else None
    ensures WindowOut(n / 3, 2, 2, 0) == if n >= 6 then Some(n / 6) else None
    ensures WindowOut(n / 6, 1, 1, 0) == if n >= 6 then Some(n / 6) else None
  {
  }

  /** The encoding stage divides height and width by six (rounding down), doubles
      the channel step, and needs frames of at least 6x6 of its input depth and a
      channel step of at least one. */
  lemma HumanUnderstandableEncodingShape(numInputs: nat, channelsStep: nat, x: Shape)
    ensures Run(EncoderLayers(numInputs, channelsStep), x)
         == if |x| == 3 && x[0] == numInputs && channelsStep >= 1 && x[1] >= 6 && x[2] >= 6
            then Some([2 * channelsStep, x[1] / 6, x[2] / 6]) else None
  {
    var L := EncoderLayers(numInputs, channelsStep);
    if |x| == 3 && x[0] == numInputs && channelsStep >= 1 {
      EncodingWindows(x[1]);
      EncodingWindows(x[2]);
      if x[1] >= 3 && x[2] >= 3 {
        var y := [channelsStep, x[1] / 3, x[2] / 3];
        assert RunFrom(L, 0, x) == RunFrom(L, 2, y) by {
          assert RunFrom(L, 0, x) == RunFrom(L, 1, y);
        }
        if x[1] >= 6 && x[2] >= 6 {
          var z := [2 * channelsStep, x[1] / 6, x[2] / 6];
          assert RunFrom(L, 2, y) == RunFrom(L, 4, z) by {
            assert RunFrom(L, 2, y) == RunFrom(L, 3, z);
          }
          assert RunFrom(L, 4, z) == RunFrom(L, 6, z) by {
            assert RunFrom(L, 4, z) == RunFrom(L, 5, z);
          }
          assert RunFrom(L, 6, z) == Some(z);
        } else {
          assert RunFrom(L, 2, y) == None;
        }
      }
    }
  }

  /** For a model size of at least one, the feature extractor turns any non-empty
      (32 * model_size)-map input into 32 * model_size maps of 8x8, whichever blocks
      are spectrally normalised; with model size 0 its pooling has no channels and
      fails. */
  lemma FeatureExtractorShape(modelSize: nat, setting: SpectralNormSetting, h: nat, w: nat)
    requires h >= 1 && w >= 1
    ensures Run(FeatureExtractor(modelSize, setting), [32 * modelSize, h, w])
         == if modelSize >= 1 then Some([32 * modelSize, 8, 8]) else None
  {
    if modelSize >= 1 {
      FeatureExtractorMaps(modelSize, setting, h, w);
    }
  }

  lemma FeatureExtractorMaps(modelSize: nat, setting: SpectralNormSetting, h: nat, w: nat)
    requires modelSize >= 1 && h >= 1 && w >= 1
    ensures Run(FeatureExtractor(modelSize, setting), [32 * modelSize, h, w]) == Some([32 * modelSize, 8, 8])
  {
    var L := FeatureExtractor(modelSize, setting);
    var norms := NormSelection(setting);
    var z := [32 * modelSize, (h + 1) / 2, (w + 1) / 2];
    assert RunFrom(L, 0, [32 * modelSize, h, w]) == RunFrom(L, 1, z) by {
      HalvingPool(h);
      HalvingPool(w);
      assert MaxPoolShape(3, 2, 1, [32 * modelSize, h, w]) == Some(z);
    }
    assert RunFrom(L, 1, z) == RunFrom(L, 3, z) by {
      ResidualPreservesShape(32 * modelSize, z, norms.0);
      ResidualPreservesShape(32 * modelSize, z, norms.1);
      assert RunFrom(L, 1, z) == RunFrom(L, 2, z);
    }
    assert RunFrom(L, 3, z) == Some([32 * modelSize, 8, 8]) by {
      assert RunFrom(L, 3, z) == RunFrom(L, 4, z);
    }
  }

  /** `ImpalaCNNLarge.forward`: for every model size of at least one and every
      spectral norm setting, one value per action for every frame of its depth and
      at least 6x6, and a shape error for every other input and for model size 0.
      In particular the extractor's output has exactly the 2048 * model_size
      features the dueling branches expect. */
  lemma ImpalaCNNLargeShape(depth: nat, actions: nat, modelSize: nat, setting: SpectralNormSetting,
                            x: Shape, advantagesOnly: bool)
    ensures Forward(ImpalaCNNLarge(depth, actions, modelSize, setting), x, advantagesOnly)
         == if |x| == 3 && x[0] == depth && modelSize >= 1 && x[1] >= 6 && x[2] >= 6 then Some([actions]) else None
  {
    var encoding := EncoderLayers(depth, 16 * modelSize);
    var extractor := FeatureExtractor(modelSize, setting);
    HumanUnderstandableEncodingShape(depth, 16 * modelSize, x);
    RunAppend(encoding, extractor, x);
    if |x| == 3 && x[0] == depth && modelSize >= 1 && x[1] >= 6 && x[2] >= 6 {
      var f := [32 * modelSize, 8, 8];
      assert 2 * (16 * modelSize) == 32 * modelSize;
      FeatureExtractorShape(modelSize, setting, x[1] / 6, x[2] / 6);
      ProductOfThree(32 * modelSize, 8, 8);
      DuelingBranchesShape(2048 * modelSize, 256, actions, f, advantagesOnly);
      assert Forward(ImpalaCNNLarge(depth, actions, modelSize, setting), x, advantagesOnly)
          == DuelingShape(Mlp(2048 * modelSize, 256, 1), Mlp(2048 * modelSize, 256, actions), f, advantagesOnly);
    }
  }

  /** Batches of 84x84 Atari frames with four stacked planes and six actions: every
      backbone answers six values per frame, and the large network's encoding
      leaves 14x14 = 196 attention locations; the large network of model size 0
      fails. */
  lemma AtariFrames(modelSize: nat, setting: SpectralNormSetting, advantagesOnly: bool)
    ensures Forward(NatureCNN(4, 6), [4, 84, 84], advantagesOnly) == Some([6])
    ensures Forward(DuelingNatureCNN(4, 6), [4, 84, 84], advantagesOnly) == Some([6])
    ensures Forward(ImpalaCNNSmall(4, 6), [4, 84, 84], advantagesOnly) == Some([6])
    ensures Forward(ImpalaCNNLarge(4, 6, modelSize, setting), [4, 84, 84], advantagesOnly)
         == if modelSize >= 1 then Some([6]) else None
    ensures Run(EncoderLayers(4, 16 * modelSize), [4, 84, 84])
         == if modelSize >= 1 then Some([32 * modelSize, 14, 14]) else None
  {
    var x: Shape := [4, 84, 84];
    assert NatureAccepts(4, x) by {
      NatureAcceptsSquare(4, 4, 84);
    }
    assert Forward(NatureCNN(4, 6), x, advantagesOnly) == Some([6]) by {
      NatureCNNShape(4, 6, x, advantagesOnly);
    }
    assert Forward(DuelingNatureCNN(4, 6), x, advantagesOnly) == Some([6]) by {
      DuelingNatureCNNShape(4, 6, x, advantagesOnly);
    }
    assert Forward(ImpalaCNNSmall(4, 6), x, advantagesOnly) == Some([6]) by {
      ImpalaCNNSmallShape(4, 6, x, advantagesOnly);
    }
    assert Forward(ImpalaCNNLarge(4, 6, modelSize, setting), x, advantagesOnly)
        == if modelSize >= 1 then Some([6]) else None by {
      ImpalaCNNLargeShape(4, 6, modelSize, setting, x, advantagesOnly);
    }
    assert Run(EncoderLayers(4, 16 * modelSize), x)
        == if modelSize >= 1 then Some([32 * modelSize, 14, 14]) else None by {
      HumanUnderstandableEncodingShape(4, 16 * modelSize, x);
      assert x[1] / 6 == 14 && x[2] / 6 == 14;
      assert 2 * (16 * modelSize) == 32 * modelSize;
    }
  }
}
