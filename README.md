# Interpretable-feature-extractor DQN networks, modelled in Dafny

This project models `common/networks.py`, the network definitions of a
Rainbow-style DQN agent whose large IMPALA backbone begins with an attention
encoder. The model covers:

- the factorized noisy linear layer (`FactorizedNoisyLinear`). It is a class
  whose noise buffers `reset_noise` and `disable_noise` overwrite in place.
- the dueling heads (`Dueling`, `DuelingAlt`). Each row is recombined as
  Q = V + (A - mean(A)).
- soft attention (`SolfAttention`) and the encoder that uses it
  (`HumanUnderstandableEncoding`). The encoder is a class whose field `att`
  keeps the attention weights of the latest call.
- the shape wiring of the backbones `NatureCNN`, `DuelingNatureCNN`,
  `ImpalaCNNSmall` and `ImpalaCNNLarge`, and of `ImpalaCNNResidual` and
  `ImpalaCNNBlock`. The model computes the shapes the layer lists produce, with PyTorch's
  output-size rule floor((n + 2p - k) / s) + 1. It proves which input frames
  each network accepts, and that the hard-coded widths 3136, 1152 and
  2048 * model_size equal what the trunks produce.
- the choice of which residual blocks get spectral normalisation.
- `get_model`, including the base-10 `int` that reads the model size.

Tensors are sequences of `real`. The exponential and the square root are
function parameters, constrained only by the properties the proofs need.
Random draws are method inputs.

Modules:

- `wrappers.dfy`: `Option`.
- `tensors.dfy`: vector arithmetic and row-major indexing.
- `noisy_linear.dfy`: `FactorizedNoisyLinear`.
- `dueling.dfy`: the dueling heads.
- `attention.dfy`: softmax, `SolfAttention` and the `HumanUnderstandableEncoding` class.
- `backbones.dfy`: shapes of the layers and backbones, and spectral norm selection.
- `model_factory.dfy`: `int` and `get_model`.

Where the code and its own documentation differ, the model follows the code:

- The docstrings of `NatureCNN` and `DuelingNatureCNN` say that these networks
  only work with 84x84 frames. The arithmetic accepts every square side from 84
  to 91, and some non-square frames as well (`Backbones.NatureAcceptsSquare`).
- `get_model` returns `None` for an unknown name. It does not raise.
- A `spectral_norm` argument of `True` normalises no block. Only the strings
  "last" and "all" select blocks.
- The attention encoder does not keep the spatial size of the frame. Its
  convolutions divide height and width by six and set the channel count to
  2 * channels_step (`Backbones.HumanUnderstandableEncodingShape`).

## Model

| member | source | states |
|---|---|---|
| NoisyLinear.NoiseTransform | common/networks.py:45-48 | f(x) = sgn(x) sqrt(abs(x)) keeps the sign of x, so f(0) = 0, and f(x) * f(x) = abs(x) |
| NoisyLinear.NoiseTransformUnique | common/networks.py:45-48 | the two facts above determine f(x): any value with the sign of x whose square is abs(x) equals f(x) |
| NoisyLinear.GetNoise | common/networks.py:45-48 | `_get_noise` returns one value per draw; each keeps its draw's sign and squares to the draw's absolute value |
| NoisyLinear.FactorizedLinear | common/networks.py:51-69 | the layer with weight noise eps_out ⊗ eps_in and bias noise eps_out equals the factorized form mu_W x + mu_b + eps_out * (sigma_W (eps_in * x) + sigma_b) |
| NoisyLinear.DotPerturbRow | common/networks.py:63-69 | one output row: perturbing by e * eps_in adds e times sigma · (eps_in * x) to mu · x |
| NoisyLinear.NoiselessLinear | common/networks.py:59-69 | with all-zero noise, forward is the plain linear map x ↦ mu_W x + mu_b |
| NoisyLinear.InitScale | common/networks.py:34-36 | scale = 1/sqrt(in_features) is positive and scale² · in_features = 1 |
| NoisyLinear.UniformInitRange | common/networks.py:38-39 | unit draws in [0, 1) land in [-scale, scale) and keep their order |
| NoisyLinear.FactorizedNoisyLinear.Forward | common/networks.py:63-69 | forward maps in_features inputs to out_features outputs through weight mu + sigma * eps and bias formed the same way |
| NoisyLinear.FactorizedNoisyLinear.constructor | common/networks.py:14-31 | the buffers have shapes (out, in) and (out) and are distinct; the state is what reset_parameters and then reset_noise leave |
| NoisyLinear.FactorizedNoisyLinear.ResetParameters | common/networks.py:33-42 | the means become uniform in [-s, s) with s = 1/sqrt(in_features); both sigmas become sigma_0 * s; the noise buffers keep their contents |
| NoisyLinear.FactorizedNoisyLinear.ResetNoise | common/networks.py:50-56 | weight_epsilon becomes f(eps_out) ⊗ f(eps_in) and bias_epsilon becomes f(eps_out); the parameters are unchanged; forward becomes the factorized form |
| NoisyLinear.FactorizedNoisyLinear.DisableNoise | common/networks.py:58-61 | both noise buffers become all-zero, whatever they held before, so a second call changes nothing; parameters unchanged; forward becomes the plain linear map on the means |
| NoisyLinear.CopyMatrix | common/networks.py:55 | the in-place `copy_` leaves the buffer equal to the given matrix |
| NoisyLinear.CopyVector | common/networks.py:56 | the in-place `copy_` leaves the buffer equal to the given vector |
| Tensors.MeanAddConst | common/networks.py:86 | adding c to every advantage adds c to their mean |
| Tensors.SumScale | common/networks.py:327 | scaling every entry scales the sum (used to normalise the softmax) |
| Dueling.Combine | common/networks.py:86 | one row of V + (A - mean(A)): it has one entry per action, its mean is V when there is an action, and differences between actions are those of A; with no actions the row is empty |
| Dueling.CombineShiftInvariant | common/networks.py:86 | adding a constant to every advantage of a row leaves Q unchanged |
| Dueling.CombineDeterminesValue | common/networks.py:86 | equal Q rows come from equal values |
| Dueling.CombinePreservesArgmax | common/networks.py:86 | an action is greedy for Q exactly when it is greedy for the advantages |
| Dueling.DuelingForward | common/networks.py:79-86 | with advantages_only the advantage branch's output is returned unchanged; otherwise every row has one entry per action, mean V (when there is an action) and the advantages' differences |
| Dueling.GreedyActionAgrees | common/networks.py:79-86 | the advantages-only path and the full head pick the same greedy actions |
| Dueling.DuelingAltForward | common/networks.py:100-104 | column 0 is the value and columns 1.. are the advantages; the output has one column fewer, mean V, and the advantages' differences, whatever advantages_only is; a final stage without columns gives empty rows |
| Dueling.DuelingAltIsDueling | common/networks.py:79-104 | when the final stage emits [V] + A, DuelingAlt computes the full Dueling output |
| Attention.Exps | common/networks.py:327 | the exponentiated scores are positive |
| Attention.Normalize | common/networks.py:327 | dividing positive entries by their total gives positive weights that sum to 1 |
| Attention.Softmax | common/networks.py:312-327 | softmax weights are positive and sum to 1 over a non-empty set of locations |
| Attention.SoftmaxProportional | common/networks.py:327 | the weights of two locations are in the ratio of their exponentiated scores |
| Attention.Attend | common/networks.py:316-330 | alpha is the softmax of the location scores; each location's vector is scaled by its own weight, so the output has the input's shape |
| Attention.SoftAttention | common/networks.py:316-330 | `SolfAttention.forward` on a batch is `Attend` on every batch element |
| Attention.Score | common/networks.py:324-326 | the score of one location: full_att applied to the ReLU of encoder_att (no contract of its own; `Attend` and `Softmax` state what is done with the scores) |
| Attention.ToLocations | common/networks.py:285-289 | the permute/view turns a (C, H, W) map into H*W location rows of C features |
| Attention.ToLocationsAt | common/networks.py:285-289 | entry (ci, i, j) of the map is feature ci of location row i*W + j |
| Attention.FromLocations | common/networks.py:292-293 | the reshape/permute turns H*W location rows back into a (C, H, W) map |
| Attention.FromLocationsAt | common/networks.py:292-293 | entry (ci, i, j) of the restored map is feature ci of row i*W + j |
| Attention.LayoutRoundTrip | common/networks.py:285-293 | restoring the layout after the location view gives back the original map |
| Attention.LocationsRoundTrip | common/networks.py:285-293 | the location view of a restored map gives back the rows |
| Attention.Locations | common/networks.py:285-289 | the batch's location views, element by element |
| Attention.Encode | common/networks.py:285-295 | the encoder's output has the map's shape; its weights are the softmax over the H*W locations, positive and summing to 1 |
| Attention.EncodeScales | common/networks.py:285-295 | entry (ci, i, j) of the output is the input entry times the weight of location (i, j) |
| Attention.HumanUnderstandableEncoding.constructor | common/networks.py:268-280 | the attention works on 2 * channels_step features and `att` starts empty |
| Attention.HumanUnderstandableEncoding.Forward | common/networks.py:282-295 | on a non-empty batch, each output map is `Encode` of its input, and `att` is overwritten with the weights of this call, which are SolfAttention's alpha over the batch |
| Backbones.RunFromAppend | common/networks.py:114-125 | a concatenated layer list computes the first part's shape, then the second part's on it |
| Backbones.RunFromSuffix | common/networks.py:114-125 | the positions of a + b past the end of a behave as the positions of b |
| Backbones.RunAppend | common/networks.py:261-263 | a Sequential followed by another acts as the first, then the second |
| Backbones.ConvShape | common/networks.py:115-119 | `nn.Conv2d` on (C, H, W) is defined exactly when C is its input depth, it has an output channel and both windows fit; the result is (out, H', W') with PyTorch's output-size rule |
| Backbones.MaxPoolShape | common/networks.py:217 | `nn.MaxPool2d` is defined exactly on inputs with a channel, where its windows fit and the padding is at most half the kernel; it keeps the channel count |
| Backbones.ResidualShape | common/networks.py:201-207 | when the residual block is defined, its output has its input's shape, whose depth is the block's, at least one |
| Backbones.DuelingShape | common/networks.py:79-86 | the advantage branch always runs on the flattened features; with advantages_only its output is returned; otherwise the value branch must run too |
| Backbones.Forward | common/networks.py:127-128 | a network answers only when its trunk does, and a plain network ignores advantages_only |
| Backbones.NatureCNN | common/networks.py:111-125 | the layer list of `NatureCNN.main` (its shapes are stated by `NatureCNNShape`) |
| Backbones.DuelingNatureCNN | common/networks.py:136-155 | the trunk and dueling branches of `DuelingNatureCNN` (shapes stated by `DuelingNatureCNNShape`) |
| Backbones.ImpalaCNNSmall | common/networks.py:166-185 | the trunk and dueling branches of `ImpalaCNNSmall` (shapes stated by `ImpalaCNNSmallShape`) |
| Backbones.ImpalaCNNBlock | common/networks.py:213-226 | the layers of `ImpalaCNNBlock` (shapes stated by `ImpalaCNNBlockShape`) |
| Backbones.EncoderLayers | common/networks.py:268-295 | the convolutions and attention of the encoder (shapes stated by `HumanUnderstandableEncodingShape`) |
| Backbones.FeatureExtractor | common/networks.py:244-250 | the layers of `ImpalaCNNLarge.AFE` (shapes stated by `FeatureExtractorShape`, block selection by `FeatureExtractorNorms`) |
| Backbones.ImpalaCNNLarge | common/networks.py:233-265 | the encoder, extractor and dueling branches of `ImpalaCNNLarge` (shapes stated by `ImpalaCNNLargeShape`) |
| Backbones.ResidualPreservesShape | common/networks.py:193-207 | a residual block of depth ≥ 1 maps a (depth, H, W) input with H, W ≥ 1 to the same shape; it fails on every other input and at depth 0, with or without spectral norm |
| Backbones.ImpalaCNNBlockShape | common/networks.py:209-226 | for depth_out ≥ 1 the block turns (depth_in, H, W) with H, W ≥ 1 into (depth_out, ceil(H/2), ceil(W/2)); it fails on every other input and for depth_out 0 |
| Backbones.NatureSide | common/networks.py:115-119 | the three Nature convolutions accept a side n exactly when n ≥ 36, and leave 7 exactly when 84 ≤ n ≤ 91 |
| Backbones.NatureTrunkShape | common/networks.py:114-120 | the Nature trunk turns (depth, H, W) into 64 maps of the reduced size, and fails on every other input |
| Backbones.MlpShape | common/networks.py:149-154 | the two dense layers accept exactly vectors of their input width and yield their output width |
| Backbones.DuelingBranchesShape | common/networks.py:148-155 | a dueling head returns one value per action, with or without the value branch, exactly when the flattened features have the width its branches expect |
| Backbones.ProductOfThree | common/networks.py:121 | flattening (C, H, W) gives C·H·W features |
| Backbones.NatureAcceptsSquare | common/networks.py:106-122 | on square frames the 3136-wide classifier fits exactly for sides 84 to 91 |
| Backbones.NatureCNNShape | common/networks.py:106-128 | NatureCNN returns one value per action exactly on the accepted frames; advantages_only is ignored |
| Backbones.DuelingNatureCNNShape | common/networks.py:131-159 | DuelingNatureCNN accepts the same frames and returns one value per action for both values of advantages_only |
| Backbones.ImpalaSmallTrunkShape | common/networks.py:169-176 | the small trunk accepts frames of its depth with H, W ≥ 20 and always yields 32 maps of 6x6 |
| Backbones.ImpalaCNNSmallShape | common/networks.py:162-190 | 32·6·6 = 1152: ImpalaCNNSmall returns one value per action exactly on frames of its depth with H, W ≥ 20 |
| Backbones.HumanUnderstandableEncodingShape | common/networks.py:267-295 | for channels_step ≥ 1 the encoder needs H, W ≥ 6 and yields 2 * channels_step maps of floor(H/6) x floor(W/6); with channels_step 0 its first convolution fails |
| Backbones.FeatureExtractorShape | common/networks.py:244-250 | for model_size ≥ 1 the extractor turns any non-empty 32 * model_size-map input into 32 * model_size maps of 8x8, whatever the spectral norm selection; for model_size 0 the layer list, where it can be built at all, fails at its pooling, which has no channels |
| Backbones.ImpalaCNNLargeShape | common/networks.py:229-265 | 2·16·model_size channels · 8 · 8 = 2048 · model_size: ImpalaCNNLarge returns one value per action exactly on frames of its depth with H, W ≥ 6 when model_size ≥ 1, for every spectral norm setting, and the layer list of model_size 0 fails on every frame (with "last" or "all" it is not even built: `ModelFactory.Instantiate`) |
| Backbones.NormSelection | common/networks.py:238-239 | "all" wraps both blocks, "last" only the second, and every other setting (True, False, other strings) neither |
| Backbones.FeatureExtractorNorms | common/networks.py:238-247 | the extractor's first residual block is normalised exactly for "all" and its second exactly for "last" or "all"; a boolean setting normalises neither |
| Backbones.AtariFrames | common/networks.py:106-265 | on 4x84x84 frames with 6 actions the three fixed backbones return 6 values; the large one does for model_size ≥ 1, when its encoder leaves 14x14 attention locations, and fails for model_size 0 |
| ModelFactory.NatString | common/networks.py:337 | the decimal numeral of n is a well-formed digit string whose value is n |
| ModelFactory.ParseDecimalString | common/networks.py:337 | int(str(k)) == k for every integer k that `str` can write (at most 4300 digits) |
| ModelFactory.ParseIntDigitLimit | common/networks.py:337 | a literal of more than 4300 digits raises ValueError, whatever its value |
| ModelFactory.ParseInt | common/networks.py:337 | `int(text)` in base 10 (its properties are stated by `ParseDecimalString`, `ParseIntPadded` and `ParseIntDigitLimit`) |
| ModelFactory.ParseIntPadded | common/networks.py:337 | white space around the text does not change what `int` reads |
| ModelFactory.StripPadded | common/networks.py:337 | stripping ignores white space added at either end |
| ModelFactory.GetModel | common/networks.py:332-337 | each fixed name maps to its backbone and only that name does; the "impala_large:" prefix gives the large net with model size int(suffix) and the given spectral norm, or ValueError when the suffix is not an integer within the digit limit; any other name returns None |
| ModelFactory.GetModelLarge | common/networks.py:336-337 | "impala_large:" followed by str(k) selects the large network of size k |
| ModelFactory.GetModelDigitLimit | common/networks.py:336-337 | "impala_large:" followed by more than 4300 digits raises ValueError |
| ModelFactory.Instantiate | common/networks.py:201-247 | a returned backbone builds a network except for a negative model size, and for model size 0 under the settings "last" and "all", where the spectral norm of a zero-channel convolution raises |
| ModelFactory.GetModelLargeShape | common/networks.py:229-337 | for k ≥ 1, "impala_large:k" builds a network that returns one value per action on every frame of its depth with H, W ≥ 6; for k = 0 construction raises under "last" and "all", and under every other setting the network is built and fails on every frame |

## Left out

- Convolution, pooling, ReLU and `nn.Linear` numerics inside the backbones. These are PyTorch library code. The backbones are modelled at the level of shapes of one batch element.
- The batch dimension of the backbone shapes.
- Numerics of the encoder's convolutions and their ReLU-gain weight rescaling. `HumanUnderstandableEncoding.Forward` receives the convolutions' output.
- Random initialisation and noise. `init.uniform_` and `torch.randn` draws are method inputs.
- The power iteration of `torch.nn.utils.spectral_norm`. Only the choice of wrapped blocks is modelled, and it does not change shapes.
- IEEE floating point. Arithmetic is over `real`, and `exp` and `sqrt` are parameters.
- The maximum subtraction PyTorch's softmax does for stability. It does not change the exact result.
- Autograd, `@torch.no_grad`, devices and module registration.
- Choosing between a plain and a noisy `linear_layer`. Both have the same shapes.
- `NoisyLinear.FactorizedNoisyLinear.constructor`: requires in_features > 0, because the source divides by sqrt(0) and raises `ZeroDivisionError` otherwise.
- `NoisyLinear.FactorizedNoisyLinear.ResetParameters`: requires in_features > 0, for the same reason.
- `Dueling.DuelingForward` and `Dueling.DuelingAltForward`: with no actions the mean over the empty advantages is NaN, but it is broadcast against no entries, so the result is an empty row. The model returns that empty row; it does not model the NaN.
- `Attention.HumanUnderstandableEncoding.Forward`: requires a non-empty batch and at least one channel, because `view(batch_size, -1, features_dim)` at networks.py:290 cannot infer its length when the batch size or the channel count is zero, and raises. Maps without locations are accepted and give empty outputs.
- `Backbones.DuelingShape`: broadcasts only shapes of equal rank, which is all the heads produce.
- `ModelFactory.ParseInt`: rejects non-ASCII decimal digits, which Python's `int` accepts. The 4300-digit limit is CPython's default `sys.int_max_str_digits`; changing it at run time is not modelled.
- `ModelFactory.GetModel`: inherits both limits of `ParseInt` above.
- `ModelFactory.ParseDecimalString`, `ModelFactory.GetModelLarge` and `ModelFactory.GetModelLargeShape`: require k to have at most 4300 digits, because `str(k)` raises beyond that.
- `ModelFactory.Instantiate`: with model size 0 and a plain `linear_layer`, the network is built unless "last" or "all" asks for spectral normalisation; its forward then fails at the first convolution, which has no output channels (`GetModelLargeShape`). That a noisy `linear_layer` with zero inputs also raises at construction (networks.py:36) is not modelled.
- Layers with zero channels: a convolution without output channels and a pooling layer on an input without channels fail, as PyTorch's shape checks do. A convolution whose input has no channels is accepted by the model; this only arises for `depth` 0, which no caller passes.
- `eval.py` and `script.py` (environment loop, checkpoints, process launching) are not part of this model.
