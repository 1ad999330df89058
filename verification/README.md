# PiT with dynamic token pruning — a Dafny model of the policy machinery

`pit.py` defines a Pooling-based Vision Transformer (PiT). It adds a learned,
per-image token-pruning mechanism:

- At configured block indices of each transformer stage, a multi-head
  predictor scores every spatial token.
- A hard Gumbel sample decides which tokens to keep.
- The resulting 0/1 *policy* is multiplied into the previous one and passed
  to the blocks.
- Attention then renormalises its weights so that dropped keys are ignored.

This project models that machinery, one batch item at a time:

- `Attention` (attention.dfy) models `Attention.softmax_with_policy` and the
  branch in `Attention.forward` that chooses plain softmax, masked softmax
  with `eps = 0` (evaluation) or with `eps = 1e-6` (training). One query row
  is modelled; the exponentials are an arbitrary list of positive reals.
- `Masks` (masks.dfy) defines policies as lists of 0/1 naturals, the pruning
  product `hard_keep_decision = sample * prev_decision`, and the
  `test_irregular_sparsity` counts.
- `Stage` (stage.dfy) models `Transformer.forward` as a fold over the
  blocks. The fold records:
  - the policy every block runs with;
  - the previous decision;
  - the predictor counter `p_count`;
  - the training decision list;
  - the evaluation sparsity records.
- `Predictor` (predictor.dfy) models the head channel slices of
  `MultiheadPredictorLG.forward` and its policy-weighted mean of the kept
  tokens.
- `Backbone` (backbone.dfy) models:
  - the parts of `PoolingTransformer.__init__` that matter here: the width
    formula, the drop-path schedule, per-stage configuration, the pooling
    count and the exceptions pit.py itself raises during construction
    (among them the `NameError` of `DropPath`, which is used at pit.py:93
    but never imported);
  - `forward_features`, which threads a fresh all-ones policy into each stage
    run and concatenates the decision lists. It raises a shape error when a
    predictor's per-head width is odd, or when the last transformer or the
    final norm receives a channel width it was not built for.
- `Poisoning` (poisoning.dfy) models the code as written where it departs
  from the evident intent. When a previous decision has dropped every
  spatial token, the predictor's global summary divides 0 by 0
  (pit.py:224). Every decision from then on is NaN, in that stage run and
  in every later one. `Stage` models the intended behaviour, in which an
  all-dropped decision stays all-dropped; `Poisoning` relates the two (see
  "## Findings").
- `Common` and `Reals` hold shared datatypes (`Option`, `Result`, `Mode`),
  list flattening, and real-valued sums and normalisation.

External randomness is a parameter:

- The Gumbel hard sample is a `Stage.Sampler`, `keep(p, t)`: the keep bit
  drawn by the stage's `p`-th predictor for spatial token `t`.
- The backbone takes one sampler per stage run.
- The input image enters as its patch grid, the `h` and `w` the patch
  embedding produces (`Backbone.PatchGrid`). Adding the position embedding
  (`width × width`) checks that grid, and the first stage run's spatial size
  is what the add produces.
- The spatial size `h * w` of every later stage run (produced by a pooling
  layer's convolution) is a parameter.

## Model

| member | source | states |
|---|---|---|
| Attention.KeyMask | pit.py:53-55 | the effective mask entry is 1 on the diagonal (a query always keeps itself) and the key's policy value elsewhere |
| Attention.MaskedExp | pit.py:59 | the masked exponentials of one query row; it has no contract of its own, and Attention.MaskedExpEntries states its entries |
| Attention.MaskedExpEntries | pit.py:53-59 | the query's own exponential is kept whatever its policy entry; every other key's exponential is multiplied by that key's policy entry |
| Attention.Denominator | pit.py:59-60 | the normaliser is at least the query's own exponential plus eps, hence positive even when every other key is dropped |
| Attention.Weights | pit.py:50-61 | the masked, eps-smoothed weights of one query row have one entry per key and sum to exactly 1 |
| Attention.UnsmoothedIsNormalised | pit.py:59-60 | with eps = 0 the weights are the masked exponentials divided by their (positive) sum |
| Attention.ZeroWeightIff | pit.py:53-60 | in evaluation (eps = 0) a key gets weight 0 exactly when it is another token whose policy is 0 |
| Attention.SmoothedWeightsPositive | pit.py:60 | in training (eps > 0) every key, dropped or not, gets a strictly positive weight |
| Attention.DroppedBelowKept | pit.py:53-60 | for any eps, all dropped keys of a query share one weight, strictly below that of every kept key and of the query itself |
| Attention.AllKeepIsSoftmax | pit.py:70-73 | with the all-keep policy and eps = 0 the masked softmax equals the plain softmax |
| Attention.ScaleInvariant | pit.py:56-59 | multiplying all exponentials by a positive constant (subtracting the row maximum) leaves the eps = 0 weights unchanged |
| Attention.Softmax | pit.py:70-71 | the plain softmax of a row sums to 1 |
| Attention.AttentionRow | pit.py:70-75 | whichever branch applies (no policy, evaluation, training), the row of attention weights sums to 1 |
| Masks.Ones | pit.py:152 | the all-ones policy has the requested length and keeps every token |
| Masks.Prune | pit.py:149 | the new decision has the old length; an entry is 0 exactly when the token was already dropped or the sample drops it; it never exceeds the old entry, and 0/1 stays 0/1 |
| Masks.Sparsity | pit.py:588-600 | zeros plus non-zeros is the policy length, and there are no zeros exactly when no entry is 0 |
| Masks.CountsPartition | pit.py:591-593 | every entry is counted once, as zero or as non-zero |
| Stage.Init | pit.py:138-143 | the loop variables before the first block; it has no contract of its own, and Stage.RunShape at `n = 0` states them: counter 0, no decisions or records, `prev_decision` the spatial part of the input policy |
| Stage.Step | pit.py:146-167 | one loop iteration; it has no contract of its own, and Stage.StepShape, Stage.PruningBlock and Stage.PassThrough state what it does to the state and to the block's policy |
| Stage.Run | pit.py:145-167 | the loop over the blocks as a fold of Stage.Step; it has no contract of its own, and the Stage lemmas below state its properties |
| Stage.Locations | pit.py:145 | the pruning blocks below `n` are exactly the indices `i < n` listed in `pruning_loc`, strictly increasing |
| Stage.RunShape | pit.py:138-167 | after `n` blocks every block has a full-length policy, `prev_decision` is the spatial part of the current policy, `p_count` counts the pruning blocks met, and there is one decision (training) or one sparsity record (evaluation) per pruning block |
| Stage.RunPrefix | pit.py:145-167 | running more blocks only appends to the list of block policies |
| Stage.PassThrough | pit.py:166-167 | a non-pruning block runs with the policy of the block before it, or with the stage input if it is first |
| Stage.PruningBlock | pit.py:146-158 | a pruning block runs with ones on the class tokens and, on each spatial token, its previous entry if the current predictor's sample keeps it, else 0 |
| Stage.SpatialMonotone | pit.py:149-162 | within a stage a later block's spatial policy is entry-wise at most an earlier one's and at most the input's, so a dropped token stays dropped |
| Stage.PoliciesValid | pit.py:149-158 | from a valid input (0/1, class tokens 1) every block runs with a valid policy |
| Stage.DecisionsAtLocations | pit.py:145-151 | in training the k-th recorded decision is the spatial policy of the k-th pruning block |
| Stage.SparsityAtLocations | pit.py:154-160 | in evaluation the k-th sparsity record counts the policy of the k-th pruning block |
| Stage.SparsityOfValid | pit.py:588-600 | on a valid policy the sparsity zeros are the dropped spatial tokens only (at most `init_n`) |
| Stage.ModeIndependent | pit.py:146-167 | training and evaluation feed the blocks the same policies; decisions and sparsity records are side products |
| Stage.Forward | pit.py:132-182 | decisions are returned exactly in training, the final policy exactly in training with distillation, with one decision of length `init_n` per pruning block |
| Stage.ForwardContract | pit.py:132-182 | from a valid input the returned decisions are 0/1, never exceed the input, and are the pruning blocks' spatial policies; a returned policy is valid and is the last block's |
| Predictor.HeadSlice | pit.py:220 | head `i` reads `embed_dim // num_heads` channels, all below the width when `i < num_heads` |
| Predictor.SlicesDisjoint | pit.py:220 | no channel is read by two heads |
| Predictor.HeadOfChannel | pit.py:220 | when the head count divides the width, channel `c` is read by head `c / head_dim` |
| Predictor.CoveredIffDivides | pit.py:220 | every channel is read by some head exactly when the head count divides the width |
| Predictor.StagePredictorSlices | pit.py:220 | a stage predictor, built with width `base_dim * heads` (pit.py line 108), gives every head exactly `base_dim` channels and covers the width |
| Predictor.WeightedMean | pit.py:224 | the policy-weighted mean of the global half is undefined (the source's 0/0) exactly when every policy entry is 0 |
| Predictor.PolicyTotalZero | pit.py:224 | a non-negative policy totals 0 exactly when every entry is 0 |
| Predictor.DotKept | pit.py:224 | on a 0/1 policy the weighted sum is the sum of the kept values and the policy total is the number of kept tokens |
| Predictor.WeightedMeanOfKept | pit.py:224 | the global summary is the plain mean of the kept tokens, undefined exactly when no token is kept |
| Backbone.PatchGridWidth | pit.py:271-274 | the width `w` is the number of patch positions: `(w-1)*stride + patch <= image + 2*padding < w*stride + patch` |
| Backbone.WidthIsFloorDivision | pit.py:273-274 | the real-valued floor equals integer floor division, and the width is at least 1 when the patch fits |
| Backbone.LinearRate | pit.py:303 | the rate of one block, `rate * i / total`; it has no contract of its own, and Backbone.RatePositive and Backbone.DropPathLinear state its properties |
| Backbone.RatePositive | pit.py:303 | a block's rate is positive exactly when the global rate is positive and the block is not the network's first |
| Backbone.StageRates | pit.py:303-304 | one rate per block of the stage |
| Backbone.Schedule | pit.py:302-305 | one list per remaining stage, each as long as the stage's depth |
| Backbone.ScheduleAt | pit.py:303-305 | entry `i` of stage `s`'s list is the rate of global block `start + (blocks of the stages before s) + i` |
| Backbone.DropPathSchedule | pit.py:303-305 | one list per stage, of that stage's depth |
| Backbone.DropPathLinear | pit.py:303-305 | flattened over the stages, block `i` of `total` gets `rate * i / total`, which lies in `[0, rate]` for a non-negative rate |
| Backbone.CheckStages | pit.py:302-317 | no error is raised exactly when every remaining stage has its entries, heads for its blocks and predictors, a non-zero head width for its blocks (pit.py:41-43), no block with a positive drop-path rate (pit.py:93), and a next base width for its pooling layer; the head-width and drop-path errors name a stage that has the defect |
| Backbone.PoolCount | pit.py:312 | there are at most as many pooling layers as stages: one fewer when there are as many head entries as stages, one per stage when there are more, and fewer than the head entries |
| Backbone.Assemble | pit.py:292-327 | the built model has one configuration, drop-path list, embedding width `base_dims[s]*heads[s]` and head count per stage; the patch embedding has stage 0's width, pooling layer `s` outputs stage `s+1`'s width, and the final norm has width `base_dims[-1]*heads[-1]` |
| Backbone.Build | pit.py:263-331 | construction succeeds exactly when the stride is non-zero, the first stage's entries exist, the width is non-negative and every stage is buildable (including: no block with a positive drop-path rate); success yields the assembled model, and every pooling layer has a next base width |
| Backbone.DropPathRaises | pit.py:93 | building a stage reaches `DropPath(...)`, which is undefined, exactly when one of the stage's scheduled rates is positive |
| Backbone.BuiltWithoutDropPath | pit.py:93 | in a model that could be built every block's drop-path rate is at most 0 |
| Backbone.BuiltPredictorSlices | pit.py:308 | in a built model every stage with predictors has heads, and each head reads exactly `base_dim` channels |
| Backbone.Executed | pit.py:362-376 | the transformer indices `forward_features` runs: one run per pooling layer, then one more; every index names a stage. Which indices they are is stated by Backbone.ExecutedInOrder and Backbone.ExecutedRepeatsLast |
| Backbone.ExecutedInOrder | pit.py:362-386 | with as many head entries as stages, `forward_features` runs every stage once, in order |
| Backbone.ExecutedRepeatsLast | pit.py:312-386 | with more head entries than stages, every stage runs once, in order, and then the last stage runs again |
| Backbone.StageRun | pit.py:362-386 | a stage run executes its stage from a fresh all-ones policy and returns decisions exactly in training and a policy exactly in training with distillation |
| Backbone.StageDecisions | pit.py:366-384 | one decision list per stage run |
| Backbone.BroadcastSide | pit.py:357 | one side of `x + pos_embed` after broadcasting: the embedding's side `width` unless that is 1, the image's side unless that is 1, and 1 only when both are |
| Backbone.FirstGridSize | pit.py:357-364 | the first stage run's spatial size: `width * width` for any patch grid the add accepts, unless `width` is 1, when it is the patch grid's own `h * w` |
| Backbone.ForwardFeatures | pit.py:352-393 | it succeeds exactly when the position embedding broadcasts with the image's patch grid (equal sides, or a side of 1) and there is a stage and every stage run fits its shapes (Backbone.RunFits); the error is `NoStages` exactly when the add succeeds and there is no stage; decisions are returned exactly in training, and the returned spatial policy has the last run's spatial size |
| Backbone.RunFits | pit.py:223-225 | a stage run raises no shape error: its input width is the one its transformer was built for (unless the transformer has no blocks and no pooling layer follows), its predictors do not split an odd per-head width, and after the last run the final norm accepts the width; it has no contract of its own, and Backbone.BuiltRunsFit states it in configuration terms |
| Backbone.BuiltRunsFit | pit.py:312-388 | a built model with stages runs through exactly when every stage with predictors has an even base width, and the last transformer (if it has blocks) and the final norm accept the width of stage `PoolCount`, which the last run receives |
| Backbone.OddWidthFails | pit.py:223-225 | one stage of base width 3 with a predictor builds, and `forward_features` then fails with a shape error |
| Backbone.RepeatedLastFails | pit.py:312-388 | one stage with two head entries builds, runs transformer 0 twice, and `forward_features` fails with a shape error (64 channels expected, 96 received) |
| Backbone.WrongGridFails | pit.py:281-357 | a 224-pixel model whose shapes agree builds with a 27 × 27 position embedding, and fails with a shape error on the 31 × 31 patch grid of a 256-pixel image |
| Backbone.ConfiguredGridRuns | pit.py:281-364 | the same model runs through on a patch grid whose sides are 27 or 1, and its first stage sees 729 spatial tokens |
| Backbone.StageRunLocal | pit.py:362-378 | a stage run's result depends only on its own spatial size and sampler, because each run starts from a fresh all-ones policy; this holds by the definition of Backbone.StageRun and is recorded as documentation |
| Backbone.TrainingDecisions | pit.py:357-384 | in training the pass succeeds exactly when the position embedding broadcasts and the stage shapes fit (Backbone.PosEmbedFits, Backbone.RunsFit), and then the decision list is the stage lists concatenated in run order, with one 0/1 entry of the stage's spatial size per pruning block of every run |
| Backbone.FinalDecision | pit.py:357-393 | the pass succeeds exactly when the position embedding broadcasts and the stage shapes fit, and then the returned spatial policy is all ones unless training with distillation; then it is the 0/1 policy the last block of the last stage ran with |
| Poisoning.AllDroppedIsZeroDivision | pit.py:224 | a previous decision drops every spatial token exactly when the predictor's global summary divides by a zero policy total |
| Poisoning.RawStep | pit.py:146-167 | one loop iteration as written; it has no contract of its own, and Poisoning.RawMatchesRun states the walk |
| Poisoning.RawRun | pit.py:145-167 | the loop as written; it has no contract of its own, and Poisoning.RawMatchesRun relates it to Stage.Run |
| Poisoning.RawMatchesRun | pit.py:145-165 | the as-written walk keeps the intended counter; its activations are NaN afterwards exactly when they were on entry or some pruning point read an all-dropped decision; each decision and sparsity record is the intended one, or NaN (no zero counted) exactly when the activations were NaN on entry or its own pruning point read an all-dropped decision |
| Poisoning.DroppedStaysDropped | pit.py:149 | in the intended walk, once a pruning point reads an all-dropped decision every later one does too |
| Poisoning.RawForward | pit.py:132-182 | `Transformer.forward` as written; it has no contract of its own, and Poisoning.RawForwardContract states it |
| Poisoning.RawForwardContract | pit.py:132-182 | from a valid input every returned decision is NaN or the intended 0/1 decision; it is NaN exactly when the activations were NaN on entry or its pruning point read an all-dropped decision; NaN never goes away; without NaN the list is the intended one; a returned policy is NaN or the intended one |
| Poisoning.AllDroppedGivesNaN | pit.py:224 | for depth 2, pruning at blocks 0 and 1, one spatial token and a first predictor that drops it, the intended decisions are `[0], [0]` and the as-written ones `[0]`, NaN |
| Poisoning.RawStageRun | pit.py:362-386 | a stage run as written, entered with NaN activations or not; it has no contract of its own |
| Poisoning.RawRuns | pit.py:362-384 | the stage runs as written, the NaN flag carried by the pooling layers into the next run; it has no contract of its own |
| Poisoning.RawForwardFeatures | pit.py:352-393 | `forward_features` as written, with the same errors as Backbone.ForwardFeatures (the position embedding's add first); it has no contract of its own, and the two lemmas below state it |
| Poisoning.RawTrainingDecisions | pit.py:357-384 | in training the as-written pass succeeds exactly when the position embedding broadcasts and the stage shapes fit, and the as-written list is, run by run and entry by entry, the intended one, except that an entry is NaN exactly when an earlier stage run or the entry's own pruning point met an all-dropped decision |
| Poisoning.NaNPersists | pit.py:362-384 | once an entry of the as-written list is NaN, every later entry is, in the same run and in every later one |
| Poisoning.RawFinalDecision | pit.py:357-393 | the as-written and intended passes succeed exactly when the position embedding broadcasts and the stage shapes fit; then the returned spatial policy as written is all ones unless training with distillation; then it is the intended policy, or NaN exactly when the last run has a pruning point and an earlier run or one of its own pruning points met an all-dropped decision |

## Left out

- The numeric layers are not modelled: attention projections, MLP, layer
  norms, the predictor's linear layers and LogSoftmax, convolutions, and
  pooling. Only the policies these layers receive are modelled.
- Attention.AttentionRow: one query row and one head are modelled. Heads
  differ only in their scores, which are an input here.
- Exponentials and floating point: the weights are exact reals. Rounding
  and the float32 cast are left out.
- The Gumbel sampling is external randomness, so it is a sampler parameter.
  The predictor scores it would be drawn from are not modelled.
- The JSON dump of scores and the `print` in `test_irregular_sparsity` are
  output only.
- Dropout and stochastic depth are randomness on activations. Only the
  drop-path *rates* are modelled. `DropPath` is never imported, so a
  positive rate fails construction (`ConfigError.UndefinedDropPath`).
- Teacher models, model factories, checkpoint loading and the classifier
  head are outside the policy machinery.
- `token_ratio` is accepted and stored but never read by the forward pass.
  Only its per-stage entry requirement is modelled.
- The batch dimension is not modelled; every batch item is handled the same
  way.
- `Transformer.__init__` never stores `pruning_loc` or `distill`, although
  `forward` reads them. `Stage.Config` carries them explicitly, as the
  forward pass evidently expects.
- `test_irregular_sparsity` uses `np`, which the module never imports. The
  counts are modelled as intended.
- Stage.Forward: the backbone always passes `ones(h*w + 1)` (pit.py:364,
  377), so the input policy is required to have `tl + h*w` entries; other
  lengths are not modelled.
- Predictor.WeightedMeanOfKept: a policy with no kept token gives `0/0`
  (NaN) in floating point. Here it is `None`.
- Backbone.Build: the layer library's own argument checks are not modelled.
  These include convolution group divisibility and a positive channel count
  for the pooling layers.
- Backbone.Build: a zero head count is rejected only where it is divided by:
  a stage with blocks or predictors.
- Backbone.ForwardFeatures: every shape failure is one `ShapeError`. In
  pit.py they are all `RuntimeError`s, and which layer raises first when
  both a width mismatch and an odd per-head width apply is not modelled.
  The numeric layers' own size rules beyond channel widths (for example a
  zero-width linear layer in the predictor) are not modelled either.
- Backbone.ForwardFeatures: the image enters as its patch grid. The patch
  embedding's convolution from image to grid is not modelled; for an image
  of the configured `image_size` it gives `width × width`, by the formula of
  Backbone.PatchGridWidth. The later stage runs' spatial sizes are
  parameters, because the pooling convolutions are not modelled.
- Backbone.Build: construction with an empty `depth` list succeeds.
  `forward_features` then fails (`transformers[-1]`), which is
  `ForwardError.NoStages`.
- Attention.AllKeepIsSoftmax: with the all-keep policy, the plain softmax is
  matched only for `eps = 0`. With `eps = 1e-6` the code gives
  `(a[j] + eps/N) / (sum a + eps)`, which differs from `a[j] / sum a` unless
  every exponential is equal.
- Stage.SpatialMonotone: holds for pit.py only until a pruning point reads
  an all-dropped decision. From there the source's decisions are NaN (see
  "## Findings"); Poisoning.RawMatchesRun states that behaviour.
- Stage.PoliciesValid: the policies stay 0/1 in pit.py only until a pruning
  point reads an all-dropped decision; from there they are NaN (see
  "## Findings" and Poisoning.RawMatchesRun).
- Stage.ForwardContract: the returned decisions are 0/1 in pit.py only
  while no pruning point reads an all-dropped decision; otherwise they are
  NaN from that point on (see Poisoning.RawForwardContract).
- Backbone.TrainingDecisions: the entries are 0/1 in pit.py only until some
  pruning point of some stage run reads an all-dropped decision; from there
  every entry is NaN (see Poisoning.RawTrainingDecisions).
- Backbone.FinalDecision: the returned policy is 0/1 in pit.py only while
  no pruning point reads an all-dropped decision (see
  Poisoning.RawFinalDecision).
- NaN is modelled as all-or-nothing per decision (`Poisoning.Value`). Other
  floating-point failures, such as overflow in the exponentials, are not
  modelled.

## Findings

| source | as written | input that shows it | evidently intended | confidence | as-written member | corrected member |
|---|---|---|---|---|---|---|
| pit.py:224 | the global summary divides by the policy total, which is 0 once a previous decision has dropped every spatial token; the NaN scores make the hard Gumbel sample and `hard_keep_decision` (pit.py:149) NaN, and NaN reaches every later activation and decision | depth 2, `pruning_loc = [0, 1]`, one spatial token, the first predictor drops it: the decisions are `[0]`, then NaN | an all-dropped decision stays all-dropped: later decisions are 0 and every policy stays 0/1 | medium, not executed | Poisoning.AllDroppedGivesNaN | Stage.SpatialMonotone |
