/** The multi-stage backbone (`PoolingTransformer`): construction-time
    arithmetic (patch-grid width, drop-path schedule, configuration errors)
    and the threading of policies and decision lists through the stages in
    `forward_features`.  Patch embedding, pooling, normalisation and the
    classifier are numeric collaborators and are not modelled.  The patch
    grid of the input image is a parameter: the position embedding's add
    checks it and fixes the first stage's spatial size.  The spatial sizes
    the pooling layers produce are parameters too. */
module Backbone {
  import opened Common
  import opened Masks
  import Stage
  import Predictor

  /** `cls_token` has shape (1, 1, C): one class token. */
  const ClassTokens: nat := 1

  /** The patch embedding uses no padding (pit.py:270). */
  const Padding: int := 0

  /** `math.floor((image_size + 2 * padding - patch_size) / stride + 1)`
      (pit.py:273-274), with Python's true division as real division.  The
      result is the number of placements of the patch window: placement
      `w - 1` still fits inside the padded image and placement `w` does not. */
  function PatchGridWidth(imageSize: int, patchSize: int, stride: nat): (w: int)
    requires stride > 0
    ensures (w - 1) * stride + patchSize <= imageSize + 2 * Padding
    ensures imageSize + 2 * Padding < w * stride + patchSize
  {
    var n := imageSize + 2 * Padding - patchSize;
    var x := (n as real) / (stride as real);
    var w := (x + 1.0).Floor;
    FloorBounds(n, stride, w - 1);
    w
  }

  lemma FloorBounds(n: int, s: nat, q: int)
    requires s > 0
    requires q as real <= (n as real) / (s as real) < (q + 1) as real
    ensures q * s <= n < (q + 1) * s
  {
    var x := (n as real) / (s as real);
    assert x * (s as real) == n as real;
    assert (q as real) * (s as real) <= x * (s as real);
    assert x * (s as real) < ((q + 1) as real) * (s as real);
    assert ((q * s) as real) == (q as real) * (s as real);
    assert (((q + 1) * s) as real) == ((q + 1) as real) * (s as real);
  }

  /** The floor of the real quotient is integer floor division: the width
      is `(image_size - patch_size) // stride + 1`, and at least 1 whenever
      the patch fits in the image. */
  lemma WidthIsFloorDivision(imageSize: int, patchSize: int, stride: nat)
    requires stride > 0
    ensures PatchGridWidth(imageSize, patchSize, stride) == (imageSize + 2 * Padding - patchSize) / stride + 1
    ensures patchSize <= imageSize ==> PatchGridWidth(imageSize, patchSize, stride) >= 1
  {
    var n := imageSize + 2 * Padding - patchSize;
    var w := PatchGridWidth(imageSize, patchSize, stride);
    var q := n / stride;
    assert q * stride <= n < (q + 1) * stride;
    if w - 1 < q {
      MulLe(w, q, stride);
      assert false;
    } else if w - 1 > q {
      MulLe(q + 1, w - 1, stride);
      assert false;
    }
  }

  lemma MulLe(a: int, b: int, s: nat)
    requires a <= b
    ensures a * s <= b * s
  {
    assert b * s - a * s == (b - a) * s;
  }

  /** Sum of the stage depths (`sum(depth)`). */
  function TotalDepth(ds: seq<nat>): nat
    decreases |ds|
  {
    if |ds| == 0 then 0 else ds[0] + TotalDepth(ds[1..])
  }

  /** The drop-path rates of the stages from the one whose first block has
      global index `start` on: block `i` gets `rate * i / total`. */
  function Schedule(rate: real, ds: seq<nat>, start: nat, total: nat): (r: seq<seq<real>>)
    requires start + TotalDepth(ds) <= total
    ensures |r| == |ds|
    ensures forall s :: 0 <= s < |ds| ==> |r[s]| == ds[s]
    decreases |ds|
  {
    if |ds| == 0 then []
    else
      [StageRates(rate, start, ds[0], total)] + Schedule(rate, ds[1..], start + ds[0], total)
  }

  /** The rates of the `n` blocks of one stage whose first block has global
      index `start`. */
  function StageRates(rate: real, start: nat, n: nat, total: nat): (r: seq<real>)
    requires start + n <= total
    ensures |r| == n
  {
    seq(n, i requires 0 <= i < n => LinearRate(rate, start + i, total))
  }

  /** The per-stage drop-path lists built in `PoolingTransformer.__init__`
      (pit.py:303-305): stage `s` gets one rate per block. */
  function DropPathSchedule(rate: real, ds: seq<nat>): (r: seq<seq<real>>)
    ensures |r| == |ds|
    ensures forall s :: 0 <= s < |ds| ==> |r[s]| == ds[s]
  {
    Schedule(rate, ds, 0, TotalDepth(ds))
  }

  /** The rate of global block `i` of `total`. */
  function LinearRate(rate: real, i: nat, total: nat): real
    requires i < total
  {
    rate * (i as real) / (total as real)
  }

  lemma {:induction false} ScheduleFlat(rate: real, ds: seq<nat>, start: nat, total: nat)
    requires start + TotalDepth(ds) <= total
    ensures |Flatten(Schedule(rate, ds, start, total))| == TotalDepth(ds)
    ensures forall i :: 0 <= i < TotalDepth(ds) ==>
      Flatten(Schedule(rate, ds, start, total))[i] == LinearRate(rate, start + i, total)
    decreases |ds|
  {
    if |ds| > 0 {
      ScheduleFlat(rate, ds[1..], start + ds[0], total);
      var sched := Schedule(rate, ds, start, total);
      assert sched[1..] == Schedule(rate, ds[1..], start + ds[0], total);
      var flat := Flatten(sched);
      assert flat == sched[0] + Flatten(sched[1..]);
      assert TotalDepth(ds) == ds[0] + TotalDepth(ds[1..]);
      var rest := Flatten(Schedule(rate, ds[1..], start + ds[0], total));
      forall i | 0 <= i < TotalDepth(ds) ensures flat[i] == LinearRate(rate, start + i, total) {
        if i < ds[0] {
          assert sched[0] == StageRates(rate, start, ds[0], total);
          assert flat[i] == sched[0][i];
        } else {
          var i' := i - ds[0];
          assert flat[i] == rest[i'];
          assert rest[i'] == LinearRate(rate, start + ds[0] + i', total);
          assert start + ds[0] + i' == start + i;
        }
      }
    }
  }

  /** Read across the stages, the drop-path rates are one linear schedule
      `rate * i / total` over all blocks of the network; with a
      non-negative rate each lies in `[0, rate]`. */
  lemma DropPathLinear(rate: real, ds: seq<nat>)
    ensures |Flatten(DropPathSchedule(rate, ds))| == TotalDepth(ds)
    ensures forall i :: 0 <= i < TotalDepth(ds) ==>
      Flatten(DropPathSchedule(rate, ds))[i] == LinearRate(rate, i, TotalDepth(ds))
    ensures rate >= 0.0 ==> forall i :: 0 <= i < TotalDepth(ds) ==>
      0.0 <= Flatten(DropPathSchedule(rate, ds))[i] <= rate
  {
    var total := TotalDepth(ds);
    ScheduleFlat(rate, ds, 0, total);
    var flat := Flatten(DropPathSchedule(rate, ds));
    forall i | 0 <= i < total ensures flat[i] == LinearRate(rate, i, total) {
      assert flat[i] == LinearRate(rate, 0 + i, total);
    }
    if rate >= 0.0 {
      forall i | 0 <= i < total ensures 0.0 <= LinearRate(rate, i, total) <= rate {
        RateBounds(rate, i, total);
      }
    }
  }

  lemma RateBounds(rate: real, i: nat, total: nat)
    requires rate >= 0.0 && i < total
    ensures 0.0 <= LinearRate(rate, i, total) <= rate
  {
    var t := total as real;
    var x := i as real;
    var v := rate * x / t;
    assert v * t == rate * x;
    assert rate * x <= rate * t;
    assert rate * x >= 0.0;
  }

  /** The constructor arguments of `PoolingTransformer` that shape the
      pruning machinery (learned-layer sizes other than widths are left out). */
  datatype Config = Config(
    imageSize: int,
    patchSize: int,
    stride: nat,
    baseDims: seq<nat>,
    depths: seq<nat>,
    heads: seq<nat>,
    pruningLocs: seq<seq<nat>>,
    tokenRatios: seq<real>,
    dropPathRate: real,
    distill: bool)

  /** The exceptions construction raises in pit.py itself (the layer
      library's own argument checks are not modelled). */
  datatype ConfigError =
    | ZeroStride         // ZeroDivisionError in the width formula
    | MissingStageEntry  // IndexError: a per-stage list is shorter than `depth`
    | NegativeWidth      // a negative size for the position embedding
    | ZeroHeads          // ZeroDivisionError in `dim // num_heads`
    | ZeroHeadWidth      // ZeroDivisionError in `head_dim ** -0.5` (pit.py:41-43)
    | UndefinedDropPath  // NameError: `DropPath` is never imported (pit.py:13, 93)

  /** The global index of the first block of stage `s`. */
  function StageStart(ds: seq<nat>, s: nat): nat
    requires s <= |ds|
  {
    TotalDepth(ds[..s])
  }

  /** Building stage `s` reaches `DropPath(...)`: one of its blocks has a
      positive drop-path rate.  Block `j` of the network gets
      `rate * j / total`, which is positive exactly when the rate is and
      `j > 0`, so this happens when the rate is positive and the stage
      holds a block other than the network's first. */
  predicate RaisesDropPath(cfg: Config, s: nat)
    requires s < |cfg.depths|
  {
    cfg.dropPathRate > 0.0 && cfg.depths[s] > 0 && StageStart(cfg.depths, s) + cfg.depths[s] >= 2
  }

  /** What construction keeps: the grid width, one stage configuration and
      drop-path list per stage, each stage's embedding width and head count,
      the number of pooling layers, and the distillation flag; and the
      channel widths the forward pass meets: the patch embedding's output,
      each pooling layer's output, and the final norm's. */
  datatype Model = Model(
    width: nat,
    stages: seq<Stage.Config>,
    dropPath: seq<seq<real>>,
    embedDims: seq<nat>,
    heads: seq<nat>,
    numPools: nat,
    distill: bool,
    embedWidth: nat,
    poolWidths: seq<nat>,
    normWidth: nat)

  /** Stage `s` can be built: its per-stage entries exist, a stage with
      blocks or predictors has at least one head, a stage with blocks has a
      positive base width (the per-head width), none of its blocks has a
      positive drop-path rate, and a stage followed by a pooling layer has
      a next base width. */
  predicate StageBuildable(cfg: Config, s: nat)
    requires s < |cfg.depths|
  {
    && s < |cfg.baseDims| && s < |cfg.heads| && s < |cfg.pruningLocs| && s < |cfg.tokenRatios|
    && (cfg.heads[s] == 0 ==> cfg.depths[s] == 0 && |cfg.pruningLocs[s]| == 0)
    && (cfg.depths[s] > 0 ==> cfg.baseDims[s] > 0)
    && !RaisesDropPath(cfg, s)
    && (s + 1 < |cfg.heads| ==> s + 1 < |cfg.baseDims|)
  }

  /** Every per-stage list has an entry for every stage. */
  predicate EntriesFor(cfg: Config)
  {
    && |cfg.depths| <= |cfg.baseDims| && |cfg.depths| <= |cfg.heads|
    && |cfg.depths| <= |cfg.pruningLocs| && |cfg.depths| <= |cfg.tokenRatios|
  }

  /** The first error raised while building stages `s ..` in order.
      Within a stage: a missing entry of its own is found when the
      `Transformer` arguments are read (pit.py:307-309); then each block
      builds its attention, which divides by the head count and raises the
      per-head width to the power -0.5 (pit.py:41-43), before it reaches
      `DropPath` (pit.py:93); then the predictors divide by the head count;
      last, the pooling layer reads the next stage's base width
      (pit.py:312-317).  A stage without blocks whose head count is 0
      fails in its predictors, so the two head-count checks are one. */
  function CheckStages(cfg: Config, s: nat): (e: Option<ConfigError>)
    requires s <= |cfg.depths|
    ensures e.None? <==> forall t :: s <= t < |cfg.depths| ==> StageBuildable(cfg, t)
    ensures e.None? && s < |cfg.depths| ==> EntriesFor(cfg)
    ensures e == Some(UndefinedDropPath) ==>
      exists t :: s <= t < |cfg.depths| && RaisesDropPath(cfg, t)
    ensures e == Some(ZeroHeadWidth) ==>
      exists t :: s <= t < |cfg.depths| && t < |cfg.baseDims| && cfg.depths[t] > 0 && cfg.baseDims[t] == 0
    decreases |cfg.depths| - s
  {
    if s == |cfg.depths| then None
    else if s >= |cfg.baseDims| || s >= |cfg.heads| || s >= |cfg.pruningLocs| || s >= |cfg.tokenRatios| then
      assert !StageBuildable(cfg, s);
      Some(MissingStageEntry)
    else if cfg.heads[s] == 0 && (cfg.depths[s] > 0 || |cfg.pruningLocs[s]| > 0) then
      assert !StageBuildable(cfg, s);
      Some(ZeroHeads)
    else if cfg.depths[s] > 0 && cfg.baseDims[s] == 0 then
      assert !StageBuildable(cfg, s);
      Some(ZeroHeadWidth)
    else if RaisesDropPath(cfg, s) then
      assert !StageBuildable(cfg, s);
      Some(UndefinedDropPath)
    else if s + 1 < |cfg.heads| && s + 1 >= |cfg.baseDims| then
      assert !StageBuildable(cfg, s);
      Some(MissingStageEntry)
    else
      CheckStages(cfg, s + 1)
  }

  /** The number of pooling layers: one per stage `s` with
      `s < len(heads) - 1` (pit.py:312). */
  function PoolCount(n: nat, heads: nat): (p: nat)
    ensures p <= n
    ensures heads == n && n > 0 ==> p == n - 1
    ensures heads > n ==> p == n
    ensures p == 0 || p < heads
  {
    if heads == 0 then 0 else if heads - 1 < n then heads - 1 else n
  }

  /** The channel width of stage `s`, `base_dims[s] * heads[s]`. */
  function StageWidth(cfg: Config, s: nat): nat
    requires s < |cfg.baseDims| && s < |cfg.heads|
  {
    cfg.baseDims[s] * cfg.heads[s]
  }

  /** The width of the final norm, `base_dims[-1] * heads[-1]` (pit.py:320). */
  function LastWidth(cfg: Config): nat
    requires |cfg.baseDims| > 0 && |cfg.heads| > 0
  {
    cfg.baseDims[|cfg.baseDims| - 1] * cfg.heads[|cfg.heads| - 1]
  }

  /** One `Transformer` configuration per stage (pit.py:306-310). */
  function StageConfigs(cfg: Config): (cs: seq<Stage.Config>)
    requires EntriesFor(cfg)
    ensures |cs| == |cfg.depths|
    ensures forall s :: 0 <= s < |cfg.depths| ==>
      cs[s] == Stage.Config(cfg.depths[s], cfg.pruningLocs[s], cfg.distill)
  {
    seq(|cfg.depths|, s requires 0 <= s < |cfg.depths| => Stage.Config(cfg.depths[s], cfg.pruningLocs[s], cfg.distill))
  }

  /** The channel width of every stage's `Transformer` (pit.py:107). */
  function EmbedDims(cfg: Config): (ws: seq<nat>)
    requires EntriesFor(cfg)
    ensures |ws| == |cfg.depths|
    ensures forall s :: 0 <= s < |cfg.depths| ==> ws[s] == StageWidth(cfg, s)
  {
    seq(|cfg.depths|, s requires 0 <= s < |cfg.depths| => StageWidth(cfg, s))
  }

  /** The output width of each of the `p` pooling layers: the next stage's
      channel width (pit.py:313-316). */
  function PoolWidths(cfg: Config, p: nat): (ws: seq<nat>)
    requires p < |cfg.baseDims| && p < |cfg.heads|
    ensures |ws| == p
    ensures forall s :: 0 <= s < p ==> ws[s] == StageWidth(cfg, s + 1)
  {
    seq(p, s requires 0 <= s < p => StageWidth(cfg, s + 1))
  }

  /** Every stage has its entries, and every pooling layer a next base
      width. */
  predicate Assemblable(cfg: Config)
  {
    |cfg.heads| > 0 && EntriesFor(cfg) && PoolCount(|cfg.depths|, |cfg.heads|) < |cfg.baseDims|
  }

  /** The model `PoolingTransformer.__init__` builds once every stage has
      its entries and every pooling layer a next base width (pit.py:292-327);
      `w` is the grid width. */
  function Assemble(cfg: Config, w: nat): (m: Model)
    requires Assemblable(cfg)
    ensures
      && |m.stages| == |cfg.depths|
      && m.numPools == PoolCount(|cfg.depths|, |cfg.heads|)
      && |m.dropPath| == |cfg.depths|
      && |m.embedDims| == |cfg.depths| && |m.heads| == |cfg.depths|
      && forall s :: 0 <= s < |cfg.depths| ==>
           && m.stages[s] == Stage.Config(cfg.depths[s], cfg.pruningLocs[s], cfg.distill)
           && |m.dropPath[s]| == cfg.depths[s]
           && m.embedDims[s] == StageWidth(cfg, s)
           && m.heads[s] == cfg.heads[s]
    ensures
      && m.embedWidth == StageWidth(cfg, 0)
      && m.normWidth == LastWidth(cfg)
      && |m.poolWidths| == m.numPools
      && forall s :: 0 <= s < m.numPools ==>
           s + 1 < |cfg.baseDims| && m.poolWidths[s] == StageWidth(cfg, s + 1)
  {
    var n := |cfg.depths|;
    var p := PoolCount(n, |cfg.heads|);
    Model(
      w,
      StageConfigs(cfg),
      DropPathSchedule(cfg.dropPathRate, cfg.depths),
      EmbedDims(cfg),
      cfg.heads[..n],
      p,
      cfg.distill,
      StageWidth(cfg, 0),
      PoolWidths(cfg, p),
      LastWidth(cfg))
  }

  /** `PoolingTransformer.__init__` (pit.py:263-331), keeping the parts the
      forward pass threads policies through. */
  function Build(cfg: Config): (r: Result<Model, ConfigError>)
    ensures r.Success? <==>
      && cfg.stride > 0
      && |cfg.baseDims| > 0 && |cfg.heads| > 0
      && PatchGridWidth(cfg.imageSize, cfg.patchSize, cfg.stride) >= 0
      && forall s :: 0 <= s < |cfg.depths| ==> StageBuildable(cfg, s)
    ensures r.Failure? && cfg.stride == 0 ==> r.error == ZeroStride
    ensures r.Success? ==> Assemblable(cfg)
    ensures r.Success? ==> r.value == Assemble(cfg, PatchGridWidth(cfg.imageSize, cfg.patchSize, cfg.stride))
  {
    if cfg.stride == 0 then Failure(ZeroStride)
    else if |cfg.baseDims| == 0 || |cfg.heads| == 0 then Failure(MissingStageEntry)
    else
      var w := PatchGridWidth(cfg.imageSize, cfg.patchSize, cfg.stride);
      if w < 0 then Failure(NegativeWidth)
      else
        match CheckStages(cfg, 0)
        case Some(e) => Failure(e)
        case None =>
          var p := PoolCount(|cfg.depths|, |cfg.heads|);
          assert p < |cfg.baseDims| by {
            if p > 0 {
              assert StageBuildable(cfg, p - 1);
            }
          }
          Success(Assemble(cfg, w))
  }

  /** The rates of stage `s` read off the network-wide schedule: block `i`
      of the stage is global block `StageStart + i`. */
  lemma {:induction false} ScheduleAt(rate: real, ds: seq<nat>, start: nat, total: nat, s: nat, i: nat)
    requires start + TotalDepth(ds) <= total && s < |ds| && i < ds[s]
    ensures start + StageStart(ds, s) + i < total
    ensures |Schedule(rate, ds, start, total)[s]| == ds[s]
    ensures Schedule(rate, ds, start, total)[s][i] == LinearRate(rate, start + StageStart(ds, s) + i, total)
    decreases s
  {
    var sched := Schedule(rate, ds, start, total);
    assert TotalDepth(ds) == ds[0] + TotalDepth(ds[1..]);
    if s == 0 {
      assert ds[..0] == [];
      assert sched[0] == StageRates(rate, start, ds[0], total);
    } else {
      var j := start + StageStart(ds, s) + i;
      ScheduleAt(rate, ds[1..], start + ds[0], total, s - 1, i);
      StageStartStep(ds, s);
      assert sched[s] == Schedule(rate, ds[1..], start + ds[0], total)[s - 1];
      assert j == start + ds[0] + StageStart(ds[1..], s - 1) + i;
    }
  }

  /** The stages after the first start `ds[0]` blocks later. */
  lemma StageStartStep(ds: seq<nat>, s: nat)
    requires 0 < s <= |ds|
    ensures StageStart(ds, s) == ds[0] + StageStart(ds[1..], s - 1)
  {
    assert ds[..s][1..] == ds[1..][..s - 1];
  }

  /** A rate `rate * j / total` is positive exactly when the rate is and
      `j > 0`. */
  lemma RatePositive(rate: real, j: nat, total: nat)
    requires j < total
    ensures LinearRate(rate, j, total) > 0.0 <==> rate > 0.0 && j > 0
  {
    var t := total as real;
    var x := j as real;
    var v := rate * x / t;
    assert v * t == rate * x;
    if rate > 0.0 && j > 0 {
      assert rate * x > 0.0;
    } else if rate <= 0.0 {
      assert rate * x <= 0.0;
    } else {
      assert rate * x == 0.0;
    }
  }

  /** Construction raises the `NameError` of `DropPath` for stage `s`
      exactly when one of the stage's scheduled drop-path rates is
      positive (pit.py:303-305, 93). */
  lemma DropPathRaises(cfg: Config, s: nat)
    requires s < |cfg.depths|
    ensures |DropPathSchedule(cfg.dropPathRate, cfg.depths)[s]| == cfg.depths[s]
    ensures RaisesDropPath(cfg, s) <==>
      exists i :: 0 <= i < cfg.depths[s] && DropPathSchedule(cfg.dropPathRate, cfg.depths)[s][i] > 0.0
  {
    var ds := cfg.depths;
    var rate := cfg.dropPathRate;
    var total := TotalDepth(ds);
    var sched := DropPathSchedule(rate, ds);
    if RaisesDropPath(cfg, s) {
      var i := ds[s] - 1;
      ScheduleAt(rate, ds, 0, total, s, i);
      RatePositive(rate, StageStart(ds, s) + i, total);
      assert sched[s][i] > 0.0;
    }
    if exists i :: 0 <= i < ds[s] && sched[s][i] > 0.0 {
      var i :| 0 <= i < ds[s] && sched[s][i] > 0.0;
      ScheduleAt(rate, ds, 0, total, s, i);
      RatePositive(rate, StageStart(ds, s) + i, total);
    }
  }

  /** A model that could be built has no block with a positive drop-path
      rate: every rate of its schedule is at most 0. */
  lemma BuiltWithoutDropPath(cfg: Config, s: nat, i: nat)
    requires Build(cfg).Success? && s < |cfg.depths| && i < cfg.depths[s]
    ensures |Build(cfg).value.dropPath[s]| == cfg.depths[s]
    ensures Build(cfg).value.dropPath[s][i] <= 0.0
  {
    assert StageBuildable(cfg, s);
    DropPathRaises(cfg, s);
  }

  /** Every stage of a built model that has predictors splits its
      embedding width evenly between its heads, all channels being read. */
  lemma BuiltPredictorSlices(cfg: Config, s: nat)
    requires Build(cfg).Success? && s < |cfg.depths|
    requires |Build(cfg).value.stages[s].pruningLoc| > 0
    ensures var m := Build(cfg).value;
      m.heads[s] > 0 && Predictor.Covered(m.embedDims[s], m.heads[s])
      && m.embedDims[s] / m.heads[s] == cfg.baseDims[s]
  {
    assert StageBuildable(cfg, s);
    Predictor.StagePredictorSlices(cfg.baseDims[s], cfg.heads[s]);
  }

  /** A model `forward_features` can run on. */
  predicate WellFormed(m: Model)
  {
    && m.numPools <= |m.stages|
    && |m.embedDims| == |m.stages| && |m.heads| == |m.stages|
    && |m.poolWidths| == m.numPools
    && forall s :: 0 <= s < |m.stages| ==> m.stages[s].distill == m.distill
  }

  lemma BuiltWellFormed(cfg: Config)
    requires Build(cfg).Success?
    ensures WellFormed(Build(cfg).value)
  {
  }

  /** The transformer indices `forward_features` runs, in order: one per
      pooling layer (pit.py:362), then the last transformer (pit.py:376-386). */
  function Executed(m: Model): (order: seq<nat>)
    requires WellFormed(m)
    ensures forall k :: 0 <= k < |order| ==> order[k] < |m.stages|
    ensures |m.stages| > 0 ==> |order| == m.numPools + 1
    ensures |m.stages| == 0 ==> order == []
  {
    if |m.stages| == 0 then [] else seq(m.numPools, k requires 0 <= k < m.numPools => k) + [|m.stages| - 1]
  }

  /** With one head count per stage (as in every preset), every stage runs
      exactly once, in order. */
  lemma ExecutedInOrder(cfg: Config)
    requires Build(cfg).Success?
    requires |cfg.heads| == |cfg.depths| && |cfg.depths| > 0
    ensures Executed(Build(cfg).value) == seq(|cfg.depths|, k requires 0 <= k < |cfg.depths| => k)
  {
  }

  /** With more head entries than stages, every stage is followed by a
      pooling layer: every stage runs once, in order, and then the last
      transformer runs again on the last pooling layer's output (pit.py:312,
      362, 376-386). */
  lemma ExecutedRepeatsLast(cfg: Config)
    requires Build(cfg).Success?
    requires |cfg.heads| > |cfg.depths| > 0
    ensures Executed(Build(cfg).value) ==
      seq(|cfg.depths|, k requires 0 <= k < |cfg.depths| => k) + [|cfg.depths| - 1]
  {
  }

  /** The errors `forward_features` raises: `transformers[-1]` on a model
      with no stage (an IndexError), and a RuntimeError from tensor shapes
      in a stage run (see `RunFits`). */
  datatype ForwardError = NoStages | ShapeError

  /** The channel width the `k`-th stage run receives: the patch
      embedding's output for the first run (pit.py:354), the output of the
      pooling layer before it otherwise (pit.py:374). */
  function RunWidth(m: Model, k: nat): nat
    requires WellFormed(m) && k <= m.numPools
  {
    if k == 0 then m.embedWidth else m.poolWidths[k - 1]
  }

  /** Stage `e` calls a predictor: it has a pruning location below its
      depth (pit.py:146-148). */
  predicate Predicts(m: Model, e: nat)
    requires e < |m.stages|
  {
    |Stage.Locations(m.stages[e].pruningLoc, m.stages[e].depth)| > 0
  }

  /** The predictors of stage `e` split each head's `embed_dim // num_heads`
      channels (pit.py:189-197, 221) into a first half of `C//2` channels
      and a second half of `C - C//2`, which differ when `C` is odd. */
  predicate OddSplit(m: Model, e: nat)
    requires WellFormed(m) && e < |m.stages|
  {
    m.heads[e] > 0 && (m.embedDims[e] / m.heads[e]) % 2 == 1
  }

  /** The `k`-th stage run raises no shape error.  The run's transformer
      `e` was built for `embedDims[e]` channels:
      - its blocks' layer norms (pit.py:99) and the pooling layer after it
        (pit.py:243-245, built for the same width) reject another width; a
        transformer without blocks passes its input on unchecked;
      - a predictor pools the second half of a head's channels and expands
        it to the size of the first half (pit.py:223-225), which fails when
        the per-head width is odd (for width 1, if the expansion to no
        channels succeeds, the next linear layer gets the wrong width);
      - after the last run the final norm (pit.py:388) rejects any width
        other than its own. */
  predicate RunFits(m: Model, k: nat)
    requires WellFormed(m) && |m.stages| > 0 && k <= m.numPools
  {
    var e := Executed(m)[k];
    var w := RunWidth(m, k);
    && (m.stages[e].depth > 0 || k < m.numPools ==> w == m.embedDims[e])
    && !(Predicts(m, e) && OddSplit(m, e))
    && (k == m.numPools ==> w == m.normWidth)
  }

  /** `forward_features` runs through: there is a stage, and no stage run
      raises a shape error. */
  predicate RunsFit(m: Model)
    requires WellFormed(m)
  {
    |m.stages| > 0 && forall k :: 0 <= k <= m.numPools ==> RunFits(m, k)
  }

  /** The side lengths `h` and `w` of the patch embedding's output for the
      input image (pit.py:354). */
  datatype PatchGrid = PatchGrid(h: nat, w: nat)

  /** One side of `x + pos_embed` (pit.py:357): `pos_embed` is `width` long
      on that side (pit.py:281-284), and the two broadcast when they are
      equal or either is 1. */
  predicate SideBroadcasts(width: nat, side: nat)
  {
    side == width || side == 1 || width == 1
  }

  /** The length of a side after the broadcast. */
  function BroadcastSide(width: nat, side: nat): (r: nat)
    requires SideBroadcasts(width, side)
    ensures width != 1 ==> r == width
    ensures side != 1 ==> r == side
    ensures r == 1 <==> width == 1 && side == 1
  {
    if width == 1 then side else width
  }

  /** Adding the position embedding to the patch grid raises no error. */
  predicate PosEmbedFits(m: Model, g: PatchGrid)
  {
    SideBroadcasts(m.width, g.h) && SideBroadcasts(m.width, g.w)
  }

  /** The spatial size `h * w` of the first stage run, read after the add
      (pit.py:363-364). */
  function FirstGrid(m: Model, g: PatchGrid): nat
    requires PosEmbedFits(m, g)
  {
    BroadcastSide(m.width, g.h) * BroadcastSide(m.width, g.w)
  }

  /** The first stage run sees `width * width` tokens whatever patch grid
      the add accepts, unless the position embedding has sides of 1; then
      it sees the patch grid itself. */
  lemma FirstGridSize(m: Model, g: PatchGrid)
    requires PosEmbedFits(m, g)
    ensures m.width != 1 ==> FirstGrid(m, g) == m.width * m.width
    ensures m.width == 1 ==> FirstGrid(m, g) == g.h * g.w
  {
  }

  /** `grids` are the spatial sizes of the stage runs on patch grid `g`:
      the first run's comes out of the add.  The later ones come from the
      pooling layers' convolutions, which the model takes as given. */
  predicate GridsFrom(m: Model, g: PatchGrid, grids: seq<nat>)
  {
    |grids| > 0 && PosEmbedFits(m, g) ==> grids[0] == FirstGrid(m, g)
  }

  /** The pruning-related results of `forward_features`: the spatial part of
      the final policy and, in training, the decision lists of all stages. */
  datatype Features = Features(prevDecision: Mask, decisions: Option<seq<Mask>>)

  /** The `k`-th stage run: a fresh all-ones policy at that stage's size
      (pit.py:363-365, 376-378), then the stage. */
  function StageRun(m: Model, mode: Mode, grids: seq<nat>, keep: nat -> Stage.Sampler, k: nat): (out: Stage.Output)
    requires WellFormed(m) && |grids| == |Executed(m)| && k < |grids|
    ensures out.decisions.Some? <==> mode == Train
    ensures out.policy.Some? <==> mode == Train && m.distill
  {
    var cfg := m.stages[Executed(m)[k]];
    Stage.Forward(cfg, mode, ClassTokens, grids[k], keep(k), Ones(ClassTokens + grids[k]))
  }

  /** The decision lists of all stage runs, in run order. */
  function StageDecisions(m: Model, grids: seq<nat>, keep: nat -> Stage.Sampler): (lists: seq<seq<Mask>>)
    requires WellFormed(m) && |grids| == |Executed(m)|
    ensures |lists| == |grids|
  {
    seq(|grids|, k requires 0 <= k < |grids| => StageRun(m, Train, grids, keep, k).decisions.value)
  }

  /** `forward_features` on one batch item (pit.py:352-393), for an image
      whose patch grid is `g`.  `grids[k]` is `h * w` of the `k`-th stage
      run (see `GridsFrom`); `keep(k)` is the sampler of that run.  The add
      of the position embedding comes first, so a patch grid it cannot
      broadcast is a shape error even without stages. */
  function ForwardFeatures(m: Model, mode: Mode, g: PatchGrid, grids: seq<nat>, keep: nat -> Stage.Sampler): (r: Result<Features, ForwardError>)
    requires WellFormed(m) && |grids| == |Executed(m)| && GridsFrom(m, g, grids)
    ensures r.Success? <==> PosEmbedFits(m, g) && RunsFit(m)
    ensures r.Failure? ==> (r.error == NoStages <==> PosEmbedFits(m, g) && |m.stages| == 0)
    ensures r.Success? ==> (r.value.decisions.Some? <==> mode == Train)
    ensures r.Success? ==> |r.value.prevDecision| == grids[|grids| - 1]
  {
    if !PosEmbedFits(m, g) then Failure(ShapeError)
    else if |m.stages| == 0 then Failure(NoStages)
    else if !RunsFit(m) then Failure(ShapeError)
    else
      var last := |grids| - 1;
      var out := StageRun(m, mode, grids, keep, last);
      var policy := if mode == Train && m.distill then out.policy.value else Ones(ClassTokens + grids[last]);
      var decisions := if mode == Train then Some(Flatten(StageDecisions(m, grids, keep))) else None;
      Success(Features(policy[ClassTokens..], decisions))
  }

  /** Stage `s` of a configuration has a pruning location below its depth. */
  predicate ConfigPredicts(cfg: Config, s: nat)
    requires s < |cfg.depths| && s < |cfg.pruningLocs|
  {
    |Stage.Locations(cfg.pruningLocs[s], cfg.depths[s])| > 0
  }

  /** Every stage with blocks has heads (`StageBuildable` demands it). */
  predicate HeadsForBlocks(cfg: Config)
    requires EntriesFor(cfg)
  {
    forall s :: 0 <= s < |cfg.depths| && cfg.depths[s] > 0 ==> cfg.heads[s] > 0
  }

  /** What a buildable configuration needs for `forward_features` to run
      through, in its own terms.  Every stage runs, so every stage with
      predictors needs an even base width.  The last run receives the width
      of stage `PoolCount`: the last pooling layer's output, or the patch
      embedding's without pooling layers.  The last transformer, if it has
      blocks, and the final norm must accept that width. */
  predicate ShapesAgree(cfg: Config)
    requires Assemblable(cfg) && |cfg.depths| > 0
  {
    var n := |cfg.depths|;
    var p := PoolCount(n, |cfg.heads|);
    && (forall s :: 0 <= s < n && ConfigPredicts(cfg, s) ==> cfg.baseDims[s] % 2 == 0)
    && (cfg.depths[n - 1] > 0 ==> StageWidth(cfg, p) == StageWidth(cfg, n - 1))
    && StageWidth(cfg, p) == LastWidth(cfg)
  }

  /** The facts about an assembled model that its runs depend on. */
  predicate Assembled(cfg: Config, m: Model)
    requires Assemblable(cfg)
  {
    && WellFormed(m)
    && |m.stages| == |cfg.depths| && m.numPools == PoolCount(|cfg.depths|, |cfg.heads|)
    && m.embedWidth == StageWidth(cfg, 0) && m.normWidth == LastWidth(cfg)
    && (forall s :: 0 <= s < |cfg.depths| ==>
          && m.stages[s].depth == cfg.depths[s] && m.stages[s].pruningLoc == cfg.pruningLocs[s]
          && m.embedDims[s] == StageWidth(cfg, s) && m.heads[s] == cfg.heads[s])
    && (forall s :: 0 <= s < m.numPools ==> m.poolWidths[s] == StageWidth(cfg, s + 1))
  }

  lemma AssembleIsAssembled(cfg: Config, w: nat)
    requires Assemblable(cfg)
    ensures Assembled(cfg, Assemble(cfg, w))
  {
  }

  /** An assembled stage calls predictors exactly when its configuration
      says so, and then their per-head width is its base width. */
  lemma AssembledSplit(cfg: Config, m: Model, s: nat)
    requires Assemblable(cfg) && HeadsForBlocks(cfg) && Assembled(cfg, m) && s < |cfg.depths|
    ensures Predicts(m, s) <==> ConfigPredicts(cfg, s)
    ensures Predicts(m, s) ==> (OddSplit(m, s) <==> cfg.baseDims[s] % 2 == 1)
  {
    if Predicts(m, s) {
      assert cfg.depths[s] > 0;
      Predictor.StagePredictorSlices(cfg.baseDims[s], cfg.heads[s]);
    }
  }

  /** A pooled run of an assembled model, stage `k`, receives the width it
      was built for; it fails only on an odd split. */
  lemma PooledRunFits(cfg: Config, m: Model, k: nat)
    requires Assemblable(cfg) && HeadsForBlocks(cfg) && Assembled(cfg, m)
    requires k < PoolCount(|cfg.depths|, |cfg.heads|)
    ensures RunFits(m, k) <==> (ConfigPredicts(cfg, k) ==> cfg.baseDims[k] % 2 == 0)
  {
    assert Executed(m)[k] == k;
    assert RunWidth(m, k) == m.embedDims[k];
    AssembledSplit(cfg, m, k);
  }

  /** The last run of an assembled model runs the last stage on the width
      of stage `PoolCount`. */
  lemma LastRunFits(cfg: Config, m: Model)
    requires Assemblable(cfg) && HeadsForBlocks(cfg) && Assembled(cfg, m) && |cfg.depths| > 0
    ensures var n, p := |cfg.depths|, PoolCount(|cfg.depths|, |cfg.heads|);
      RunFits(m, p) <==>
        && (ConfigPredicts(cfg, n - 1) ==> cfg.baseDims[n - 1] % 2 == 0)
        && (cfg.depths[n - 1] > 0 ==> StageWidth(cfg, p) == StageWidth(cfg, n - 1))
        && StageWidth(cfg, p) == LastWidth(cfg)
  {
    var n, p := |cfg.depths|, PoolCount(|cfg.depths|, |cfg.heads|);
    assert Executed(m)[p] == n - 1;
    assert RunWidth(m, p) == StageWidth(cfg, p);
    AssembledSplit(cfg, m, n - 1);
  }

  /** An assembled model runs through exactly when its configuration's
      shapes agree. */
  lemma AssembledRunsFit(cfg: Config, m: Model)
    requires Assemblable(cfg) && HeadsForBlocks(cfg) && Assembled(cfg, m) && |cfg.depths| > 0
    ensures RunsFit(m) <==> ShapesAgree(cfg)
  {
    var n := |cfg.depths|;
    var p := PoolCount(n, |cfg.heads|);
    LastRunFits(cfg, m);
    if RunsFit(m) {
      assert RunFits(m, p);
      forall s | 0 <= s < n && ConfigPredicts(cfg, s) ensures cfg.baseDims[s] % 2 == 0 {
        if s < p {
          PooledRunFits(cfg, m, s);
          assert RunFits(m, s);
        }
      }
    }
    if ShapesAgree(cfg) {
      forall k | 0 <= k <= p ensures RunFits(m, k) {
        if k < p {
          PooledRunFits(cfg, m, k);
        }
      }
    }
  }

  /** In a built model the pooled runs always meet the width they were
      built for; the shape errors of `forward_features` are exactly an odd
      per-head width in a stage with predictors, or a last run whose input
      width the last transformer (if it has blocks) or the final norm does
      not accept (pit.py:223-225, 312-320, 362-388). */
  lemma BuiltRunsFit(cfg: Config)
    requires Build(cfg).Success? && |cfg.depths| > 0
    ensures WellFormed(Build(cfg).value)
    ensures RunsFit(Build(cfg).value) <==> ShapesAgree(cfg)
  {
    forall s | 0 <= s < |cfg.depths| && cfg.depths[s] > 0 ensures cfg.heads[s] > 0 {
      assert StageBuildable(cfg, s);
    }
    var w := PatchGridWidth(cfg.imageSize, cfg.patchSize, cfg.stride);
    AssembleIsAssembled(cfg, w);
    AssembledRunsFit(cfg, Assemble(cfg, w));
  }

  /** On a model whose shapes do not fit, `forward_features` raises a
      shape error, whatever the image, spatial sizes and samplers. */
  lemma UnfitRaises(m: Model, mode: Mode, g: PatchGrid, grids: seq<nat>, keep: nat -> Stage.Sampler)
    requires WellFormed(m) && |grids| == |Executed(m)| && GridsFrom(m, g, grids)
    requires |m.stages| > 0 && !RunsFit(m)
    ensures ForwardFeatures(m, mode, g, grids, keep) == Failure(ShapeError)
  {
  }

  /** One stage of per-head width 3 with a predictor at block 0: the model
      builds, but the predictor's halves have 1 and 2 channels and
      `forward_features` fails (pit.py:223-225). */
  lemma OddWidthFails(cfg: Config, mode: Mode, g: PatchGrid, grids: seq<nat>, keep: nat -> Stage.Sampler)
    requires cfg == Config(224, 16, 8, [3], [1], [1], [[0]], [0.5], 0.0, false)
    requires |grids| == 1 && (PosEmbedFits(Build(cfg).value, g) ==> grids[0] == FirstGrid(Build(cfg).value, g))
    ensures Build(cfg).Success? && |Executed(Build(cfg).value)| == 1
    ensures ForwardFeatures(Build(cfg).value, mode, g, grids, keep) == Failure(ShapeError)
  {
    OddWidthBuilds(cfg);
    BuiltRunsFit(cfg);
    UnfitRaises(Build(cfg).value, mode, g, grids, keep);
  }

  /** The configuration of `OddWidthFails` builds, and its shapes do not
      agree. */
  lemma OddWidthBuilds(cfg: Config)
    requires cfg == Config(224, 16, 8, [3], [1], [1], [[0]], [0.5], 0.0, false)
    ensures Build(cfg).Success? && |cfg.depths| > 0
    ensures !ShapesAgree(cfg)
  {
    WidthIsFloorDivision(224, 16, 8);
    assert StageBuildable(cfg, 0) by {
      assert StageStart(cfg.depths, 0) == 0 by {
        assert cfg.depths[..0] == [];
      }
    }
    assert ConfigPredicts(cfg, 0) by {
      assert 0 in Stage.Locations([0], 1);
    }
  }

  /** One stage with two head entries: the stage is pooled, and then the
      last transformer, the same one, built for 64 channels, runs again on
      the 96 channels of the pooling layer (pit.py:312-316, 376-386). */
  lemma RepeatedLastFails(cfg: Config, mode: Mode, g: PatchGrid, grids: seq<nat>, keep: nat -> Stage.Sampler)
    requires cfg == Config(224, 16, 8, [32, 48], [1], [2, 2], [[]], [0.5], 0.0, false)
    requires |grids| == 2 && (PosEmbedFits(Build(cfg).value, g) ==> grids[0] == FirstGrid(Build(cfg).value, g))
    ensures Build(cfg).Success? && Executed(Build(cfg).value) == [0, 0]
    ensures ForwardFeatures(Build(cfg).value, mode, g, grids, keep) == Failure(ShapeError)
  {
    RepeatedLastUnfit(cfg);
    UnfitRaises(Build(cfg).value, mode, g, grids, keep);
  }

  /** The model of `RepeatedLastFails` runs stage 0 twice, and its shapes
      do not fit. */
  lemma RepeatedLastUnfit(cfg: Config)
    requires cfg == Config(224, 16, 8, [32, 48], [1], [2, 2], [[]], [0.5], 0.0, false)
    ensures Build(cfg).Success? && WellFormed(Build(cfg).value)
    ensures Executed(Build(cfg).value) == [0, 0] && |Build(cfg).value.stages| > 0
    ensures !RunsFit(Build(cfg).value)
  {
    RepeatedLastBuilds(cfg);
    ExecutedRepeatsLast(cfg);
    assert seq(1, k requires 0 <= k < 1 => k) == [0];
    BuiltRunsFit(cfg);
  }

  /** The configuration of `RepeatedLastFails` builds, and its shapes do
      not agree. */
  lemma RepeatedLastBuilds(cfg: Config)
    requires cfg == Config(224, 16, 8, [32, 48], [1], [2, 2], [[]], [0.5], 0.0, false)
    ensures Build(cfg).Success? && |cfg.depths| > 0
    ensures !ShapesAgree(cfg)
  {
    WidthIsFloorDivision(224, 16, 8);
    assert StageBuildable(cfg, 0) by {
      assert StageStart(cfg.depths, 0) == 0 by {
        assert cfg.depths[..0] == [];
      }
    }
    assert StageWidth(cfg, 1) == 96 && StageWidth(cfg, 0) == 64;
  }

  /** A 224-pixel model with one stage of 4 channels, whose shapes agree:
      its position embedding is 27 × 27.  Given the patch grid of a
      256-pixel image, 31 × 31, the add raises (pit.py:357). */
  lemma WrongGridFails(cfg: Config, mode: Mode, g: PatchGrid, grids: seq<nat>, keep: nat -> Stage.Sampler)
    requires cfg == Config(224, 16, 8, [4], [1], [1], [[0]], [0.5], 0.0, false)
    requires g == PatchGrid(31, 31) && |grids| == 1
    ensures Build(cfg).Success? && Build(cfg).value.width == 27 && RunsFit(Build(cfg).value)
    ensures |Executed(Build(cfg).value)| == 1
    ensures ForwardFeatures(Build(cfg).value, mode, g, grids, keep) == Failure(ShapeError)
  {
    FourWideBuilds(cfg);
    BuiltRunsFit(cfg);
  }

  /** The same model on the patch grid of a 224-pixel image, or on one
      that broadcasts from a side of 1, runs through, and its first stage
      sees 27 * 27 spatial tokens. */
  lemma ConfiguredGridRuns(cfg: Config, mode: Mode, g: PatchGrid, grids: seq<nat>, keep: nat -> Stage.Sampler)
    requires cfg == Config(224, 16, 8, [4], [1], [1], [[0]], [0.5], 0.0, false)
    requires g.h in [1, 27] && g.w in [1, 27] && grids == [729]
    ensures Build(cfg).Success? && |Executed(Build(cfg).value)| == 1
    ensures PosEmbedFits(Build(cfg).value, g) && FirstGrid(Build(cfg).value, g) == 729
    ensures ForwardFeatures(Build(cfg).value, mode, g, grids, keep).Success?
  {
    FourWideBuilds(cfg);
    BuiltRunsFit(cfg);
  }

  /** The configuration of `WrongGridFails` builds, with grid width 27,
      and its shapes agree. */
  lemma FourWideBuilds(cfg: Config)
    requires cfg == Config(224, 16, 8, [4], [1], [1], [[0]], [0.5], 0.0, false)
    ensures Build(cfg).Success? && |cfg.depths| > 0
    ensures Build(cfg).value.width == 27 && |Executed(Build(cfg).value)| == 1
    ensures ShapesAgree(cfg)
  {
    WidthIsFloorDivision(224, 16, 8);
    assert StageBuildable(cfg, 0) by {
      assert StageStart(cfg.depths, 0) == 0 by {
        assert cfg.depths[..0] == [];
      }
    }
  }

  /** The fresh policy of every stage is valid: right length, all ones. */
  lemma FreshPolicyValid(g: nat)
    ensures Stage.Valid(Ones(ClassTokens + g), ClassTokens, g)
  {
  }

  /** Every stage run starts afresh: what it returns depends only on its own
      spatial size and its own sampler, never on the policies of earlier
      runs (pit.py:364, 377).  This holds by the definition of `StageRun`,
      which reads only `grids[k]` and `keep(k)`; the lemma records that the
      model keeps the runs independent, and proves nothing beyond it. */
  lemma StageRunLocal(m: Model, mode: Mode, grids: seq<nat>, grids': seq<nat>,
                      keep: nat -> Stage.Sampler, keep': nat -> Stage.Sampler, k: nat)
    requires WellFormed(m) && |grids| == |Executed(m)| && |grids'| == |grids| && k < |grids|
    requires grids'[k] == grids[k] && keep'(k) == keep(k)
    ensures StageRun(m, mode, grids, keep, k) == StageRun(m, mode, grids', keep', k)
  {
  }

  /** The number of pruning points met by running the given transformers:
      for each, its pruning locations below its depth. */
  function PruningPoints(m: Model, order: seq<nat>): nat
    requires forall k :: 0 <= k < |order| ==> order[k] < |m.stages|
    decreases |order|
  {
    if |order| == 0 then 0
    else
      var cfg := m.stages[order[0]];
      |Stage.Locations(cfg.pruningLoc, cfg.depth)| + PruningPoints(m, order[1..])
  }

  lemma {:induction false} TotalLengthIsPruningPoints(m: Model, order: seq<nat>, lists: seq<seq<Mask>>)
    requires forall k :: 0 <= k < |order| ==> order[k] < |m.stages|
    requires |lists| == |order|
    requires forall k :: 0 <= k < |order| ==>
      |lists[k]| == |Stage.Locations(m.stages[order[k]].pruningLoc, m.stages[order[k]].depth)|
    ensures TotalLength(lists) == PruningPoints(m, order)
    decreases |order|
  {
    if |order| > 0 {
      TotalLengthIsPruningPoints(m, order[1..], lists[1..]);
    }
  }

  /** In training, the backbone's decision list is the stage lists
      concatenated in run order (pit.py:371, 384); it has one entry per
      pruning point of all stage runs, and every entry is a 0/1 spatial
      policy of its stage's size. */
  lemma TrainingDecisions(m: Model, g: PatchGrid, grids: seq<nat>, keep: nat -> Stage.Sampler)
    requires WellFormed(m) && |grids| == |Executed(m)| && GridsFrom(m, g, grids) && |m.stages| > 0
    ensures var r := ForwardFeatures(m, Train, g, grids, keep);
      var lists := StageDecisions(m, grids, keep);
      && (r.Success? <==> PosEmbedFits(m, g) && RunsFit(m))
      && (r.Success? ==> r.value.decisions == Some(Flatten(lists)))
      && |Flatten(lists)| == PruningPoints(m, Executed(m))
      && (forall k, j :: 0 <= k < |lists| && 0 <= j < |lists[k]| ==>
            |lists[k][j]| == grids[k] && Binary(lists[k][j]))
      && (forall d :: d in Flatten(lists) ==> Binary(d))
  {
    var order := Executed(m);
    var lists := StageDecisions(m, grids, keep);
    forall k | 0 <= k < |lists|
      ensures |lists[k]| == |Stage.Locations(m.stages[order[k]].pruningLoc, m.stages[order[k]].depth)|
      ensures forall j :: 0 <= j < |lists[k]| ==> |lists[k][j]| == grids[k] && Binary(lists[k][j])
    {
      var cfg := m.stages[order[k]];
      FreshPolicyValid(grids[k]);
      Stage.ForwardContract(cfg, ClassTokens, grids[k], keep(k), Ones(ClassTokens + grids[k]));
    }
    FlattenLength(lists);
    TotalLengthIsPruningPoints(m, order, lists);
    forall d | d in Flatten(lists) ensures Binary(d) {
      FlattenMember(lists, d);
    }
  }

  /** The spatial policy returned with the features: the last stage's
      fresh all-ones policy unless training with distillation, in which case
      it is the 0/1 policy the last stage's final block ran with
      (pit.py:378-393). */
  lemma FinalDecision(m: Model, mode: Mode, g: PatchGrid, grids: seq<nat>, keep: nat -> Stage.Sampler)
    requires WellFormed(m) && |grids| == |Executed(m)| && GridsFrom(m, g, grids) && |m.stages| > 0
    ensures var r := ForwardFeatures(m, mode, g, grids, keep);
      var last := |grids| - 1;
      var cfg := m.stages[Executed(m)[last]];
      var initial := Ones(ClassTokens + grids[last]);
      && (r.Success? <==> PosEmbedFits(m, g) && RunsFit(m))
      && (r.Success? && (mode == Eval || !m.distill) ==> r.value.prevDecision == Ones(grids[last]))
      && (r.Success? && mode == Train && m.distill ==>
            && Binary(r.value.prevDecision)
            && r.value.prevDecision ==
                 Stage.Run(cfg, Train, ClassTokens, keep(last), initial, cfg.depth).policy[ClassTokens..])
  {
    var last := |grids| - 1;
    var cfg := m.stages[Executed(m)[last]];
    var initial := Ones(ClassTokens + grids[last]);
    FreshPolicyValid(grids[last]);
    Stage.PoliciesValid(cfg, Train, ClassTokens, grids[last], keep(last), initial, cfg.depth);
    var p := Stage.Run(cfg, Train, ClassTokens, keep(last), initial, cfg.depth).policy;
    assert forall t :: 0 <= t < |p[ClassTokens..]| ==> p[ClassTokens..][t] == p[ClassTokens + t];
  }
}
