/** The stage walk as pit.py computes it when a pruning location meets a
    previous decision that has dropped every spatial token.

    The predictor then divides zero by zero in its global branch
    (pit.py:224).  The NaN summary makes every score NaN, so the hard
    Gumbel sample `y_hard - y_soft + y_soft` and the decision
    `sample * prev_decision` are NaN in every entry (pit.py:148-149).  The
    NaN policy reaches the attention of the blocks that run with it, and
    from there every later activation, including those of the later stage
    runs: from then on every decision is NaN.

    `Stage.Run` models the evidently intended behaviour, in which an
    all-dropped decision stays all-dropped.  This module models the code as
    written and relates the two: the as-written decisions are the intended
    ones up to the first pruning point whose input dropped every token, and
    NaN from there on. */
module Poisoning {
  import opened Common
  import opened Masks
  import Stage
  import Predictor
  import Backbone

  /** A spatial decision as pit.py holds it: 0/1 entries, or NaN in every
      entry. */
  datatype Value = Bits(m: Mask) | NaNs(len: nat)

  /** The decision has spatial tokens and drops every one of them. */
  predicate AllDropped(m: Mask)
  {
    |m| > 0 && forall t :: 0 <= t < |m| ==> m[t] == 0
  }

  /** All-dropped is exactly the case in which the predictor's global
      summary divides by a zero policy total (pit.py:224). */
  lemma AllDroppedIsZeroDivision(f: seq<real>, m: Mask)
    requires |f| == |m| && |m| > 0
    ensures AllDropped(m) <==> Predictor.WeightedMean(f, m).None?
  {
  }

  /** The predictor fed with this previous decision produces NaN scores:
      the decision is NaN already, or it drops every token. */
  predicate MakesNaN(v: Value)
  {
    match v
    case NaNs(_) => true
    case Bits(m) => AllDropped(m)
  }

  /** The number of spatial entries of a decision. */
  function Width(v: Value): nat
  {
    match v
    case NaNs(n) => n
    case Bits(m) => |m|
  }

  /** The loop variables of `Transformer.forward` as pit.py computes them;
      `nan` records that the activations hold NaN. */
  datatype Raw = Raw(nan: bool, prev: Value, count: nat, decisions: seq<Value>, sparse: seq<Counts>)

  /** The state before the first block; `nanIn` says whether the stage's
      input activations are NaN already (an earlier stage run met an
      all-dropped decision). */
  function RawInit(nanIn: bool, tl: nat, policy: Mask): Raw
    requires tl <= |policy|
  {
    Raw(nanIn, Bits(policy[tl..]), 0, [], [])
  }

  /** Block `i` as written (pit.py:146-167).  At a pruning location with
      NaN activations or an all-dropped previous decision the decision is
      NaN; `test_irregular_sparsity` then counts no zero, since NaN compares
      unequal to 0 (pit.py:591-593). */
  function RawStep(cfg: Stage.Config, mode: Mode, tl: nat, keep: Stage.Sampler, r: Raw, i: nat): Raw
  {
    if i in cfg.pruningLoc then
      var nan := r.nan || MakesNaN(r.prev);
      var n := Width(r.prev);
      var hk := if nan then NaNs(n) else Bits(Prune((t: nat) => keep(r.count, t), r.prev.m));
      var counts := if nan then Counts(0, tl + n) else Sparsity(Ones(tl) + hk.m);
      Raw(nan, hk, r.count + 1,
          if mode == Train then r.decisions + [hk] else r.decisions,
          if mode == Eval then r.sparse + [counts] else r.sparse)
    else
      r
  }

  /** The as-written state after the first `n` blocks. */
  function RawRun(cfg: Stage.Config, mode: Mode, tl: nat, keep: Stage.Sampler, nanIn: bool, policy: Mask, n: nat): Raw
    requires tl <= |policy|
    decreases n
  {
    if n == 0 then RawInit(nanIn, tl, policy)
    else RawStep(cfg, mode, tl, keep, RawRun(cfg, mode, tl, keep, nanIn, policy, n - 1), n - 1)
  }

  /** The previous decision the pruning block `i` reads: the spatial part of
      the policy it starts from. */
  function InputAt(fed: seq<Mask>, policy: Mask, tl: nat, i: nat): Mask
    requires i <= |fed|
  {
    var b := Stage.Before(fed, policy, i);
    if tl <= |b| then b[tl..] else []
  }

  /** The as-written value of an intended decision whose pruning point is
      poisoned or not. */
  function Lift(poisoned: bool, d: Mask): Value
  {
    if poisoned then NaNs(|d|) else Bits(d)
  }

  /** Some pruning point below `n` reads an all-dropped decision. */
  predicate SomeDropped(cfg: Stage.Config, tl: nat, policy: Mask, fed: seq<Mask>, n: nat)
    requires |fed| == n
  {
    var locs := Stage.Locations(cfg.pruningLoc, n);
    exists k :: 0 <= k < |locs| && AllDropped(InputAt(fed, policy, tl, locs[k]))
  }

  /** Entry `k` of the as-written list is entry `k` of the intended list,
      made NaN when the activations were NaN on entry or the `k`-th pruning
      point read an all-dropped decision. */
  predicate Related(nanIn: bool, fed: seq<Mask>, policy: Mask, tl: nat, locs: seq<nat>, ds: seq<Mask>, rs: seq<Value>)
  {
    && |rs| == |ds|
    && forall k :: 0 <= k < |ds| && k < |locs| && locs[k] <= |fed| ==>
         rs[k] == Lift(nanIn || AllDropped(InputAt(fed, policy, tl, locs[k])), ds[k])
  }

  /** The same for the sparsity records: a NaN policy of `tl + initN`
      entries counts no zero. */
  predicate SparseRelated(nanIn: bool, fed: seq<Mask>, policy: Mask, tl: nat, initN: nat, locs: seq<nat>,
                          cs: seq<Counts>, rs: seq<Counts>)
  {
    && |rs| == |cs|
    && forall k :: 0 <= k < |cs| && k < |locs| && locs[k] <= |fed| ==>
         rs[k] == if nanIn || AllDropped(InputAt(fed, policy, tl, locs[k])) then Counts(0, tl + initN) else cs[k]
  }

  /** The as-written loop state against the intended one after `n` blocks. */
  predicate Tracks(cfg: Stage.Config, tl: nat, initN: nat, nanIn: bool, policy: Mask, s: Stage.State, r: Raw, n: nat)
  {
    var locs := Stage.Locations(cfg.pruningLoc, n);
    && |s.fed| == n
    && |s.prev| == initN
    && r.count == s.count
    && (r.nan <==> nanIn || SomeDropped(cfg, tl, policy, s.fed, n))
    && (r.nan && !nanIn ==> AllDropped(s.prev))
    && r.prev == (if r.nan && s.count > 0 then NaNs(initN) else Bits(s.prev))
    && Related(nanIn, s.fed, policy, tl, locs, s.decisions, r.decisions)
    && SparseRelated(nanIn, s.fed, policy, tl, initN, locs, s.sparse, r.sparse)
  }

  /** Appending a block policy does not change where earlier blocks start. */
  lemma BeforeAppend(fed: seq<Mask>, x: Mask, policy: Mask, tl: nat, j: nat)
    requires j <= |fed|
    ensures InputAt(fed + [x], policy, tl, j) == InputAt(fed, policy, tl, j)
  {
    if j > 0 {
      assert (fed + [x])[j - 1] == fed[j - 1];
    }
  }

  /** A block that is not a pruning location keeps the lists related. */
  lemma RelatedPass(nanIn: bool, fed: seq<Mask>, x: Mask, policy: Mask, tl: nat, initN: nat, locs: seq<nat>,
                    ds: seq<Mask>, rs: seq<Value>, cs: seq<Counts>, rc: seq<Counts>)
    requires forall k :: 0 <= k < |locs| ==> locs[k] < |fed|
    requires Related(nanIn, fed, policy, tl, locs, ds, rs)
    requires SparseRelated(nanIn, fed, policy, tl, initN, locs, cs, rc)
    ensures Related(nanIn, fed + [x], policy, tl, locs, ds, rs)
    ensures SparseRelated(nanIn, fed + [x], policy, tl, initN, locs, cs, rc)
  {
    forall k | 0 <= k < |locs|
      ensures InputAt(fed + [x], policy, tl, locs[k]) == InputAt(fed, policy, tl, locs[k])
    {
      BeforeAppend(fed, x, policy, tl, locs[k]);
    }
  }

  /** A pruning block appends one related entry to each list. */
  lemma RelatedSnoc(nanIn: bool, fed: seq<Mask>, x: Mask, policy: Mask, tl: nat, locs: seq<nat>,
                    ds: seq<Mask>, rs: seq<Value>, d: Mask, v: Value)
    requires forall k :: 0 <= k < |locs| ==> locs[k] < |fed|
    requires |ds| == |locs|
    requires Related(nanIn, fed, policy, tl, locs, ds, rs)
    requires v == Lift(nanIn || AllDropped(InputAt(fed + [x], policy, tl, |fed|)), d)
    ensures Related(nanIn, fed + [x], policy, tl, locs + [|fed|], ds + [d], rs + [v])
  {
    var locs' := locs + [|fed|];
    forall k | 0 <= k < |locs|
      ensures InputAt(fed + [x], policy, tl, locs'[k]) == InputAt(fed, policy, tl, locs[k])
    {
      assert locs'[k] == locs[k];
      BeforeAppend(fed, x, policy, tl, locs[k]);
    }
  }

  lemma SparseSnoc(nanIn: bool, fed: seq<Mask>, x: Mask, policy: Mask, tl: nat, initN: nat, locs: seq<nat>,
                   cs: seq<Counts>, rc: seq<Counts>, c: Counts, v: Counts)
    requires forall k :: 0 <= k < |locs| ==> locs[k] < |fed|
    requires |cs| == |locs|
    requires SparseRelated(nanIn, fed, policy, tl, initN, locs, cs, rc)
    requires v == if nanIn || AllDropped(InputAt(fed + [x], policy, tl, |fed|)) then Counts(0, tl + initN) else c
    ensures SparseRelated(nanIn, fed + [x], policy, tl, initN, locs + [|fed|], cs + [c], rc + [v])
  {
    var locs' := locs + [|fed|];
    forall k | 0 <= k < |locs|
      ensures InputAt(fed + [x], policy, tl, locs'[k]) == InputAt(fed, policy, tl, locs[k])
    {
      assert locs'[k] == locs[k];
      BeforeAppend(fed, x, policy, tl, locs[k]);
    }
  }

  /** Dropping every token of a decision survives pruning. */
  lemma PruneAllDropped(keep: nat -> bool, m: Mask)
    requires AllDropped(m)
    ensures AllDropped(Prune(keep, m))
  {
  }

  /** A pruning block adds its own location after the earlier ones. */
  lemma LocationsSnoc(cfg: Stage.Config, i: nat)
    requires i in cfg.pruningLoc
    ensures Stage.Locations(cfg.pruningLoc, i + 1) == Stage.Locations(cfg.pruningLoc, i) + [i]
  {
  }

  /** An earlier pruning point keeps its input when a block is appended. */
  lemma InputStable(cfg: Stage.Config, tl: nat, policy: Mask, fed: seq<Mask>, x: Mask, i: nat, k: nat)
    requires |fed| == i && i in cfg.pruningLoc && k < |Stage.Locations(cfg.pruningLoc, i)|
    ensures var locs := Stage.Locations(cfg.pruningLoc, i);
      var locs' := Stage.Locations(cfg.pruningLoc, i + 1);
      && k < |locs'| && locs'[k] == locs[k]
      && InputAt(fed + [x], policy, tl, locs'[k]) == InputAt(fed, policy, tl, locs[k])
  {
    var locs := Stage.Locations(cfg.pruningLoc, i);
    LocationsSnoc(cfg, i);
    BeforeAppend(fed, x, policy, tl, locs[k]);
  }

  /** Some pruning point below `i + 1` read an all-dropped decision exactly
      when one below `i` did or the pruning block `i` does. */
  lemma NanStep(cfg: Stage.Config, tl: nat, policy: Mask, fed: seq<Mask>, x: Mask, prev: Mask, i: nat)
    requires |fed| == i && i in cfg.pruningLoc
    requires prev == InputAt(fed + [x], policy, tl, i)
    ensures SomeDropped(cfg, tl, policy, fed + [x], i + 1) <==> SomeDropped(cfg, tl, policy, fed, i) || AllDropped(prev)
  {
    if SomeDropped(cfg, tl, policy, fed, i) {
      DroppedKept(cfg, tl, policy, fed, x, i);
    }
    if AllDropped(prev) {
      DroppedHere(cfg, tl, policy, fed, x, prev, i);
    }
    if SomeDropped(cfg, tl, policy, fed + [x], i + 1) {
      DroppedBack(cfg, tl, policy, fed, x, prev, i);
    }
  }

  lemma DroppedKept(cfg: Stage.Config, tl: nat, policy: Mask, fed: seq<Mask>, x: Mask, i: nat)
    requires |fed| == i && i in cfg.pruningLoc
    requires SomeDropped(cfg, tl, policy, fed, i)
    ensures SomeDropped(cfg, tl, policy, fed + [x], i + 1)
  {
    var locs := Stage.Locations(cfg.pruningLoc, i);
    var locs' := Stage.Locations(cfg.pruningLoc, i + 1);
    var k :| 0 <= k < |locs| && AllDropped(InputAt(fed, policy, tl, locs[k]));
    InputStable(cfg, tl, policy, fed, x, i, k);
    assert AllDropped(InputAt(fed + [x], policy, tl, locs'[k]));
  }

  lemma DroppedHere(cfg: Stage.Config, tl: nat, policy: Mask, fed: seq<Mask>, x: Mask, prev: Mask, i: nat)
    requires |fed| == i && i in cfg.pruningLoc
    requires prev == InputAt(fed + [x], policy, tl, i) && AllDropped(prev)
    ensures SomeDropped(cfg, tl, policy, fed + [x], i + 1)
  {
    var locs := Stage.Locations(cfg.pruningLoc, i);
    var locs' := Stage.Locations(cfg.pruningLoc, i + 1);
    LocationsSnoc(cfg, i);
    assert locs'[|locs|] == i;
    assert AllDropped(InputAt(fed + [x], policy, tl, locs'[|locs|]));
  }

  lemma DroppedBack(cfg: Stage.Config, tl: nat, policy: Mask, fed: seq<Mask>, x: Mask, prev: Mask, i: nat)
    requires |fed| == i && i in cfg.pruningLoc
    requires prev == InputAt(fed + [x], policy, tl, i)
    requires SomeDropped(cfg, tl, policy, fed + [x], i + 1)
    ensures SomeDropped(cfg, tl, policy, fed, i) || AllDropped(prev)
  {
    var locs := Stage.Locations(cfg.pruningLoc, i);
    var locs' := Stage.Locations(cfg.pruningLoc, i + 1);
    var k :| 0 <= k < |locs'| && AllDropped(InputAt(fed + [x], policy, tl, locs'[k]));
    LocationsSnoc(cfg, i);
    if k < |locs| {
      InputStable(cfg, tl, policy, fed, x, i, k);
      assert AllDropped(InputAt(fed, policy, tl, locs[k]));
    } else {
      assert k == |locs|;
      assert locs'[k] == (locs + [i])[|locs|];
    }
  }

  /** The `nan` flag across a block that is not a pruning location. */
  lemma NanPass(cfg: Stage.Config, tl: nat, policy: Mask, fed: seq<Mask>, x: Mask, i: nat)
    requires |fed| == i && i !in cfg.pruningLoc
    ensures SomeDropped(cfg, tl, policy, fed + [x], i + 1) <==> SomeDropped(cfg, tl, policy, fed, i)
  {
    var locs := Stage.Locations(cfg.pruningLoc, i);
    assert Stage.Locations(cfg.pruningLoc, i + 1) == locs;
    forall k | 0 <= k < |locs|
      ensures InputAt(fed + [x], policy, tl, locs[k]) == InputAt(fed, policy, tl, locs[k])
    {
      BeforeAppend(fed, x, policy, tl, locs[k]);
    }
  }

  /** One block keeps the as-written state in step with the intended one. */
  lemma TrackStep(cfg: Stage.Config, mode: Mode, tl: nat, initN: nat, nanIn: bool, keep: Stage.Sampler,
                  policy: Mask, s: Stage.State, r: Raw, i: nat)
    requires Stage.Shaped(cfg, mode, tl, initN, policy, s, i)
    requires Tracks(cfg, tl, initN, nanIn, policy, s, r, i)
    ensures Tracks(cfg, tl, initN, nanIn, policy, Stage.Step(cfg, mode, tl, keep, s, i), RawStep(cfg, mode, tl, keep, r, i), i + 1)
  {
    if i in cfg.pruningLoc {
      TrackPrune(cfg, mode, tl, initN, nanIn, keep, policy, s, r, i);
    } else {
      var s' := Stage.Step(cfg, mode, tl, keep, s, i);
      assert s' == s.(fed := s.fed + [s.policy]);
      assert RawStep(cfg, mode, tl, keep, r, i) == r;
      assert Stage.Locations(cfg.pruningLoc, i + 1) == Stage.Locations(cfg.pruningLoc, i);
      NanPass(cfg, tl, policy, s.fed, s.policy, i);
      RelatedPass(nanIn, s.fed, s.policy, policy, tl, initN, Stage.Locations(cfg.pruningLoc, i),
                  s.decisions, r.decisions, s.sparse, r.sparse);
    }
  }

  lemma TrackPrune(cfg: Stage.Config, mode: Mode, tl: nat, initN: nat, nanIn: bool, keep: Stage.Sampler,
                   policy: Mask, s: Stage.State, r: Raw, i: nat)
    requires i in cfg.pruningLoc
    requires Stage.Shaped(cfg, mode, tl, initN, policy, s, i)
    requires Tracks(cfg, tl, initN, nanIn, policy, s, r, i)
    ensures Tracks(cfg, tl, initN, nanIn, policy, Stage.Step(cfg, mode, tl, keep, s, i), RawStep(cfg, mode, tl, keep, r, i), i + 1)
  {
    var s' := Stage.Step(cfg, mode, tl, keep, s, i);
    var r' := RawStep(cfg, mode, tl, keep, r, i);
    var locs := Stage.Locations(cfg.pruningLoc, i);
    PruneCommon(cfg, mode, tl, initN, nanIn, keep, policy, s, r, i);
    var poisoned := nanIn || AllDropped(s.prev);
    var x := s'.policy;
    assert Stage.Locations(cfg.pruningLoc, i + 1) == locs + [i];
    if mode == Train {
      assert s'.decisions == s.decisions + [s'.prev] && s'.sparse == s.sparse == [];
      assert r'.decisions == r.decisions + [r'.prev] && r'.sparse == r.sparse;
      RelatedSnoc(nanIn, s.fed, x, policy, tl, locs, s.decisions, r.decisions, s'.prev, r'.prev);
    } else {
      PruneEval(cfg, tl, initN, nanIn, keep, s, r, i);
      var c := Sparsity(x);
      SparseSnoc(nanIn, s.fed, x, policy, tl, initN, locs, s.sparse, r.sparse, c,
                 if poisoned then Counts(0, tl + initN) else c);
    }
  }

  /** The fields a pruning block changes, in both modes. */
  lemma PruneCommon(cfg: Stage.Config, mode: Mode, tl: nat, initN: nat, nanIn: bool, keep: Stage.Sampler,
                    policy: Mask, s: Stage.State, r: Raw, i: nat)
    requires i in cfg.pruningLoc
    requires Stage.Shaped(cfg, mode, tl, initN, policy, s, i)
    requires Tracks(cfg, tl, initN, nanIn, policy, s, r, i)
    ensures var s' := Stage.Step(cfg, mode, tl, keep, s, i);
      var r' := RawStep(cfg, mode, tl, keep, r, i);
      var poisoned := nanIn || AllDropped(s.prev);
      && s'.fed == s.fed + [s'.policy]
      && s'.policy == Ones(tl) + s'.prev
      && s'.prev == Prune((t: nat) => keep(s.count, t), s.prev)
      && s'.count == s.count + 1
      && |s'.prev| == initN
      && s.prev == InputAt(s'.fed, policy, tl, i)
      && r'.count == s'.count
      && r'.nan == poisoned
      && (r'.nan <==> nanIn || SomeDropped(cfg, tl, policy, s'.fed, i + 1))
      && (r'.nan && !nanIn ==> AllDropped(s'.prev))
      && r'.prev == Lift(poisoned, s'.prev)
      && r'.prev == (if r'.nan && s'.count > 0 then NaNs(initN) else Bits(s'.prev))
  {
    var s' := Stage.Step(cfg, mode, tl, keep, s, i);
    PruneStage(cfg, mode, tl, initN, keep, policy, s, i);
    FlagsStep(nanIn, r.nan, r.prev, s.prev, s'.prev, SomeDropped(cfg, tl, policy, s.fed, i),
              SomeDropped(cfg, tl, policy, s'.fed, i + 1), s.count, initN);
  }

  /** The intended state across a pruning block. */
  lemma PruneStage(cfg: Stage.Config, mode: Mode, tl: nat, initN: nat, keep: Stage.Sampler,
                   policy: Mask, s: Stage.State, i: nat)
    requires i in cfg.pruningLoc
    requires |s.fed| == i && |s.policy| == tl + initN
    requires s.policy == Stage.Before(s.fed, policy, i) && s.prev == s.policy[tl..]
    ensures var s' := Stage.Step(cfg, mode, tl, keep, s, i);
      && s'.fed == s.fed + [s'.policy]
      && s'.policy == Ones(tl) + s'.prev
      && s'.prev == Prune((t: nat) => keep(s.count, t), s.prev)
      && s'.count == s.count + 1
      && |s.prev| == initN && |s'.prev| == initN
      && s.prev == InputAt(s'.fed, policy, tl, i)
      && (SomeDropped(cfg, tl, policy, s'.fed, i + 1) <==> SomeDropped(cfg, tl, policy, s.fed, i) || AllDropped(s.prev))
      && (AllDropped(s.prev) ==> AllDropped(s'.prev))
  {
    var s' := Stage.Step(cfg, mode, tl, keep, s, i);
    var hk := Prune((t: nat) => keep(s.count, t), s.prev);
    var x := Ones(tl) + hk;
    assert s'.fed == s.fed + [x] && s'.prev == hk && s'.policy == x && s'.count == s.count + 1;
    assert s.prev == InputAt(s.fed + [x], policy, tl, i) by {
      BeforeAppend(s.fed, x, policy, tl, i);
    }
    NanStep(cfg, tl, policy, s.fed, x, s.prev, i);
  }

  /** The sparsity record of a pruning block in evaluation, from the
      as-written flags just before it. */
  lemma PruneEval(cfg: Stage.Config, tl: nat, initN: nat, nanIn: bool, keep: Stage.Sampler,
                  s: Stage.State, r: Raw, i: nat)
    requires i in cfg.pruningLoc
    requires |s.prev| == initN && r.count == s.count && Width(r.prev) == initN && s.decisions == []
    requires r.nan || MakesNaN(r.prev) <==> nanIn || AllDropped(s.prev)
    requires !(nanIn || AllDropped(s.prev)) ==> r.prev == Bits(s.prev)
    ensures var s' := Stage.Step(cfg, Eval, tl, keep, s, i);
      var r' := RawStep(cfg, Eval, tl, keep, r, i);
      var poisoned := nanIn || AllDropped(s.prev);
      && s'.sparse == s.sparse + [Sparsity(s'.policy)]
      && s'.decisions == s.decisions == []
      && r'.decisions == r.decisions
      && r'.sparse == r.sparse + [if poisoned then Counts(0, tl + initN) else Sparsity(s'.policy)]
  {
    var hk := Prune((t: nat) => keep(s.count, t), s.prev);
    var r' := RawStep(cfg, Eval, tl, keep, r, i);
    if nanIn || AllDropped(s.prev) {
      assert r'.sparse == r.sparse + [Counts(0, tl + Width(r.prev))];
    } else {
      assert r'.prev == Bits(hk);
      assert r'.sparse == r.sparse + [Sparsity(Ones(tl) + hk)];
    }
  }

  /** The flags of the as-written state across a pruning block, over named
      values: `someBefore` and `someAfter` say whether a pruning point below
      the block, or up to it, read an all-dropped decision. */
  lemma FlagsStep(nanIn: bool, rnan: bool, rprev: Value, prev: Mask, hk: Mask,
                  someBefore: bool, someAfter: bool, count: nat, initN: nat)
    requires |prev| == initN && |hk| == initN
    requires rnan <==> nanIn || someBefore
    requires rnan && !nanIn ==> AllDropped(prev)
    requires rprev == (if rnan && count > 0 then NaNs(initN) else Bits(prev))
    requires someAfter <==> someBefore || AllDropped(prev)
    requires AllDropped(prev) ==> AllDropped(hk)
    ensures var nan := rnan || MakesNaN(rprev);
      && (nan <==> nanIn || AllDropped(prev))
      && (nan <==> nanIn || someAfter)
      && (nan && !nanIn ==> AllDropped(hk))
      && Width(rprev) == initN
      && (!nan ==> rprev == Bits(prev))
  {
  }

  /** Lemma form of the as-written walk after `n` blocks. */
  lemma {:induction false} RunTracks(cfg: Stage.Config, mode: Mode, tl: nat, initN: nat, nanIn: bool, keep: Stage.Sampler,
                                     policy: Mask, n: nat)
    requires |policy| == tl + initN
    ensures Tracks(cfg, tl, initN, nanIn, policy, Stage.Run(cfg, mode, tl, keep, policy, n),
                   RawRun(cfg, mode, tl, keep, nanIn, policy, n), n)
    decreases n
  {
    if n == 0 {
      assert Stage.Locations(cfg.pruningLoc, 0) == [];
    } else {
      RunTracks(cfg, mode, tl, initN, nanIn, keep, policy, n - 1);
      Stage.RunShaped(cfg, mode, tl, initN, keep, policy, n - 1);
      TrackStep(cfg, mode, tl, initN, nanIn, keep, policy,
                Stage.Run(cfg, mode, tl, keep, policy, n - 1), RawRun(cfg, mode, tl, keep, nanIn, policy, n - 1), n - 1);
    }
  }

  /** The stage walk as written against the intended one: the counter
      agrees; the activations are NaN afterwards exactly when they were on
      entry or some pruning point read an all-dropped decision; and each
      recorded decision and sparsity record is the intended one, except
      that it is NaN (counts no zero) when the activations were NaN on entry
      or its own pruning point read an all-dropped decision
      (pit.py:145-160, 224). */
  lemma RawMatchesRun(cfg: Stage.Config, mode: Mode, tl: nat, initN: nat, nanIn: bool, keep: Stage.Sampler,
                      policy: Mask, n: nat)
    requires |policy| == tl + initN
    ensures var s := Stage.Run(cfg, mode, tl, keep, policy, n);
      var r := RawRun(cfg, mode, tl, keep, nanIn, policy, n);
      var locs := Stage.Locations(cfg.pruningLoc, n);
      && |s.fed| == n
      && r.count == |locs|
      && (r.nan <==> nanIn || exists k :: 0 <= k < |locs| && AllDropped(InputAt(s.fed, policy, tl, locs[k])))
      && r.prev == (if r.nan && |locs| > 0 then NaNs(initN) else Bits(s.prev))
      && |r.decisions| == |s.decisions| <= |locs|
      && (forall k :: 0 <= k < |s.decisions| ==>
            r.decisions[k] == Lift(nanIn || AllDropped(InputAt(s.fed, policy, tl, locs[k])), s.decisions[k]))
      && |r.sparse| == |s.sparse| <= |locs|
      && (forall k :: 0 <= k < |s.sparse| ==>
            r.sparse[k] ==
              if nanIn || AllDropped(InputAt(s.fed, policy, tl, locs[k])) then Counts(0, tl + initN) else s.sparse[k])
  {
    RunTracks(cfg, mode, tl, initN, nanIn, keep, policy, n);
    Stage.RunShape(cfg, mode, tl, initN, keep, policy, n);
  }

  /** In the intended walk an all-dropped decision stays all-dropped: if
      one pruning point reads an all-dropped decision, so does every later
      one (pit.py:149). */
  lemma DroppedStaysDropped(cfg: Stage.Config, mode: Mode, tl: nat, initN: nat, keep: Stage.Sampler,
                            policy: Mask, n: nat, k: nat, l: nat)
    requires |policy| == tl + initN
    requires k <= l < |Stage.Locations(cfg.pruningLoc, n)|
    ensures var fed := Stage.Run(cfg, mode, tl, keep, policy, n).fed;
      var locs := Stage.Locations(cfg.pruningLoc, n);
      && |fed| == n
      && (AllDropped(InputAt(fed, policy, tl, locs[k])) ==> AllDropped(InputAt(fed, policy, tl, locs[l])))
  {
    var fed := Stage.Run(cfg, mode, tl, keep, policy, n).fed;
    var locs := Stage.Locations(cfg.pruningLoc, n);
    var i, j := locs[k], locs[l];
    StartsBelow(cfg, mode, tl, initN, keep, policy, n, i, j);
    var a := Stage.Before(fed, policy, i);
    var b := Stage.Before(fed, policy, j);
    if AllDropped(InputAt(fed, policy, tl, i)) {
      assert InputAt(fed, policy, tl, i) == a[tl..];
      BelowStaysDropped(a, b, tl);
    }
  }

  /** A later block starts from a policy pointwise below (on the spatial
      tokens) the one an earlier block starts from. */
  lemma StartsBelow(cfg: Stage.Config, mode: Mode, tl: nat, initN: nat, keep: Stage.Sampler,
                    policy: Mask, n: nat, i: nat, j: nat)
    requires |policy| == tl + initN && i <= j <= n
    ensures var fed := Stage.Run(cfg, mode, tl, keep, policy, n).fed;
      && |fed| == n
      && BelowFrom(Stage.Before(fed, policy, j), Stage.Before(fed, policy, i), tl)
      && |Stage.Before(fed, policy, i)| == tl + initN
  {
    var fed := Stage.Run(cfg, mode, tl, keep, policy, n).fed;
    Stage.RunShape(cfg, mode, tl, initN, keep, policy, n);
    if j == 0 {
    } else if i == 0 {
      Stage.SpatialMonotone(cfg, mode, tl, initN, keep, policy, j - 1, j - 1, n);
    } else {
      Stage.SpatialMonotone(cfg, mode, tl, initN, keep, policy, i - 1, j - 1, n);
    }
  }

  /** A policy pointwise below an all-dropped one is all-dropped too. */
  lemma BelowStaysDropped(a: Mask, b: Mask, tl: nat)
    requires BelowFrom(b, a, tl) && tl <= |a|
    requires AllDropped(a[tl..])
    ensures AllDropped(b[tl..])
  {
    forall t | 0 <= t < |b| - tl ensures b[tl..][t] == 0 {
      assert b[tl + t] <= a[tl + t] == a[tl..][t];
    }
  }

  /** What a stage run returns as written: whether its activations end up
      NaN, the returned policy's spatial part (training with distillation),
      and the decision list (training). */
  datatype RawOutput = RawOutput(nan: bool, policy: Option<Value>, decisions: Option<seq<Value>>)

  /** `Transformer.forward` as written (pit.py:132-182). */
  function RawForward(cfg: Stage.Config, mode: Mode, tl: nat, initN: nat, keep: Stage.Sampler, nanIn: bool, policy: Mask): (o: RawOutput)
    requires |policy| == tl + initN
  {
    var r := RawRun(cfg, mode, tl, keep, nanIn, policy, cfg.depth);
    match mode
    case Train => RawOutput(r.nan, if cfg.distill then Some(r.prev) else None, Some(r.decisions))
    case Eval => RawOutput(r.nan, None, None)
  }

  /** A stage run as written, from a valid input: every returned decision
      is either NaN or the intended 0/1 decision; it is NaN exactly when the
      activations were NaN on entry or its pruning point read an
      all-dropped decision; and once one decision is NaN every later one is.
      Without NaN on entry and without an all-dropped pruning point the run
      is exactly the intended one. */
  lemma RawForwardContract(cfg: Stage.Config, tl: nat, initN: nat, keep: Stage.Sampler, nanIn: bool, policy: Mask)
    requires Stage.Valid(policy, tl, initN)
    ensures var o := RawForward(cfg, Train, tl, initN, keep, nanIn, policy);
      var out := Stage.Forward(cfg, Train, tl, initN, keep, policy);
      var fed := Stage.Run(cfg, Train, tl, keep, policy, cfg.depth).fed;
      var locs := Stage.Locations(cfg.pruningLoc, cfg.depth);
      var ds := out.decisions.value;
      && |fed| == cfg.depth
      && |o.decisions.value| == |ds| == |locs|
      && (forall k :: 0 <= k < |locs| ==>
            o.decisions.value[k] == NaNs(initN) || (o.decisions.value[k] == Bits(ds[k]) && Binary(ds[k])))
      && (forall k :: 0 <= k < |locs| ==>
            (o.decisions.value[k].NaNs? <==> nanIn || AllDropped(InputAt(fed, policy, tl, locs[k]))))
      && (forall k, l :: 0 <= k <= l < |locs| && o.decisions.value[k].NaNs? ==> o.decisions.value[l].NaNs?)
      && (o.nan <==> nanIn || exists k :: 0 <= k < |locs| && AllDropped(InputAt(fed, policy, tl, locs[k])))
      && (!o.nan ==> o.decisions == Some(seq(|ds|, k requires 0 <= k < |ds| => Bits(ds[k]))))
      && (o.policy.Some? <==> cfg.distill)
      && (o.policy.Some? ==> o.policy.value == NaNs(initN) || o.policy.value == Bits(out.policy.value[tl..]))
  {
    RawForwardEntries(cfg, tl, initN, keep, nanIn, policy);
    RawForwardSticky(cfg, tl, initN, keep, nanIn, policy);
    RawForwardClean(cfg, tl, initN, keep, nanIn, policy);
    RawForwardPolicy(cfg, tl, initN, keep, nanIn, policy);
  }

  /** The entries of `RawForwardContract`. */
  lemma RawForwardEntries(cfg: Stage.Config, tl: nat, initN: nat, keep: Stage.Sampler, nanIn: bool, policy: Mask)
    requires Stage.Valid(policy, tl, initN)
    ensures var o := RawForward(cfg, Train, tl, initN, keep, nanIn, policy);
      var out := Stage.Forward(cfg, Train, tl, initN, keep, policy);
      var fed := Stage.Run(cfg, Train, tl, keep, policy, cfg.depth).fed;
      var locs := Stage.Locations(cfg.pruningLoc, cfg.depth);
      var ds := out.decisions.value;
      && |fed| == cfg.depth
      && |o.decisions.value| == |ds| == |locs|
      && (forall k :: 0 <= k < |locs| ==>
            o.decisions.value[k] == NaNs(initN) || (o.decisions.value[k] == Bits(ds[k]) && Binary(ds[k])))
      && (forall k :: 0 <= k < |locs| ==>
            (o.decisions.value[k].NaNs? <==> nanIn || AllDropped(InputAt(fed, policy, tl, locs[k]))))
      && (o.nan <==> nanIn || exists k :: 0 <= k < |locs| && AllDropped(InputAt(fed, policy, tl, locs[k])))
  {
    RawMatchesRun(cfg, Train, tl, initN, nanIn, keep, policy, cfg.depth);
    Stage.RunShape(cfg, Train, tl, initN, keep, policy, cfg.depth);
    Stage.ForwardContract(cfg, tl, initN, keep, policy);
  }

  /** The NaN entries of `RawForwardContract` are sticky. */
  lemma RawForwardSticky(cfg: Stage.Config, tl: nat, initN: nat, keep: Stage.Sampler, nanIn: bool, policy: Mask)
    requires Stage.Valid(policy, tl, initN)
    ensures var o := RawForward(cfg, Train, tl, initN, keep, nanIn, policy);
      var locs := Stage.Locations(cfg.pruningLoc, cfg.depth);
      && |o.decisions.value| == |locs|
      && (forall k, l :: 0 <= k <= l < |locs| && o.decisions.value[k].NaNs? ==> o.decisions.value[l].NaNs?)
  {
    var locs := Stage.Locations(cfg.pruningLoc, cfg.depth);
    var o := RawForward(cfg, Train, tl, initN, keep, nanIn, policy);
    RawForwardEntries(cfg, tl, initN, keep, nanIn, policy);
    forall k, l | 0 <= k <= l < |locs| && o.decisions.value[k].NaNs?
      ensures o.decisions.value[l].NaNs?
    {
      DroppedStaysDropped(cfg, Train, tl, initN, keep, policy, cfg.depth, k, l);
    }
  }

  /** Without NaN, `RawForwardContract` returns the intended decisions. */
  lemma RawForwardClean(cfg: Stage.Config, tl: nat, initN: nat, keep: Stage.Sampler, nanIn: bool, policy: Mask)
    requires Stage.Valid(policy, tl, initN)
    ensures var o := RawForward(cfg, Train, tl, initN, keep, nanIn, policy);
      var ds := Stage.Forward(cfg, Train, tl, initN, keep, policy).decisions.value;
      !o.nan ==> o.decisions == Some(seq(|ds|, k requires 0 <= k < |ds| => Bits(ds[k])))
  {
    var s := Stage.Run(cfg, Train, tl, keep, policy, cfg.depth);
    var locs := Stage.Locations(cfg.pruningLoc, cfg.depth);
    var o := RawForward(cfg, Train, tl, initN, keep, nanIn, policy);
    var ds := Stage.Forward(cfg, Train, tl, initN, keep, policy).decisions.value;
    RawForwardEntries(cfg, tl, initN, keep, nanIn, policy);
    if !o.nan {
      var lifted := seq(|ds|, k requires 0 <= k < |ds| => Bits(ds[k]));
      forall k | 0 <= k < |ds| ensures o.decisions.value[k] == lifted[k] {
        if AllDropped(InputAt(s.fed, policy, tl, locs[k])) {
          assert false;
        }
      }
      assert o.decisions.value == lifted;
    }
  }

  /** The returned policy of `RawForwardContract`. */
  lemma RawForwardPolicy(cfg: Stage.Config, tl: nat, initN: nat, keep: Stage.Sampler, nanIn: bool, policy: Mask)
    requires Stage.Valid(policy, tl, initN)
    ensures var o := RawForward(cfg, Train, tl, initN, keep, nanIn, policy);
      var out := Stage.Forward(cfg, Train, tl, initN, keep, policy);
      && (o.policy.Some? <==> cfg.distill)
      && (o.policy.Some? ==> o.policy.value == NaNs(initN) || o.policy.value == Bits(out.policy.value[tl..]))
  {
    RawMatchesRun(cfg, Train, tl, initN, nanIn, keep, policy, cfg.depth);
    Stage.RunShape(cfg, Train, tl, initN, keep, policy, cfg.depth);
  }


  /** The smallest input that shows the defect: a stage of two blocks that
      both prune, one class token and one spatial token, and a first
      predictor that drops the token.  The intended walk keeps the token
      dropped; as written, the second predictor divides zero by zero and
      the second decision is NaN. */
  lemma AllDroppedGivesNaN()
    ensures var cfg := Stage.Config(2, [0, 1], false);
      var keep: Stage.Sampler := (p, t) => false;
      && Stage.Run(cfg, Train, 1, keep, Ones(2), 2).decisions == [[0], [0]]
      && RawRun(cfg, Train, 1, keep, false, Ones(2), 2).decisions == [Bits([0]), NaNs(1)]
  {
    IntendedStaysZero();
    AsWrittenTurnsNaN();
  }

  /** The intended half of `AllDroppedGivesNaN`. */
  lemma IntendedStaysZero()
    ensures var cfg := Stage.Config(2, [0, 1], false);
      var keep: Stage.Sampler := (p, t) => false;
      Stage.Run(cfg, Train, 1, keep, Ones(2), 2).decisions == [[0], [0]]
  {
    var cfg := Stage.Config(2, [0, 1], false);
    var keep: Stage.Sampler := (p, t) => false;
    var s0 := Stage.Run(cfg, Train, 1, keep, Ones(2), 0);
    assert s0.prev == [1] by {
      assert s0.prev == Ones(2)[1..];
    }
    var s1 := Stage.Step(cfg, Train, 1, keep, s0, 0);
    var d0 := Prune((t: nat) => keep(0, t), [1]);
    assert d0 == [0] by {
      assert |d0| == 1 && d0[0] == 0;
    }
    assert s1.prev == d0 && s1.decisions == [d0];
    var s2 := Stage.Step(cfg, Train, 1, keep, s1, 1);
    var d1 := Prune((t: nat) => keep(1, t), d0);
    assert d1 == [0] by {
      assert |d1| == 1 && d1[0] == 0;
    }
    assert s2.decisions == [d0, d1];
  }

  /** The as-written half of `AllDroppedGivesNaN`. */
  lemma AsWrittenTurnsNaN()
    ensures var cfg := Stage.Config(2, [0, 1], false);
      var keep: Stage.Sampler := (p, t) => false;
      RawRun(cfg, Train, 1, keep, false, Ones(2), 2).decisions == [Bits([0]), NaNs(1)]
  {
    var cfg := Stage.Config(2, [0, 1], false);
    var keep: Stage.Sampler := (p, t) => false;
    var r0 := RawRun(cfg, Train, 1, keep, false, Ones(2), 0);
    assert r0.prev == Bits([1]) by {
      assert Ones(2)[1..] == [1];
    }
    var r1 := RawStep(cfg, Train, 1, keep, r0, 0);
    var d0 := Prune((t: nat) => keep(0, t), [1]);
    assert d0 == [0] by {
      assert |d0| == 1 && d0[0] == 0;
    }
    assert !r1.nan && r1.prev == Bits(d0) && r1.decisions == [Bits(d0)];
    assert AllDropped(d0);
    var r2 := RawStep(cfg, Train, 1, keep, r1, 1);
    assert r2.decisions == [Bits(d0), NaNs(1)];
  }


  /** The configuration of the `k`-th stage run of a model. */
  function RunConfig(m: Backbone.Model, grids: seq<nat>, k: nat): Stage.Config
    requires Backbone.WellFormed(m) && |grids| == |Backbone.Executed(m)| && k < |grids|
  {
    m.stages[Backbone.Executed(m)[k]]
  }

  /** The block policies of the `k`-th stage run (intended walk). */
  function RunFed(m: Backbone.Model, grids: seq<nat>, keep: nat -> Stage.Sampler, k: nat): seq<Mask>
    requires Backbone.WellFormed(m) && |grids| == |Backbone.Executed(m)| && k < |grids|
  {
    var cfg := RunConfig(m, grids, k);
    Stage.Run(cfg, Train, Backbone.ClassTokens, keep(k), Ones(Backbone.ClassTokens + grids[k]), cfg.depth).fed
  }

  /** The pruning points of the `k`-th stage run. */
  function RunLocations(m: Backbone.Model, grids: seq<nat>, k: nat): seq<nat>
    requires Backbone.WellFormed(m) && |grids| == |Backbone.Executed(m)| && k < |grids|
  {
    var cfg := RunConfig(m, grids, k);
    Stage.Locations(cfg.pruningLoc, cfg.depth)
  }

  /** Pruning point `j` of stage run `k` reads a decision that drops every
      spatial token. */
  predicate PointDropped(m: Backbone.Model, grids: seq<nat>, keep: nat -> Stage.Sampler, k: nat, j: nat)
    requires Backbone.WellFormed(m) && |grids| == |Backbone.Executed(m)| && k < |grids|
    requires j < |RunLocations(m, grids, k)|
  {
    var fed := RunFed(m, grids, keep, k);
    var locs := RunLocations(m, grids, k);
    Stage.RunLength(RunConfig(m, grids, k), Train, Backbone.ClassTokens, keep(k),
                    Ones(Backbone.ClassTokens + grids[k]), RunConfig(m, grids, k).depth);
    AllDropped(InputAt(fed, Ones(Backbone.ClassTokens + grids[k]), Backbone.ClassTokens, locs[j]))
  }

  /** Some pruning point of stage run `k` reads an all-dropped decision. */
  predicate RunDropped(m: Backbone.Model, grids: seq<nat>, keep: nat -> Stage.Sampler, k: nat)
    requires Backbone.WellFormed(m) && |grids| == |Backbone.Executed(m)| && k < |grids|
  {
    exists j :: 0 <= j < |RunLocations(m, grids, k)| && PointDropped(m, grids, keep, k, j)
  }

  /** `RunDropped` spelled out over the run's own inputs. */
  lemma RunDroppedAt(m: Backbone.Model, grids: seq<nat>, keep: nat -> Stage.Sampler, k: nat)
    requires Backbone.WellFormed(m) && |grids| == |Backbone.Executed(m)| && k < |grids|
    ensures var fed := RunFed(m, grids, keep, k);
      var locs := RunLocations(m, grids, k);
      var initial := Ones(Backbone.ClassTokens + grids[k]);
      && |fed| == RunConfig(m, grids, k).depth
      && (RunDropped(m, grids, keep, k) <==>
            exists j :: 0 <= j < |locs| && AllDropped(InputAt(fed, initial, Backbone.ClassTokens, locs[j])))
  {
    var fed := RunFed(m, grids, keep, k);
    var locs := RunLocations(m, grids, k);
    var initial := Ones(Backbone.ClassTokens + grids[k]);
    var cfg := RunConfig(m, grids, k);
    Stage.RunLength(cfg, Train, Backbone.ClassTokens, keep(k), initial, cfg.depth);
    if RunDropped(m, grids, keep, k) {
      var j :| 0 <= j < |locs| && PointDropped(m, grids, keep, k, j);
      assert AllDropped(InputAt(fed, initial, Backbone.ClassTokens, locs[j]));
    }
    if exists j :: 0 <= j < |locs| && AllDropped(InputAt(fed, initial, Backbone.ClassTokens, locs[j])) {
      var j :| 0 <= j < |locs| && AllDropped(InputAt(fed, initial, Backbone.ClassTokens, locs[j]));
      assert PointDropped(m, grids, keep, k, j);
    }
  }

  /** Some stage run before the `k`-th meets an all-dropped decision. */
  predicate DroppedBefore(m: Backbone.Model, grids: seq<nat>, keep: nat -> Stage.Sampler, k: nat)
    requires Backbone.WellFormed(m) && |grids| == |Backbone.Executed(m)| && k <= |grids|
  {
    exists k0 :: 0 <= k0 < k && RunDropped(m, grids, keep, k0)
  }

  /** The `k`-th stage run as written, entered with NaN activations or not. */
  function RawStageRun(m: Backbone.Model, mode: Mode, grids: seq<nat>, keep: nat -> Stage.Sampler, k: nat, nanIn: bool): RawOutput
    requires Backbone.WellFormed(m) && |grids| == |Backbone.Executed(m)| && k < |grids|
  {
    var cfg := RunConfig(m, grids, k);
    RawForward(cfg, mode, Backbone.ClassTokens, grids[k], keep(k), nanIn, Ones(Backbone.ClassTokens + grids[k]))
  }

  /** The first `k` stage runs of `forward_features` as written: whether
      the activations are NaN after them, and (training) their decision
      lists.  The pooling layers carry NaN activations into the next run. */
  datatype Runs = Runs(nan: bool, lists: seq<seq<Value>>)

  function RawRuns(m: Backbone.Model, mode: Mode, grids: seq<nat>, keep: nat -> Stage.Sampler, k: nat): Runs
    requires Backbone.WellFormed(m) && |grids| == |Backbone.Executed(m)| && k <= |grids|
    decreases k
  {
    if k == 0 then Runs(false, [])
    else
      var prior := RawRuns(m, mode, grids, keep, k - 1);
      var o := RawStageRun(m, mode, grids, keep, k - 1, prior.nan);
      Runs(o.nan, prior.lists + [if o.decisions.Some? then o.decisions.value else []])
  }

  /** The pruning-related results of `forward_features` as written. */
  datatype RawFeatures = RawFeatures(nan: bool, prevDecision: Value, decisions: Option<seq<Value>>)

  /** `forward_features` as written (pit.py:352-393). */
  function RawForwardFeatures(m: Backbone.Model, mode: Mode, g: Backbone.PatchGrid, grids: seq<nat>, keep: nat -> Stage.Sampler): Result<RawFeatures, Backbone.ForwardError>
    requires Backbone.WellFormed(m) && |grids| == |Backbone.Executed(m)| && Backbone.GridsFrom(m, g, grids)
  {
    if !Backbone.PosEmbedFits(m, g) then Failure(Backbone.ShapeError)
    else if |m.stages| == 0 then Failure(Backbone.NoStages)
    else if !Backbone.RunsFit(m) then Failure(Backbone.ShapeError)
    else
      var last := |grids| - 1;
      var o := RawStageRun(m, mode, grids, keep, last, RawRuns(m, mode, grids, keep, last).nan);
      var prev := if mode == Train && m.distill then o.policy.value else Bits(Ones(grids[last]));
      var decisions := if mode == Train then Some(Flatten(RawRuns(m, mode, grids, keep, |grids|).lists)) else None;
      Success(RawFeatures(o.nan, prev, decisions))
  }

  /** `l` is the as-written decision list of training run `k`: the
      intended list, entry by entry made NaN when an earlier run or the
      entry's own pruning point met an all-dropped decision. */
  predicate RunListOk(m: Backbone.Model, grids: seq<nat>, keep: nat -> Stage.Sampler, l: seq<Value>, k: nat)
    requires Backbone.WellFormed(m) && |grids| == |Backbone.Executed(m)| && k < |grids|
  {
    var d := Backbone.StageDecisions(m, grids, keep)[k];
    && |l| == |d| == |RunLocations(m, grids, k)|
    && forall j :: 0 <= j < |d| ==>
         && l[j] == Lift(DroppedBefore(m, grids, keep, k) || PointDropped(m, grids, keep, k, j), d[j])
         && Binary(d[j]) && |d[j]| == grids[k]
  }

  /** The first `k` training runs as written against the intended ones. */
  predicate RunsTrack(m: Backbone.Model, grids: seq<nat>, keep: nat -> Stage.Sampler, k: nat)
    requires Backbone.WellFormed(m) && |grids| == |Backbone.Executed(m)| && k <= |grids|
  {
    var rs := RawRuns(m, Train, grids, keep, k);
    && (rs.nan <==> DroppedBefore(m, grids, keep, k))
    && |rs.lists| == k
    && forall k0 :: 0 <= k0 < k ==> RunListOk(m, grids, keep, rs.lists[k0], k0)
  }

  /** Run `k` as written, entered with NaN activations exactly when an
      earlier run met an all-dropped decision, leaves NaN activations
      exactly when some run up to it did, and its decision list is tracked. */
  lemma RunStep(m: Backbone.Model, grids: seq<nat>, keep: nat -> Stage.Sampler, k: nat, nanIn: bool)
    requires Backbone.WellFormed(m) && |grids| == |Backbone.Executed(m)| && k < |grids|
    requires nanIn <==> DroppedBefore(m, grids, keep, k)
    ensures var o := RawStageRun(m, Train, grids, keep, k, nanIn);
      && (o.nan <==> DroppedBefore(m, grids, keep, k + 1))
      && RunListOk(m, grids, keep, o.decisions.value, k)
  {
    var cfg := RunConfig(m, grids, k);
    var initial := Ones(Backbone.ClassTokens + grids[k]);
    var o := RawStageRun(m, Train, grids, keep, k, nanIn);
    var d := Backbone.StageDecisions(m, grids, keep)[k];
    Backbone.FreshPolicyValid(grids[k]);
    RawForwardContract(cfg, Backbone.ClassTokens, grids[k], keep(k), nanIn, initial);
    assert d == Stage.Forward(cfg, Train, Backbone.ClassTokens, grids[k], keep(k), initial).decisions.value;
    var fed := RunFed(m, grids, keep, k);
    var locs := RunLocations(m, grids, k);
    RunDroppedAt(m, grids, keep, k);
    DroppedBeforeStep(m, grids, keep, k);
    IntendedRunFacts(m, grids, keep, k);
    forall j | 0 <= j < |d|
      ensures o.decisions.value[j] == Lift(DroppedBefore(m, grids, keep, k) || PointDropped(m, grids, keep, k, j), d[j])
    {
    }
  }

  /** The intended decisions of training run `k`: one per pruning point,
      each a 0/1 mask over the run's spatial tokens. */
  lemma IntendedRunFacts(m: Backbone.Model, grids: seq<nat>, keep: nat -> Stage.Sampler, k: nat)
    requires Backbone.WellFormed(m) && |grids| == |Backbone.Executed(m)| && k < |grids|
    ensures var d := Backbone.StageDecisions(m, grids, keep)[k];
      && |d| == |RunLocations(m, grids, k)|
      && forall j :: 0 <= j < |d| ==> Binary(d[j]) && |d[j]| == grids[k]
  {
    var cfg := RunConfig(m, grids, k);
    var initial := Ones(Backbone.ClassTokens + grids[k]);
    var d := Backbone.StageDecisions(m, grids, keep)[k];
    var fed := RunFed(m, grids, keep, k);
    var locs := RunLocations(m, grids, k);
    Backbone.FreshPolicyValid(grids[k]);
    Stage.ForwardContract(cfg, Backbone.ClassTokens, grids[k], keep(k), initial);
    assert d == Stage.Forward(cfg, Train, Backbone.ClassTokens, grids[k], keep(k), initial).decisions.value;
    forall j | 0 <= j < |d| ensures |d[j]| == grids[k] {
      assert d[j] == fed[locs[j]][Backbone.ClassTokens..];
    }
  }

  /** The runs before `k + 1` are those before `k` and run `k`. */
  lemma DroppedBeforeStep(m: Backbone.Model, grids: seq<nat>, keep: nat -> Stage.Sampler, k: nat)
    requires Backbone.WellFormed(m) && |grids| == |Backbone.Executed(m)| && k < |grids|
    ensures DroppedBefore(m, grids, keep, k + 1) <==> DroppedBefore(m, grids, keep, k) || RunDropped(m, grids, keep, k)
  {
    if DroppedBefore(m, grids, keep, k + 1) {
      var k0 :| 0 <= k0 < k + 1 && RunDropped(m, grids, keep, k0);
      if k0 < k {
        assert DroppedBefore(m, grids, keep, k);
      }
    }
    if DroppedBefore(m, grids, keep, k) {
      var k0 :| 0 <= k0 < k && RunDropped(m, grids, keep, k0);
      assert 0 <= k0 < k + 1 && RunDropped(m, grids, keep, k0);
    }
    if RunDropped(m, grids, keep, k) {
      assert 0 <= k < k + 1 && RunDropped(m, grids, keep, k);
    }
  }

  /** One more training run keeps the runs tracked. */
  lemma RunsTrackStep(m: Backbone.Model, grids: seq<nat>, keep: nat -> Stage.Sampler, k: nat)
    requires Backbone.WellFormed(m) && |grids| == |Backbone.Executed(m)| && k < |grids|
    requires RunsTrack(m, grids, keep, k)
    ensures RunsTrack(m, grids, keep, k + 1)
  {
    var prior := RawRuns(m, Train, grids, keep, k);
    var o := RawStageRun(m, Train, grids, keep, k, prior.nan);
    var rs := RawRuns(m, Train, grids, keep, k + 1);
    RunStep(m, grids, keep, k, prior.nan);
    assert rs.lists == prior.lists + [o.decisions.value];
    forall k0 | 0 <= k0 < k + 1
      ensures RunListOk(m, grids, keep, rs.lists[k0], k0)
    {
      if k0 < k {
        assert rs.lists[k0] == prior.lists[k0];
      }
    }
  }

  lemma {:induction false} RunsTracked(m: Backbone.Model, grids: seq<nat>, keep: nat -> Stage.Sampler, k: nat)
    requires Backbone.WellFormed(m) && |grids| == |Backbone.Executed(m)| && k <= |grids|
    ensures RunsTrack(m, grids, keep, k)
    decreases k
  {
    if k > 0 {
      RunsTracked(m, grids, keep, k - 1);
      RunsTrackStep(m, grids, keep, k - 1);
    }
  }

  /** In training, the decision list of `forward_features` as written is the
      intended one run by run, entry by entry, except that an entry is NaN
      exactly when an earlier stage run met an all-dropped decision (its NaN
      activations flow on through the pooling layers) or the entry's own
      pruning point reads an all-dropped decision (pit.py:366-384, 224). */
  lemma RawTrainingDecisions(m: Backbone.Model, g: Backbone.PatchGrid, grids: seq<nat>, keep: nat -> Stage.Sampler)
    requires Backbone.WellFormed(m) && |grids| == |Backbone.Executed(m)| && Backbone.GridsFrom(m, g, grids) && |m.stages| > 0
    ensures var r := RawForwardFeatures(m, Train, g, grids, keep);
      var lists := RawRuns(m, Train, grids, keep, |grids|).lists;
      var ds := Backbone.StageDecisions(m, grids, keep);
      && (r.Success? <==> Backbone.PosEmbedFits(m, g) && Backbone.RunsFit(m))
      && (r.Success? ==> r.value.decisions == Some(Flatten(lists)))
      && |lists| == |ds|
      && (forall k :: 0 <= k < |ds| ==> |lists[k]| == |ds[k]| == |RunLocations(m, grids, k)|)
      && (forall k, j :: 0 <= k < |ds| && 0 <= j < |ds[k]| ==>
            lists[k][j] == NaNs(grids[k]) || (lists[k][j] == Bits(ds[k][j]) && Binary(ds[k][j])))
      && (forall k, j :: 0 <= k < |ds| && 0 <= j < |ds[k]| ==>
            (lists[k][j].NaNs? <==> DroppedBefore(m, grids, keep, k) || PointDropped(m, grids, keep, k, j)))
  {
    RunsTracked(m, grids, keep, |grids|);
  }

  /** NaN never goes away: once an entry of the as-written decision list is
      NaN, so is every entry after it, in the same stage run and in every
      later one. */
  lemma NaNPersists(m: Backbone.Model, grids: seq<nat>, keep: nat -> Stage.Sampler, k: nat, j: nat, k': nat, j': nat)
    requires Backbone.WellFormed(m) && |grids| == |Backbone.Executed(m)|
    requires k <= k' < |RawRuns(m, Train, grids, keep, |grids|).lists|
    requires j < |RawRuns(m, Train, grids, keep, |grids|).lists[k]| && j' < |RawRuns(m, Train, grids, keep, |grids|).lists[k']|
    requires k == k' ==> j <= j'
    requires RawRuns(m, Train, grids, keep, |grids|).lists[k][j].NaNs?
    ensures RawRuns(m, Train, grids, keep, |grids|).lists[k'][j'].NaNs?
  {
    RunsTracked(m, grids, keep, |grids|);
    var cfg := RunConfig(m, grids, k);
    var initial := Ones(Backbone.ClassTokens + grids[k]);
    if k == k' {
      if !DroppedBefore(m, grids, keep, k) {
        assert PointDropped(m, grids, keep, k, j);
        DroppedStaysDropped(cfg, Train, Backbone.ClassTokens, grids[k], keep(k), initial, cfg.depth, j, j');
        assert PointDropped(m, grids, keep, k, j');
      }
    } else {
      if DroppedBefore(m, grids, keep, k) {
        var k0 :| 0 <= k0 < k && RunDropped(m, grids, keep, k0);
        assert 0 <= k0 < k' && RunDropped(m, grids, keep, k0);
      } else {
        assert PointDropped(m, grids, keep, k, j);
        assert RunDropped(m, grids, keep, k);
        assert 0 <= k < k' && RunDropped(m, grids, keep, k);
      }
      assert DroppedBefore(m, grids, keep, k');
    }
  }

  /** The distilled training case of `RawFinalDecision`. */
  lemma RawDistilledDecision(m: Backbone.Model, g: Backbone.PatchGrid, grids: seq<nat>, keep: nat -> Stage.Sampler)
    requires Backbone.WellFormed(m) && |grids| == |Backbone.Executed(m)| && Backbone.GridsFrom(m, g, grids) && |m.stages| > 0 && m.distill
    ensures var r := RawForwardFeatures(m, Train, g, grids, keep);
      var f := Backbone.ForwardFeatures(m, Train, g, grids, keep);
      var last := |grids| - 1;
      && (r.Success? <==> Backbone.PosEmbedFits(m, g) && Backbone.RunsFit(m))
      && (f.Success? <==> Backbone.PosEmbedFits(m, g) && Backbone.RunsFit(m))
      && (r.Success? ==>
            r.value.prevDecision ==
              if |RunLocations(m, grids, last)| > 0 && (DroppedBefore(m, grids, keep, last) || RunDropped(m, grids, keep, last))
              then NaNs(grids[last]) else Bits(f.value.prevDecision))
  {
    var last := |grids| - 1;
    var cfg := RunConfig(m, grids, last);
    var initial := Ones(Backbone.ClassTokens + grids[last]);
    RunsTracked(m, grids, keep, last);
    var nanIn := RawRuns(m, Train, grids, keep, last).nan;
    Backbone.FreshPolicyValid(grids[last]);
    RawMatchesRun(cfg, Train, Backbone.ClassTokens, grids[last], nanIn, keep(last), initial, cfg.depth);
    Stage.RunShape(cfg, Train, Backbone.ClassTokens, grids[last], keep(last), initial, cfg.depth);
    var s := Stage.Run(cfg, Train, Backbone.ClassTokens, keep(last), initial, cfg.depth);
    var raw := RawRun(cfg, Train, Backbone.ClassTokens, keep(last), nanIn, initial, cfg.depth);
    var fed := RunFed(m, grids, keep, last);
    var locs := RunLocations(m, grids, last);
    RunDroppedAt(m, grids, keep, last);
  }

  /** The spatial policy returned with the features, as written: the fresh
      all-ones policy unless training with distillation; then the intended
      0/1 policy of the last block, except that it is NaN when the last run
      has a pruning point and either its activations arrive NaN or one of
      its pruning points reads an all-dropped decision (pit.py:376-393). */
  lemma RawFinalDecision(m: Backbone.Model, mode: Mode, g: Backbone.PatchGrid, grids: seq<nat>, keep: nat -> Stage.Sampler)
    requires Backbone.WellFormed(m) && |grids| == |Backbone.Executed(m)| && Backbone.GridsFrom(m, g, grids) && |m.stages| > 0
    ensures var r := RawForwardFeatures(m, mode, g, grids, keep);
      var f := Backbone.ForwardFeatures(m, mode, g, grids, keep);
      var last := |grids| - 1;
      && (r.Success? <==> Backbone.PosEmbedFits(m, g) && Backbone.RunsFit(m))
      && (f.Success? <==> Backbone.PosEmbedFits(m, g) && Backbone.RunsFit(m))
      && (r.Success? && (mode == Eval || !m.distill) ==> r.value.prevDecision == Bits(Ones(grids[last])))
      && (r.Success? && mode == Train && m.distill ==>
            r.value.prevDecision ==
              if |RunLocations(m, grids, last)| > 0 && (DroppedBefore(m, grids, keep, last) || RunDropped(m, grids, keep, last))
              then NaNs(grids[last]) else Bits(f.value.prevDecision))
  {
    if mode == Train && m.distill {
      RawDistilledDecision(m, g, grids, keep);
    }
  }
}
