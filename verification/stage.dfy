/** The pruning-aware transformer stage (`Transformer.forward`): the walk
    over the blocks that threads the token policy through them, prunes it
    at the configured block indices, and records the decisions.

    The blocks themselves (attention, MLP) are numeric and not modelled;
    what is modelled is the policy each block receives.  One batch item is
    modelled; every batch item is treated the same way. */
module Stage {
  import opened Common
  import opened Masks

  /** `keep(p, t)`: the forward value of the hard Gumbel sample drawn by
      the `p`-th predictor of the stage for spatial token `t` (true means the
      "keep" channel won).  The sampling itself is random and external. */
  type Sampler = (nat, nat) -> bool

  /** A stage: its number of blocks, the block indices where pruning
      happens, and whether training also returns the final policy. */
  datatype Config = Config(depth: nat, pruningLoc: seq<nat>, distill: bool)

  /** The loop variables of `Transformer.forward` after some blocks. */
  datatype State = State(
    policy: Mask,          // full policy given to the next non-pruning block
    prev: Mask,            // `prev_decision`: the spatial part of the policy
    count: nat,            // `p_count`: pruning locations met so far
    decisions: seq<Mask>,  // `out_pred_prob` (training only)
    sparse: seq<Counts>,   // `sparse` diagnostics (evaluation only)
    fed: seq<Mask>)        // the policy each block so far was run with

  /** The full policy a stage's blocks may see: the declared length, all
      0/1, and every class-token entry 1. */
  predicate Valid(p: Mask, tl: nat, n: nat)
  {
    |p| == tl + n && Binary(p) && forall k :: 0 <= k < tl ==> p[k] == 1
  }

  /** The state before the first block (pit.py:138-143). */
  function Init(tl: nat, policy: Mask): State
    requires tl <= |policy|
  {
    State(policy, policy[tl..], 0, [], [], [])
  }

  /** Block `i` (pit.py:146-167).  At a pruning location the new spatial
      policy is the keep bit times the previous decision, the class tokens
      are prepended as ones, and the decision is recorded (training) or
      counted (evaluation); elsewhere the block runs with the policy as it
      is. */
  function Step(cfg: Config, mode: Mode, tl: nat, keep: Sampler, s: State, i: nat): State
  {
    if i in cfg.pruningLoc then
      var hk := Prune((t: nat) => keep(s.count, t), s.prev);
      var policy := Ones(tl) + hk;
      State(policy, hk, s.count + 1,
            if mode == Train then s.decisions + [hk] else s.decisions,
            if mode == Eval then s.sparse + [Sparsity(policy)] else s.sparse,
            s.fed + [policy])
    else
      s.(fed := s.fed + [s.policy])
  }

  /** The state after the first `n` blocks: a fold of `Step` over the block
      indices `0 .. n-1`. */
  function Run(cfg: Config, mode: Mode, tl: nat, keep: Sampler, policy: Mask, n: nat): State
    requires tl <= |policy|
    decreases n
  {
    if n == 0 then Init(tl, policy) else Step(cfg, mode, tl, keep, Run(cfg, mode, tl, keep, policy, n - 1), n - 1)
  }

  /** The block indices below `n` that are pruning locations, in increasing
      order: exactly the indices `i < n` with `i in loc`. */
  function Locations(loc: seq<nat>, n: nat): (r: seq<nat>)
    ensures |r| <= n
    ensures forall k :: 0 <= k < |r| ==> r[k] < n && r[k] in loc
    ensures forall k, l :: 0 <= k < l < |r| ==> r[k] < r[l]
    ensures forall i :: 0 <= i < n && i in loc ==> i in r
    decreases n
  {
    if n == 0 then [] else Locations(loc, n - 1) + (if n - 1 in loc then [n - 1] else [])
  }

  /** The policy block `i` starts from: the stage's input policy for the
      first block, otherwise the policy the previous block ran with. */
  function Before(fed: seq<Mask>, policy: Mask, i: nat): Mask
    requires i <= |fed|
  {
    if i == 0 then policy else fed[i - 1]
  }

  /** Lengths and counters of the loop state: every block gets a policy of
      the full length, the previous decision is the spatial part of the
      current policy, and one decision (training) or one sparsity record
      (evaluation) exists per pruning location met. */
  lemma {:induction false} RunShape(cfg: Config, mode: Mode, tl: nat, initN: nat, keep: Sampler, policy: Mask, n: nat)
    requires |policy| == tl + initN
    ensures var s := Run(cfg, mode, tl, keep, policy, n);
      && |s.fed| == n
      && |s.policy| == tl + initN
      && s.prev == s.policy[tl..]
      && s.policy == Before(s.fed, policy, n)
      && (forall k :: 0 <= k < n ==> |s.fed[k]| == tl + initN)
      && s.count == |Locations(cfg.pruningLoc, n)|
      && (mode == Train ==> |s.decisions| == s.count && s.sparse == [])
      && (mode == Train ==> forall k :: 0 <= k < |s.decisions| ==> |s.decisions[k]| == initN)
      && (mode == Eval ==> s.decisions == [] && |s.sparse| == s.count)
  {
    RunShaped(cfg, mode, tl, initN, keep, policy, n);
  }

  lemma {:induction false} RunShaped(cfg: Config, mode: Mode, tl: nat, initN: nat, keep: Sampler, policy: Mask, n: nat)
    requires |policy| == tl + initN
    ensures Shaped(cfg, mode, tl, initN, policy, Run(cfg, mode, tl, keep, policy, n), n)
    decreases n
  {
    if n > 0 {
      RunShaped(cfg, mode, tl, initN, keep, policy, n - 1);
      StepShape(cfg, mode, tl, initN, keep, policy, Run(cfg, mode, tl, keep, policy, n - 1), n - 1);
    }
  }

  /** The loop-state shape `RunShape` states, after block `n - 1`. */
  predicate Shaped(cfg: Config, mode: Mode, tl: nat, initN: nat, policy: Mask, s: State, n: nat)
  {
    && |s.fed| == n
    && |s.policy| == tl + initN
    && tl <= |s.policy|
    && s.prev == s.policy[tl..]
    && s.policy == Before(s.fed, policy, n)
    && (forall k :: 0 <= k < n ==> |s.fed[k]| == tl + initN)
    && s.count == |Locations(cfg.pruningLoc, n)|
    && (mode == Train ==> |s.decisions| == s.count && s.sparse == [])
    && (mode == Train ==> forall k :: 0 <= k < |s.decisions| ==> |s.decisions[k]| == initN)
    && (mode == Eval ==> s.decisions == [] && |s.sparse| == s.count)
  }

  /** One block keeps the loop-state shape. */
  lemma StepShape(cfg: Config, mode: Mode, tl: nat, initN: nat, keep: Sampler, policy: Mask, s: State, i: nat)
    requires Shaped(cfg, mode, tl, initN, policy, s, i)
    ensures Shaped(cfg, mode, tl, initN, policy, Step(cfg, mode, tl, keep, s, i), i + 1)
  {
    var s' := Step(cfg, mode, tl, keep, s, i);
    assert s'.fed == s.fed + [s'.policy];
    if i in cfg.pruningLoc {
      assert Locations(cfg.pruningLoc, i + 1) == Locations(cfg.pruningLoc, i) + [i];
      assert |s'.prev| == initN;
      assert s'.policy == Ones(tl) + s'.prev;
      assert s'.prev == s'.policy[tl..];
    } else {
      assert Locations(cfg.pruningLoc, i + 1) == Locations(cfg.pruningLoc, i);
      assert s' == s.(fed := s'.fed);
    }
  }

  /** Block `i` appends exactly one policy to the list. */
  lemma {:induction false} RunLength(cfg: Config, mode: Mode, tl: nat, keep: Sampler, policy: Mask, n: nat)
    requires tl <= |policy|
    ensures |Run(cfg, mode, tl, keep, policy, n).fed| == n
    decreases n
  {
    if n > 0 {
      RunLength(cfg, mode, tl, keep, policy, n - 1);
    }
  }

  /** Running more blocks only appends to the list of block policies. */
  lemma {:induction false} RunPrefix(cfg: Config, mode: Mode, tl: nat, keep: Sampler, policy: Mask, m: nat, n: nat)
    requires tl <= |policy| && m <= n
    ensures |Run(cfg, mode, tl, keep, policy, n).fed| == n
    ensures Run(cfg, mode, tl, keep, policy, n).fed[..m] == Run(cfg, mode, tl, keep, policy, m).fed
    decreases n
  {
    RunLength(cfg, mode, tl, keep, policy, n);
    RunLength(cfg, mode, tl, keep, policy, m);
    if m < n {
      RunPrefix(cfg, mode, tl, keep, policy, m, n - 1);
      var prior := Run(cfg, mode, tl, keep, policy, n - 1).fed;
      assert Run(cfg, mode, tl, keep, policy, n).fed[..n - 1] == prior;
    }
  }

  /** The current policy is the one the last block ran with. */
  lemma {:induction false} RunCurrent(cfg: Config, mode: Mode, tl: nat, keep: Sampler, policy: Mask, n: nat)
    requires tl <= |policy|
    ensures |Run(cfg, mode, tl, keep, policy, n).fed| == n
    ensures Run(cfg, mode, tl, keep, policy, n).policy == Before(Run(cfg, mode, tl, keep, policy, n).fed, policy, n)
    decreases n
  {
    if n > 0 {
      RunCurrent(cfg, mode, tl, keep, policy, n - 1);
    }
  }

  /** The policy block `i` starts from, seen from any later point. */
  lemma BeforeStable(cfg: Config, mode: Mode, tl: nat, keep: Sampler, policy: Mask, i: nat, n: nat)
    requires tl <= |policy| && i <= n
    ensures |Run(cfg, mode, tl, keep, policy, n).fed| == n
    ensures Run(cfg, mode, tl, keep, policy, i).policy == Before(Run(cfg, mode, tl, keep, policy, n).fed, policy, i)
  {
    RunCurrent(cfg, mode, tl, keep, policy, i);
    RunPrefix(cfg, mode, tl, keep, policy, i, n);
    if i > 0 {
      var fed := Run(cfg, mode, tl, keep, policy, n).fed;
      assert fed[i - 1] == fed[..i][i - 1];
    }
  }

  /** A block that is not a pruning location runs with the policy of the
      block before it, or with the stage's input policy if it is the first
      (pit.py:166-167). */
  lemma PassThrough(cfg: Config, mode: Mode, tl: nat, keep: Sampler, policy: Mask, i: nat, n: nat)
    requires tl <= |policy| && i < n && i !in cfg.pruningLoc
    ensures var fed := Run(cfg, mode, tl, keep, policy, n).fed;
      |fed| == n && fed[i] == Before(fed, policy, i)
  {
    BeforeStable(cfg, mode, tl, keep, policy, i, n);
    RunPrefix(cfg, mode, tl, keep, policy, i + 1, n);
    RunLength(cfg, mode, tl, keep, policy, i);
    var fed := Run(cfg, mode, tl, keep, policy, n).fed;
    assert fed[i] == fed[..i + 1][i];
  }

  /** A block at a pruning location runs with a new policy of the same
      length: ones on the class tokens, and on spatial token `t` the entry
      the token had before if this location's keep bit is set and 0
      otherwise, i.e. the keep bit times the previous entry
      (pit.py:149-158).  The predictor used is the one numbered by how many
      pruning locations precede the block. */
  lemma PruningBlock(cfg: Config, mode: Mode, tl: nat, initN: nat, keep: Sampler, policy: Mask, i: nat, n: nat)
    requires |policy| == tl + initN && i < n && i in cfg.pruningLoc
    ensures var fed := Run(cfg, mode, tl, keep, policy, n).fed;
      && |fed| == n
      && |fed[i]| == tl + initN
      && |Before(fed, policy, i)| == tl + initN
      && (forall k :: 0 <= k < tl ==> fed[i][k] == 1)
      && (forall t :: 0 <= t < initN ==>
            fed[i][tl + t] ==
              if keep(|Locations(cfg.pruningLoc, i)|, t) then Before(fed, policy, i)[tl + t] else 0)
  {
    BeforeStable(cfg, mode, tl, keep, policy, i, n);
    RunPrefix(cfg, mode, tl, keep, policy, i + 1, n);
    PruningStep(cfg, mode, tl, initN, keep, policy, i);
    var fed := Run(cfg, mode, tl, keep, policy, n).fed;
    assert fed[i] == fed[..i + 1][i];
  }

  /** `PruningBlock` for the block just run. */
  lemma PruningStep(cfg: Config, mode: Mode, tl: nat, initN: nat, keep: Sampler, policy: Mask, i: nat)
    requires |policy| == tl + initN && i in cfg.pruningLoc
    ensures |Run(cfg, mode, tl, keep, policy, i + 1).fed| == i + 1
    ensures var s := Run(cfg, mode, tl, keep, policy, i);
      var p := Run(cfg, mode, tl, keep, policy, i + 1).fed[i];
      && |s.policy| == tl + initN
      && |p| == tl + initN
      && (forall k :: 0 <= k < tl ==> p[k] == 1)
      && (forall t :: 0 <= t < initN ==>
            p[tl + t] == if keep(|Locations(cfg.pruningLoc, i)|, t) then s.policy[tl + t] else 0)
  {
    RunShape(cfg, mode, tl, initN, keep, policy, i);
    var s := Run(cfg, mode, tl, keep, policy, i);
    PruneFacts(cfg, mode, tl, keep, s, i);
    assert Run(cfg, mode, tl, keep, policy, i + 1).fed[i] == Step(cfg, mode, tl, keep, s, i).policy;
  }

  /** The policy a pruning block runs with, in terms of the loop state
      before it. */
  lemma PruneFacts(cfg: Config, mode: Mode, tl: nat, keep: Sampler, s: State, i: nat)
    requires tl <= |s.policy| && s.prev == s.policy[tl..] && i in cfg.pruningLoc
    ensures var s' := Step(cfg, mode, tl, keep, s, i);
      && s'.fed == s.fed + [s'.policy]
      && |s'.policy| == |s.policy|
      && (forall k :: 0 <= k < tl ==> s'.policy[k] == 1)
      && (forall t :: 0 <= t < |s.policy| - tl ==>
            s'.policy[tl + t] == if keep(s.count, t) then s.policy[tl + t] else 0)
  {
    var hk := Prune((t: nat) => keep(s.count, t), s.prev);
    var p := Ones(tl) + hk;
    assert Step(cfg, mode, tl, keep, s, i).policy == p;
    forall t | 0 <= t < |s.policy| - tl
      ensures p[tl + t] == if keep(s.count, t) then s.policy[tl + t] else 0
    {
      assert p[tl + t] == hk[t];
      assert s.prev[t] == s.policy[tl + t];
    }
  }

  /** One block never raises a spatial policy entry. */
  lemma StepShrinks(cfg: Config, mode: Mode, tl: nat, keep: Sampler, s: State, i: nat)
    requires tl <= |s.policy| && s.prev == s.policy[tl..]
    ensures BelowFrom(Step(cfg, mode, tl, keep, s, i).policy, s.policy, tl)
  {
    var s' := Step(cfg, mode, tl, keep, s, i);
    if i in cfg.pruningLoc {
      assert s'.policy == Ones(tl) + s'.prev;
      forall t | tl <= t < |s'.policy| ensures s'.policy[t] <= s.policy[t] {
        assert s'.policy[t] == s'.prev[t - tl];
        assert s.prev[t - tl] == s.policy[t];
      }
    }
  }

  /** The block policies after `n` blocks only shrink on the spatial
      tokens: each is at most every earlier one and at most the input. */
  predicate Shrinking(policy: Mask, tl: nat, s: State, n: nat)
  {
    && |s.fed| == n
    && s.policy == Before(s.fed, policy, n)
    && (forall i :: 0 <= i < n ==> BelowFrom(s.fed[i], policy, tl))
    && (forall i, j :: 0 <= i <= j < n ==> BelowFrom(s.fed[j], s.fed[i], tl))
  }

  /** One block keeps the block policies shrinking. */
  lemma ShrinkingStep(cfg: Config, mode: Mode, tl: nat, keep: Sampler, policy: Mask, s: State, i: nat)
    requires tl <= |s.policy| && s.prev == s.policy[tl..]
    requires Shrinking(policy, tl, s, i)
    ensures Shrinking(policy, tl, Step(cfg, mode, tl, keep, s, i), i + 1)
  {
    var s' := Step(cfg, mode, tl, keep, s, i);
    StepShrinks(cfg, mode, tl, keep, s, i);
    assert s'.fed == s.fed + [s'.policy];
    if i == 0 {
      assert s.policy == policy;
    } else {
      assert s.policy == s.fed[i - 1];
      BelowFromTrans(s'.policy, s.policy, policy, tl);
      forall k | 0 <= k <= i ensures BelowFrom(s'.fed[i], s'.fed[k], tl) {
        if k < i {
          BelowFromTrans(s'.policy, s.policy, s.fed[k], tl);
        }
      }
    }
  }

  lemma {:induction false} RunShrinking(cfg: Config, mode: Mode, tl: nat, initN: nat, keep: Sampler, policy: Mask, n: nat)
    requires |policy| == tl + initN
    ensures Shrinking(policy, tl, Run(cfg, mode, tl, keep, policy, n), n)
    decreases n
  {
    if n > 0 {
      RunShrinking(cfg, mode, tl, initN, keep, policy, n - 1);
      RunShape(cfg, mode, tl, initN, keep, policy, n - 1);
      ShrinkingStep(cfg, mode, tl, keep, policy, Run(cfg, mode, tl, keep, policy, n - 1), n - 1);
    }
  }

  /** Within a stage the spatial policy never grows: a later block's
      spatial entries are at most an earlier block's, which are at most the
      input's, so a dropped token stays dropped (pit.py:149-162). */
  lemma SpatialMonotone(cfg: Config, mode: Mode, tl: nat, initN: nat, keep: Sampler, policy: Mask, i: nat, j: nat, n: nat)
    requires |policy| == tl + initN && i <= j < n
    ensures var fed := Run(cfg, mode, tl, keep, policy, n).fed;
      && |fed| == n
      && BelowFrom(fed[j], fed[i], tl)
      && BelowFrom(fed[i], policy, tl)
      && (forall t :: tl <= t < |fed[i]| && fed[i][t] == 0 ==> fed[j][t] == 0)
  {
    RunShrinking(cfg, mode, tl, initN, keep, policy, n);
  }

  /** Starting from a valid policy, every block runs with a valid policy:
      class-token entries stay 1 and every entry stays 0 or 1. */
  lemma PoliciesValid(cfg: Config, mode: Mode, tl: nat, initN: nat, keep: Sampler, policy: Mask, n: nat)
    requires Valid(policy, tl, initN)
    ensures Valid(Run(cfg, mode, tl, keep, policy, n).policy, tl, initN)
    ensures var fed := Run(cfg, mode, tl, keep, policy, n).fed;
      |fed| == n && forall k :: 0 <= k < n ==> Valid(fed[k], tl, initN)
  {
    RunValid(cfg, mode, tl, initN, keep, policy, n);
  }

  /** The loop state holds valid policies only. */
  predicate AllValid(tl: nat, initN: nat, s: State, n: nat)
  {
    && Valid(s.policy, tl, initN)
    && |s.fed| == n
    && forall k :: 0 <= k < n ==> Valid(s.fed[k], tl, initN)
  }

  lemma {:induction false} RunValid(cfg: Config, mode: Mode, tl: nat, initN: nat, keep: Sampler, policy: Mask, n: nat)
    requires Valid(policy, tl, initN)
    ensures AllValid(tl, initN, Run(cfg, mode, tl, keep, policy, n), n)
    decreases n
  {
    if n > 0 {
      RunValid(cfg, mode, tl, initN, keep, policy, n - 1);
      RunShape(cfg, mode, tl, initN, keep, policy, n - 1);
      ValidStep(cfg, mode, tl, initN, keep, Run(cfg, mode, tl, keep, policy, n - 1), n - 1);
    }
  }

  /** One block run from a valid policy records and keeps a valid one. */
  lemma ValidStep(cfg: Config, mode: Mode, tl: nat, initN: nat, keep: Sampler, s: State, i: nat)
    requires AllValid(tl, initN, s, i) && s.prev == s.policy[tl..]
    ensures AllValid(tl, initN, Step(cfg, mode, tl, keep, s, i), i + 1)
  {
    var s' := Step(cfg, mode, tl, keep, s, i);
    assert s'.fed == s.fed + [s'.policy];
    if i in cfg.pruningLoc {
      assert Binary(s.prev);
      assert s'.policy == Ones(tl) + s'.prev;
      assert Valid(s'.policy, tl, initN);
    } else {
      assert s'.policy == s.policy;
    }
    forall k | 0 <= k < i + 1 ensures Valid(s'.fed[k], tl, initN) {
      if k < i {
        assert s'.fed[k] == s.fed[k];
      }
    }
  }

  /** In training, the decision list holds one entry per pruning location
      below `n`, in increasing block order, and each entry is the spatial
      part of the policy that block ran with (pit.py:145-151). */
  lemma DecisionsAtLocations(cfg: Config, tl: nat, initN: nat, keep: Sampler, policy: Mask, n: nat)
    requires |policy| == tl + initN
    ensures var s := Run(cfg, Train, tl, keep, policy, n);
      var locs := Locations(cfg.pruningLoc, n);
      && |s.fed| == n
      && (forall k :: 0 <= k < n ==> |s.fed[k]| == tl + initN)
      && |s.decisions| == |locs|
      && forall k :: 0 <= k < |locs| ==> s.decisions[k] == s.fed[locs[k]][tl..]
  {
    RunShape(cfg, Train, tl, initN, keep, policy, n);
    RunDecisions(cfg, tl, initN, keep, policy, n);
  }

  lemma {:induction false} RunDecisions(cfg: Config, tl: nat, initN: nat, keep: Sampler, policy: Mask, n: nat)
    requires |policy| == tl + initN
    ensures DecisionsRecorded(cfg, tl, Run(cfg, Train, tl, keep, policy, n), n)
    decreases n
  {
    if n > 0 {
      RunDecisions(cfg, tl, initN, keep, policy, n - 1);
      RunShape(cfg, Train, tl, initN, keep, policy, n - 1);
      DecisionStep(cfg, tl, keep, Run(cfg, Train, tl, keep, policy, n - 1), n - 1);
    }
  }

  /** The decisions recorded so far are the spatial parts of the policies
      the pruning blocks below `n` ran with. */
  predicate DecisionsRecorded(cfg: Config, tl: nat, s: State, n: nat)
  {
    var locs := Locations(cfg.pruningLoc, n);
    && |s.fed| == n
    && (forall k :: 0 <= k < n ==> tl <= |s.fed[k]|)
    && |s.decisions| == |locs|
    && forall k :: 0 <= k < |locs| ==> s.decisions[k] == s.fed[locs[k]][tl..]
  }

  /** One training block keeps the decisions at the pruning locations. */
  lemma DecisionStep(cfg: Config, tl: nat, keep: Sampler, s: State, i: nat)
    requires tl <= |s.policy| && s.prev == s.policy[tl..]
    requires DecisionsRecorded(cfg, tl, s, i)
    ensures DecisionsRecorded(cfg, tl, Step(cfg, Train, tl, keep, s, i), i + 1)
  {
    var s' := Step(cfg, Train, tl, keep, s, i);
    var locs := Locations(cfg.pruningLoc, i);
    var locs' := Locations(cfg.pruningLoc, i + 1);
    assert s'.fed == s.fed + [s'.policy];
    assert |s'.policy| == |s.policy|;
    forall k | 0 <= k < i + 1 ensures tl <= |s'.fed[k]| {
      if k < i {
        assert s'.fed[k] == s.fed[k];
      }
    }
    if i in cfg.pruningLoc {
      assert locs' == locs + [i];
      assert s'.decisions == s.decisions + [s'.prev];
      assert s'.prev == s'.policy[tl..];
      forall k | 0 <= k < |locs'| ensures s'.decisions[k] == s'.fed[locs'[k]][tl..] {
        if k < |locs| {
          assert locs'[k] == locs[k] < i;
          assert s'.fed[locs[k]] == s.fed[locs[k]];
          assert s'.decisions[k] == s.decisions[k];
        } else {
          assert locs'[k] == i;
          assert s'.fed[i] == s'.policy;
        }
      }
    } else {
      assert locs' == locs;
      assert s'.decisions == s.decisions;
      forall k | 0 <= k < |locs'| ensures s'.decisions[k] == s'.fed[locs'[k]][tl..] {
        assert locs[k] < i;
        assert s'.fed[locs[k]] == s.fed[locs[k]];
      }
    }
  }

  /** The sparsity records kept so far count the policies the pruning
      blocks below `n` ran with. */
  predicate SparsityRecorded(cfg: Config, s: State, n: nat)
  {
    var locs := Locations(cfg.pruningLoc, n);
    && |s.fed| == n
    && |s.sparse| == |locs|
    && forall k :: 0 <= k < |locs| ==> s.sparse[k] == Sparsity(s.fed[locs[k]])
  }

  /** One evaluation block keeps the sparsity records at the pruning
      locations. */
  lemma SparsityStep(cfg: Config, tl: nat, keep: Sampler, s: State, i: nat)
    requires tl <= |s.policy|
    requires SparsityRecorded(cfg, s, i)
    ensures SparsityRecorded(cfg, Step(cfg, Eval, tl, keep, s, i), i + 1)
  {
    var s' := Step(cfg, Eval, tl, keep, s, i);
    var locs := Locations(cfg.pruningLoc, i);
    var locs' := Locations(cfg.pruningLoc, i + 1);
    assert s'.fed == s.fed + [s'.policy];
    if i in cfg.pruningLoc {
      assert locs' == locs + [i];
      assert s'.sparse == s.sparse + [Sparsity(s'.policy)];
      forall k | 0 <= k < |locs'| ensures s'.sparse[k] == Sparsity(s'.fed[locs'[k]]) {
        if k < |locs| {
          assert locs'[k] == locs[k] < i;
          assert s'.fed[locs[k]] == s.fed[locs[k]];
          assert s'.sparse[k] == s.sparse[k];
        } else {
          assert locs'[k] == i;
          assert s'.fed[i] == s'.policy;
        }
      }
    } else {
      assert locs' == locs;
      assert s'.sparse == s.sparse;
      forall k | 0 <= k < |locs'| ensures s'.sparse[k] == Sparsity(s'.fed[locs'[k]]) {
        assert locs[k] < i;
        assert s'.fed[locs[k]] == s.fed[locs[k]];
      }
    }
  }

  /** In evaluation, one sparsity record is kept per pruning location below
      `n`, in block order, each counting the policy that block ran with
      (pit.py:156-160). */
  lemma {:induction false} SparsityAtLocations(cfg: Config, tl: nat, initN: nat, keep: Sampler, policy: Mask, n: nat)
    requires |policy| == tl + initN
    ensures var s := Run(cfg, Eval, tl, keep, policy, n);
      var locs := Locations(cfg.pruningLoc, n);
      && |s.fed| == n
      && |s.sparse| == |locs|
      && forall k :: 0 <= k < |locs| ==> s.sparse[k] == Sparsity(s.fed[locs[k]])
  {
    RunSparsity(cfg, tl, initN, keep, policy, n);
  }

  lemma {:induction false} RunSparsity(cfg: Config, tl: nat, initN: nat, keep: Sampler, policy: Mask, n: nat)
    requires |policy| == tl + initN
    ensures SparsityRecorded(cfg, Run(cfg, Eval, tl, keep, policy, n), n)
    decreases n
  {
    if n > 0 {
      RunSparsity(cfg, tl, initN, keep, policy, n - 1);
      RunShape(cfg, Eval, tl, initN, keep, policy, n - 1);
      SparsityStep(cfg, tl, keep, Run(cfg, Eval, tl, keep, policy, n - 1), n - 1);
    }
  }

  /** The sparsity diagnostic of a valid policy only ever counts dropped
      spatial tokens: the class tokens are never zero. */
  lemma SparsityOfValid(p: Mask, tl: nat, initN: nat)
    requires Valid(p, tl, initN)
    ensures Sparsity(p).zeros + Sparsity(p).nonZeros == tl + initN
    ensures Sparsity(p).zeros == CountZeros(p[tl..])
    ensures Sparsity(p).zeros <= initN
  {
    assert p == p[..tl] + p[tl..];
    CountZerosAppend(p[..tl], p[tl..]);
    ZerosAbsent(p[..tl]);
    CountsPartition(p[tl..]);
  }

  /** The policies the blocks run with do not depend on the mode: the
      decision list and the sparsity records are side products. */
  lemma {:induction false} ModeIndependent(cfg: Config, tl: nat, keep: Sampler, policy: Mask, n: nat)
    requires tl <= |policy|
    ensures Run(cfg, Train, tl, keep, policy, n).fed == Run(cfg, Eval, tl, keep, policy, n).fed
    ensures Run(cfg, Train, tl, keep, policy, n).policy == Run(cfg, Eval, tl, keep, policy, n).policy
    ensures Run(cfg, Train, tl, keep, policy, n).prev == Run(cfg, Eval, tl, keep, policy, n).prev
    ensures Run(cfg, Train, tl, keep, policy, n).count == Run(cfg, Eval, tl, keep, policy, n).count
    decreases n
  {
    if n > 0 {
      ModeIndependent(cfg, tl, keep, policy, n - 1);
    }
  }

  /** What the stage returns besides the token tensors: the final policy
      (training with distillation only) and the decision list (training
      only). */
  datatype Output = Output(policy: Option<Mask>, decisions: Option<seq<Mask>>)

  /** `Transformer.forward` on one batch item with `tl` class tokens and
      `initN = h * w` spatial tokens (pit.py:132-182). */
  function Forward(cfg: Config, mode: Mode, tl: nat, initN: nat, keep: Sampler, policy: Mask): (r: Output)
    requires |policy| == tl + initN
    ensures r.decisions.Some? <==> mode == Train
    ensures r.policy.Some? <==> mode == Train && cfg.distill
    ensures r.policy.Some? ==> |r.policy.value| == tl + initN
    ensures r.decisions.Some? ==>
      && |r.decisions.value| == |Locations(cfg.pruningLoc, cfg.depth)|
      && forall k :: 0 <= k < |r.decisions.value| ==> |r.decisions.value[k]| == initN
  {
    var s := Run(cfg, mode, tl, keep, policy, cfg.depth);
    RunShape(cfg, mode, tl, initN, keep, policy, cfg.depth);
    match mode
    case Train => Output(if cfg.distill then Some(s.policy) else None, Some(s.decisions))
    case Eval => Output(None, None)
  }

  /** From a valid input policy, the returned decisions are 0/1 spatial
      policies that never exceed the input, the k-th one being the spatial
      policy of the k-th pruning block; a returned policy is valid, and is
      the one the last block ran with. */
  lemma ForwardContract(cfg: Config, tl: nat, initN: nat, keep: Sampler, policy: Mask)
    requires Valid(policy, tl, initN)
    ensures var r := Forward(cfg, Train, tl, initN, keep, policy);
      var fed := Run(cfg, Train, tl, keep, policy, cfg.depth).fed;
      var locs := Locations(cfg.pruningLoc, cfg.depth);
      && |fed| == cfg.depth
      && (forall k :: 0 <= k < cfg.depth ==> |fed[k]| == tl + initN)
      && |r.decisions.value| == |locs|
      && (forall k :: 0 <= k < |locs| ==> r.decisions.value[k] == fed[locs[k]][tl..])
      && (forall k :: 0 <= k < |locs| ==> Binary(r.decisions.value[k]))
      && (forall k :: 0 <= k < |locs| ==> BelowFrom(fed[locs[k]], policy, tl))
      && (r.policy.Some? ==> Valid(r.policy.value, tl, initN) && r.policy.value == Before(fed, policy, cfg.depth))
  {
    var s := Run(cfg, Train, tl, keep, policy, cfg.depth);
    var locs := Locations(cfg.pruningLoc, cfg.depth);
    DecisionsAtLocations(cfg, tl, initN, keep, policy, cfg.depth);
    PoliciesValid(cfg, Train, tl, initN, keep, policy, cfg.depth);
    RunShape(cfg, Train, tl, initN, keep, policy, cfg.depth);
    forall k | 0 <= k < |locs| ensures Binary(s.decisions[k]) && BelowFrom(s.fed[locs[k]], policy, tl) {
      assert Valid(s.fed[locs[k]], tl, initN);
      SpatialMonotone(cfg, Train, tl, initN, keep, policy, locs[k], locs[k], cfg.depth);
    }
  }
}
