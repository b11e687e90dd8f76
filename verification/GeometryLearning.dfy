/** How learning moves the keys: by bounded steps towards cheaper candidates, not at all when
    frozen, from statistics that are exact for every touch since the last reset. */
module GeometryLearning {
  import opened Options
  import opened Geometry
  import opened TouchHistory
  import opened GeometryRuns

  // ---- one pass moves a key by a bounded step ----

  function Fraction(t: real): real { Clamp(t, 0.0, 1.0) }

  lemma HalfOfLerp(a: Ellipse, b: Ellipse, t: real)
    ensures Lerp(a, Lerp(a, b, t), 0.5) == Lerp(a, b, Fraction(t) / 2.0)
  {
    var s := Fraction(t);
    assert Fraction(s / 2.0) == s / 2.0 && Fraction(0.5) == 0.5;
    HalfOfBlend(a.cx, b.cx, s);
    HalfOfBlend(a.cy, b.cy, s);
    HalfOfBlend(a.rx, b.rx, s);
    HalfOfBlend(a.ry, b.ry, s);
    hide Blend;
  }

  lemma HalfOfBlend(a: real, b: real, s: real)
    ensures Blend(a, Blend(a, b, s), 0.5) == Blend(a, b, s / 2.0)
  {
    var d := (b - a) * s;
    assert (b - a) * (s / 2.0) == d * 0.5;
  }

  lemma CandidateInBounds(t: Tuner, i: nat, root: real -> real)
    requires Sound(t) && IsRoot(root) && i < |t.keys|
    ensures InBounds(t.constraints, t.keys[i].visual, Candidates(t, root)[i])
  {
    var k := t.keys[i];
    assert KeySound(t.constraints, k) && Clampable(t.constraints, k.visual);
    var first := seq(|t.keys|, i requires 0 <= i < |t.keys| => Candidate(t.config, t.constraints, t.keys[i], root));
    var settled := Competition(t.constraints, first, t.neighbors, 0);
    hide Clamped, Candidate, Competition, InBounds, Reachable, Clampable;
    ClampedInBounds(t.constraints, k.visual, k.hit, NeighborHits(t, i), settled[i], root);
    assert Candidates(t, root)[i] == ClampedFor(t, i, settled[i], root);
  }

  /** Where a pass may leave a key: it stays unless the candidate is worth it, and then moves a fraction
      of the way, never more than the configured one, halved when neighbours are in the way. */
  ghost predicate BoundedStep(cf: Config, k: Key, cand: Ellipse, after: Ellipse) {
    var now := Cost(k, k.hit);
    var u := Fraction(cf.maxUpdate);
    if cand == k.hit then after == k.hit
    else if now == 0.0 then after in {cand, Lerp(k.hit, cand, 0.5)}
    else if (now - Cost(k, cand)) / now > cf.hysteresis then after in {Lerp(k.hit, cand, u), Lerp(k.hit, cand, u / 2.0)}
    else after == k.hit
  }

  lemma PassIsBoundedStep(t: Tuner, i: nat, root: real -> real)
    requires Sound(t) && IsRoot(root) && i < |t.keys| && t.config.enabled && !t.config.frozen
    ensures BoundedStep(t.config, t.keys[i], Candidates(t, root)[i], Optimized(t, root).keys[i].hit)
  {
    var k, cand := t.keys[i], Candidates(t, root)[i];
    CandidateInBounds(t, i, root);
    PassOutcome(t, i, root);
    var proposal := Gated(t.config, k, cand);
    if proposal.Some? {
      GateMeans(t.config, k, cand);
      ProposalStep(t, i, cand, proposal.value, root);
    }
    GateMeans(t.config, k, cand);
    hide Optimized, Candidates, ClampedFor, Cost, InBounds, Sound, Gated, Lerp, Fraction, IsRoot;
  }

  /** The gate, read as conditions on the costs. */
  lemma GateMeans(cf: Config, k: Key, cand: Ellipse)
    ensures var now, p := Cost(k, k.hit), Gated(cf, k, cand);
            if cand == k.hit then p == None
            else if now == 0.0 then p == Some(cand)
            else if (now - Cost(k, cand)) / now > cf.hysteresis then p == Some(Lerp(k.hit, cand, cf.maxUpdate))
            else p == None
  {
    hide Cost, Lerp;
  }

  lemma PassOutcome(t: Tuner, i: nat, root: real -> real)
    requires WellFormed(t) && i < |t.keys| && t.config.enabled && !t.config.frozen
    ensures var p := Gated(t.config, t.keys[i], Candidates(t, root)[i]);
            Optimized(t, root).keys[i].hit == if p.Some? then ClampedFor(t, i, p.value, root) else t.keys[i].hit
  {
    hide Candidates, Gated, ClampedFor, LimitFor, Cost;
  }

  lemma ProposalStep(t: Tuner, i: nat, cand: Ellipse, proposal: Ellipse, root: real -> real)
    requires Sound(t) && IsRoot(root) && i < |t.keys|
    requires InBounds(t.constraints, t.keys[i].visual, cand)
    requires proposal in {cand, Lerp(t.keys[i].hit, cand, t.config.maxUpdate)}
    ensures ClampedFor(t, i, proposal, root) in {proposal, Lerp(t.keys[i].hit, proposal, 0.5)}
    ensures Lerp(t.keys[i].hit, cand, t.config.maxUpdate) == Lerp(t.keys[i].hit, cand, Fraction(t.config.maxUpdate))
    ensures Lerp(t.keys[i].hit, Lerp(t.keys[i].hit, cand, t.config.maxUpdate), 0.5)
         == Lerp(t.keys[i].hit, cand, Fraction(t.config.maxUpdate) / 2.0)
  {
    var k := t.keys[i];
    assert KeySound(t.constraints, k) && Clampable(t.constraints, k.visual);
    assert Fraction(Fraction(t.config.maxUpdate)) == Fraction(t.config.maxUpdate);
    HalfOfLerp(k.hit, cand, t.config.maxUpdate);
    LerpInBounds(t.constraints, k.visual, k.hit, cand, t.config.maxUpdate);
    assert Lerp(k.hit, cand, t.config.maxUpdate) == Lerp(k.hit, cand, Fraction(t.config.maxUpdate)) by { hide Blend; }
    hide InBounds, Reachable, Clamped, Lerp, Blend, Clampable;
    ClampedIsStep(t.constraints, k.visual, k.hit, NeighborHits(t, i), proposal, root);
  }

  // ---- frozen geometry ----

  /** Operations that leave frozen geometry frozen, or off. */
  predicate KeepsStill(op: Op) { op.RecordOp? || op.OptimizeOp? || op == FreezeOp(true) || op == EnableOp(false) }

  ghost predicate SameHits(t: Tuner, u: Tuner) {
    |u.keys| == |t.keys| && forall i :: 0 <= i < |t.keys| ==> u.keys[i].hit == t.keys[i].hit
  }

  /** While frozen or switched off, nothing that is recorded or optimized moves any key. */
  lemma {:induction false} FrozenNeverMoves(t: Tuner, ops: seq<Op>, root: real -> real)
    requires Sound(t) && IsRoot(root) && (t.config.frozen || !t.config.enabled)
    requires forall i :: 0 <= i < |ops| ==> KeepsStill(ops[i])
    ensures SameHits(t, Run(t, ops, root)) && (Run(t, ops, root).config.frozen || !Run(t, ops, root).config.enabled)
    decreases |ops|
  {
    if ops != [] {
      var n := |ops| - 1;
      FrozenNeverMoves(t, ops[..n], root);
      StillStep(Run(t, ops[..n], root), ops[n], root);
      hide Sound, Step;
    }
  }

  lemma StillStep(t: Tuner, op: Op, root: real -> real)
    requires WellFormed(t) && KeepsStill(op) && (t.config.frozen || !t.config.enabled)
    ensures var u := Step(t, op, root); SameHits(t, u) && (u.config.frozen || !u.config.enabled)
  {
    hide Candidates, Gated, LimitFor, Add;
  }

  // ---- exact statistics over a run ----

  /** The touches recorded on a key since the last reset. */
  function TouchesOn(ops: seq<Op>, key: nat): seq<Point> {
    if ops == [] then []
    else
      var before := TouchesOn(ops[..|ops| - 1], key);
      match ops[|ops| - 1]
      case RecordOp(k, at) => if k == key then before + [at] else before
      case ResetOp => []
      case _ => before
  }

  ghost predicate Remembers(k: Key, touches: seq<Point>) {
    k.stats == Online(touches) && k.frequency == (if |touches| < U32_MAX then |touches| else U32_MAX)
  }

  lemma OnlineMore(touches: seq<Point>, p: Point)
    ensures Online(touches + [p]) == Add(Online(touches), p)
  {
    assert (touches + [p])[..|touches|] == touches;
  }

  /** One operation keeps each key's statistics those of its own touches. */
  lemma StepRemembers(t: Tuner, op: Op, root: real -> real, key: nat, touches: seq<Point>)
    requires WellFormed(t) && key < |t.keys| && Remembers(t.keys[key], touches)
    ensures var u := Step(t, op, root);
            && |u.keys| == |t.keys|
            && Remembers(u.keys[key], if op.ResetOp? then [] else if op.RecordOp? && op.key == key then touches + [op.at] else touches)
  {
    assert Online([]) == NO_STATS;
    if op.RecordOp? {
      OnlineMore(touches, op.at);
    }
    if op.OptimizeOp? {
      OptimizedForgetsNothing(t, root, key);
    }
    hide Online, Add, Optimized;
  }

  lemma OptimizedForgetsNothing(t: Tuner, root: real -> real, key: nat)
    requires WellFormed(t) && key < |t.keys|
    ensures var u := Optimized(t, root);
            |u.keys| == |t.keys| && u.keys[key].stats == t.keys[key].stats && u.keys[key].frequency == t.keys[key].frequency
  {
    hide Candidates, Gated, LimitFor, ClampedFor;
  }

  /** After any run from new, each key's statistics are the two-pass statistics of exactly the touches
      recorded on it since the last reset; passes, freezes and other keys' touches leave no trace. */
  lemma {:induction false} StatisticsExactOverRuns(t0: Tuner, ops: seq<Op>, root: real -> real, key: nat)
    requires Sound(t0) && IsRoot(root) && key < |t0.keys| && t0.keys[key] == Untouched(t0.keys[key].visual)
    ensures Remembers(Run(t0, ops, root).keys[key], TouchesOn(ops, key))
    ensures Run(t0, ops, root).keys[key].stats == TwoPass(TouchesOn(ops, key))
    decreases |ops|
  {
    if ops != [] {
      var n := |ops| - 1;
      StatisticsExactOverRuns(t0, ops[..n], root, key);
      hide Online, Sound;
      StepRemembers(Run(t0, ops[..n], root), ops[n], root, key, TouchesOn(ops[..n], key));
      hide Step, Remembers;
    }
    OnlineIsTwoPass(TouchesOn(ops, key));
  }

  /** So, at any moment, the cost of any ellipse for a key is the total squared distance of all its
      touches since the last reset, as long as there are no more than 32 bits can count. */
  lemma CostExactOverRuns(t0: Tuner, ops: seq<Op>, root: real -> real, key: nat, e: Ellipse)
    requires Sound(t0) && IsRoot(root) && key < |t0.keys| && t0.keys[key] == Untouched(t0.keys[key].visual)
    requires |TouchesOn(ops, key)| <= U32_MAX
    ensures Cost(Run(t0, ops, root).keys[key], e) == TotalDistance2(e, TouchesOn(ops, key))
    ensures VarianceX(Run(t0, ops, root).keys[key].stats) >= 0.0 && VarianceY(Run(t0, ops, root).keys[key].stats) >= 0.0
  {
    StatisticsExactOverRuns(t0, ops, root, key);
    VariancesNotNegative(TouchesOn(ops, key));
    CostIsTotalDistance(Run(t0, ops, root).keys[key], e, TouchesOn(ops, key));
  }

  /** The touches recorded on any key since the last reset or pass that was let through. */
  function Waiting(t0: Tuner, ops: seq<Op>): nat {
    if ops == [] then 0
    else
      var before := Waiting(t0, ops[..|ops| - 1]);
      match ops[|ops| - 1]
      case RecordOp(k, _) => if k < |t0.keys| then before + 1 else before
      case ResetOp => 0
      case OptimizeOp => if Learning(t0, ops[..|ops| - 1]) then 0 else before
      case _ => before
  }

  /** Switched on and not frozen, by the last operation that says so. */
  predicate Learning(t0: Tuner, ops: seq<Op>) { IsOn(t0, ops) && !IsFrozen(t0, ops) }

  predicate IsOn(t0: Tuner, ops: seq<Op>) {
    if ops == [] then t0.config.enabled
    else if ops[|ops| - 1].EnableOp? then ops[|ops| - 1].on
    else IsOn(t0, ops[..|ops| - 1])
  }

  predicate IsFrozen(t0: Tuner, ops: seq<Op>) {
    if ops == [] then t0.config.frozen
    else if ops[|ops| - 1].FreezeOp? then ops[|ops| - 1].on
    else IsFrozen(t0, ops[..|ops| - 1])
  }

  /** The counter that says when a pass is due counts exactly these, up to what 32 bits hold. */
  lemma {:induction false} PendingCounts(t0: Tuner, ops: seq<Op>, root: real -> real)
    requires Sound(t0) && IsRoot(root) && t0.pending == 0
    ensures Run(t0, ops, root).pending == (if Waiting(t0, ops) < U32_MAX then Waiting(t0, ops) else U32_MAX)
    ensures Run(t0, ops, root).config.enabled == IsOn(t0, ops) && Run(t0, ops, root).config.frozen == IsFrozen(t0, ops)
    decreases |ops|
  {
    if ops != [] {
      var n := |ops| - 1;
      PendingCounts(t0, ops[..n], root);
      PendingStep(Run(t0, ops[..n], root), ops[n], root);
      hide Step, Sound, IsRoot;
    }
  }

  lemma PendingStep(t: Tuner, op: Op, root: real -> real)
    requires WellFormed(t)
    ensures var u := Step(t, op, root);
            && u.config == t.config.(enabled := if op.EnableOp? then op.on else t.config.enabled,
                                     frozen := if op.FreezeOp? then op.on else t.config.frozen)
            && u.pending == match op
                            case RecordOp(k, _) => if k >= |t.keys| || t.pending >= U32_MAX then t.pending else t.pending + 1
                            case ResetOp => 0
                            case OptimizeOp => if t.config.enabled && !t.config.frozen then 0 else t.pending
                            case _ => t.pending
  {
    hide Candidates, Gated, LimitFor, ClampedFor, Add;
  }

  /** A reset restores the drawn keyboard exactly, whatever was learned before. */
  lemma ResetRestores(t0: Tuner, ops: seq<Op>, root: real -> real)
    requires Sound(t0) && IsRoot(root) && t0.pending == 0 && t0.proposals == seq(|t0.keys|, _ => None)
    requires forall i :: 0 <= i < |t0.keys| ==> t0.keys[i] == Untouched(t0.keys[i].visual)
    ensures Run(t0, ops + [ResetOp], root) == t0.(config := Run(t0, ops, root).config)
  {
    assert (ops + [ResetOp])[..|ops|] == ops;
    var t := Run(t0, ops, root);
    assert Run(t0, ops + [ResetOp], root) == Reset(t);
    hide Sound, Run;
    assert Reset(t).keys == t0.keys;
  }
}
