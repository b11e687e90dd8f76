/** The geometry controller as the program runs it: keys learned on and optimized in place, proved to
    follow the functions of `Geometry`. */
module GeometryMachine {
  import opened Options
  import opened Geometry
  import Spec = Geometry

  /** One touch into the statistics, in the order the sums are updated. */
  method AddTouch(st: Stats, p: Point) returns (next: Stats)
    ensures next == Add(st, p)
  {
    next := MoveMeans(st, p);
    hide Accumulated;
    next := GrowSums(st, p, next);
  }

  method MoveMeans(st: Stats, p: Point) returns (next: Stats)
    ensures var n := (st.samples + 1) as real;
            next == st.(samples := st.samples + 1, meanX := st.meanX + (p.x - st.meanX) / n, meanY := st.meanY + (p.y - st.meanY) / n)
  {
    next := st.(samples := st.samples + 1);
    var n := next.samples as real;
    var dx, dy := p.x - next.meanX, p.y - next.meanY;
    next := next.(meanX := next.meanX + dx / n);
    next := next.(meanY := next.meanY + dy / n);
  }

  /** The sums, once the means have moved from those of `st`. */
  method GrowSums(st: Stats, p: Point, moved: Stats) returns (next: Stats)
    requires moved == st.(samples := st.samples + 1, meanX := moved.meanX, meanY := moved.meanY)
    ensures next == Accumulated(st, p, moved.meanX, moved.meanY)
  {
    next := moved;
    var dx, dy := p.x - st.meanX, p.y - st.meanY;
    var dx2, dy2 := p.x - next.meanX, p.y - next.meanY;
    hide Times;
    next := next.(m2X := next.m2X + Times(dx, dx2));
    next := next.(m2Y := next.m2Y + Times(dy, dy2));
    next := next.(covXY := next.covXY + Times(dx, dy2));
  }

  class AdaptiveGeometry {
    var config: Config
    const constraints: Constraints
    var keys: seq<Key>
    const neighbors: seq<seq<nat>>
    var pending: nat
    var proposals: seq<Option<Ellipse>>
    const root: real -> real

    ghost function View(): Tuner
      reads this
    {
      Tuner(config, constraints, keys, neighbors, pending, proposals)
    }

    ghost predicate Valid()
      reads this
    {
      WellFormed(View())
    }

    constructor (config: Config, constraints: Constraints, visuals: seq<Rect>, neighbors: seq<seq<nat>>, root: real -> real)
      requires WellFormed(NewTuner(config, constraints, visuals, neighbors))
      ensures Valid() && View() == NewTuner(config, constraints, visuals, neighbors) && this.root == root
    {
      this.config, this.constraints, this.neighbors, this.root := config, constraints, neighbors, root;
      keys := seq(|visuals|, i requires 0 <= i < |visuals| => Untouched(visuals[i]));
      pending := 0;
      proposals := seq(|visuals|, _ => None);
      new;
      assert View() == NewTuner(config, constraints, visuals, neighbors);
    }

    method SetEnabled(on: bool)
      requires Valid()
      modifies `config
      ensures Valid() && View() == old(View()).(config := old(config).(enabled := on))
    {
      config := config.(enabled := on);
    }

    method SetFrozen(on: bool)
      requires Valid()
      modifies `config
      ensures Valid() && View() == old(View()).(config := old(config).(frozen := on))
    {
      config := config.(frozen := on);
    }

    /** Every key back to its drawn shape, all learning forgotten. */
    method Reset()
      requires Valid()
      modifies `keys, `pending, `proposals
      ensures Valid() && View() == Spec.Reset(old(View()))
    {
      for i := 0 to |keys|
        modifies `keys
        invariant |keys| == |old(keys)|
        invariant forall k :: 0 <= k < i ==> keys[k] == Untouched(old(keys)[k].visual)
        invariant forall k :: i <= k < |keys| ==> keys[k] == old(keys)[k]
      {
        keys := keys[i := keys[i].(hit := Baseline(keys[i].visual), stats := NO_STATS, frequency := 0, lastLimit := None)];
      }
      pending := 0;
      proposals := seq(|keys|, _ => None);
      ghost var goal := Spec.Reset(old(View()));
      assert keys == goal.keys && proposals == goal.proposals;
    }

    /** A touch on a key; an index off the board is ignored. */
    method RecordHit(key: nat, p: Point)
      requires Valid()
      modifies `keys, `pending
      ensures Valid() && View() == Record(old(View()), key, p)
    {
      if key >= |keys| {
        return;
      }
      var stats := AddTouch(keys[key].stats, p);
      keys := keys[key := keys[key].(stats := stats)];
      keys := keys[key := keys[key].(frequency := Saturating(keys[key].frequency))];
      pending := Saturating(pending);
    }

    method OptimizeDue() returns (due: bool)
      ensures due <==> pending >= config.optimizeEvery
    {
      due := pending >= config.optimizeEvery;
    }

    /** Settle every overlapping pair once, in place. */
    method Compete(given: seq<Ellipse>) returns (cand: seq<Ellipse>)
      requires Valid() && |given| == |keys|
      ensures cand == Competition(constraints, given, neighbors, 0)
    {
      cand := given;
      for i := 0 to |keys|
        invariant |cand| == |keys|
        invariant Competition(constraints, cand, neighbors, i) == Competition(constraints, given, neighbors, 0)
      {
        ghost var before := cand;
        var list := neighbors[i];
        for k := 0 to |list|
          invariant |cand| == |keys|
          invariant SettleAgainst(constraints, cand, i, list, k) == SettleAgainst(constraints, before, i, list, 0)
        {
          var j := list[k];
          if j > i {
            var (a, b) := Settle(constraints, cand[i], cand[j]);
            cand := cand[i := a];
            cand := cand[j := b];
          }
        }
      }
    }

    method NeighborEllipses(i: nat) returns (hits: seq<Ellipse>)
      requires Valid() && i < |keys|
      ensures hits == NeighborHits(View(), i)
    {
      hits := [];
      for k := 0 to |neighbors[i]|
        invariant |hits| == k
        invariant forall m :: 0 <= m < k ==> hits[m] == keys[neighbors[i][m]].hit
      {
        hits := hits + [keys[neighbors[i][k]].hit];
      }
    }

    /** Clamp an ellipse for one key and note the limit that remains. */
    method ClampToConstraints(i: nat, e: Ellipse) returns (out: Ellipse)
      requires Valid() && i < |keys|
      modifies `keys
      ensures Valid() && out == ClampedFor(old(View()), i, e, root)
      ensures keys == old(keys)[i := old(keys)[i].(lastLimit := LimitFor(old(View()), i, out))]
    {
      assert Clampable(constraints, keys[i].visual);
      out := Boxed(constraints, keys[i].visual, e);
      out := Enlarged(constraints, out, root);
      var nbs := NeighborEllipses(i);
      if ViolatedBy(constraints, keys[i].visual, out, nbs) == Some(Overlap) {
        out := Lerp(keys[i].hit, out, 0.5);
      }
      keys := keys[i := keys[i].(lastLimit := ViolatedBy(constraints, keys[i].visual, out, nbs))];
      hide Boxed, Enlarged, ViolatedBy, Lerp, Clampable;
    }

    /** Clamp all candidates, noting the limits as they come. */
    method ClampAll(given: seq<Ellipse>) returns (cand: seq<Ellipse>)
      requires Valid() && |given| == |keys|
      modifies `keys
      ensures Valid() && |cand| == |keys| == |old(keys)|
      ensures forall i :: 0 <= i < |keys| ==> cand[i] == ClampedFor(old(View()), i, given[i], root)
      ensures forall i :: 0 <= i < |keys| ==> keys[i] == old(keys)[i].(lastLimit := LimitFor(old(View()), i, cand[i]))
    {
      cand := [];
      ghost var t := View();
      hide ClampedFor, LimitFor;
      for i := 0 to |keys|
        invariant Valid() && |cand| == i && |keys| == |t.keys|
        invariant forall k :: 0 <= k < i ==> cand[k] == ClampedFor(t, k, given[k], root)
        invariant forall k :: 0 <= k < i ==> keys[k] == t.keys[k].(lastLimit := LimitFor(t, k, cand[k]))
        invariant forall k :: i <= k < |keys| ==> keys[k] == t.keys[k]
      {
        LimitsDoNotMatter(t, View(), i);
        var out := ClampToConstraints(i, given[i]);
        cand := cand + [out];
      }
    }

    /** Gated proposals; the keys change in their noted limits alone. */
    method EvaluateAndPropose() returns (out: seq<Option<Ellipse>>)
      requires Valid()
      modifies `keys
      ensures Valid() && (View(), out) == Evaluated(old(View()), root)
    {
      ghost var t := View();
      var cand: seq<Ellipse> := [];
      for i := 0 to |keys|
        modifies {}
        invariant |cand| == i
        invariant forall k :: 0 <= k < i ==> cand[k] == Candidate(config, constraints, keys[k], root)
      {
        assert Clampable(constraints, keys[i].visual);
        cand := cand + [Candidate(config, constraints, keys[i], root)];
      }
      hide Candidate, ClampedFor, LimitFor, Gated, Competition;
      assert cand == seq(|t.keys|, i requires 0 <= i < |t.keys| => Candidate(t.config, t.constraints, t.keys[i], root));
      cand := Compete(cand);
      cand := ClampAll(cand);
      assert cand == Candidates(t, root);
      out := Propose(cand);
      ghost var goal := Evaluated(t, root);
      assert keys == goal.0.keys;
      assert out == goal.1 by {
        forall i | 0 <= i < |out| ensures Gated(config, keys[i], cand[i]) == Gated(t.config, t.keys[i], cand[i]) {
          GateIgnoresLimit(config, t.keys[i], keys[i], cand[i]);
        }
      }
    }

    method Propose(cand: seq<Ellipse>) returns (out: seq<Option<Ellipse>>)
      requires |cand| == |keys|
      ensures |out| == |keys| && forall i :: 0 <= i < |keys| ==> out[i] == Gated(config, keys[i], cand[i])
    {
      out := seq(|keys|, _ => None);
      for i := 0 to |keys|
        invariant |out| == |keys|
        invariant forall k :: 0 <= k < i ==> out[k] == Gated(config, keys[k], cand[k])
        invariant forall k :: i <= k < |out| ==> out[k] == None
      {
        var current := keys[i].hit;
        if cand[i] == current {
          continue;
        }
        var now, next := Cost(keys[i], current), Cost(keys[i], cand[i]);
        if now == 0.0 {
          out := out[i := Some(cand[i])];
          continue;
        }
        if (now - next) / now > config.hysteresis {
          out := out[i := Some(Lerp(current, cand[i], config.maxUpdate))];
        }
        hide Cost, Lerp;
      }
    }

    /** One pass: propose, clamp again, apply; only noted when off or frozen. */
    method Optimize()
      requires Valid()
      modifies `keys, `pending, `proposals
      ensures Valid() && View() == Optimized(old(View()), root)
    {
      ghost var t := View();
      var props := EvaluateAndPropose();
      if !config.enabled || config.frozen {
        return;
      }
      ghost var noted := keys;
      hide Evaluated, ClampedFor, LimitFor, Optimized, WellFormed;
      props := ClampProposals(t, props);
      ghost var clamped := keys;
      ApplyProposals(props);
      PassAssembled(t, root, noted, clamped, keys, props);
      proposals := props;
      pending := 0;
    }

    method ApplyProposals(props: seq<Option<Ellipse>>)
      requires |props| == |keys|
      modifies `keys
      ensures |keys| == |old(keys)|
      ensures forall k :: 0 <= k < |keys| ==>
                keys[k] == if props[k].Some? then old(keys)[k].(hit := props[k].value) else old(keys)[k]
    {
      for i := 0 to |keys|
        invariant |keys| == |old(keys)|
        invariant forall k :: 0 <= k < i ==>
                    keys[k] == if props[k].Some? then old(keys)[k].(hit := props[k].value) else old(keys)[k]
        invariant forall k :: i <= k < |keys| ==> keys[k] == old(keys)[k]
      {
        if props[i].Some? {
          keys := keys[i := keys[i].(hit := props[i].value)];
        }
      }
    }

    /** The clamp once more over the proposals. */
    method ClampProposals(ghost t: Tuner, given: seq<Option<Ellipse>>) returns (props: seq<Option<Ellipse>>)
      requires Valid() && WellFormed(t) && |given| == |keys| && OnlyLimits(t, View())
      modifies `keys
      ensures Valid() && OnlyLimits(t, View()) && |props| == |keys| == |old(keys)|
      ensures forall k :: 0 <= k < |keys| ==> props[k] == Reclamped(t, k, given[k], root)
      ensures forall k :: 0 <= k < |keys| ==> keys[k] == LimitNoted(t, k, old(keys)[k], props[k])
    {
      props := given;
      hide ClampedFor, LimitFor;
      for i := 0 to |keys|
        invariant Valid() && OnlyLimits(t, View()) && |props| == |keys| == |old(keys)|
        invariant forall k :: 0 <= k < i ==> props[k] == Reclamped(t, k, given[k], root)
        invariant forall k :: i <= k < |keys| ==> props[k] == given[k] && keys[k] == old(keys)[k]
        invariant forall k :: 0 <= k < i ==> keys[k] == LimitNoted(t, k, old(keys)[k], props[k])
      {
        if props[i].Some? {
          LimitsDoNotMatter(t, View(), i);
          var e := ClampToConstraints(i, props[i].value);
          props := props[i := Some(e)];
        }
      }
    }
  }

  ghost function Reclamped(t: Tuner, i: nat, prop: Option<Ellipse>, root: real -> real): Option<Ellipse>
    requires WellFormed(t) && i < |t.keys|
  {
    if prop.Some? then Some(ClampedFor(t, i, prop.value, root)) else None
  }

  ghost function LimitNoted(t: Tuner, i: nat, k: Key, prop: Option<Ellipse>): Key
    requires WellFormed(t) && i < |t.keys|
  {
    if prop.Some? then k.(lastLimit := LimitFor(t, i, prop.value)) else k
  }

  /** Noting, clamping and applying, one loop after another, make one pass. */
  lemma PassAssembled(t: Tuner, root: real -> real, noted: seq<Key>, clamped: seq<Key>, after: seq<Key>, props: seq<Option<Ellipse>>)
    requires WellFormed(t) && t.config.enabled && !t.config.frozen
    requires |noted| == |clamped| == |after| == |props| == |t.keys| && noted == Evaluated(t, root).0.keys
    requires forall k :: 0 <= k < |t.keys| ==> props[k] == Reclamped(t, k, Evaluated(t, root).1[k], root)
    requires forall k :: 0 <= k < |t.keys| ==> clamped[k] == LimitNoted(t, k, noted[k], props[k])
    requires forall k :: 0 <= k < |t.keys| ==>
               after[k] == if props[k].Some? then clamped[k].(hit := props[k].value) else clamped[k]
    ensures Optimized(t, root) == t.(keys := after, proposals := props, pending := 0)
  {
    hide ClampedFor, LimitFor, Evaluated;
    var goal := Optimized(t, root);
    assert after == goal.keys;
    assert props == goal.proposals;
  }

  /** `u` is `t`, but for the limits noted on its keys. */
  ghost predicate OnlyLimits(t: Tuner, u: Tuner) {
    && |u.keys| == |t.keys| && u == t.(keys := u.keys)
    && forall i :: 0 <= i < |t.keys| ==> u.keys[i] == t.keys[i].(lastLimit := u.keys[i].lastLimit)
  }

  /** Clamping looks at shapes only, so the order in which limits are noted is without effect. */
  lemma LimitsDoNotMatter(t: Tuner, u: Tuner, i: nat)
    requires WellFormed(t) && OnlyLimits(t, u) && i < |t.keys|
    ensures WellFormed(u)
    ensures forall e, root :: ClampedFor(u, i, e, root) == ClampedFor(t, i, e, root)
    ensures forall e :: LimitFor(u, i, e) == LimitFor(t, i, e)
  {
    assert NeighborHits(u, i) == NeighborHits(t, i);
    hide Clamped, ViolatedBy;
  }

  lemma GateIgnoresLimit(cf: Config, k: Key, noted: Key, cand: Ellipse)
    requires noted == k.(lastLimit := noted.lastLimit)
    ensures Gated(cf, noted, cand) == Gated(cf, k, cand)
  {
    assert Cost(noted, k.hit) == Cost(k, k.hit) && Cost(noted, cand) == Cost(k, cand);
    hide Cost, Lerp;
  }
}
