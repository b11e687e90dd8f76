/** Where the optimizer aims: told from the touches of a key and its drawn rectangle, for every key after any
    run; and what the competition between neighbours can and cannot do. */
module GeometryAims {
  import opened Options
  import opened Geometry
  import opened TouchHistory
  import opened GeometryRuns
  import opened GeometryLearning

  // ---- nearest points ----

  function Apart(a: real, b: real): real { if a < b then b - a else a - b }

  /** `a` is the point nearest `target` between `low` and `high`. */
  ghost predicate Nearest(a: real, target: real, low: real, high: real) {
    low <= a <= high && forall b :: low <= b <= high ==> Apart(a, target) <= Apart(b, target)
  }

  /** There is only one. */
  lemma NearestIsOne(a: real, b: real, target: real, low: real, high: real)
    requires Nearest(a, target, low, high) && Nearest(b, target, low, high)
    ensures a == b
  {
    assert Apart(a, target) == Apart(b, target);
    Middle(a, b, target);
    assert Apart(a, target) <= Apart((a + b) / 2.0, target);
  }

  lemma Middle(a: real, b: real, target: real)
    requires Apart(a, target) == Apart(b, target)
    ensures a == b || Apart((a + b) / 2.0, target) < Apart(a, target)
  {
  }

  lemma ClampIsNearest(target: real, low: real, high: real)
    requires low <= high
    ensures Nearest(Clamp(target, low, high), target, low, high)
  {
  }

  // ---- what one key aims at ----

  /** One axis of the centre: the point nearest the mean of the touches that the allowed displacement from the drawn
      centre admits, if there are enough touches and their bias reaches the threshold; else the drawn centre. */
  ghost predicate AimsAt(a: real, us: seq<real>, mid: real, half: real, reach: real, cf: Config) {
    if |us| >= cf.minSamples && Apart(Mean(us), mid) >= cf.confidence * half
    then Nearest(a, Mean(us), mid - reach, mid + reach)
    else a == mid
  }

  /** The touches' standard deviation, by the two-pass variance. */
  function Deviation(us: seq<real>, root: real -> real): real {
    if us == [] then root(0.0) else root(Spread(us, us, Mean(us), Mean(us)) / |us| as real)
  }

  /** The ellipse proposed for a key with these touches, before its neighbours are looked at. */
  ghost predicate Proposed(e: Ellipse, v: Rect, touches: seq<Point>, cs: Constraints, cf: Config, root: real -> real) {
    && AimsAt(e.cx, Xs(touches), v.x + v.w / 2.0, v.w / 2.0, cs.maxDx, cf)
    && AimsAt(e.cy, Ys(touches), v.y + v.h / 2.0, v.h / 2.0, cs.maxDy, cf)
    && Nearest(e.rx, v.w / 2.0 + Deviation(Xs(touches), root) / 2.0, cs.minRx, v.w / 2.0 + cs.growX)
    && Nearest(e.ry, v.h / 2.0 + Deviation(Ys(touches), root) / 2.0, cs.minRy, v.h / 2.0 + cs.growY)
  }

  lemma AxisAims(mean: real, us: seq<real>, mid: real, half: real, reach: real, cf: Config, eligible: bool)
    requires mean == Mean(us) && reach >= 0.0 && eligible == (|us| >= cf.minSamples)
    ensures AimsAt(Clamp(mid + Bias(mean, mid, eligible, Times(cf.confidence, half)), mid - reach, mid + reach),
                   us, mid, half, reach, cf)
  {
    hide Mean;
    var threshold := Times(cf.confidence, half);
    assert Abs(mean - mid) == Apart(mean, mid);
    var b := Bias(mean, mid, eligible, threshold);
    if eligible && Apart(mean, mid) >= threshold {
      assert mid + b == mean;
      ClampIsNearest(mean, mid - reach, mid + reach);
    } else {
      assert b == 0.0;
    }
  }

  lemma CandidateProposed(cf: Config, cs: Constraints, k: Key, root: real -> real, touches: seq<Point>)
    requires cs.maxDx >= 0.0 && cs.maxDy >= 0.0 && Clampable(cs, k.visual) && k.stats == TwoPass(touches)
    ensures Proposed(Candidate(cf, cs, k, root), k.visual, touches, cs, cf, root)
  {
    var v, e := k.visual, Candidate(cf, cs, k, root);
    var xs, ys := Xs(touches), Ys(touches);
    DeviationIs(touches, root);
    AxisAims(k.stats.meanX, xs, Center(v).x, v.w / 2.0, cs.maxDx, cf, |touches| >= cf.minSamples);
    AxisAims(k.stats.meanY, ys, Center(v).y, v.h / 2.0, cs.maxDy, cf, |touches| >= cf.minSamples);
    SpreadAims(v.w / 2.0, Deviation(xs, root), cs.minRx, v.w / 2.0 + cs.growX);
    SpreadAims(v.h / 2.0, Deviation(ys, root), cs.minRy, v.h / 2.0 + cs.growY);
    CentreOf(cf, cs, k, root);
    AxesOf(cf, cs, k, root);
    hide AimsAt, Deviation, Mean, Spread, VarianceX, VarianceY, Bias, Candidate, Xs, Ys, Nearest, Clamp, Times;
  }

  lemma SpreadAims(half: real, deviation: real, low: real, high: real)
    requires low <= high
    ensures Nearest(Clamp(half + deviation * 0.5, low, high), half + deviation / 2.0, low, high)
  {
    ClampIsNearest(half + deviation * 0.5, low, high);
  }

  lemma DeviationIs(touches: seq<Point>, root: real -> real)
    ensures root(VarianceX(TwoPass(touches))) == Deviation(Xs(touches), root)
    ensures root(VarianceY(TwoPass(touches))) == Deviation(Ys(touches), root)
  {
    hide Mean, Spread;
  }

  lemma CentreOf(cf: Config, cs: Constraints, k: Key, root: real -> real)
    requires cs.maxDx >= 0.0 && cs.maxDy >= 0.0 && Clampable(cs, k.visual)
    ensures var e, c := Candidate(cf, cs, k, root), Center(k.visual);
            var eligible := k.stats.samples >= cf.minSamples;
            && e.cx == Clamp(c.x + Bias(k.stats.meanX, c.x, eligible, Times(cf.confidence, k.visual.w / 2.0)),
                             c.x - cs.maxDx, c.x + cs.maxDx)
            && e.cy == Clamp(c.y + Bias(k.stats.meanY, c.y, eligible, Times(cf.confidence, k.visual.h / 2.0)),
                             c.y - cs.maxDy, c.y + cs.maxDy)
  {
    hide VarianceX, VarianceY, Bias, Clamp, Times;
  }

  lemma AxesOf(cf: Config, cs: Constraints, k: Key, root: real -> real)
    requires cs.maxDx >= 0.0 && cs.maxDy >= 0.0 && Clampable(cs, k.visual)
    ensures var e, v := Candidate(cf, cs, k, root), k.visual;
            && e.rx == Clamp(v.w / 2.0 + root(VarianceX(k.stats)) * 0.5, cs.minRx, v.w / 2.0 + cs.growX)
            && e.ry == Clamp(v.h / 2.0 + root(VarianceY(k.stats)) * 0.5, cs.minRy, v.h / 2.0 + cs.growY)
  {
    hide VarianceX, VarianceY, Bias, Clamp, Times;
  }

  // ---- competition ----

  /** No semi-axis is below the least a shrunk ellipse keeps. */
  predicate Sized(e: Ellipse) { e.rx >= 0.000001 && e.ry >= 0.000001 }

  /** The boxes of the two share more than the allowed part of the smaller one. */
  predicate TooMuch(cs: Constraints, a: Ellipse, b: Ellipse) {
    TooMuchBy(cs, a, b) > 0.0
  }

  /** By how much. */
  function TooMuchBy(cs: Constraints, a: Ellipse, b: Ellipse): real {
    IntersectionArea(Around(a), Around(b)) - cs.maxOverlap * (Fmin(2.0 * a.rx, 2.0 * b.rx) * Fmin(2.0 * a.ry, 2.0 * b.ry))
  }

  /** The box around an ellipse. */
  function Around(e: Ellipse): Rect { Rect(e.cx - e.rx, e.cy - e.ry, 2.0 * e.rx, 2.0 * e.ry) }

  /** The same centre, and no larger on any axis. */
  predicate NoLarger(e: Ellipse, was: Ellipse) {
    e.cx == was.cx && e.cy == was.cy && e.rx <= was.rx && e.ry <= was.ry && Sized(e)
  }

  predicate Inside(r: Rect, x: real, y: real) { r.x < x < r.x + r.w && r.y < y < r.y + r.h }

  /** The shared area is the area of the rectangle of the points inside both. */
  lemma SharedArea(a: Rect, b: Rect) returns (both: Rect)
    ensures forall x, y :: Inside(both, x, y) <==> Inside(a, x, y) && Inside(b, x, y)
    ensures IntersectionArea(a, b) == if both.w > 0.0 && both.h > 0.0 then both.w * both.h else 0.0
    ensures IntersectionArea(a, b) == IntersectionArea(b, a)
  {
    var x, y := Fmax(a.x, b.x), Fmax(a.y, b.y);
    both := Rect(x, y, Fmin(a.x + a.w, b.x + b.w) - x, Fmin(a.y + a.h, b.y + b.h) - y);
  }

  lemma Share(excess: real, a: real, b: real)
    requires excess > 0.0 && a > 0.0 && b > 0.0
    ensures var cutA, cutB := Times(excess, Per(a, a + b)), Times(excess, Per(b, a + b));
            cutA > 0.0 && cutB > 0.0 && cutA + cutB == excess && InProportion(cutA, cutB, a, b)
  {
    var p, q := Per(a, a + b), Per(b, a + b);
    PerTimes(a, a + b);
    PerTimes(b, a + b);
    hide Per, Times;
    Parts(p, q, a, b, a + b);
    Distribute(excess, p, q);
    OneTimes(excess);
    CutRatio(excess, p, q, a, b);
  }

  lemma PerTimes(a: real, t: real)
    requires t > 0.0
    ensures Times(Per(a, t), t) == a
  {
  }

  lemma OneTimes(x: real)
    ensures Times(x, 1.0) == x
  {
  }

  /** Two parts of a whole make one, in the same proportion. */
  lemma Parts(p: real, q: real, a: real, b: real, t: real)
    requires Times(p, t) == a > 0.0 && Times(q, t) == b > 0.0 && t == a + b
    ensures p + q == 1.0 && p > 0.0 && q > 0.0 && p * b == q * a
  {
    var r := p + q - 1.0;
    assert r * t == Times(p, t) + Times(q, t) - t;
    assert r > 0.0 ==> r * t > 0.0;
    assert r < 0.0 ==> r * t < 0.0;
    assert p <= 0.0 ==> p * t <= 0.0;
    assert q <= 0.0 ==> q * t <= 0.0;
    assert p * (q * t) == q * (p * t);
  }

  lemma CutRatio(x: real, p: real, q: real, a: real, b: real)
    requires x > 0.0 && p > 0.0 && q > 0.0 && p * b == q * a
    ensures Times(x, p) > 0.0 && Times(x, q) > 0.0 && Times(x, p) * b == Times(x, q) * a
  {
    assert (x * p) * b == x * (p * b) && (x * q) * a == x * (q * a);
  }

  lemma Positive(a: real, b: real)
    requires a > 0.0 && b > 0.0
    ensures Times(a, b) > 0.0
  {
  }

  /** The shorter side of the box. */
  function Shorter(e: Ellipse): real { Fmin(2.0 * e.rx, 2.0 * e.ry) }

  predicate InProportion(x: real, y: real, a: real, b: real) { x * b == y * a }

  /** Two neighbours that share too much both shrink on both axes, down to the least at most, keeping their centres;
      by what is shared too much in all, divided in proportion to their shorter sides. Others are left alone. */
  lemma SettleMeans(cs: Constraints, a: Ellipse, b: Ellipse) returns (cutA: real, cutB: real)
    requires Sized(a) && Sized(b)
    ensures !TooMuch(cs, a, b) ==> Settle(cs, a, b) == (a, b)
    ensures TooMuch(cs, a, b) ==>
              && cutA > 0.0 && cutB > 0.0
              && cutA + cutB == TooMuchBy(cs, a, b)
              && InProportion(cutA, cutB, Shorter(a), Shorter(b))
              && Cut(Settle(cs, a, b).0, a, cutA) && Cut(Settle(cs, a, b).1, b, cutB)
    ensures NoLarger(Settle(cs, a, b).0, a) && NoLarger(Settle(cs, a, b).1, b)
  {
    var sideA, sideB := Shorter(a), Shorter(b);
    var excess := TooMuchBy(cs, a, b);
    assert sideA > 0.0 && sideB > 0.0;
    hide Settle, TooMuchBy, Shorter, InProportion;
    SettleIs(cs, a, b);
    cutA, cutB := 0.0, 0.0;
    if TooMuch(cs, a, b) {
      Share(excess, sideA, sideB);
      cutA, cutB := Times(excess, Per(sideA, sideA + sideB)), Times(excess, Per(sideB, sideA + sideB));
      hide Times, Per;
      ShrunkMeans(a, cutA);
      ShrunkMeans(b, cutB);
      hide Shrunk, Cut;
    }
  }

  lemma SettleIs(cs: Constraints, a: Ellipse, b: Ellipse)
    requires Sized(a) && Sized(b)
    ensures var sideA, sideB := Shorter(a), Shorter(b);
            var excess := TooMuchBy(cs, a, b);
            Settle(cs, a, b) == if TooMuch(cs, a, b)
                                then (Shrunk(a, Times(excess, Per(sideA, sideA + sideB))),
                                      Shrunk(b, Times(excess, Per(sideB, sideA + sideB))))
                                else (a, b)
  {
    var w, h := Fmin(2.0 * a.rx, 2.0 * b.rx), Fmin(2.0 * a.ry, 2.0 * b.ry);
    Positive(w, h);
    ExcessIs(cs, a, b);
    hide IntersectionArea, Shrunk, Times, Per, TooMuchBy;
  }

  lemma ExcessIs(cs: Constraints, a: Ellipse, b: Ellipse)
    ensures TooMuchBy(cs, a, b)
         == IntersectionArea(BBox(a), BBox(b))
            - Times(cs.maxOverlap, Times(Fmin(2.0 * a.rx, 2.0 * b.rx), Fmin(2.0 * a.ry, 2.0 * b.ry)))
  {
    hide IntersectionArea, Fmin;
  }

  lemma ShrunkMeans(e: Ellipse, cut: real)
    requires Sized(e) && cut > 0.0
    ensures Cut(Shrunk(e, cut), e, cut) && NoLarger(Shrunk(e, cut), e)
  {
  }

  /** Half the cut comes off each semi-axis, down to the least. */
  ghost predicate Cut(e: Ellipse, was: Ellipse, cut: real) {
    && e.cx == was.cx && e.cy == was.cy
    && Nearest(e.rx, was.rx - cut / 2.0, 0.000001, was.rx) && Nearest(e.ry, was.ry - cut / 2.0, 0.000001, was.ry)
  }

  /** Every ellipse of `now` is one of `was`, no larger. */
  ghost predicate AllNoLarger(now: seq<Ellipse>, was: seq<Ellipse>) {
    |now| == |was| && forall j :: 0 <= j < |was| ==> NoLarger(now[j], was[j])
  }

  lemma {:induction false} AgainstShrinks(cs: Constraints, cand: seq<Ellipse>, i: nat, list: seq<nat>, k: nat)
    requires i < |cand| && k <= |list| && (forall m :: 0 <= m < |list| ==> list[m] < |cand|)
    requires forall j :: 0 <= j < |cand| ==> Sized(cand[j])
    ensures AllNoLarger(SettleAgainst(cs, cand, i, list, k), cand)
    decreases |list| - k
  {
    if k < |list| {
      if list[k] <= i {
        AgainstShrinks(cs, cand, i, list, k + 1);
      } else {
        var (a, b) := Settle(cs, cand[i], cand[list[k]]);
        var x, y := SettleMeans(cs, cand[i], cand[list[k]]);
        var next := cand[i := a][list[k] := b];
        hide Settle, TooMuch, Cut;
        AgainstShrinks(cs, next, i, list, k + 1);
      }
    }
  }

  /** Nobody competes with this key. */
  ghost predicate Alone(neighbors: seq<seq<nat>>, j: nat) {
    j < |neighbors| && neighbors[j] == [] && forall i :: 0 <= i < |neighbors| ==> j !in neighbors[i]
  }

  predicate SameCentre(e: Ellipse, was: Ellipse) { e.cx == was.cx && e.cy == was.cy }

  lemma {:induction false} AgainstKeeps(cs: Constraints, cand: seq<Ellipse>, i: nat, list: seq<nat>, k: nat)
    requires i < |cand| && k <= |list| && (forall m :: 0 <= m < |list| ==> list[m] < |cand|)
    ensures forall j :: 0 <= j < |cand| ==> SameCentre(SettleAgainst(cs, cand, i, list, k)[j], cand[j])
    ensures forall j :: 0 <= j < |cand| && j != i && j !in list[k..] ==> SettleAgainst(cs, cand, i, list, k)[j] == cand[j]
    ensures list[k..] == [] ==> SettleAgainst(cs, cand, i, list, k) == cand
    decreases |list| - k
  {
    if k < |list| {
      assert list[k..] == [list[k]] + list[k + 1..];
      if list[k] <= i {
        AgainstKeeps(cs, cand, i, list, k + 1);
      } else {
        var (a, b) := Settle(cs, cand[i], cand[list[k]]);
        SettleKeeps(cs, cand[i], cand[list[k]]);
        hide Settle;
        AgainstKeeps(cs, cand[i := a][list[k] := b], i, list, k + 1);
      }
    }
  }

  lemma SettleKeeps(cs: Constraints, a: Ellipse, b: Ellipse)
    ensures SameCentre(Settle(cs, a, b).0, a) && SameCentre(Settle(cs, a, b).1, b)
  {
    hide IntersectionArea, Times, Per, Fmin;
  }

  /** The competition keeps every centre, whatever the sizes, and leaves alone who has no neighbours. */
  lemma {:induction false} CompetitionKeeps(cs: Constraints, cand: seq<Ellipse>, neighbors: seq<seq<nat>>, i: nat)
    requires i <= |neighbors| == |cand|
    requires forall i, k :: 0 <= i < |neighbors| && 0 <= k < |neighbors[i]| ==> neighbors[i][k] < |cand|
    ensures forall j :: 0 <= j < |cand| ==> SameCentre(Competition(cs, cand, neighbors, i)[j], cand[j])
    ensures forall j :: 0 <= j < |cand| && Alone(neighbors, j) ==> Competition(cs, cand, neighbors, i)[j] == cand[j]
    decreases |neighbors| - i
  {
    if i < |neighbors| {
      AgainstKeeps(cs, cand, i, neighbors[i], 0);
      assert neighbors[i][0..] == neighbors[i];
      CompetitionKeeps(cs, SettleAgainst(cs, cand, i, neighbors[i], 0), neighbors, i + 1);
      hide SettleAgainst;
    }
  }

  /** And it makes nothing larger. */
  lemma {:induction false} CompetitionShrinks(cs: Constraints, cand: seq<Ellipse>, neighbors: seq<seq<nat>>, i: nat)
    requires i <= |neighbors| == |cand|
    requires forall i, k :: 0 <= i < |neighbors| && 0 <= k < |neighbors[i]| ==> neighbors[i][k] < |cand|
    requires forall j :: 0 <= j < |cand| ==> Sized(cand[j])
    ensures AllNoLarger(Competition(cs, cand, neighbors, i), cand)
    decreases |neighbors| - i
  {
    if i < |neighbors| {
      AgainstShrinks(cs, cand, i, neighbors[i], 0);
      var next := SettleAgainst(cs, cand, i, neighbors[i], 0);
      CompetitionShrinks(cs, next, neighbors, i + 1);
      hide SettleAgainst;
    }
  }

  // ---- the candidate of a key after any run ----

  ghost function FirstCandidates(t: Tuner, root: real -> real): (r: seq<Ellipse>)
    requires WellFormed(t)
    ensures |r| == |t.keys|
  {
    seq(|t.keys|, i requires 0 <= i < |t.keys| => Candidate(t.config, t.constraints, t.keys[i], root))
  }

  lemma CandidateInBox(cf: Config, cs: Constraints, k: Key, root: real -> real)
    requires Clampable(cs, k.visual) && cs.maxDx >= 0.0 && cs.maxDy >= 0.0
    ensures InBox(cs, k.visual, Candidate(cf, cs, k, root))
  {
    hide VarianceX, VarianceY, Bias;
  }

  /** The candidate's centre is the aim, or halfway to it from where the key is, if the whole step overlapped a
      neighbour too much. */
  ghost predicate Towards(cand: Ellipse, hit: Ellipse, aim: Ellipse) {
    || (cand.cx == aim.cx && cand.cy == aim.cy)
    || (cand.cx == (hit.cx + aim.cx) / 2.0 && cand.cy == (hit.cy + aim.cy) / 2.0)
  }

  lemma ClampedTowards(cs: Constraints, visual: Rect, current: Ellipse, neighbors: seq<Ellipse>, e: Ellipse, root: real -> real)
    requires cs.maxDx >= 0.0 && cs.maxDy >= 0.0 && Clampable(cs, visual)
    requires var c := Center(visual); c.x - cs.maxDx <= e.cx <= c.x + cs.maxDx && c.y - cs.maxDy <= e.cy <= c.y + cs.maxDy
    ensures Towards(Clamped(cs, visual, current, neighbors, e, root), current, e)
    ensures neighbors == [] ==> Clamped(cs, visual, current, neighbors, e, root) == Enlarged(cs, Boxed(cs, visual, e), root)
  {
    var b := Boxed(cs, visual, e);
    assert b.cx == e.cx && b.cy == e.cy;
    var out := Enlarged(cs, b, root);
    assert out.cx == e.cx && out.cy == e.cy;
    hide Boxed, Enlarged;
    HalfwayCentre(current, out);
    if neighbors == [] {
      assert ViolatedBy(cs, visual, out, neighbors) != Some(Overlap);
    }
    hide ViolatedBy, Lerp;
  }

  lemma HalfwayCentre(a: Ellipse, b: Ellipse)
    ensures Lerp(a, b, 0.5).cx == (a.cx + b.cx) / 2.0 && Lerp(a, b, 0.5).cy == (a.cy + b.cy) / 2.0
  {
  }

  /** The ellipse has at least the least area, or has been scaled up to it on both axes alike. */
  ghost predicate GrownTo(e: Ellipse, from: Ellipse, cs: Constraints) {
    && e.cx == from.cx && e.cy == from.cy
    && if PI * (from.rx * from.ry) >= cs.minArea then e == from
       else PI * (e.rx * e.ry) == cs.minArea && e.rx * from.ry == e.ry * from.rx
  }

  lemma EnlargedGrows(cs: Constraints, visual: Rect, e: Ellipse, root: real -> real)
    requires Reachable(cs, visual) && Clampable(cs, visual) && IsRoot(root) && InBox(cs, visual, e)
    ensures GrownTo(Enlarged(cs, Boxed(cs, visual, e), root), e, cs)
  {
    BoxedInBox(cs, visual, e);
    assert Area(e) == PI * (e.rx * e.ry);
    if Area(e) < cs.minArea {
      GrownUnder(cs, visual, e, root);
      hide Area, Boxed, Enlarged, Reachable, Clampable, InBox, GrownTo;
    } else {
      hide Boxed, Reachable, Clampable, InBox, ScaledBy;
    }
  }

  lemma GrownUnder(cs: Constraints, visual: Rect, e: Ellipse, root: real -> real)
    requires Reachable(cs, visual) && Clampable(cs, visual) && IsRoot(root) && InBox(cs, visual, e) && Area(e) < cs.minArea
    ensures GrownTo(Enlarged(cs, e, root), e, cs)
  {
    AreaLeast(cs, visual, e);
    assert 0.0 < cs.minRx <= e.rx && 0.0 < cs.minRy <= e.ry;
    hide Area, IsRoot, Reachable, Clampable, InBox, GrownTo;
    var scale := ScaleFits(cs.minArea, Area(e), root);
    assert Enlarged(cs, e, root) == ScaledBy(cs, e, scale);
    hide ScaledBy, Enlarged;
    ScaledGrows(cs, e, scale);
    GrownScaled(ScaledBy(cs, e, scale), e, scale, cs);
  }

  lemma GrownScaled(e: Ellipse, from: Ellipse, scale: real, cs: Constraints)
    requires e == from.(rx := from.rx * scale, ry := from.ry * scale)
    requires scale * scale * Area(from) == cs.minArea && Area(from) < cs.minArea
    ensures GrownTo(e, from, cs)
  {
    assert PI * (from.rx * from.ry) == Area(from);
    GrownArea(from, scale, cs.minArea);
    hide Area;
  }

  lemma GrownArea(e: Ellipse, scale: real, least: real)
    requires scale * scale * Area(e) == least
    ensures PI * ((e.rx * scale) * (e.ry * scale)) == least && (e.rx * scale) * e.ry == (e.ry * scale) * e.rx
  {
    var p := e.rx * e.ry;
    assert Area(e) == PI * p;
    assert (e.rx * scale) * (e.ry * scale) == p * (scale * scale);
    assert PI * (p * (scale * scale)) == (scale * scale) * (PI * p);
  }

  /** After any run, for every key: the candidate of the next pass has its centre at the point the key's own
      touches ask for, or halfway to it; and a key without neighbours is proposed exactly the ellipse they ask
      for, scaled up to the least area if need be. `aim` is that ellipse. */
  lemma CandidateAims(t0: Tuner, ops: seq<Op>, root: real -> real, i: nat) returns (aim: Ellipse)
    requires Sound(t0) && IsRoot(root) && i < |t0.keys| && t0.keys[i] == Untouched(t0.keys[i].visual)
    ensures var t := Run(t0, ops, root);
            && Proposed(aim, t0.keys[i].visual, TouchesOn(ops, i), t0.constraints, t.config, root)
            && Towards(Candidates(t, root)[i], t.keys[i].hit, aim)
            && (Alone(t0.neighbors, i) ==> GrownTo(Candidates(t, root)[i], aim, t0.constraints))
  {
    var t := Run(t0, ops, root);
    StatisticsExactOverRuns(t0, ops, root, i);
    aim := AimOf(t, root, i, TouchesOn(ops, i));
  }

  lemma AimOf(t: Tuner, root: real -> real, i: nat, touches: seq<Point>) returns (aim: Ellipse)
    requires Sound(t) && IsRoot(root) && i < |t.keys| && t.keys[i].stats == TwoPass(touches)
    ensures Proposed(aim, t.keys[i].visual, touches, t.constraints, t.config, root)
    ensures Towards(Candidates(t, root)[i], t.keys[i].hit, aim)
    ensures Alone(t.neighbors, i) ==> GrownTo(Candidates(t, root)[i], aim, t.constraints)
  {
    var cs, k := t.constraints, t.keys[i];
    assert KeySound(cs, k) && Clampable(cs, k.visual);
    var first := FirstCandidates(t, root);
    aim := first[i];
    CandidateProposed(t.config, cs, k, root, touches);
    CandidateInBox(t.config, cs, k, root);
    hide Proposed, Candidate, Sound, KeySound, IsRoot;
    CompetitionKeeps(cs, first, t.neighbors, 0);
    var settled := Competition(cs, first, t.neighbors, 0);
    assert SameCentre(settled[i], aim);
    CandidatesFrom(t, root, i);
    hide Competition, Candidates;
    ClampedTowards(cs, k.visual, k.hit, NeighborHits(t, i), settled[i], root);
    hide Clamped, Boxed, Enlarged, Clampable;
    if Alone(t.neighbors, i) {
      assert NeighborHits(t, i) == [];
      AloneGrows(t, root, i, aim);
    }
  }

  lemma AloneGrows(t: Tuner, root: real -> real, i: nat, aim: Ellipse)
    requires Sound(t) && IsRoot(root) && i < |t.keys| && InBox(t.constraints, t.keys[i].visual, aim)
    ensures var cs, v := t.constraints, t.keys[i].visual;
            Clampable(cs, v) && GrownTo(Enlarged(cs, Boxed(cs, v, aim), root), aim, cs)
  {
    assert KeySound(t.constraints, t.keys[i]);
    EnlargedGrows(t.constraints, t.keys[i].visual, aim, root);
  }

  lemma CandidatesFrom(t: Tuner, root: real -> real, i: nat)
    requires WellFormed(t) && i < |t.keys|
    ensures Candidates(t, root)[i]
         == ClampedFor(t, i, Competition(t.constraints, FirstCandidates(t, root), t.neighbors, 0)[i], root)
  {
    hide Competition, Candidate, Clamped;
  }

  // ---- a pass never moves a key away ----

  /** A step of some fraction towards a point comes no further from it. */
  lemma StepNearer(from: real, to: real, s: real, aim: real)
    requires 0.0 <= s <= 1.0 && (to == aim || to == (from + aim) / 2.0)
    ensures Apart(Blend(from, to, s), aim) <= Apart(from, aim)
  {
    var m := Part(to - from, s);
    assert Blend(from, to, s) == from + m;
    hide Blend;
  }

  /** Some fraction of a distance lies within it. */
  lemma Part(d: real, s: real) returns (m: real)
    requires 0.0 <= s <= 1.0
    ensures m == d * s && (if d >= 0.0 then 0.0 <= m <= d else d <= m <= 0.0)
  {
    m := d * s;
    if d >= 0.0 {
      Weighted(d, s);
    } else {
      Weighted(-d, s);
      assert (-d) * s == -(d * s);
    }
  }

  lemma Weighted(d: real, s: real)
    requires d >= 0.0 && 0.0 <= s <= 1.0
    ensures 0.0 <= d * s <= d
  {
    assert d * s <= d * 1.0;
  }

  /** Whatever was touched, recorded and optimized before: the next pass leaves the key's centre no further, on
      either axis, from the point its touches ask for. */
  lemma PassApproaches(t0: Tuner, ops: seq<Op>, root: real -> real, i: nat) returns (aim: Ellipse)
    requires Sound(t0) && IsRoot(root) && i < |t0.keys| && t0.keys[i] == Untouched(t0.keys[i].visual)
    ensures var t := Run(t0, ops, root);
            var before, after := t.keys[i].hit, Optimized(t, root).keys[i].hit;
            && Proposed(aim, t0.keys[i].visual, TouchesOn(ops, i), t0.constraints, t.config, root)
            && Apart(after.cx, aim.cx) <= Apart(before.cx, aim.cx) && Apart(after.cy, aim.cy) <= Apart(before.cy, aim.cy)
  {
    var t := Run(t0, ops, root);
    aim := CandidateAims(t0, ops, root, i);
    if t.config.enabled && !t.config.frozen {
      PassIsBoundedStep(t, i, root);
      var s := StepTaken(t.config, t.keys[i], Candidates(t, root)[i], Optimized(t, root).keys[i].hit);
      var hit, cand := t.keys[i].hit, Candidates(t, root)[i];
      hide Optimized, Candidates, Sound, Proposed, IsRoot, Run, BoundedStep;
      StepNearer(hit.cx, cand.cx, s, aim.cx);
      StepNearer(hit.cy, cand.cy, s, aim.cy);
    } else {
      StillPass(t, root, i);
    }
  }

  lemma StillPass(t: Tuner, root: real -> real, i: nat)
    requires WellFormed(t) && i < |t.keys| && (t.config.frozen || !t.config.enabled)
    ensures Optimized(t, root).keys[i].hit == t.keys[i].hit
  {
    hide Candidates, Gated, LimitFor;
  }

  /** A bounded step is some fraction of the way. */
  lemma StepTaken(cf: Config, k: Key, cand: Ellipse, after: Ellipse) returns (s: real)
    requires BoundedStep(cf, k, cand, after)
    ensures 0.0 <= s <= 1.0 && after.cx == Blend(k.hit.cx, cand.cx, s) && after.cy == Blend(k.hit.cy, cand.cy, s)
  {
    var u := Fraction(cf.maxUpdate);
    assert 0.0 <= u <= 1.0;
    hide Cost;
    BlendEnds(k.hit.cx, cand.cx);
    BlendEnds(k.hit.cy, cand.cy);
    LerpCentre(k.hit, cand, u);
    LerpCentre(k.hit, cand, u / 2.0);
    LerpCentre(k.hit, cand, 0.5);
    hide Blend, Lerp;
    s := if after == k.hit then 0.0 else if after == cand then 1.0
         else if after == Lerp(k.hit, cand, u) then u
         else if after == Lerp(k.hit, cand, u / 2.0) then u / 2.0 else 0.5;
  }

  lemma BlendEnds(a: real, b: real)
    ensures Blend(a, b, 0.0) == a && Blend(a, b, 1.0) == b
  {
  }

  lemma LerpCentre(a: Ellipse, b: Ellipse, s: real)
    requires 0.0 <= s <= 1.0
    ensures Lerp(a, b, s).cx == Blend(a.cx, b.cx, s) && Lerp(a, b, s).cy == Blend(a.cy, b.cy, s)
  {
  }

  // ---- what is reported ----

  /** The ellipse shares too much with one of these, beyond the tolerance. */
  ghost predicate Crowded(cs: Constraints, e: Ellipse, neighbors: seq<Ellipse>) {
    exists k :: 0 <= k < |neighbors| && Fmin(2.0 * e.rx, 2.0 * neighbors[k].rx) * Fmin(2.0 * e.ry, 2.0 * neighbors[k].ry) > 0.0
                && TooMuchBy(cs, e, neighbors[k]) > 0.000000001
  }

  lemma CrowdedIs(cs: Constraints, e: Ellipse, neighbors: seq<Ellipse>)
    ensures Crowded(cs, e, neighbors) <==> exists k :: 0 <= k < |neighbors| && Overlaps(cs, e, neighbors[k])
  {
    forall k | 0 <= k < |neighbors|
      ensures Overlaps(cs, e, neighbors[k])
         <==> && Fmin(2.0 * e.rx, 2.0 * neighbors[k].rx) * Fmin(2.0 * e.ry, 2.0 * neighbors[k].ry) > 0.0
              && TooMuchBy(cs, e, neighbors[k]) > 0.000000001
    {
      OverlapsIs(cs, e, neighbors[k]);
    }
    hide Overlaps, TooMuchBy, Fmin;
  }

  lemma OverlapsIs(cs: Constraints, e: Ellipse, n: Ellipse)
    ensures Overlaps(cs, e, n)
       <==> Fmin(2.0 * e.rx, 2.0 * n.rx) * Fmin(2.0 * e.ry, 2.0 * n.ry) > 0.0 && TooMuchBy(cs, e, n) > 0.000000001
  {
    hide IntersectionArea, Fmin;
  }

  /** The limit reported is the first broken one: displacement, growth, size, and last of all crowding. */
  lemma ReportIs(cs: Constraints, v: Rect, e: Ellipse, neighbors: seq<Ellipse>)
    ensures ViolatedBy(cs, v, e, neighbors)
         == if Apart(e.cx, v.x + v.w / 2.0) > cs.maxDx + TOLERANCE || Apart(e.cy, v.y + v.h / 2.0) > cs.maxDy + TOLERANCE
            then Some(CenterDisplacement)
            else if e.rx > v.w / 2.0 + cs.growX + TOLERANCE || e.ry > v.h / 2.0 + cs.growY + TOLERANCE then Some(Expansion)
            else if e.rx < cs.minRx - TOLERANCE || e.ry < cs.minRy - TOLERANCE || PI * (e.rx * e.ry) < cs.minArea - TOLERANCE
            then Some(MinimumSize)
            else if Crowded(cs, e, neighbors) then Some(Overlap) else None
  {
    CrowdedIs(cs, e, neighbors);
    assert Area(e) == PI * (e.rx * e.ry);
    hide Crowded, Overlaps, Area;
  }

  /** The ellipses of a key's neighbours as they are. */
  ghost function HitsAround(t: Tuner, i: nat): seq<Ellipse>
    requires WellFormed(t) && i < |t.keys|
  {
    seq(|t.neighbors[i]|, k requires 0 <= k < |t.neighbors[i]| => t.keys[t.neighbors[i][k]].hit)
  }

  /** A proposal within the hard limits is pulled halfway back exactly when it crowds a neighbour as that stands now. */
  lemma PulledIff(t: Tuner, i: nat, e: Ellipse, root: real -> real)
    requires Sound(t) && i < |t.keys| && InBounds(t.constraints, t.keys[i].visual, e)
    ensures ClampedFor(t, i, e, root) == if Crowded(t.constraints, e, HitsAround(t, i)) then Lerp(t.keys[i].hit, e, 0.5) else e
  {
    var cs, v := t.constraints, t.keys[i].visual;
    assert KeySound(cs, t.keys[i]) && Clampable(cs, v);
    BoxedInBox(cs, v, e);
    assert Enlarged(cs, Boxed(cs, v, e), root) == e;
    assert NeighborHits(t, i) == HitsAround(t, i);
    OnlyOverlapReported(cs, v, e, HitsAround(t, i));
    ReportIs(cs, v, e, HitsAround(t, i));
    hide Boxed, Enlarged, Crowded, Lerp, ViolatedBy, Sound;
    InBoundsReport(cs, v, e);
  }

  lemma InBoundsReport(cs: Constraints, v: Rect, e: Ellipse)
    requires InBounds(cs, v, e)
    ensures !(Apart(e.cx, v.x + v.w / 2.0) > cs.maxDx + TOLERANCE || Apart(e.cy, v.y + v.h / 2.0) > cs.maxDy + TOLERANCE)
    ensures !(e.rx > v.w / 2.0 + cs.growX + TOLERANCE || e.ry > v.h / 2.0 + cs.growY + TOLERANCE)
    ensures !(e.rx < cs.minRx - TOLERANCE || e.ry < cs.minRy - TOLERANCE || PI * (e.rx * e.ry) < cs.minArea - TOLERANCE)
  {
    assert Area(e) == PI * (e.rx * e.ry);
    hide Area;
  }

  /** The candidate costs enough less than what the key has, or the key costs nothing yet and would change. */
  ghost predicate WorthIt(cf: Config, k: Key, cand: Ellipse) {
    cand != k.hit && (Cost(k, k.hit) == 0.0 || (Cost(k, k.hit) - Cost(k, cand)) / Cost(k, k.hit) > cf.hysteresis)
  }

  /** What a pass leaves on record: of a key that was moved, its new ellipse and the limit on that; of any other, no
      proposal and the limit on its candidate; each with its neighbours as they stood before. While frozen or off,
      the limits on the candidates alone. */
  lemma PassRecords(t: Tuner, i: nat, root: real -> real)
    requires WellFormed(t) && i < |t.keys|
    ensures var u, cand := Optimized(t, root), Candidates(t, root)[i];
            var moved := t.config.enabled && !t.config.frozen && WorthIt(t.config, t.keys[i], cand);
            && |u.keys| == |t.keys|
            && u.keys[i].lastLimit
               == ViolatedBy(t.constraints, t.keys[i].visual, if moved then u.keys[i].hit else cand, HitsAround(t, i))
            && (t.config.enabled && !t.config.frozen ==>
                  |u.proposals| == |t.keys| && u.proposals[i] == if moved then Some(u.keys[i].hit) else None)
            && (t.config.frozen || !t.config.enabled ==> u.proposals == t.proposals)
  {
    var k, cand := t.keys[i], Candidates(t, root)[i];
    GateMeans(t.config, k, cand);
    assert NeighborHits(t, i) == HitsAround(t, i);
    assert WorthIt(t.config, k, cand) <==> Gated(t.config, k, cand).Some?;
    hide Candidates, Gated, Clamped, ViolatedBy, Cost, WorthIt, NeighborHits, HitsAround;
  }
}
