/** Adaptive key geometry over exact reals: touch statistics, the expected cost of a hit ellipse, and
    one pass of the constrained optimizer. */
module Geometry {
  import opened Options

  datatype Point = Point(x: real, y: real)

  datatype Rect = Rect(x: real, y: real, w: real, h: real)

  datatype Ellipse = Ellipse(cx: real, cy: real, rx: real, ry: real)

  const PI: real := 3.141592653589793
  const EPSILON: real := 1.0 / 4503599627370496.0
  const TOLERANCE: real := 0.000000001
  const U32_MAX: nat := 0xFFFF_FFFF

  function Fmin(a: real, b: real): real { if a < b then a else b }

  function Fmax(a: real, b: real): real { if a > b then a else b }

  function Abs(a: real): real { if a < 0.0 then -a else a }

  /** A product, named so that sums of products can be compared term by term. */
  function Times(a: real, b: real): real { a * b }

  /** A quotient, named for the same reason. */
  function Per(a: real, b: real): real
    requires b != 0.0
  {
    a / b
  }

  function Clamp(a: real, low: real, high: real): (r: real)
    requires low <= high
    ensures low <= r <= high && (low <= a <= high ==> r == a)
  {
    if a < low then low else if a > high then high else a
  }

  function Center(r: Rect): Point { Point(r.x + r.w / 2.0, r.y + r.h / 2.0) }

  function Area(e: Ellipse): real { PI * e.rx * e.ry }

  function BBox(e: Ellipse): Rect { Rect(e.cx - e.rx, e.cy - e.ry, 2.0 * e.rx, 2.0 * e.ry) }

  function Baseline(visual: Rect): Ellipse {
    Ellipse(Center(visual).x, Center(visual).y, visual.w / 2.0, visual.h / 2.0)
  }

  function IntersectionArea(a: Rect, b: Rect): real {
    var w := Fmin(a.x + a.w, b.x + b.w) - Fmax(a.x, b.x);
    var h := Fmin(a.y + a.h, b.y + b.h) - Fmax(a.y, b.y);
    if w > 0.0 && h > 0.0 then w * h else 0.0
  }

  // ---- statistics ----

  /** Running mean, squared deviations and co-deviations of the touches so far. */
  datatype Stats = Stats(samples: nat, meanX: real, meanY: real, m2X: real, m2Y: real, covXY: real)

  const NO_STATS: Stats := Stats(0, 0.0, 0.0, 0.0, 0.0, 0.0)

  /** Welford's update. */
  function Add(st: Stats, p: Point): Stats {
    var n := (st.samples + 1) as real;
    Accumulated(st, p, st.meanX + (p.x - st.meanX) / n, st.meanY + (p.y - st.meanY) / n)
  }

  /** The sums, from the deviations before and after the means moved. */
  function Accumulated(st: Stats, p: Point, meanX: real, meanY: real): Stats {
    var dx, dy := p.x - st.meanX, p.y - st.meanY;
    var dx2, dy2 := p.x - meanX, p.y - meanY;
    Stats(st.samples + 1, meanX, meanY, st.m2X + Times(dx, dx2), st.m2Y + Times(dy, dy2), st.covXY + Times(dx, dy2))
  }

  function VarianceX(st: Stats): real { if st.samples == 0 then 0.0 else st.m2X / st.samples as real }

  function VarianceY(st: Stats): real { if st.samples == 0 then 0.0 else st.m2Y / st.samples as real }

  // ---- constraints ----

  datatype Constraints = Constraints(
    maxDx: real, maxDy: real, growX: real, growY: real, minRx: real, minRy: real, minArea: real, maxOverlap: real)

  const DEFAULT_CONSTRAINTS: Constraints := Constraints(12.0, 8.0, 10.0, 6.0, 10.0, 12.0, 400.0, 0.25)

  datatype Violation = CenterDisplacement | Expansion | MinimumSize | Overlap

  predicate Overlaps(cs: Constraints, hit: Ellipse, other: Ellipse) {
    var b, n := BBox(hit), BBox(other);
    var smaller := Fmin(b.w, n.w) * Fmin(b.h, n.h);
    smaller > 0.0 && IntersectionArea(b, n) > cs.maxOverlap * smaller + TOLERANCE
  }

  /** The first constraint broken, with the tolerance the checks allow. */
  function ViolatedBy(cs: Constraints, visual: Rect, hit: Ellipse, neighbors: seq<Ellipse>): Option<Violation> {
    var c := Center(visual);
    if Abs(hit.cx - c.x) > cs.maxDx + TOLERANCE then Some(CenterDisplacement)
    else if Abs(hit.cy - c.y) > cs.maxDy + TOLERANCE then Some(CenterDisplacement)
    else if hit.rx > visual.w / 2.0 + cs.growX + TOLERANCE then Some(Expansion)
    else if hit.ry > visual.h / 2.0 + cs.growY + TOLERANCE then Some(Expansion)
    else if hit.rx < cs.minRx - TOLERANCE || hit.ry < cs.minRy - TOLERANCE then Some(MinimumSize)
    else if Area(hit) < cs.minArea - TOLERANCE then Some(MinimumSize)
    else if exists k :: 0 <= k < |neighbors| && Overlaps(cs, hit, neighbors[k]) then Some(Overlap)
    else None
  }

  // ---- the controller ----

  datatype Config = Config(
    enabled: bool, frozen: bool, minSamples: nat, confidence: real, maxUpdate: real, hysteresis: real, optimizeEvery: nat)

  datatype Key = Key(visual: Rect, hit: Ellipse, stats: Stats, frequency: nat, lastLimit: Option<Violation>)

  datatype Tuner = Tuner(
    config: Config,
    constraints: Constraints,
    keys: seq<Key>,
    neighbors: seq<seq<nat>>,
    pending: nat,
    proposals: seq<Option<Ellipse>>)

  function Untouched(visual: Rect): Key { Key(visual, Baseline(visual), NO_STATS, 0, None) }

  function NewTuner(config: Config, constraints: Constraints, visuals: seq<Rect>, neighbors: seq<seq<nat>>): Tuner {
    Tuner(config, constraints, seq(|visuals|, i requires 0 <= i < |visuals| => Untouched(visuals[i])),
          neighbors, 0, seq(|visuals|, _ => None))
  }

  /** What the code needs of its caller to index and clamp at all. */
  ghost predicate WellFormed(t: Tuner) {
    && |t.neighbors| == |t.keys|
    && (forall i, k :: 0 <= i < |t.neighbors| && 0 <= k < |t.neighbors[i]| ==> t.neighbors[i][k] < |t.keys|)
    && t.constraints.maxDx >= 0.0 && t.constraints.maxDy >= 0.0
    && forall i :: 0 <= i < |t.keys| ==> Clampable(t.constraints, t.keys[i].visual)
  }

  predicate Clampable(cs: Constraints, visual: Rect) {
    cs.minRx <= visual.w / 2.0 + cs.growX && cs.minRy <= visual.h / 2.0 + cs.growY
  }

  function Saturating(n: nat): nat { if n < U32_MAX then n + 1 else n }

  function Record(t: Tuner, key: nat, p: Point): Tuner {
    if key >= |t.keys| then t
    else
      var k := t.keys[key];
      t.(keys := t.keys[key := k.(stats := Add(k.stats, p), frequency := Saturating(k.frequency))],
         pending := Saturating(t.pending))
  }

  function Reset(t: Tuner): Tuner {
    t.(keys := seq(|t.keys|, i requires 0 <= i < |t.keys| => Untouched(t.keys[i].visual)),
       pending := 0, proposals := seq(|t.keys|, _ => None))
  }

  // ---- one optimizer pass; `root` is the square root ----

  function Bias(mean: real, center: real, eligible: bool, threshold: real): real {
    if eligible && Abs(mean - center) >= threshold then mean - center else 0.0
  }

  /** Proposed ellipse of one key: centre moved by the mean bias, axes grown by the spread, both clamped. */
  function Candidate(cf: Config, cs: Constraints, k: Key, root: real -> real): Ellipse
    requires cs.maxDx >= 0.0 && cs.maxDy >= 0.0 && Clampable(cs, k.visual)
  {
    var c, rx0, ry0 := Center(k.visual), k.visual.w / 2.0, k.visual.h / 2.0;
    var eligible := k.stats.samples >= cf.minSamples;
    Ellipse(
      Clamp(c.x + Bias(k.stats.meanX, c.x, eligible, Times(cf.confidence, rx0)), c.x - cs.maxDx, c.x + cs.maxDx),
      Clamp(c.y + Bias(k.stats.meanY, c.y, eligible, Times(cf.confidence, ry0)), c.y - cs.maxDy, c.y + cs.maxDy),
      Clamp(rx0 + root(VarianceX(k.stats)) * 0.5, cs.minRx, rx0 + cs.growX),
      Clamp(ry0 + root(VarianceY(k.stats)) * 0.5, cs.minRy, ry0 + cs.growY))
  }

  function Shrunk(e: Ellipse, amount: real): Ellipse {
    e.(rx := Fmax(e.rx - amount / 2.0, 0.000001), ry := Fmax(e.ry - amount / 2.0, 0.000001))
  }

  /** Two neighbours that overlap too much both shrink, each in proportion to its size. */
  function Settle(cs: Constraints, a: Ellipse, b: Ellipse): (Ellipse, Ellipse) {
    var ba, bb := BBox(a), BBox(b);
    var inter, smaller := IntersectionArea(ba, bb), Times(Fmin(ba.w, bb.w), Fmin(ba.h, bb.h));
    var excess := inter - Times(cs.maxOverlap, smaller);
    var sideA, sideB := Fmin(ba.w, ba.h), Fmin(bb.w, bb.h);
    var total := sideA + sideB;
    if smaller <= 0.0 || excess <= 0.0 || total <= 0.0 then (a, b)
    else (Shrunk(a, Times(excess, Per(sideA, total))), Shrunk(b, Times(excess, Per(sideB, total))))
  }

  /** Key `i` against those of its neighbours `list[k..]` that come after it. */
  function SettleAgainst(cs: Constraints, cand: seq<Ellipse>, i: nat, list: seq<nat>, k: nat): (r: seq<Ellipse>)
    requires i < |cand| && k <= |list| && forall m :: 0 <= m < |list| ==> list[m] < |cand|
    ensures |r| == |cand|
    decreases |list| - k
  {
    if k == |list| then cand
    else if list[k] <= i then SettleAgainst(cs, cand, i, list, k + 1)
    else
      var (a, b) := Settle(cs, cand[i], cand[list[k]]);
      SettleAgainst(cs, cand[i := a][list[k] := b], i, list, k + 1)
  }

  /** Every pair of neighbours once, in key order. */
  ghost function Competition(cs: Constraints, cand: seq<Ellipse>, neighbors: seq<seq<nat>>, i: nat): (r: seq<Ellipse>)
    requires i <= |neighbors| == |cand|
    requires forall i, k :: 0 <= i < |neighbors| && 0 <= k < |neighbors[i]| ==> neighbors[i][k] < |cand|
    ensures |r| == |cand|
    decreases |neighbors| - i
  {
    if i == |neighbors| then cand
    else Competition(cs, SettleAgainst(cs, cand, i, neighbors[i], 0), neighbors, i + 1)
  }

  function Blend(a: real, b: real, t: real): real { a + (b - a) * t }

  function Lerp(from: Ellipse, to: Ellipse, t: real): Ellipse {
    var s := Clamp(t, 0.0, 1.0);
    Ellipse(Blend(from.cx, to.cx, s), Blend(from.cy, to.cy, s), Blend(from.rx, to.rx, s), Blend(from.ry, to.ry, s))
  }

  function Boxed(cs: Constraints, visual: Rect, e: Ellipse): Ellipse
    requires cs.maxDx >= 0.0 && cs.maxDy >= 0.0 && Clampable(cs, visual)
  {
    var c := Center(visual);
    Ellipse(Clamp(e.cx, c.x - cs.maxDx, c.x + cs.maxDx), Clamp(e.cy, c.y - cs.maxDy, c.y + cs.maxDy),
            Clamp(e.rx, cs.minRx, visual.w / 2.0 + cs.growX), Clamp(e.ry, cs.minRy, visual.h / 2.0 + cs.growY))
  }

  function ScaledBy(cs: Constraints, e: Ellipse, scale: real): Ellipse {
    e.(rx := Fmax(e.rx * scale, cs.minRx), ry := Fmax(e.ry * scale, cs.minRy))
  }

  /** Scaled up to the minimum area, if below it. */
  function Enlarged(cs: Constraints, e: Ellipse, root: real -> real): Ellipse {
    if Area(e) < cs.minArea then ScaledBy(cs, e, root(cs.minArea / Fmax(Area(e), EPSILON))) else e
  }

  /** Clamp to the hard constraints; when only the overlap is left, pull halfway back to `current`. */
  function Clamped(cs: Constraints, visual: Rect, current: Ellipse, neighbors: seq<Ellipse>, e: Ellipse, root: real -> real): Ellipse
    requires cs.maxDx >= 0.0 && cs.maxDy >= 0.0 && Clampable(cs, visual)
  {
    var out := Enlarged(cs, Boxed(cs, visual, e), root);
    if ViolatedBy(cs, visual, out, neighbors) == Some(Overlap) then Lerp(current, out, 0.5) else out
  }

  /** Expected squared distance of the recorded touches, weighted by how often the key is used. */
  function Cost(k: Key, e: Ellipse): real {
    if k.stats.samples == 0 then 0.0
    else
      var st := k.stats;
      var ex2 := VarianceX(st) + (st.meanX - e.cx) * (st.meanX - e.cx);
      var ey2 := VarianceY(st) + (st.meanY - e.cy) * (st.meanY - e.cy);
      var d := ex2 / Fmax(e.rx * e.rx, EPSILON) + ey2 / Fmax(e.ry * e.ry, EPSILON);
      (if k.frequency > 1 then k.frequency else 1) as real * d
  }

  /** The gate: a candidate that costs enough less is approached by a bounded fraction. */
  function Gated(cf: Config, k: Key, cand: Ellipse): Option<Ellipse> {
    if cand == k.hit then None
    else
      var now := Cost(k, k.hit);
      if now == 0.0 then Some(cand)
      else if (now - Cost(k, cand)) / now > cf.hysteresis then Some(Lerp(k.hit, cand, cf.maxUpdate))
      else None
  }

  ghost function NeighborHits(t: Tuner, i: nat): seq<Ellipse>
    requires WellFormed(t) && i < |t.keys|
  {
    seq(|t.neighbors[i]|, k requires 0 <= k < |t.neighbors[i]| => t.keys[t.neighbors[i][k]].hit)
  }

  ghost function ClampedFor(t: Tuner, i: nat, e: Ellipse, root: real -> real): Ellipse
    requires WellFormed(t) && i < |t.keys|
  {
    Clamped(t.constraints, t.keys[i].visual, t.keys[i].hit, NeighborHits(t, i), e, root)
  }

  ghost function LimitFor(t: Tuner, i: nat, e: Ellipse): Option<Violation>
    requires WellFormed(t) && i < |t.keys|
  {
    ViolatedBy(t.constraints, t.keys[i].visual, e, NeighborHits(t, i))
  }

  /** The clamped candidates of all keys. */
  ghost function Candidates(t: Tuner, root: real -> real): (r: seq<Ellipse>)
    requires WellFormed(t)
    ensures |r| == |t.keys|
  {
    var first := seq(|t.keys|, i requires 0 <= i < |t.keys| => Candidate(t.config, t.constraints, t.keys[i], root));
    var settled := Competition(t.constraints, first, t.neighbors, 0);
    seq(|t.keys|, i requires 0 <= i < |t.keys| => ClampedFor(t, i, settled[i], root))
  }

  /** Candidates noted as limits, and the proposals that passed the gate. */
  ghost function Evaluated(t: Tuner, root: real -> real): (r: (Tuner, seq<Option<Ellipse>>))
    requires WellFormed(t)
    ensures |r.1| == |t.keys| && |r.0.keys| == |t.keys|
  {
    var cand := Candidates(t, root);
    (t.(keys := seq(|t.keys|, i requires 0 <= i < |t.keys| => t.keys[i].(lastLimit := LimitFor(t, i, cand[i])))),
     seq(|t.keys|, i requires 0 <= i < |t.keys| => Gated(t.config, t.keys[i], cand[i])))
  }

  /** What one key becomes: its clamped proposal, or what it was with its limit noted. */
  ghost function Moved(t: Tuner, i: nat, noted: Key, proposal: Option<Ellipse>, root: real -> real): Key
    requires WellFormed(t) && i < |t.keys|
  {
    if proposal.Some? then
      var e := ClampedFor(t, i, proposal.value, root);
      noted.(hit := e, lastLimit := LimitFor(t, i, e))
    else noted
  }

  ghost function Optimized(t: Tuner, root: real -> real): Tuner
    requires WellFormed(t)
  {
    var (noted, proposals) := Evaluated(t, root);
    if !t.config.enabled || t.config.frozen then noted
    else
      t.(keys := seq(|t.keys|, i requires 0 <= i < |t.keys| => Moved(t, i, noted.keys[i], proposals[i], root)),
         pending := 0,
         proposals := seq(|t.keys|, i requires 0 <= i < |t.keys| =>
           if proposals[i].Some? then Some(ClampedFor(t, i, proposals[i].value, root)) else None))
  }
}
