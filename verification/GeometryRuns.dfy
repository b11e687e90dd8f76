/** The optimizer never breaks the hard geometry limits, never moves frozen geometry, and only ever
    steps towards its candidates; the statistics it works from are exact at every moment of a run. */
module GeometryRuns {
  import opened Options
  import opened Geometry
  import opened TouchHistory

  // ---- the hard limits ----

  /** Centre displacement, growth, minimum semi-axes and minimum area, without any tolerance. */
  predicate InBounds(cs: Constraints, visual: Rect, e: Ellipse) {
    InBox(cs, visual, e) && Area(e) >= cs.minArea
  }

  /** All the limits but the area. */
  predicate InBox(cs: Constraints, visual: Rect, e: Ellipse) {
    var c := Center(visual);
    && c.x - cs.maxDx <= e.cx <= c.x + cs.maxDx && c.y - cs.maxDy <= e.cy <= c.y + cs.maxDy
    && cs.minRx <= e.rx <= visual.w / 2.0 + cs.growX && cs.minRy <= e.ry <= visual.h / 2.0 + cs.growY
  }

  /** Constraints one key can meet: the minimum area is reachable within the other limits. */
  predicate Reachable(cs: Constraints, visual: Rect) {
    && cs.maxDx >= 0.0 && cs.maxDy >= 0.0 && cs.minRx > 0.0 && cs.minRy > 0.0
    && PI * (cs.minRx * cs.minRy) >= EPSILON
    && cs.minArea <= PI * (cs.minRy * (visual.w / 2.0 + cs.growX))
    && cs.minArea <= PI * (cs.minRx * (visual.h / 2.0 + cs.growY))
  }

  ghost predicate IsRoot(root: real -> real) {
    forall x :: x >= 0.0 ==> root(x) >= 0.0 && root(x) * root(x) == x
  }

  /** The default limits are reachable on every key whose drawn size meets them. */
  lemma DefaultsReachable(visual: Rect)
    requires InBounds(DEFAULT_CONSTRAINTS, visual, Baseline(visual))
    ensures Reachable(DEFAULT_CONSTRAINTS, visual)
  {
    var rx, ry := visual.w / 2.0, visual.h / 2.0;
    assert rx >= 10.0 && ry >= 12.0;
    assert 12.0 * (rx + 10.0) >= 240.0 && 10.0 * (ry + 6.0) >= 180.0;
  }

  // ---- the limits are convex ----

  /** The points above a branch of a hyperbola form a convex set: products of blends stay above `k`. */
  lemma BlendedProduct(x1: real, y1: real, x2: real, y2: real, k: real, t: real)
    requires x1 > 0.0 && y1 > 0.0 && x2 > 0.0 && y2 > 0.0 && 0.0 <= t <= 1.0
    requires x1 * y1 >= k && x2 * y2 >= k
    ensures Blend(x1, x2, t) * Blend(y1, y2, t) >= k
  {
    var s := 1.0 - t;
    CrossTerms(x1, y1, x2, y2, k);
    BlendWeights(x1, x2, s, t);
    BlendWeights(y1, y2, s, t);
    BlendExpanded(x1, y1, x2, y2, s, t);
    hide Blend;
    WeightedSum(x1 * y1, x2 * y2, x1 * y2 + x2 * y1, k, s, t);
  }

  lemma BlendWeights(a: real, b: real, s: real, t: real)
    requires s == 1.0 - t
    ensures Blend(a, b, t) == s * a + t * b
  {
  }

  lemma BlendExpanded(x1: real, y1: real, x2: real, y2: real, s: real, t: real)
    ensures (s * x1 + t * x2) * (s * y1 + t * y2)
         == (s * s) * (x1 * y1) + (t * t) * (x2 * y2) + (s * t) * (x1 * y2 + x2 * y1)
  {
    var a, b, c, d := s * x1, t * x2, s * y1, t * y2;
    assert (a + b) * (c + d) == a * c + b * d + a * d + b * c;
    assert a * c == (s * s) * (x1 * y1) && b * d == (t * t) * (x2 * y2);
    assert a * d == (s * t) * (x1 * y2) && b * c == (s * t) * (x2 * y1);
    assert (s * t) * (x1 * y2 + x2 * y1) == (s * t) * (x1 * y2) + (s * t) * (x2 * y1);
  }

  /** Cross products are at least twice the smaller of the two products. */
  lemma CrossTerms(x1: real, y1: real, x2: real, y2: real, k: real)
    requires x1 > 0.0 && y1 > 0.0 && x2 > 0.0 && y2 > 0.0
    requires x1 * y1 >= k && x2 * y2 >= k
    ensures x1 * y2 + x2 * y1 >= 2.0 * k
  {
    var u, v, p, q := x1 * y2, x2 * y1, x1 * y1, x2 * y2;
    assert u > 0.0 && v > 0.0;
    assert u * v == p * q;
    if k > 0.0 {
      assert p * q >= k * q && k * q >= k * k;
      SquareSum(u, v, k);
    }
  }

  lemma SquareSum(u: real, v: real, k: real)
    requires u > 0.0 && v > 0.0 && k > 0.0 && u * v >= k * k
    ensures u + v >= 2.0 * k
  {
    var d, w := u - v, u + v;
    assert d * d >= 0.0;
    assert w * w == d * d + 4.0 * (u * v);
    assert w * w >= (2.0 * k) * (2.0 * k);
    assert w < 2.0 * k ==> w * w < (2.0 * k) * (2.0 * k);
  }

  lemma WeightedSum(p: real, q: real, c: real, k: real, s: real, t: real)
    requires p >= k && q >= k && c >= 2.0 * k && s >= 0.0 && t >= 0.0 && s + t == 1.0
    ensures (s * s) * p + (t * t) * q + (s * t) * c >= k
  {
    var ss, tt, st, w := s * s, t * t, s * t, s + t;
    assert ss + tt + 2.0 * st == w * w;
    assert w * w == 1.0;
    NotNegative(s, s);
    NotNegative(t, t);
    NotNegative(s, t);
    WeightedThree(p, q, c, k, ss, tt, st);
  }

  lemma WeightedThree(p: real, q: real, c: real, k: real, a: real, b: real, d: real)
    requires p >= k && q >= k && c >= 2.0 * k && a >= 0.0 && b >= 0.0 && d >= 0.0 && a + b + 2.0 * d == 1.0
    ensures a * p + b * q + d * c >= k
  {
    NotNegative(a, p - k);
    NotNegative(b, q - k);
    NotNegative(d, c - 2.0 * k);
    assert a * (p - k) == a * p - a * k && b * (q - k) == b * q - b * k && d * (c - 2.0 * k) == d * c - 2.0 * (d * k);
    assert (a + b + 2.0 * d) * k == a * k + b * k + 2.0 * (d * k);
  }

  lemma NotNegative(a: real, b: real)
    requires a >= 0.0 && b >= 0.0
    ensures a * b >= 0.0
  {
  }

  lemma Scale(a: real, b: real, c: real)
    requires a <= b && c >= 0.0
    ensures a * c <= b * c
  {
  }

  lemma SquareOrder(a: real, b: real)
    requires a >= 0.0 && b >= 0.0
    ensures a <= b ==> a * a <= b * b
  {
    if a <= b {
      Scale(a, b, a);
      Scale(a, b, b);
    }
  }

  lemma BlendUp(a: real, b: real, t: real)
    requires 0.0 <= t <= 1.0 && a <= b
    ensures a <= Blend(a, b, t) <= b
  {
    var d := b - a;
    NotNegative(d, t);
    NotNegative(d, 1.0 - t);
    assert d * (1.0 - t) == d - d * t;
  }

  lemma BlendSwap(a: real, b: real, t: real)
    ensures Blend(b, a, 1.0 - t) == Blend(a, b, t)
  {
  }

  lemma BlendBetween(a: real, b: real, t: real, low: real, high: real)
    requires low <= a <= high && low <= b <= high && 0.0 <= t <= 1.0
    ensures low <= Blend(a, b, t) <= high
  {
    hide Blend;
    if a <= b {
      BlendUp(a, b, t);
    } else {
      BlendUp(b, a, 1.0 - t);
      BlendSwap(a, b, t);
    }
  }

  /** Any step between two ellipses within the limits stays within them. */
  lemma LerpInBounds(cs: Constraints, visual: Rect, a: Ellipse, b: Ellipse, t: real)
    requires Reachable(cs, visual) && InBounds(cs, visual, a) && InBounds(cs, visual, b)
    ensures InBounds(cs, visual, Lerp(a, b, t))
  {
    LerpArea(a, b, t, cs.minArea);
    hide Area, Blend;
    var c, s := Center(visual), Clamp(t, 0.0, 1.0);
    hide Center;
    BlendBetween(a.cx, b.cx, s, c.x - cs.maxDx, c.x + cs.maxDx);
    BlendBetween(a.cy, b.cy, s, c.y - cs.maxDy, c.y + cs.maxDy);
    BlendBetween(a.rx, b.rx, s, cs.minRx, visual.w / 2.0 + cs.growX);
    BlendBetween(a.ry, b.ry, s, cs.minRy, visual.h / 2.0 + cs.growY);
  }

  lemma LerpArea(a: Ellipse, b: Ellipse, t: real, least: real)
    requires a.rx > 0.0 && a.ry > 0.0 && b.rx > 0.0 && b.ry > 0.0
    requires Area(a) >= least && Area(b) >= least
    ensures Area(Lerp(a, b, t)) >= least
  {
    AreaBound(a, least);
    AreaBound(b, least);
    AreaBound(Lerp(a, b, t), least);
    hide Area, Blend;
    BlendedProduct(a.rx, a.ry, b.rx, b.ry, least / PI, Clamp(t, 0.0, 1.0));
  }

  lemma AreaBound(e: Ellipse, least: real)
    ensures Area(e) >= least <==> e.rx * e.ry >= least / PI
  {
    assert Area(e) == PI * (e.rx * e.ry);
  }

  // ---- one key through a pass ----

  lemma BoxedInBox(cs: Constraints, visual: Rect, e: Ellipse)
    requires Reachable(cs, visual) && Clampable(cs, visual)
    ensures InBox(cs, visual, Boxed(cs, visual, e))
    ensures InBox(cs, visual, e) ==> Boxed(cs, visual, e) == e
  {
  }

  /** Scaling up to the minimum area lands on it exactly, and inside every other limit. */
  lemma EnlargedInBounds(cs: Constraints, visual: Rect, e: Ellipse, root: real -> real)
    requires Reachable(cs, visual) && Clampable(cs, visual) && IsRoot(root)
    ensures InBounds(cs, visual, Enlarged(cs, Boxed(cs, visual, e), root))
  {
    var b := Boxed(cs, visual, e);
    BoxedInBox(cs, visual, e);
    if Area(b) < cs.minArea {
      AreaLeast(cs, visual, b);
      hide Area, Boxed, InBounds, InBox, Reachable, Clampable, ScaledBy;
      var scale := ScaleFits(cs.minArea, Area(b), root);
      assert Enlarged(cs, b, root) == ScaledBy(cs, b, scale);
      ScaledInBounds(cs, visual, b, scale);
    }
  }

  lemma ScaleFits(least: real, area: real, root: real -> real) returns (scale: real)
    requires IsRoot(root) && EPSILON <= area < least
    ensures scale == root(least / Fmax(area, EPSILON))
    ensures scale > 1.0 && scale * scale * area == least
  {
    assert Fmax(area, EPSILON) == area;
    RatioAboveOne(least, area);
    scale := root(least / area);
    assert scale * scale == least / area;
    SquareOrder(scale, 1.0);
  }

  lemma AreaLeast(cs: Constraints, visual: Rect, b: Ellipse)
    requires Reachable(cs, visual) && cs.minRx <= b.rx && cs.minRy <= b.ry
    ensures Area(b) >= EPSILON
  {
    ProductLeast(b.rx, b.ry, cs.minRx, cs.minRy);
    Scale(cs.minRx * cs.minRy, b.rx * b.ry, PI);
    assert Area(b) == PI * (b.rx * b.ry);
  }

  lemma ProductLeast(x: real, y: real, lowX: real, lowY: real)
    requires 0.0 < lowX <= x && 0.0 < lowY <= y
    ensures x * y >= lowX * lowY > 0.0
  {
    Scale(lowX, x, y);
    Scale(lowY, y, lowX);
  }

  lemma RatioAboveOne(a: real, b: real)
    requires 0.0 < b < a
    ensures a / b > 1.0 && (a / b) * b == a
  {
    var q := a / b;
    assert q * b == a;
    assert q <= 1.0 ==> q * b <= 1.0 * b;
  }

  /** An ellipse inside the box, scaled up to exactly the minimum area, stays inside the limits. */
  lemma ScaledInBounds(cs: Constraints, visual: Rect, b: Ellipse, scale: real)
    requires Reachable(cs, visual) && Clampable(cs, visual) && InBox(cs, visual, b)
    requires scale > 1.0 && scale * scale * Area(b) == cs.minArea
    ensures InBounds(cs, visual, ScaledBy(cs, b, scale))
  {
    ScaledGrows(cs, b, scale);
    ScaledArea(b, scale);
    var e := ScaledBy(cs, b, scale);
    assert Area(e) == cs.minArea;
    hide Area, ScaledBy, Center, Reachable;
    AreaCaps(cs, visual, e);
  }

  lemma ScaledGrows(cs: Constraints, b: Ellipse, scale: real)
    requires scale > 1.0 && 0.0 < cs.minRx <= b.rx && 0.0 < cs.minRy <= b.ry
    ensures var e := ScaledBy(cs, b, scale);
            && e == b.(rx := b.rx * scale, ry := b.ry * scale) && e.rx >= b.rx && e.ry >= b.ry
  {
    Grows(b.rx, scale);
    Grows(b.ry, scale);
    LargerStays(b.rx * scale, b.rx, cs.minRx);
    LargerStays(b.ry * scale, b.ry, cs.minRy);
    hide Fmax;
  }

  lemma LargerStays(a: real, b: real, least: real)
    requires a >= b >= least
    ensures Fmax(a, least) == a
  {
  }

  lemma Grows(a: real, scale: real)
    requires a > 0.0 && scale > 1.0
    ensures a * scale >= a
  {
    Scale(1.0, scale, a);
  }

  lemma AreaCaps(cs: Constraints, visual: Rect, e: Ellipse)
    requires Reachable(cs, visual) && e.rx >= cs.minRx && e.ry >= cs.minRy && Area(e) == cs.minArea
    ensures e.rx <= visual.w / 2.0 + cs.growX && e.ry <= visual.h / 2.0 + cs.growY
  {
    assert PI * e.rx * e.ry == PI * (e.rx * e.ry) == PI * (e.ry * e.rx);
    Capped(e.rx, e.ry, cs.minRy, cs.minArea, visual.w / 2.0 + cs.growX);
    Capped(e.ry, e.rx, cs.minRx, cs.minArea, visual.h / 2.0 + cs.growY);
  }

  lemma ScaledArea(b: Ellipse, scale: real)
    ensures Area(b.(rx := b.rx * scale, ry := b.ry * scale)) == scale * scale * Area(b)
  {
    var rx, ry := b.rx, b.ry;
    assert (rx * scale) * (ry * scale) == (scale * scale) * (rx * ry);
    assert PI * (rx * scale) * (ry * scale) == PI * ((rx * scale) * (ry * scale));
    assert PI * rx * ry == PI * (rx * ry);
    assert PI * ((scale * scale) * (rx * ry)) == (scale * scale) * (PI * (rx * ry));
  }

  /** With the area fixed, one axis is capped because the other has a minimum. */
  lemma Capped(x: real, y: real, least: real, area: real, cap: real)
    requires x > 0.0 && 0.0 < least <= y && PI * (x * y) == area && area <= PI * (least * cap)
    ensures x <= cap
  {
    assert x * y <= least * cap;
    Scale(least, y, x);
    assert x * least <= cap * least;
    assert x > cap ==> x * least > cap * least;
  }

  /** Whatever is proposed, what leaves the clamp is within the limits. */
  lemma ClampedInBounds(cs: Constraints, visual: Rect, current: Ellipse, neighbors: seq<Ellipse>, e: Ellipse, root: real -> real)
    requires Reachable(cs, visual) && Clampable(cs, visual) && IsRoot(root) && InBounds(cs, visual, current)
    ensures InBounds(cs, visual, Clamped(cs, visual, current, neighbors, e, root))
  {
    EnlargedInBounds(cs, visual, e, root);
    var out := Enlarged(cs, Boxed(cs, visual, e), root);
    hide InBounds, Reachable, Enlarged, Boxed, ViolatedBy, Lerp;
    LerpInBounds(cs, visual, current, out, 0.5);
  }

  /** A proposal within the limits leaves the clamp as it is, or halfway back. */
  lemma ClampedIsStep(cs: Constraints, visual: Rect, current: Ellipse, neighbors: seq<Ellipse>, e: Ellipse, root: real -> real)
    requires Reachable(cs, visual) && Clampable(cs, visual) && InBounds(cs, visual, e)
    ensures Clamped(cs, visual, current, neighbors, e, root) in {e, Lerp(current, e, 0.5)}
  {
    BoxedInBox(cs, visual, e);
    hide Boxed, InBox, Reachable, Clampable, ViolatedBy, Lerp, ScaledBy;
  }

  /** Within the limits, the diagnostics can only ever name the overlap. */
  lemma OnlyOverlapReported(cs: Constraints, visual: Rect, e: Ellipse, neighbors: seq<Ellipse>)
    requires InBounds(cs, visual, e)
    ensures ViolatedBy(cs, visual, e, neighbors) in {None, Some(Overlap)}
  {
    hide Area, Overlaps;
  }

  // ---- whole runs ----

  datatype Op = RecordOp(key: nat, at: Point) | OptimizeOp | EnableOp(on: bool) | FreezeOp(on: bool) | ResetOp

  ghost function Step(t: Tuner, op: Op, root: real -> real): Tuner
    requires WellFormed(t)
  {
    match op
    case RecordOp(key, at) => Record(t, key, at)
    case OptimizeOp => Optimized(t, root)
    case EnableOp(on) => t.(config := t.config.(enabled := on))
    case FreezeOp(on) => t.(config := t.config.(frozen := on))
    case ResetOp => Reset(t)
  }

  ghost predicate KeySound(cs: Constraints, k: Key) {
    && Reachable(cs, k.visual) && InBounds(cs, k.visual, Baseline(k.visual)) && InBounds(cs, k.visual, k.hit)
  }

  /** Every key's drawn size and current ellipse are within reachable limits. */
  ghost predicate Sound(t: Tuner) {
    && WellFormed(t)
    && forall i :: 0 <= i < |t.keys| ==> KeySound(t.constraints, t.keys[i])
  }

  /** Nothing but what is learned changes. */
  ghost predicate SameBoard(t: Tuner, u: Tuner) {
    && u.constraints == t.constraints && u.neighbors == t.neighbors && |u.keys| == |t.keys|
    && forall i :: 0 <= i < |t.keys| ==> u.keys[i].visual == t.keys[i].visual
  }

  lemma SameBoardWellFormed(t: Tuner, u: Tuner)
    requires WellFormed(t) && SameBoard(t, u)
    ensures WellFormed(u)
  {
  }

  lemma OptimizedSound(t: Tuner, root: real -> real)
    requires Sound(t) && IsRoot(root)
    ensures Sound(Optimized(t, root)) && SameBoard(t, Optimized(t, root))
  {
    var u := Optimized(t, root);
    hide Candidates, Gated, Clamped, ViolatedBy, IsRoot;
    assert SameBoard(t, u);
    SameBoardWellFormed(t, u);
    forall i | 0 <= i < |t.keys|
      ensures KeySound(t.constraints, u.keys[i])
    {
      assert KeySound(t.constraints, t.keys[i]);
      if u.keys[i].hit != t.keys[i].hit {
        MovedSound(t, i, Evaluated(t, root).0.keys[i], Evaluated(t, root).1[i], root);
      }
    }
  }

  lemma MovedSound(t: Tuner, i: nat, noted: Key, proposal: Option<Ellipse>, root: real -> real)
    requires Sound(t) && IsRoot(root) && i < |t.keys| && KeySound(t.constraints, noted) && noted.visual == t.keys[i].visual
    ensures KeySound(t.constraints, Moved(t, i, noted, proposal, root))
  {
    assert KeySound(t.constraints, t.keys[i]) && Clampable(t.constraints, t.keys[i].visual);
    if proposal.Some? {
      hide Clamped, ViolatedBy, InBounds, Reachable, Clampable;
      ClampedInBounds(t.constraints, t.keys[i].visual, t.keys[i].hit, NeighborHits(t, i), proposal.value, root);
    }
  }

  lemma StepSound(t: Tuner, op: Op, root: real -> real)
    requires Sound(t) && IsRoot(root)
    ensures Sound(Step(t, op, root)) && SameBoard(t, Step(t, op, root))
  {
    match op
    case OptimizeOp =>
      hide Optimized;
      OptimizedSound(t, root);
    case RecordOp(key, at) => RecordSound(t, key, at);
    case ResetOp => ResetSound(t);
    case _ => hide Reachable, InBounds, Clampable;
  }

  lemma RecordSound(t: Tuner, key: nat, at: Point)
    requires Sound(t)
    ensures Sound(Record(t, key, at)) && SameBoard(t, Record(t, key, at))
  {
    hide Reachable, InBounds, Clampable, Add;
    SameBoardWellFormed(t, Record(t, key, at));
  }

  lemma ResetSound(t: Tuner)
    requires Sound(t)
    ensures Sound(Reset(t)) && SameBoard(t, Reset(t))
  {
    hide Reachable, InBounds, Clampable, Baseline;
    SameBoardWellFormed(t, Reset(t));
  }

  /** A run from the left; what it reaches is sound. */
  ghost function Run(t: Tuner, ops: seq<Op>, root: real -> real): (r: Tuner)
    requires Sound(t) && IsRoot(root)
    ensures Sound(r) && SameBoard(t, r)
    decreases |ops|
  {
    if ops == [] then t
    else
      var before := Run(t, ops[..|ops| - 1], root);
      StepSound(before, ops[|ops| - 1], root);
      Step(before, ops[|ops| - 1], root)
  }

  /** What a caller must supply: drawn keys that meet the limits, and a proper neighbour list. */
  ghost predicate Buildable(cs: Constraints, visuals: seq<Rect>, neighbors: seq<seq<nat>>) {
    && |neighbors| == |visuals|
    && (forall i, k :: 0 <= i < |neighbors| && 0 <= k < |neighbors[i]| ==> neighbors[i][k] < |visuals|)
    && cs.maxDx >= 0.0 && cs.maxDy >= 0.0 && cs.growX >= 0.0 && cs.growY >= 0.0
    && forall i :: 0 <= i < |visuals| ==> Reachable(cs, visuals[i]) && InBounds(cs, visuals[i], Baseline(visuals[i]))
  }

  lemma NewSound(config: Config, cs: Constraints, visuals: seq<Rect>, neighbors: seq<seq<nat>>)
    requires Buildable(cs, visuals, neighbors)
    ensures Sound(NewTuner(config, cs, visuals, neighbors))
  {
    hide Area;
  }

  /** The hard limits hold for every key after any run of touches, passes, freezes and resets, with the
      default constraints and keys drawn within them. */
  lemma HardLimitsHold(config: Config, visuals: seq<Rect>, neighbors: seq<seq<nat>>, ops: seq<Op>, root: real -> real)
    requires IsRoot(root) && |neighbors| == |visuals|
    requires forall i, k :: 0 <= i < |neighbors| && 0 <= k < |neighbors[i]| ==> neighbors[i][k] < |visuals|
    requires forall i :: 0 <= i < |visuals| ==> InBounds(DEFAULT_CONSTRAINTS, visuals[i], Baseline(visuals[i]))
    ensures Sound(NewTuner(config, DEFAULT_CONSTRAINTS, visuals, neighbors))
    ensures var t := Run(NewTuner(config, DEFAULT_CONSTRAINTS, visuals, neighbors), ops, root);
            |t.keys| == |visuals| && forall i :: 0 <= i < |visuals| ==> InBounds(DEFAULT_CONSTRAINTS, visuals[i], t.keys[i].hit)
  {
    forall i | 0 <= i < |visuals|
      ensures Reachable(DEFAULT_CONSTRAINTS, visuals[i])
    {
      DefaultsReachable(visuals[i]);
    }
    NewSound(config, DEFAULT_CONSTRAINTS, visuals, neighbors);
    var t0 := NewTuner(config, DEFAULT_CONSTRAINTS, visuals, neighbors);
    var t := Run(t0, ops, root);
    forall i | 0 <= i < |visuals|
      ensures InBounds(DEFAULT_CONSTRAINTS, visuals[i], t.keys[i].hit)
    {
      assert KeySound(t.constraints, t.keys[i]);
    }
  }
}
