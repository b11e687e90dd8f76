/** The running statistics are exact: they equal the two-pass sums over every touch recorded, though
    no touch is stored, and the cost is a sum over all of them. */
module TouchHistory {
  import opened Geometry

  function Sum(us: seq<real>): real {
    if us == [] then 0.0 else Sum(us[..|us| - 1]) + us[|us| - 1]
  }

  function Mean(us: seq<real>): real { if us == [] then 0.0 else Sum(us) / |us| as real }

  /** Sum of the products of the deviations of `us` from `a` and `vs` from `b`. */
  function Spread(us: seq<real>, vs: seq<real>, a: real, b: real): real
    requires |us| == |vs|
  {
    if us == [] then 0.0
    else
      var n := |us| - 1;
      Spread(us[..n], vs[..n], a, b) + Times(us[n] - a, vs[n] - b)
  }

  function Dot(us: seq<real>, vs: seq<real>): real
    requires |us| == |vs|
  {
    if us == [] then 0.0
    else
      var n := |us| - 1;
      Dot(us[..n], vs[..n]) + Times(us[n], vs[n])
  }

  /** `Spread` multiplied out. */
  function Expanded(dot: real, su: real, sv: real, n: real, a: real, b: real): real {
    dot - a * sv - b * su + n * (a * b)
  }

  lemma {:induction false} SpreadExpanded(us: seq<real>, vs: seq<real>, a: real, b: real)
    requires |us| == |vs|
    ensures Spread(us, vs, a, b) == Expanded(Dot(us, vs), Sum(us), Sum(vs), |us| as real, a, b)
  {
    if us != [] {
      var n := |us| - 1;
      SpreadExpanded(us[..n], vs[..n], a, b);
      ExpandStep(Dot(us[..n], vs[..n]), Sum(us[..n]), Sum(vs[..n]), n as real, us[n], vs[n], a, b);
      hide Expanded, Times;
    }
  }

  lemma ExpandStep(dot: real, su: real, sv: real, n: real, u: real, v: real, a: real, b: real)
    ensures Expanded(dot, su, sv, n, a, b) + Times(u - a, v - b) == Expanded(dot + Times(u, v), su + u, sv + v, n + 1.0, a, b)
  {
    assert (u - a) * (v - b) == u * v - a * v - b * u + a * b;
    assert a * (sv + v) == a * sv + a * v && b * (su + u) == b * su + b * u;
    assert (n + 1.0) * (a * b) == n * (a * b) + a * b;
  }

  lemma MeanTimes(us: seq<real>)
    ensures |us| as real * Mean(us) == Sum(us)
  {
  }

  lemma AroundAlgebra(n: real, u: real, v: real, su: real, sv: real, a: real, b: real)
    requires su == n * u && sv == n * v
    ensures n * (a * b) - a * sv - b * su == n * (u * v) - u * sv - v * su + n * ((u - a) * (v - b))
  {
    assert (u - a) * (v - b) == u * v - u * b - a * v + a * b;
    assert n * ((u - a) * (v - b)) == n * (u * v) - n * (u * b) - n * (a * v) + n * (a * b);
    assert a * sv == n * (a * v) && b * su == n * (u * b) && u * sv == n * (u * v) && v * su == n * (u * v);
  }

  /** Moving the reference point away from the means adds their distance from it, once per touch. */
  lemma AroundTheMean(us: seq<real>, vs: seq<real>, a: real, b: real)
    requires |us| == |vs|
    ensures Spread(us, vs, a, b)
         == Spread(us, vs, Mean(us), Mean(vs)) + Times(|us| as real, Times(Mean(us) - a, Mean(vs) - b))
  {
    hide Spread, Dot, Mean, Sum;
    SpreadExpanded(us, vs, a, b);
    SpreadExpanded(us, vs, Mean(us), Mean(vs));
    MeanTimes(us);
    MeanTimes(vs);
    AroundAlgebra(|us| as real, Mean(us), Mean(vs), Sum(us), Sum(vs), a, b);
  }

  lemma SpreadLast(us: seq<real>, vs: seq<real>, u: real, v: real, a: real, b: real)
    requires |us| == |vs|
    ensures Spread(us + [u], vs + [v], a, b) == Spread(us, vs, a, b) + Times(u - a, v - b)
  {
    assert (us + [u])[..|us|] == us && (vs + [v])[..|us|] == vs;
  }

  /** `after` is the mean once `u` has joined `n - 1` touches of mean `before`. */
  predicate MeanMoved(before: real, u: real, n: real, after: real) {
    n > 0.0 && after == before + (u - before) / n
  }

  /** One more touch moves the mean by its share. */
  lemma MeanStep(us: seq<real>, u: real)
    ensures MeanMoved(Mean(us), u, (|us| + 1) as real, Mean(us + [u]))
  {
    var k, n, m := |us| as real, (|us| + 1) as real, Mean(us);
    MeanTimes(us);
    assert (us + [u])[..|us|] == us;
    assert Mean(us + [u]) == (k * m + u) / n;
    hide Sum, Mean;
    MeanAlgebra(k, n, m, u);
  }

  lemma MeanAlgebra(k: real, n: real, m: real, u: real)
    requires n == k + 1.0 && n > 0.0
    ensures (k * m + u) / n == m + (u - m) / n
  {
    var q := (u - m) / n;
    assert n * q == u - m;
    assert n * (m + q) == n * m + n * q;
    assert n * m == k * m + m;
    Divide(n, m + q, k * m + u);
  }

  lemma Divide(n: real, a: real, b: real)
    requires n > 0.0 && n * a == b
    ensures a == b / n
  {
  }

  lemma StepAlgebra(k: real, n: real, q: real, p: real)
    requires n == k + 1.0
    ensures k * ((0.0 - q) * (0.0 - p)) + (k * q) * (k * p) == (n * q) * (k * p)
  {
    assert (n * q) * (k * p) == (k * q + q) * (k * p);
    assert (k * q + q) * (k * p) == (k * q) * (k * p) + q * (k * p);
    assert q * (k * p) == k * (q * p);
  }

  lemma StepReals(k: real, n: real, mu: real, mv: real, mu': real, mv': real, u: real, v: real)
    requires n == k + 1.0 && MeanMoved(mu, u, n, mu') && MeanMoved(mv, v, n, mv')
    ensures Times(k, Times(mu - mu', mv - mv')) + Times(u - mu', v - mv') == Times(u - mu, v - mv')
  {
    var q, p := (u - mu) / n, (v - mv) / n;
    assert u - mu == n * q && v - mv == n * p;
    assert n * q == k * q + q && n * p == k * p + p;
    assert u - mu' == k * q && v - mv' == k * p && mu - mu' == 0.0 - q && mv - mv' == 0.0 - p;
    StepAlgebra(k, n, q, p);
  }

  /** Welford's increment is exactly what the two-pass sum gains. */
  lemma SpreadStep(us: seq<real>, vs: seq<real>, u: real, v: real)
    requires |us| == |vs|
    ensures Spread(us + [u], vs + [v], Mean(us + [u]), Mean(vs + [v]))
         == Spread(us, vs, Mean(us), Mean(vs)) + Times(u - Mean(us), v - Mean(vs + [v]))
  {
    hide Spread, Mean, Times, MeanMoved, Sum, Dot;
    var mu', mv' := Mean(us + [u]), Mean(vs + [v]);
    MeanStep(us, u);
    MeanStep(vs, v);
    var k, n := |us| as real, (|us| + 1) as real;
    StepReals(k, n, Mean(us), Mean(vs), mu', mv', u, v);
    SpreadLast(us, vs, u, v, mu', mv');
    AroundTheMean(us, vs, mu', mv');
  }

  // ---- the statistics ----

  function Xs(touches: seq<Point>): (r: seq<real>)
    ensures |r| == |touches|
  {
    seq(|touches|, i requires 0 <= i < |touches| => touches[i].x)
  }

  function Ys(touches: seq<Point>): (r: seq<real>)
    ensures |r| == |touches|
  {
    seq(|touches|, i requires 0 <= i < |touches| => touches[i].y)
  }

  /** The two-pass statistics: means first, then the deviations from them. */
  function TwoPass(touches: seq<Point>): Stats {
    var xs, ys := Xs(touches), Ys(touches);
    var mx, my := Mean(xs), Mean(ys);
    Stats(|touches|, mx, my, Spread(xs, xs, mx, mx), Spread(ys, ys, my, my), Spread(xs, ys, mx, my))
  }

  /** The statistics after a sequence of touches, updated one at a time. */
  function Online(touches: seq<Point>): Stats {
    if touches == [] then NO_STATS else Add(Online(touches[..|touches| - 1]), touches[|touches| - 1])
  }

  lemma AddIsTwoPass(touches: seq<Point>, p: Point)
    ensures Add(TwoPass(touches), p) == TwoPass(touches + [p])
  {
    var xs, ys := Xs(touches), Ys(touches);
    assert Xs(touches + [p]) == xs + [p.x] && Ys(touches + [p]) == ys + [p.y];
    hide Spread, Mean, Xs, Ys, Times, MeanMoved, Add;
    MeanStep(xs, p.x);
    MeanStep(ys, p.y);
    SpreadStep(xs, xs, p.x, p.x);
    SpreadStep(ys, ys, p.y, p.y);
    SpreadStep(xs, ys, p.x, p.y);
    AddMeans(TwoPass(touches), p, Mean(xs + [p.x]), Mean(ys + [p.y]));
  }

  /** `Add`, in terms of the means it arrives at. */
  lemma AddMeans(st: Stats, p: Point, mx: real, my: real)
    requires MeanMoved(st.meanX, p.x, (st.samples + 1) as real, mx) && MeanMoved(st.meanY, p.y, (st.samples + 1) as real, my)
    ensures Add(st, p) == Stats(st.samples + 1, mx, my,
                                st.m2X + Times(p.x - st.meanX, p.x - mx), st.m2Y + Times(p.y - st.meanY, p.y - my),
                                st.covXY + Times(p.x - st.meanX, p.y - my))
  {
    assert Add(st, p) == Accumulated(st, p, mx, my) by {
      hide Accumulated;
    }
    hide Add, MeanMoved, Times;
  }

  /** After any touches, the running statistics are the two-pass statistics. */
  lemma {:induction false} OnlineIsTwoPass(touches: seq<Point>)
    ensures Online(touches) == TwoPass(touches)
  {
    if touches != [] {
      var prefix := touches[..|touches| - 1];
      OnlineIsTwoPass(prefix);
      AddIsTwoPass(prefix, touches[|touches| - 1]);
      assert prefix + [touches[|touches| - 1]] == touches;
    }
  }

  lemma {:induction false} SquaresNotNegative(us: seq<real>, a: real)
    ensures Spread(us, us, a, a) >= 0.0
  {
    if us != [] {
      SquaresNotNegative(us[..|us| - 1], a);
      var d := us[|us| - 1] - a;
      assert d * d >= 0.0;
    }
  }

  lemma VariancesNotNegative(touches: seq<Point>)
    ensures VarianceX(TwoPass(touches)) >= 0.0 && VarianceY(TwoPass(touches)) >= 0.0
  {
    SquaresNotNegative(Xs(touches), Mean(Xs(touches)));
    SquaresNotNegative(Ys(touches), Mean(Ys(touches)));
  }

  // ---- the cost ----

  /** Squared distance of a touch from the centre, in units of the semi-axes. */
  function Distance2(e: Ellipse, p: Point): real {
    var dx, dy := p.x - e.cx, p.y - e.cy;
    dx * dx / Fmax(e.rx * e.rx, EPSILON) + dy * dy / Fmax(e.ry * e.ry, EPSILON)
  }

  /** The squared distance the hit test compares, from its own formula. */
  function HitDistance2(e: Ellipse, p: Point): real {
    var dx, dy := (p.x - e.cx) / Fmax(e.rx, EPSILON), (p.y - e.cy) / Fmax(e.ry, EPSILON);
    dx * dx + dy * dy
  }

  /** Cost and hit test measure alike on every ellipse whose axes are not vanishing. */
  lemma DistancesAgree(e: Ellipse, p: Point)
    requires e.rx >= 0.001 && e.ry >= 0.001
    ensures Distance2(e, p) == HitDistance2(e, p)
  {
    assert e.rx * e.rx > EPSILON by { AxisNotVanishing(e.rx); }
    assert e.ry * e.ry > EPSILON by { AxisNotVanishing(e.ry); }
    SquareOver(p.x - e.cx, e.rx);
    SquareOver(p.y - e.cy, e.ry);
  }

  lemma AxisNotVanishing(r: real)
    requires r >= 0.001
    ensures r * r > EPSILON
  {
    assert (r - 0.001) * (r - 0.001) >= 0.0;
  }

  lemma SquareOver(d: real, r: real)
    requires r >= 0.001
    ensures (d / r) * (d / r) == d * d / (r * r)
  {
    assert SquareOf(d / r) == QuotientOf(d, r) by {
      SquareIs(d, r, d / r);
    }
  }

  function SquareOf(q: real): real { q * q }

  function QuotientOf(d: real, r: real): real
    requires r >= 0.001
  {
    Per(d * d, PositiveSquare(r))
  }

  function PositiveSquare(r: real): (s: real)
    requires r >= 0.001
    ensures s > 0.0
  {
    AxisNotVanishing(r);
    r * r
  }

  lemma SquareIs(d: real, r: real, q: real)
    requires r >= 0.001 && d == r * q
    ensures SquareOf(q) == Per(d * d, PositiveSquare(r))
  {
    assert Times(PositiveSquare(r), SquareOf(q)) == d * d by {
      assert (r * q) * (r * q) == (r * r) * (q * q);
    }
    hide SquareOf, PositiveSquare;
    DivideTimes(PositiveSquare(r), SquareOf(q), d * d);
  }

  lemma DivideTimes(n: real, a: real, b: real)
    requires n > 0.0 && Times(n, a) == b
    ensures a == Per(b, n)
  {
  }

  function TotalDistance2(e: Ellipse, touches: seq<Point>): real {
    if touches == [] then 0.0 else TotalDistance2(e, touches[..|touches| - 1]) + Distance2(e, touches[|touches| - 1])
  }

  lemma {:induction false} TotalIsSpread(e: Ellipse, touches: seq<Point>)
    ensures TotalDistance2(e, touches)
         == Per(Spread(Xs(touches), Xs(touches), e.cx, e.cx), Fmax(e.rx * e.rx, EPSILON))
          + Per(Spread(Ys(touches), Ys(touches), e.cy, e.cy), Fmax(e.ry * e.ry, EPSILON))
  {
    var wx, wy := Fmax(e.rx * e.rx, EPSILON), Fmax(e.ry * e.ry, EPSILON);
    if touches != [] {
      var n := |touches| - 1;
      var p, xs, ys := touches[n], Xs(touches[..n]), Ys(touches[..n]);
      TotalIsSpread(e, touches[..n]);
      assert Xs(touches) == xs + [p.x] && Ys(touches) == ys + [p.y];
      TotalLast(e, touches[..n], p);
      assert touches[..n] + [p] == touches;
      hide Spread, Xs, Ys, Times, Per, Distance2, TotalDistance2;
      SpreadLast(xs, xs, p.x, p.x, e.cx, e.cx);
      SpreadLast(ys, ys, p.y, p.y, e.cy, e.cy);
      AddOver(Spread(xs, xs, e.cx, e.cx), Times(p.x - e.cx, p.x - e.cx), wx);
      AddOver(Spread(ys, ys, e.cy, e.cy), Times(p.y - e.cy, p.y - e.cy), wy);
    }
  }

  lemma TotalLast(e: Ellipse, touches: seq<Point>, p: Point)
    ensures TotalDistance2(e, touches + [p])
         == TotalDistance2(e, touches) + Per(Times(p.x - e.cx, p.x - e.cx), Fmax(e.rx * e.rx, EPSILON))
          + Per(Times(p.y - e.cy, p.y - e.cy), Fmax(e.ry * e.ry, EPSILON))
  {
    assert (touches + [p])[..|touches|] == touches;
  }

  lemma AddOver(a: real, b: real, den: real)
    requires den > 0.0
    ensures Per(a + b, den) == Per(a, den) + Per(b, den)
  {
    assert den * (a / den + b / den) == den * (a / den) + den * (b / den);
    Divide(den, a / den + b / den, a + b);
  }

  /** One coordinate's share of the cost is its share of the total. */
  lemma CostAlgebra(n: real, m2: real, off: real, den: real)
    requires n > 0.0 && den > 0.0
    ensures Times(n, Per(Per(m2, n) + off, den)) == Per(m2 + Times(n, off), den)
  {
    assert n * (m2 / n) == m2;
    assert n * (m2 / n + off) == m2 + n * off;
    MultiplyInto(n, m2 / n + off, den);
  }

  lemma MultiplyInto(n: real, a: real, den: real)
    requires den > 0.0
    ensures n * (a / den) == (n * a) / den
  {
    assert den * (n * (a / den)) == n * (den * (a / den));
    Divide(den, n * (a / den), n * a);
  }

  lemma Distribute(n: real, a: real, b: real)
    ensures Times(n, a + b) == Times(n, a) + Times(n, b)
  {
  }

  lemma CostOpened(k: Key, e: Ellipse, n: real)
    requires k.stats.samples > 0 && k.frequency == k.stats.samples && n == k.frequency as real
    ensures Cost(k, e) == Times(n,
        Per(Per(k.stats.m2X, n) + Times(k.stats.meanX - e.cx, k.stats.meanX - e.cx), Fmax(e.rx * e.rx, EPSILON))
      + Per(Per(k.stats.m2Y, n) + Times(k.stats.meanY - e.cy, k.stats.meanY - e.cy), Fmax(e.ry * e.ry, EPSILON)))
  {
  }

  /** The cost of an ellipse is the total squared distance of every touch recorded on the key, as long
      as the press count has not run into its 32-bit ceiling. */
  lemma CostIsTotalDistance(k: Key, e: Ellipse, touches: seq<Point>)
    requires k.stats == Online(touches) && k.frequency == |touches|
    ensures Cost(k, e) == TotalDistance2(e, touches)
  {
    OnlineIsTwoPass(touches);
    if touches != [] {
      var xs, ys, n := Xs(touches), Ys(touches), |touches| as real;
      var mx, my := Mean(xs), Mean(ys);
      var wx, wy := Fmax(e.rx * e.rx, EPSILON), Fmax(e.ry * e.ry, EPSILON);
      var sx, sy := Spread(xs, xs, mx, mx), Spread(ys, ys, my, my);
      hide Spread, Mean, Cost, TotalDistance2, Online, Times, Per;
      TotalIsSpread(e, touches);
      AroundTheMean(xs, xs, e.cx, e.cx);
      AroundTheMean(ys, ys, e.cy, e.cy);
      CostOpened(k, e, n);
      var ox, oy := Times(mx - e.cx, mx - e.cx), Times(my - e.cy, my - e.cy);
      CostAlgebra(n, sx, ox, wx);
      CostAlgebra(n, sy, oy, wy);
      Distribute(n, Per(Per(sx, n) + ox, wx), Per(Per(sy, n) + oy, wy));
    }
  }
}
