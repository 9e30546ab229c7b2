/** The cluster/fit planner of rubber_cone_v3.py: split the obstacles into
    two clusters, check the cluster centres, fit one line per side, average
    the two lines into a centre path and steer toward its lookahead point.

    The 2-means clusterer and the robust line fit are library calls; they
    are parameters of the model (`Oracles`) and every statement below holds
    whatever they return. */
module ClusterFit {
  import opened Geometry
  import opened Pursuit

  /** Lookahead distance. */
  const Lfd: real := 2.0
  const VehicleLength: real := 1.63
  /** Clustering attempts per cycle. */
  const MaxAttempts: nat := 10
  /** Number of x samples of the fitted lines. */
  const SampleCount: nat := 30
  /** Bound on the magnitude of a fitted slope. */
  const SlopeLimit: real := 30.0

  // ---------------------------------------------------------------------
  // Cluster validation and left/right assignment

  /** A cluster centre inside the validation box: 0 < x < 3 and 1 < |y| < 3. */
  predicate InBand(c: Point) {
    0.0 < c.x < 3.0 && ((1.0 < c.y < 3.0) || (-3.0 < c.y < -1.0))
  }

  /** Number of centres above the x axis. */
  function CountAbove(cs: seq<Point>): nat {
    if |cs| == 0 then 0 else (if cs[0].y > 0.0 then 1 else 0) + CountAbove(cs[1..])
  }

  /** Accepted centres: all inside the box, exactly one of them on the left. */
  predicate ValidCenters(cs: seq<Point>) {
    (forall i :: 0 <= i < |cs| ==> InBand(cs[i])) && CountAbove(cs) == 1
  }

  /** The loop of `validate_clusters` from centre `i` on, with `count`
      centres above the axis seen so far: it counts, gives up at the first
      centre outside the box, and finally wants a count of exactly one. */
  function ValidateFrom(cs: seq<Point>, i: nat, count: nat): (ok: bool)
    requires i <= |cs|
    ensures ok <==> (forall j :: i <= j < |cs| ==> InBand(cs[j])) && count + CountAbove(cs[i..]) == 1
    decreases |cs| - i
  {
    if i == |cs| then count == 1
    else
      var count' := if cs[i].y > 0.0 then count + 1 else count;
      assert cs[i..][1..] == cs[i + 1..];
      if !InBand(cs[i]) then false else ValidateFrom(cs, i + 1, count')
  }

  function ValidateClusters(cs: seq<Point>): (ok: bool)
    ensures ok <==> ValidCenters(cs)
  {
    assert cs[0..] == cs;
    ValidateFrom(cs, 0, 0)
  }

  /** One result of the clusterer: two centres and a label per obstacle. */
  datatype Clustering = Clustering(c0: Point, c1: Point, labels: seq<int>)

  function Centers(cl: Clustering): seq<Point> {
    [cl.c0, cl.c1]
  }

  /** (left index, right index): the centre with the larger y is the left
      one; on equal y, centre 0 is the left one. */
  function LeftRight(cl: Clustering): (r: (nat, nat))
    ensures (r.0 == 0 && r.1 == 1) || (r.0 == 1 && r.1 == 0)
    ensures Centers(cl)[r.0].y >= Centers(cl)[r.1].y
    ensures cl.c0.y == cl.c1.y ==> r.0 == 0
  {
    if cl.c0.y < cl.c1.y then (1, 0) else (0, 1)
  }

  /** For accepted centres the left index picks the centre above the axis
      and the right index the one below it. */
  lemma ValidLeftIsAbove(cl: Clustering)
    requires ValidateClusters(Centers(cl))
    ensures Centers(cl)[LeftRight(cl).0].y > 0.0
    ensures Centers(cl)[LeftRight(cl).1].y < 0.0
  {
    var cs := Centers(cl);
    assert InBand(cs[0]) && InBand(cs[1]);
    assert cs[1..] == [cl.c1];
    assert cs[1..][1..] == [];
    assert CountAbove(cs[1..]) == if cl.c1.y > 0.0 then 1 else 0;
    assert CountAbove(cs) == (if cl.c0.y > 0.0 then 1 else 0) + (if cl.c1.y > 0.0 then 1 else 0);
  }

  // ---------------------------------------------------------------------
  // Bounded retry

  /** Outcome of the retry loop: the accepted clustering and the number of
      rejected attempts before it, or no acceptable clustering at all. */
  datatype Search = Found(clustering: Clustering, failures: nat) | Exhausted

  /** The `while` loop of `process_obstacles` from attempt `attempt` on;
      `kmeans(a)` is what the clusterer returns on attempt `a`. */
  function FindClusters(kmeans: nat -> Clustering, attempt: nat): (r: Search)
    requires attempt <= MaxAttempts
    ensures r.Found? ==> attempt <= r.failures < MaxAttempts && r.clustering == kmeans(r.failures)
    ensures r.Found? ==> ValidCenters(Centers(r.clustering))
    ensures r.Found? ==> forall a :: attempt <= a < r.failures ==> !ValidCenters(Centers(kmeans(a)))
    ensures r.Exhausted? <==> forall a :: attempt <= a < MaxAttempts ==> !ValidCenters(Centers(kmeans(a)))
    decreases MaxAttempts - attempt
  {
    if attempt == MaxAttempts then Exhausted
    else if ValidateClusters(Centers(kmeans(attempt))) then Found(kmeans(attempt), attempt)
    else FindClusters(kmeans, attempt + 1)
  }

  /** The clusterer is seeded with a fixed random state, so every attempt
      repeats the first: the search succeeds at once or not at all. */
  lemma FixedSeedRetriesRepeat(cl: Clustering)
    ensures FindClusters(_ => cl, 0) == if ValidCenters(Centers(cl)) then Found(cl, 0) else Exhausted
  {
  }

  // ---------------------------------------------------------------------
  // Per-side data, samples and line fit

  /** `data[labels == k]`: the obstacles carrying label `k`, in order. */
  function Labelled(data: seq<Point>, labels: seq<int>, k: int): (r: seq<Point>)
    ensures |r| <= |data|
    ensures multiset(r) <= multiset(data)
    ensures forall p :: p in r <==> exists i :: 0 <= i < |data| && i < |labels| && labels[i] == k && data[i] == p
    decreases |data|
  {
    if |data| == 0 || |labels| == 0 then []
    else
      var rest := Labelled(data[1..], labels[1..], k);
      assert data == [data[0]] + data[1..];
      var r := (if labels[0] == k then [data[0]] else []) + rest;
      LabelledStep(data, labels, k, data[1..], labels[1..], rest, r);
      r
  }

  /** One step of the mask: the head obstacle is kept exactly when its label
      is `k`, and the rest are the masked tail, shifted by one index. */
  lemma LabelledStep(data: seq<Point>, labels: seq<int>, k: int, dt: seq<Point>, lt: seq<int>,
                     rest: seq<Point>, r: seq<Point>)
    requires |data| > 0 && |labels| > 0 && dt == data[1..] && lt == labels[1..]
    requires forall p :: p in rest <==> exists i :: 0 <= i < |dt| && i < |lt| && lt[i] == k && dt[i] == p
    requires r == (if labels[0] == k then [data[0]] else []) + rest
    ensures forall p :: p in r <==>
              exists i :: 0 <= i < |data| && i < |labels| && labels[i] == k && data[i] == p
  {
    forall p | p in rest
      ensures exists i :: 0 <= i < |data| && i < |labels| && labels[i] == k && data[i] == p
    {
      var i :| 0 <= i < |dt| && i < |lt| && lt[i] == k && dt[i] == p;
      assert labels[i + 1] == k && data[i + 1] == p;
    }
    forall i | 0 < i < |data| && i < |labels| && labels[i] == k
      ensures data[i] in rest
    {
      assert lt[i - 1] == k && dt[i - 1] == data[i];
    }
  }

  /** With one 0/1 label per obstacle, the two sides partition the data. */
  lemma {:induction false} LabelsPartition(data: seq<Point>, labels: seq<int>)
    requires |labels| == |data|
    requires forall i :: 0 <= i < |labels| ==> labels[i] == 0 || labels[i] == 1
    ensures multiset(Labelled(data, labels, 0)) + multiset(Labelled(data, labels, 1)) == multiset(data)
  {
    if |data| > 0 {
      LabelsPartition(data[1..], labels[1..]);
      assert data == [data[0]] + data[1..];
    }
  }

  function MinX(data: seq<Point>): (m: real)
    requires |data| > 0
    ensures exists i :: 0 <= i < |data| && data[i].x == m
    ensures forall i :: 0 <= i < |data| ==> m <= data[i].x
  {
    if |data| == 1 then data[0].x
    else
      var m' := MinX(data[1..]);
      assert forall i :: 1 <= i < |data| ==> data[i] == data[1..][i - 1];
      if data[0].x <= m' then data[0].x else m'
  }

  function MaxX(data: seq<Point>): (m: real)
    requires |data| > 0
    ensures exists i :: 0 <= i < |data| && data[i].x == m
    ensures forall i :: 0 <= i < |data| ==> data[i].x <= m
  {
    if |data| == 1 then data[0].x
    else
      var m' := MaxX(data[1..]);
      assert forall i :: 1 <= i < |data| ==> data[i] == data[1..][i - 1];
      if data[0].x >= m' then data[0].x else m'
  }

  /** `np.linspace(lo, hi, 30)`: start plus multiples of the step, with the
      last sample set to `hi` exactly. */
  function SampleXs(lo: real, hi: real): (xs: seq<real>)
    ensures |xs| == SampleCount
    ensures xs[0] == lo && xs[SampleCount - 1] == hi
    ensures forall i :: 0 <= i < SampleCount - 1 ==> xs[i + 1] - xs[i] == (hi - lo) / 29.0
    ensures lo <= hi ==> forall i :: 0 <= i < SampleCount ==> lo <= xs[i] <= hi
  {
    var step := (hi - lo) / 29.0;
    var xs := seq(SampleCount, i requires 0 <= i < SampleCount =>
                if i == SampleCount - 1 then hi else lo + (i as real) * step);
    SpacedSamples(lo, step, hi, xs);
    xs
  }

  /** Samples `lo + i * step` with the last one set to `lo + 29 * step`
      are evenly spaced and, for a non-negative step, lie between the ends. */
  lemma SpacedSamples(lo: real, step: real, hi: real, xs: seq<real>)
    requires step == (hi - lo) / 29.0
    requires |xs| == SampleCount && xs[SampleCount - 1] == hi
    requires forall i :: 0 <= i < SampleCount - 1 ==> xs[i] == lo + (i as real) * step
    ensures forall i :: 0 <= i < SampleCount - 1 ==> xs[i + 1] - xs[i] == step
    ensures step >= 0.0 ==> forall i :: 0 <= i < SampleCount ==> lo <= xs[i] <= hi
  {
    assert 29.0 * step == hi - lo;
    assert lo + 28.0 * step + step == hi;
    forall i | 0 <= i < SampleCount - 1
      ensures xs[i + 1] - xs[i] == step
    {
      assert (i + 1) as real * step == (i as real) * step + step;
    }
    if step >= 0.0 {
      forall i | 0 <= i < SampleCount - 1
        ensures lo <= xs[i] <= hi
      {
        assert xs[i] == lo + (i as real) * step;
        StepBound(i as real, step);
      }
    }
  }

  lemma StepBound(k: real, step: real)
    requires 0.0 <= k <= 28.0 && step >= 0.0
    ensures 0.0 <= k * step <= 29.0 * step
  {
  }

  /** `max(2, int(0.2 * n))`: the RANSAC minimum sample count. Python's
      `int` truncates the non-negative product, i.e. `n / 5` rounded down. */
  function MinSamples(n: nat): (k: nat)
    ensures k >= 2
    ensures k == 2 || 5 * k <= n < 5 * k + 5
    ensures n >= 10 ==> 5 * k <= n < 5 * k + 5
  {
    MaxInt(2, n / 5)
  }

  /** The "enough data" guard `n >= max(2, int(0.2 * n))` is just `n >= 2`. */
  lemma EnoughDataGuard(n: nat)
    ensures n >= MinSamples(n) <==> n >= 2
  {
  }

  datatype Line = Line(slope: real, intercept: real)

  function Predict(l: Line, xs: seq<real>): (ys: seq<real>)
    ensures |ys| == |xs|
  {
    seq(|xs|, i requires 0 <= i < |xs| => l.slope * xs[i] + l.intercept)
  }

  /** `max(min(m, 30), -30)`. */
  function ClampSlope(m: real): (r: real)
    ensures -SlopeLimit <= r <= SlopeLimit
    ensures -SlopeLimit <= m <= SlopeLimit ==> r == m
    ensures m > SlopeLimit ==> r == SlopeLimit
    ensures m < -SlopeLimit ==> r == -SlopeLimit
  {
    var upper := if m < SlopeLimit then m else SlopeLimit;
    if upper > -SlopeLimit then upper else -SlopeLimit
  }

  datatype PathType = LeftPath | RightPath | CenterPath

  /** The adjusted model as `validate_and_adjust_model` sets it up before its
      final refit: clamped slope, and for a centre path a zero intercept. */
  function AdjustedLine(fit: Line, pathType: PathType): (l: Line)
    ensures -SlopeLimit <= l.slope <= SlopeLimit
    ensures -SlopeLimit <= fit.slope <= SlopeLimit ==> l.slope == fit.slope
    ensures pathType != CenterPath ==> l.intercept == fit.intercept
  {
    Line(ClampSlope(fit.slope), if pathType == CenterPath then 0.0 else fit.intercept)
  }

  /** Values of the adjusted line at the samples: between any two samples
      they change by at most 30 times the distance in x. */
  lemma AdjustedValuesBounded(fit: Line, pathType: PathType, xs: seq<real>, i: nat, j: nat)
    requires i < |xs| && j < |xs|
    ensures Abs(Predict(AdjustedLine(fit, pathType), xs)[i] - Predict(AdjustedLine(fit, pathType), xs)[j])
            <= SlopeLimit * Abs(xs[i] - xs[j])
  {
    BoundedSlopeValues(AdjustedLine(fit, pathType), xs, i, j);
  }

  lemma BoundedSlopeValues(l: Line, xs: seq<real>, i: nat, j: nat)
    requires i < |xs| && j < |xs| && -SlopeLimit <= l.slope <= SlopeLimit
    ensures Abs(Predict(l, xs)[i] - Predict(l, xs)[j]) <= SlopeLimit * Abs(xs[i] - xs[j])
  {
    var ys := Predict(l, xs);
    var d := xs[i] - xs[j];
    assert ys[i] - ys[j] == l.slope * d by {
      assert ys[i] == l.slope * xs[i] + l.intercept && ys[j] == l.slope * xs[j] + l.intercept;
      LineDifference(l.slope, l.intercept, xs[i], xs[j]);
    }
    SlopeTimesDistance(l.slope, d);
  }

  lemma LineDifference(m: real, b: real, u: real, w: real)
    ensures (m * u + b) - (m * w + b) == m * (u - w)
  {
  }

  lemma SlopeTimesDistance(m: real, d: real)
    requires -SlopeLimit <= m <= SlopeLimit
    ensures Abs(m * d) <= SlopeLimit * Abs(d)
  {
    var e := Abs(d);
    MulNonneg(SlopeLimit - m, e);
    MulNonneg(m + SlopeLimit, e);
    assert (SlopeLimit - m) * e == SlopeLimit * e - m * e;
    assert (m + SlopeLimit) * e == m * e + SlopeLimit * e;
    assert Abs(m * d) == Abs(m * e) by {
      if d < 0.0 {
        assert m * d == -(m * e);
      }
    }
  }

  // ---------------------------------------------------------------------
  // The refit of `validate_and_adjust_model`

  /** The number of samples, counted as a real. */
  function Size(s: seq<real>): (n: real)
    ensures n >= 0.0
    ensures |s| > 0 ==> n >= 1.0
  {
    if |s| == 0 then 0.0 else 1.0 + Size(s[1..])
  }

  lemma {:induction false} SizeIsLength(s: seq<real>)
    ensures Size(s) == |s| as real
  {
    if |s| > 0 {
      SizeIsLength(s[1..]);
    }
  }

  lemma {:induction false} SameSize(s: seq<real>, t: seq<real>)
    requires |s| == |t|
    ensures Size(s) == Size(t)
  {
    if |s| > 0 {
      SameSize(s[1..], t[1..]);
    }
  }

  function Mean(s: seq<real>): real {
    if |s| == 0 then 0.0 else Sum(s) / Size(s)
  }

  /** The samples measured from `c`. */
  function Centred(s: seq<real>, c: real): (d: seq<real>)
    ensures |d| == |s|
  {
    seq(|s|, i requires 0 <= i < |s| => s[i] - c)
  }

  function Dot(us: seq<real>, vs: seq<real>): real
    requires |us| == |vs|
  {
    if |us| == 0 then 0.0 else us[0] * vs[0] + Dot(us[1..], vs[1..])
  }

  function Scale(m: real, us: seq<real>): (r: seq<real>)
    ensures |r| == |us|
  {
    seq(|us|, i requires 0 <= i < |us| => m * us[i])
  }

  /** `LinearRegression().fit(xs, ys)` with an intercept: ordinary least
      squares on the centred samples. Without spread in x the minimum-norm
      solution has slope 0 and passes through the mean. */
  function LeastSquares(xs: seq<real>, ys: seq<real>): Line
    requires |xs| == |ys|
  {
    var mx := Mean(xs);
    var my := Mean(ys);
    var u := Centred(xs, mx);
    var sxx := Dot(u, u);
    var slope := if sxx == 0.0 then 0.0 else Dot(u, Centred(ys, my)) / sxx;
    Line(slope, my - slope * mx)
  }

  /** Least squares on points of one line gives back that line's values. */
  lemma RefitReproducesLine(l: Line, xs: seq<real>)
    ensures Predict(LeastSquares(xs, Predict(l, xs)), xs) == Predict(l, xs)
  {
    var u := Centred(xs, Mean(xs));
    if Dot(u, u) == 0.0 {
      FlatRefit(l, xs);
    } else {
      SpreadRefit(l, xs);
    }
  }

  /** With spread in x the refit recovers the line itself. */
  lemma SpreadRefit(l: Line, xs: seq<real>)
    requires Dot(Centred(xs, Mean(xs)), Centred(xs, Mean(xs))) != 0.0
    ensures LeastSquares(xs, Predict(l, xs)) == l
  {
    var mx := Mean(xs);
    var u := Centred(xs, mx);
    var sxx := Dot(u, u);
    var my := Mean(Predict(l, xs));
    MeanOfLine(l, xs);
    assert my == l.slope * mx + l.intercept;
    CentredLine(l, xs, mx);
    assert Centred(Predict(l, xs), my) == Scale(l.slope, u);
    DotScale(l.slope, u);
    DivCancel(l.slope, sxx);
    assert Dot(u, Centred(Predict(l, xs), my)) / sxx == l.slope;
  }

  /** Without spread every sample is the mean, where both lines agree. */
  lemma FlatRefit(l: Line, xs: seq<real>)
    requires Dot(Centred(xs, Mean(xs)), Centred(xs, Mean(xs))) == 0.0
    ensures Predict(LeastSquares(xs, Predict(l, xs)), xs) == Predict(l, xs)
  {
    var mx := Mean(xs);
    var u := Centred(xs, mx);
    NoSpread(u);
    MeanOfLine(l, xs);
    var fit := LeastSquares(xs, Predict(l, xs));
    assert fit == Line(0.0, Mean(Predict(l, xs)));
    forall i | 0 <= i < |xs|
      ensures Predict(fit, xs)[i] == Predict(l, xs)[i]
    {
      assert u[i] == xs[i] - mx;
    }
  }

  lemma SumOfLine(l: Line, xs: seq<real>)
    ensures Sum(Predict(l, xs)) == l.slope * Sum(xs) + Size(xs) * l.intercept
  {
    if |xs| > 0 {
      PredictTail(l, xs);
      SumOfLine(l, xs[1..]);
      SumStep(l.slope, l.intercept, xs[0], Sum(xs[1..]), Sum(xs), Size(xs[1..]), Size(xs));
    }
  }

  lemma SumStep(m: real, b: real, x0: real, rest: real, total: real, k: real, n: real)
    requires total == x0 + rest && n == k + 1.0
    ensures (m * x0 + b) + (m * rest + k * b) == m * total + n * b
  {
  }

  lemma PredictTail(l: Line, xs: seq<real>)
    requires |xs| > 0
    ensures Predict(l, xs)[0] == l.slope * xs[0] + l.intercept
    ensures Predict(l, xs)[1..] == Predict(l, xs[1..])
  {
    assert forall i :: 0 <= i < |xs| - 1 ==> Predict(l, xs)[1..][i] == Predict(l, xs[1..])[i];
  }

  lemma MeanOfLine(l: Line, xs: seq<real>)
    ensures |xs| > 0 ==> Mean(Predict(l, xs)) == l.slope * Mean(xs) + l.intercept
  {
    if |xs| > 0 {
      SumOfLine(l, xs);
      SameSize(Predict(l, xs), xs);
      MeanStep(l.slope, l.intercept, Sum(xs), Size(xs), Sum(Predict(l, xs)));
    }
  }

  lemma MeanStep(m: real, b: real, total: real, n: real, lineTotal: real)
    requires n >= 1.0 && lineTotal == m * total + n * b
    ensures lineTotal / n == m * (total / n) + b
  {
    var q := total / n;
    DivMul(total, n);
    assert lineTotal == n * (m * q + b);
    DivCancel(m * q + b, n);
  }

  /** Centred on its mean, a line's values are its slope times the centred
      samples. */
  lemma CentredLine(l: Line, xs: seq<real>, mx: real)
    ensures Centred(Predict(l, xs), l.slope * mx + l.intercept) == Scale(l.slope, Centred(xs, mx))
  {
    forall i | 0 <= i < |xs|
      ensures Centred(Predict(l, xs), l.slope * mx + l.intercept)[i] == Scale(l.slope, Centred(xs, mx))[i]
    {
      LineDifference(l.slope, l.intercept, xs[i], mx);
    }
  }

  lemma DotScale(m: real, us: seq<real>)
    ensures Dot(us, Scale(m, us)) == m * Dot(us, us)
  {
    if |us| > 0 {
      assert Scale(m, us)[1..] == Scale(m, us[1..]) by {
        assert forall i :: 0 <= i < |us| - 1 ==> Scale(m, us)[1..][i] == Scale(m, us[1..])[i];
      }
      DotScale(m, us[1..]);
      DotStep(m, us[0], Scale(m, us)[0], Dot(us[1..], Scale(m, us[1..])), Dot(us[1..], us[1..]));
    }
  }

  lemma DotStep(m: real, u: real, v: real, rest: real, restSq: real)
    requires v == m * u && rest == m * restSq
    ensures u * v + rest == m * (u * u + restSq)
  {
  }

  /** A zero sum of squares has every term zero. */
  lemma NoSpread(us: seq<real>)
    requires Dot(us, us) == 0.0
    ensures forall i :: 0 <= i < |us| ==> us[i] == 0.0
  {
    if |us| > 0 {
      SquaresNonneg(us[1..]);
      SquareNonneg(us[0]);
      SquareZero(us[0]);
      NoSpread(us[1..]);
      forall i | 0 <= i < |us|
        ensures us[i] == 0.0
      {
        if i > 0 {
          assert us[i] == us[1..][i - 1];
        }
      }
    }
  }

  lemma SquaresNonneg(us: seq<real>)
    ensures Dot(us, us) >= 0.0
  {
    if |us| > 0 {
      SquareNonneg(us[0]);
      SquaresNonneg(us[1..]);
    }
  }

  /** What `fit_and_validate_path` returns as written: line 216 refits a
      least-squares line to the robust fit's own predictions at the samples.
      Those points are collinear, so the refit reproduces them exactly and
      the clamped slope set just before is discarded. */
  function FitValuesAsWritten(fit: Line, xs: seq<real>): (ys: seq<real>)
    ensures ys == Predict(fit, xs)
  {
    RefitReproducesLine(fit, xs);
    Predict(LeastSquares(xs, Predict(fit, xs)), xs)
  }

  /** A robust-fit slope of 100 reaches the output unclamped: over the
      samples of [0, 1] the as-written values rise by 100, the adjusted ones
      by 30. */
  lemma ClampDiscardedAsWritten()
    ensures FitValuesAsWritten(Line(100.0, 0.0), SampleXs(0.0, 1.0))[SampleCount - 1]
            - FitValuesAsWritten(Line(100.0, 0.0), SampleXs(0.0, 1.0))[0] == 100.0
    ensures Predict(AdjustedLine(Line(100.0, 0.0), LeftPath), SampleXs(0.0, 1.0))[SampleCount - 1]
            - Predict(AdjustedLine(Line(100.0, 0.0), LeftPath), SampleXs(0.0, 1.0))[0] == SlopeLimit
  {
    var xs := SampleXs(0.0, 1.0);
    assert xs[0] == 0.0 && xs[SampleCount - 1] == 1.0;
  }

  /** Which line the side values follow: the program as written keeps the
      robust fit's line; the intended version uses the adjusted line. */
  datatype FitMode = AsWritten | Clamped

  function SideLine(mode: FitMode, fit: Line, pathType: PathType): Line {
    match mode
    case AsWritten => fit
    case Clamped => AdjustedLine(fit, pathType)
  }

  /** `fit_and_validate_path`: nothing unless the guard holds and the robust
      fit succeeds, otherwise the values at the samples. As written these lie
      on the robust fit's line; with the clamp in effect, on the adjusted
      line, whose values change by at most 30 per unit of x.
      `ransac(data, minSamples, fitIntercept)` is the robust fit (residual
      threshold 0.05, 300 trials). */
  function FitAndValidate(mode: FitMode, ransac: (seq<Point>, nat, bool) -> Option<Line>, data: seq<Point>,
                          xs: seq<real>, minSamples: nat, pathType: PathType): (r: Option<seq<real>>)
    ensures r.Some? <==> |data| >= 2 && ransac(data, minSamples, pathType != CenterPath).Some?
    ensures r.Some? ==>
              r.value == Predict(SideLine(mode, ransac(data, minSamples, pathType != CenterPath).value, pathType), xs)
    ensures r.Some? && mode == Clamped ==>
              forall i, j :: 0 <= i < |xs| && 0 <= j < |xs| ==>
                Abs(r.value[i] - r.value[j]) <= SlopeLimit * Abs(xs[i] - xs[j])
  {
    EnoughDataGuard(|data|);
    if |data| >= MaxInt(2, |data| / 5) then
      match ransac(data, minSamples, pathType != CenterPath)
      case None => None
      case Some(fit) =>
        match mode
        case AsWritten => Some(FitValuesAsWritten(fit, xs))
        case Clamped =>
          var ys := Predict(AdjustedLine(fit, pathType), xs);
          assert forall i, j :: 0 <= i < |xs| && 0 <= j < |xs| ==>
                   Abs(ys[i] - ys[j]) <= SlopeLimit * Abs(xs[i] - xs[j]) by {
            forall i, j | 0 <= i < |xs| && 0 <= j < |xs|
              ensures Abs(ys[i] - ys[j]) <= SlopeLimit * Abs(xs[i] - xs[j])
            {
              AdjustedValuesBounded(fit, pathType, xs, i, j);
            }
          }
          Some(ys)
    else None
  }

  /** `calculate_center_path`: the element-wise mean of the two sides. */
  function CenterY(left: seq<real>, right: seq<real>): (c: seq<real>)
    requires |left| == |right|
    ensures |c| == |left|
    ensures forall i :: 0 <= i < |c| ==> c[i] - left[i] == right[i] - c[i]
    ensures forall i :: 0 <= i < |c| ==>
              (left[i] <= c[i] <= right[i]) || (right[i] <= c[i] <= left[i])
  {
    seq(|left|, i requires 0 <= i < |left| => (left[i] + right[i]) / 2.0)
  }

  /** Sides mirrored across the x axis give a centre line on the axis. */
  lemma MirroredSidesCenterOnAxis(left: seq<real>, right: seq<real>)
    requires |left| == |right|
    requires forall i :: 0 <= i < |left| ==> left[i] == -right[i]
    ensures forall i :: 0 <= i < |left| ==> CenterY(left, right)[i] == 0.0
  {
  }

  // ---------------------------------------------------------------------
  // The cycle

  /** The library calls: the 2-means clusterer (`kmeans(data, attempt)`),
      the robust line fit, and the trigonometric functions. */
  datatype Oracles = Oracles(kmeans: (seq<Point>, nat) -> Clustering,
                             ransac: (seq<Point>, nat, bool) -> Option<Line>,
                             trig: Trig)

  function Zip(xs: seq<real>, ys: seq<real>): (path: seq<Point>)
    requires |xs| == |ys|
    ensures |path| == |xs|
  {
    seq(|xs|, i requires 0 <= i < |xs| => Point(xs[i], ys[i]))
  }

  /** The clusterer's result on each attempt for the given obstacles. */
  function Attempts(o: Oracles, data: seq<Point>): nat -> Clustering {
    (a: nat) => o.kmeans(data, a)
  }

  /** The obstacles carrying the label of the left (or the right) centre. */
  function SideData(data: seq<Point>, cl: Clustering, left: bool): seq<Point> {
    var (li, ri) := LeftRight(cl);
    Labelled(data, cl.labels, if left then li else ri)
  }

  /** The robust fit of one side, with that side's minimum sample count. */
  function SideFit(o: Oracles, data: seq<Point>, cl: Clustering, left: bool): Option<Line> {
    var side := SideData(data, cl, left);
    o.ransac(side, MinSamples(|side|), true)
  }

  /** Both sides have enough data and both robust fits succeed. */
  predicate BothSidesFit(o: Oracles, data: seq<Point>, cl: Clustering) {
    |SideData(data, cl, true)| >= 2 && |SideData(data, cl, false)| >= 2
    && SideFit(o, data, cl, true).Some? && SideFit(o, data, cl, false).Some?
  }

  /** The line midway between two lines. */
  function MidLine(a: Line, b: Line): Line {
    Line((a.slope + b.slope) / 2.0, (a.intercept + b.intercept) / 2.0)
  }

  predicate OnLine(path: seq<Point>, l: Line) {
    forall i :: 0 <= i < |path| ==> path[i].y == l.slope * path[i].x + l.intercept
  }

  /** The centre path of one cycle: present exactly when the clustering is
      accepted and both sides fit; then its points lie at the samples, on
      the line midway between the two side lines. */
  function CenterSamples(o: Oracles, mode: FitMode, data: seq<Point>): (r: Option<seq<Point>>)
    ensures r.Some? <==> |data| >= 2 && FindClusters(Attempts(o, data), 0).Found?
                         && BothSidesFit(o, data, FindClusters(Attempts(o, data), 0).clustering)
    ensures r.Some? ==> |r.value| == SampleCount
    ensures r.Some? ==> forall i :: 0 <= i < SampleCount ==> r.value[i].x == SampleXs(MinX(data), MaxX(data))[i]
    ensures r.Some? ==>
              var cl := FindClusters(Attempts(o, data), 0).clustering;
              OnLine(r.value, MidLine(SideLine(mode, SideFit(o, data, cl, true).value, LeftPath),
                                      SideLine(mode, SideFit(o, data, cl, false).value, RightPath)))
  {
    if |data| < 2 then None
    else match FindClusters(Attempts(o, data), 0)
      case Exhausted => None
      case Found(cl, _) =>
        var left := SideData(data, cl, true);
        var right := SideData(data, cl, false);
        var xs := SampleXs(MinX(data), MaxX(data));
        var ly := FitAndValidate(mode, o.ransac, left, xs, MinSamples(|left|), LeftPath);
        var ry := FitAndValidate(mode, o.ransac, right, xs, MinSamples(|right|), RightPath);
        if ly.None? || ry.None? then None
        else
          var c := CenterY(ly.value, ry.value);
          MidLineValues(SideLine(mode, SideFit(o, data, cl, true).value, LeftPath),
                        SideLine(mode, SideFit(o, data, cl, false).value, RightPath), xs, ly.value, ry.value, c);
          Some(Zip(xs, c))
  }

  /** The element-wise mean of two lines' values lies on the line midway
      between them. */
  lemma MidLineValues(a: Line, b: Line, xs: seq<real>, ly: seq<real>, ry: seq<real>, c: seq<real>)
    requires ly == Predict(a, xs) && ry == Predict(b, xs) && |c| == |xs|
    requires forall i :: 0 <= i < |c| ==> c[i] - ly[i] == ry[i] - c[i]
    ensures OnLine(Zip(xs, c), MidLine(a, b))
  {
    forall i | 0 <= i < |c|
      ensures c[i] == MidLine(a, b).slope * xs[i] + MidLine(a, b).intercept
    {
      assert 2.0 * c[i] == (a.slope * xs[i] + a.intercept) + (b.slope * xs[i] + b.intercept);
      assert (a.slope * xs[i] + b.slope * xs[i]) == (a.slope + b.slope) * xs[i];
    }
  }

  /** `process_obstacles` on the stored steering and lookahead flag. Without
      a lookahead target the steering field is left as it was. */
  function Process(o: Oracles, mode: FitMode, data: seq<Point>, steering: real, flag: bool): (r: (real, bool))
    ensures !flag ==> !r.1
    ensures !flag && CenterSamples(o, mode, data).None? ==> r.0 == steering
    ensures !flag && CenterSamples(o, mode, data).Some? ==>
              (forall j :: 0 <= j < SampleCount ==> !Reaches(CenterSamples(o, mode, data).value[j], Lfd)) ==>
                r.0 == steering
    ensures CenterSamples(o, mode, data).Some? ==>
              forall i :: FirstReachingAt(CenterSamples(o, mode, data).value, Lfd, i) ==>
                r.0 == PursuitAngle(o.trig, Heading(o.trig, CenterSamples(o, mode, data).value[i]), VehicleLength, Lfd) && !r.1
  {
    match CenterSamples(o, mode, data)
    case None => (steering, flag)
    case Some(path) =>
      var found := FirstReaching(path, Lfd);
      var flag' := flag || found.Some?;
      var theta := if found.Some? then Heading(o.trig, path[found.value]) else 0.0;
      if flag' then (PursuitAngle(o.trig, theta, VehicleLength, Lfd), false) else (steering, flag')
  }

  /** The node state: new-data flag, latest obstacles, the steering field of
      the command message and the lookahead flag. */
  datatype Planner = Planner(hasNew: bool, obstacles: seq<Point>, steering: real, lookFlag: bool)

  const Initial: Planner := Planner(false, [], 0.0, false)

  /** A new obstacle message raises the new-data flag and replaces the
      stored obstacles; the next tick then publishes exactly when the message
      held at least two. */
  function Receive(s: Planner, centres: seq<Point>): (r: Planner)
    ensures r.hasNew && r.obstacles == centres && r.steering == s.steering && r.lookFlag == s.lookFlag
    ensures forall o, mode :: Tick(o, mode, r).1.Some? <==> |centres| >= 2
  {
    s.(hasNew := true, obstacles := centres)
  }

  /** One timer tick: it processes and publishes only when a new message
      with at least two obstacles has arrived, and then clears the flag. */
  function Tick(o: Oracles, mode: FitMode, s: Planner): (r: (Planner, Option<real>))
    ensures r.1.Some? <==> s.hasNew && |s.obstacles| >= 2
    ensures r.1.Some? ==> r.1.value == r.0.steering && !r.0.hasNew && r.0.obstacles == s.obstacles
    ensures r.1.None? ==> r.0 == s
    ensures r.1.Some? ==> (r.0.steering, r.0.lookFlag) == Process(o, mode, s.obstacles, s.steering, s.lookFlag)
    ensures !s.lookFlag ==> !r.0.lookFlag
  {
    if s.hasNew && |s.obstacles| >= 2 then
      var (steering, flag) := Process(o, mode, s.obstacles, s.steering, s.lookFlag);
      (s.(hasNew := false, steering := steering, lookFlag := flag), Some(steering))
    else (s, None)
  }

  /** Before the first obstacle message a tick publishes nothing and leaves
      the initial state as it is. */
  lemma QuietUntilFirstMessage(o: Oracles, mode: FitMode)
    ensures Tick(o, mode, Initial) == (Initial, None)
  {
  }
}
