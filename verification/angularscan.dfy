/** The angular clearance scan of rubber_cone_v2.py: cast a ray from the
    vehicle at every whole degree from -80 to 80, measure how far each ray
    runs before it meets an obstacle disk, steer toward the ray that runs
    farthest, and prefer the one nearest the previous steering on ties.

    `tan` of a whole degree and `sqrt` are parameters of the model
    (`ScanOracles`); every statement below holds whatever they return. */
module AngularScan {
  import opened Geometry

  /** Radius of the disk each obstacle centre stands for. */
  const Radius: real := 1.5
  /** Clearance of a ray that meets no obstacle. */
  const DefaultClearance: real := 10.0
  const MinDegree: int := -80
  const MaxDegree: int := 80
  /** Number of rays: the degrees -80 to 80 inclusive. */
  const RayCount: nat := 161
  /** Rescale of scan degrees to steering degrees. */
  const Scale: real := 3.5 / 8.0
  const Pi: real := 3.141592653589793
  /** Largest steering in degrees: the widest scan degree, rescaled. */
  const MaxSteering: real := 35.0

  /** `tan(d)` gives the slope of the ray at whole degree `d`. */
  datatype ScanOracles = ScanOracles(tan: int -> real, sqrt: real -> real)

  /** B^2 - 4AC of the line y = m x meeting the disk around `c`. */
  function Discriminant(m: real, c: Point): real {
    var a := 1.0 + m * m;
    var b := -2.0 * (c.x + m * c.y);
    var cc := c.x * c.x + c.y * c.y - Radius * Radius;
    b * b - 4.0 * a * cc
  }

  /** The ray's line crosses the disk in two points; a tangent does not count. */
  predicate Blocks(m: real, c: Point) {
    Discriminant(m, c) > 0.0
  }

  /** Blocking is the geometric condition that the centre lies closer than
      the radius to the line y = m x, its squared distance to that line being
      (m cx - cy)^2 / (1 + m^2). */
  lemma BlocksIffNearLine(m: real, c: Point)
    ensures Blocks(m, c) <==> (m * c.x - c.y) * (m * c.x - c.y) < Radius * Radius * (1.0 + m * m)
  {
    var r2 := Radius * Radius;
    DiscriminantForm(m, c.x, c.y, r2);
    assert Discriminant(m, c) == 4.0 * (r2 * (1.0 + m * m) - (m * c.x - c.y) * (m * c.x - c.y));
  }

  /** The discriminant as four times the gap between the squared radius and
      the scaled squared distance of the centre from the line. */
  lemma DiscriminantForm(m: real, cx: real, cy: real, r2: real)
    ensures (-2.0 * (cx + m * cy)) * (-2.0 * (cx + m * cy)) - 4.0 * (1.0 + m * m) * (cx * cx + cy * cy - r2)
            == 4.0 * (r2 * (1.0 + m * m) - (m * cx - cy) * (m * cx - cy))
  {
    assert (cx + m * cy) * (cx + m * cy) == cx * cx + 2.0 * m * cx * cy + m * m * (cy * cy);
    assert (m * cx - cy) * (m * cx - cy) == m * m * (cx * cx) - 2.0 * m * cx * cy + cy * cy;
    assert (1.0 + m * m) * (cx * cx + cy * cy) == cx * cx + cy * cy + m * m * (cx * cx) + m * m * (cy * cy);
  }

  /** The crossing of the line y = m x with the obstacle's circle given by
      the quadratic formula, for a square root `t` of the discriminant. */
  function Crossing(m: real, c: Point, t: real): real {
    var a := 1.0 + m * m;
    var b := -2.0 * (c.x + m * c.y);
    (-b + t) / (2.0 * a)
  }

  /** The point (x, m x) lies on the circle of radius 1.5 around `c`. */
  predicate OnCircle(m: real, c: Point, x: real) {
    (x - c.x) * (x - c.x) + (m * x - c.y) * (m * x - c.y) == Radius * Radius
  }

  /** The smaller x of the two crossings, `min(x1, x2)`. When the supplied
      square root is exact, that crossing lies on the obstacle's circle. */
  function HitX(o: ScanOracles, m: real, c: Point): (x: real)
    ensures x == Crossing(m, c, o.sqrt(Discriminant(m, c))) || x == Crossing(m, c, -o.sqrt(Discriminant(m, c)))
    ensures x <= Crossing(m, c, o.sqrt(Discriminant(m, c))) && x <= Crossing(m, c, -o.sqrt(Discriminant(m, c)))
    ensures o.sqrt(Discriminant(m, c)) * o.sqrt(Discriminant(m, c)) == Discriminant(m, c) ==> OnCircle(m, c, x)
  {
    var s := o.sqrt(Discriminant(m, c));
    var x1 := Crossing(m, c, s);
    var x2 := Crossing(m, c, -s);
    QuadraticRoot(m, c, s);
    QuadraticRoot(m, c, -s);
    if x2 < x1 then x2 else x1
  }

  /** Distance from the vehicle to the point (x, m x) of the ray's line. */
  function RayDistance(o: ScanOracles, m: real, x: real): real {
    var y := m * x;
    o.sqrt(NormSq(Point(x, y)))
  }

  /** Distance from the vehicle to the crossing with the smaller x. With an
      exact square root it is the distance to a point of the ray's line that
      lies on the obstacle's circle. */
  function HitDistance(o: ScanOracles, m: real, c: Point): (d: real)
    ensures exists x :: d == RayDistance(o, m, x)
                        && (x == Crossing(m, c, o.sqrt(Discriminant(m, c))) || x == Crossing(m, c, -o.sqrt(Discriminant(m, c))))
                        && x <= Crossing(m, c, o.sqrt(Discriminant(m, c))) && x <= Crossing(m, c, -o.sqrt(Discriminant(m, c)))
    ensures o.sqrt(Discriminant(m, c)) * o.sqrt(Discriminant(m, c)) == Discriminant(m, c) ==>
              exists x :: OnCircle(m, c, x) && d == RayDistance(o, m, x)
  {
    RayDistance(o, m, HitX(o, m, c))
  }

  /** Both roots of the quadratic lie on the circle. */
  lemma QuadraticRoot(m: real, c: Point, t: real)
    ensures t * t == Discriminant(m, c) ==> OnCircle(m, c, Crossing(m, c, t))
  {
    if t * t == Discriminant(m, c) {
      QuadraticRootExact(m, c, t);
    }
  }

  lemma QuadraticRootExact(m: real, c: Point, t: real)
    requires t * t == Discriminant(m, c)
    ensures OnCircle(m, c, Crossing(m, c, t))
  {
    var a := 1.0 + m * m;
    var b := -2.0 * (c.x + m * c.y);
    var cc := c.x * c.x + c.y * c.y - Radius * Radius;
    var x := Crossing(m, c, t);
    SquareNonneg(m);
    assert Discriminant(m, c) == b * b - 4.0 * a * cc;
    assert x == (-b + t) / (2.0 * a);
    RootOfQuadratic(a, b, cc, t, x);
    CircleAsQuadratic(m, c.x, c.y, x, a, b, cc);
  }

  /** The quadratic formula: (-b + t) / 2a is a root of a x^2 + b x + cc
      when t is a square root of the discriminant. */
  lemma RootOfQuadratic(a: real, b: real, cc: real, t: real, x: real)
    requires a > 0.0 && x == (-b + t) / (2.0 * a)
    requires t * t == b * b - 4.0 * a * cc
    ensures a * (x * x) + b * x + cc == 0.0
  {
    DivMul(-b + t, 2.0 * a);
    ScaledQuadratic(a, b, cc, t, x);
    ZeroFactor(4.0 * a, a * (x * x) + b * x + cc);
  }

  /** Substituting y = m x into the circle's equation gives the quadratic. */
  lemma CircleAsQuadratic(m: real, cx: real, cy: real, x: real, a: real, b: real, cc: real)
    requires a == 1.0 + m * m && b == -2.0 * (cx + m * cy) && cc == cx * cx + cy * cy - Radius * Radius
    ensures (x - cx) * (x - cx) + (m * x - cy) * (m * x - cy) == Radius * Radius <==> a * (x * x) + b * x + cc == 0.0
  {
  }

  /** Multiplying the quadratic by 4a turns it into a difference of squares
      once 2a x is replaced by -b + t. */
  lemma ScaledQuadratic(a: real, b: real, cc: real, t: real, x: real)
    requires 2.0 * a * x == -b + t
    requires t * t == b * b - 4.0 * a * cc
    ensures 4.0 * a * (a * (x * x) + b * x + cc) == 0.0
  {
    var u := 2.0 * a * x;
    assert 4.0 * a * (a * (x * x) + b * x + cc) == u * u + 2.0 * b * u + 4.0 * a * cc;
    assert u * u + 2.0 * b * u == (t - b) * (t - b) + 2.0 * b * (t - b);
    assert (t - b) * (t - b) + 2.0 * b * (t - b) == t * t - b * b;
  }

  /** The obstacle loop of one ray, starting from clearance `d`: a blocking
      obstacle lowers the clearance to its hit distance when that is smaller. */
  function ClearanceFrom(o: ScanOracles, m: real, obstacles: seq<Point>, d: real): (r: real)
    ensures r <= d
    ensures forall i :: 0 <= i < |obstacles| && Blocks(m, obstacles[i]) ==> r <= HitDistance(o, m, obstacles[i])
    ensures r == d || exists i :: 0 <= i < |obstacles| && Blocks(m, obstacles[i]) && r == HitDistance(o, m, obstacles[i])
    decreases |obstacles|
  {
    if |obstacles| == 0 then d
    else
      var c := obstacles[0];
      var d' := if Blocks(m, c) && HitDistance(o, m, c) < d then HitDistance(o, m, c) else d;
      var r := ClearanceFrom(o, m, obstacles[1..], d');
      assert forall i :: 1 <= i < |obstacles| ==> obstacles[i] == obstacles[1..][i - 1];
      r
  }

  /** Clearance of the ray of slope `m`: the nearest hit, or 10. */
  function Clearance(o: ScanOracles, m: real, obstacles: seq<Point>): (r: real)
    ensures r <= DefaultClearance
  {
    ClearanceFrom(o, m, obstacles, DefaultClearance)
  }

  /** A ray no obstacle blocks keeps the default clearance; a blocked ray's
      clearance is its nearest hit when that is below the default. */
  lemma {:induction false} ClearanceIsNearestHit(o: ScanOracles, m: real, obstacles: seq<Point>, d: real)
    ensures (forall i :: 0 <= i < |obstacles| ==> !Blocks(m, obstacles[i])) ==> ClearanceFrom(o, m, obstacles, d) == d
    ensures forall i :: 0 <= i < |obstacles| && Blocks(m, obstacles[i]) && HitDistance(o, m, obstacles[i]) < d ==>
              ClearanceFrom(o, m, obstacles, d) < d
    decreases |obstacles|
  {
    if |obstacles| > 0 {
      var c := obstacles[0];
      var d' := if Blocks(m, c) && HitDistance(o, m, c) < d then HitDistance(o, m, c) else d;
      ClearanceIsNearestHit(o, m, obstacles[1..], d');
      assert forall i :: 1 <= i < |obstacles| ==> obstacles[i] == obstacles[1..][i - 1];
    }
  }

  /** A scanned direction and its clearance. */
  datatype Ray = Ray(degree: int, clear: real)

  /** The loop's initial best: degree 0 with clearance 0. */
  const Start: Ray := Ray(0, 0.0)

  /** One ray per whole degree from -80 to 80, in that order. */
  function Scan(o: ScanOracles, obstacles: seq<Point>): (rays: seq<Ray>)
    ensures |rays| == RayCount
    ensures forall i :: 0 <= i < RayCount ==> rays[i].degree == MinDegree + i
    ensures forall i :: 0 <= i < RayCount ==> rays[i].clear <= DefaultClearance
    ensures forall i :: 0 <= i < RayCount ==> rays[i].clear == Clearance(o, o.tan(MinDegree + i), obstacles)
  {
    var rays := seq(RayCount, i requires 0 <= i < RayCount =>
                  Ray(MinDegree + i, Clearance(o, o.tan(MinDegree + i), obstacles)));
    assert forall i :: 0 <= i < RayCount ==> rays[i].clear == Clearance(o, o.tan(MinDegree + i), obstacles);
    rays
  }

  /** The scan intersects the whole line y = m x, not the half ahead of the
      vehicle: an obstacle 2 behind the vehicle cuts the straight-ahead
      ray's clearance to 3.5, the distance to the crossing at x = -3.5. */
  lemma ObstacleBehindBlocksStraightRay(o: ScanOracles)
    requires o.tan(0) == 0.0 && o.sqrt(9.0) == 3.0 && o.sqrt(12.25) == 3.5
    ensures Blocks(0.0, Point(-2.0, 0.0))
    ensures Scan(o, [Point(-2.0, 0.0)])[-MinDegree].degree == 0
    ensures Scan(o, [Point(-2.0, 0.0)])[-MinDegree].clear == 3.5
  {
    var c := Point(-2.0, 0.0);
    assert Discriminant(0.0, c) == 9.0;
    assert Crossing(0.0, c, 3.0) == -0.5 && Crossing(0.0, c, -3.0) == -3.5;
    assert HitX(o, 0.0, c) == -3.5;
    assert NormSq(Point(-3.5, 0.0 * -3.5)) == 12.25;
    assert HitDistance(o, 0.0, c) == 3.5;
    assert ClearanceFrom(o, 0.0, [c], DefaultClearance) == ClearanceFrom(o, 0.0, [], 3.5);
  }

  function Gap(prev: real, r: Ray): real {
    Abs(prev - r.degree as real)
  }

  /** The replacement test of the scan loop: a strictly larger clearance, or
      an equal one strictly nearer the previous steering. */
  predicate Replaces(prev: real, cand: Ray, best: Ray) {
    cand.clear > best.clear || (cand.clear == best.clear && Gap(prev, cand) < Gap(prev, best))
  }

  /** The selection loop from the current best on. */
  function SelectFrom(prev: real, best: Ray, rays: seq<Ray>): (w: Ray)
    ensures w == best || w in rays
    ensures best.clear <= w.clear
    ensures forall i :: 0 <= i < |rays| ==> rays[i].clear <= w.clear
    decreases |rays|
  {
    if |rays| == 0 then best
    else SelectFrom(prev, if Replaces(prev, rays[0], best) then rays[0] else best, rays[1..])
  }

  /** The scan loop's winner, starting from the initial best `Start`. */
  function Select(prev: real, rays: seq<Ray>): (w: Ray)
    ensures w == Start || w in rays
    ensures forall i :: 0 <= i < |rays| ==> rays[i].clear <= w.clear
  {
    SelectFrom(prev, Start, rays)
  }

  /** `rs[k]` is the first of the rays with the largest clearance that are
      nearest the previous steering. */
  ghost predicate FirstBestAt(prev: real, rs: seq<Ray>, k: int) {
    0 <= k < |rs|
    && (forall j :: 0 <= j < |rs| ==> rs[j].clear <= rs[k].clear)
    && (forall j :: 0 <= j < |rs| && rs[j].clear == rs[k].clear ==> Gap(prev, rs[k]) <= Gap(prev, rs[j]))
    && (forall j :: 0 <= j < k && rs[j].clear == rs[k].clear ==> Gap(prev, rs[k]) < Gap(prev, rs[j]))
  }

  lemma ExtendFirstBest(prev: real, seen: seq<Ray>, k: nat, r: Ray) returns (k': nat)
    requires FirstBestAt(prev, seen, k)
    ensures FirstBestAt(prev, seen + [r], k')
    ensures (seen + [r])[k'] == if Replaces(prev, r, seen[k]) then r else seen[k]
  {
    var all := seen + [r];
    assert forall j :: 0 <= j < |seen| ==> all[j] == seen[j];
    k' := if Replaces(prev, r, seen[k]) then |seen| else k;
  }

  lemma {:induction false} SelectFromIndex(prev: real, seen: seq<Ray>, k: nat, rays: seq<Ray>) returns (k': nat)
    requires FirstBestAt(prev, seen, k)
    ensures FirstBestAt(prev, seen + rays, k') && (seen + rays)[k'] == SelectFrom(prev, seen[k], rays)
    decreases |rays|
  {
    if |rays| == 0 {
      assert seen + rays == seen;
      k' := k;
    } else {
      var k1 := ExtendFirstBest(prev, seen, k, rays[0]);
      k' := SelectFromIndex(prev, seen + [rays[0]], k1, rays[1..]);
      assert seen + [rays[0]] + rays[1..] == seen + rays;
    }
  }

  /** The winner is the first ray, counting the loop's initial best in
      front, that has the largest clearance and, among those, the smallest
      distance to the previous steering. */
  lemma WinnerIsFirstBest(prev: real, rays: seq<Ray>)
    ensures exists k :: FirstBestAt(prev, [Start] + rays, k) && ([Start] + rays)[k] == Select(prev, rays)
  {
    var k := SelectFromIndex(prev, [Start], 0, rays);
  }

  /** When every ray has the default clearance and one of them points
      straight ahead, a previous steering of 0 keeps the vehicle straight. */
  lemma StraightWinsAmongClear(rays: seq<Ray>, i0: nat)
    requires i0 < |rays| && rays[i0].degree == 0
    requires forall i :: 0 <= i < |rays| ==> rays[i].clear == DefaultClearance
    ensures Select(0.0, rays).degree == 0
  {
    WinnerIsFirstBest(0.0, rays);
    var rs := [Start] + rays;
    var k :| FirstBestAt(0.0, rs, k) && rs[k] == Select(0.0, rays);
    if k > 0 {
      assert rs[k] == rays[k - 1] && rs[i0 + 1] == rays[i0];
    }
  }

  /** Steering in degrees for the winning ray. */
  function SteeringDegrees(o: ScanOracles, obstacles: seq<Point>, prev: real): (a: real)
    ensures -MaxSteering <= a <= MaxSteering
    ensures exists k :: FirstBestAt(prev, [Start] + Scan(o, obstacles), k) &&
              a == ([Start] + Scan(o, obstacles))[k].degree as real * Scale
  {
    var rays := Scan(o, obstacles);
    var w := Select(prev, rays);
    WinnerIsFirstBest(prev, rays);
    assert MinDegree <= w.degree <= MaxDegree by {
      if w != Start {
        var i :| 0 <= i < |rays| && rays[i] == w;
      }
    }
    w.degree as real * Scale
  }

  /** With no obstacle and a previous steering of 0 every ray is clear to
      10, and the straight-ahead ray wins. */
  lemma OpenRoadSteersStraight(o: ScanOracles)
    ensures SteeringDegrees(o, [], 0.0) == 0.0
  {
    var rays := Scan(o, []);
    forall i | 0 <= i < |rays|
      ensures rays[i].clear == DefaultClearance
    {
      assert rays[i] == Ray(MinDegree + i, Clearance(o, o.tan(MinDegree + i), []));
    }
    StraightWinsAmongClear(rays, 80);
  }

  /** The node state: new-data flag, latest obstacles, previous steering in
      degrees, and the steering field of the command message in radians. */
  datatype Planner = Planner(hasNew: bool, obstacles: seq<Point>, prevAngle: real, steering: real)

  const Initial: Planner := Planner(false, [], 0.0, 0.0)

  /** A new obstacle message raises the new-data flag and replaces the
      stored obstacles, so the next tick scans and publishes even when the
      message holds no obstacle. */
  function Receive(s: Planner, centres: seq<Point>): (r: Planner)
    ensures r.hasNew && r.obstacles == centres && r.prevAngle == s.prevAngle && r.steering == s.steering
    ensures forall o :: Tick(o, r).1.Some?
  {
    s.(hasNew := true, obstacles := centres)
  }

  /** One loop iteration. With new data (possibly no obstacle at all) it
      scans, publishes the steering in radians, remembers it in degrees for
      the next tie-break and clears the flag; otherwise it does nothing. */
  function Tick(o: ScanOracles, s: Planner): (r: (Planner, Option<real>))
    ensures !s.hasNew ==> r == (s, None)
    ensures s.hasNew ==> r.1 == Some(r.0.steering) && !r.0.hasNew && r.0.obstacles == s.obstacles
    ensures s.hasNew ==> -MaxSteering <= r.0.prevAngle <= MaxSteering
    ensures s.hasNew ==> r.0.steering == r.0.prevAngle * Pi / 180.0
    ensures s.hasNew ==>
              exists k :: FirstBestAt(s.prevAngle, [Start] + Scan(o, s.obstacles), k) &&
                r.0.prevAngle == ([Start] + Scan(o, s.obstacles))[k].degree as real * Scale
  {
    if s.hasNew then
      var angle := SteeringDegrees(o, s.obstacles, s.prevAngle);
      var steering := angle * Pi / 180.0;
      (Planner(false, s.obstacles, angle, steering), Some(steering))
    else (s, None)
  }

  /** Before the first obstacle message a tick publishes nothing and leaves
      the initial state as it is. */
  lemma QuietUntilFirstMessage(o: ScanOracles)
    ensures Tick(o, Initial) == (Initial, None)
  {
  }
}
