/** One control cycle of the nearest-neighbour chaining planner
    (rubber_cone_v4.py): chains, centre line, sort by x, lookahead target,
    pure-pursuit steering. */
module ChainPlanner {
  import opened Geometry
  import opened Pursuit
  import Chaining
  import CenterLine
  import SortByX

  /** Lookahead distance. */
  const Lfd: real := 3.0
  /** Wheelbase used by the pursuit law. */
  const VehicleLength: real := 1.63

  /** The state the node keeps between cycles: the latest obstacle centres,
      the steering field of the command message, and the flag telling
      whether a lookahead point was found. */
  datatype Planner = Planner(points: seq<Point>, steering: real, lookFlag: bool)

  const Initial: Planner := Planner([], 0.0, false)

  /** A new obstacle message replaces the stored centres wholesale; the
      next tick publishes exactly when the message held a centre. */
  function Receive(s: Planner, centres: seq<Point>): (r: Planner)
    ensures r.points == centres && r.steering == s.steering && r.lookFlag == s.lookFlag
    ensures forall t :: Tick(t, r).1.Some? <==> |centres| > 0
  {
    s.(points := centres)
  }

  /** Steering for a non-empty sorted centre path, with the flag it leaves. */
  function SteerAlong(t: Trig, path: seq<Point>, flag: bool): (r: (real, bool))
    ensures !r.1
    ensures forall i :: FirstReachingAt(path, Lfd, i) ==>
              r.0 == PursuitAngle(t, Heading(t, path[i]), VehicleLength, Lfd)
    ensures !flag && (forall j :: 0 <= j < |path| ==> !Reaches(path[j], Lfd)) ==> r.0 == 0.0
  {
    var found := FirstReaching(path, Lfd);
    var flag' := flag || found.Some?;
    var theta := if found.Some? then Heading(t, path[found.value]) else 0.0;
    if flag' then (PursuitAngle(t, theta, VehicleLength, Lfd), false) else (0.0, flag')
  }

  function CenterPath(points: seq<Point>): seq<Point> {
    CenterLine.Merge(Chaining.SeedChain(points, Chaining.Left), Chaining.SeedChain(points, Chaining.Right))
  }

  /** One timer tick. Nothing at all happens while no centres are stored;
      otherwise the steering is recomputed and the command published. */
  function Tick(t: Trig, s: Planner): (r: (Planner, Option<real>))
    ensures |s.points| == 0 ==> r == (s, None)
    ensures |s.points| > 0 ==> r.1 == Some(r.0.steering) && r.0.points == s.points
    ensures !s.lookFlag ==> !r.0.lookFlag
    ensures |s.points| > 0 && |CenterPath(s.points)| == 0 ==> r.0.steering == 0.0
    ensures |s.points| > 0 ==>
              forall i :: FirstReachingAt(SortByX.Sort(CenterPath(s.points)), Lfd, i) ==>
                r.0.steering == PursuitAngle(t, Heading(t, SortByX.Sort(CenterPath(s.points))[i]), VehicleLength, Lfd)
  {
    if |s.points| == 0 then (s, None)
    else
      var center := CenterPath(s.points);
      if |center| == 0 then
        (s.(steering := 0.0), Some(0.0))
      else
        var sorted := SortByX.Sort(center);
        var (steering, flag) := SteerAlong(t, sorted, s.lookFlag);
        (s.(steering := steering, lookFlag := flag), Some(steering))
  }

  /** The target the cycle steers toward is a centre point, and no centre
      point strictly behind it in x reaches the lookahead distance. */
  lemma TargetIsFirstAheadInX(points: seq<Point>, i: int)
    requires FirstReachingAt(SortByX.Sort(CenterPath(points)), Lfd, i)
    ensures SortByX.Sort(CenterPath(points))[i] in CenterPath(points)
    ensures forall p :: p in CenterPath(points) && p.x < SortByX.Sort(CenterPath(points))[i].x ==> !Reaches(p, Lfd)
  {
    SortedTargetFirstInX(CenterPath(points), SortByX.Sort(CenterPath(points)), i);
  }

  /** For any sorted permutation of a path, the first reaching point of the
      sorted path has no reaching point of the path strictly behind it. */
  lemma SortedTargetFirstInX(path: seq<Point>, sorted: seq<Point>, i: int)
    requires SortByX.SortedByX(sorted) && multiset(sorted) == multiset(path)
    requires FirstReachingAt(sorted, Lfd, i)
    ensures sorted[i] in path
    ensures forall p :: p in path && p.x < sorted[i].x ==> !Reaches(p, Lfd)
  {
    assert sorted[i] in multiset(sorted);
    forall p | p in path && p.x < sorted[i].x
      ensures !Reaches(p, Lfd)
    {
      assert p in multiset(sorted);
      var j :| 0 <= j < |sorted| && sorted[j] == p;
      assert j < i;
    }
  }

  /** The planner never leaves the lookahead flag raised, so the "no target,
      steer straight" branch is the one every cycle without a target takes. */
  lemma {:induction false} FlagNeverLeaks(t: Trig, s: Planner, n: nat)
    requires !s.lookFlag
    ensures !Run(t, s, n).lookFlag
  {
    if n > 0 {
      FlagNeverLeaks(t, s, n - 1);
    }
  }

  /** `n` ticks with no new obstacle message. */
  function Run(t: Trig, s: Planner, n: nat): Planner {
    if n == 0 then s else Tick(t, Run(t, s, n - 1)).0
  }

  /** Until the first obstacle message the node keeps its initial state and
      publishes nothing, however many ticks pass. */
  lemma {:induction false} QuietUntilFirstMessage(t: Trig, n: nat)
    ensures Run(t, Initial, n) == Initial
    ensures Tick(t, Run(t, Initial, n)).1 == None
  {
    if n > 0 {
      QuietUntilFirstMessage(t, n - 1);
    }
  }

  /** The centre path is empty exactly when no obstacle off the x axis lies
      within 3.0 of the vehicle. */
  lemma NoPathIffNoSeed(points: seq<Point>)
    ensures |CenterPath(points)| == 0 <==>
              forall p :: p in points && p.y != 0.0 ==> NormSq(p) >= Chaining.SeedDistSq
  {
    Chaining.SeedChainStart(points, Chaining.Left);
    Chaining.SeedChainStart(points, Chaining.Right);
  }

  lemma SingleObstacleChain(p: Point, side: Chaining.Side)
    ensures Chaining.SeedChain([p], side) == [] || Chaining.SeedChain([p], side) == [p]
  {
    var chain := Chaining.SeedChain([p], side);
    assert forall i :: 0 <= i < |chain| ==> chain[i] == p;
    if |chain| == 1 {
      assert chain == [chain[0]];
    }
  }

  lemma SingleObstacleCenter(p: Point)
    ensures CenterPath([p]) == [] || CenterPath([p]) == [Origin]
  {
    var left := Chaining.SeedChain([p], Chaining.Left);
    var right := Chaining.SeedChain([p], Chaining.Right);
    SingleObstacleChain(p, Chaining.Left);
    SingleObstacleChain(p, Chaining.Right);
    if |left| > 0 {
      assert Chaining.OnSide(Chaining.Left, left[0]);
    }
    if |right| > 0 {
      assert Chaining.OnSide(Chaining.Right, right[0]);
    }
  }

  /** With a single stored obstacle the planner always steers straight: its
      chain, if any, is that one cone, which the centre line moves onto the
      vehicle, and no point of the path is ahead by the lookahead distance. */
  lemma SinglePointSteersStraight(t: Trig, p: Point, steering: real)
    ensures Tick(t, Planner([p], steering, false)).0.steering == 0.0
  {
    SingleObstacleCenter(p);
    if CenterPath([p]) == [Origin] {
      assert SortByX.Sort([Origin]) == [Origin];
    }
  }

  /** A centre path none of whose points reaches the lookahead distance
      leaves the planner steering straight. */
  lemma ShortPathSteersStraight(t: Trig, s: Planner)
    requires |s.points| > 0 && !s.lookFlag
    requires forall p :: p in CenterPath(s.points) ==> !Reaches(p, Lfd)
    ensures Tick(t, s).0.steering == 0.0
  {
    var center := CenterPath(s.points);
    if |center| > 0 {
      var sorted := SortByX.Sort(center);
      forall j | 0 <= j < |sorted|
        ensures !Reaches(sorted[j], Lfd)
      {
        assert sorted[j] in multiset(sorted);
      }
    }
  }

  lemma CloseCenterSteersStraight(t: Trig, points: seq<Point>, steering: real)
    requires |points| > 0
    requires CenterPath(points) == [Point(1.0, 0.0), Point(2.0, -1.1)]
    ensures Tick(t, Planner(points, steering, false)).0.steering == 0.0
  {
    ShortPathSteersStraight(t, Planner(points, steering, false));
  }

  /** The four-cone example: its centre path stays within 3.0 of the
      vehicle, so the cycle steers straight. */
  lemma ExampleSteersStraight(t: Trig, steering: real)
    ensures Tick(t, Planner(ExampleCones, steering, false)).0.steering == 0.0
  {
    CrossingLinkExample();
    CloseCenterSteersStraight(t, ExampleCones, steering);
  }

  const ExampleCones: seq<Point> := [Point(1.0, 1.0), Point(2.0, 1.2), Point(1.0, -1.0), Point(2.0, -1.1)]

  lemma FilterOfFour(a: Point, b: Point, c: Point, d: Point, keep: Point -> bool)
    ensures Filter([a, b, c, d], keep) ==
              (if keep(a) then [a] else []) + (if keep(b) then [b] else [])
              + (if keep(c) then [c] else []) + (if keep(d) then [d] else [])
  {
    FilterUnfold([d], keep);
    assert [d][1..] == [];
    FilterUnfold([c, d], keep);
    assert [c, d][1..] == [d];
    FilterUnfold([b, c, d], keep);
    assert [b, c, d][1..] == [c, d];
    FilterUnfold([a, b, c, d], keep);
    assert [a, b, c, d][1..] == [b, c, d];
  }

  lemma ExampleFilter(keep: Point -> bool)
    ensures Filter(ExampleCones, keep) ==
              (if keep(ExampleCones[0]) then [ExampleCones[0]] else [])
              + (if keep(ExampleCones[1]) then [ExampleCones[1]] else [])
              + (if keep(ExampleCones[2]) then [ExampleCones[2]] else [])
              + (if keep(ExampleCones[3]) then [ExampleCones[3]] else [])
  {
    FilterOfFour(ExampleCones[0], ExampleCones[1], ExampleCones[2], ExampleCones[3], keep);
    assert ExampleCones == [ExampleCones[0], ExampleCones[1], ExampleCones[2], ExampleCones[3]];
  }

  lemma ExampleGrowthEnds()
    ensures Chaining.AddLinePoints(ExampleCones, Point(2.0, -1.1)) == []
  {
    ExampleFilter(Chaining.CandidateTest(Point(2.0, -1.1)));
    assert Chaining.Candidates(ExampleCones, Point(2.0, -1.1)) == [];
  }

  lemma ExampleCandidates(cy: real)
    requires cy == 1.0 || cy == -1.0
    ensures Chaining.Candidates(ExampleCones, Point(1.0, cy)) == [Point(2.0, 1.2), Point(2.0, -1.1)]
  {
    var keep := Chaining.CandidateTest(Point(1.0, cy));
    var a, b, c, d := Point(1.0, 1.0), Point(2.0, 1.2), Point(1.0, -1.0), Point(2.0, -1.1);
    FilterOfFour(a, b, c, d, keep);
    assert !keep(a) && keep(b) && !keep(c) && keep(d);
    assert Filter([a, b, c, d], keep) == [b] + [d];
  }

  lemma ExampleArgMin()
    ensures ArgMinNorm([Point(2.0, 1.2), Point(2.0, -1.1)]) == 1
    ensures ArgMinNorm([Point(1.0, 1.0), Point(2.0, 1.2)]) == 0
    ensures ArgMinNorm([Point(1.0, -1.0), Point(2.0, -1.1)]) == 0
  {
    assert [Point(2.0, 1.2), Point(2.0, -1.1)][..1] == [Point(2.0, 1.2)];
    assert [Point(1.0, 1.0), Point(2.0, 1.2)][..1] == [Point(1.0, 1.0)];
    assert [Point(1.0, -1.0), Point(2.0, -1.1)][..1] == [Point(1.0, -1.0)];
  }

  lemma ExampleGrowthStep(cur: Point)
    requires cur == Point(1.0, 1.0) || cur == Point(1.0, -1.0)
    ensures Chaining.AddLinePoints(ExampleCones, cur) == [Point(2.0, -1.1)]
  {
    ExampleGrowthEnds();
    ExampleCandidates(cur.y);
    ExampleArgMin();
  }

  lemma ExamplePool(side: Chaining.Side)
    ensures side == Chaining.Left ==>
              Filter(ExampleCones, Chaining.SideTest(side)) == [Point(1.0, 1.0), Point(2.0, 1.2)]
    ensures side == Chaining.Right ==>
              Filter(ExampleCones, Chaining.SideTest(side)) == [Point(1.0, -1.0), Point(2.0, -1.1)]
  {
    var keep := Chaining.SideTest(side);
    var a, b, c, d := Point(1.0, 1.0), Point(2.0, 1.2), Point(1.0, -1.0), Point(2.0, -1.1);
    FilterOfFour(a, b, c, d, keep);
  }

  lemma ExampleChain(side: Chaining.Side)
    ensures side == Chaining.Left ==>
              Chaining.SeedChain(ExampleCones, side) == [Point(1.0, 1.0), Point(2.0, -1.1)]
    ensures side == Chaining.Right ==>
              Chaining.SeedChain(ExampleCones, side) == [Point(1.0, -1.0), Point(2.0, -1.1)]
  {
    ExamplePool(side);
    ExampleArgMin();
    if side == Chaining.Left {
      ExampleGrowthStep(Point(1.0, 1.0));
      ChainOfPair(ExampleCones, side, Point(1.0, 1.0), Point(2.0, 1.2), Point(2.0, -1.1));
    } else {
      ExampleGrowthStep(Point(1.0, -1.0));
      ChainOfPair(ExampleCones, side, Point(1.0, -1.0), Point(2.0, -1.1), Point(2.0, -1.1));
    }
  }

  /** A side with two candidate seeds, the first the nearer and within 3.0,
      whose growth adds one point. */
  lemma ChainOfPair(points: seq<Point>, side: Chaining.Side, a: Point, b: Point, c: Point)
    requires Filter(points, Chaining.SideTest(side)) == [a, b]
    requires ArgMinNorm([a, b]) == 0 && NormSq(a) < Chaining.SeedDistSq
    requires Chaining.AddLinePoints(points, a) == [c]
    ensures Chaining.SeedChain(points, side) == [a, c]
  {
  }

  /** Four cones, two per side: the left chain's second link is the right
      cone at (2, -1.1), nearer the vehicle than the left cone at (2, 1.2),
      because growth considers the obstacles of both sides. */
  lemma CrossingLinkExample()
    ensures Chaining.SeedChain(ExampleCones, Chaining.Left) == [Point(1.0, 1.0), Point(2.0, -1.1)]
    ensures Chaining.SeedChain(ExampleCones, Chaining.Right) == [Point(1.0, -1.0), Point(2.0, -1.1)]
    ensures CenterPath(ExampleCones) == [Point(1.0, 0.0), Point(2.0, -1.1)]
  {
    ExampleChain(Chaining.Left);
    ExampleChain(Chaining.Right);
    MergeOfPairs(Point(1.0, 1.0), Point(2.0, -1.1), Point(1.0, -1.0), Point(2.0, -1.1));
    assert Mid(Point(1.0, 1.0), Point(1.0, -1.0)) == Point(1.0, 0.0);
    assert Mid(Point(2.0, -1.1), Point(2.0, -1.1)) == Point(2.0, -1.1);
  }

  lemma MergeOfPairs(l0: Point, l1: Point, r0: Point, r1: Point)
    ensures CenterLine.Merge([l0, l1], [r0, r1]) == [Mid(l0, r0), Mid(l1, r1)]
  {
    var c := CenterLine.Merge([l0, l1], [r0, r1]);
    assert |c| == 2 && c[0] == Mid(l0, r0) && c[1] == Mid(l1, r1);
  }
}
