/** Boundary chains of the nearest-neighbour planner (rubber_cone_v4.py):
    each side is seeded with its cone nearest the vehicle and then grown
    greedily forward, one cone at a time. */
module Chaining {
  import opened Geometry

  /** Link radius 2.5, squared. */
  const LinkDistSq: real := 6.25
  /** Seed cut-off 3.0, squared. */
  const SeedDistSq: real := 9.0

  /** `q` may follow `cur`: strictly ahead of it and within the link radius. */
  predicate IsCandidate(cur: Point, q: Point) {
    q.x > cur.x && DistSq(q, cur) <= LinkDistSq
  }

  function CandidateTest(cur: Point): Point -> bool {
    q => IsCandidate(cur, q)
  }

  /** The `next_points` mask: every obstacle, of either side, that may follow `cur`. */
  function Candidates(points: seq<Point>, cur: Point): seq<Point> {
    Filter(points, CandidateTest(cur))
  }

  /** Number of obstacles strictly ahead of `x`; it bounds how often a chain
      can still grow. */
  function CountAhead(points: seq<Point>, x: real): nat {
    if |points| == 0 then 0
    else (if points[0].x > x then 1 else 0) + CountAhead(points[1..], x)
  }

  lemma {:induction false} CountAheadMonotone(points: seq<Point>, x: real, x': real)
    requires x <= x'
    ensures CountAhead(points, x') <= CountAhead(points, x)
  {
    if |points| > 0 {
      CountAheadMonotone(points[1..], x, x');
    }
  }

  /** Stepping to an obstacle ahead leaves strictly fewer obstacles ahead. */
  lemma {:induction false} AheadShrinks(points: seq<Point>, x: real, q: Point)
    requires q in points && q.x > x
    ensures CountAhead(points, q.x) < CountAhead(points, x)
  {
    if points[0] == q {
      CountAheadMonotone(points[1..], x, q.x);
    } else {
      assert q in points[1..];
      AheadShrinks(points[1..], x, q);
    }
  }

  /** Forward coordinates strictly increase along the sequence. */
  predicate StrictlyIncreasingX(s: seq<Point>) {
    forall i, j :: 0 <= i < j < |s| ==> s[i].x < s[j].x
  }

  /** Consecutive points lie within the link radius of each other. */
  predicate Linked(s: seq<Point>) {
    forall i :: 0 <= i < |s| - 1 ==> DistSq(s[i + 1], s[i]) <= LinkDistSq
  }

  lemma PrependLink(cur: Point, s: seq<Point>)
    requires |s| > 0 && IsCandidate(cur, s[0])
    requires StrictlyIncreasingX(s) && Linked(s)
    ensures StrictlyIncreasingX([cur] + s) && Linked([cur] + s)
  {
    var c := [cur] + s;
    forall i, j | 0 <= i < j < |c|
      ensures c[i].x < c[j].x
    {
      if i == 0 && j > 1 {
        assert s[0].x < s[j - 1].x;
      }
    }
  }

  /** The extension loop of `add_line_points`: repeatedly append, among all
      obstacles ahead of the chain's tail and within the link radius, the
      one nearest the vehicle (first on ties). The source re-checks the link
      distance of the chosen point and breaks otherwise; that branch is dead,
      as the assertion below shows. */
  function AddLinePoints(points: seq<Point>, cur: Point): (tail: seq<Point>)
    ensures forall i :: 0 <= i < |tail| ==> tail[i] in points
    ensures StrictlyIncreasingX([cur] + tail)
    ensures Linked([cur] + tail)
    decreases CountAhead(points, cur.x)
  {
    var next := Candidates(points, cur);
    if |next| == 0 then []
    else
      var nxt := next[ArgMinNorm(next)];
      FilterMembers(points, CandidateTest(cur), nxt);
      assert DistSq(nxt, cur) <= LinkDistSq;
      AheadShrinks(points, cur.x, nxt);
      var rest := AddLinePoints(points, nxt);
      PrependLink(cur, [nxt] + rest);
      [nxt] + rest
  }

  /** `q` is the obstacle one greedy step from `cur` appends. */
  ghost predicate NearestAhead(points: seq<Point>, cur: Point, q: Point) {
    exists i :: FirstNearestAt(points, CandidateTest(cur), i) && points[i] == q
  }

  /** Declarative reading of a grown chain: every link is a greedy step, and
      growth stops exactly when no obstacle may follow the last point. */
  ghost predicate GreedyTail(points: seq<Point>, cur: Point, tail: seq<Point>)
    decreases |tail|
  {
    if |tail| == 0 then forall q :: q in points ==> !IsCandidate(cur, q)
    else NearestAhead(points, cur, tail[0]) && GreedyTail(points, tail[0], tail[1..])
  }

  lemma {:induction false} AddLinePointsIsGreedy(points: seq<Point>, cur: Point)
    ensures GreedyTail(points, cur, AddLinePoints(points, cur))
    decreases CountAhead(points, cur.x)
  {
    var next := Candidates(points, cur);
    var tail := AddLinePoints(points, cur);
    if |next| == 0 {
      forall q | q in points
        ensures !IsCandidate(cur, q)
      {
        FilterMembers(points, CandidateTest(cur), q);
      }
    } else {
      var k := ArgMinNorm(next);
      var nxt := next[k];
      FirstNearestOfFilter(points, CandidateTest(cur), k);
      assert NearestAhead(points, cur, nxt);
      AheadShrinks(points, cur.x, nxt);
      AddLinePointsIsGreedy(points, nxt);
      assert tail == [nxt] + AddLinePoints(points, nxt);
    }
  }

  /** The greedy reading determines the chain: any two tails satisfying it
      from the same point coincide. */
  lemma {:induction false} GreedyTailUnique(points: seq<Point>, cur: Point, t1: seq<Point>, t2: seq<Point>)
    requires GreedyTail(points, cur, t1) && GreedyTail(points, cur, t2)
    ensures t1 == t2
    decreases |t1|
  {
    if |t1| > 0 && |t2| > 0 {
      var i1 :| FirstNearestAt(points, CandidateTest(cur), i1) && points[i1] == t1[0];
      var i2 :| FirstNearestAt(points, CandidateTest(cur), i2) && points[i2] == t2[0];
      FirstNearestUnique(points, CandidateTest(cur), i1, i2);
      GreedyTailUnique(points, t1[0], t1[1..], t2[1..]);
      assert t1 == [t1[0]] + t1[1..];
      assert t2 == [t2[0]] + t2[1..];
    }
  }

  datatype Side = Left | Right

  /** Left cones have y > 0, right cones y < 0; a cone on the axis is on neither side. */
  predicate OnSide(side: Side, p: Point) {
    match side
    case Left => p.y > 0.0
    case Right => p.y < 0.0
  }

  function SideTest(side: Side): Point -> bool {
    p => OnSide(side, p)
  }

  /** One boundary chain: the side's obstacle nearest the vehicle seeds it
      when it lies within 3.0, and the chain then grows over ALL obstacles. */
  function SeedChain(points: seq<Point>, side: Side): (chain: seq<Point>)
    ensures |chain| > 0 ==> OnSide(side, chain[0])
    ensures forall i :: 0 <= i < |chain| ==> chain[i] in points
    ensures StrictlyIncreasingX(chain) && Linked(chain)
  {
    var pool := Filter(points, SideTest(side));
    if |pool| == 0 then []
    else
      var seed := pool[ArgMinNorm(pool)];
      FilterMembers(points, SideTest(side), seed);
      if NormSq(seed) < SeedDistSq then [seed] + AddLinePoints(points, seed) else []
  }

  /** A side has a chain exactly when one of its obstacles lies within 3.0
      of the vehicle; the chain then starts at the side's nearest obstacle,
      the first such one on ties. */
  lemma SeedChainStart(points: seq<Point>, side: Side)
    ensures |SeedChain(points, side)| > 0 <==> exists p :: p in points && OnSide(side, p) && NormSq(p) < SeedDistSq
    ensures |SeedChain(points, side)| > 0 ==>
              exists i :: FirstNearestAt(points, SideTest(side), i) && points[i] == SeedChain(points, side)[0]
  {
    var pool := Filter(points, SideTest(side));
    var chain := SeedChain(points, side);
    if |pool| == 0 {
      forall p | p in points && OnSide(side, p)
        ensures false
      {
        FilterMembers(points, SideTest(side), p);
      }
    } else {
      var k := ArgMinNorm(pool);
      NearestOfPool(pool, k);
      FirstNearestOfFilter(points, SideTest(side), k);
      if exists p :: p in points && OnSide(side, p) && NormSq(p) < SeedDistSq {
        var p :| p in points && OnSide(side, p) && NormSq(p) < SeedDistSq;
        FilterMembers(points, SideTest(side), p);
      }
    }
  }

  lemma NearestOfPool(pool: seq<Point>, k: nat)
    requires k < |pool|
    requires forall j :: 0 <= j < |pool| ==> NormSq(pool[k]) <= NormSq(pool[j])
    ensures forall p :: p in pool ==> NormSq(pool[k]) <= NormSq(p)
  {
    forall p | p in pool
      ensures NormSq(pool[k]) <= NormSq(p)
    {
      var j :| 0 <= j < |pool| && pool[j] == p;
    }
  }

  /** The grown part of a seeded chain is the greedy extension of its seed. */
  lemma SeedChainIsGreedy(points: seq<Point>, side: Side)
    requires |SeedChain(points, side)| > 0
    ensures GreedyTail(points, SeedChain(points, side)[0], SeedChain(points, side)[1..])
  {
    var chain := SeedChain(points, side);
    AddLinePointsIsGreedy(points, chain[0]);
  }
}
