/** Centre-path synthesis of the chaining planner (rubber_cone_v4.py):
    merge a left and a right boundary chain, of possibly different lengths,
    into one centre path. */
module CenterLine {
  import opened Geometry

  /** Pairwise midpoints of the first `k` points of both chains. */
  function Midpoints(left: seq<Point>, right: seq<Point>, k: nat): seq<Point>
    requires k <= |left| && k <= |right|
  {
    seq(k, i requires 0 <= i < k => Mid(left[i], right[i]))
  }

  /** Points `s[from..]`, each translated by `d`. */
  function Shifted(s: seq<Point>, from: nat, d: Point): seq<Point>
    requires from <= |s|
  {
    seq(|s| - from, i requires 0 <= i < |s| - from => Add(s[from + i], d))
  }

  /** From index `k` on, `c` keeps the constant offset to `side` that it has at `k`. */
  ghost predicate KeepsOffsetFrom(c: seq<Point>, side: seq<Point>, k: nat)
    requires k < |c| && |c| == |side|
  {
    forall i :: k <= i < |c| ==> Sub(c[i], side[i]) == Sub(c[k], side[k])
  }

  /** The centre line as the source builds it: midpoints where both chains
      have a point, then the longer chain's remaining points carried by the
      offset between the last midpoint and that chain; a lone chain is
      translated so that it starts at the vehicle; no chain, no path. */
  function Merge(left: seq<Point>, right: seq<Point>): (c: seq<Point>)
    ensures |left| > 0 && |right| > 0 ==> |c| == MaxInt(|left|, |right|)
    ensures |left| == 0 ==> |c| == |right|
    ensures |right| == 0 ==> |c| == |left|
    ensures forall i :: 0 <= i < |left| && i < |right| ==> c[i] == Mid(left[i], right[i])
    ensures |left| > |right| > 0 ==> KeepsOffsetFrom(c, left, |right| - 1)
    ensures |right| > |left| > 0 ==> KeepsOffsetFrom(c, right, |left| - 1)
    ensures |left| > 0 && |right| == 0 ==> c[0] == Origin && KeepsOffsetFrom(c, left, 0)
    ensures |right| > 0 && |left| == 0 ==> c[0] == Origin && KeepsOffsetFrom(c, right, 0)
  {
    if |left| > 0 && |right| > 0 then
      if |left| > |right| then
        var k := |right|;
        var mids := Midpoints(left, right, k);
        var d := Sub(mids[k - 1], left[k - 1]);
        var c := mids + Shifted(left, k, d);
        forall i | k <= i < |c|
          ensures Sub(c[i], left[i]) == d
        {
          assert c[i] == Add(left[i], d);
          SubAdd(left[i], d);
        }
        c
      else if |left| < |right| then
        var k := |left|;
        var mids := Midpoints(left, right, k);
        var d := Sub(mids[k - 1], right[k - 1]);
        var c := mids + Shifted(right, k, d);
        forall i | k <= i < |c|
          ensures Sub(c[i], right[i]) == d
        {
          assert c[i] == Add(right[i], d);
          SubAdd(right[i], d);
        }
        c
      else
        Midpoints(left, right, |left|)
    else if |left| > 0 then
      Shifted(left, 0, Neg(left[0]))
    else if |right| > 0 then
      Shifted(right, 0, Neg(right[0]))
    else
      []
  }

  lemma SubAdd(a: Point, d: Point)
    ensures Sub(Add(a, d), a) == d
  {
  }

  /** Chains that mirror each other across the x axis, point for point,
      give a centre path lying on the axis. */
  lemma MirroredChainsCenterOnAxis(left: seq<Point>, right: seq<Point>)
    requires |left| == |right|
    requires forall i :: 0 <= i < |left| ==> left[i] == Point(right[i].x, -right[i].y)
    ensures |Merge(left, right)| == |left|
    ensures forall i :: 0 <= i < |left| ==> Merge(left, right)[i].y == 0.0
  {
  }
}
