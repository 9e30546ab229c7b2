/** Planar points in the vehicle frame (forward = +x, left = +y) and the
    small sequence helpers shared by the three planners.

    All planners compare Euclidean distances only against other distances
    or fixed thresholds; since the square root is monotone on non-negative
    reals, every such comparison is stated here on squared norms. */
module Geometry {

  datatype Point = Point(x: real, y: real)

  datatype Option<T> = None | Some(value: T)

  const Origin: Point := Point(0.0, 0.0)

  function Add(p: Point, q: Point): Point {
    Point(p.x + q.x, p.y + q.y)
  }

  function Sub(p: Point, q: Point): Point {
    Point(p.x - q.x, p.y - q.y)
  }

  function Neg(p: Point): Point {
    Point(-p.x, -p.y)
  }

  /** Component-wise average, as `(a + b) / 2` in the planners. */
  function Mid(p: Point, q: Point): Point {
    Point((p.x + q.x) / 2.0, (p.y + q.y) / 2.0)
  }

  /** Squared distance from the origin (the vehicle). */
  function NormSq(p: Point): real {
    p.x * p.x + p.y * p.y
  }

  function DistSq(p: Point, q: Point): real {
    NormSq(Sub(p, q))
  }

  function Abs(r: real): real {
    if r < 0.0 then -r else r
  }

  function MaxInt(a: int, b: int): int {
    if a < b then b else a
  }

  /** The sum of a sequence of reals, taken from the front. */
  function Sum(s: seq<real>): real {
    if |s| == 0 then 0.0 else s[0] + Sum(s[1..])
  }

  /** Adding one value at the end adds it to the sum. */
  lemma {:induction false} SumAppend(s: seq<real>, e: real)
    ensures Sum(s + [e]) == Sum(s) + e
  {
    if |s| > 0 {
      SumAppend(s[1..], e);
      assert (s + [e])[1..] == s[1..] + [e];
    }
  }

  // Real-arithmetic facts the solver does not find on its own.

  lemma SquareNonneg(d: real)
    ensures d * d >= 0.0
  {
  }

  lemma SquareZero(d: real)
    requires d * d <= 0.0
    ensures d == 0.0
  {
    if d != 0.0 {
      SquareNonneg(d);
      DivCancel(d, d);
    }
  }

  lemma DivMul(a: real, n: real)
    requires n != 0.0
    ensures (a / n) * n == a
  {
  }

  lemma DivCancel(a: real, n: real)
    requires n != 0.0
    ensures (a * n) / n == a
  {
  }

  lemma ZeroFactor(k: real, q: real)
    requires k != 0.0 && k * q == 0.0
    ensures q == 0.0
  {
    DivCancel(q, k);
    assert k * q == q * k;
  }

  lemma MulNonneg(a: real, b: real)
    requires a >= 0.0 && b >= 0.0
    ensures a * b >= 0.0
  {
  }

  /** Order-preserving selection, like a boolean mask over a point array. */
  function Filter<T>(s: seq<T>, keep: T -> bool): (r: seq<T>)
    ensures |r| <= |s|
  {
    if |s| == 0 then []
    else (if keep(s[0]) then [s[0]] else []) + Filter(s[1..], keep)
  }

  /** The selection holds exactly the elements that pass the mask. */
  lemma {:induction false} FilterMembers<T>(s: seq<T>, keep: T -> bool, v: T)
    ensures v in Filter(s, keep) <==> v in s && keep(v)
  {
    if |s| > 0 {
      FilterMembers(s[1..], keep, v);
      assert s == [s[0]] + s[1..];
    }
  }

  /** Index of the point nearest the origin; on equal distances the first
      such index wins, as `argmin` does. */
  function ArgMinNorm(s: seq<Point>): (i: nat)
    requires |s| > 0
    ensures i < |s|
    ensures forall j :: 0 <= j < |s| ==> NormSq(s[i]) <= NormSq(s[j])
    ensures forall j :: 0 <= j < i ==> NormSq(s[i]) < NormSq(s[j])
    decreases |s|
  {
    if |s| == 1 then 0
    else
      var k := ArgMinNorm(s[..|s| - 1]);
      if NormSq(s[|s| - 1]) < NormSq(s[k]) then |s| - 1 else k
  }

  /** `s[i]` is the point nearest the origin among those of `s` that pass
      `keep`, and no passing point listed before it is as near. */
  ghost predicate FirstNearestAt(s: seq<Point>, keep: Point -> bool, i: int) {
    && 0 <= i < |s|
    && keep(s[i])
    && (forall p :: p in s && keep(p) ==> NormSq(s[i]) <= NormSq(p))
    && (forall j :: 0 <= j < i && keep(s[j]) ==> NormSq(s[i]) < NormSq(s[j]))
  }

  /** `f[k]` is nearest the origin in `f`, and strictly nearer than every
      point listed before it: what `argmin` returns. */
  ghost predicate IsFirstNearest(f: seq<Point>, k: int) {
    && 0 <= k < |f|
    && (forall j :: 0 <= j < |f| ==> NormSq(f[k]) <= NormSq(f[j]))
    && (forall j :: 0 <= j < k ==> NormSq(f[k]) < NormSq(f[j]))
  }

  lemma FilterUnfold<T>(s: seq<T>, keep: T -> bool)
    requires |s| > 0
    ensures Filter(s, keep) == (if keep(s[0]) then [s[0]] else []) + Filter(s[1..], keep)
  {
  }

  lemma FilterCons<T>(a: T, rest: seq<T>, keep: T -> bool)
    ensures Filter([a] + rest, keep) == (if keep(a) then [a] else []) + Filter(rest, keep)
  {
    FilterUnfold([a] + rest, keep);
    assert ([a] + rest)[1..] == rest;
  }

  /** Selecting with a mask and then taking `argmin` picks the first point
      of the unmasked sequence that is nearest among the kept ones. */
  lemma {:induction false} FirstNearestOfFilter(s: seq<Point>, keep: Point -> bool, k: nat)
    requires IsFirstNearest(Filter(s, keep), k)
    ensures exists i :: FirstNearestAt(s, keep, i) && s[i] == Filter(s, keep)[k]
  {
    FilterUnfold(s, keep);
    if keep(s[0]) && k == 0 {
      HeadFirstNearest(s, keep);
    } else {
      var k' := if keep(s[0]) then k - 1 else k;
      TailFirstNearest(s, keep, k, k');
      FirstNearestOfFilter(s[1..], keep, k');
      var i' :| FirstNearestAt(s[1..], keep, i') && s[1..][i'] == Filter(s[1..], keep)[k'];
      ShiftFirstNearest(s, keep, i');
    }
  }

  /** A kept head that `argmin` of the selection picks is first-nearest. */
  lemma HeadFirstNearest(s: seq<Point>, keep: Point -> bool)
    requires |s| > 0 && keep(s[0]) && IsFirstNearest(Filter(s, keep), 0)
    ensures FirstNearestAt(s, keep, 0) && s[0] == Filter(s, keep)[0]
  {
    var f := Filter(s, keep);
    FilterUnfold(s, keep);
    forall p | p in s && keep(p)
      ensures NormSq(s[0]) <= NormSq(p)
    {
      FilterMembers(s, keep, p);
      var j :| 0 <= j < |f| && f[j] == p;
    }
  }

  /** Any other pick of `argmin` on the selection is a pick on the tail's
      selection, strictly nearer than a kept head. */
  lemma TailFirstNearest(s: seq<Point>, keep: Point -> bool, k: nat, k': nat)
    requires |s| > 0 && IsFirstNearest(Filter(s, keep), k) && !(keep(s[0]) && k == 0)
    requires k' == if keep(s[0]) then k - 1 else k
    ensures IsFirstNearest(Filter(s[1..], keep), k')
    ensures Filter(s[1..], keep)[k'] == Filter(s, keep)[k]
    ensures keep(s[0]) ==> NormSq(Filter(s, keep)[k]) < NormSq(s[0])
  {
    var f := Filter(s, keep);
    var f' := Filter(s[1..], keep);
    FilterUnfold(s, keep);
    if keep(s[0]) {
      assert f == [s[0]] + f';
      DropNearerHead(f, s[0], f', k);
    } else {
      assert f == f';
    }
  }

  /** Dropping the head of `f = [h] + f'` moves a later `argmin` pick one
      place down, and that pick is strictly nearer than the head. */
  lemma DropNearerHead(f: seq<Point>, h: Point, f': seq<Point>, k: nat)
    requires f == [h] + f' && 0 < k && IsFirstNearest(f, k)
    ensures IsFirstNearest(f', k - 1) && f'[k - 1] == f[k] && NormSq(f[k]) < NormSq(h)
  {
    assert f[0] == h;
    forall j | 0 <= j < |f'|
      ensures f'[j] == f[j + 1]
    {
    }
    forall j | 0 <= j < |f'|
      ensures NormSq(f'[k - 1]) <= NormSq(f'[j])
    {
      assert NormSq(f[k]) <= NormSq(f[j + 1]);
    }
    forall j | 0 <= j < k - 1
      ensures NormSq(f'[k - 1]) < NormSq(f'[j])
    {
      assert NormSq(f[k]) < NormSq(f[j + 1]);
    }
  }

  /** A first-nearest index of the tail lifts to the whole sequence when the
      head is either rejected or strictly farther. */
  lemma ShiftFirstNearest(s: seq<Point>, keep: Point -> bool, i': int)
    requires |s| > 0 && FirstNearestAt(s[1..], keep, i')
    requires keep(s[0]) ==> NormSq(s[1..][i']) < NormSq(s[0])
    ensures FirstNearestAt(s, keep, i' + 1)
  {
    assert s == [s[0]] + s[1..];
  }

  /** The first-nearest index is unique. */
  lemma FirstNearestUnique(s: seq<Point>, keep: Point -> bool, i: int, i': int)
    requires FirstNearestAt(s, keep, i) && FirstNearestAt(s, keep, i')
    ensures i == i'
  {
  }
}
