/** `sorted(center_line, key=lambda point: point[0])` of rubber_cone_v4.py:
    a stable sort of points by their forward coordinate, modelled as
    insertion sort. */
module SortByX {
  import opened Geometry

  predicate SortedByX(s: seq<Point>) {
    forall i, j :: 0 <= i < j < |s| ==> s[i].x <= s[j].x
  }

  function XIs(v: real): Point -> bool {
    (p: Point) => p.x == v
  }

  /** Insert `p` before the first point that is not strictly behind it, so
      that `p` precedes the points of equal `x` already placed. */
  function Insert(p: Point, s: seq<Point>): (r: seq<Point>)
    requires SortedByX(s)
    ensures SortedByX(r)
    ensures multiset(r) == multiset(s) + multiset{p}
    ensures |r| == |s| + 1
  {
    if |s| == 0 || p.x <= s[0].x then [p] + s
    else
      var rest := Insert(p, s[1..]);
      assert multiset(s) == multiset{s[0]} + multiset(s[1..]) by {
        assert s == [s[0]] + s[1..];
      }
      assert rest[0] in multiset(rest);
      [s[0]] + rest
  }

  function Sort(s: seq<Point>): (r: seq<Point>)
    ensures SortedByX(r)
    ensures multiset(r) == multiset(s)
    ensures |r| == |s|
  {
    if |s| == 0 then []
    else
      assert s == [s[0]] + s[1..];
      Insert(s[0], Sort(s[1..]))
  }

  lemma {:induction false} InsertStable(p: Point, s: seq<Point>, v: real)
    requires SortedByX(s)
    ensures Filter(Insert(p, s), XIs(v)) == (if p.x == v then [p] else []) + Filter(s, XIs(v))
  {
    if |s| == 0 || p.x <= s[0].x {
      assert Insert(p, s) == [p] + s;
      FilterCons(p, s, XIs(v));
    } else {
      var r' := Insert(p, s[1..]);
      assert Insert(p, s) == [s[0]] + r';
      InsertStable(p, s[1..], v);
      PassHead(p, s[0], s[1..], r', XIs(v));
      assert s == [s[0]] + s[1..];
    }
  }

  /** Putting `h` in front of both sides keeps a filtered equation about
      `p` when `h` and `p` are not both kept. */
  lemma PassHead<T>(p: T, h: T, rest: seq<T>, r: seq<T>, keep: T -> bool)
    requires !(keep(h) && keep(p))
    requires Filter(r, keep) == (if keep(p) then [p] else []) + Filter(rest, keep)
    ensures Filter([h] + r, keep) == (if keep(p) then [p] else []) + Filter([h] + rest, keep)
  {
    FilterCons(h, r, keep);
    FilterCons(h, rest, keep);
    if keep(h) {
      assert Filter([h] + r, keep) == [h] + Filter(rest, keep);
    } else {
      assert Filter([h] + rest, keep) == Filter(rest, keep);
    }
  }

  /** Stability: for every forward coordinate, the points having it keep
      their original relative order. */
  lemma {:induction false} SortStable(s: seq<Point>, v: real)
    ensures Filter(Sort(s), XIs(v)) == Filter(s, XIs(v))
  {
    if |s| > 0 {
      SortStable(s[1..], v);
      InsertStable(s[0], Sort(s[1..]), v);
      FilterUnfold(s, XIs(v));
    }
  }
}
