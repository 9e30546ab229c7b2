/** Lookahead selection and the pure-pursuit steering law shared by the
    chaining planner and the cluster/fit planner.

    The trigonometric functions are not modelled: they are supplied by the
    caller as a `Trig` record and treated as unknown functions, so every
    statement about steering holds whatever they compute. */
module Pursuit {
  import opened Geometry

  /** `atan2(y, x)` and `sin(a)` as provided by the platform's math library. */
  datatype Trig = Trig(atan2: (real, real) -> real, sin: real -> real)

  /** The target is reached when its distance from the vehicle is at least
      the lookahead distance; for `lfd >= 0` that is the squared test. */
  predicate Reaches(p: Point, lfd: real) {
    NormSq(p) >= lfd * lfd
  }

  /** Index of the first path point at or beyond the lookahead distance,
      scanning the path in order; `None` when no point gets that far. */
  function FirstReaching(path: seq<Point>, lfd: real): (r: Option<nat>)
    ensures r.Some? ==> r.value < |path| && Reaches(path[r.value], lfd)
    ensures r.Some? ==> forall j :: 0 <= j < r.value ==> !Reaches(path[j], lfd)
    ensures r.None? <==> forall j :: 0 <= j < |path| ==> !Reaches(path[j], lfd)
    decreases |path|
  {
    if |path| == 0 then None
    else if Reaches(path[0], lfd) then Some(0)
    else match FirstReaching(path[1..], lfd)
      case None => None
      case Some(i) => Some(i + 1)
  }

  /** `path[i]` is the first path point at or beyond the lookahead distance. */
  ghost predicate FirstReachingAt(path: seq<Point>, lfd: real, i: int) {
    0 <= i < |path| && Reaches(path[i], lfd) && forall j :: 0 <= j < i ==> !Reaches(path[j], lfd)
  }

  /** Heading of the target, `atan2(y, x)`. */
  function Heading(t: Trig, target: Point): real {
    t.atan2(target.y, target.x)
  }

  /** Pure-pursuit law `atan2(2 * L * sin(theta), lfd)` for heading `theta`. */
  function PursuitAngle(t: Trig, theta: real, wheelbase: real, lfd: real): real {
    t.atan2(2.0 * wheelbase * t.sin(theta), lfd)
  }
}
