# Rubber-cone steering planners in Dafny

A model of the three steering planners of the AutoRace rubber-cone node. Each
planner runs once per control tick. It turns the latest obstacle centres
(cone positions in the vehicle frame: x ahead, y to the left) into one
steering command.

- **Chaining planner** (`rubber_cone_v4.py`; modules `Chaining`, `CenterLine`,
  `SortByX`, `ChainPlanner`).
  - A left chain is seeded at the nearest cone with y > 0 and a right chain at
    the nearest cone with y < 0. A seed must lie within 3.0 of the vehicle.
  - Each chain grows greedily. Among the cones ahead of the current one and
    within 2.5 of it, it takes the one nearest the vehicle.
  - The two chains merge into a centre path, which is sorted by x.
  - The first path point at least 3.0 away is the pure-pursuit target. With
    no target the planner steers straight.
- **Cluster/fit planner** (`rubber_cone_v3.py`; module `ClusterFit`).
  - The obstacles are split into two clusters. The cluster centres are
    validated, with up to 10 attempts.
  - One line is fitted per side and sampled at 30 x values.
  - The centre path is the mean of the two lines. The planner steers toward
    the first sample at least 2.0 away.
  - With no target, the previous steering stays.
- **Angular clearance scan** (`rubber_cone_v2.py`; module `AngularScan`).
  - A ray is cast at every whole degree from -80 to 80, and each ray's
    clearance against disks of radius 1.5 is measured. The intersection is
    taken with the whole line through the vehicle, not only the half ahead.
  - The planner picks the ray with the largest clearance. A tie goes to the
    ray nearest the previous steering angle.
  - The chosen degree is rescaled by 3.5/8.
- **PID controller** (module `Pid`): the controller defined in v2 and v4.
  Neither planner calls it.

Shared pieces:
- `Geometry`: points, `Option`, an order-preserving `Filter`, and numpy's
  first-index `argmin` of distance to the vehicle.
- `Pursuit`: the lookahead search and the pursuit law.

Modelling conventions:
- Distances are compared in squared form, so a limit of 2.5 becomes 6.25 and a
  limit of 3.0 becomes 9.
- `atan2`, `sin`, `tan` and `sqrt` are function parameters. So are the 2-means
  clusterer and the robust line fit. Every statement holds whatever they
  return.
- Each node's stored state is a datatype, and one timer tick is a function
  from state to (state, published steering). An obstacle message is a
  function `Receive` from state to state.
- The v3 cycle takes a `FitMode`. `AsWritten` is the program: each side's
  values lie on the robust fit's line (see Findings). `Clamped` is the
  evidently intended behaviour: the values lie on the line with the slope
  clamped to [-30, 30].

Behaviour of the code worth noting:
- **The left chain can cross to the right side.** Chain growth considers
  every obstacle, not only those on the chain's side. For example, with the
  cones (1,1), (2,1.2), (1,-1), (2,-1.1), the left chain's second point is
  (2,-1.1), and the centre path is (1,0), (2,-1.1)
  (`ChainPlanner.CrossingLinkExample`).
- **An empty obstacle list in v4 does nothing.** Nothing is published and the
  stored steering keeps its value. With obstacles, steering is set to 0 in two
  cases: no chain can be seeded (rubber_cone_v4.py:258-259), or a centre path
  exists, none of its points is 3.0 away, and the lookahead flag is clear
  (rubber_cone_v4.py:300-301).
- **The v2 scan also sees obstacles behind the vehicle.** It intersects each
  obstacle's circle with the whole line y = m x and keeps the crossing with
  the smaller x (rubber_cone_v2.py:70-80). An obstacle at (-2, 0) therefore
  cuts the straight-ahead ray's clearance to 3.5: the discriminant is 9 and
  the crossings are x = -0.5 and x = -3.5
  (`AngularScan.ObstacleBehindBlocksStraightRay`).
- **The v2 tie-break mixes units.** It compares the previous steering, which
  is in rescaled degrees (at most 35), with raw scan degrees (up to 80). The
  model keeps this: `prevAngle` holds the rescaled value.

## Model

| member | source | states |
|---|---|---|
| Geometry.ArgMinNorm | rubber_cone_v4.py:75 | the chosen index has the smallest distance to the vehicle, and every earlier index is strictly farther (numpy's first-index tie rule) |
| Geometry.FirstNearestOfFilter | rubber_cone_v4.py:94-96 | the argmin of the filtered sub-array is the first-indexed point nearest the vehicle among the full array's points that pass the filter |
| Chaining.AddLinePoints | rubber_cone_v4.py:71-81 | every appended point is an obstacle centre; x strictly increases from the current point on; each link is at most 2.5 long, so the `else: break` branch is unreachable and the growth loop terminates |
| Chaining.AddLinePointsIsGreedy | rubber_cone_v4.py:73-79 | each appended point is the first-indexed point nearest the vehicle among all obstacles (either side) ahead of the previous point and within 2.5 of it; growth stops exactly when no such obstacle exists |
| Chaining.GreedyTailUnique | rubber_cone_v4.py:73-79 | the greedy description determines the grown chain uniquely, so it is a complete reference definition of `add_line_points` |
| Chaining.SeedChain | rubber_cone_v4.py:94-107 | a seeded chain starts strictly on its side of the x axis, uses only obstacle centres, and has strictly increasing x and links of at most 2.5 |
| Chaining.SeedChainStart | rubber_cone_v4.py:94-107 | a side's chain is non-empty iff some obstacle strictly on that side lies within 3.0 of the vehicle; its first point is then that side's first-indexed nearest obstacle; points with y = 0 never seed |
| Chaining.SeedChainIsGreedy | rubber_cone_v4.py:98-99 | after its seed, a chain is the greedy growth from the seed |
| CenterLine.Merge | rubber_cone_v4.py:138-256 | length is the longer chain's when both exist, otherwise the lone chain's; indices present in both chains are midpoints; the longer chain's extra points keep the offset between the last midpoint and that chain; a lone chain is translated so that it starts at (0,0) |
| CenterLine.MirroredChainsCenterOnAxis | rubber_cone_v4.py:210-222 | equal-length chains that mirror each other across the x axis give a centre path on the axis |
| SortByX.Sort | rubber_cone_v4.py:265 | the result is sorted by x and is a permutation of the centre path |
| SortByX.SortStable | rubber_cone_v4.py:265 | for each x value, the points having it keep their original relative order (Python's sort is stable) |
| Pursuit.FirstReaching | rubber_cone_v4.py:284-291 | the target index is the first path point at least the lookahead distance away; there is none iff no point is that far |
| ChainPlanner.SteerAlong | rubber_cone_v4.py:282-301 | with a target, steering is the pursuit angle toward the first reaching point; with none and the flag clear, steering is 0; the lookahead flag is always left clear |
| ChainPlanner.Tick | rubber_cone_v4.py:83-303 | an empty point list leaves the state as it is and publishes nothing; otherwise the command is published with the new steering; steering is 0 when no chain exists, and otherwise, when the x-sorted centre path has a first point 3.0 away, it is the pursuit angle toward that point; a clear flag stays clear |
| ChainPlanner.TargetIsFirstAheadInX | rubber_cone_v4.py:265-291 | the pursuit target is a point of the centre path, and no centre point with a smaller x is 3.0 away or farther |
| ChainPlanner.Receive | rubber_cone_v4.py:61-69 | a message replaces the stored point list by the obstacle centres and changes nothing else; the next tick publishes iff the message held at least one centre |
| ChainPlanner.FlagNeverLeaks | rubber_cone_v4.py:289-299 | starting with the flag clear, no number of ticks ever leaves the lookahead flag raised |
| ChainPlanner.QuietUntilFirstMessage | rubber_cone_v4.py:28-51 | from the initial state (no points, steering 0, flag clear) any number of ticks leave the state unchanged and publish nothing |
| ChainPlanner.NoPathIffNoSeed | rubber_cone_v4.py:94-107 | the centre path is empty iff every obstacle off the x axis lies at least 3.0 from the vehicle |
| ChainPlanner.SinglePointSteersStraight | rubber_cone_v4.py:224-256 | with a single obstacle and the lookahead flag clear, the planner steers straight: the centre path is empty or just (0,0) |
| ChainPlanner.ShortPathSteersStraight | rubber_cone_v4.py:284-301 | with the lookahead flag clear, a centre path with no point 3.0 away or farther makes the cycle steer straight |
| ChainPlanner.CrossingLinkExample | rubber_cone_v4.py:71-107 | in the four-cone example the left chain is (1,1),(2,-1.1), the right chain is (1,-1),(2,-1.1), and the centre path is (1,0),(2,-1.1) |
| ChainPlanner.ExampleSteersStraight | rubber_cone_v4.py:258-301 | the four-cone example steers straight, because no centre point is 3.0 away |
| Pid.Compute | rubber_cone_v2.py:18-23 | the integral grows by the error, the previous error becomes the error, the gains do not change, and the output is Kp·e + Ki·(new integral) + Kd·(e − previous error) |
| Pid.RunAccumulates | rubber_cone_v4.py:12-25 | after any sequence of calls the integral is the initial one plus the sum of the errors, and the remembered error is the last one fed in |
| Pid.FirstCallOutput | rubber_cone_v2.py:15-23 | on a fresh controller's first call the derivative is the whole error, so the output is (Kp+Ki+Kd)·e |
| ClusterFit.ValidateFrom | rubber_cone_v3.py:157-168 | the loop with its early exit accepts iff every remaining centre is in the box and the count of centres above the axis ends at exactly one |
| ClusterFit.ValidateClusters | rubber_cone_v3.py:155-168 | centres are accepted iff every centre has 0<x<3 and 1<\|y\|<3, and exactly one centre has y>0 |
| ClusterFit.LeftRight | rubber_cone_v3.py:98-101 | the left index is the centre with the larger y, and centre 0 on equal y |
| ClusterFit.ValidLeftIsAbove | rubber_cone_v3.py:98-101 | for accepted centres the left cluster lies above the x axis and the right one below it |
| ClusterFit.FindClusters | rubber_cone_v3.py:72-85 | the search returns the first accepted clustering within 10 attempts, after that many rejections; it gives up iff all 10 attempts are rejected |
| ClusterFit.FixedSeedRetriesRepeat | rubber_cone_v3.py:78-79 | with a clusterer that returns the same result on every attempt, the search succeeds at attempt 0 or fails |
| ClusterFit.Labelled | rubber_cone_v3.py:103-104 | `data[labels == k]` holds exactly the obstacles whose label is `k`, as a sub-multiset of the obstacles no longer than them |
| ClusterFit.LabelsPartition | rubber_cone_v3.py:103-104 | with one 0/1 label per obstacle, the two sides' data together are exactly the obstacles |
| ClusterFit.MinX | rubber_cone_v3.py:106 | the result is some obstacle's x and no obstacle's x is smaller |
| ClusterFit.MaxX | rubber_cone_v3.py:106 | the result is some obstacle's x and no obstacle's x is larger |
| ClusterFit.SampleXs | rubber_cone_v3.py:106 | 30 samples from the minimum to the maximum x, endpoints included, evenly spaced, all within the range |
| ClusterFit.MinSamples | rubber_cone_v3.py:112-113 | the RANSAC minimum sample count is at least 2, and for 10 or more points it is the point count divided by 5 and truncated |
| ClusterFit.EnoughDataGuard | rubber_cone_v3.py:183 | the guard n ≥ max(2, ⌊0.2·n⌋) holds iff n ≥ 2 |
| ClusterFit.ClampSlope | rubber_cone_v3.py:210 | the clamped slope lies in [-30, 30]; it equals the slope when that is already in range, and the nearer bound otherwise |
| ClusterFit.AdjustedLine | rubber_cone_v3.py:207-215 | the adjusted line's slope lies in [-30, 30] and is unchanged when already in range; except for a centre path the intercept is kept |
| ClusterFit.AdjustedValuesBounded | rubber_cone_v3.py:202-218 | between any two samples the adjusted line's values differ by at most 30 times their x distance |
| ClusterFit.ClampDiscardedAsWritten | rubber_cone_v3.py:213-216 | as written, a fitted slope of 100 reaches the output: over x in [0,1] the output rises by 100, where the clamped line rises by 30 |
| ClusterFit.RefitReproducesLine | rubber_cone_v3.py:216 | a least-squares refit to a line's own values at the samples reproduces those values, whether or not the samples are spread out |
| ClusterFit.SpreadRefit | rubber_cone_v3.py:216 | when the samples are not all equal, the least-squares refit recovers the line itself |
| ClusterFit.FitValuesAsWritten | rubber_cone_v3.py:196-216 | the values returned as written are the robust fit's own line at the samples |
| ClusterFit.FitAndValidate | rubber_cone_v3.py:178-218 | a result exists iff there are at least 2 points and the robust fit succeeds; it is the values at the samples of the robust fit's line as written, or of the adjusted line when clamped; clamped values change by at most 30 per unit of x |
| ClusterFit.CenterY | rubber_cone_v3.py:170-176 | the length is preserved, and each centre value lies between the left and right values, equally far from both |
| ClusterFit.MirroredSidesCenterOnAxis | rubber_cone_v3.py:175 | sides with left = −right give a centre line of zeros |
| ClusterFit.CenterSamples | rubber_cone_v3.py:98-131 | a centre path exists iff there are at least 2 obstacles, the clustering is accepted within 10 attempts, and both sides have 2 points and fit; it has 30 points whose x values are the samples, and they lie on the line midway between the two side lines |
| ClusterFit.Process | rubber_cone_v3.py:133-147 | in either fit mode, with a target, steering is the pursuit angle toward the first sample at least 2.0 away, and the flag is cleared; without a centre path or a target, the steering keeps its previous value |
| ClusterFit.Receive | rubber_cone_v3.py:50-52 | a message raises the new-data flag and replaces the stored obstacles, nothing else; the next tick publishes iff the message held at least 2 obstacles, whatever the fit mode |
| ClusterFit.Tick | rubber_cone_v3.py:43-48 | a tick publishes iff new data with at least 2 obstacles arrived; it then stores and publishes the steering and lookahead flag that `process_obstacles` computes from the stored obstacles, and clears the new-data flag; otherwise the state is unchanged |
| ClusterFit.QuietUntilFirstMessage | rubber_cone_v3.py:17-48 | from the initial state, with no message yet, a tick publishes nothing and changes nothing |
| AngularScan.BlocksIffNearLine | rubber_cone_v2.py:70-75 | the discriminant is positive iff the obstacle centre lies strictly closer than 1.5 to the ray's line; a tangent line does not block |
| AngularScan.HitX | rubber_cone_v2.py:76-78 | the result is one of the two crossings of the quadratic formula and is no larger than either, so it is min(x1, x2); with an exact square root of the discriminant it lies on the obstacle's circle of radius 1.5 |
| AngularScan.HitDistance | rubber_cone_v2.py:76-80 | the hit distance is the distance from the vehicle to the smaller of the two crossings; with an exact square root of the discriminant that point lies on the obstacle's circle |
| AngularScan.ClearanceFrom | rubber_cone_v2.py:67-83 | a ray's clearance never exceeds its start value of 10 and is at most every blocking obstacle's hit distance; it is 10 or one of those distances |
| AngularScan.ClearanceIsNearestHit | rubber_cone_v2.py:67-83 | an unblocked ray keeps clearance 10; a blocking hit nearer than 10 lowers it below 10 |
| AngularScan.Scan | rubber_cone_v2.py:63-83 | one ray per whole degree from -80 to 80 in order; each ray's clearance is the obstacle loop's clearance for the slope tan(degree), and at most 10 |
| AngularScan.ObstacleBehindBlocksStraightRay | rubber_cone_v2.py:63-83 | with exact tan(0) and square roots, an obstacle at (-2, 0), behind the vehicle, blocks the straight-ahead ray and cuts its clearance to 3.5 |
| AngularScan.SelectFrom | rubber_cone_v2.py:85-93 | the loop's winner is the current best or one of the remaining rays, and its clearance is at least the current best's and every remaining ray's |
| AngularScan.Select | rubber_cone_v2.py:85-93 | the winner is the start value or a scanned ray, and no scanned ray has a larger clearance |
| AngularScan.WinnerIsFirstBest | rubber_cone_v2.py:85-93 | with the loop's start value (degree 0, clearance 0) in front, the winner has the largest clearance; among rays with that clearance it is nearest the previous angle, and strictly nearer than every earlier such ray, so ties go to scan order |
| AngularScan.StraightWinsAmongClear | rubber_cone_v2.py:85-93 | when every ray has clearance 10 and the previous angle is 0, the straight-ahead ray wins |
| AngularScan.SteeringDegrees | rubber_cone_v2.py:95 | the steering in degrees is the best ray's degree times 3.5/8, so it lies in [-35, 35] |
| AngularScan.OpenRoadSteersStraight | rubber_cone_v2.py:63-95 | with no obstacle and a previous angle of 0, the steering is 0 |
| AngularScan.Tick | rubber_cone_v2.py:57-102 | only new data triggers a scan, even with no obstacles; it publishes the steering in radians, stores the rescaled degrees (within ±35) as the previous angle, and clears the flag; without new data nothing changes |
| AngularScan.QuietUntilFirstMessage | rubber_cone_v2.py:34-57 | from the initial state, with no message yet, a tick publishes nothing and changes nothing |
| AngularScan.Receive | rubber_cone_v2.py:105-107 | a message raises the new-data flag and replaces the stored obstacles, nothing else; the next tick always publishes, even for an empty message |

## Left out

- ROS plumbing is not modelled: node setup, subscribers, publishers, the 10 Hz
  loop, and building the path and pose messages. A tick is a function, and the
  published command is its second result.
- Concurrency is not modelled. rospy runs the obstacle callback on its own
  thread, alongside the timer loop; in the model `Receive` and `Tick` are
  atomic and never interleave. In v2 and v3 the callback raises the new-data
  flag before it replaces the obstacles (rubber_cone_v2.py:106-107,
  rubber_cone_v3.py:51-52), and the loop clears the flag after processing
  (rubber_cone_v2.py:102, rubber_cone_v3.py:47). A message that arrives
  during a cycle is therefore never processed. In v4 the callback empties
  `point_list` and then refills it (rubber_cone_v4.py:65-69), so a tick can
  see a partial list.
- `atan2`, `sin`, `tan`, `sqrt`, the clusterer and the robust line fit are
  parameters, not implementations. Properties that depend on their numeric
  values (such as the pursuit angle's sign) are not stated. Hit distances
  are stated only for a `sqrt` that returns an exact square root.
- The clusterer's internals are not modelled: initialisation, `n_init` and
  convergence. The model does not prove that its labels are 0/1 or
  consistent with its centres; `LabelsPartition` takes that as its precondition.
- The robust line fit is not modelled: its sampling, the 0.05 residual
  threshold and the 300 trials. A fit failure is its `None`. The library
  instead raises a `ValueError` from `ransac.fit` (rubber_cone_v3.py:191)
  when no consensus set is found. Nothing catches it: it leaves
  `process_obstacles` and the loop, and the only handler
  (rubber_cone_v3.py:238) catches `ROSInterruptException`, so the node
  terminates. The model treats the failure as no line and keeps running.
- `Labelled` pairs obstacles with labels up to the shorter of the two lists.
  The mismatched case, where numpy would raise, does not arise: the
  clusterer gives one label per obstacle.
- IEEE floating point: `real` is exact. `int(0.2 * n)` is modelled as `n / 5`.
- `rubber_cone_v1.py` and `calc_angle_between_vector` are not modelled. Both
  are trigonometry with no decision logic.
- The `prev_x`/`between_center_*` bookkeeping in the v4 centre loops is not
  modelled. Its result is never appended.
- `forward_point` is not modelled: it is stored but never read.
- The centre-path branch of the line adjustment is kept in `AdjustedLine`,
  but no caller in the source passes it.
- The scan's two copies of the running clearance (`prev_d` and `vector.d`)
  are one value in the model, because the source always updates them
  together.

## Findings

| source | as written | input that shows it | evidently intended | confidence | as-written member | corrected member |
|---|---|---|---|---|---|---|
| rubber_cone_v3.py:210-216 | the slope is clamped to [-30, 30], then `fit` refits the new model to the RANSAC line's own predictions; the refit replaces the clamped slope and intercept, so the output is the unclamped RANSAC line | a RANSAC line of slope 100 over x in [0, 1]: the output rises by 100 | the output line has the clamped slope (and the chosen intercept) | not executed | ClusterFit.ClampDiscardedAsWritten | ClusterFit.AdjustedValuesBounded |

The v3 cycle takes a `FitMode`. With `AsWritten` it follows the program:
`ClusterFit.FitValuesAsWritten` shows that the refit returns the robust
fit's own line. With `Clamped` it uses the adjusted line, and
`ClusterFit.FitAndValidate` states the slope bound on its values.
