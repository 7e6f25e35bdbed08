/**
  Route geometry (app/lib/flight.ts): a quadratic Bezier route between two
  coordinates, the cumulative-distance table along it, the interpolation of a
  position and heading at a progress fraction, and the split of the route into
  its flown and unflown parts.

  JavaScript numbers are modelled as exact reals. The haversine distance and the
  atan2 forward azimuth need trigonometry, so they are supplied as the two
  functions of an `Earth` value, about which only `Sound` is assumed.
*/
module Flight {

  /** A `[longitude, latitude]` pair in degrees. */
  datatype Coord = Coord(lon: real, lat: real)

  /** The trigonometric part of the source, left abstract:
      `distance` is haversineDistance (kilometres) and `azimuthDegrees` is
      `toDegrees(Math.atan2(y, x))` of bearingBetween, before normalisation. */
  datatype Earth = Earth(distance: (Coord, Coord) -> real, azimuthDegrees: (Coord, Coord) -> real)

  /** What the model relies on about the abstract trigonometry: distances are
      non-negative and zero between equal points, and atan2 in degrees lies in
      [-180, 180]. */
  ghost predicate Sound(e: Earth) {
    && (forall a, b :: e.distance(a, b) >= 0.0)
    && (forall a :: e.distance(a, a) == 0.0)
    && (forall a, b :: -180.0 <= e.azimuthDegrees(a, b) <= 180.0)
  }

  /** The converse of "zero on equal points", for the segments of one route:
      consecutive points at distance zero are equal. Haversine does not meet
      this for every pair of points (two points on a pole, or longitudes 360
      degrees apart, are at distance zero), so it is stated per route. */
  ghost predicate SeparatesOn(e: Earth, coords: seq<Coord>) {
    forall i :: 1 <= i < |coords| ==> e.distance(coords[i - 1], coords[i]) == 0.0 ==> coords[i - 1] == coords[i]
  }

  function Min(x: real, y: real): real { if x <= y then x else y }

  function Max(x: real, y: real): real { if x >= y then x else y }

  function Abs(x: real): real { if x >= 0.0 then x else -x }

  // ---------------------------------------------------------------------------
  // buildBezierRoute
  // ---------------------------------------------------------------------------

  /** How far the control point is lifted above the midpoint. */
  function ArcOffset(origin: Coord, destination: Coord): (r: real)
    ensures r >= 0.0
  {
    Max(Abs(destination.lon - origin.lon), Abs(destination.lat - origin.lat)) * 0.18
  }

  /** The control point: the midpoint, raised in latitude by the arc offset. */
  function Control(origin: Coord, destination: Coord): Coord {
    Coord((origin.lon + destination.lon) / 2.0,
          (origin.lat + destination.lat) / 2.0 + ArcOffset(origin, destination))
  }

  /** One coordinate of the quadratic Bezier curve with control value `p1`. */
  function Quadratic(p0: real, p1: real, p2: real, t: real): real {
    (1.0 - t) * (1.0 - t) * p0 + 2.0 * (1.0 - t) * t * p1 + t * t * p2
  }

  /** The curve parameter of point `i` of `steps`. */
  function Parameter(steps: nat, i: nat): real
    requires steps >= 1
  {
    i as real / steps as real
  }

  /** Point `i` of the route that buildBezierRoute builds with `steps` steps. */
  function BezierPoint(origin: Coord, destination: Coord, steps: nat, i: nat): Coord
    requires steps >= 1
  {
    var t := Parameter(steps, i);
    var control := Control(origin, destination);
    Coord(Quadratic(origin.lon, control.lon, destination.lon, t),
          Quadratic(origin.lat, control.lat, destination.lat, t))
  }

  /** buildBezierRoute: pushes point i for i = 0 .. steps. `steps = 0` would
      divide 0 by 0, so at least one step is required. */
  method BuildBezierRoute(origin: Coord, destination: Coord, steps: nat := 160)
    returns (points: seq<Coord>)
    requires steps >= 1
    ensures |points| == steps + 1
    ensures forall i :: 0 <= i <= steps ==> points[i] == BezierPoint(origin, destination, steps, i)
    ensures points[0] == origin && points[steps] == destination
  {
    points := [];
    var i := 0;
    while i <= steps
      invariant 0 <= i <= steps + 1
      invariant |points| == i
      invariant forall k :: 0 <= k < i ==> points[k] == BezierPoint(origin, destination, steps, k)
    {
      var t := i as real / steps as real;
      var oneMinus := 1.0 - t;
      var control := Control(origin, destination);
      var lon := oneMinus * oneMinus * origin.lon + 2.0 * oneMinus * t * control.lon + t * t * destination.lon;
      var lat := oneMinus * oneMinus * origin.lat + 2.0 * oneMinus * t * control.lat + t * t * destination.lat;
      assert Coord(lon, lat) == BezierPoint(origin, destination, steps, i);
      points := points + [Coord(lon, lat)];
      i := i + 1;
    }
    BezierEndpoints(origin, destination, steps);
  }

  /** The first point is the origin and the last the destination, exactly. */
  lemma BezierEndpoints(origin: Coord, destination: Coord, steps: nat)
    requires steps >= 1
    ensures BezierPoint(origin, destination, steps, 0) == origin
    ensures BezierPoint(origin, destination, steps, steps) == destination
  {
    assert Parameter(steps, 0) == 0.0;
    assert Parameter(steps, steps) == 1.0;
  }

  /** With the control point above the midpoint, longitude moves along the straight
      line from origin to destination. */
  lemma BezierLongitudeIsLinear(origin: Coord, destination: Coord, steps: nat, i: nat)
    requires steps >= 1
    ensures var t := Parameter(steps, i);
      BezierPoint(origin, destination, steps, i).lon == origin.lon + t * (destination.lon - origin.lon)
  {
    var t := Parameter(steps, i);
    var m := (origin.lon + destination.lon) / 2.0;
    calc {
      Quadratic(origin.lon, m, destination.lon, t);
      (1.0 - t) * (1.0 - t) * origin.lon + (1.0 - t) * t * (origin.lon + destination.lon) + t * t * destination.lon;
      origin.lon + t * (destination.lon - origin.lon);
    }
  }

  /** The curve with its control value raised by `h` above the midpoint of
      `a` and `c`: the chord plus a bump of 2(1 - t)t h. */
  lemma QuadraticAboveMidpoint(a: real, c: real, h: real, t: real)
    ensures Quadratic(a, (a + c) / 2.0 + h, c, t) == a + t * (c - a) + 2.0 * (1.0 - t) * t * h
  {
  }

  lemma BumpNonNegative(t: real, h: real)
    requires 0.0 <= t <= 1.0 && h >= 0.0
    ensures 2.0 * (1.0 - t) * t * h >= 0.0
  {
    NonNegativeProduct(1.0 - t, t);
    NonNegativeProduct((1.0 - t) * t, h);
  }

  lemma NonNegativeProduct(x: real, y: real)
    requires x >= 0.0 && y >= 0.0
    ensures x * y >= 0.0
  {
  }

  /** Latitude is never below the straight line between the endpoints: the
      control point is raised by a non-negative arc offset. */
  lemma BezierLatitudeAboveChord(origin: Coord, destination: Coord, steps: nat, i: nat)
    requires steps >= 1 && i <= steps
    ensures var t := Parameter(steps, i);
      BezierPoint(origin, destination, steps, i).lat >= origin.lat + t * (destination.lat - origin.lat)
  {
    var t := Parameter(steps, i);
    var h := ArcOffset(origin, destination);
    assert 0.0 <= t <= 1.0 by {
      assert i as real <= steps as real;
    }
    QuadraticAboveMidpoint(origin.lat, destination.lat, h, t);
    BumpNonNegative(t, h);
  }

  /** A route from a point to itself collapses onto that point. */
  lemma BezierDegenerate(origin: Coord, steps: nat, i: nat)
    requires steps >= 1
    ensures BezierPoint(origin, origin, steps, i) == origin
  {
    var t := Parameter(steps, i);
    assert ArcOffset(origin, origin) == 0.0;
    assert Control(origin, origin) == origin;
    assert Quadratic(origin.lon, origin.lon, origin.lon, t) == origin.lon;
    assert Quadratic(origin.lat, origin.lat, origin.lat, t) == origin.lat;
  }

  // ---------------------------------------------------------------------------
  // buildRouteMetrics
  // ---------------------------------------------------------------------------

  /** `distances` is the running sum of the segment distances of `coords`, from 0. */
  ghost predicate IsDistanceTable(e: Earth, coords: seq<Coord>, distances: seq<real>) {
    && |distances| == |coords| >= 1
    && distances[0] == 0.0
    && forall i :: 1 <= i < |distances| ==>
         distances[i] == distances[i - 1] + e.distance(coords[i - 1], coords[i])
  }

  ghost predicate Monotone(d: seq<real>) {
    forall i, j :: 0 <= i <= j < |d| ==> d[i] <= d[j]
  }

  ghost predicate StrictlyIncreasing(d: seq<real>) {
    forall i, j :: 0 <= i < j < |d| ==> d[i] < d[j]
  }

  /** What interpolation needs of a table: non-empty, from 0, non-decreasing. */
  ghost predicate WellFormedTable(d: seq<real>) {
    |d| >= 1 && d[0] == 0.0 && Monotone(d)
  }

  /** buildRouteMetrics: the table starts as [0] and gains one entry per segment,
      so an empty route still yields [0] and total 0. */
  method BuildRouteMetrics(e: Earth, coords: seq<Coord>) returns (distances: seq<real>, total: real)
    ensures |coords| >= 1 ==> IsDistanceTable(e, coords, distances)
    ensures |coords| == 0 ==> distances == [0.0]
    ensures total == distances[|distances| - 1]
  {
    distances := [0.0];
    var i := 1;
    while i < |coords|
      invariant 1 <= i <= if |coords| == 0 then 1 else |coords|
      invariant |distances| == i
      invariant distances[0] == 0.0
      invariant forall k :: 1 <= k < i ==> distances[k] == distances[k - 1] + e.distance(coords[k - 1], coords[k])
    {
      distances := distances + [distances[i - 1] + e.distance(coords[i - 1], coords[i])];
      i := i + 1;
    }
    total := distances[|distances| - 1];
  }

  /** With non-negative segment distances the table is non-decreasing. */
  lemma {:induction false} DistanceTableWellFormed(e: Earth, coords: seq<Coord>, distances: seq<real>)
    requires Sound(e) && IsDistanceTable(e, coords, distances)
    ensures WellFormedTable(distances)
    ensures forall i :: 0 <= i < |distances| ==> distances[i] >= 0.0
  {
    forall i, j | 0 <= i <= j < |distances|
      ensures distances[i] <= distances[j]
    {
      TableStepsUp(e, coords, distances, i, j);
    }
  }

  lemma {:induction false} TableStepsUp(e: Earth, coords: seq<Coord>, distances: seq<real>, i: nat, j: nat)
    requires Sound(e) && IsDistanceTable(e, coords, distances)
    requires i <= j < |distances|
    ensures distances[i] <= distances[j]
  {
    if i < j {
      TableStepsUp(e, coords, distances, i, j - 1);
      assert e.distance(coords[j - 1], coords[j]) >= 0.0;
    }
  }

  /** A route whose consecutive points differ has a strictly increasing table
      when, along the route, only equal points are at distance zero. */
  lemma {:induction false} DistinctPointsIncrease(e: Earth, coords: seq<Coord>, distances: seq<real>)
    requires Sound(e) && SeparatesOn(e, coords) && IsDistanceTable(e, coords, distances)
    requires forall i :: 1 <= i < |coords| ==> coords[i - 1] != coords[i]
    ensures StrictlyIncreasing(distances)
  {
    forall i, j | 0 <= i < j < |distances|
      ensures distances[i] < distances[j]
    {
      TableStepsUp(e, coords, distances, i, j - 1);
      assert e.distance(coords[j - 1], coords[j]) != 0.0;
    }
  }

  // ---------------------------------------------------------------------------
  // bearingBetween
  // ---------------------------------------------------------------------------

  /** JavaScript `x % 360`: the remainder truncated toward zero. */
  function Remainder360(x: real): (r: real)
    ensures x >= 0.0 ==> 0.0 <= r < 360.0
    ensures x < 0.0 ==> -360.0 < r <= 0.0
    ensures 0.0 <= x < 360.0 ==> r == x
    ensures 360.0 <= x < 720.0 ==> r == x - 360.0
  {
    if x >= 0.0 then x - 360.0 * (x / 360.0).Floor as real
    else -((-x) - 360.0 * ((-x) / 360.0).Floor as real)
  }

  /** bearingBetween: the azimuth in degrees shifted by 360 and reduced modulo 360. */
  function Bearing(e: Earth, a: Coord, b: Coord): (r: real)
    ensures Sound(e) ==> 0.0 <= r < 360.0
    ensures Sound(e) && e.azimuthDegrees(a, b) >= 0.0 ==> r == e.azimuthDegrees(a, b)
    ensures Sound(e) && e.azimuthDegrees(a, b) < 0.0 ==> r == e.azimuthDegrees(a, b) + 360.0
  {
    Remainder360(e.azimuthDegrees(a, b) + 360.0)
  }

  /** Every bearing is a compass heading in [0, 360). */
  lemma BearingInRange(e: Earth, a: Coord, b: Coord)
    requires Sound(e)
    ensures 0.0 <= Bearing(e, a, b) < 360.0
  {
    var x := e.azimuthDegrees(a, b) + 360.0;
    assert 180.0 <= x <= 540.0;
    var q := (x / 360.0).Floor;
    assert q == 0 || q == 1;
  }

  // ---------------------------------------------------------------------------
  // interpolateRoute
  // ---------------------------------------------------------------------------

  /** `Math.min(Math.max(progress, 0), 1)`. */
  function Clamp01(progress: real): (r: real)
    ensures 0.0 <= r <= 1.0
    ensures 0.0 <= progress <= 1.0 ==> r == progress
  {
    Min(Max(progress, 0.0), 1.0)
  }

  /** `distances.findIndex(value => value >= target)`, searching from `from`. */
  function FindFrom(d: seq<real>, target: real, from: nat): (r: int)
    requires from <= |d|
    ensures r == -1 || from <= r < |d|
    ensures r == -1 <==> forall i :: from <= i < |d| ==> d[i] < target
    ensures r != -1 ==> target <= d[r] && forall i :: from <= i < r ==> d[i] < target
    decreases |d| - from
  {
    if from == |d| then -1
    else if d[from] >= target then from
    else FindFrom(d, target, from + 1)
  }

  /** The first index whose cumulative distance is at least `target`, or -1. */
  function FindFirstAtLeast(d: seq<real>, target: real): (r: int)
    ensures -1 <= r < |d|
    ensures r == -1 <==> forall i :: 0 <= i < |d| ==> d[i] < target
    ensures r != -1 ==> target <= d[r] && forall i :: 0 <= i < r ==> d[i] < target
  {
    FindFrom(d, target, 0)
  }

  /** The distance along the route that `progress` asks for. */
  function Target(d: seq<real>, progress: real): real
    requires |d| >= 1
  {
    d[|d| - 1] * Clamp01(progress)
  }

  /** The index found by the search, with the "-1 means last" fallback. */
  function FoundIndex(d: seq<real>, progress: real): (r: nat)
    requires |d| >= 1
    ensures r < |d|
  {
    var found := FindFirstAtLeast(d, Target(d, progress));
    if found == -1 then |d| - 1 else found
  }

  /** The length of segment `index - 1 .. index`, a zero length counting as 1 (`|| 1`). */
  function SegmentLength(d: seq<real>, index: nat): real
    requires 1 <= index < |d|
  {
    var length := d[index] - d[index - 1];
    if length == 0.0 then 1.0 else length
  }

  /** How far along segment `index - 1 .. index` the target lies. */
  function SegmentProgress(d: seq<real>, progress: real): real
    requires |d| >= 1 && FoundIndex(d, progress) >= 1
  {
    var index := FoundIndex(d, progress);
    (Target(d, progress) - d[index - 1]) / SegmentLength(d, index)
  }

  /** The point a fraction `s` of the way from `start` to `end`. */
  function Lerp(start: Coord, end: Coord, s: real): Coord {
    Coord(start.lon + (end.lon - start.lon) * s, start.lat + (end.lat - start.lat) * s)
  }

  /** The result of interpolateRoute. */
  datatype Pose = Pose(position: Coord, heading: real, segmentIndex: int)

  /** interpolateRoute. It reads `coords[index]` for the index found in
      `distances`, so `coords` must be at least as long as `distances`. */
  function Interpolate(e: Earth, coords: seq<Coord>, distances: seq<real>, progress: real): (r: Pose)
    requires 1 <= |distances| <= |coords|
    ensures 0 <= r.segmentIndex < |distances|
    ensures |distances| >= 2 ==> r.segmentIndex <= |distances| - 2
    ensures Sound(e) ==> 0.0 <= r.heading < 360.0
  {
    var index := FoundIndex(distances, progress);
    if index == 0 then
      Pose(coords[0], Bearing(e, coords[0], if |coords| > 1 then coords[1] else coords[0]), 0)
    else
      var start := coords[index - 1];
      var end := coords[index];
      Pose(Lerp(start, end, SegmentProgress(distances, progress)), Bearing(e, start, end), index - 1)
  }

  /** On a well-formed table the target is at most the total, so the search
      always succeeds and the `-1` fallback is never taken. */
  lemma FallbackUnreachable(d: seq<real>, progress: real)
    requires WellFormedTable(d)
    ensures FindFirstAtLeast(d, Target(d, progress)) != -1
  {
    var total := d[|d| - 1];
    var c := Clamp01(progress);
    assert total >= 0.0 by { assert d[0] <= total; }
    assert total * c <= total * 1.0;
    assert d[|d| - 1] >= Target(d, progress);
  }

  lemma FractionInUnitInterval(num: real, len: real)
    requires 0.0 < num <= len
    ensures 0.0 < num / len <= 1.0
  {
    assert num / len * len == num;
  }

  /** Past index 0 the found segment has positive length, so the `|| 1` guard is
      never taken, and the target lies in (0, 1] of the way along it. */
  lemma SegmentProgressInRange(d: seq<real>, progress: real)
    requires WellFormedTable(d) && FoundIndex(d, progress) >= 1
    ensures var index := FoundIndex(d, progress);
      d[index] - d[index - 1] > 0.0 && SegmentLength(d, index) == d[index] - d[index - 1]
    ensures 0.0 < SegmentProgress(d, progress) <= 1.0
  {
    FallbackUnreachable(d, progress);
    var index := FoundIndex(d, progress);
    var target := Target(d, progress);
    var found := FindFirstAtLeast(d, target);
    assert found == index;
    assert d[index - 1] < target <= d[index];
    FractionInUnitInterval(target - d[index - 1], d[index] - d[index - 1]);
  }

  /** Progress at or below 0 finds index 0. */
  lemma StartFindsIndexZero(d: seq<real>, progress: real)
    requires WellFormedTable(d) && progress <= 0.0
    ensures FoundIndex(d, progress) == 0
  {
    assert Clamp01(progress) == 0.0;
    assert Target(d, progress) == 0.0;
    assert FindFirstAtLeast(d, 0.0) != -1 by { assert d[0] >= 0.0; }
  }

  /** When the search lands on index 0 the plane sits on the origin, in segment 0,
      heading for the second point (or the origin itself on a one-point route). */
  lemma InterpolateAtOrigin(e: Earth, coords: seq<Coord>, distances: seq<real>, progress: real)
    requires 1 <= |distances| <= |coords|
    requires FoundIndex(distances, progress) == 0
    ensures var pose := Interpolate(e, coords, distances, progress);
      && pose.position == coords[0]
      && pose.segmentIndex == 0
      && pose.heading == Bearing(e, coords[0], if |coords| >= 2 then coords[1] else coords[0])
  {
  }

  /** Progress at or below 0 puts the plane on the origin. */
  lemma InterpolateBeforeStart(e: Earth, coords: seq<Coord>, distances: seq<real>, progress: real)
    requires WellFormedTable(distances) && |distances| <= |coords| && progress <= 0.0
    ensures Interpolate(e, coords, distances, progress).position == coords[0]
    ensures Interpolate(e, coords, distances, progress).segmentIndex == 0
  {
    StartFindsIndexZero(distances, progress);
  }

  /** Past index 0 the plane lies on segment `segmentIndex .. segmentIndex + 1`,
      which is a real segment of the route, and heads along it. */
  lemma InterpolateOnSegment(e: Earth, coords: seq<Coord>, distances: seq<real>, progress: real)
    requires WellFormedTable(distances) && |distances| == |coords|
    requires FoundIndex(distances, progress) >= 1
    ensures var pose := Interpolate(e, coords, distances, progress);
      && 0 <= pose.segmentIndex <= |coords| - 2
      && pose.segmentIndex + 1 == FoundIndex(distances, progress)
      && 0.0 < SegmentProgress(distances, progress) <= 1.0
      && pose.position == Lerp(coords[pose.segmentIndex], coords[pose.segmentIndex + 1],
                               SegmentProgress(distances, progress))
      && pose.heading == Bearing(e, coords[pose.segmentIndex], coords[pose.segmentIndex + 1])
  {
    SegmentProgressInRange(distances, progress);
  }

  /** The heading handed to the map is always a compass heading. */
  lemma InterpolateHeadingInRange(e: Earth, coords: seq<Coord>, distances: seq<real>, progress: real)
    requires Sound(e) && 1 <= |distances| <= |coords|
    ensures 0.0 <= Interpolate(e, coords, distances, progress).heading < 360.0
  {
    var index := FoundIndex(distances, progress);
    if index == 0 {
      BearingInRange(e, coords[0], if |coords| > 1 then coords[1] else coords[0]);
    } else {
      BearingInRange(e, coords[index - 1], coords[index]);
    }
  }

  lemma SelfQuotient(x: real)
    requires x != 0.0
    ensures x / x == 1.0
  {
  }

  /** At progress 1 (or beyond) the plane sits exactly on the point the search
      found: the first one whose cumulative distance reaches the total. */
  lemma InterpolateAtEnd(e: Earth, coords: seq<Coord>, distances: seq<real>, progress: real)
    requires WellFormedTable(distances) && |distances| == |coords| && progress >= 1.0
    ensures var index := FoundIndex(distances, progress);
      distances[index] == distances[|distances| - 1] &&
      Interpolate(e, coords, distances, progress).position == coords[index]
  {
    var index := FoundIndex(distances, progress);
    var total := distances[|distances| - 1];
    FallbackUnreachable(distances, progress);
    assert Target(distances, progress) == total;
    assert distances[index] == total;
    if index >= 1 {
      SegmentProgressInRange(distances, progress);
      var len := distances[index] - distances[index - 1];
      assert SegmentLength(distances, index) == len;
      assert Target(distances, progress) - distances[index - 1] == len;
      SelfQuotient(len);
      assert SegmentProgress(distances, progress) == 1.0;
    }
  }

  /** Every point from one whose cumulative distance is already the total on is
      the same point: the remaining segments have length 0, and only equal points
      along the route are at distance 0. */
  lemma {:induction false} TailEqual(e: Earth, coords: seq<Coord>, distances: seq<real>, k: nat)
    requires Sound(e) && SeparatesOn(e, coords) && IsDistanceTable(e, coords, distances)
    requires k < |distances| && distances[k] == distances[|distances| - 1]
    ensures coords[k] == coords[|coords| - 1]
    decreases |distances| - k
  {
    if k < |distances| - 1 {
      TableStepsUp(e, coords, distances, k, k + 1);
      TableStepsUp(e, coords, distances, k + 1, |distances| - 1);
      assert e.distance(coords[k], coords[k + 1]) == 0.0;
      TailEqual(e, coords, distances, k + 1);
    }
  }

  /** On a route with its distance table, progress 1 (or beyond) lands on the
      route's last point, also when the route ends in repeated points. */
  lemma InterpolateAtEndLast(e: Earth, coords: seq<Coord>, distances: seq<real>, progress: real)
    requires Sound(e) && SeparatesOn(e, coords) && IsDistanceTable(e, coords, distances)
    requires progress >= 1.0
    ensures Interpolate(e, coords, distances, progress).position == coords[|coords| - 1]
  {
    DistanceTableWellFormed(e, coords, distances);
    InterpolateAtEnd(e, coords, distances, progress);
    TailEqual(e, coords, distances, FoundIndex(distances, progress));
  }

  /** Only the clamped progress matters: any progress below 0 acts as 0 and any
      above 1 as 1. */
  lemma InterpolateUsesClampedProgress(e: Earth, coords: seq<Coord>, distances: seq<real>, progress: real)
    requires 1 <= |distances| <= |coords|
    ensures Interpolate(e, coords, distances, progress) == Interpolate(e, coords, distances, Clamp01(progress))
  {
    assert Clamp01(Clamp01(progress)) == Clamp01(progress);
    assert Target(distances, progress) == Target(distances, Clamp01(progress));
    assert FoundIndex(distances, progress) == FoundIndex(distances, Clamp01(progress));
  }

  // ---------------------------------------------------------------------------
  // splitRouteAt
  // ---------------------------------------------------------------------------

  /** How `Array.prototype.slice` reads an index into a sequence of length `len`:
      negative counts from the end, and the result is clamped to [0, len]. */
  function SliceIndex(len: nat, k: int): (r: nat)
    ensures r <= len
    ensures 0 <= k <= len ==> r == k
  {
    if k < 0 then (if len + k < 0 then 0 else len + k)
    else if k > len then len
    else k
  }

  datatype Split = Split(completed: seq<Coord>, remaining: seq<Coord>)

  /** splitRouteAt: both halves are fresh arrays, so the route is not changed. */
  function SplitRouteAt(coords: seq<Coord>, segmentIndex: int, position: Coord): (r: Split)
    ensures |r.completed| >= 1 && |r.remaining| >= 1
    ensures r.completed[|r.completed| - 1] == position && r.remaining[0] == position
  {
    var k := SliceIndex(|coords|, segmentIndex + 1);
    Split(coords[..k] + [position], [position] + coords[k..])
  }

  /** For a segment index of the route, the flown part is the route up to and
      including that point, then the position; the rest starts at the position. */
  lemma SplitShape(coords: seq<Coord>, segmentIndex: int, position: Coord)
    requires 0 <= segmentIndex < |coords|
    ensures SplitRouteAt(coords, segmentIndex, position).completed == coords[..segmentIndex + 1] + [position]
    ensures SplitRouteAt(coords, segmentIndex, position).remaining == [position] + coords[segmentIndex + 1..]
  {
  }

  /** Dropping the seam point from each half and joining them gives the route back,
      whatever the segment index. */
  lemma SplitReassembles(coords: seq<Coord>, segmentIndex: int, position: Coord)
    ensures var r := SplitRouteAt(coords, segmentIndex, position);
      r.completed[..|r.completed| - 1] + r.remaining[1..] == coords
  {
    var k := SliceIndex(|coords|, segmentIndex + 1);
    var r := SplitRouteAt(coords, segmentIndex, position);
    assert r.completed[..|r.completed| - 1] == coords[..k];
    assert r.remaining[1..] == coords[k..];
    assert coords[..k] + coords[k..] == coords;
  }
}
