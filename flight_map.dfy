/**
  The map view (app/components/FlightMap.tsx): the route is built once, and on
  each progress update the plane's pose is interpolated, the route is split at
  it, and the two line sources, the marker and the camera receive the results.
  What the map library does with those values is not modelled; the class keeps
  the last values handed to it.
*/
module FlightMap {
  import opened Flight

  /** The fixed route of the view: TPE to HND in 180 steps. */
  const RouteOrigin: Coord := Coord(121.233, 25.08)
  const RouteDestination: Coord := Coord(139.78, 35.55)
  const RouteSteps: nat := 180

  /** The camera's bearing when the map is created. */
  const InitialCameraBearing: real := 20.0

  /** The coordinates of buildLineString's feature: a lone point is doubled so
      the line has two ends. */
  function BuildLineString(coords: seq<Coord>): (r: seq<Coord>)
    requires |coords| >= 1
    ensures |r| >= 2
    ensures |coords| > 1 ==> r == coords
    ensures |coords| == 1 ==> r == [coords[0], coords[0]]
    ensures r[0] == coords[0] && r[|r| - 1] == coords[|coords| - 1]
    ensures forall p :: p in r <==> p in coords
  {
    if |coords| > 1 then coords else [coords[0], coords[0]]
  }

  /** Everything one progress update hands to the map. */
  datatype Frame = Frame(
    completeLine: seq<Coord>,
    remainingLine: seq<Coord>,
    markerPosition: Coord,
    markerRotation: real,
    cameraCenter: Coord,
    cameraBearing: real,
    cameraZoom: real)

  /** The pipeline of the update effect: interpolate, split, build both lines. */
  function UpdateFrame(e: Earth, path: seq<Coord>, distances: seq<real>, progress: real, zoom: real): (f: Frame)
    requires 1 <= |distances| <= |path|
    ensures |f.completeLine| >= 2 && |f.remainingLine| >= 2
    ensures f.completeLine[|f.completeLine| - 1] == f.markerPosition == f.remainingLine[0]
    ensures f.cameraCenter == f.markerPosition && f.cameraBearing == f.markerRotation
    ensures f.cameraZoom == zoom
    ensures Sound(e) ==> 0.0 <= f.markerRotation < 360.0
  {
    var pose := Interpolate(e, path, distances, progress);
    var split := SplitRouteAt(path, pose.segmentIndex, pose.position);
    Frame(BuildLineString(split.completed), BuildLineString(split.remaining),
          pose.position, pose.heading, pose.position, pose.heading, zoom)
  }

  /** The flown line ends, and the unflown line starts, where the plane is; the
      camera follows the plane and turns with it. */
  lemma FrameAgrees(e: Earth, path: seq<Coord>, distances: seq<real>, progress: real, zoom: real)
    requires 1 <= |distances| <= |path|
    ensures var f := UpdateFrame(e, path, distances, progress, zoom);
      var pose := Interpolate(e, path, distances, progress);
      && |f.completeLine| >= 2 && |f.remainingLine| >= 2
      && f.completeLine[|f.completeLine| - 1] == pose.position
      && f.remainingLine[0] == pose.position
      && f.markerPosition == pose.position && f.cameraCenter == pose.position
      && f.markerRotation == pose.heading && f.cameraBearing == pose.heading
      && f.cameraZoom == zoom
  {
  }

  /** On a well-formed route the two lines cover the route: the flown line is
      the route up to the plane's segment, the rest is the unflown line, and the
      marker heading is a compass heading. */
  lemma FrameCoversRoute(e: Earth, path: seq<Coord>, distances: seq<real>, progress: real, zoom: real)
    requires Sound(e) && WellFormedTable(distances) && |distances| == |path| >= 2
    ensures var f := UpdateFrame(e, path, distances, progress, zoom);
      var k := Interpolate(e, path, distances, progress).segmentIndex;
      && 0 <= k <= |path| - 2
      && f.completeLine == path[..k + 1] + [f.markerPosition]
      && f.remainingLine == [f.markerPosition] + path[k + 1..]
      && f.completeLine[..|f.completeLine| - 1] + f.remainingLine[1..] == path
      && 0.0 <= f.markerRotation < 360.0
  {
    var pose := Interpolate(e, path, distances, progress);
    if FoundIndex(distances, progress) >= 1 {
      InterpolateOnSegment(e, path, distances, progress);
    }
    SplitShape(path, pose.segmentIndex, pose.position);
    SplitReassembles(path, pose.segmentIndex, pose.position);
    InterpolateHeadingInRange(e, path, distances, progress);
  }

  /** What the map shows after an update on a route: each line has two ends,
      the flown line ends and the unflown line starts at the plane, the two
      together retrace the route, and the camera follows the plane and turns
      with it to a compass heading. */
  ghost predicate FrameFits(f: Frame, path: seq<Coord>) {
    && |f.completeLine| >= 2 && |f.remainingLine| >= 2
    && f.completeLine[|f.completeLine| - 1] == f.markerPosition
    && f.remainingLine[0] == f.markerPosition
    && f.completeLine[..|f.completeLine| - 1] + f.remainingLine[1..] == path
    && f.cameraCenter == f.markerPosition && f.cameraBearing == f.markerRotation
    && 0.0 <= f.markerRotation < 360.0
  }

  /** Every update on a memoised route fits the route. */
  lemma UpdateFitsRoute(e: Earth, path: seq<Coord>, distances: seq<real>, progress: real, zoom: real)
    requires Sound(e) && IsDistanceTable(e, path, distances) && |path| >= 2
    ensures FrameFits(UpdateFrame(e, path, distances, progress, zoom), path)
    ensures UpdateFrame(e, path, distances, progress, zoom).cameraZoom == zoom
  {
    DistanceTableWellFormed(e, path, distances);
    FrameCoversRoute(e, path, distances, progress, zoom);
    FrameAgrees(e, path, distances, progress, zoom);
  }

  /** The memoised route: the Bezier arc from the origin to the destination. */
  ghost predicate FollowsArc(path: seq<Coord>) {
    && |path| == RouteSteps + 1
    && forall i :: 0 <= i <= RouteSteps ==> path[i] == BezierPoint(RouteOrigin, RouteDestination, RouteSteps, i)
  }

  /** The arc starts at the origin and ends at the destination. */
  lemma ArcEndpoints(path: seq<Coord>)
    requires FollowsArc(path)
    ensures path[0] == RouteOrigin && path[RouteSteps] == RouteDestination
  {
    BezierEndpoints(RouteOrigin, RouteDestination, RouteSteps);
  }

  /** The two memos of the component: `routeCoordinates` and `routeMetrics`. */
  method BuildRoute(e: Earth) returns (path: seq<Coord>, distances: seq<real>)
    ensures FollowsArc(path) && IsDistanceTable(e, path, distances)
  {
    path := BuildBezierRoute(RouteOrigin, RouteDestination, RouteSteps);
    var total;
    distances, total := BuildRouteMetrics(e, path);
  }

  /** The view's state: the memoised route, whether the map has loaded, and the
      last values given to the two line sources, the plane marker and the camera. */
  class MapDisplay {
    const earth: Earth
    const path: seq<Coord>
    const distances: seq<real>
    var loaded: bool
    var completeLine: seq<Coord>
    var remainingLine: seq<Coord>
    var markerPosition: Coord
    var markerRotation: real
    var cameraCenter: Coord
    var cameraBearing: real
    var cameraZoom: real

    ghost predicate Valid()
      reads this
    {
      && Sound(earth)
      && |path| == RouteSteps + 1
      && IsDistanceTable(earth, path, distances)
      && (loaded ==> |completeLine| >= 2 && |remainingLine| >= 2)
    }

    /** The route memo and the map's creation, centred on the origin. */
    constructor (e: Earth, zoom: real)
      requires Sound(e)
      ensures Valid() && earth == e && !loaded
      ensures FollowsArc(path)
      ensures cameraCenter == RouteOrigin && cameraBearing == InitialCameraBearing && cameraZoom == zoom
    {
      var route, table := BuildRoute(e);
      earth := e;
      path := route;
      distances := table;
      loaded := false;
      completeLine := [];
      remainingLine := [];
      markerPosition := RouteOrigin;
      markerRotation := 0.0;
      cameraCenter := RouteOrigin;
      cameraBearing := InitialCameraBearing;
      cameraZoom := zoom;
    }

    /** The map's load handler: the flown line starts as the origin twice, the
        unflown line is the whole route, and the plane sits on the origin. */
    method OnLoad()
      requires Valid()
      modifies this
      ensures Valid() && loaded
      ensures completeLine == [RouteOrigin, RouteOrigin]
      ensures remainingLine == path
      ensures markerPosition == RouteOrigin
      ensures markerRotation == old(markerRotation)
      ensures cameraCenter == old(cameraCenter) && cameraBearing == old(cameraBearing) && cameraZoom == old(cameraZoom)
    {
      completeLine := BuildLineString([RouteOrigin, RouteOrigin]);
      remainingLine := BuildLineString(path);
      markerPosition := RouteOrigin;
      loaded := true;
    }

    /** The values last handed to the map, as a frame. */
    ghost function Shown(): Frame
      reads this
    {
      Frame(completeLine, remainingLine, markerPosition, markerRotation,
            cameraCenter, cameraBearing, cameraZoom)
    }

    /** Hands a frame to the two line sources, the marker and the camera. */
    method Show(f: Frame)
      requires Valid() && loaded && |f.completeLine| >= 2 && |f.remainingLine| >= 2
      modifies this
      ensures Valid() && loaded && Shown() == f
    {
      completeLine := f.completeLine;
      remainingLine := f.remainingLine;
      markerPosition := f.markerPosition;
      markerRotation := f.markerRotation;
      cameraCenter := f.cameraCenter;
      cameraBearing := f.cameraBearing;
      cameraZoom := f.cameraZoom;
    }

    /** The update effect for a new progress or zoom. Before the map has loaded
        it does nothing; afterwards it shows the frame of the update, which fits
        the route. */
    method Update(progress: real, zoom: real)
      requires Valid()
      modifies this
      ensures Valid() && loaded == old(loaded)
      ensures !old(loaded) ==> unchanged(this)
      ensures old(loaded) ==> Shown() == UpdateFrame(earth, path, distances, progress, zoom)
      ensures old(loaded) ==> FrameFits(Shown(), path) && cameraZoom == zoom
    {
      if !loaded {
        return;
      }
      var f := UpdateFrame(earth, path, distances, progress, zoom);
      UpdateFitsRoute(earth, path, distances, progress, zoom);
      Show(f);
    }
  }
}
