/** PathCreatorWindow: the editor tool that collects clicked points and saves them as a PathConfig's
    segments. Preview geometry, dialogs and asset saving are left out. */
module PathEditor {
  import opened Common
  import opened Paths

  /** The scene-view events the tool reacts to; `hit` is the raycast result under the mouse. */
  datatype SceneEvent =
    | MouseDown(button: int, hit: Option<Vec3>)
    | EscapeKey
    | OtherEvent

  class PathCreatorWindow {
    var pathPoints: seq<Vec3>
    var currentPathConfig: PathConfig?
    var isCreatingPath: bool
    /** Whether OnSceneGUI is registered with the scene view. */
    var listening: bool

    constructor (config: PathConfig?)
      ensures pathPoints == [] && currentPathConfig == config && !isCreatingPath && !listening
    {
      pathPoints := [];
      currentPathConfig := config;
      isCreatingPath := false;
      listening := false;
    }

    /** Enters creation mode with an empty point list. */
    method StartPathCreation()
      modifies this
      ensures isCreatingPath && pathPoints == [] && listening
      ensures currentPathConfig == old(currentPathConfig)
    {
      isCreatingPath := true;
      pathPoints := [];
      listening := true;
    }

    /** Appends exactly one point at the end. */
    method AddPathPoint(point: Vec3)
      modifies this
      ensures pathPoints == old(pathPoints) + [point]
      ensures isCreatingPath == old(isCreatingPath) && listening == old(listening)
      ensures currentPathConfig == old(currentPathConfig)
    {
      pathPoints := pathPoints + [point];
    }

    /** Drops the last point; an empty list stays empty. */
    method RemoveLastPoint()
      modifies this
      ensures old(pathPoints) == [] ==> pathPoints == []
      ensures old(pathPoints) != [] ==> pathPoints == old(pathPoints)[..|old(pathPoints)| - 1]
      ensures isCreatingPath == old(isCreatingPath) && listening == old(listening)
      ensures currentPathConfig == old(currentPathConfig)
    {
      if |pathPoints| > 0 {
        pathPoints := pathPoints[..|pathPoints| - 1];
      }
    }

    /** Leaves creation mode and forgets the points. */
    method CancelPathCreation()
      modifies this
      ensures !isCreatingPath && pathPoints == [] && !listening
      ensures currentPathConfig == old(currentPathConfig)
    {
      isCreatingPath := false;
      pathPoints := [];
      listening := false;
    }

    /** OnSceneGUI's input handling: a left click on a hit adds the point, a right click on a hit removes the
        last point when there is one, Escape cancels. */
    method OnSceneEvent(e: SceneEvent)
      modifies this
      ensures currentPathConfig == old(currentPathConfig)
      ensures e.MouseDown? && e.hit.Some? && e.button == 0 ==>
        pathPoints == old(pathPoints) + [e.hit.value] && isCreatingPath == old(isCreatingPath) &&
        listening == old(listening)
      ensures e.MouseDown? && e.hit.Some? && e.button == 1 && old(pathPoints) != [] ==>
        pathPoints == old(pathPoints)[..|old(pathPoints)| - 1] && isCreatingPath == old(isCreatingPath) &&
        listening == old(listening)
      ensures e.EscapeKey? ==> !isCreatingPath && pathPoints == [] && !listening
      ensures e.OtherEvent? || (e.MouseDown? && (e.hit.None? || (e.button != 0 && (e.button != 1 || old(pathPoints) == [])))) ==>
        pathPoints == old(pathPoints) && isCreatingPath == old(isCreatingPath) && listening == old(listening)
    {
      match e {
        case MouseDown(button, hit) =>
          if hit.Some? {
            if button == 0 {
              AddPathPoint(hit.value);
            } else if button == 1 && |pathPoints| > 0 {
              RemoveLastPoint();
            }
          }
        case EscapeKey =>
          CancelPathCreation();
        case OtherEvent =>
      }
    }

    /** With fewer than two points nothing changes (the source shows a dialog). Otherwise the config's
        segments become a new array with one segment per consecutive pair of points, and creation ends. */
    method FinishPath()
      requires currentPathConfig != null
      modifies this, currentPathConfig
      ensures currentPathConfig == old(currentPathConfig)
      ensures |old(pathPoints)| < 2 ==>
        pathPoints == old(pathPoints) && isCreatingPath == old(isCreatingPath) && listening == old(listening) &&
        currentPathConfig.segments == old(currentPathConfig.segments)
      ensures |old(pathPoints)| >= 2 ==>
        currentPathConfig.segments != null && fresh(currentPathConfig.segments) &&
        currentPathConfig.segments[..] == SegmentsOf(old(pathPoints)) &&
        pathPoints == [] && !isCreatingPath && !listening
      ensures currentPathConfig.pathName == old(currentPathConfig.pathName)
      ensures currentPathConfig.pathWidth == old(currentPathConfig.pathWidth)
      ensures currentPathConfig.description == old(currentPathConfig.description)
    {
      if |pathPoints| < 2 {
        return;
      }
      var config := currentPathConfig;
      var segs := new PathSegment[|pathPoints| - 1];
      config.segments := segs;
      var i := 0;
      while i < |pathPoints| - 1
        invariant pathPoints == old(pathPoints) && currentPathConfig == config
        invariant segs.Length == |pathPoints| - 1
        invariant 0 <= i <= |pathPoints| - 1
        invariant config.segments == segs
        invariant forall k :: 0 <= k < i ==> segs[k] == PathSegment(pathPoints[k], pathPoints[k + 1])
        invariant config.pathName == old(config.pathName) && config.pathWidth == old(config.pathWidth)
        invariant config.description == old(config.description)
      {
        segs[i] := PathSegment(pathPoints[i], pathPoints[i + 1]);
        i := i + 1;
      }
      assert segs[..] == SegmentsOf(pathPoints);
      CancelPathCreation();
    }
  }

  /** Saving a path and reading it back gives the clicked points: FinishPath followed by
      PathConfig.GetPathPoints returns exactly the points that were on the list. */
  method SaveAndReload(window: PathCreatorWindow) returns (points: seq<Vec3>)
    requires window.currentPathConfig != null && |window.pathPoints| >= 2
    modifies window, window.currentPathConfig
    ensures points == old(window.pathPoints)
  {
    var clicked := window.pathPoints;
    window.FinishPath();
    points := window.currentPathConfig.GetPathPoints();
    PointsOfSegmentsOf(clicked);
  }
}
