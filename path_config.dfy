/** PathConfig (the authored path as segments) and the conversions between segments and points. */
module Paths {
  import opened Common

  datatype PathSegment = PathSegment(startPoint: Vec3, endPoint: Vec3)

  /** The points GetPathPoints produces from a segment list: each segment's start point in order,
      then the last segment's end point; nothing for an empty list. */
  function PointsOf(segs: seq<PathSegment>): (r: seq<Vec3>)
    ensures |segs| == 0 ==> r == []
    ensures |segs| > 0 ==> |r| == |segs| + 1 && r[|segs|] == segs[|segs| - 1].endPoint
    ensures forall i :: 0 <= i < |segs| ==> r[i] == segs[i].startPoint
  {
    if |segs| == 0 then []
    else seq(|segs|, i requires 0 <= i < |segs| => segs[i].startPoint) + [segs[|segs| - 1].endPoint]
  }

  /** The segments FinishPath builds from a point list: one per consecutive pair of points. */
  function SegmentsOf(points: seq<Vec3>): (r: seq<PathSegment>)
    requires |points| >= 1
    ensures |r| == |points| - 1
    ensures forall i :: 0 <= i < |r| ==> r[i] == PathSegment(points[i], points[i + 1])
  {
    seq(|points| - 1, i requires 0 <= i < |points| - 1 => PathSegment(points[i], points[i + 1]))
  }

  /** Each segment ends where the next one starts. */
  predicate Contiguous(segs: seq<PathSegment>)
  {
    forall i :: 0 <= i < |segs| - 1 ==> segs[i].endPoint == segs[i + 1].startPoint
  }

  /** FinishPath's segments are always contiguous. */
  lemma SegmentsOfContiguous(points: seq<Vec3>)
    requires |points| >= 1
    ensures Contiguous(SegmentsOf(points))
  {
    var r := SegmentsOf(points);
    forall i | 0 <= i < |r| - 1 ensures r[i].endPoint == r[i + 1].startPoint {
      assert r[i] == PathSegment(points[i], points[i + 1]);
      assert r[i + 1] == PathSegment(points[i + 1], points[i + 2]);
    }
  }

  /** Round trip: reading back the segments FinishPath saved gives the clicked points again. */
  lemma PointsOfSegmentsOf(points: seq<Vec3>)
    requires |points| >= 2
    ensures PointsOf(SegmentsOf(points)) == points
  {
    var segs := SegmentsOf(points);
    var r := PointsOf(segs);
    assert |r| == |points|;
    forall i | 0 <= i < |points| ensures r[i] == points[i] {
      if i < |segs| {
        assert r[i] == segs[i].startPoint;
      } else {
        assert r[i] == segs[|segs| - 1].endPoint;
      }
    }
  }

  /** The other direction holds exactly for contiguous segment lists: end points of all but the last
      segment are discarded by GetPathPoints, so a gap in the path is lost. */
  lemma SegmentsOfPointsOf(segs: seq<PathSegment>)
    requires |segs| >= 1
    ensures SegmentsOf(PointsOf(segs)) == segs <==> Contiguous(segs)
  {
    var p := PointsOf(segs);
    var back := SegmentsOf(p);
    if Contiguous(segs) {
      forall i | 0 <= i < |segs| ensures back[i] == segs[i] {
        assert back[i] == PathSegment(p[i], p[i + 1]);
        if i < |segs| - 1 {
          assert p[i + 1] == segs[i + 1].startPoint;
        }
      }
    } else {
      var i :| 0 <= i < |segs| - 1 && segs[i].endPoint != segs[i + 1].startPoint;
      assert back[i].endPoint == p[i + 1] == segs[i + 1].startPoint;
    }
  }

  /** GetPathPoints cannot tell apart segment lists that differ only in the end points of segments
      other than the last. */
  lemma PointsIgnoreInnerEnds(s1: seq<PathSegment>, s2: seq<PathSegment>)
    requires |s1| == |s2| >= 1
    requires forall i :: 0 <= i < |s1| ==> s1[i].startPoint == s2[i].startPoint
    requires s1[|s1| - 1].endPoint == s2[|s2| - 1].endPoint
    ensures PointsOf(s1) == PointsOf(s2)
  {
    var p1, p2 := PointsOf(s1), PointsOf(s2);
    forall i | 0 <= i < |p1| ensures p1[i] == p2[i] {
      if i < |s1| {
        assert p1[i] == s1[i].startPoint;
      }
    }
  }

  /** PathConfig. `segments` is null until the editor saves a path. */
  class PathConfig {
    var pathName: string
    var pathWidth: real
    var segments: array?<PathSegment>
    var description: string

    /** The serialized defaults: name "New Path", width 2, no segments. */
    constructor ()
      ensures pathName == "New Path" && pathWidth == 2.0 && segments == null && description == ""
    {
      pathName := "New Path";
      pathWidth := 2.0;
      segments := null;
      description := "";
    }

    /** The segment list, with null read as empty. */
    function Segments(): seq<PathSegment>
      reads this, segments
    {
      if segments == null then [] else segments[..]
    }

    /** GetPathPoints: a null or empty segment array gives no points; otherwise one point per segment start,
        then the final end point. */
    method GetPathPoints() returns (points: seq<Vec3>)
      ensures points == PointsOf(Segments())
    {
      if segments == null || segments.Length == 0 {
        return [];
      }
      var a := new Vec3[segments.Length + 1];
      var i := 0;
      while i < segments.Length
        invariant 0 <= i <= segments.Length
        invariant forall k :: 0 <= k < i ==> a[k] == segments[k].startPoint
      {
        a[i] := segments[i].startPoint;
        i := i + 1;
      }
      a[segments.Length] := segments[segments.Length - 1].endPoint;
      points := a[..];
      assert points == PointsOf(Segments());
    }
  }
}
