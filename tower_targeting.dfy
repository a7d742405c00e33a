/** TowerTargeting: keep the current target while it is in range, otherwise pick the nearest enemy in range.
    The scene is given as `dist`, the distance from the tower to every live object, and `scan`, the
    Enemy-tagged objects in the order FindGameObjectsWithTag returns them. */
module Targeting {
  import opened Common

  /** Every scanned enemy is a live object with a distance. */
  predicate Scannable(scan: seq<EnemyId>, dist: map<EnemyId, real>)
  {
    forall k :: 0 <= k < |scan| ==> scan[k] in dist
  }

  /** The index FindNewTarget ends with after looking at the first `n` enemies: an enemy in range replaces
      the candidate only when strictly closer (None stands for the infinite initial distance). */
  function NearestUpTo(scan: seq<EnemyId>, dist: map<EnemyId, real>, range: real, n: nat): (r: Option<nat>)
    requires Scannable(scan, dist) && n <= |scan|
    ensures r.Some? ==> r.value < n
    decreases n
  {
    if n == 0 then None
    else
      var b := NearestUpTo(scan, dist, range, n - 1);
      var d := dist[scan[n - 1]];
      if d <= range && (b.None? || d < dist[scan[b.value]]) then Some(n - 1) else b
  }

  function Nearest(scan: seq<EnemyId>, dist: map<EnemyId, real>, range: real): Option<nat>
    requires Scannable(scan, dist)
  {
    NearestUpTo(scan, dist, range, |scan|)
  }

  /** Index k of the first n is in range, no farther than any other in range, and strictly nearer than
      every one before it that is in range. */
  predicate IsNearestUpTo(scan: seq<EnemyId>, dist: map<EnemyId, real>, range: real, n: nat, k: nat)
    requires Scannable(scan, dist) && n <= |scan|
  {
    k < n && dist[scan[k]] <= range &&
    (forall j :: 0 <= j < n && dist[scan[j]] <= range ==> dist[scan[k]] <= dist[scan[j]]) &&
    (forall j :: 0 <= j < k && dist[scan[j]] <= range ==> dist[scan[k]] < dist[scan[j]])
  }

  /** The scan's result is the first enemy of minimum distance among those in range, and there is none
      exactly when no enemy is in range. */
  lemma {:induction false} NearestUpToCorrect(scan: seq<EnemyId>, dist: map<EnemyId, real>, range: real, n: nat)
    requires Scannable(scan, dist) && n <= |scan|
    ensures NearestUpTo(scan, dist, range, n).None? <==> forall j :: 0 <= j < n ==> dist[scan[j]] > range
    ensures NearestUpTo(scan, dist, range, n).Some? ==>
      IsNearestUpTo(scan, dist, range, n, NearestUpTo(scan, dist, range, n).value)
    decreases n
  {
    if n > 0 {
      NearestUpToCorrect(scan, dist, range, n - 1);
    }
  }

  /** The specification picks one index only: first-wins tie breaking makes the nearest enemy unique. */
  lemma NearestUnique(scan: seq<EnemyId>, dist: map<EnemyId, real>, range: real, n: nat, k1: nat, k2: nat)
    requires Scannable(scan, dist) && n <= |scan|
    requires IsNearestUpTo(scan, dist, range, n, k1) && IsNearestUpTo(scan, dist, range, n, k2)
    ensures k1 == k2
  {
  }

  /** UpdateTarget on values: a current target that is alive and within range is kept; otherwise the scan
      decides. */
  function Retarget(current: Option<EnemyId>, range: real, scan: seq<EnemyId>, dist: map<EnemyId, real>): Option<EnemyId>
    requires Scannable(scan, dist)
  {
    if current.Some? && current.value in dist && !(dist[current.value] > range) then current
    else
      match Nearest(scan, dist, range)
      case None => None
      case Some(k) => Some(scan[k])
  }

  /** After UpdateTarget the target, if any, is alive and within range. A kept target may be farther than
      another enemy (no retargeting); a lost or out-of-range target is replaced by the nearest in-range
      enemy in the same call, or by nothing when there is none. */
  lemma RetargetCorrect(current: Option<EnemyId>, range: real, scan: seq<EnemyId>, dist: map<EnemyId, real>)
    requires Scannable(scan, dist)
    ensures var t := Retarget(current, range, scan, dist);
      t.Some? ==> t.value in dist && dist[t.value] <= range
    ensures current.Some? && current.value in dist && dist[current.value] <= range ==>
      Retarget(current, range, scan, dist) == current
    ensures !(current.Some? && current.value in dist && dist[current.value] <= range) ==>
      (Retarget(current, range, scan, dist).None? <==> forall j :: 0 <= j < |scan| ==> dist[scan[j]] > range) &&
      (Retarget(current, range, scan, dist).Some? ==>
         exists k: nat :: IsNearestUpTo(scan, dist, range, |scan|, k) && Retarget(current, range, scan, dist) == Some(scan[k]))
  {
    NearestUpToCorrect(scan, dist, range, |scan|);
  }

  /** FindNewTarget's loop: the index of the nearest in-range enemy, first one on ties. */
  method FindNewTarget(scan: seq<EnemyId>, dist: map<EnemyId, real>, range: real) returns (nearest: Option<nat>)
    requires Scannable(scan, dist)
    ensures nearest == Nearest(scan, dist, range)
  {
    var shortestDistance: Option<real> := None;
    nearest := None;
    var i := 0;
    while i < |scan|
      invariant 0 <= i <= |scan|
      invariant nearest == NearestUpTo(scan, dist, range, i)
      invariant nearest.None? <==> shortestDistance.None?
      invariant nearest.Some? ==> shortestDistance == Some(dist[scan[nearest.value]])
    {
      var d := dist[scan[i]];
      if (shortestDistance.None? || d < shortestDistance.value) && d <= range {
        shortestDistance := Some(d);
        nearest := Some(i);
      }
      i := i + 1;
    }
  }

  class TowerTargeting {
    var CurrentTarget: Option<EnemyId>
    var range: real
    /** The Behaviour.enabled flag the tower switches off in preview mode. */
    var enabled: bool

    constructor ()
      ensures CurrentTarget == None && range == 0.0 && enabled
    {
      CurrentTarget, range, enabled := None, 0.0, true;
    }

    method Initialize(range: real)
      modifies this
      ensures this.range == range && CurrentTarget == old(CurrentTarget) && enabled == old(enabled)
    {
      this.range := range;
    }

    method UpdateTarget(scan: seq<EnemyId>, dist: map<EnemyId, real>)
      requires Scannable(scan, dist)
      modifies this
      ensures CurrentTarget == Retarget(old(CurrentTarget), range, scan, dist)
      ensures range == old(range) && enabled == old(enabled)
    {
      if CurrentTarget.Some? && CurrentTarget.value in dist {
        var distance := dist[CurrentTarget.value];
        if distance > range {
          CurrentTarget := None;
        }
      } else {
        CurrentTarget := None;
      }
      if CurrentTarget.None? {
        var k := FindNewTarget(scan, dist, range);
        CurrentTarget := match k case None => None case Some(i) => Some(scan[i]);
      }
    }
  }
}
