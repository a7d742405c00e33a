/** GridVisualizer: a pool of line GameObjects, one drawn along every cell edge of the grid while the grid
    is shown. Lines are integer ids; `visible` is the set of lines whose SetActive state is true, and
    `destroyed` the lines Destroy has been called on. */
module LineVisuals {
  import opened Common
  import opened Grid

  /** The ids of a list, as a set. */
  function Elems(s: seq<ObjId>): set<ObjId>
  {
    set x | x in s
  }

  /** The pool's bookkeeping: each line is queued or drawn, never both and never twice; every queued or
      drawn line has an id below `nextId`, and the queue and the drawn lines together are exactly the
      pooled lines; no queued line is active, and only created lines are. */
  ghost predicate LinesOk(pooled: seq<ObjId>, available: seq<ObjId>, active: seq<ObjId>,
                          visible: set<ObjId>, nextId: ObjId)
  {
    Distinct(available) && Distinct(active) &&
    (forall i, j :: 0 <= i < |available| && 0 <= j < |active| ==> available[i] != active[j]) &&
    (forall k :: 0 <= k < |available| ==> available[k] < nextId && available[k] !in visible) &&
    (forall k :: 0 <= k < |active| ==> active[k] < nextId) &&
    (forall v :: v in visible ==> v < nextId) &&
    multiset(available) + multiset(active) == multiset(pooled)
  }

  /** The counting half of the bookkeeping: queued and drawn lines add up to the pooled ones. */
  lemma LinesCount(pooled: seq<ObjId>, available: seq<ObjId>, active: seq<ObjId>, visible: set<ObjId>, nextId: ObjId)
    requires LinesOk(pooled, available, active, visible, nextId)
    ensures |available| + |active| == |pooled|
  {
    assert |multiset(available) + multiset(active)| == |multiset(pooled)|;
  }

  /** InitializePool's whole loop: creating and queueing `n` lines keeps the bookkeeping. */
  lemma LinesCreateQueuedMany(pooled: seq<ObjId>, available: seq<ObjId>, active: seq<ObjId>,
                              visible: set<ObjId>, nextId: ObjId, n: nat)
    requires LinesOk(pooled, available, active, visible, nextId)
    ensures LinesOk(pooled + Fresh(nextId, n), available + Fresh(nextId, n), active, visible, nextId + n)
  {
    var f := Fresh(nextId, n);
    var a1 := available + f;
    AppendFresh(available, nextId, n);
    forall k | 0 <= k < |a1|
      ensures a1[k] !in visible && forall j :: 0 <= j < |active| ==> a1[k] != active[j]
    {
    }
    assert multiset(a1) == multiset(available) + multiset(f);
    assert multiset(pooled + f) == multiset(pooled) + multiset(f);
  }

  /** Drawing the front of the queue keeps the bookkeeping; that line was not drawn already. */
  lemma LinesDrawQueued(pooled: seq<ObjId>, available: seq<ObjId>, active: seq<ObjId>,
                        visible: set<ObjId>, nextId: ObjId)
    requires LinesOk(pooled, available, active, visible, nextId) && |available| > 0
    ensures LinesOk(pooled, available[1..], active + [available[0]], visible + {available[0]}, nextId)
    ensures available[0] !in active && available[0] < nextId
  {
    var a := available[0];
    assert available == [a] + available[1..];
    assert multiset(available) == multiset{a} + multiset(available[1..]);
    assert multiset(active + [a]) == multiset(active) + multiset{a};
    forall k | 0 <= k < |available[1..]|
      ensures available[1..][k] == available[k + 1] && available[1..][k] != a
    {
    }
  }

  /** Drawing a newly created line, active or not as the prefab is, keeps the bookkeeping. */
  lemma LinesDrawNew(pooled: seq<ObjId>, available: seq<ObjId>, active: seq<ObjId>,
                     visible: set<ObjId>, nextId: ObjId, prefabActive: bool)
    requires LinesOk(pooled, available, active, visible, nextId)
    ensures LinesOk(pooled + [nextId], available, active + [nextId],
                    if prefabActive then visible + {nextId} else visible - {nextId}, nextId + 1)
    ensures nextId !in active && nextId !in visible
  {
    assert multiset(pooled + [nextId]) == multiset(pooled) + multiset{nextId};
    assert multiset(active + [nextId]) == multiset(active) + multiset{nextId};
  }

  /** Returning every drawn line to the back of the queue, inactive (HideGridInternal), keeps it. */
  lemma LinesReturnAll(pooled: seq<ObjId>, available: seq<ObjId>, active: seq<ObjId>,
                       visible: set<ObjId>, nextId: ObjId)
    requires LinesOk(pooled, available, active, visible, nextId)
    ensures LinesOk(pooled, available + active, [], visible - Elems(active), nextId)
  {
    var s := available + active;
    forall i, j | 0 <= i < j < |s|
      ensures s[i] != s[j]
    {
      if j < |available| {
      } else if i >= |available| {
        assert s[i] == active[i - |available|] && s[j] == active[j - |available|];
      } else {
        assert s[j] == active[j - |available|];
      }
    }
    forall k | 0 <= k < |s|
      ensures s[k] < nextId && s[k] !in visible - Elems(active)
    {
      if k >= |available| {
        assert s[k] == active[k - |available|];
      }
    }
    assert multiset(s) == multiset(available) + multiset(active);
    assert multiset(s) + multiset([]) == multiset(s);
  }

  /** The set of a list one longer. */
  lemma ElemsSnoc(s: seq<ObjId>, x: ObjId)
    ensures Elems(s + [x]) == Elems(s) + {x}
  {
  }

  /** A drawn line is active exactly when the prefab is active or the line is older than `n0`. */
  ghost predicate DrawnShown(active: seq<ObjId>, visible: set<ObjId>, n0: ObjId, prefabActive: bool)
  {
    forall k :: 0 <= k < |active| ==> (active[k] in visible <==> prefabActive || active[k] < n0)
  }

  /** Drawing one more line that obeys the rule, without changing the other lines' states, keeps it. */
  lemma ShownStep(active: seq<ObjId>, visible: set<ObjId>, n0: ObjId, prefabActive: bool,
                  line: ObjId, visible1: set<ObjId>)
    requires DrawnShown(active, visible, n0, prefabActive)
    requires forall l :: l in active ==> (l in visible1 <==> l in visible)
    requires line in visible1 <==> prefabActive || line < n0
    ensures DrawnShown(active + [line], visible1, n0, prefabActive)
  {
    var active1 := active + [line];
    forall k | 0 <= k < |active1|
      ensures active1[k] in visible1 <==> prefabActive || active1[k] < n0
    {
      if k < |active| {
        assert active1[k] == active[k];
      }
    }
  }

  /** Part way through ShowGrid, which started from the pooled lines `pooled0` with `n0` the next id: the
      pool has grown only by the lines drawn beyond `pooled0`, each a fresh id, and a drawn line is active
      exactly when it was recycled or the prefab is active. */
  ghost predicate DrawingOk(pooled0: seq<ObjId>, n0: ObjId, pooled: seq<ObjId>, active: seq<ObjId>,
                            visible: set<ObjId>, nextId: ObjId, prefabActive: bool)
  {
    var grown := Max0(|active| - |pooled0|);
    pooled == pooled0 + Fresh(n0, grown) && nextId == n0 + grown &&
    DrawnShown(active, visible, n0, prefabActive)
  }

  /** One DrawLineSegment, from the state (pooled, available, active, visible, nextId) to the primed one,
      keeps ShowGrid's progress. */
  lemma DrawingStep(pooled0: seq<ObjId>, n0: ObjId, prefabActive: bool,
                    pooled: seq<ObjId>, available: seq<ObjId>, active: seq<ObjId>, visible: set<ObjId>, nextId: ObjId,
                    line: ObjId, pooled1: seq<ObjId>, active1: seq<ObjId>, visible1: set<ObjId>, nextId1: ObjId)
    requires LinesOk(pooled, available, active, visible, nextId)
    requires DrawingOk(pooled0, n0, pooled, active, visible, nextId, prefabActive)
    requires active1 == active + [line]
    requires |available| > 0 ==> pooled1 == pooled && nextId1 == nextId && line in visible1 && line < nextId
    requires |available| == 0 ==> line == nextId && nextId1 == nextId + 1 && pooled1 == pooled + [line] &&
                                   (line in visible1 <==> prefabActive)
    requires forall l :: l in active ==> (l in visible1 <==> l in visible)
    ensures DrawingOk(pooled0, n0, pooled1, active1, visible1, nextId1, prefabActive)
  {
    LinesCount(pooled, available, active, visible, nextId);
    var grown := Max0(|active| - |pooled0|);
    if |available| > 0 {
      assert grown == 0 && Max0(|active1| - |pooled0|) == 0;
    } else {
      assert Max0(|active1| - |pooled0|) == grown + 1;
      assert Fresh(n0, grown + 1) == Fresh(n0, grown) + [line];
    }
    ShownStep(active, visible, n0, prefabActive, line, visible1);
  }

  class GridVisualizer {
    const initialPoolSize: int
    const hasPrefab: bool
    /** Whether the line prefab is itself active, so that a line Instantiate creates in GetPooledLine starts
        active (that branch does not call SetActive). */
    const prefabActive: bool
    var enabled: bool
    var gridManager: GridManager?
    var isShowing: bool
    var pooledLines: seq<ObjId>
    /** The available queue; its front is index 0. */
    var availableLines: seq<ObjId>
    var activeLines: seq<ObjId>
    var visible: set<ObjId>
    var destroyed: set<ObjId>
    /** The id the next Instantiate gets. */
    var nextId: ObjId

    /** The pool's bookkeeping holds for the current fields. */
    ghost predicate Valid()
      reads this`pooledLines, this`availableLines, this`activeLines, this`visible, this`nextId
    {
      LinesOk(pooledLines, availableLines, activeLines, visible, nextId)
    }

    /** ShowGrid's progress holds for the current fields. */
    ghost predicate Drawing(pooled0: seq<ObjId>, n0: ObjId)
      reads this`pooledLines, this`activeLines, this`visible, this`nextId
    {
      DrawingOk(pooled0, n0, pooledLines, activeLines, visible, nextId, prefabActive)
    }

    /** The component before Start: no GridManager yet, not showing, an empty pool. */
    constructor (initialPoolSize: int, hasPrefab: bool, prefabActive: bool)
      ensures Valid()
      ensures this.initialPoolSize == initialPoolSize && this.hasPrefab == hasPrefab && this.prefabActive == prefabActive
      ensures enabled && gridManager == null && !isShowing
      ensures pooledLines == [] && availableLines == [] && activeLines == [] && visible == {} && destroyed == {}
    {
      this.initialPoolSize, this.hasPrefab, this.prefabActive := initialPoolSize, hasPrefab, prefabActive;
      enabled, gridManager, isShowing := true, null, false;
      pooledLines, availableLines, activeLines := [], [], [];
      visible, destroyed, nextId := {}, {}, 0;
    }

    /** Start: takes the GridManager instance; without one, or without a line prefab, the component
        disables itself and creates no line; otherwise InitializePool fills the pool. */
    method Start(instance: GridManager?)
      requires Valid()
      modifies this`gridManager, this`enabled, this`pooledLines, this`availableLines, this`visible, this`nextId
      ensures Valid()
      ensures gridManager == instance && enabled == (old(enabled) && instance != null && hasPrefab)
      ensures instance != null && hasPrefab ==>
        pooledLines == old(pooledLines) + Fresh(old(nextId), Max0(initialPoolSize)) &&
        availableLines == old(availableLines) + Fresh(old(nextId), Max0(initialPoolSize)) &&
        nextId == old(nextId) + Max0(initialPoolSize)
      ensures !(instance != null && hasPrefab) ==>
        pooledLines == old(pooledLines) && availableLines == old(availableLines) && nextId == old(nextId)
      ensures visible == old(visible)
    {
      gridManager := instance;
      if gridManager == null {
        enabled := false;
        return;
      }
      if !hasPrefab {
        enabled := false;
        return;
      }
      InitializePool();
    }

    /** Creates `initialPoolSize` new lines, each made inactive, appended in creation order both to the
        pooled list and to the available queue. */
    method InitializePool()
      requires Valid()
      modifies this`pooledLines, this`availableLines, this`visible, this`nextId
      ensures Valid()
      ensures pooledLines == old(pooledLines) + Fresh(old(nextId), Max0(initialPoolSize))
      ensures availableLines == old(availableLines) + Fresh(old(nextId), Max0(initialPoolSize))
      ensures nextId == old(nextId) + Max0(initialPoolSize) && visible == old(visible)
    {
      var i := 0;
      while i < initialPoolSize
        invariant 0 <= i <= Max0(initialPoolSize)
        invariant forall v :: v in visible ==> v < old(nextId)
        invariant nextId == old(nextId) + i && visible == old(visible)
        invariant pooledLines == old(pooledLines) + Fresh(old(nextId), i)
        invariant availableLines == old(availableLines) + Fresh(old(nextId), i)
      {
        var line := CreateQueuedLine();
        assert Fresh(old(nextId), i + 1) == Fresh(old(nextId), i) + [line];
        i := i + 1;
      }
      LinesCreateQueuedMany(old(pooledLines), old(availableLines), activeLines, visible, old(nextId), i);
    }

    /** One pass of InitializePool's loop: a new line, made inactive, at the back of both lists. */
    method CreateQueuedLine() returns (line: ObjId)
      requires forall v :: v in visible ==> v < nextId
      modifies this`pooledLines, this`availableLines, this`visible, this`nextId
      ensures line == old(nextId) && nextId == old(nextId) + 1 && visible == old(visible)
      ensures pooledLines == old(pooledLines) + [line] && availableLines == old(availableLines) + [line]
    {
      line := nextId;
      nextId := nextId + 1;
      visible := visible - {line};
      pooledLines := pooledLines + [line];
      availableLines := availableLines + [line];
    }

    /** Never fails: the front of the available queue, made active, when there is one; otherwise a newly
        created line, added to the pooled list and left in the prefab's active state. */
    method GetPooledLine() returns (line: ObjId)
      modifies this`pooledLines, this`availableLines, this`visible, this`nextId
      ensures |old(availableLines)| > 0 ==>
        line == old(availableLines)[0] && availableLines == old(availableLines)[1..] &&
        pooledLines == old(pooledLines) && nextId == old(nextId) && visible == old(visible) + {line}
      ensures |old(availableLines)| == 0 ==>
        line == old(nextId) && nextId == old(nextId) + 1 &&
        pooledLines == old(pooledLines) + [line] && availableLines == old(availableLines) &&
        visible == (if prefabActive then old(visible) + {line} else old(visible) - {line})
    {
      if |availableLines| > 0 {
        line := availableLines[0];
        availableLines := availableLines[1..];
        visible := visible + {line};
      } else {
        line := nextId;
        nextId := nextId + 1;
        visible := if prefabActive then visible + {line} else visible - {line};
        pooledLines := pooledLines + [line];
      }
    }

    /** Deactivates the line and puts it at the back of the available queue. */
    method ReturnLineToPool(line: ObjId)
      modifies this`availableLines, this`visible
      ensures visible == old(visible) - {line}
      ensures availableLines == old(availableLines) + [line]
    {
      visible := visible - {line};
      availableLines := availableLines + [line];
    }

    /** Draws one line: GetPooledLine's line is appended to the drawn lines. It was not drawn already, and no
        other drawn line changes its active state. */
    method DrawLineSegment() returns (line: ObjId)
      requires Valid()
      modifies this`pooledLines, this`availableLines, this`activeLines, this`visible, this`nextId
      ensures Valid()
      ensures activeLines == old(activeLines) + [line] && line !in old(activeLines)
      ensures |old(availableLines)| > 0 ==>
        line == old(availableLines)[0] && availableLines == old(availableLines)[1..] &&
        pooledLines == old(pooledLines) && nextId == old(nextId) && line in visible && line < nextId
      ensures |old(availableLines)| == 0 ==>
        line == old(nextId) && nextId == old(nextId) + 1 &&
        pooledLines == old(pooledLines) + [line] && availableLines == old(availableLines) &&
        (line in visible <==> prefabActive)
      ensures forall l :: l in old(activeLines) ==> (l in visible <==> l in old(visible))
    {
      ghost var pooled, available, active, shown, id := pooledLines, availableLines, activeLines, visible, nextId;
      if |availableLines| > 0 {
        LinesDrawQueued(pooled, available, active, shown, id);
      } else {
        LinesDrawNew(pooled, available, active, shown, id, prefabActive);
      }
      line := GetPooledLine();
      activeLines := activeLines + [line];
    }

    /** Draws the next line of ShowGrid's loops, keeping the progress of Drawing. */
    method DrawNext(ghost pooled0: seq<ObjId>, ghost n0: ObjId)
      requires Valid() && Drawing(pooled0, n0)
      modifies this`pooledLines, this`availableLines, this`activeLines, this`visible, this`nextId
      ensures Valid() && Drawing(pooled0, n0)
      ensures |activeLines| == |old(activeLines)| + 1
    {
      ghost var pooled, available, active, shown, id := pooledLines, availableLines, activeLines, visible, nextId;
      var line := DrawLineSegment();
      DrawingStep(pooled0, n0, prefabActive, pooled, available, active, shown, id,
                  line, pooledLines, activeLines, visible, nextId);
    }

    /** Returns every drawn line, in order, to the back of the queue, inactive, and empties the drawn list. */
    method HideGridInternal()
      requires Valid()
      modifies this`availableLines, this`activeLines, this`visible
      ensures Valid()
      ensures availableLines == old(availableLines) + old(activeLines) && activeLines == []
      ensures visible == old(visible) - Elems(old(activeLines))
    {
      ReturnActiveLines();
      activeLines := [];
      LinesReturnAll(old(pooledLines), old(availableLines), old(activeLines), old(visible), old(nextId));
    }

    /** HideGridInternal's loop: every drawn line, in order, goes back to the pool. */
    method ReturnActiveLines()
      modifies this`availableLines, this`visible
      ensures availableLines == old(availableLines) + activeLines
      ensures visible == old(visible) - Elems(activeLines)
    {
      var i := 0;
      while i < |activeLines|
        invariant 0 <= i <= |activeLines|
        invariant availableLines == old(availableLines) + activeLines[..i]
        invariant visible == old(visible) - Elems(activeLines[..i])
      {
        ReturnLineToPool(activeLines[i]);
        assert activeLines[..i + 1] == activeLines[..i] + [activeLines[i]];
        ElemsSnoc(activeLines[..i], activeLines[i]);
        i := i + 1;
      }
      assert activeLines[..i] == activeLines;
    }

    /** A no-op when already showing, without a GridManager or without a line prefab. Otherwise the drawn
        lines first go back to the pool, then gridSize.x + 1 lines along x and gridSize.y + 1 along y are
        drawn (none for a negative size); the pool grows only by the lines the queue could not supply, and
        each drawn line is active unless it was newly created from an inactive prefab. */
    method ShowGrid()
      requires Valid()
      modifies this`isShowing, this`pooledLines, this`availableLines, this`activeLines, this`visible, this`nextId
      ensures Valid()
      ensures old(isShowing) || gridManager == null || !hasPrefab ==> unchanged(this)
      ensures !(old(isShowing) || gridManager == null || !hasPrefab) ==>
        var count := Max0(gridManager.gridSize.x + 1) + Max0(gridManager.gridSize.y + 1);
        var grown := Max0(count - |old(pooledLines)|);
        isShowing && |activeLines| == count &&
        pooledLines == old(pooledLines) + Fresh(old(nextId), grown) && nextId == old(nextId) + grown &&
        DrawnShown(activeLines, visible, old(nextId), prefabActive)
    {
      if isShowing || gridManager == null || !hasPrefab {
        return;
      }
      isShowing := true;
      Redraw(gridManager.gridSize);
    }

    /** ShowGrid's work once it goes ahead: the drawn lines go back to the pool, then the grid's lines are
        drawn, keeping ShowGrid's progress from the pool as it was. */
    method Redraw(size: Vec2Int)
      requires Valid()
      modifies this`pooledLines, this`availableLines, this`activeLines, this`visible, this`nextId
      ensures Valid()
      ensures |activeLines| == Max0(size.x + 1) + Max0(size.y + 1)
      ensures DrawingOk(old(pooledLines), old(nextId), pooledLines, activeLines, visible, nextId, prefabActive)
    {
      HideGridInternal();
      ghost var pooled0, n0 := pooledLines, nextId;
      assert pooledLines == pooled0 + Fresh(n0, 0);
      DrawAll(size, pooled0, n0);
    }

    /** ShowGrid's two loops, from an empty drawn list: gridSize.x + 1 lines along x, then gridSize.y + 1
        along y. */
    method DrawAll(size: Vec2Int, ghost pooled0: seq<ObjId>, ghost n0: ObjId)
      requires Valid() && Drawing(pooled0, n0) && activeLines == []
      modifies this`pooledLines, this`availableLines, this`activeLines, this`visible, this`nextId
      ensures Valid() && Drawing(pooled0, n0)
      ensures |activeLines| == Max0(size.x + 1) + Max0(size.y + 1)
    {
      var x := 0;
      while x <= size.x
        invariant 0 <= x && (x <= size.x + 1 || x == 0)
        invariant Valid() && Drawing(pooled0, n0) && |activeLines| == x
      {
        DrawNext(pooled0, n0);
        x := x + 1;
      }
      var y := 0;
      while y <= size.y
        invariant 0 <= y && (y <= size.y + 1 || y == 0)
        invariant Valid() && Drawing(pooled0, n0) && |activeLines| == Max0(size.x + 1) + y
      {
        DrawNext(pooled0, n0);
        y := y + 1;
      }
    }

    /** A no-op unless showing; otherwise every drawn line goes back to the queue and showing stops. */
    method HideGrid()
      requires Valid()
      modifies this`isShowing, this`availableLines, this`activeLines, this`visible
      ensures Valid()
      ensures !old(isShowing) ==> unchanged(this)
      ensures old(isShowing) ==>
        !isShowing && activeLines == [] && availableLines == old(availableLines) + old(activeLines) &&
        visible == old(visible) - Elems(old(activeLines))
    {
      if !isShowing {
        return;
      }
      HideGridInternal();
      isShowing := false;
    }

    /** Destroys every pooled line and empties all three collections. */
    method OnDestroy()
      requires Valid()
      modifies this`destroyed, this`pooledLines, this`availableLines, this`activeLines
      ensures Valid()
      ensures destroyed == old(destroyed) + Elems(old(pooledLines))
      ensures pooledLines == [] && availableLines == [] && activeLines == []
    {
      var i := 0;
      while i < |pooledLines|
        invariant 0 <= i <= |pooledLines| && pooledLines == old(pooledLines)
        invariant destroyed == old(destroyed) + Elems(pooledLines[..i])
        invariant availableLines == old(availableLines) && activeLines == old(activeLines)
      {
        destroyed := destroyed + {pooledLines[i]};
        assert pooledLines[..i + 1] == pooledLines[..i] + [pooledLines[i]];
        ElemsSnoc(pooledLines[..i], pooledLines[i]);
        i := i + 1;
      }
      assert pooledLines[..i] == pooledLines;
      pooledLines, availableLines, activeLines := [], [], [];
    }
  }
}
