/** GridTileVisualizer: a pool of tile indicators laid one per grid cell while placement is shown, with the
    cell under the placement preview hidden. Indicator GameObjects are integer ids; `visible` is the set
    of indicators whose SetActive state is true, and `showsAvailable` records, per indicator, whether its
    renderer was last given the available (true) or the blocked (false) material. */
module TileVisuals {
  import opened Common
  import opened Grid

  /** The hidden-cell position that stands for "none". */
  const NoCell: Vec2Int := Vec2Int(-1, -1)

  /** The pool's bookkeeping: every indicator ever created is pooled once; queued indicators are inactive;
      queued and laid indicators are pooled, none is both, no indicator lies on two cells, and the counts
      add up (so, by PoolCovers, each pooled indicator is queued or laid). */
  ghost predicate PoolOk(pooled: seq<ObjId>, available: seq<ObjId>, active: map<Vec2Int, ObjId>,
                         visible: set<ObjId>, nextId: ObjId)
  {
    Distinct(pooled) && Distinct(available) &&
    (forall k :: 0 <= k < |pooled| ==> pooled[k] < nextId) &&
    (forall v :: v in visible ==> v < nextId) &&
    (forall k :: 0 <= k < |available| ==> available[k] < nextId && available[k] !in visible) &&
    (forall p :: p in active ==> active[p] < nextId) &&
    (forall k, p :: 0 <= k < |available| && p in active ==> available[k] != active[p]) &&
    (forall p, q :: p in active && q in active && p != q ==> active[p] != active[q]) &&
    (forall k :: 0 <= k < |available| ==> available[k] in pooled) &&
    (forall p :: p in active ==> active[p] in pooled) &&
    |available| + |active| == |pooled|
  }

  /** The ids of a list of distinct ids are as many as its entries. */
  lemma {:induction false} SeqIdsCard(s: seq<ObjId>)
    requires Distinct(s)
    ensures |set x | x in s| == |s|
    decreases |s|
  {
    if s != [] {
      var init := s[..|s| - 1];
      SeqIdsCard(init);
      assert (set x | x in s) == (set x | x in init) + {s[|s| - 1]};
      assert s[|s| - 1] !in init;
    }
  }

  /** A map that lays different cells with different indicators holds as many indicators as cells. */
  lemma {:induction false} MapValuesCard(m: map<Vec2Int, ObjId>)
    requires forall p, q :: p in m && q in m && p != q ==> m[p] != m[q]
    ensures |m.Values| == |m|
    decreases |m|
  {
    if m != map[] {
      var p :| p in m;
      var rest := m - {p};
      MapValuesCard(rest);
      forall v ensures v in m.Values <==> v in rest.Values + {m[p]} {
        if v in m.Values {
          var q :| q in m && m[q] == v;
          if q != p {
            assert rest[q] == v;
          }
        }
        if v in rest.Values {
          var q :| q in rest && rest[q] == v;
          assert m[q] == v;
        }
      }
      forall q | q in rest ensures rest[q] != m[p] {
        assert q != p && m[q] == rest[q];
      }
      assert m[p] !in rest.Values;
      assert m.Values == rest.Values + {m[p]};
      assert |m.Values| == |rest.Values| + 1;
      assert m.Keys == rest.Keys + {p} && p !in rest.Keys;
      assert |m.Keys| == |rest.Keys| + 1;
      assert |m| == |m.Keys| && |rest| == |rest.Keys|;
    }
  }

  /** A subset as large as its superset is the whole superset. */
  lemma SubsetSameCard(a: set<ObjId>, b: set<ObjId>)
    requires a <= b && |a| == |b|
    ensures a == b
  {
    assert a - b == {};
    assert a * b == a;
    assert a + b == b;
    assert |b - a| == 0;
    forall x | x in b ensures x in a {
      assert x !in b - a;
    }
  }

  /** The bookkeeping accounts for every pooled indicator: each one is queued or laid on a cell. Queued
      and laid indicators are distinct pooled ones and as many as the pooled list, so none is left over. */
  lemma PoolCovers(pooled: seq<ObjId>, available: seq<ObjId>, active: map<Vec2Int, ObjId>,
                   visible: set<ObjId>, nextId: ObjId)
    requires PoolOk(pooled, available, active, visible, nextId)
    ensures forall k :: 0 <= k < |pooled| ==> pooled[k] in available || pooled[k] in active.Values
  {
    Pigeonhole(pooled, available, active);
  }

  lemma Pigeonhole(pooled: seq<ObjId>, available: seq<ObjId>, active: map<Vec2Int, ObjId>)
    requires Distinct(pooled) && Distinct(available)
    requires forall k, p :: 0 <= k < |available| && p in active ==> available[k] != active[p]
    requires forall p, q :: p in active && q in active && p != q ==> active[p] != active[q]
    requires forall k :: 0 <= k < |available| ==> available[k] in pooled
    requires forall p :: p in active ==> active[p] in pooled
    requires |available| + |active| == |pooled|
    ensures forall k :: 0 <= k < |pooled| ==> pooled[k] in available || pooled[k] in active.Values
  {
    var queued := set x | x in available;
    var all := set x | x in pooled;
    SeqIdsCard(available);
    SeqIdsCard(pooled);
    MapValuesCard(active);
    forall x | x in queued ensures x !in active.Values {
      var k :| 0 <= k < |available| && available[k] == x;
      forall p | p in active ensures active[p] != x {
        assert available[k] != active[p];
      }
    }
    var covered := queued + active.Values;
    assert |covered| == |pooled| by {
      assert queued * active.Values == {};
    }
    forall x | x in covered ensures x in all {
      if x in active.Values {
        var p :| p in active && active[p] == x;
      }
    }
    SubsetSameCard(covered, all);
    forall k | 0 <= k < |pooled| ensures pooled[k] in available || pooled[k] in active.Values {
      assert pooled[k] in all;
    }
  }

  /** InitializePool's whole loop: creating and queueing `n` indicators keeps the bookkeeping. */
  lemma PoolCreateQueuedMany(pooled: seq<ObjId>, available: seq<ObjId>, active: map<Vec2Int, ObjId>,
                             visible: set<ObjId>, nextId: ObjId, n: nat,
                             pooled1: seq<ObjId>, available1: seq<ObjId>, nextId1: ObjId)
    requires PoolOk(pooled, available, active, visible, nextId)
    requires pooled1 == pooled + Fresh(nextId, n) && available1 == available + Fresh(nextId, n) && nextId1 == nextId + n
    ensures PoolOk(pooled1, available1, active, visible, nextId1)
  {
    AppendFresh(pooled, nextId, n);
    AppendFresh(available, nextId, n);
    var a1 := available + Fresh(nextId, n);
    forall k | 0 <= k < |a1|
      ensures a1[k] !in visible && forall p :: p in active ==> a1[k] != active[p]
    {
    }
  }

  /** Sending the indicator of cell `p` back to the queue (ClearIndicators' step) keeps the bookkeeping. */
  lemma PoolReturn(pooled: seq<ObjId>, available: seq<ObjId>, active: map<Vec2Int, ObjId>,
                   visible: set<ObjId>, nextId: ObjId, p: Vec2Int)
    requires PoolOk(pooled, available, active, visible, nextId) && p in active
    ensures PoolOk(pooled, available + [active[p]], active - {p}, visible - {active[p]}, nextId)
  {
    var a := active[p];
    var rest := active - {p};
    var queue := available + [a];
    assert a !in available;
    AppendNew(available, a);
    forall k, q | 0 <= k < |queue| && q in rest
      ensures queue[k] != rest[q]
    {
    }
    assert active.Keys == rest.Keys + {p};
    assert |active.Keys| == |rest.Keys| + 1;
  }

  /** Every laid indicator is active except the one on the hidden cell, when a cell is hidden. */
  ghost predicate ShowsAllBut(active: map<Vec2Int, ObjId>, visible: set<ObjId>, hidden: bool, hiddenPos: Vec2Int)
  {
    forall p :: p in active ==> (active[p] in visible <==> !(hidden && p == hiddenPos))
  }

  /** Part way through ClearIndicators, starting from map `active0` and queue `available0`: the queue
      has only grown at its back, and every cell of `active0` either still holds its indicator or has
      given it back to the queue, inactive. */
  ghost predicate ClearedSoFar(active0: map<Vec2Int, ObjId>, available0: seq<ObjId>,
                               active: map<Vec2Int, ObjId>, available: seq<ObjId>, visible: set<ObjId>)
  {
    active.Keys <= active0.Keys &&
    (forall p :: p in active0 ==>
       (p in active && active[p] == active0[p]) ||
       (p !in active && active0[p] in available && active0[p] !in visible)) &&
    |available0| <= |available| && available[..|available0|] == available0
  }

  /** One step of ClearIndicators, from the state (available, active, visible) to (available1, active1,
      visible1), keeps the bookkeeping and the progress, and shrinks the map. */
  lemma ClearStep(pooled: seq<ObjId>, available: seq<ObjId>, active: map<Vec2Int, ObjId>,
                  visible: set<ObjId>, nextId: ObjId,
                  active0: map<Vec2Int, ObjId>, available0: seq<ObjId>, p: Vec2Int,
                  available1: seq<ObjId>, active1: map<Vec2Int, ObjId>, visible1: set<ObjId>)
    requires PoolOk(pooled, available, active, visible, nextId) && p in active
    requires ClearedSoFar(active0, available0, active, available, visible)
    requires available1 == available + [active[p]] && active1 == active - {p} && visible1 == visible - {active[p]}
    ensures PoolOk(pooled, available1, active1, visible1, nextId)
    ensures ClearedSoFar(active0, available0, active1, available1, visible1)
    ensures |active1| < |active|
  {
    PoolReturn(pooled, available, active, visible, nextId, p);
    ReturnProgress(active0, available0, active, available, visible, p);
    assert active.Keys == active1.Keys + {p};
  }

  lemma ReturnProgress(active0: map<Vec2Int, ObjId>, available0: seq<ObjId>, active: map<Vec2Int, ObjId>,
                       available: seq<ObjId>, visible: set<ObjId>, p: Vec2Int)
    requires p in active
    requires ClearedSoFar(active0, available0, active, available, visible)
    ensures ClearedSoFar(active0, available0, active - {p}, available + [active[p]], visible - {active[p]})
  {
    assert (available + [active[p]])[..|available0|] == available[..|available0|];
  }

  /** Activating a laid indicator keeps the bookkeeping. */
  lemma PoolShow(pooled: seq<ObjId>, available: seq<ObjId>, active: map<Vec2Int, ObjId>,
                 visible: set<ObjId>, nextId: ObjId, p: Vec2Int, visible1: set<ObjId>)
    requires PoolOk(pooled, available, active, visible, nextId) && p in active
    requires visible1 == visible + {active[p]}
    ensures PoolOk(pooled, available, active, visible1, nextId)
  {
  }

  /** Re-activating the hidden cell's indicator, if it is laid, leaves every laid indicator active. */
  lemma Unhide(active: map<Vec2Int, ObjId>, visible: set<ObjId>, hidden: bool, hiddenPos: Vec2Int, visible1: set<ObjId>)
    requires ShowsAllBut(active, visible, hidden, hiddenPos)
    requires visible1 == if hidden && hiddenPos in active then visible + {active[hiddenPos]} else visible
    ensures ShowsAllBut(active, visible1, false, NoCell)
    ensures forall p :: p in active ==> active[p] in visible1
  {
  }

  /** Deactivating indicators keeps the bookkeeping. */
  lemma PoolHide(pooled: seq<ObjId>, available: seq<ObjId>, active: map<Vec2Int, ObjId>,
                 visible: set<ObjId>, nextId: ObjId, visible1: set<ObjId>)
    requires PoolOk(pooled, available, active, visible, nextId) && visible1 <= visible
    ensures PoolOk(pooled, available, active, visible1, nextId)
  {
  }

  /** With every laid indicator active and no indicator on two cells, deactivating the one on `hiddenPos`
      (when `hidden`) leaves exactly that cell hidden. */
  lemma Rehide(active: map<Vec2Int, ObjId>, visible: set<ObjId>, hidden: bool, hiddenPos: Vec2Int, visible1: set<ObjId>)
    requires AllShown(active, visible)
    requires forall p, q :: p in active && q in active && p != q ==> active[p] != active[q]
    requires visible1 == if hidden && hiddenPos in active then visible - {active[hiddenPos]} else visible
    ensures ShowsAllBut(active, visible1, hidden, hiddenPos)
  {
  }

  /** Every laid indicator is active. */
  ghost predicate AllShown(active: map<Vec2Int, ObjId>, visible: set<ObjId>)
  {
    forall p :: p in active ==> active[p] in visible
  }

  /** Every laid indicator carries the material its cell's entry in `buildable` calls for (true: the
      available material). */
  ghost predicate Materials(active: map<Vec2Int, ObjId>, showsAvailable: map<ObjId, bool>, buildable: imap<Vec2Int, bool>)
  {
    forall p :: p in active ==>
      p in buildable && active[p] in showsAvailable && showsAvailable[active[p]] == buildable[p]
  }

  /** Giving a newly laid indicator its cell's material keeps every other cell's material. */
  lemma MaterialStep(active: map<Vec2Int, ObjId>, showsAvailable: map<ObjId, bool>, buildable: imap<Vec2Int, bool>,
                     q: Vec2Int, indicator: ObjId, active1: map<Vec2Int, ObjId>, showsAvailable1: map<ObjId, bool>)
    requires Materials(active, showsAvailable, buildable) && q in buildable
    requires forall p :: p in active ==> active[p] != indicator
    requires active1 == active[q := indicator] && showsAvailable1 == showsAvailable[indicator := buildable[q]]
    ensures Materials(active1, showsAvailable1, buildable)
  {
  }

  /** The cells laid so far by ShowVisualization's loops: every column before `x`, and the first `y` cells
      of column `x`. */
  ghost predicate LaidCells(active: map<Vec2Int, ObjId>, x: int, y: int, size: Vec2Int)
  {
    forall p :: p in active <==> (0 <= p.x < x && 0 <= p.y < size.y) || (p.x == x && 0 <= p.y < y)
  }

  /** Laying cell (x, y) moves on to the next cell of the column. */
  lemma LayCell(active: map<Vec2Int, ObjId>, x: int, y: int, size: Vec2Int, active1: map<Vec2Int, ObjId>)
    requires LaidCells(active, x, y, size) && 0 <= y && active1.Keys == active.Keys + {Vec2Int(x, y)}
    ensures LaidCells(active1, x, y + 1, size)
  {
  }

  /** A finished column is the start of the next one. */
  lemma NextColumn(active: map<Vec2Int, ObjId>, x: int, y: int, size: Vec2Int)
    requires LaidCells(active, x, y, size) && 0 <= x && (y == size.y || (y == 0 && size.y <= 0))
    ensures LaidCells(active, x + 1, 0, size)
  {
  }

  /** After the last column the map holds exactly the grid's cells. */
  lemma AllColumns(active: map<Vec2Int, ObjId>, x: int, size: Vec2Int)
    requires LaidCells(active, x, 0, size) && (x == size.x || (x == 0 && size.x <= 0))
    ensures forall p :: p in active <==> InBounds(p, size)
  {
  }

  /** One cell of ShowVisualization, from (pooled, available, active, visible, nextId) to the primed state:
      GetPooledIndicator's either branch and the map entry for a new cell `q`. The bookkeeping is kept,
      every laid indicator stays active, and the indicator was not laid anywhere before. */
  lemma LayStep(pooled: seq<ObjId>, available: seq<ObjId>, active: map<Vec2Int, ObjId>, visible: set<ObjId>,
                nextId: ObjId, q: Vec2Int, indicator: ObjId,
                pooled1: seq<ObjId>, available1: seq<ObjId>, active1: map<Vec2Int, ObjId>, visible1: set<ObjId>,
                nextId1: ObjId)
    requires PoolOk(pooled, available, active, visible, nextId) && q !in active
    requires AllShown(active, visible)
    requires |available| > 0 ==>
      indicator == available[0] && available1 == available[1..] && pooled1 == pooled && nextId1 == nextId
    requires |available| == 0 ==>
      indicator == nextId && available1 == available && pooled1 == pooled + [indicator] && nextId1 == nextId + 1
    requires visible1 == visible + {indicator} && active1 == active[q := indicator]
    ensures PoolOk(pooled1, available1, active1, visible1, nextId1)
    ensures AllShown(active1, visible1)
    ensures forall p :: p in active ==> active[p] != indicator
  {
    if |available| > 0 {
      PoolTake(pooled, available, active, visible, nextId, q);
    } else {
      PoolCreateLaid(pooled, available, active, visible, nextId, q);
    }
  }

  /** Laying the front of the queue on a new cell `q` (GetPooledIndicator's first branch) keeps it. */
  lemma PoolTake(pooled: seq<ObjId>, available: seq<ObjId>, active: map<Vec2Int, ObjId>,
                 visible: set<ObjId>, nextId: ObjId, q: Vec2Int)
    requires PoolOk(pooled, available, active, visible, nextId) && |available| > 0 && q !in active
    ensures PoolOk(pooled, available[1..], active[q := available[0]], visible + {available[0]}, nextId)
  {
    var a := available[0];
    forall k | 0 <= k < |available[1..]|
      ensures available[1..][k] != a
    {
      assert available[1..][k] == available[k + 1];
    }
  }

  /** Laying a newly created indicator on a new cell `q` (the exhausted-pool branch) keeps it. */
  lemma PoolCreateLaid(pooled: seq<ObjId>, available: seq<ObjId>, active: map<Vec2Int, ObjId>,
                       visible: set<ObjId>, nextId: ObjId, q: Vec2Int)
    requires PoolOk(pooled, available, active, visible, nextId) && q !in active
    ensures PoolOk(pooled + [nextId], available, active[q := nextId], visible + {nextId}, nextId + 1)
  {
    assert nextId !in pooled;
  }

  class GridTileVisualizer {
    const gridManager: GridManager?
    const initialPoolSize: int
    /** Whether the indicator prefab carries a Renderer, so that ShowVisualization sets a material. */
    const hasRenderer: bool
    var enabled: bool
    var isShowing: bool
    var hiddenIndicatorPos: Vec2Int
    var isIndicatorTemporarilyHidden: bool
    var pooledIndicators: seq<ObjId>
    var activeIndicators: map<Vec2Int, ObjId>
    /** The available queue; its front is index 0. */
    var availableIndicators: seq<ObjId>
    var visible: set<ObjId>
    var showsAvailable: map<ObjId, bool>
    /** The id the next Instantiate gets. */
    var nextId: ObjId

    /** The pool's bookkeeping holds for the current fields. */
    ghost predicate PoolValid()
      reads this`pooledIndicators, this`availableIndicators, this`activeIndicators, this`visible, this`nextId
    {
      PoolOk(pooledIndicators, availableIndicators, activeIndicators, visible, nextId)
    }

    /** What the player sees: every laid indicator is active except the one on the hidden preview cell. */
    ghost predicate Displayed()
      reads this`activeIndicators, this`visible, this`isIndicatorTemporarilyHidden, this`hiddenIndicatorPos
    {
      ShowsAllBut(activeIndicators, visible, isIndicatorTemporarilyHidden, hiddenIndicatorPos)
    }

    /** Awake: without a GridManager, an indicator prefab or both materials the component disables itself
        and creates nothing; otherwise InitializePool fills the pool. */
    constructor (gridManager: GridManager?, hasPrefab: bool, hasMaterials: bool, hasRenderer: bool, initialPoolSize: int)
      ensures PoolValid()
      ensures Displayed()
      ensures this.gridManager == gridManager && this.initialPoolSize == initialPoolSize && this.hasRenderer == hasRenderer
      ensures !isShowing && !isIndicatorTemporarilyHidden && hiddenIndicatorPos == NoCell && activeIndicators == map[]
      ensures enabled <==> gridManager != null && hasPrefab && hasMaterials
      ensures enabled ==>
        pooledIndicators == Fresh(0, Max0(initialPoolSize)) && availableIndicators == pooledIndicators
      ensures !enabled ==> pooledIndicators == [] && availableIndicators == []
      ensures visible == {}
    {
      this.gridManager := gridManager;
      this.initialPoolSize := initialPoolSize;
      this.hasRenderer := hasRenderer;
      enabled := gridManager != null && hasPrefab && hasMaterials;
      isShowing, hiddenIndicatorPos, isIndicatorTemporarilyHidden := false, NoCell, false;
      pooledIndicators, activeIndicators, availableIndicators := [], map[], [];
      visible, showsAvailable, nextId := {}, map[], 0;
      new;
      if enabled {
        FillPool();
      }
    }

    /** InitializePool on a pool whose bookkeeping holds keeps it holding. */
    method FillPool()
      requires PoolValid()
      modifies this`pooledIndicators, this`availableIndicators, this`nextId
      ensures PoolValid()
      ensures pooledIndicators == old(pooledIndicators) + Fresh(old(nextId), Max0(initialPoolSize))
      ensures availableIndicators == old(availableIndicators) + Fresh(old(nextId), Max0(initialPoolSize))
      ensures nextId == old(nextId) + Max0(initialPoolSize)
    {
      ghost var pooled0, available0, next0 := pooledIndicators, availableIndicators, nextId;
      InitializePool();
      PoolCreateQueuedMany(pooled0, available0, activeIndicators, visible, next0, Max0(initialPoolSize),
                           pooledIndicators, availableIndicators, nextId);
    }

    /** Creates `initialPoolSize` new indicators, all inactive, appended in creation order both to the
        pooled list and to the available queue. */
    method InitializePool()
      modifies this`pooledIndicators, this`availableIndicators, this`nextId
      ensures pooledIndicators == old(pooledIndicators) + Fresh(old(nextId), Max0(initialPoolSize))
      ensures availableIndicators == old(availableIndicators) + Fresh(old(nextId), Max0(initialPoolSize))
      ensures nextId == old(nextId) + Max0(initialPoolSize)
    {
      var i := 0;
      while i < initialPoolSize
        invariant 0 <= i <= Max0(initialPoolSize)
        invariant nextId == old(nextId) + i
        invariant pooledIndicators == old(pooledIndicators) + Fresh(old(nextId), i)
        invariant availableIndicators == old(availableIndicators) + Fresh(old(nextId), i)
      {
        var indicator := CreateQueuedIndicator();
        assert Fresh(old(nextId), i + 1) == Fresh(old(nextId), i) + [indicator];
        i := i + 1;
      }
    }

    /** One pass of InitializePool's loop: a new indicator, inactive, at the back of both lists. */
    method CreateQueuedIndicator() returns (indicator: ObjId)
      modifies this`pooledIndicators, this`availableIndicators, this`nextId
      ensures indicator == old(nextId) && nextId == old(nextId) + 1
      ensures pooledIndicators == old(pooledIndicators) + [indicator]
      ensures availableIndicators == old(availableIndicators) + [indicator]
    {
      indicator := nextId;
      nextId := nextId + 1;
      pooledIndicators := pooledIndicators + [indicator];
      availableIndicators := availableIndicators + [indicator];
    }

    /** Never fails: the front of the available queue when there is one, otherwise a newly created indicator
        added to the pooled list; either way it is made active. */
    method GetPooledIndicator() returns (indicator: ObjId)
      modifies this`pooledIndicators, this`availableIndicators, this`visible, this`nextId
      ensures indicator in visible && visible == old(visible) + {indicator}
      ensures |old(availableIndicators)| > 0 ==>
        indicator == old(availableIndicators)[0] && availableIndicators == old(availableIndicators)[1..] &&
        pooledIndicators == old(pooledIndicators) && nextId == old(nextId)
      ensures |old(availableIndicators)| == 0 ==>
        indicator == old(nextId) && nextId == old(nextId) + 1 &&
        pooledIndicators == old(pooledIndicators) + [indicator] && availableIndicators == old(availableIndicators)
    {
      if |availableIndicators| > 0 {
        indicator := availableIndicators[0];
        availableIndicators := availableIndicators[1..];
      } else {
        indicator := nextId;
        nextId := nextId + 1;
        pooledIndicators := pooledIndicators + [indicator];
      }
      visible := visible + {indicator};
    }

    /** Deactivates the indicator and puts it at the back of the available queue. */
    method ReturnIndicatorToPool(indicator: ObjId)
      modifies this`availableIndicators, this`visible
      ensures visible == old(visible) - {indicator}
      ensures availableIndicators == old(availableIndicators) + [indicator]
    {
      visible := visible - {indicator};
      availableIndicators := availableIndicators + [indicator];
    }

    /** Returns every laid indicator to the back of the queue (the queue's old contents stay in front) and
        empties the map; nothing is created or destroyed. */
    method ClearIndicators()
      requires PoolValid()
      modifies this`availableIndicators, this`activeIndicators, this`visible
      ensures PoolValid()
      ensures activeIndicators == map[] && |availableIndicators| == |pooledIndicators|
      ensures |old(availableIndicators)| <= |availableIndicators|
      ensures availableIndicators[..|old(availableIndicators)|] == old(availableIndicators)
      ensures forall p :: p in old(activeIndicators) ==>
        old(activeIndicators)[p] in availableIndicators && old(activeIndicators)[p] !in visible
    {
      while activeIndicators != map[]
        invariant PoolValid()
        invariant ClearedSoFar(old(activeIndicators), old(availableIndicators), activeIndicators, availableIndicators, visible)
        decreases |activeIndicators|
      {
        var p :| p in activeIndicators;
        ClearCell(p, old(activeIndicators), old(availableIndicators));
      }
    }

    /** One pass of ClearIndicators' loop: the indicator of cell `p` goes back to the queue and the cell
        leaves the map. */
    method ClearCell(p: Vec2Int, ghost active0: map<Vec2Int, ObjId>, ghost available0: seq<ObjId>)
      requires PoolValid() && p in activeIndicators
      requires ClearedSoFar(active0, available0, activeIndicators, availableIndicators, visible)
      modifies this`availableIndicators, this`activeIndicators, this`visible
      ensures PoolValid()
      ensures ClearedSoFar(active0, available0, activeIndicators, availableIndicators, visible)
      ensures |activeIndicators| < |old(activeIndicators)|
    {
      ghost var available, active, shown := availableIndicators, activeIndicators, visible;
      ReturnIndicatorToPool(activeIndicators[p]);
      activeIndicators := activeIndicators - {p};
      ClearStep(pooledIndicators, available, active, shown, nextId, active0, available0, p, availableIndicators, activeIndicators, visible);
    }

    /** Lays one indicator on every cell of the grid, gives each the material its cell's buildability calls
        for, and keeps the preview cell hidden. A no-op when already showing, without a GridManager or when
        disabled. */
    method ShowVisualization()
      requires PoolValid() && Displayed()
      modifies this`isShowing, this`pooledIndicators, this`availableIndicators, this`activeIndicators, this`visible, this`nextId, this`showsAvailable
      ensures PoolValid()
      ensures Displayed()
      ensures old(isShowing) || gridManager == null || !enabled ==> unchanged(this)
      ensures !(old(isShowing) || gridManager == null || !enabled) ==>
        isShowing &&
        (forall p :: p in activeIndicators <==> InBounds(p, gridManager.gridSize)) &&
        (hasRenderer ==> forall p :: p in activeIndicators ==>
           activeIndicators[p] in showsAvailable && showsAvailable[activeIndicators[p]] == gridManager.IsCellBuildable(p)) &&
        hiddenIndicatorPos == old(hiddenIndicatorPos) && isIndicatorTemporarilyHidden == old(isIndicatorTemporarilyHidden)
    {
      if isShowing || gridManager == null || !enabled {
        return;
      }
      isShowing := true;
      Relay();
    }

    /** ShowVisualization's work once it goes ahead: the laid indicators go back to the pool, every cell of
        the grid gets one with its cell's material, and the hidden preview cell stays hidden. */
    method Relay()
      requires gridManager != null
      requires PoolValid() && Displayed()
      modifies this`pooledIndicators, this`availableIndicators, this`activeIndicators, this`visible, this`nextId
      modifies this`showsAvailable
      ensures PoolValid()
      ensures Displayed()
      ensures forall p :: p in activeIndicators <==> InBounds(p, gridManager.gridSize)
      ensures hasRenderer ==> forall p :: p in activeIndicators ==>
        activeIndicators[p] in showsAvailable && showsAvailable[activeIndicators[p]] == gridManager.IsCellBuildable(p)
    {
      ClearIndicators();
      LayAll();
      UpdateHiddenIndicatorVisibility();
    }

    /** ShowVisualization's nested loops over the grid, starting from an empty map: afterwards every cell of
        the grid, and nothing else, has an active indicator with its cell's material. */
    method LayAll()
      requires gridManager != null
      requires PoolValid() && activeIndicators == map[]
      modifies this`pooledIndicators, this`availableIndicators, this`activeIndicators, this`visible, this`nextId, this`showsAvailable
      ensures PoolValid() && AllShown(activeIndicators, visible)
      ensures forall p :: p in activeIndicators <==> InBounds(p, gridManager.gridSize)
      ensures hasRenderer ==> forall p :: p in activeIndicators ==>
        activeIndicators[p] in showsAvailable && showsAvailable[activeIndicators[p]] == gridManager.IsCellBuildable(p)
    {
      var size := gridManager.gridSize;
      ghost var buildable := imap p | true :: gridManager.IsCellBuildable(p);
      var x := 0;
      while x < size.x
        invariant 0 <= x && (x <= size.x || x == 0)
        invariant PoolValid()
        invariant LaidCells(activeIndicators, x, 0, size)
        invariant AllShown(activeIndicators, visible)
        invariant hasRenderer ==> Materials(activeIndicators, showsAvailable, buildable)
      {
        LayColumn(x, size, buildable);
        x := x + 1;
      }
      AllColumns(activeIndicators, x, size);
    }

    /** ShowVisualization's inner loop: lays column `x`, cell by cell from y = 0. */
    method LayColumn(x: int, size: Vec2Int, ghost buildable: imap<Vec2Int, bool>)
      requires gridManager != null && 0 <= x
      requires forall p :: p in buildable && buildable[p] == gridManager.IsCellBuildable(p)
      requires PoolValid() && LaidCells(activeIndicators, x, 0, size) && AllShown(activeIndicators, visible)
      requires hasRenderer ==> Materials(activeIndicators, showsAvailable, buildable)
      modifies this`pooledIndicators, this`availableIndicators, this`activeIndicators, this`visible, this`nextId, this`showsAvailable
      ensures PoolValid() && LaidCells(activeIndicators, x + 1, 0, size) && AllShown(activeIndicators, visible)
      ensures hasRenderer ==> Materials(activeIndicators, showsAvailable, buildable)
    {
      var y := 0;
      while y < size.y
        invariant 0 <= y && (y <= size.y || y == 0)
        invariant PoolValid()
        invariant LaidCells(activeIndicators, x, y, size)
        invariant AllShown(activeIndicators, visible)
        invariant hasRenderer ==> Materials(activeIndicators, showsAvailable, buildable)
      {
        LayCellAt(x, y, size, buildable);
        y := y + 1;
      }
      NextColumn(activeIndicators, x, y, size);
    }

    /** One pass of the inner loop: lays cell (x, y) with its material. */
    method LayCellAt(x: int, y: int, size: Vec2Int, ghost buildable: imap<Vec2Int, bool>)
      requires gridManager != null && 0 <= y
      requires forall p :: p in buildable && buildable[p] == gridManager.IsCellBuildable(p)
      requires PoolValid() && LaidCells(activeIndicators, x, y, size) && AllShown(activeIndicators, visible)
      requires hasRenderer ==> Materials(activeIndicators, showsAvailable, buildable)
      modifies this`pooledIndicators, this`availableIndicators, this`activeIndicators, this`visible, this`nextId, this`showsAvailable
      ensures PoolValid() && LaidCells(activeIndicators, x, y + 1, size) && AllShown(activeIndicators, visible)
      ensures hasRenderer ==> Materials(activeIndicators, showsAvailable, buildable)
    {
      var gridPos := Vec2Int(x, y);
      var isBuildable := gridManager.IsCellBuildable(gridPos);
      ghost var active := activeIndicators;
      var indicator := LayIndicator(gridPos, isBuildable, buildable);
      LayCell(active, x, y, size, activeIndicators);
    }

    /** ShowVisualization's GetPooledIndicator and map entry for the new cell `gridPos`. */
    method LayIndicator(gridPos: Vec2Int, isBuildable: bool, ghost buildable: imap<Vec2Int, bool>) returns (indicator: ObjId)
      requires PoolValid() && gridPos !in activeIndicators && AllShown(activeIndicators, visible)
      requires hasRenderer ==> Materials(activeIndicators, showsAvailable, buildable)
      requires gridPos in buildable && buildable[gridPos] == isBuildable
      modifies this`pooledIndicators, this`availableIndicators, this`activeIndicators, this`visible, this`nextId, this`showsAvailable
      ensures PoolValid() && AllShown(activeIndicators, visible)
      ensures hasRenderer ==> Materials(activeIndicators, showsAvailable, buildable)
      ensures activeIndicators == old(activeIndicators)[gridPos := indicator]
      ensures showsAvailable == if hasRenderer then old(showsAvailable)[indicator := isBuildable] else old(showsAvailable)
    {
      ghost var pooled, available, active, shown, id :=
        pooledIndicators, availableIndicators, activeIndicators, visible, nextId;
      indicator := GetPooledIndicator();
      activeIndicators := activeIndicators[gridPos := indicator];
      LayStep(pooled, available, active, shown, id, gridPos, indicator,
              pooledIndicators, availableIndicators, activeIndicators, visible, nextId);
      if hasRenderer {
        ghost var shows := showsAvailable;
        showsAvailable := showsAvailable[indicator := isBuildable];
        MaterialStep(active, shows, buildable, gridPos, indicator, activeIndicators, showsAvailable);
      }
    }

    /** Re-hides the preview cell's indicator, if a cell is hidden. */
    method UpdateHiddenIndicatorVisibility()
      requires PoolValid() && AllShown(activeIndicators, visible)
      modifies this`visible
      ensures PoolValid() && Displayed()
      ensures isIndicatorTemporarilyHidden ==> HidesAt(old(visible), hiddenIndicatorPos)
      ensures !isIndicatorTemporarilyHidden ==> visible == old(visible)
    {
      if isIndicatorTemporarilyHidden {
        HideIndicatorAt(hiddenIndicatorPos);
      }
    }

    /** `visible` is `before` with the indicator laid on `gridPos`, if any, deactivated. */
    ghost predicate HidesAt(before: set<ObjId>, gridPos: Vec2Int)
      reads this
    {
      visible == before - (if gridPos in activeIndicators then {activeIndicators[gridPos]} else {})
    }

    method HideIndicatorAt(gridPos: Vec2Int)
      requires PoolValid() && AllShown(activeIndicators, visible)
      modifies this`visible
      ensures PoolValid() && ShowsAllBut(activeIndicators, visible, true, gridPos)
      ensures HidesAt(old(visible), gridPos)
    {
      ghost var shown := visible;
      if gridPos in activeIndicators {
        visible := visible - {activeIndicators[gridPos]};
      }
      PoolHide(pooledIndicators, availableIndicators, activeIndicators, shown, nextId, visible);
      Rehide(activeIndicators, shown, true, gridPos, visible);
    }

    /** Re-shows the hidden cell's indicator, if any, and forgets the hidden cell: afterwards every laid
        indicator is active. */
    method ShowTemporarilyHiddenIndicator()
      requires PoolValid() && Displayed()
      modifies this`visible, this`isIndicatorTemporarilyHidden, this`hiddenIndicatorPos
      ensures PoolValid()
      ensures Displayed()
      ensures !isIndicatorTemporarilyHidden && hiddenIndicatorPos == NoCell
      ensures forall p :: p in activeIndicators ==> activeIndicators[p] in visible
    {
      ghost var shown := visible;
      if isIndicatorTemporarilyHidden && hiddenIndicatorPos in activeIndicators {
        visible := visible + {activeIndicators[hiddenIndicatorPos]};
        PoolShow(pooledIndicators, availableIndicators, activeIndicators, shown, nextId, hiddenIndicatorPos, visible);
      }
      Unhide(activeIndicators, shown, isIndicatorTemporarilyHidden, hiddenIndicatorPos, visible);
      isIndicatorTemporarilyHidden := false;
      hiddenIndicatorPos := NoCell;
    }

    /** While showing: the previously hidden cell is shown again and the new cell is hidden and remembered.
        Otherwise nothing happens. */
    method SetPreviewPosition(newPreviewPos: Vec2Int)
      requires PoolValid() && Displayed()
      modifies this`visible, this`isIndicatorTemporarilyHidden, this`hiddenIndicatorPos
      ensures PoolValid()
      ensures Displayed()
      ensures !old(isShowing) || !enabled ==> unchanged(this)
      ensures old(isShowing) && enabled ==>
        isIndicatorTemporarilyHidden && hiddenIndicatorPos == newPreviewPos &&
        (newPreviewPos in activeIndicators ==> activeIndicators[newPreviewPos] !in visible) &&
        (forall p :: p in activeIndicators && p != newPreviewPos ==> activeIndicators[p] in visible)
    {
      if !isShowing || !enabled {
        return;
      }
      MovePreview(newPreviewPos);
    }

    /** SetPreviewPosition's work while showing: the old hidden cell is shown, the new one hidden and
        remembered. */
    method MovePreview(newPreviewPos: Vec2Int)
      requires PoolValid() && Displayed()
      modifies this`visible, this`isIndicatorTemporarilyHidden, this`hiddenIndicatorPos
      ensures PoolValid()
      ensures Displayed()
      ensures isIndicatorTemporarilyHidden && hiddenIndicatorPos == newPreviewPos
    {
      ShowTemporarilyHiddenIndicator();
      HideIndicatorAt(newPreviewPos);
      RememberHidden(newPreviewPos);
    }

    /** SetPreviewPosition's last two assignments: `gridPos` becomes the hidden cell. */
    method RememberHidden(gridPos: Vec2Int)
      requires PoolValid() && ShowsAllBut(activeIndicators, visible, true, gridPos)
      modifies this`isIndicatorTemporarilyHidden, this`hiddenIndicatorPos
      ensures PoolValid() && Displayed()
      ensures isIndicatorTemporarilyHidden && hiddenIndicatorPos == gridPos
    {
      hiddenIndicatorPos := gridPos;
      isIndicatorTemporarilyHidden := true;
    }

    /** While showing and enabled: every laid indicator goes back to the available queue, inactive, and the
        hidden cell is forgotten. Otherwise nothing happens. */
    method HideVisualization()
      requires PoolValid() && Displayed()
      modifies this`isShowing, this`availableIndicators, this`activeIndicators, this`visible, this`isIndicatorTemporarilyHidden, this`hiddenIndicatorPos
      ensures PoolValid()
      ensures Displayed()
      ensures !old(isShowing) || !enabled ==> unchanged(this)
      ensures old(isShowing) && enabled ==>
        !isShowing && activeIndicators == map[] && |availableIndicators| == |pooledIndicators| &&
        (forall p :: p in old(activeIndicators) ==>
           old(activeIndicators)[p] in availableIndicators && old(activeIndicators)[p] !in visible) &&
        !isIndicatorTemporarilyHidden && hiddenIndicatorPos == NoCell
    {
      if !isShowing || !enabled {
        return;
      }
      Hide();
    }

    /** HideVisualization past its guard. The hidden-cell reset, which follows ClearIndicators in the
        source, touches nothing ClearIndicators reads or writes, so it is done first here. */
    method Hide()
      requires PoolValid()
      modifies this`isShowing, this`availableIndicators, this`activeIndicators, this`visible, this`isIndicatorTemporarilyHidden, this`hiddenIndicatorPos
      ensures PoolValid()
      ensures !isShowing && activeIndicators == map[] && |availableIndicators| == |pooledIndicators|
      ensures forall p :: p in old(activeIndicators) ==>
        old(activeIndicators)[p] in availableIndicators && old(activeIndicators)[p] !in visible
      ensures !isIndicatorTemporarilyHidden && hiddenIndicatorPos == NoCell
    {
      isShowing := false;
      isIndicatorTemporarilyHidden := false;
      hiddenIndicatorPos := NoCell;
      ClearIndicators();
    }
  }
}
