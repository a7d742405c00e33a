/** EnemySpawner: waves of enemy groups spawned one at a time, the gold reward at the end of each wave and
    the timed gap before the next one. Coroutines are kept as pending timers (`Routine`); which timer
    expires next is decided by the caller through `Resume`. */
module Waves {
  import opened Common
  import opened Economy
  import opened Enemies

  datatype WaveEnemyGroup = WaveEnemyGroup(enemyConfig: Option<EnemyConfig>, count: int)

  /** A wave (serialized defaults: 1 s between spawns, 5 s to the next wave, 50 gold). */
  datatype Wave = Wave(enemyGroups: seq<WaveEnemyGroup>, timeBetweenSpawns: real, timeToNextWave: real,
                       waveGoldReward: int)

  /** What PathManager.Instance offers: no instance, or its point array (null until generated). */
  datatype PathService = NoPathManager | PathManager(points: Option<seq<Vec3>>)

  /** One Instantiate of an enemy prefab: where it appears, its config, and the path handed to
      Enemy.Initialize (None when the prefab has no Enemy component). */
  datatype Spawn = Spawn(spawnPoint: Vec3, config: EnemyConfig, path: Option<seq<Vec3>>)

  /** A suspended SpawnWave coroutine: waiting after spawning enemy `index` of group `group`, or waiting
      out the gap after the wave. */
  datatype Routine =
    | SpawnWait(wave: Wave, group: nat, index: nat)
    | GapWait(wave: Wave)

  function Count(groups: seq<WaveEnemyGroup>, g: nat): int
  {
    if g < |groups| then groups[g].count else 0
  }

  /** The first spawn position at or after enemy `i` of group `g`, in the order of the nested loops. */
  function FirstFrom(groups: seq<WaveEnemyGroup>, g: nat, i: nat): (r: Option<(nat, nat)>)
    ensures r.Some? ==> g <= r.value.0 < |groups| && r.value.1 < groups[r.value.0].count
    ensures r.Some? && r.value.0 == g ==> r.value.1 == i
    ensures i < Count(groups, g) ==> r == Some((g, i))
    ensures r.Some? && r.value.0 > g ==> Count(groups, g) <= i
    ensures r.Some? && r.value.0 > g ==> r.value.1 == 0
    ensures r.Some? ==> forall h :: g < h < r.value.0 ==> groups[h].count <= 0
    ensures r.None? ==> Count(groups, g) <= i && forall h :: g < h < |groups| ==> groups[h].count <= 0
    decreases |groups| - g
  {
    if g >= |groups| then None
    else if i < groups[g].count then Some((g, i))
    else FirstFrom(groups, g + 1, 0)
  }

  /** The group of every enemy SpawnWave spawns from position (g, i) on, in order. */
  function Walk(groups: seq<WaveEnemyGroup>, g: nat, i: nat): seq<nat>
    decreases |groups| - g, Count(groups, g) - i
  {
    match FirstFrom(groups, g, i)
    case None => []
    case Some((g', i')) => [g'] + Walk(groups, g', i' + 1)
  }

  function Repeat(g: nat, n: int): (r: seq<nat>)
    ensures |r| == Max0(n)
    ensures forall k :: 0 <= k < |r| ==> r[k] == g
  {
    if n <= 0 then [] else [g] + Repeat(g, n - 1)
  }

  /** The reference order: group g's index repeated count times, group after group. */
  function Flatten(groups: seq<WaveEnemyGroup>, g: nat): seq<nat>
    decreases |groups| - g
  {
    if g >= |groups| then [] else Repeat(g, groups[g].count) + Flatten(groups, g + 1)
  }

  function TotalEnemies(groups: seq<WaveEnemyGroup>, g: nat): int
    decreases |groups| - g
  {
    if g >= |groups| then 0 else Max0(groups[g].count) + TotalEnemies(groups, g + 1)
  }

  /** Past the end of group g, the walk carries on with group g + 1 from its start. */
  lemma WalkNextGroup(groups: seq<WaveEnemyGroup>, g: nat, i: nat)
    requires g < |groups| && i >= groups[g].count
    ensures Walk(groups, g, i) == Walk(groups, g + 1, 0)
  {
    assert FirstFrom(groups, g, i) == FirstFrom(groups, g + 1, 0);
  }

  /** Within group g, the walk spawns one enemy of group g and moves to the next enemy of the group. */
  lemma WalkInGroup(groups: seq<WaveEnemyGroup>, g: nat, i: nat)
    requires g < |groups| && i < groups[g].count
    ensures Walk(groups, g, i) == [g] + Walk(groups, g, i + 1)
  {
    assert FirstFrom(groups, g, i) == Some((g, i));
  }

  /** From the start of group g, the spawns are every group from g on in full. */
  lemma {:induction false} WalkFromGroup(groups: seq<WaveEnemyGroup>, g: nat)
    requires g <= |groups|
    ensures Walk(groups, g, 0) == Flatten(groups, g)
    decreases |groups| - g, Max0(Count(groups, g)) + 2
  {
    if g < |groups| {
      WalkIsFlatten(groups, g, 0);
    }
  }

  /** From enemy i of group g on (i within the group), the spawns are the rest of group g followed by
      every later group in full. */
  lemma {:induction false} WalkIsFlatten(groups: seq<WaveEnemyGroup>, g: nat, i: nat)
    requires g < |groups| && i <= Max0(groups[g].count)
    ensures Walk(groups, g, i) == Repeat(g, groups[g].count - i) + Flatten(groups, g + 1)
    decreases |groups| - g, Max0(Count(groups, g)) - i + 1
  {
    if i < groups[g].count {
      WalkInGroup(groups, g, i);
      WalkIsFlatten(groups, g, i + 1);
      var rest := Repeat(g, groups[g].count - (i + 1));
      assert Repeat(g, groups[g].count - i) == [g] + rest;
      assert [g] + (rest + Flatten(groups, g + 1)) == [g] + rest + Flatten(groups, g + 1);
    } else {
      WalkNextGroup(groups, g, i);
      WalkFromGroup(groups, g + 1);
      assert Repeat(g, groups[g].count - i) == [];
    }
  }

  /** A whole wave spawns exactly the reference order: each group's enemies in group order, count times
      each (a non-positive count spawns none). */
  lemma WaveSpawnsFlatten(groups: seq<WaveEnemyGroup>)
    ensures Walk(groups, 0, 0) == Flatten(groups, 0)
  {
    WalkFromGroup(groups, 0);
  }

  /** The number of enemies a wave spawns is the sum of its positive group counts. */
  lemma {:induction false} FlattenLength(groups: seq<WaveEnemyGroup>, g: nat)
    ensures |Flatten(groups, g)| == TotalEnemies(groups, g)
    decreases |groups| - g
  {
    if g < |groups| {
      FlattenLength(groups, g + 1);
    }
  }

  /** GetEnemyHeight: the mesh renderer's height, or 1 when there is none. */
  function EnemyHeight(p: EnemyPrefab): real
  {
    match p.meshHeight
    case None => 1.0
    case Some(h) => h
  }

  /** The path moved to height `h`, keeping every point's x and z. */
  function Adjusted(points: seq<Vec3>, h: real): (r: seq<Vec3>)
    ensures |r| == |points|
    ensures forall k :: 0 <= k < |r| ==> r[k] == Vec3(points[k].x, h, points[k].z)
  {
    seq(|points|, k requires 0 <= k < |points| => Vec3(points[k].x, h, points[k].z))
  }

  /** What SpawnEnemy instantiates for a group, if anything. */
  function SpawnOf(group: WaveEnemyGroup, svc: PathService): Option<Spawn>
  {
    if group.enemyConfig.None? || group.enemyConfig.value.prefab.None? || svc.NoPathManager? then None
    else if svc.points.None? || |svc.points.value| == 0 then None
    else
      var config := group.enemyConfig.value;
      var prefab := config.prefab.value;
      var points := svc.points.value;
      var h := EnemyHeight(prefab) / 2.0;
      Some(Spawn(Vec3(points[0].x, h, points[0].z), config,
                 if prefab.hasEnemyComponent then Some(Adjusted(points, h)) else None))
  }

  /** An enemy is instantiated exactly when config, prefab, path manager and a non-empty path exist. It
      appears at height h/2, for its mesh height h, over the first path point's x and z (that point's own
      height is discarded); its path has one point per path point at that height, and it starts on the first of them (Initialize's precondition holds). */
  lemma SpawnOfCases(group: WaveEnemyGroup, svc: PathService)
    ensures SpawnOf(group, svc).Some? <==>
      group.enemyConfig.Some? && group.enemyConfig.value.prefab.Some? && svc.PathManager? &&
      svc.points.Some? && |svc.points.value| > 0
    ensures SpawnOf(group, svc).Some? ==>
      var s := SpawnOf(group, svc).value;
      var h := EnemyHeight(group.enemyConfig.value.prefab.value) / 2.0;
      s.config == group.enemyConfig.value &&
      s.spawnPoint == Vec3(svc.points.value[0].x, h, svc.points.value[0].z) &&
      (s.path.Some? <==> group.enemyConfig.value.prefab.value.hasEnemyComponent) &&
      (s.path.Some? ==>
         |s.path.value| == |svc.points.value| >= 1 && s.path.value[0] == s.spawnPoint &&
         forall k :: 0 <= k < |s.path.value| ==> s.path.value[k].y == h)
  {
  }

  predicate WellFormed(r: Routine)
  {
    r.SpawnWait? ==> r.group < |r.wave.enemyGroups| && r.index < r.wave.enemyGroups[r.group].count
  }

  function Remove(rs: seq<Routine>, k: nat): seq<Routine>
    requires k < |rs|
  {
    rs[..k] + rs[k + 1..]
  }

  /** SpawnEnemy: builds the height-adjusted path with a loop over the path points. */
  method SpawnEnemy(group: WaveEnemyGroup, svc: PathService) returns (s: Option<Spawn>)
    ensures s == SpawnOf(group, svc)
  {
    if group.enemyConfig.None? || group.enemyConfig.value.prefab.None? || svc.NoPathManager? {
      return None;
    }
    if svc.points.None? || |svc.points.value| == 0 {
      return None;
    }
    var config := group.enemyConfig.value;
    var prefab := config.prefab.value;
    var pathPoints := svc.points.value;
    var heightOffset := EnemyHeight(prefab) / 2.0;
    var spawnPoint := Vec3(pathPoints[0].x, heightOffset, pathPoints[0].z);
    if !prefab.hasEnemyComponent {
      return Some(Spawn(spawnPoint, config, None));
    }
    var adjusted := new Vec3[|pathPoints|];
    var i := 0;
    while i < |pathPoints|
      invariant 0 <= i <= |pathPoints|
      invariant forall k :: 0 <= k < i ==> adjusted[k] == Vec3(pathPoints[k].x, heightOffset, pathPoints[k].z)
    {
      adjusted[i] := Vec3(pathPoints[i].x, heightOffset, pathPoints[i].z);
      i := i + 1;
    }
    assert adjusted[..] == Adjusted(pathPoints, heightOffset);
    return Some(Spawn(spawnPoint, config, Some(adjusted[..])));
  }

  class EnemySpawner {
    /** The serialized WaveConfig (None when unassigned) and its waves. */
    const waves: Option<seq<Wave>>
    var currentWave: int
    var isSpawning: bool
    var gameStarted: bool
    var waveTimer: real
    var isWaitingForNextWave: bool
    /** Suspended SpawnWave coroutines, in the order they were started. */
    var routines: seq<Routine>
    /** Every SpawnEnemy call in order, with what it instantiated. */
    var spawnLog: seq<Option<Spawn>>

    /** Spawning is in progress exactly while one (and only one) spawn timer is pending, and never while
        waiting for the next wave; waiting implies a pending gap timer; the wave counter stays within the
        wave list. */
    ghost predicate Valid()
      reads this
    {
      (waves.None? ==> currentWave == 0 && routines == [] && !isSpawning && !isWaitingForNextWave) &&
      (waves.Some? ==> 0 <= currentWave <= |waves.value|) &&
      (forall k :: 0 <= k < |routines| ==> WellFormed(routines[k])) &&
      (isSpawning <==> exists k :: 0 <= k < |routines| && routines[k].SpawnWait?) &&
      (forall j, k :: 0 <= j < |routines| && 0 <= k < |routines| && routines[j].SpawnWait? && routines[k].SpawnWait? ==> j == k) &&
      (isWaitingForNextWave ==> exists k :: 0 <= k < |routines| && routines[k].GapWait?) &&
      (isSpawning ==> !isWaitingForNextWave)
    }

    constructor (waves: Option<seq<Wave>>)
      ensures Valid()
      ensures this.waves == waves && currentWave == 0 && !isSpawning && !gameStarted
      ensures !isWaitingForNextWave && routines == [] && spawnLog == []
    {
      this.waves := waves;
      currentWave, isSpawning, gameStarted := 0, false, false;
      waveTimer, isWaitingForNextWave := 0.0, false;
      routines, spawnLog := [], [];
    }

    /** All waves have been started and none is still spawning. */
    predicate AreWavesComplete()
      reads this
      requires waves.Some?
      ensures AreWavesComplete() ==> IsLastWave()
      ensures Valid() && AreWavesComplete() ==> forall k :: 0 <= k < |routines| ==> routines[k].GapWait?
    {
      currentWave >= |waves.value| && !isSpawning
    }

    /** Every wave has been started (the last one may still be spawning). */
    predicate IsLastWave()
      reads this
      requires waves.Some?
      ensures Valid() ==> (IsLastWave() <==> currentWave == |waves.value|)
    {
      currentWave >= |waves.value|
    }

    /** Update: the countdown runs only while waiting for the next wave. */
    method Update(deltaTime: real)
      modifies this
      ensures isWaitingForNextWave == old(isWaitingForNextWave)
      ensures waveTimer == if old(isWaitingForNextWave) then old(waveTimer) - deltaTime else old(waveTimer)
      ensures currentWave == old(currentWave) && isSpawning == old(isSpawning) && gameStarted == old(gameStarted)
      ensures routines == old(routines) && spawnLog == old(spawnLog)
    {
      if isWaitingForNextWave {
        waveTimer := waveTimer - deltaTime;
      }
    }

    /** The state StartNextWave leaves, given the fields and the ledger before the call: nothing changes
        while spawning or once every wave has started; otherwise the counter moves on and the coroutine of
        wave `currentWave0` has run up to its first wait, either after spawning the wave's first enemy or,
        for a wave with no enemies, after paying the reward and entering the gap wait. */
    predicate NextWaveOutcome(svc: PathService, currentWave0: int, isSpawning0: bool, isWaiting0: bool,
                              waveTimer0: real, routines0: seq<Routine>, spawnLog0: seq<Option<Spawn>>,
                              ledger0: Ledger, ledger: Ledger)
      reads this
      requires waves.Some?
    {
      if 0 <= currentWave0 < |waves.value| && !isSpawning0 then
        var w := waves.value[currentWave0];
        var first := FirstFrom(w.enemyGroups, 0, 0);
        currentWave == currentWave0 + 1 &&
        (first.Some? ==>
          isSpawning && !isWaitingForNextWave && waveTimer == waveTimer0 &&
          routines == routines0 + [SpawnWait(w, first.value.0, first.value.1)] &&
          spawnLog == spawnLog0 + [SpawnOf(w.enemyGroups[first.value.0], svc)] &&
          ledger == ledger0) &&
        (first.None? ==>
          !isSpawning && isWaitingForNextWave && waveTimer == w.timeToNextWave &&
          routines == routines0 + [GapWait(w)] && spawnLog == spawnLog0 &&
          ledger == Credit(ledger0, w.waveGoldReward))
      else
        currentWave == currentWave0 && isSpawning == isSpawning0 && isWaitingForNextWave == isWaiting0 &&
        waveTimer == waveTimer0 && routines == routines0 && spawnLog == spawnLog0 && ledger == ledger0
    }

    /** The first call with a wave config sets the latch and does what StartNextWave does; every other call
        changes nothing. */
    method StartGame(svc: PathService, gm: GameManager)
      requires Valid()
      modifies this, gm
      ensures Valid()
      ensures gameStarted == (old(gameStarted) || waves.Some?)
      ensures old(gameStarted) || waves.None? ==>
        currentWave == old(currentWave) && isSpawning == old(isSpawning) &&
        isWaitingForNextWave == old(isWaitingForNextWave) && waveTimer == old(waveTimer) &&
        routines == old(routines) && spawnLog == old(spawnLog) && gm.State() == old(gm.State())
      ensures !old(gameStarted) && waves.Some? ==>
        NextWaveOutcome(svc, old(currentWave), old(isSpawning), old(isWaitingForNextWave), old(waveTimer),
                        old(routines), old(spawnLog), old(gm.State()), gm.State())
    {
      if !gameStarted && waves.Some? {
        gameStarted := true;
        StartNextWave(svc, gm);
      }
    }

    /** Starts the coroutine of wave `currentWave` when there is one and nothing is spawning. The coroutine
        runs up to its first wait before the counter is incremented: a wave with no enemies pays its reward
        at once and always enters the gap wait, since the counter still names this wave. */
    method StartNextWave(svc: PathService, gm: GameManager)
      requires waves.Some? && Valid()
      modifies this, gm
      ensures Valid() && gameStarted == old(gameStarted)
      ensures NextWaveOutcome(svc, old(currentWave), old(isSpawning), old(isWaitingForNextWave), old(waveTimer),
                              old(routines), old(spawnLog), old(gm.State()), gm.State())
    {
      if currentWave < |waves.value| && !isSpawning {
        var w := waves.value[currentWave];
        isSpawning := true;
        isWaitingForNextWave := false;
        var first := FirstFrom(w.enemyGroups, 0, 0);
        if first.Some? {
          SpawnAndWait(w, first.value.0, first.value.1, svc);
        } else {
          FinishWave(w, gm);
        }
        currentWave := currentWave + 1;
      }
    }

    /** One turn of the coroutine's loop: spawn enemy `i` of group `g`, then wait. */
    method SpawnAndWait(w: Wave, g: nat, i: nat, svc: PathService)
      requires waves.Some? && 0 <= currentWave <= |waves.value|
      requires forall k :: 0 <= k < |routines| ==> WellFormed(routines[k]) && routines[k].GapWait?
      requires isSpawning && !isWaitingForNextWave
      requires g < |w.enemyGroups| && i < w.enemyGroups[g].count
      modifies this
      ensures Valid()
      ensures currentWave == old(currentWave) && gameStarted == old(gameStarted)
      ensures isSpawning && !isWaitingForNextWave && waveTimer == old(waveTimer)
      ensures routines == old(routines) + [SpawnWait(w, g, i)]
      ensures spawnLog == old(spawnLog) + [SpawnOf(w.enemyGroups[g], svc)]
    {
      var s := SpawnEnemy(w.enemyGroups[g], svc);
      spawnLog := spawnLog + [s];
      routines := routines + [SpawnWait(w, g, i)];
      assert routines[|routines| - 1].SpawnWait?;
    }

    /** The end of the coroutine's loop: stop spawning, pay the wave's reward and, while `currentWave` names
        a wave, wait out the gap. */
    method FinishWave(w: Wave, gm: GameManager)
      requires waves.Some? && 0 <= currentWave <= |waves.value|
      requires forall k :: 0 <= k < |routines| ==> WellFormed(routines[k]) && routines[k].GapWait?
      requires isWaitingForNextWave ==> exists k :: 0 <= k < |routines| && routines[k].GapWait?
      modifies this, gm
      ensures Valid()
      ensures currentWave == old(currentWave) && gameStarted == old(gameStarted) && spawnLog == old(spawnLog)
      ensures !isSpawning && gm.State() == Credit(old(gm.State()), w.waveGoldReward)
      ensures currentWave < |waves.value| ==>
        isWaitingForNextWave && waveTimer == w.timeToNextWave && routines == old(routines) + [GapWait(w)]
      ensures currentWave >= |waves.value| ==>
        isWaitingForNextWave == old(isWaitingForNextWave) && waveTimer == old(waveTimer) && routines == old(routines)
    {
      isSpawning := false;
      gm.AddGold(w.waveGoldReward);
      if currentWave < |waves.value| {
        isWaitingForNextWave := true;
        waveTimer := w.timeToNextWave;
        routines := routines + [GapWait(w)];
        assert routines[|routines| - 1].GapWait?;
      }
    }

    /** A spawn wait of the coroutine at enemy `i` of group `g` ends: the next enemy position in loop order
        is spawned, or the wave finishes. */
    method ContinueWave(w: Wave, g: nat, i: nat, svc: PathService, gm: GameManager)
      requires waves.Some? && 0 <= currentWave <= |waves.value|
      requires forall k :: 0 <= k < |routines| ==> WellFormed(routines[k]) && routines[k].GapWait?
      requires isSpawning && !isWaitingForNextWave
      modifies this, gm
      ensures Valid() && gameStarted == old(gameStarted) && currentWave == old(currentWave)
      ensures var next := FirstFrom(w.enemyGroups, g, i + 1);
        (next.Some? ==>
          isSpawning && routines == old(routines) + [SpawnWait(w, next.value.0, next.value.1)] &&
          spawnLog == old(spawnLog) + [SpawnOf(w.enemyGroups[next.value.0], svc)] &&
          gm.State() == old(gm.State()) && !isWaitingForNextWave && waveTimer == old(waveTimer)) &&
        (next.None? ==>
          !isSpawning && spawnLog == old(spawnLog) &&
          gm.State() == Credit(old(gm.State()), w.waveGoldReward) &&
          (currentWave < |waves.value| ==>
             isWaitingForNextWave && waveTimer == w.timeToNextWave && routines == old(routines) + [GapWait(w)]) &&
          (currentWave >= |waves.value| ==>
             !isWaitingForNextWave && waveTimer == old(waveTimer) && routines == old(routines)))
    {
      var next := FirstFrom(w.enemyGroups, g, i + 1);
      if next.Some? {
        SpawnAndWait(w, next.value.0, next.value.1, svc);
      } else {
        FinishWave(w, gm);
      }
    }

    /** The timer of pending routine `k` expires and its coroutine resumes. After a spawn wait the next
        enemy position in loop order is spawned, or the wave finishes; after a gap wait the waiting flag is
        cleared and the next wave is started. */
    method Resume(k: nat, svc: PathService, gm: GameManager)
      requires waves.Some? && Valid() && k < |routines|
      modifies this, gm
      ensures Valid() && gameStarted == old(gameStarted)
      ensures old(routines[k]).SpawnWait? ==>
        var r := old(routines[k]);
        var next := FirstFrom(r.wave.enemyGroups, r.group, r.index + 1);
        currentWave == old(currentWave) &&
        (next.Some? ==>
          isSpawning && routines == Remove(old(routines), k) + [SpawnWait(r.wave, next.value.0, next.value.1)] &&
          spawnLog == old(spawnLog) + [SpawnOf(r.wave.enemyGroups[next.value.0], svc)] &&
          gm.State() == old(gm.State()) && !isWaitingForNextWave && waveTimer == old(waveTimer)) &&
        (next.None? ==>
          !isSpawning && spawnLog == old(spawnLog) &&
          gm.State() == Credit(old(gm.State()), r.wave.waveGoldReward) &&
          (currentWave < |waves.value| ==>
             isWaitingForNextWave && waveTimer == r.wave.timeToNextWave &&
             routines == Remove(old(routines), k) + [GapWait(r.wave)]) &&
          (currentWave >= |waves.value| ==>
             isWaitingForNextWave == old(isWaitingForNextWave) && waveTimer == old(waveTimer) &&
             routines == Remove(old(routines), k)))
      ensures old(routines[k]).GapWait? ==>
        NextWaveOutcome(svc, old(currentWave), old(isSpawning), false, old(waveTimer),
                        Remove(old(routines), k), old(spawnLog), old(gm.State()), gm.State())
    {
      var r := TakeRoutine(k);
      match r {
        case SpawnWait(w, g, i) =>
          ContinueWave(w, g, i, svc, gm);
        case GapWait(w) =>
          StartNextWave(svc, gm);
      }
    }

    /** Routine `k` leaves the pending list; a gap wait also clears the waiting flag. */
    method TakeRoutine(k: nat) returns (r: Routine)
      requires waves.Some? && Valid() && k < |routines|
      modifies this
      ensures r == old(routines[k]) && routines == Remove(old(routines), k)
      ensures currentWave == old(currentWave) && isSpawning == old(isSpawning)
      ensures gameStarted == old(gameStarted) && waveTimer == old(waveTimer) && spawnLog == old(spawnLog)
      ensures r.SpawnWait? ==> isWaitingForNextWave == old(isWaitingForNextWave)
      ensures r.SpawnWait? ==>
        WellFormed(r) && isSpawning && !isWaitingForNextWave && 0 <= currentWave <= |waves.value| &&
        forall j :: 0 <= j < |routines| ==> WellFormed(routines[j]) && routines[j].GapWait?
      ensures r.GapWait? ==> Valid() && !isWaitingForNextWave
    {
      r := routines[k];
      var before := routines;
      var rest := Remove(routines, k);
      assert forall j :: 0 <= j < |rest| ==> rest[j] == if j < k then routines[j] else routines[j + 1];
      routines := rest;
      if r.SpawnWait? {
        assert forall j :: 0 <= j < |routines| ==> routines[j].GapWait?;
      } else {
        if isSpawning {
          var j :| 0 <= j < |before| && before[j].SpawnWait?;
          assert routines[if j < k then j else j - 1].SpawnWait?;
        }
        isWaitingForNextWave := false;
      }
    }
  }
}
