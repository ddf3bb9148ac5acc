/*
 * The engine (js/engine/GameEngine.js): the game state, the spawn and wave
 * counters, the running flag and the lists of enemies, towers and
 * projectiles, changed in place by the player's commands and by the
 * per-tick update. The callbacks the source makes (`onStateUpdate`,
 * `onGameOver`, `onLevelComplete`) are recorded, in order, in `events`.
 */
module Engine {
  import opened Config
  import opened Geometry
  import opened Economy
  import opened Ledger
  import opened Entities

  /** 50 logical pixels, squared: how close two towers may not stand. */
  const TowerSpacingSq: real := 2500.0

  /** 70 logical pixels, squared: the clickable area around the castle. */
  const CastleClickSq: real := 4900.0

  /** 30 logical pixels, squared: the clickable area around a tower. */
  const TowerPickSq: real := 900.0

  /** Some tower of `ts` stands closer than 50 to `p`. */
  predicate Crowded(ts: seq<Tower>, p: Point)
  {
    exists i :: 0 <= i < |ts| && Within(ts[i].Position(), p, TowerSpacingSq)
  }

  /** Towers stand at least 50 apart. */
  predicate Spaced(ts: seq<Tower>)
  {
    forall i, j {:trigger Apart(ts[i], ts[j])} :: 0 <= i < |ts| && 0 <= j < |ts| && i != j ==>
      Apart(ts[i], ts[j])
  }

  /** Two towers stand at least 50 apart. */
  predicate Apart(a: Tower, b: Tower)
  {
    DistSq(a.Position(), b.Position()) >= TowerSpacingSq
  }

  /** `towers.find(...)` for the 30-pixel pick radius, from index `i` on. */
  function FirstTowerNear(ts: seq<Tower>, p: Point, i: nat): (r: Option<Tower>)
    decreases |ts| - i
    ensures r.Some? ==>
      exists k :: (i <= k < |ts| && ts[k] == r.value &&
        Within(r.value.Position(), p, TowerPickSq) &&
        forall j :: i <= j < k ==> !Within(ts[j].Position(), p, TowerPickSq))
    ensures r.None? ==> forall j :: i <= j < |ts| ==> !Within(ts[j].Position(), p, TowerPickSq)
  {
    if i >= |ts| then None
    else if Within(ts[i].Position(), p, TowerPickSq) then Some(ts[i])
    else FirstTowerNear(ts, p, i + 1)
  }

  /** `Array.prototype.indexOf`: the first index of `x`, or -1. */
  function IndexOf<T(==)>(s: seq<T>, x: T): (r: int)
    ensures -1 <= r < |s|
    ensures r == -1 <==> x !in s
    ensures r >= 0 ==> s[r] == x && x !in s[..r]
  {
    if s == [] then -1
    else if s[0] == x then 0
    else var k := IndexOf(s[1..], x); if k == -1 then -1 else k + 1
  }

  /** `splice(i, 1)`: the list without its element at index i. */
  function RemoveAt<T>(s: seq<T>, i: nat): seq<T>
    requires i < |s|
  {
    s[..i] + s[i + 1..]
  }

  /**
   * What the sweep finds for an enemy after its update: reaching the
   * castle counts before being slain.
   */
  function Judge(reached: bool, hp: real, isBoss: bool, reward: int): Fate
  {
    if reached then Breach(isBoss) else if hp <= 0.0 then Slain(reward) else Alive
  }

  function FateOf(e: Enemy): Fate
    reads e`reached, e`hp
  {
    Judge(e.reached, e.hp, e.isBoss, e.reward)
  }

  function Fates(es: seq<Enemy>): (r: seq<Fate>)
    reads es`reached, es`hp
    ensures |r| == |es| && forall i {:trigger r[i]} :: 0 <= i < |es| ==> r[i] == FateOf(es[i])
  {
    if es == [] then [] else [FateOf(es[0])] + Fates(es[1..])
  }

  /** The motions of the enemies, in their order. */
  function Motions(es: seq<Enemy>): (r: seq<Motion>)
    reads es`speed, es`slowTimer, es`offX, es`offY, es`progress, es`reached, es`x, es`y
    ensures |r| == |es| && forall i {:trigger r[i]} :: 0 <= i < |es| ==> r[i] == es[i].State()
  {
    if es == [] then [] else [es[0].State()] + Motions(es[1..])
  }

  /** The projectiles' remaining lives, in their order. */
  function Lives(ps: seq<Projectile>): (r: seq<real>)
    reads ps`life
    ensures |r| == |ps| && forall i {:trigger r[i]} :: 0 <= i < |ps| ==> r[i] == ps[i].life
  {
    if ps == [] then [] else [ps[0].life] + Lives(ps[1..])
  }

  /** Which projectiles are closer than 12 to their targets, in their order. */
  function Arrivals(ps: seq<Projectile>): (r: seq<bool>)
    reads ps`x, ps`y, set p | p in ps :: p.target
    ensures |r| == |ps| && forall i {:trigger r[i]} :: 0 <= i < |ps| ==>
      (r[i] <==> DistSq(ps[i].target.Position(), ps[i].Position()) < 144.0)
  {
    if ps == [] then [] else [DistSq(ps[0].target.Position(), ps[0].Position()) < 144.0] + Arrivals(ps[1..])
  }

  /** Which of the fates leave the enemy on the field. */
  function AliveFlags(fs: seq<Fate>): (r: seq<bool>)
    ensures |r| == |fs| && forall i {:trigger r[i]} :: 0 <= i < |fs| ==> (r[i] <==> fs[i].Alive?)
  {
    if fs == [] then [] else [fs[0].Alive?] + AliveFlags(fs[1..])
  }

  /** Listed enemies are distinct, were spawned here, and move forward. */
  ghost predicate EnemiesOk(es: seq<Enemy>, spawned: set<Enemy>)
    reads es`progress
  {
    && Distinct(es)
    && forall e :: e in es ==>
         e in spawned && e.progress >= 0.0 && e.baseSpeed >= 0.0 && e.reward >= 0
  }

  /** Towers are distinct, spaced, clear of the road, and from the catalogue's mould. */
  ghost predicate TowersOk(ts: seq<Tower>, path: seq<Point>)
  {
    && Distinct(ts) && Spaced(ts)
    && forall t :: t in ts ==>
         t.Valid() && t.towerType.damage >= 0.0 && !OnRoad(path, t.Position())
  }

  /** Projectiles are distinct and aimed at enemies spawned here. */
  ghost predicate ProjectilesOk(ps: seq<Projectile>, spawned: set<Enemy>)
  {
    Distinct(ps) && forall p :: p in ps ==> p.target in spawned
  }

  /** A tower placed clear of the others keeps the towers spaced. */
  lemma SpacedAppend(ts: seq<Tower>, t: Tower)
    requires Spaced(ts) && !Crowded(ts, t.Position())
    ensures Spaced(ts + [t])
  {
    var r := ts + [t];
    forall i, j | 0 <= i < |r| && 0 <= j < |r| && i != j
      ensures Apart(r[i], r[j])
    {
      if j == |ts| {
        assert !Within(ts[i].Position(), t.Position(), TowerSpacingSq);
      } else if i == |ts| {
        assert !Within(ts[j].Position(), t.Position(), TowerSpacingSq);
        DistSqSymmetric(ts[j].Position(), t.Position());
      }
    }
  }

  /** Removing one tower keeps the rest distinct and spaced, and drops only that tower. */
  lemma RemoveKeepsTowers(ts: seq<Tower>, i: nat)
    requires i < |ts| && Distinct(ts) && Spaced(ts)
    ensures Distinct(RemoveAt(ts, i)) && Spaced(RemoveAt(ts, i))
    ensures ts[i] !in RemoveAt(ts, i)
    ensures forall t :: t in RemoveAt(ts, i) ==> t in ts
  {
    var r := RemoveAt(ts, i);
    RemoveAtIndex(ts, i);
    DistinctPairs(ts);
    forall a, b | 0 <= a < |r| && 0 <= b < |r| && a != b
      ensures r[a] != r[b] && Apart(r[a], r[b])
    {
      var x, y := if a < i then a else a + 1, if b < i then b else b + 1;
      assert r[a] == ts[x] && r[b] == ts[y];
    }
    PairsDistinct(r);
    forall k | 0 <= k < |r| ensures r[k] != ts[i] && r[k] in ts {
      var x := if k < i then k else k + 1;
      assert r[k] == ts[x];
    }
  }

  /** The elements left after `RemoveAt(s, i)`: those before i, then those after it. */
  lemma RemoveAtIndex<T>(s: seq<T>, i: nat)
    requires i < |s|
    ensures |RemoveAt(s, i)| == |s| - 1
    ensures forall k {:trigger RemoveAt(s, i)[k]} :: 0 <= k < |s| - 1 ==>
      RemoveAt(s, i)[k] == s[if k < i then k else k + 1]
  {
  }

  /**
   * The sweep's plan: `targets` are the motions the enemies `es` reach
   * from `olds` with one step, `fates` their fates there, and `kept`
   * tells which fates leave the enemy on the field.
   */
  ghost predicate Planned(dt: real, path: seq<Point>, avoid: Enemy -> Point, es: seq<Enemy>, olds: seq<Motion>,
                          targets: seq<Motion>, fates: seq<Fate>, kept: seq<bool>)
    reads es`hp
  {
    && |olds| == |es| && |targets| == |es| && |fates| == |es| && |kept| == |es|
    && dt >= 0.0
    && forall k :: 0 <= k < |es| ==>
         && olds[k].progress >= 0.0 && es[k].baseSpeed >= 0.0
         && targets[k] == Step(olds[k], es[k].baseSpeed, dt, path, avoid(es[k]))
         && fates[k] == Judge(targets[k].reached, es[k].hp, es[k].isBoss, es[k].reward)
         && kept[k] == fates[k].Alive?
  }

  /** The plan the sweep starts from: every enemy's step and fate, computed up front. */
  lemma PlannedAtStart(dt: real, path: seq<Point>, avoid: Enemy -> Point, es: seq<Enemy>, olds: seq<Motion>)
    requires dt >= 0.0 && |olds| == |es|
    requires forall k :: 0 <= k < |es| ==> olds[k].progress >= 0.0 && es[k].baseSpeed >= 0.0
    ensures var targets := Targets(es, olds, dt, path, avoid);
            var fates := Verdicts(es, targets);
            Planned(dt, path, avoid, es, olds, targets, fates, AliveFlags(fates))
  {
  }

  /** The inputs standing for the source's randomness and floating-point steering. */
  datatype TickInputs = TickInputs(
    avoid: Enemy -> Point,
    critRoll: Tower -> bool,
    muzzle: Tower -> Point,
    pursuit: Projectile -> Point)

  class GameEngine {
    const levelIdx: nat
    const level: Level
    /** The level's path scaled to the 1600 x 900 playfield. */
    const path: seq<Point>
    var state: GameState
    var toSpawn: int
    var spawnTimer: real
    var isRunning: bool
    var enemies: seq<Enemy>
    var towers: seq<Tower>
    var projectiles: seq<Projectile>
    var events: seq<Event>
    /** Every enemy this engine ever created, alive or not. */
    ghost var spawned: set<Enemy>

    /** The invariant every command and every tick keeps. */
    ghost predicate Valid()
      reads this, enemies`progress
    {
      && LevelOk()
      && StateValid(state)
      && toSpawn >= 0
      && EnemiesOk(enemies, spawned)
      && TowersOk(towers, path)
      && ProjectilesOk(projectiles, spawned)
    }

    /** The level is a configured one, and its scaled path is usable. */
    ghost predicate LevelOk()
    {
      && WellFormedPath(path) && level.difficultyScale > 0.0
    }

    /** Gold is never negative, the castle's health stays in range, mana in [0, 100]. */
    ghost predicate StateValid(s: GameState)
    {
      && s.gold >= 0
      && 0 <= s.castleHealth <= s.castleMaxHealth
      && s.castleMaxHealth == level.castleMaxHealth
      && 0.0 <= s.mana <= 100.0
    }

    /**
     * A new engine for level `levelIdx`: the caller's state, with the
     * level's maximum castle health, and no entities yet.
     */
    constructor (levelIdx: nat, initial: GameState)
      requires levelIdx < |Levels|
      requires initial.gold >= 0 && 0.0 <= initial.mana <= 100.0
      requires 0 <= initial.castleHealth <= Levels[levelIdx].castleMaxHealth
      ensures Valid()
      ensures this.levelIdx == levelIdx && level == Levels[levelIdx]
      ensures path == ToLogical(level.path)
      ensures state == initial.(castleMaxHealth := Levels[levelIdx].castleMaxHealth)
      ensures enemies == [] && towers == [] && projectiles == [] && events == []
      ensures toSpawn == 0 && spawnTimer == 0.0 && !isRunning
    {
      this.levelIdx := levelIdx;
      level := Levels[levelIdx];
      path := ToLogical(Levels[levelIdx].path);
      state := initial.(castleMaxHealth := Levels[levelIdx].castleMaxHealth);
      toSpawn := 0;
      spawnTimer := 0.0;
      isRunning := false;
      enemies := [];
      towers := [];
      projectiles := [];
      events := [];
      spawned := {};
      LevelPathsWellFormed();
    }

    /** `startWave`: the wave's spawn counter and an immediate first spawn. */
    method StartWave()
      requires Valid()
      modifies this`toSpawn, this`spawnTimer
      ensures Valid()
      ensures toSpawn == WaveSize(state.wave) && spawnTimer == 0.0
    {
      toSpawn := 5 + state.wave * 3;
      spawnTimer := 0.0;
    }

    /** `start` without the animation loop: running, and the current wave begins. */
    method Start()
      requires Valid()
      modifies this`isRunning, this`toSpawn, this`spawnTimer
      ensures Valid()
      ensures isRunning && toSpawn == WaveSize(state.wave) && spawnTimer == 0.0
    {
      isRunning := true;
      StartWave();
    }

    /** A click closer than 70 to the castle, which stands at the path's end. */
    function CheckCastleClick(lx: real, ly: real): (r: bool)
    {
      |path| > 0 && Within(Point(lx, ly), path[|path| - 1], CastleClickSq)
    }

    /**
     * With `d` the source's `Math.hypot` of the click's offset from the
     * path's end, the click hits the castle exactly when the path exists
     * and d < 70.
     */
    lemma CastleClickIsHypot(lx: real, ly: real, d: real)
      requires 0.0 <= d && (|path| > 0 ==> Sq(d) == DistSq(Point(lx, ly), path[|path| - 1]))
      ensures CheckCastleClick(lx, ly) <==> |path| > 0 && d < 70.0
    {
      if |path| > 0 {
        WithinIsDistance(Point(lx, ly), path[|path| - 1], d, 70.0);
      }
    }

    /** The first tower closer than 30 to the click, if any. */
    function FindTowerAt(lx: real, ly: real): Option<Tower>
      reads this`towers
    {
      FirstTowerNear(towers, Point(lx, ly), 0)
    }

    /**
     * Because towers stand at least 50 apart, clicking exactly on a tower
     * finds that tower and no other.
     */
    lemma FindTowerAtOwnPosition(t: Tower)
      requires Valid() && t in towers
      ensures FindTowerAt(t.x, t.y) == Some(t)
    {
      var p := t.Position();
      DistSqPositive(p, p);
      var k :| 0 <= k < |towers| && towers[k] == t;
      assert Within(towers[k].Position(), p, TowerPickSq);
      var r := FindTowerAt(t.x, t.y);
      assert r.Some?;
      var m :| 0 <= m < |towers| && towers[m] == r.value && Within(r.value.Position(), p, TowerPickSq);
      assert m != k ==> Apart(towers[m], towers[k]);
      assert m == k;
    }

    /**
     * `placeTower`: refused where the road runs (closer than 35 to a path
     * segment), next to another tower (closer than 50) or without the
     * gold; otherwise the price is paid and one new tower is appended.
     */
    method PlaceTower(lx: real, ly: real, towerType: TowerType) returns (ok: bool)
      requires Valid() && towerType in TowerTypes
      modifies this`state, this`towers, this`events
      ensures Valid()
      ensures ok <==>
        !OnRoad(path, Point(lx, ly)) && !Crowded(old(towers), Point(lx, ly)) && old(state.gold) >= towerType.cost
      ensures ok ==>
        && |towers| == |old(towers)| + 1 && towers[..|old(towers)|] == old(towers)
        && fresh(towers[|towers| - 1])
        && towers[|towers| - 1].Position() == Point(lx, ly)
        && towers[|towers| - 1].towerType == towerType
        && towers[|towers| - 1].levelIdx == levelIdx
        && towers[|towers| - 1].cooldownTimer == 0.0
        && state == old(state).(gold := old(state.gold) - towerType.cost)
        && events == old(events) + [StateUpdate(state)]
      ensures !ok ==> state == old(state) && towers == old(towers) && events == old(events)
    {
      var p := Point(lx, ly);
      if OnRoad(path, p) {
        return false;
      }
      if Crowded(towers, p) {
        return false;
      }
      if state.gold >= towerType.cost {
        state := state.(gold := state.gold - towerType.cost);
        CatalogueSane();
        var t := new Tower(lx, ly, towerType, levelIdx);
        SpacedAppend(towers, t);
        DistinctAppend(towers, t);
        towers := towers + [t];
        events := events + [StateUpdate(state)];
        return true;
      }
      return false;
    }

    /**
     * `sellTower`: a tower that is not on the field is refused; otherwise
     * half its price, rounded down, is refunded and exactly that tower is
     * removed, the others keeping their order, so it cannot be sold twice.
     */
    method SellTower(tower: Tower) returns (ok: bool)
      requires Valid()
      modifies this`state, this`towers, this`events
      ensures Valid()
      ensures ok <==> tower in old(towers)
      ensures ok ==>
        && towers == RemoveAt(old(towers), IndexOf(old(towers), tower))
        && tower !in towers
        && state == old(state).(gold := old(state.gold) + Refund(tower.towerType.cost))
        && events == old(events) + [StateUpdate(state)]
      ensures !ok ==> state == old(state) && towers == old(towers) && events == old(events)
    {
      var index := IndexOf(towers, tower);
      if index > -1 {
        RefundHalf(tower.towerType.cost);
        state := state.(gold := state.gold + Refund(tower.towerType.cost));
        RemoveKeepsTowers(towers, index);
        towers := RemoveAt(towers, index);
        events := events + [StateUpdate(state)];
        return true;
      }
      return false;
    }

    /**
     * `repairCastle`: refused when the castle is whole or the player has
     * less than 10 gold; otherwise it restores min(missing, 2 * gold, 500)
     * points for half that, rounded up, in gold.
     */
    method RepairCastle() returns (ok: bool)
      requires Valid()
      modifies this`state, this`events
      ensures Valid()
      ensures var missing := old(state.castleMaxHealth - state.castleHealth);
        ok <==> missing > 0 && old(state.gold) >= 10
      ensures ok ==>
        var r := RepairAmount(old(state.castleMaxHealth - state.castleHealth), old(state.gold));
        && state == old(state).(gold := old(state.gold) - RepairCost(r),
                                castleHealth := old(state.castleHealth) + r)
        && events == old(events) + [StateUpdate(state)]
      ensures !ok ==> state == old(state) && events == old(events)
    {
      var missing := state.castleMaxHealth - state.castleHealth;
      if missing <= 0 || state.gold < 10 {
        return false;
      }
      var repair := RepairAmount(missing, state.gold);
      RepairBounds(missing, state.gold);
      var cost := RepairCost(repair);
      state := state.(gold := state.gold - cost, castleHealth := state.castleHealth + repair);
      events := events + [StateUpdate(state)];
      return true;
    }

    /**
     * `castMeteor`: with at least 50 mana, 50 is spent and every enemy on
     * the field loses exactly 500 hit points; no enemy is added or
     * removed. With less, nothing happens.
     */
    method CastMeteor()
      requires Valid()
      modifies this`state, this`events, enemies`hp
      ensures Valid()
      ensures enemies == old(enemies)
      ensures old(state.mana) >= 50.0 ==>
        && state == old(state).(mana := old(state.mana) - 50.0)
        && events == old(events) + [StateUpdate(state)]
        && forall i :: 0 <= i < |enemies| ==> enemies[i].hp == old(enemies[i].hp) - 500.0
      ensures old(state.mana) < 50.0 ==>
        state == old(state) && events == old(events) &&
        forall i :: 0 <= i < |enemies| ==> enemies[i].hp == old(enemies[i].hp)
    {
      if state.mana >= 50.0 {
        state := state.(mana := state.mana - 50.0);
        Bombard(enemies);
        events := events + [StateUpdate(state)];
      }
    }


    /** The stats an enemy is created with. */
    ghost predicate IsNewEnemy(e: Enemy, s: EnemyStats)
      reads e
    {
      && e.hp == s.hp && e.maxHp == s.hp
      && e.speed == s.speed && e.baseSpeed == s.speed
      && e.radius == s.radius && e.reward == s.reward && e.isBoss == s.isBoss
      && e.progress == 0.0 && !e.reached && e.slowTimer == 0.0
    }

    /**
     * `spawnEnemy`: exactly one enemy is appended, with the stats of the
     * current wave and spawn counter.
     */
    method SpawnEnemy()
      requires Valid()
      modifies this`enemies, this`spawned
      ensures Valid()
      ensures |enemies| == |old(enemies)| + 1 && enemies[..|old(enemies)|] == old(enemies)
      ensures fresh(enemies[|enemies| - 1])
      ensures IsNewEnemy(enemies[|enemies| - 1], SpawnStats(state.wave, levelIdx, level.difficultyScale, toSpawn))
      ensures spawned == old(spawned) + {enemies[|enemies| - 1]}
    {
      var s := SpawnStats(state.wave, levelIdx, level.difficultyScale, toSpawn);
      SpawnStatsFacts(state.wave, levelIdx, level.difficultyScale, toSpawn);
      RewardAtLeastBase(state.wave, levelIdx, s.isBoss);
      var e := new Enemy(s.hp, s.speed, s.radius, s.reward, s.isBoss);
      DistinctAppend(enemies, e);
      enemies := enemies + [e];
      spawned := spawned + {e};
    }

    /**
     * The wave director of one tick. While enemies remain to be spawned
     * the spawn timer runs down, and when it is over one enemy is spawned,
     * the counter drops by one and the timer restarts at
     * 1000 - 30 * wave. Once all are spawned and the field is clear, the
     * next wave starts, or, after the last wave, the level is complete and
     * the engine stops.
     */
    method Direct(dt: real)
      requires Valid()
      modifies this`toSpawn, this`spawnTimer, this`enemies, this`spawned, this`state, this`isRunning, this`events
      ensures Valid()
      ensures forall e :: e in spawned ==> e in old(spawned) || fresh(e)
      ensures old(toSpawn) > 0 ==>
        state == old(state) && isRunning == old(isRunning) && events == old(events)
      ensures old(toSpawn) > 0 && old(spawnTimer) - dt <= 0.0 ==>
        && |enemies| == |old(enemies)| + 1 && enemies[..|old(enemies)|] == old(enemies)
        && fresh(enemies[|enemies| - 1])
        && IsNewEnemy(enemies[|enemies| - 1],
             SpawnStats(old(state.wave), levelIdx, level.difficultyScale, old(toSpawn)))
        && toSpawn == old(toSpawn) - 1 && spawnTimer == SpawnInterval(old(state.wave))
      ensures old(toSpawn) > 0 && old(spawnTimer) - dt > 0.0 ==>
        enemies == old(enemies) && toSpawn == old(toSpawn) && spawnTimer == old(spawnTimer) - dt
      ensures old(toSpawn) == 0 && old(enemies) == [] && old(state.wave) < level.waves ==>
        && state == old(state).(wave := old(state.wave) + 1)
        && toSpawn == WaveSize(state.wave) && spawnTimer == 0.0
        && enemies == [] && isRunning == old(isRunning) && events == old(events)
      ensures old(toSpawn) == 0 && old(enemies) == [] && old(state.wave) >= level.waves ==>
        && !isRunning && events == old(events) + [LevelComplete]
        && state == old(state) && toSpawn == 0 && spawnTimer == old(spawnTimer) && enemies == []
      ensures old(toSpawn) == 0 && old(enemies) != [] ==>
        && state == old(state) && toSpawn == 0 && spawnTimer == old(spawnTimer)
        && enemies == old(enemies) && isRunning == old(isRunning) && events == old(events)
    {
      if toSpawn > 0 {
        spawnTimer := spawnTimer - dt;
        if spawnTimer <= 0.0 {
          SpawnEnemy();
          toSpawn := toSpawn - 1;
          spawnTimer := SpawnInterval(state.wave);
        }
      } else if |enemies| == 0 {
        if state.wave < level.waves {
          state := state.(wave := state.wave + 1);
          StartWave();
        } else {
          isRunning := false;
          events := events + [LevelComplete];
        }
      }
    }

    /**
     * The bookkeeping for the enemy at index i once it has moved: one that
     * reached the castle is removed and damages it, ending the game when
     * the castle falls; one with no hit points left is removed and pays
     * its reward; any other stays.
     */
    method Resolve(i: nat, e: Enemy)
      requires i < |enemies| && enemies[i] == e
      modifies this`enemies, this`state, this`isRunning, this`events
      ensures Book(state, isRunning, events) ==
        Ledger.Settle(Book(old(state), old(isRunning), old(events)), FateOf(e))
      ensures enemies == old(enemies[..i]) + ((if FateOf(e).Alive? then [e] else []) + old(enemies[i + 1..]))
    {
      if e.reached {
        var damage := if e.isBoss then 200 else 50;
        state := state.(castleHealth := state.castleHealth - damage);
        enemies := RemoveAt(enemies, i);
        events := events + [StateUpdate(state)];
        if state.castleHealth <= 0 {
          state := state.(castleHealth := 0);
          events := events + [GameOver(false)];
          isRunning := false;
        }
      } else if e.hp <= 0.0 {
        state := state.(gold := state.gold + e.reward);
        enemies := RemoveAt(enemies, i);
        events := events + [StateUpdate(state)];
      } else {
        assert enemies == enemies[..i] + ([e] + enemies[i + 1..]);
      }
    }

    /** One iteration of the sweep: the enemy `e` at index i moves, then is resolved. */
    method SweepOne(i: nat, e: Enemy, dt: real, avoid: Point) returns (ghost after: Motion, ghost f: Fate)
      requires i < |enemies| && enemies[i] == e && dt >= 0.0
      requires e.baseSpeed >= 0.0 && e.progress >= 0.0
      modifies this`enemies, this`state, this`isRunning, this`events
      modifies e`speed, e`slowTimer, e`offX, e`offY, e`progress, e`reached, e`x, e`y
      ensures after == Step(old(e.State()), e.baseSpeed, dt, path, avoid) && e.State() == after
      ensures f == Judge(after.reached, e.hp, e.isBoss, e.reward)
      ensures Book(state, isRunning, events) ==
        Ledger.Settle(Book(old(state), old(isRunning), old(events)), f)
      ensures enemies == old(enemies[..i]) + ((if f.Alive? then [e] else []) + old(enemies[i + 1..]))
    {
      e.Update(dt, path, avoid);
      after := e.State();
      f := FateOf(e);
      Resolve(i, e);
    }

    /**
     * The enemy sweep of one tick, last enemy first: each enemy moves and
     * is then resolved. The fates are those the enemies have after moving;
     * the survivors keep their order, and the state, the running flag and
     * the callbacks come out exactly as the ledger of those fates says.
     */
    method Sweep(dt: real, avoid: Enemy -> Point)
      requires StateValid(state) && EnemiesOk(enemies, spawned) && dt >= 0.0
      modifies this`enemies, this`state, this`isRunning, this`events
      modifies enemies`speed, enemies`slowTimer, enemies`offX, enemies`offY
      modifies enemies`progress, enemies`reached, enemies`x, enemies`y
      ensures StateValid(state) && EnemiesOk(enemies, spawned)
      ensures state.mana == old(state.mana) && state.wave == old(state.wave) && old(events) <= events
      ensures forall e :: e in old(enemies) ==> Moved(e, old(e.State()), dt, path, avoid(e))
      ensures enemies == Keep(old(enemies), AliveFlags(Fates(old(enemies))), 0)
      ensures Book(state, isRunning, events) ==
        SettleAll(Book(old(state), old(isRunning), old(events)), Fates(old(enemies)))
    {
      ghost var es := enemies;
      ghost var b0 := Book(state, isRunning, events);
      ghost var rank := Ranks(es);
      ghost var fates := SweepLoop(dt, avoid, rank);
      assert fates == Fates(es);
      forall e | e in es ensures e.progress >= 0.0 {
        assert Moved(e, old(e.State()), dt, path, avoid(e));
      }
      SweepKeepsState(es, fates, b0);
      SweepKeepsEnemies(es, AliveFlags(fates));
    }

    /** The sweep's ledger keeps the game state valid and only appends callbacks. */
    lemma SweepKeepsState(es: seq<Enemy>, fates: seq<Fate>, b0: Book)
      requires forall e :: e in es ==> e.reward >= 0
      requires |fates| == |es| && forall k :: 0 <= k < |es| ==> fates[k] == FateOf(es[k])
      requires StateValid(b0.state) && Book(state, isRunning, events) == SettleAll(b0, fates)
      ensures StateValid(state)
      ensures state.mana == b0.state.mana && state.wave == b0.state.wave && b0.events <= events
    {
      SettleAllKeepsHealthInRange(b0, fates);
      SettleAllEffect(b0, fates);
      forall k | 0 <= k < |fates| && fates[k].Slain? ensures fates[k].reward >= 0 {
        assert es[k] in es;
      }
      BountyNonNegative(fates);
    }

    /** The survivors of the sweep are still distinct, spawned enemies that move forward. */
    lemma SweepKeepsEnemies(es: seq<Enemy>, kept: seq<bool>)
      requires EnemiesOk(es, spawned) && |kept| == |es|
      requires enemies == Keep(es, kept, 0)
      ensures EnemiesOk(enemies, spawned)
    {
      KeepFacts(es, kept, 0);
    }

    /**
     * The sweep's bookkeeping once the enemies from index i on have been
     * moved and resolved: `targets` are the enemies' motions after one step
     * from `olds`, `fates` their fates then, and `kept` tells which stay.
     */
    ghost predicate Swept(i: nat, dt: real, avoid: Enemy -> Point, es: seq<Enemy>, olds: seq<Motion>,
                          targets: seq<Motion>, fates: seq<Fate>, kept: seq<bool>, b0: Book)
      reads this, es
    {
      && i <= |es| && Planned(dt, path, avoid, es, olds, targets, fates, kept)
      && enemies == es[..i] + Keep(es, kept, i)
      && Book(state, isRunning, events) == SettleFrom(b0, fates, i)
      && (forall k :: 0 <= k < |es| ==> es[k].State() == (if k < i then olds[k] else targets[k]))
    }

    /**
     * One iteration of the sweep loop: with the enemies from index n on
     * swept, the enemy `e` at index n - 1 moves and is resolved.
     */
    method SweepAt(n: nat, e: Enemy, dt: real, avoid: Enemy -> Point, ghost es: seq<Enemy>,
                   ghost olds: seq<Motion>, ghost targets: seq<Motion>, ghost fates: seq<Fate>,
                   ghost kept: seq<bool>, ghost b0: Book, ghost rank: map<Enemy, nat>) returns (i: nat)
      requires 0 < n && Swept(n, dt, avoid, es, olds, targets, fates, kept, b0) && e == es[n - 1]
      requires forall k :: 0 <= k < |es| ==> es[k] in rank && rank[es[k]] == k
      modifies this`enemies, this`state, this`isRunning, this`events
      modifies e`speed, e`slowTimer, e`offX, e`offY, e`progress, e`reached, e`x, e`y
      ensures i == n - 1 && Swept(i, dt, avoid, es, olds, targets, fates, kept, b0)
    {
      i := n - 1;
      SpliceAt(es, i, Keep(es, kept, i + 1));
      label Moving:
      ghost var after, f := SweepOne(i, e, dt, avoid(e));
      forall k | 0 <= k < |es| ensures es[k].State() == (if k < i then olds[k] else targets[k]) {
        if k != i {
          assert rank[es[k]] != rank[e];
          assert es[k].State() == old@Moving(es[k].State());
        }
      }
    }

    /** The loop of the sweep; `fates` are the enemies' fates once moved. */
    method SweepLoop(dt: real, avoid: Enemy -> Point, ghost rank: map<Enemy, nat>) returns (ghost fates: seq<Fate>)
      requires dt >= 0.0
      requires forall k :: 0 <= k < |enemies| ==> enemies[k] in rank && rank[enemies[k]] == k
      requires forall e :: e in enemies ==> e.progress >= 0.0 && e.baseSpeed >= 0.0
      modifies this`enemies, this`state, this`isRunning, this`events
      modifies enemies`speed, enemies`slowTimer, enemies`offX, enemies`offY
      modifies enemies`progress, enemies`reached, enemies`x, enemies`y
      ensures |fates| == |old(enemies)|
      ensures forall k :: 0 <= k < |fates| ==> fates[k] == FateOf(old(enemies)[k])
      ensures forall e :: e in old(enemies) ==> Moved(e, old(e.State()), dt, path, avoid(e))
      ensures enemies == Keep(old(enemies), AliveFlags(fates), 0)
      ensures Book(state, isRunning, events) == SettleAll(Book(old(state), old(isRunning), old(events)), fates)
    {
      ghost var es := enemies;
      ghost var olds := Motions(es);
      ghost var b0 := Book(state, isRunning, events);
      assert forall k :: 0 <= k < |es| ==> es[k] in es;
      ghost var targets := Targets(es, olds, dt, path, avoid);
      fates := Verdicts(es, targets);
      ghost var kept := AliveFlags(fates);
      SweptAtStart(dt, avoid, olds, targets, fates, b0);
      var i: nat := |enemies|;
      while i > 0
        invariant Swept(i, dt, avoid, es, olds, targets, fates, kept, b0)
      {
        i := SweepAt(i, enemies[i - 1], dt, avoid, es, olds, targets, fates, kept, b0, rank);
      }
      SweptAtEnd(dt, avoid, es, olds, targets, fates, b0);
      forall e | e in es ensures Moved(e, old(e.State()), dt, path, avoid(e)) {
        var k :| 0 <= k < |es| && es[k] == e;
      }
    }

    /** The sweep's bookkeeping before its first iteration. */
    lemma SweptAtStart(dt: real, avoid: Enemy -> Point, olds: seq<Motion>, targets: seq<Motion>,
                       fates: seq<Fate>, b0: Book)
      requires dt >= 0.0 && forall e :: e in enemies ==> e.progress >= 0.0 && e.baseSpeed >= 0.0
      requires olds == Motions(enemies)
      requires forall k :: 0 <= k < |enemies| ==> enemies[k] in enemies
      requires targets == Targets(enemies, olds, dt, path, avoid)
      requires fates == Verdicts(enemies, targets) && b0 == Book(state, isRunning, events)
      ensures Swept(|enemies|, dt, avoid, enemies, olds, targets, fates, AliveFlags(fates), b0)
    {
      PlannedAtStart(dt, path, avoid, enemies, olds);
      assert enemies[..|enemies|] == enemies;
    }

    /** What the sweep's bookkeeping amounts to once every enemy is swept. */
    lemma SweptAtEnd(dt: real, avoid: Enemy -> Point, es: seq<Enemy>, olds: seq<Motion>,
                     targets: seq<Motion>, fates: seq<Fate>, b0: Book)
      requires Swept(0, dt, avoid, es, olds, targets, fates, AliveFlags(fates), b0)
      ensures enemies == Keep(es, AliveFlags(fates), 0)
      ensures Book(state, isRunning, events) == SettleAll(b0, fates)
      ensures forall k :: 0 <= k < |es| ==>
        fates[k] == FateOf(es[k]) && Moved(es[k], olds[k], dt, path, avoid(es[k]))
    {
      assert es[..0] + Keep(es, AliveFlags(fates), 0) == Keep(es, AliveFlags(fates), 0);
      SettleFromIsSettleAll(b0, fates, 0);
      assert fates[0..] == fates;
    }

    /**
     * The towers of one tick, in order: each may fire at the enemies left
     * after the sweep. Their projectiles are appended after the existing
     * ones, at most one per tower, each aimed at a listed enemy, and no
     * enemy gains hit points.
     */
    method UpdateTowers(dt: real, critRoll: Tower -> bool, muzzle: Tower -> Point)
      requires TowersOk(towers, path) && ProjectilesOk(projectiles, spawned)
      requires forall e :: e in enemies ==> e in spawned
      modifies this`projectiles, towers`cooldownTimer, towers`recoil, enemies`hp, enemies`slowTimer
      ensures ProjectilesOk(projectiles, spawned)
      ensures old(projectiles) <= projectiles && |projectiles| <= |old(projectiles)| + |towers|
      ensures forall p :: p in projectiles ==> p in old(projectiles) || (fresh(p) && p.target in enemies)
      ensures forall e :: e in enemies ==> e.hp <= old(e.hp)
    {
      var j := 0;
      while j < |towers|
        invariant 0 <= j <= |towers|
        invariant old(projectiles) <= projectiles && |projectiles| <= |old(projectiles)| + j
        invariant forall p :: p in projectiles ==> p in old(projectiles) || (fresh(p) && p.target in enemies)
        invariant ProjectilesOk(projectiles, spawned)
        invariant forall e :: e in enemies ==> e.hp <= old(e.hp)
      {
        var t := towers[j];
        TowerTurn(t, dt, critRoll(t), muzzle(t));
        j := j + 1;
      }
    }

    /**
     * One tower's turn in `UpdateTowers`: once its cooldown is over it
     * shoots the first enemy in range, and its shot is appended; the
     * cooldown, the shot, and the damage and slow of an instant shot are
     * those of `Tower.Update`.
     */
    method TowerTurn(t: Tower, dt: real, critRoll: bool, muzzle: Point)
      requires t.Valid() && t.towerType.damage >= 0.0
      requires ProjectilesOk(projectiles, spawned) && forall e :: e in enemies ==> e in spawned
      modifies this`projectiles, t`cooldownTimer, t`recoil, enemies`hp, enemies`slowTimer
      ensures ProjectilesOk(projectiles, spawned)
      ensures old(projectiles) <= projectiles && |projectiles| <= |old(projectiles)| + 1
      ensures forall p :: p in projectiles ==> p in old(projectiles) || (fresh(p) && p.target in enemies)
      ensures forall e :: e in enemies ==> e.hp <= old(e.hp)
      ensures var found := old(t.Target(enemies));
              var fires := old(t.cooldownTimer) - dt <= 0.0 && found.Some?;
        && (|projectiles| == |old(projectiles)| + 1 <==> fires)
        && t.cooldownTimer == (if fires then t.towerType.cooldown else old(t.cooldownTimer) - dt)
        && (fires ==> t.recoil == ShotRecoil(t.towerType.kind))
        && (!fires ==> forall e :: e in enemies ==> e.hp == old(e.hp) && e.slowTimer == old(e.slowTimer))
      ensures |projectiles| == |old(projectiles)| + 1 ==>
        var target := enemies[old(t.Target(enemies)).value];
        && t.IsShot(projectiles[|old(projectiles)|], target, critRoll, muzzle)
        && target.hp == old(target.hp) - (if FiresInstantly(t.towerType.kind) then t.damage else 0.0)
        && target.slowTimer == (if t.towerType.kind == Frost then 2000.0 else old(target.slowTimer))
        && forall e :: e in enemies && e != target ==> e.hp == old(e.hp) && e.slowTimer == old(e.slowTimer)
    {
      var shot := t.Update(dt, enemies, critRoll, muzzle);
      if shot.Some? {
        DistinctAppend(projectiles, shot.value);
        projectiles := projectiles + [shot.value];
      }
    }

    /**
     * The projectiles of one tick, last first: each burns its life and may
     * hit; those that report being done are removed, the others stay in
     * their order. `kept` tells, per projectile, whether it stayed: an
     * instant one is kept exactly while it has life left, a travelling one
     * exactly while it has life left and was not within 12 of its target.
     */
    method UpdateProjectiles(dt: real, pursuit: Projectile -> Point) returns (ghost kept: seq<bool>)
      requires ProjectilesOk(projectiles, spawned) && Distinct(enemies)
      requires forall e :: e in enemies ==> e in spawned
      modifies this`projectiles, projectiles`life, projectiles`x, projectiles`y, spawned`hp
      ensures ProjectilesOk(projectiles, spawned)
      ensures |kept| == |old(projectiles)| && projectiles == Keep(old(projectiles), kept, 0)
      ensures forall p :: p in old(projectiles) ==> p.life == old(p.life) - dt
      ensures forall k :: 0 <= k < |kept| ==>
        (kept[k] ==> old(projectiles)[k].life > 0.0) &&
        (old(projectiles)[k].instant ==> (kept[k] <==> old(projectiles)[k].life > 0.0))
      ensures forall k :: 0 <= k < |kept| && !old(projectiles)[k].instant ==>
        (kept[k] <==> !old(Arrivals(projectiles))[k] && old(projectiles)[k].life > 0.0)
    {
      ghost var ps := projectiles;
      ghost var rank := Ranks(ps);
      kept := ProjectileLoop(dt, pursuit, rank);
      KeepFacts(ps, kept, 0);
    }

    /**
     * One projectile's update in the projectile loop: its life burns down,
     * and once it reports being done it is removed from index i. An
     * instant one is done exactly when its life is over and deals no
     * damage; a travelling one is done when it started closer than 12 to
     * its target or its life is over, and then hits and splashes.
     */
    method BurnOne(i: nat, p: Projectile, dt: real, next: Point) returns (done: bool)
      requires i < |projectiles| && projectiles[i] == p && Distinct(enemies)
      modifies this`projectiles, p`life, p`x, p`y, enemies`hp, p.target`hp
      ensures p.life == old(p.life) - dt
      ensures !done ==> p.life > 0.0
      ensures p.instant ==> (done <==> p.life <= 0.0)
      ensures !p.instant ==>
        (done <==> DistSq(p.target.Position(), old(p.Position())) < 144.0 || p.life <= 0.0)
      ensures p.target.hp == old(p.target.hp) - (if !p.instant && done then p.damage else 0.0)
      ensures forall e :: e in enemies && e != p.target ==>
        e.hp == old(e.hp) - (if !p.instant && done then p.SplashOn(e.Position(), p.Position()) else 0.0)
      ensures projectiles == if done then RemoveAt(old(projectiles), i) else old(projectiles)
    {
      done := p.Update(dt, enemies, next);
      if done {
        projectiles := RemoveAt(projectiles, i);
      }
    }

    /** The loop of `UpdateProjectiles`. */
    method ProjectileLoop(dt: real, pursuit: Projectile -> Point, ghost rank: map<Projectile, nat>)
      returns (ghost kept: seq<bool>)
      requires Distinct(enemies) && forall e :: e in enemies ==> e in spawned
      requires forall k :: 0 <= k < |projectiles| ==> projectiles[k] in rank && rank[projectiles[k]] == k
      requires forall p :: p in projectiles ==> p.target in spawned
      modifies this`projectiles, projectiles`life, projectiles`x, projectiles`y, spawned`hp
      ensures |kept| == |old(projectiles)| && projectiles == Keep(old(projectiles), kept, 0)
      ensures forall p :: p in old(projectiles) ==> p.life == old(p.life) - dt
      ensures forall k :: 0 <= k < |kept| ==>
        (kept[k] ==> old(projectiles)[k].life > 0.0) &&
        (old(projectiles)[k].instant ==> (kept[k] <==> old(projectiles)[k].life > 0.0))
      ensures forall k :: 0 <= k < |kept| && !old(projectiles)[k].instant ==>
        (kept[k] <==> !old(Arrivals(projectiles))[k] && old(projectiles)[k].life > 0.0)
    {
      ghost var ps := projectiles;
      ghost var lives := Lives(ps);
      ghost var near := Arrivals(ps);
      kept := seq(|ps|, _ => true);
      BurnedAtStart(dt, lives, near, kept);
      var i: nat := |projectiles|;
      while i > 0
        invariant Burned(i, dt, ps, lives, near, kept)
      {
        var p := projectiles[i - 1];
        i, kept := BurnAt(i, p, dt, pursuit(p), ps, lives, near, kept, rank);
      }
      BurnedAtEnd(dt, ps, lives, near, kept);
      forall p | p in ps ensures p.life == old(p.life) - dt {
        var k :| 0 <= k < |ps| && ps[k] == p;
      }
    }

    /**
     * The bookkeeping of the projectile loop once the projectiles from
     * index i on have been updated: `lives` are their lives before,
     * `near` tells which were then closer than 12 to their targets, and
     * `kept` tells which have stayed.
     */
    ghost predicate Burned(i: nat, dt: real, ps: seq<Projectile>, lives: seq<real>, near: seq<bool>, kept: seq<bool>)
      reads this, ps, set p | p in ps :: p.target
    {
      && i <= |ps| && |lives| == |ps| && |near| == |ps| && |kept| == |ps|
      && projectiles == ps[..i] + Keep(ps, kept, i)
      && (forall k :: 0 <= k < |ps| ==> ps[k].life == (if k < i then lives[k] else lives[k] - dt))
      && (forall k :: 0 <= k < i ==> (near[k] <==> DistSq(ps[k].target.Position(), ps[k].Position()) < 144.0))
      && (forall k :: i <= k < |ps| ==>
            && (kept[k] ==> lives[k] - dt > 0.0)
            && (ps[k].instant ==> (kept[k] <==> lives[k] - dt > 0.0))
            && (!ps[k].instant ==> (kept[k] <==> !near[k] && lives[k] - dt > 0.0)))
    }

    /** The projectile loop before its first iteration. */
    lemma BurnedAtStart(dt: real, lives: seq<real>, near: seq<bool>, kept: seq<bool>)
      requires |lives| == |projectiles| && |kept| == |projectiles|
      requires forall k :: 0 <= k < |projectiles| ==> projectiles[k].life == lives[k]
      requires near == Arrivals(projectiles)
      ensures Burned(|projectiles|, dt, projectiles, lives, near, kept)
    {
      assert projectiles[..|projectiles|] == projectiles;
    }

    /** What the projectile loop's bookkeeping amounts to once every projectile is updated. */
    lemma BurnedAtEnd(dt: real, ps: seq<Projectile>, lives: seq<real>, near: seq<bool>, kept: seq<bool>)
      requires Burned(0, dt, ps, lives, near, kept)
      ensures projectiles == Keep(ps, kept, 0)
      ensures forall k :: 0 <= k < |ps| ==> ps[k].life == lives[k] - dt
      ensures forall k :: 0 <= k < |kept| ==>
        (kept[k] ==> ps[k].life > 0.0) && (ps[k].instant ==> (kept[k] <==> ps[k].life > 0.0))
      ensures forall k :: 0 <= k < |kept| && !ps[k].instant ==> (kept[k] <==> !near[k] && ps[k].life > 0.0)
    {
      assert ps[..0] + Keep(ps, kept, 0) == Keep(ps, kept, 0);
    }

    /**
     * One iteration of the projectile loop: with the projectiles from
     * index n on updated, the projectile `p` at index n - 1 is updated,
     * moving towards `next`, and removed when it reports being done.
     */
    method BurnAt(n: nat, p: Projectile, dt: real, next: Point, ghost ps: seq<Projectile>,
                  ghost lives: seq<real>, ghost near: seq<bool>, ghost kept0: seq<bool>,
                  ghost rank: map<Projectile, nat>)
      returns (i: nat, ghost kept: seq<bool>)
      requires 0 < n && Burned(n, dt, ps, lives, near, kept0) && p == ps[n - 1]
      requires forall k :: 0 <= k < |ps| ==> ps[k] in rank && rank[ps[k]] == k
      requires Distinct(enemies) && forall e :: e in enemies ==> e in spawned
      requires forall q :: q in ps ==> q.target in spawned
      modifies this`projectiles, p`life, p`x, p`y, spawned`hp
      ensures i == n - 1 && Burned(i, dt, ps, lives, near, kept)
    {
      i := n - 1;
      assert p in ps;
      KeepStep(ps, kept0, i);
      label Flying:
      var done := BurnOne(i, p, dt, next);
      forall k | 0 <= k < |ps| ensures ps[k].life == (if k < i then lives[k] else lives[k] - dt) {
        if k != i {
          assert rank[ps[k]] != rank[p];
          assert ps[k].life == old@Flying(ps[k].life);
        }
      }
      forall k | 0 <= k < i
        ensures near[k] <==> DistSq(ps[k].target.Position(), ps[k].Position()) < 144.0
      {
        assert rank[ps[k]] != rank[p];
        assert ps[k].Position() == old@Flying(ps[k].Position());
      }
      kept := kept0[i := !done];
    }

    /**
     * The wave director, then the enemy sweep, of one tick: mana is left
     * alone, the wave advances by at most one, callbacks are only
     * appended, and every enemy known afterwards is new or known before.
     */
    method March(dt: real, avoid: Enemy -> Point)
      requires Valid() && dt >= 0.0
      modifies this`toSpawn, this`spawnTimer, this`enemies, this`spawned, this`state, this`isRunning, this`events
      modifies spawned`speed, spawned`slowTimer, spawned`offX, spawned`offY
      modifies spawned`progress, spawned`reached, spawned`x, spawned`y
      ensures Valid()
      ensures state.mana == old(state.mana)
      ensures state.wave == old(state.wave) || state.wave == old(state.wave) + 1
      ensures old(events) <= events
      ensures forall e :: e in spawned ==> e in old(spawned) || fresh(e)
    {
      DirectPhase(dt);
      ghost var mid := events;
      SweepPhase(dt, avoid);
      assert events[..|mid|] == mid;
      assert events[..|old(events)|] == mid[..|old(events)|];
    }

    /** What `Direct` promises the rest of the tick: the invariant, and a wave that moves by at most one. */
    method DirectPhase(dt: real)
      requires Valid()
      modifies this`toSpawn, this`spawnTimer, this`enemies, this`spawned, this`state, this`isRunning, this`events
      ensures Valid()
      ensures state.mana == old(state.mana)
      ensures state.wave == old(state.wave) || state.wave == old(state.wave) + 1
      ensures old(events) <= events
      ensures forall e :: e in spawned ==> e in old(spawned) || fresh(e)
    {
      Direct(dt);
    }

    /** What `Sweep` promises the rest of the tick: the invariant's parts it touches, and only appended callbacks. */
    method SweepPhase(dt: real, avoid: Enemy -> Point)
      requires StateValid(state) && EnemiesOk(enemies, spawned) && dt >= 0.0
      modifies this`enemies, this`state, this`isRunning, this`events
      modifies enemies`speed, enemies`slowTimer, enemies`offX, enemies`offY
      modifies enemies`progress, enemies`reached, enemies`x, enemies`y
      ensures StateValid(state) && EnemiesOk(enemies, spawned)
      ensures state.mana == old(state.mana) && state.wave == old(state.wave) && old(events) <= events
    {
      Sweep(dt, avoid);
    }

    /** The towers, then the projectiles, of one tick. */
    method Fight(dt: real, inputs: TickInputs)
      requires Valid() && dt >= 0.0
      modifies this`projectiles, spawned, towers, projectiles
      ensures Valid()
    {
      UpdateTowers(dt, inputs.critRoll, inputs.muzzle);
      forall k | 0 <= k < |projectiles|
        ensures projectiles[k] in old(projectiles) || fresh(projectiles[k])
      {
        assert projectiles[k] in projectiles;
      }
      ProjectilePhase(dt, inputs.pursuit);
    }

    /** What `UpdateProjectiles` promises the rest of the tick: the projectile list's invariant. */
    method ProjectilePhase(dt: real, pursuit: Projectile -> Point)
      requires ProjectilesOk(projectiles, spawned) && Distinct(enemies)
      requires forall e :: e in enemies ==> e in spawned
      modifies this`projectiles, projectiles`life, projectiles`x, projectiles`y, spawned`hp
      ensures ProjectilesOk(projectiles, spawned)
      ensures forall p :: p in projectiles ==> p in old(projectiles)
    {
      ghost var ps := projectiles;
      ghost var kept := UpdateProjectiles(dt, pursuit);
      KeepFacts(ps, kept, 0);
    }

    /**
     * One tick of `update`. A tick of length 0 changes nothing. Otherwise
     * mana regenerates, then the director, the enemy sweep, the towers and
     * the projectiles run in this order.
     */
    method Update(dt: real, inputs: TickInputs)
      requires Valid() && 0.0 <= dt <= 100.0
      modifies this, spawned, towers, projectiles
      ensures Valid()
      ensures dt == 0.0 ==>
        unchanged(this) && unchanged(spawned) && unchanged(towers) && unchanged(projectiles)
      ensures dt > 0.0 ==> state.mana == RegenMana(old(state.mana), dt)
      ensures state.wave == old(state.wave) || state.wave == old(state.wave) + 1
      ensures old(events) <= events
      ensures towers == old(towers)
    {
      if dt == 0.0 {
        return;
      }
      RegenManaBounds(state.mana, dt);
      state := state.(mana := RegenMana(state.mana, dt));
      March(dt, inputs.avoid);
      Fight(dt, inputs);
    }
  }

  /** The meteor's strike: every listed enemy loses 500 hit points. */
  method Bombard(es: seq<Enemy>)
    requires Distinct(es)
    modifies es`hp
    ensures forall i :: 0 <= i < |es| ==> es[i].hp == old(es[i].hp) - 500.0
  {
    DistinctPairs(es);
    var i := 0;
    while i < |es|
      invariant 0 <= i <= |es|
      invariant forall k :: 0 <= k < i ==> es[k].hp == old(es[k].hp) - 500.0
      invariant forall k :: i <= k < |es| ==> es[k].hp == old(es[k].hp)
    {
      es[i].hp := es[i].hp - 500.0;
      i := i + 1;
    }
  }

  /** The elements of `ps` from index `from` on whose flag is set, in their order. */
  function Keep<T>(ps: seq<T>, flags: seq<bool>, from: nat): seq<T>
    requires |flags| == |ps| && from <= |ps|
    decreases |ps| - from
  {
    if from == |ps| then [] else (if flags[from] then [ps[from]] else []) + Keep(ps, flags, from + 1)
  }

  /**
   * Exactly the flagged elements are kept, and keeping preserves
   * distinctness.
   */
  lemma {:induction false} KeepFacts<T>(ps: seq<T>, flags: seq<bool>, from: nat)
    requires |flags| == |ps| && from <= |ps|
    decreases |ps| - from
    ensures forall x :: x in Keep(ps, flags, from) ==> exists k :: from <= k < |ps| && flags[k] && ps[k] == x
    ensures forall k :: from <= k < |ps| && flags[k] ==> ps[k] in Keep(ps, flags, from)
    ensures Distinct(ps) ==> Distinct(Keep(ps, flags, from))
  {
    if from < |ps| {
      KeepFacts(ps, flags, from + 1);
      var rest := Keep(ps, flags, from + 1);
      var head := if flags[from] then [ps[from]] else [];
      assert Keep(ps, flags, from) == head + rest;
      forall x | x in Keep(ps, flags, from)
        ensures exists k :: from <= k < |ps| && flags[k] && ps[k] == x
      {
        if x !in rest {
          assert x in head;
        }
      }
      if Distinct(ps) && flags[from] {
        DistinctPairs(ps);
        assert ps[from] !in rest;
        assert ([ps[from]] + rest)[1..] == rest;
      } else if Distinct(ps) {
        assert Keep(ps, flags, from) == rest;
      }
    }
  }

  /** What is kept from index `from` on depends only on the flags from there on. */
  lemma {:induction false} KeepLooksAhead<T>(ps: seq<T>, f1: seq<bool>, f2: seq<bool>, from: nat)
    requires |f1| == |ps| && |f2| == |ps| && from <= |ps|
    requires forall k :: from <= k < |ps| ==> f1[k] == f2[k]
    decreases |ps| - from
    ensures Keep(ps, f1, from) == Keep(ps, f2, from)
  {
    if from < |ps| {
      KeepLooksAhead(ps, f1, f2, from + 1);
    }
  }

  /** Deciding on one more element, seen on the values a reverse filtering loop keeps. */
  lemma KeepStep<T>(ps: seq<T>, flags: seq<bool>, i: nat)
    requires i < |ps| && |flags| == |ps|
    ensures var before := ps[..i + 1] + Keep(ps, flags, i + 1);
      && |before| > i && before[i] == ps[i]
      && before == ps[..i] + Keep(ps, flags[i := true], i)
      && RemoveAt(before, i) == ps[..i] + Keep(ps, flags[i := false], i)
  {
    var rest := Keep(ps, flags, i + 1);
    SpliceAt(ps, i, rest);
    KeepOne(ps, flags, i, true);
    KeepOne(ps, flags, i, false);
  }

  /** Keeping (or dropping) element i puts it (or nothing) before what is kept after it. */
  lemma KeepOne<T>(ps: seq<T>, flags: seq<bool>, i: nat, b: bool)
    requires i < |ps| && |flags| == |ps|
    ensures Keep(ps, flags[i := b], i) == (if b then [ps[i]] else []) + Keep(ps, flags, i + 1)
  {
    KeepLooksAhead(ps, flags, flags[i := b], i + 1);
  }

  /** The sweep's ledger over the fates from index `from` on, the last one settled first. */
  function SettleFrom(b: Book, fs: seq<Fate>, from: nat): Book
    requires from <= |fs|
    decreases |fs| - from
  {
    if from == |fs| then b else Ledger.Settle(SettleFrom(b, fs, from + 1), fs[from])
  }

  lemma {:induction false} SettleFromIsSettleAll(b: Book, fs: seq<Fate>, from: nat)
    requires from <= |fs|
    decreases |fs| - from
    ensures SettleFrom(b, fs, from) == SettleAll(b, fs[from..])
  {
    if from < |fs| {
      SettleFromIsSettleAll(b, fs, from + 1);
      assert fs[from..][1..] == fs[from + 1..];
    }
  }

  /** The index of each element of a list without repetitions. */
  ghost function Ranks<T>(s: seq<T>): (r: map<T, nat>)
    requires Distinct(s)
    ensures forall k :: 0 <= k < |s| ==> s[k] in r && r[s[k]] == k
  {
    DistinctPairs(s);
    map k | 0 <= k < |s| :: s[k] := k
  }

  /** The list a reverse filtering loop holds, seen around index i. */
  lemma SpliceAt<T>(ps: seq<T>, i: nat, rest: seq<T>)
    requires i < |ps|
    ensures var before := ps[..i + 1] + rest;
      && |before| > i && before[i] == ps[i] && before[..i] == ps[..i] && before[i + 1..] == rest
  {
    assert ps[..i + 1] == ps[..i] + [ps[i]];
    assert (ps[..i + 1] + rest)[..i] == ps[..i];
    assert (ps[..i + 1] + rest)[i + 1..] == rest;
  }

  /** The fates of the enemies `es` once in motions `ms`. */
  function Verdicts(es: seq<Enemy>, ms: seq<Motion>): (r: seq<Fate>)
    requires |ms| == |es|
    reads es`hp
    ensures |r| == |es|
    ensures forall k {:trigger r[k]} :: 0 <= k < |es| ==> r[k] == Judge(ms[k].reached, es[k].hp, es[k].isBoss, es[k].reward)
  {
    if es == [] then []
    else [Judge(ms[0].reached, es[0].hp, es[0].isBoss, es[0].reward)] + Verdicts(es[1..], ms[1..])
  }

  /** The motions the enemies `es` reach from motions `ms` with one step each. */
  function Targets(es: seq<Enemy>, ms: seq<Motion>, dt: real, path: seq<Point>, avoid: Enemy -> Point): (r: seq<Motion>)
    requires |ms| == |es| && dt >= 0.0
    requires forall k :: 0 <= k < |es| ==> ms[k].progress >= 0.0 && es[k].baseSpeed >= 0.0
    ensures |r| == |es|
    ensures forall k {:trigger r[k]} :: 0 <= k < |es| ==> r[k] == Step(ms[k], es[k].baseSpeed, dt, path, avoid(es[k]))
  {
    seq(|es|, k requires 0 <= k < |es| => Step(ms[k], es[k].baseSpeed, dt, path, avoid(es[k])))
  }
}
