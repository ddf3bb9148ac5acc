/*
 * The combat entities (js/engine/Entities.js): enemies walking the path,
 * towers picking and shooting targets, projectiles hitting them. Every
 * `update` changes its own object in place, and towers and projectiles
 * also lower other enemies' hit points, so each entity is a class whose
 * methods say which fields they may change.
 *
 * Randomness and the floating-point steering of the source are inputs:
 * the avoidance offset an enemy steers towards, the critical-hit roll, the
 * muzzle point of a travelling shot and the next point of a pursuing
 * projectile.
 */
module Entities {
  import opened Config
  import opened Geometry
  import opened Economy

  datatype Option<T> = None | Some(value: T)

  /**
   * No object occurs twice in the list. It is stated one element at a
   * time, so that it is unfolded only as far as a proof asks; the lemmas
   * below relate it to the statement about every pair of positions.
   */
  predicate Distinct<T(==)>(s: seq<T>)
  {
    s == [] || (s[0] !in s[1..] && Distinct(s[1..]))
  }

  /** In a list without repetitions, different positions hold different objects. */
  lemma {:induction false} DistinctPairs<T>(s: seq<T>)
    requires Distinct(s)
    ensures forall i, j :: 0 <= i < j < |s| ==> s[i] != s[j]
  {
    if s != [] {
      var t := s[1..];
      DistinctPairs(t);
      forall i, j | 0 <= i < j < |s| ensures s[i] != s[j] {
        if i == 0 {
          assert s[j] == t[j - 1];
        } else {
          assert s[i] == t[i - 1] && s[j] == t[j - 1];
        }
      }
    }
  }

  /** Conversely, a list whose positions hold different objects has no repetitions. */
  lemma {:induction false} PairsDistinct<T>(s: seq<T>)
    requires forall i, j :: 0 <= i < j < |s| ==> s[i] != s[j]
    ensures Distinct(s)
  {
    if s != [] {
      var t := s[1..];
      forall i, j | 0 <= i < j < |t| ensures t[i] != t[j] {
        assert t[i] == s[i + 1] && t[j] == s[j + 1];
      }
      PairsDistinct(t);
      forall k | 0 <= k < |t| ensures t[k] != s[0] {
        assert t[k] == s[k + 1];
      }
    }
  }

  /** Appending an object not yet listed keeps the list without repetitions. */
  lemma {:induction false} DistinctAppend<T>(s: seq<T>, x: T)
    requires Distinct(s) && x !in s
    ensures Distinct(s + [x])
  {
    if s != [] {
      assert (s + [x])[1..] == s[1..] + [x];
      DistinctAppend(s[1..], x);
    } else {
      assert [x][1..] == [];
    }
  }

  /** Movement speed: half the base speed while the enemy is slowed. */
  function SlowedSpeed(baseSpeed: real, slowTimer: real): real
  {
    if slowTimer > 0.0 then baseSpeed * 0.5 else baseSpeed
  }

  lemma SlowedSpeedBounds(baseSpeed: real, slowTimer: real)
    requires baseSpeed >= 0.0
    ensures 0.0 <= SlowedSpeed(baseSpeed, slowTimer) <= baseSpeed
    ensures baseSpeed > 0.0 ==> (SlowedSpeed(baseSpeed, slowTimer) < baseSpeed <==> slowTimer > 0.0)
    ensures slowTimer > 0.0 ==> 2.0 * SlowedSpeed(baseSpeed, slowTimer) == baseSpeed
  {
  }

  /** `Math.floor(progress / (1 / (n - 1)))`: the segment the enemy is on. */
  function SegmentIndex(progress: real, n: nat): int
  {
    (progress * (n - 1) as real).Floor
  }

  /** `(progress % segmentLen) / segmentLen`: how far along that segment. */
  function SegmentFraction(progress: real, n: nat): real
  {
    progress * (n - 1) as real - SegmentIndex(progress, n) as real
  }

  /**
   * Before the castle is reached, the segment index names a real segment
   * and the fraction lies in [0, 1): the source's `currentSegment <
   * totalSegments` test always passes.
   */
  lemma SegmentInRange(progress: real, n: nat)
    requires n >= 2 && 0.0 <= progress < 1.0
    ensures 0 <= SegmentIndex(progress, n) < n - 1
    ensures 0.0 <= SegmentFraction(progress, n) < 1.0
  {
    MulMonotone((n - 1) as real, 0.0, progress);
    MulMonotone((n - 1) as real, progress, 1.0);
    FloorMonotone(0.0, progress * (n - 1) as real);
    assert progress * (n - 1) as real < (n - 1) as real by {
      MulStrict((n - 1) as real, progress, 1.0);
    }
  }

  lemma MulStrict(x: real, y1: real, y2: real)
    requires x > 0.0 && y1 < y2
    ensures x * y1 < x * y2
  {
    var d := y2 - y1;
    assert x * d > 0.0;
  }

  /** The point of the path at the given progress, before the offset is added. */
  function PathPosition(path: seq<Point>, progress: real): Point
    requires |path| >= 2 && 0.0 <= progress < 1.0
  {
    SegmentInRange(progress, |path|);
    var k := SegmentIndex(progress, |path|);
    Lerp(path[k], path[k + 1], SegmentFraction(progress, |path|))
  }

  /**
   * An enemy without offset always stands on the road: the point it is
   * drawn at lies on a segment of the path, so it is on the road by the
   * tower-placement test.
   */
  lemma PathPositionOnRoad(path: seq<Point>, progress: real)
    requires WellFormedPath(path) && 0.0 <= progress < 1.0
    ensures OnRoad(path, PathPosition(path, progress))
  {
    SegmentInRange(progress, |path|);
    var k := SegmentIndex(progress, |path|);
    PointOnPathIsOnRoad(path, k + 1, SegmentFraction(progress, |path|));
  }

  /** At progress j / (n - 1) the enemy stands exactly on waypoint j. */
  lemma PathPositionAtWaypoint(path: seq<Point>, j: nat)
    requires |path| >= 2 && j < |path| - 1
    ensures var progress := j as real / (|path| - 1) as real;
      0.0 <= progress < 1.0 && PathPosition(path, progress) == path[j]
  {
    var m := (|path| - 1) as real;
    var progress := j as real / m;
    assert progress * m == j as real;
    assert progress < 1.0 by {
      if progress >= 1.0 {
        MulMonotone(m, 1.0, progress);
        assert false;
      }
    }
    assert SegmentIndex(progress, |path|) == j;
    assert SegmentFraction(progress, |path|) == 0.0;
  }

  /** The fields of an enemy that one tick of movement changes. */
  datatype Motion = Motion(
    speed: real, slowTimer: real, offX: real, offY: real,
    progress: real, reached: bool, x: real, y: real)

  /**
   * The first half of one `Enemy.update`: the speed is the base speed,
   * halved while the slow timer (as it was) runs; the slow timer runs down
   * by dt only while positive; the offset moves 15% of the way towards
   * `avoid`; progress grows by speed * dt / 10000.
   */
  function Advance(m: Motion, baseSpeed: real, dt: real, avoid: Point): (r: Motion)
    requires m.progress >= 0.0 && baseSpeed >= 0.0 && dt >= 0.0
    ensures m.progress <= r.progress && 0.0 <= r.speed <= baseSpeed
    ensures r.reached == m.reached && r.x == m.x && r.y == m.y
  {
    var speed := SlowedSpeed(baseSpeed, m.slowTimer);
    SlowedSpeedBounds(baseSpeed, m.slowTimer);
    MulNonNegative(speed, dt);
    m.(speed := speed,
       slowTimer := if m.slowTimer > 0.0 then m.slowTimer - dt else m.slowTimer,
       offX := m.offX + (avoid.x - m.offX) * 0.15,
       offY := m.offY + (avoid.y - m.offY) * 0.15,
       progress := m.progress + speed * dt / 10000.0)
  }

  /**
   * The second half: an enemy whose progress has reached 1 is marked as
   * having reached the castle and does not move; otherwise it stands at
   * the interpolated path point plus its offset.
   */
  function Place(m: Motion, path: seq<Point>): (r: Motion)
    requires m.progress >= 0.0
    ensures r.(reached := m.reached, x := m.x, y := m.y) == m
    ensures r.reached <==> m.reached || m.progress >= 1.0
    ensures m.progress >= 1.0 || |path| < 2 ==> r.x == m.x && r.y == m.y
    ensures m.progress < 1.0 && |path| >= 2 ==>
      Point(r.x - r.offX, r.y - r.offY) == PathPosition(path, m.progress)
  {
    if m.progress >= 1.0 then m.(reached := true)
    else if |path| < 2 then m
    else
      var p := PathPosition(path, m.progress);
      m.(x := p.x + m.offX, y := p.y + m.offY)
  }

  /** What one `Enemy.update` does to an enemy's motion. */
  function Step(m: Motion, baseSpeed: real, dt: real, path: seq<Point>, avoid: Point): (r: Motion)
    requires m.progress >= 0.0 && baseSpeed >= 0.0 && dt >= 0.0
    ensures m.progress <= r.progress
    ensures 0.0 <= r.speed <= baseSpeed
    ensures r.reached <==> m.reached || r.progress >= 1.0
    ensures r.progress >= 1.0 || |path| < 2 ==> r.x == m.x && r.y == m.y
    ensures r.progress < 1.0 && |path| >= 2 ==>
      Point(r.x - r.offX, r.y - r.offY) == PathPosition(path, r.progress)
  {
    Place(Advance(m, baseSpeed, dt, avoid), path)
  }

  /** Enemy `e` has made one step of movement from motion `before`. */
  ghost predicate Moved(e: Enemy, before: Motion, dt: real, path: seq<Point>, avoid: Point)
    reads e`speed, e`slowTimer, e`offX, e`offY, e`progress, e`reached, e`x, e`y
  {
    && before.progress >= 0.0 && e.baseSpeed >= 0.0 && dt >= 0.0
    && e.State() == Step(before, e.baseSpeed, dt, path, avoid)
  }

  /** An enemy walking the path (js/engine/Entities.js:3-54). */
  class Enemy {
    var hp: real
    const maxHp: real
    var speed: real
    const baseSpeed: real
    const radius: real
    const reward: int
    const isBoss: bool
    var progress: real
    var reached: bool
    var x: real
    var y: real
    var offX: real
    var offY: real
    var slowTimer: real

    constructor (hp: real, speed: real, radius: real, reward: int, isBoss: bool)
      ensures this.hp == hp && maxHp == hp
      ensures this.speed == speed && baseSpeed == speed
      ensures this.radius == radius && this.reward == reward && this.isBoss == isBoss
      ensures progress == 0.0 && !reached
      ensures x == 0.0 && y == 0.0 && offX == 0.0 && offY == 0.0 && slowTimer == 0.0
    {
      this.hp := hp;
      maxHp := hp;
      this.speed := speed;
      baseSpeed := speed;
      this.radius := radius;
      this.reward := reward;
      this.isBoss := isBoss;
      progress := 0.0;
      reached := false;
      x, y := 0.0, 0.0;
      offX, offY := 0.0, 0.0;
      slowTimer := 0.0;
    }

    function Position(): Point
      reads this`x, this`y
    {
      Point(x, y)
    }

    function State(): Motion
      reads this`speed, this`slowTimer, this`offX, this`offY, this`progress, this`reached, this`x, this`y
    {
      Motion(speed, slowTimer, offX, offY, progress, reached, x, y)
    }

    /**
     * One tick of movement. `avoid` is the separation offset the source
     * computes from the other enemies' positions.
     */
    method Update(dt: real, path: seq<Point>, avoid: Point)
      requires dt >= 0.0 && baseSpeed >= 0.0 && progress >= 0.0
      modifies this`speed, this`slowTimer, this`offX, this`offY, this`progress, this`reached, this`x, this`y
      ensures Moved(this, old(State()), dt, path, avoid)
    {
      ghost var advanced := Advance(State(), baseSpeed, dt, avoid);
      speed := SlowedSpeed(baseSpeed, slowTimer);
      if slowTimer > 0.0 {
        slowTimer := slowTimer - dt;
      }
      offX := offX + (avoid.x - offX) * 0.15;
      offY := offY + (avoid.y - offY) * 0.15;
      progress := progress + speed * dt / 10000.0;
      assert State() == advanced;
      if progress >= 1.0 {
        reached := true;
        return;
      }
      if |path| >= 2 {
        var k := SegmentIndex(progress, |path|);
        SegmentInRange(progress, |path|);
        if k < |path| - 1 {
          var p := Lerp(path[k], path[k + 1], SegmentFraction(progress, |path|));
          assert p == PathPosition(path, progress);
          x := p.x + offX;
          y := p.y + offY;
        }
      }
    }
  }

  /** `type.damage * (1 + levelIdx * 0.15)`: towers hit harder on later levels. */
  function ScaledDamage(base: real, levelIdx: nat): real
  {
    base * (1.0 + levelIdx as real * 0.15)
  }

  /** Scaling never weakens a tower, leaves level 0 alone and keeps zero at zero. */
  lemma ScaledDamageFacts(base: real, levelIdx: nat)
    requires base >= 0.0
    ensures base <= ScaledDamage(base, levelIdx)
    ensures levelIdx == 0 ==> ScaledDamage(base, levelIdx) == base
    ensures ScaledDamage(base, levelIdx) == 0.0 <==> base == 0.0
  {
    MulMonotone(base, 1.0, 1.0 + levelIdx as real * 0.15);
  }

  /** Towers whose shot hits at once instead of travelling. */
  predicate FiresInstantly(kind: TowerKind)
  {
    kind == Frost || kind == Tesla || kind == Laser
  }

  /** The recoil a shot gives the barrel. */
  function ShotRecoil(kind: TowerKind): real
  {
    if kind == Sniper || kind == Cannon then 10.0 else 4.0
  }

  /**
   * `Array.prototype.find` over positions: the first index, from `i` on,
   * whose point is within squared distance `rSq` of `center`, inclusive.
   */
  function FirstWithinFrom(points: seq<Point>, center: Point, rSq: real, i: nat): (r: Option<nat>)
    decreases |points| - i
    ensures r.Some? ==> i <= r.value < |points| && DistSq(points[r.value], center) <= rSq
    ensures r.Some? ==> forall j :: i <= j < r.value ==> DistSq(points[j], center) > rSq
    ensures r.None? ==> forall j :: i <= j < |points| ==> DistSq(points[j], center) > rSq
  {
    if i >= |points| then None
    else if DistSq(points[i], center) <= rSq then Some(i)
    else FirstWithinFrom(points, center, rSq, i + 1)
  }

  function FirstWithin(points: seq<Point>, center: Point, rSq: real): Option<nat>
  {
    FirstWithinFrom(points, center, rSq, 0)
  }

  /** The enemies' current positions, in list order. */
  function Positions(es: seq<Enemy>): (r: seq<Point>)
    reads es`x, es`y
    ensures |r| == |es| && forall i :: 0 <= i < |es| ==> r[i] == es[i].Position()
  {
    if es == [] then [] else [es[0].Position()] + Positions(es[1..])
  }

  /** A tower (js/engine/Entities.js:92-141); the aim angle is not modelled. */
  class Tower {
    const x: real
    const y: real
    const towerType: TowerType
    const levelIdx: nat
    const damage: real
    var cooldownTimer: real
    var recoil: real

    constructor (x: real, y: real, towerType: TowerType, levelIdx: nat)
      ensures this.x == x && this.y == y && this.towerType == towerType && this.levelIdx == levelIdx
      ensures damage == ScaledDamage(towerType.damage, levelIdx)
      ensures cooldownTimer == 0.0 && recoil == 0.0
      ensures Valid()
    {
      this.x := x;
      this.y := y;
      this.towerType := towerType;
      this.levelIdx := levelIdx;
      damage := ScaledDamage(towerType.damage, levelIdx);
      cooldownTimer := 0.0;
      recoil := 0.0;
    }

    /** The damage the constructor computed. */
    predicate Valid()
    {
      damage == ScaledDamage(towerType.damage, levelIdx)
    }

    function Position(): Point
    {
      Point(x, y)
    }

    /** The index of the enemy this tower would shoot now, if any. */
    function Target(enemies: seq<Enemy>): Option<nat>
      reads enemies`x, enemies`y
    {
      FirstWithin(Positions(enemies), Position(), Sq(towerType.range))
    }

    /**
     * The projectile a shot at `target` produces: an instant beam from the
     * tower for Frost, Tesla and Laser towers; otherwise a travelling shot
     * from `muzzle`, with triple damage when the tower has a critical-hit
     * chance and `critRoll` (the source's random draw) says it lands.
     */
    predicate IsShot(p: Projectile, target: Enemy, critRoll: bool, muzzle: Point)
      reads p`x, p`y, p`life
    {
      var crit := !FiresInstantly(towerType.kind) && towerType.critChance != 0.0 && critRoll;
      && p.target == target && p.towerType == towerType
      && p.instant == FiresInstantly(towerType.kind)
      && p.damage == (if crit then damage * 3.0 else damage)
      && p.isCrit == crit
      && p.life == (if p.instant then 200.0 else 1000.0)
      && p.Position() == (if p.instant then Position() else muzzle)
    }

    /**
     * The shot itself: Frost, Tesla and Laser towers damage the target at
     * once (Frost also slows it for 2000 ms); other towers leave the
     * target to their projectile.
     */
    method Fire(target: Enemy, critRoll: bool, muzzle: Point) returns (p: Projectile)
      requires Valid() && towerType.damage >= 0.0
      modifies target`hp, target`slowTimer
      ensures target.hp == old(target.hp) - (if FiresInstantly(towerType.kind) then damage else 0.0)
      ensures target.slowTimer == (if towerType.kind == Frost then 2000.0 else old(target.slowTimer))
      ensures fresh(p) && IsShot(p, target, critRoll, muzzle)
    {
      ScaledDamageFacts(towerType.damage, levelIdx);
      if towerType.kind == Frost {
        target.hp := target.hp - damage;
        target.slowTimer := 2000.0;
        p := new Projectile(x, y, target, towerType, true, damage, false);
      } else if towerType.kind == Tesla || towerType.kind == Laser {
        target.hp := target.hp - damage;
        p := new Projectile(x, y, target, towerType, true, damage, false);
      } else {
        var crit := towerType.critChance != 0.0 && critRoll;
        var finalDamage := if crit then damage * 3.0 else damage;
        p := new Projectile(muzzle.x, muzzle.y, target, towerType, false, finalDamage, crit);
      }
    }

    /**
     * One tick: the cooldown runs down and the recoil settles; once the
     * cooldown is over the tower shoots the first enemy in range, if there
     * is one, whatever that enemy's hit points, and only then restarts its
     * cooldown. The returned projectile is what the source pushes onto the
     * engine's projectile list.
     */
    method Update(dt: real, enemies: seq<Enemy>, critRoll: bool, muzzle: Point) returns (shot: Option<Projectile>)
      requires Valid() && towerType.damage >= 0.0
      modifies this`cooldownTimer, this`recoil, enemies`hp, enemies`slowTimer
      ensures var t := old(Target(enemies));
              var fires := old(cooldownTimer) - dt <= 0.0 && t.Some?;
        && (shot.Some? <==> fires)
        && cooldownTimer == (if fires then towerType.cooldown else old(cooldownTimer) - dt)
        && recoil >= 0.0
        && (fires ==> recoil == ShotRecoil(towerType.kind))
      ensures shot.None? ==>
        forall e :: e in enemies ==> e.hp == old(e.hp) && e.slowTimer == old(e.slowTimer)
      ensures shot.Some? ==>
        && fresh(shot.value) && IsShot(shot.value, enemies[old(Target(enemies)).value], critRoll, muzzle)
        && var target := shot.value.target;
        && target.hp == old(target.hp) - (if FiresInstantly(towerType.kind) then damage else 0.0)
        && target.slowTimer == (if towerType.kind == Frost then 2000.0 else old(target.slowTimer))
        && forall e :: e in enemies && e != target ==> e.hp == old(e.hp) && e.slowTimer == old(e.slowTimer)
      ensures forall e :: e in enemies ==> e.hp <= old(e.hp)
    {
      cooldownTimer := cooldownTimer - dt;
      recoil := Max(0.0, recoil - dt * 5.0);
      shot := None;
      ScaledDamageFacts(towerType.damage, levelIdx);
      if cooldownTimer <= 0.0 {
        var found := Target(enemies);
        if found.Some? {
          recoil := ShotRecoil(towerType.kind);
          var p := Fire(enemies[found.value], critRoll, muzzle);
          shot := Some(p);
          cooldownTimer := towerType.cooldown;
        }
      }
    }
  }

  /** `type.splashRadius || (type.id === 'CANNON' ? 40 : 0)`. */
  function SplashRadius(t: TowerType): real
  {
    if t.splashRadius != 0.0 then t.splashRadius else if t.kind == Cannon then 40.0 else 0.0
  }

  /** A projectile (js/engine/Entities.js:205-237); its speed only matters to pursuit. */
  class Projectile {
    var x: real
    var y: real
    const target: Enemy
    const towerType: TowerType
    const instant: bool
    const damage: real
    const isCrit: bool
    var life: real

    /** A `damageOverride` of 0 stands for the source's absent (falsy) override. */
    constructor (x: real, y: real, target: Enemy, towerType: TowerType, instant: bool, damageOverride: real, isCrit: bool)
      ensures this.x == x && this.y == y && this.target == target && this.towerType == towerType
      ensures this.instant == instant && this.isCrit == isCrit
      ensures damage == if damageOverride != 0.0 then damageOverride else towerType.damage
      ensures life == if instant then 200.0 else 1000.0
    {
      this.x := x;
      this.y := y;
      this.target := target;
      this.towerType := towerType;
      this.instant := instant;
      damage := if damageOverride != 0.0 then damageOverride else towerType.damage;
      this.isCrit := isCrit;
      life := if instant then 200.0 else 1000.0;
    }

    function Position(): Point
      reads this`x, this`y
    {
      Point(x, y)
    }

    /** The splash damage enemy `e` takes from an impact at `at`. */
    function SplashOn(e: Point, at: Point): real
    {
      var r := SplashRadius(towerType);
      if r > 0.0 && DistSq(e, at) < Sq(r) then damage * 0.5 else 0.0
    }

    /**
     * The impact: the target loses the full damage; with a positive splash
     * radius every other listed enemy closer than the radius to the
     * projectile loses half of it. The target is never splashed, and no
     * enemy is touched twice.
     */
    method Hit(allEnemies: seq<Enemy>)
      requires Distinct(allEnemies)
      modifies allEnemies`hp, target`hp
      ensures target.hp == old(target.hp) - damage
      ensures forall i :: 0 <= i < |allEnemies| && allEnemies[i] != target ==>
        allEnemies[i].hp == old(allEnemies[i].hp) - SplashOn(allEnemies[i].Position(), Position())
    {
      DistinctPairs(allEnemies);
      target.hp := target.hp - damage;
      var i := 0;
      while i < |allEnemies|
        invariant 0 <= i <= |allEnemies|
        invariant target.hp == old(target.hp) - damage
        invariant forall k :: 0 <= k < i && allEnemies[k] != target ==>
          allEnemies[k].hp == old(allEnemies[k].hp) - SplashOn(allEnemies[k].Position(), Position())
        invariant forall k :: i <= k < |allEnemies| && allEnemies[k] != target ==>
          allEnemies[k].hp == old(allEnemies[k].hp)
      {
        var e := allEnemies[i];
        if e != target {
          e.hp := e.hp - SplashOn(e.Position(), Position());
        }
        i := i + 1;
      }
    }

    /**
     * One tick. An instant projectile only burns its life and is removed
     * once that is spent; it never deals damage here. A travelling one
     * hits when it is closer than 12 to its target or its life is spent,
     * and is then removed; otherwise it moves to `next`, the point the
     * source's pursuit step computes.
     */
    method Update(dt: real, allEnemies: seq<Enemy>, next: Point) returns (done: bool)
      requires Distinct(allEnemies)
      modifies this`life, this`x, this`y, allEnemies`hp, target`hp
      ensures life == old(life) - dt
      ensures instant ==> done == (life <= 0.0)
      ensures instant ==> x == old(x) && y == old(y) && target.hp == old(target.hp)
      ensures instant ==> forall e :: e in allEnemies ==> e.hp == old(e.hp)
      ensures !instant ==>
        (done <==> DistSq(target.Position(), old(Position())) < 144.0 || life <= 0.0)
      ensures !instant && done ==>
        && Position() == old(Position())
        && target.hp == old(target.hp) - damage
        && forall i :: 0 <= i < |allEnemies| && allEnemies[i] != target ==>
             allEnemies[i].hp == old(allEnemies[i].hp) - SplashOn(allEnemies[i].Position(), Position())
      ensures !instant && !done ==>
        && Position() == next && target.hp == old(target.hp)
        && forall e :: e in allEnemies ==> e.hp == old(e.hp)
    {
      life := life - dt;
      if instant {
        return life <= 0.0;
      }
      if DistSq(target.Position(), Position()) < 144.0 || life <= 0.0 {
        Hit(allEnemies);
        return true;
      }
      x, y := next.x, next.y;
      return false;
    }
  }
}
