/*
 * The closed-form numbers of the game: enemy stats per wave
 * (js/engine/GameEngine.js:624-644), wave sizes and spawn intervals
 * (453-456, 478), castle repair (397-404), tower refunds (687) and mana
 * regeneration (471). Gold and castle health are integers; rewards and
 * refunds are floored, repair costs rounded up.
 */
module Economy {

  /** `Math.pow(b, n)` for a whole exponent, on exact reals. */
  function Pow(b: real, n: nat): real
  {
    if n == 0 then 1.0 else b * Pow(b, n - 1)
  }

  lemma MulNonNegative(x: real, y: real)
    requires x >= 0.0 && y >= 0.0
    ensures x * y >= 0.0
  {
  }

  lemma MulMonotone(x: real, y1: real, y2: real)
    requires x >= 0.0 && y1 <= y2
    ensures x * y1 <= x * y2
  {
    MulNonNegative(x, y2 - y1);
  }

  lemma MulMonotoneRight(x1: real, x2: real, y: real)
    requires x1 <= x2 && y >= 0.0
    ensures x1 * y <= x2 * y
  {
    MulNonNegative(x2 - x1, y);
  }

  lemma {:induction false} PowAtLeastOne(b: real, n: nat)
    requires b >= 1.0
    ensures Pow(b, n) >= 1.0
  {
    if n > 0 {
      PowAtLeastOne(b, n - 1);
      MulNonNegative(b - 1.0, Pow(b, n - 1));
    }
  }

  /** Growth factors of at least 1 make every later wave at least as strong. */
  lemma {:induction false} PowMonotone(b: real, m: nat, n: nat)
    requires b >= 1.0 && m <= n
    ensures Pow(b, m) <= Pow(b, n)
  {
    if m < n {
      PowMonotone(b, m, n - 1);
      PowAtLeastOne(b, n - 1);
      MulNonNegative(b - 1.0, Pow(b, n - 1));
    }
  }

  /** `Math.ceil(x)`. */
  function Ceil(x: real): (c: int)
    ensures (c - 1) as real < x <= c as real
  {
    if x.Floor as real == x then x.Floor else x.Floor + 1
  }

  lemma FloorMonotone(a: real, b: real)
    requires a <= b
    ensures a.Floor <= b.Floor
  {
  }

  /** Castle damage of an enemy that reaches the castle. */
  function BreachDamage(isBoss: bool): int
  {
    if isBoss then 200 else 50
  }

  /** Number of enemies of a wave: `5 + wave * 3`. */
  function WaveSize(wave: int): int
  {
    5 + wave * 3
  }

  /** Delay after a spawn before the next one: `1000 - wave * 30` milliseconds. */
  function SpawnInterval(wave: int): real
  {
    (1000 - wave * 30) as real
  }

  /** The spawn that empties the wave's counter is a boss on every fifth wave. */
  predicate IsBossSpawn(wave: nat, toSpawn: int)
  {
    wave % 5 == 0 && toSpawn == 1
  }

  function BaseReward(isBoss: bool): real
  {
    if isBoss then 75.0 else 15.0
  }

  /** `Math.floor(baseReward * Math.pow(1.15, wave) * (1 + levelIdx * 0.1))`. */
  function Reward(wave: nat, levelIdx: nat, isBoss: bool): int
  {
    (BaseReward(isBoss) * Pow(1.15, wave) * (1.0 + levelIdx as real * 0.1)).Floor
  }

  /** The stats a new enemy is created with. */
  datatype EnemyStats = EnemyStats(hp: real, speed: real, radius: real, reward: int, isBoss: bool)

  /** `Math.pow(1.1, wave) * difficultyScale`. */
  function HealthMultiplier(wave: nat, difficultyScale: real): real
  {
    Pow(1.1, wave) * difficultyScale
  }

  /** `spawnEnemy` without the push: the stats of the enemy spawned now. */
  function SpawnStats(wave: nat, levelIdx: nat, difficultyScale: real, toSpawn: int): EnemyStats
  {
    var boss := IsBossSpawn(wave, toSpawn);
    var m := HealthMultiplier(wave, difficultyScale);
    EnemyStats(
      if boss then (1000 + wave * 200) as real * m else (50 + wave * 20) as real * m,
      if boss then 0.05 + wave as real * 0.03 + levelIdx as real * 0.2
      else 0.15 + wave as real * 0.06 + levelIdx as real * 0.4,
      if boss then 20.0 else 10.0,
      Reward(wave, levelIdx, boss),
      boss)
  }

  /** Every reward is at least its base (15, or 75 for a boss) and never negative. */
  lemma RewardAtLeastBase(wave: nat, levelIdx: nat, isBoss: bool)
    ensures Reward(wave, levelIdx, isBoss) >= BaseReward(isBoss).Floor >= 0
  {
    var p := Pow(1.15, wave);
    var f := 1.0 + levelIdx as real * 0.1;
    PowAtLeastOne(1.15, wave);
    MulMonotone(BaseReward(isBoss), 1.0, p);
    MulNonNegative(BaseReward(isBoss) * p, f - 1.0);
    FloorMonotone(BaseReward(isBoss), BaseReward(isBoss) * p * f);
  }

  /** Later waves never pay less for the same kind of enemy on the same level. */
  lemma RewardMonotoneInWave(w1: nat, w2: nat, levelIdx: nat, isBoss: bool)
    requires w1 <= w2
    ensures Reward(w1, levelIdx, isBoss) <= Reward(w2, levelIdx, isBoss)
  {
    PowMonotone(1.15, w1, w2);
    ScaledFloorMonotone(BaseReward(isBoss), Pow(1.15, w1), Pow(1.15, w2), 1.0 + levelIdx as real * 0.1);
  }

  /** Scaling by non-negative factors keeps the order of the floors. */
  lemma ScaledFloorMonotone(b: real, p1: real, p2: real, f: real)
    requires b >= 0.0 && p1 <= p2 && f >= 0.0
    ensures (b * p1 * f).Floor <= (b * p2 * f).Floor
  {
    MulMonotone(b, p1, p2);
    MulMonotoneRight(b * p1, b * p2, f);
  }

  /** A boss pays at least five times what an ordinary enemy of its wave pays. */
  lemma BossRewardAtLeastFiveFold(wave: nat, levelIdx: nat)
    ensures Reward(wave, levelIdx, true) >= 5 * Reward(wave, levelIdx, false)
  {
    var y := 15.0 * Pow(1.15, wave) * (1.0 + levelIdx as real * 0.1);
    assert 75.0 * Pow(1.15, wave) * (1.0 + levelIdx as real * 0.1) == 5.0 * y;
    assert (5 * y.Floor) as real <= 5.0 * y;
  }

  /** On the first level an ordinary enemy of wave 3 pays floor(15 * 1.520875) = 22. */
  lemma WaveThreeReward()
    ensures Reward(3, 0, false) == 22
  {
    assert Pow(1.15, 3) == 1.520875 by {
      assert Pow(1.15, 1) == 1.15;
      assert Pow(1.15, 2) == 1.3225;
    }
  }

  /**
   * The boss is the enemy spawned when the counter stands at 1 on waves
   * divisible by 5; it is bigger, tougher (at least ten-fold hit points)
   * and slower than the ordinary enemies of its wave, and every enemy
   * moves forward.
   */
  lemma SpawnStatsFacts(wave: nat, levelIdx: nat, difficultyScale: real, toSpawn: int)
    requires difficultyScale > 0.0
    ensures var s := SpawnStats(wave, levelIdx, difficultyScale, toSpawn);
      && (s.isBoss <==> wave % 5 == 0 && toSpawn == 1)
      && s.hp > 0.0 && s.speed > 0.0 && s.reward >= 15
      && (s.isBoss ==> s.radius == 20.0 && s.reward >= 75)
      && (!s.isBoss ==> s.radius == 10.0)
    ensures var boss := SpawnStats(wave, levelIdx, difficultyScale, 1);
            var minion := SpawnStats(wave, levelIdx, difficultyScale, 2);
      wave % 5 == 0 ==>
        boss.isBoss && !minion.isBoss &&
        boss.hp >= 10.0 * minion.hp && boss.speed < minion.speed
  {
    var m := HealthMultiplier(wave, difficultyScale);
    PowAtLeastOne(1.1, wave);
    MulMonotone(difficultyScale, 1.0, Pow(1.1, wave));
    assert m > 0.0;
    MulMonotone(m, 1.0, (50 + wave * 20) as real);
    MulMonotone(m, 10.0 * (50 + wave * 20) as real, (1000 + wave * 200) as real);
    RewardAtLeastBase(wave, levelIdx, IsBossSpawn(wave, toSpawn));
    RewardAtLeastBase(wave, levelIdx, true);
  }

  /** Mana regeneration: `Math.min(100, mana + dt * 0.0004)`. */
  function RegenMana(mana: real, dt: real): real
  {
    if mana + dt * 0.0004 <= 100.0 then mana + dt * 0.0004 else 100.0
  }

  /** Mana never exceeds 100, and a non-negative tick never loses mana below 100. */
  lemma RegenManaBounds(mana: real, dt: real)
    requires 0.0 <= mana <= 100.0 && dt >= 0.0
    ensures mana <= RegenMana(mana, dt) <= 100.0
    ensures RegenMana(mana, dt) == 100.0 || RegenMana(mana, dt) == mana + dt * 0.0004
  {
  }

  /** Hit points the repair restores: `Math.min(missing, gold * 2, 500)`. */
  function RepairAmount(missing: int, gold: int): int
  {
    var a := if missing <= gold * 2 then missing else gold * 2;
    if a <= 500 then a else 500
  }

  /** Gold the repair costs: half the amount, rounded up. */
  function RepairCost(amount: int): int
  {
    Ceil(amount as real / 2.0)
  }

  /**
   * A repair the engine accepts restores something, never more than the
   * castle is missing, than 500, or than the gold pays for at two points
   * per coin; it costs half the restored points rounded up, which the
   * player can always pay.
   */
  lemma RepairBounds(missing: int, gold: int)
    requires missing > 0 && gold >= 10
    ensures var r := RepairAmount(missing, gold);
      0 < r <= missing && r <= 500 && r <= 2 * gold
    ensures var r := RepairAmount(missing, gold);
      var c := RepairCost(r);
      0 < c <= gold && 2 * c - 1 <= r <= 2 * c
  {
  }

  /** Gold returned on a sale: `Math.floor(cost * 0.5)`. */
  function Refund(cost: nat): int
  {
    (cost as real * 0.5).Floor
  }

  /** The refund is half the price, rounded down: never a profit. */
  lemma RefundHalf(cost: nat)
    ensures 0 <= 2 * Refund(cost) <= cost <= 2 * Refund(cost) + 1
  {
  }
}
