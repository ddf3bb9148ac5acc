# Tower-defence engine core, modelled in Dafny

This project models the simulation core of a browser tower-defence game:
the engine (`js/engine/GameEngine.js`), its combat entities
(`js/engine/Entities.js`) and the tower and level catalogue
(`js/constants.js`). Waves of enemies walk a fixed path toward a castle.
Towers that the player places shoot them, directly or with projectiles.
Gold, castle health and mana make up the economy.

Three files mirror the source's files: `config.dfy` holds
`js/constants.js`, `entities.dfy` holds `js/engine/Entities.js`, and
`engine.dfy` holds `js/engine/GameEngine.js`. The other three hold
GameEngine.js's pure parts (its distance tests, its formulas and the
bookkeeping of its enemy sweep), stated as functions and lemmas:

- `config.dfy` (module `Config`): the tower types, the three levels, the
  1600 x 900 logical playfield, and the scaling of a level's path onto it.
- `geometry.dfy` (module `Geometry`): squared distances, and the
  point-to-segment test used to keep towers off the road.
- `economy.dfy` (module `Economy`): the closed-form numbers. These are
  enemy stats per wave, rewards, wave sizes, spawn intervals, repair
  amount and cost, refunds and mana regeneration.
- `ledger.dfy` (module `Ledger`): what the enemy sweep of one tick does
  to the game state, the running flag and the callbacks, stated on values.
- `entities.dfy` (module `Entities`): the `Enemy`, `Tower` and
  `Projectile` classes. Their `update` methods change them in place, and
  towers and projectiles lower other enemies' hit points.
- `engine.dfy` (module `Engine`): the `GameEngine` class. It holds the
  state, the spawn counters, the running flag, and the enemy, tower and
  projectile lists. The player commands and one tick of `update` change
  these in place.

Every command and every tick keeps the invariant `GameEngine.Valid`:

- gold is never negative;
- castle health stays within [0, castleMaxHealth];
- mana stays within [0, 100];
- listed enemies are distinct and move forward;
- towers are distinct, at least 50 apart and off the road;
- every projectile is aimed at an enemy this engine spawned.

The engine's callbacks (`onStateUpdate`, `onGameOver`, `onLevelComplete`)
are recorded in order in the `events` field. Each `StateUpdate` event
carries the snapshot the source hands out.

Random draws and floating-point steering are inputs, not computations
(the `TickInputs` datatype):

- whether a critical hit lands;
- the muzzle point of a travelling shot;
- the separation offset an enemy steers towards;
- the next point of a pursuing projectile.

Numbers are exact reals. Gold and castle health are integers, because the
source only ever adds integers to them.

Behaviours of the code that the model keeps as written:

- Game over can be reported more than once. When two enemies breach a
  nearly fallen castle in the same tick, `onGameOver(false)` fires once
  per breach from the fatal one on (`Ledger.DefeatReports`,
  `Ledger.DefeatReportedTwice`).
- The snapshot handed out for a breach is taken before castle health is
  clamped to 0, so it can show a negative value (-50 in `Ledger.DefeatReportedTwice`).
- A travelling projectile whose life runs out still hits its target. It
  is not a silent miss (`Entities.Projectile.Update`).
- Tower placement divides by the squared segment length without a guard.
  For a zero-length segment every comparison with the resulting NaN is
  false, so such a segment never blocks placement
  (`Geometry.NearSegment`).
- Towers take the first enemy in range in list order, whatever its hit
  points. An enemy already brought to 0 by an earlier tower in the same
  tick is still targeted.
- The slow timer is not floored at 0. It runs down by `dt` while
  positive and may end negative.

## Model

| member | source | states |
|---|---|---|
| Config.ToLogical | js/engine/GameEngine.js:434 | The scaled path has as many waypoints as the level's path, and waypoint i is the normalised one scaled to 1600 x 900. |
| Config.ScalingKeepsWellFormed | js/engine/GameEngine.js:434 | Scaling to the playfield keeps at least two waypoints and keeps consecutive waypoints distinct. |
| Config.LevelPathsWellFormed | js/constants.js:24-28 | Each of the three configured level paths, once scaled, has a segment and no zero-length segment. |
| Config.CatalogueSane | js/constants.js:13-22 | Every tower type of the catalogue has non-negative range, damage, cooldown and splash radius, and a positive cost. |
| Geometry.DistSqPositive | js/engine/GameEngine.js:657 | A squared distance is never negative. It is positive exactly for distinct points, so the on-road test's denominator vanishes only for a zero-length segment. |
| Geometry.WithinIsDistance | js/engine/GameEngine.js:394 | With d a non-negative distance whose square is the squared distance, the squared test against r squared holds exactly when d < r, as the source's `Math.hypot(...) < r` does. |
| Geometry.DistSqSymmetric | js/engine/GameEngine.js:667 | The distance test between a tower and a point does not depend on their order. |
| Geometry.Clamp01 | js/engine/GameEngine.js:658 | `max(0, min(1, v))` lies in [0, 1]. It is v inside [0, 1], 0 below and 1 above. |
| Geometry.SegmentParam | js/engine/GameEngine.js:657-658 | The clamped projection parameter onto a segment of positive length lies in [0, 1]. |
| Geometry.NearSegment | js/engine/GameEngine.js:656-661 | The point is closer than 35 to its projection onto the segment; a zero-length segment, where the source divides 0 by 0, is never near. Its properties are `Geometry.PointOnSegmentProjects` and `Geometry.SegmentParam`. |
| Geometry.OnRoad | js/engine/GameEngine.js:654-662 | The on-road test of tower placement, over every segment. Its properties are `Geometry.OnRoadFrom`, `Geometry.PointOnPathIsOnRoad` and `Geometry.NoSegmentsNoRoad`. |
| Geometry.OnRoadFrom | js/engine/GameEngine.js:654-662 | The `some` over the path's segments holds exactly when some segment ending at index i or later passes closer than 35 to the point. |
| Geometry.PointOnSegmentProjects | js/engine/GameEngine.js:656-661 | A point on a segment of positive length projects onto itself and is within 35 of that segment. |
| Geometry.PointOnPathIsOnRoad | js/engine/GameEngine.js:653-664 | Every point of every segment of a well-formed path is on the road, so placement there fails whatever the player's gold. |
| Geometry.NoSegmentsNoRoad | js/engine/GameEngine.js:654-655 | A path with fewer than two waypoints blocks no placement. |
| Economy.PowAtLeastOne | js/engine/GameEngine.js:627 | A growth factor of at least 1 raised to any wave is at least 1. |
| Economy.PowMonotone | js/engine/GameEngine.js:631 | With a growth factor of at least 1, a later wave's factor is at least an earlier one's. |
| Economy.Ceil | js/engine/GameEngine.js:402 | `Math.ceil(x)` is the integer c with c - 1 < x <= c. |
| Economy.RewardAtLeastBase | js/engine/GameEngine.js:629-631 | A reward is at least the floor of its base (15, or 75 for a boss) and never negative. |
| Economy.RewardMonotoneInWave | js/engine/GameEngine.js:631 | On the same level and for the same kind of enemy, a later wave never pays less. |
| Economy.BossRewardAtLeastFiveFold | js/engine/GameEngine.js:629-631 | A boss pays at least five times what an ordinary enemy of its wave and level pays. |
| Economy.WaveThreeReward | js/engine/GameEngine.js:631 | An ordinary enemy of wave 3 on the first level pays floor(15 * 1.15^3) = 22. |
| Economy.SpawnStatsFacts | js/engine/GameEngine.js:624-644 | The spawn is a boss exactly on waves divisible by 5 when the counter is 1. Hit points and speed are positive and the reward is at least 15. A boss has radius 20, a reward of at least 75, at least ten times the hit points of an ordinary enemy of its wave, and less speed. Others have radius 10. |
| Economy.Reward | js/engine/GameEngine.js:631 | `Math.floor(base * 1.15^wave * (1 + 0.1 levelIdx))`. Its properties are `Economy.RewardAtLeastBase`, `Economy.RewardMonotoneInWave`, `Economy.BossRewardAtLeastFiveFold` and `Economy.WaveThreeReward`. |
| Economy.SpawnStats | js/engine/GameEngine.js:624-644 | The stats `spawnEnemy` gives the new enemy. Its properties are `Economy.SpawnStatsFacts`. |
| Economy.RegenMana | js/engine/GameEngine.js:471 | `Math.min(100, mana + 0.0004 dt)`. Its properties are `Economy.RegenManaBounds`. |
| Economy.RepairAmount | js/engine/GameEngine.js:400-401 | `Math.min(missing, gold * 2, 500)`. Its properties are `Economy.RepairBounds`. |
| Economy.RepairCost | js/engine/GameEngine.js:402 | `Math.ceil(amount / 2)`. Its properties are `Economy.RepairBounds` and `Economy.Ceil`. |
| Economy.Refund | js/engine/GameEngine.js:687 | `Math.floor(cost * 0.5)`. Its properties are `Economy.RefundHalf`. |
| Economy.RegenManaBounds | js/engine/GameEngine.js:471 | Regeneration from mana in [0, 100] never loses mana and never exceeds 100. The result is either 100 or mana + 0.0004 dt. |
| Economy.RepairBounds | js/engine/GameEngine.js:397-404 | An accepted repair restores a positive amount of at most the missing health, 500 and twice the gold. It costs half that amount rounded up, which is positive and affordable. |
| Economy.RefundHalf | js/engine/GameEngine.js:687 | The refund is half the price rounded down: never negative and never more than the price. |
| Ledger.BreachTotalNonNegative | js/engine/GameEngine.js:494-496 | The castle damage of a sweep is never negative, and it is zero exactly when no enemy breached. |
| Ledger.SettleAllEffect | js/engine/GameEngine.js:491-512 | After a sweep, castle health is max(0, before - total breach damage) and gold has grown by the total bounty. Maximum health, mana and wave are unchanged, and callbacks are only appended. The engine stops exactly when some breach brought the castle to 0. |
| Ledger.SettleAllKeepsHealthInRange | js/engine/GameEngine.js:496-501 | A sweep keeps castle health within [0, castleMaxHealth]. |
| Ledger.BountyNonNegative | js/engine/GameEngine.js:505-506 | With non-negative rewards, a sweep never takes gold away. |
| Ledger.Settle | js/engine/GameEngine.js:494-511 | One sweep step: a breach costs 200 (boss) or 50 health and sends a snapshot, then clamps health to 0, reports the defeat and stops the engine when health is gone; a kill pays the reward and sends a snapshot; a living enemy changes nothing. Its properties are `Ledger.SettleAllEffect` and `Ledger.DefeatReports`. |
| Ledger.SettleAll | js/engine/GameEngine.js:491-512 | The sweep over all fates, last enemy first. Its properties are `Ledger.SettleAllEffect`, `Ledger.SettleAllKeepsHealthInRange` and `Ledger.DefeatReports`; `Engine.GameEngine.Sweep` is proved equal to it. |
| Ledger.GameOversAppend | js/engine/GameEngine.js:500-502 | Game-over callbacks in two stretches of callbacks add up. |
| Ledger.DefeatReports | js/engine/GameEngine.js:494-504 | From any castle health h >= 0, a sweep adds a game-over callback exactly when its breaches do damage and their total is at least h. It never adds more game-over callbacks than there are breaches. |
| Ledger.DefeatReportedTwice | js/engine/GameEngine.js:494-504 | Two ordinary enemies reaching a castle with 50 health in the same tick produce the callbacks snapshot(0), game over, snapshot(-50), game over. The defeat is reported twice and the engine stops with health 0. |
| Ledger.WaveBossIsLast | js/engine/GameEngine.js:628 | Along the spawn counter's run over a wave started at n, where `Direct` makes the k-th spawn with counter n - k, only the last spawn is a boss, and only on a wave divisible by 5. |
| Entities.SlowedSpeed | js/engine/Entities.js:19 | Half the base speed while slowed, else the base speed. Its properties are `Entities.SlowedSpeedBounds`. |
| Entities.SlowedSpeedBounds | js/engine/Entities.js:19 | The effective speed lies in [0, baseSpeed]. A moving enemy is slower exactly while its slow timer is positive, and then at exactly half speed. |
| Entities.SegmentInRange | js/engine/Entities.js:44-49 | Before the castle is reached, the segment index names a real segment and the fraction lies in [0, 1), so the source's `currentSegment < totalSegments` test always passes. |
| Entities.PathPositionOnRoad | js/engine/Entities.js:49-52 | Without its offset, a walking enemy stands on the road by the tower-placement test. |
| Entities.PathPositionAtWaypoint | js/engine/Entities.js:44-52 | At progress j / (n - 1) the enemy stands exactly on waypoint j. |
| Entities.Advance | js/engine/Entities.js:18-41 | The first half of the movement step: progress never decreases, speed stays within [0, baseSpeed], and neither position nor the reached flag changes. |
| Entities.Place | js/engine/Entities.js:41-53 | The second half changes only position and the reached flag. The reached flag is set exactly when it was set before or the progress is at least 1. At progress 1 or more, or on a path of fewer than two points, the enemy stays put; otherwise it stands at the path position plus its offset. |
| Entities.Step | js/engine/Entities.js:17-54 | One movement step: progress never decreases and speed stays within [0, baseSpeed]. The enemy has reached the castle exactly when it had before or its progress is now at least 1. Otherwise its position minus its offset is the path position of its new progress. |
| Entities.Enemy.constructor | js/engine/Entities.js:4-16 | A new enemy has full hit points, its speed as base speed, no progress, no offset, no slow and has not reached the castle. |
| Entities.Enemy.Update | js/engine/Entities.js:17-54 | The enemy's movement fields become exactly `Step` of their old values. |
| Entities.ScaledDamageFacts | js/engine/Entities.js:98-99 | Level scaling never weakens a tower, leaves level 0 alone, and keeps zero damage at zero. |
| Entities.FirstWithinFrom | js/engine/Entities.js:116-120 | `find` returns the first index in range. Every enemy before it is out of range, and when nothing is returned every enemy is out of range. |
| Entities.Tower.Target | js/engine/Entities.js:116-120 | The index of the first enemy within the tower's range, by `Entities.FirstWithinFrom`'s contract. `Entities.Tower.Update` fires exactly at it. |
| Entities.SplashRadius | js/engine/Entities.js:228 | The type's splash radius, or 40 for a Cannon, or 0. `Entities.Projectile.Hit` states the splash it causes. |
| Entities.Tower.constructor | js/engine/Entities.js:93-100 | A new tower has its position, type and level, damage scaled by 1 + 0.15 levelIdx, and no cooldown or recoil. |
| Entities.Tower.Fire | js/engine/Entities.js:122-137 | Frost, Tesla and Laser towers damage the target at once, and Frost also sets its slow timer to 2000. They record an instant beam from the tower. Other towers leave the target alone and launch a travelling shot from the muzzle, with triple damage and the crit flag when the tower has a crit chance and the roll lands. |
| Entities.Tower.Update | js/engine/Entities.js:112-141 | The tower fires exactly when its cooldown has run out and some enemy is in range. It then shoots the first enemy in range, sets its recoil and restarts its cooldown. Otherwise the cooldown only runs down. Only the target is touched, and no enemy gains hit points. |
| Entities.Projectile.constructor | js/engine/Entities.js:206-212 | A new projectile carries the override damage, or the type's when there is none. Its life is 200 when instant and 1000 otherwise. |
| Entities.Projectile.Hit | js/engine/Entities.js:225-237 | The target loses the full damage. Every other listed enemy loses half of it when it is closer than the splash radius (the type's, or 40 for a Cannon) to the impact, and nothing otherwise. |
| Entities.Projectile.Update | js/engine/Entities.js:213-224 | Life burns by dt. An instant projectile is done exactly when its life is spent, and it moves and damages nothing. A travelling one is done exactly when it is closer than 12 to its target or its life is spent; it then hits where it stands. Otherwise it moves to the pursuit point and damages nothing. |
| Engine.FirstTowerNear | js/engine/GameEngine.js:680-682 | `find` returns the first tower closer than 30 to the click, or nothing when no tower is that close. |
| Engine.IndexOf | js/engine/GameEngine.js:685 | `indexOf` is -1 exactly when the tower is not listed. Otherwise it is the first index holding the tower. |
| Engine.SpacedAppend | js/engine/GameEngine.js:666-672 | A tower placed at least 50 from every other tower keeps all towers at least 50 apart. |
| Engine.RemoveKeepsTowers | js/engine/GameEngine.js:685-689 | Removing the tower at one index keeps the rest distinct and spaced. Exactly that tower is gone and no tower is added. |
| Engine.KeepFacts | js/engine/GameEngine.js:516-521 | A reverse loop that splices out the finished elements keeps exactly the flagged ones, in order, and keeps them distinct. |
| Engine.Bombard | js/engine/GameEngine.js:701-702 | Every listed enemy loses exactly 500 hit points. |
| Engine.GameEngine.constructor | js/engine/GameEngine.js:5-40 | A new engine has the caller's state with the level's maximum castle health, the scaled path, no entities, no callbacks yet, and is not running. It satisfies the invariant. |
| Engine.GameEngine.StartWave | js/engine/GameEngine.js:453-456 | The spawn counter becomes 5 + 3 wave and the spawn timer 0. |
| Engine.GameEngine.Start | js/engine/GameEngine.js:447-451 | The engine runs, and the current wave's counter and timer are set. |
| Engine.GameEngine.CheckCastleClick | js/engine/GameEngine.js:391-395 | A click hits the castle when the path exists and the click is closer than 70 to the path's end. Its property is `Engine.GameEngine.CastleClickIsHypot`. |
| Engine.GameEngine.CastleClickIsHypot | js/engine/GameEngine.js:391-395 | With d the `Math.hypot` of the click's offset from the path's end, the click hits exactly when the path exists and d < 70. |
| Engine.GameEngine.FindTowerAt | js/engine/GameEngine.js:680-682 | The first tower closer than 30 to the click. Its properties are `Engine.FirstTowerNear` (first match, or nothing when no tower is that close) and `Engine.GameEngine.FindTowerAtOwnPosition`. |
| Engine.GameEngine.FindTowerAtOwnPosition | js/engine/GameEngine.js:680-682 | Because towers stand at least 50 apart, clicking exactly on a tower finds that tower. |
| Engine.GameEngine.PlaceTower | js/engine/GameEngine.js:653-678 | Placement succeeds exactly when the point is off the road, no tower is closer than 50 and the gold covers the price. On success the price is paid, one new tower of that type is appended and one snapshot is sent. On failure nothing changes. |
| Engine.GameEngine.SellTower | js/engine/GameEngine.js:684-694 | A sale succeeds exactly for a listed tower. It refunds half the price rounded down, removes exactly that tower at its index and sends one snapshot, so a second sale of the same tower fails. On failure nothing changes. |
| Engine.GameEngine.RepairCastle | js/engine/GameEngine.js:397-409 | Repair succeeds exactly when health is missing and gold is at least 10. It restores min(missing, 2 gold, 500) for that amount halved and rounded up, and health stays within its maximum. On failure nothing changes. |
| Engine.GameEngine.CastMeteor | js/engine/GameEngine.js:696-733 | With at least 50 mana, 50 is spent, every enemy loses exactly 500 hit points and one snapshot is sent. With less, nothing changes. No enemy is added or removed. |
| Engine.GameEngine.SpawnEnemy | js/engine/GameEngine.js:624-645 | Exactly one new enemy is appended, with the stats of the current wave, level and spawn counter. |
| Engine.GameEngine.Direct | js/engine/GameEngine.js:474-489 | While enemies remain to spawn, the timer runs down; when it is over one enemy is spawned, the counter drops by one and the timer restarts at 1000 - 30 wave. With nothing left to spawn and an empty field, the next wave starts, or after the last wave the level completes and the engine stops. Otherwise nothing changes. |
| Engine.Judge | js/engine/GameEngine.js:494-505 | What the sweep finds for an enemy after it moved: reaching the castle is a breach, and is checked before hit points; otherwise no hit points left means slain, else alive. `Engine.GameEngine.Resolve` settles exactly this fate, and `Engine.GameEngine.SweepLoop` states the fates of all enemies through it. |
| Engine.GameEngine.Resolve | js/engine/GameEngine.js:494-511 | The enemy at index i is settled by the ledger. A breach or a kill removes it from that index, and a surviving enemy stays. |
| Engine.GameEngine.SweepOne | js/engine/GameEngine.js:492-511 | The enemy at index i takes one movement step, and its fate at its new position is settled. |
| Engine.GameEngine.SweepAt | js/engine/GameEngine.js:491-511 | One iteration of the reverse sweep keeps the sweep's bookkeeping: earlier enemies untouched, later ones stepped and settled. |
| Engine.GameEngine.SweepLoop | js/engine/GameEngine.js:491-512 | Every enemy moves exactly one step. The survivors keep their order, and state, running flag and callbacks are the ledger of the enemies' fates after moving, last enemy first. |
| Engine.GameEngine.Sweep | js/engine/GameEngine.js:491-512 | The same as `SweepLoop`, plus: the game state stays valid, mana and wave are untouched, and callbacks are only appended. |
| Engine.GameEngine.SweepKeepsState | js/engine/GameEngine.js:496-510 | The sweep's ledger keeps gold non-negative and castle health within range. It leaves mana and wave alone and only appends callbacks. |
| Engine.GameEngine.SweepKeepsEnemies | js/engine/GameEngine.js:498-509 | The survivors of the sweep are still distinct spawned enemies that move forward. |
| Engine.GameEngine.TowerTurn | js/engine/GameEngine.js:514 | One tower's turn appends a projectile exactly when its cooldown is over and an enemy is in range. The shot is `IsShot` at the first enemy in range, and the cooldown restarts. An instant shot damages that enemy and a frost shot slows it; otherwise no enemy changes. |
| Engine.GameEngine.UpdateTowers | js/engine/GameEngine.js:514 | The towers' turns append at most one projectile per tower after the existing ones, each aimed at a listed enemy, and no enemy gains hit points. |
| Engine.GameEngine.BurnOne | js/engine/GameEngine.js:517-520 | One projectile's life burns by dt, and it is spliced out of index i exactly when it reports being done. An instant one is done exactly when its life is spent and deals no damage. A travelling one is done exactly when it started closer than 12 to its target or its life is spent; then its target loses its damage and the others their splash. |
| Engine.GameEngine.BurnAt | js/engine/GameEngine.js:516-521 | One iteration of the reverse projectile loop keeps the loop's bookkeeping, including which projectiles stay: instant ones while they have life, travelling ones while they have life and were not within 12 of their targets. |
| Engine.GameEngine.ProjectileLoop | js/engine/GameEngine.js:516-521 | Every projectile's life burns by exactly dt. The list becomes the kept projectiles in order. An instant one is kept exactly while its life lasts; a travelling one exactly while its life lasts and it did not start within 12 of its target. |
| Engine.GameEngine.UpdateProjectiles | js/engine/GameEngine.js:516-521 | The same as `ProjectileLoop`, and the kept projectiles are still distinct and aimed at spawned enemies. |
| Engine.GameEngine.March | js/engine/GameEngine.js:474-512 | The director and the sweep keep the invariant. They leave mana alone, advance the wave by at most one, only append callbacks, and only add newly spawned enemies. |
| Engine.GameEngine.Fight | js/engine/GameEngine.js:514-521 | The towers and the projectiles keep the invariant. |
| Engine.GameEngine.Update | js/engine/GameEngine.js:468-530 | A tick of length 0 changes nothing. Otherwise mana regenerates (capped at 100), the wave advances by at most one, callbacks are only appended, the towers stay, and the invariant holds afterwards. |

## Left out

- Rendering is not modelled: `draw`, `drawRange`, `drawCastle`, `drawBackgroundElements` and `initBackgroundElements` (the random scenery placement) only paint the canvas.
- The animation loop (`loop`, `requestAnimationFrame`), `togglePause`, `resize`, `screenToLogical` and the device pixel ratio are host plumbing. `Update` takes the tick length as a parameter in [0, 100], which is what the loop's clamp hands it.
- Particles, floating texts, explosions, the screen shake timer, an enemy's `pulse`, and a tower's aim angle and base rotation are cosmetic and not modelled.
- The snapshot sent with 5% probability during a tick (GameEngine.js:472) is random and not recorded.
- The enemies' separation force (square roots and powers over the other enemies' positions) is not computed. Each enemy's target offset is the input `avoid`.
- The projectiles' pursuit step (square root, speed 0.6) is not computed. The point a travelling projectile moves to is the input `pursuit`.
- A critical hit's random roll is the input `critRoll`. The barrel point, found with cos and sin of the aim angle, is the input `muzzle`.
- Floating-point arithmetic is modelled with exact reals, including `Math.pow` with a whole exponent.
- Tower type ids are modelled as the enumeration `TowerKind`. Names, colours and icons are left out. The unlock level is kept, but its check lives in the UI and is not part of this model.
- Entities.Enemy.Update: the enemy list that the source's separation pass reads shrinks during the sweep. The model only sees the offset that pass produces.
- Entities.Tower.Update: when the tower does not fire, only recoil >= 0 is stated, not max(0, recoil - 5 dt), because recoil is cosmetic.
- Engine.GameEngine.constructor: requires gold >= 0, mana in [0, 100] and castle health within the level's maximum. The source accepts any initial state, and its caller always passes one in range.
- Engine.GameEngine.UpdateTowers: states only that projectiles are appended and enemies only lose hit points. Each tower's shot is stated exactly on `Entities.Tower.Update`; the per-tower results are not composed over the loop.
- Engine.GameEngine.UpdateProjectiles: states exactly which projectiles stay and their lives, not the damage of each hit. The hit is stated exactly on `Entities.Projectile.Update` and `Engine.GameEngine.BurnOne` and not composed over the loop, because several projectiles may hit or splash the same enemy.
- Engine.GameEngine.ProjectileLoop: as `UpdateProjectiles`, the damage of the hits is not composed over the loop.
- Engine.GameEngine.BurnAt: keeps the loop's bookkeeping of lives and of which projectiles stay; the damage `BurnOne` states is not carried into it.
- Ledger.WaveBossIsLast: follows the spawn counter's run, not a run of `Direct` calls. Each call's step (spawn with the counter, then lower it by one) is stated on `Engine.GameEngine.Direct`, and the calls of one wave are not composed.
- Engine.GameEngine.March: states the invariant, mana, wave, callbacks and spawned enemies. It does not carry `Direct`'s and `Sweep`'s exact effects through, which are stated on those two methods.
- Engine.GameEngine.Fight: states only the invariant. The exact effects are on `UpdateTowers` and `UpdateProjectiles`.
- Engine.GameEngine.Update: states the invariant, mana, wave, callbacks and towers, not the composed effect of the four phases, which are stated one by one as above.
