/*
 * Configuration data of the game: the tower catalogue and the levels
 * (js/constants.js:13-28). The colours and icons are cosmetic and left out.
 */
module Config {

  /** A point of the fixed 1600 x 900 logical playfield. */
  datatype Point = Point(x: real, y: real)

  datatype TowerKind = Archer | Cannon | Frost | Tesla | Sniper | Mortar | Laser | Omega

  /**
   * A catalogue entry. An entry without a splash radius or a critical-hit
   * chance carries 0 there; the engine only ever tests those fields with
   * JavaScript truthiness, for which an absent field and 0 behave alike.
   */
  datatype TowerType = TowerType(
    kind: TowerKind,
    cost: nat,
    range: real,
    damage: real,
    cooldown: real,
    splashRadius: real,
    critChance: real,
    unlockLevel: nat)

  const ArcherType := TowerType(Archer, 60, 120.0, 15.0, 600.0, 0.0, 0.0, 0)
  const CannonType := TowerType(Cannon, 150, 100.0, 50.0, 2000.0, 0.0, 0.0, 0)
  const FrostType := TowerType(Frost, 120, 140.0, 5.0, 100.0, 0.0, 0.0, 0)
  const TeslaType := TowerType(Tesla, 220, 110.0, 25.0, 800.0, 0.0, 0.0, 0)
  const SniperType := TowerType(Sniper, 200, 250.0, 80.0, 2500.0, 0.0, 0.2, 1)
  const MortarType := TowerType(Mortar, 250, 180.0, 40.0, 3000.0, 60.0, 0.0, 1)
  const LaserType := TowerType(Laser, 300, 130.0, 2.0, 50.0, 0.0, 0.0, 2)
  const OmegaType := TowerType(Omega, 500, 200.0, 150.0, 4000.0, 100.0, 0.0, 2)

  const TowerTypes: seq<TowerType> :=
    [ArcherType, CannonType, FrostType, TeslaType, SniperType, MortarType, LaserType, OmegaType]

  /** A level: wave count, difficulty factor, castle health and a normalised path. */
  datatype Level = Level(waves: nat, difficultyScale: real, castleMaxHealth: nat, path: seq<Point>)

  const Levels: seq<Level> := [
    Level(5, 1.0, 500,
      [Point(0.0, 0.2), Point(0.3, 0.2), Point(0.3, 0.7), Point(0.7, 0.7), Point(0.7, 0.3), Point(1.0, 0.3)]),
    Level(8, 1.5, 1500,
      [Point(0.0, 0.5), Point(0.2, 0.5), Point(0.2, 0.2), Point(0.5, 0.2), Point(0.5, 0.8),
       Point(0.8, 0.8), Point(0.8, 0.5), Point(1.0, 0.5)]),
    Level(12, 2.2, 3000,
      [Point(0.1, 0.0), Point(0.1, 0.4), Point(0.9, 0.4), Point(0.9, 0.1), Point(0.5, 0.1),
       Point(0.5, 0.9), Point(1.0, 0.9)])
  ]

  const LogicalWidth: real := 1600.0
  const LogicalHeight: real := 900.0

  /** The path scaled from [0,1] x [0,1] to the logical playfield. */
  function ToLogical(path: seq<Point>): (r: seq<Point>)
    ensures |r| == |path|
    ensures forall i :: 0 <= i < |r| ==>
      r[i] == Point(path[i].x * LogicalWidth, path[i].y * LogicalHeight)
  {
    if path == [] then [] else [Point(path[0].x * LogicalWidth, path[0].y * LogicalHeight)] + ToLogical(path[1..])
  }

  /**
   * A path the engine can use: at least one segment, and no segment of
   * length zero (the on-road test divides by the squared segment length).
   */
  predicate WellFormedPath(path: seq<Point>)
  {
    |path| >= 2 && forall i :: 1 <= i < |path| ==> path[i - 1] != path[i]
  }

  /** A tower type whose numbers make sense for the engine. */
  predicate SaneType(t: TowerType)
  {
    t.range >= 0.0 && t.damage >= 0.0 && t.cooldown >= 0.0 && t.splashRadius >= 0.0
  }

  /** Scaling to the playfield keeps distinct consecutive waypoints distinct. */
  lemma ScalingKeepsWellFormed(path: seq<Point>)
    requires WellFormedPath(path)
    ensures WellFormedPath(ToLogical(path))
  {
  }

  /** Consecutive waypoints differ, checked pairwise from the front. */
  predicate StepsDistinct(path: seq<Point>)
  {
    |path| < 2 || (path[0] != path[1] && StepsDistinct(path[1..]))
  }

  lemma {:induction false} StepsDistinctWellFormed(path: seq<Point>)
    requires |path| >= 2 && StepsDistinct(path)
    ensures WellFormedPath(path)
  {
    if |path| > 2 {
      StepsDistinctWellFormed(path[1..]);
      forall i | 1 <= i < |path| ensures path[i - 1] != path[i] {
        if i > 1 {
          assert path[i - 1] == path[1..][i - 2] && path[i] == path[1..][i - 1];
        }
      }
    }
  }

  /** Every configured level has a usable path once scaled. */
  lemma LevelPathsWellFormed()
    ensures forall i :: 0 <= i < |Levels| ==> WellFormedPath(ToLogical(Levels[i].path))
  {
    forall i | 0 <= i < |Levels| ensures WellFormedPath(ToLogical(Levels[i].path)) {
      var p := Levels[i].path;
      assert StepsDistinct(p);
      StepsDistinctWellFormed(p);
      ScalingKeepsWellFormed(p);
    }
  }

  /** Every catalogue entry satisfies SaneType and costs something. */
  lemma CatalogueSane()
    ensures forall i :: 0 <= i < |TowerTypes| ==> SaneType(TowerTypes[i]) && TowerTypes[i].cost > 0
  {
  }
}
