/*
 * The bookkeeping of one enemy sweep (js/engine/GameEngine.js:491-512) on
 * values: what happens to the game state, the running flag and the
 * callbacks when the swept enemies' fates are settled, last enemy first.
 * The engine's sweep loop is proved to produce exactly this ledger; the
 * lemmas below say what the ledger amounts to.
 */
module Ledger {
  import opened Economy

  /** The `state` object of the engine. */
  datatype GameState = GameState(gold: int, castleHealth: int, castleMaxHealth: int, mana: real, wave: nat)

  /**
   * A callback the engine made: `onStateUpdate` with its snapshot of the
   * state, `onGameOver(won)` or `onLevelComplete()`.
   */
  datatype Event = StateUpdate(snapshot: GameState) | GameOver(won: bool) | LevelComplete

  /** What the sweep finds for one enemy after its update. */
  datatype Fate = Breach(isBoss: bool) | Slain(reward: int) | Alive

  datatype Book = Book(state: GameState, running: bool, events: seq<Event>)

  /** One step of the sweep loop. */
  function Settle(b: Book, f: Fate): Book
  {
    match f
    case Breach(isBoss) =>
      var hit := b.state.(castleHealth := b.state.castleHealth - BreachDamage(isBoss));
      var seen := b.events + [StateUpdate(hit)];
      if hit.castleHealth <= 0 then
        Book(hit.(castleHealth := 0), false, seen + [GameOver(false)])
      else
        Book(hit, b.running, seen)
    case Slain(reward) =>
      var paid := b.state.(gold := b.state.gold + reward);
      Book(paid, b.running, b.events + [StateUpdate(paid)])
    case Alive =>
      b
  }

  /** The sweep over the fates `fs`, which visits the last one first. */
  function SettleAll(b: Book, fs: seq<Fate>): Book
  {
    if fs == [] then b else Settle(SettleAll(b, fs[1..]), fs[0])
  }

  /** Castle damage dealt by all breaches among `fs`. */
  function BreachTotal(fs: seq<Fate>): int
  {
    if fs == [] then 0
    else (if fs[0].Breach? then BreachDamage(fs[0].isBoss) else 0) + BreachTotal(fs[1..])
  }

  /** Gold paid for all slain enemies among `fs`. */
  function Bounty(fs: seq<Fate>): int
  {
    if fs == [] then 0 else (if fs[0].Slain? then fs[0].reward else 0) + Bounty(fs[1..])
  }

  lemma {:induction false} BreachTotalNonNegative(fs: seq<Fate>)
    ensures BreachTotal(fs) >= 0
    ensures BreachTotal(fs) == 0 <==> forall i :: 0 <= i < |fs| ==> !fs[i].Breach?
  {
    if fs != [] {
      BreachTotalNonNegative(fs[1..]);
      if forall i :: 0 <= i < |fs[1..]| ==> !fs[1..][i].Breach? {
        assert forall i :: 1 <= i < |fs| ==> !fs[i].Breach? by {
          forall i | 1 <= i < |fs| ensures !fs[i].Breach? {
            assert fs[i] == fs[1..][i - 1];
          }
        }
      } else {
        var i :| 0 <= i < |fs[1..]| && fs[1..][i].Breach?;
        assert fs[i + 1].Breach?;
      }
    }
  }

  /**
   * The sweep's effect on the state: the castle loses the total breach
   * damage but never drops below 0, gold grows by the total bounty, the
   * wave, maximum health and mana are untouched, and the running flag is
   * cleared exactly when some breach brought the castle to 0.
   */
  lemma {:induction false} SettleAllEffect(b: Book, fs: seq<Fate>)
    requires b.state.castleHealth >= 0
    ensures var r := SettleAll(b, fs);
      && r.state.castleHealth == Max0(b.state.castleHealth - BreachTotal(fs))
      && r.state.gold == b.state.gold + Bounty(fs)
      && r.state.castleMaxHealth == b.state.castleMaxHealth
      && r.state.mana == b.state.mana
      && r.state.wave == b.state.wave
      && r.running == (b.running && (BreachTotal(fs) == 0 || BreachTotal(fs) < b.state.castleHealth))
      && b.events <= r.events
  {
    BreachTotalNonNegative(fs);
    if fs != [] {
      SettleAllEffect(b, fs[1..]);
      BreachTotalNonNegative(fs[1..]);
    }
  }

  function Max0(h: int): int { if h >= 0 then h else 0 }

  /** The sweep keeps the castle's health within [0, castleMaxHealth]. */
  lemma SettleAllKeepsHealthInRange(b: Book, fs: seq<Fate>)
    requires 0 <= b.state.castleHealth <= b.state.castleMaxHealth
    ensures 0 <= SettleAll(b, fs).state.castleHealth <= SettleAll(b, fs).state.castleMaxHealth
  {
    SettleAllEffect(b, fs);
    BreachTotalNonNegative(fs);
  }

  /** Rewards are never negative, so neither is the bounty. */
  lemma {:induction false} BountyNonNegative(fs: seq<Fate>)
    requires forall i :: 0 <= i < |fs| ==> fs[i].Slain? ==> fs[i].reward >= 0
    ensures Bounty(fs) >= 0
  {
    if fs != [] {
      BountyNonNegative(fs[1..]);
    }
  }

  /** Number of `GameOver` events in a sequence of callbacks. */
  function GameOvers(es: seq<Event>): nat
  {
    if es == [] then 0 else (if es[0].GameOver? then 1 else 0) + GameOvers(es[1..])
  }

  lemma {:induction false} GameOversAppend(a: seq<Event>, b: seq<Event>)
    ensures GameOvers(a + b) == GameOvers(a) + GameOvers(b)
  {
    if a == [] {
      assert a + b == b;
    } else {
      assert (a + b)[1..] == a[1..] + b;
      GameOversAppend(a[1..], b);
    }
  }

  /** Number of breaches among `fs`. */
  function Breaches(fs: seq<Fate>): nat
  {
    if fs == [] then 0 else (if fs[0].Breach? then 1 else 0) + Breaches(fs[1..])
  }

  /**
   * The sweep reports a defeat exactly when its breaches bring the castle
   * from health h down to 0 or below, and then once for every breach from
   * the fatal one on, so never more often than there are breaches.
   */
  lemma {:induction false} DefeatReports(b: Book, fs: seq<Fate>)
    requires b.state.castleHealth >= 0
    ensures var n := GameOvers(SettleAll(b, fs).events) - GameOvers(b.events);
      && 0 <= n <= Breaches(fs)
      && (n > 0 <==> BreachTotal(fs) > 0 && BreachTotal(fs) >= b.state.castleHealth)
  {
    if fs != [] {
      var rest := fs[1..];
      DefeatReports(b, rest);
      SettleAllEffect(b, rest);
      BreachTotalNonNegative(rest);
      var m := SettleAll(b, rest);
      var r := Settle(m, fs[0]);
      assert SettleAll(b, fs) == r;
      match fs[0]
      case Breach(isBoss) =>
        var hit := m.state.castleHealth - BreachDamage(isBoss);
        var su := StateUpdate(m.state.(castleHealth := hit));
        if hit <= 0 {
          var tail := [su, GameOver(false)];
          assert r.events == m.events + tail;
          GameOversAppend(m.events, tail);
          assert tail[1..] == [GameOver(false)] && tail[1..][1..] == [];
          assert GameOvers(tail[1..]) == 1;
          assert Breaches(fs) == 1 + Breaches(rest);
        } else {
          var tail := [su];
          assert r.events == m.events + tail;
          GameOversAppend(m.events, tail);
          assert tail[1..] == [];
        }
      case Slain(reward) =>
        var tail := [StateUpdate(m.state.(gold := m.state.gold + reward))];
        assert r.events == m.events + tail;
        GameOversAppend(m.events, tail);
        assert tail[1..] == [];
      case Alive =>
    }
  }

  /**
   * Game over is not signalled once per sweep: two ordinary enemies that
   * both reach a castle with 50 health left in the same tick make the
   * engine report the defeat twice. The first snapshot it hands out shows
   * the castle at 0, the second is taken before the clamp and shows -50.
   */
  lemma DefeatReportedTwice(st: GameState)
    requires st.castleHealth == 50
    ensures var r := SettleAll(Book(st, true, []), [Breach(false), Breach(false)]);
      && r.events == [StateUpdate(st.(castleHealth := 0)), GameOver(false),
                      StateUpdate(st.(castleHealth := -50)), GameOver(false)]
      && GameOvers(r.events) == 2
      && !r.running && r.state.castleHealth == 0
  {
    var b0 := Book(st, true, []);
    var fs := [Breach(false), Breach(false)];
    assert SettleAll(b0, fs[1..][1..]) == b0;
    assert SettleAll(b0, fs[1..]) == Settle(b0, Breach(false));
    var r := SettleAll(b0, fs);
    assert r == Settle(Settle(b0, Breach(false)), Breach(false));
    assert GameOvers(r.events[3..]) == 1;
    assert GameOvers(r.events[2..]) == 1;
    assert GameOvers(r.events[1..]) == 2;
  }

  /**
   * The boss flags of the enemies a wave spawns, in spawn order, when the
   * spawn counter runs down from `toSpawn` to 1.
   */
  function BossFlags(wave: nat, toSpawn: nat): seq<bool>
    decreases toSpawn
  {
    if toSpawn == 0 then [] else [IsBossSpawn(wave, toSpawn)] + BossFlags(wave, toSpawn - 1)
  }

  /**
   * The spawn counter's run over a wave: the k-th spawn of a wave started
   * with counter n is made with counter n - k (`Direct` spawns with the
   * counter, then lowers it by one, and leaves the wave alone). Along that
   * run, on a wave divisible by 5 the last spawn, and only that one, is a
   * boss, and on other waves there is no boss.
   */
  lemma {:induction false} WaveBossIsLast(wave: nat, n: nat)
    ensures |BossFlags(wave, n)| == n
    ensures forall k :: 0 <= k < n ==> BossFlags(wave, n)[k] == IsBossSpawn(wave, n - k)
    ensures forall k :: 0 <= k < n ==>
      (BossFlags(wave, n)[k] <==> wave % 5 == 0 && k == n - 1)
  {
    if n > 0 {
      WaveBossIsLast(wave, n - 1);
      forall k | 0 <= k < n
        ensures BossFlags(wave, n)[k] == IsBossSpawn(wave, n - k)
        ensures BossFlags(wave, n)[k] <==> wave % 5 == 0 && k == n - 1
      {
        if k > 0 {
          assert BossFlags(wave, n)[k] == BossFlags(wave, n - 1)[k - 1];
        }
      }
    }
  }
}
