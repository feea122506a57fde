/** The upkeep phases of a turn in pirates.py (`do_sober`, `do_attack`,
    `do_defense`, `do_cloak`, `do_bermuda_effect`, `do_treasures`,
    `do_powerups`, `do_scripts`, `do_spawn`). Each phase walks the living (or
    dead) pirates in list order; a walk is a left fold of a per-pirate visit
    over the slots, carrying the pirates the visit set aside for a second
    loop (to sober up, to make drunk, to kill, to revive). */
module TurnPhases {
  import opened Common
  import opened Locations
  import opened PiratesEntities
  import opened PlayerClass
  import opened PiratesGrid
  import opened TurnState

  /** One step of a countdown: one less while positive. */
  function Countdown(n: int): int
  {
    if n > 0 then n - 1 else n
  }

  /** A countdown never goes below zero from a non-negative start and drops
      by exactly one while positive. */
  lemma CountdownBounds(n: int)
    ensures n >= 0 ==> 0 <= Countdown(n) <= n
    ensures Countdown(n) >= n - 1
    ensures Countdown(n) < n <==> n > 0
  {
  }

  /** The state of a walk: the world and the pirates set aside so far. */
  datatype Acc = Acc(w: World, marked: seq<Pirate>)

  /** Which walk, with the lists snapshotted before it starts. */
  datatype Sweep =
    | SoberSweep
    | AttackSweep
    | DefenseSweep
    | CloakSweep
    | BermudaSweep
    | TreasureSweep(available: seq<nat>)
    | PowerupSweep(availablePowerups: seq<nat>)
    | ScriptSweep(availableScripts: seq<nat>, availableAntiScripts: seq<nat>)

  /** The visit of one living pirate; a slot that is not there is skipped. */
  function Visit(cfg: Config, sw: Sweep, a: Acc, s: Slot): (r: Acc)
    ensures SameShape(a.w, r.w)
  {
    if !ValidSlot(a.w, s) then a
    else match sw
      case SoberSweep => SoberVisit(a, s)
      case AttackSweep => AttackVisit(cfg, a, s)
      case DefenseSweep => Acc(SetAt(a.w, s, DefenseUpkeep(cfg, a.w.turn, At(a.w, s))), a.marked)
      case CloakSweep => Acc(SetAt(a.w, s, CloakUpkeep(At(a.w, s))), a.marked)
      case BermudaSweep =>
        if InEnemyZone(a.w.zones, At(a.w, s)) then Acc(a.w, a.marked + [At(a.w, s)]) else a
      case TreasureSweep(available) => TreasureVisit(cfg, available, a, s)
      case PowerupSweep(available) => PowerupVisit(cfg, available, a, s)
      case ScriptSweep(scripts, antiScripts) => ScriptVisit(scripts, antiScripts, a, s)
  }

  /** The walk over a list of slots, in order. */
  function Run(cfg: Config, sw: Sweep, a: Acc, slots: seq<Slot>): (r: Acc)
    ensures SameShape(a.w, r.w)
    decreases |slots|
  {
    if slots == [] then a
    else
      var r := Visit(cfg, sw, Run(cfg, sw, a, slots[..|slots| - 1]), slots[|slots| - 1]);
      SameShapeTransitive(a.w, Run(cfg, sw, a, slots[..|slots| - 1]).w, r.w);
      r
  }

  /** One more slot of a walk is one more visit. */
  lemma RunStep(cfg: Config, sw: Sweep, a: Acc, slots: seq<Slot>, i: nat)
    requires i < |slots|
    ensures Run(cfg, sw, a, slots[..i + 1]) == Visit(cfg, sw, Run(cfg, sw, a, slots[..i]), slots[i])
  {
    assert slots[..i + 1][..i] == slots[..i];
  }

  /** One visit of the sober walk, on a slot that may be missing. */
  lemma SoberVisitStep(cfg: Config, w: World, marked: seq<Pirate>, s: Slot)
    ensures Visit(cfg, SoberSweep, Acc(w, marked), s)
         == if ValidSlot(w, s) then SoberVisit(Acc(w, marked), s) else Acc(w, marked)
  {
  }

  /** One visit of the defense walk: the pirate's defense and reload count down. */
  lemma DefenseVisitStep(cfg: Config, w: World, s: Slot)
    ensures Visit(cfg, DefenseSweep, Acc(w, []), s)
         == if ValidSlot(w, s) then Acc(SetAt(w, s, DefenseUpkeep(cfg, w.turn, At(w, s))), []) else Acc(w, [])
  {
  }

  /** One visit of the cloak walk: the pirate's cloak counts down. */
  lemma CloakVisitStep(cfg: Config, w: World, s: Slot)
    ensures Visit(cfg, CloakSweep, Acc(w, []), s)
         == if ValidSlot(w, s) then Acc(SetAt(w, s, CloakUpkeep(At(w, s))), []) else Acc(w, [])
  {
  }

  /** The walk over every living pirate, starting with nothing set aside. */
  function Walk(cfg: Config, sw: Sweep, w: World): Acc
  {
    Run(cfg, sw, Acc(w, []), LivingSlots(w))
  }

  // ---------------------------------------------------------------- sober

  /** Whether the pirate is in `drunk_pirates` (its owner's list holds its id). */
  predicate IsDrunk(w: World, p: Pirate)
  {
    0 <= p.base.owner < |w.players| && p.base.id in w.players[p.base.owner].drunk
  }

  /** A drunk pirate counts down `turnsToSober`; one that reaches zero is set aside. */
  function SoberVisit(a: Acc, s: Slot): (r: Acc)
    requires ValidSlot(a.w, s)
    ensures SameShape(a.w, r.w)
  {
    var p := At(a.w, s);
    if IsDrunk(a.w, p) then
      var q := p.(base := p.base.(turnsToSober := Countdown(p.base.turnsToSober)));
      Acc(SetAt(a.w, s, q), if q.base.turnsToSober == 0 then a.marked + [q] else a.marked)
    else a
  }

  /** The second loop of `do_sober`: each sobered pirate leaves its owner's drunk list. */
  function SoberUp(w: World, ps: seq<Pirate>): (r: World)
    ensures SameShape(w, r)
    ensures forall o :: 0 <= o < |w.players| ==>
              r.players[o] == w.players[o].(drunk := r.players[o].drunk)
    ensures r == w.(players := r.players)
    decreases |ps|
  {
    if ps == [] then w
    else
      var w1 := SoberUp(w, ps[..|ps| - 1]);
      var p := ps[|ps| - 1];
      var o := p.base.owner;
      if 0 <= o < |w1.players|
      then WithPlayer(w1, o, w1.players[o].(drunk := RemoveFirst(w1.players[o].drunk, p.base.id)))
      else w1
  }

  /** `do_sober`. */
  function SoberPhase(cfg: Config, w: World): World
  {
    var a := Walk(cfg, SoberSweep, w);
    SoberUp(a.w, a.marked)
  }

  // --------------------------------------------------------------- attack

  /** Whether a pirate with that owner and id is among `ps` (set membership by
      the pirates' equality). */
  predicate Listed(ps: seq<Pirate>, p: Pirate)
  {
    exists j :: 0 <= j < |ps| && ps[j].base.id == p.base.id && ps[j].base.owner == p.base.owner
  }

  /** The enemy of a player in a two-player game. */
  function Enemy(owner: int): int
  {
    (owner + 1) % 2
  }

  /** One pirate of `do_attack`: without an attack this turn its reload counts
      down; with one it reloads (unless an attack powerup is on) and, when the
      target is a living enemy in range, sober and not defending this turn,
      the target is set aside to get drunk and loses its treasure, to the
      attacker when a rob powerup is on and back to the map otherwise. */
  function AttackVisit(cfg: Config, a: Acc, s: Slot): (r: Acc)
    requires ValidSlot(a.w, s)
    ensures SameShape(a.w, r.w)
  {
    var p := At(a.w, s);
    if LastAttackTurn(p) != a.w.turn then
      Acc(SetAt(a.w, s, p.(base := p.base.(reloadTurns := Countdown(p.base.reloadTurns)))), a.marked)
    else
      var p1 := if p.attackPowerupActiveTurns == 0 then p.(base := p.base.(reloadTurns := cfg.reloadTurns)) else p;
      var w1 := SetAt(a.w, s, p1);
      var e := Enemy(p.base.owner);
      var target := if e < |w1.players| then FirstWithId(w1.players[e].living, LastAttackTarget(p)) else None;
      match target
      case None => Acc(w1, a.marked)
      case Some(k) =>
        var t := w1.players[e].living[k];
        if InCircle(p1.base.location, p1.base.attackRadius, t.base.location)
           && t.base.turnsToSober == 0 && LastDefenseTurn(t) != a.w.turn then
          var marked := if Listed(a.marked, t) then a.marked else a.marked + [t];
          match t.base.treasure
          case None => Acc(w1, marked)
          case Some(tk) =>
            var w2 := if p1.robPowerupActiveTurns > 0
                      then SetAt(w1, s, p1.(base := p1.base.(treasure := Some(tk))))
                      else w1.(treasures := Release(w1.treasures, tk));
            Acc(SetAt(w2, Slot(e, k), t.(base := t.base.(treasure := None))), marked)
        else Acc(w1, a.marked)
  }

  /** The second loop of `do_attack`: each hit target gets drunk. */
  function DrunkAll(cfg: Config, w: World, ps: seq<Pirate>): (r: World)
    ensures SameShape(w, r)
    decreases |ps|
  {
    if ps == [] then w
    else
      var w1 := DrunkAll(cfg, w, ps[..|ps| - 1]);
      var r := DrunkPirate(cfg, w1, ps[|ps| - 1]);
      SameShapeTransitive(w, w1, r);
      r
  }

  /** `do_attack` (two players). */
  function AttackPhase(cfg: Config, w: World): World
  {
    var a := Walk(cfg, AttackSweep, w);
    DrunkAll(cfg, a.w, a.marked)
  }

  // -------------------------------------------------------- defense, cloak

  /** One pirate of `do_defense`: a defense started this turn (full expiration
      counter, logged this turn) starts the reload; otherwise the reload counts
      down. The expiration counter counts down either way. */
  function DefenseUpkeep(cfg: Config, turn: int, p: Pirate): Pirate
  {
    var reload := if p.base.defenseExpirationTurns == p.base.maxDefenseTurns && LastDefenseTurn(p) == turn
                  then cfg.defenseReloadTurns
                  else Countdown(p.base.defenseReloadTurns);
    p.(base := p.base.(defenseReloadTurns := reload,
                       defenseExpirationTurns := Countdown(p.base.defenseExpirationTurns)))
  }

  /** One pirate of `do_cloak`. */
  function CloakUpkeep(p: Pirate): Pirate
  {
    p.(base := p.base.(cloakTurns := Countdown(p.base.cloakTurns)))
  }

  // -------------------------------------------------------------- bermuda

  /** Whether the pirate stands in an active zone of another player. */
  predicate InEnemyZone(zones: seq<BermudaZone>, p: Pirate)
  {
    exists k :: 0 <= k < |zones| && zones[k].owner != p.base.owner && zones[k].activeTurns > 0
                && InCircle(zones[k].center, zones[k].radius, p.base.location)
  }

  /** One visit of the Bermuda walk: a living pirate in an enemy zone is set aside. */
  lemma BermudaVisit(cfg: Config, w: World, marked: seq<Pirate>, s: Slot)
    ensures Visit(cfg, BermudaSweep, Acc(w, marked), s)
         == if ValidSlot(w, s) && InEnemyZone(w.zones, At(w, s)) then Acc(w, marked + [At(w, s)]) else Acc(w, marked)
  {
  }

  /** Kills the pirates in order. */
  function KillAll(cfg: Config, w: World, ps: seq<Pirate>): World
    decreases |ps|
  {
    if ps == [] then w else KillPirate(cfg, KillAll(cfg, w, ps[..|ps| - 1]), ps[|ps| - 1])
  }

  /** The zone upkeep of `do_bermuda_effect`. */
  function ZoneUpkeep(z: BermudaZone): BermudaZone
  {
    z.(activeTurns := Countdown(z.activeTurns))
  }

  /** `do_bermuda_effect`: kills the pirates found in an enemy zone, then every zone counts down. */
  function BermudaPhase(cfg: Config, w: World): World
  {
    var a := Walk(cfg, BermudaSweep, w);
    var w1 := KillAll(cfg, a.w, a.marked);
    w1.(zones := seq(|w1.zones|, k requires 0 <= k < |w1.zones| => ZoneUpkeep(w1.zones[k])))
  }

  // ---------------------------------------------------- treasures, powerups

  /** The first index of `available` whose element lies on `l` (the `next(...)`
      searches over the snapshotted lists). */
  function FirstOn(locs: seq<Location>, available: seq<nat>, l: Location): (r: Option<nat>)
    ensures r.Some? ==> r.value in available && r.value < |locs| && locs[r.value] == l
    ensures r.None? ==> forall k :: k in available && k < |locs| ==> locs[k] != l
  {
    if available == [] then None
    else if available[0] < |locs| && locs[available[0]] == l then Some(available[0])
    else FirstOn(locs, available[1..], l)
  }

  function TreasureLocations(ts: seq<Treasure>): (r: seq<Location>)
    ensures |r| == |ts| && forall k :: 0 <= k < |ts| ==> r[k] == ts[k].location
  {
    seq(|ts|, k requires 0 <= k < |ts| => ts[k].location)
  }

  /** The indices of the available treasures, in order. */
  function AvailableTreasures(ts: seq<Treasure>): (r: seq<nat>)
    ensures forall k: nat :: k in r <==> k < |ts| && ts[k].isAvailable
  {
    if ts == [] then []
    else
      var last := |ts| - 1;
      AvailableTreasures(ts[..last]) + (if ts[last].isAvailable then [last] else [])
  }

  /** One pirate of `do_treasures`: a carrier on its initial location unloads
      (the owner scores the treasure's value and the treasure starts its spawn
      countdown); a pirate with empty hands that is not drunk picks up the
      first snapshotted treasure on its square, which becomes unavailable. */
  function TreasureVisit(cfg: Config, available: seq<nat>, a: Acc, s: Slot): (r: Acc)
    requires ValidSlot(a.w, s)
    ensures SameShape(a.w, r.w)
    ensures r.marked == a.marked
  {
    var w := a.w;
    var p := At(w, s);
    var o := p.base.owner;
    match p.base.treasure
    case Some(k) =>
      if p.base.location != p.base.initialLocation || !(0 <= k < |w.treasures|) then a
      else
        var w1 := SetAt(w, s, p.(base := p.base.(treasure := None)));
        var w2 := w1.(treasures := w.treasures[k := w.treasures[k].(spawnTurns := cfg.treasureSpawnTurns)]);
        if 0 <= o < |w2.players|
        then Acc(WithPlayer(w2, o, w2.players[o].(score := w2.players[o].score + w.treasures[k].value)), a.marked)
        else Acc(w2, a.marked)
    case None =>
      if IsDrunk(w, p) then a
      else match FirstOn(TreasureLocations(w.treasures), available, p.base.location)
        case None => a
        case Some(k) =>
          var w1 := SetAt(w, s, p.(base := p.base.(treasure := Some(k))));
          Acc(w1.(treasures := w.treasures[k := w.treasures[k].(isAvailable := false)]), a.marked)
  }

  /** The treasure upkeep of `do_treasures`: the spawn countdown runs and a
      treasure whose countdown reaches zero is available again (countdown -1). */
  function TreasureUpkeep(t: Treasure): Treasure
  {
    var n := Countdown(t.spawnTurns);
    if n == 0 then t.(spawnTurns := -1, isAvailable := true) else t.(spawnTurns := n)
  }

  /** `do_treasures`. */
  function TreasurePhase(cfg: Config, w: World): World
  {
    var w1 := Walk(cfg, TreasureSweep(AvailableTreasures(w.treasures)), w).w;
    w1.(treasures := seq(|w1.treasures|, k requires 0 <= k < |w1.treasures| => TreasureUpkeep(w1.treasures[k])))
  }

  function PowerupLocations(ps: seq<Powerup>): (r: seq<Location>)
    ensures |r| == |ps| && forall k :: 0 <= k < |ps| ==> r[k] == ps[k].location
  {
    seq(|ps|, k requires 0 <= k < |ps| => ps[k].location)
  }

  /** Indices of the powerups on the map this turn (`start <= turn < end`). */
  function AvailablePowerups(ps: seq<Powerup>, turn: int): (r: seq<nat>)
    ensures forall k: nat :: k in r <==> k < |ps| && ps[k].startTurn <= turn < ps[k].endTurn
  {
    if ps == [] then []
    else
      var last := |ps| - 1;
      AvailablePowerups(ps[..last], turn)
      + (if ps[last].startTurn <= turn < ps[last].endTurn then [last] else [])
  }

  /** The timer upkeep of `do_powerups`: an active powerup counts down, an
      expired one is taken away (attack radius back to the default, "rob" and
      "speed" dropped from the list, carrying speed back to 1). */
  function PowerupUpkeep(cfg: Config, p: Pirate): Pirate
  {
    var p1 := if p.attackPowerupActiveTurns > 0
              then p.(attackPowerupActiveTurns := p.attackPowerupActiveTurns - 1)
              else p.(base := p.base.(attackRadius := cfg.attackRadius));
    var p2 := if p1.robPowerupActiveTurns > 0
              then p1.(robPowerupActiveTurns := p1.robPowerupActiveTurns - 1)
              else p1.(base := p1.base.(powerups := RemoveFirst(p1.base.powerups, "rob")));
    if p2.speedPowerupActiveTurns > 0
    then p2.(speedPowerupActiveTurns := p2.speedPowerupActiveTurns - 1)
    else p2.(base := p2.base.(powerups := RemoveFirst(p2.base.powerups, "speed"), carryTreasureSpeed := 1))
  }

  /** One pirate of `do_powerups`: timer upkeep, then the first snapshotted
      powerup on its square ends this turn and is activated on the pirate. */
  function PowerupVisit(cfg: Config, available: seq<nat>, a: Acc, s: Slot): (r: Acc)
    requires ValidSlot(a.w, s)
    ensures SameShape(a.w, r.w)
    ensures r.marked == a.marked
  {
    var p := PowerupUpkeep(cfg, At(a.w, s));
    match FirstOn(PowerupLocations(a.w.powerups), available, p.base.location)
    case None => Acc(SetAt(a.w, s, p), a.marked)
    case Some(k) =>
      var pw := a.w.powerups[k].(endTurn := a.w.turn);
      Acc(SetAt(a.w, s, Activate(pw, p)).(powerups := a.w.powerups[k := pw]), a.marked)
  }

  /** `do_powerups`. */
  function PowerupPhase(cfg: Config, w: World): World
  {
    Walk(cfg, PowerupSweep(AvailablePowerups(w.powerups, w.turn)), w).w
  }

  /** The three powerup countdowns of a pirate are not negative. */
  predicate TimersNonNegative(p: Pirate)
  {
    p.attackPowerupActiveTurns >= 0 && p.robPowerupActiveTurns >= 0 && p.speedPowerupActiveTurns >= 0
  }

  /** Timer upkeep never moves a pirate or changes its owner, keeps the
      countdowns non-negative, and a countdown at zero means the powerup's
      effect is gone: the default attack radius, carrying speed 1. */
  lemma PowerupUpkeepCountsDown(cfg: Config, p: Pirate)
    requires TimersNonNegative(p)
    ensures TimersNonNegative(PowerupUpkeep(cfg, p))
    ensures PowerupUpkeep(cfg, p).base.location == p.base.location
    ensures PowerupUpkeep(cfg, p).base.owner == p.base.owner
    ensures p.attackPowerupActiveTurns == 0 ==> PowerupUpkeep(cfg, p).base.attackRadius == cfg.attackRadius
    ensures p.speedPowerupActiveTurns == 0 ==> PowerupUpkeep(cfg, p).base.carryTreasureSpeed == 1
  {
  }

  /** An expired rob powerup loses one "rob" entry from the pirate's list;
      dropping "speed" leaves the "rob" entries alone. */
  lemma PowerupUpkeepDropsRob(cfg: Config, p: Pirate)
    requires p.robPowerupActiveTurns == 0 && "rob" in p.base.powerups
    ensures multiset(PowerupUpkeep(cfg, p).base.powerups)["rob"] == multiset(p.base.powerups)["rob"] - 1
  {
    var held := RemoveFirst(p.base.powerups, "rob");
    assert multiset(held)["rob"] == multiset(p.base.powerups)["rob"] - 1;
    if p.speedPowerupActiveTurns > 0 {
      assert PowerupUpkeep(cfg, p).base.powerups == held;
    } else {
      assert PowerupUpkeep(cfg, p).base.powerups == RemoveFirst(held, "speed");
      assert multiset(RemoveFirst(held, "speed"))["rob"] == multiset(held)["rob"];
    }
  }

  /** A visit changes at most one powerup, and only one that was on the map
      this turn, on the visiting pirate's square: it ends this turn and the
      pirate, after its timer upkeep, holds it. Without such a powerup the
      pirate only gets its upkeep. */
  lemma PowerupVisitTakes(cfg: Config, available: seq<nat>, a: Acc, s: Slot, k: nat)
    requires ValidSlot(a.w, s) && k < |a.w.powerups|
    ensures |PowerupVisit(cfg, available, a, s).w.powerups| == |a.w.powerups|
    ensures var r := PowerupVisit(cfg, available, a, s);
            r.w.powerups[k] != a.w.powerups[k] ==>
              && k in available
              && a.w.powerups[k].location == At(a.w, s).base.location
              && r.w.powerups[k] == a.w.powerups[k].(endTurn := a.w.turn)
              && At(r.w, s) == Activate(r.w.powerups[k], PowerupUpkeep(cfg, At(a.w, s)))
    ensures (forall j :: j in available && j < |a.w.powerups| ==> a.w.powerups[j].location != At(a.w, s).base.location) ==>
              PowerupVisit(cfg, available, a, s).w == SetAt(a.w, s, PowerupUpkeep(cfg, At(a.w, s)))
  {
  }

  // -------------------------------------------------------------- scripts

  function ScriptLocations(ss: seq<Script>): (r: seq<Location>)
    ensures |r| == |ss| && forall k :: 0 <= k < |ss| ==> r[k] == ss[k].location
  {
    seq(|ss|, k requires 0 <= k < |ss| => ss[k].location)
  }

  /** Indices of the scripts on the map this turn (`start <= turn < end`). */
  function AvailableScripts(ss: seq<Script>, turn: int): (r: seq<nat>)
    ensures forall k: nat :: k in r <==> k < |ss| && ss[k].startTurn <= turn < ss[k].endTurn
  {
    if ss == [] then []
    else
      var last := |ss| - 1;
      AvailableScripts(ss[..last], turn)
      + (if ss[last].startTurn <= turn < ss[last].endTurn then [last] else [])
  }

  /** One pirate of `do_scripts`: a script on its square ends this turn and
      gives the owner one script; then an anti-script on its square ends this
      turn and takes one script away if the owner has any. */
  function ScriptVisit(scripts: seq<nat>, antiScripts: seq<nat>, a: Acc, s: Slot): (r: Acc)
    requires ValidSlot(a.w, s)
    ensures SameShape(a.w, r.w)
    ensures r.marked == a.marked
  {
    var w := a.w;
    var p := At(w, s);
    var o := p.base.owner;
    var w1 := match FirstOn(ScriptLocations(w.scripts), scripts, p.base.location)
      case None => w
      case Some(k) =>
        var v := w.(scripts := w.scripts[k := w.scripts[k].(endTurn := w.turn)]);
        if 0 <= o < |v.players| then WithPlayer(v, o, v.players[o].(numScripts := v.players[o].numScripts + 1)) else v;
    var w2 := match FirstOn(ScriptLocations(w1.antiScripts), antiScripts, p.base.location)
      case None => w1
      case Some(k) =>
        var v := w1.(antiScripts := w1.antiScripts[k := w1.antiScripts[k].(endTurn := w1.turn)]);
        if 0 <= o < |v.players| && v.players[o].numScripts > 0
        then WithPlayer(v, o, v.players[o].(numScripts := v.players[o].numScripts - 1))
        else v;
    Acc(w2, a.marked)
  }

  /** `do_scripts`. */
  function ScriptPhase(cfg: Config, w: World): World
  {
    Walk(cfg, ScriptSweep(AvailableScripts(w.scripts, w.turn), AvailableScripts(w.antiScripts, w.turn)), w).w
  }

  // ---------------------------------------------------------------- spawn

  /** A dead pirate's place: `players[owner].dead[index]`. */
  predicate ValidDeadSlot(w: World, d: Slot)
  {
    d.owner < |w.players| && d.index < |w.players[d.owner].dead|
  }

  /** The slots of the dead pirates, player by player (the `dead_pirates` list). */
  function DeadSlots(ps: seq<PlayerState>): (r: seq<Slot>)
    ensures forall k :: 0 <= k < |r| ==> r[k].owner < |ps| && r[k].index < |ps[r[k].owner].dead|
  {
    if ps == [] then []
    else
      var last := |ps| - 1;
      DeadSlots(ps[..last]) + seq(|ps[last].dead|, i requires 0 <= i => Slot(last, i))
  }

  /** No dead list got shorter. */
  predicate DeadKept(w1: World, w2: World)
  {
    && |w1.players| == |w2.players|
    && forall o :: 0 <= o < |w1.players| ==> |w1.players[o].dead| <= |w2.players[o].dead|
  }

  /** One dead pirate of `do_spawn`: when its wait is over, a pirate standing
      on its initial location is killed, and otherwise the dead pirate is set
      aside to revive; while waiting, the wait counts down. */
  function SpawnVisit(cfg: Config, a: Acc, d: Slot): (r: Acc)
    ensures DeadKept(a.w, r.w)
  {
    if !ValidDeadSlot(a.w, d) then a
    else
      var st := a.w.players[d.owner];
      var p := st.dead[d.index];
      if p.base.turnsToRevive <= 0 then
        match FirstAt(AllLiving(a.w), p.base.initialLocation)
        case Some(occupier) => Acc(KillPirate(cfg, a.w, occupier), a.marked)
        case None => Acc(a.w, a.marked + [p])
      else
        var q := p.(base := p.base.(turnsToRevive := p.base.turnsToRevive - 1));
        Acc(WithPlayer(a.w, d.owner, st.(dead := st.dead[d.index := q])), a.marked)
  }

  function SpawnRun(cfg: Config, a: Acc, slots: seq<Slot>): (r: Acc)
    ensures DeadKept(a.w, r.w)
    decreases |slots|
  {
    if slots == [] then a else SpawnVisit(cfg, SpawnRun(cfg, a, slots[..|slots| - 1]), slots[|slots| - 1])
  }

  /** The second loop of `do_spawn` for one pirate: it leaves its owner's dead
      list and a fresh pirate with the same id takes its initial location. */
  function Revive(cfg: Config, w: World, p: Pirate): World
  {
    var o := p.base.owner;
    var reborn := NewPirate(p.base.initialLocation, o, p.base.id, cfg.attackRadius, cfg.maxDefenseTurns, w.turn);
    var w1 := w.(board := w.board[p.base.initialLocation := o]);
    if 0 <= o < |w.players| then
      var st := w.players[o];
      WithPlayer(w1, o, st.(dead := RemoveFirstWithId(st.dead, p.base.id),
                            allPirates := st.allPirates + [reborn],
                            living := st.living + [reborn]))
    else w1
  }

  function ReviveAll(cfg: Config, w: World, ps: seq<Pirate>): World
    decreases |ps|
  {
    if ps == [] then w else Revive(cfg, ReviveAll(cfg, w, ps[..|ps| - 1]), ps[|ps| - 1])
  }

  /** `do_spawn`. */
  function SpawnPhase(cfg: Config, w: World): World
  {
    var a := SpawnRun(cfg, Acc(w, []), DeadSlots(w.players));
    ReviveAll(cfg, a.w, a.marked)
  }

  /** `do_defense`. */
  function DefensePhase(cfg: Config, w: World): World
  {
    Walk(cfg, DefenseSweep, w).w
  }

  /** `do_cloak`. */
  function CloakPhase(cfg: Config, w: World): World
  {
    Walk(cfg, CloakSweep, w).w
  }
}
