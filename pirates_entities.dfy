/** The engine-side entities of the pirates game (pirates.py: `Pirate`,
    `Treasure`, the three `Powerup` kinds, `Script`, `BermudaZone`), the shape
    of an order as a bot sends it, and the game settings the rules read. */
module PiratesEntities {
  import opened Common
  import opened Locations
  import opened PirateClass

  /** `attack_turns`: `[turn, target, turn, target, ...]`, seeded with
      `[-1000, -1]`, so the last attack turn and target always exist. */
  type AttackLog = s: seq<int> | |s| >= 2 witness [-1000, -1]

  /** `defense_turns`: the turns the defense aura was on, seeded with `[-1000]`. */
  type DefenseLog = s: seq<int> | |s| >= 1 witness [-1000]

  /** The engine's pirate: the shared record plus the engine-only fields the
      rules read. */
  datatype Pirate = Pirate(
    base: BasePirate,
    spawnTurn: int,
    attackTurns: AttackLog,
    defenseTurns: DefenseLog,
    attackPowerupActiveTurns: int,
    robPowerupActiveTurns: int,
    speedPowerupActiveTurns: int)

  /** The turn of the most recent attack order, `attack_turns[-2]`. */
  function LastAttackTurn(p: Pirate): int { p.attackTurns[|p.attackTurns| - 2] }

  /** The target id of the most recent attack order, `attack_turns[-1]`. */
  function LastAttackTarget(p: Pirate): int { p.attackTurns[|p.attackTurns| - 1] }

  /** The last turn the defense aura was on, `defense_turns[-1]`. */
  function LastDefenseTurn(p: Pirate): int { p.defenseTurns[|p.defenseTurns| - 1] }

  /** `Pirate.__init__`: a pristine pirate standing on its initial location,
      speed 6, with empty attack/defense logs and no powerup timers. */
  function NewPirate(location: Location, owner: int, id: int, attackRadius: int,
                     maxDefenseTurns: int, spawnTurn: int): (p: Pirate)
    ensures IsPristine(p.base)
    ensures p.base.location == location && p.base.initialLocation == location
    ensures p.base.owner == owner && p.base.id == id && p.base.maxSpeed == 6
    ensures p.base.attackRadius == attackRadius && p.base.maxDefenseTurns == maxDefenseTurns
    ensures p.spawnTurn == spawnTurn && LastAttackTurn(p) == -1000 && LastDefenseTurn(p) == -1000
    ensures p.attackPowerupActiveTurns == 0 && p.robPowerupActiveTurns == 0
    ensures p.speedPowerupActiveTurns == 0
  {
    Pirate(NewBasePirate(location, owner, id, 6, location, attackRadius, maxDefenseTurns),
           spawnTurn, [-1000, -1], [-1000], 0, 0, 0)
  }

  datatype Treasure = Treasure(
    id: int,
    location: Location,
    value: int,
    initialLocation: Location,
    isAvailable: bool,
    spawnTurns: int)

  /** `Treasure.__init__` without an explicit initial location. */
  function NewTreasure(id: int, location: Location, value: int): (t: Treasure)
    ensures t.id == id && t.location == location && t.initialLocation == location
    ensures t.value == value && t.isAvailable && t.spawnTurns == -1
  {
    Treasure(id, location, value, location, true, -1)
  }

  /** The three powerup classes differ only in what `activate` does. */
  datatype PowerupKind = AttackKind(attackRadius: int) | RobKind | SpeedKind(carryTreasureSpeed: int)

  datatype Powerup = Powerup(
    id: int,
    location: Location,
    startTurn: int,
    endTurn: int,
    activeTurns: int,
    kind: PowerupKind)

  /** `activate` of each powerup class. */
  function Activate(pw: Powerup, p: Pirate): (r: Pirate)
    ensures r.base.powerups == p.base.powerups + [match pw.kind
        case AttackKind(_) => "attack" case RobKind => "rob" case SpeedKind(_) => "speed"]
    ensures pw.kind.AttackKind? ==>
              && r.base.reloadTurns == 0
              && r.base.attackRadius == pw.kind.attackRadius
              && r.attackPowerupActiveTurns == pw.activeTurns
    ensures pw.kind.RobKind? ==> r.robPowerupActiveTurns == pw.activeTurns
    ensures pw.kind.SpeedKind? ==>
              && r.base.carryTreasureSpeed == pw.kind.carryTreasureSpeed
              && r.speedPowerupActiveTurns == pw.activeTurns
    ensures r.base.location == p.base.location && r.base.id == p.base.id
    ensures r.base.owner == p.base.owner && r.base.treasure == p.base.treasure
    ensures r.base.turnsToSober == p.base.turnsToSober
  {
    match pw.kind
    case AttackKind(radius) =>
      p.(base := p.base.(attackRadius := radius, reloadTurns := 0,
                         powerups := p.base.powerups + ["attack"]),
         attackPowerupActiveTurns := pw.activeTurns)
    case RobKind =>
      p.(base := p.base.(powerups := p.base.powerups + ["rob"]),
         robPowerupActiveTurns := pw.activeTurns)
    case SpeedKind(speed) =>
      p.(base := p.base.(carryTreasureSpeed := speed, powerups := p.base.powerups + ["speed"]),
         speedPowerupActiveTurns := pw.activeTurns)
  }

  /** Scripts and anti-scripts share one class. */
  datatype Script = Script(id: int, location: Location, startTurn: int, endTurn: int)

  datatype BermudaZone = BermudaZone(owner: int, activeTurns: int, startTurn: int,
                                     center: Location, radius: int)

  /** One JSON value a bot may put in an order. A JSON `true`/`false` arrives
      as Python's `True`/`False`, which are the integers 1 and 0, so it is an
      `IntArg`. A number written with a fraction or an exponent is a float,
      kept only as the integer it equals when it has no fractional part
      (`whole`). A list of two integers is a `PairArg`; a list of two anything
      else is an `OtherArg`, since no rule reads its elements then. */
  datatype ArgValue = NullArg | IntArg(i: int) | FloatArg(whole: Option<int>) | PairArg(first: int, second: int) | OtherArg

  /** Python's `id == a` for a pirate id: an integer equals its own value and
      a float equals the integer of the same value. */
  predicate EqualsId(a: ArgValue, id: int)
  {
    match a
    case IntArg(i) => i == id
    case FloatArg(whole) => whole == Some(id)
    case _ => false
  }

  /** The one pirate id an argument equals, if any. */
  function IdOf(a: ArgValue): (r: Option<int>)
    ensures r.Some? ==> EqualsId(a, r.value)
  {
    match a
    case IntArg(i) => Some(i)
    case FloatArg(whole) => whole
    case _ => None
  }

  /** An order dictionary: the four keys the engine reads, each possibly
      missing, and the number of any other keys. */
  datatype RawOrder = RawOrder(
    kind: Option<string>,
    orderType: Option<string>,
    actingPirate: Option<ArgValue>,
    orderArgs: Option<map<string, ArgValue>>,
    otherKeys: nat)

  /** `len(order)`: the number of keys of the dictionary. */
  function KeyCount(o: RawOrder): nat
  {
    (if o.kind.Some? then 1 else 0) + (if o.orderType.Some? then 1 else 0)
    + (if o.actingPirate.Some? then 1 else 0) + (if o.orderArgs.Some? then 1 else 0)
    + o.otherKeys
  }

  /** The settings the rules read (from the options and the map). */
  datatype Config = Config(
    height: int,
    width: int,
    cyclic: bool,
    numPlayers: int,
    attackRadius: int,
    reloadTurns: int,
    defenseReloadTurns: int,
    maxDefenseTurns: int,
    turnsToSober: int,
    bermudaZoneRadius: int,
    bermudaZoneActiveTurns: int,
    requiredScriptsNum: int,
    actionsPerTurn: int,
    pirateSpawnTurns: int,
    treasureSpawnTurns: int,
    cloakDuration: int,
    maxPoints: int)

  /** The map has at least one row and one column (every modulo by its size is defined). */
  predicate ValidConfig(cfg: Config)
  {
    cfg.height > 0 && cfg.width > 0
  }

  /** Map cell contents of `self.map`: a player id, or one of these. */
  const LAND: int := -1
  const TREASURE: int := -2
}
