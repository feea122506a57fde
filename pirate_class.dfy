/** The pirate record shared by the engine and the bot SDK (PirateClass.py, with
    the `location`/`owner`/`id`/`max_speed` fields it inherits). The owner is
    held as the owning player's id; a carried treasure is held as the
    treasure's id. */
module PirateClass {
  import opened Common
  import opened Locations

  datatype BasePirate = BasePirate(
    location: Location,
    owner: int,
    id: int,
    maxSpeed: int,
    initialLocation: Location,
    isLost: bool,
    turnsToRevive: int,
    reloadTurns: int,
    defenseReloadTurns: int,
    defenseExpirationTurns: int,
    maxDefenseTurns: int,
    turnsToSober: int,
    cloakTurns: int,
    treasure: Option<int>,
    attackRadius: int,
    carryTreasureSpeed: int,
    powerups: seq<string>)

  /** Every countdown is zero, nothing is carried, no powerup is held, the
      carrying speed is 1 and the pirate is not lost. */
  predicate IsPristine(p: BasePirate)
  {
    && !p.isLost
    && p.turnsToRevive == 0 && p.reloadTurns == 0
    && p.defenseReloadTurns == 0 && p.defenseExpirationTurns == 0
    && p.turnsToSober == 0 && p.cloakTurns == 0
    && p.treasure == None && p.carryTreasureSpeed == 1 && p.powerups == []
  }

  /** The constructor: the given identity and parameters, everything else at
      its default. */
  function NewBasePirate(location: Location, owner: int, id: int, maxSpeed: int,
                         initialLocation: Location, attackRadius: int,
                         maxDefenseTurns: int): (p: BasePirate)
    ensures IsPristine(p)
    ensures p.location == location && p.owner == owner && p.id == id
    ensures p.maxSpeed == maxSpeed && p.initialLocation == initialLocation
    ensures p.attackRadius == attackRadius && p.maxDefenseTurns == maxDefenseTurns
  {
    BasePirate(location, owner, id, maxSpeed, initialLocation, false, 0, 0, 0, 0,
               maxDefenseTurns, 0, 0, None, attackRadius, 1, [])
  }

  /** `has_treasure`. */
  predicate HasTreasure(p: BasePirate)
  {
    p.treasure.Some?
  }

  /** What `__eq__` may be handed: another pirate, or any other object. */
  datatype PirateComparand = APirate(pirate: BasePirate) | NotAPirate

  /** `__eq__`: same id and same owner; any other object is unequal. */
  function Equals(p: BasePirate, other: PirateComparand): (r: bool)
    ensures r <==> other.APirate? && other.pirate.id == p.id && other.pirate.owner == p.owner
  {
    match other
    case NotAPirate => false
    case APirate(q) => p.id == q.id && p.owner == q.owner
  }

  /** `__hash__`: `id * 10 + owner.id`. */
  function Hash(p: BasePirate): int
  {
    p.id * 10 + p.owner
  }

  /** Equality ignores location, timers and carried treasure: replacing a
      pirate by any record with the same id and owner changes no comparison. */
  lemma EqualsIgnoresState(p: BasePirate, p2: BasePirate, q: BasePirate)
    requires p2.id == p.id && p2.owner == p.owner
    ensures Equals(p2, APirate(q)) == Equals(p, APirate(q))
    ensures Equals(q, APirate(p2)) == Equals(q, APirate(p))
    ensures Equals(p, APirate(p2))
  {
  }

  /** Equality between pirates is an equivalence relation. */
  lemma EqualsIsEquivalence(p: BasePirate, q: BasePirate, s: BasePirate)
    ensures Equals(p, APirate(p))
    ensures Equals(p, APirate(q)) == Equals(q, APirate(p))
    ensures Equals(p, APirate(q)) && Equals(q, APirate(s)) ==> Equals(p, APirate(s))
  {
  }

  /** The hash agrees with equality, and for owner ids 0..9 (at most ten
      players) equal hashes mean equal pirates. */
  lemma HashMatchesEquality(p: BasePirate, q: BasePirate)
    requires 0 <= p.owner < 10 && 0 <= q.owner < 10
    ensures Hash(p) == Hash(q) <==> Equals(p, APirate(q))
  {
  }
}
