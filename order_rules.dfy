/** How one player's batch of orders is classified (pirates.py `parse_order`,
    `validate_order`, `do_moves`): every order is checked against the pirate
    it names and against the scratch counters the batch threads through, and
    later failures pull orders that were already accepted back out of the
    valid list. */
module OrderRules {
  import opened Common
  import opened Locations
  import opened PirateClass
  import opened PiratesEntities
  import opened PlayerClass
  import opened PiratesGrid

  /** Where a single order ends up. `Crash` is a `KeyError` (a missing key of
      the order, or the `'-'` step of a move to the pirate's own square): it is
      not caught and ends `do_moves` itself. */
  datatype Verdict =
    | Valid
    | Ignored(reason: string)
    | Invalid(reason: string)
    | StepLimit(reason: string)
    | AlreadyActed(pirateId: int, reason: string)
    | Crash(key: string)

  /** `counter_dict`: the pirates that acted, the movement steps spent and the
      two once-per-batch flags. Pirates are held by id (all belong to the
      ordering player, and a pirate equals another one with the same id and
      owner). */
  datatype Counters = Counters(
    actingPirates: set<int>,
    actionCounter: int,
    bermudaSummoned: bool,
    cloaked: bool)

  const NoCounters := Counters({}, 0, false, false)

  /** An entry of `rejected_moves`: the turn, the square a step would have
      left the map from, and the letter of that step. */
  datatype RejectedMove = RejectedMove(turn: int, row: int, col: int, direction: char)

  /** What `validate_order` reads of the game besides the order itself. */
  datatype OrderContext = OrderContext(
    cfg: Config,
    turn: int,
    playerId: int,
    living: seq<Pirate>,
    allPirates: seq<Pirate>,
    numScripts: int,
    zones: seq<BermudaZone>)

  /** `parse_order`: `None` when the format is acceptable, otherwise the
      verdict of the raised exception. Messages and stop requests pass without
      further checks; an order must have exactly its four keys. */
  function ParseOrder(o: RawOrder): (r: Option<Verdict>)
    ensures r.None? ==> o.kind.Some?
    ensures r.None? && o.kind == Some("order") ==>
              && o.orderType.Some? && o.actingPirate.Some? && o.orderArgs.Some?
              && o.otherKeys == 0
    ensures o.kind.Some? && o.kind.value !in ["order", "message", "stop"] ==>
              r == Some(Invalid("unknown action"))
  {
    if o.kind.None? then Some(Crash("type"))
    else if o.kind.value != "order" then
      if o.kind.value != "message" && o.kind.value != "stop" then Some(Invalid("unknown action"))
      else None
    else if KeyCount(o) != 4 then Some(Invalid("incorrectly formatted order"))
    else if o.orderType.None? then Some(Invalid("no order type"))
    else if o.actingPirate.None? then Some(Invalid("no acting pirate"))
    else if o.orderArgs.None? then Some(Invalid("no order args"))
    else None
  }

  /** The living pirate of the ordering player that an order argument names:
      the first whose id equals the argument in Python's sense (an integer, a
      boolean, or a float of integral value). */
  function LookupPirate(living: seq<Pirate>, arg: ArgValue): (r: Option<Pirate>)
    ensures r.Some? ==> r.value in living && EqualsId(arg, r.value.base.id)
    ensures r.None? <==> forall k :: 0 <= k < |living| ==> !EqualsId(arg, living[k].base.id)
    ensures IdOf(arg).Some? ==> r == FindWithId(living, IdOf(arg).value)
  {
    LookupPirateNone(living, arg);
    match IdOf(arg)
    case Some(i) => FindWithId(living, i)
    case None => None
  }

  /** No living pirate equals an argument whose `IdOf` finds no pirate. */
  lemma LookupPirateNone(living: seq<Pirate>, arg: ArgValue)
    ensures (IdOf(arg).None? || FindWithId(living, IdOf(arg).value).None?) ==>
              forall k :: 0 <= k < |living| ==> !EqualsId(arg, living[k].base.id)
  {
    forall k | 0 <= k < |living| && EqualsId(arg, living[k].base.id)
      ensures IdOf(arg) == Some(living[k].base.id)
    {
    }
  }

  /** `initial_location_in_circle`: whether one of the pirates (the ordering
      player's `all_pirates`) started within `radius2` of `center`. */
  function InitialLocationInCircle(pirates: seq<Pirate>, center: Location, radius2: int): (r: bool)
    ensures r <==> exists k :: 0 <= k < |pirates|
                     && InCircle(center, radius2, pirates[k].base.initialLocation)
  {
    if pirates == [] then false
    else if InCircle(center, radius2, pirates[0].base.initialLocation) then true
    else
      var rest := InitialLocationInCircle(pirates[1..], center, radius2);
      assert rest <==> exists k :: 1 <= k < |pirates|
                         && InCircle(center, radius2, pirates[k].base.initialLocation) by {
        if rest {
          var k :| 0 <= k < |pirates[1..]|
                   && InCircle(center, radius2, pirates[1..][k].base.initialLocation);
          assert pirates[k + 1] == pirates[1..][k];
        }
        forall k | 1 <= k < |pirates| && InCircle(center, radius2, pirates[k].base.initialLocation)
          ensures rest
        {
          assert pirates[1..][k - 1] == pirates[k];
        }
      }
      rest
  }

  /** Owners of the zones that are still active. */
  function ActiveZoneOwners(zones: seq<BermudaZone>): (r: set<int>)
    ensures forall o :: o in r <==> exists k :: 0 <= k < |zones| && zones[k].owner == o
                                                && zones[k].activeTurns > 0
  {
    set k | 0 <= k < |zones| && zones[k].activeTurns > 0 :: zones[k].owner
  }

  /** The text of the step-limit error. */
  function StepLimitMessage(actions: int, maximum: int): string
  {
    "total actions per turn " + IntToDecimal(actions) + " exceeded allowed maximum "
      + IntToDecimal(maximum)
  }

  /** The outcome of one call of `validate_order`: the verdict, the counters
      after it, and the `rejected_moves` entry `is_move_valid` appended, if any. */
  datatype Checked = Checked(verdict: Verdict, counters: Counters, rejected: Option<RejectedMove>)

  /** The rules for a move order of a pirate that may act. */
  function ValidateMove(ctx: OrderContext, c: Counters, p: Pirate, args: map<string, ArgValue>): (r: Checked)
    requires ValidConfig(ctx.cfg)
    ensures !r.verdict.Valid? ==> r.counters == c
    ensures r.verdict.Valid? ==>
              && "destination" in args && args["destination"].PairArg?
              && var d := args["destination"];
                 var distance := ManhattanDistance(ctx.cfg, p.base.location, Location(d.first, d.second));
                 && r.counters == c.(actionCounter := c.actionCounter + distance,
                                     actingPirates := c.actingPirates + {p.base.id})
                 && r.counters.actionCounter <= ctx.cfg.actionsPerTurn
    ensures r.rejected.Some? <==> r.verdict == Ignored("order ignored - can't move out of map")
    ensures !r.verdict.AlreadyActed?
  {
    if |args| != 1 || "destination" !in args then Checked(Invalid("invalid args"), c, None)
    else if !args["destination"].PairArg? then Checked(Invalid("invalid args"), c, None)
    else
      var destination := Location(args["destination"].first, args["destination"].second);
      var distance := ManhattanDistance(ctx.cfg, p.base.location, destination);
      if p.base.treasure.Some? && distance > p.base.carryTreasureSpeed then
        Checked(Invalid("cannot move than 1 step if carrying a treasure"), c, None)
      else match CheckMove(ctx.cfg, p.base.location, DirectionLetters(ctx.cfg, p.base.location, destination))
        case UnknownDirection(d) => Checked(Crash([d]), c, None)
        case MoveRejected(at, d) =>
          Checked(Ignored("order ignored - can't move out of map"), c,
                  Some(RejectedMove(ctx.turn, at.row, at.col, d)))
        case MoveOk =>
          if c.actionCounter + distance > ctx.cfg.actionsPerTurn then
            Checked(StepLimit(StepLimitMessage(c.actionCounter + distance, ctx.cfg.actionsPerTurn)), c, None)
          else
            Checked(Valid, c.(actionCounter := c.actionCounter + distance,
                              actingPirates := c.actingPirates + {p.base.id}), None)
  }

  /** The rules for an attack, defense, cloak or bermuda order of a pirate
      that may act. */
  function ValidateAction(ctx: OrderContext, c: Counters, p: Pirate, orderType: string,
                          orderArgs: Option<map<string, ArgValue>>): (r: Checked)
    ensures r.rejected.None? && r.counters.actionCounter == c.actionCounter && !r.verdict.AlreadyActed?
    ensures r.verdict.Valid? ==> r.counters.actingPirates == c.actingPirates + {p.base.id}
    ensures !r.verdict.Valid? ==> r.counters == c
    ensures r.verdict.Valid? && orderType == "cloak" ==> !c.cloaked && r.counters.cloaked
    ensures r.verdict.Valid? && orderType == "bermuda" ==> !c.bermudaSummoned && r.counters.bermudaSummoned
  {
    if orderType == "attack" then ValidateAttack(ctx, c, p, orderArgs)
    else if orderType == "defense" then ValidateDefense(c, p, orderArgs)
    else if orderType == "cloak" then ValidateCloak(c, p, orderArgs)
    // orderType == "bermuda"
    else ValidateBermuda(ctx, c, p, orderArgs)
  }

  /** An attack: refused while reloading or carrying; the target must be
      looked up among the ordering player's own pirates. */
  function ValidateAttack(ctx: OrderContext, c: Counters, p: Pirate,
                          orderArgs: Option<map<string, ArgValue>>): (r: Checked)
    ensures r.rejected.None? && !r.verdict.AlreadyActed?
    ensures r.verdict.Valid? ==> r.counters == c.(actingPirates := c.actingPirates + {p.base.id})
    ensures !r.verdict.Valid? ==> r.counters == c
    ensures r.verdict.Valid? ==> p.base.reloadTurns <= 0 && p.base.treasure.None?
  {
    if p.base.reloadTurns > 0 then Checked(Ignored("attack ignored - pirate ship is reloading"), c, None)
    else if p.base.treasure.Some? then
      Checked(Ignored("pirate can't attack while carrying a treasure"), c, None)
    else if orderArgs.None? then Checked(Crash("order_args"), c, None)
    else if |orderArgs.value| != 1 then Checked(Invalid("invalid args"), c, None)
    else if "target" !in orderArgs.value then Checked(Crash("target"), c, None)
    else if orderArgs.value["target"].NullArg? then Checked(Invalid("invalid args"), c, None)
    else if LookupPirate(ctx.living, orderArgs.value["target"]).None? then
      Checked(Invalid("target pirate doesn't exist"), c, None)
    else Checked(Valid, c.(actingPirates := c.actingPirates + {p.base.id}), None)
  }

  /** A defense: refused while its reload runs; it takes no arguments. */
  function ValidateDefense(c: Counters, p: Pirate, orderArgs: Option<map<string, ArgValue>>): (r: Checked)
    ensures r.rejected.None? && !r.verdict.AlreadyActed?
    ensures r.verdict.Valid? ==> r.counters == c.(actingPirates := c.actingPirates + {p.base.id})
    ensures !r.verdict.Valid? ==> r.counters == c
    ensures r.verdict.Valid? ==> p.base.defenseReloadTurns <= 0 && orderArgs == Some(map[])
  {
    if p.base.defenseReloadTurns > 0 then
      Checked(Ignored("defend ignored - pirate ship is reloading"), c, None)
    else if orderArgs.None? then Checked(Crash("order_args"), c, None)
    else if |orderArgs.value| > 0 then Checked(Invalid("invalid args"), c, None)
    else Checked(Valid, c.(actingPirates := c.actingPirates + {p.base.id}), None)
  }

  /** A cloak: refused while already invisible; one per batch. */
  function ValidateCloak(c: Counters, p: Pirate, orderArgs: Option<map<string, ArgValue>>): (r: Checked)
    ensures r.rejected.None? && !r.verdict.AlreadyActed?
    ensures r.verdict.Valid? ==>
              !c.cloaked && r.counters == c.(cloaked := true, actingPirates := c.actingPirates + {p.base.id})
    ensures !r.verdict.Valid? ==> r.counters == c
  {
    if p.base.cloakTurns > 0 then
      Checked(Ignored("cloak ignored - pirate is already invisible"), c, None)
    else if orderArgs.None? then Checked(Crash("order_args"), c, None)
    else if |orderArgs.value| > 0 then Checked(Invalid("invalid args"), c, None)
    else if c.cloaked then Checked(Invalid("pirate already cloaked this turn"), c, None)
    else Checked(Valid, c.(cloaked := true, actingPirates := c.actingPirates + {p.base.id}), None)
  }

  /** A bermuda zone: not over the ordering player's own spawn points, only
      with enough scripts, and only when that player has no active zone and
      summoned none in this batch. */
  function ValidateBermuda(ctx: OrderContext, c: Counters, p: Pirate,
                           orderArgs: Option<map<string, ArgValue>>): (r: Checked)
    ensures r.rejected.None? && !r.verdict.AlreadyActed?
    ensures r.verdict.Valid? ==>
              && !c.bermudaSummoned && ctx.numScripts >= ctx.cfg.requiredScriptsNum
              && r.counters == c.(bermudaSummoned := true, actingPirates := c.actingPirates + {p.base.id})
    ensures !r.verdict.Valid? ==> r.counters == c
  {
    if InitialLocationInCircle(ctx.allPirates, p.base.location, ctx.cfg.bermudaZoneRadius) then
      Checked(Ignored("bermuda zone cannot overlap enemy initial locations"), c, None)
    else if ctx.numScripts < ctx.cfg.requiredScriptsNum then
      Checked(Invalid("not enough scripts to summon bermuda zone"), c, None)
    else if ctx.playerId in ActiveZoneOwners(ctx.zones) then
      Checked(Invalid("bermuda zone already activated"), c, None)
    else if c.bermudaSummoned then Checked(Invalid("bermuda zone already activated"), c, None)
    else if orderArgs.None? then Checked(Crash("order_args"), c, None)
    else if |orderArgs.value| > 0 then Checked(Invalid("invalid args"), c, None)
    else Checked(Valid, c.(bermudaSummoned := true, actingPirates := c.actingPirates + {p.base.id}), None)
  }

  /** The living pirate an order names, if the order names one. */
  function Acting(ctx: OrderContext, o: RawOrder): Option<Pirate>
  {
    if o.actingPirate.None? then None else LookupPirate(ctx.living, o.actingPirate.value)
  }

  /** The order names a sober living pirate that has not acted yet, and has a type. */
  predicate MayAct(ctx: OrderContext, c: Counters, o: RawOrder)
  {
    && Acting(ctx, o).Some? && Acting(ctx, o).value.base.turnsToSober == 0
    && Acting(ctx, o).value.base.id !in c.actingPirates && o.orderType.Some?
  }

  /** `validate_order`. Only an accepted order changes the counters: it
      marks its pirate as acting, and a move spends its length, never beyond
      the turn's budget. */
  function ValidateOrder(ctx: OrderContext, c: Counters, o: RawOrder): (r: Checked)
    requires ValidConfig(ctx.cfg)
    ensures !r.verdict.Valid? ==> r.counters == c
    ensures r.verdict.Valid? ==>
              && Actor(o).Some? && Actor(o).value !in c.actingPirates
              && r.counters.actingPirates == c.actingPirates + {Actor(o).value}
              && (IsMove(o) ==> && r.counters.actionCounter == c.actionCounter + MoveLength(ctx, o)
                                && r.counters.actionCounter <= ctx.cfg.actionsPerTurn)
              && (!IsMove(o) ==> r.counters.actionCounter == c.actionCounter)
    ensures r.verdict.AlreadyActed? ==> r.verdict.pirateId in c.actingPirates
                                        && Actor(o) == Some(r.verdict.pirateId)
  {
    if o.actingPirate.None? then Checked(Crash("acting_pirate"), c, None)
    else match LookupPirate(ctx.living, o.actingPirate.value)
      case None => Checked(Invalid("invalid pirate"), c, None)
      case Some(p) =>
        if p.base.turnsToSober > 0 then
          Checked(Invalid("the pirate is drunk - can't do anything"), c, None)
        else if p.base.id in c.actingPirates then
          Checked(AlreadyActed(p.base.id, "pirate can't do more than 1 order each turn"), c, None)
        else if o.orderType.None? then Checked(Crash("order_type"), c, None)
        else if o.orderType.value in ["attack", "defense", "cloak", "bermuda"] then
          ValidateAction(ctx, c, p, o.orderType.value, o.orderArgs)
        else if o.orderType.value == "move" then
          if o.orderArgs.None? then Checked(Crash("order_args"), c, None)
          else ValidateMove(ctx, c, p, o.orderArgs.value)
        else Checked(Invalid("invalid order type"), c, None)
  }

  /** A missing or drunk pirate makes the order invalid; a second order for a
      pirate is reported as such. */
  lemma ValidateOrderPirateChecks(ctx: OrderContext, c: Counters, o: RawOrder)
    requires ValidConfig(ctx.cfg)
    ensures o.actingPirate.Some? && Acting(ctx, o).None? ==>
              ValidateOrder(ctx, c, o).verdict == Invalid("invalid pirate")
    ensures Acting(ctx, o).Some? && Acting(ctx, o).value.base.turnsToSober > 0 ==>
              ValidateOrder(ctx, c, o).verdict == Invalid("the pirate is drunk - can't do anything")
    ensures Acting(ctx, o).Some? && Acting(ctx, o).value.base.turnsToSober <= 0
            && Acting(ctx, o).value.base.id in c.actingPirates ==>
              ValidateOrder(ctx, c, o).verdict
                == AlreadyActed(Acting(ctx, o).value.base.id, "pirate can't do more than 1 order each turn")
  {
  }

  /** An attack while reloading or while carrying a treasure is ignored. */
  lemma ValidateOrderAttack(ctx: OrderContext, c: Counters, o: RawOrder)
    requires ValidConfig(ctx.cfg)
    requires MayAct(ctx, c, o) && o.orderType.value == "attack"
    ensures Acting(ctx, o).value.base.reloadTurns > 0 ==>
              ValidateOrder(ctx, c, o).verdict == Ignored("attack ignored - pirate ship is reloading")
    ensures Acting(ctx, o).value.base.reloadTurns <= 0 && Acting(ctx, o).value.base.treasure.Some? ==>
              ValidateOrder(ctx, c, o).verdict == Ignored("pirate can't attack while carrying a treasure")
  {
  }

  /** A carrying pirate may not move further than its carrying speed. */
  lemma ValidateOrderCarryingMove(ctx: OrderContext, c: Counters, o: RawOrder)
    requires ValidConfig(ctx.cfg)
    requires MayAct(ctx, c, o) && o.orderType.value == "move" && o.orderArgs.Some?
    requires o.orderArgs.value.Keys == {"destination"} && o.orderArgs.value["destination"].PairArg?
    requires Acting(ctx, o).value.base.treasure.Some?
    requires MoveLength(ctx, o) > Acting(ctx, o).value.base.carryTreasureSpeed
    ensures ValidateOrder(ctx, c, o).verdict == Invalid("cannot move than 1 step if carrying a treasure")
  {
    assert |o.orderArgs.value| == |o.orderArgs.value.Keys| == 1;
  }

  /** Only one cloak and one bermuda zone per batch; a bermuda zone over one of
      the player's own starting squares is ignored. */
  lemma ValidateOrderOncePerBatch(ctx: OrderContext, c: Counters, o: RawOrder)
    requires ValidConfig(ctx.cfg)
    requires MayAct(ctx, c, o)
    ensures o.orderType.value == "cloak" && c.cloaked && Acting(ctx, o).value.base.cloakTurns <= 0
            && o.orderArgs == Some(map[]) ==>
              ValidateOrder(ctx, c, o).verdict == Invalid("pirate already cloaked this turn")
    ensures o.orderType.value == "cloak" && c.cloaked ==> !ValidateOrder(ctx, c, o).verdict.Valid?
    ensures o.orderType.value == "bermuda" && c.bermudaSummoned ==> !ValidateOrder(ctx, c, o).verdict.Valid?
    ensures o.orderType.value == "bermuda"
            && InitialLocationInCircle(ctx.allPirates, Acting(ctx, o).value.base.location,
                                       ctx.cfg.bermudaZoneRadius) ==>
              ValidateOrder(ctx, c, o).verdict == Ignored("bermuda zone cannot overlap enemy initial locations")
  {
  }

  /** `parse_order` followed by `validate_order`, as `do_moves` calls them. */
  function CheckOrder(ctx: OrderContext, c: Counters, o: RawOrder): Checked
    requires ValidConfig(ctx.cfg)
  {
    match ParseOrder(o)
    case Some(v) => Checked(v, c, None)
    case None => ValidateOrder(ctx, c, o)
  }

  /** The id of the pirate an accepted order names. */
  function Actor(o: RawOrder): Option<int>
  {
    if o.actingPirate.Some? then IdOf(o.actingPirate.value) else None
  }

  predicate IsMove(o: RawOrder)
  {
    o.orderType == Some("move")
  }

  /** The Manhattan length of an accepted move, measured from where the
      pirate stands. */
  function MoveLength(ctx: OrderContext, o: RawOrder): int
  {
    if !IsMove(o) || o.actingPirate.None? || o.orderArgs.None? then 0
    else match LookupPirate(ctx.living, o.actingPirate.value)
      case None => 0
      case Some(p) =>
        if "destination" in o.orderArgs.value && o.orderArgs.value["destination"].PairArg? then
          var d := o.orderArgs.value["destination"];
          ManhattanDistance(ctx.cfg, p.base.location, Location(d.first, d.second))
        else 0
  }

  function TotalMoveLength(ctx: OrderContext, s: seq<RawOrder>): int
  {
    if s == [] then 0 else TotalMoveLength(ctx, s[..|s| - 1]) + MoveLength(ctx, s[|s| - 1])
  }

  /** The three lists and the scratch state of `do_moves` part way through a
      batch. */
  datatype Batch = Batch(
    valid: seq<RawOrder>,
    ignored: seq<(RawOrder, string)>,
    invalid: seq<(RawOrder, string)>,
    counters: Counters,
    removedIds: seq<int>,
    rejected: seq<RejectedMove>,
    crashed: Option<string>)

  const EmptyBatch := Batch([], [], [], NoCounters, [], [], None)

  function Firsts(s: seq<(RawOrder, string)>): seq<RawOrder>
  {
    if s == [] then [] else Firsts(s[..|s| - 1]) + [s[|s| - 1].0]
  }

  function Tag(s: seq<RawOrder>, reason: string): (r: seq<(RawOrder, string)>)
    ensures Firsts(r) == s
  {
    if s == [] then []
    else
      var r := Tag(s[..|s| - 1], reason) + [(s[|s| - 1], reason)];
      assert r[..|r| - 1] == Tag(s[..|s| - 1], reason);
      r
  }

  function Moves(s: seq<RawOrder>): (r: seq<RawOrder>)
    ensures forall k :: 0 <= k < |r| ==> IsMove(r[k])
  {
    if s == [] then []
    else Moves(s[..|s| - 1]) + (if IsMove(s[|s| - 1]) then [s[|s| - 1]] else [])
  }

  function NonMoves(s: seq<RawOrder>): (r: seq<RawOrder>)
    ensures forall k :: 0 <= k < |r| ==> !IsMove(r[k]) && r[k] in s
  {
    if s == [] then []
    else NonMoves(s[..|s| - 1]) + (if IsMove(s[|s| - 1]) then [] else [s[|s| - 1]])
  }

  function ActedBy(s: seq<RawOrder>, id: int): (r: seq<RawOrder>)
    ensures forall k :: 0 <= k < |r| ==> Actor(r[k]) == Some(id)
  {
    if s == [] then []
    else ActedBy(s[..|s| - 1], id) + (if Actor(s[|s| - 1]) == Some(id) then [s[|s| - 1]] else [])
  }

  function NotActedBy(s: seq<RawOrder>, id: int): (r: seq<RawOrder>)
    ensures forall k :: 0 <= k < |r| ==> Actor(r[k]) != Some(id) && r[k] in s
  {
    if s == [] then []
    else NotActedBy(s[..|s| - 1], id) + (if Actor(s[|s| - 1]) == Some(id) then [] else [s[|s| - 1]])
  }

  /** One round of the loop of `do_moves`. */
  function BatchStep(ctx: OrderContext, b: Batch, o: RawOrder): Batch
    requires ValidConfig(ctx.cfg)
  {
    if b.crashed.Some? then b else File(b, o, CheckOrder(ctx, b.counters, o))
  }

  /** Filing an order by its verdict. A step-limit error moves every valid
      move to `invalid` (the flag meant to do this only once is never set); a
      second order for a pirate moves that pirate's valid orders to `ignored`,
      the first time only. */
  function File(b: Batch, o: RawOrder, r: Checked): Batch
  {
    var rejected := if r.rejected.Some? then b.rejected + [r.rejected.value] else b.rejected;
    var b := b.(counters := r.counters, rejected := rejected);
    match r.verdict
    case Valid => b.(valid := b.valid + [o])
    case Invalid(reason) => b.(invalid := b.invalid + [(o, reason)])
    case Ignored(reason) => b.(ignored := b.ignored + [(o, reason)])
    case StepLimit(reason) =>
      b.(invalid := b.invalid + [(o, reason)] + Tag(Moves(b.valid), reason),
         valid := NonMoves(b.valid))
    case AlreadyActed(id, reason) =>
      if id in b.removedIds then b.(ignored := b.ignored + [(o, reason)])
      else
        b.(ignored := b.ignored + [(o, reason)] + Tag(ActedBy(b.valid, id), reason),
           valid := NotActedBy(b.valid, id),
           removedIds := b.removedIds + [id])
    case Crash(key) => b.(crashed := Some(key))
  }

  /** The batch after the loop of `do_moves` has seen `orders`. */
  function RunBatch(ctx: OrderContext, orders: seq<RawOrder>): Batch
    requires ValidConfig(ctx.cfg)
  {
    if orders == [] then EmptyBatch
    else BatchStep(ctx, RunBatch(ctx, orders[..|orders| - 1]), orders[|orders| - 1])
  }

  /** The orders a batch has handled (all of them, unless it crashed). */
  function Seen(b: Batch): multiset<RawOrder>
  {
    multiset(b.valid) + multiset(Firsts(b.ignored)) + multiset(Firsts(b.invalid))
  }

  lemma FirstsAppend(s: seq<(RawOrder, string)>, t: seq<(RawOrder, string)>)
    ensures Firsts(s + t) == Firsts(s) + Firsts(t)
    decreases |t|
  {
    if t == [] {
      assert s + t == s;
    } else {
      assert (s + t)[..|s + t| - 1] == s + t[..|t| - 1];
      FirstsAppend(s, t[..|t| - 1]);
    }
  }

  lemma {:induction false} SplitMoves(s: seq<RawOrder>)
    ensures multiset(Moves(s)) + multiset(NonMoves(s)) == multiset(s)
  {
    if s != [] {
      SplitMoves(s[..|s| - 1]);
      assert s == s[..|s| - 1] + [s[|s| - 1]];
    }
  }

  lemma {:induction false} SplitActedBy(s: seq<RawOrder>, id: int)
    ensures multiset(ActedBy(s, id)) + multiset(NotActedBy(s, id)) == multiset(s)
  {
    if s != [] {
      var init, last := s[..|s| - 1], s[|s| - 1];
      SplitActedBy(init, id);
      assert s == init + [last];
      ActedByLast(s, id);
    }
  }

  /** The two halves of a non-empty list, split at its last order. */
  lemma ActedByLast(s: seq<RawOrder>, id: int)
    requires s != []
    ensures multiset(ActedBy(s, id) + NotActedBy(s, id))
            == multiset(ActedBy(s[..|s| - 1], id) + NotActedBy(s[..|s| - 1], id)) + multiset{s[|s| - 1]}
  {
    var init, last := s[..|s| - 1], s[|s| - 1];
    var a, n := ActedBy(init, id), NotActedBy(init, id);
    if Actor(last) == Some(id) {
      assert ActedBy(s, id) == a + [last];
      assert NotActedBy(s, id) == n;
      assert multiset(a + [last] + n) == multiset(a) + multiset{last} + multiset(n);
    } else {
      assert ActedBy(s, id) == a;
      assert NotActedBy(s, id) == n + [last];
      assert multiset(a + (n + [last])) == multiset(a) + multiset(n) + multiset{last};
    }
  }


  /** Filing moves the order it reads into exactly one list and only moves
      earlier orders between lists. */
  lemma FilePartitions(b: Batch, o: RawOrder, r: Checked)
    ensures File(b, o, r).crashed.None? ==> Seen(File(b, o, r)) == Seen(b) + multiset{o}
  {
    if r.verdict.Valid? || r.verdict.Invalid? || r.verdict.Ignored? {
      FileOnePartitions(b, o, r);
    } else if r.verdict.StepLimit? {
      StepLimitPartitions(b, o, r);
    } else if r.verdict.AlreadyActed? {
      AlreadyActedPartitions(b, o, r);
    }
  }

  lemma FileOnePartitions(b: Batch, o: RawOrder, r: Checked)
    requires r.verdict.Valid? || r.verdict.Invalid? || r.verdict.Ignored?
    ensures Seen(File(b, o, r)) == Seen(b) + multiset{o}
  {
    var f := File(b, o, r);
    match r.verdict
    case Valid =>
      assert f.valid == b.valid + [o] && f.ignored == b.ignored && f.invalid == b.invalid;
    case Invalid(reason) =>
      assert f.valid == b.valid && f.ignored == b.ignored && f.invalid == b.invalid + [(o, reason)];
      FirstsSnoc(b.invalid, (o, reason));
    case Ignored(reason) =>
      assert f.valid == b.valid && f.invalid == b.invalid && f.ignored == b.ignored + [(o, reason)];
      FirstsSnoc(b.ignored, (o, reason));
  }

  lemma FirstsSnoc(s: seq<(RawOrder, string)>, x: (RawOrder, string))
    ensures multiset(Firsts(s + [x])) == multiset(Firsts(s)) + multiset{x.0}
  {
    assert (s + [x])[..|s|] == s;
  }

  lemma StepLimitPartitions(b: Batch, o: RawOrder, r: Checked)
    requires r.verdict.StepLimit?
    ensures Seen(File(b, o, r)) == Seen(b) + multiset{o}
  {
    var f := File(b, o, r);
    var reason := r.verdict.reason;
    assert f.valid == NonMoves(b.valid) && f.ignored == b.ignored;
    assert f.invalid == b.invalid + [(o, reason)] + Tag(Moves(b.valid), reason);
    FirstsAppend(b.invalid + [(o, reason)], Tag(Moves(b.valid), reason));
    FirstsAppend(b.invalid, [(o, reason)]);
    SplitMoves(b.valid);
  }

  lemma AlreadyActedPartitions(b: Batch, o: RawOrder, r: Checked)
    requires r.verdict.AlreadyActed?
    ensures Seen(File(b, o, r)) == Seen(b) + multiset{o}
  {
    var f := File(b, o, r);
    var id, reason := r.verdict.pirateId, r.verdict.reason;
    FirstsAppend(b.ignored, [(o, reason)]);
    if id in b.removedIds {
      assert f.valid == b.valid && f.invalid == b.invalid && f.ignored == b.ignored + [(o, reason)];
    } else {
      assert f.valid == NotActedBy(b.valid, id) && f.invalid == b.invalid;
      assert f.ignored == b.ignored + [(o, reason)] + Tag(ActedBy(b.valid, id), reason);
      FirstsAppend(b.ignored + [(o, reason)], Tag(ActedBy(b.valid, id), reason));
      SplitActedBy(b.valid, id);
    }
  }

  /** A batch that did not crash has put every order in exactly one of the
      three lists. */
  lemma {:induction false} RunBatchPartitions(ctx: OrderContext, orders: seq<RawOrder>)
    requires ValidConfig(ctx.cfg)
    ensures RunBatch(ctx, orders).crashed.None? ==> Seen(RunBatch(ctx, orders)) == multiset(orders)
  {
    if orders != [] {
      var prefix := orders[..|orders| - 1];
      var o := orders[|orders| - 1];
      var b := RunBatch(ctx, prefix);
      RunBatchPartitions(ctx, prefix);
      assert orders == prefix + [o];
      if b.crashed.None? {
        FilePartitions(b, o, CheckOrder(ctx, b.counters, o));
      }
    }
  }

  /** No two orders of `s` name the same pirate. */
  predicate DistinctActors(s: seq<RawOrder>)
  {
    forall i, j :: 0 <= i < j < |s| ==> Actor(s[i]) != Actor(s[j])
  }

  /** What holds between two rounds of `do_moves`: every valid order names a
      pirate marked as acting, no pirate has two valid orders, a pirate whose
      second order was seen has none, and the movement steps spent stay within
      the budget (and, off a cyclic map, cover the valid moves). */
  predicate BatchInvariant(ctx: OrderContext, b: Batch)
  {
    && (forall k :: 0 <= k < |b.valid| ==>
          Actor(b.valid[k]).Some? && Actor(b.valid[k]).value in b.counters.actingPirates)
    && DistinctActors(b.valid)
    && (forall id :: id in b.removedIds ==> id in b.counters.actingPirates)
    && (forall id, k :: id in b.removedIds && 0 <= k < |b.valid| ==> Actor(b.valid[k]) != Some(id))
    && (b.counters.actionCounter == 0 || b.counters.actionCounter <= ctx.cfg.actionsPerTurn)
    && (!ctx.cfg.cyclic ==> 0 <= TotalMoveLength(ctx, b.valid) <= b.counters.actionCounter)
  }

  lemma DistinctActorsAppend(t: seq<RawOrder>, x: RawOrder)
    requires DistinctActors(t)
    requires forall k :: 0 <= k < |t| ==> Actor(t[k]) != Actor(x)
    ensures DistinctActors(t + [x])
  {
  }

  lemma {:induction false} NonMovesKeepsDistinct(s: seq<RawOrder>)
    requires DistinctActors(s)
    ensures DistinctActors(NonMoves(s))
  {
    if s != [] {
      var t, x := s[..|s| - 1], s[|s| - 1];
      assert DistinctActors(t);
      NonMovesKeepsDistinct(t);
      if !IsMove(x) {
        forall k | 0 <= k < |NonMoves(t)| ensures Actor(NonMoves(t)[k]) != Actor(x)
        {
          var y := NonMoves(t)[k];
          var j :| 0 <= j < |t| && t[j] == y;
          assert s[j] == y && s[|s| - 1] == x;
        }
        DistinctActorsAppend(NonMoves(t), x);
      }
    }
  }

  lemma {:induction false} NotActedByKeepsDistinct(s: seq<RawOrder>, id: int)
    requires DistinctActors(s)
    ensures DistinctActors(NotActedBy(s, id))
  {
    if s != [] {
      var t, x := s[..|s| - 1], s[|s| - 1];
      assert DistinctActors(t);
      NotActedByKeepsDistinct(t, id);
      if Actor(x) != Some(id) {
        forall k | 0 <= k < |NotActedBy(t, id)| ensures Actor(NotActedBy(t, id)[k]) != Actor(x)
        {
          var y := NotActedBy(t, id)[k];
          var j :| 0 <= j < |t| && t[j] == y;
          assert s[j] == y && s[|s| - 1] == x;
        }
        DistinctActorsAppend(NotActedBy(t, id), x);
      }
    }
  }

  lemma TotalMoveLengthAppend(ctx: OrderContext, t: seq<RawOrder>, x: RawOrder)
    ensures TotalMoveLength(ctx, t + [x]) == TotalMoveLength(ctx, t) + MoveLength(ctx, x)
  {
    assert (t + [x])[..|t|] == t;
  }

  lemma {:induction false} NonMovesHaveNoLength(ctx: OrderContext, s: seq<RawOrder>)
    ensures TotalMoveLength(ctx, NonMoves(s)) == 0
  {
    if s != [] {
      var u, x := s[..|s| - 1], s[|s| - 1];
      NonMovesHaveNoLength(ctx, u);
      if IsMove(x) {
        assert NonMoves(s) == NonMoves(u) + [];
        assert NonMoves(u) + [] == NonMoves(u);
      } else {
        assert NonMoves(s) == NonMoves(u) + [x];
        TotalMoveLengthAppend(ctx, NonMoves(u), x);
      }
    }
  }

  lemma MoveLengthNotNegative(ctx: OrderContext, o: RawOrder)
    requires !ctx.cfg.cyclic
    ensures MoveLength(ctx, o) >= 0
  {
  }

  lemma {:induction false} NotActedByShorter(ctx: OrderContext, s: seq<RawOrder>, id: int)
    requires !ctx.cfg.cyclic
    ensures 0 <= TotalMoveLength(ctx, NotActedBy(s, id)) <= TotalMoveLength(ctx, s)
  {
    if s != [] {
      var u, x := s[..|s| - 1], s[|s| - 1];
      NotActedByShorter(ctx, u, id);
      MoveLengthNotNegative(ctx, x);
      assert TotalMoveLength(ctx, s) == TotalMoveLength(ctx, u) + MoveLength(ctx, x);
      if Actor(x) == Some(id) {
        assert NotActedBy(s, id) == NotActedBy(u, id) + [];
        assert NotActedBy(u, id) + [] == NotActedBy(u, id);
      } else {
        assert NotActedBy(s, id) == NotActedBy(u, id) + [x];
        TotalMoveLengthAppend(ctx, NotActedBy(u, id), x);
      }
    }
  }

  lemma BatchStepKeepsInvariant(ctx: OrderContext, b: Batch, o: RawOrder)
    requires ValidConfig(ctx.cfg)
    requires BatchInvariant(ctx, b)
    ensures BatchInvariant(ctx, BatchStep(ctx, b, o))
  {
    if b.crashed.None? {
      var r := CheckOrder(ctx, b.counters, o);
      if r.verdict.Valid? {
        AcceptKeepsInvariant(ctx, b, o, r);
      } else if r.verdict.StepLimit? {
        StepLimitKeepsInvariant(ctx, b, o, r);
      } else if r.verdict.AlreadyActed? {
        AlreadyActedKeepsInvariant(ctx, b, o, r);
      } else {
        assert r.counters == b.counters;
        assert File(b, o, r).valid == b.valid && File(b, o, r).removedIds == b.removedIds;
      }
    }
  }

  lemma AcceptKeepsInvariant(ctx: OrderContext, b: Batch, o: RawOrder, r: Checked)
    requires ValidConfig(ctx.cfg) && BatchInvariant(ctx, b)
    requires r == CheckOrder(ctx, b.counters, o) && r.verdict.Valid?
    ensures BatchInvariant(ctx, File(b, o, r))
  {
    var f := File(b, o, r);
    assert r == ValidateOrder(ctx, b.counters, o);
    assert f.valid == b.valid + [o] && f.removedIds == b.removedIds && f.counters == r.counters;
    DistinctActorsAppend(b.valid, o);
    TotalMoveLengthAppend(ctx, b.valid, o);
  }

  lemma StepLimitKeepsInvariant(ctx: OrderContext, b: Batch, o: RawOrder, r: Checked)
    requires ValidConfig(ctx.cfg) && BatchInvariant(ctx, b)
    requires r == CheckOrder(ctx, b.counters, o) && r.verdict.StepLimit?
    ensures BatchInvariant(ctx, File(b, o, r))
  {
    assert r.counters == b.counters;
    FileStepLimitKeeps(ctx, b, o, r);
  }

  /** Filing an over-budget verdict keeps the invariant, whatever check
      produced it. */
  lemma FileStepLimitKeeps(ctx: OrderContext, b: Batch, o: RawOrder, r: Checked)
    requires BatchInvariant(ctx, b) && r.verdict.StepLimit? && r.counters == b.counters
    ensures BatchInvariant(ctx, File(b, o, r))
  {
    var f := File(b, o, r);
    assert f.valid == NonMoves(b.valid) && f.removedIds == b.removedIds && f.counters == b.counters;
    NonMovesKeepsDistinct(b.valid);
    NonMovesHaveNoLength(ctx, b.valid);
  }

  lemma AlreadyActedKeepsInvariant(ctx: OrderContext, b: Batch, o: RawOrder, r: Checked)
    requires ValidConfig(ctx.cfg) && BatchInvariant(ctx, b)
    requires r == CheckOrder(ctx, b.counters, o) && r.verdict.AlreadyActed?
    ensures BatchInvariant(ctx, File(b, o, r))
  {
    assert r == ValidateOrder(ctx, b.counters, o);
    FileAlreadyActedKeeps(ctx, b, o, r);
  }

  /** Filing a second order for a pirate that already acted keeps the
      invariant, whatever check produced the verdict. */
  lemma FileAlreadyActedKeeps(ctx: OrderContext, b: Batch, o: RawOrder, r: Checked)
    requires BatchInvariant(ctx, b) && r.verdict.AlreadyActed?
    requires r.counters == b.counters && r.verdict.pirateId in b.counters.actingPirates
    ensures BatchInvariant(ctx, File(b, o, r))
  {
    var f := File(b, o, r);
    var id := r.verdict.pirateId;
    if id !in b.removedIds {
      assert f.valid == NotActedBy(b.valid, id) && f.removedIds == b.removedIds + [id];
      assert f.counters == b.counters;
      NotActedByKeepsDistinct(b.valid, id);
      if !ctx.cfg.cyclic {
        NotActedByShorter(ctx, b.valid, id);
      }
    } else {
      assert f.valid == b.valid && f.removedIds == b.removedIds && f.counters == b.counters;
    }
  }

  lemma {:induction false} RunBatchKeepsInvariant(ctx: OrderContext, orders: seq<RawOrder>)
    requires ValidConfig(ctx.cfg)
    ensures BatchInvariant(ctx, RunBatch(ctx, orders))
  {
    if orders != [] {
      RunBatchKeepsInvariant(ctx, orders[..|orders| - 1]);
      BatchStepKeepsInvariant(ctx, RunBatch(ctx, orders[..|orders| - 1]), orders[|orders| - 1]);
    }
  }

  /** An over-budget move sends itself and every move accepted earlier in the
      batch to `invalid`; no move is left valid. */
  lemma StepLimitInvalidatesMoves(ctx: OrderContext, b: Batch, o: RawOrder)
    requires ValidConfig(ctx.cfg) && b.crashed.None?
    requires CheckOrder(ctx, b.counters, o).verdict.StepLimit?
    ensures forall k :: 0 <= k < |BatchStep(ctx, b, o).valid| ==> !IsMove(BatchStep(ctx, b, o).valid[k])
    ensures multiset(Firsts(BatchStep(ctx, b, o).invalid))
            == multiset(Firsts(b.invalid)) + multiset{o} + multiset(Moves(b.valid))
  {
    var r := CheckOrder(ctx, b.counters, o);
    var reason := r.verdict.reason;
    assert BatchStep(ctx, b, o).invalid == b.invalid + [(o, reason)] + Tag(Moves(b.valid), reason);
    FirstsAppend(b.invalid + [(o, reason)], Tag(Moves(b.valid), reason));
    FirstsAppend(b.invalid, [(o, reason)]);
  }

  lemma {:induction false} RemovedIdsGrow(ctx: OrderContext, orders: seq<RawOrder>, k: nat)
    requires ValidConfig(ctx.cfg) && k <= |orders|
    ensures forall id :: id in RunBatch(ctx, orders[..k]).removedIds ==> id in RunBatch(ctx, orders).removedIds
    decreases |orders| - k
  {
    if k < |orders| {
      RemovedIdsGrow(ctx, orders, k + 1);
      assert orders[..k + 1][..k] == orders[..k];
      var b := RunBatch(ctx, orders[..k]);
      assert RunBatch(ctx, orders[..k + 1]) == BatchStep(ctx, b, orders[k]);
    } else {
      assert orders[..k] == orders;
    }
  }

  /** Once an order is refused because its pirate already acted, none of that
      pirate's orders is valid when the batch ends. (An order that was not
      accepted does not mark its pirate as having acted.) */
  lemma SecondOrderVoidsPirate(ctx: OrderContext, orders: seq<RawOrder>, k: nat)
    requires ValidConfig(ctx.cfg) && k < |orders|
    requires RunBatch(ctx, orders[..k]).crashed.None?
    requires CheckOrder(ctx, RunBatch(ctx, orders[..k]).counters, orders[k]).verdict.AlreadyActed?
    ensures var id := CheckOrder(ctx, RunBatch(ctx, orders[..k]).counters, orders[k]).verdict.pirateId;
            var b := RunBatch(ctx, orders);
            forall j :: 0 <= j < |b.valid| ==> Actor(b.valid[j]) != Some(id)
  {
    var id := CheckOrder(ctx, RunBatch(ctx, orders[..k]).counters, orders[k]).verdict.pirateId;
    RunBatchStep(ctx, orders, k);
    AlreadyActedRemoves(ctx, RunBatch(ctx, orders[..k]), orders[k]);
    RemovedIdsGrow(ctx, orders, k + 1);
    RunBatchKeepsInvariant(ctx, orders);
    var b := RunBatch(ctx, orders);
    assert id in b.removedIds;
    forall j | 0 <= j < |b.valid|
      ensures Actor(b.valid[j]) != Some(id)
    {
      assert id in b.removedIds && 0 <= j < |b.valid|;
    }
  }

  /** The batch after one more order is one more step. */
  lemma RunBatchStep(ctx: OrderContext, orders: seq<RawOrder>, k: nat)
    requires ValidConfig(ctx.cfg) && k < |orders|
    ensures RunBatch(ctx, orders[..k + 1]) == BatchStep(ctx, RunBatch(ctx, orders[..k]), orders[k])
  {
    assert orders[..k + 1][..k] == orders[..k];
  }

  /** A second order for a pirate puts that pirate among the removed ones. */
  lemma AlreadyActedRemoves(ctx: OrderContext, b: Batch, o: RawOrder)
    requires ValidConfig(ctx.cfg) && b.crashed.None?
    requires CheckOrder(ctx, b.counters, o).verdict.AlreadyActed?
    ensures CheckOrder(ctx, b.counters, o).verdict.pirateId in BatchStep(ctx, b, o).removedIds
  {
  }

  /** A batch that crashed takes no further orders: the rest of the list
      leaves it as it was (the exception ends `do_moves`). */
  lemma {:induction false} CrashedBatchStays(ctx: OrderContext, orders: seq<RawOrder>, k: nat)
    requires ValidConfig(ctx.cfg) && k <= |orders|
    requires k == |orders| || RunBatch(ctx, orders[..k]).crashed.Some?
    ensures RunBatch(ctx, orders) == RunBatch(ctx, orders[..k])
    decreases |orders|
  {
    if k == |orders| {
      assert orders[..k] == orders;
    } else {
      var last := |orders| - 1;
      assert orders[..last][..k] == orders[..k];
      CrashedBatchStays(ctx, orders[..last], k);
    }
  }
}
