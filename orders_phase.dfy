/** `do_orders` of pirates.py: every living pirate carries out the valid order
    its owner gave it (or stays put), and pirates that end on a shared square
    are killed. The result keeps at most one living pirate per square. */
module OrdersPhase {
  import opened Common
  import opened Locations
  import opened PiratesEntities
  import opened PlayerClass
  import opened TurnState

  /** The id of the living pirate an order names, if there is one. */
  function ActingLiving(living: seq<Pirate>, order: RawOrder): (r: Option<int>)
    ensures r.Some? ==> FindWithId(living, r.value).Some?
  {
    match if order.actingPirate.Some? then IdOf(order.actingPirate.value) else None
    case Some(i) => if FindWithId(living, i).Some? then Some(i) else None
    case None => None
  }

  /** The order each pirate follows, by (owner, pirate id). */
  type OrderBook = map<(int, int), RawOrder>

  /** One player's orders in turn: the first order naming no living pirate
      ends the player's list, and a later order for a pirate replaces an
      earlier one. */
  function BookPlayer(living: seq<Pirate>, pid: int, orders: seq<RawOrder>, book: OrderBook): OrderBook
    decreases |orders|
  {
    if orders == [] then book
    else match ActingLiving(living, orders[0])
      case None => book
      case Some(i) => BookPlayer(living, pid, orders[1..], book[(pid, i) := orders[0]])
  }

  /** Every player's orders, players in order. */
  function Book(ps: seq<PlayerState>): OrderBook
  {
    if ps == [] then map[]
    else
      var last := |ps| - 1;
      BookPlayer(ps[last].living, last, ps[last].orders, Book(ps[..last]))
  }

  /** Every key of the book names a living pirate of that player. */
  lemma {:induction false} BookPlayerNamesLiving(living: seq<Pirate>, pid: int, orders: seq<RawOrder>,
                                                  book: OrderBook, key: (int, int))
    requires key in BookPlayer(living, pid, orders, book) && key !in book
    ensures key.0 == pid && FindWithId(living, key.1).Some?
    decreases |orders|
  {
    if orders != [] {
      match ActingLiving(living, orders[0])
      case None =>
      case Some(i) =>
        if key != (pid, i) {
          BookPlayerNamesLiving(living, pid, orders[1..], book[(pid, i) := orders[0]], key);
        }
    }
  }

  /** The order type a pirate follows, `'-'` without one. */
  function OrderKind(order: Option<RawOrder>): string
  {
    if order.Some? && order.value.orderType.Some? then order.value.orderType.value else "-"
  }

  function OrderArgs(order: Option<RawOrder>): map<string, ArgValue>
  {
    if order.Some? && order.value.orderArgs.Some? then order.value.orderArgs.value else map[]
  }

  /** The target id of an attack order (validated attack orders name a target
      equal to a pirate id; anything else is logged as -1, the seed of the
      attack log). */
  function TargetOf(args: map<string, ArgValue>): int
  {
    if "target" in args && IdOf(args["target"]).Some? then IdOf(args["target"]).value else -1
  }

  /** The destination of a move order (validated move orders carry a pair;
      anything else leaves the pirate where it is). */
  function DestinationOf(args: map<string, ArgValue>, current: Location): Location
  {
    if "destination" in args && args["destination"].PairArg?
    then Location(args["destination"].first, args["destination"].second)
    else current
  }

  /** The pirate after carrying out its order: an attack is logged with its
      target, a defense fills the defense counter, a cloak starts the cloak, a
      move sets the new location; then a pirate whose defense is up logs this
      turn as a defended turn. */
  function Follow(cfg: Config, turn: int, p: Pirate, order: Option<RawOrder>): (r: Pirate)
    ensures r.base.owner == p.base.owner && r.base.id == p.base.id
    ensures OrderKind(order) == "move" ==> r.base.location == DestinationOf(OrderArgs(order), p.base.location)
    ensures OrderKind(order) != "move" ==> r.base.location == p.base.location
    ensures OrderKind(order) == "attack" ==> LastAttackTurn(r) == turn
    ensures r.base.defenseExpirationTurns > 0 ==> LastDefenseTurn(r) == turn
  {
    var kind := OrderKind(order);
    var args := OrderArgs(order);
    var p1 :=
      if kind == "attack" then p.(attackTurns := p.attackTurns + [turn, TargetOf(args)])
      else if kind == "defense" then p.(base := p.base.(defenseExpirationTurns := p.base.maxDefenseTurns))
      else if kind == "cloak" then p.(base := p.base.(cloakTurns := cfg.cloakDuration))
      else if kind == "move" then p.(base := p.base.(location := DestinationOf(args, p.base.location)))
      else p;
    if p1.base.defenseExpirationTurns > 0 then p1.(defenseTurns := p1.defenseTurns + [turn]) else p1
  }

  /** One pirate's order: a bermuda order summons a zone, then the pirate follows its order. */
  function ApplyOrder(cfg: Config, w: World, s: Slot, order: Option<RawOrder>): (r: World)
    requires ValidSlot(w, s)
    ensures SameShape(w, r)
  {
    var p := At(w, s);
    var w1 := if OrderKind(order) == "bermuda" then SummonBermudaZone(cfg, w, p) else w;
    var r := SetAt(w1, s, Follow(cfg, w.turn, p, order));
    SameShapeTransitive(w, w1, r);
    r
  }

  /** The orders of the pirates in the listed slots, in order. */
  function ApplyAll(cfg: Config, book: OrderBook, w: World, slots: seq<Slot>): (r: World)
    ensures SameShape(w, r)
    decreases |slots|
  {
    if slots == [] then w
    else
      var w1 := ApplyAll(cfg, book, w, slots[..|slots| - 1]);
      var r := ApplySlot(cfg, book, w1, slots[|slots| - 1]);
      SameShapeTransitive(w, w1, r);
      r
  }

  lemma ApplyAllStep(cfg: Config, book: OrderBook, w: World, slots: seq<Slot>, i: nat)
    requires i < |slots|
    ensures ApplyAll(cfg, book, w, slots[..i + 1]) == ApplySlot(cfg, book, ApplyAll(cfg, book, w, slots[..i]), slots[i])
  {
    assert slots[..i + 1][..i] == slots[..i];
  }

  /** The order the book holds for a pirate, if any. */
  function Lookup(book: OrderBook, p: Pirate): Option<RawOrder>
  {
    var key := (p.base.owner, p.base.id);
    if key in book then Some(book[key]) else None
  }

  /** The pirate in one slot follows its order; a slot that is not there is skipped. */
  function ApplySlot(cfg: Config, book: OrderBook, w: World, s: Slot): (r: World)
    ensures SameShape(w, r)
  {
    if !ValidSlot(w, s) then w else ApplyOrder(cfg, w, s, Lookup(book, At(w, s)))
  }

  /** Marks the pirates' squares as land. */
  function ClearSquares(board: map<Location, int>, ps: seq<Pirate>): map<Location, int>
    decreases |ps|
  {
    if ps == [] then board else ClearSquares(board, ps[..|ps| - 1])[ps[|ps| - 1].base.location := LAND]
  }

  /** Marks each pirate's square with its owner. */
  function MarkSquares(board: map<Location, int>, ps: seq<Pirate>): map<Location, int>
    decreases |ps|
  {
    if ps == [] then board
    else MarkSquares(board, ps[..|ps| - 1])[ps[|ps| - 1].base.location := ps[|ps| - 1].base.owner]
  }

  /** Every living list emptied. */
  function EmptyLiving(w: World): (r: World)
    ensures |r.players| == |w.players|
    ensures forall o :: 0 <= o < |w.players| ==> r.players[o] == w.players[o].(living := [])
    ensures r == w.(players := r.players)
  {
    w.(players := seq(|w.players|, o requires 0 <= o < |w.players| => w.players[o].(living := [])))
  }

  /** One moved pirate: alone on its square it joins its owner's living list,
      otherwise it is killed. */
  function Settle(cfg: Config, moved: seq<Pirate>, w: World, p: Pirate): World
  {
    if CountAt(moved, p.base.location) == 1 then
      var o := p.base.owner;
      if 0 <= o < |w.players| then WithPlayer(w, o, w.players[o].(living := w.players[o].living + [p])) else w
    else KillPirate(cfg, w, p)
  }

  function SettleAll(cfg: Config, moved: seq<Pirate>, w: World, ps: seq<Pirate>): World
    decreases |ps|
  {
    if ps == [] then w else Settle(cfg, moved, SettleAll(cfg, moved, w, ps[..|ps| - 1]), ps[|ps| - 1])
  }

  /** `do_orders`. */
  function OrdersPhase(cfg: Config, w: World): World
  {
    var w1 := w.(board := ClearSquares(w.board, AllLiving(w)));
    var w2 := ApplyAll(cfg, Book(w.players), w1, LivingSlots(w1));
    var moved := AllLiving(w2);
    var w3 := SettleAll(cfg, moved, EmptyLiving(w2), moved);
    w3.(board := MarkSquares(w3.board, AllLiving(w3)))
  }

  // ------------------------------------------------------------ properties

  /** The emptied world has nobody on any square. */
  lemma {:induction false} FlattenEmpty(ps: seq<PlayerState>)
    requires forall o :: 0 <= o < |ps| ==> ps[o].living == []
    ensures Flatten(ps) == []
  {
    if ps != [] {
      FlattenEmpty(ps[..|ps| - 1]);
    }
  }

  /** How many pirates of `s` share the square of a pirate that has the
      square to itself among `moved`. */
  function Bound(moved: seq<Pirate>, settled: seq<Pirate>, l: Location): nat
  {
    if CountAt(moved, l) == 1 then CountAt(settled, l) else 0
  }

  lemma {:induction false} CountAtPrefixGrows(s: seq<Pirate>, k: nat, l: Location)
    requires k < |s|
    ensures CountAt(s[..k + 1], l) == CountAt(s[..k], l) + (if s[k].base.location == l then 1 else 0)
  {
    assert s[..k + 1][..k] == s[..k];
  }

  /** While the moved pirates settle, every square holds at most as many
      living pirates as settled pirates that have it to themselves. */
  lemma {:induction false} SettleAllBound(cfg: Config, moved: seq<Pirate>, w: World, k: nat, l: Location)
    requires k <= |moved|
    requires forall o :: 0 <= o < |w.players| ==> w.players[o].living == []
    ensures Occupants(SettleAll(cfg, moved, w, moved[..k]), l) <= Bound(moved, moved[..k], l)
  {
    if k == 0 {
      FlattenEmpty(w.players);
    } else {
      var prev := SettleAll(cfg, moved, w, moved[..k - 1]);
      var p := moved[k - 1];
      assert moved[..k][..k - 1] == moved[..k - 1];
      SettleAllBound(cfg, moved, w, k - 1, l);
      CountAtPrefixGrows(moved, k - 1, l);
      if CountAt(moved, p.base.location) == 1 {
        var o := p.base.owner;
        if 0 <= o < |prev.players| {
          var st := prev.players[o].(living := prev.players[o].living + [p]);
          OccupantsWithPlayer(prev, o, st, l);
          CountAtAppend(prev.players[o].living, [p], l);
          assert CountAt([p], l) == (if p.base.location == l then 1 else 0) by {
            assert [p][..0] == [];
          }
        }
      } else {
        KillPirateOccupants(cfg, prev, p, l);
      }
    }
  }

  /** A square that a moved pirate has to itself counts at most one moved pirate. */
  lemma OccupantsAfterSettle(cfg: Config, moved: seq<Pirate>, w: World, l: Location)
    requires forall o :: 0 <= o < |w.players| ==> w.players[o].living == []
    ensures Occupants(SettleAll(cfg, moved, w, moved), l) <= 1
  {
    SettleAllBound(cfg, moved, w, |moved|, l);
    assert moved[..|moved|] == moved;
  }

  /** After `do_orders` no two living pirates share a square, whatever the
      orders and whatever the state before. */
  lemma OrdersLeaveOnePerSquare(cfg: Config, w: World)
    ensures OnePerSquare(OrdersPhase(cfg, w))
  {
    var w1 := w.(board := ClearSquares(w.board, AllLiving(w)));
    var w2 := ApplyAll(cfg, Book(w.players), w1, LivingSlots(w1));
    var moved := AllLiving(w2);
    var w3 := SettleAll(cfg, moved, EmptyLiving(w2), moved);
    forall l
      ensures Occupants(OrdersPhase(cfg, w), l) <= 1
    {
      OccupantsAfterSettle(cfg, moved, EmptyLiving(w2), l);
      assert AllLiving(OrdersPhase(cfg, w)) == AllLiving(w3);
    }
  }

  /** A moved pirate alone on its square joins its owner's living list and
      nothing else changes; one that shares its square is killed: it becomes
      the last dead pirate of its owner, lost, carrying nothing and waiting
      `pirateSpawnTurns` turns, the treasure it held is available again and
      its square is land. */
  lemma SettleSpec(cfg: Config, moved: seq<Pirate>, w: World, p: Pirate)
    requires 0 <= p.base.owner < |w.players|
    ensures var r := Settle(cfg, moved, w, p);
            var o := p.base.owner;
            && |r.players| == |w.players|
            && (forall j :: 0 <= j < |w.players| && j != o ==> r.players[j] == w.players[j])
            && if CountAt(moved, p.base.location) == 1 then
                 r == w.(players := w.players[o := w.players[o].(living := w.players[o].living + [p])])
               else
                 && r.players[o].dead == w.players[o].dead + [Corpse(cfg, p)]
                 && Corpse(cfg, p).base.isLost && Corpse(cfg, p).base.treasure.None?
                 && Corpse(cfg, p).base.turnsToRevive == cfg.pirateSpawnTurns
                 && r.board[p.base.location] == LAND
                 && (p.base.treasure.Some? && 0 <= p.base.treasure.value < |w.treasures| ==>
                       r.treasures[p.base.treasure.value].isAvailable)
  {
    if CountAt(moved, p.base.location) != 1 {
      KillPirateEffects(cfg, w, p);
    }
  }
}
