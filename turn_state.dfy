/** The state the turn rules of pirates.py work on, as one value: the players
    with their pirate lists, the treasures, powerups, scripts, bermuda zones
    and the board (`self.map`, reduced to the squares the rules write). A
    pirate is addressed by its slot, the owner's index and the position in
    that owner's living list, in the order of the `living_pirates` property. */
module TurnState {
  import opened Common
  import opened Locations
  import opened PiratesEntities
  import opened PlayerClass

  datatype World = World(
    turn: int,
    players: seq<PlayerState>,
    treasures: seq<Treasure>,
    powerups: seq<Powerup>,
    scripts: seq<Script>,
    antiScripts: seq<Script>,
    zones: seq<BermudaZone>,
    board: map<Location, int>)

  /** A living pirate's place: `players[owner].living[index]`. */
  datatype Slot = Slot(owner: nat, index: nat)

  predicate ValidSlot(w: World, s: Slot)
  {
    s.owner < |w.players| && s.index < |w.players[s.owner].living|
  }

  function At(w: World, s: Slot): Pirate
    requires ValidSlot(w, s)
  {
    w.players[s.owner].living[s.index]
  }

  /** Two worlds with the same number of players and living lists of the same lengths. */
  predicate SameShape(w1: World, w2: World)
  {
    && |w1.players| == |w2.players|
    && forall o :: 0 <= o < |w1.players| ==> |w1.players[o].living| == |w2.players[o].living|
  }

  /** Replaces player `o`'s fields; an owner outside the player list changes nothing. */
  function WithPlayer(w: World, o: int, st: PlayerState): (r: World)
    ensures |r.players| == |w.players|
    ensures forall j :: 0 <= j < |w.players| && j != o ==> r.players[j] == w.players[j]
    ensures 0 <= o < |w.players| ==> r.players[o] == st
    ensures r.treasures == w.treasures && r.powerups == w.powerups && r.board == w.board
    ensures r.scripts == w.scripts && r.antiScripts == w.antiScripts && r.zones == w.zones
    ensures r.turn == w.turn
  {
    if 0 <= o < |w.players| then w.(players := w.players[o := st]) else w
  }

  /** Replaces the pirate in a slot, leaving every other slot as it was. */
  function SetAt(w: World, s: Slot, p: Pirate): (r: World)
    requires ValidSlot(w, s)
    ensures SameShape(w, r) && ValidSlot(r, s) && At(r, s) == p
    ensures forall t :: ValidSlot(w, t) && t != s ==> At(r, t) == At(w, t)
    ensures r == w.(players := r.players)
    ensures forall o :: 0 <= o < |w.players| ==>
              r.players[o] == w.players[o].(living := r.players[o].living)
  {
    var st := w.players[s.owner];
    w.(players := w.players[s.owner := st.(living := st.living[s.index := p])])
  }

  lemma SameShapeTransitive(w1: World, w2: World, w3: World)
    requires SameShape(w1, w2) && SameShape(w2, w3)
    ensures SameShape(w1, w3)
  {
  }

  /** The slots of the living pirates, player by player (the `living_pirates` list). */
  function Slots(ps: seq<PlayerState>): (r: seq<Slot>)
    ensures forall k :: 0 <= k < |r| ==>
              r[k].owner < |ps| && r[k].index < |ps[r[k].owner].living|
  {
    if ps == [] then []
    else
      var last := |ps| - 1;
      Slots(ps[..last]) + seq(|ps[last].living|, i requires 0 <= i => Slot(last, i))
  }

  /** The living pirates, player by player. */
  function Flatten(ps: seq<PlayerState>): seq<Pirate>
  {
    if ps == [] then [] else Flatten(ps[..|ps| - 1]) + ps[|ps| - 1].living
  }

  function LivingSlots(w: World): seq<Slot> { Slots(w.players) }

  function AllLiving(w: World): seq<Pirate> { Flatten(w.players) }

  /** The k-th slot holds the k-th pirate of the flattened list, and every
      slot appears once. */
  lemma {:induction false} SlotsListFlatten(ps: seq<PlayerState>)
    ensures |Slots(ps)| == |Flatten(ps)|
    ensures forall k :: 0 <= k < |Slots(ps)| ==>
              ps[Slots(ps)[k].owner].living[Slots(ps)[k].index] == Flatten(ps)[k]
    ensures forall k, j :: 0 <= k < j < |Slots(ps)| ==> Slots(ps)[k] != Slots(ps)[j]
  {
    if ps != [] {
      var last := |ps| - 1;
      var init := ps[..last];
      SlotsListFlatten(init);
      assert forall k :: 0 <= k < |Slots(init)| ==> Slots(init)[k].owner < last;
      assert forall o :: 0 <= o < last ==> init[o] == ps[o];
    }
  }

  /** A valid slot is one of the listed slots. */
  lemma {:induction false} ValidSlotListed(ps: seq<PlayerState>, s: Slot)
    requires s.owner < |ps| && s.index < |ps[s.owner].living|
    ensures s in Slots(ps)
  {
    var last := |ps| - 1;
    if s.owner == last {
      var tail := seq(|ps[last].living|, i requires 0 <= i => Slot(last, i));
      assert tail[s.index] == s;
    } else {
      ValidSlotListed(ps[..last], s);
    }
  }

  /** Number of pirates of `s` standing on `l`. */
  function CountAt(s: seq<Pirate>, l: Location): nat
  {
    if s == [] then 0
    else CountAt(s[..|s| - 1], l) + (if s[|s| - 1].base.location == l then 1 else 0)
  }

  /** Number of living pirates, of any player, standing on `l`. */
  function Occupants(w: World, l: Location): nat
  {
    CountAt(AllLiving(w), l)
  }

  /** The invariant the turn keeps: no square holds two living pirates. */
  ghost predicate OnePerSquare(w: World)
  {
    forall l :: Occupants(w, l) <= 1
  }

  lemma {:induction false} CountAtAppend(a: seq<Pirate>, b: seq<Pirate>, l: Location)
    ensures CountAt(a + b, l) == CountAt(a, l) + CountAt(b, l)
    decreases |b|
  {
    if b == [] {
      assert a + b == a;
    } else {
      var b0 := b[..|b| - 1];
      assert (a + b)[..|a + b| - 1] == a + b0;
      CountAtAppend(a, b0, l);
    }
  }

  /** Counting distributes over the players. */
  lemma {:induction false} CountFlattenUpdate(ps: seq<PlayerState>, o: nat, st: PlayerState, l: Location)
    requires o < |ps|
    ensures CountAt(Flatten(ps[o := st]), l) + CountAt(ps[o].living, l)
            == CountAt(Flatten(ps), l) + CountAt(st.living, l)
  {
    var last := |ps| - 1;
    var qs := ps[o := st];
    CountAtAppend(Flatten(ps[..last]), ps[last].living, l);
    CountAtAppend(Flatten(qs[..last]), qs[last].living, l);
    if o == last {
      assert qs[..last] == ps[..last];
    } else {
      assert qs[..last] == ps[..last][o := st];
      CountFlattenUpdate(ps[..last], o, st, l);
    }
  }

  /** Replacing one player's living list changes the occupants of a square by
      the difference between the two lists. */
  lemma OccupantsWithPlayer(w: World, o: nat, st: PlayerState, l: Location)
    requires o < |w.players|
    ensures Occupants(WithPlayer(w, o, st), l) + CountAt(w.players[o].living, l)
            == Occupants(w, l) + CountAt(st.living, l)
  {
    CountFlattenUpdate(w.players, o, st, l);
  }

  /** Removing a pirate never adds an occupant. */
  lemma CountAtRemove(s: seq<Pirate>, pirateId: int, l: Location)
    ensures CountAt(RemoveFirstWithId(s, pirateId), l) <= CountAt(s, l)
  {
    match FirstWithId(s, pirateId)
    case None =>
    case Some(k) =>
      assert s == s[..k] + [s[k]] + s[k + 1..];
      CountAtAppend(s[..k] + [s[k]], s[k + 1..], l);
      CountAtAppend(s[..k], [s[k]], l);
      CountAtAppend(s[..k], s[k + 1..], l);
  }

  /** The first pirate of `s` on `l` (the `next(...)` search of `do_spawn`). */
  function FirstAt(s: seq<Pirate>, l: Location): (r: Option<Pirate>)
    ensures r.None? <==> CountAt(s, l) == 0
    ensures r.Some? ==> r.value in s && r.value.base.location == l
  {
    if s == [] then None
    else
      assert s == [s[0]] + s[1..];
      CountAtAppend([s[0]], s[1..], l);
      assert CountAt([s[0]], l) == (if s[0].base.location == l then 1 else 0);
      if s[0].base.location == l then Some(s[0]) else FirstAt(s[1..], l)
  }

  /** Makes the treasure with that index available again (`is_available = True`). */
  function Release(ts: seq<Treasure>, k: int): (r: seq<Treasure>)
    ensures |r| == |ts|
    ensures 0 <= k < |ts| ==> r[k].isAvailable && r[k] == ts[k].(isAvailable := true)
    ensures forall j :: 0 <= j < |ts| && j != k ==> r[j] == ts[j]
  {
    if 0 <= k < |ts| then ts[k := ts[k].(isAvailable := true)] else ts
  }

  /** The pirate as `kill_pirate` leaves it: lost, waiting to revive, carrying nothing. */
  function Corpse(cfg: Config, p: Pirate): Pirate
  {
    p.(base := p.base.(treasure := None, turnsToRevive := cfg.pirateSpawnTurns, isLost := true))
  }

  /** `kill_pirate`, handed the pirate as it stands: its treasure is released,
      its square becomes land, it joins its owner's dead list and leaves the
      living list. */
  function KillPirate(cfg: Config, w: World, p: Pirate): (r: World)
    ensures |r.players| == |w.players| && r.turn == w.turn && r.zones == w.zones
    ensures forall o :: 0 <= o < |w.players| ==> |r.players[o].dead| >= |w.players[o].dead|
  {
    var o := p.base.owner;
    var treasures := if p.base.treasure.Some? then Release(w.treasures, p.base.treasure.value) else w.treasures;
    var w1 := w.(treasures := treasures, board := w.board[p.base.location := LAND]);
    if 0 <= o < |w.players| then
      var st := w.players[o];
      WithPlayer(w1, o, st.(dead := st.dead + [Corpse(cfg, p)],
                            living := RemoveFirstWithId(st.living, p.base.id)))
    else w1
  }

  /** What killing a pirate does: the corpse is lost, carries nothing and waits
      `pirateSpawnTurns` turns; it is the last dead pirate of its owner; the
      treasure it held is available; its square is land; the owner's living
      list loses the first pirate with its id and nothing else; the other
      players keep every field. */
  lemma KillPirateEffects(cfg: Config, w: World, p: Pirate)
    requires 0 <= p.base.owner < |w.players|
    ensures var r := KillPirate(cfg, w, p);
            var o := p.base.owner;
            && |r.players| == |w.players|
            && r.players[o].dead == w.players[o].dead + [Corpse(cfg, p)]
            && Corpse(cfg, p).base.isLost && Corpse(cfg, p).base.treasure.None?
            && Corpse(cfg, p).base.turnsToRevive == cfg.pirateSpawnTurns
            && Corpse(cfg, p).base.id == p.base.id
            && r.board[p.base.location] == LAND
            && (p.base.treasure.Some? && 0 <= p.base.treasure.value < |w.treasures| ==>
                  r.treasures[p.base.treasure.value].isAvailable)
            && multiset(r.players[o].living) <= multiset(w.players[o].living)
            && (FindWithId(w.players[o].living, p.base.id).Some? ==>
                  |r.players[o].living| == |w.players[o].living| - 1)
            && (forall j :: 0 <= j < |w.players| && j != o ==> r.players[j] == w.players[j])
            && r.players[o] == w.players[o].(dead := r.players[o].dead, living := r.players[o].living)
  {
    RemoveFirstWithIdSpec(w.players[p.base.owner].living, p.base.id);
  }

  /** Killing never adds an occupant to any square. */
  lemma KillPirateOccupants(cfg: Config, w: World, p: Pirate, l: Location)
    ensures Occupants(KillPirate(cfg, w, p), l) <= Occupants(w, l)
  {
    var o := p.base.owner;
    if 0 <= o < |w.players| {
      var treasures := if p.base.treasure.Some? then Release(w.treasures, p.base.treasure.value) else w.treasures;
      var w1 := w.(treasures := treasures, board := w.board[p.base.location := LAND]);
      var st := w.players[o];
      var st2 := st.(dead := st.dead + [Corpse(cfg, p)], living := RemoveFirstWithId(st.living, p.base.id));
      OccupantsWithPlayer(w1, o, st2, l);
      CountAtRemove(st.living, p.base.id, l);
      assert AllLiving(w1) == AllLiving(w);
    }
  }

  /** `drunk_pirate`: the pirate's id joins its owner's drunk list and the
      owner's first living pirate with that id gets `turnsToSober` turns. */
  function DrunkPirate(cfg: Config, w: World, p: Pirate): (r: World)
    ensures SameShape(w, r)
  {
    var o := p.base.owner;
    if 0 <= o < |w.players| then
      var st := w.players[o];
      var living := match FirstWithId(st.living, p.base.id)
        case None => st.living
        case Some(k) => st.living[k := st.living[k].(base := st.living[k].base.(turnsToSober := cfg.turnsToSober))];
      WithPlayer(w, o, st.(drunk := st.drunk + [p.base.id], living := living))
    else w
  }

  /** Making a pirate drunk: its id is the last of its owner's drunk list,
      the owner's first living pirate with that id now needs `turnsToSober`
      turns to sober up, every other pirate and player is as before. */
  lemma DrunkPirateEffects(cfg: Config, w: World, p: Pirate)
    requires 0 <= p.base.owner < |w.players|
    ensures var r := DrunkPirate(cfg, w, p);
            var o := p.base.owner;
            && r.players[o].drunk == w.players[o].drunk + [p.base.id]
            && |r.players[o].living| == |w.players[o].living|
            && (forall k :: 0 <= k < |w.players[o].living| && Some(k) != FirstWithId(w.players[o].living, p.base.id) ==>
                  r.players[o].living[k] == w.players[o].living[k])
            && (FirstWithId(w.players[o].living, p.base.id).Some? ==>
                  var k := FirstWithId(w.players[o].living, p.base.id).value;
                  r.players[o].living[k] == w.players[o].living[k].(base := w.players[o].living[k].base.(turnsToSober := cfg.turnsToSober)))
            && (forall j :: 0 <= j < |w.players| && j != o ==> r.players[j] == w.players[j])
            && r == w.(players := r.players)
  {
  }

  /** `summon_bermuda_zone`: a zone of the pirate's owner around the pirate,
      and the owner's scripts are spent. */
  function SummonBermudaZone(cfg: Config, w: World, p: Pirate): (r: World)
    ensures SameShape(w, r)
    ensures r.zones == w.zones + [BermudaZone(p.base.owner, cfg.bermudaZoneActiveTurns, w.turn,
                                              p.base.location, cfg.bermudaZoneRadius)]
    ensures 0 <= p.base.owner < |w.players| ==> r.players[p.base.owner].numScripts == 0
    ensures forall j :: 0 <= j < |w.players| && j != p.base.owner ==> r.players[j] == w.players[j]
    ensures forall j :: 0 <= j < |w.players| ==> r.players[j] == w.players[j].(numScripts := r.players[j].numScripts)
    ensures r == w.(players := r.players, zones := r.zones)
  {
    var zone := BermudaZone(p.base.owner, cfg.bermudaZoneActiveTurns, w.turn, p.base.location,
                            cfg.bermudaZoneRadius);
    var w1 := w.(zones := w.zones + [zone]);
    var o := p.base.owner;
    if 0 <= o < |w.players| then WithPlayer(w1, o, w1.players[o].(numScripts := 0)) else w1
  }
}
