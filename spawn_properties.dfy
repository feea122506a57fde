/** `do_spawn` keeps the board's rule that no square holds two living pirates:
    a dead pirate whose wait is over revives only onto an empty square (an
    occupier is killed instead), and the kills of the first loop only empty
    squares. Spawn points are taken to be distinct, as each pirate of a map
    has its own starting square. */
module SpawnProperties {
  import opened Common
  import opened Locations
  import opened PiratesEntities
  import opened PlayerClass
  import opened TurnState
  import opened TurnPhases

  function DeadAt(w: World, d: Slot): Pirate
    requires ValidDeadSlot(w, d)
  {
    w.players[d.owner].dead[d.index]
  }

  /** No two dead pirates wait for the same spawn square. */
  ghost predicate DistinctSpawns(w: World)
  {
    forall k1, k2 :: 0 <= k1 < k2 < |DeadSlots(w.players)| ==>
      DeadAt(w, DeadSlots(w.players)[k1]).base.initialLocation
      != DeadAt(w, DeadSlots(w.players)[k2]).base.initialLocation
  }

  /** What the first loop of `do_spawn` keeps after the first `i` dead slots:
      the dead pirates stay where they were with their spawn squares, no
      square gained a living pirate, every pirate set aside waits for an
      empty square, and those squares come from distinct earlier slots. */
  ghost predicate SpawnInv(w: World, slots: seq<Slot>, i: nat, a: Acc)
    requires i <= |slots|
    requires forall k :: 0 <= k < |slots| ==> ValidDeadSlot(w, slots[k])
  {
    && |a.w.players| == |w.players|
    && (forall k :: 0 <= k < |slots| ==>
          ValidDeadSlot(a.w, slots[k])
          && DeadAt(a.w, slots[k]).base.initialLocation == DeadAt(w, slots[k]).base.initialLocation)
    && (forall l :: Occupants(a.w, l) <= Occupants(w, l))
    && (forall j :: 0 <= j < |a.marked| ==> Occupants(a.w, a.marked[j].base.initialLocation) == 0)
    && (forall j :: 0 <= j < |a.marked| ==> SpawnOfEarlier(w, slots, i, a.marked[j].base.initialLocation))
    && (forall j1, j2 :: 0 <= j1 < j2 < |a.marked| ==>
          a.marked[j1].base.initialLocation != a.marked[j2].base.initialLocation)
  }

  /** `l` is the spawn square of one of the first `i` dead slots. */
  ghost predicate SpawnOfEarlier(w: World, slots: seq<Slot>, i: nat, l: Location)
    requires forall k :: 0 <= k < |slots| ==> ValidDeadSlot(w, slots[k])
  {
    exists k :: 0 <= k < i && k < |slots| && l == DeadAt(w, slots[k]).base.initialLocation
  }

  lemma SpawnOfEarlierGrows(w: World, slots: seq<Slot>, i: nat, l: Location)
    requires forall k :: 0 <= k < |slots| ==> ValidDeadSlot(w, slots[k])
    requires SpawnOfEarlier(w, slots, i, l)
    ensures SpawnOfEarlier(w, slots, i + 1, l)
  {
    var k :| 0 <= k < i && k < |slots| && l == DeadAt(w, slots[k]).base.initialLocation;
    assert 0 <= k < i + 1 && k < |slots|;
  }

  /** Killing a pirate only appends to dead lists. */
  lemma KillPirateKeepsDead(cfg: Config, w: World, p: Pirate, d: Slot)
    requires ValidDeadSlot(w, d)
    ensures ValidDeadSlot(KillPirate(cfg, w, p), d) && DeadAt(KillPirate(cfg, w, p), d) == DeadAt(w, d)
  {
  }

  /** Changing a player's dead list leaves every square's occupants as they were. */
  lemma DeadChangeKeepsOccupants(w: World, o: nat, st: PlayerState, l: Location)
    requires o < |w.players| && st.living == w.players[o].living
    ensures Occupants(WithPlayer(w, o, st), l) == Occupants(w, l)
  {
    OccupantsWithPlayer(w, o, st, l);
  }

  /** Killing the pirate that stands on a spawn square keeps the invariant. */
  lemma KillOccupierKeeps(cfg: Config, w: World, i: nat, a: Acc, occupier: Pirate)
    requires i < |DeadSlots(w.players)|
    requires SpawnInv(w, DeadSlots(w.players), i, a)
    ensures SpawnInv(w, DeadSlots(w.players), i + 1, Acc(KillPirate(cfg, a.w, occupier), a.marked))
  {
    var slots := DeadSlots(w.players);
    var r := KillPirate(cfg, a.w, occupier);
    forall k | 0 <= k < |slots|
      ensures ValidDeadSlot(r, slots[k])
      ensures DeadAt(r, slots[k]).base.initialLocation == DeadAt(a.w, slots[k]).base.initialLocation
    {
      KillPirateKeepsDead(cfg, a.w, occupier, slots[k]);
    }
    forall l
      ensures Occupants(r, l) <= Occupants(a.w, l)
    {
      KillPirateOccupants(cfg, a.w, occupier, l);
    }
    SameMarkedStep(w, slots, i, a, r);
  }

  /** Setting aside a dead pirate whose spawn square is empty keeps the invariant. */
  lemma SetAsideKeeps(w: World, i: nat, a: Acc, p: Pirate)
    requires i < |DeadSlots(w.players)|
    requires DistinctSpawns(w)
    requires SpawnInv(w, DeadSlots(w.players), i, a)
    requires p.base.initialLocation == DeadAt(w, DeadSlots(w.players)[i]).base.initialLocation
    requires Occupants(a.w, p.base.initialLocation) == 0
    ensures SpawnInv(w, DeadSlots(w.players), i + 1, Acc(a.w, a.marked + [p]))
  {
    AppendMarkedStep(w, DeadSlots(w.players), i, a, p);
  }

  /** Setting aside the pirate of slot `i`, on an empty square, keeps the
      invariant when the slots' spawn squares are distinct. */
  lemma AppendMarkedStep(w: World, slots: seq<Slot>, i: nat, a: Acc, p: Pirate)
    requires i < |slots|
    requires forall k :: 0 <= k < |slots| ==> ValidDeadSlot(w, slots[k])
    requires forall k1, k2 :: 0 <= k1 < k2 < |slots| ==>
               DeadAt(w, slots[k1]).base.initialLocation != DeadAt(w, slots[k2]).base.initialLocation
    requires SpawnInv(w, slots, i, a)
    requires p.base.initialLocation == DeadAt(w, slots[i]).base.initialLocation
    requires Occupants(a.w, p.base.initialLocation) == 0
    ensures SpawnInv(w, slots, i + 1, Acc(a.w, a.marked + [p]))
  {
    var marked := a.marked + [p];
    forall j | 0 <= j < |a.marked|
      ensures a.marked[j].base.initialLocation != p.base.initialLocation
      ensures SpawnOfEarlier(w, slots, i + 1, a.marked[j].base.initialLocation)
    {
      var l := a.marked[j].base.initialLocation;
      assert SpawnOfEarlier(w, slots, i, l);
      var k :| 0 <= k < i && k < |slots| && l == DeadAt(w, slots[k]).base.initialLocation;
      SpawnOfEarlierGrows(w, slots, i, l);
    }
    assert SpawnOfEarlier(w, slots, i + 1, p.base.initialLocation) by {
      assert 0 <= i < i + 1 && i < |slots|;
    }
    forall j | 0 <= j < |marked|
      ensures Occupants(a.w, marked[j].base.initialLocation) == 0
      ensures SpawnOfEarlier(w, slots, i + 1, marked[j].base.initialLocation)
    {
      if j < |a.marked| {
        assert marked[j] == a.marked[j];
      }
    }
    forall j1, j2 | 0 <= j1 < j2 < |marked|
      ensures marked[j1].base.initialLocation != marked[j2].base.initialLocation
    {
      assert marked[j1] == a.marked[j1];
      if j2 < |a.marked| {
        assert marked[j2] == a.marked[j2];
      }
    }
  }

  /** Counting down a dead pirate's wait keeps the invariant. */
  lemma WaitKeeps(w: World, i: nat, a: Acc, o: nat, st: PlayerState)
    requires i < |DeadSlots(w.players)|
    requires SpawnInv(w, DeadSlots(w.players), i, a)
    requires o < |a.w.players| && st.living == a.w.players[o].living
    requires |st.dead| == |a.w.players[o].dead|
    requires forall k :: 0 <= k < |st.dead| ==>
               st.dead[k].base.initialLocation == a.w.players[o].dead[k].base.initialLocation
    ensures SpawnInv(w, DeadSlots(w.players), i + 1, Acc(WithPlayer(a.w, o, st), a.marked))
  {
    var slots := DeadSlots(w.players);
    var r := WithPlayer(a.w, o, st);
    forall l
      ensures Occupants(r, l) <= Occupants(a.w, l)
    {
      DeadChangeKeepsOccupants(a.w, o, st, l);
    }
    forall k | 0 <= k < |slots|
      ensures ValidDeadSlot(r, slots[k])
      ensures DeadAt(r, slots[k]).base.initialLocation == DeadAt(a.w, slots[k]).base.initialLocation
    {
      assert ValidDeadSlot(a.w, slots[k]);
    }
    SameMarkedStep(w, slots, i, a, r);
  }

  /** A step that keeps the set-aside pirates, every dead pirate's spawn
      square and adds no living pirate anywhere keeps the invariant. */
  lemma SameMarkedStep(w: World, slots: seq<Slot>, i: nat, a: Acc, r: World)
    requires i < |slots|
    requires forall k :: 0 <= k < |slots| ==> ValidDeadSlot(w, slots[k])
    requires SpawnInv(w, slots, i, a)
    requires |r.players| == |a.w.players|
    requires forall k :: 0 <= k < |slots| ==>
               ValidDeadSlot(r, slots[k])
               && DeadAt(r, slots[k]).base.initialLocation == DeadAt(a.w, slots[k]).base.initialLocation
    requires forall l :: Occupants(r, l) <= Occupants(a.w, l)
    ensures SpawnInv(w, slots, i + 1, Acc(r, a.marked))
  {
    forall j | 0 <= j < |a.marked|
      ensures Occupants(r, a.marked[j].base.initialLocation) == 0
      ensures SpawnOfEarlier(w, slots, i + 1, a.marked[j].base.initialLocation)
    {
      var l := a.marked[j].base.initialLocation;
      assert Occupants(r, l) <= Occupants(a.w, l);
      SpawnOfEarlierGrows(w, slots, i, l);
    }
  }

  /** One dead slot keeps the invariant. */
  lemma SpawnVisitKeeps(cfg: Config, w: World, i: nat, a: Acc)
    requires i < |DeadSlots(w.players)|
    requires DistinctSpawns(w)
    requires SpawnInv(w, DeadSlots(w.players), i, a)
    ensures SpawnInv(w, DeadSlots(w.players), i + 1, SpawnVisit(cfg, a, DeadSlots(w.players)[i]))
  {
    var d := DeadSlots(w.players)[i];
    assert ValidDeadSlot(a.w, d);
    var st := a.w.players[d.owner];
    var p := st.dead[d.index];
    var r := SpawnVisit(cfg, a, d);
    if p.base.turnsToRevive <= 0 {
      match FirstAt(AllLiving(a.w), p.base.initialLocation)
      case Some(occupier) =>
        assert r == Acc(KillPirate(cfg, a.w, occupier), a.marked);
        KillOccupierKeeps(cfg, w, i, a, occupier);
      case None =>
        assert r == Acc(a.w, a.marked + [p]);
        SetAsideKeeps(w, i, a, p);
    } else {
      var q := p.(base := p.base.(turnsToRevive := p.base.turnsToRevive - 1));
      var st2 := st.(dead := st.dead[d.index := q]);
      assert r == Acc(WithPlayer(a.w, d.owner, st2), a.marked);
      WaitKeeps(w, i, a, d.owner, st2);
    }
  }

  /** The first loop of `do_spawn` keeps the invariant from start to end. */
  lemma {:induction false} SpawnRunKeeps(cfg: Config, w: World, i: nat)
    requires i <= |DeadSlots(w.players)|
    requires DistinctSpawns(w)
    ensures SpawnInv(w, DeadSlots(w.players), i, SpawnRun(cfg, Acc(w, []), DeadSlots(w.players)[..i]))
  {
    if i == 0 {
      assert DeadSlots(w.players)[..0] == [];
      SpawnInvStart(w, DeadSlots(w.players));
    } else {
      SpawnRunKeeps(cfg, w, i - 1);
      SpawnRunKeepsStep(cfg, w, i);
    }
  }

  lemma SpawnRunKeepsStep(cfg: Config, w: World, i: nat)
    requires 0 < i <= |DeadSlots(w.players)|
    requires DistinctSpawns(w)
    requires SpawnInv(w, DeadSlots(w.players), i - 1, SpawnRun(cfg, Acc(w, []), DeadSlots(w.players)[..i - 1]))
    ensures SpawnInv(w, DeadSlots(w.players), i, SpawnRun(cfg, Acc(w, []), DeadSlots(w.players)[..i]))
  {
    var slots := DeadSlots(w.players);
    var before := SpawnRun(cfg, Acc(w, []), slots[..i - 1]);
    SpawnRunStep(cfg, Acc(w, []), slots, i - 1);
    SpawnVisitKeeps(cfg, w, i - 1, before);
  }

  lemma SpawnInvStart(w: World, slots: seq<Slot>)
    requires forall k :: 0 <= k < |slots| ==> ValidDeadSlot(w, slots[k])
    ensures SpawnInv(w, slots, 0, Acc(w, []))
  {
  }

  lemma SpawnRunStep(cfg: Config, a: Acc, slots: seq<Slot>, i: nat)
    requires i < |slots|
    ensures SpawnRun(cfg, a, slots[..i + 1]) == SpawnVisit(cfg, SpawnRun(cfg, a, slots[..i]), slots[i])
  {
    assert slots[..i + 1][..i] == slots[..i];
  }

  /** Number of pirates of `ps` whose spawn square is `l`. */
  function SpawnCount(ps: seq<Pirate>, l: Location): nat
  {
    if ps == [] then 0
    else SpawnCount(ps[..|ps| - 1], l) + (if ps[|ps| - 1].base.initialLocation == l then 1 else 0)
  }

  /** Reviving adds at most the revived pirates to their spawn squares. */
  lemma {:induction false} ReviveAllOccupants(cfg: Config, w: World, ps: seq<Pirate>, l: Location)
    ensures Occupants(ReviveAll(cfg, w, ps), l) <= Occupants(w, l) + SpawnCount(ps, l)
  {
    if ps != [] {
      var prev := ReviveAll(cfg, w, ps[..|ps| - 1]);
      var p := ps[|ps| - 1];
      ReviveAllOccupants(cfg, w, ps[..|ps| - 1], l);
      var o := p.base.owner;
      var reborn := NewPirate(p.base.initialLocation, o, p.base.id, cfg.attackRadius, cfg.maxDefenseTurns, prev.turn);
      var w1 := prev.(board := prev.board[p.base.initialLocation := o]);
      assert AllLiving(w1) == AllLiving(prev);
      if 0 <= o < |prev.players| {
        var st := prev.players[o];
        var st2 := st.(dead := RemoveFirstWithId(st.dead, p.base.id),
                       allPirates := st.allPirates + [reborn],
                       living := st.living + [reborn]);
        OccupantsWithPlayer(w1, o, st2, l);
        CountAtAppend(st.living, [reborn], l);
        assert CountAt([reborn], l) == (if p.base.initialLocation == l then 1 else 0) by {
          assert [reborn][..0] == [];
        }
      }
    }
  }

  /** Spawn squares that are pairwise distinct are each counted at most once,
      and a counted square is one of them. */
  lemma {:induction false} SpawnCountDistinct(ps: seq<Pirate>, l: Location)
    requires forall j1, j2 :: 0 <= j1 < j2 < |ps| ==> ps[j1].base.initialLocation != ps[j2].base.initialLocation
    ensures SpawnCount(ps, l) <= 1
    ensures SpawnCount(ps, l) == 1 ==> exists j :: 0 <= j < |ps| && ps[j].base.initialLocation == l
  {
    if ps != [] {
      var init := ps[..|ps| - 1];
      SpawnCountDistinct(init, l);
      if SpawnCount(init, l) == 1 {
        var j :| 0 <= j < |init| && init[j].base.initialLocation == l;
        assert ps[j] == init[j];
      }
    }
  }

  /** `do_spawn` keeps at most one living pirate on every square, given
      distinct spawn squares. */
  lemma SpawnKeepsOnePerSquare(cfg: Config, w: World)
    requires OnePerSquare(w) && DistinctSpawns(w)
    ensures OnePerSquare(SpawnPhase(cfg, w))
  {
    var slots := DeadSlots(w.players);
    SpawnRunKeeps(cfg, w, |slots|);
    assert slots[..|slots|] == slots;
    var a := SpawnRun(cfg, Acc(w, []), slots);
    forall l
      ensures Occupants(SpawnPhase(cfg, w), l) <= 1
    {
      ReviveAllOccupants(cfg, a.w, a.marked, l);
      SpawnCountDistinct(a.marked, l);
      if SpawnCount(a.marked, l) == 1 {
        var j :| 0 <= j < |a.marked| && a.marked[j].base.initialLocation == l;
      }
    }
  }
}
