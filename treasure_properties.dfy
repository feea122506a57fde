/** What `do_treasures` of pirates.py promises: a carrier standing on its
    initial location scores the treasure and drops it, a drunk pirate never
    picks one up, a picked treasure stops being available, so that no two
    pirates ever hold the same treasure, and an unloaded treasure comes back
    when its spawn countdown runs out. */
module TreasureProperties {
  import opened Common
  import opened Locations
  import opened PiratesEntities
  import opened PlayerClass
  import opened TurnState
  import opened TurnPhases

  // ----------------------------------------------------------- one visit

  /** A carrier on its initial location unloads: it holds nothing afterwards,
      its owner's score grows by the treasure's value and the treasure starts
      its spawn countdown. */
  lemma UnloadScores(cfg: Config, available: seq<nat>, a: Acc, s: Slot)
    requires ValidSlot(a.w, s)
    requires var p := At(a.w, s);
             && p.base.treasure.Some? && 0 <= p.base.treasure.value < |a.w.treasures|
             && p.base.location == p.base.initialLocation && 0 <= p.base.owner < |a.w.players|
    ensures var p := At(a.w, s);
            var k := p.base.treasure.value;
            var o := p.base.owner;
            var r := TreasureVisit(cfg, available, a, s).w;
            && ValidSlot(r, s) && At(r, s).base.treasure.None?
            && r.players[o].score == a.w.players[o].score + a.w.treasures[k].value
            && r.treasures[k].spawnTurns == cfg.treasureSpawnTurns
            && r.treasures[k].isAvailable == a.w.treasures[k].isAvailable
            && (forall j :: 0 <= j < |a.w.players| && j != o ==> r.players[j].score == a.w.players[j].score)
  {
  }

  /** A drunk pirate with empty hands leaves the walk as it was. */
  lemma DrunkNeverPicks(cfg: Config, available: seq<nat>, a: Acc, s: Slot)
    requires ValidSlot(a.w, s) && At(a.w, s).base.treasure.None? && IsDrunk(a.w, At(a.w, s))
    ensures TreasureVisit(cfg, available, a, s) == a
  {
  }

  /** A pirate that picks up a treasure is sober, stands on it, takes it from
      the snapshot of available treasures, and the treasure is no longer
      available. */
  lemma PickMakesUnavailable(cfg: Config, available: seq<nat>, a: Acc, s: Slot)
    requires ValidSlot(a.w, s) && At(a.w, s).base.treasure.None?
    requires At(TreasureVisit(cfg, available, a, s).w, s).base.treasure.Some?
    ensures var p := At(a.w, s);
            var r := TreasureVisit(cfg, available, a, s).w;
            var k := At(r, s).base.treasure.value;
            && !IsDrunk(a.w, p)
            && k in available && 0 <= k < |a.w.treasures| && a.w.treasures[k].location == p.base.location
            && |r.treasures| == |a.w.treasures| && !r.treasures[k].isAvailable
  {
  }

  /** The treasure upkeep: a countdown above one drops by one; a countdown of
      one or zero ends, and the treasure is available again; a finished
      countdown (below zero) leaves the treasure as it was. */
  lemma TreasureComesBack(t: Treasure)
    ensures var r := TreasureUpkeep(t);
            && r == t.(spawnTurns := r.spawnTurns, isAvailable := r.isAvailable)
            && (t.spawnTurns > 1 ==> r.spawnTurns == t.spawnTurns - 1 && r.isAvailable == t.isAvailable)
            && (0 <= t.spawnTurns <= 1 ==> r.isAvailable && r.spawnTurns == -1)
            && (t.spawnTurns < 0 ==> r == t)
  {
  }

  // ------------------------------------------------- one holder per treasure

  /** No two living pirates stand on the same square. */
  ghost predicate Apart(w: World)
  {
    forall s, t :: ValidSlot(w, s) && ValidSlot(w, t) && s != t ==>
      At(w, s).base.location != At(w, t).base.location
  }

  /** No two living pirates hold the same treasure. */
  ghost predicate HeldOnce(w: World)
  {
    forall s, t :: ValidSlot(w, s) && ValidSlot(w, t) && s != t && At(w, s).base.treasure.Some? ==>
      At(w, t).base.treasure != At(w, s).base.treasure
  }

  /** A held treasure is not available. */
  ghost predicate HeldUnavailable(w: World)
  {
    forall s :: ValidSlot(w, s) && At(w, s).base.treasure.Some? && 0 <= At(w, s).base.treasure.value < |w.treasures| ==>
      !w.treasures[At(w, s).base.treasure.value].isAvailable
  }

  lemma {:induction false} CountAtOne(xs: seq<Pirate>, i: nat, l: Location)
    requires i < |xs| && xs[i].base.location == l
    ensures CountAt(xs, l) >= 1
  {
    var last := |xs| - 1;
    if i < last {
      assert xs[..last][i] == xs[i];
      CountAtOne(xs[..last], i, l);
    }
  }

  lemma {:induction false} CountAtTwo(xs: seq<Pirate>, i: nat, j: nat, l: Location)
    requires i < j < |xs| && xs[i].base.location == l && xs[j].base.location == l
    ensures CountAt(xs, l) >= 2
  {
    var last := |xs| - 1;
    assert xs[..last][i] == xs[i];
    if j == last {
      CountAtOne(xs[..last], i, l);
    } else {
      assert xs[..last][j] == xs[j];
      CountAtTwo(xs[..last], i, j, l);
    }
  }

  /** Two living pirates on one square make two occupants. */
  lemma TwoOnSquare(w: World, s: Slot, t: Slot)
    requires ValidSlot(w, s) && ValidSlot(w, t) && s != t
    requires At(w, s).base.location == At(w, t).base.location
    ensures Occupants(w, At(w, s).base.location) >= 2
  {
    SlotsListFlatten(w.players);
    var slots := LivingSlots(w);
    ValidSlotListed(w.players, s);
    ValidSlotListed(w.players, t);
    var i :| 0 <= i < |slots| && slots[i] == s;
    var j :| 0 <= j < |slots| && slots[j] == t;
    if i < j {
      CountAtTwo(AllLiving(w), i, j, At(w, s).base.location);
    } else {
      CountAtTwo(AllLiving(w), j, i, At(w, s).base.location);
    }
  }

  /** One living pirate per square keeps distinct slots on distinct squares. */
  lemma OnePerSquareApart(w: World)
    requires OnePerSquare(w)
    ensures Apart(w)
  {
    forall s, t | ValidSlot(w, s) && ValidSlot(w, t) && s != t
      ensures At(w, s).base.location != At(w, t).base.location
    {
      if At(w, s).base.location == At(w, t).base.location {
        TwoOnSquare(w, s, t);
      }
    }
  }

  /** What the treasure walk keeps, against the world `w0` it started from
      and the snapshot `available`: pirates stay on their squares, treasures
      stay where they are, no treasure has two holders, a held treasure is
      unavailable, and a pirate holding a snapshotted treasure picked it up in
      this walk (it is among the visited slots `done`) from its own square. */
  ghost predicate TreasureInv(w0: World, available: seq<nat>, done: seq<Slot>, w: World)
  {
    && SameShape(w0, w) && |w.treasures| == |w0.treasures|
    && (forall t :: ValidSlot(w0, t) ==> At(w, t).base.location == At(w0, t).base.location)
    && (forall k :: 0 <= k < |w0.treasures| ==> w.treasures[k].location == w0.treasures[k].location)
    && HeldOnce(w) && HeldUnavailable(w)
    && (forall t :: ValidSlot(w0, t) && At(w, t).base.treasure.Some? && At(w, t).base.treasure.value in available ==>
          && t in done && 0 <= At(w, t).base.treasure.value < |w0.treasures|
          && w0.treasures[At(w, t).base.treasure.value].location == At(w0, t).base.location)
  }

  /** Replacing the treasures by ones at the same places and equally
      available keeps the invariant. */
  lemma RetimeKeeps(w0: World, available: seq<nat>, done: seq<Slot>, w: World, ts: seq<Treasure>)
    requires TreasureInv(w0, available, done, w) && |ts| == |w.treasures|
    requires forall k :: 0 <= k < |ts| ==>
               ts[k].location == w.treasures[k].location && ts[k].isAvailable == w.treasures[k].isAvailable
    ensures TreasureInv(w0, available, done, w.(treasures := ts))
  {
    var r := w.(treasures := ts);
    assert forall t :: ValidSlot(w, t) ==> ValidSlot(r, t) && At(r, t) == At(w, t);
  }

  /** Changing a player's score keeps the invariant. */
  lemma ScoreKeeps(w0: World, available: seq<nat>, done: seq<Slot>, w: World, o: int, score: int)
    requires TreasureInv(w0, available, done, w) && 0 <= o < |w.players|
    ensures TreasureInv(w0, available, done, WithPlayer(w, o, w.players[o].(score := score)))
  {
    SameLivingKeeps(w0, available, done, w, WithPlayer(w, o, w.players[o].(score := score)));
  }

  /** A world with the same living pirates and treasures keeps the invariant. */
  lemma SameLivingKeeps(w0: World, available: seq<nat>, done: seq<Slot>, w: World, r: World)
    requires TreasureInv(w0, available, done, w)
    requires r.treasures == w.treasures && |r.players| == |w.players|
    requires forall o :: 0 <= o < |w.players| ==> r.players[o].living == w.players[o].living
    ensures TreasureInv(w0, available, done, r)
  {
    assert forall t :: ValidSlot(w, t) <==> ValidSlot(r, t);
    assert forall t :: ValidSlot(w, t) ==> At(r, t) == At(w, t);
  }

  /** A visited pirate dropping its treasure keeps the invariant. */
  lemma DropKeeps(w0: World, available: seq<nat>, done: seq<Slot>, w: World, s: Slot)
    requires TreasureInv(w0, available, done, w) && ValidSlot(w, s)
    ensures TreasureInv(w0, available, done + [s], SetAt(w, s, At(w, s).(base := At(w, s).base.(treasure := None))))
  {
    var r := SetAt(w, s, At(w, s).(base := At(w, s).base.(treasure := None)));
    assert HeldOnce(r) by {
      forall u, v | ValidSlot(r, u) && ValidSlot(r, v) && u != v && At(r, u).base.treasure.Some?
        ensures At(r, v).base.treasure != At(r, u).base.treasure
      {
        assert u != s && At(r, u) == At(w, u);
        if v != s {
          assert At(r, v) == At(w, v);
        }
      }
    }
    assert HeldUnavailable(r) by {
      forall u | ValidSlot(r, u) && At(r, u).base.treasure.Some? && 0 <= At(r, u).base.treasure.value < |r.treasures|
        ensures !r.treasures[At(r, u).base.treasure.value].isAvailable
      {
        assert u != s && At(r, u) == At(w, u);
      }
    }
    forall u | ValidSlot(w0, u) && At(r, u).base.treasure.Some? && At(r, u).base.treasure.value in available
      ensures && u in done + [s] && 0 <= At(r, u).base.treasure.value < |w0.treasures|
              && w0.treasures[At(r, u).base.treasure.value].location == At(w0, u).base.location
    {
      assert u != s && At(r, u) == At(w, u);
    }
  }

  /** The unload branch keeps the invariant. */
  lemma UnloadKeeps(cfg: Config, w0: World, available: seq<nat>, done: seq<Slot>, a: Acc, s: Slot)
    requires ValidSlot(a.w, s) && TreasureInv(w0, available, done, a.w)
    requires var p := At(a.w, s);
             p.base.treasure.Some? && p.base.location == p.base.initialLocation
             && 0 <= p.base.treasure.value < |a.w.treasures|
    ensures TreasureInv(w0, available, done + [s], TreasureVisit(cfg, available, a, s).w)
  {
    var w := a.w;
    var p := At(w, s);
    var k := p.base.treasure.value;
    var o := p.base.owner;
    var w1 := SetAt(w, s, p.(base := p.base.(treasure := None)));
    var ts := w.treasures[k := w.treasures[k].(spawnTurns := cfg.treasureSpawnTurns)];
    var w2 := w1.(treasures := ts);
    UnloadVisit(cfg, available, a, s);
    DropRetimeKeeps(cfg, w0, available, done, w, s);
    ScoreKeepsAny(w0, available, done + [s], w2, o, w.treasures[k].value, TreasureVisit(cfg, available, a, s).w);
  }

  /** Adding to the score of the owner, when there is one, keeps the invariant. */
  lemma ScoreKeepsAny(w0: World, available: seq<nat>, done: seq<Slot>, w: World, o: int, gain: int, r: World)
    requires TreasureInv(w0, available, done, w)
    requires r == if 0 <= o < |w.players| then WithPlayer(w, o, w.players[o].(score := w.players[o].score + gain)) else w
    ensures TreasureInv(w0, available, done, r)
  {
    SameLivingKeeps(w0, available, done, w, r);
  }

  /** Dropping the treasure and restarting its countdown keeps the invariant. */
  lemma DropRetimeKeeps(cfg: Config, w0: World, available: seq<nat>, done: seq<Slot>, w: World, s: Slot)
    requires ValidSlot(w, s) && TreasureInv(w0, available, done, w)
    requires At(w, s).base.treasure.Some? && 0 <= At(w, s).base.treasure.value < |w.treasures|
    ensures var p := At(w, s);
            var k := p.base.treasure.value;
            var w1 := SetAt(w, s, p.(base := p.base.(treasure := None)));
            TreasureInv(w0, available, done + [s],
              w1.(treasures := w.treasures[k := w.treasures[k].(spawnTurns := cfg.treasureSpawnTurns)]))
  {
    var p := At(w, s);
    var k := p.base.treasure.value;
    var w1 := SetAt(w, s, p.(base := p.base.(treasure := None)));
    DropKeeps(w0, available, done, w, s);
    RetimeKeeps(w0, available, done + [s], w1, w.treasures[k := w.treasures[k].(spawnTurns := cfg.treasureSpawnTurns)]);
  }

  /** The unload branch of the visit, written out. */
  lemma UnloadVisit(cfg: Config, available: seq<nat>, a: Acc, s: Slot)
    requires ValidSlot(a.w, s)
    requires var p := At(a.w, s);
             p.base.treasure.Some? && p.base.location == p.base.initialLocation
             && 0 <= p.base.treasure.value < |a.w.treasures|
    ensures var p := At(a.w, s);
            var k := p.base.treasure.value;
            var o := p.base.owner;
            var w1 := SetAt(a.w, s, p.(base := p.base.(treasure := None)));
            var w2 := w1.(treasures := a.w.treasures[k := a.w.treasures[k].(spawnTurns := cfg.treasureSpawnTurns)]);
            TreasureVisit(cfg, available, a, s).w
              == if 0 <= o < |w2.players|
                 then WithPlayer(w2, o, w2.players[o].(score := w2.players[o].score + a.w.treasures[k].value))
                 else w2
  {
  }

  /** After a pick-up of `k` by the pirate in `s`, with nobody else holding
      `k`, no treasure has two holders. */
  lemma PickHeldOnce(w: World, s: Slot, k: nat)
    requires HeldOnce(w) && ValidSlot(w, s)
    requires forall t :: ValidSlot(w, t) && t != s ==> At(w, t).base.treasure != Some(k)
    ensures HeldOnce(SetAt(w, s, At(w, s).(base := At(w, s).base.(treasure := Some(k)))))
  {
  }

  /** After a pick-up of `k`, made unavailable, every held treasure is unavailable. */
  lemma PickHeldUnavailable(w: World, s: Slot, k: nat)
    requires HeldUnavailable(w) && ValidSlot(w, s) && k < |w.treasures|
    ensures var w1 := SetAt(w, s, At(w, s).(base := At(w, s).base.(treasure := Some(k))));
            HeldUnavailable(w1.(treasures := w.treasures[k := w.treasures[k].(isAvailable := false)]))
  {
    var w1 := SetAt(w, s, At(w, s).(base := At(w, s).base.(treasure := Some(k))));
    var r := w1.(treasures := w.treasures[k := w.treasures[k].(isAvailable := false)]);
    forall t | ValidSlot(r, t) && At(r, t).base.treasure.Some? && 0 <= At(r, t).base.treasure.value < |r.treasures|
      ensures !r.treasures[At(r, t).base.treasure.value].isAvailable
    {
      if t != s {
        assert At(r, t) == At(w, t);
      }
    }
  }

  /** The pick-up branch keeps the invariant: the treasure picked lies on the
      visiting pirate's square, so by one pirate per square nobody else can
      have picked it earlier in the walk. */
  lemma PickKeeps(cfg: Config, w0: World, available: seq<nat>, done: seq<Slot>, a: Acc, s: Slot, k: nat)
    requires Apart(w0) && ValidSlot(a.w, s) && s !in done && TreasureInv(w0, available, done, a.w)
    requires At(a.w, s).base.treasure.None? && !IsDrunk(a.w, At(a.w, s))
    requires FirstOn(TreasureLocations(a.w.treasures), available, At(a.w, s).base.location) == Some(k)
    ensures TreasureInv(w0, available, done + [s], TreasureVisit(cfg, available, a, s).w)
  {
    var w := a.w;
    var p := At(w, s);
    var w1 := SetAt(w, s, p.(base := p.base.(treasure := Some(k))));
    var r := w1.(treasures := w.treasures[k := w.treasures[k].(isAvailable := false)]);
    assert TreasureVisit(cfg, available, a, s).w == r;
    assert k in available && k < |w.treasures| && w.treasures[k].location == p.base.location;
    forall t | ValidSlot(w, t) && t != s
      ensures At(w, t).base.treasure != Some(k)
    {
    }
    PickHeldOnce(w, s, k);
    PickHeldUnavailable(w, s, k);
    assert HeldOnce(r) by {
      assert forall t :: ValidSlot(w1, t) ==> ValidSlot(r, t) && At(r, t) == At(w1, t);
    }
    forall t | ValidSlot(w0, t) && At(r, t).base.treasure.Some? && At(r, t).base.treasure.value in available
      ensures && t in done + [s] && 0 <= At(r, t).base.treasure.value < |w0.treasures|
              && w0.treasures[At(r, t).base.treasure.value].location == At(w0, t).base.location
    {
      if t != s {
        assert At(r, t) == At(w, t);
      }
    }
  }

  /** One visit keeps the invariant. */
  lemma TreasureVisitKeeps(cfg: Config, w0: World, available: seq<nat>, done: seq<Slot>, a: Acc, s: Slot)
    requires Apart(w0) && ValidSlot(a.w, s) && s !in done && TreasureInv(w0, available, done, a.w)
    ensures TreasureInv(w0, available, done + [s], TreasureVisit(cfg, available, a, s).w)
  {
    var w := a.w;
    var p := At(w, s);
    match p.base.treasure
    case Some(k) =>
      if p.base.location == p.base.initialLocation && 0 <= k < |w.treasures| {
        UnloadKeeps(cfg, w0, available, done, a, s);
      }
    case None =>
      if !IsDrunk(w, p) {
        match FirstOn(TreasureLocations(w.treasures), available, p.base.location)
        case None =>
        case Some(k) =>
          PickKeeps(cfg, w0, available, done, a, s, k);
      }
  }

  /** The treasure walk over distinct slots keeps the invariant. */
  lemma {:induction false} TreasureRunKeeps(cfg: Config, w0: World, available: seq<nat>, slots: seq<Slot>)
    requires Apart(w0) && TreasureInv(w0, available, [], w0)
    requires forall i, j :: 0 <= i < j < |slots| ==> slots[i] != slots[j]
    ensures TreasureInv(w0, available, slots, Run(cfg, TreasureSweep(available), Acc(w0, []), slots).w)
    decreases |slots|
  {
    if slots != [] {
      var init := slots[..|slots| - 1];
      var s := slots[|slots| - 1];
      var prev := Run(cfg, TreasureSweep(available), Acc(w0, []), init);
      TreasureRunKeeps(cfg, w0, available, init);
      assert init + [s] == slots;
      if ValidSlot(prev.w, s) {
        assert s !in init;
        TreasureVisitKeeps(cfg, w0, available, init, prev, s);
      } else {
        assert TreasureInv(w0, available, slots, prev.w);
      }
    }
  }

  /** `do_treasures` never lets two pirates hold the same treasure: starting
      from one pirate per square, no shared treasure and no held treasure
      available, the walk ends with no shared treasure and every held
      treasure unavailable, and the treasure upkeep that follows changes no
      pirate. */
  lemma TreasureHeldOnce(cfg: Config, w: World)
    requires OnePerSquare(w) && HeldOnce(w) && HeldUnavailable(w)
    ensures var a := Walk(cfg, TreasureSweep(AvailableTreasures(w.treasures)), w);
            HeldOnce(a.w) && HeldUnavailable(a.w)
    ensures HeldOnce(TreasurePhase(cfg, w))
  {
    var available := AvailableTreasures(w.treasures);
    OnePerSquareApart(w);
    SlotsListFlatten(w.players);
    TreasureRunKeeps(cfg, w, available, LivingSlots(w));
    var a := Walk(cfg, TreasureSweep(available), w);
    SamePlayersHeldOnce(a.w, TreasurePhase(cfg, w));
  }

  /** Whether a treasure is held twice depends on the players alone. */
  lemma SamePlayersHeldOnce(w1: World, w2: World)
    requires w1.players == w2.players && HeldOnce(w1)
    ensures HeldOnce(w2)
  {
    assert forall t :: ValidSlot(w2, t) ==> ValidSlot(w1, t) && At(w2, t) == At(w1, t);
  }
}
