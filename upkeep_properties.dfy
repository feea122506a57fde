/** What the upkeep phases of pirates.py promise about each pirate's
    countdowns: `do_sober`, `do_attack`, `do_defense` and `do_cloak` touch
    every living pirate exactly once, and each counter they run down never
    goes below zero and drops by at most one per turn. Also the bermuda zone
    countdown, the pirates `do_bermuda_effect` picks, and the script count
    `do_scripts` never takes below zero. */
module UpkeepProperties {
  import opened Common
  import opened Locations
  import opened PiratesEntities
  import opened PlayerClass
  import opened TurnState
  import opened TurnPhases

  /** The walks in which a visit changes only the visited pirate (up to the
      treasure a target of an attack loses). */
  predicate LocalSweep(sw: Sweep)
  {
    sw.SoberSweep? || sw.AttackSweep? || sw.DefenseSweep? || sw.CloakSweep?
  }

  /** The pirate without its treasure. */
  function Untreasured(p: Pirate): Pirate
  {
    p.(base := p.base.(treasure := None))
  }

  /** What a walk is compared on: the attack walk also moves treasures between
      pirates, so there the treasure is not compared. */
  function Proj(sw: Sweep, p: Pirate): Pirate
  {
    if sw.AttackSweep? then Untreasured(p) else p
  }

  /** The attacker's own reload counter in `do_attack`. */
  function ReloadStep(cfg: Config, turn: int, p: Pirate): Pirate
  {
    if LastAttackTurn(p) != turn then p.(base := p.base.(reloadTurns := Countdown(p.base.reloadTurns)))
    else if p.attackPowerupActiveTurns == 0 then p.(base := p.base.(reloadTurns := cfg.reloadTurns))
    else p
  }

  /** The sober counter of `do_sober`. */
  function SoberStep(w: World, p: Pirate): Pirate
  {
    if IsDrunk(w, p) then p.(base := p.base.(turnsToSober := Countdown(p.base.turnsToSober))) else p
  }

  /** What a local walk does to the pirate it visits. */
  function Step(cfg: Config, sw: Sweep, w: World, p: Pirate): Pirate
  {
    match sw
    case SoberSweep => SoberStep(w, p)
    case AttackSweep => ReloadStep(cfg, w.turn, p)
    case DefenseSweep => DefenseUpkeep(cfg, w.turn, p)
    case CloakSweep => CloakUpkeep(p)
    case _ => p
  }

  /** Same turn and same drunk lists: what a step reads besides the pirate. */
  predicate SameDrunk(w1: World, w2: World)
  {
    && w1.turn == w2.turn
    && |w1.players| == |w2.players|
    && forall o :: 0 <= o < |w1.players| ==> w1.players[o].drunk == w2.players[o].drunk
  }

  /** A step looks at nothing the comparison leaves out. */
  lemma StepRespectsProj(cfg: Config, sw: Sweep, w1: World, w2: World, p: Pirate, q: Pirate)
    requires LocalSweep(sw) && SameDrunk(w1, w2) && Proj(sw, p) == Proj(sw, q)
    ensures Proj(sw, Step(cfg, sw, w1, p)) == Proj(sw, Step(cfg, sw, w2, q))
  {
    if sw.AttackSweep? {
      assert p.attackTurns == q.attackTurns && p.attackPowerupActiveTurns == q.attackPowerupActiveTurns;
      assert p.base.reloadTurns == q.base.reloadTurns;
    }
  }

  /** `w2` is `w` with the pirate in slot `s` replaced by `p`, as far as a
      comparison without treasures sees. */
  ghost predicate Loosely(w: World, w2: World, s: Slot, p: Pirate)
  {
    && SameShape(w, w2) && SameDrunk(w, w2)
    && forall t :: ValidSlot(w, t) ==>
         Untreasured(At(w2, t)) == Untreasured(if t == s then p else At(w, t))
  }

  /** Changing one pirate's treasure keeps the loose comparison. */
  lemma RetreasureLoosely(w: World, w1: World, s: Slot, p: Pirate, u: Slot, q: Pirate)
    requires Loosely(w, w1, s, p) && ValidSlot(w1, u) && Untreasured(q) == Untreasured(At(w1, u))
    ensures Loosely(w, SetAt(w1, u, q), s, p)
  {
  }

  /** Attacker with a target that loses its treasure. */
  lemma AttackHitLoosely(w: World, w1: World, s: Slot, p1: Pirate, e: nat, k: nat, tk: int, rob: bool)
    requires ValidSlot(w, s) && w1 == SetAt(w, s, p1)
    requires e < |w1.players| && k < |w1.players[e].living|
    ensures var t := w1.players[e].living[k];
            var w2 := if rob then SetAt(w1, s, p1.(base := p1.base.(treasure := Some(tk))))
                      else w1.(treasures := Release(w1.treasures, tk));
            Loosely(w, SetAt(w2, Slot(e, k), t.(base := t.base.(treasure := None))), s, p1)
  {
    var t := w1.players[e].living[k];
    assert Loosely(w, w1, s, p1);
    if rob {
      RetreasureLoosely(w, w1, s, p1, s, p1.(base := p1.base.(treasure := Some(tk))));
    }
    var w2 := if rob then SetAt(w1, s, p1.(base := p1.base.(treasure := Some(tk))))
              else w1.(treasures := Release(w1.treasures, tk));
    assert Loosely(w, w2, s, p1);
    RetreasureLoosely(w, w2, s, p1, Slot(e, k), t.(base := t.base.(treasure := None)));
  }

  /** The attack visit changes the attacker as `ReloadStep` says, and any
      other pirate at most in its treasure. */
  lemma AttackVisitLocal(cfg: Config, a: Acc, s: Slot)
    requires ValidSlot(a.w, s)
    ensures Loosely(a.w, AttackVisit(cfg, a, s).w, s, ReloadStep(cfg, a.w.turn, At(a.w, s)))
  {
    var p := At(a.w, s);
    var p1 := ReloadStep(cfg, a.w.turn, p);
    var w1 := SetAt(a.w, s, p1);
    assert Loosely(a.w, w1, s, p1);
    if LastAttackTurn(p) == a.w.turn {
      var e := Enemy(p.base.owner);
      if e < |w1.players| && FirstWithId(w1.players[e].living, LastAttackTarget(p)).Some? {
        var k := FirstWithId(w1.players[e].living, LastAttackTarget(p)).value;
        var t := w1.players[e].living[k];
        if t.base.treasure.Some? {
          AttackHitLoosely(a.w, w1, s, p1, e, k, t.base.treasure.value, p1.robPowerupActiveTurns > 0);
        }
      }
    }
  }

  /** One visit of a local walk changes only the visited pirate, by its step. */
  lemma VisitLocal(cfg: Config, sw: Sweep, a: Acc, s: Slot)
    requires LocalSweep(sw) && ValidSlot(a.w, s)
    ensures var r := Visit(cfg, sw, a, s);
            && SameDrunk(a.w, r.w)
            && forall t :: ValidSlot(a.w, t) ==>
                 Proj(sw, At(r.w, t))
                 == Proj(sw, if t == s then Step(cfg, sw, a.w, At(a.w, s)) else At(a.w, t))
  {
    if sw.AttackSweep? {
      AttackVisitLocal(cfg, a, s);
      assert Loosely(a.w, Visit(cfg, sw, a, s).w, s, Step(cfg, sw, a.w, At(a.w, s)));
    }
  }

  /** A local walk over distinct slots applies each listed pirate's step once
      and leaves the other pirates as they were. */
  lemma {:induction false} RunLocal(cfg: Config, sw: Sweep, a: Acc, slots: seq<Slot>, t: Slot)
    requires LocalSweep(sw) && ValidSlot(a.w, t)
    requires forall i, j :: 0 <= i < j < |slots| ==> slots[i] != slots[j]
    ensures SameDrunk(a.w, Run(cfg, sw, a, slots).w)
    ensures ValidSlot(Run(cfg, sw, a, slots).w, t)
    ensures Proj(sw, At(Run(cfg, sw, a, slots).w, t))
            == Proj(sw, if t in slots then Step(cfg, sw, a.w, At(a.w, t)) else At(a.w, t))
    decreases |slots|
  {
    if slots != [] {
      var init := slots[..|slots| - 1];
      var s := slots[|slots| - 1];
      var prev := Run(cfg, sw, a, init);
      RunLocal(cfg, sw, a, init, t);
      assert t in slots <==> t in init || t == s;
      if ValidSlot(prev.w, s) {
        VisitLocal(cfg, sw, prev, s);
        if t == s {
          assert s !in init;
          StepRespectsProj(cfg, sw, prev.w, a.w, At(prev.w, s), At(a.w, s));
        }
      } else {
        assert !ValidSlot(a.w, s);
      }
    }
  }

  /** A local walk over the living pirates steps each of them once. */
  lemma WalkLocal(cfg: Config, sw: Sweep, w: World, t: Slot)
    requires LocalSweep(sw) && ValidSlot(w, t)
    ensures SameDrunk(w, Walk(cfg, sw, w).w)
    ensures ValidSlot(Walk(cfg, sw, w).w, t)
    ensures Proj(sw, At(Walk(cfg, sw, w).w, t)) == Proj(sw, Step(cfg, sw, w, At(w, t)))
  {
    SlotsListFlatten(w.players);
    ValidSlotListed(w.players, t);
    RunLocal(cfg, sw, Acc(w, []), LivingSlots(w), t);
  }

  // --------------------------------------------------- the four countdowns

  /** `do_cloak`: the cloak counter drops by one while positive, never below
      zero, and nothing else about the pirate changes. */
  lemma CloakCountsDown(cfg: Config, w: World, t: Slot)
    requires ValidSlot(w, t)
    ensures ValidSlot(CloakPhase(cfg, w), t)
    ensures var p := At(w, t);
            var q := At(CloakPhase(cfg, w), t);
            && q == p.(base := p.base.(cloakTurns := q.base.cloakTurns))
            && (p.base.cloakTurns >= 0 ==> q.base.cloakTurns >= 0)
            && p.base.cloakTurns - 1 <= q.base.cloakTurns <= p.base.cloakTurns
            && (q.base.cloakTurns < p.base.cloakTurns <==> p.base.cloakTurns > 0)
  {
    WalkLocal(cfg, CloakSweep, w, t);
    CountdownBounds(At(w, t).base.cloakTurns);
  }

  /** `do_defense`: the expiration counter drops by one while positive and
      never below zero; the reload counter restarts at the configured reload
      when the defense was raised this turn (full expiration counter, logged
      this turn) and otherwise drops by at most one, never below zero. */
  lemma DefenseCountsDown(cfg: Config, w: World, t: Slot)
    requires ValidSlot(w, t)
    ensures ValidSlot(DefensePhase(cfg, w), t)
    ensures var p := At(w, t);
            var q := At(DefensePhase(cfg, w), t);
            && q == p.(base := p.base.(defenseReloadTurns := q.base.defenseReloadTurns,
                                       defenseExpirationTurns := q.base.defenseExpirationTurns))
            && (p.base.defenseExpirationTurns >= 0 ==> q.base.defenseExpirationTurns >= 0)
            && p.base.defenseExpirationTurns - 1 <= q.base.defenseExpirationTurns <= p.base.defenseExpirationTurns
            && (q.base.defenseExpirationTurns < p.base.defenseExpirationTurns <==> p.base.defenseExpirationTurns > 0)
            && if p.base.defenseExpirationTurns == p.base.maxDefenseTurns && LastDefenseTurn(p) == w.turn
               then q.base.defenseReloadTurns == cfg.defenseReloadTurns
               else && (p.base.defenseReloadTurns >= 0 ==> q.base.defenseReloadTurns >= 0)
                    && p.base.defenseReloadTurns - 1 <= q.base.defenseReloadTurns <= p.base.defenseReloadTurns
  {
    WalkLocal(cfg, DefenseSweep, w, t);
    CountdownBounds(At(w, t).base.defenseExpirationTurns);
    CountdownBounds(At(w, t).base.defenseReloadTurns);
  }

  /** `do_sober`: a drunk pirate's sober counter drops by one while positive,
      never below zero; a pirate that is not drunk is left as it was. */
  lemma SoberCountsDown(cfg: Config, w: World, t: Slot)
    requires ValidSlot(w, t)
    ensures ValidSlot(SoberPhase(cfg, w), t)
    ensures var p := At(w, t);
            var q := At(SoberPhase(cfg, w), t);
            && q == p.(base := p.base.(turnsToSober := q.base.turnsToSober))
            && (!IsDrunk(w, p) ==> q == p)
            && (p.base.turnsToSober >= 0 ==> q.base.turnsToSober >= 0)
            && p.base.turnsToSober - 1 <= q.base.turnsToSober <= p.base.turnsToSober
            && (IsDrunk(w, p) ==> (q.base.turnsToSober < p.base.turnsToSober <==> p.base.turnsToSober > 0))
  {
    var a := Walk(cfg, SoberSweep, w);
    WalkLocal(cfg, SoberSweep, w, t);
    CountdownBounds(At(w, t).base.turnsToSober);
    assert At(SoberPhase(cfg, w), t) == At(a.w, t);
  }

  /** The second loop of `do_attack` only changes sober counters. */
  lemma {:induction false} DrunkAllOnlySobers(cfg: Config, w: World, ps: seq<Pirate>, t: Slot)
    requires ValidSlot(w, t)
    ensures ValidSlot(DrunkAll(cfg, w, ps), t)
    ensures At(DrunkAll(cfg, w, ps), t)
            == At(w, t).(base := At(w, t).base.(turnsToSober := At(DrunkAll(cfg, w, ps), t).base.turnsToSober))
    decreases |ps|
  {
    if ps != [] {
      DrunkAllOnlySobers(cfg, w, ps[..|ps| - 1], t);
    }
  }

  /** `do_attack`: a pirate that did not attack this turn counts its reload
      down by one while positive, never below zero; one that did reloads for
      the configured number of turns, unless an attack powerup is on, which
      leaves the counter as it was. */
  lemma ReloadCountsDown(cfg: Config, w: World, t: Slot)
    requires ValidSlot(w, t)
    ensures ValidSlot(AttackPhase(cfg, w), t)
    ensures var p := At(w, t);
            var q := At(AttackPhase(cfg, w), t);
            && q.attackTurns == p.attackTurns && q.base.location == p.base.location
            && if LastAttackTurn(p) != w.turn then
                 && (p.base.reloadTurns >= 0 ==> q.base.reloadTurns >= 0)
                 && p.base.reloadTurns - 1 <= q.base.reloadTurns <= p.base.reloadTurns
                 && (q.base.reloadTurns < p.base.reloadTurns <==> p.base.reloadTurns > 0)
               else if p.attackPowerupActiveTurns == 0 then q.base.reloadTurns == cfg.reloadTurns
               else q.base.reloadTurns == p.base.reloadTurns
  {
    var a := Walk(cfg, AttackSweep, w);
    WalkLocal(cfg, AttackSweep, w, t);
    DrunkAllOnlySobers(cfg, a.w, a.marked, t);
    CountdownBounds(At(w, t).base.reloadTurns);
    var p := At(w, t);
    var m := At(a.w, t);
    assert Untreasured(m) == Untreasured(ReloadStep(cfg, w.turn, p));
    assert m.base.reloadTurns == Untreasured(m).base.reloadTurns;
    assert m.attackTurns == Untreasured(m).attackTurns;
    assert m.base.location == Untreasured(m).base.location;
  }

  // -------------------------------------------------------------- bermuda

  /** Whether one of the listed slots holds `p`, standing in an active zone of
      another player. */
  ghost predicate PickedBy(w: World, slots: seq<Slot>, p: Pirate)
  {
    exists k :: 0 <= k < |slots| && ValidSlot(w, slots[k]) && At(w, slots[k]) == p
                && InEnemyZone(w.zones, p)
  }

  /** A pirate picked by a list is picked by all but its last slot or by the last slot. */
  lemma PickedByLast(w: World, slots: seq<Slot>, p: Pirate)
    requires slots != []
    ensures PickedBy(w, slots, p) <==>
              PickedBy(w, slots[..|slots| - 1], p)
              || (ValidSlot(w, slots[|slots| - 1]) && At(w, slots[|slots| - 1]) == p
                  && InEnemyZone(w.zones, p))
  {
    var init := slots[..|slots| - 1];
    if PickedBy(w, slots, p) {
      var k :| 0 <= k < |slots| && ValidSlot(w, slots[k]) && At(w, slots[k]) == p
               && InEnemyZone(w.zones, p);
      if k < |init| {
        assert init[k] == slots[k];
      }
    }
    if PickedBy(w, init, p) {
      var k :| 0 <= k < |init| && ValidSlot(w, init[k]) && At(w, init[k]) == p
               && InEnemyZone(w.zones, p);
      assert slots[k] == init[k];
    }
  }

  /** The bermuda walk changes no pirate and sets aside exactly the listed
      pirates that stand in an active zone of another player, in order. */
  lemma {:induction false} BermudaRunMarks(cfg: Config, a: Acc, slots: seq<Slot>)
    ensures Run(cfg, BermudaSweep, a, slots).w == a.w
    ensures forall p :: p in Run(cfg, BermudaSweep, a, slots).marked <==>
              p in a.marked || PickedBy(a.w, slots, p)
    decreases |slots|
  {
    if slots != [] {
      var init := slots[..|slots| - 1];
      var last := slots[|slots| - 1];
      BermudaRunMarks(cfg, a, init);
      var r := Run(cfg, BermudaSweep, a, init);
      assert r == Acc(a.w, r.marked);
      BermudaVisit(cfg, a.w, r.marked, last);
      forall p
        ensures p in Run(cfg, BermudaSweep, a, slots).marked <==> p in a.marked || PickedBy(a.w, slots, p)
      {
        PickedByLast(a.w, slots, p);
      }
    }
  }

  /** `do_bermuda_effect` picks for killing exactly the living pirates that
      stand in an active zone of another player. */
  lemma BermudaPicksEnemyZone(cfg: Config, w: World)
    ensures forall p :: p in Walk(cfg, BermudaSweep, w).marked <==>
              p in AllLiving(w) && InEnemyZone(w.zones, p)
  {
    var slots := LivingSlots(w);
    BermudaRunMarks(cfg, Acc(w, []), slots);
    SlotsListFlatten(w.players);
    forall p
      ensures PickedBy(w, slots, p) <==> p in AllLiving(w) && InEnemyZone(w.zones, p)
    {
      if p in AllLiving(w) && InEnemyZone(w.zones, p) {
        var k :| 0 <= k < |AllLiving(w)| && AllLiving(w)[k] == p;
        assert ValidSlot(w, slots[k]) && At(w, slots[k]) == p;
      }
    }
  }

  /** Killing pirates leaves the zones alone. */
  lemma {:induction false} KillAllKeepsZones(cfg: Config, w: World, ps: seq<Pirate>)
    ensures KillAll(cfg, w, ps).zones == w.zones
    decreases |ps|
  {
    if ps != [] {
      KillAllKeepsZones(cfg, w, ps[..|ps| - 1]);
    }
  }

  /** `do_bermuda_effect`: every zone's active counter drops by one while
      positive and never below zero; no zone appears or disappears and
      nothing else about a zone changes. */
  lemma ZonesCountDown(cfg: Config, w: World)
    ensures var r := BermudaPhase(cfg, w);
            && |r.zones| == |w.zones|
            && forall k :: 0 <= k < |w.zones| ==>
                 && r.zones[k] == w.zones[k].(activeTurns := r.zones[k].activeTurns)
                 && (w.zones[k].activeTurns >= 0 ==> r.zones[k].activeTurns >= 0)
                 && w.zones[k].activeTurns - 1 <= r.zones[k].activeTurns <= w.zones[k].activeTurns
                 && (r.zones[k].activeTurns < w.zones[k].activeTurns <==> w.zones[k].activeTurns > 0)
  {
    var a := Walk(cfg, BermudaSweep, w);
    BermudaRunMarks(cfg, Acc(w, []), LivingSlots(w));
    KillAllKeepsZones(cfg, a.w, a.marked);
    forall k | 0 <= k < |w.zones|
    {
      CountdownBounds(w.zones[k].activeTurns);
    }
  }

  // -------------------------------------------------------------- scripts

  /** Every player holds a non-negative number of scripts. */
  predicate ScriptsNonNegative(w: World)
  {
    forall o :: 0 <= o < |w.players| ==> w.players[o].numScripts >= 0
  }

  /** One pirate of `do_scripts` keeps the script counts non-negative and
      changes its owner's count by at most one either way. */
  lemma ScriptVisitKeeps(scripts: seq<nat>, antiScripts: seq<nat>, a: Acc, s: Slot)
    requires ValidSlot(a.w, s) && ScriptsNonNegative(a.w)
    ensures ScriptsNonNegative(ScriptVisit(scripts, antiScripts, a, s).w)
    ensures var r := ScriptVisit(scripts, antiScripts, a, s).w;
            |r.players| == |a.w.players|
            && forall o :: 0 <= o < |a.w.players| ==>
                 a.w.players[o].numScripts - 1 <= r.players[o].numScripts <= a.w.players[o].numScripts + 1
  {
  }

  /** The script walk keeps the script counts non-negative. */
  lemma {:induction false} ScriptRunKeeps(cfg: Config, scripts: seq<nat>, antiScripts: seq<nat>,
                                          a: Acc, slots: seq<Slot>)
    requires ScriptsNonNegative(a.w)
    ensures ScriptsNonNegative(Run(cfg, ScriptSweep(scripts, antiScripts), a, slots).w)
    decreases |slots|
  {
    if slots != [] {
      var prev := Run(cfg, ScriptSweep(scripts, antiScripts), a, slots[..|slots| - 1]);
      ScriptRunKeeps(cfg, scripts, antiScripts, a, slots[..|slots| - 1]);
      if ValidSlot(prev.w, slots[|slots| - 1]) {
        ScriptVisitKeeps(scripts, antiScripts, prev, slots[|slots| - 1]);
      }
    }
  }

  /** `do_scripts` never takes a player's script count below zero: an
      anti-script takes a script away only from a player who has one. */
  lemma ScriptsStayNonNegative(cfg: Config, w: World)
    requires ScriptsNonNegative(w)
    ensures ScriptsNonNegative(ScriptPhase(cfg, w))
  {
    ScriptRunKeeps(cfg, AvailableScripts(w.scripts, w.turn), AvailableScripts(w.antiScripts, w.turn),
                   Acc(w, []), LivingSlots(w));
  }
}
