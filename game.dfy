/** The `PiratesGame` object of pirates.py as the engine drives it: it holds
    the players, the objects on the map and the board, takes each player's
    orders (`do_moves`), runs the turn (`start_turn`, `finish_turn`), and
    decides when and how the game ends (`game_over`, `finish_game`,
    `calculate_turn_significance`). Every phase method walks the pirates in
    place and is proved to leave the state the matching rule function of
    `TurnPhases` or `OrdersPhase` describes. */
module PiratesGame {
  import opened Common
  import opened Locations
  import opened PiratesEntities
  import opened PlayerClass
  import opened OrderRules
  import opened TurnState
  import opened TurnPhases
  import opened OrdersPhase
  import opened Standings

  /** The game's records besides the world: the rejected moves of the turn
      and how the game stands (reason for the end, winner, ranking). */
  datatype Outcome = Outcome(
    rejectedMoves: seq<RejectedMove>,
    endOfGameReason: string,
    winningBot: seq<int>,
    winningTurn: int,
    rankingBots: Option<seq<int>>,
    rankingTurn: int)

  /** `self.score`: the players' scores by index. */
  function Scores(ps: seq<PlayerState>): (r: seq<int>)
    ensures |r| == |ps| && forall i :: 0 <= i < |ps| ==> r[i] == ps[i].score
  {
    seq(|ps|, i requires 0 <= i < |ps| => ps[i].score)
  }

  /** The score history line of `finish_turn`: each player logs its score. */
  function RecordScores(w: World): (r: World)
    ensures |r.players| == |w.players|
    ensures forall o :: 0 <= o < |w.players| ==>
              r.players[o] == w.players[o].(scoreHistory := w.players[o].scoreHistory + [w.players[o].score])
    ensures r == w.(players := r.players)
  {
    w.(players := seq(|w.players|, o requires 0 <= o < |w.players| =>
                   w.players[o].(scoreHistory := w.players[o].scoreHistory + [w.players[o].score])))
  }

  /** The world after the rules of one turn, in the order of `finish_turn`. */
  function TurnRules(cfg: Config, w: World): World
  {
    var w1 := OrdersPhase.OrdersPhase(cfg, w);
    var w2 := SoberPhase(cfg, w1);
    var w3 := AttackPhase(cfg, w2);
    var w4 := DefensePhase(cfg, w3);
    var w5 := CloakPhase(cfg, w4);
    var w6 := BermudaPhase(cfg, w5);
    var w7 := TreasurePhase(cfg, w6);
    var w8 := PowerupPhase(cfg, w7);
    var w9 := ScriptPhase(cfg, w8);
    RecordScores(SpawnPhase(cfg, w9))
  }

  /** `calculate_turn_significance`: the ranking and the winners of the
      scores; the turn is noted whenever either differs from the last one. */
  function Significance(o: Outcome, turn: int, scores: seq<int>): (r: Outcome)
    ensures r.rankingBots == Some(Ranking(scores)) && r.winningBot == Winners(scores)
    ensures r.rankingTurn == (if o.rankingBots == Some(Ranking(scores)) then o.rankingTurn else turn)
    ensures r.winningTurn == (if o.winningBot == Winners(scores) then o.winningTurn else turn)
    ensures r.rejectedMoves == o.rejectedMoves && r.endOfGameReason == o.endOfGameReason
  {
    var ranking := Ranking(scores);
    var winners := Winners(scores);
    o.(rankingTurn := if o.rankingBots != Some(ranking) then turn else o.rankingTurn,
       rankingBots := Some(ranking),
       winningTurn := if o.winningBot != winners then turn else o.winningTurn,
       winningBot := winners)
  }

  /** `remaining_players`: the ids of the players still alive, in order. */
  function Remaining(ps: seq<PlayerState>): (r: seq<int>)
    ensures |r| <= |ps|
    ensures forall x :: x in r <==> exists i :: 0 <= i < |ps| && ps[i].id == x && IsAliveState(ps[i])
  {
    if ps == [] then []
    else
      var last := |ps| - 1;
      var r := Remaining(ps[..last]) + (if IsAliveState(ps[last]) then [ps[last].id] else []);
      assert forall i :: 0 <= i < last ==> ps[..last][i] == ps[i];
      r
  }

  /** `game_over`: whether the game ends now, and the records it leaves. No
      bot left ends it without a winner, a single bot left wins, and a score
      reaching the maximum ends it with the winners as they stand. */
  function GameOverCheck(ps: seq<PlayerState>, maxPoints: int, o: Outcome): (bool, Outcome)
  {
    var remaining := Remaining(ps);
    if |remaining| < 1 then (true, o.(endOfGameReason := "No bots left", winningBot := []))
    else if |remaining| == 1 then (true, o.(winningBot := remaining, endOfGameReason := "Bot crashed"))
    else if MaxScore(Scores(ps)) >= maxPoints then (true, o.(endOfGameReason := "Maximum points"))
    else (false, o)
  }

  /** The game ends exactly when fewer than two bots remain or some score
      reaches the maximum; a lone survivor is the winner, and a game that
      goes on keeps its records. */
  lemma GameOverSpec(ps: seq<PlayerState>, maxPoints: int, o: Outcome)
    ensures var (over, r) := GameOverCheck(ps, maxPoints, o);
            && (over <==> |Remaining(ps)| < 2
                          || exists i :: 0 <= i < |ps| && ps[i].score >= maxPoints)
            && (!over ==> r == o)
            && (|Remaining(ps)| == 1 ==> r.winningBot == Remaining(ps) && r.endOfGameReason == "Bot crashed")
            && (|Remaining(ps)| == 0 ==> r.winningBot == [] && r.endOfGameReason == "No bots left")
            && r.rejectedMoves == o.rejectedMoves
  {
    if |Remaining(ps)| >= 2 {
      var scores := Scores(ps);
      var m := MaxScore(scores);
      if m >= maxPoints {
        var i :| 0 <= i < |scores| && scores[i] == m;
        assert ps[i].score >= maxPoints;
      }
    }
  }

  // ------------------------------------------------------------ finish_game

  /** Whether the reason holds Python's `None`: the field is always a string
      (it starts as `''`), so never. */
  predicate ReasonIsNone(reason: string)
  {
    false
  }

  /** The end-of-game message for a game that ran to the turn limit. */
  function TurnLimitReason(winningBot: seq<int>, names: seq<string>): (r: string)
    ensures |winningBot| == 1 && 0 <= winningBot[0] < |names| ==>
              r == "Turn limit reached, Bot [" + names[winningBot[0]] + "] won"
    ensures !(|winningBot| == 1 && 0 <= winningBot[0] < |names|) ==>
              r == "Turn limit reached, there is no winner"
  {
    "Turn limit reached"
      + if |winningBot| == 1 && 0 <= winningBot[0] < |names|
        then ", Bot [" + names[winningBot[0]] + "] won"
        else ", there is no winner"
  }

  /** The players' bot names by index. */
  function BotNames(ps: seq<PlayerState>): (r: seq<string>)
    ensures |r| == |ps| && forall i :: 0 <= i < |ps| ==> r[i] == ps[i].botName
  {
    seq(|ps|, i requires 0 <= i < |ps| => ps[i].botName)
  }

  /** `finish_game` as written: it fills in the reason only when the reason
      is `None`. */
  function FinishGameAsWritten(o: Outcome, turn: int, scores: seq<int>, names: seq<string>): Outcome
  {
    if ReasonIsNone(o.endOfGameReason)
    then Significance(o.(endOfGameReason := TurnLimitReason(o.winningBot, names)), turn, scores)
    else o
  }

  /** As written, `finish_game` never changes anything: a game that reaches
      the turn limit ends with the empty reason it started with. */
  lemma FinishGameAsWrittenKeepsEmptyReason(o: Outcome, turn: int, scores: seq<int>, names: seq<string>)
    requires o.endOfGameReason == ""
    ensures FinishGameAsWritten(o, turn, scores, names).endOfGameReason == ""
    ensures FinishGameAsWritten(o, turn, scores, names) == o
  {
  }

  /** `finish_game` as intended: a game that no rule ended early (its reason
      is still empty) ends for the turn limit, naming the single winner if
      there is one, and the standings are taken once more. */
  function FinishGameIntended(o: Outcome, turn: int, scores: seq<int>, names: seq<string>): Outcome
  {
    if o.endOfGameReason == ""
    then Significance(o.(endOfGameReason := TurnLimitReason(o.winningBot, names)), turn, scores)
    else o
  }

  /** The corrected `finish_game` reports the turn limit exactly when no other
      reason was given, and keeps any other reason. */
  lemma FinishGameIntendedSpec(o: Outcome, turn: int, scores: seq<int>, names: seq<string>)
    ensures var r := FinishGameIntended(o, turn, scores, names);
            && (o.endOfGameReason == "" ==>
                  && r.endOfGameReason == TurnLimitReason(o.winningBot, names)
                  && r.endOfGameReason[..18] == "Turn limit reached"
                  && r.winningBot == Winners(scores) && r.rankingBots == Some(Ranking(scores)))
            && (o.endOfGameReason != "" ==> r == o)
  {
  }

  /** The game object. Players are held by value in `players` (their index is
      their id); the turn methods update them in place. */
  class Game {
    const cfg: Config
    var turn: int
    var players: seq<PlayerState>
    var treasures: seq<Treasure>
    var powerups: seq<Powerup>
    var scripts: seq<Script>
    var antiScripts: seq<Script>
    var zones: seq<BermudaZone>
    var board: map<Location, int>
    var rejectedMoves: seq<RejectedMove>
    var endOfGameReason: string
    var winningBot: seq<int>
    var winningTurn: int
    var rankingBots: Option<seq<int>>
    var rankingTurn: int

    /** The state the turn rules work on. */
    function View(): World
      reads this
    {
      World(turn, players, treasures, powerups, scripts, antiScripts, zones, board)
    }

    /** The records the turn rules leave alone. */
    function Records(): Outcome
      reads this
    {
      Outcome(rejectedMoves, endOfGameReason, winningBot, winningTurn, rankingBots, rankingTurn)
    }

    /** A game on turn 0 with the given players, objects and board, nobody
        ranked and no end-of-game reason. */
    constructor (config: Config, ps: seq<PlayerState>, ts: seq<Treasure>, pws: seq<Powerup>,
                 ss: seq<Script>, anti: seq<Script>, b: map<Location, int>)
      ensures cfg == config
      ensures View() == World(0, ps, ts, pws, ss, anti, [], b)
      ensures Records() == Outcome([], "", [], 0, None, 0)
    {
      cfg := config;
      turn := 0;
      players := ps;
      treasures := ts;
      powerups := pws;
      scripts := ss;
      antiScripts := anti;
      zones := [];
      board := b;
      rejectedMoves := [];
      endOfGameReason := "";
      winningBot := [];
      winningTurn := 0;
      rankingBots := None;
      rankingTurn := 0;
    }

    /** Stores a whole world. */
    method Load(w: World)
      modifies this
      ensures View() == w && Records() == old(Records())
    {
      turn, players, treasures, powerups := w.turn, w.players, w.treasures, w.powerups;
      scripts, antiScripts, zones, board := w.scripts, w.antiScripts, w.zones, w.board;
      assert rejectedMoves == old(rejectedMoves) && endOfGameReason == old(endOfGameReason);
      assert winningBot == old(winningBot) && winningTurn == old(winningTurn);
      assert rankingBots == old(rankingBots) && rankingTurn == old(rankingTurn);
    }

    /** Replaces the pirate in a slot. */
    method SetPirate(s: Slot, p: Pirate)
      requires ValidSlot(View(), s)
      modifies this
      ensures View() == SetAt(old(View()), s, p) && Records() == old(Records())
    {
      var st := players[s.owner];
      players := players[s.owner := st.(living := st.living[s.index := p])];
    }

    /** One pirate's visit of a walk, carried out on the game. */
    method VisitSlot(sw: Sweep, s: Slot, marked: seq<Pirate>) returns (r: seq<Pirate>)
      modifies this
      ensures Acc(View(), r) == Visit(cfg, sw, Acc(old(View()), marked), s)
      ensures Records() == old(Records())
    {
      var a := Visit(cfg, sw, Acc(View(), marked), s);
      Load(a.w);
      r := a.marked;
    }

    /** `do_cloak`: every living pirate's cloak counts down. */
    method DoCloak()
      modifies this
      ensures View() == CloakPhase(cfg, old(View())) && Records() == old(Records())
    {
      var slots := LivingSlots(View());
      ghost var start := Acc(View(), []);
      for i := 0 to |slots|
        invariant Run(cfg, CloakSweep, start, slots[..i]) == Acc(View(), [])
        invariant Records() == old(Records())
      {
        RunStep(cfg, CloakSweep, start, slots, i);
        CloakVisitStep(cfg, View(), slots[i]);
        var s := slots[i];
        if s.owner < |players| && s.index < |players[s.owner].living| {
          SetPirate(s, CloakUpkeep(players[s.owner].living[s.index]));
        }
      }
      assert slots[..|slots|] == slots;
    }

    /** `do_defense`: the reload starts when a defense began this turn and
        counts down otherwise; the defense itself counts down. */
    method DoDefense()
      modifies this
      ensures View() == DefensePhase(cfg, old(View())) && Records() == old(Records())
    {
      var slots := LivingSlots(View());
      ghost var start := Acc(View(), []);
      for i := 0 to |slots|
        invariant Run(cfg, DefenseSweep, start, slots[..i]) == Acc(View(), [])
        invariant Records() == old(Records())
      {
        RunStep(cfg, DefenseSweep, start, slots, i);
        DefenseVisitStep(cfg, View(), slots[i]);
        var s := slots[i];
        if s.owner < |players| && s.index < |players[s.owner].living| {
          SetPirate(s, DefenseUpkeep(cfg, turn, players[s.owner].living[s.index]));
        }
      }
      assert slots[..|slots|] == slots;
    }

    /** `do_sober`: every drunk pirate counts down, and those that reach zero
        leave their owner's drunk list. */
    method DoSober()
      modifies this
      ensures View() == SoberPhase(cfg, old(View())) && Records() == old(Records())
    {
      var slots := LivingSlots(View());
      ghost var start := Acc(View(), []);
      var sobered: seq<Pirate> := [];
      for i := 0 to |slots|
        invariant Run(cfg, SoberSweep, start, slots[..i]) == Acc(View(), sobered)
        invariant Records() == old(Records())
      {
        RunStep(cfg, SoberSweep, start, slots, i);
        SoberVisitStep(cfg, View(), sobered, slots[i]);
        var s := slots[i];
        if s.owner < |players| && s.index < |players[s.owner].living| {
          var p := players[s.owner].living[s.index];
          assert p == At(View(), s);
          if IsDrunk(View(), p) {
            var q := p.(base := p.base.(turnsToSober := Countdown(p.base.turnsToSober)));
            SetPirate(s, q);
            if q.base.turnsToSober == 0 {
              sobered := sobered + [q];
            }
          }
        }
      }
      assert slots[..|slots|] == slots;
      DropSobered(sobered);
    }

    /** The second loop of `do_sober`: each sobered pirate leaves its owner's
        drunk list. */
    method DropSobered(sobered: seq<Pirate>)
      modifies this
      ensures View() == SoberUp(old(View()), sobered) && Records() == old(Records())
    {
      for j := 0 to |sobered|
        invariant View() == SoberUp(old(View()), sobered[..j])
        invariant Records() == old(Records())
      {
        assert sobered[..j + 1][..j] == sobered[..j];
        var p := sobered[j];
        var o := p.base.owner;
        if 0 <= o < |players| {
          players := players[o := players[o].(drunk := RemoveFirst(players[o].drunk, p.base.id))];
        }
      }
      assert sobered[..|sobered|] == sobered;
    }

    /** `drunk_pirate`. */
    method DrunkPirate(p: Pirate)
      modifies this
      ensures View() == TurnState.DrunkPirate(cfg, old(View()), p) && Records() == old(Records())
    {
      var o := p.base.owner;
      if 0 <= o < |players| {
        var st := players[o];
        var living := st.living;
        var k := FirstWithId(living, p.base.id);
        if k.Some? {
          living := living[k.value := living[k.value].(base := living[k.value].base.(turnsToSober := cfg.turnsToSober))];
        }
        players := players[o := st.(drunk := st.drunk + [p.base.id], living := living)];
      }
    }

    /** `do_attack`: every pirate's attack of this turn is resolved, then the
        pirates hit get drunk. */
    method DoAttack()
      modifies this
      ensures View() == AttackPhase(cfg, old(View())) && Records() == old(Records())
    {
      var slots := LivingSlots(View());
      ghost var start := Acc(View(), []);
      var hit: seq<Pirate> := [];
      for i := 0 to |slots|
        invariant Run(cfg, AttackSweep, start, slots[..i]) == Acc(View(), hit)
        invariant Records() == old(Records())
      {
        RunStep(cfg, AttackSweep, start, slots, i);
        hit := VisitSlot(AttackSweep, slots[i], hit);
      }
      assert slots[..|slots|] == slots;
      ghost var mid := View();
      for j := 0 to |hit|
        invariant View() == DrunkAll(cfg, mid, hit[..j])
        invariant Records() == old(Records())
      {
        assert hit[..j + 1][..j] == hit[..j];
        DrunkPirate(hit[j]);
      }
      assert hit[..|hit|] == hit;
    }

    /** `kill_pirate`: the treasure goes back, the square becomes land and the
        pirate moves from its owner's living list to the dead list. */
    method KillPirate(p: Pirate)
      modifies this
      ensures View() == TurnState.KillPirate(cfg, old(View()), p) && Records() == old(Records())
    {
      if p.base.treasure.Some? {
        treasures := Release(treasures, p.base.treasure.value);
      }
      board := board[p.base.location := LAND];
      var o := p.base.owner;
      if 0 <= o < |players| {
        var st := players[o];
        players := players[o := st.(dead := st.dead + [Corpse(cfg, p)],
                                    living := RemoveFirstWithId(st.living, p.base.id))];
      }
    }

    /** Kills the pirates in order (the second loop of `do_bermuda_effect`). */
    method KillEach(doomed: seq<Pirate>)
      modifies this
      ensures View() == KillAll(cfg, old(View()), doomed) && Records() == old(Records())
    {
      for j := 0 to |doomed|
        invariant View() == KillAll(cfg, old(View()), doomed[..j])
        invariant Records() == old(Records())
      {
        assert doomed[..j + 1][..j] == doomed[..j];
        KillPirate(doomed[j]);
      }
      assert doomed[..|doomed|] == doomed;
    }

    /** Revives the pirates in order (the second loop of `do_spawn`): each
        leaves its owner's dead list and a new pirate with its id takes its
        initial location. */
    method ReviveEach(reviving: seq<Pirate>)
      modifies this
      ensures View() == ReviveAll(cfg, old(View()), reviving) && Records() == old(Records())
    {
      for j := 0 to |reviving|
        invariant View() == ReviveAll(cfg, old(View()), reviving[..j])
        invariant Records() == old(Records())
      {
        assert reviving[..j + 1][..j] == reviving[..j];
        var p := reviving[j];
        var o := p.base.owner;
        var reborn := NewPirate(p.base.initialLocation, o, p.base.id, cfg.attackRadius, cfg.maxDefenseTurns, turn);
        board := board[p.base.initialLocation := o];
        if 0 <= o < |players| {
          var st := players[o];
          players := players[o := st.(dead := RemoveFirstWithId(st.dead, p.base.id),
                                      allPirates := st.allPirates + [reborn],
                                      living := st.living + [reborn])];
        }
      }
      assert reviving[..|reviving|] == reviving;
    }

    /** `do_bermuda_effect`: the pirates in an enemy zone are killed, then the
        zones count down. */
    method DoBermuda()
      modifies this
      ensures View() == BermudaPhase(cfg, old(View())) && Records() == old(Records())
    {
      var doomed := InEnemyZones();
      KillEach(doomed);
      CountDownZones();
    }

    /** The first loop of `do_bermuda_effect`: the living pirates standing in
        an enemy zone, in walk order; the walk changes nothing else. */
    method InEnemyZones() returns (doomed: seq<Pirate>)
      ensures Walk(cfg, BermudaSweep, View()) == Acc(View(), doomed)
    {
      var slots := LivingSlots(View());
      ghost var start := Acc(View(), []);
      doomed := [];
      for i := 0 to |slots|
        invariant Run(cfg, BermudaSweep, start, slots[..i]) == Acc(View(), doomed)
      {
        RunStep(cfg, BermudaSweep, start, slots, i);
        BermudaVisit(cfg, View(), doomed, slots[i]);
        var s := slots[i];
        if s.owner < |players| && s.index < |players[s.owner].living| {
          var p := players[s.owner].living[s.index];
          assert p == At(View(), s);
          if InEnemyZone(zones, p) {
            doomed := doomed + [p];
          }
        }
      }
      assert slots[..|slots|] == slots;
    }

    /** Every Bermuda zone counts down once. */
    method CountDownZones()
      modifies this
      ensures View() == old(View()).(zones := seq(|old(zones)|, k requires 0 <= k < |old(zones)| => ZoneUpkeep(old(zones)[k])))
      ensures Records() == old(Records())
    {
      for k := 0 to |zones|
        invariant View() == old(View()).(zones := zones) && |zones| == |old(zones)|
        invariant forall m :: 0 <= m < k ==> zones[m] == ZoneUpkeep(old(zones)[m])
        invariant forall m :: k <= m < |zones| ==> zones[m] == old(zones)[m]
        invariant Records() == old(Records())
      {
        zones := zones[k := ZoneUpkeep(zones[k])];
      }
    }

    /** `do_treasures`: carriers at home unload, empty-handed sober pirates
        pick up, then every treasure's spawn countdown runs. */
    method DoTreasures()
      modifies this
      ensures View() == TreasurePhase(cfg, old(View())) && Records() == old(Records())
    {
      var available := AvailableTreasures(treasures);
      var slots := LivingSlots(View());
      ghost var start := Acc(View(), []);
      var marked: seq<Pirate> := [];
      for i := 0 to |slots|
        invariant Run(cfg, TreasureSweep(available), start, slots[..i]) == Acc(View(), marked)
        invariant Records() == old(Records())
      {
        RunStep(cfg, TreasureSweep(available), start, slots, i);
        marked := VisitSlot(TreasureSweep(available), slots[i], marked);
      }
      assert slots[..|slots|] == slots;
      CountDownTreasures();
    }

    /** The last loop of `do_treasures`: every treasure's spawn countdown runs once. */
    method CountDownTreasures()
      modifies this
      ensures View() == old(View()).(treasures := seq(|old(treasures)|, k requires 0 <= k < |old(treasures)| => TreasureUpkeep(old(treasures)[k])))
      ensures Records() == old(Records())
    {
      for k := 0 to |treasures|
        invariant View() == old(View()).(treasures := treasures) && |treasures| == |old(treasures)|
        invariant forall m :: 0 <= m < k ==> treasures[m] == TreasureUpkeep(old(treasures)[m])
        invariant forall m :: k <= m < |treasures| ==> treasures[m] == old(treasures)[m]
        invariant Records() == old(Records())
      {
        treasures := treasures[k := TreasureUpkeep(treasures[k])];
      }
    }

    /** `do_powerups`: powerup timers run, and a pirate on an available powerup takes it. */
    method DoPowerups()
      modifies this
      ensures View() == PowerupPhase(cfg, old(View())) && Records() == old(Records())
    {
      var available := AvailablePowerups(powerups, turn);
      var slots := LivingSlots(View());
      ghost var start := Acc(View(), []);
      var marked: seq<Pirate> := [];
      for i := 0 to |slots|
        invariant Run(cfg, PowerupSweep(available), start, slots[..i]) == Acc(View(), marked)
        invariant Records() == old(Records())
      {
        RunStep(cfg, PowerupSweep(available), start, slots, i);
        marked := VisitSlot(PowerupSweep(available), slots[i], marked);
      }
      assert slots[..|slots|] == slots;
    }

    /** `do_scripts`: scripts and anti-scripts under pirates are collected. */
    method DoScripts()
      modifies this
      ensures View() == ScriptPhase(cfg, old(View())) && Records() == old(Records())
    {
      var available := AvailableScripts(scripts, turn);
      var availableAnti := AvailableScripts(antiScripts, turn);
      var slots := LivingSlots(View());
      ghost var start := Acc(View(), []);
      var marked: seq<Pirate> := [];
      for i := 0 to |slots|
        invariant Run(cfg, ScriptSweep(available, availableAnti), start, slots[..i]) == Acc(View(), marked)
        invariant Records() == old(Records())
      {
        RunStep(cfg, ScriptSweep(available, availableAnti), start, slots, i);
        marked := VisitSlot(ScriptSweep(available, availableAnti), slots[i], marked);
      }
      assert slots[..|slots|] == slots;
    }

    /** One dead pirate of `do_spawn`: when its wait is over, a pirate on its
        initial location is killed, or else it is set aside to revive; while
        waiting, it counts down. */
    method SpawnSlot(d: Slot, reviving: seq<Pirate>) returns (r: seq<Pirate>)
      modifies this
      ensures Acc(View(), r) == SpawnVisit(cfg, Acc(old(View()), reviving), d) && Records() == old(Records())
    {
      r := reviving;
      if d.owner < |players| && d.index < |players[d.owner].dead| {
        var st := players[d.owner];
        var p := st.dead[d.index];
        if p.base.turnsToRevive <= 0 {
          var occupier := FirstAt(AllLiving(View()), p.base.initialLocation);
          if occupier.Some? {
            KillPirate(occupier.value);
          } else {
            r := reviving + [p];
          }
        } else {
          var q := p.(base := p.base.(turnsToRevive := p.base.turnsToRevive - 1));
          players := players[d.owner := st.(dead := st.dead[d.index := q])];
        }
      }
    }

    /** `do_spawn`: dead pirates wait out their countdown; when it is over a
        pirate standing on the spawn square is killed, or else the dead pirate
        revives there as a new pirate. */
    method DoSpawn()
      modifies this
      ensures View() == SpawnPhase(cfg, old(View())) && Records() == old(Records())
    {
      var slots := DeadSlots(players);
      ghost var start := Acc(View(), []);
      var reviving: seq<Pirate> := [];
      for i := 0 to |slots|
        invariant SpawnRun(cfg, start, slots[..i]) == Acc(View(), reviving)
        invariant Records() == old(Records())
      {
        assert slots[..i + 1][..i] == slots[..i];
        reviving := SpawnSlot(slots[i], reviving);
      }
      assert slots[..|slots|] == slots;
      ReviveEach(reviving);
    }
    /** `summon_bermuda_zone`. */
    method SummonBermudaZone(p: Pirate)
      modifies this
      ensures View() == TurnState.SummonBermudaZone(cfg, old(View()), p) && Records() == old(Records())
    {
      zones := zones + [BermudaZone(p.base.owner, cfg.bermudaZoneActiveTurns, turn, p.base.location,
                                    cfg.bermudaZoneRadius)];
      var o := p.base.owner;
      if 0 <= o < |players| {
        players := players[o := players[o].(numScripts := 0)];
      }
    }

    /** The order each pirate follows (the dictionary `do_orders` builds):
        player by player, a later order for a pirate replaces an earlier one,
        and the first order naming no living pirate ends the player's list. */
    method BuildBook() returns (book: OrderBook)
      ensures book == Book(players)
    {
      book := map[];
      for pid := 0 to |players|
        invariant book == Book(players[..pid])
      {
        assert players[..pid + 1][..pid] == players[..pid];
        var living := players[pid].living;
        var orders := players[pid].orders;
        ghost var before := book;
        var j := 0;
        while j < |orders| && ActingLiving(living, orders[j]).Some?
          invariant 0 <= j <= |orders|
          invariant BookPlayer(living, pid, orders, before) == BookPlayer(living, pid, orders[j..], book)
        {
          assert orders[j..][1..] == orders[j + 1..];
          book := book[(pid, ActingLiving(living, orders[j]).value) := orders[j]];
          j := j + 1;
        }
      }
      assert players[..|players|] == players;
    }

    /** The first step of `do_orders`: the squares of the living pirates become land. */
    method ClearOwnSquares()
      modifies this
      ensures View() == old(View()).(board := ClearSquares(old(board), AllLiving(old(View()))))
      ensures Records() == old(Records())
    {
      var living := AllLiving(View());
      for i := 0 to |living|
        invariant View() == old(View()).(board := ClearSquares(old(board), living[..i]))
        invariant Records() == old(Records())
      {
        assert living[..i + 1][..i] == living[..i];
        board := board[living[i].base.location := LAND];
      }
      assert living[..|living|] == living;
    }

    /** The pirate in one slot follows the order the book holds for it. */
    method FollowOrder(book: OrderBook, s: Slot)
      modifies this
      ensures View() == ApplySlot(cfg, book, old(View()), s) && Records() == old(Records())
    {
      if s.owner < |players| && s.index < |players[s.owner].living| {
        var p := players[s.owner].living[s.index];
        var order := Lookup(book, p);
        if OrderKind(order) == "bermuda" {
          SummonBermudaZone(p);
        }
        SetPirate(s, Follow(cfg, turn, p, order));
      }
    }

    /** Every living pirate follows the order the book holds for it. */
    method FollowOrders(book: OrderBook)
      modifies this
      ensures View() == ApplyAll(cfg, book, old(View()), LivingSlots(old(View())))
      ensures Records() == old(Records())
    {
      var slots := LivingSlots(View());
      for i := 0 to |slots|
        invariant View() == ApplyAll(cfg, book, old(View()), slots[..i])
        invariant Records() == old(Records())
      {
        ApplyAllStep(cfg, book, old(View()), slots, i);
        FollowOrder(book, slots[i]);
      }
      assert slots[..|slots|] == slots;
    }

    /** Every living list is emptied before the moved pirates settle. */
    method EmptyLivingLists()
      modifies this
      ensures View() == EmptyLiving(old(View())) && Records() == old(Records())
    {
      for o := 0 to |players|
        invariant |players| == |old(players)|
        invariant forall j :: 0 <= j < o ==> players[j] == old(players[j]).(living := [])
        invariant forall j :: o <= j < |players| ==> players[j] == old(players[j])
        invariant View() == old(View()).(players := players)
        invariant Records() == old(Records())
      {
        players := players[o := players[o].(living := [])];
      }
      assert players == EmptyLiving(old(View())).players;
    }

    /** A moved pirate alone on its square rejoins its owner's living list;
        pirates sharing a square are killed. */
    method SettleMoved(moved: seq<Pirate>)
      modifies this
      ensures View() == SettleAll(cfg, moved, old(View()), moved) && Records() == old(Records())
    {
      for i := 0 to |moved|
        invariant View() == SettleAll(cfg, moved, old(View()), moved[..i])
        invariant Records() == old(Records())
      {
        assert moved[..i + 1][..i] == moved[..i];
        var p := moved[i];
        if CountAt(moved, p.base.location) == 1 {
          var o := p.base.owner;
          if 0 <= o < |players| {
            players := players[o := players[o].(living := players[o].living + [p])];
          }
        } else {
          KillPirate(p);
        }
      }
      assert moved[..|moved|] == moved;
    }

    /** The last step of `do_orders`: each living pirate's square holds its owner. */
    method MarkOwnSquares()
      modifies this
      ensures View() == old(View()).(board := MarkSquares(old(board), AllLiving(old(View()))))
      ensures Records() == old(Records())
    {
      var living := AllLiving(View());
      for i := 0 to |living|
        invariant View() == old(View()).(board := MarkSquares(old(board), living[..i]))
        invariant Records() == old(Records())
      {
        assert living[..i + 1][..i] == living[..i];
        board := board[living[i].base.location := living[i].base.owner];
      }
      assert living[..|living|] == living;
    }

    /** `do_orders`: the pirates carry out their orders and those that end on
        a shared square die; no two living pirates then share a square. */
    method DoOrders()
      modifies this
      ensures View() == OrdersPhase.OrdersPhase(cfg, old(View())) && Records() == old(Records())
      ensures OnePerSquare(View())
    {
      ClearOwnSquares();
      var book := BuildBook();
      FollowOrders(book);
      var moved := AllLiving(View());
      EmptyLivingLists();
      SettleMoved(moved);
      MarkOwnSquares();
      OrdersLeaveOnePerSquare(cfg, old(View()));
    }

    /** The context `validate_order` reads for player `pid`. */
    function OrderContextOf(pid: int): OrderContext
      reads this
      requires 0 <= pid < |players|
    {
      OrderContext(cfg, turn, pid, players[pid].living, players[pid].allPirates, players[pid].numScripts, zones)
    }

    /** `do_moves`: the player's orders are sorted into valid, ignored and
        invalid ones, the valid ones become the player's orders, and the moves
        that would leave the map are logged. An order the validation cannot
        read (a missing key) aborts the batch: the player's orders stay as
        they were and the error is returned. */
    method DoMoves(pid: int, orders: seq<RawOrder>)
      returns (r: Result<(seq<RawOrder>, seq<(RawOrder, string)>, seq<(RawOrder, string)>)>)
      requires ValidConfig(cfg) && 0 <= pid < |players|
      modifies this
      ensures var b := RunBatch(old(OrderContextOf(pid)), orders);
              && rejectedMoves == old(rejectedMoves) + b.rejected
              && (b.crashed.Some? ==> r == Err(b.crashed.value) && players == old(players))
              && (b.crashed.None? ==> r == Ok((b.valid, b.ignored, b.invalid))
                                      && players == old(players)[pid := old(players)[pid].(orders := b.valid)])
      ensures View() == old(View()).(players := players)
      ensures Records() == old(Records()).(rejectedMoves := rejectedMoves)
    {
      var ctx := OrderContextOf(pid);
      var b := EmptyBatch;
      var i := 0;
      while i < |orders| && b.crashed.None?
        invariant 0 <= i <= |orders|
        invariant b == RunBatch(ctx, orders[..i])
      {
        assert orders[..i + 1][..i] == orders[..i];
        b := BatchStep(ctx, b, orders[i]);
        i := i + 1;
      }
      CrashedBatchStays(ctx, orders, i);
      rejectedMoves := rejectedMoves + b.rejected;
      if b.crashed.Some? {
        return Err(b.crashed.value);
      }
      players := players[pid := players[pid].(orders := b.valid)];
      r := Ok((b.valid, b.ignored, b.invalid));
    }

    /** `start_turn`: the turn counter advances and every player's orders are cleared. */
    method StartTurn()
      modifies this
      ensures turn == old(turn) + 1 && |players| == |old(players)|
      ensures forall o :: 0 <= o < |players| ==> players[o] == old(players[o]).(orders := [])
      ensures View() == old(View()).(turn := turn, players := players) && Records() == old(Records())
    {
      turn := turn + 1;
      for o := 0 to |players|
        invariant turn == old(turn) + 1 && |players| == |old(players)|
        invariant forall j :: 0 <= j < o ==> players[j] == old(players[j]).(orders := [])
        invariant forall j :: o <= j < |players| ==> players[j] == old(players[j])
        invariant View() == old(View()).(turn := turn, players := players)
        invariant Records() == old(Records())
      {
        players := players[o := players[o].(orders := [])];
      }
    }

    /** `calculate_turn_significance`. */
    method CalculateTurnSignificance()
      modifies this
      ensures Records() == Significance(old(Records()), turn, Scores(players)) && View() == old(View())
    {
      var scores := Scores(players);
      var ranking := Ranking(scores);
      if rankingBots != Some(ranking) {
        rankingTurn := turn;
      }
      rankingBots := Some(ranking);
      var winners := Winners(scores);
      if winningBot != winners {
        winningTurn := turn;
      }
      winningBot := winners;
    }

    /** The score history step of `finish_turn`: each player logs its score. */
    method RecordScoreHistory()
      modifies this
      ensures View() == RecordScores(old(View())) && Records() == old(Records())
    {
      for o := 0 to |players|
        invariant |players| == |old(players)|
        invariant forall j :: 0 <= j < o ==> players[j] == RecordScores(old(View())).players[j]
        invariant forall j :: o <= j < |players| ==> players[j] == old(players[j])
        invariant View() == old(View()).(players := players)
        invariant Records() == old(Records())
      {
        players := players[o := players[o].(scoreHistory := players[o].scoreHistory + [players[o].score])];
      }
      assert players == RecordScores(old(View())).players;
    }

    /** `finish_turn`: every rule of the turn in order, each player logs its
        score, and the standings are taken. */
    method FinishTurn()
      modifies this
      ensures View() == TurnRules(cfg, old(View()))
      ensures Records() == Significance(old(Records()), turn, Scores(players))
    {
      DoOrders();
      DoSober();
      DoAttack();
      DoDefense();
      DoCloak();
      DoBermuda();
      DoTreasures();
      DoPowerups();
      DoScripts();
      DoSpawn();
      RecordScoreHistory();
      CalculateTurnSignificance();
    }

    /** `game_over`. */
    method GameOver() returns (over: bool)
      modifies this
      ensures (over, Records()) == GameOverCheck(players, cfg.maxPoints, old(Records()))
      ensures View() == old(View())
    {
      var remaining := Remaining(players);
      if |remaining| < 1 {
        endOfGameReason := "No bots left";
        winningBot := [];
        return true;
      }
      if |remaining| == 1 {
        winningBot := remaining;
        endOfGameReason := "Bot crashed";
        return true;
      }
      if MaxScore(Scores(players)) >= cfg.maxPoints {
        endOfGameReason := "Maximum points";
        return true;
      }
      return false;
    }

    /** `finish_game`, with the test corrected to the empty reason the game starts with. */
    method FinishGame()
      modifies this
      ensures Records() == FinishGameIntended(old(Records()), turn, Scores(players), BotNames(players))
      ensures View() == old(View())
    {
      if endOfGameReason == "" {
        endOfGameReason := TurnLimitReason(winningBot, BotNames(players));
        CalculateTurnSignificance();
      }
    }

    /** `add_initial_pirate`: a new pirate of `owner` stands on `location`,
        which the board marks with the owner. */
    method AddInitialPirate(location: Location, owner: int, pirateId: int) returns (p: Pirate)
      requires 0 <= owner < |players|
      modifies this
      ensures p == NewPirate(location, owner, pirateId, cfg.attackRadius, cfg.maxDefenseTurns, old(turn))
      ensures board == old(board)[location := owner]
      ensures players == old(players)[owner := old(players[owner]).(allPirates := old(players[owner].allPirates) + [p],
                                                                      living := old(players[owner].living) + [p])]
      ensures View() == old(View()).(players := players, board := board) && Records() == old(Records())
    {
      p := NewPirate(location, owner, pirateId, cfg.attackRadius, cfg.maxDefenseTurns, turn);
      board := board[location := owner];
      var st := players[owner];
      players := players[owner := st.(allPirates := st.allPirates + [p], living := st.living + [p])];
    }
  }
}
