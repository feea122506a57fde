/** The player object the engine keeps per bot (PlayerClass.py): its score,
    scripts, orders of the turn and its pirates, which the turn rules move
    between the living, dead and drunk lists in place. */
module PlayerClass {
  import opened Common
  import opened PiratesEntities

  /** The value of every field of a player, as the turn rules read it. */
  datatype PlayerState = PlayerState(
    id: int,
    botName: string,
    isKilled: bool,
    orders: seq<RawOrder>,
    score: int,
    scoreHistory: seq<int>,
    numScripts: int,
    turnsToCloak: int,
    living: seq<Pirate>,
    dead: seq<Pirate>,
    drunk: seq<int>,
    allPirates: seq<Pirate>)

  /** The position of the first pirate of `s` with that id. */
  function FirstWithId(s: seq<Pirate>, pirateId: int): (r: Option<nat>)
    ensures r.Some? ==> r.value < |s| && s[r.value].base.id == pirateId
    ensures r.Some? ==> forall j :: 0 <= j < r.value ==> s[j].base.id != pirateId
    ensures r.None? <==> forall j :: 0 <= j < |s| ==> s[j].base.id != pirateId
  {
    if s == [] then None
    else if s[0].base.id == pirateId then Some(0)
    else match FirstWithId(s[1..], pirateId)
      case None => None
      case Some(k) => Some(k + 1)
  }

  /** The first pirate of `s` with that id, if any. */
  function FindWithId(s: seq<Pirate>, pirateId: int): (r: Option<Pirate>)
    ensures r.Some? <==> exists j :: 0 <= j < |s| && s[j].base.id == pirateId
    ensures r.Some? ==> r.value in s && r.value.base.id == pirateId
  {
    match FirstWithId(s, pirateId)
    case None => None
    case Some(k) => Some(s[k])
  }

  /** `s` without its first pirate with that id; `s` itself when there is none. */
  function RemoveFirstWithId(s: seq<Pirate>, pirateId: int): seq<Pirate>
  {
    match FirstWithId(s, pirateId)
    case None => s
    case Some(k) => s[..k] + s[k + 1..]
  }

  /** Removal takes out exactly the first pirate with the id and keeps the
      others in order; with no such pirate nothing changes. */
  lemma RemoveFirstWithIdSpec(s: seq<Pirate>, pirateId: int)
    ensures FirstWithId(s, pirateId).None? ==> RemoveFirstWithId(s, pirateId) == s
    ensures FirstWithId(s, pirateId).Some? ==>
              var k := FirstWithId(s, pirateId).value;
              && |RemoveFirstWithId(s, pirateId)| == |s| - 1
              && (forall j :: 0 <= j < k ==> RemoveFirstWithId(s, pirateId)[j] == s[j])
              && (forall j :: k <= j < |s| - 1 ==> RemoveFirstWithId(s, pirateId)[j] == s[j + 1])
              && multiset(RemoveFirstWithId(s, pirateId)) + multiset{s[k]} == multiset(s)
  {
    match FirstWithId(s, pirateId)
    case None =>
    case Some(k) =>
      assert s == s[..k] + [s[k]] + s[k + 1..];
  }

  class Player {
    const id: int
    var botName: string
    var isKilled: bool
    var orders: seq<RawOrder>
    var score: int
    var scoreHistory: seq<int>
    var numScripts: int
    var turnsToCloak: int
    var living: seq<Pirate>
    var dead: seq<Pirate>
    /** Ids of this player's pirates in `drunk_pirates` (a pirate is equal to
        another exactly when id and owner match, and this list only ever holds
        the player's own pirates). */
    var drunk: seq<int>
    /** Every pirate ever created for the player, as created. */
    var allPirates: seq<Pirate>

    /** The value of all fields. */
    function State(): (st: PlayerState)
      reads this
      ensures st.id == id
    {
      PlayerState(id, botName, isKilled, orders, score, scoreHistory, numScripts,
                  turnsToCloak, living, dead, drunk, allPirates)
    }

    /** A new player: score and scripts at 0, no orders, no history, no pirates. */
    constructor (playerId: int, name: string)
      ensures State() == PlayerState(playerId, name, false, [], 0, [], 0, 0, [], [], [], [])
    {
      id := playerId;
      botName := name;
      isKilled := false;
      orders := [];
      score := 0;
      scoreHistory := [];
      numScripts := 0;
      turnsToCloak := 0;
      living := [];
      dead := [];
      drunk := [];
      allPirates := [];
    }

    /** `get_living_pirate`: the first living pirate with that id, or None. */
    function GetLivingPirate(pirateId: int): (r: Option<Pirate>)
      reads this
      ensures r.None? <==> forall j :: 0 <= j < |living| ==> living[j].base.id != pirateId
      ensures r.Some? ==> exists k :: 0 <= k < |living| && living[k] == r.value
                            && r.value.base.id == pirateId
                            && forall j :: 0 <= j < k ==> living[j].base.id != pirateId
    {
      FindWithId(living, pirateId)
    }

    /** `remove_living_pirate`: pops the first living pirate with that id and
        returns it; with no such pirate it returns None and changes nothing. */
    method RemoveLivingPirate(pirateId: int) returns (r: Option<Pirate>)
      modifies this
      ensures r == old(GetLivingPirate(pirateId))
      ensures living == RemoveFirstWithId(old(living), pirateId)
      ensures State() == old(State()).(living := living)
    {
      var index := 0;
      while index < |living|
        invariant 0 <= index <= |living|
        invariant living == old(living) && State() == old(State())
        invariant forall j :: 0 <= j < index ==> living[j].base.id != pirateId
      {
        if living[index].base.id == pirateId {
          assert FirstWithId(living, pirateId) == Some(index);
          r := Some(living[index]);
          living := living[..index] + living[index + 1..];
          return;
        }
        index := index + 1;
      }
      r := None;
    }

    /** `kill_player`: marks the player killed; nothing else changes. */
    method KillPlayer()
      modifies this
      ensures isKilled && !IsAlive()
      ensures State() == old(State()).(isKilled := true)
    {
      isKilled := true;
    }

    /** `is_alive`: not killed, and at least one pirate was ever created. */
    predicate IsAlive()
      reads this
    {
      IsAliveState(State())
    }
  }

  /** `is_alive` on a player's field values. */
  predicate IsAliveState(st: PlayerState)
  {
    !st.isKilled && |st.allPirates| > 0
  }
}
