/** The Python bot SDK (`pythonRunner.Pirates`): its geometry helpers
    (`distance`, `destination`, `in_range`, the direction letters and the
    sail options), the pirate queries over the id-sorted lists it builds on
    every update, and the move order `set_sail` queues. Sail options are
    never shuffled here (randomisation off). */
module Sdk {
  import opened Common
  import opened Locations
  import opened PiratesEntities
  import opened PiratesGrid

  /** The player id a bot sees itself as. */
  const ME: int := 0

  /** The map settings the SDK holds. */
  datatype Geometry = Geometry(rows: int, cols: int, cyclic: bool)

  /** The same map as the rules see it (only the size and the wrapping matter). */
  function GridConfig(g: Geometry): Config
  {
    Config(g.rows, g.cols, g.cyclic, 0, 0, 0, 0, 0, 0, 0, 0, 0, 0, 0, 0, 0, 0)
  }

  // ---------------------------------------------------------------------
  // Geometry

  /** `distance`: the Manhattan distance, each axis the shorter way round
      on a cyclic map. */
  function Distance(g: Geometry, a: Location, b: Location): int
  {
    AxisDistance(Abs(a.row - b.row), g.rows, g.cyclic) + AxisDistance(Abs(a.col - b.col), g.cols, g.cyclic)
  }

  /** The distance is symmetric, is the plain Manhattan distance off a
      cyclic map, takes `min(|d|, size - |d|)` per axis on a cyclic one, and
      agrees with the rules' `manhattan_distance`. */
  lemma DistanceSpec(g: Geometry, a: Location, b: Location)
    ensures Distance(g, a, b) == Distance(g, b, a)
    ensures !g.cyclic ==> Distance(g, a, b) == Abs(a.row - b.row) + Abs(a.col - b.col)
    ensures g.cyclic ==>
              var dr, dc := Abs(a.row - b.row), Abs(a.col - b.col);
              Distance(g, a, b) == (if dr <= g.rows - dr then dr else g.rows - dr)
                                   + (if dc <= g.cols - dc then dc else g.cols - dc)
    ensures Distance(g, a, b) == ManhattanDistance(GridConfig(g), a, b)
  {
    assert Abs(a.row - b.row) == Abs(b.row - a.row);
    assert Abs(a.col - b.col) == Abs(b.col - a.col);
  }

  /** The SDK's `AIM` table: the four compass letters and `'-'`. */
  function Aim(c: char): Option<Location>
  {
    if c == 'n' then Some(Location(-1, 0))
    else if c == 'e' then Some(Location(0, 1))
    else if c == 's' then Some(Location(1, 0))
    else if c == 'w' then Some(Location(0, -1))
    else if c == '-' then Some(Location(0, 0))
    else None
  }

  /** Python's `%`: the result takes the sign of the divisor. */
  function PyMod(a: int, n: int): (r: int)
    requires n != 0
    ensures n > 0 ==> 0 <= r < n
    ensures n > 0 && 0 <= a < n ==> r == a
  {
    if n > 0 then a % n else (var m := a % (-n); if m == 0 then 0 else m + n)
  }

  /** One step of `destination`; `None` when the letter is no `AIM` key
      (`KeyError`) or a wrapping axis has size 0 (`ZeroDivisionError`). */
  function StepTo(g: Geometry, l: Location, c: char): Option<Location>
  {
    match Aim(c)
    case None => None
    case Some(d) =>
      if !g.cyclic then Some(Add(l, d))
      else if g.rows == 0 || g.cols == 0 then None
      else Some(Location(PyMod(l.row + d.row, g.rows), PyMod(l.col + d.col, g.cols)))
  }

  /** `destination` over a list of letters. */
  function DestinationOf(g: Geometry, l: Location, dirs: seq<char>): Option<Location>
  {
    if dirs == [] then Some(l)
    else match DestinationOf(g, l, dirs[..|dirs| - 1])
      case None => None
      case Some(p) => StepTo(g, p, dirs[|dirs| - 1])
  }

  /** `destination` as the loop it is. */
  method Destination(g: Geometry, l: Location, dirs: seq<char>) returns (r: Option<Location>)
    ensures r == DestinationOf(g, l, dirs)
  {
    var cur := l;
    var i := 0;
    while i < |dirs|
      invariant 0 <= i <= |dirs|
      invariant DestinationOf(g, l, dirs[..i]) == Some(cur)
    {
      assert dirs[..i + 1][..i] == dirs[..i];
      var next := StepTo(g, cur, dirs[i]);
      if next.None? {
        DestinationStopped(g, l, dirs, i + 1);
        assert dirs[..|dirs|] == dirs;
        return None;
      }
      cur := next.value;
      i := i + 1;
    }
    assert dirs[..i] == dirs;
    r := Some(cur);
  }

  lemma {:induction false} DestinationStopped(g: Geometry, l: Location, dirs: seq<char>, n: nat)
    requires n <= |dirs| && DestinationOf(g, l, dirs[..n]).None?
    ensures DestinationOf(g, l, dirs).None?
    decreases |dirs| - n
  {
    if n < |dirs| {
      assert dirs[..n + 1][..n] == dirs[..n];
      DestinationStopped(g, l, dirs, n + 1);
    } else {
      assert dirs[..n] == dirs;
    }
  }

  /** Off a cyclic map, letters from `AIM` are applied one after the other
      exactly as the rules' walk does. */
  lemma {:induction false} DestinationIsWalk(g: Geometry, l: Location, dirs: seq<char>)
    requires !g.cyclic
    requires forall i :: 0 <= i < |dirs| ==> dirs[i] in "nesw-"
    ensures DestinationOf(g, l, dirs) == Some(Walk(l, dirs))
  {
    if dirs != [] {
      var init := dirs[..|dirs| - 1];
      var c := dirs[|dirs| - 1];
      DestinationIsWalk(g, l, init);
      WalkAppend(l, init, [c]);
      assert init + [c] == dirs;
      assert Walk(Walk(l, init), [c]) == Add(Walk(l, init), Offset(c)) by {
        assert [c][1..] == [];
      }
    }
  }

  /** `'-'` leaves a location unchanged (on a cyclic map, one on the map). */
  lemma StandStill(g: Geometry, l: Location)
    requires !g.cyclic || (0 <= l.row < g.rows && 0 <= l.col < g.cols)
    ensures DestinationOf(g, l, ['-']) == Some(l)
  {
    assert ['-'][..0] == [];
  }

  /** On a cyclic map every location reached by at least one step is on the map. */
  lemma CyclicDestinationOnMap(g: Geometry, l: Location, dirs: seq<char>)
    requires g.cyclic && g.rows > 0 && g.cols > 0 && dirs != [] && DestinationOf(g, l, dirs).Some?
    ensures 0 <= DestinationOf(g, l, dirs).value.row < g.rows
    ensures 0 <= DestinationOf(g, l, dirs).value.col < g.cols
  {
    var prev := DestinationOf(g, l, dirs[..|dirs| - 1]);
    assert prev.Some?;
    var c := dirs[|dirs| - 1];
    assert DestinationOf(g, l, dirs) == StepTo(g, prev.value, c);
  }

  /** Following `s` and then `t` is following `s + t`. */
  lemma {:induction false} DestinationAppend(g: Geometry, l: Location, s: seq<char>, t: seq<char>)
    requires DestinationOf(g, l, s).Some?
    ensures DestinationOf(g, l, s + t) == DestinationOf(g, DestinationOf(g, l, s).value, t)
    decreases |t|
  {
    if t == [] {
      assert s + t == s;
    } else {
      var t0 := t[..|t| - 1];
      assert (s + t)[..|s + t| - 1] == s + t0;
      DestinationAppend(g, l, s, t0);
    }
  }

  /** `in_range`: the unwrapped squared distance is positive and at most
      `attack_radius2`. */
  predicate InRange(a: Location, b: Location, attackRadius2: int)
  {
    var d := (a.row - b.row) * (a.row - b.row) + (a.col - b.col) * (a.col - b.col);
    0 < d <= attackRadius2
  }

  /** A location is never in range of itself, the test is symmetric, and
      distinct locations within the radius are in range. */
  lemma InRangeSpec(a: Location, b: Location, attackRadius2: int)
    ensures !InRange(a, a, attackRadius2)
    ensures InRange(a, b, attackRadius2) == InRange(b, a, attackRadius2)
    ensures a != b && InCircle(a, attackRadius2, b) ==> InRange(a, b, attackRadius2)
  {
    var dr, dc := a.row - b.row, a.col - b.col;
    if a != b {
      assert dr != 0 || dc != 0;
      assert dr * dr > 0 || dc * dc > 0;
    }
  }

  // ---------------------------------------------------------------------
  // Sail options

  /** `__get_directions` is the rules' direction loop with the SDK's
      distance: the letters `get_direction_letters` produces. */
  function Directions(g: Geometry, a: Location, b: Location): seq<char>
  {
    DirectionLetters(GridConfig(g), a, b)
  }

  /** The letters without repeats, in order of first appearance. */
  function Dedupe(s: seq<char>): (r: seq<char>)
    ensures forall x :: x in r <==> x in s
    ensures s != [] ==> r != []
  {
    if s == [] then []
    else
      var d := Dedupe(s[..|s| - 1]);
      if s[|s| - 1] in d then d else d + [s[|s| - 1]]
  }

  /** The loop building `set_of_directions`. */
  method DedupeLetters(s: seq<char>) returns (r: seq<char>)
    ensures r == Dedupe(s)
  {
    r := [];
    var i := 0;
    while i < |s|
      invariant 0 <= i <= |s|
      invariant r == Dedupe(s[..i])
    {
      assert s[..i + 1][..i] == s[..i];
      if s[i] !in r {
        r := r + [s[i]];
      }
      i := i + 1;
    }
    assert s[..i] == s;
  }

  /** All the steps succeed, or `None`. */
  function AllSome(xs: seq<Option<Location>>): (r: Option<seq<Location>>)
    ensures r.Some? ==> |r.value| == |xs| && forall i :: 0 <= i < |xs| ==> xs[i] == Some(r.value[i])
  {
    if xs == [] then Some([])
    else match (xs[0], AllSome(xs[1..]))
      case (Some(x), Some(rest)) => Some([x] + rest)
      case _ => None
  }

  /** The window of letters around the pivot, as `get_sail_options` cuts it. */
  function Window(dirs: seq<char>, pivot: nat, moves: nat): (w: seq<char>)
    requires pivot < |dirs|
  {
    var first := if pivot - moves > 0 then pivot - moves else 0;
    var second := if pivot + moves < |dirs| then pivot + moves else |dirs|;
    dirs[first..second]
  }

  /** Where each run of `moves` consecutive letters of the window leads; the
      whole window when it is shorter than `moves`. */
  function Candidates(g: Geometry, from: Location, optional: seq<char>, moves: nat): (c: seq<Option<Location>>)
    ensures |optional| < moves ==> c == [DestinationOf(g, from, optional)]
    ensures |optional| >= moves ==> |c| == |optional| - moves + 1
  {
    if |optional| < moves then [DestinationOf(g, from, optional)]
    else seq(|optional| - moves + 1, i requires 0 <= i <= |optional| - moves =>
               DestinationOf(g, from, optional[i..moves + i]))
  }

  /** The pivot: where the last new letter first appears. */
  function Pivot(dirs: seq<char>): (p: nat)
    requires dirs != []
    ensures p < |dirs|
  {
    var distinct := Dedupe(dirs);
    IndexOf(dirs, distinct[|distinct| - 1]).value
  }

  /** `get_sail_options`: `None` when the source raises (a negative `moves`
      fails its assertion; a failing step raises). */
  function SailOptions(g: Geometry, from: Location, to: Location, moves: int): Option<seq<Location>>
  {
    if moves < 0 then None
    else if from == to then Some([from])
    else
      var dirs := Directions(g, from, to);
      if dirs == [] then None
      else AllSome(Candidates(g, from, Window(dirs, Pivot(dirs), moves), moves))
  }

  method GetSailOptions(g: Geometry, from: Location, to: Location, moves: int) returns (r: Option<seq<Location>>)
    ensures r == SailOptions(g, from, to, moves)
  {
    if moves < 0 {
      return None;
    }
    if from == to {
      return Some([from]);
    }
    var dirs := GetDirectionLetters(GridConfig(g), from, to);
    var distinct := DedupeLetters(dirs);
    if distinct == [] {
      return None;
    }
    var pivot := IndexOf(dirs, distinct[|distinct| - 1]).value;
    assert pivot == Pivot(dirs);
    var optional := Window(dirs, pivot, moves);
    r := AllSome(Candidates(g, from, optional, moves));
  }

  /** A negative `moves` fails the assertion, and a pirate already there
      gets its own location as the only option. */
  lemma SailOptionsTrivial(g: Geometry, from: Location, to: Location, moves: int)
    ensures moves < 0 ==> SailOptions(g, from, to, moves).None?
    ensures moves >= 0 && from == to ==> SailOptions(g, from, to, moves) == Some([from])
  {
  }

  /** A window that starts at the beginning and reaches the end is the whole list. */
  lemma WholeWindow(dirs: seq<char>, pivot: nat, moves: nat)
    requires pivot < |dirs| <= moves
    ensures Window(dirs, pivot, moves) == dirs
  {
    assert dirs[0..|dirs|] == dirs;
  }

  /** The candidates of a window exactly `moves` long are its destination. */
  lemma ExactCandidates(g: Geometry, from: Location, optional: seq<char>, moves: nat)
    requires |optional| == moves
    ensures Candidates(g, from, optional, moves) == [DestinationOf(g, from, optional)]
  {
    assert optional[0..moves + 0] == optional;
  }

  /** Off a cyclic map the direction letters are as many as the distance
      and lead to the target. */
  lemma DirectionsReach(g: Geometry, from: Location, to: Location)
    requires !g.cyclic && from != to
    ensures |Directions(g, from, to)| == Distance(g, from, to)
    ensures DestinationOf(g, from, Directions(g, from, to)) == Some(to)
  {
    var cfg := GridConfig(g);
    DistanceSpec(g, from, to);
    DirectionLettersNonCyclic(cfg, from, to);
    var dirs := Directions(g, from, to);
    forall i | 0 <= i < |dirs| ensures dirs[i] in "nesw-" {
      assert dirs[i] in "nsew";
    }
    DestinationIsWalk(g, from, dirs);
  }

  /** Off a cyclic map, with enough moves to cover the distance, the only
      option is the destination itself. */
  lemma SailOptionsReach(g: Geometry, from: Location, to: Location, moves: int)
    requires !g.cyclic && from != to && moves >= Distance(g, from, to)
    ensures SailOptions(g, from, to, moves) == Some([to])
  {
    DirectionsReach(g, from, to);
    var dirs := Directions(g, from, to);
    assert dirs != [] by {
      DistanceSpec(g, from, to);
    }
    WholeWindow(dirs, Pivot(dirs), moves);
    if |dirs| == moves {
      ExactCandidates(g, from, dirs, moves);
    }
    var c := Candidates(g, from, dirs, moves);
    assert c == [Some(to)];
    assert c[1..] == [] && AllSome(c[1..]) == Some([]);
    assert [to] + [] == [to];
    assert AllSome(c) == Some([to]);
  }

  // ---------------------------------------------------------------------
  // Pirates and orders

  /** A pirate as the SDK sees it. */
  datatype SdkPirate = SdkPirate(
    id: int, owner: int, location: Location, isLost: bool, turnsToSober: int, treasure: Option<int>)

  /** A queued order (only moves are modelled). */
  datatype SdkOrder = MoveOrder(pirate: int, destination: Location)

  /** A list comprehension with a condition. */
  function Filter(s: seq<SdkPirate>, f: SdkPirate -> bool): (r: seq<SdkPirate>)
    ensures forall x :: x in r ==> f(x) && x in s
    ensures |r| <= |s|
  {
    if s == [] then [] else Filter(s[..|s| - 1], f) + (if f(s[|s| - 1]) then [s[|s| - 1]] else [])
  }

  /** A condition and its negation split a list: together the two
      comprehensions hold every element exactly as often as the list. */
  lemma {:induction false} FilterSplit(s: seq<SdkPirate>, f: SdkPirate -> bool, g: SdkPirate -> bool)
    requires forall x :: g(x) == !f(x)
    ensures multiset(Filter(s, f)) + multiset(Filter(s, g)) == multiset(s)
  {
    if s != [] {
      FilterSplit(s[..|s| - 1], f, g);
      assert s == s[..|s| - 1] + [s[|s| - 1]];
    }
  }

  /** Every element satisfying the condition is kept. */
  lemma {:induction false} FilterKeeps(s: seq<SdkPirate>, f: SdkPirate -> bool, x: SdkPirate)
    requires x in s && f(x)
    ensures x in Filter(s, f)
  {
    if x != s[|s| - 1] {
      assert x in s[..|s| - 1] by {
        var k :| 0 <= k < |s| && s[k] == x;
        assert s[..|s| - 1][k] == x;
      }
      FilterKeeps(s[..|s| - 1], f, x);
    }
  }

  predicate SortedById(s: seq<SdkPirate>)
  {
    forall i, j :: 0 <= i < j < |s| ==> s[i].id <= s[j].id
  }

  /** Inserts `x` before the first element whose id is not below its own. */
  function InsertById(x: SdkPirate, t: seq<SdkPirate>): seq<SdkPirate>
  {
    if t == [] || x.id <= t[0].id then [x] + t else [t[0]] + InsertById(x, t[1..])
  }

  /** Insertion adds `x` once and keeps a sorted list sorted. */
  lemma InsertByIdSpec(x: SdkPirate, t: seq<SdkPirate>)
    ensures multiset(InsertById(x, t)) == multiset(t) + multiset{x}
    ensures forall y :: y in InsertById(x, t) <==> y == x || y in t
    ensures SortedById(t) ==> SortedById(InsertById(x, t))
  {
    InsertByIdCount(x, t);
    var r := InsertById(x, t);
    forall y ensures y in r <==> y == x || y in t {
      assert y in r <==> y in multiset(r);
      assert y in t <==> y in multiset(t);
    }
    if SortedById(t) {
      InsertByIdSorted(x, t);
    }
  }

  lemma {:induction false} InsertByIdCount(x: SdkPirate, t: seq<SdkPirate>)
    ensures multiset(InsertById(x, t)) == multiset(t) + multiset{x}
  {
    if t != [] && x.id > t[0].id {
      InsertByIdCount(x, t[1..]);
      assert t == [t[0]] + t[1..];
    }
  }

  lemma {:induction false} InsertByIdSorted(x: SdkPirate, t: seq<SdkPirate>)
    requires SortedById(t)
    ensures SortedById(InsertById(x, t))
  {
    if t == [] || x.id <= t[0].id {
      ConsSorted(x, t);
    } else {
      InsertByIdSorted(x, t[1..]);
      InsertByIdAbove(x, t[1..], t[0].id);
      ConsSorted(t[0], InsertById(x, t[1..]));
    }
  }

  /** Insertion keeps a lower bound that `x` and the list both respect. */
  lemma {:induction false} InsertByIdAbove(x: SdkPirate, t: seq<SdkPirate>, b: int)
    requires b <= x.id && forall k :: 0 <= k < |t| ==> b <= t[k].id
    ensures forall k :: 0 <= k < |InsertById(x, t)| ==> b <= InsertById(x, t)[k].id
  {
    if t != [] && x.id > t[0].id {
      InsertByIdAbove(x, t[1..], b);
    }
  }

  lemma ConsSorted(h: SdkPirate, t: seq<SdkPirate>)
    requires SortedById(t) && forall k :: 0 <= k < |t| ==> h.id <= t[k].id
    ensures SortedById([h] + t)
  {
    var r := [h] + t;
    forall i, j | 0 <= i < j < |r| ensures r[i].id <= r[j].id {
      assert r[j] == t[j - 1];
      if i > 0 {
        assert r[i] == t[i - 1];
      }
    }
  }

  /** `sort_by_id`: Python's stable sort on the id. */
  function SortById(s: seq<SdkPirate>): (r: seq<SdkPirate>)
    ensures multiset(r) == multiset(s) && SortedById(r)
  {
    if s == [] then []
    else
      assert s == [s[0]] + s[1..];
      InsertByIdSpec(s[0], SortById(s[1..]));
      InsertById(s[0], SortById(s[1..]))
  }

  function IsMine(p: SdkPirate): bool { p.owner == ME }
  function IsEnemy(p: SdkPirate): bool { p.owner != ME }
  function IsLiving(p: SdkPirate): bool { !p.isLost }
  function IsLost(p: SdkPirate): bool { p.isLost }
  function IsDrunk(p: SdkPirate): bool { p.turnsToSober > 0 }
  function IsSober(p: SdkPirate): bool { p.turnsToSober <= 0 }

  class Pirates {
    var geometry: Geometry
    var allPirates: seq<SdkPirate>
    var sortedMine: seq<SdkPirate>
    var sortedEnemy: seq<SdkPirate>
    var orders: seq<SdkOrder>

    /** `__update` as it touches pirates and orders: the orders of the last
        turn are dropped, and the pirates of the new state and the two
        id-sorted lists built from them replace the old ones. */
    method SetPirates(all: seq<SdkPirate>)
      modifies this
      ensures allPirates == all && geometry == old(geometry) && orders == []
      ensures sortedMine == SortById(Filter(all, IsMine))
      ensures sortedEnemy == SortById(Filter(all, IsEnemy))
    {
      orders := [];
      allPirates := all;
      sortedMine := SortById(Filter(all, IsMine));
      sortedEnemy := SortById(Filter(all, IsEnemy));
    }

    /** `set_sail`: a move order unless the pirate is already there. */
    method SetSail(p: SdkPirate, destination: Location)
      modifies this
      ensures orders == old(orders) + (if p.location == destination then [] else [MoveOrder(p.id, destination)])
      ensures allPirates == old(allPirates) && sortedMine == old(sortedMine)
              && sortedEnemy == old(sortedEnemy) && geometry == old(geometry)
    {
      if p.location == destination {
        return;
      }
      orders := orders + [MoveOrder(p.id, destination)];
    }

    function MyLivingPirates(): seq<SdkPirate> reads this { Filter(sortedMine, IsLiving) }
    function MyLostPirates(): seq<SdkPirate> reads this { Filter(sortedMine, IsLost) }
    function MyDrunkPirates(): seq<SdkPirate> reads this { Filter(MyLivingPirates(), IsDrunk) }
    function MySoberPirates(): seq<SdkPirate> reads this { Filter(MyLivingPirates(), IsSober) }
    function EnemyLivingPirates(): seq<SdkPirate> reads this { Filter(sortedEnemy, IsLiving) }
    function EnemyLostPirates(): seq<SdkPirate> reads this { Filter(sortedEnemy, IsLost) }

    /** `get_my_pirate`: the element at that index of the id-sorted list. */
    function GetMyPirate(id: int): (r: Option<SdkPirate>)
      reads this
      ensures r.None? <==> id < 0 || id >= |sortedMine|
    {
      if id < 0 || id >= |sortedMine| then None else Some(sortedMine[id])
    }

    /** `get_enemy_pirate`: the element at that index of the id-sorted list. */
    function GetEnemyPirate(id: int): (r: Option<SdkPirate>)
      reads this
      ensures r.None? <==> id < 0 || id >= |sortedEnemy|
    {
      if id < 0 || id >= |sortedEnemy| then None else Some(sortedEnemy[id])
    }
  }

  /** What `__update` leaves: my pirates and the enemy's, each sorted by id,
      together exactly the pirates of the state. */
  ghost predicate Updated(p: Pirates)
    reads p
  {
    && multiset(p.sortedMine) == multiset(Filter(p.allPirates, IsMine))
    && multiset(p.sortedEnemy) == multiset(Filter(p.allPirates, IsEnemy))
    && SortedById(p.sortedMine) && SortedById(p.sortedEnemy)
  }

  /** After `__update` the sorted lists hold exactly my pirates and exactly
      the others, sorted by id, and between them every pirate once. */
  lemma UpdateSplitsByOwner(p: Pirates)
    requires p.sortedMine == SortById(Filter(p.allPirates, IsMine))
    requires p.sortedEnemy == SortById(Filter(p.allPirates, IsEnemy))
    ensures Updated(p)
    ensures multiset(p.sortedMine) + multiset(p.sortedEnemy) == multiset(p.allPirates)
    ensures forall x :: x in p.sortedMine <==> x in p.allPirates && x.owner == ME
    ensures forall x :: x in p.sortedEnemy <==> x in p.allPirates && x.owner != ME
  {
    FilterSplit(p.allPirates, IsMine, IsEnemy);
    forall x | x in p.allPirates
      ensures (x.owner == ME ==> x in p.sortedMine) && (x.owner != ME ==> x in p.sortedEnemy)
    {
      if x.owner == ME {
        FilterKeeps(p.allPirates, IsMine, x);
        assert x in multiset(p.sortedMine);
      } else {
        FilterKeeps(p.allPirates, IsEnemy, x);
        assert x in multiset(p.sortedEnemy);
      }
    }
    forall x | x in p.sortedMine ensures x in Filter(p.allPirates, IsMine) {
      assert x in multiset(p.sortedMine);
    }
    forall x | x in p.sortedEnemy ensures x in Filter(p.allPirates, IsEnemy) {
      assert x in multiset(p.sortedEnemy);
    }
  }

  /** `my_living_pirates`/`my_lost_pirates` split my pirates by `is_lost`,
      and `my_drunk_pirates`/`my_sober_pirates` split the living ones by
      `turns_to_sober > 0`; the enemy queries split the same way. */
  lemma QueriesPartition(p: Pirates)
    ensures multiset(p.MyLivingPirates()) + multiset(p.MyLostPirates()) == multiset(p.sortedMine)
    ensures multiset(p.MyDrunkPirates()) + multiset(p.MySoberPirates()) == multiset(p.MyLivingPirates())
    ensures multiset(p.EnemyLivingPirates()) + multiset(p.EnemyLostPirates()) == multiset(p.sortedEnemy)
    ensures forall x :: x in p.MyLivingPirates() ==> !x.isLost && x in p.sortedMine
    ensures forall x :: x in p.MyDrunkPirates() ==> x.turnsToSober > 0 && !x.isLost
  {
    FilterSplit(p.sortedMine, IsLiving, IsLost);
    FilterSplit(p.MyLivingPirates(), IsDrunk, IsSober);
    FilterSplit(p.sortedEnemy, IsLiving, IsLost);
  }

  /** After an update, `get_my_pirate` returns one of my pirates, and ids
      along the list never decrease. */
  lemma GetMyPirateIsMine(p: Pirates, i: int, j: int)
    requires Updated(p)
    requires p.GetMyPirate(i).Some? && p.GetMyPirate(j).Some? && i <= j
    ensures p.GetMyPirate(i).value.owner == ME && p.GetMyPirate(i).value in p.allPirates
    ensures p.GetMyPirate(i).value.id <= p.GetMyPirate(j).value.id
  {
    var x := p.sortedMine[i];
    assert x in p.sortedMine;
    assert x in multiset(p.sortedMine);
    assert x in Filter(p.allPirates, IsMine);
  }
}
