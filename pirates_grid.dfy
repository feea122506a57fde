/** Integer geometry of the game map (pirates.py): the two distances, the
    circle test, the step offsets, wrapping destinations, the step-by-step
    direction letters between two squares and the edge check of a move. */
module PiratesGrid {
  import opened Common
  import opened Locations
  import opened PiratesEntities

  /** One axis of a distance: the absolute difference, or on a cyclic map the
      shorter way round. */
  function AxisDistance(d: nat, size: int, cyclic: bool): (r: int)
    ensures !cyclic ==> r == d
    ensures cyclic ==> r <= d && r <= size - d && (r == d || r == size - d)
  {
    if cyclic then (if d < size - d then d else size - d) else d
  }

  /** `euclidean_distance_squared`. */
  function EuclideanDistanceSquared(cfg: Config, a: Location, b: Location): (r: int)
    ensures !cfg.cyclic ==> r == (a.row - b.row) * (a.row - b.row) + (a.col - b.col) * (a.col - b.col)
  {
    var dRow := AxisDistance(Abs(a.row - b.row), cfg.height, cfg.cyclic);
    var dCol := AxisDistance(Abs(a.col - b.col), cfg.width, cfg.cyclic);
    dRow * dRow + dCol * dCol
  }

  /** `manhattan_distance`. */
  function ManhattanDistance(cfg: Config, a: Location, b: Location): (r: int)
    ensures !cfg.cyclic ==> r == Abs(a.row - b.row) + Abs(a.col - b.col)
  {
    AxisDistance(Abs(a.row - b.row), cfg.height, cfg.cyclic)
      + AxisDistance(Abs(a.col - b.col), cfg.width, cfg.cyclic)
  }

  /** Both distances are symmetric; off a cyclic map the Manhattan distance is
      zero exactly between equal squares. */
  lemma DistancesSymmetric(cfg: Config, a: Location, b: Location)
    ensures ManhattanDistance(cfg, a, b) == ManhattanDistance(cfg, b, a)
    ensures EuclideanDistanceSquared(cfg, a, b) == EuclideanDistanceSquared(cfg, b, a)
    ensures !cfg.cyclic ==> (ManhattanDistance(cfg, a, b) == 0 <==> a == b)
  {
    assert Abs(a.row - b.row) == Abs(b.row - a.row);
    assert Abs(a.col - b.col) == Abs(b.col - a.col);
  }

  /** On a cyclic map, each axis of the distance between two squares of the
      map is at most half that axis' size. */
  lemma CyclicAxisAtMostHalf(d: nat, size: int)
    requires 0 <= d < size
    ensures 0 <= AxisDistance(d, size, true) <= size / 2
  {
  }

  /** `in_circle`: the squared Euclidean distance (never wrapped) is at most `radius2`. */
  predicate InCircle(center: Location, radius2: int, loc: Location)
  {
    (center.row - loc.row) * (center.row - loc.row)
      + (center.col - loc.col) * (center.col - loc.col) <= radius2
  }

  /** The circle test is symmetric in centre and point, and a centre lies in
      its own circle whenever the radius is not negative. */
  lemma InCircleSymmetric(a: Location, radius2: int, b: Location)
    ensures InCircle(a, radius2, b) == InCircle(b, radius2, a)
    ensures radius2 >= 0 ==> InCircle(a, radius2, a)
  {
  }

  predicate OnMap(cfg: Config, l: Location)
  {
    0 <= l.row < cfg.height && 0 <= l.col < cfg.width
  }

  /** The `AIM` table: n, e, s, w and the three stand-still letters a, d, f.
      There is no entry for '-'. */
  const AIM: map<char, Location> := map[
    'n' := Location(-1, 0), 'e' := Location(0, 1), 's' := Location(1, 0),
    'w' := Location(0, -1), 'a' := Location(0, 0), 'd' := Location(0, 0),
    'f' := Location(0, 0)]

  function Add(l: Location, d: Location): Location
  {
    Location(l.row + d.row, l.col + d.col)
  }

  /** `destination`: the offset location, always wrapped onto the map. */
  function Destination(cfg: Config, l: Location, d: Location): (r: Location)
    requires ValidConfig(cfg)
    ensures OnMap(cfg, r)
    ensures OnMap(cfg, Add(l, d)) ==> r == Add(l, d)
  {
    Location((l.row + d.row) % cfg.height, (l.col + d.col) % cfg.width)
  }

  /** One round of the loop of `get_direction_letters`: the letter appended
      (none when both coordinates already agree) and the new (row1, col1). */
  function OneStep(cfg: Config, r1: int, c1: int, r2: int, c2: int): (Option<char>, int, int)
  {
    var h2 := cfg.height / 2;
    var w2 := cfg.width / 2;
    if r1 < r2 && r2 - r1 >= h2 && cfg.cyclic then (Some('n'), r1 - 1, c1)
    else if r1 < r2 && (r2 - r1 <= h2 || !cfg.cyclic) then (Some('s'), r1 + 1, c1)
    else if r2 < r1 && r1 - r2 >= h2 && cfg.cyclic then (Some('s'), r1 + 1, c1)
    else if r2 < r1 && (r1 - r2 <= h2 || !cfg.cyclic) then (Some('n'), r1 - 1, c1)
    else if c1 < c2 && c2 - c1 >= w2 && cfg.cyclic then (Some('w'), r1, c1 - 1)
    else if c1 < c2 && (c2 - c1 <= w2 || !cfg.cyclic) then (Some('e'), r1, c1 + 1)
    else if c2 < c1 && c1 - c2 >= w2 && cfg.cyclic then (Some('e'), r1, c1 + 1)
    else if c2 < c1 && (c1 - c2 <= w2 || !cfg.cyclic) then (Some('w'), r1, c1 - 1)
    else (None, r1, c1)
  }

  /** The letters produced by `rounds` more rounds of that loop. */
  function StepLetters(cfg: Config, r1: int, c1: int, r2: int, c2: int, rounds: nat): seq<char>
    decreases rounds
  {
    if rounds == 0 then []
    else
      var (letter, nr, nc) := OneStep(cfg, r1, c1, r2, c2);
      (if letter.Some? then [letter.value] else []) + StepLetters(cfg, nr, nc, r2, c2, rounds - 1)
  }

  /** `get_direction_letters`: `['-']` for equal squares, otherwise one round
      of the loop per unit of Manhattan distance. */
  function DirectionLetters(cfg: Config, a: Location, b: Location): seq<char>
  {
    if a.row == b.row && a.col == b.col then ['-']
    else
      var distance := ManhattanDistance(cfg, a, b);
      StepLetters(cfg, a.row, a.col, b.row, b.col, if distance < 0 then 0 else distance)
  }

  /** `get_direction_letters` as the loop it is. */
  method GetDirectionLetters(cfg: Config, a: Location, b: Location) returns (letters: seq<char>)
    ensures letters == DirectionLetters(cfg, a, b)
  {
    var row1, col1 := a.row, a.col;
    var row2, col2 := b.row, b.col;
    var distance := ManhattanDistance(cfg, a, b);
    if row1 == row2 && col1 == col2 {
      return ['-'];
    }
    var rounds: nat := if distance < 0 then 0 else distance;
    letters := [];
    var i := 0;
    while i < rounds
      invariant 0 <= i <= rounds
      invariant letters + StepLetters(cfg, row1, col1, row2, col2, rounds - i)
                == DirectionLetters(cfg, a, b)
    {
      var (letter, nr, nc) := OneStep(cfg, row1, col1, row2, col2);
      if letter.Some? {
        letters := letters + [letter.value];
      }
      row1, col1 := nr, nc;
      i := i + 1;
    }
  }

  /** The step offset of a letter as the replay and the rules read it (n, e,
      s, w, and the stand-still letters). */
  /** The step a letter stands for: its `AIM` entry (see `OffsetIsAim`), and
      no movement for any other letter. */
  function Offset(c: char): Location
  {
    if c == 'n' then Location(-1, 0)
    else if c == 'e' then Location(0, 1)
    else if c == 's' then Location(1, 0)
    else if c == 'w' then Location(0, -1)
    else Location(0, 0)
  }

  lemma OffsetIsAim(c: char)
    requires c in AIM
    ensures Offset(c) == AIM[c]
  {
  }

  /** The square reached by following the letters without wrapping. */
  function Walk(l: Location, letters: seq<char>): Location
    decreases |letters|
  {
    if letters == [] then l else Walk(Add(l, Offset(letters[0])), letters[1..])
  }

  function Repeat(c: char, n: nat): (s: seq<char>)
    ensures |s| == n
  {
    if n == 0 then [] else [c] + Repeat(c, n - 1)
  }

  /** The letter for one row step from `from` towards `to` off a cyclic map. */
  function RowLetter(from: int, to: int): char
  {
    if from < to then 's' else 'n'
  }

  /** The letter for one column step from `from` towards `to` off a cyclic map. */
  function ColLetter(from: int, to: int): char
  {
    if from < to then 'e' else 'w'
  }

  /** The square `n` steps in direction `c` (one of n, s, e, w) from `l`. */
  function Shift(l: Location, c: char, n: nat): Location
  {
    if c == 's' then Location(l.row + n, l.col)
    else if c == 'n' then Location(l.row - n, l.col)
    else if c == 'e' then Location(l.row, l.col + n)
    else if c == 'w' then Location(l.row, l.col - n)
    else l
  }

  /** Off a cyclic map the loop emits all row letters, then all column letters. */
  lemma {:induction false} StepLettersShape(cfg: Config, r1: int, c1: int, r2: int, c2: int)
    requires !cfg.cyclic
    ensures StepLetters(cfg, r1, c1, r2, c2, Abs(r2 - r1) + Abs(c2 - c1))
            == Repeat(RowLetter(r1, r2), Abs(r2 - r1))
               + Repeat(ColLetter(c1, c2), Abs(c2 - c1))
    decreases Abs(r2 - r1) + Abs(c2 - c1)
  {
    if r1 != r2 {
      var nr := if r1 < r2 then r1 + 1 else r1 - 1;
      StepLettersShape(cfg, nr, c1, r2, c2);
      RowStepShape(cfg, r1, c1, r2, c2);
    } else if c1 != c2 {
      var nc := if c1 < c2 then c1 + 1 else c1 - 1;
      StepLettersShape(cfg, r1, nc, r2, c2);
      ColStepShape(cfg, r1, c1, r2, c2);
    }
  }

  /** One row step in front of the shape of the rest. */
  lemma RowStepShape(cfg: Config, r1: int, c1: int, r2: int, c2: int)
    requires !cfg.cyclic && r1 != r2
    requires var nr := if r1 < r2 then r1 + 1 else r1 - 1;
             StepLetters(cfg, nr, c1, r2, c2, Abs(r2 - nr) + Abs(c2 - c1))
             == Repeat(RowLetter(nr, r2), Abs(r2 - nr)) + Repeat(ColLetter(c1, c2), Abs(c2 - c1))
    ensures StepLetters(cfg, r1, c1, r2, c2, Abs(r2 - r1) + Abs(c2 - c1))
            == Repeat(RowLetter(r1, r2), Abs(r2 - r1)) + Repeat(ColLetter(c1, c2), Abs(c2 - c1))
  {
    var nr := if r1 < r2 then r1 + 1 else r1 - 1;
    var n := Abs(r2 - r1) + Abs(c2 - c1);
    OneStepPlain(cfg, r1, c1, r2, c2);
    assert n - 1 == Abs(r2 - nr) + Abs(c2 - c1);
    assert StepLetters(cfg, r1, c1, r2, c2, n) == [RowLetter(r1, r2)] + StepLetters(cfg, nr, c1, r2, c2, n - 1);
    RepeatCons(RowLetter(r1, r2), Abs(r2 - r1));
    assert Repeat(RowLetter(nr, r2), Abs(r2 - nr)) == Repeat(RowLetter(r1, r2), Abs(r2 - nr));
  }

  /** One column step, on the target row, in front of the shape of the rest. */
  lemma ColStepShape(cfg: Config, r1: int, c1: int, r2: int, c2: int)
    requires !cfg.cyclic && r1 == r2 && c1 != c2
    requires var nc := if c1 < c2 then c1 + 1 else c1 - 1;
             StepLetters(cfg, r1, nc, r2, c2, Abs(r2 - r1) + Abs(c2 - nc))
             == Repeat(RowLetter(r1, r2), Abs(r2 - r1)) + Repeat(ColLetter(nc, c2), Abs(c2 - nc))
    ensures StepLetters(cfg, r1, c1, r2, c2, Abs(r2 - r1) + Abs(c2 - c1))
            == Repeat(RowLetter(r1, r2), Abs(r2 - r1)) + Repeat(ColLetter(c1, c2), Abs(c2 - c1))
  {
    var nc := if c1 < c2 then c1 + 1 else c1 - 1;
    var n := Abs(c2 - c1);
    OneStepPlain(cfg, r1, c1, r2, c2);
    assert Abs(r2 - r1) == 0 && Repeat(RowLetter(r1, r2), 0) == [];
    assert n - 1 == Abs(c2 - nc);
    assert StepLetters(cfg, r1, c1, r2, c2, n) == [ColLetter(c1, c2)] + StepLetters(cfg, r1, nc, r2, c2, n - 1);
    RepeatCons(ColLetter(c1, c2), n);
    assert Repeat(ColLetter(nc, c2), Abs(c2 - nc)) == Repeat(ColLetter(c1, c2), Abs(c2 - nc));
  }

  /** Off a cyclic map one round moves one square along the row, or, on the
      target row, one square along the column. */
  lemma OneStepPlain(cfg: Config, r1: int, c1: int, r2: int, c2: int)
    requires !cfg.cyclic
    ensures r1 != r2 ==>
              OneStep(cfg, r1, c1, r2, c2) == (Some(RowLetter(r1, r2)), if r1 < r2 then r1 + 1 else r1 - 1, c1)
    ensures r1 == r2 && c1 != c2 ==>
              OneStep(cfg, r1, c1, r2, c2) == (Some(ColLetter(c1, c2)), r1, if c1 < c2 then c1 + 1 else c1 - 1)
  {
  }

  lemma RepeatCons(c: char, n: nat)
    requires n > 0
    ensures Repeat(c, n) == [c] + Repeat(c, n - 1)
  {
  }

  lemma {:induction false} WalkAppend(l: Location, s: seq<char>, t: seq<char>)
    ensures Walk(l, s + t) == Walk(Walk(l, s), t)
    decreases |s|
  {
    if s == [] {
      assert s + t == t;
    } else {
      assert (s + t)[0] == s[0];
      assert (s + t)[1..] == s[1..] + t;
      WalkAppend(Add(l, Offset(s[0])), s[1..], t);
    }
  }

  lemma {:induction false} WalkRepeat(l: Location, c: char, n: nat)
    requires c in "nsew"
    ensures Walk(l, Repeat(c, n)) == Shift(l, c, n)
    decreases n
  {
    if n > 0 {
      assert Repeat(c, n)[0] == c;
      assert Repeat(c, n)[1..] == Repeat(c, n - 1);
      WalkRepeat(Add(l, Offset(c)), c, n - 1);
    }
  }

  lemma WalkRows(l: Location, r: int)
    ensures Walk(l, Repeat(RowLetter(l.row, r), Abs(r - l.row))) == Location(r, l.col)
  {
    var c, n := RowLetter(l.row, r), Abs(r - l.row);
    WalkRepeat(l, c, n);
    assert Shift(l, c, n) == Location(r, l.col);
  }

  lemma WalkCols(l: Location, k: int)
    ensures Walk(l, Repeat(ColLetter(l.col, k), Abs(k - l.col))) == Location(l.row, k)
  {
    var c, n := ColLetter(l.col, k), Abs(k - l.col);
    assert Shift(l, c, n) == Location(l.row, k);
    WalkRepeat(l, c, n);
  }

  lemma {:induction false} RepeatContents(c: char, n: nat)
    ensures forall i :: 0 <= i < n ==> Repeat(c, n)[i] == c
    decreases n
  {
    if n > 0 {
      RepeatContents(c, n - 1);
    }
  }

  lemma LettersOfTwoRuns(x: char, n: nat, y: char, m: nat)
    requires x in "nsew" && y in "nsew"
    ensures forall i :: 0 <= i < n + m ==> (Repeat(x, n) + Repeat(y, m))[i] in "nsew"
  {
    RepeatContents(x, n);
    RepeatContents(y, m);
  }

  /** Row letters followed by column letters lead from `a` to `b`. */
  lemma WalkRowsThenCols(a: Location, b: Location)
    ensures Walk(a, Repeat(RowLetter(a.row, b.row), Abs(b.row - a.row))
                    + Repeat(ColLetter(a.col, b.col), Abs(b.col - a.col))) == b
  {
    var rows := Repeat(RowLetter(a.row, b.row), Abs(b.row - a.row));
    var cols := Repeat(ColLetter(a.col, b.col), Abs(b.col - a.col));
    WalkAppend(a, rows, cols);
    WalkRows(a, b.row);
    WalkCols(Location(b.row, a.col), b.col);
  }

  /** Off a cyclic map, `get_direction_letters` between distinct squares gives
      exactly Manhattan-distance letters from {n, s, e, w}: every row step
      before every column step, and following them leads from `a` to `b`. */
  lemma DirectionLettersNonCyclic(cfg: Config, a: Location, b: Location)
    requires !cfg.cyclic && a != b
    ensures var letters := DirectionLetters(cfg, a, b);
      && letters == Repeat(RowLetter(a.row, b.row), Abs(b.row - a.row))
                    + Repeat(ColLetter(a.col, b.col), Abs(b.col - a.col))
      && |letters| == ManhattanDistance(cfg, a, b)
      && (forall i :: 0 <= i < |letters| ==> letters[i] in "nsew")
      && Walk(a, letters) == b
  {
    var dr, dc := Abs(b.row - a.row), Abs(b.col - a.col);
    var letters := DirectionLetters(cfg, a, b);
    assert letters == StepLetters(cfg, a.row, a.col, b.row, b.col, dr + dc);
    StepLettersShape(cfg, a.row, a.col, b.row, b.col);
    LettersOfTwoRuns(RowLetter(a.row, b.row), dr, ColLetter(a.col, b.col), dc);
    WalkRowsThenCols(a, b);
  }

  /** Outcome of `is_move_valid` over a list of letters. */
  datatype MoveCheck =
    | MoveOk
    | MoveRejected(at: Location, direction: char)  // appended to `rejected_moves`, the move is ignored
    | UnknownDirection(direction: char)            // `AIM[direction]` raises KeyError

  /** `is_move_valid`: each letter's step is taken with wrapping; off a cyclic
      map a step whose wrapped destination is more than one square away is
      rejected. */
  function CheckMove(cfg: Config, cur: Location, directions: seq<char>): MoveCheck
    requires ValidConfig(cfg)
    decreases |directions|
  {
    if directions == [] then MoveOk
    else if directions[0] !in AIM then UnknownDirection(directions[0])
    else
      var future := Destination(cfg, cur, AIM[directions[0]]);
      if ManhattanDistance(cfg, cur, future) > 1 && !cfg.cyclic then MoveRejected(cur, directions[0])
      else CheckMove(cfg, future, directions[1..])
  }

  /** Steps in one direction that stay on the map are all accepted. */
  lemma {:induction false} CheckMoveRepeatOnMap(cfg: Config, cur: Location, c: char, n: nat, rest: seq<char>)
    requires ValidConfig(cfg) && c in "nsew"
    requires OnMap(cfg, cur) && OnMap(cfg, Shift(cur, c, n))
    ensures CheckMove(cfg, cur, Repeat(c, n) + rest) == CheckMove(cfg, Shift(cur, c, n), rest)
    decreases n
  {
    if n == 0 {
      assert Repeat(c, n) + rest == rest;
    } else {
      var next := ShiftOnce(cfg, cur, c, n);
      var dirs := Repeat(c, n) + rest;
      assert dirs[0] == c;
      assert dirs[1..] == Repeat(c, n - 1) + rest;
      CheckMoveStep(cfg, cur, dirs, next);
      CheckMoveRepeatOnMap(cfg, next, c, n - 1, rest);
    }
  }

  /** The first of `n` steps in one direction between two squares of the map
      lands on the map, and `n - 1` more steps from there end at the same
      square. */
  lemma ShiftOnce(cfg: Config, cur: Location, c: char, n: nat) returns (next: Location)
    requires ValidConfig(cfg) && c in "nsew" && n > 0
    requires OnMap(cfg, cur) && OnMap(cfg, Shift(cur, c, n))
    ensures next == Add(cur, AIM[c]) && OnMap(cfg, next)
    ensures Shift(next, c, n - 1) == Shift(cur, c, n)
  {
    next := Shift(cur, c, 1);
  }

  /** A known letter whose step stays within one square is accepted, and the
      check goes on from the square it reaches. */
  lemma CheckMoveStep(cfg: Config, cur: Location, dirs: seq<char>, next: Location)
    requires ValidConfig(cfg) && dirs != [] && dirs[0] in AIM
    requires next == Add(cur, AIM[dirs[0]]) && OnMap(cfg, next)
    requires AIM[dirs[0]] in {Location(-1, 0), Location(0, 1), Location(1, 0), Location(0, -1)}
    ensures CheckMove(cfg, cur, dirs) == CheckMove(cfg, next, dirs[1..])
  {
    assert Destination(cfg, cur, AIM[dirs[0]]) == next;
  }

  /** Off a cyclic map, a move between two distinct squares of the map is
      never rejected. */
  lemma MoveOnMapAccepted(cfg: Config, a: Location, b: Location)
    requires ValidConfig(cfg) && !cfg.cyclic && a != b
    requires OnMap(cfg, a) && OnMap(cfg, b)
    ensures CheckMove(cfg, a, DirectionLetters(cfg, a, b)) == MoveOk
  {
    DirectionLettersNonCyclic(cfg, a, b);
    var rowLetter := RowLetter(a.row, b.row);
    var colLetter := ColLetter(a.col, b.col);
    var rows := Repeat(rowLetter, Abs(b.row - a.row));
    var cols := Repeat(colLetter, Abs(b.col - a.col));
    var mid := Location(b.row, a.col);
    assert Shift(a, rowLetter, Abs(b.row - a.row)) == mid;
    assert Shift(mid, colLetter, Abs(b.col - a.col)) == b;
    CheckMoveRepeatOnMap(cfg, a, rowLetter, Abs(b.row - a.row), cols);
    CheckMoveRepeatOnMap(cfg, mid, colLetter, Abs(b.col - a.col), []);
    assert cols + [] == cols;
  }

  /** A move to the pirate's own square produces `['-']`, which `AIM` lacks. */
  lemma MoveToOwnSquareRaises(cfg: Config, a: Location)
    requires ValidConfig(cfg)
    ensures CheckMove(cfg, a, DirectionLetters(cfg, a, a)) == UnknownDirection('-')
  {
  }
}
