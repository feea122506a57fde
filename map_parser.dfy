/** `PiratesGame.parse_map`: reads the map text line by line. Blank lines and
    `#` comments are skipped; every other line is `key data`. The `m` lines
    are the rows of the board, whose characters are pirates (`a`, `b`, ...
    one letter per player), treasures (`$`) and water (`.`). Every error the
    source raises (its explicit exceptions as well as the `ValueError` and
    `IndexError` of `split`, `int` and indexing) ends the parse with a
    `MapError`. */
module MapParser {
  import opened Common
  import opened Text
  import opened Locations

  datatype MapError =
    | Malformed(line: string)      // a line `split`, `int` or indexing fails on
    | PlayerCount(n: int)          // `players` outside 2..10
    | PlayersExpected              // an `m` row before any `players` line
    | ColCount(row: nat, got: nat) // an `m` row whose length is not `cols`
    | BadChar(c: char)             // a character that is no map object
    | ScoreCount(got: nat)         // a `score` list of the wrong length
    | RowCount(got: nat)           // a number of `m` rows other than `rows`

  datatype Treasure = Treasure(id: nat, loc: Location, value: int)

  datatype Powerup = Powerup(kind: string, args: seq<int>)

  /** The local variables of the parsing loop. `keys` is the length of
      `pirate_keys_list` once the first row fixed it; `pirates` is the
      `defaultdict` from player index to pirate locations. */
  datatype ParseState = ParseState(
    width: Option<int>,
    height: Option<int>,
    row: nat,
    nextTreasure: nat,
    score: Option<seq<int>>,
    numPlayers: Option<int>,
    params: map<string, string>,
    keys: Option<int>,
    treasureValues: map<int, int>,
    pirates: map<int, seq<Location>>,
    treasures: seq<Treasure>,
    powerups: seq<Powerup>,
    scripts: seq<seq<int>>,
    antiScripts: seq<seq<int>>)

  /** The dictionary `parse_map` returns. */
  datatype MapData = MapData(
    height: int,
    width: Option<int>,
    numPlayers: Option<int>,
    treasures: seq<Treasure>,
    powerups: seq<Powerup>,
    scripts: seq<seq<int>>,
    antiScripts: seq<seq<int>>,
    pirates: map<int, seq<Location>>,
    params: map<string, string>)

  datatype Scan = Going(st: ParseState) | Stopped(err: MapError)

  datatype Outcome = Parsed(data: MapData) | Failed(err: MapError)

  function Init(): ParseState
  {
    ParseState(None, None, 0, 0, None, None, map[], None, map[], map[], [], [], [], [])
  }

  /** What a line is once stripped: nothing to read, a line without the
      space that separates key and data, or a lower-cased key with its data. */
  datatype LineKind = Blank | Unsplit(text: string) | Keyed(key: string, data: string)

  function Classify(line: string): (k: LineKind)
    ensures k.Blank? <==> Strip(line) == [] || Strip(line)[0] == '#'
    ensures k.Unsplit? ==> k.text == Strip(line) && ' ' !in Strip(line)
    ensures k.Keyed? ==> |k.key| + 1 + |k.data| == |Strip(line)| && ' ' !in k.key
  {
    var l := Strip(line);
    if l == [] || l[0] == '#' then Blank
    else match SplitFirstSpace(l)
      case None => Unsplit(l)
      case Some(kv) => Keyed(Lower(kv.0), kv.1)
  }

  /** A line written as `key data` reads back as that key and data. */
  lemma ClassifyKeyed(key: string, data: string)
    requires key != [] && key[0] != '#'
    requires forall i :: 0 <= i < |key| ==> !IsSpace(key[i]) && !('A' <= key[i] <= 'Z')
    requires data != [] && !IsSpace(data[0]) && !IsSpace(data[|data| - 1])
    ensures Classify(key + " " + data) == Keyed(key, data)
  {
    var l := key + " " + data;
    StripKeepsTrimmed(l);
    assert ' ' !in key by {
      forall i | 0 <= i < |key| ensures key[i] != ' ' { assert !IsSpace(key[i]); }
    }
    var kv := SplitFirstSpace(l).value;
    assert l[|key|] == ' ' && l[..|key|] == key;
    IndexOfAt(l, ' ', |key|);
    assert kv.0 == l[..|key|] == key;
    assert kv.1 == l[|key| + 1..] == data;
    assert Lower(key) == key;
  }

  /** A pirate letter of the first `keys` players. */
  predicate IsPirateKey(keys: Option<int>, c: char)
  {
    keys.Some? && 'a' <= c && (c as int) - ('a' as int) < keys.value
  }

  /** A character an `m` row may hold. */
  predicate MapChar(keys: Option<int>, c: char)
  {
    IsPirateKey(keys, c) || c == '$' || c == '.'
  }

  function TreasureValue(st: ParseState): int
  {
    if st.nextTreasure in st.treasureValues then st.treasureValues[st.nextTreasure] else 1
  }

  /** One character of an `m` row, in column `col`. */
  function CharStep(st: ParseState, col: nat, c: char): (r: Scan)
    ensures r.Going? <==> MapChar(st.keys, c)
  {
    if IsPirateKey(st.keys, c) then
      var idx := (c as int) - ('a' as int);
      var prev := if idx in st.pirates then st.pirates[idx] else [];
      Going(st.(pirates := st.pirates[idx := prev + [Location(st.row, col)]]))
    else if c == '$' then
      var t := Treasure(st.nextTreasure, Location(st.row, col), TreasureValue(st));
      Going(st.(treasures := st.treasures + [t], nextTreasure := st.nextTreasure + 1))
    else if c == '.' then Going(st)
    else Stopped(BadChar(c))
  }

  /** The characters of a row, left to right, stopping at the first bad one. */
  function ScanChars(st: ParseState, cs: string): Scan
  {
    if cs == [] then Going(st)
    else match ScanChars(st, cs[..|cs| - 1])
      case Stopped(e) => Stopped(e)
      case Going(s) => CharStep(s, |cs| - 1, cs[|cs| - 1])
  }

  /** The state before the characters of an `m` row: `pirate_keys_list` is
      fixed from the player count on the first row. */
  function RowStart(st: ParseState): Option<ParseState>
  {
    if st.keys.Some? then Some(st)
    else if st.numPlayers.Some? then Some(st.(keys := st.numPlayers))
    else None
  }

  /** An `m` line with its data. */
  function MapRow(st: ParseState, data: string): Scan
  {
    match RowStart(st)
    case None => Stopped(PlayersExpected)
    case Some(st1) =>
      if st1.width != Some(|data|) then Stopped(ColCount(st.row, |data|))
      else match ScanChars(st1, data)
        case Stopped(e) => Stopped(e)
        case Going(s) => Going(s.(row := s.row + 1))
  }

  /** One line of the map text. */
  function ParseLine(st: ParseState, line: string): Scan
  {
    match Classify(line)
    case Blank => Going(st)
    case Unsplit(l) => Stopped(Malformed(l))
    case Keyed(key, data) =>
      if key == "m" then MapRow(st, data) else SettingLine(st, Strip(line), key, data)
  }

  /** A line other than an `m` row: a setting, a list of numbers, or a
      parameter kept as text. */
  function SettingLine(st: ParseState, l: string, key: string, data: string): Scan
  {
    var bad := Stopped(Malformed(l));
    if key == "cols" then
      (match ParseInt(data) case None => bad case Some(n) => Going(st.(width := Some(n))))
    else if key == "rows" then
      (match ParseInt(data) case None => bad case Some(n) => Going(st.(height := Some(n))))
    else if key == "players" then
      (match ParseInt(data)
       case None => bad
       case Some(n) =>
         if n < 2 || n > 10 then Stopped(PlayerCount(n)) else Going(st.(numPlayers := Some(n))))
    else if key == "score" then
      (match ParseInts(Words(data)) case None => bad case Some(xs) => Going(st.(score := Some(xs))))
    else if key == "treasure" then
      var ws := Words(data);
      if |ws| < 2 then bad
      else (match (ParseInt(ws[0]), ParseInt(ws[1]))
            case (Some(id), Some(v)) => Going(st.(treasureValues := st.treasureValues[id := v]))
            case _ => bad)
    else if key == "powerup" then
      var ws := Words(data);
      if ws == [] then bad
      else (match ParseInts(ws[1..])
            case None => bad
            case Some(xs) => Going(st.(powerups := st.powerups + [Powerup(ws[0], xs)])))
    else if key == "script" then
      (match ParseInts(Words(data)) case None => bad case Some(xs) => Going(st.(scripts := st.scripts + [xs])))
    else if key == "anti_script" then
      (match ParseInts(Words(data)) case None => bad case Some(xs) => Going(st.(antiScripts := st.antiScripts + [xs])))
    else Going(st.(params := st.params[key := data]))
  }

  /** The lines in order, stopping at the first error. */
  function ScanLines(st: ParseState, ls: seq<string>): Scan
  {
    if ls == [] then Going(st)
    else match ScanLines(st, ls[..|ls| - 1])
      case Stopped(e) => Stopped(e)
      case Going(s) => ParseLine(s, ls[|ls| - 1])
  }

  /** The checks after the last line. A `score` list is checked only when it
      is non-empty; a missing player count never matches it. */
  function Finish(st: ParseState): Outcome
  {
    if st.score.Some? && st.score.value != []
       && (st.numPlayers.None? || |st.score.value| != st.numPlayers.value)
    then Failed(ScoreCount(|st.score.value|))
    else if st.height != Some(st.row) then Failed(RowCount(st.row))
    else Parsed(MapData(st.row, st.width, st.numPlayers, st.treasures, st.powerups,
                        st.scripts, st.antiScripts, st.pirates, st.params))
  }

  function ParseMapSpec(text: string): Outcome
  {
    match ScanLines(Init(), SplitOn(text, '\n'))
    case Stopped(e) => Failed(e)
    case Going(st) => Finish(st)
  }

  // ---------------------------------------------------------------------
  // The parsing loops

  /** The loop over the characters of one `m` row. */
  method ScanRow(st: ParseState, data: string) returns (s: Scan)
    ensures s == MapRow(st, data)
  {
    var start := RowStart(st);
    if start.None? {
      return Stopped(PlayersExpected);
    }
    var cur := start.value;
    if cur.width != Some(|data|) {
      return Stopped(ColCount(st.row, |data|));
    }
    var col := 0;
    while col < |data|
      invariant 0 <= col <= |data|
      invariant ScanChars(start.value, data[..col]) == Going(cur)
    {
      assert data[..col + 1][..col] == data[..col];
      var next := CharStep(cur, col, data[col]);
      if next.Stopped? {
        ScanCharsStoppedStays(start.value, data, col + 1);
        assert data[..|data|] == data;
        return next;
      }
      cur := next.st;
      col := col + 1;
    }
    assert data[..col] == data;
    s := Going(cur.(row := cur.row + 1));
  }

  /** One line; `m` rows go through the character loop. */
  method ScanLine(st: ParseState, line: string) returns (s: Scan)
    ensures s == ParseLine(st, line)
  {
    var kind := Classify(line);
    if kind.Keyed? && kind.key == "m" {
      s := ScanRow(st, kind.data);
    } else {
      s := ParseLine(st, line);
    }
  }

  /** `parse_map`: the loop over the lines, then the final checks. */
  method ParseMap(text: string) returns (r: Outcome)
    ensures r == ParseMapSpec(text)
  {
    var lines := SplitOn(text, '\n');
    var st := Init();
    var i := 0;
    while i < |lines|
      invariant 0 <= i <= |lines|
      invariant ScanLines(Init(), lines[..i]) == Going(st)
    {
      assert lines[..i + 1][..i] == lines[..i];
      var s := ScanLine(st, lines[i]);
      if s.Stopped? {
        FirstErrorWins(text, i, st, s.err);
        return Failed(s.err);
      }
      assert ScanLines(Init(), lines[..i + 1]) == s;
      st := s.st;
      i := i + 1;
    }
    assert lines[..i] == lines;
    r := Finish(st);
  }

  // ---------------------------------------------------------------------
  // An error ends the parse

  lemma {:induction false} ScanCharsStoppedStays(st: ParseState, cs: string, n: nat)
    requires n <= |cs| && ScanChars(st, cs[..n]).Stopped?
    ensures ScanChars(st, cs) == ScanChars(st, cs[..n])
    decreases |cs| - n
  {
    if n < |cs| {
      assert cs[..n + 1][..n] == cs[..n];
      ScanCharsStoppedStays(st, cs, n + 1);
    } else {
      assert cs[..n] == cs;
    }
  }

  lemma {:induction false} ScanLinesStoppedStays(st: ParseState, ls: seq<string>, n: nat)
    requires n <= |ls| && ScanLines(st, ls[..n]).Stopped?
    ensures ScanLines(st, ls) == ScanLines(st, ls[..n])
    decreases |ls| - n
  {
    if n < |ls| {
      assert ls[..n + 1][..n] == ls[..n];
      ScanLinesStoppedStays(st, ls, n + 1);
    } else {
      assert ls[..n] == ls;
    }
  }

  /** The first line that raises decides the outcome of the whole parse. */
  lemma FirstErrorWins(text: string, i: nat, st: ParseState, e: MapError)
    requires i < |SplitOn(text, '\n')|
    requires ScanLines(Init(), SplitOn(text, '\n')[..i]) == Going(st)
    requires ParseLine(st, SplitOn(text, '\n')[i]) == Stopped(e)
    ensures ParseMapSpec(text) == Failed(e)
  {
    ScanLinesStopsAt(Init(), SplitOn(text, '\n'), i, st, e);
  }

  /** A scan that reaches a line that raises ends with that line's error. */
  lemma ScanLinesStopsAt(st0: ParseState, ls: seq<string>, i: nat, st: ParseState, e: MapError)
    requires i < |ls| && ScanLines(st0, ls[..i]) == Going(st) && ParseLine(st, ls[i]) == Stopped(e)
    ensures ScanLines(st0, ls) == Stopped(e)
  {
    assert ls[..i + 1][..i] == ls[..i];
    assert ScanLines(st0, ls[..i + 1]) == Stopped(e);
    ScanLinesStoppedStays(st0, ls, i + 1);
  }

  // ---------------------------------------------------------------------
  // The errors of single lines

  /** A `players` line is accepted exactly for 2..10 players. */
  lemma PlayersLine(st: ParseState, line: string, n: int)
    requires Classify(line) == Keyed("players", IntToDecimal(n))
    ensures n < 2 || n > 10 ==> ParseLine(st, line) == Stopped(PlayerCount(n))
    ensures 2 <= n <= 10 ==> ParseLine(st, line) == Going(st.(numPlayers := Some(n)))
  {
    var data := IntToDecimal(n);
    ParseIntOfDecimal(n);
    assert "players" != "m" by { assert |"players"| != |"m"|; }
    assert ParseLine(st, line) == SettingLine(st, Strip(line), "players", data);
    SettingLinePlayers(st, Strip(line), data);
  }

  lemma SettingLinePlayers(st: ParseState, l: string, data: string)
    ensures SettingLine(st, l, "players", data)
            == match ParseInt(data)
               case None => Stopped(Malformed(l))
               case Some(n) => if n < 2 || n > 10 then Stopped(PlayerCount(n)) else Going(st.(numPlayers := Some(n)))
  {
    assert "players" != "cols" && "players" != "rows" by {
      assert |"players"| != |"cols"| && |"players"| != |"rows"|;
    }
  }

  /** An `m` row is refused when no player count precedes it, and when its
      length is not the current `cols` value (a missing `cols` matches no
      length). */
  lemma MapRowRejected(st: ParseState, line: string, data: string)
    requires Classify(line) == Keyed("m", data)
    ensures st.keys.None? && st.numPlayers.None? ==> ParseLine(st, line) == Stopped(PlayersExpected)
    ensures (st.keys.Some? || st.numPlayers.Some?) && st.width != Some(|data|) ==>
              ParseLine(st, line) == Stopped(ColCount(st.row, |data|))
  {
  }

  /** A row's characters are read up to the first one that is not a map
      object, which is the error; a row of map objects only is read whole
      and leaves the pirate letters as they were. */
  lemma {:induction false} ScanCharsSpec(st: ParseState, cs: string)
    ensures ScanChars(st, cs).Going? <==> forall j :: 0 <= j < |cs| ==> MapChar(st.keys, cs[j])
    ensures ScanChars(st, cs).Going? ==> ScanChars(st, cs).st.keys == st.keys
                                         && ScanChars(st, cs).st.row == st.row
    ensures ScanChars(st, cs).Stopped? ==>
              exists j :: 0 <= j < |cs| && !MapChar(st.keys, cs[j])
                          && ScanChars(st, cs).err == BadChar(cs[j])
                          && forall k :: 0 <= k < j ==> MapChar(st.keys, cs[k])
  {
    if cs != [] {
      var init := cs[..|cs| - 1];
      ScanCharsSpec(st, init);
      assert forall j :: 0 <= j < |init| ==> init[j] == cs[j];
      match ScanChars(st, init)
      case Stopped(e) =>
        var j :| 0 <= j < |init| && !MapChar(st.keys, init[j]) && e == BadChar(init[j])
                 && forall k :: 0 <= k < j ==> MapChar(st.keys, init[k]);
        assert !MapChar(st.keys, cs[j]);
      case Going(s) =>
        if !MapChar(st.keys, cs[|cs| - 1]) {
          assert forall k :: 0 <= k < |cs| - 1 ==> MapChar(st.keys, cs[k]);
        }
    }
  }

  /** A character that is no map object stops the parse with that character,
      once the row's length is right. */
  lemma BadCharRejected(st: ParseState, line: string, data: string, st1: ParseState, j: nat)
    requires Classify(line) == Keyed("m", data)
    requires RowStart(st) == Some(st1) && st1.width == Some(|data|)
    requires j < |data| && !MapChar(st1.keys, data[j])
    requires forall k :: 0 <= k < j ==> MapChar(st1.keys, data[k])
    ensures ParseLine(st, line) == Stopped(BadChar(data[j]))
  {
    ScanCharsSpec(st1, data);
    var e := ScanChars(st1, data).err;
    var i :| 0 <= i < |data| && !MapChar(st1.keys, data[i]) && e == BadChar(data[i])
             && forall k :: 0 <= k < i ==> MapChar(st1.keys, data[k]);
    assert i == j;
    assert MapRow(st, data) == Stopped(BadChar(data[j]));
  }

  /** The final checks: the score count, then the row count, fail exactly
      when they mismatch; otherwise the map is returned. */
  lemma FinishSpec(st: ParseState)
    ensures Finish(st).Failed? && Finish(st).err.ScoreCount? <==>
              st.score.Some? && st.score.value != []
              && (st.numPlayers.None? || |st.score.value| != st.numPlayers.value)
    ensures Finish(st).Failed? && Finish(st).err.RowCount? <==>
              !(st.score.Some? && st.score.value != []
                && (st.numPlayers.None? || |st.score.value| != st.numPlayers.value))
              && st.height != Some(st.row)
    ensures Finish(st).Parsed? ==> Finish(st).data.height == st.row && st.height == Some(st.row)
  {
  }

  // ---------------------------------------------------------------------
  // Treasures and pirates on the board

  /** A `$` becomes the next treasure, in reading order, valued by the
      `treasure` line for its number or 1 without one. */
  lemma TreasureCell(st: ParseState, col: nat)
    ensures CharStep(st, col, '$').Going?
    ensures var s := CharStep(st, col, '$').st;
            && s.nextTreasure == st.nextTreasure + 1
            && s.treasures == st.treasures + [Treasure(st.nextTreasure, Location(st.row, col),
                 if st.nextTreasure in st.treasureValues then st.treasureValues[st.nextTreasure] else 1)]
            && s.pirates == st.pirates
  {
  }

  /** What holds of the parse state between rows (`bound` is `row`) and
      inside a row (`bound` is `row + 1`): treasures numbered 0, 1, ... in
      reading order, every treasure and pirate on a row read so far and a
      non-negative column, pirate lists only for the lettered players, and
      a player count of 2..10 fixing the letters. */
  ghost predicate Good(st: ParseState, bound: int)
  {
    && (st.numPlayers.Some? ==> 2 <= st.numPlayers.value <= 10)
    && (st.keys.Some? ==> st.numPlayers.Some? && 2 <= st.keys.value <= 10)
    && st.nextTreasure == |st.treasures|
    && (forall k :: 0 <= k < |st.treasures| ==> st.treasures[k].id == k)
    && (forall k :: 0 <= k < |st.treasures| ==>
          0 <= st.treasures[k].loc.row < bound && 0 <= st.treasures[k].loc.col)
    && (forall idx :: idx in st.pirates ==>
          st.keys.Some? && 0 <= idx < st.keys.value
          && forall j :: 0 <= j < |st.pirates[idx]| ==>
               0 <= st.pirates[idx][j].row < bound && 0 <= st.pirates[idx][j].col)
  }

  lemma CharStepGood(st: ParseState, col: nat, c: char)
    requires Good(st, st.row + 1)
    requires CharStep(st, col, c).Going?
    ensures Good(CharStep(st, col, c).st, st.row + 1)
    ensures CharStep(st, col, c).st.row == st.row && CharStep(st, col, c).st.keys == st.keys
  {
  }

  lemma {:induction false} ScanCharsGood(st: ParseState, cs: string)
    requires Good(st, st.row + 1)
    requires ScanChars(st, cs).Going?
    ensures Good(ScanChars(st, cs).st, st.row + 1)
    ensures ScanChars(st, cs).st.row == st.row
  {
    if cs != [] {
      var init := cs[..|cs| - 1];
      ScanCharsGood(st, init);
      CharStepGood(ScanChars(st, init).st, |cs| - 1, cs[|cs| - 1]);
    }
  }

  lemma MapRowGood(st: ParseState, data: string)
    requires Good(st, st.row)
    requires MapRow(st, data).Going?
    ensures Good(MapRow(st, data).st, MapRow(st, data).st.row)
  {
    var st1 := RowStart(st).value;
    assert Good(st1, st1.row + 1);
    ScanCharsGood(st1, data);
  }

  /** Lines other than rows leave the board's contents alone. */
  lemma SettingLineGood(st: ParseState, l: string, key: string, data: string)
    requires st.numPlayers.Some? ==> 2 <= st.numPlayers.value <= 10
    requires st.keys.Some? ==> st.numPlayers.Some?
    requires SettingLine(st, l, key, data).Going?
    ensures var s := SettingLine(st, l, key, data).st;
            && s.row == st.row && s.keys == st.keys && s.pirates == st.pirates
            && s.treasures == st.treasures && s.nextTreasure == st.nextTreasure
            && (s.numPlayers.Some? ==> 2 <= s.numPlayers.value <= 10)
            && (s.keys.Some? ==> s.numPlayers.Some?)
  {
    if key == "cols" {
    } else if key == "rows" {
    } else if key == "players" {
    } else if key == "score" {
    } else if key == "treasure" {
    } else if key == "powerup" {
    } else if key == "script" {
    } else if key == "anti_script" {
    }
  }

  lemma ParseLineGood(st: ParseState, line: string)
    requires Good(st, st.row)
    requires ParseLine(st, line).Going?
    ensures Good(ParseLine(st, line).st, ParseLine(st, line).st.row)
  {
    match Classify(line)
    case Blank =>
    case Unsplit(_) =>
    case Keyed(key, data) =>
      if key == "m" {
        MapRowGood(st, data);
      } else {
        SettingLineGood(st, Strip(line), key, data);
      }
  }

  lemma {:induction false} ScanLinesGood(ls: seq<string>)
    requires ScanLines(Init(), ls).Going?
    ensures Good(ScanLines(Init(), ls).st, ScanLines(Init(), ls).st.row)
  {
    if ls != [] {
      ScanLinesGood(ls[..|ls| - 1]);
      ParseLineGood(ScanLines(Init(), ls[..|ls| - 1]).st, ls[|ls| - 1]);
    }
  }

  /** A parsed map numbers its treasures 0, 1, ... in reading order, and
      every treasure and pirate lies on one of its `rows` rows, in a
      non-negative column, and belongs to a lettered player. */
  lemma ParsedMapGood(text: string)
    requires ParseMapSpec(text).Parsed?
    ensures var d := ParseMapSpec(text).data;
            && (forall k :: 0 <= k < |d.treasures| ==> d.treasures[k].id == k)
            && (forall k :: 0 <= k < |d.treasures| ==>
                  0 <= d.treasures[k].loc.row < d.height && 0 <= d.treasures[k].loc.col)
            && (forall idx :: idx in d.pirates ==>
                  d.numPlayers.Some? && 0 <= idx <= 9
                  && forall j :: 0 <= j < |d.pirates[idx]| ==>
                       0 <= d.pirates[idx][j].row < d.height && 0 <= d.pirates[idx][j].col)
  {
    ScanLinesGood(SplitOn(text, '\n'));
  }
}
