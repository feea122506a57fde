/** The pieces of the game launcher (`playgame.py`) that compute something:
    the `Comment` stream that turns everything written through it into
    `# `-prefixed lines, the argument check of `main`, the bot name taken
    from a bot's path, and the names of the pickled-game dump files. */
module Playgame {
  import opened Common
  import opened Text
  import opened Engine

  // ---------------------------------------------------------------------
  // The comment stream

  /** What writing `data` through a comment stream whose last written
      character is `last` sends to the file: `"# "` before every character
      that starts a line, every character itself unchanged. */
  function Prefixed(last: char, data: string): string
    decreases |data|
  {
    if data == [] then []
    else (if last == '\n' then "# " else "") + [data[0]] + Prefixed(data[0], data[1..])
  }

  /** The last character written after `data`. */
  function LastAfter(last: char, data: string): char
  {
    if data == [] then last else data[|data| - 1]
  }

  /** Writing `s` and then `t` sends the same text as writing `s + t`. */
  lemma {:induction false} PrefixedAppend(last: char, s: string, t: string)
    ensures Prefixed(last, s + t) == Prefixed(last, s) + Prefixed(LastAfter(last, s), t)
    ensures LastAfter(last, s + t) == LastAfter(LastAfter(last, s), t)
    decreases |s|
  {
    if s == [] {
      assert s + t == t;
    } else {
      assert (s + t)[0] == s[0];
      assert (s + t)[1..] == s[1..] + t;
      PrefixedAppend(s[0], s[1..], t);
      if s[1..] == [] {
        assert LastAfter(last, s) == s[0];
      } else {
        assert LastAfter(s[0], s[1..]) == LastAfter(last, s);
      }
    }
  }

  /** Drops the `"# "` at the start of every line. */
  function Uncomment(s: string, atLineStart: bool): string
    decreases |s|
  {
    if s == [] then []
    else if atLineStart && |s| >= 3 && s[0] == '#' && s[1] == ' ' then [s[2]] + Uncomment(s[3..], s[2] == '\n')
    else [s[0]] + Uncomment(s[1..], s[0] == '\n')
  }

  /** Every character written reaches the file, unchanged and in order:
      dropping the line prefixes gives the data back. */
  lemma {:induction false} UncommentPrefixed(last: char, data: string)
    ensures Uncomment(Prefixed(last, data), last == '\n') == data
    decreases |data|
  {
    if data != [] {
      var c := data[0];
      var rest := Prefixed(c, data[1..]);
      UncommentPrefixed(c, data[1..]);
      UncommentOneLine(last, c, rest, data[1..]);
      assert data == [c] + data[1..];
    }
  }

  /** Dropping the prefix in front of one character. */
  lemma UncommentOneLine(last: char, c: char, rest: string, tail: string)
    requires Uncomment(rest, c == '\n') == tail
    ensures Uncomment((if last == '\n' then "# " else "") + [c] + rest, last == '\n') == [c] + tail
  {
    if last == '\n' {
      var out := "# " + [c] + rest;
      assert out[0] == '#' && out[1] == ' ' && out[2] == c && out[3..] == rest;
    } else {
      var out := "" + [c] + rest;
      assert out[0] == c && out[1..] == rest;
    }
  }

  /** Every newline that is followed by more text is followed by `"# "`. */
  predicate NewlinesMarked(out: string)
  {
    forall i :: 0 <= i < |out| - 1 && out[i] == '\n' ==> i + 2 < |out| && out[i + 1] == '#' && out[i + 2] == ' '
  }

  /** Every line the stream starts begins with `"# "`: at the very start
      when the last character was a newline, and after every newline that
      is followed by more text. */
  lemma {:induction false} LinesCommented(last: char, data: string)
    ensures var out := Prefixed(last, data);
      && (last == '\n' && data != [] ==> |out| >= 2 && out[0] == '#' && out[1] == ' ')
      && NewlinesMarked(out)
    decreases |data|
  {
    if data != [] {
      var c := data[0];
      var rest := Prefixed(c, data[1..]);
      var pre: string := if last == '\n' then "# " else "";
      var out := Prefixed(last, data);
      assert out == pre + [c] + rest;
      assert '\n' !in pre;
      LinesCommented(c, data[1..]);
      forall i | 0 <= i < |out| - 1 && out[i] == '\n'
        ensures i + 2 < |out| && out[i + 1] == '#' && out[i + 2] == ' '
      {
        var k := |pre| + 1;
        if i < |pre| {
        } else if i == |pre| {
          assert c == '\n' && data[1..] != [];
          assert |rest| >= 2 && rest[0] == '#' && rest[1] == ' ';
          assert out[i + 1] == rest[0] && out[i + 2] == rest[1];
        } else {
          var j := i - k;
          assert out[i] == rest[j];
          assert 0 <= j < |rest| - 1 && rest[j] == '\n';
          assert j + 2 < |rest| && rest[j + 1] == '#' && rest[j + 2] == ' ';
          assert out[i + 1] == rest[j + 1] && out[i + 2] == rest[j + 2];
        }
      }
    }
  }

  /** `Comment`: wraps a file and remembers the last character written. */
  class Comment {
    /** Everything written to the wrapped file through this object. */
    var written: string
    var lastChar: char

    constructor()
      ensures written == [] && lastChar == '\n'
    {
      written := [];
      lastChar := '\n';
    }

    /** `write`: the characters go out one by one, `"# "` first at every
        line start. */
    method Write(data: string)
      modifies this
      ensures written == old(written) + Prefixed(old(lastChar), data)
      ensures lastChar == LastAfter(old(lastChar), data)
    {
      var i := 0;
      ghost var start := lastChar;
      ghost var before := written;
      while i < |data|
        invariant 0 <= i <= |data|
        invariant written == before + Prefixed(start, data[..i])
        invariant lastChar == LastAfter(start, data[..i])
      {
        PrefixedAppend(start, data[..i], [data[i]]);
        assert data[..i + 1] == data[..i] + [data[i]];
        assert Prefixed(lastChar, [data[i]]) == (if lastChar == '\n' then "# " else "") + [data[i]];
        if lastChar == '\n' {
          written := written + "# ";
        }
        written := written + [data[i]];
        lastChar := data[i];
        i := i + 1;
      }
      assert data[..i] == data;
    }
  }

  /** Two writes through a stream leave it as one write of both pieces,
      and an empty write changes nothing. */
  lemma WritesCompose(last: char, s: string, t: string)
    ensures Prefixed(last, s) + Prefixed(LastAfter(last, s), t) == Prefixed(last, s + t)
    ensures LastAfter(LastAfter(last, s), t) == LastAfter(last, s + t)
    ensures Prefixed(last, []) == [] && LastAfter(last, []) == last
  {
    PrefixedAppend(last, s, t);
  }

  // ---------------------------------------------------------------------
  // Arguments

  /** `main`'s checks before the game runs: exactly two bots, each bot path
      and the map among the paths that exist; the message printed otherwise. */
  function CheckArguments(bots: seq<string>, mapPath: string, existing: set<string>): Result<()>
  {
    if |bots| != 2 then Err("No 2 bots are present!")
    else match FirstMissing(bots, existing)
      case Some(n) => Err("Bot #" + NatToDecimal(n + 1) + " does not exist!")
      case None => if mapPath !in existing then Err("The map does not exist!") else Ok(())
  }

  /** Index of the first path that does not exist. */
  function FirstMissing(paths: seq<string>, existing: set<string>): (r: Option<nat>)
    ensures r.None? <==> forall k :: 0 <= k < |paths| ==> paths[k] in existing
    ensures r.Some? ==> r.value < |paths| && paths[r.value] !in existing
                        && forall k :: 0 <= k < r.value ==> paths[k] in existing
  {
    if paths == [] then None
    else if paths[0] !in existing then Some(0)
    else match FirstMissing(paths[1..], existing)
      case None => None
      case Some(k) => Some(k + 1)
  }

  /** The checks of `main`, with its loop over the bots. */
  method CheckBots(bots: seq<string>, mapPath: string, existing: set<string>) returns (r: Result<()>)
    ensures r == CheckArguments(bots, mapPath, existing)
  {
    if |bots| != 2 {
      return Err("No 2 bots are present!");
    }
    var i := 0;
    while i < |bots|
      invariant 0 <= i <= |bots|
      invariant forall k :: 0 <= k < i ==> bots[k] in existing
    {
      if bots[i] !in existing {
        return Err("Bot #" + NatToDecimal(i + 1) + " does not exist!");
      }
      i := i + 1;
    }
    if mapPath !in existing {
      return Err("The map does not exist!");
    }
    return Ok(());
  }

  /** The game runs exactly when there are two bots and every path exists. */
  lemma CheckArgumentsSpec(bots: seq<string>, mapPath: string, existing: set<string>)
    ensures CheckArguments(bots, mapPath, existing).Ok? <==>
              |bots| == 2 && bots[0] in existing && bots[1] in existing && mapPath in existing
    ensures |bots| != 2 ==> CheckArguments(bots, mapPath, existing) == Err("No 2 bots are present!")
  {
    if |bots| == 2 && bots[0] in existing && bots[1] in existing {
      assert forall k :: 0 <= k < |bots| ==> bots[k] in existing;
    }
  }

  // ---------------------------------------------------------------------
  // Bot names

  /** `os.path.basename`: the text after the last `'/'`. */
  function Basename(path: string): (b: string)
    ensures '/' !in b
    ensures EndsWith(path, b)
  {
    match LastIndexOf(path, '/')
    case None => path
    case Some(i) => path[i + 1..]
  }

  /** `get_bot_paths`'s bot name: the basename up to its first `'.'`. */
  function BotName(cmd: string): (name: string)
  {
    SplitOn(Basename(cmd), '.')[0]
  }

  /** The bot name has neither a `'/'` nor a `'.'` and starts the basename;
      the basename goes on with a `'.'` unless it is the whole of it. */
  lemma BotNameSpec(cmd: string)
    ensures '/' !in BotName(cmd) && '.' !in BotName(cmd)
    ensures var b := Basename(cmd); var n := BotName(cmd);
            |n| <= |b| && b[..|n|] == n && (|n| < |b| ==> b[|n|] == '.')
  {
    var b := Basename(cmd);
    var n := BotName(cmd);
    match IndexOf(b, '.')
    case None =>
    case Some(i) =>
      assert n == b[..i];
      forall c | c in n ensures c != '/' {
        var k :| 0 <= k < |n| && n[k] == c;
        assert b[k] == c;
      }
  }

  /** A bot at `dir/name.ext`, with a name free of `'/'` and `'.'`, is
      called `name`. */
  lemma {:induction false} BotNameOf(dir: string, name: string, ext: string)
    requires '/' !in name && '.' !in name && '/' !in ext
    ensures BotName(dir + "/" + name + "." + ext) == name
  {
    var path := dir + "/" + name + "." + ext;
    var i := |dir|;
    assert path[i] == '/';
    var b := name + "." + ext;
    assert '/' !in b;
    assert path[i + 1..] == b;
    LastIndexOfAt(path, '/', i);
    IndexOfAt(b, '.', |name|);
    assert b[..|name|] == name;
  }

  // ---------------------------------------------------------------------
  // Pickled-game dumps

  /** `os.path.splitext(path)[0]`: the path without the extension of its
      last component; a component that is only dots, or starts with its
      only dot, has no extension. */
  function SplitExtRoot(path: string): (root: string)
    ensures |root| <= |path| && path[..|root|] == root
  {
    var sep := match LastIndexOf(path, '/') case None => -1 case Some(i) => i as int;
    match LastIndexOf(path, '.')
    case None => path
    case Some(d) =>
      if d > sep && exists k :: sep + 1 <= k < d && path[k] != '.' then path[..d] else path
  }

  /** The file a dump of `turn` goes to: turn -1 is the last turn. */
  function DumpFileName(base: string, turn: int): string
  {
    if turn == -1 then base + "_last.pkl" else base + "_" + IntToDecimal(turn) + ".pkl"
  }

  /** The dump table for the given turns, later turns overwriting earlier
      equal keys. */
  function DumpTable(base: string, turns: seq<int>): (m: map<int, string>)
    ensures forall t :: t in m <==> t in turns
    ensures forall t :: t in m ==> m[t] == DumpFileName(base, t)
  {
    if turns == [] then map[]
    else DumpTable(base, turns[..|turns| - 1])[turns[|turns| - 1] := DumpFileName(base, turns[|turns| - 1])]
  }

  /** The dump options: the parsed turns (an error when none are given or
      one is no integer) mapped to their file names next to the given output
      file. */
  function DumpPickledGames(outName: string, args: seq<string>): Result<map<int, string>>
  {
    if args == [] then Err("Please supply the turns in which to dump the game, using -T!")
    else match ParseInts(args)
    case None => Err("Each value in -T/--dump-pickled-game-turns must be an integer!")
    case Some(turns) => Ok(DumpTable(SplitExtRoot(outName), turns))
  }

  /** The check for a turn list, the parse, then the loop over the turns. */
  method BuildDumpTable(outName: string, args: seq<string>) returns (r: Result<map<int, string>>)
    ensures r == DumpPickledGames(outName, args)
    ensures args == [] ==> r == Err("Please supply the turns in which to dump the game, using -T!")
    ensures args != [] && ParseInts(args).None? ==> r.Err?
    ensures r.Ok? ==> args != [] && ParseInts(args).Some?
                      && r.value == DumpTable(SplitExtRoot(outName), ParseInts(args).value)
  {
    if args == [] {
      return Err("Please supply the turns in which to dump the game, using -T!");
    }
    var parsed := ParseInts(args);
    if parsed.None? {
      return Err("Each value in -T/--dump-pickled-game-turns must be an integer!");
    }
    var m := DumpLoop(SplitExtRoot(outName), parsed.value);
    r := Ok(m);
  }

  /** One more turn extends the table by its entry. */
  lemma DumpTableStep(base: string, turns: seq<int>, j: nat)
    requires j < |turns|
    ensures DumpTable(base, turns[..j + 1]) == DumpTable(base, turns[..j])[turns[j] := DumpFileName(base, turns[j])]
  {
    assert turns[..j + 1][..j] == turns[..j];
  }

  /** The loop filling the dump table. */
  method DumpLoop(base: string, turns: seq<int>) returns (m: map<int, string>)
    ensures m == DumpTable(base, turns)
  {
    m := map[];
    var j := 0;
    while j < |turns|
      invariant 0 <= j <= |turns|
      invariant m == DumpTable(base, turns[..j])
    {
      var name: string;
      if turns[j] == -1 {
        name := base + "_last.pkl";
      } else {
        name := base + "_" + IntToDecimal(turns[j]) + ".pkl";
      }
      assert name == DumpFileName(base, turns[j]);
      DumpTableStep(base, turns, j);
      m := m[turns[j] := name];
      j := j + 1;
    }
    assert turns[..j] == turns;
  }

  /** The text of an integer starts with a digit or a minus sign. */
  lemma DecimalStart(n: int)
    ensures '0' <= IntToDecimal(n)[0] <= '9' || IntToDecimal(n)[0] == '-'
  {
  }

  /** Two texts with the same frame around them are equal. */
  lemma FramedEqual(p: string, a: string, b: string, q: string)
    requires p + a + q == p + b + q
    ensures a == b
  {
    assert |a| == |b|;
    assert a == (p + a + q)[|p|..|p| + |a|];
    assert b == (p + b + q)[|p|..|p| + |b|];
  }

  /** Different turns are dumped to different files. */
  lemma DumpFileNamesDistinct(base: string, t1: int, t2: int)
    requires t1 != t2
    ensures DumpFileName(base, t1) != DumpFileName(base, t2)
  {
    var p := base + "_";
    if t1 != -1 && t2 != -1 {
      if DumpFileName(base, t1) == DumpFileName(base, t2) {
        FramedEqual(p, IntToDecimal(t1), IntToDecimal(t2), ".pkl");
        ParseIntOfDecimal(t1);
        ParseIntOfDecimal(t2);
      }
    } else {
      var t := if t1 == -1 then t2 else t1;
      LastNameDiffers(p, t);
    }
  }

  /** The dump of the last turn never collides with a numbered one. */
  lemma LastNameDiffers(p: string, t: int)
    requires t != -1
    ensures p + IntToDecimal(t) + ".pkl" != p + "last.pkl"
  {
    var d := IntToDecimal(t);
    DecimalStart(t);
    assert (p + d + ".pkl")[|p|] == d[0];
    assert (p + "last.pkl")[|p|] == 'l';
  }
}
