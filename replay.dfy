/** The replay reader of the viewer (`Replay.js`): order letters, the
    token parsers for `keyword param ...` lines, the line iterator, the
    per-turn score and pirate-count tables and the default player names. */
module Replay {
  import opened Common
  import opened Text
  import opened Locations
  import opened PiratesEntities
  import opened PiratesGrid

  // ---------------------------------------------------------------------
  // Directions

  /** A screen offset: `x` along the columns, `y` along the rows. */
  datatype Direction = Direction(x: int, y: int)

  /** `Direction.fromChar`: `Ok(None)` for `'-'`, an error for a letter
      that is no order. */
  function FromChar(c: char): Result<Option<Direction>>
  {
    if c == 'n' || c == 'N' then Ok(Some(Direction(0, -1)))
    else if c == 'e' || c == 'E' then Ok(Some(Direction(1, 0)))
    else if c == 's' || c == 'S' then Ok(Some(Direction(0, 1)))
    else if c == 'w' || c == 'W' then Ok(Some(Direction(-1, 0)))
    else if c == 'a' || c == 'A' || c == 'd' || c == 'D' || c == 'f' || c == 'F' then Ok(Some(Direction(0, 0)))
    else if c == '-' then Ok(None)
    else Err("Invalid character in orders line: " + [c])
  }

  /** The ASCII lower-case form of a letter. */
  function LowerChar(c: char): char
  {
    if 'A' <= c <= 'Z' then (c as int + 32) as char else c
  }

  /** The viewer moves a pirate exactly as the rules do (its `x` is the
      rules' column step, its `y` the row step), either case of a letter
      means the same, `'-'` is no move and every other letter is refused. */
  lemma FromCharSpec(c: char)
    ensures c in "neswadf" ==> FromChar(c) == Ok(Some(Direction(Offset(c).col, Offset(c).row)))
    ensures c in "NESWADF" ==> FromChar(c) == FromChar(LowerChar(c))
    ensures FromChar(c).Ok? <==> c in "neswadfNESWADF-"
    ensures FromChar(c) == Ok(None) <==> c == '-'
  {
  }

  // ---------------------------------------------------------------------
  // Token parsers

  /** `p.match(/(\S*)\s*(.*)/)`: the leading run of non-space characters
      and what follows the next run of spaces, up to the first line
      terminator (JavaScript's `.` matches none). */
  function SplitToken(p: string): (r: (string, string))
    ensures Spaceless(r.0) && (r.1 == [] || !IsSpace(r.1[0]))
    ensures |r.0| <= |p| && p[..|r.0|] == r.0
    ensures r.1 == LineHead(TrimLeft(p[|r.0|..]))
    ensures !HasLineTerminator(p) ==> EndsWith(p, r.1)
  {
    var i := SpaceAt(p);
    SplitTokenParts(p, i);
    (p[..i], LineHead(TrimLeft(p[i..])))
  }

  /** The token before the first space has no space, the rest starts with
      none, and without a line terminator the rest is a suffix of `p`. */
  lemma {:induction false} SplitTokenParts(p: string, i: nat)
    requires i == SpaceAt(p)
    ensures Spaceless(p[..i])
    ensures LineHead(TrimLeft(p[i..])) == [] || !IsSpace(LineHead(TrimLeft(p[i..]))[0])
    ensures !HasLineTerminator(p) ==> EndsWith(p, LineHead(TrimLeft(p[i..])))
  {
    assert Spaceless(p[..i]) by {
      forall j | 0 <= j < i ensures !IsSpace(p[..i][j]) {
        assert p[..i][j] == p[j];
      }
    }
    var after := TrimLeft(p[i..]);
    var rest := LineHead(after);
    if rest != [] {
      assert rest[0] == after[0];
    }
    RestIsSuffix(p, i);
  }

  lemma {:induction false} RestIsSuffix(p: string, i: nat)
    requires i <= |p|
    ensures !HasLineTerminator(p) ==> EndsWith(p, LineHead(TrimLeft(p[i..])))
  {
    var s := p[i..];
    var after := TrimLeft(s);
    assert after == p[|p| - |after|..] by {
      assert after == s[|s| - |after|..];
    }
    if !HasLineTerminator(p) {
      SuffixHasNoTerminator(p, after);
      LineHeadWhole(after);
    }
  }

  /** A suffix of text without line terminators has none either. */
  lemma {:induction false} SuffixHasNoTerminator(p: string, after: string)
    requires !HasLineTerminator(p)
    requires |after| <= |p| && after == p[|p| - |after|..]
    ensures !HasLineTerminator(after)
  {
    forall k | 0 <= k < |after| ensures !IsLineTerminator(after[k]) {
      assert after[k] == p[|p| - |after| + k];
    }
  }

  /** The characters JavaScript's `.` does not match. */
  predicate IsLineTerminator(c: char)
  {
    c == '\n' || c == '\r' || c as int == 0x2028 || c as int == 0x2029
  }

  predicate HasLineTerminator(s: string)
  {
    exists k :: 0 <= k < |s| && IsLineTerminator(s[k])
  }

  /** What `(.*)` matches at the start of `s`: everything up to the first
      line terminator. */
  function LineHead(s: string): (r: string)
    ensures |r| <= |s| && s[..|r|] == r
    ensures forall k :: 0 <= k < |r| ==> !IsLineTerminator(r[k])
    ensures |r| < |s| ==> IsLineTerminator(s[|r|])
  {
    if s == [] || IsLineTerminator(s[0]) then [] else [s[0]] + LineHead(s[1..])
  }

  /** Text without a line terminator is matched whole. */
  lemma LineHeadWhole(s: string)
    requires !HasLineTerminator(s)
    ensures LineHead(s) == s
  {
  }

  /** A token, blanks and then text cut by a carriage return: the rest is the
      text up to the carriage return, and what follows it is dropped. */
  lemma SplitTokenStopsAtReturn(tok: string, blanks: string, text: string, more: string)
    requires Spaceless(tok) && blanks != [] && forall k :: 0 <= k < |blanks| ==> IsSpace(blanks[k])
    requires text != [] && !IsSpace(text[0]) && !HasLineTerminator(text)
    ensures SplitToken(tok + blanks + text + "\r" + more) == (tok, text)
  {
    var p := tok + blanks + text + "\r" + more;
    assert p == tok + (blanks + text + "\r" + more);
    SpaceAtWord(tok, blanks + text + "\r" + more);
    assert p[..|tok|] == tok;
    assert p[|tok|..] == blanks + (text + "\r" + more);
    TrimLeftBlanks(blanks, text + "\r" + more);
    LineHeadCut(text, more);
  }

  lemma {:induction false} LineHeadCut(text: string, more: string)
    requires !HasLineTerminator(text)
    ensures LineHead(text + "\r" + more) == text
    decreases |text|
  {
    var s := text + "\r" + more;
    if text == [] {
      assert s[0] == '\r';
    } else {
      assert !IsLineTerminator(text[0]);
      assert s[1..] == text[1..] + "\r" + more;
      assert !HasLineTerminator(text[1..]) by {
        forall k | 0 <= k < |text[1..]| ensures !IsLineTerminator(text[1..][k]) {
          assert text[1..][k] == text[k + 1];
        }
      }
      LineHeadCut(text[1..], more);
    }
  }

  predicate EndsWith(s: string, t: string)
  {
    |t| <= |s| && s[|s| - |t|..] == t
  }

  /** The value of the digit `c` in the given base, if it is one. */
  function DigitIn(c: char, base: nat): (v: Option<nat>)
    ensures v.Some? ==> v.value < base
  {
    var d := if '0' <= c <= '9' then c as int - '0' as int
             else if 'a' <= c <= 'z' then c as int - 'a' as int + 10
             else if 'A' <= c <= 'Z' then c as int - 'A' as int + 10
             else 99;
    if 0 <= d < base then Some(d) else None
  }

  /** The longest prefix of `t` made of digits of the base. */
  function DigitRun(t: string, base: nat): (n: nat)
    ensures n <= |t|
    ensures forall k :: 0 <= k < n ==> DigitIn(t[k], base).Some?
  {
    if t == [] || DigitIn(t[0], base).None? then 0 else 1 + DigitRun(t[1..], base)
  }

  function RunValue(t: string, base: nat): nat
    requires forall k :: 0 <= k < |t| ==> DigitIn(t[k], base).Some?
  {
    if t == [] then 0 else RunValue(t[..|t| - 1], base) * base + DigitIn(t[|t| - 1], base).value
  }

  /** `parseInt(t)` with no radix on a token without spaces: an optional
      sign, a `0x` prefix selecting base 16, then the longest run of
      digits; `None` (NaN) when that run is empty. */
  function JsParseInt(t: string): (r: Option<int>)
  {
    var negative := t != [] && t[0] == '-';
    var body := if t != [] && (t[0] == '-' || t[0] == '+') then t[1..] else t;
    var hex := |body| >= 2 && body[0] == '0' && (body[1] == 'x' || body[1] == 'X');
    var base: nat := if hex then 16 else 10;
    var digits := if hex then body[2..] else body;
    var n := DigitRun(digits, base);
    if n == 0 then None
    else
      var v: int := RunValue(digits[..n], base);
      Some(if negative then -v else v)
  }

  /** The values the parsers produce: text (possibly `null`) or a number. */
  datatype Value = Text(text: Option<string>) | Number(n: int)

  /** The parsers of `DataType` that the model covers. */
  datatype Parser = Str | Ident | Uint | PosInt

  /** `DataType.UINT(p, n)`. */
  function ParseUint(p: string, n: string): (r: Result<(nat, string)>)
    ensures r.Ok? ==> r.value.1 == SplitToken(p).1
    ensures r.Ok? <==> JsParseInt(SplitToken(p).0).Some? && JsParseInt(SplitToken(p).0).value >= 0
  {
    var parts := SplitToken(p);
    match UintToken(parts.0)
    case None => Err("Parameter " + n + " must be an unsigned integer.")
    case Some(v) => Ok((v, parts.1))
  }

  /** `parseInt` of a token when it is a number and not negative. */
  function UintToken(tok: string): (v: Option<nat>)
    ensures v.Some? <==> JsParseInt(tok).Some? && JsParseInt(tok).value >= 0
    ensures v.Some? ==> v.value == JsParseInt(tok).value
  {
    match JsParseInt(tok)
    case None => None
    case Some(x) => if x < 0 then None else Some(x)
  }

  /** `DataType.POSINT(p, n)`: an unsigned integer that is not 0. */
  function ParsePosInt(p: string, n: string): (r: Result<(nat, string)>)
    ensures r.Ok? <==> ParseUint(p, n).Ok? && ParseUint(p, n).value.0 > 0
    ensures r.Ok? ==> r == ParseUint(p, n)
  {
    match ParseUint(p, n)
    case Err(e) => Err(e)
    case Ok((v, rest)) => if v <= 0 then Err("Parameter " + n + " must be a positive integer.") else Ok((v, rest))
  }

  /** Calling a parser on what is left of the line (`null` after `STRING`);
      the `match` of a `null` fails. */
  function Apply(parser: Parser, work: Option<string>): Result<(Value, Option<string>)>
  {
    match parser
    case Str => Ok((Text(work), None))
    case Ident =>
      if work.None? then Err("TypeError: null has no match")
      else var (tok, rest) := SplitToken(work.value); Ok((Text(Some(tok)), Some(rest)))
    case Uint =>
      if work.None? then Err("TypeError: null has no match")
      else (match ParseUint(work.value, "undefined")
            case Err(e) => Err(e)
            case Ok((v, rest)) => Ok((Number(v), Some(rest))))
    case PosInt =>
      if work.None? then Err("TypeError: null has no match")
      else (match ParsePosInt(work.value, "undefined")
            case Err(e) => Err(e)
            case Ok((v, rest)) => Ok((Number(v), Some(rest))))
  }

  /** JavaScript truthiness of what is left: neither `null` nor empty. */
  predicate Truthy(work: Option<string>)
  {
    work.Some? && work.value != []
  }

  /** The parse state after the first `n` parsers of `TokenLine.as`. */
  function AsPrefix(args: seq<Parser>, optional: int, params: Option<string>, n: nat): Result<(seq<Value>, Option<string>)>
    requires n <= |args|
  {
    if n == 0 then Ok(([], params))
    else match AsPrefix(args, optional, params, n - 1)
      case Err(e) => Err(e)
      case Ok((vs, work)) =>
        if Truthy(work) || |args| - (n - 1) > optional then
          match Apply(args[n - 1], work)
          case Err(e) => Err(e)
          case Ok((v, rest)) => Ok((vs + [v], rest))
        else Ok((vs, work))
  }

  /** `TokenLine.as(args, optional)`: the values, or the first parser's
      error, or an error for leftover text. */
  function As(args: seq<Parser>, optional: int, params: Option<string>): Result<seq<Value>>
  {
    match AsPrefix(args, optional, params, |args|)
    case Err(e) => Err(e)
    case Ok((vs, work)) =>
      if Truthy(work) then Err("The following unexpected additional parameter was found: " + work.value)
      else Ok(vs)
  }

  /** A parser given nothing leaves nothing. */
  lemma ApplyFalsy(parser: Parser, work: Option<string>)
    requires !Truthy(work)
    ensures Apply(parser, work).Ok? ==> !Truthy(Apply(parser, work).value.1)
  {
    if work.Some? {
      assert work.value == [];
      assert SpaceAt([]) == 0;
      assert JsParseInt([]).None?;
    }
  }

  /** Parsers are only skipped once nothing is left, and the mandatory
      ones (all but the last `optional`) are always applied. */
  lemma {:induction false} AsPrefixSpec(args: seq<Parser>, optional: int, params: Option<string>, n: nat)
    requires n <= |args| && AsPrefix(args, optional, params, n).Ok?
    ensures |AsPrefix(args, optional, params, n).value.0| <= n
    ensures |AsPrefix(args, optional, params, n).value.0| < n ==> !Truthy(AsPrefix(args, optional, params, n).value.1)
    ensures n <= |args| - optional ==> |AsPrefix(args, optional, params, n).value.0| == n
  {
    if n > 0 {
      AsPrefixSpec(args, optional, params, n - 1);
      AsPrefixStep(args, optional, params, n);
      var prev := AsPrefix(args, optional, params, n - 1).value;
      var cur := AsPrefix(args, optional, params, n).value;
      if Truthy(prev.1) || |args| - (n - 1) > optional {
        var st := Apply(args[n - 1], prev.1);
        if !Truthy(prev.1) {
          ApplyFalsy(args[n - 1], prev.1);
        }
        assert cur == (prev.0 + [st.value.0], st.value.1);
        assert |cur.0| == |prev.0| + 1;
      } else {
        assert cur == prev;
      }
    }
  }

  /** One step of `as`: the next parser is applied, or skipped once nothing
      is left of an optional tail. */
  lemma AsPrefixStep(args: seq<Parser>, optional: int, params: Option<string>, n: nat)
    requires 0 < n <= |args| && AsPrefix(args, optional, params, n).Ok?
    ensures AsPrefix(args, optional, params, n - 1).Ok?
    ensures var (vs, work) := AsPrefix(args, optional, params, n - 1).value;
      if Truthy(work) || |args| - (n - 1) > optional then
        && Apply(args[n - 1], work).Ok?
        && AsPrefix(args, optional, params, n).value == (vs + [Apply(args[n - 1], work).value.0], Apply(args[n - 1], work).value.1)
      else AsPrefix(args, optional, params, n).value == (vs, work)
  {
  }

  /** A successful `as` yields one value per parser except for some of the
      last `optional`, and with no optional parsers one per parser. */
  lemma AsSpec(args: seq<Parser>, optional: int, params: Option<string>)
    requires As(args, optional, params).Ok?
    ensures |As(args, optional, params).value| <= |args|
    ensures 0 <= optional ==> |args| - optional <= |As(args, optional, params).value|
    ensures optional <= 0 ==> |As(args, optional, params).value| == |args|
  {
    AsPrefixSpec(args, optional, params, |args|);
    var (vs, work) := AsPrefix(args, optional, params, |args|).value;
    if |args| - optional > |vs| && |args| - optional > 0 {
      var m := if |args| - optional <= |args| then |args| - optional else |args|;
      AsPrefixMonotone(args, optional, params, m, |args|);
      AsPrefixSpec(args, optional, params, m);
    }
  }

  /** Later prefixes keep the values of earlier ones. */
  lemma {:induction false} AsPrefixMonotone(args: seq<Parser>, optional: int, params: Option<string>, m: nat, n: nat)
    requires m <= n <= |args| && AsPrefix(args, optional, params, n).Ok?
    ensures AsPrefix(args, optional, params, m).Ok?
    ensures |AsPrefix(args, optional, params, m).value.0| <= |AsPrefix(args, optional, params, n).value.0|
    decreases n - m
  {
    if m < n {
      AsPrefixMonotone(args, optional, params, m, n - 1);
    }
  }

  /** A `TokenLine`: the keyword and the parameter block of one line. */
  class TokenLine {
    const keyword: string
    const block: Option<string>
    var params: seq<Value>

    /** `new TokenLine(line)` once the line's keyword has been split off. */
    constructor(kw: string, rest: string)
      ensures keyword == Lower(kw) && block == Some(rest) && params == []
    {
      keyword := Lower(kw);
      block := Some(rest);
      params := [];
    }

    /** `as`: the parsers applied left to right to the parameter block; on
        success their values become the line's parameters. */
    method ApplyParsers(args: seq<Parser>, optional: int) returns (r: Result<()>)
      modifies this
      ensures As(args, optional, block).Ok? ==> r == Ok(()) && params == As(args, optional, block).value
      ensures As(args, optional, block).Err? ==> r == Err(As(args, optional, block).msg)
    {
      var values := RunParsers(args, optional, block);
      if values.Err? {
        return Err(values.msg);
      }
      params := values.value;
      r := Ok(());
    }
  }

  /** The loop of `as` over the parsers, consuming `work`: the values, or
      the first parser's error, or an error for leftover text. */
  method RunParsers(args: seq<Parser>, optional: int, text: Option<string>) returns (r: Result<seq<Value>>)
    ensures r == As(args, optional, text)
  {
    var work := text;
    var values: seq<Value> := [];
    var i := 0;
    while i < |args|
      invariant 0 <= i <= |args|
      invariant AsPrefix(args, optional, text, i) == Ok((values, work))
    {
      var next := ParserStep(args, optional, text, i, values, work);
      if next.Err? {
        AsPrefixStopped(args, optional, text, i + 1);
        return Err(next.msg);
      }
      values, work := next.value.0, next.value.1;
      i := i + 1;
    }
    assert AsPrefix(args, optional, text, |args|) == Ok((values, work));
    if Truthy(work) {
      return Err("The following unexpected additional parameter was found: " + work.value);
    }
    r := Ok(values);
  }

  /** One round of the loop of `as`: parser `i` is applied to `work` unless
      nothing is left of an optional tail. */
  method ParserStep(args: seq<Parser>, optional: int, text: Option<string>, i: nat,
                    values: seq<Value>, work: Option<string>) returns (r: Result<(seq<Value>, Option<string>)>)
    requires i < |args| && AsPrefix(args, optional, text, i) == Ok((values, work))
    ensures r == AsPrefix(args, optional, text, i + 1)
  {
    AsPrefixNext(args, optional, text, i, values, work);
    if Truthy(work) || |args| - i > optional {
      var parts := Apply(args[i], work);
      if parts.Err? {
        return Err(parts.msg);
      }
      return Ok((values + [parts.value.0], parts.value.1));
    }
    return Ok((values, work));
  }

  /** One more parser of `as`, after the first `i` succeeded. */
  lemma AsPrefixNext(args: seq<Parser>, optional: int, params: Option<string>, i: nat,
                     values: seq<Value>, work: Option<string>)
    requires i < |args| && AsPrefix(args, optional, params, i) == Ok((values, work))
    ensures !(Truthy(work) || |args| - i > optional) ==> AsPrefix(args, optional, params, i + 1) == Ok((values, work))
    ensures (Truthy(work) || |args| - i > optional) && Apply(args[i], work).Err? ==>
              AsPrefix(args, optional, params, i + 1) == Err(Apply(args[i], work).msg)
    ensures (Truthy(work) || |args| - i > optional) && Apply(args[i], work).Ok? ==>
              AsPrefix(args, optional, params, i + 1)
              == Ok((values + [Apply(args[i], work).value.0], Apply(args[i], work).value.1))
  {
  }

  /** Once a parser fails, the whole of `as` fails with its error. */
  lemma {:induction false} AsPrefixStopped(args: seq<Parser>, optional: int, params: Option<string>, n: nat)
    requires n <= |args| && AsPrefix(args, optional, params, n).Err?
    ensures As(args, optional, params) == Err(AsPrefix(args, optional, params, n).msg)
    decreases |args| - n
  {
    if n < |args| {
      AsPrefixStopped(args, optional, params, n + 1);
    }
  }

  /** `new TokenLine(line)`: the first run of non-space characters, lower
      case, and the text after the spaces that follow it up to the first
      line terminator; `None` when the
      line has no such run (the `match` is `null`). */
  function SplitKeyword(line: string): (r: Option<(string, string)>)
    ensures r.None? <==> TrimLeft(line) == []
    ensures r.Some? ==> r.value.0 != [] && Spaceless(r.value.0)
  {
    var t := TrimLeft(line);
    if t == [] then None
    else
      var (kw, rest) := SplitToken(t);
      assert kw != [] by { assert t[..|kw|] == kw; }
      LowerSpaceless(kw);
      Some((Lower(kw), rest))
  }

  // ---------------------------------------------------------------------
  // Lines

  /** `LineIterator`: the replay's remaining lines and a cursor. */
  class LineIterator {
    const tokenLines: seq<string>
    var pos: nat

    ghost predicate Valid()
      reads this
    {
      pos <= |tokenLines|
    }

    constructor(lines: seq<string>)
      ensures tokenLines == lines && pos == 0 && Valid()
    {
      tokenLines := lines;
      pos := 0;
    }

    /** `moar`: lines are left. */
    function Moar(): (more: bool)
      reads this
      ensures more <==> pos < |tokenLines|
    {
      pos < |tokenLines|
    }

    /** `gimmeNext`: the next line, or an error past the end. */
    method GimmeNext() returns (r: Result<string>)
      requires Valid()
      modifies this
      ensures Valid()
      ensures old(pos) < |tokenLines| ==> r == Ok(tokenLines[old(pos)]) && pos == old(pos) + 1
      ensures old(pos) >= |tokenLines| ==> r.Err? && pos == old(pos)
    {
      if pos < |tokenLines| {
        r := Ok(tokenLines[pos]);
        pos := pos + 1;
        return;
      }
      r := Err("Tried to read past the end of the file. Is it truncated?");
    }

    /** The reading loop of the replay parser: while lines are left, take
        the next; it reads every remaining line once, in order. */
    method ReadRest() returns (lines: seq<string>)
      requires Valid()
      modifies this
      ensures Valid() && pos == |tokenLines|
      ensures lines == tokenLines[old(pos)..]
    {
      lines := [];
      ghost var start := pos;
      while Moar()
        invariant Valid() && start <= pos
        invariant lines == tokenLines[start..pos]
        decreases |tokenLines| - pos
      {
        var next := GimmeNext();
        assert tokenLines[start..pos] == tokenLines[start..pos - 1] + [tokenLines[pos - 1]];
        lines := lines + [next.value];
      }
    }
  }

  // ---------------------------------------------------------------------
  // Score and count tables

  /** Player `i`'s score in turn `k` of the table: its `k`-th recorded
      score, then its last one; `None` (undefined) without any. */
  function ScoreAt(recorded: seq<int>, k: nat): Option<int>
  {
    if k < |recorded| then Some(recorded[k])
    else if recorded == [] then None
    else Some(recorded[|recorded| - 1])
  }

  /** The per-player score lists turned into a per-turn table. */
  method TransposeScores(scoresList: seq<seq<int>>, duration: nat) returns (scores: array2<Option<int>>)
    requires forall i :: 0 <= i < |scoresList| ==> |scoresList[i]| <= duration + 1
    ensures scores.Length0 == duration + 1 && scores.Length1 == |scoresList|
    ensures forall k, i :: 0 <= k <= duration && 0 <= i < |scoresList| && k < |scoresList[i]| ==>
              scores[k, i] == Some(scoresList[i][k])
    ensures forall k, i :: 0 <= k <= duration && 0 <= i < |scoresList| && |scoresList[i]| <= k ==>
              scores[k, i] == (if scoresList[i] == [] then None else Some(scoresList[i][|scoresList[i]| - 1]))
  {
    var players := |scoresList|;
    scores := new Option<int>[duration + 1, players]((_, _) => None);
    var i := 0;
    while i < players
      invariant 0 <= i <= players
      invariant forall k, j :: 0 <= k <= duration && 0 <= j < i ==> scores[k, j] == ScoreAt(scoresList[j], k)
    {
      var playerScores := scoresList[i];
      var k := 0;
      while k < |playerScores|
        invariant 0 <= k <= |playerScores|
        invariant forall k', j :: 0 <= k' <= duration && 0 <= j < i ==> scores[k', j] == ScoreAt(scoresList[j], k')
        invariant forall k' :: 0 <= k' < k ==> scores[k', i] == ScoreAt(playerScores, k')
      {
        scores[k, i] := Some(playerScores[k]);
        k := k + 1;
      }
      while k <= duration
        invariant |playerScores| <= k <= duration + 1
        invariant forall k', j :: 0 <= k' <= duration && 0 <= j < i ==> scores[k', j] == ScoreAt(scoresList[j], k')
        invariant forall k' :: 0 <= k' < k ==> scores[k', i] == ScoreAt(playerScores, k')
      {
        scores[k, i] := if playerScores == [] then None else Some(playerScores[|playerScores| - 1]);
        k := k + 1;
      }
      i := i + 1;
    }
  }

  /** A pirate of a revision-3 replay: the turn it appears, the turn it is
      gone and its owner. */
  datatype ReplayPirate = ReplayPirate(spawn: int, end: int, owner: int)

  /** The pirates of `owner` on the map in turn `n`. */
  function AliveCount(pirates: seq<ReplayPirate>, n: int, owner: int): nat
  {
    if pirates == [] then 0
    else
      var p := pirates[|pirates| - 1];
      AliveCount(pirates[..|pirates| - 1], n, owner) + (if p.owner == owner && p.spawn <= n < p.end then 1 else 0)
  }

  /** All pirates on the map in turn `n`. */
  function AliveTotal(pirates: seq<ReplayPirate>, n: int): nat
  {
    if pirates == [] then 0
    else
      var p := pirates[|pirates| - 1];
      AliveTotal(pirates[..|pirates| - 1], n) + (if p.spawn <= n < p.end then 1 else 0)
  }

  /** The counts of owners `0 .. m - 1` added up. */
  function OwnersSum(pirates: seq<ReplayPirate>, n: int, m: nat): nat
  {
    if m == 0 then 0 else OwnersSum(pirates, n, m - 1) + AliveCount(pirates, n, m - 1)
  }

  /** Summed over the players, the counts give every pirate on the map. */
  lemma {:induction false} OwnersSumTotal(pirates: seq<ReplayPirate>, n: int, players: nat)
    requires forall k :: 0 <= k < |pirates| ==> 0 <= pirates[k].owner < players
    ensures OwnersSum(pirates, n, players) == AliveTotal(pirates, n)
  {
    if pirates != [] {
      var init := pirates[..|pirates| - 1];
      var p := pirates[|pirates| - 1];
      assert init + [p] == pirates;
      assert 0 <= p.owner < players;
      OwnersSumTotal(init, n, players);
      OwnersSumSplit(init, p, n, players);
    } else {
      OwnersSumZero(pirates, n, players);
    }
  }

  lemma {:induction false} OwnersSumZero(pirates: seq<ReplayPirate>, n: int, m: nat)
    requires pirates == []
    ensures OwnersSum(pirates, n, m) == 0
  {
    if m > 0 {
      OwnersSumZero(pirates, n, m - 1);
    }
  }

  lemma {:induction false} OwnersSumSplit(init: seq<ReplayPirate>, p: ReplayPirate, n: int, m: nat)
    ensures OwnersSum(init + [p], n, m)
            == OwnersSum(init, n, m) + (if 0 <= p.owner < m && p.spawn <= n < p.end then 1 else 0)
  {
    var s := init + [p];
    assert s[..|s| - 1] == init && s[|s| - 1] == p;
    if m > 0 {
      OwnersSumSplit(init, p, n, m - 1);
    }
  }

  /** A revision-3 pirate the count loop can take: an owner among the
      players and, when it lives at all, turns inside the replay. */
  predicate Countable(p: ReplayPirate, players: nat, duration: nat)
  {
    0 <= p.owner < players && (p.end <= p.spawn || (0 <= p.spawn && p.end <= duration + 1))
  }

  /** The count table of a revision-3 replay: the number of pirates of each
      owner on the map in each turn. */
  method CountPirates(pirates: seq<ReplayPirate>, players: nat, duration: nat) returns (counts: array2<int>)
    requires forall k :: 0 <= k < |pirates| ==> Countable(pirates[k], players, duration)
    ensures counts.Length0 == duration + 1 && counts.Length1 == players
    ensures forall n, o :: 0 <= n <= duration && 0 <= o < players ==> counts[n, o] == AliveCount(pirates, n, o)
  {
    counts := new int[duration + 1, players]((_, _) => 0);
    var i := 0;
    while i < |pirates|
      invariant 0 <= i <= |pirates|
      invariant forall n, o :: 0 <= n <= duration && 0 <= o < players ==> counts[n, o] == AliveCount(pirates[..i], n, o)
    {
      var p := pirates[i];
      assert pirates[..i + 1] == pirates[..i] + [p];
      assert pirates[..i + 1][..i] == pirates[..i];
      var n := p.spawn;
      while n < p.end
        invariant p.spawn <= n && (n > p.spawn ==> n <= p.end)
        invariant forall n', o :: 0 <= n' <= duration && 0 <= o < players ==>
                    counts[n', o] == AliveCount(pirates[..i], n', o)
                                     + (if o == p.owner && p.spawn <= n' < n then 1 else 0)
      {
        counts[n, p.owner] := counts[n, p.owner] + 1;
        n := n + 1;
      }
      i := i + 1;
    }
    assert pirates[..i] == pirates;
  }

  // ---------------------------------------------------------------------
  // Player names

  /** Player `i`'s name: the given one, or `player <i + 1>` when missing or
      empty. */
  function NameOf(names: seq<string>, i: nat): string
  {
    if i < |names| && names[i] != [] then names[i] else "player " + NatToDecimal(i + 1)
  }

  /** The loop of `addMissingMetaData` over the players' names. */
  method FillNames(names: seq<string>, players: nat) returns (r: seq<string>)
    ensures |r| == if |names| > players then |names| else players
    ensures forall i :: 0 <= i < players ==> r[i] == NameOf(names, i)
    ensures forall i :: players <= i < |names| ==> r[i] == names[i]
  {
    r := names;
    var i := 0;
    while i < players
      invariant 0 <= i <= players
      invariant |r| == if |names| > i then |names| else i
      invariant forall k :: 0 <= k < i ==> r[k] == NameOf(names, k)
      invariant forall k :: i <= k < |names| ==> r[k] == names[k]
    {
      if i < |r| {
        if r[i] == [] {
          r := r[i := "player " + NatToDecimal(i + 1)];
        }
      } else {
        r := r + ["player " + NatToDecimal(i + 1)];
      }
      i := i + 1;
    }
  }

  /** Every player ends up with a name, and two players given no name get
      different ones. */
  lemma DefaultNamesDistinct(names: seq<string>, i: nat, j: nat)
    requires i != j
    requires (i >= |names| || names[i] == []) && (j >= |names| || names[j] == [])
    ensures NameOf(names, i) != NameOf(names, j)
    ensures NameOf(names, i) != []
  {
    PrefixedDecimalsDiffer("player ", i + 1, j + 1);
  }

  /** The same prefix before two different numbers gives different strings. */
  lemma PrefixedDecimalsDiffer(p: string, m: nat, n: nat)
    requires m != n
    ensures p + NatToDecimal(m) != p + NatToDecimal(n)
  {
    if p + NatToDecimal(m) == p + NatToDecimal(n) {
      assert NatToDecimal(m) == (p + NatToDecimal(m))[|p|..];
      assert NatToDecimal(n) == (p + NatToDecimal(n))[|p|..];
      ParseIntOfNat(m);
      ParseIntOfNat(n);
    }
  }
}
