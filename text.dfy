/** The Python string operations the map parser relies on: `strip`,
    `split(sep)`, `split(' ', 1)`, `split()`, `lower` and `int` on a decimal
    string. Characters are compared as code points; `lower` and the
    whitespace set are the ASCII ones of Python 2's `str`. */
module Text {
  import opened Common

  /** Python 2 `str` whitespace: space, tab, newline, carriage return,
      vertical tab and form feed. */
  predicate IsSpace(c: char)
  {
    c == ' ' || c == '\t' || c == '\n' || c == '\r' || c as int == 11 || c as int == 12
  }

  function TrimLeft(s: string): (r: string)
    ensures |r| <= |s| && (r == [] || !IsSpace(r[0]))
    ensures r == s[|s| - |r|..]
    ensures forall i :: 0 <= i < |s| - |r| ==> IsSpace(s[i])
  {
    if s != [] && IsSpace(s[0]) then TrimLeft(s[1..]) else s
  }

  function TrimRight(s: string): (r: string)
    ensures |r| <= |s| && (r == [] || !IsSpace(r[|r| - 1]))
    ensures r == s[..|r|]
    ensures forall i :: |r| <= i < |s| ==> IsSpace(s[i])
  {
    if s != [] && IsSpace(s[|s| - 1]) then TrimRight(s[..|s| - 1]) else s
  }

  /** `str.strip()`. */
  function Strip(s: string): (r: string)
  {
    TrimRight(TrimLeft(s))
  }

  /** `strip` takes away exactly the surrounding whitespace: the result is
      the piece of the input after its leading whitespace, only whitespace
      follows it, and it neither starts nor ends with whitespace. */
  lemma StripSpec(s: string)
    ensures Strip(s) == [] || (!IsSpace(Strip(s)[0]) && !IsSpace(Strip(s)[|Strip(s)| - 1]))
    ensures |Strip(s)| <= |TrimLeft(s)|
    ensures s[|s| - |TrimLeft(s)|..|s| - |TrimLeft(s)| + |Strip(s)|] == Strip(s)
    ensures forall j :: 0 <= j < |s| - |TrimLeft(s)| ==> IsSpace(s[j])
    ensures forall j :: |s| - |TrimLeft(s)| + |Strip(s)| <= j < |s| ==> IsSpace(s[j])
  {
    StripEnds(s);
    StripSlice(s);
    StripTrailing(s);
  }

  /** The stripped text neither starts nor ends with whitespace. */
  lemma StripEnds(s: string)
    ensures Strip(s) == [] || (!IsSpace(Strip(s)[0]) && !IsSpace(Strip(s)[|Strip(s)| - 1]))
  {
    var t := TrimLeft(s);
    var r := TrimRight(t);
    if r != [] {
      assert r[0] == t[0];
    }
  }

  /** The stripped text is the piece of the input right after its leading
      whitespace. */
  lemma StripSlice(s: string)
    ensures s[|s| - |TrimLeft(s)|..|s| - |TrimLeft(s)| + |Strip(s)|] == Strip(s)
  {
    var t := TrimLeft(s);
    var r := TrimRight(t);
    assert Strip(s) == r;
    PrefixOfSuffix(s, t, r);
  }

  /** A prefix of a suffix of `s` is a slice of `s`. */
  lemma PrefixOfSuffix(s: string, t: string, r: string)
    requires |t| <= |s| && t == s[|s| - |t|..] && |r| <= |t| && r == t[..|r|]
    ensures s[|s| - |t|..|s| - |t| + |r|] == r
  {
    var i := |s| - |t|;
    forall k | 0 <= k < |r|
      ensures s[i..i + |r|][k] == r[k]
    {
      assert r[k] == t[k] == s[i + k];
    }
  }

  /** Only whitespace follows the stripped text. */
  lemma StripTrailing(s: string)
    ensures forall j :: |s| - |TrimLeft(s)| + |Strip(s)| <= j < |s| ==> IsSpace(s[j])
  {
    var t := TrimLeft(s);
    var i := |s| - |t|;
    forall j | i + |Strip(s)| <= j < |s|
      ensures IsSpace(s[j])
    {
      assert s[j] == t[j - i];
    }
  }

  /** Text without surrounding whitespace is its own `strip`. */
  lemma StripKeepsTrimmed(s: string)
    requires s == [] || (!IsSpace(s[0]) && !IsSpace(s[|s| - 1]))
    ensures Strip(s) == s
  {
  }

  /** `s.split(sep)`: the pieces between the separators, at least one. */
  function SplitOn(s: string, sep: char): (r: seq<string>)
    ensures |r| >= 1
    ensures forall k :: 0 <= k < |r| ==> sep !in r[k]
  {
    match IndexOf(s, sep)
    case None => [s]
    case Some(i) => [s[..i]] + SplitOn(s[i + 1..], sep)
  }

  /** The pieces joined back with the separator. */
  function JoinWith(pieces: seq<string>, sep: char): string
    requires |pieces| >= 1
  {
    if |pieces| == 1 then pieces[0] else pieces[0] + [sep] + JoinWith(pieces[1..], sep)
  }

  /** Splitting loses nothing: joining the pieces gives the text back. */
  lemma {:induction false} SplitOnJoins(s: string, sep: char)
    ensures JoinWith(SplitOn(s, sep), sep) == s
    decreases |s|
  {
    match IndexOf(s, sep)
    case None =>
    case Some(i) =>
      SplitOnJoins(s[i + 1..], sep);
      assert SplitOn(s, sep)[1..] == SplitOn(s[i + 1..], sep);
      assert s == s[..i] + [sep] + s[i + 1..];
  }

  /** `s.split(' ', 1)` unpacked into two names: the text before the first
      space and the rest; a text without a space cannot be unpacked. */
  function SplitFirstSpace(s: string): (r: Option<(string, string)>)
    ensures r.None? <==> ' ' !in s
    ensures r.Some? ==> s == r.value.0 + " " + r.value.1 && ' ' !in r.value.0
  {
    match IndexOf(s, ' ')
    case None => None
    case Some(i) => assert s == s[..i] + " " + s[i + 1..]; Some((s[..i], s[i + 1..]))
  }

  /** Index of the first whitespace character, or the length. */
  function SpaceAt(s: string): (i: nat)
    ensures i <= |s| && (i < |s| ==> IsSpace(s[i]))
    ensures forall j :: 0 <= j < i ==> !IsSpace(s[j])
  {
    if s == [] || IsSpace(s[0]) then 0 else 1 + SpaceAt(s[1..])
  }

  /** `s.split()`: the maximal runs of non-whitespace, in order. */
  function Words(s: string): (r: seq<string>)
    ensures forall k :: 0 <= k < |r| ==> r[k] != [] && Spaceless(r[k])
    decreases |s|
  {
    var t := TrimLeft(s);
    if t == [] then []
    else
      var i := SpaceAt(t);
      assert i > 0 by { assert !IsSpace(t[0]); }
      assert Spaceless(t[..i]) by {
        forall j | 0 <= j < i ensures !IsSpace(t[..i][j]) { assert t[..i][j] == t[j]; }
      }
      [t[..i]] + Words(t[i..])
  }

  predicate Spaceless(w: string)
  {
    forall j :: 0 <= j < |w| ==> !IsSpace(w[j])
  }

  /** The first whitespace of a word followed by text that starts with
      whitespace (or is empty) is the one right after the word. */
  lemma {:induction false} SpaceAtWord(w: string, rest: string)
    requires Spaceless(w) && (rest == [] || IsSpace(rest[0]))
    ensures SpaceAt(w + rest) == |w|
    decreases |w|
  {
    if w != [] {
      assert (w + rest)[1..] == w[1..] + rest;
      SpaceAtWord(w[1..], rest);
    } else {
      assert w + rest == rest;
    }
  }

  /** Text that starts with whitespace has the words of the text after it. */
  lemma WordsSkipSpace(c: char, rest: string)
    requires IsSpace(c)
    ensures Words([c] + rest) == Words(rest)
  {
    assert ([c] + rest)[1..] == rest;
    assert TrimLeft([c] + rest) == TrimLeft(rest);
  }

  /** A word followed by a space and text that starts with a word. */
  lemma WordsCons(w: string, rest: string)
    requires w != [] && Spaceless(w) && (rest == [] || !IsSpace(rest[0]))
    ensures Words(w + [' '] + rest) == [w] + Words(rest)
  {
    var s := w + [' '] + rest;
    assert s == w + ([' '] + rest);
    assert s[0] == w[0];
    assert TrimLeft(s) == s;
    SpaceAtWord(w, [' '] + rest);
    assert s[..|w|] == w;
    assert s[|w|..] == [' '] + rest;
    WordsSkipSpace(' ', rest);
    assert Words(s) == [w] + Words([' '] + rest);
  }

  lemma SingleWord(w: string)
    requires w != [] && Spaceless(w)
    ensures Words(w) == [w]
  {
    assert TrimLeft(w) == w;
    SpaceAtWord(w, []);
    assert w + [] == w;
    assert w[..|w|] == w;
    assert w[|w|..] == [];
    assert Words([]) == [];
  }

  /** Words joined by single spaces split back into the same words. */
  lemma {:induction false} WordsOfJoined(ws: seq<string>)
    requires |ws| >= 1
    requires forall k :: 0 <= k < |ws| ==> ws[k] != [] && Spaceless(ws[k])
    ensures Words(JoinWith(ws, ' ')) == ws
    ensures !IsSpace(JoinWith(ws, ' ')[0])
    decreases |ws|
  {
    if |ws| == 1 {
      SingleWord(ws[0]);
    } else {
      var tail := ws[1..];
      WordsOfJoined(tail);
      JoinedStep(ws[0], tail);
      assert [ws[0]] + tail == ws;
    }
  }

  lemma JoinedStep(w: string, tail: seq<string>)
    requires |tail| >= 1 && w != [] && Spaceless(w)
    requires Words(JoinWith(tail, ' ')) == tail && !IsSpace(JoinWith(tail, ' ')[0])
    ensures Words(JoinWith([w] + tail, ' ')) == [w] + tail
    ensures !IsSpace(JoinWith([w] + tail, ' ')[0])
  {
    var ws := [w] + tail;
    assert ws[1..] == tail;
    var rest := JoinWith(tail, ' ');
    assert JoinWith(ws, ' ') == w + [' '] + rest;
    WordsCons(w, rest);
  }

  /** ASCII lower case (`str.lower` on the map's keys). */
  function Lower(s: string): (r: string)
    ensures |r| == |s|
    ensures forall i :: 0 <= i < |s| ==> !('A' <= r[i] <= 'Z')
    ensures forall i :: 0 <= i < |s| ==> (r[i] == s[i] || ('A' <= s[i] <= 'Z' && r[i] as int == s[i] as int + 32))
  {
    seq(|s|, i requires 0 <= i < |s| => if 'A' <= s[i] <= 'Z' then (s[i] as int + 32) as char else s[i])
  }

  /** Lower-casing keeps a word free of whitespace. */
  lemma LowerSpaceless(w: string)
    requires Spaceless(w)
    ensures Spaceless(Lower(w))
  {
    forall j | 0 <= j < |w|
      ensures !IsSpace(Lower(w)[j])
    {
      assert !IsSpace(w[j]);
    }
  }

  predicate IsDigit(c: char) { '0' <= c <= '9' }

  /** The value of a run of decimal digits. */
  function DigitsValue(ds: string): nat
    requires AllDigits(ds)
  {
    if ds == [] then 0
    else
      assert IsDigit(ds[|ds| - 1]);
      DigitsValue(ds[..|ds| - 1]) * 10 + (ds[|ds| - 1] as int - '0' as int)
  }

  /** `int(s)` on a string, as Python 2 reads it: surrounding whitespace, an
      optional sign, whitespace after the sign, and at least one decimal
      digit; anything else raises `ValueError`. */
  function ParseInt(s: string): (r: Option<int>)
  {
    ParseSigned(Strip(s))
  }

  /** `int` on text without surrounding whitespace. Python 2 skips blanks
      between the sign and the digits. */
  function ParseSigned(t: string): (r: Option<int>)
  {
    var negative := t != [] && t[0] == '-';
    var digits := if t != [] && (t[0] == '-' || t[0] == '+') then TrimLeft(t[1..]) else t;
    if digits != [] && AllDigits(digits)
    then
      var v: int := DigitsValue(digits);
      Some(if negative then -v else v)
    else None
  }

  predicate AllDigits(ds: string)
  {
    forall i :: 0 <= i < |ds| ==> IsDigit(ds[i])
  }

  /** `map(int, words)`: every word converted, or failure. */
  function ParseInts(ws: seq<string>): (r: Option<seq<int>>)
    ensures r.Some? ==> |r.value| == |ws| && forall i :: 0 <= i < |ws| ==> ParseInt(ws[i]) == Some(r.value[i])
    ensures r.None? <==> exists i :: 0 <= i < |ws| && ParseInt(ws[i]).None?
  {
    if ws == [] then Some([])
    else match (ParseInt(ws[0]), ParseInts(ws[1..]))
      case (Some(x), Some(xs)) => Some([x] + xs)
      case (None, _) => None
      case (_, None) => None
  }

  lemma DigitCharValue(d: nat)
    requires d < 10
    ensures DigitChar(d) as int - '0' as int == d
  {
  }

  lemma {:induction false} DigitsOfNat(n: nat)
    ensures AllDigits(NatToDecimal(n))
    ensures DigitsValue(NatToDecimal(n)) == n
    decreases n
  {
    if n >= 10 {
      DigitsOfNat(n / 10);
      var s := NatToDecimal(n);
      assert s[..|s| - 1] == NatToDecimal(n / 10);
      DigitCharValue(n % 10);
    } else {
      DigitCharValue(n);
    }
  }

  /** `int(str(n)) == n`. */
  lemma ParseIntOfDecimal(n: int)
    ensures ParseInt(IntToDecimal(n)) == Some(n)
  {
    if n < 0 {
      var m: nat := -n;
      DigitsOfNat(m);
      ParseIntOfDigits(true, NatToDecimal(m), IntToDecimal(n));
    } else {
      var m: nat := n;
      assert IntToDecimal(n) == NatToDecimal(m);
      ParseIntOfNat(m);
    }
  }

  /** An optional minus sign before a run of digits reads as that run's
      value, negated after a minus. */
  lemma ParseIntOfDigits(negative: bool, ds: string, s: string)
    requires ds != [] && AllDigits(ds)
    requires s == (if negative then "-" else "") + ds
    ensures ParseInt(s) == Some(if negative then -(DigitsValue(ds) as int) else DigitsValue(ds) as int)
  {
    assert s[|s| - 1] == ds[|ds| - 1];
    assert s[0] == if negative then '-' else ds[0];
    StripKeepsTrimmed(s);
    ParseSignedOfDigits(negative, ds);
  }

  lemma ParseSignedOfDigits(negative: bool, ds: string)
    requires ds != [] && AllDigits(ds)
    ensures ParseSigned((if negative then "-" else "") + ds) == Some(if negative then -(DigitsValue(ds) as int) else DigitsValue(ds) as int)
  {
    if negative {
      assert "-" + [] + ds == "-" + ds;
      ParseSignedBlanks(true, [], ds);
    } else {
      assert "" + ds == ds;
      assert IsDigit(ds[0]);
      assert ds[0] != '-' && ds[0] != '+';
      var v: int := DigitsValue(ds);
      assert ParseSigned(ds) == Some(v);
    }
  }

  /** Python 2's `int` reads a sign, blanks and digits as the signed value of
      the digits: `int("- 5") == -5`. */
  lemma ParseIntBlanksAfterSign(negative: bool, blanks: string, ds: string)
    requires ds != [] && AllDigits(ds)
    requires forall i :: 0 <= i < |blanks| ==> IsSpace(blanks[i])
    ensures ParseInt((if negative then "-" else "+") + blanks + ds)
            == Some(if negative then -(DigitsValue(ds) as int) else DigitsValue(ds) as int)
  {
    var s := (if negative then "-" else "+") + blanks + ds;
    assert s[0] == (if negative then '-' else '+');
    assert s[|s| - 1] == ds[|ds| - 1];
    StripKeepsTrimmed(s);
    ParseSignedBlanks(negative, blanks, ds);
  }

  lemma ParseSignedBlanks(negative: bool, blanks: string, ds: string)
    requires ds != [] && AllDigits(ds)
    requires forall i :: 0 <= i < |blanks| ==> IsSpace(blanks[i])
    ensures ParseSigned((if negative then "-" else "+") + blanks + ds)
            == Some(if negative then -(DigitsValue(ds) as int) else DigitsValue(ds) as int)
  {
    var s := (if negative then "-" else "+") + blanks + ds;
    assert s[0] == (if negative then '-' else '+');
    assert s[1..] == blanks + ds;
    TrimLeftBlanks(blanks, ds);
    var digits := if s != [] && (s[0] == '-' || s[0] == '+') then TrimLeft(s[1..]) else s;
    assert digits == ds;
    assert (s != [] && s[0] == '-') == negative;
  }

  lemma TrimLeftBlanks(blanks: string, rest: string)
    requires forall i :: 0 <= i < |blanks| ==> IsSpace(blanks[i])
    requires rest != [] && !IsSpace(rest[0])
    ensures TrimLeft(blanks + rest) == rest
  {
    var t := blanks + rest;
    assert t[|blanks|..] == rest;
  }

  /** A run of digits reads back as the number it renders. */
  lemma ParseIntOfNat(n: nat)
    ensures ParseInt(NatToDecimal(n)) == Some(n)
  {
    DigitsOfNat(n);
    ParseIntOfDigits(false, NatToDecimal(n), NatToDecimal(n));
  }
}
