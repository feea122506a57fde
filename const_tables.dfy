/** The viewer's constant tables (`Const.js`): the byte-to-hex lookup
    filled at load time, the colour maps chosen by player count and the
    player colour palette. */
module ConstTables {

  /** The lower-case hexadecimal digit of `d`. */
  function HexDigit(d: nat): (c: char)
    requires d < 16
    ensures ('0' <= c <= '9') || ('a' <= c <= 'f')
  {
    "0123456789abcdef"[d]
  }

  /** `n.toString(16)` for a non-negative integer: no leading zeros. */
  function ToHex(n: nat): (s: string)
    ensures |s| >= 1
    decreases n
  {
    if n < 16 then [HexDigit(n)] else ToHex(n / 16) + [HexDigit(n % 16)]
  }

  /** The value of a hexadecimal digit, either case. */
  function HexDigitValue(c: char): (v: int)
  {
    if '0' <= c <= '9' then c as int - '0' as int
    else if 'a' <= c <= 'f' then c as int - 'a' as int + 10
    else if 'A' <= c <= 'F' then c as int - 'A' as int + 10
    else -1
  }

  /** `parseInt(s, 16)` on a string of hexadecimal digits. */
  function HexValue(s: string): int
  {
    if s == [] then 0 else HexValue(s[..|s| - 1]) * 16 + HexDigitValue(s[|s| - 1])
  }

  /** The table entry of `i`: a leading `'0'` for the one-digit values. */
  function HexEntry(i: nat): string
  {
    if i < 16 then "0" + ToHex(i) else ToHex(i)
  }

  lemma HexDigitRoundTrip(d: nat)
    requires d < 16
    ensures HexDigitValue(HexDigit(d)) == d
  {
  }

  /** Every entry is two lower-case digits that read back as its index, and
      it starts with `'0'` exactly for the indices below 16. */
  lemma HexEntrySpec(i: nat)
    requires i < 256
    ensures |HexEntry(i)| == 2
    ensures HexValue(HexEntry(i)) == i
    ensures forall k :: 0 <= k < 2 ==> ('0' <= HexEntry(i)[k] <= '9') || ('a' <= HexEntry(i)[k] <= 'f')
    ensures HexEntry(i)[0] == '0' <==> i < 16
  {
    var e := HexEntry(i);
    if i < 16 {
      HexDigitRoundTrip(i);
      assert e == ['0', HexDigit(i)];
      assert e[..1] == ['0'];
      assert ['0'][..0] == [];
      assert HexValue(e) == HexValue(['0']) * 16 + HexDigitValue(HexDigit(i));
    } else {
      HexDigitRoundTrip(i / 16);
      HexDigitRoundTrip(i % 16);
      assert ToHex(i / 16) == [HexDigit(i / 16)];
      assert e == [HexDigit(i / 16), HexDigit(i % 16)];
      assert e[..1] == [HexDigit(i / 16)];
      assert [HexDigit(i / 16)][..0] == [];
      assert HexValue(e) == HexValue([HexDigit(i / 16)]) * 16 + HexDigitValue(HexDigit(i % 16));
      assert HexDigit(i / 16) != '0';
    }
  }

  /** The two loops that fill `INT_TO_HEX`, sharing their counter: 256
      two-digit entries that read back as their index. */
  method FillIntToHex() returns (table: array<string>)
    ensures table.Length == 256
    ensures forall i :: 0 <= i < 256 ==> table[i] == HexEntry(i)
    ensures forall i :: 0 <= i < 256 ==> |table[i]| == 2 && HexValue(table[i]) == i
    ensures forall i :: 0 <= i < 256 ==> (table[i][0] == '0' <==> i < 16)
  {
    table := new string[256];
    var i := 0;
    while i < 16
      invariant 0 <= i <= 16
      invariant forall k :: 0 <= k < i ==> table[k] == HexEntry(k)
    {
      table[i] := "0" + ToHex(i);
      i := i + 1;
    }
    while i < 256
      invariant 16 <= i <= 256
      invariant forall k :: 0 <= k < i ==> table[k] == HexEntry(k)
    {
      table[i] := ToHex(i);
      i := i + 1;
    }
    forall i | 0 <= i < 256
      ensures |table[i]| == 2 && HexValue(table[i]) == i && (table[i][0] == '0' <==> i < 16)
    {
      HexEntrySpec(i);
    }
  }

  /** An entry of `COLOR_MAPS`: the first is the colour of the highlighted
      player, entry `k` lists the palette indices for `k` players. */
  datatype ColorMap = Highlight(color: nat) | ForPlayers(colors: seq<nat>)

  const ColorMaps: seq<ColorMap> := [
    Highlight(10),
    ForPlayers([1]),
    ForPlayers([1, 2]),
    ForPlayers([1, 3, 6]),
    ForPlayers([1, 3, 6, 8]),
    ForPlayers([0, 2, 4, 6, 8]),
    ForPlayers([0, 2, 3, 4, 6, 8]),
    ForPlayers([0, 1, 3, 4, 5, 6, 8]),
    ForPlayers([0, 1, 3, 4, 5, 6, 7, 8]),
    ForPlayers([0, 1, 2, 3, 4, 5, 6, 7, 8]),
    ForPlayers([0, 1, 2, 3, 4, 5, 6, 7, 8, 9])
  ]

  /** `PLAYER_COLORS`: red, green, blue (entry 11 carries a fourth value). */
  const PlayerColors: seq<seq<int>> := [
    [20, 20, 20], [255, 51, 51], [50, 50, 153], [0, 153, 204], [0, 153, 51],
    [102, 51, 153], [51, 204, 51], [102, 102, 102], [153, 51, 204], [153, 0, 102],
    [204, 0, 102], [204, 0, 0, 0], [204, 51, 204], [204, 102, 0], [204, 153, 0],
    [204, 204, 0], [204, 153, 153], [255, 51, 153], [255, 153, 51], [255, 204, 0],
    [51, 153, 153]
  ]

  /** The map for `k` players has `k` entries, and every index, the
      highlight's included, names a palette colour with at least three
      components. */
  lemma ColorMapsSpec()
    ensures |ColorMaps| == 11
    ensures ColorMaps[0].Highlight? && ColorMaps[0].color < |PlayerColors|
    ensures forall k :: 1 <= k <= 10 ==> ColorMaps[k].ForPlayers? && |ColorMaps[k].colors| == k
    ensures forall k, j :: 1 <= k <= 10 && 0 <= j < |ColorMaps[k].colors| ==> ColorMaps[k].colors[j] < |PlayerColors|
    ensures forall c :: 0 <= c < |PlayerColors| ==> |PlayerColors[c]| >= 3
  {
  }
}
