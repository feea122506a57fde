/** The replay viewer's application object (`Application.js`): the
    placement of players by final score, the URL flag reader, the speed
    clamp and the guard that starts a load only from the idle state. */
module Visualizer {
  import opened Common
  import opened Standings

  // ---------------------------------------------------------------------
  // Player order

  /** The final score of each player: the last row of the score table,
      plus the bonus when the replay has one. */
  function FinalScores(lastRow: seq<int>, bonus: Option<seq<int>>): (scores: seq<int>)
    requires bonus.Some? ==> |bonus.value| >= |lastRow|
    ensures |scores| == |lastRow|
    ensures forall i :: 0 <= i < |lastRow| ==>
              scores[i] == lastRow[i] + (if bonus.Some? then bonus.value[i] else 0)
  {
    match bonus
    case None => lastRow
    case Some(b) => seq(|lastRow|, i requires 0 <= i < |lastRow| => lastRow[i] + b[i])
  }

  /** Where the placement loop puts player `j`: after every player with a
      higher score and after the earlier players with the same score. */
  function Slot(scores: seq<int>, j: int): (s: nat)
    requires 0 <= j < |scores|
    ensures CountAbove(scores, scores[j]) <= s < |scores|
  {
    SlotInRangeCount(scores, j);
    AtLeastBound(scores, scores[j]);
    CountAbove(scores, scores[j]) + Count(scores[..j], scores[j])
  }

  lemma {:induction false} CountAboveAppend(a: seq<int>, b: seq<int>, x: int)
    ensures CountAbove(a + b, x) == CountAbove(a, x) + CountAbove(b, x)
  {
    if a != [] {
      assert (a + b)[1..] == a[1..] + b;
      CountAboveAppend(a[1..], b, x);
    } else {
      assert a + b == b;
    }
  }

  lemma {:induction false} CountAppend(a: seq<int>, b: seq<int>, x: int)
    ensures Count(a + b, x) == Count(a, x) + Count(b, x)
  {
    if a != [] {
      assert (a + b)[1..] == a[1..] + b;
      CountAppend(a[1..], b, x);
    } else {
      assert a + b == b;
    }
  }

  /** Players above `x` and players at `x` are at most all players. */
  lemma {:induction false} AtLeastBound(s: seq<int>, x: int)
    ensures CountAbove(s, x) + Count(s, x) <= |s|
  {
    if s != [] {
      AtLeastBound(s[1..], x);
    }
  }

  /** Everyone at or above a higher score is above a lower one. */
  lemma {:induction false} HigherCounts(s: seq<int>, x: int, y: int)
    requires x > y
    ensures CountAbove(s, y) >= CountAbove(s, x) + Count(s, x)
  {
    if s != [] {
      HigherCounts(s[1..], x, y);
    }
  }

  /** A higher score gets an earlier slot, and equal scores keep their
      order; so no two players share a slot. */
  lemma SlotOrder(scores: seq<int>, j: nat, k: nat)
    requires j < |scores| && k < |scores| && j != k
    ensures scores[j] > scores[k] ==> Slot(scores, j) < Slot(scores, k)
    ensures scores[j] == scores[k] && j < k ==> Slot(scores, j) < Slot(scores, k)
    ensures Slot(scores, j) != Slot(scores, k)
  {
    var x, y := scores[j], scores[k];
    if x > y {
      HigherCounts(scores, x, y);
      SlotInRangeCount(scores, j);
    } else if x < y {
      HigherCounts(scores, y, x);
      SlotInRangeCount(scores, k);
    } else if j < k {
      EarlierSameScore(scores, j, k);
    } else {
      EarlierSameScore(scores, k, j);
    }
  }

  lemma SlotInRangeCount(scores: seq<int>, j: nat)
    requires j < |scores|
    ensures Count(scores[..j], scores[j]) < Count(scores, scores[j])
  {
    var v := scores[j];
    assert scores == scores[..j] + scores[j..];
    CountAppend(scores[..j], scores[j..], v);
    assert scores[j..][0] == v;
  }

  lemma EarlierSameScore(scores: seq<int>, j: nat, k: nat)
    requires j < k < |scores| && scores[j] == scores[k]
    ensures Count(scores[..j], scores[j]) < Count(scores[..k], scores[k])
  {
    var v := scores[j];
    assert scores[..k] == scores[..j] + scores[j..k];
    CountAppend(scores[..j], scores[j..k], v);
    assert scores[j..k][0] == v;
  }

  /** Each slot before player `i`'s own, among those of its score, holds an
      earlier player with that score. */
  lemma {:induction false} EarlierSlotsTaken(scores: seq<int>, i: nat, c: nat) returns (j: nat)
    requires i < |scores| && c < Count(scores[..i], scores[i])
    ensures j < i && scores[j] == scores[i] && Slot(scores, j) == CountAbove(scores, scores[i]) + c
  {
    var v := scores[i];
    var m := i - 1;
    assert scores[..i] == scores[..m] + [scores[m]];
    CountAppend(scores[..m], [scores[m]], v);
    if c < Count(scores[..m], v) {
      j := PrefixCountStep(scores, m, i, c);
    } else {
      assert scores[m] == v;
      j := m;
    }
  }

  lemma {:induction false} PrefixCountStep(scores: seq<int>, m: nat, i: nat, c: nat) returns (j: nat)
    requires m < i < |scores| && c < Count(scores[..m], scores[i])
    ensures j < i && scores[j] == scores[i] && Slot(scores, j) == CountAbove(scores, scores[i]) + c
    decreases m
  {
    var v := scores[i];
    var p := m - 1;
    assert scores[..m] == scores[..p] + [scores[p]];
    CountAppend(scores[..p], [scores[p]], v);
    if c < Count(scores[..p], v) {
      j := PrefixCountStep(scores, p, i, c);
    } else {
      assert scores[p] == v;
      j := p;
    }
  }

  /** The numbers `0 .. n - 1`. */
  function Below(n: nat): (r: set<nat>)
    ensures |r| == n
    ensures forall k: nat :: k in r <==> k < n
  {
    if n == 0 then {}
    else
      var b := Below(n - 1);
      var x: nat := n - 1;
      assert x !in b;
      b + {x}
  }

  /** The slots of the first `m` players. */
  function SlotsOf(scores: seq<int>, m: nat): (r: set<nat>)
    requires m <= |scores|
  {
    if m == 0 then {} else SlotsOf(scores, m - 1) + {Slot(scores, m - 1)}
  }

  /** A slot of the first `m` players is a slot on the board, taken by one
      of them. */
  lemma {:induction false} SlotsOfMember(scores: seq<int>, m: nat, k: nat) returns (j: nat)
    requires m <= |scores| && k in SlotsOf(scores, m)
    ensures k < |scores| && j < m && Slot(scores, j) == k
  {
    if k == Slot(scores, m - 1) {
      j := m - 1;
    } else {
      j := SlotsOfMember(scores, m - 1, k);
    }
  }

  /** Different players have different slots, so `m` players take `m` slots. */
  lemma {:induction false} SlotsOfSize(scores: seq<int>, m: nat)
    requires m <= |scores|
    ensures |SlotsOf(scores, m)| == m
  {
    if m > 0 {
      var prev := SlotsOf(scores, m - 1);
      var x := Slot(scores, m - 1);
      SlotsOfSize(scores, m - 1);
      SlotNotEarlier(scores, m - 1);
      AddFresh(prev, x);
    }
  }

  lemma AddFresh(s: set<nat>, x: nat)
    requires x !in s
    ensures |s + {x}| == |s| + 1
  {
  }

  /** Player `i`'s slot is none of the earlier players' slots. */
  lemma SlotNotEarlier(scores: seq<int>, i: nat)
    requires i < |scores|
    ensures Slot(scores, i) !in SlotsOf(scores, i)
  {
    if Slot(scores, i) in SlotsOf(scores, i) {
      var j := SlotsOfMember(scores, i, Slot(scores, i));
      SlotOrder(scores, j, i);
    }
  }

  /** Every slot `0 .. n - 1` belongs to some player. */
  lemma SlotsFill(scores: seq<int>, k: nat)
    requires k < |scores|
    ensures exists j :: 0 <= j < |scores| && Slot(scores, j) == k
  {
    var n := |scores|;
    var image := SlotsOf(scores, n);
    SlotsOfSize(scores, n);
    forall x | x in image ensures x in Below(n) {
      var j := SlotsOfMember(scores, n, x);
    }
    assert image <= Below(n);
    assert |Below(n) - image| == 0;
    assert k in Below(n);
    assert k in image;
    var j := SlotsOfMember(scores, n, k);
  }

  lemma CountAboveSnoc(s: seq<int>, y: int, x: int)
    ensures CountAbove(s + [y], x) == CountAbove(s, x) + (if y > x then 1 else 0)
  {
    CountAboveAppend(s, [y], x);
    assert [y][1..] == [];
  }

  /** The placement loop of `tryStart`: `ranks[i]` is one more than the
      number of players scoring strictly higher, and the probe from slot
      `ranks[i] - 1` puts every player into its slot. */
  method PlaceOrder(scores: seq<int>) returns (ranks: array<int>, order: array<Option<nat>>)
    ensures ranks.Length == |scores| && order.Length == |scores|
    ensures forall i :: 0 <= i < |scores| ==> ranks[i] == 1 + CountAbove(scores, scores[i])
    ensures forall i :: 0 <= i < |scores| ==> order[Slot(scores, i)] == Some(i)
    ensures forall k :: 0 <= k < |scores| ==> order[k].Some? && order[k].value < |scores| && Slot(scores, order[k].value) == k
  {
    var n := |scores|;
    ranks := new int[n];
    order := new Option<nat>[n](_ => None);
    var i := 0;
    while i < n
      invariant 0 <= i <= n
      invariant forall j :: 0 <= j < i ==> ranks[j] == 1 + CountAbove(scores, scores[j])
      invariant forall j :: 0 <= j < i ==> order[Slot(scores, j)] == Some(j)
      invariant forall k :: 0 <= k < n && order[k].Some? ==> order[k].value < i && Slot(scores, order[k].value) == k
    {
      ranks[i] := CountRank(scores, i);
      var k := Probe(scores, order, i, ranks[i] - 1);
      forall j | 0 <= j < i ensures Slot(scores, j) != k {
        SlotOrder(scores, j, i);
      }
      order[k] := Some(i);
      i := i + 1;
    }
    forall k | 0 <= k < n ensures order[k].Some? {
      SlotsFill(scores, k);
    }
  }

  /** The inner loop of `tryStart`: starting from 1, one more for every
      player with a strictly higher score. */
  method CountRank(scores: seq<int>, i: nat) returns (rank: int)
    requires i < |scores|
    ensures rank == 1 + CountAbove(scores, scores[i])
  {
    rank := 1;
    var k := 0;
    while k < |scores|
      invariant 0 <= k <= |scores|
      invariant rank == 1 + CountAbove(scores[..k], scores[i])
    {
      CountAboveSnoc(scores[..k], scores[k], scores[i]);
      assert scores[..k + 1] == scores[..k] + [scores[k]];
      if scores[i] < scores[k] {
        rank := rank + 1;
      }
      k := k + 1;
    }
    assert scores[..k] == scores;
  }

  /** `while (order[k] !== undefined) k++` from the first slot of the
      player's score: it stops at the player's own slot, in bounds. */
  method Probe(scores: seq<int>, order: array<Option<nat>>, i: nat, start: int) returns (k: nat)
    requires i < |scores| == order.Length && start == CountAbove(scores, scores[i])
    requires forall j :: 0 <= j < i ==> order[Slot(scores, j)] == Some(j)
    requires forall k :: 0 <= k < |scores| && order[k].Some? ==> order[k].value < i && Slot(scores, order[k].value) == k
    ensures k == Slot(scores, i)
  {
    k := start;
    while order[k].Some?
      invariant start <= k <= Slot(scores, i)
      decreases Slot(scores, i) - k
    {
      if k == Slot(scores, i) {
        var j := order[k].value;
        SlotOrder(scores, j, i);
      }
      k := k + 1;
    }
    if k < Slot(scores, i) {
      var j := EarlierSlotsTaken(scores, i, k - start);
      assert false;
    }
  }

  /** The resulting order is a permutation of the players with the scores
      non-increasing along it, and a rank counts exactly the players
      placed before any of its score. */
  lemma OrderSpec(scores: seq<int>, order: seq<nat>)
    requires |order| == |scores|
    requires forall k :: 0 <= k < |scores| ==> order[k] < |scores| && Slot(scores, order[k]) == k
    ensures forall a, b :: 0 <= a < b < |order| ==> scores[order[a]] >= scores[order[b]]
    ensures forall a, b :: 0 <= a < b < |order| ==> order[a] != order[b]
    ensures forall i :: 0 <= i < |scores| ==> i in order
  {
    forall a, b | 0 <= a < b < |order| ensures scores[order[a]] >= scores[order[b]] && order[a] != order[b] {
      if scores[order[a]] < scores[order[b]] {
        SlotOrder(scores, order[b], order[a]);
      }
    }
    forall i | 0 <= i < |scores| ensures i in order {
      var k := Slot(scores, i);
      if order[k] != i {
        SlotOrder(scores, order[k], i);
      }
    }
  }

  // ---------------------------------------------------------------------
  // Options and state

  /** `Options.toBool`: a URL parameter is true when it reads `1` or `true`. */
  function ToBool(value: string): (b: bool)
  {
    value == "1" || value == "true"
  }

  /** Exactly the two spellings a writer of flags uses read as true. */
  lemma ToBoolSpec(b: bool)
    ensures ToBool(if b then "true" else "false") == b
    ensures ToBool(if b then "1" else "0") == b
    ensures !ToBool("") && !ToBool("TRUE") && !ToBool("yes")
  {
  }

  datatype LoadingState = Idle | Loading | Cleanup

  class ViewerState {
    var loading: LoadingState
    var replayStr: Option<string>
    var speedFactor: real
    const speedSlowestFactor: real
    const speedFastestFactor: real

    constructor(slowest: real, fastest: real, factor: real)
      ensures loading == Idle && replayStr == None && speedFactor == factor
      ensures speedSlowestFactor == slowest && speedFastestFactor == fastest
    {
      loading := Idle;
      replayStr := None;
      speedFactor := factor;
      speedSlowestFactor := slowest;
      speedFastestFactor := fastest;
    }

    /** `cleanUp`'s effect on the modelled state. */
    method CleanUp()
      modifies this
      ensures loading == Cleanup && replayStr == None && speedFactor == old(speedFactor)
    {
      loading := Cleanup;
      replayStr := None;
    }

    /** `preload`: busy unless idle; from idle, cleans up and starts loading. */
    method Preload() returns (busy: bool)
      modifies this
      ensures busy <==> old(loading) != Idle
      ensures busy ==> loading == old(loading) && replayStr == old(replayStr)
      ensures !busy ==> loading == Loading && replayStr == None
      ensures speedFactor == old(speedFactor)
    {
      if loading != Idle {
        return true;
      }
      CleanUp();
      loading := Loading;
      return false;
    }

    /** `modifySpeed`: the factor moves by `modifier`, raised to the slowest
        and then lowered to the fastest factor. */
    method ModifySpeed(modifier: real)
      modifies this
      ensures speedFactor == Clamp(old(speedFactor) + modifier, speedSlowestFactor, speedFastestFactor)
      ensures loading == old(loading) && replayStr == old(replayStr)
    {
      var f := speedFactor + modifier;
      if f < speedSlowestFactor {
        f := speedSlowestFactor;
      }
      if f > speedFastestFactor {
        f := speedFastestFactor;
      }
      speedFactor := f;
    }
  }

  /** `Math.min(Math.max(x, lo), hi)`. */
  function Clamp(x: real, lo: real, hi: real): real
  {
    var y := if x < lo then lo else x;
    if y > hi then hi else y
  }

  /** The clamped factor never exceeds the fastest, is at least the slowest
      when slowest <= fastest, and is the requested value when that lies
      between them. */
  lemma ClampSpec(x: real, lo: real, hi: real)
    ensures Clamp(x, lo, hi) <= hi
    ensures lo <= hi ==> lo <= Clamp(x, lo, hi)
    ensures lo <= x <= hi ==> Clamp(x, lo, hi) == x
  {
  }
}
