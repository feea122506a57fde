/** Score standings shared by the game (`calculate_turn_significance`,
    `game_over`), the engine's results (`get_game_results`) and the player
    perspectives (`order_for_player`). */
module Standings {
  import opened Common

  /** Number of scores strictly above `x`. */
  function CountAbove(s: seq<int>, x: int): nat
  {
    if s == [] then 0 else (if s[0] > x then 1 else 0) + CountAbove(s[1..], x)
  }

  predicate NonIncreasing(t: seq<int>)
  {
    forall i, j :: 0 <= i < j < |t| ==> t[i] >= t[j]
  }

  /** Inserts `x` into a non-increasing list before the first element not above it. */
  function Insert(x: int, t: seq<int>): seq<int>
  {
    if t == [] || x >= t[0] then [x] + t else [t[0]] + Insert(x, t[1..])
  }

  /** `sorted(s, reverse=True)`. */
  function SortDescending(s: seq<int>): seq<int>
  {
    if s == [] then [] else Insert(s[0], SortDescending(s[1..]))
  }

  lemma {:induction false} InsertMultiset(x: int, t: seq<int>)
    ensures multiset(Insert(x, t)) == multiset(t) + multiset{x}
  {
    if t != [] && x < t[0] {
      InsertMultiset(x, t[1..]);
      assert t == [t[0]] + t[1..];
    }
  }

  lemma {:induction false} InsertCount(x: int, t: seq<int>, y: int)
    ensures CountAbove(Insert(x, t), y) == CountAbove(t, y) + (if x > y then 1 else 0)
  {
    if t == [] || x >= t[0] {
      assert ([x] + t)[1..] == t;
    } else {
      InsertCount(x, t[1..], y);
      assert ([t[0]] + Insert(x, t[1..]))[1..] == Insert(x, t[1..]);
    }
  }

  lemma {:induction false} InsertBounded(x: int, t: seq<int>, b: int)
    requires x <= b && forall k :: 0 <= k < |t| ==> t[k] <= b
    ensures forall k :: 0 <= k < |Insert(x, t)| ==> Insert(x, t)[k] <= b
  {
    if t != [] && x < t[0] {
      InsertBounded(x, t[1..], b);
    }
  }

  lemma {:induction false} InsertSorted(x: int, t: seq<int>)
    requires NonIncreasing(t)
    ensures NonIncreasing(Insert(x, t))
  {
    if t != [] && x < t[0] {
      var u := Insert(x, t[1..]);
      InsertSorted(x, t[1..]);
      InsertBounded(x, t[1..], t[0]);
      assert forall k :: 0 <= k < |u| ==> ([t[0]] + u)[k + 1] == u[k];
    }
  }

  lemma InsertSpec(x: int, t: seq<int>)
    requires NonIncreasing(t)
    ensures NonIncreasing(Insert(x, t))
    ensures multiset(Insert(x, t)) == multiset(t) + multiset{x}
    ensures forall y :: CountAbove(Insert(x, t), y) == CountAbove(t, y) + (if x > y then 1 else 0)
  {
    InsertSorted(x, t);
    InsertMultiset(x, t);
    forall y ensures CountAbove(Insert(x, t), y) == CountAbove(t, y) + (if x > y then 1 else 0) {
      InsertCount(x, t, y);
    }
  }

  /** The descending sort is non-increasing, a permutation of its input, and
      keeps every count of higher scores. */
  lemma {:induction false} SortDescendingSpec(s: seq<int>)
    ensures NonIncreasing(SortDescending(s))
    ensures multiset(SortDescending(s)) == multiset(s)
    ensures forall y :: CountAbove(SortDescending(s), y) == CountAbove(s, y)
  {
    if s != [] {
      SortDescendingSpec(s[1..]);
      InsertSpec(s[0], SortDescending(s[1..]));
      assert s == [s[0]] + s[1..];
    }
  }

  /** In a non-increasing list the first occurrence of `x` comes right after
      the elements above `x`. */
  lemma {:induction false} FirstIndexInSorted(t: seq<int>, x: int)
    requires NonIncreasing(t) && x in t
    ensures IndexOf(t, x) == Some(CountAbove(t, x))
  {
    if t[0] != x {
      assert x in t[1..] by { assert t == [t[0]] + t[1..]; }
      FirstIndexInSorted(t[1..], x);
      assert t[0] > x by { var k :| 0 <= k < |t| && t[k] == x; }
    } else {
      ZeroAboveTop(t);
    }
  }

  lemma {:induction false} ZeroAboveTop(t: seq<int>)
    requires NonIncreasing(t) && |t| > 0
    ensures CountAbove(t, t[0]) == 0
  {
    if |t| > 1 {
      ZeroAboveTop(t[1..]);
      assert CountAbove(t[1..], t[0]) == 0 by { NoneAbove(t[1..], t[0]); }
    }
  }

  lemma {:induction false} NoneAbove(t: seq<int>, x: int)
    requires forall k :: 0 <= k < |t| ==> t[k] <= x
    ensures CountAbove(t, x) == 0
  {
    if t != [] {
      NoneAbove(t[1..], x);
    }
  }

  /** The position of the first `x` in a sorted list (`list.index`). */
  function RankIn(sorted: seq<int>, x: int): int
  {
    match IndexOf(sorted, x) case Some(k) => k case None => 0
  }

  /** Each score's index in the descending sort (`sorted(...).index(score)`). */
  function Ranking(scores: seq<int>): (r: seq<int>)
    ensures |r| == |scores|
  {
    var sorted := SortDescending(scores);
    seq(|scores|, i requires 0 <= i < |scores| => RankIn(sorted, scores[i]))
  }

  /** A player's rank is the number of strictly higher scores. */
  lemma RankingCountsHigher(scores: seq<int>)
    ensures forall i :: 0 <= i < |scores| ==> Ranking(scores)[i] == CountAbove(scores, scores[i])
  {
    SortDescendingSpec(scores);
    var sorted := SortDescending(scores);
    forall i | 0 <= i < |scores|
      ensures Ranking(scores)[i] == CountAbove(scores, scores[i])
    {
      assert scores[i] in multiset(sorted);
      FirstIndexInSorted(sorted, scores[i]);
    }
  }

  /** Equal scores share a rank, a higher score has a smaller rank, and a
      score no other beats has rank 0. */
  lemma RankingOrder(scores: seq<int>, i: int, j: int)
    requires 0 <= i < |scores| && 0 <= j < |scores|
    ensures scores[i] == scores[j] ==> Ranking(scores)[i] == Ranking(scores)[j]
    ensures scores[i] > scores[j] ==> Ranking(scores)[i] < Ranking(scores)[j]
    ensures (forall k :: 0 <= k < |scores| ==> scores[k] <= scores[i]) ==> Ranking(scores)[i] == 0
  {
    RankingCountsHigher(scores);
    if scores[i] > scores[j] {
      AboveMonotone(scores, scores[i], scores[j]);
      CountAboveIncludes(scores, i, scores[j]);
    }
    if forall k :: 0 <= k < |scores| ==> scores[k] <= scores[i] {
      NoneAbove(scores, scores[i]);
    }
  }

  /** The scores above a higher bar are among those above a lower bar. */
  lemma {:induction false} AboveMonotone(s: seq<int>, x: int, y: int)
    requires x >= y
    ensures CountAbove(s, x) <= CountAbove(s, y)
  {
    if s != [] {
      AboveMonotone(s[1..], x, y);
    }
  }

  /** Counting above `y` counts every element, above `y`, that is also above any higher bar, plus s[i]. */
  lemma {:induction false} CountAboveIncludes(s: seq<int>, i: int, y: int)
    requires 0 <= i < |s| && s[i] > y
    ensures CountAbove(s, s[i]) < CountAbove(s, y)
  {
    if i == 0 {
      AboveMonotone(s[1..], s[0], y);
    } else {
      CountAboveIncludes(s[1..], i - 1, y);
      assert s[1..][i - 1] == s[i];
    }
  }

  /** `max(scores)`. */
  function MaxScore(s: seq<int>): (m: int)
    requires |s| > 0
    ensures m in s && forall k :: 0 <= k < |s| ==> s[k] <= m
  {
    if |s| == 1 then s[0] else Max(s[0], MaxScore(s[1..]))
  }

  /** Ids whose score equals the maximum, in increasing order. */
  function Winners(scores: seq<int>): seq<int>
  {
    if scores == [] then []
    else
      var m := MaxScore(scores);
      WinnersFrom(scores, m, 0)
  }

  function WinnersFrom(scores: seq<int>, m: int, i: nat): (r: seq<int>)
    decreases |scores| - i
  {
    if i >= |scores| then [] else (if scores[i] == m then [i] else []) + WinnersFrom(scores, m, i + 1)
  }

  lemma {:induction false} WinnersFromMembers(scores: seq<int>, m: int, i: nat)
    ensures forall k :: k in WinnersFrom(scores, m, i) <==> i <= k < |scores| && scores[k] == m
    decreases |scores| - i
  {
    if i < |scores| {
      WinnersFromMembers(scores, m, i + 1);
    }
  }

  lemma {:induction false} WinnersFromIncreasing(scores: seq<int>, m: int, i: nat)
    ensures forall a, b :: 0 <= a < b < |WinnersFrom(scores, m, i)| ==>
              WinnersFrom(scores, m, i)[a] < WinnersFrom(scores, m, i)[b]
    decreases |scores| - i
  {
    if i < |scores| {
      WinnersFromIncreasing(scores, m, i + 1);
      WinnersFromBounds(scores, m, i + 1);
    }
  }

  lemma {:induction false} WinnersFromBounds(scores: seq<int>, m: int, i: nat)
    ensures forall k :: 0 <= k < |WinnersFrom(scores, m, i)| ==> i <= WinnersFrom(scores, m, i)[k]
    decreases |scores| - i
  {
    if i < |scores| {
      WinnersFromBounds(scores, m, i + 1);
    }
  }

  lemma WinnersFromSpec(scores: seq<int>, m: int, i: nat)
    ensures forall k :: k in WinnersFrom(scores, m, i) <==> i <= k < |scores| && scores[k] == m
    ensures forall a, b :: 0 <= a < b < |WinnersFrom(scores, m, i)| ==>
              WinnersFrom(scores, m, i)[a] < WinnersFrom(scores, m, i)[b]
  {
    WinnersFromMembers(scores, m, i);
    WinnersFromIncreasing(scores, m, i);
  }

  /** The winners are exactly the ids no other score beats, listed once each in
      increasing order, and there is at least one when there are scores. */
  lemma WinnersSpec(scores: seq<int>)
    ensures forall k :: k in Winners(scores) <==>
              0 <= k < |scores| && forall j :: 0 <= j < |scores| ==> scores[j] <= scores[k]
    ensures forall a, b :: 0 <= a < b < |Winners(scores)| ==> Winners(scores)[a] < Winners(scores)[b]
    ensures |scores| > 0 ==> |Winners(scores)| > 0
  {
    if scores != [] {
      WinnersFromSpec(scores, MaxScore(scores), 0);
      var m := MaxScore(scores);
      var k :| 0 <= k < |scores| && scores[k] == m;
      assert k in Winners(scores);
    }
  }

  /** `perspectives_key[pid]`: the index under which player `pid` sees each player. */
  function PerspectiveKey(n: nat, pid: int): seq<int>
    requires n > 0
  {
    seq(n, key requires 0 <= key < n => (key + n - pid) % n)
  }

  /** `order_for_player`: entry `i` of the result is the datum of the player
      that `pid` sees as player `i`, or None for an index no player maps to. */
  function OrderForPlayer<T>(n: nat, pid: int, data: seq<T>): seq<Option<T>>
    requires n > 0 && |data| >= n
  {
    var key := PerspectiveKey(n, pid);
    seq(Max(|data|, n), i requires 0 <= i =>
      match IndexOf(key, i) case Some(j) => Some(data[j]) case None => None)
  }

  /** Every player sees itself as player 0 and the others rotated after it:
      entry `i` is the datum of player `(i + pid) mod n`, and indices past the
      players are empty. */
  lemma OrderForPlayerRotates<T>(n: nat, pid: int, data: seq<T>)
    requires n > 0 && |data| >= n && 0 <= pid < n
    ensures |OrderForPlayer(n, pid, data)| == |data|
    ensures forall i :: 0 <= i < n ==> OrderForPlayer(n, pid, data)[i] == Some(data[(i + pid) % n])
    ensures forall i :: n <= i < |data| ==> OrderForPlayer(n, pid, data)[i] == None
    ensures OrderForPlayer(n, pid, data)[0] == Some(data[pid])
  {
    forall i | 0 <= i < n
      ensures IndexOf(PerspectiveKey(n, pid), i) == Some((i + pid) % n)
    {
      KeyIndex(n, pid, i);
    }
    forall i | n <= i < |data|
      ensures IndexOf(PerspectiveKey(n, pid), i).None?
    {
      KeyBelow(n, pid);
    }
    ModSmall(pid, n);
  }

  lemma ModSmall(v: int, n: int)
    requires n > 0 && 0 <= v < 2 * n
    ensures v % n == if v >= n then v - n else v
  {
    if v >= n {
      assert v / n == 1;
    } else {
      assert v / n == 0;
    }
  }

  /** Every entry of the key is a player index. */
  lemma KeyBelow(n: nat, pid: int)
    requires n > 0 && 0 <= pid < n
    ensures forall k :: 0 <= k < n ==> 0 <= PerspectiveKey(n, pid)[k] < n
  {
  }

  /** The key entry of player (i + pid) mod n is i, and no other entry is. */
  lemma KeyIndex(n: nat, pid: int, i: int)
    requires n > 0 && 0 <= pid < n && 0 <= i < n
    ensures IndexOf(PerspectiveKey(n, pid), i) == Some((i + pid) % n)
  {
    var key := PerspectiveKey(n, pid);
    var j := (i + pid) % n;
    ModSmall(i + pid, n);
    KeyAt(n, pid, j);
    forall y | y in key[..j] ensures y != i {
      var k :| 0 <= k < j && key[..j][k] == y;
      KeyAt(n, pid, k);
    }
    IndexOfAt(key, i, j);
  }

  /** Entry `k` of the key, without the modulus. */
  lemma KeyAt(n: nat, pid: int, k: int)
    requires n > 0 && 0 <= pid < n && 0 <= k < n
    ensures PerspectiveKey(n, pid)[k] == if k >= pid then k - pid else k + n - pid
  {
    ModSmall(k + n - pid, n);
  }
}
