/** Step 3: `scores.argsort()[-3:][::-1]`, the positions of the (at most)
    three best-scoring candidates, best first. The similarity scores are
    opaque ordered values here. */
module Ranking {

  predicate InRange(s: seq<nat>, n: nat)
  {
    forall k :: 0 <= k < |s| ==> s[k] < n
  }

  predicate Distinct(s: seq<nat>)
  {
    forall k, l :: 0 <= k < l < |s| ==> s[k] != s[l]
  }

  /** Ascending by score along the index sequence. */
  predicate Ascending(scores: seq<int>, s: seq<nat>)
    requires InRange(s, |scores|)
  {
    forall k, l :: 0 <= k < l < |s| ==> scores[s[k]] <= scores[s[l]]
  }

  /** Inserts index `i` into an index sequence kept ascending by score. */
  function Insert(scores: seq<int>, i: nat, s: seq<nat>): (r: seq<nat>)
    requires i < |scores| && InRange(s, |scores|)
    ensures |r| == |s| + 1 && InRange(r, |scores|)
    ensures forall j :: j in r <==> j == i || j in s
  {
    if s == [] then [i]
    else if scores[i] <= scores[s[0]] then [i] + s
    else [s[0]] + Insert(scores, i, s[1..])
  }

  lemma {:induction false} InsertDistinct(scores: seq<int>, i: nat, s: seq<nat>)
    requires i < |scores| && InRange(s, |scores|)
    requires i !in s && Distinct(s)
    ensures Distinct(Insert(scores, i, s))
  {
    if s != [] && scores[i] > scores[s[0]] {
      InsertDistinct(scores, i, s[1..]);
      var t := Insert(scores, i, s[1..]);
      assert s[0] !in s[1..];
      assert s[0] !in t;
      assert forall k :: 1 <= k < |t| + 1 ==> ([s[0]] + t)[k] == t[k - 1];
    }
  }

  lemma {:induction false} InsertAscending(scores: seq<int>, i: nat, s: seq<nat>)
    requires i < |scores| && InRange(s, |scores|)
    requires Ascending(scores, s)
    ensures Ascending(scores, Insert(scores, i, s))
  {
    if s != [] && scores[i] > scores[s[0]] {
      InsertAscending(scores, i, s[1..]);
      var t := Insert(scores, i, s[1..]);
      forall j | j in t
        ensures scores[s[0]] <= scores[j]
      {
        if j != i {
          var k :| 0 <= k < |s[1..]| && s[1..][k] == j;
          assert s[k + 1] == j;
        }
      }
      assert forall k :: 1 <= k < |t| + 1 ==> ([s[0]] + t)[k] == t[k - 1];
    }
  }

  /** The argsort of `scores[from..]`, as absolute positions. */
  function ArgSortFrom(scores: seq<int>, from: nat): (r: seq<nat>)
    requires from <= |scores|
    ensures |r| == |scores| - from && InRange(r, |scores|)
    ensures forall j :: j in r <==> from <= j < |scores|
    ensures Distinct(r) && Ascending(scores, r)
    decreases |scores| - from
  {
    if from == |scores| then []
    else
      var rest := ArgSortFrom(scores, from + 1);
      InsertDistinct(scores, from, rest);
      InsertAscending(scores, from, rest);
      Insert(scores, from, rest)
  }

  /** `scores.argsort()`: a permutation of the positions, ascending by score;
      the order among equal scores is not promised. */
  function ArgSort(scores: seq<int>): (r: seq<nat>)
    ensures |r| == |scores| && InRange(r, |scores|) && Distinct(r)
    ensures forall j :: j in r <==> 0 <= j < |scores|
    ensures Ascending(scores, r)
  {
    ArgSortFrom(scores, 0)
  }

  function Min(a: int, b: int): int
  {
    if a <= b then a else b
  }

  function Reverse(s: seq<nat>): seq<nat>
  {
    seq(|s|, k requires 0 <= k < |s| => s[|s| - 1 - k])
  }

  /** The last min(3, n) entries of an index list, best first. */
  function ReversedTail(order: seq<nat>): seq<nat>
  {
    Reverse(order[|order| - Min(3, |order|)..])
  }

  /** Taken from an ascending permutation of the positions, the reversed
      tail holds min(3, n) distinct positions with non-increasing scores. */
  lemma ReversedTailIsOrdered(scores: seq<int>, order: seq<nat>)
    requires |order| == |scores| && InRange(order, |scores|) && Distinct(order)
    requires Ascending(scores, order)
    ensures var top := ReversedTail(order);
      |top| == Min(3, |scores|) && InRange(top, |scores|) && Distinct(top) &&
      (forall k, l :: 0 <= k < l < |top| ==> scores[top[k]] >= scores[top[l]])
  {
    var n := |order|;
    var top := ReversedTail(order);
    assert forall k :: 0 <= k < |top| ==> top[k] == order[n - 1 - k];
  }

  /** Taken from an ascending permutation of the positions, no position left
      out of the reversed tail scores higher than a position in it. */
  lemma ReversedTailDominates(scores: seq<int>, order: seq<nat>)
    requires |order| == |scores| && InRange(order, |scores|)
    requires forall j :: j in order <==> 0 <= j < |scores|
    requires Ascending(scores, order)
    ensures var top := ReversedTail(order);
      forall u, k :: 0 <= u < |scores| && u !in top && 0 <= k < |top| ==> scores[u] <= scores[top[k]]
  {
    var n := |order|;
    var m := Min(3, n);
    var top := ReversedTail(order);
    assert forall k :: 0 <= k < m ==> top[k] == order[n - 1 - k];
    assert forall p :: n - m <= p < n ==> order[p] == top[n - 1 - p];
    forall u, k | 0 <= u < |scores| && u !in top && 0 <= k < |top|
      ensures scores[u] <= scores[top[k]]
    {
      assert u in order;
      var p :| 0 <= p < n && order[p] == u;
      assert p < n - m;
      assert order[n - 1 - k] == top[k];
    }
  }

  /** `scores.argsort()[-3:][::-1]`: min(3, n) distinct positions within the
      scores, their scores not increasing along the result, and no position
      left out scoring higher than any position taken. No order among equal
      scores is promised. */
  function TopThree(scores: seq<int>): (top: seq<nat>)
    ensures |top| == Min(3, |scores|) && InRange(top, |scores|) && Distinct(top)
    ensures forall k, l :: 0 <= k < l < |top| ==> scores[top[k]] >= scores[top[l]]
    ensures forall u, k :: 0 <= u < |scores| && u !in top && 0 <= k < |top| ==> scores[u] <= scores[top[k]]
  {
    var order := ArgSort(scores);
    ReversedTailIsOrdered(scores, order);
    ReversedTailDominates(scores, order);
    ReversedTail(order)
  }
}
