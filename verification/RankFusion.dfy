/**
 Reciprocal rank fusion: ranks by a double stable argsort, then a weighted sum of reciprocal
 ranks over the score lists.
 */
module RankFusion {
  import opened Wrappers

  // ----- stable argsort

  /** Ascending by key, ties by index. */
  predicate Before(keys: seq<real>, i: nat, j: nat)
    requires i < |keys| && j < |keys|
  {
    keys[i] < keys[j] || (keys[i] == keys[j] && i < j)
  }

  predicate InRange(p: seq<nat>, n: nat) {
    forall a :: 0 <= a < |p| ==> p[a] < n
  }

  /** Puts index `x` where it belongs among the sorted indices `p`. */
  function Insert(keys: seq<real>, p: seq<nat>, x: nat): (r: seq<nat>)
    requires x < |keys| && InRange(p, |keys|)
    ensures InRange(r, |keys|) && |r| == |p| + 1
  {
    if p == [] then [x]
    else if Before(keys, x, p[0]) then [x] + p
    else [p[0]] + Insert(keys, p[1..], x)
  }

  function ArgSortPrefix(keys: seq<real>, n: nat): (p: seq<nat>)
    requires n <= |keys|
    ensures InRange(p, |keys|) && |p| == n
  {
    if n == 0 then [] else Insert(keys, ArgSortPrefix(keys, n - 1), n - 1)
  }

  /** `argsort(keys, kind="stable")`. */
  function ArgSort(keys: seq<real>): (p: seq<nat>)
    ensures |p| == |keys| && InRange(p, |keys|)
  {
    ArgSortPrefix(keys, |keys|)
  }

  ghost predicate Sorted(keys: seq<real>, p: seq<nat>) {
    InRange(p, |keys|) && forall a, b :: 0 <= a < b < |p| ==> Before(keys, p[a], p[b])
  }

  lemma {:induction false} InsertSorts(keys: seq<real>, p: seq<nat>, x: nat)
    requires x < |keys| && Sorted(keys, p) && x !in p
    ensures Sorted(keys, Insert(keys, p, x))
    ensures forall y :: y in Insert(keys, p, x) <==> y in p || y == x
  {
    if p != [] && !Before(keys, x, p[0]) {
      var tail := p[1..];
      InsertSorts(keys, tail, x);
      assert p == [p[0]] + tail;
      var r := Insert(keys, tail, x);
      forall b | 0 <= b < |r| ensures Before(keys, p[0], r[b]) {
        assert r[b] in r;
        if r[b] != x { var c :| 0 <= c < |tail| && tail[c] == r[b]; }
      }
    }
  }

  lemma {:induction false} PrefixSorts(keys: seq<real>, n: nat)
    requires n <= |keys|
    ensures Sorted(keys, ArgSortPrefix(keys, n))
    ensures forall i: nat :: i in ArgSortPrefix(keys, n) <==> i < n
  {
    if n > 0 {
      PrefixSorts(keys, n - 1);
      InsertSorts(keys, ArgSortPrefix(keys, n - 1), n - 1);
    }
  }

  /** Every index exactly once. */
  ghost predicate Permutation(p: seq<nat>) {
    && (forall i: nat :: i in p <==> i < |p|)
    && forall a, b :: 0 <= a < b < |p| ==> p[a] != p[b]
  }

  lemma ArgSortPermutes(keys: seq<real>)
    ensures Permutation(ArgSort(keys)) && Sorted(keys, ArgSort(keys))
  {
    PrefixSorts(keys, |keys|);
  }

  // ----- the double argsort

  function Reals(p: seq<nat>): (r: seq<real>)
    ensures |r| == |p| && forall a :: 0 <= a < |p| ==> r[a] == p[a] as real
  {
    seq(|p|, a requires 0 <= a < |p| => p[a] as real)
  }

  lemma {:induction false} IncreasingAbove(v: seq<nat>, k: nat)
    requires k < |v| && forall a, b :: 0 <= a < b < |v| ==> v[a] < v[b]
    ensures v[k] >= k
  {
    if k > 0 { IncreasingAbove(v, k - 1); }
  }

  lemma {:induction false} IncreasingBelow(v: seq<nat>, k: nat)
    requires k < |v| && InRange(v, |v|) && forall a, b :: 0 <= a < b < |v| ==> v[a] < v[b]
    ensures v[k] <= k
    decreases |v| - k
  {
    if k + 1 < |v| { IncreasingBelow(v, k + 1); }
  }

  /** Sorting a permutation gives its inverse. */
  lemma ArgSortInverts(p: seq<nat>, k: nat)
    requires Permutation(p) && k < |p|
    ensures p[k] < |p|
    ensures var q := ArgSort(Reals(p)); p[q[k]] == k && q[p[k]] == k
  {
    var q := ArgSort(Reals(p));
    ArgSortPermutes(Reals(p));
    forall a | 0 <= a < |p| ensures p[a] < |p| { assert p[a] in p; }
    SortedValues(p, q, k);
    SortedValues(p, q, p[k]);
  }

  lemma SortedValues(p: seq<nat>, q: seq<nat>, k: nat)
    requires |q| == |p| && InRange(p, |p|) && Sorted(Reals(p), q) && k < |p|
    requires forall a, b :: 0 <= a < b < |p| ==> p[a] != p[b]
    ensures p[q[k]] == k
  {
    var v := seq(|p|, a requires 0 <= a < |p| && InRange(q, |p|) => p[q[a]]);
    forall a, b | 0 <= a < b < |v| ensures v[a] < v[b] {
      assert Before(Reals(p), q[a], q[b]);
    }
    IncreasingAbove(v, k);
    IncreasingBelow(v, k);
  }

  function Negated(s: seq<real>): (r: seq<real>)
    ensures |r| == |s| && forall i :: 0 <= i < |s| ==> r[i] == -s[i]
  {
    seq(|s|, i requires 0 <= i < |s| => -s[i])
  }

  /** `argsort(argsort(-s)) + 1` over one row of scores. */
  function Ranks(s: seq<real>): (r: seq<nat>)
    ensures |r| == |s|
  {
    var q := ArgSort(Reals(ArgSort(Negated(s))));
    seq(|s|, i requires 0 <= i < |s| => q[i] + 1)
  }

  /** Higher score first, earlier column on a tie. */
  predicate Better(s: seq<real>, i: nat, j: nat)
    requires i < |s| && j < |s|
  {
    s[i] > s[j] || (s[i] == s[j] && i < j)
  }

  /** A column's rank is its place in the sorted order, counted from one. */
  lemma RankIsPlace(s: seq<real>, i: nat)
    requires i < |s|
    ensures var r := Ranks(s)[i]; 1 <= r <= |s| && ArgSort(Negated(s))[r - 1] == i
  {
    var p := ArgSort(Negated(s));
    ArgSortPermutes(Negated(s));
    ArgSortPermutes(Reals(p));
    ArgSortInverts(p, i);
  }

  /** Ranks run through 1..n, each once, in the order of score and then column. */
  lemma RanksOrder(s: seq<real>, i: nat, j: nat)
    requires i < |s| && j < |s|
    ensures Ranks(s)[i] < Ranks(s)[j] <==> Better(s, i, j)
    ensures i != j ==> Ranks(s)[i] != Ranks(s)[j]
  {
    RankIsPlace(s, i);
    RankIsPlace(s, j);
    ArgSortPermutes(Negated(s));
    var p, a, b := ArgSort(Negated(s)), Ranks(s)[i] - 1, Ranks(s)[j] - 1;
    assert a < b ==> Before(Negated(s), p[a], p[b]);
    assert b < a ==> Before(Negated(s), p[b], p[a]);
  }

  lemma EveryRankTaken(s: seq<real>, r: nat)
    requires 1 <= r <= |s|
    ensures exists i :: 0 <= i < |s| && Ranks(s)[i] == r
  {
    var p := ArgSort(Negated(s));
    ArgSortPermutes(Negated(s));
    ArgSortInverts(p, r - 1);
    assert p[r - 1] in p;
    assert Ranks(s)[p[r - 1]] == r;
  }

  // ----- fusion

  const K := 60

  /** The weights in use: ones when none are given. */
  function WeightsFor(weights: seq<real>, n: nat): seq<real> {
    if weights == [] then seq(n, _ => 1.0) else weights
  }

  /** What one list contributes to column `i`. */
  function Share(s: seq<real>, w: real, i: nat): real
    requires i < |s|
  {
    w / (K + Ranks(s)[i]) as real
  }

  /** The fused score of column `i` over the first `n` lists. */
  function Fused(scores: seq<seq<real>>, weights: seq<real>, n: nat, i: nat): real
    requires n <= |scores| && n <= |weights| && forall l :: 0 <= l < n ==> i < |scores[l]|
  {
    if n == 0 then 0.0
    else Fused(scores, weights, n - 1, i) + Share(scores[n - 1], weights[n - 1], i)
  }

  lemma FusedNext(scores: seq<seq<real>>, weights: seq<real>, n: nat, i: nat)
    requires 0 < n <= |scores| && n <= |weights| && forall l :: 0 <= l < n ==> i < |scores[l]|
    ensures Fused(scores, weights, n, i) == Fused(scores, weights, n - 1, i) + Share(scores[n - 1], weights[n - 1], i)
  {
  }

  /** Lists and weights are paired up as far as both go. */
  function Paired(scores: seq<seq<real>>, weights: seq<real>): nat {
    if |scores| <= |weights| then |scores| else |weights|
  }

  /** `out + w / (k + ranks)`, column by column. */
  function Add(out: seq<real>, ranks: seq<nat>, w: real): (r: seq<real>)
    requires |ranks| == |out|
    ensures |r| == |out| && forall i :: 0 <= i < |r| ==> r[i] == out[i] + w / (K + ranks[i]) as real
  {
    seq(|out|, i requires 0 <= i < |out| => out[i] + w / (K + ranks[i]) as real)
  }

  ghost predicate FusedRow(scores: seq<seq<real>>, weights: seq<real>, n: nat, out: seq<real>) {
    && n <= |scores| && n <= |weights| && (forall l :: 0 <= l < n ==> |scores[l]| == |out|)
    && forall i :: 0 <= i < |out| ==> out[i] == Fused(scores, weights, n, i)
  }

  lemma AddFuses(scores: seq<seq<real>>, weights: seq<real>, n: nat, out: seq<real>)
    requires FusedRow(scores, weights, n, out) && n < |scores| && n < |weights| && |scores[n]| == |out|
    ensures FusedRow(scores, weights, n + 1, Add(out, Ranks(scores[n]), weights[n]))
  {
  }

  /** `rrf` for one row: every list has the same columns. */
  method Rrf(scores: seq<seq<real>>, givenWeights: seq<real>) returns (out: seq<real>)
    requires scores != [] && forall l :: 0 <= l < |scores| ==> |scores[l]| == |scores[0]|
    ensures var weights := WeightsFor(givenWeights, |scores|);
            |out| == |scores[0]| && FusedRow(scores, weights, Paired(scores, weights), out)
  {
    var weights := WeightsFor(givenWeights, |scores|);
    out := seq(|scores[0]|, _ => 0.0);
    for l := 0 to Paired(scores, weights)
      invariant |out| == |scores[0]| && FusedRow(scores, weights, l, out)
    {
      AddFuses(scores, weights, l, out);
      out := Add(out, Ranks(scores[l]), weights[l]);
    }
  }

  /** One more list adds its weight over 60 plus the rank it gives the column. */
  lemma FusedAdds(scores: seq<seq<real>>, weights: seq<real>, s: seq<real>, w: real, i: nat)
    requires |scores| == |weights| && i < |s| && forall l :: 0 <= l < |scores| ==> i < |scores[l]|
    ensures Fused(scores + [s], weights + [w], |scores| + 1, i) ==
            Fused(scores, weights, |scores|, i) + w / (60 + Ranks(s)[i]) as real
  {
    var n, more, weighted := |scores|, scores + [s], weights + [w];
    FusedPrefix(scores, weights, more, weighted, n, i);
    assert more[n] == s && weighted[n] == w;
    FusedNext(more, weighted, n + 1, i);
  }

  lemma {:induction false} FusedPrefix(a: seq<seq<real>>, v: seq<real>, b: seq<seq<real>>, w: seq<real>, n: nat, i: nat)
    requires n <= |a| <= |b| && n <= |v| <= |w| && forall l :: 0 <= l < n ==> i < |a[l]|
    requires forall l :: 0 <= l < n ==> b[l] == a[l] && w[l] == v[l]
    ensures Fused(a, v, n, i) == Fused(b, w, n, i)
  {
    if n > 0 {
      FusedPrefix(a, v, b, w, n - 1, i);
      assert b[n - 1] == a[n - 1] && w[n - 1] == v[n - 1];
    }
  }

  /** Without weights every list counts once, and none is left out; given ones are taken as they are. */
  lemma DefaultWeights(scores: seq<seq<real>>, weights: seq<real>)
    ensures WeightsFor([], |scores|) == seq(|scores|, _ => 1.0) && Paired(scores, WeightsFor([], |scores|)) == |scores|
    ensures weights != [] ==> WeightsFor(weights, |scores|) == weights
  {
  }

  /** So a single unweighted list gives its best column 1/61, the next 1/62, and so on. */
  lemma OneListFused(s: seq<real>, i: nat)
    requires i < |s|
    ensures Fused([s], WeightsFor([], 1), 1, i) == 1.0 / (60 + Ranks(s)[i]) as real
  {
    FusedAdds([], [], s, 1.0, i);
    assert [] + [s] == [s] && WeightsFor([], 1) == [] + [1.0];
  }

  lemma ReciprocalOrder(w: real, a: nat, b: nat)
    requires w > 0.0 && 0 < a < b
    ensures w / a as real > w / b as real
  {
  }

  lemma BetterEarnsMore(s: seq<real>, w: real, i: nat, j: nat)
    requires i < |s| && j < |s| && w > 0.0 && Better(s, i, j)
    ensures Share(s, w, i) > Share(s, w, j)
  {
    RanksOrder(s, i, j);
    ReciprocalOrder(w, K + Ranks(s)[i], K + Ranks(s)[j]);
  }

  /** A column better than another in every list is strictly better after fusion. */
  lemma {:induction false} FusionKeepsDominance(scores: seq<seq<real>>, weights: seq<real>, n: nat, i: nat, j: nat)
    requires n <= |scores| && n <= |weights| && forall l :: 0 <= l < n ==> i < |scores[l]| && j < |scores[l]|
    requires forall l :: 0 <= l < n ==> weights[l] > 0.0 && Better(scores[l], i, j)
    ensures Fused(scores, weights, n, i) >= Fused(scores, weights, n, j)
    ensures n > 0 ==> Fused(scores, weights, n, i) > Fused(scores, weights, n, j)
  {
    if n > 0 {
      FusionKeepsDominance(scores, weights, n - 1, i, j);
      BetterEarnsMore(scores[n - 1], weights[n - 1], i, j);
      FusedNext(scores, weights, n, i);
      FusedNext(scores, weights, n, j);
    }
  }
}
