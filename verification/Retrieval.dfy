/**
 Retrieval metrics of one query over a ranking of its candidates: hit, recall, reciprocal rank
 and DCG against the best possible order, for any positive strictly decreasing discount.
 */
module Retrieval {
  import opened Numbers
  import opened Wrappers

  /** Relevant items among the first `k`. */
  function Hits(rel: seq<bool>, k: nat): nat {
    if rel == [] || k == 0 then 0 else (if rel[0] then 1 else 0) + Hits(rel[1..], k - 1)
  }

  /** P: relevant items anywhere in the ranking. */
  function Positives(rel: seq<bool>): nat {
    Hits(rel, |rel|)
  }

  function Hit(rel: seq<bool>, k: nat): real {
    if Hits(rel, k) > 0 then 1.0 else 0.0
  }

  /** `rec@k`, none (NaN) without a relevant item. */
  function Recall(rel: seq<bool>, k: nat): Option<real> {
    if Positives(rel) > 0 then Some(Hits(rel, k) as real / Positives(rel) as real) else None
  }

  /** `recc@k`: recall against what k places could hold. */
  function CappedRecall(rel: seq<bool>, k: nat): Option<real>
    requires k > 0
  {
    if Positives(rel) > 0 then Some(Hits(rel, k) as real / Min(Positives(rel), k) as real) else None
  }

  /** The place of the first relevant item, the length when there is none. */
  function FirstHit(rel: seq<bool>): (i: nat)
    ensures i <= |rel|
  {
    if rel == [] || rel[0] then 0 else 1 + FirstHit(rel[1..])
  }

  function Mrr(rel: seq<bool>): real {
    if FirstHit(rel) < |rel| then 1.0 / (FirstHit(rel) + 1) as real else 0.0
  }

  // ----- counting hits

  lemma {:induction false} HitsNext(rel: seq<bool>, k: nat)
    requires k < |rel|
    ensures Hits(rel, k + 1) == Hits(rel, k) + if rel[k] then 1 else 0
  {
    if k > 0 { HitsNext(rel[1..], k - 1); }
  }

  lemma {:induction false} HitsBounds(rel: seq<bool>, k: nat, l: nat)
    requires k <= l
    ensures Hits(rel, k) <= k && Hits(rel, k) <= Hits(rel, l) <= Positives(rel)
  {
    if rel != [] && l > 0 {
      HitsBounds(rel[1..], if k == 0 then 0 else k - 1, l - 1);
    }
  }

  lemma {:induction false} HitsAfterFirst(rel: seq<bool>, k: nat)
    ensures Hits(rel, k) > 0 <==> FirstHit(rel) < |rel| && FirstHit(rel) < k
  {
    if rel != [] && k > 0 { HitsAfterFirst(rel[1..], k - 1); }
  }

  function Relevant(rel: seq<bool>, k: nat): set<nat> {
    set i: nat | i < k && i < |rel| && rel[i]
  }

  /** The hits are counted once each. */
  lemma {:induction false} HitsCount(rel: seq<bool>, k: nat)
    requires k <= |rel|
    ensures Hits(rel, k) == |Relevant(rel, k)|
  {
    if k == 0 {
      assert Relevant(rel, 0) == {};
    } else {
      HitsNext(rel, k - 1);
      HitsCount(rel, k - 1);
      assert Relevant(rel, k) == Relevant(rel, k - 1) + if rel[k - 1] then {k - 1} else {};
    }
  }

  // ----- hit, recall, reciprocal rank

  lemma QuotientsOrder(a: nat, b: nat, c: nat)
    requires a <= b && c > 0
    ensures a as real / c as real <= b as real / c as real
  {
  }

  lemma LargerDenominator(a: nat, b: nat, c: nat)
    requires 0 < b <= c
    ensures a as real / c as real <= a as real / b as real
  {
  }

  /** Looking further down never lowers hit or recall. */
  lemma Monotone(rel: seq<bool>, k: nat, l: nat)
    requires k <= l
    ensures Hit(rel, k) <= Hit(rel, l)
    ensures Positives(rel) > 0 ==> Recall(rel, k).value <= Recall(rel, l).value
  {
    HitsBounds(rel, k, l);
    if Positives(rel) > 0 { QuotientsOrder(Hits(rel, k), Hits(rel, l), Positives(rel)); }
  }

  /** Recall is the found share of what there is to find, complete when nothing relevant comes later. */
  lemma RecallIsShare(rel: seq<bool>, k: nat)
    requires k <= |rel|
    ensures Recall(rel, k).Some? <==> Relevant(rel, |rel|) != {}
    ensures var all := |Relevant(rel, |rel|)|;
            Recall(rel, k).Some? ==>
              && all > 0 && Recall(rel, k) == Some(|Relevant(rel, k)| as real / all as real)
              && (Recall(rel, k).value == 1.0 <==> forall i :: k <= i < |rel| ==> !rel[i])
  {
    HitsCount(rel, k);
    HitsCount(rel, |rel|);
    HitsBounds(rel, k, |rel|);
    if Positives(rel) > 0 {
      Fraction(Hits(rel, k) as real, Positives(rel) as real);
      NoneLater(rel, k);
    }
  }

  lemma NoneLater(rel: seq<bool>, k: nat)
    requires k <= |rel|
    ensures |Relevant(rel, k)| == |Relevant(rel, |rel|)| <==> forall i :: k <= i < |rel| ==> !rel[i]
  {
    var some, all := Relevant(rel, k), Relevant(rel, |rel|);
    if i :| k <= i < |rel| && rel[i] {
      assert i in all && some <= all - {i};
      SubsetSize(some, all - {i});
    } else {
      assert some == all;
    }
  }

  lemma SubsetSize(a: set<nat>, b: set<nat>)
    requires a <= b
    ensures |a| <= |b|
  {
    assert b == a + (b - a);
  }

  /** Capped, the found share of what `k` places can hold. */
  lemma CappedRecallIsShare(rel: seq<bool>, k: nat)
    requires 0 < k <= |rel| && Relevant(rel, |rel|) != {}
    ensures var all := |Relevant(rel, |rel|)|;
            all > 0 && CappedRecall(rel, k) == Some(|Relevant(rel, k)| as real / Min(all, k) as real)
  {
    HitsCount(rel, k);
    HitsCount(rel, |rel|);
  }

  lemma RecallBounds(rel: seq<bool>, k: nat)
    requires k > 0 && Positives(rel) > 0
    ensures 0.0 <= Recall(rel, k).value <= CappedRecall(rel, k).value <= 1.0
    ensures CappedRecall(rel, k).value == 1.0 <==> Hits(rel, k) == Min(Positives(rel), k)
  {
    var m := Min(Positives(rel), k);
    HitsBounds(rel, k, k);
    HitsBounds(rel, k, if k <= |rel| then |rel| else k);
    LargerDenominator(Hits(rel, k), m, Positives(rel));
    Fraction(Hits(rel, k) as real, m as real);
    Fraction(Hits(rel, k) as real, Positives(rel) as real);
  }

  /**
   The capped form is not monotone: one place further down it falls exactly when there are more
   relevant items than places so far, some place is filled, and the next one is not.
   */
  lemma CappedRecallDrops(rel: seq<bool>, k: nat)
    requires 0 < k < |rel| && Positives(rel) > 0
    ensures CappedRecall(rel, k + 1).value < CappedRecall(rel, k).value <==>
            k < Positives(rel) && Hits(rel, k) > 0 && !rel[k]
  {
    var h := Hits(rel, k);
    HitsNext(rel, k);
    HitsBounds(rel, k, k + 1);
    if k < Positives(rel) {
      NextFraction(h, if rel[k] then h + 1 else h, k);
    } else {
      QuotientsOrder(h, Hits(rel, k + 1), Positives(rel));
    }
  }

  lemma NextFraction(h: nat, h': nat, k: nat)
    requires h <= k && 0 < k && (h' == h || h' == h + 1)
    ensures h' as real / (k + 1) as real < h as real / k as real <==> h' == h && h > 0
  {
    NextQuotient(h as real, h' as real, k as real);
    assert (k + 1) as real == k as real + 1.0;
  }

  lemma NextQuotient(x: real, x': real, y: real)
    requires 0.0 <= x <= y && 0.0 < y && (x' == x || x' == x + 1.0)
    ensures x' / (y + 1.0) < x / y <==> x' == x && x > 0.0
  {
    var q, q' := x / y, x' / (y + 1.0);
    Unfold(x, y);
    Unfold(x', y + 1.0);
    Fraction(x, y);
    Positive(x, y);
    Compare(q, q', x, x', y);
  }

  lemma Compare(q: real, q': real, x: real, x': real, y: real)
    requires y > 0.0 && q * y == x && q' * (y + 1.0) == x'
    ensures q' < q <==> x' < x + q
  {
    Cancel(q', q, y + 1.0);
    assert q * (y + 1.0) == q * y + q;
  }

  lemma Unfold(x: real, y: real)
    requires y > 0.0
    ensures (x / y) * y == x
  {
  }

  lemma Positive(x: real, y: real)
    requires x >= 0.0 && y > 0.0
    ensures x / y > 0.0 <==> x > 0.0
  {
  }

  lemma Cancel(a: real, b: real, c: real)
    requires c > 0.0
    ensures a * c < b * c <==> a < b
  {
  }

  /** For example, one place filled of one, then one of two. */
  lemma CappedRecallFalls()
    ensures var rel := [true, false, true]; CappedRecall(rel, 1) == Some(1.0) && CappedRecall(rel, 2) == Some(0.5)
  {
    var rel := [true, false, true];
    assert Hits([true], 1) == 1 && Hits([false, true], 2) == 1 && Hits([false, true], 1) == 0;
    assert rel[1..] == [false, true] && [false, true][1..] == [true];
    assert Positives(rel) == 2 && Hits(rel, 1) == 1 && Hits(rel, 2) == 1;
  }

  /** A hit within k places is a reciprocal rank of at least 1/k. */
  lemma HitMeansRank(rel: seq<bool>, k: nat)
    requires k > 0
    ensures Hit(rel, k) == 1.0 <==> Mrr(rel) >= 1.0 / k as real
  {
    HitsAfterFirst(rel, k);
    var f := FirstHit(rel) + 1;
    if f <= k { LargerDenominator(1, f, k); } else { ReciprocalDrops(k, f); }
  }

  /** The reciprocal rank is that of the first relevant item, and 0 without one. */
  lemma MrrIsFirst(rel: seq<bool>)
    ensures forall i: nat :: i < |rel| && rel[i] && (forall j :: 0 <= j < i ==> !rel[j]) ==>
              Mrr(rel) == 1.0 / (i + 1) as real
    ensures (forall i :: 0 <= i < |rel| ==> !rel[i]) ==> Mrr(rel) == 0.0
  {
    FirstHitIs(rel);
  }

  lemma {:induction false} FirstHitIs(rel: seq<bool>)
    ensures FirstHit(rel) < |rel| ==> rel[FirstHit(rel)]
    ensures forall j :: 0 <= j < FirstHit(rel) ==> !rel[j]
  {
    if rel != [] && !rel[0] {
      FirstHitIs(rel[1..]);
      assert forall j :: 0 <= j < |rel[1..]| ==> rel[1..][j] == rel[j + 1];
    }
  }

  lemma ReciprocalDrops(b: nat, c: nat)
    requires 0 < b < c
    ensures 1.0 / c as real < 1.0 / b as real
  {
  }

  // ----- DCG

  /** Positive and strictly decreasing, as 1 / log2(i + 2) is. */
  ghost predicate Discount(d: nat -> real) {
    (forall i: nat :: d(i) > 0.0) && forall i: nat, j: nat :: i < j ==> d(i) > d(j)
  }

  function Dcg(rel: seq<bool>, d: nat -> real, n: nat): real
    requires n <= |rel|
  {
    if n == 0 then 0.0 else Dcg(rel, d, n - 1) + if rel[n - 1] then d(n - 1) else 0.0
  }

  /** A relevant item adds the discount of its place, whatever stands elsewhere; nothing else adds. */
  lemma {:induction false} DcgAdds(rel: seq<bool>, d: nat -> real, n: nat, i: nat)
    requires n <= |rel| && i < |rel|
    ensures Dcg(rel[i := true], d, n) == Dcg(rel[i := false], d, n) + if i < n then d(i) else 0.0
    ensures (forall j :: 0 <= j < n ==> !rel[j]) ==> Dcg(rel, d, n) == 0.0
  {
    if n > 0 { DcgAdds(rel, d, n - 1, i); }
  }

  function Reciprocal(i: nat): real {
    1.0 / (i + 2) as real
  }

  /** Such discounts exist. */
  lemma ReciprocalDiscount()
    ensures Discount(Reciprocal)
  {
    forall i: nat, j: nat | i < j ensures Reciprocal(i) > Reciprocal(j) {
      ReciprocalDrops(i + 2, j + 2);
    }
  }

  /** The ranking with every relevant item first. */
  function Ideal(rel: seq<bool>): (r: seq<bool>)
    ensures |r| == |rel|
  {
    seq(|rel|, i => i < Positives(rel))
  }

  function Depth(rel: seq<bool>, k: nat): nat {
    Min(k, |rel|)
  }

  function Ndcg(rel: seq<bool>, d: nat -> real, k: nat): Option<real> {
    var idcg := Dcg(Ideal(rel), d, Depth(rel, k));
    if idcg > 0.0 then Some(Dcg(rel, d, Depth(rel, k)) / idcg) else None
  }

  /** The discounts of the first `n` places. */
  function Front(d: nat -> real, n: nat): real {
    if n == 0 then 0.0 else Front(d, n - 1) + d(n - 1)
  }

  predicate Filled(rel: seq<bool>, n: nat) {
    n <= |rel| && forall i :: 0 <= i < n ==> rel[i]
  }

  /** However the hits are placed, moving them to the front earns at least as much, and more if they move. */
  lemma {:induction false} FrontIsBest(rel: seq<bool>, d: nat -> real, n: nat)
    requires Discount(d) && n <= |rel|
    ensures Hits(rel, n) <= n
    ensures Dcg(rel, d, n) <= Front(d, Hits(rel, n))
    ensures Dcg(rel, d, n) == Front(d, Hits(rel, n)) <==> Filled(rel, Hits(rel, n))
  {
    if n > 0 {
      FrontIsBest(rel, d, n - 1);
      HitsNext(rel, n - 1);
      if rel[n - 1] { FrontHit(rel, d, n - 1); }
    }
  }

  /** One more hit, at place `n`, is worth what the next place in front is worth, or less. */
  lemma FrontHit(rel: seq<bool>, d: nat -> real, n: nat)
    requires Discount(d) && n < |rel| && rel[n] && Hits(rel, n) <= n
    requires Dcg(rel, d, n) <= Front(d, Hits(rel, n))
    requires Dcg(rel, d, n) == Front(d, Hits(rel, n)) <==> Filled(rel, Hits(rel, n))
    ensures var h := Hits(rel, n) + 1;
            && Dcg(rel, d, n + 1) <= Front(d, h)
            && (Dcg(rel, d, n + 1) == Front(d, h) <==> Filled(rel, h))
  {
    var h := Hits(rel, n);
    assert Dcg(rel, d, n + 1) == Dcg(rel, d, n) + d(n) && Front(d, h + 1) == Front(d, h) + d(h);
    if h < n {
      assert d(h) > d(n);
      NotFilled(rel, h, n);
    }
  }

  /** With fewer than n hits in the first n places, some place is empty. */
  lemma NotFilled(rel: seq<bool>, h: nat, n: nat)
    requires n < |rel| && h == Hits(rel, n) && h < n
    ensures !Filled(rel, h + 1)
  {
    if Filled(rel, h + 1) {
      FilledHits(rel, h + 1);
      HitsBounds(rel, h + 1, n);
    }
  }

  lemma {:induction false} FilledHits(rel: seq<bool>, n: nat)
    requires Filled(rel, n)
    ensures Hits(rel, n) == n
  {
    if n > 0 { FilledHits(rel[1..], n - 1); }
  }

  lemma {:induction false} FrontGrows(d: nat -> real, m: nat, n: nat)
    requires Discount(d) && m <= n
    ensures Front(d, m) <= Front(d, n) && (m < n ==> Front(d, m) < Front(d, n))
  {
    if m < n { FrontGrows(d, m, n - 1); }
  }

  lemma {:induction false} IdealDcg(rel: seq<bool>, d: nat -> real, n: nat)
    requires n <= |rel|
    ensures Dcg(Ideal(rel), d, n) == Front(d, Min(Positives(rel), n))
  {
    if n > 0 { IdealDcg(rel, d, n - 1); }
  }

  /** The ideal ranking has the same number of relevant items. */
  lemma IdealKeepsPositives(rel: seq<bool>)
    ensures Positives(Ideal(rel)) == Positives(rel)
  {
    HitsBounds(rel, |rel|, |rel|);
    IdealHits(rel, |rel|);
  }

  lemma {:induction false} IdealHits(rel: seq<bool>, n: nat)
    requires n <= |rel|
    ensures Hits(Ideal(rel), n) == Min(Positives(rel), n)
  {
    if n > 0 {
      IdealHits(rel, n - 1);
      HitsNext(Ideal(rel), n - 1);
    }
  }

  /**
   The score is at most 1, and 1 exactly when the first min(P, k) places all hold relevant
   items; it exists exactly when there is something to find.
   */
  lemma NdcgBounded(rel: seq<bool>, d: nat -> real, k: nat)
    requires Discount(d) && k > 0
    ensures Ndcg(rel, d, k).Some? <==> Positives(rel) > 0
    ensures Positives(rel) > 0 ==> 0.0 <= Ndcg(rel, d, k).value <= 1.0
    ensures Positives(rel) > 0 ==> (Ndcg(rel, d, k) == Some(1.0) <==> Filled(rel, Min(Positives(rel), k)))
  {
    var n, p := Depth(rel, k), Positives(rel);
    HitsBounds(rel, n, |rel|);
    IdealDcg(rel, d, n);
    FrontIsBest(rel, d, n);
    FrontGrows(d, 0, Min(p, n));
    FrontGrows(d, Hits(rel, n), Min(p, n));
    if p > 0 {
      DcgPositive(rel, d, n);
      Fraction(Dcg(rel, d, n), Front(d, Min(p, n)));
      assert Min(p, n) == Min(p, k);
      if Filled(rel, Min(p, k)) {
        FilledHits(rel, Min(p, k));
        HitsBounds(rel, Min(p, k), n);
      }
    }
  }

  /** The score is the gain over the first k places against that of the first places filled. */
  lemma NdcgIsShare(rel: seq<bool>, d: nat -> real, k: nat)
    requires Discount(d) && k > 0 && Positives(rel) > 0
    ensures var depth := Min(k, |rel|);
            var best := Front(d, Min(Positives(rel), depth));
            best > 0.0 && Ndcg(rel, d, k) == Some(Dcg(rel, d, depth) / best)
  {
    IdealDcg(rel, d, Depth(rel, k));
    FrontGrows(d, 0, Min(Positives(rel), Depth(rel, k)));
  }

  lemma {:induction false} DcgPositive(rel: seq<bool>, d: nat -> real, n: nat)
    requires Discount(d) && n <= |rel|
    ensures Dcg(rel, d, n) >= 0.0
  {
    if n > 0 { DcgPositive(rel, d, n - 1); }
  }

  lemma Fraction(x: real, y: real)
    requires 0.0 <= x <= y && 0.0 < y
    ensures 0.0 <= x / y <= 1.0 && (x / y == 1.0 <==> x == y)
  {
  }
}
