/**
 Scoring a predicted verdict against the gold one: the greedy one-to-one matching of
 findings and acceptance-criteria rows, and the F1 score it feeds. Predictions and gold
 rows are represented by their positions; `hit[i][j]` says that prediction `i` matches
 gold row `j` under the predicate in use.
 */
module VerdictScore {
  import opened Numbers
  import opened Wrappers

  // ----- the greedy matching, as a function

  /** The first gold row from `j` on that is free and matches. */
  function FirstFree<P, G>(p: P, gold: seq<G>, used: set<nat>, hit: (P, G) -> bool, j: nat): (r: Option<nat>)
    requires j <= |gold|
    ensures r.Some? ==> j <= r.value < |gold| && r.value !in used && hit(p, gold[r.value])
    ensures forall k :: j <= k < (if r.Some? then r.value else |gold|) ==> k in used || !hit(p, gold[k])
    decreases |gold| - j
  {
    if j == |gold| then None
    else if j !in used && hit(p, gold[j]) then Some(j)
    else FirstFree(p, gold, used, hit, j + 1)
  }

  /** The pairs taken when the first `n` predictions have been served in order. */
  function Greedy<P, G>(pred: seq<P>, gold: seq<G>, hit: (P, G) -> bool, n: nat): set<(nat, nat)>
    requires n <= |pred|
  {
    if n == 0 then {}
    else
      var m := Greedy(pred, gold, hit, n - 1);
      match FirstFree(pred[n - 1], gold, Golds(m), hit, 0)
      case None => m
      case Some(j) => m + {(n - 1, j)}
  }

  function Golds(m: set<(nat, nat)>): set<nat> {
    set e | e in m :: e.1
  }

  function Preds(m: set<(nat, nat)>): set<nat> {
    set e | e in m :: e.0
  }

  ghost predicate Marks(used: seq<bool>, taken: set<nat>) {
    forall j :: 0 <= j < |used| ==> (used[j] <==> j in taken)
  }

  /** The inner loop of `score_pair`: the first free matching gold row is taken. */
  method Serve<P, G>(p: P, gold: seq<G>, hit: (P, G) -> bool, used: array<bool>, ghost taken: set<nat>)
    returns (choice: Option<nat>)
    requires used.Length == |gold| && Marks(used[..], taken)
    modifies used
    ensures choice == FirstFree(p, gold, taken, hit, 0)
    ensures Marks(used[..], if choice.Some? then taken + {choice.value} else taken)
  {
    var j := 0;
    while j < |gold|
      invariant 0 <= j <= |gold|
      invariant Marks(used[..], taken)
      invariant FirstFree(p, gold, taken, hit, j) == FirstFree(p, gold, taken, hit, 0)
    {
      if !used[j] && hit(p, gold[j]) {
        used[j] := true;
        return Some(j);
      }
      j := j + 1;
    }
    return None;
  }

  /** `score_pair`'s loop over one kind of row: `used` marks the gold rows already taken. */
  method CountMatches<P, G>(pred: seq<P>, gold: seq<G>, hit: (P, G) -> bool) returns (tp: nat)
    ensures tp == |Greedy(pred, gold, hit, |pred|)|
  {
    var used := new bool[|gold|](_ => false);
    tp := 0;
    var i := 0;
    while i < |pred|
      invariant 0 <= i <= |pred|
      invariant tp == |Greedy(pred, gold, hit, i)|
      invariant Marks(used[..], Golds(Greedy(pred, gold, hit, i)))
    {
      ghost var m := Greedy(pred, gold, hit, i);
      GreedyNext(pred, gold, hit, i);
      var choice := Serve(pred[i], gold, hit, used, Golds(m));
      if choice.Some? { tp := tp + 1; }
      i := i + 1;
    }
  }

  lemma GreedyNext<P, G>(pred: seq<P>, gold: seq<G>, hit: (P, G) -> bool, n: nat)
    requires n < |pred|
    ensures var m, more := Greedy(pred, gold, hit, n), Greedy(pred, gold, hit, n + 1);
      match FirstFree(pred[n], gold, Golds(m), hit, 0)
      case None => more == m
      case Some(j) => |more| == |m| + 1 && Golds(more) == Golds(m) + {j}
  {
    var m := Greedy(pred, gold, hit, n);
    GreedyValid(pred, gold, hit, n);
    match FirstFree(pred[n], gold, Golds(m), hit, 0)
    case None =>
    case Some(j) =>
      assert (n, j) !in m;
      GoldsAdd(m, (n, j));
  }

  lemma GoldsAdd(m: set<(nat, nat)>, e: (nat, nat))
    ensures Golds(m + {e}) == Golds(m) + {e.1} && Preds(m + {e}) == Preds(m) + {e.0}
  {
  }

  // ----- one-to-one matchings

  /** A set of matching pairs in which no prediction and no gold row occurs twice. */
  ghost predicate Matching<P, G>(pred: seq<P>, gold: seq<G>, hit: (P, G) -> bool, m: set<(nat, nat)>) {
    && (forall e :: e in m ==> e.0 < |pred| && e.1 < |gold| && hit(pred[e.0], gold[e.1]))
    && OneToOne(m)
  }

  ghost predicate OneToOne(m: set<(nat, nat)>) {
    forall d, e :: d in m && e in m && (d.0 == e.0 || d.1 == e.1) ==> d == e
  }

  lemma {:induction false} GreedyValid<P, G>(pred: seq<P>, gold: seq<G>, hit: (P, G) -> bool, n: nat)
    requires n <= |pred|
    ensures Matching(pred, gold, hit, Greedy(pred, gold, hit, n))
    ensures forall e :: e in Greedy(pred, gold, hit, n) ==> e.0 < n
  {
    if n > 0 {
      GreedyValid(pred, gold, hit, n - 1);
    }
  }

  /** Nothing is left over: an unserved prediction and a free gold row never match. */
  lemma {:induction false} GreedyMaximal<P, G>(pred: seq<P>, gold: seq<G>, hit: (P, G) -> bool, n: nat, i: nat, j: nat)
    requires i < n <= |pred| && j < |gold|
    requires i !in Preds(Greedy(pred, gold, hit, n)) && j !in Golds(Greedy(pred, gold, hit, n))
    ensures !hit(pred[i], gold[j])
  {
    var m := Greedy(pred, gold, hit, n - 1);
    assert m <= Greedy(pred, gold, hit, n);
    if i < n - 1 {
      GreedyMaximal(pred, gold, hit, n - 1, i, j);
    } else {
      var choice := FirstFree(pred[i], gold, Golds(m), hit, 0);
      assert forall k :: (i, k) !in Greedy(pred, gold, hit, n);
      assert Golds(m) <= Golds(Greedy(pred, gold, hit, n));
    }
  }

  lemma {:induction false} ImageSize(m: set<(nat, nat)>)
    requires OneToOne(m)
    ensures |Golds(m)| == |m| && |Preds(m)| == |m|
  {
    if m != {} {
      var e :| e in m;
      ImageSize(m - {e});
      WithRow(m, e);
    }
  }

  lemma WithRow(m: set<(nat, nat)>, e: (nat, nat))
    requires e in m
    ensures Golds(m) == Golds(m - {e}) + {e.1} && Preds(m) == Preds(m - {e}) + {e.0}
    ensures |m| == |m - {e}| + 1
  {
  }

  lemma SubsetSize<T>(a: set<T>, b: set<T>)
    requires a <= b
    ensures |a| <= |b|
  {
    assert b == a + (b - a);
  }

  /**
   Even for a predicate that is no equivalence, greedy finds at least half of what any
   one-to-one matching could: every pair of the other matching touches a greedy pair.
   */
  lemma GreedyAtLeastHalf<P, G>(pred: seq<P>, gold: seq<G>, hit: (P, G) -> bool, m: set<(nat, nat)>)
    requires Matching(pred, gold, hit, m)
    ensures |m| <= 2 * |Greedy(pred, gold, hit, |pred|)|
  {
    var g := Greedy(pred, gold, hit, |pred|);
    GreedyValid(pred, gold, hit, |pred|);
    ImageSize(g);
    forall e | e in m ensures e.0 in Preds(g) || e.1 in Golds(g) {
      if e.0 !in Preds(g) && e.1 !in Golds(g) {
        GreedyMaximal(pred, gold, hit, |pred|, e.0, e.1);
      }
    }
    TouchedSize(m, Preds(g), Golds(g));
  }

  lemma TouchedSize(m: set<(nat, nat)>, preds: set<nat>, golds: set<nat>)
    requires OneToOne(m) && forall e :: e in m ==> e.0 in preds || e.1 in golds
    ensures |m| <= |preds| + |golds|
  {
    var left := set e | e in m && e.0 in preds;
    var right := set e | e in m && e.1 in golds;
    assert m == left + right;
    ImageSize(left);
    ImageSize(right);
    SubsetSize(Preds(left), preds);
    SubsetSize(Golds(right), golds);
  }

  // ----- predicates that compare keys

  /** The keys standing at the positions of `at` below `n`, with multiplicity. */
  function Select<K>(keys: seq<K>, at: set<nat>, n: nat): multiset<K>
    requires n <= |keys|
  {
    if n == 0 then multiset{}
    else if n - 1 in at then Select(keys, at, n - 1) + multiset{keys[n - 1]}
    else Select(keys, at, n - 1)
  }

  lemma {:induction false} SelectAdd<K>(keys: seq<K>, at: set<nat>, n: nat, p: nat)
    requires n <= |keys| && p !in at
    ensures p >= n ==> Select(keys, at + {p}, n) == Select(keys, at, n)
    ensures p < n ==> Select(keys, at + {p}, n) == Select(keys, at, n) + multiset{keys[p]}
  {
    if n > 0 {
      SelectAdd(keys, at, n - 1, p);
    }
  }

  /** Selecting takes at most what is there, and all of a key when all its positions are taken. */
  lemma {:induction false} SelectPart<K>(keys: seq<K>, at: set<nat>, n: nat, k: K)
    requires n <= |keys|
    ensures Select(keys, at, n)[k] <= multiset(keys[..n])[k]
    ensures (forall i :: 0 <= i < n && keys[i] == k ==> i in at) ==> Select(keys, at, n)[k] == multiset(keys[..n])[k]
  {
    if n > 0 {
      SelectPart(keys, at, n - 1, k);
      CountOneMore(keys, n, k);
    } else {
      assert keys[..0] == [];
    }
  }

  lemma CountOneMore<K>(keys: seq<K>, n: nat, k: K)
    requires 0 < n <= |keys|
    ensures multiset(keys[..n])[k] == multiset(keys[..n - 1])[k] + if keys[n - 1] == k then 1 else 0
  {
    assert keys[..n] == keys[..n - 1] + [keys[n - 1]];
  }

  lemma SelectWhole<K>(keys: seq<K>, at: set<nat>, k: K)
    ensures Select(keys, at, |keys|)[k] <= multiset(keys)[k]
    ensures (forall i :: 0 <= i < |keys| && keys[i] == k ==> i in at) ==> Select(keys, at, |keys|)[k] == multiset(keys)[k]
  {
    SelectPart(keys, at, |keys|, k);
    assert keys[..|keys|] == keys;
  }

  ghost predicate SameKeys<K>(pk: seq<K>, gk: seq<K>, m: set<(nat, nat)>) {
    OneToOne(m) && forall e :: e in m ==> e.0 < |pk| && e.1 < |gk| && pk[e.0] == gk[e.1]
  }

  /** A matching by equal keys selects the same keys on both sides, one per pair. */
  lemma {:induction false} MatchedKeys<K>(pk: seq<K>, gk: seq<K>, m: set<(nat, nat)>)
    requires SameKeys(pk, gk, m)
    ensures Select(pk, Preds(m), |pk|) == Select(gk, Golds(m), |gk|)
    ensures |Select(gk, Golds(m), |gk|)| == |m|
  {
    if m == {} {
      assert Preds(m) == {} && Golds(m) == {};
      SelectNone(pk, |pk|);
      SelectNone(gk, |gk|);
    } else {
      var e :| e in m;
      var rest := m - {e};
      MatchedKeys(pk, gk, rest);
      GoldsAdd(rest, e);
      assert m == rest + {e};
      assert e.0 !in Preds(rest) && e.1 !in Golds(rest);
      SelectAdd(pk, Preds(rest), |pk|, e.0);
      SelectAdd(gk, Golds(rest), |gk|, e.1);
    }
  }

  lemma {:induction false} SelectNone<K>(keys: seq<K>, n: nat)
    requires n <= |keys|
    ensures Select(keys, {}, n) == multiset{}
  {
    if n > 0 { SelectNone(keys, n - 1); }
  }

  lemma SubmultisetSize<K>(a: multiset<K>, b: multiset<K>)
    requires a <= b
    ensures |a| <= |b|
  {
    assert b == a + (b - a);
  }

  /** No one-to-one matching by equal keys is larger than the multiset intersection of the keys. */
  lemma KeyMatchingBound<K>(pk: seq<K>, gk: seq<K>, m: set<(nat, nat)>)
    requires SameKeys(pk, gk, m)
    ensures |m| <= |multiset(pk) * multiset(gk)|
  {
    var taken := Select(gk, Golds(m), |gk|);
    MatchedKeys(pk, gk, m);
    var both := multiset(pk) * multiset(gk);
    forall k | k in taken ensures taken[k] <= both[k] {
      SelectWhole(pk, Preds(m), k);
      SelectWhole(gk, Golds(m), k);
    }
    assert taken <= both;
    SubmultisetSize(taken, both);
  }

  ghost predicate Exhausted<K>(pk: seq<K>, gk: seq<K>, m: set<(nat, nat)>, k: K) {
    || (forall i :: 0 <= i < |pk| && pk[i] == k ==> i in Preds(m))
    || (forall j :: 0 <= j < |gk| && gk[j] == k ==> j in Golds(m))
  }

  /** A matching that leaves no key open on both sides reaches the bound. */
  lemma ExhaustedReachesBound<K>(pk: seq<K>, gk: seq<K>, m: set<(nat, nat)>)
    requires SameKeys(pk, gk, m)
    requires forall k :: k in pk ==> Exhausted(pk, gk, m, k)
    ensures |m| == |multiset(pk) * multiset(gk)|
  {
    MatchedKeys(pk, gk, m);
    var taken, both := Select(gk, Golds(m), |gk|), multiset(pk) * multiset(gk);
    forall k | k in taken + both ensures taken[k] == both[k] {
      SelectWhole(pk, Preds(m), k);
      SelectWhole(gk, Golds(m), k);
      if k in pk { assert Exhausted(pk, gk, m, k); } else { assert multiset(pk)[k] == 0; }
    }
    assert taken <= both && both <= taken;
    SubmultisetSize(taken, both);
    SubmultisetSize(both, taken);
  }

  /** Greedy reaches that bound: it is exact when the predicate compares keys. */
  lemma GreedyKeyed<P, G, K>(pred: seq<P>, gold: seq<G>, hit: (P, G) -> bool, pk: seq<K>, gk: seq<K>)
    requires |pk| == |pred| && |gk| == |gold|
    requires forall i, j :: 0 <= i < |pred| && 0 <= j < |gold| ==> (hit(pred[i], gold[j]) <==> pk[i] == gk[j])
    ensures |Greedy(pred, gold, hit, |pred|)| == |multiset(pk) * multiset(gk)|
  {
    GreedyValid(pred, gold, hit, |pred|);
    forall k | k in pk ensures Exhausted(pk, gk, Greedy(pred, gold, hit, |pred|), k) {
      KeyExhausted(pred, gold, hit, pk, gk, k);
    }
    ExhaustedReachesBound(pk, gk, Greedy(pred, gold, hit, |pred|));
  }

  /** For each key, greedy serves every prediction with it or uses up every gold row with it. */
  lemma KeyExhausted<P, G, K>(pred: seq<P>, gold: seq<G>, hit: (P, G) -> bool, pk: seq<K>, gk: seq<K>, k: K)
    requires |pk| == |pred| && |gk| == |gold|
    requires forall i, j :: 0 <= i < |pred| && 0 <= j < |gold| ==> (hit(pred[i], gold[j]) <==> pk[i] == gk[j])
    ensures Exhausted(pk, gk, Greedy(pred, gold, hit, |pred|), k)
  {
    var g := Greedy(pred, gold, hit, |pred|);
    if i, j :| 0 <= i < |pk| && pk[i] == k && i !in Preds(g) && 0 <= j < |gk| && gk[j] == k && j !in Golds(g) {
      GreedyMaximal(pred, gold, hit, |pred|, i, j);
    }
  }

  /** Where a match needs equal keys, greedy stays within the keys both sides share. */
  lemma GreedyWithinKeys<P, G, K>(pred: seq<P>, gold: seq<G>, hit: (P, G) -> bool, pk: seq<K>, gk: seq<K>)
    requires |pk| == |pred| && |gk| == |gold|
    requires forall i, j :: 0 <= i < |pred| && 0 <= j < |gold| && hit(pred[i], gold[j]) ==> pk[i] == gk[j]
    ensures |Greedy(pred, gold, hit, |pred|)| <= |multiset(pk) * multiset(gk)|
  {
    GreedyValid(pred, gold, hit, |pred|);
    KeyMatchingBound(pk, gk, Greedy(pred, gold, hit, |pred|));
  }

  // ----- the two kinds of rows

  /** One `acMapping` row. */
  datatype AcRow = AcRow(ac: string, evidence: string)

  /** The text normalizations are regular expressions and case folding; they stay parameters. */
  datatype Normalizers = Normalizers(ac: string -> string, evidence: string -> string)

  predicate AcMatch(norm: Normalizers, pred: AcRow, gold: AcRow) {
    norm.ac(pred.ac) == norm.ac(gold.ac) && norm.evidence(pred.evidence) == norm.evidence(gold.evidence)
  }

  function AcKey(norm: Normalizers, row: AcRow): (string, string) {
    (norm.ac(row.ac), norm.evidence(row.evidence))
  }

  function AcKeys(norm: Normalizers, rows: seq<AcRow>): (ks: seq<(string, string)>)
    ensures |ks| == |rows| && forall i :: 0 <= i < |rows| ==> ks[i] == AcKey(norm, rows[i])
  {
    seq(|rows|, i requires 0 <= i < |rows| => AcKey(norm, rows[i]))
  }

  function AcHits(norm: Normalizers): (AcRow, AcRow) -> bool {
    (p, g) => AcMatch(norm, p, g)
  }

  function AcTp(norm: Normalizers, pred: seq<AcRow>, gold: seq<AcRow>): nat {
    |Greedy(pred, gold, AcHits(norm), |pred|)|
  }

  /** Rows match on both normalized texts, and the key of a row is the pair of them. */
  lemma AcMatchExactly(norm: Normalizers, pred: AcRow, gold: AcRow)
    ensures AcHits(norm)(pred, gold) <==>
            norm.ac(pred.ac) == norm.ac(gold.ac) && norm.evidence(pred.evidence) == norm.evidence(gold.evidence)
    ensures AcKeys(norm, [pred]) == [(norm.ac(pred.ac), norm.evidence(pred.evidence))]
  {
  }

  /** The acMapping count is the number of normalized keys the two lists share. */
  lemma AcTpIsIntersection(norm: Normalizers, pred: seq<AcRow>, gold: seq<AcRow>)
    ensures AcTp(norm, pred, gold) == |multiset(AcKeys(norm, pred)) * multiset(AcKeys(norm, gold))|
  {
    GreedyKeyed(pred, gold, AcHits(norm), AcKeys(norm, pred), AcKeys(norm, gold));
  }

  /** So no one-to-one matching of the rows could count more. */
  lemma AcTpMaximum(norm: Normalizers, pred: seq<AcRow>, gold: seq<AcRow>, m: set<(nat, nat)>)
    requires Matching(pred, gold, AcHits(norm), m)
    ensures |m| <= AcTp(norm, pred, gold)
  {
    AcTpIsIntersection(norm, pred, gold);
    KeyMatchingBound(AcKeys(norm, pred), AcKeys(norm, gold), m);
  }

  /** And the order of either list does not matter. */
  lemma AcTpPermutation(norm: Normalizers, pred: seq<AcRow>, pred': seq<AcRow>, gold: seq<AcRow>, gold': seq<AcRow>)
    requires multiset(pred) == multiset(pred') && multiset(gold) == multiset(gold')
    ensures AcTp(norm, pred, gold) == AcTp(norm, pred', gold')
  {
    AcTpIsIntersection(norm, pred, gold);
    AcTpIsIntersection(norm, pred', gold');
    KeysPermuted(norm, pred, pred');
    KeysPermuted(norm, gold, gold');
  }

  lemma Cancel<T>(a: multiset<T>, b: multiset<T>, x: T)
    requires a + multiset{x} == b + multiset{x}
    ensures a == b
  {
    assert a == a + multiset{x} - multiset{x};
    assert b == b + multiset{x} - multiset{x};
  }

  lemma KeysWithout(norm: Normalizers, rows: seq<AcRow>, i: nat)
    requires i < |rows|
    ensures multiset(rows) == multiset(rows[..i] + rows[i + 1..]) + multiset{rows[i]}
    ensures multiset(AcKeys(norm, rows)) ==
            multiset(AcKeys(norm, rows[..i] + rows[i + 1..])) + multiset{AcKey(norm, rows[i])}
  {
    var ks := AcKeys(norm, rows);
    assert rows == rows[..i] + [rows[i]] + rows[i + 1..];
    assert ks == ks[..i] + [ks[i]] + ks[i + 1..];
    assert AcKeys(norm, rows[..i] + rows[i + 1..]) == ks[..i] + ks[i + 1..];
  }

  lemma {:induction false} KeysPermuted(norm: Normalizers, rows: seq<AcRow>, rows': seq<AcRow>)
    requires multiset(rows) == multiset(rows')
    ensures multiset(AcKeys(norm, rows)) == multiset(AcKeys(norm, rows'))
  {
    if rows == [] {
      assert |multiset(rows')| == |rows'|;
    } else {
      var x := rows[0];
      assert x in multiset(rows');
      var i :| 0 <= i < |rows'| && rows'[i] == x;
      KeysWithout(norm, rows, 0);
      KeysWithout(norm, rows', i);
      var rest, rest' := rows[..0] + rows[1..], rows'[..i] + rows'[i + 1..];
      Cancel(multiset(rest), multiset(rest'), x);
      KeysPermuted(norm, rest, rest');
    }
  }

  /** One finding; `words` are the lemmas of its text. */
  datatype Finding = Finding(severity: string, words: seq<string>, evidence: string)

  /** Occurrences of words of `a` that stand in `b` at all. */
  function Shared(a: seq<string>, b: seq<string>): (n: nat)
    ensures n <= |a|
  {
    if a == [] then 0 else (if a[0] in b then 1 else 0) + Shared(a[1..], b)
  }

  function LemmaOverlap(a: seq<string>, b: seq<string>): real {
    if a == [] || b == [] then 0.0 else Shared(a, b) as real / Min(|a|, |b|) as real
  }

  predicate FindingMatch(norm: Normalizers, pred: Finding, gold: Finding) {
    && pred.severity == gold.severity
    && LemmaOverlap(pred.words, gold.words) >= 0.6
    && norm.evidence(pred.evidence) == norm.evidence(gold.evidence)
  }

  function FindingHits(norm: Normalizers): (Finding, Finding) -> bool {
    (p, g) => FindingMatch(norm, p, g)
  }

  /** The places of `a` that hold a word of `b`. */
  function Places(a: seq<string>, b: seq<string>): set<nat> {
    set i: nat | i < |a| && a[i] in b
  }

  lemma {:induction false} SharedPlaces(a: seq<string>, b: seq<string>)
    ensures Shared(a, b) == |Places(a, b)|
  {
    if a == [] {
      assert Places(a, b) == {};
    } else {
      var n := |a| - 1;
      SharedAppend(a[..n], a[n], b);
      SharedPlaces(a[..n], b);
      assert a[..n] + [a[n]] == a;
      assert Places(a, b) == Places(a[..n], b) + if a[n] in b then {n} else {};
    }
  }

  lemma {:induction false} SharedAppend(a: seq<string>, w: string, b: seq<string>)
    ensures Shared(a + [w], b) == Shared(a, b) + if w in b then 1 else 0
  {
    if a == [] {
      assert a + [w] == [w] && [w][1..] == [];
    } else {
      assert (a + [w])[1..] == a[1..] + [w];
      SharedAppend(a[1..], w, b);
    }
  }

  /**
   Two findings match exactly on equal severity, equal normalized evidence, and words of which three
   fifths of the shorter text's number stand in the gold one; an empty text matches nothing.
   */
  lemma FindingMatchExactly(norm: Normalizers, pred: Finding, gold: Finding)
    ensures FindingHits(norm)(pred, gold) <==>
            && pred.severity == gold.severity
            && norm.evidence(pred.evidence) == norm.evidence(gold.evidence)
            && pred.words != [] && gold.words != []
            && 5 * |Places(pred.words, gold.words)| >= 3 * Min(|pred.words|, |gold.words|)
  {
    SharedPlaces(pred.words, gold.words);
    if pred.words != [] && gold.words != [] {
      ThreeFifths(Shared(pred.words, gold.words), Min(|pred.words|, |gold.words|));
    }
  }

  lemma ThreeFifths(x: nat, y: nat)
    requires y > 0
    ensures x as real / y as real >= 0.6 <==> 5 * x >= 3 * y
  {
    AtLeastShare(x as real, y as real, x as real / y as real);
    assert 5 * x >= 3 * y <==> 5.0 * x as real >= 3.0 * y as real;
  }

  lemma AtLeastShare(x: real, y: real, q: real)
    requires y > 0.0 && q == x / y
    ensures q >= 0.6 <==> 5.0 * x >= 3.0 * y
  {
    ProductSign(q - 0.6, y);
    assert (q - 0.6) * y == x - 0.6 * y;
  }

  lemma ProductSign(d: real, y: real)
    requires y > 0.0
    ensures d * y >= 0.0 <==> d >= 0.0
  {
  }

  /**
   The overlap is a share exactly when no more words of the first text stand in the second than
   the second has, as when the first is not the longer one.
   */
  lemma OverlapIsShare(a: seq<string>, b: seq<string>)
    ensures 0.0 <= LemmaOverlap(a, b)
    ensures LemmaOverlap(a, b) <= 1.0 <==> b == [] || Shared(a, b) <= |b|
    ensures |a| <= |b| ==> LemmaOverlap(a, b) <= 1.0
  {
    if a != [] && b != [] { AtMostOne(Shared(a, b), Min(|a|, |b|)); }
  }

  lemma AtMostOne(x: nat, y: nat)
    requires y > 0
    ensures 0.0 <= x as real / y as real && (x as real / y as real <= 1.0 <==> x <= y)
  {
  }

  /** The words the two texts have in common. */
  function Common(a: seq<string>, b: seq<string>): set<string> {
    set w | w in a && w in b
  }

  /** How many places of a text hold one of the words. */
  function Occurrences(a: seq<string>, words: set<string>): nat {
    if a == [] then 0 else (if a[0] in words then 1 else 0) + Occurrences(a[1..], words)
  }

  lemma {:induction false} SharedCounts(a: seq<string>, b: seq<string>, words: set<string>)
    requires forall w :: w in a ==> (w in words <==> w in b)
    ensures Shared(a, b) == Occurrences(a, words)
  {
    if a != [] {
      assert a == [a[0]] + a[1..];
      SharedCounts(a[1..], b, words);
    }
  }

  /**
   Swapping the texts changes nothing exactly when the common words fill as many places in one
   text as in the other, repetitions counted.
   */
  lemma OverlapSymmetricExactly(a: seq<string>, b: seq<string>)
    ensures LemmaOverlap(a, b) == LemmaOverlap(b, a) <==> Occurrences(a, Common(a, b)) == Occurrences(b, Common(a, b))
  {
    SharedCounts(a, b, Common(a, b));
    SharedCounts(b, a, Common(a, b));
    if a != [] && b != [] {
      SameQuotient(Shared(a, b), Shared(b, a), Min(|a|, |b|));
    } else {
      assert Common(a, b) == {};
      NoOccurrences(a);
      NoOccurrences(b);
    }
  }

  lemma {:induction false} NoOccurrences(s: seq<string>)
    ensures Occurrences(s, {}) == 0
  {
    if s != [] { NoOccurrences(s[1..]); }
  }

  lemma SameQuotient(x: nat, y: nat, d: nat)
    requires d > 0
    ensures x as real / d as real == y as real / d as real <==> x == y
  {
    assert (x as real / d as real) * d as real == x as real;
    assert (y as real / d as real) * d as real == y as real;
  }

  predicate NoWordTwice(a: seq<string>) {
    forall i, j :: 0 <= i < j < |a| ==> a[i] != a[j]
  }

  lemma {:induction false} OccurrencesOnce(a: seq<string>, words: set<string>)
    requires NoWordTwice(a) && forall w :: w in words ==> w in a
    ensures Occurrences(a, words) == |words|
  {
    if a == [] {
      assert words == {};
    } else {
      var rest := a[1..];
      forall i | 0 <= i < |rest| ensures rest[i] == a[i + 1] != a[0] {}
      assert a == [a[0]] + rest;
      OccurrencesOnce(rest, words - {a[0]});
      OccurrencesWithout(rest, words, a[0]);
      if a[0] in words { assert words == words - {a[0]} + {a[0]}; } else { assert words == words - {a[0]}; }
    }
  }

  lemma {:induction false} OccurrencesWithout(a: seq<string>, words: set<string>, w: string)
    requires w !in a
    ensures Occurrences(a, words - {w}) == Occurrences(a, words)
  {
    if a != [] {
      assert a == [a[0]] + a[1..];
      OccurrencesWithout(a[1..], words, w);
    }
  }

  /** Without repeated words the overlap is the common words' share of the shorter text, both ways. */
  lemma OverlapWithoutRepeats(a: seq<string>, b: seq<string>)
    requires a != [] && b != [] && NoWordTwice(a) && NoWordTwice(b)
    ensures LemmaOverlap(a, b) == |Common(a, b)| as real / Min(|a|, |b|) as real == LemmaOverlap(b, a)
    ensures LemmaOverlap(a, b) <= 1.0
  {
    SharedCounts(a, b, Common(a, b));
    SharedCounts(b, a, Common(a, b));
    OccurrencesOnce(a, Common(a, b));
    OccurrencesOnce(b, Common(a, b));
    OverlapIsShare(a, b);
  }

  /** With repetitions it can pass 1, and swapping prediction and gold can turn a match into a miss. */
  lemma OverlapAsymmetric(norm: Normalizers, severity: string, evidence: string, v: string, w: string)
    requires v != w
    ensures LemmaOverlap([v, v], [v]) == 2.0
    ensures var p, g := Finding(severity, [v, v], evidence), Finding(severity, [v, w], evidence);
            FindingMatch(norm, p, g) && !FindingMatch(norm, g, p)
  {
    SharedPair(v, v, [v]);
    SharedPair(v, v, [v, w]);
    SharedPair(v, w, [v, v]);
  }

  lemma SharedPair(v: string, w: string, b: seq<string>)
    ensures Shared([v, w], b) == (if v in b then 1 else 0) + (if w in b then 1 else 0)
  {
  }

  /** The factor two of `GreedyAtLeastHalf` is real: greedy order can lose half the findings. */
  lemma GreedyHalvesFindings(norm: Normalizers, severity: string, evidence: string, v: string, w: string)
    requires v != w
    ensures var pred := [Finding(severity, [v, w], evidence), Finding(severity, [v], evidence)];
            var gold := [Finding(severity, [v], evidence), Finding(severity, [w], evidence)];
            && |Greedy(pred, gold, FindingHits(norm), 2)| == 1
            && Matching(pred, gold, FindingHits(norm), {(0, 1), (1, 0)})
  {
    var hit := FindingHits(norm);
    var p0, p1 := Finding(severity, [v, w], evidence), Finding(severity, [v], evidence);
    var g0, g1 := Finding(severity, [v], evidence), Finding(severity, [w], evidence);
    SharedPair(v, w, [v]);
    SharedPair(v, w, [w]);
    assert [v][1..] == [];
    assert hit(p0, g0) && hit(p0, g1) && hit(p1, g0) && !hit(p1, g1);
    var pred, gold := [p0, p1], [g0, g1];
    assert Greedy(pred, gold, hit, 0) == {};
    assert FirstFree(p0, gold, {}, hit, 0) == Some(0);
    assert Greedy(pred, gold, hit, 1) == {(0, 0)};
    assert Golds({(0, 0)}) == {0} by { assert (0, 0) in {(0, 0)}; }
    assert FirstFree(p1, gold, {0}, hit, 2) == None;
    assert FirstFree(p1, gold, {0}, hit, 1) == None;
    assert FirstFree(p1, gold, {0}, hit, 0) == None;
  }

  // ----- F1

  function F1(tp: nat, fp: nat, fn: nat): real {
    if tp == 0 then 0.0
    else
      var p := tp as real / (tp + fp) as real;
      var r := tp as real / (tp + fn) as real;
      if p + r > 0.0 then 2.0 * p * r / (p + r) else 0.0
  }

  /** F1 is the share of rows that were matched, counting both lists. */
  lemma F1IsDice(tp: nat, fp: nat, fn: nat)
    ensures tp > 0 ==> F1(tp, fp, fn) == (2 * tp) as real / (2 * tp + fp + fn) as real
    ensures F1(tp, fp, fn) == 0.0 <==> tp == 0
    ensures 0.0 <= F1(tp, fp, fn) <= 1.0
    ensures F1(tp, fp, fn) == 1.0 <==> tp > 0 && fp == 0 && fn == 0
  {
    if tp > 0 {
      var t, a, b := tp as real, (tp + fp) as real, (tp + fn) as real;
      HarmonicMean(t, a, b);
      assert (2 * tp + fp + fn) as real == a + b && (2 * tp) as real == 2.0 * t;
      QuotientOne(2.0 * t, a + b);
    }
  }

  lemma HarmonicMean(t: real, a: real, b: real)
    requires t > 0.0 && a > 0.0 && b > 0.0
    ensures t / a + t / b > 0.0
    ensures 2.0 * (t / a) * (t / b) / (t / a + t / b) == 2.0 * t / (a + b)
  {
    var p, r := t / a, t / b;
    assert p * a == t && r * b == t;
    assert p > 0.0 && r > 0.0;
    assert (p + r) * a * b == t * (a + b) by {
      assert (p + r) * a * b == (p * a) * b + (r * b) * a;
    }
    assert 2.0 * p * r * (a + b) == 2.0 * t * (p + r) by {
      assert p * r * (a + b) == (p * a) * r + (r * b) * p;
    }
    CrossMultiply(2.0 * p * r, p + r, 2.0 * t, a + b);
  }

  lemma CrossMultiply(x: real, y: real, u: real, v: real)
    requires y > 0.0 && v > 0.0 && x * v == u * y
    ensures x / y == u / v
  {
    assert x == (u / v) * y by {
      assert (u / v) * y * v == u * y;
    }
  }

  lemma QuotientOne(x: real, y: real)
    requires 0.0 < x <= y
    ensures 0.0 < x / y <= 1.0
    ensures x / y == 1.0 <==> x == y
  {
    assert (x / y) * y == x;
  }

  // ----- score_pair

  datatype Verdict = Verdict(verdict: string, findings: seq<Finding>, acMapping: seq<AcRow>)

  datatype Score = Score(verdict: nat,
                         findingsTp: nat, findingsFp: nat, findingsFn: nat, findingsF1: real,
                         acTp: nat, acFp: nat, acFn: nat, acF1: real)

  /** Precision over all predictions, recall over all gold rows, two disjoint ways to lose one. */
  ghost predicate Accounted(s: Score, pred: Verdict, gold: Verdict) {
    && s.findingsTp + s.findingsFp == |pred.findings|
    && s.findingsTp + s.findingsFn == |gold.findings|
    && s.acTp + s.acFp == |pred.acMapping|
    && s.acTp + s.acFn == |gold.acMapping|
  }

  function Severities(fs: seq<Finding>): seq<string> {
    seq(|fs|, i requires 0 <= i < |fs| => fs[i].severity)
  }

  function Evidences(norm: Normalizers, fs: seq<Finding>): seq<string> {
    seq(|fs|, i requires 0 <= i < |fs| => norm.evidence(fs[i].evidence))
  }

  /** No more findings count than the two lists share severities, nor than they share evidence. */
  lemma FindingsWithin(norm: Normalizers, pred: seq<Finding>, gold: seq<Finding>)
    ensures var tp := |Greedy(pred, gold, FindingHits(norm), |pred|)|;
            && tp <= |multiset(Severities(pred)) * multiset(Severities(gold))|
            && tp <= |multiset(Evidences(norm, pred)) * multiset(Evidences(norm, gold))|
  {
    GreedyWithinKeys(pred, gold, FindingHits(norm), Severities(pred), Severities(gold));
    GreedyWithinKeys(pred, gold, FindingHits(norm), Evidences(norm, pred), Evidences(norm, gold));
  }

  method ScorePair(norm: Normalizers, pred: Verdict, gold: Verdict) returns (s: Score)
    ensures s.verdict == if pred.verdict == gold.verdict then 1 else 0
    ensures s.findingsTp == |Greedy(pred.findings, gold.findings, FindingHits(norm), |pred.findings|)|
    ensures s.findingsTp <= |multiset(Severities(pred.findings)) * multiset(Severities(gold.findings))|
    ensures s.findingsTp <= |multiset(Evidences(norm, pred.findings)) * multiset(Evidences(norm, gold.findings))|
    ensures s.acTp == |multiset(AcKeys(norm, pred.acMapping)) * multiset(AcKeys(norm, gold.acMapping))|
    ensures Accounted(s, pred, gold)
    ensures 0.0 <= s.findingsF1 <= 1.0 && 0.0 <= s.acF1 <= 1.0
    ensures s.findingsF1 == 1.0 <==> s.findingsTp == |pred.findings| == |gold.findings| > 0
    ensures s.acF1 == 1.0 <==> s.acTp == |pred.acMapping| == |gold.acMapping| > 0
    ensures s.findingsF1 == Dice(s.findingsTp, |pred.findings|, |gold.findings|)
    ensures s.acF1 == Dice(s.acTp, |pred.acMapping|, |gold.acMapping|)
  {
    var tp, fp, fn, f1 := Tally(pred.findings, gold.findings, FindingHits(norm));
    var acTp, acFp, acFn, acF1 := Tally(pred.acMapping, gold.acMapping, AcHits(norm));
    AcTpIsIntersection(norm, pred.acMapping, gold.acMapping);
    FindingsWithin(norm, pred.findings, gold.findings);
    s := Score(if pred.verdict == gold.verdict then 1 else 0, tp, fp, fn, f1, acTp, acFp, acFn, acF1);
  }

  /** The counts and F1 for one kind of row. */
  method Tally<P, G>(pred: seq<P>, gold: seq<G>, hit: (P, G) -> bool)
    returns (tp: nat, fp: nat, fn: nat, f1: real)
    ensures tp == |Greedy(pred, gold, hit, |pred|)| && tp + fp == |pred| && tp + fn == |gold|
    ensures f1 == Dice(tp, |pred|, |gold|) && 0.0 <= f1 <= 1.0
    ensures f1 == 1.0 <==> tp == |pred| == |gold| > 0
  {
    tp := CountMatches(pred, gold, hit);
    GreedyBounds(pred, gold, hit);
    fp, fn := |pred| - tp, |gold| - tp;
    f1 := F1(tp, fp, fn);
    DiceScores(tp, |pred|, |gold|);
  }

  /** Twice the matches over the lengths of both lists; 0, not 1, for two empty lists. */
  function Dice(tp: nat, preds: nat, golds: nat): real {
    if tp == 0 || preds + golds == 0 then 0.0 else (2 * tp) as real / (preds + golds) as real
  }

  lemma DiceScores(tp: nat, preds: nat, golds: nat)
    requires tp <= preds && tp <= golds
    ensures F1(tp, preds - tp, golds - tp) == Dice(tp, preds, golds)
    ensures 0.0 <= Dice(tp, preds, golds) <= 1.0
    ensures Dice(tp, preds, golds) == 1.0 <==> tp == preds == golds > 0
  {
    F1IsDice(tp, preds - tp, golds - tp);
    assert 2 * tp + (preds - tp) + (golds - tp) == preds + golds;
  }

  lemma GreedyBounds<P, G>(pred: seq<P>, gold: seq<G>, hit: (P, G) -> bool)
    ensures |Greedy(pred, gold, hit, |pred|)| <= |pred|
    ensures |Greedy(pred, gold, hit, |pred|)| <= |gold|
  {
    var g := Greedy(pred, gold, hit, |pred|);
    GreedyValid(pred, gold, hit, |pred|);
    ImageSize(g);
    BelowSize(Preds(g), |pred|);
    BelowSize(Golds(g), |gold|);
  }

  lemma {:induction false} BelowSize(s: set<nat>, n: nat)
    requires forall i :: i in s ==> i < n
    ensures |s| <= n
  {
    if n == 0 {
      assert s == {};
    } else {
      BelowSize(s - {n - 1}, n - 1);
      SubsetSize(s, s - {n - 1} + {n - 1});
    }
  }
}
