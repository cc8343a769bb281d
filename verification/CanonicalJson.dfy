/**
 The two canonical serializers of the dashboard: `stableStringify` (tool profiles) and
 `workingFingerprint` (manager editing). Each decides whether two values are equal by
 comparing texts; here that is proved to mean equality up to the order of object keys.
 */
module CanonicalJson {
  import opened Wrappers
  import opened JsonText

  // ----- two orders on keys

  /** A string as the UTF-16 code units JavaScript compares. */
  function Units(s: string): seq<int> {
    if s == [] then []
    else
      var n := s[0] as int;
      (if n < 0x10000 then [n] else [0xD800 + (n - 0x10000) / 0x400, 0xDC00 + (n - 0x10000) % 0x400]) + Units(s[1..])
  }

  predicate LexLess(a: seq<int>, b: seq<int>) {
    b != [] && (a == [] || a[0] < b[0] || (a[0] == b[0] && LexLess(a[1..], b[1..])))
  }

  function Decimal(s: string): nat
    requires forall i :: 0 <= i < |s| ==> '0' <= s[i] <= '9'
  {
    if s == [] then 0 else 10 * Decimal(s[..|s| - 1]) + (s[|s| - 1] as int - '0' as int)
  }

  /** "0", "1", ... "4294967294": the keys every JavaScript object lists first, by value. */
  predicate IsArrayIndex(k: string) {
    && k != []
    && (forall i :: 0 <= i < |k| ==> '0' <= k[i] <= '9')
    && (k[0] == '0' ==> k == "0")
    && Decimal(k) < 0xFFFF_FFFF
  }

  datatype Order =
    | CodeUnits   // Array.prototype.sort on strings
    | Enumeration // the order of Object.keys after the keys were inserted in CodeUnits order

  predicate Before(o: Order, a: string, b: string) {
    match o
    case CodeUnits => LexLess(Units(a), Units(b))
    case Enumeration =>
      if IsArrayIndex(a) && IsArrayIndex(b) then Decimal(a) < Decimal(b)
      else if IsArrayIndex(a) || IsArrayIndex(b) then IsArrayIndex(a)
      else LexLess(Units(a), Units(b))
  }

  lemma {:induction false} UnitsInjective(a: string, b: string)
    requires Units(a) == Units(b)
    ensures a == b
  {
    if a == [] || b == [] {
    } else {
      var m, n := a[0] as int, b[0] as int;
      assert Units(a)[0] == Units(b)[0];
      if m < 0x10000 {
        assert Units(a)[1..] == Units(a[1..]);
        assert Units(b)[1..] == Units(b[1..]);
      } else {
        assert Units(a)[1] == Units(b)[1];
        assert Units(a)[2..] == Units(a[1..]);
        assert Units(b)[2..] == Units(b[1..]);
      }
      assert a[0] == b[0];
      UnitsInjective(a[1..], b[1..]);
      assert a == [a[0]] + a[1..] && b == [b[0]] + b[1..];
    }
  }

  lemma {:induction false} LexTotal(a: seq<int>, b: seq<int>)
    ensures LexLess(a, b) || LexLess(b, a) || a == b
    ensures !(LexLess(a, b) && LexLess(b, a)) && !LexLess(a, a)
  {
    if a != [] && b != [] {
      LexTotal(a[1..], b[1..]);
      assert a == [a[0]] + a[1..] && b == [b[0]] + b[1..];
    }
    if a != [] { LexTotal(a[1..], a[1..]); }
  }

  lemma {:induction false} LexTransitive(a: seq<int>, b: seq<int>, c: seq<int>)
    requires LexLess(a, b) && LexLess(b, c)
    ensures LexLess(a, c)
  {
    if a != [] && a[0] == b[0] == c[0] {
      LexTransitive(a[1..], b[1..], c[1..]);
    }
  }

  predicate Canonical(k: string) {
    k != [] && (forall i :: 0 <= i < |k| ==> '0' <= k[i] <= '9') && (k[0] == '0' ==> |k| == 1)
  }

  lemma {:induction false} DecimalPositive(k: string)
    requires Canonical(k) && k != "0"
    ensures Decimal(k) > 0
    ensures |k| > 1 ==> Decimal(k) >= 10
  {
    if |k| > 1 {
      DecimalPositive(k[..|k| - 1]);
    } else {
      assert k[..0] == [];
    }
  }

  function Digit(c: char): int {
    c as int - '0' as int
  }

  lemma LastDigit(k: string)
    requires Canonical(k)
    ensures Decimal(k) == 10 * Decimal(k[..|k| - 1]) + Digit(k[|k| - 1]) && 0 <= Digit(k[|k| - 1]) < 10
  {
  }

  lemma SameDigits(x: int, c: int, y: int, d: int)
    requires 0 <= c < 10 && 0 <= d < 10 && 10 * x + c == 10 * y + d
    ensures x == y && c == d
  {
  }

  lemma {:induction false} DecimalInjective(a: string, b: string)
    requires Canonical(a) && Canonical(b) && Decimal(a) == Decimal(b)
    ensures a == b
  {
    var p, q := a[..|a| - 1], b[..|b| - 1];
    LastDigit(a);
    LastDigit(b);
    SameDigits(Decimal(p), Digit(a[|a| - 1]), Decimal(q), Digit(b[|b| - 1]));
    assert a == p + [a[|a| - 1]] && b == q + [b[|b| - 1]];
    if p != [] && q != [] {
      DecimalInjective(p, q);
    } else {
      if p != [] { DecimalPositive(p); }
      if q != [] { DecimalPositive(q); }
    }
  }

  /** Both orders are strict and total, so each leaves one way to list a set of keys. */
  lemma BeforeTotal(o: Order, a: string, b: string)
    ensures Before(o, a, b) || Before(o, b, a) || a == b
    ensures !(Before(o, a, b) && Before(o, b, a)) && !Before(o, a, a)
  {
    LexTotal(Units(a), Units(b));
    LexTotal(Units(a), Units(a));
    if Units(a) == Units(b) {
      UnitsInjective(a, b);
    }
    if IsArrayIndex(a) && IsArrayIndex(b) && Decimal(a) == Decimal(b) {
      DecimalInjective(a, b);
    }
  }

  lemma BeforeTransitive(o: Order, a: string, b: string, c: string)
    requires Before(o, a, b) && Before(o, b, c)
    ensures Before(o, a, c)
  {
    if Before(CodeUnits, a, b) && Before(CodeUnits, b, c) {
      LexTransitive(Units(a), Units(b), Units(c));
    }
  }

  // ----- sorting keys

  predicate Sorted(o: Order, ks: seq<string>) {
    forall i, j :: 0 <= i < j < |ks| ==> Before(o, ks[i], ks[j])
  }

  function Elements(ks: seq<string>): set<string> {
    set k | k in ks
  }

  predicate Distinct(ks: seq<string>) {
    forall i, j :: 0 <= i < j < |ks| ==> ks[i] != ks[j]
  }

  function Insert(o: Order, k: string, ks: seq<string>): seq<string> {
    if ks == [] || Before(o, k, ks[0]) then [k] + ks
    else [ks[0]] + Insert(o, k, ks[1..])
  }

  /** The sorted keys: the one order that `.sort()`, whatever its algorithm, must produce. */
  function SortKeys(o: Order, ks: seq<string>): seq<string> {
    if ks == [] then [] else Insert(o, ks[0], SortKeys(o, ks[1..]))
  }

  lemma {:induction false} InsertSorted(o: Order, k: string, ks: seq<string>)
    requires Sorted(o, ks) && k !in Elements(ks)
    ensures Sorted(o, Insert(o, k, ks))
    ensures Elements(Insert(o, k, ks)) == Elements(ks) + {k}
    ensures |Insert(o, k, ks)| == |ks| + 1
  {
    var r := Insert(o, k, ks);
    if ks == [] {
      assert r == [k];
      ElementsCons(r);
    } else if Before(o, k, ks[0]) {
      forall i | 0 <= i < |ks| ensures Before(o, k, ks[i]) {
        if i > 0 { BeforeTransitive(o, k, ks[0], ks[i]); }
      }
    } else {
      assert ks[0] in Elements(ks);
      BeforeTotal(o, k, ks[0]);
      assert forall i :: 0 <= i < |ks[1..]| ==> ks[1..][i] == ks[i + 1];
      ElementsCons(ks);
      InsertSorted(o, k, ks[1..]);
      InsertBehind(o, k, ks, Insert(o, k, ks[1..]));
    }
  }

  lemma InsertBehind(o: Order, k: string, ks: seq<string>, tail: seq<string>)
    requires ks != [] && Sorted(o, ks) && Before(o, ks[0], k)
    requires Sorted(o, tail) && Elements(tail) == Elements(ks[1..]) + {k}
    ensures Sorted(o, [ks[0]] + tail) && Elements([ks[0]] + tail) == Elements(ks) + {k}
  {
    forall i | 0 <= i < |tail| ensures Before(o, ks[0], tail[i]) {
      assert tail[i] in Elements(tail);
      if tail[i] != k {
        var m :| 0 <= m < |ks[1..]| && ks[1..][m] == tail[i];
        assert tail[i] == ks[m + 1];
      }
    }
    ElementsCons(ks);
    ElementsCons([ks[0]] + tail);
    assert ([ks[0]] + tail)[1..] == tail;
  }

  lemma ElementsCons(ks: seq<string>)
    requires ks != []
    ensures Elements(ks) == {ks[0]} + Elements(ks[1..])
  {
  }

  lemma {:induction false} SortKeysSorted(o: Order, ks: seq<string>)
    requires Distinct(ks)
    ensures Sorted(o, SortKeys(o, ks))
    ensures Elements(SortKeys(o, ks)) == Elements(ks)
    ensures |SortKeys(o, ks)| == |ks|
  {
    if ks != [] {
      SortKeysSorted(o, ks[1..]);
      assert forall i :: 0 <= i < |ks[1..]| ==> ks[1..][i] == ks[i + 1] != ks[0];
      InsertSorted(o, ks[0], SortKeys(o, ks[1..]));
      ElementsCons(ks);
    }
  }

  /** A set of keys has one sorted listing. */
  lemma {:induction false} SortedUnique(o: Order, xs: seq<string>, ys: seq<string>)
    requires Sorted(o, xs) && Sorted(o, ys) && Elements(xs) == Elements(ys)
    ensures xs == ys
  {
    if xs != [] { assert xs[0] in Elements(xs); }
    if ys != [] { assert ys[0] in Elements(ys); }
    if xs != [] && ys != [] {
      var i :| 0 <= i < |ys| && ys[i] == xs[0];
      var j :| 0 <= j < |xs| && xs[j] == ys[0];
      BeforeTotal(o, xs[0], ys[0]);
      assert xs[0] == ys[0];
      assert Elements(xs[1..]) == Elements(ys[1..]) by {
        ElementsCons(xs);
        ElementsCons(ys);
        NotInTail(o, xs);
        NotInTail(o, ys);
      }
      SortedUnique(o, xs[1..], ys[1..]);
      assert xs == [xs[0]] + xs[1..] && ys == [ys[0]] + ys[1..];
    }
  }

  lemma NotInTail(o: Order, ks: seq<string>)
    requires ks != [] && Sorted(o, ks)
    ensures ks[0] !in Elements(ks[1..]) && Sorted(o, ks[1..])
  {
    assert forall i :: 0 <= i < |ks[1..]| ==> ks[1..][i] == ks[i + 1];
    BeforeTotal(o, ks[0], ks[0]);
  }

  function KeySeq(ms: seq<Member>): seq<string> {
    seq(|ms|, i requires 0 <= i < |ms| => ms[i].key)
  }

  // ----- when two values are the same up to key order

  /** Equal at every depth, objects compared key by key; `undefined` and null are alike. */
  predicate Same(a: Json, b: Json)
    decreases a
  {
    match (a, b)
    case (Arr(xs), Arr(ys)) => |xs| == |ys| && forall i :: 0 <= i < |xs| ==> Same(xs[i], ys[i])
    case (Obj(ms), Obj(ns)) => Keys(ms) == Keys(ns) && forall k :: k in Keys(ms) ==> Same(Get(ms, k), Get(ns, k))
    case (Undef, Null) => true
    case (Null, Undef) => true
    case _ => a == b && !a.Arr? && !a.Obj?
  }

  lemma {:induction false} SameReflexive(a: Json)
    ensures Same(a, a)
  {
    match a
    case Arr(xs) => forall i | 0 <= i < |xs| ensures Same(xs[i], xs[i]) { SameReflexive(xs[i]); }
    case Obj(ms) => forall k | k in Keys(ms) ensures Same(Get(ms, k), Get(ms, k)) { SameReflexive(Get(ms, k)); }
    case _ =>
  }

  lemma {:induction false} SameSymmetric(a: Json, b: Json)
    requires Same(a, b)
    ensures Same(b, a)
    decreases a
  {
    match (a, b)
    case (Arr(xs), Arr(ys)) => forall i | 0 <= i < |ys| ensures Same(ys[i], xs[i]) { SameSymmetric(xs[i], ys[i]); }
    case (Obj(ms), Obj(ns)) =>
      forall k | k in Keys(ns) ensures Same(Get(ns, k), Get(ms, k)) { SameSymmetric(Get(ms, k), Get(ns, k)); }
    case _ =>
  }

  lemma {:induction false} SameTransitive(a: Json, b: Json, c: Json)
    requires Same(a, b) && Same(b, c)
    ensures Same(a, c)
    decreases a
  {
    match (a, b, c)
    case (Arr(xs), Arr(ys), Arr(zs)) =>
      forall i | 0 <= i < |xs| ensures Same(xs[i], zs[i]) { SameTransitive(xs[i], ys[i], zs[i]); }
    case (Obj(ms), Obj(ns), Obj(ps)) =>
      forall k | k in Keys(ms) ensures Same(Get(ms, k), Get(ps, k)) {
        SameTransitive(Get(ms, k), Get(ns, k), Get(ps, k));
      }
    case _ =>
  }

  // ----- normal forms

  predicate InOrder(o: Order, ms: seq<Member>) {
    forall i, j :: 0 <= i < j < |ms| ==> Before(o, ms[i].key, ms[j].key)
  }

  /** Nothing undefined, and every object lists its keys in the order `o`. */
  predicate InForm(o: Order, j: Json)
    decreases j
  {
    match j
    case Undef => false
    case Num(t) => IsNumberToken(t)
    case Arr(items) => forall i :: 0 <= i < |items| ==> InForm(o, items[i])
    case Obj(ms) => InOrder(o, ms) && forall i :: 0 <= i < |ms| ==> InForm(o, ms[i].value)
    case _ => true
  }

  lemma InOrderDistinct(o: Order, ms: seq<Member>)
    requires InOrder(o, ms)
    ensures DistinctKeys(ms) && Sorted(o, KeySeq(ms))
  {
    forall i, j | 0 <= i < j < |ms| ensures ms[i].key != ms[j].key {
      BeforeTotal(o, ms[i].key, ms[j].key);
      BeforeTotal(o, ms[i].key, ms[i].key);
    }
  }

  lemma {:induction false} FormIsPlain(o: Order, j: Json)
    requires InForm(o, j)
    ensures Wf(j) && Defined(j)
  {
    match j
    case Arr(items) => forall i | 0 <= i < |items| ensures Wf(items[i]) && Defined(items[i]) { FormIsPlain(o, items[i]); }
    case Obj(ms) =>
      InOrderDistinct(o, ms);
      forall i | 0 <= i < |ms| ensures Wf(ms[i].value) && Defined(ms[i].value) { FormIsPlain(o, ms[i].value); }
    case _ =>
  }

  lemma KeySeqElements(ms: seq<Member>)
    ensures Elements(KeySeq(ms)) == Keys(ms)
    ensures DistinctKeys(ms) ==> Distinct(KeySeq(ms))
  {
    forall m | m in ms ensures m.key in KeySeq(ms) {
      var i :| 0 <= i < |ms| && ms[i] == m;
      assert KeySeq(ms)[i] == m.key;
    }
  }

  /** In a normal form, the same value is the equal value. */
  lemma {:induction false} FormUnique(o: Order, a: Json, b: Json)
    requires InForm(o, a) && InForm(o, b) && Same(a, b)
    ensures a == b
    decreases a
  {
    match (a, b)
    case (Arr(xs), Arr(ys)) =>
      forall i | 0 <= i < |xs| ensures xs[i] == ys[i] { FormUnique(o, xs[i], ys[i]); }
    case (Obj(ms), Obj(ns)) =>
      KeySeqElements(ms);
      KeySeqElements(ns);
      SortedUnique(o, KeySeq(ms), KeySeq(ns));
      InOrderDistinct(o, ms);
      InOrderDistinct(o, ns);
      assert |ms| == |KeySeq(ms)| == |ns|;
      forall i | 0 <= i < |ms| ensures ms[i] == ns[i] {
        assert ms[i].key == KeySeq(ms)[i] == KeySeq(ns)[i] == ns[i].key;
        GetMember(ms, ms[i]);
        GetMember(ns, ns[i]);
        FormUnique(o, ms[i].value, ns[i].value);
      }
      assert ms == ns;
    case _ =>
  }

  /** Two texts printed from normal forms of `a` and `b` agree exactly when `a` and `b` are the same. */
  lemma FormsDecide(o: Order, na: Json, nb: Json, a: Json, b: Json)
    requires InForm(o, na) && InForm(o, nb) && Same(na, a) && Same(nb, b)
    ensures Print(na) == Print(nb) <==> Same(a, b)
  {
    FormIsPlain(o, na);
    FormIsPlain(o, nb);
    if Print(na) == Print(nb) {
      PrintInjective(na, nb);
      SameSymmetric(na, a);
      SameTransitive(a, na, b);
    }
    if Same(a, b) {
      SameTransitive(na, a, b);
      SameSymmetric(nb, b);
      SameTransitive(na, b, nb);
      FormUnique(o, na, nb);
    }
  }

  // ----- stableStringify

  /** One text per value: keys sorted, `JSON.stringify(value) ?? 'null'` at the leaves. */
  function StableStringify(j: Json): string
    decreases j, 1, 0
  {
    match j
    case Arr(items) => "[" + StableItems(items) + "]"
    case Obj(ms) => "{" + StableMembers(j, SortKeys(CodeUnits, KeySeq(ms))) + "}"
    case _ => Print(j)
  }

  function StableItems(items: seq<Json>): string
    decreases items, 0, 0
  {
    if items == [] then ""
    else if |items| == 1 then StableStringify(items[0])
    else StableStringify(items[0]) + "," + StableItems(items[1..])
  }

  function StableMembers(j: Json, keys: seq<string>): string
    requires j.Obj?
    decreases j, 0, |keys|
  {
    if keys == [] then ""
    else
      var value := if keys[0] in Keys(j.members) then StableStringify(Get(j.members, keys[0])) else "null";
      var text := Quote(keys[0]) + ":" + value;
      if |keys| == 1 then text else text + "," + StableMembers(j, keys[1..])
  }

  /** The value `stableStringify` prints: null for `undefined`, keys in order. */
  function Canon(j: Json): Json
    decreases j, 1, 0
  {
    match j
    case Undef => Null
    case Arr(items) => Arr(CanonItems(items))
    case Obj(ms) => Obj(CanonMembers(j, SortKeys(CodeUnits, KeySeq(ms))))
    case _ => j
  }

  function CanonItems(items: seq<Json>): (r: seq<Json>)
    ensures |r| == |items|
    ensures forall i :: 0 <= i < |items| ==> r[i] == Canon(items[i])
    decreases items, 0, 0
  {
    if items == [] then [] else [Canon(items[0])] + CanonItems(items[1..])
  }

  function CanonMembers(j: Json, keys: seq<string>): (r: seq<Member>)
    requires j.Obj?
    ensures |r| == |keys|
    ensures forall i :: 0 <= i < |keys| ==> r[i].key == keys[i]
    ensures forall i :: 0 <= i < |keys| && keys[i] in Keys(j.members) ==> r[i].value == Canon(Get(j.members, keys[i]))
    decreases j, 0, |keys|
  {
    if keys == [] then []
    else
      [Member(keys[0], if keys[0] in Keys(j.members) then Canon(Get(j.members, keys[0])) else Null)]
      + CanonMembers(j, keys[1..])
  }

  lemma {:induction false} StablePrintsCanon(j: Json)
    ensures StableStringify(j) == Print(Canon(j))
    decreases j, 1, 0
  {
    match j
    case Arr(items) => StableItemsPrint(items);
    case Obj(ms) => StableMembersPrint(j, SortKeys(CodeUnits, KeySeq(ms)));
    case _ =>
  }

  lemma {:induction false} StableItemsPrint(items: seq<Json>)
    ensures StableItems(items) == PrintItems(CanonItems(items))
    decreases items, 0, 0
  {
    if items != [] {
      StablePrintsCanon(items[0]);
      StableItemsPrint(items[1..]);
      assert CanonItems(items)[1..] == CanonItems(items[1..]);
    }
  }

  lemma {:induction false} StableMembersPrint(j: Json, keys: seq<string>)
    requires j.Obj?
    ensures StableMembers(j, keys) == PrintMembers(CanonMembers(j, keys))
    decreases j, 0, |keys|
  {
    if keys != [] {
      if keys[0] in Keys(j.members) { StablePrintsCanon(Get(j.members, keys[0])); }
      StableMembersPrint(j, keys[1..]);
      assert CanonMembers(j, keys)[1..] == CanonMembers(j, keys[1..]);
    }
  }

  lemma {:induction false} CanonForm(j: Json)
    requires Wf(j)
    ensures InForm(CodeUnits, Canon(j)) && Same(Canon(j), j)
  {
    match j
    case Arr(items) =>
      forall i | 0 <= i < |items| ensures InForm(CodeUnits, Canon(items[i])) && Same(Canon(items[i]), items[i]) {
        CanonForm(items[i]);
      }
    case Obj(ms) =>
      var keys := SortKeys(CodeUnits, KeySeq(ms));
      KeySeqElements(ms);
      SortKeysSorted(CodeUnits, KeySeq(ms));
      forall i | 0 <= i < |keys|
        ensures keys[i] in Keys(ms)
        ensures InForm(CodeUnits, Canon(Get(ms, keys[i]))) && Same(Canon(Get(ms, keys[i])), Get(ms, keys[i]))
      {
        assert keys[i] in Elements(keys);
        CanonForm(Get(ms, keys[i]));
      }
    case _ =>
  }

  /** Text equality under `stableStringify` is equality up to key order, at every depth. */
  lemma StableStringifyCanonical(a: Json, b: Json)
    requires Wf(a) && Wf(b)
    ensures StableStringify(a) == StableStringify(b) <==> Same(a, b)
  {
    StablePrintsCanon(a);
    StablePrintsCanon(b);
    CanonForm(a);
    CanonForm(b);
    FormsDecide(CodeUnits, Canon(a), Canon(b), a, b);
  }

  // ----- workingFingerprint

  function Filter(ks: seq<string>, index: bool): (r: seq<string>)
    ensures forall k :: k in r <==> k in ks && IsArrayIndex(k) == index
  {
    if ks == [] then []
    else (if IsArrayIndex(ks[0]) == index then [ks[0]] else []) + Filter(ks[1..], index)
  }

  /** The order in which an object lists keys that were set in the order `ks`. */
  function EnumerationOf(ks: seq<string>): seq<string> {
    SortKeys(Enumeration, Filter(ks, true)) + Filter(ks, false)
  }

  lemma {:induction false} FilterSorted(ks: seq<string>, index: bool)
    requires Sorted(CodeUnits, ks)
    ensures Sorted(CodeUnits, Filter(ks, index)) && Distinct(Filter(ks, index))
  {
    if ks != [] {
      NotInTail(CodeUnits, ks);
      FilterSorted(ks[1..], index);
      ElementsCons(ks);
      var rest := Filter(ks[1..], index);
      if IsArrayIndex(ks[0]) == index {
        forall i | 0 <= i < |rest| ensures Before(CodeUnits, ks[0], rest[i]) && ks[0] != rest[i] {
          assert rest[i] in ks[1..];
          var m :| 0 <= m < |ks[1..]| && ks[1..][m] == rest[i];
          assert ks[m + 1] == rest[i];
          BeforeTotal(CodeUnits, ks[0], rest[i]);
        }
      }
    }
  }

  /** Inserting keys in sorted order makes an object list them in `Enumeration` order. */
  lemma EnumerationSorted(ks: seq<string>)
    requires Sorted(CodeUnits, ks)
    ensures Sorted(Enumeration, EnumerationOf(ks)) && Elements(EnumerationOf(ks)) == Elements(ks)
  {
    FilterSorted(ks, true);
    FilterSorted(ks, false);
    SortKeysSorted(Enumeration, Filter(ks, true));
    var xs, ys := SortKeys(Enumeration, Filter(ks, true)), Filter(ks, false);
    var r := EnumerationOf(ks);
    forall i | 0 <= i < |xs| ensures IsArrayIndex(xs[i]) { assert xs[i] in Elements(xs); }
    forall i | 0 <= i < |ys| ensures !IsArrayIndex(ys[i]) { assert ys[i] in Elements(ys); }
    forall i, j | 0 <= i < j < |r| ensures Before(Enumeration, r[i], r[j]) {
      if i >= |xs| { assert Before(CodeUnits, ys[i - |xs|], ys[j - |xs|]); }
    }
    assert Elements(r) == Elements(xs) + Elements(ys);
  }

  /** `sortKeys`: every object rebuilt by `Object.fromEntries` from its sorted entries. */
  function Rekeyed(j: Json): Json
    decreases j, 1, 0
  {
    match j
    case Arr(items) => Arr(RekeyedItems(items))
    case Obj(ms) => Obj(RekeyedMembers(j, EnumerationOf(SortKeys(CodeUnits, KeySeq(ms)))))
    case _ => j
  }

  function RekeyedItems(items: seq<Json>): (r: seq<Json>)
    ensures |r| == |items|
    ensures forall i :: 0 <= i < |items| ==> r[i] == Rekeyed(items[i])
    decreases items, 0, 0
  {
    if items == [] then [] else [Rekeyed(items[0])] + RekeyedItems(items[1..])
  }

  function RekeyedMembers(j: Json, keys: seq<string>): (r: seq<Member>)
    requires j.Obj?
    ensures |r| == |keys|
    ensures forall i :: 0 <= i < |keys| ==> r[i].key == keys[i]
    ensures forall i :: 0 <= i < |keys| && keys[i] in Keys(j.members) ==> r[i].value == Rekeyed(Get(j.members, keys[i]))
    decreases j, 0, |keys|
  {
    if keys == [] then []
    else
      [Member(keys[0], if keys[0] in Keys(j.members) then Rekeyed(Get(j.members, keys[0])) else Undef)]
      + RekeyedMembers(j, keys[1..])
  }

  /** What `JSON.stringify` shows of a value: `undefined` members dropped, other `undefined` null. */
  function Shown(j: Json): Json
    decreases j, 1
  {
    match j
    case Undef => Null
    case Arr(items) => Arr(ShownItems(items))
    case Obj(ms) => Obj(Kept(ShownMembers(ms)))
    case _ => j
  }

  function ShownItems(items: seq<Json>): (r: seq<Json>)
    ensures |r| == |items|
    ensures forall i :: 0 <= i < |items| ==> r[i] == Shown(items[i])
    decreases items, 0
  {
    if items == [] then [] else [Shown(items[0])] + ShownItems(items[1..])
  }

  function ShownMembers(ms: seq<Member>): (r: seq<Member>)
    ensures |r| == |ms|
    ensures forall i :: 0 <= i < |ms| ==>
              r[i] == Member(ms[i].key, if ms[i].value == Undef then Undef else Shown(ms[i].value))
    decreases ms, 0
  {
    if ms == [] then []
    else
      [Member(ms[0].key, if ms[0].value == Undef then Undef else Shown(ms[0].value))] + ShownMembers(ms[1..])
  }

  function Kept(ms: seq<Member>): (r: seq<Member>)
    ensures forall m :: m in r <==> m in ms && m.value != Undef
  {
    if ms == [] then []
    else (if ms[0].value == Undef then [] else [ms[0]]) + Kept(ms[1..])
  }

  /** `JSON.stringify(sortKeys(value ?? null))`. */
  function WorkingFingerprint(j: Json): string {
    Print(Shown(Rekeyed(j)))
  }

  lemma {:induction false} KeptInOrder(o: Order, ms: seq<Member>)
    requires InOrder(o, ms)
    ensures InOrder(o, Kept(ms))
  {
    if ms != [] {
      var rest := ms[1..];
      assert forall i :: 0 <= i < |rest| ==> rest[i] == ms[i + 1];
      KeptInOrder(o, rest);
      forall m | m in Kept(rest) ensures Before(o, ms[0].key, m.key) {
        assert m in rest;
      }
    }
  }

  /** Dropping `undefined` members changes no lookup. */
  lemma KeptGet(ms: seq<Member>, k: string)
    requires DistinctKeys(ms)
    ensures Get(Kept(ms), k) == Get(ms, k)
    ensures k in Keys(Kept(ms)) <==> Get(ms, k) != Undef
  {
  }

  lemma ShownGet(ms: seq<Member>, k: string)
    requires DistinctKeys(ms)
    ensures DistinctKeys(ShownMembers(ms)) && Keys(ShownMembers(ms)) == Keys(ms)
    ensures Get(ShownMembers(ms), k) == if Get(ms, k) == Undef then Undef else Shown(Get(ms, k))
  {
    var ns := ShownMembers(ms);
    if k in Keys(ms) {
      var i :| 0 <= i < |ms| && ms[i].key == k;
      GetMember(ms, ms[i]);
      GetMember(ns, ns[i]);
    }
  }

  lemma {:induction false} RekeyedShownForm(j: Json)
    requires Wf(j)
    ensures InForm(Enumeration, Shown(Rekeyed(j))) && Same(Shown(Rekeyed(j)), Shown(j))
    decreases j
  {
    match j
    case Arr(items) =>
      forall i | 0 <= i < |items|
        ensures InForm(Enumeration, Shown(Rekeyed(items[i]))) && Same(Shown(Rekeyed(items[i])), Shown(items[i]))
      {
        RekeyedShownForm(items[i]);
      }
    case Obj(ms) =>
      forall k | k in Keys(ms)
        ensures InForm(Enumeration, Shown(Rekeyed(Get(ms, k))))
        ensures Same(Shown(Rekeyed(Get(ms, k))), Shown(Get(ms, k)))
      {
        RekeyedShownForm(Get(ms, k));
      }
      RekeyedShownObject(ms);
    case _ =>
  }

  lemma ObjectInForm(o: Order, ns: seq<Member>, ps: seq<Member>)
    requires InOrder(o, ns) && Keys(ns) == Keys(ps)
    requires forall k :: k in Keys(ns) ==> InForm(o, Get(ns, k)) && Same(Get(ns, k), Get(ps, k))
    ensures InForm(o, Obj(ns)) && Same(Obj(ns), Obj(ps))
  {
    InOrderDistinct(o, ns);
    forall i | 0 <= i < |ns| ensures InForm(o, ns[i].value) {
      GetMember(ns, ns[i]);
    }
  }

  lemma RekeyedShownObject(ms: seq<Member>)
    requires DistinctKeys(ms)
    requires forall k :: k in Keys(ms) ==>
               InForm(Enumeration, Shown(Rekeyed(Get(ms, k)))) && Same(Shown(Rekeyed(Get(ms, k))), Shown(Get(ms, k)))
    ensures var j := Obj(ms); InForm(Enumeration, Shown(Rekeyed(j))) && Same(Shown(Rekeyed(j)), Shown(j))
  {
    var rs := Rekeyed(Obj(ms)).members;
    RekeyedOrder(ms);
    KeptInOrder(Enumeration, ShownMembers(rs));
    RekeyedSame(ms, rs);
    ObjectInForm(Enumeration, Kept(ShownMembers(rs)), Kept(ShownMembers(ms)));
  }

  lemma RekeyedSame(ms: seq<Member>, rs: seq<Member>)
    requires DistinctKeys(ms) && DistinctKeys(rs) && Keys(rs) == Keys(ms)
    requires forall m :: m in rs ==> m.value == Rekeyed(Get(ms, m.key))
    requires forall k :: k in Keys(ms) ==>
               InForm(Enumeration, Shown(Rekeyed(Get(ms, k)))) && Same(Shown(Rekeyed(Get(ms, k))), Shown(Get(ms, k)))
    ensures var ns, ps := Kept(ShownMembers(rs)), Kept(ShownMembers(ms));
            && Keys(ns) == Keys(ps)
            && forall k :: k in Keys(ns) ==> InForm(Enumeration, Get(ns, k)) && Same(Get(ns, k), Get(ps, k))
  {
    var ns, ps := Kept(ShownMembers(rs)), Kept(ShownMembers(ms));
    forall k
      ensures k in Keys(ns) <==> k in Keys(ps)
      ensures k in Keys(ns) ==> InForm(Enumeration, Get(ns, k)) && Same(Get(ns, k), Get(ps, k))
    {
      RekeyedLookup(ms, rs, k);
    }
  }

  lemma RekeyedOrder(ms: seq<Member>)
    requires DistinctKeys(ms)
    ensures var rs := Rekeyed(Obj(ms)).members;
            && InOrder(Enumeration, rs) && InOrder(Enumeration, ShownMembers(rs))
            && DistinctKeys(rs) && Keys(rs) == Keys(ms)
            && forall m :: m in rs ==> m.value == Rekeyed(Get(ms, m.key))
  {
    var sorted := SortKeys(CodeUnits, KeySeq(ms));
    var keys := EnumerationOf(sorted);
    KeySeqElements(ms);
    SortKeysSorted(CodeUnits, KeySeq(ms));
    EnumerationSorted(sorted);
    var rs := RekeyedMembers(Obj(ms), keys);
    assert KeySeq(rs) == keys;
    InOrderDistinct(Enumeration, rs);
    KeySeqElements(rs);
    forall i | 0 <= i < |rs| ensures rs[i].value == Rekeyed(Get(ms, rs[i].key)) {
      assert keys[i] in Elements(keys);
    }
  }

  lemma RekeyedLookup(ms: seq<Member>, rs: seq<Member>, k: string)
    requires DistinctKeys(ms) && DistinctKeys(rs) && Keys(rs) == Keys(ms)
    requires forall m :: m in rs ==> m.value == Rekeyed(Get(ms, m.key))
    ensures var ns, ps := Kept(ShownMembers(rs)), Kept(ShownMembers(ms));
            && (k in Keys(ns) <==> k in Keys(ps))
            && (k in Keys(ns) ==>
                  k in Keys(ms) && Get(ns, k) == Shown(Rekeyed(Get(ms, k))) && Get(ps, k) == Shown(Get(ms, k)))
  {
    ShownGet(rs, k);
    ShownGet(ms, k);
    KeptGet(ShownMembers(rs), k);
    KeptGet(ShownMembers(ms), k);
  }

  /** Fingerprints agree exactly when the values, without `undefined` members, are the same. */
  lemma WorkingFingerprintCanonical(a: Json, b: Json)
    requires Wf(a) && Wf(b)
    ensures WorkingFingerprint(a) == WorkingFingerprint(b) <==> Same(Shown(a), Shown(b))
  {
    RekeyedShownForm(a);
    RekeyedShownForm(b);
    FormsDecide(Enumeration, Shown(Rekeyed(a)), Shown(Rekeyed(b)), Shown(a), Shown(b));
  }

  lemma {:induction false} DefinedShown(j: Json)
    requires Defined(j)
    ensures Shown(j) == j
  {
    match j
    case Arr(items) => forall i | 0 <= i < |items| ensures Shown(items[i]) == items[i] { DefinedShown(items[i]); }
    case Obj(ms) =>
      forall i | 0 <= i < |ms| ensures ShownMembers(ms)[i] == ms[i] { DefinedShown(ms[i].value); }
      assert ShownMembers(ms) == ms;
      NothingDropped(ms);
    case _ =>
  }

  lemma {:induction false} NothingDropped(ms: seq<Member>)
    requires forall i :: 0 <= i < |ms| ==> ms[i].value != Undef
    ensures Kept(ms) == ms
  {
    if ms != [] {
      NothingDropped(ms[1..]);
    }
  }

  // ----- where the two serializers part

  /** No object, at any depth, has a member set to `undefined`. */
  predicate NoHole(j: Json) {
    match j
    case Arr(items) => forall i :: 0 <= i < |items| ==> NoHole(items[i])
    case Obj(ms) => forall i :: 0 <= i < |ms| ==> ms[i].value != Undef && NoHole(ms[i].value)
    case _ => true
  }

  lemma {:induction false} DefinedHasNoHole(j: Json)
    requires Defined(j)
    ensures NoHole(j)
  {
    match j
    case Arr(items) => forall i | 0 <= i < |items| ensures NoHole(items[i]) { DefinedHasNoHole(items[i]); }
    case Obj(ms) => forall i | 0 <= i < |ms| ensures NoHole(ms[i].value) { DefinedHasNoHole(ms[i].value); }
    case _ =>
  }

  /** What is shown of a value is the same value exactly when nothing is dropped from it. */
  lemma {:induction false} SameAsShown(j: Json)
    requires Wf(j)
    ensures Same(j, Shown(j)) <==> NoHole(j)
    decreases j
  {
    match j
    case Arr(items) =>
      forall i | 0 <= i < |items| ensures Same(items[i], Shown(items[i])) <==> NoHole(items[i]) {
        SameAsShown(items[i]);
      }
    case Obj(ms) =>
      forall i | 0 <= i < |ms| ensures Same(ms[i].value, Shown(ms[i].value)) <==> NoHole(ms[i].value) {
        SameAsShown(ms[i].value);
      }
      ObjectAsShown(ms);
    case _ =>
  }

  lemma ShownObjectGet(ms: seq<Member>, k: string)
    requires DistinctKeys(ms)
    ensures var ps := Kept(ShownMembers(ms));
      && (k in Keys(ps) <==> Get(ms, k) != Undef)
      && Get(ps, k) == if Get(ms, k) == Undef then Undef else Shown(Get(ms, k))
  {
    ShownGet(ms, k);
    KeptGet(ShownMembers(ms), k);
  }

  lemma HolesByKey(ms: seq<Member>)
    requires DistinctKeys(ms)
    ensures NoHole(Obj(ms)) <==> forall k :: k in Keys(ms) ==> Get(ms, k) != Undef && NoHole(Get(ms, k))
  {
    forall i | 0 <= i < |ms| ensures ms[i].key in Keys(ms) && Get(ms, ms[i].key) == ms[i].value {
      GetMember(ms, ms[i]);
    }
    forall k | k in Keys(ms) ensures exists i :: 0 <= i < |ms| && ms[i].key == k {}
  }

  lemma ShownKeyByKey(ms: seq<Member>)
    requires DistinctKeys(ms)
    ensures Same(Obj(ms), Shown(Obj(ms))) <==>
            forall k :: k in Keys(ms) ==> Get(ms, k) != Undef && Same(Get(ms, k), Shown(Get(ms, k)))
  {
    var ps := Kept(ShownMembers(ms));
    assert Shown(Obj(ms)) == Obj(ps);
    forall k ensures (k in Keys(ps) <==> Get(ms, k) != Undef)
      && Get(ps, k) == if Get(ms, k) == Undef then Undef else Shown(Get(ms, k)) {
      ShownObjectGet(ms, k);
    }
    SubObjectSame(ms, ps);
  }

  lemma SubObjectSame(ms: seq<Member>, ps: seq<Member>)
    requires forall k :: k in Keys(ps) <==> Get(ms, k) != Undef
    ensures Same(Obj(ms), Obj(ps)) <==>
            forall k :: k in Keys(ms) ==> Get(ms, k) != Undef && Same(Get(ms, k), Get(ps, k))
  {
    forall k | k in Keys(ps) ensures k in Keys(ms) {}
    assert (forall k :: k in Keys(ms) ==> Get(ms, k) != Undef) <==> Keys(ms) == Keys(ps);
  }

  lemma ObjectAsShown(ms: seq<Member>)
    requires DistinctKeys(ms)
    requires forall i :: 0 <= i < |ms| ==> (Same(ms[i].value, Shown(ms[i].value)) <==> NoHole(ms[i].value))
    ensures Same(Obj(ms), Shown(Obj(ms))) <==> NoHole(Obj(ms))
  {
    HolesByKey(ms);
    ShownKeyByKey(ms);
    forall k | k in Keys(ms) ensures Same(Get(ms, k), Shown(Get(ms, k))) <==> NoHole(Get(ms, k)) {
      var i :| 0 <= i < |ms| && ms[i].key == k;
      GetMember(ms, ms[i]);
    }
  }

  lemma {:induction false} ShownForm(j: Json)
    requires Wf(j)
    ensures Wf(Shown(j)) && Defined(Shown(j))
    decreases j
  {
    match j
    case Arr(items) =>
      forall i | 0 <= i < |items| ensures Wf(Shown(items[i])) && Defined(Shown(items[i])) { ShownForm(items[i]); }
    case Obj(ms) =>
      forall i | 0 <= i < |ms| ensures Wf(Shown(ms[i].value)) && Defined(Shown(ms[i].value)) { ShownForm(ms[i].value); }
      KeptForm(ms);
    case _ =>
  }

  lemma KeptForm(ms: seq<Member>)
    requires DistinctKeys(ms)
    requires forall i :: 0 <= i < |ms| ==> Wf(Shown(ms[i].value)) && Defined(Shown(ms[i].value))
    ensures Wf(Shown(Obj(ms))) && Defined(Shown(Obj(ms)))
  {
    var ns := ShownMembers(ms);
    ShownGet(ms, "");
    KeptDistinct(ns);
    forall m | m in Kept(ns) ensures Wf(m.value) && Defined(m.value) {
      var i :| 0 <= i < |ns| && ns[i] == m;
    }
  }

  lemma {:induction false} KeptDistinct(ms: seq<Member>)
    requires DistinctKeys(ms)
    ensures DistinctKeys(Kept(ms))
  {
    if ms != [] {
      var rest := ms[1..];
      assert forall i :: 0 <= i < |rest| ==> rest[i] == ms[i + 1];
      KeptDistinct(rest);
      forall m | m in Kept(rest) ensures m.key != ms[0].key { assert m in rest; }
    }
  }

  /** On values without such members the two serializers decide the same equality. */
  lemma SerializersAgree(a: Json, b: Json)
    requires Wf(a) && Wf(b) && NoHole(a) && NoHole(b)
    ensures StableStringify(a) == StableStringify(b) <==> WorkingFingerprint(a) == WorkingFingerprint(b)
  {
    StableStringifyCanonical(a, b);
    WorkingFingerprintCanonical(a, b);
    SameAsShown(a);
    SameAsShown(b);
    SameThrough(a, Shown(a), b, Shown(b));
  }

  lemma SameThrough(a: Json, a': Json, b: Json, b': Json)
    requires Same(a, a') && Same(b, b')
    ensures Same(a, b) <==> Same(a', b')
  {
    SameSymmetric(a, a');
    SameSymmetric(b, b');
    if Same(a, b) {
      SameTransitive(a', a, b);
      SameTransitive(a', b, b');
    }
    if Same(a', b') {
      SameTransitive(a, a', b');
      SameTransitive(a, b', b);
    }
  }

  ghost predicate AgreesWithAll(a: Json) {
    forall b :: Wf(b) && NoHole(b) ==>
      (StableStringify(a) == StableStringify(b) <==> WorkingFingerprint(a) == WorkingFingerprint(b))
  }

  /**
   The serializers agree on a value, against every value without such members, exactly when it has
   none itself; `undefined` as an item or at the top does not part them.
   */
  lemma SerializersAgreeExactly(a: Json)
    requires Wf(a)
    ensures AgreesWithAll(a) <==> NoHole(a)
  {
    if NoHole(a) {
      forall b | Wf(b) && NoHole(b)
        ensures StableStringify(a) == StableStringify(b) <==> WorkingFingerprint(a) == WorkingFingerprint(b)
      {
        SerializersAgree(a, b);
      }
    } else {
      HolePartsThem(a);
    }
  }

  /** A value with a hole and what is shown of it: one fingerprint, two texts. */
  lemma HolePartsThem(a: Json)
    requires Wf(a) && !NoHole(a)
    ensures var b := Shown(a);
            && Wf(b) && NoHole(b)
            && StableStringify(a) != StableStringify(b) && WorkingFingerprint(a) == WorkingFingerprint(b)
  {
    ShownForm(a);
    DefinedHasNoHole(Shown(a));
    SameAsShown(a);
    StableStringifyCanonical(a, Shown(a));
    WorkingFingerprintCanonical(a, Shown(a));
    DefinedShown(Shown(a));
    SameReflexive(Shown(a));
  }

  /** For example, a member set to `undefined` counts for one and not the other. */
  lemma SerializersDisagree(k: string)
    ensures var a, b := Obj([Member(k, Undef)]), Obj([]);
            StableStringify(a) != StableStringify(b) && WorkingFingerprint(a) == WorkingFingerprint(b)
  {
    UndefinedDropped(k);
  }

  lemma UndefinedDropped(k: string)
    ensures WorkingFingerprint(Obj([Member(k, Undef)])) == WorkingFingerprint(Obj([]))
  {
    WorkingFingerprintCanonical(Obj([Member(k, Undef)]), Obj([]));
  }
}
