/**
 Cutting a transcript into episodes: smoothed step families, hard boundaries, a hysteresis loop,
 and the kind and outcome of each episode.
 */
module Segmentation {
  import opened Wrappers
  import opened TranscriptParse

  // ----- the most common family

  /** The earliest of the families that occur most often. */
  ghost predicate IsMostCommon(fs: seq<Family>, f: Family) {
    exists i :: 0 <= i < |fs| && fs[i] == f && FirstBest(fs, i, |fs|)
  }

  /** Position `i` holds a most frequent family of the first `n`, and no earlier position does. */
  predicate FirstBest(fs: seq<Family>, i: nat, n: nat)
    requires i < n <= |fs|
  {
    && (forall j :: 0 <= j < n ==> multiset(fs)[fs[j]] <= multiset(fs)[fs[i]])
    && (forall j :: 0 <= j < i ==> multiset(fs)[fs[j]] < multiset(fs)[fs[i]])
  }

  /** `Counter(fs).most_common(1)`: the first key inserted wins a tie. */
  function Leader(fs: seq<Family>, n: nat): (i: nat)
    requires 0 < n <= |fs|
    ensures i < n
  {
    if n == 1 then 0
    else
      var i := Leader(fs, n - 1);
      if multiset(fs)[fs[n - 1]] > multiset(fs)[fs[i]] then n - 1 else i
  }

  lemma {:induction false} LeaderIsBest(fs: seq<Family>, n: nat)
    requires 0 < n <= |fs|
    ensures FirstBest(fs, Leader(fs, n), n)
  {
    if n > 1 { LeaderIsBest(fs, n - 1); }
  }

  function MostCommon(fs: seq<Family>): Family
    requires fs != []
  {
    fs[Leader(fs, |fs|)]
  }

  /** Being the earliest most frequent family decides the answer. */
  lemma MostCommonDecided(fs: seq<Family>, f: Family)
    requires fs != []
    ensures IsMostCommon(fs, f) <==> f == MostCommon(fs)
  {
    var j := Leader(fs, |fs|);
    LeaderIsBest(fs, |fs|);
    if i :| 0 <= i < |fs| && fs[i] == f && FirstBest(fs, i, |fs|) { FirstBestUnique(fs, i, j); }
  }

  lemma FirstBestUnique(fs: seq<Family>, i: nat, j: nat)
    requires i < |fs| && j < |fs| && FirstBest(fs, i, |fs|) && FirstBest(fs, j, |fs|)
    ensures i == j
  {
    assert multiset(fs)[fs[i]] == multiset(fs)[fs[j]];
  }

  function Without(fs: seq<Family>, dropped: set<Family>): seq<Family> {
    if fs == [] then []
    else (if fs[0] in dropped then [] else [fs[0]]) + Without(fs[1..], dropped)
  }

  const IDLE: set<Family> := {Talk, Other}

  /** The most common working family; among idle steps, of what there is. */
  function Dominant(fs: seq<Family>): Family
    requires fs != []
  {
    if Without(fs, IDLE) != [] then MostCommon(Without(fs, IDLE)) else MostCommon(fs)
  }

  /** Some `f` stands before every `g`. */
  ghost predicate Ahead(fs: seq<Family>, f: Family, g: Family) {
    exists i :: 0 <= i < |fs| && fs[i] == f && g !in fs[..i + 1]
  }

  /**
   `f` is the most frequent family, the first to occur among equals; the dropped ones count only
   where there is nothing else.
   */
  ghost predicate Leads(fs: seq<Family>, dropped: set<Family>, f: Family) {
    && f in fs && (f in dropped ==> forall g :: g in fs ==> g in dropped)
    && forall g :: g in fs && g != f && (g in dropped ==> f in dropped) ==>
      multiset(fs)[g] < multiset(fs)[f] || (multiset(fs)[g] == multiset(fs)[f] && Ahead(fs, f, g))
  }

  lemma LeaderUnique(fs: seq<Family>, dropped: set<Family>, f: Family, g: Family)
    requires Leads(fs, dropped, f) && Leads(fs, dropped, g)
    ensures f == g
  {
    assert f != g ==> !Ahead(fs, f, g) || !Ahead(fs, g, f);
  }

  lemma {:induction false} WithoutAll(fs: seq<Family>, dropped: set<Family>)
    ensures Without(fs, dropped) == [] <==> forall i :: 0 <= i < |fs| ==> fs[i] in dropped
  {
    if fs != [] {
      WithoutAll(fs[1..], dropped);
      if Without(fs, dropped) == [] {
        forall i | 0 <= i < |fs| ensures fs[i] in dropped {
          if i > 0 { assert fs[i] == fs[1..][i - 1]; }
        }
      }
    }
  }

  lemma {:induction false} WithoutCount(fs: seq<Family>, dropped: set<Family>, f: Family)
    ensures multiset(Without(fs, dropped))[f] == if f in dropped then 0 else multiset(fs)[f]
  {
    if fs != [] {
      assert fs == [fs[0]] + fs[1..];
      WithoutCount(fs[1..], dropped, f);
    }
  }

  lemma {:induction false} AheadWithout(fs: seq<Family>, dropped: set<Family>, f: Family, g: Family)
    requires f !in dropped && g !in dropped && Ahead(Without(fs, dropped), f, g)
    ensures Ahead(fs, f, g)
  {
    var w, rest := Without(fs, dropped), Without(fs[1..], dropped);
    var i :| 0 <= i < |w| && w[i] == f && g !in w[..i + 1];
    if fs[0] in dropped {
      assert w == rest;
      AheadWithout(fs[1..], dropped, f, g);
      AheadOfTail(fs, f, g);
    } else if i == 0 {
      assert fs[..1] == [f] == w[..1];
    } else {
      assert rest[..i] == w[..i + 1][1..] && rest[i - 1] == f && fs[0] == w[..i + 1][0];
      AheadWithout(fs[1..], dropped, f, g);
      AheadOfTail(fs, f, g);
    }
  }

  lemma AheadOfTail(fs: seq<Family>, f: Family, g: Family)
    requires fs != [] && fs[0] != g && Ahead(fs[1..], f, g)
    ensures Ahead(fs, f, g)
  {
    var j :| 0 <= j < |fs[1..]| && fs[1..][j] == f && g !in fs[1..][..j + 1];
    assert fs[..j + 2] == [fs[0]] + fs[1..][..j + 1];
  }

  lemma MostCommonLeads(fs: seq<Family>)
    requires fs != []
    ensures Leads(fs, {}, MostCommon(fs))
  {
    var i := Leader(fs, |fs|);
    LeaderIsBest(fs, |fs|);
    forall g | g in fs && g != fs[i]
      ensures multiset(fs)[g] < multiset(fs)[fs[i]] || (multiset(fs)[g] == multiset(fs)[fs[i]] && Ahead(fs, fs[i], g)) {
      var j :| 0 <= j < |fs| && fs[j] == g;
      assert multiset(fs)[fs[j]] <= multiset(fs)[fs[i]];
      if multiset(fs)[g] == multiset(fs)[fs[i]] { NotBefore(fs, i, g); }
    }
  }

  lemma NotBefore(fs: seq<Family>, i: nat, g: Family)
    requires i < |fs| && g != fs[i] && FirstBest(fs, i, |fs|) && multiset(fs)[g] == multiset(fs)[fs[i]]
    ensures Ahead(fs, fs[i], g)
  {
    var front := fs[..i + 1];
    forall j | 0 <= j < |front| ensures front[j] != g {
      assert front[j] == fs[j];
    }
  }

  /** Counting without the dropped families, or with them where nothing else is left, finds the leader. */
  lemma CountedLeads(fs: seq<Family>, dropped: set<Family>)
    requires fs != []
    ensures var w := Without(fs, dropped); Leads(fs, dropped, if w != [] then MostCommon(w) else MostCommon(fs))
  {
    var w := Without(fs, dropped);
    WithoutAll(fs, dropped);
    if w == [] {
      MostCommonLeads(fs);
    } else {
      MostCommonLeads(w);
      KeptLeads(fs, dropped, MostCommon(w));
    }
  }

  lemma KeptLeads(fs: seq<Family>, dropped: set<Family>, f: Family)
    requires Leads(Without(fs, dropped), {}, f)
    ensures Leads(fs, dropped, f)
  {
    var w := Without(fs, dropped);
    WithoutCount(fs, dropped, f);
    assert multiset(w)[f] > 0;
    forall g | g in fs && g != f && g !in dropped
      ensures multiset(fs)[g] < multiset(fs)[f] || (multiset(fs)[g] == multiset(fs)[f] && Ahead(fs, f, g)) {
      WithoutCount(fs, dropped, g);
      assert multiset(w)[g] > 0;
      if multiset(fs)[g] == multiset(fs)[f] { AheadWithout(fs, dropped, f, g); }
    }
  }

  /** What dominates an episode: its most frequent working family, or of all when no step works. */
  lemma DominantLeads(fs: seq<Family>)
    requires fs != []
    ensures Leads(fs, {Talk, Other}, Dominant(fs))
  {
    CountedLeads(fs, {Talk, Other});
  }

  // ----- labelled steps

  datatype Labelled = Labelled(step: Step, family: Family, err: bool, sigs: set<string>)

  function CallFamilies(s: Step): seq<Family> {
    seq(|s.calls|, i requires 0 <= i < |s.calls| => s.calls[i].family)
  }

  /** `label_steps` for one step. */
  function Label(s: Step): Labelled {
    var fs := CallFamilies(s);
    Labelled(s,
             if fs == [] then Talk
             else if Without(fs, {Other}) != [] then MostCommon(Without(fs, {Other})) else MostCommon(fs),
             exists r :: r in s.results && r.err,
             set r | r in s.results && r.err && r.sig.Some? && r.sig.value != "" :: r.sig.value)
  }

  /**
   What a label says of its step: the earliest most frequent family of its calls, other calls
   counting only when there is nothing else; an error when some result is one; their signatures.
   */
  ghost predicate Labels(l: Labelled, s: Step) {
    && l.step == s
    && (s.calls == [] ==> l.family == Talk)
    && (s.calls != [] ==> Leads(CallFamilies(s), {Other}, l.family))
    && (l.err <==> exists i :: 0 <= i < |s.results| && s.results[i].err)
    && (forall sg :: sg in l.sigs <==> sg != "" && exists i :: 0 <= i < |s.results| && Shows(s.results[i], sg))
    && (!l.err ==> l.sigs == {})
  }

  predicate Shows(r: Answer, sg: string) {
    r.err && r.sig == Some(sg)
  }

  lemma LabelFits(s: Step)
    ensures Labels(Label(s), s)
  {
    if s.calls != [] { CountedLeads(CallFamilies(s), {Other}); }
    SigsFit(s);
  }

  lemma SigsFit(s: Step)
    ensures Label(s).err <==> exists i :: 0 <= i < |s.results| && s.results[i].err
    ensures forall sg :: sg in Label(s).sigs <==> sg != "" && exists i :: 0 <= i < |s.results| && Shows(s.results[i], sg)
  {
    forall sg ensures sg in Label(s).sigs <==> sg != "" && exists i :: 0 <= i < |s.results| && Shows(s.results[i], sg) {
      if i :| 0 <= i < |s.results| && Shows(s.results[i], sg) && sg != "" {
        assert s.results[i] in s.results;
      }
    }
  }

  /** `label_steps`. */
  method LabelSteps(steps: seq<Step>) returns (labelled: seq<Labelled>)
    ensures |labelled| == |steps| && forall i :: 0 <= i < |steps| ==> Labels(labelled[i], steps[i])
  {
    labelled := [];
    for i := 0 to |steps|
      invariant |labelled| == i && forall j :: 0 <= j < i ==> Labels(labelled[j], steps[j])
    {
      LabelFits(steps[i]);
      labelled := labelled + [Label(steps[i])];
    }
  }

  function Families(steps: seq<Labelled>): (fs: seq<Family>)
    ensures |fs| == |steps| && forall i :: 0 <= i < |fs| ==> fs[i] == steps[i].family
  {
    seq(|steps|, i requires 0 <= i < |steps| => steps[i].family)
  }

  // ----- smoothing

  function Window(fs: seq<Family>, i: nat): seq<Family>
    requires i < |fs|
  {
    Without(fs[(if i == 0 then 0 else i - 1)..(if i + 2 <= |fs| then i + 2 else |fs|)], IDLE)
  }

  function Smoothed(fs: seq<Family>, i: nat): Family
    requires i < |fs|
  {
    if Window(fs, i) != [] then MostCommon(Window(fs, i)) else fs[i]
  }

  /** The family of step `j`, if there is such a step and it works. */
  function WorkOf(fs: seq<Family>, j: int): Option<Family> {
    if 0 <= j < |fs| && fs[j] !in IDLE then Some(fs[j]) else None
  }

  /**
   What smoothing makes of step `i`: it keeps a working family that the next step shares; else the
   step before decides, then its own family, then the step after, if they work; else nothing does.
   */
  predicate Smooths(fs: seq<Family>, i: nat, f: Family)
    requires i < |fs|
  {
    var before, own, after := WorkOf(fs, i - 1), WorkOf(fs, i), WorkOf(fs, i + 1);
    if own.Some? && own == after then own == Some(f)
    else if before.Some? then before == Some(f)
    else if own.Some? then own == Some(f)
    else if after.Some? then after == Some(f)
    else f == fs[i]
  }

  /** Of three families at most, one that stands twice is the most common, else the first. */
  lemma ShortMostCommon(w: seq<Family>)
    requires 0 < |w| <= 3
    ensures MostCommon(w) == if |w| == 3 && w[1] == w[2] then w[1] else w[0]
  {
    var i := if |w| == 3 && w[1] == w[2] && w[0] != w[1] then 1 else 0;
    if |w| == 1 {
      assert w == [w[0]];
    } else if |w| == 2 {
      assert w == [w[0], w[1]];
    } else {
      assert w == [w[0], w[1], w[2]];
    }
    assert FirstBest(w, i, |w|);
    MostCommonDecided(w, w[i]);
  }

  function AsSeq(f: Option<Family>): seq<Family> {
    if f.Some? then [f.value] else []
  }

  lemma {:induction false} WithoutConcat(a: seq<Family>, b: seq<Family>, dropped: set<Family>)
    ensures Without(a + b, dropped) == Without(a, dropped) + Without(b, dropped)
  {
    if a == [] {
      assert a + b == b;
    } else {
      assert (a + b)[1..] == a[1..] + b;
      WithoutConcat(a[1..], b, dropped);
    }
  }

  lemma WithoutAt(fs: seq<Family>, a: nat, j: nat)
    requires a <= j < |fs|
    ensures Without(fs[a..j + 1], IDLE) == Without(fs[a..j], IDLE) + AsSeq(WorkOf(fs, j))
  {
    assert fs[a..j + 1] == fs[a..j] + [fs[j]];
    WithoutConcat(fs[a..j], [fs[j]], IDLE);
    assert [fs[j]][1..] == [];
  }

  lemma WindowParts(fs: seq<Family>, i: nat)
    requires i < |fs|
    ensures Window(fs, i) == AsSeq(WorkOf(fs, i - 1)) + AsSeq(WorkOf(fs, i)) + AsSeq(WorkOf(fs, i + 1))
  {
    var a := if i == 0 then 0 else i - 1;
    assert fs[a..a] == [];
    if i > 0 { WithoutAt(fs, a, a); }
    WithoutAt(fs, a, i);
    if i + 1 < |fs| { WithoutAt(fs, a, i + 1); }
  }

  lemma SmoothedFits(fs: seq<Family>, i: nat)
    requires i < |fs|
    ensures Smooths(fs, i, Smoothed(fs, i))
  {
    WindowParts(fs, i);
    if Window(fs, i) != [] { ShortMostCommon(Window(fs, i)); }
  }

  method Smooth(fs: seq<Family>) returns (sm: seq<Family>)
    ensures |sm| == |fs|
    ensures forall i :: 0 <= i < |fs| ==> Smooths(fs, i, sm[i]) && sm[i] == Smoothed(fs, i)
  {
    sm := [];
    for i := 0 to |fs|
      invariant |sm| == i && forall j :: 0 <= j < i ==> Smooths(fs, j, sm[j]) && sm[j] == Smoothed(fs, j)
    {
      SmoothedFits(fs, i);
      var window := Window(fs, i);
      var f := if window != [] then MostCommon(window) else fs[i];
      assert f == Smoothed(fs, i);
      sm := sm + [f];
    }
  }

  /** So the last step, behind one that works, always takes that one's family. */
  lemma LastStepFollows(fs: seq<Family>)
    requires |fs| >= 2 && fs[|fs| - 2] !in IDLE
    ensures Smoothed(fs, |fs| - 1) == fs[|fs| - 2]
  {
    SmoothedFits(fs, |fs| - 1);
  }

  // ----- hard boundaries

  const GAP_S := 600.0

  function NoneIfZero(t: Option<real>): Option<real> {
    if t == Some(0.0) then None else t
  }

  /** An idle gap over ten minutes before step `i`, or a human message between the two steps. */
  predicate HardAt(steps: seq<Labelled>, human: seq<Option<real>>, i: nat)
    requires 0 < i < |steps|
  {
    var a := NoneIfZero(Or(steps[i - 1].step.tsEnd, steps[i - 1].step.ts));
    var b := NoneIfZero(steps[i].step.ts);
    && a.Some? && b.Some?
    && (|| b.value - a.value > GAP_S
        || exists h :: h in human && NoneIfZero(h).Some? && a.value < h.value <= b.value)
  }

  /** A stamp that is there and not zero. */
  predicate Stamp(t: Option<real>, at: real) {
    t == Some(at) && at != 0.0
  }

  /** The step is over at `at`: its end, or its start when it has no end. */
  predicate Over(s: Step, at: real) {
    Stamp(s.tsEnd, at) || ((s.tsEnd == None || s.tsEnd == Some(0.0)) && Stamp(s.ts, at))
  }

  /** More than 600 seconds, or a stamped human message in between. */
  predicate Apart(human: seq<Option<real>>, end: real, start: real) {
    start > end + 600.0 || exists h :: h in human && h.Some? && h.value != 0.0 && end < h.value <= start
  }

  /** A boundary is hard when the step before is over and the two stamps lie apart. */
  lemma HardMeans(steps: seq<Labelled>, human: seq<Option<real>>, i: nat)
    requires 0 < i < |steps|
    ensures HardAt(steps, human, i) <==>
      exists end, start :: Over(steps[i - 1].step, end) && Stamp(steps[i].step.ts, start) && Apart(human, end, start)
  {
    var a := NoneIfZero(Or(steps[i - 1].step.tsEnd, steps[i - 1].step.ts));
    var b := NoneIfZero(steps[i].step.ts);
    forall at ensures Over(steps[i - 1].step, at) <==> a == Some(at) {}
    forall at ensures Stamp(steps[i].step.ts, at) <==> b == Some(at) {}
    if a.Some? && b.Some? {
      assert Over(steps[i - 1].step, a.value) && Stamp(steps[i].step.ts, b.value);
      forall h | h in human
        ensures NoneIfZero(h).Some? && a.value < NoneIfZero(h).value <= b.value
          <==> h.Some? && h.value != 0.0 && a.value < h.value <= b.value {}
      assert HardAt(steps, human, i) <==> Apart(human, a.value, b.value);
    }
  }

  method HardBoundaries(steps: seq<Labelled>, human: seq<Option<real>>) returns (hard: set<nat>)
    ensures forall i :: i in hard <==> 0 < i < |steps| && HardAt(steps, human, i)
  {
    hard := {};
    var i := 1;
    while i < |steps|
      invariant 1 <= i
      invariant forall j :: j in hard <==> 0 < j < i && j < |steps| && HardAt(steps, human, j)
    {
      if HardAt(steps, human, i) { hard := hard + {i}; }
      i := i + 1;
    }
  }

  // ----- cuts

  predicate Tiles(cuts: seq<nat>, n: nat) {
    && cuts != [] && cuts[0] == 0
    && (forall k :: 0 <= k < |cuts| ==> cuts[k] < n)
    && forall j, k :: 0 <= j < k < |cuts| ==> cuts[j] < cuts[k]
  }

  /** Where the episode that starts at cut `k` ends. */
  function End(cuts: seq<nat>, n: nat, k: nat): nat
    requires k < |cuts|
  {
    if k + 1 < |cuts| then cuts[k + 1] else n
  }

  /** A new family counts only when it lasts, or when a hard boundary or the end cuts it short. */
  predicate Lasts(sm: seq<Family>, hard: set<nat>, i: nat)
    requires i < |sm|
  {
    i + 1 >= |sm| || sm[i + 1] == sm[i] || i + 1 in hard
  }

  /** Does an episode that started at step `a` break before step `i`? */
  predicate Breaks(sm: seq<Family>, hard: set<nat>, a: nat, i: nat)
    requires a < i < |sm|
  {
    i in hard || (sm[i] != sm[a] && Lasts(sm, hard, i))
  }

  predicate Unbroken(sm: seq<Family>, hard: set<nat>, a: nat, b: nat)
    requires a < b <= |sm|
  {
    forall i :: a < i < b ==> !Breaks(sm, hard, a, i)
  }

  /** The episode from `a` runs up to the first place where it breaks. */
  predicate Fits(sm: seq<Family>, hard: set<nat>, a: nat, b: nat) {
    a < b <= |sm| && Unbroken(sm, hard, a, b) && (b < |sm| ==> Breaks(sm, hard, a, b))
  }

  predicate FitsAt(sm: seq<Family>, hard: set<nat>, cuts: seq<nat>, k: nat)
    requires k < |cuts|
  {
    Fits(sm, hard, cuts[k], End(cuts, |sm|, k))
  }

  ghost predicate CutsFor(sm: seq<Family>, hard: set<nat>, cuts: seq<nat>) {
    Tiles(cuts, |sm|) && forall k :: 0 <= k < |cuts| ==> FitsAt(sm, hard, cuts, k)
  }

  /** The state of the loop at step `i`: all but the last episode are settled. */
  ghost predicate Cutting(sm: seq<Family>, hard: set<nat>, cuts: seq<nat>, i: nat) {
    && i <= |sm| && Tiles(cuts, i)
    && (forall k :: 0 <= k < |cuts| - 1 ==> FitsAt(sm, hard, cuts, k))
    && Unbroken(sm, hard, cuts[|cuts| - 1], i)
  }

  lemma AddCut(sm: seq<Family>, hard: set<nat>, cuts: seq<nat>, i: nat)
    requires i < |sm| && Cutting(sm, hard, cuts, i) && Breaks(sm, hard, cuts[|cuts| - 1], i)
    ensures Cutting(sm, hard, cuts + [i], i + 1)
  {
    forall k | 0 <= k < |cuts| ensures FitsAt(sm, hard, cuts + [i], k) {
      assert k + 1 < |cuts| ==> FitsAt(sm, hard, cuts, k);
    }
  }

  method Cuts(sm: seq<Family>, hard: set<nat>) returns (cuts: seq<nat>)
    requires sm != []
    ensures CutsFor(sm, hard, cuts)
  {
    cuts := [0];
    var cur := sm[0];
    var i := 1;
    while i < |sm|
      invariant 1 <= i <= |sm|
      invariant Cutting(sm, hard, cuts, i) && cur == sm[cuts[|cuts| - 1]]
    {
      if i in hard {
        AddCut(sm, hard, cuts, i);
        cuts := cuts + [i];
        cur := sm[i];
      } else if sm[i] != cur && (i + 1 >= |sm| || sm[i + 1] == sm[i] || i + 1 in hard) {
        AddCut(sm, hard, cuts, i);
        cuts := cuts + [i];
        cur := sm[i];
      }
      i := i + 1;
    }
    assert FitsAt(sm, hard, cuts, |cuts| - 1);
  }

  /** The rule leaves no choice: the cuts are determined. */
  lemma CutsUnique(sm: seq<Family>, hard: set<nat>, c: seq<nat>, d: seq<nat>)
    requires CutsFor(sm, hard, c) && CutsFor(sm, hard, d)
    ensures c == d
  {
    CutsAgree(sm, hard, c, d, |c|);
    CutsAgree(sm, hard, d, c, |d|);
  }

  lemma {:induction false} CutsAgree(sm: seq<Family>, hard: set<nat>, c: seq<nat>, d: seq<nat>, k: nat)
    requires CutsFor(sm, hard, c) && CutsFor(sm, hard, d) && k <= |c|
    ensures k <= |d| && c[..k] == d[..k]
  {
    if k > 1 {
      CutsAgree(sm, hard, c, d, k - 1);
      assert c[k - 2] == c[..k - 1][k - 2] == d[k - 2];
      assert FitsAt(sm, hard, c, k - 2) && FitsAt(sm, hard, d, k - 2);
      assert c[..k] == c[..k - 1] + [c[k - 1]];
      assert d[..k] == d[..k - 1] + [d[k - 1]];
    }
  }

  lemma {:induction false} EpisodeOf(cuts: seq<nat>, n: nat, i: nat, m: nat) returns (k: nat)
    requires Tiles(cuts, n) && 0 < m <= |cuts| && i < End(cuts, n, m - 1)
    ensures k < m && cuts[k] <= i < End(cuts, n, k)
  {
    if cuts[m - 1] <= i {
      k := m - 1;
    } else {
      k := EpisodeOf(cuts, n, i, m - 1);
    }
  }

  /**
   Behind the start of an episode and up to its end, a step starts the next one exactly at a hard
   boundary, or when it leaves the family the episode began with and either the next step shares its
   own, a hard boundary follows, or no step does.
   */
  lemma CutsExactly(sm: seq<Family>, hard: set<nat>, cuts: seq<nat>, k: nat, i: nat)
    requires CutsFor(sm, hard, cuts) && k < |cuts| && cuts[k] < i < |sm| && i <= End(cuts, |sm|, k)
    ensures i in cuts <==>
      i in hard || (sm[i] != sm[cuts[k]] && (i + 1 == |sm| || sm[i + 1] == sm[i] || i + 1 in hard))
  {
    assert FitsAt(sm, hard, cuts, k);
    assert i in cuts <==> i == End(cuts, |sm|, k);
    assert i < End(cuts, |sm|, k) ==> !Breaks(sm, hard, cuts[k], i);
  }

  /** Every hard boundary is a cut. */
  lemma HardBoundariesCut(sm: seq<Family>, hard: set<nat>, cuts: seq<nat>, i: nat)
    requires CutsFor(sm, hard, cuts) && i in hard && 0 < i < |sm|
    ensures i in cuts
  {
    var k := EpisodeOf(cuts, |sm|, i, |cuts|);
    assert FitsAt(sm, hard, cuts, k);
    assert cuts[k] < i ==> !Breaks(sm, hard, cuts[k], i);
  }

  /**
   A soft cut changes the family, and its episode has at least two steps unless a hard boundary
   or the end of the transcript closes it.
   */
  lemma SoftCutLasts(sm: seq<Family>, hard: set<nat>, cuts: seq<nat>, k: nat)
    requires CutsFor(sm, hard, cuts) && 0 < k < |cuts| && cuts[k] !in hard
    ensures sm[cuts[k]] != sm[cuts[k - 1]]
    ensures var end := End(cuts, |sm|, k); end >= cuts[k] + 2 || end == |sm| || end in hard
  {
    assert FitsAt(sm, hard, cuts, k - 1);
    assert FitsAt(sm, hard, cuts, k);
  }

  /** Two steps in a row of one smoothed family, inside an episode, are of the episode's family. */
  lemma PairDecidesFamily(sm: seq<Family>, hard: set<nat>, cuts: seq<nat>, k: nat, i: nat)
    requires CutsFor(sm, hard, cuts) && k < |cuts| && cuts[k] <= i && i + 1 < End(cuts, |sm|, k)
    requires sm[i] == sm[i + 1]
    ensures sm[i] == sm[cuts[k]]
  {
    assert FitsAt(sm, hard, cuts, k);
    assert cuts[k] < i ==> !Breaks(sm, hard, cuts[k], i);
  }

  // ----- episodes

  datatype Kind = Recover | Orient | Investigate | Implement | Reproduce | Verify | Coordinate | Reason | Others

  datatype Outcome = Open | Stuck | Resolved

  /** What an episode's steps add up to. */
  datatype Content = Content(dom: Family, errs: nat, sigs: multiset<string>, think: nat)

  datatype Episode = Episode(a: nat, b: nat, kind: Kind, data: Content, outcome: Outcome)

  function KindOf(afterErr: bool, dom: Family, editSeen: bool): Kind {
    if afterErr then Recover
    else
      match dom
      case Explore => if editSeen then Investigate else Orient
      case Edit => Implement
      case Test => if editSeen then Verify else Reproduce
      case Exec => if editSeen then Verify else Reproduce
      case Mutate => Coordinate
      case Delegate => Coordinate
      case Plan => Coordinate
      case Talk => Reason
      case Other => Others
  }

  function Errs(steps: seq<Labelled>): nat {
    if steps == [] then 0 else Errs(steps[..|steps| - 1]) + if steps[|steps| - 1].err then 1 else 0
  }

  function Thinking(steps: seq<Labelled>): nat {
    if steps == [] then 0 else Thinking(steps[..|steps| - 1]) + steps[|steps| - 1].step.thinkChars
  }

  function Sigs(steps: seq<Labelled>): multiset<string> {
    if steps == [] then multiset{} else Sigs(steps[..|steps| - 1]) + multiset(steps[|steps| - 1].sigs)
  }

  function ContentOf(seg: seq<Labelled>): Content
    requires seg != []
  {
    Content(Dominant(Families(seg)), Errs(seg), Sigs(seg), Thinking(seg))
  }

  function EpisodeSteps(steps: seq<Labelled>, cuts: seq<nat>, k: nat): (seg: seq<Labelled>)
    requires Tiles(cuts, |steps|) && k < |cuts|
    ensures seg != []
  {
    steps[cuts[k]..End(cuts, |steps|, k)]
  }

  function Contents(steps: seq<Labelled>, cuts: seq<nat>): seq<Content>
    requires Tiles(cuts, |steps|)
  {
    seq(|cuts|, k requires 0 <= k < |cuts| && Tiles(cuts, |steps|) => ContentOf(EpisodeSteps(steps, cuts, k)))
  }

  /** An edit-dominated episode among the first `m`. */
  predicate EditSeen(contents: seq<Content>, m: nat)
    requires m <= |contents|
  {
    exists j :: 0 <= j < m && contents[j].dom == Edit
  }

  /** Cuts and contents of as many episodes, over these steps. */
  ghost predicate Fitting(steps: seq<Labelled>, cuts: seq<nat>, contents: seq<Content>) {
    Tiles(cuts, |steps|) && |contents| == |cuts|
  }

  function Drafted(steps: seq<Labelled>, cuts: seq<nat>, contents: seq<Content>, k: nat): Episode
    requires Fitting(steps, cuts, contents) && k < |cuts|
  {
    var a := cuts[k];
    Episode(a, End(cuts, |steps|, k),
            KindOf(a > 0 && steps[a - 1].err, contents[k].dom, EditSeen(contents, k + 1)), contents[k], Open)
  }

  lemma ContentAt(steps: seq<Labelled>, cuts: seq<nat>, k: nat)
    requires Tiles(cuts, |steps|) && k < |cuts|
    ensures var a, b := cuts[k], End(cuts, |steps|, k);
            a < b <= |steps| && Contents(steps, cuts)[k] == ContentOf(steps[a..b])
  {
  }

  /** The part of the episode loop that adds up each episode's steps. */
  method Describe(steps: seq<Labelled>, cuts: seq<nat>) returns (contents: seq<Content>)
    requires Tiles(cuts, |steps|)
    ensures contents == Contents(steps, cuts)
  {
    contents := [];
    for k := 0 to |cuts|
      invariant contents == Contents(steps, cuts)[..k]
    {
      var a := cuts[k];
      var b := if k + 1 < |cuts| then cuts[k + 1] else |steps|;
      ContentAt(steps, cuts, k);
      contents := contents + [ContentOf(steps[a..b])];
    }
  }

  /** The part that follows the first edit-dominated episode. */
  method DraftEpisodes(steps: seq<Labelled>, cuts: seq<nat>, contents: seq<Content>) returns (eps: seq<Episode>)
    requires Fitting(steps, cuts, contents)
    ensures |eps| == |cuts| && forall k :: 0 <= k < |eps| ==> eps[k] == Drafted(steps, cuts, contents, k)
  {
    eps := [];
    var firstEditSeen := false;
    for k := 0 to |cuts|
      invariant |eps| == k && firstEditSeen == EditSeen(contents, k)
      invariant forall j :: 0 <= j < k ==> eps[j] == Drafted(steps, cuts, contents, j)
    {
      var a := cuts[k];
      var b := if k + 1 < |cuts| then cuts[k + 1] else |steps|;
      var afterErr := a > 0 && steps[a - 1].err;
      if contents[k].dom == Edit { firstEditSeen := true; }
      eps := eps + [Episode(a, b, KindOf(afterErr, contents[k].dom, firstEditSeen), contents[k], Open)];
    }
  }

  predicate CleanRun(s: Labelled) {
    s.family in {Test, Exec} && !s.err
  }

  /** Stuck: some signature three times. Resolved: a recovery with a clean run up to eight steps on. */
  function OutcomeOf(steps: seq<Labelled>, ep: Episode): Outcome {
    if exists sg :: sg in ep.data.sigs && ep.data.sigs[sg] >= 3 then Stuck
    else if ep.kind == Recover && (exists i :: ep.a <= i < ep.b + 8 && i < |steps| && CleanRun(steps[i])) then Resolved
    else Open
  }

  method Outcomes(steps: seq<Labelled>, drafts: seq<Episode>) returns (eps: seq<Episode>)
    requires forall k :: 0 <= k < |drafts| ==> drafts[k].a < drafts[k].b <= |steps| && drafts[k].outcome == Open
    ensures |eps| == |drafts|
    ensures forall k :: 0 <= k < |eps| ==> eps[k] == drafts[k].(outcome := OutcomeOf(steps, drafts[k]))
  {
    eps := drafts;
    for k := 0 to |eps|
      invariant |eps| == |drafts|
      invariant forall j :: 0 <= j < k ==> eps[j] == drafts[j].(outcome := OutcomeOf(steps, drafts[j]))
      invariant forall j :: k <= j < |eps| ==> eps[j] == drafts[j]
    {
      var ep := eps[k];
      if exists sg :: sg in ep.data.sigs && ep.data.sigs[sg] >= 3 {
        eps := eps[k := ep.(outcome := Stuck)];
      } else if ep.kind == Recover {
        var last := if |steps| <= ep.b + 8 then |steps| else ep.b + 8;
        var i := ep.a;
        while i < last && !CleanRun(steps[i])
          invariant ep.a <= i <= last
          invariant forall j :: ep.a <= j < i ==> !CleanRun(steps[j])
        {
          i := i + 1;
        }
        if i < last { eps := eps[k := ep.(outcome := Resolved)]; }
      }
    }
  }

  /** The cuts that the smoothed families and the hard boundaries determine. */
  ghost predicate CutsOf(steps: seq<Labelled>, human: seq<Option<real>>, cuts: seq<nat>) {
    exists sm, hard :: SmoothedFamilies(steps, sm) && HardSet(steps, human, hard) && CutsFor(sm, hard, cuts)
  }

  ghost predicate SmoothedFamilies(steps: seq<Labelled>, sm: seq<Family>) {
    |sm| == |steps| && forall i :: 0 <= i < |sm| ==> sm[i] == Smoothed(Families(steps), i)
  }

  ghost predicate HardSet(steps: seq<Labelled>, human: seq<Option<real>>, hard: set<nat>) {
    forall i :: i in hard <==> 0 < i < |steps| && HardAt(steps, human, i)
  }

  /** The episodes of the cuts: each carries its place, kind, contents and outcome. */
  ghost predicate EpisodesFor(steps: seq<Labelled>, cuts: seq<nat>, contents: seq<Content>, eps: seq<Episode>) {
    && Fitting(steps, cuts, contents) && |eps| == |cuts|
    && forall k :: 0 <= k < |eps| ==> eps[k] == Finished(steps, cuts, contents, k)
  }

  ghost function Finished(steps: seq<Labelled>, cuts: seq<nat>, contents: seq<Content>, k: nat): Episode
    requires Fitting(steps, cuts, contents) && k < |cuts|
  {
    var d := Drafted(steps, cuts, contents, k);
    d.(outcome := OutcomeOf(steps, d))
  }

  // ----- what an episode says of its steps

  ghost predicate BehindError(steps: seq<Labelled>, ep: Episode) {
    0 < ep.a <= |steps| && steps[ep.a - 1].err
  }

  /** The kind behind an error, and the kind of each dominant family before and after the first edit. */
  ghost predicate KindSays(steps: seq<Labelled>, eps: seq<Episode>, k: nat)
    requires k < |eps|
  {
    KindFits(eps[k].kind, BehindError(steps, eps[k]), eps[k].data.dom,
             exists e :: 0 <= e < k && eps[e].data.dom == Edit)
  }

  predicate KindFits(kind: Kind, afterErr: bool, dom: Family, edited: bool) {
    if afterErr then kind == Recover
    else
      && (kind == Orient <==> dom == Explore && !edited)
      && (kind == Investigate <==> dom == Explore && edited)
      && (kind == Reproduce <==> (dom == Test || dom == Exec) && !edited)
      && (kind == Verify <==> (dom == Test || dom == Exec) && edited)
      && (kind == Implement <==> dom == Edit)
      && (kind == Coordinate <==> dom == Mutate || dom == Delegate || dom == Plan)
      && (kind == Reason <==> dom == Talk)
      && (kind == Others <==> dom == Other)
  }

  /** The dominant family and the sums of the episode's steps. */
  ghost predicate ContentSays(steps: seq<Labelled>, ep: Episode) {
    && ep.a < ep.b <= |steps|
    && Leads(Families(steps[ep.a..ep.b]), {Talk, Other}, ep.data.dom)
    && ep.data.errs == StepsErring(steps[ep.a..ep.b])
    && (forall sg :: ep.data.sigs[sg] == StepsShowing(steps[ep.a..ep.b], sg))
    && ep.data.think == OfSteps(ThinkChars, Unlabelled(steps[ep.a..ep.b]))
  }

  function Unlabelled(steps: seq<Labelled>): (o: seq<Step>)
    ensures |o| == |steps| && forall i :: 0 <= i < |o| ==> o[i] == steps[i].step
  {
    seq(|steps|, i requires 0 <= i < |steps| => steps[i].step)
  }

  /** Stuck: one signature shown by three of its steps. Resolved: a recovery that a clean run ends within eight steps. */
  ghost predicate OutcomeSays(steps: seq<Labelled>, ep: Episode)
    requires ep.a <= ep.b <= |steps|
  {
    && (ep.outcome == Stuck <==> exists sg: string :: StepsShowing(steps[ep.a..ep.b], sg) >= 3)
    && (ep.outcome == Resolved <==>
          && ep.outcome != Stuck && BehindError(steps, ep)
          && exists i :: ep.a <= i < ep.b + 8 && i < |steps| && !steps[i].err
                         && (steps[i].family == Test || steps[i].family == Exec))
  }

  function StepsShowing(steps: seq<Labelled>, sg: string): nat {
    |set i | 0 <= i < |steps| && sg in steps[i].sigs|
  }

  /** A signature's count in an episode is the number of its steps that show it. */
  lemma {:induction false} SigCount(steps: seq<Labelled>, sg: string)
    ensures Sigs(steps)[sg] == StepsShowing(steps, sg)
  {
    var shown := set i | 0 <= i < |steps| && sg in steps[i].sigs;
    if steps == [] {
      assert shown == {};
    } else {
      var init, n := steps[..|steps| - 1], |steps| - 1;
      SigCount(init, sg);
      var before := set i | 0 <= i < |init| && sg in init[i].sigs;
      assert shown == before + if sg in steps[n].sigs then {n} else {};
      assert n !in before;
    }
  }

  function StepsErring(steps: seq<Labelled>): nat {
    |set i | 0 <= i < |steps| && steps[i].err|
  }

  lemma {:induction false} ErrsCounted(steps: seq<Labelled>)
    ensures Errs(steps) == StepsErring(steps)
  {
    var erring := set i | 0 <= i < |steps| && steps[i].err;
    if steps == [] {
      assert erring == {};
    } else {
      var init, n := steps[..|steps| - 1], |steps| - 1;
      ErrsCounted(init);
      var before := set i | 0 <= i < |init| && init[i].err;
      assert erring == before + if steps[n].err then {n} else {};
      assert n !in before;
    }
  }

  lemma {:induction false} ThinkingSummed(steps: seq<Labelled>)
    ensures Thinking(steps) == OfSteps(ThinkChars, Unlabelled(steps))
  {
    if steps != [] {
      ThinkingSummed(steps[..|steps| - 1]);
      assert Unlabelled(steps)[..|steps| - 1] == Unlabelled(steps[..|steps| - 1]);
    }
  }

  lemma ContentSaid(steps: seq<Labelled>, cuts: seq<nat>, k: nat, ep: Episode)
    requires Tiles(cuts, |steps|) && k < |cuts|
    requires ep.a == cuts[k] && ep.b == End(cuts, |steps|, k) && ep.data == Contents(steps, cuts)[k]
    ensures ContentSays(steps, ep)
  {
    ContentAt(steps, cuts, k);
    var seg := steps[ep.a..ep.b];
    DominantLeads(Families(seg));
    ErrsCounted(seg);
    ThinkingSummed(seg);
    forall sg ensures Sigs(seg)[sg] == StepsShowing(seg, sg) {
      SigCount(seg, sg);
    }
  }

  lemma OutcomeSaid(steps: seq<Labelled>, ep: Episode)
    requires ContentSays(steps, ep) && (ep.kind == Recover <==> BehindError(steps, ep))
    ensures OutcomeSays(steps, ep.(outcome := OutcomeOf(steps, ep)))
  {
    if sg: string :| StepsShowing(steps[ep.a..ep.b], sg) >= 3 {
      assert ep.data.sigs[sg] >= 3;
    }
  }

  lemma KindSaid(steps: seq<Labelled>, contents: seq<Content>, eps: seq<Episode>, k: nat)
    requires |contents| == |eps| && (forall j :: 0 <= j < |eps| ==> eps[j].data == contents[j]) && k < |eps|
    requires eps[k].kind == KindOf(BehindError(steps, eps[k]), contents[k].dom, EditSeen(contents, k + 1))
    ensures KindSays(steps, eps, k)
  {
    var edited := EditSeen(contents, k);
    assert EditSeen(contents, k + 1) <==> edited || contents[k].dom == Edit;
    KindOfFits(BehindError(steps, eps[k]), contents[k].dom, edited);
  }

  lemma KindOfFits(afterErr: bool, dom: Family, edited: bool)
    ensures KindFits(KindOf(afterErr, dom, edited || dom == Edit), afterErr, dom, edited)
  {
  }

  lemma FinishedParts(steps: seq<Labelled>, cuts: seq<nat>, contents: seq<Content>, eps: seq<Episode>, k: nat)
    requires EpisodesFor(steps, cuts, contents, eps) && k < |eps|
    ensures var ep, d := eps[k], Drafted(steps, cuts, contents, k);
      && d.a == cuts[k] && d.b == End(cuts, |steps|, k) && d.data == contents[k]
      && d.kind == KindOf(BehindError(steps, d), contents[k].dom, EditSeen(contents, k + 1))
      && ep == d.(outcome := OutcomeOf(steps, d))
  {
    assert eps[k] == Finished(steps, cuts, contents, k);
  }

  /** Every episode says the truth of its steps. */
  lemma EpisodesSay(steps: seq<Labelled>, cuts: seq<nat>, eps: seq<Episode>, k: nat)
    requires Tiles(cuts, |steps|) && EpisodesFor(steps, cuts, Contents(steps, cuts), eps) && k < |eps|
    ensures KindSays(steps, eps, k) && ContentSays(steps, eps[k]) && OutcomeSays(steps, eps[k])
  {
    var contents := Contents(steps, cuts);
    forall j | 0 <= j < |eps| ensures eps[j].data == contents[j] {
      FinishedParts(steps, cuts, contents, eps, j);
    }
    FinishedParts(steps, cuts, contents, eps, k);
    KindSaid(steps, contents, eps, k);
    EpisodeSaid(steps, cuts, k, Drafted(steps, cuts, contents, k));
  }

  lemma EpisodeSaid(steps: seq<Labelled>, cuts: seq<nat>, k: nat, d: Episode)
    requires Tiles(cuts, |steps|) && k < |cuts|
    requires d.a == cuts[k] && d.b == End(cuts, |steps|, k) && d.data == Contents(steps, cuts)[k]
    requires d.kind == Recover <==> BehindError(steps, d)
    ensures var ep := d.(outcome := OutcomeOf(steps, d)); ContentSays(steps, ep) && OutcomeSays(steps, ep)
  {
    ContentSaid(steps, cuts, k, d);
    OutcomeSaid(steps, d);
  }

  method Segment(steps: seq<Labelled>, human: seq<Option<real>>) returns (eps: seq<Episode>, ghost cuts: seq<nat>)
    ensures steps == [] ==> eps == []
    ensures steps != [] ==> CutsOf(steps, human, cuts) && Tiles(cuts, |steps|)
                            && EpisodesFor(steps, cuts, Contents(steps, cuts), eps)
    ensures forall k :: 0 <= k < |eps| ==>
      KindSays(steps, eps, k) && ContentSays(steps, eps[k]) && OutcomeSays(steps, eps[k])
  {
    if steps == [] { return [], []; }
    var sm := Smooth(Families(steps));
    var hard := HardBoundaries(steps, human);
    var found := Cuts(sm, hard);
    cuts := found;
    assert SmoothedFamilies(steps, sm) && HardSet(steps, human, hard);
    var contents := Describe(steps, found);
    var drafts := DraftEpisodes(steps, found, contents);
    eps := Outcomes(steps, drafts);
    forall k | 0 <= k < |eps|
      ensures KindSays(steps, eps, k) && ContentSays(steps, eps[k]) && OutcomeSays(steps, eps[k]) {
      EpisodesSay(steps, cuts, eps, k);
    }
  }

  // ----- what the episodes satisfy

  datatype Totals = Totals(steps: int, errs: nat, think: nat, sigs: multiset<string>)

  function TotalsOf(eps: seq<Episode>): Totals {
    if eps == [] then Totals(0, 0, 0, multiset{})
    else
      var t, ep := TotalsOf(eps[..|eps| - 1]), eps[|eps| - 1];
      Totals(t.steps + (ep.b - ep.a), t.errs + ep.data.errs, t.think + ep.data.think, t.sigs + ep.data.sigs)
  }

  lemma {:induction false} SumsConcat(a: seq<Labelled>, b: seq<Labelled>)
    ensures Errs(a + b) == Errs(a) + Errs(b) && Thinking(a + b) == Thinking(a) + Thinking(b)
    ensures Sigs(a + b) == Sigs(a) + Sigs(b)
  {
    if b == [] {
      assert a + b == a;
    } else {
      SumsConcat(a, b[..|b| - 1]);
      assert (a + b)[..|a + b| - 1] == a + b[..|b| - 1];
    }
  }

  /** Summed over the episodes, steps, errors, signatures and thinking give the transcript's totals. */
  lemma Conservation(steps: seq<Labelled>, cuts: seq<nat>, eps: seq<Episode>)
    requires Tiles(cuts, |steps|) && EpisodesFor(steps, cuts, Contents(steps, cuts), eps)
    ensures TotalsOf(eps) == Totals(|steps|, Errs(steps), Thinking(steps), Sigs(steps))
  {
    forall k | 0 <= k < |eps| ensures Carries(steps, cuts, eps, k) {
      assert Contents(steps, cuts)[k] == ContentOf(EpisodeSteps(steps, cuts, k));
    }
    PrefixTotals(steps, cuts, eps, |eps|);
    assert eps[..|eps|] == eps && steps[..|steps|] == steps;
  }

  ghost predicate Carries(steps: seq<Labelled>, cuts: seq<nat>, eps: seq<Episode>, k: nat)
    requires Tiles(cuts, |steps|) && k < |eps| == |cuts|
  {
    var data, seg := eps[k].data, EpisodeSteps(steps, cuts, k);
    && eps[k].a == cuts[k] && eps[k].b == End(cuts, |steps|, k)
    && data.errs == Errs(seg) && data.think == Thinking(seg) && data.sigs == Sigs(seg)
  }

  lemma {:induction false} PrefixTotals(steps: seq<Labelled>, cuts: seq<nat>, eps: seq<Episode>, k: nat)
    requires Tiles(cuts, |steps|) && |eps| == |cuts| && 0 < k <= |eps|
    requires forall i :: 0 <= i < |eps| ==> Carries(steps, cuts, eps, i)
    ensures var end := End(cuts, |steps|, k - 1);
            TotalsOf(eps[..k]) == Totals(end, Errs(steps[..end]), Thinking(steps[..end]), Sigs(steps[..end]))
  {
    var a, end := cuts[k - 1], End(cuts, |steps|, k - 1);
    assert Carries(steps, cuts, eps, k - 1);
    assert TotalsOf(eps[..k - 1]) == Totals(a, Errs(steps[..a]), Thinking(steps[..a]), Sigs(steps[..a])) by {
      if k > 1 {
        PrefixTotals(steps, cuts, eps, k - 1);
      } else {
        assert eps[..0] == [] && steps[..0] == [];
      }
    }
    SplitSums(steps, a, end);
    assert eps[..k][..k - 1] == eps[..k - 1];
  }

  lemma SplitSums(steps: seq<Labelled>, a: nat, b: nat)
    requires a <= b <= |steps|
    ensures Errs(steps[..b]) == Errs(steps[..a]) + Errs(steps[a..b])
    ensures Thinking(steps[..b]) == Thinking(steps[..a]) + Thinking(steps[a..b])
    ensures Sigs(steps[..b]) == Sigs(steps[..a]) + Sigs(steps[a..b])
  {
    assert steps[..b] == steps[..a] + steps[a..b];
    SumsConcat(steps[..a], steps[a..b]);
  }

  /** Orienting and reproducing end with the first edit-dominated episode; the other two need it. */
  lemma KindsFollowFirstEdit(steps: seq<Labelled>, cuts: seq<nat>, contents: seq<Content>, eps: seq<Episode>, i: nat, j: nat)
    requires EpisodesFor(steps, cuts, contents, eps) && i < |eps| && j < |eps|
    ensures eps[i].kind in {Orient, Reproduce} && eps[j].data.dom == Edit ==> i < j
    ensures eps[i].kind in {Investigate, Verify} ==> exists e :: 0 <= e < i && eps[e].data.dom == Edit
    ensures eps[i].kind in {Orient, Reproduce} && eps[j].kind in {Investigate, Verify} ==> i < j
    ensures eps[i].kind == Recover <==> eps[i].a > 0 && steps[eps[i].a - 1].err
  {
    forall k | 0 <= k < |eps| ensures eps[k].data == contents[k] {
      assert eps[k] == Finished(steps, cuts, contents, k);
    }
    KindMeans(steps, cuts, contents, i);
    KindMeans(steps, cuts, contents, j);
  }

  lemma KindMeans(steps: seq<Labelled>, cuts: seq<nat>, contents: seq<Content>, k: nat)
    requires Fitting(steps, cuts, contents) && k < |cuts|
    ensures var kind := Drafted(steps, cuts, contents, k).kind;
            && (kind in {Orient, Reproduce} ==> !EditSeen(contents, k + 1))
            && (kind in {Investigate, Verify} ==> EditSeen(contents, k))
            && (kind == Recover <==> cuts[k] > 0 && steps[cuts[k] - 1].err)
  {
  }

  /** So an episode is stuck exactly when some signature shows in three of its steps. */
  lemma StuckMeansThreeSteps(steps: seq<Labelled>, seg: seq<Labelled>, ep: Episode)
    requires ep.data.sigs == Sigs(seg)
    ensures OutcomeOf(steps, ep) == Stuck <==>
            exists sg: string :: StepsShowing(seg, sg) >= 3
  {
    forall sg: string ensures Sigs(seg)[sg] == StepsShowing(seg, sg) {
      SigCount(seg, sg);
    }
    if sg: string :| StepsShowing(seg, sg) >= 3 {
      assert sg in ep.data.sigs && ep.data.sigs[sg] >= 3;
    }
  }

  // ----- the resolve pattern

  function Command(calls: seq<Call>): Option<string> {
    if calls == [] then None
    else if calls[0].family in {Test, Exec} then Some(calls[0].target)
    else Command(calls[1..])
  }

  lemma {:induction false} WithoutPart(fs: seq<Family>, dropped: set<Family>, f: Family)
    ensures f in Without(fs, dropped) ==> f in fs
  {
    if fs != [] { WithoutPart(fs[1..], dropped, f); }
  }

  lemma {:induction false} CommandOf(calls: seq<Call>, i: nat)
    requires i < |calls| && calls[i].family in {Test, Exec}
    ensures Command(calls).Some?
  {
    if i > 0 { CommandOf(calls[1..], i - 1); }
  }

  /** A step labelled as a test or a run has a command: the default of the lookup is never taken. */
  lemma LabelledRunHasCommand(s: Step)
    requires Label(s).family in {Test, Exec}
    ensures Command(s.calls).Some?
  {
    var fs := CallFamilies(s);
    WithoutPart(fs, {Other}, Label(s).family);
    var i :| 0 <= i < |fs| && fs[i] == Label(s).family;
    CommandOf(s.calls, i);
  }

  predicate Reruns(s: Labelled, cmd: Option<string>) {
    CleanRun(s) && exists c :: c in s.step.calls && Some(c.target) == cmd
  }

  /** Step `i` fails a test or run; within twelve steps comes an edit, then a clean rerun of its command. */
  predicate ResolvedAt(steps: seq<Labelled>, i: nat)
    requires i < |steps|
  {
    && steps[i].err && steps[i].family in {Test, Exec}
    && exists j :: i < j <= i + 12 && j < |steps| && Reruns(steps[j], Command(steps[i].step.calls))
                   && exists e :: i < e < j && steps[e].family == Edit
  }

  /** The command is the target of the first call that tests or runs. */
  lemma {:induction false} CommandIsFirst(calls: seq<Call>, i: nat)
    requires i < |calls| && (calls[i].family == Test || calls[i].family == Exec)
    requires forall j :: 0 <= j < i ==> calls[j].family != Test && calls[j].family != Exec
    ensures Command(calls) == Some(calls[i].target)
  {
    if i > 0 { CommandIsFirst(calls[1..], i - 1); }
  }

  /** In full: the failing run, the edit behind it, and the clean rerun of its first command. */
  lemma ResolvedMeans(steps: seq<Labelled>, i: nat, c: nat)
    requires i < |steps| && c < |steps[i].step.calls|
    requires var calls := steps[i].step.calls;
      && (calls[c].family == Test || calls[c].family == Exec)
      && forall j :: 0 <= j < c ==> calls[j].family != Test && calls[j].family != Exec
    ensures ResolvedAt(steps, i) <==>
      && steps[i].err && (steps[i].family == Test || steps[i].family == Exec)
      && exists e, j, d :: i < e < j <= i + 12 && j < |steps| && steps[e].family == Edit && !steps[j].err
           && (steps[j].family == Test || steps[j].family == Exec)
           && 0 <= d < |steps[j].step.calls| && steps[j].step.calls[d].target == steps[i].step.calls[c].target
  {
    CommandIsFirst(steps[i].step.calls, c);
    var cmd := Some(steps[i].step.calls[c].target);
    forall j | 0 <= j < |steps| ensures Reruns(steps[j], cmd) <==>
      !steps[j].err && (steps[j].family == Test || steps[j].family == Exec)
      && exists d :: 0 <= d < |steps[j].step.calls| && Some(steps[j].step.calls[d].target) == cmd {}
  }

  function ResolvedBefore(steps: seq<Labelled>, n: nat): set<nat>
    requires n <= |steps|
  {
    set i | 0 <= i < n && ResolvedAt(steps, i)
  }

  lemma NextCounted(before: set<nat>, after: set<nat>, n: nat, hit: bool)
    requires n !in before && forall i :: i in after <==> i in before || (hit && i == n)
    ensures |after| == |before| + if hit then 1 else 0
  {
    assert after == before + if hit then {n} else {};
  }

  lemma CountNext(steps: seq<Labelled>, n: nat)
    requires n < |steps|
    ensures |ResolvedBefore(steps, n + 1)| == |ResolvedBefore(steps, n)| + if ResolvedAt(steps, n) then 1 else 0
  {
    NextCounted(ResolvedBefore(steps, n), ResolvedBefore(steps, n + 1), n, ResolvedAt(steps, n));
  }

  method Resolves(steps: seq<Labelled>) returns (resolves: nat)
    ensures resolves == |ResolvedBefore(steps, |steps|)|
  {
    resolves := 0;
    for i := 0 to |steps|
      invariant resolves == |ResolvedBefore(steps, i)|
    {
      CountNext(steps, i);
      var hit := false;
      if steps[i].err && steps[i].family in {Test, Exec} {
        hit := ResolvedFrom(steps, i, Command(steps[i].step.calls));
      }
      if hit { resolves := resolves + 1; }
    }
  }

  /** The inner loop of the resolve pattern. */
  method ResolvedFrom(steps: seq<Labelled>, i: nat, cmd: Option<string>) returns (hit: bool)
    requires i < |steps|
    ensures hit <==> exists j :: i < j <= i + 12 && j < |steps| && Reruns(steps[j], cmd)
                                 && exists e :: i < e < j && steps[e].family == Edit
  {
    var edited := false;
    var last := if i + 13 <= |steps| then i + 13 else |steps|;
    var j := i + 1;
    while j < last
      invariant i < j <= last
      invariant edited <==> exists e :: i < e < j && steps[e].family == Edit
      invariant forall k :: i < k < j && Reruns(steps[k], cmd) ==> !(exists e :: i < e < k && steps[e].family == Edit)
    {
      var editedBefore := edited;
      edited := edited || steps[j].family == Edit;
      if edited && Reruns(steps[j], cmd) {
        assert editedBefore;
        return true;
      }
      j := j + 1;
    }
    return false;
  }
}
