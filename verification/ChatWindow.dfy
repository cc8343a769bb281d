/**
 The chat view as a window over the append-only server transcript: the server's pager, the
 polling tick, and what merging a page does to the window.
 */
module ChatWindow {
  import opened Wrappers
  import opened ChatModel

  // ----- the transcript and its pager

  /** A transcript: one sequence of entries per complete line. Offsets count lines. */
  type Transcript = seq<seq<Entry>>

  function Flatten(lines: Transcript): seq<Entry> {
    if lines == [] then [] else Flatten(lines[..|lines| - 1]) + lines[|lines| - 1]
  }

  /** How many entries the first `offset` lines hold. */
  function Count(lines: Transcript, offset: nat): nat
    requires offset <= |lines|
  {
    |Flatten(lines[..offset])|
  }

  /** Where a forward read from `offset` stops: at a line end, once `limit` entries are reached. */
  function ForwardEnd(lines: Transcript, offset: nat, limit: nat, got: nat): (end: nat)
    requires offset <= |lines|
    ensures offset <= end <= |lines|
    decreases |lines| - offset
  {
    if offset == |lines| || got >= limit then offset
    else ForwardEnd(lines, offset + 1, limit, got + |lines[offset]|)
  }

  datatype Page = Page(entries: seq<Entry>, offset: nat, reset: bool)

  /** The next page after `after`; a limit of zero is never asked for. */
  function ForwardPage(lines: Transcript, after: nat, limit: nat): Page
    requires after <= |lines|
  {
    var end := ForwardEnd(lines, after, limit, 0);
    Page(Flatten(lines[after..end]), end, false)
  }

  /** The last entries of the lines from `from` on, the stretch of file a tail read looks at. */
  function TailPage(lines: Transcript, from: nat, limit: nat, reset: bool): Page
    requires from <= |lines|
  {
    Page(Newest(Flatten(lines[from..]), limit), |lines|, reset)
  }

  function Within(from: nat, lines: Transcript): nat {
    if from <= |lines| then from else |lines|
  }

  function Size(server: Option<Transcript>): nat {
    match server
    case None => 0
    case Some(lines) => |lines|
  }

  /**
   The answer to one request: the last entries before the first page, the next page after it,
   and a reset page when the stored offset lies behind the end. A transcript that is not there
   yields the empty page at offset zero, without a reset.
   */
  function Answer(server: Option<Transcript>, started: bool, after: nat, from: nat): (page: Page)
    ensures page.offset <= Size(server)
  {
    match server
    case None => Page([], 0, false)
    case Some(lines) =>
      if !started then TailPage(lines, Within(from, lines), LIMIT, false)
      else if after > |lines| then TailPage(lines, Within(from, lines), LIMIT, true)
      else ForwardPage(lines, after, LIMIT)
  }

  lemma {:induction false} FlattenConcat(a: Transcript, b: Transcript)
    ensures Flatten(a + b) == Flatten(a) + Flatten(b)
  {
    if b == [] {
      assert a + b == a;
    } else {
      FlattenConcat(a, b[..|b| - 1]);
      assert (a + b)[..|a + b| - 1] == a + b[..|b| - 1];
    }
  }

  lemma FlattenSlice(lines: Transcript, a: nat, b: nat)
    requires a <= b <= |lines|
    ensures Count(lines, a) <= Count(lines, b) <= |Flatten(lines)|
    ensures Flatten(lines[a..b]) == Flatten(lines)[Count(lines, a)..Count(lines, b)]
    ensures b == |lines| ==> Count(lines, b) == |Flatten(lines)|
  {
    assert lines == lines[..b] + lines[b..];
    FlattenConcat(lines[..b], lines[b..]);
    assert lines[..b] == lines[..a] + lines[a..b];
    FlattenConcat(lines[..a], lines[a..b]);
    assert b == |lines| ==> lines[..b] == lines;
  }

  lemma {:induction false} ForwardReaches(lines: Transcript, offset: nat, limit: nat, got: nat)
    requires offset <= |lines|
    ensures var end := ForwardEnd(lines, offset, limit, got);
            got + |Flatten(lines[offset..end])| >= limit || end == |lines|
    decreases |lines| - offset
  {
    if !(offset == |lines| || got >= limit) {
      var end := ForwardEnd(lines, offset, limit, got);
      ForwardReaches(lines, offset + 1, limit, got + |lines[offset]|);
      assert lines[offset..end] == [lines[offset]] + lines[offset + 1..end];
      FlattenConcat([lines[offset]], lines[offset + 1..end]);
    } else if offset != |lines| {
      assert lines[offset..offset] == [];
    }
  }

  /** A page that came back short was read to the end of the transcript. */
  lemma ShortPageCaughtUp(lines: Transcript, after: nat, limit: nat)
    requires after <= |lines|
    ensures |ForwardPage(lines, after, limit).entries| < limit ==> ForwardPage(lines, after, limit).offset == |lines|
  {
    ForwardReaches(lines, after, limit, 0);
  }

  // ----- windows

  /** Every entry carries a transcript uuid, no two the same one. */
  ghost predicate Identified(all: seq<Entry>) {
    && (forall i :: 0 <= i < |all| ==> all[i].uuid.Some? && all[i].uuid.value.FromTranscript?)
    && forall i, j :: 0 <= i < j < |all| ==> all[i].uuid != all[j].uuid
  }

  ghost predicate NoRepeats(view: seq<Entry>) {
    && (forall i :: 0 <= i < |view| ==> view[i].uuid.Some?)
    && forall i, j :: 0 <= i < j < |view| ==> view[i].uuid != view[j].uuid
  }

  predicate IsLocal(e: Entry) {
    e.uuid.Some? && e.uuid.value.Local?
  }

  /** The entries of the view that come from the transcript. */
  function Served(view: seq<Entry>): seq<Entry> {
    if view == [] then []
    else Served(view[..|view| - 1]) + if IsLocal(view[|view| - 1]) then [] else [view[|view| - 1]]
  }

  /**
   The view holds no entry twice, at most a thousand, and its transcript entries are the
   contiguous stretch of the transcript that ends at entry `hi`.
   */
  ghost predicate WindowOf(view: seq<Entry>, all: seq<Entry>, lo: nat, hi: nat) {
    lo <= hi <= |all| && NoRepeats(view) && |view| <= CAP && Served(view) == all[lo..hi]
  }

  ghost predicate Window(view: seq<Entry>, all: seq<Entry>, hi: nat) {
    exists lo: nat :: WindowOf(view, all, lo, hi)
  }

  lemma {:induction false} ServedConcat(a: seq<Entry>, b: seq<Entry>)
    ensures Served(a + b) == Served(a) + Served(b)
  {
    if b == [] {
      assert a + b == a;
    } else {
      ServedConcat(a, b[..|b| - 1]);
      assert (a + b)[..|a + b| - 1] == a + b[..|b| - 1];
    }
  }

  lemma {:induction false} ServedMember(view: seq<Entry>, e: Entry)
    ensures e in Served(view) <==> e in view && !IsLocal(e)
  {
    if view != [] {
      ServedMember(view[..|view| - 1], e);
      assert view == view[..|view| - 1] + [view[|view| - 1]];
    }
  }

  lemma {:induction false} ServedAll(s: seq<Entry>)
    requires forall i :: 0 <= i < |s| ==> !IsLocal(s[i])
    ensures Served(s) == s
  {
    if s != [] { ServedAll(s[..|s| - 1]); }
  }

  lemma SliceServed(all: seq<Entry>, a: nat, b: nat)
    requires Identified(all) && a <= b <= |all|
    ensures NoRepeats(all[a..b]) && Served(all[a..b]) == all[a..b]
  {
    var s := all[a..b];
    forall i | 0 <= i < |s| ensures s[i] == all[a + i] && !IsLocal(s[i]) {}
    ServedAll(s);
  }

  lemma {:induction false} FirstsOfUnique(s: seq<Entry>)
    requires NoRepeats(s)
    ensures Firsts(s) == s
  {
    if s != [] {
      var init, last := s[..|s| - 1], s[|s| - 1];
      FirstsOfUnique(init);
      assert s == init + [last];
      NewUuid(init, last);
    }
  }

  /** Merging new entries after known ones keeps the view and adds the new ones at its end. */
  lemma FirstsExtends(view: seq<Entry>, known: seq<Entry>, more: seq<Entry>)
    requires NoRepeats(view + more)
    requires forall e :: e in known ==> e in view
    ensures Firsts(view + known + more) == view + more
  {
    assert (view + more)[..|view|] == view;
    FirstsKnown(view, known);
    FirstsMore(view + known, view, more);
  }

  lemma {:induction false} FirstsMore(es: seq<Entry>, view: seq<Entry>, more: seq<Entry>)
    requires Firsts(es) == view && NoRepeats(view + more)
    ensures Firsts(es + more) == view + more
  {
    if more == [] {
      assert es + more == es && view + more == view;
    } else {
      var init, last := more[..|more| - 1], more[|more| - 1];
      assert view + more == (view + init) + [last];
      assert (view + more)[..|view + init|] == view + init;
      FirstsMore(es, view, init);
      assert (es + more)[..|es + more| - 1] == es + init;
      NewUuid(view + init, last);
    }
  }

  lemma NewUuid(s: seq<Entry>, e: Entry)
    requires NoRepeats(s + [e])
    ensures e.uuid.Some? && e.uuid.value !in UuidsOf(s)
  {
    assert (s + [e])[|s|] == e;
    forall d | d in s ensures d.uuid != e.uuid {
      var i :| 0 <= i < |s| && s[i] == d;
      assert (s + [e])[i] == d;
    }
  }

  /** Entries already present add nothing. */
  lemma {:induction false} FirstsKnown(s: seq<Entry>, known: seq<Entry>)
    requires NoRepeats(s) && forall i :: 0 <= i < |known| ==> known[i] in s
    ensures Firsts(s + known) == s
  {
    if known == [] {
      assert s + known == s;
      FirstsOfUnique(s);
    } else {
      var init, last := known[..|known| - 1], known[|known| - 1];
      FirstsKnown(s, init);
      assert (s + known)[..|s + known| - 1] == s + init;
      assert last in s && last.uuid.value in UuidsOf(s);
    }
  }

  lemma ServedSuffix(s: seq<Entry>, k: nat)
    requires k <= |s|
    ensures |Served(s[..k])| <= |Served(s)| && Served(s[k..]) == Served(s)[|Served(s[..k])|..]
  {
    assert s == s[..k] + s[k..];
    ServedConcat(s[..k], s[k..]);
  }

  /** Keeping the newest thousand shortens a window at its old end. */
  lemma CapKeepsWindow(s: seq<Entry>, all: seq<Entry>, lo: nat, hi: nat)
    requires lo <= hi <= |all| && NoRepeats(s) && Served(s) == all[lo..hi]
    ensures Window(Newest(s, CAP), all, hi)
  {
    var k := if |s| > CAP then |s| - CAP else 0;
    ServedSuffix(s, k);
    assert s[0..] == s;
    var lo' := lo + |Served(s[..k])|;
    assert WindowOf(Newest(s, CAP), all, lo', hi);
  }

  lemma NotInWindow(view: seq<Entry>, all: seq<Entry>, lo: nat, hi: nat, k: nat)
    requires WindowOf(view, all, lo, hi) && Identified(all) && k < |all| && !(lo <= k < hi)
    ensures forall i :: 0 <= i < |view| ==> view[i].uuid != all[k].uuid
  {
    forall i | 0 <= i < |view| ensures view[i].uuid != all[k].uuid {
      if !IsLocal(view[i]) {
        ServedMember(view, view[i]);
        var n :| lo <= n < hi && all[n] == view[i] by {
          assert view[i] in all[lo..hi];
        }
      }
    }
  }

  lemma NoRepeatsConcat(u: seq<Entry>, w: seq<Entry>)
    requires NoRepeats(u) && NoRepeats(w) && UuidsOf(u) !! UuidsOf(w)
    ensures NoRepeats(u + w)
  {
    forall i, j | 0 <= i < |u| && 0 <= j < |w| ensures u[i].uuid != w[j].uuid {
      assert u[i].uuid.value in UuidsOf(u) && w[j].uuid.value in UuidsOf(w);
    }
  }

  lemma OutsideApart(view: seq<Entry>, all: seq<Entry>, lo: nat, hi: nat, a: nat, b: nat)
    requires WindowOf(view, all, lo, hi) && Identified(all) && a <= b <= |all| && (b <= lo || hi <= a)
    ensures UuidsOf(view) !! UuidsOf(all[a..b])
  {
    forall e | e in all[a..b] ensures e.uuid.value !in UuidsOf(view) {
      var k :| a <= k < b && all[k] == e;
      NotInWindow(view, all, lo, hi, k);
    }
  }

  lemma ExtendsWithoutRepeats(view: seq<Entry>, all: seq<Entry>, lo: nat, hi: nat, b: nat)
    requires WindowOf(view, all, lo, hi) && Identified(all) && hi <= b <= |all|
    ensures NoRepeats(view + all[hi..b])
  {
    SliceServed(all, hi, b);
    OutsideApart(view, all, lo, hi, hi, b);
    NoRepeatsConcat(view, all[hi..b]);
  }

  lemma WindowHolds(view: seq<Entry>, all: seq<Entry>, lo: nat, hi: nat, a: nat, m: nat)
    requires WindowOf(view, all, lo, hi) && lo <= a <= m <= hi
    ensures forall e :: e in all[a..m] ==> e in view
  {
    forall e | e in all[a..m] ensures e in view {
      var i :| 0 <= i < m - a && all[a..m][i] == e;
      assert all[lo..hi][a + i - lo] == e;
      ServedMember(view, e);
    }
  }

  lemma WindowExtends(view: seq<Entry>, all: seq<Entry>, lo: nat, hi: nat, end: nat)
    requires WindowOf(view, all, lo, hi) && Identified(all) && hi <= end <= |all|
    ensures Window(Newest(view + all[hi..end], CAP), all, end)
  {
    ExtendsWithoutRepeats(view, all, lo, hi, end);
    ServedConcat(view, all[hi..end]);
    ServedAll(all[hi..end]);
    assert all[lo..hi] + all[hi..end] == all[lo..end];
    CapKeepsWindow(view + all[hi..end], all, lo, end);
  }

  /**
   A page that starts inside the window, wherever it ends and however much of it was already
   there, turns the window into one that ends at the furthest entry read.
   */
  lemma MergeKeepsWindow(view: seq<Entry>, all: seq<Entry>, lo: nat, hi: nat, a: nat, b: nat)
    requires WindowOf(view, all, lo, hi) && Identified(all) && lo <= a <= hi && a <= b <= |all|
    ensures Window(Merged(view, all[a..b], false), all, if b > hi then b else hi)
  {
    var m := if b > hi then hi else b;
    var end := if b > hi then b else hi;
    var known, more := all[a..m], all[hi..end];
    assert all[a..b] == known + more;
    assert view + all[a..b] == view + known + more;
    WindowHolds(view, all, lo, hi, a, m);
    ExtendsWithoutRepeats(view, all, lo, hi, end);
    FirstsExtends(view, known, more);
    WindowExtends(view, all, lo, hi, end);
  }

  /** A page from before the window: what the cap had pushed out lands behind the newest entries. */
  lemma EarlierPageMerged(view: seq<Entry>, all: seq<Entry>, lo: nat, hi: nat, a: nat, b: nat)
    requires WindowOf(view, all, lo, hi) && Identified(all) && a < lo && a < b <= |all|
    ensures var m, end := if b > lo then lo else b, if b > hi then b else hi;
            && NoRepeats(view + all[a..m] + all[hi..end])
            && Merged(view, all[a..b], false) == Newest(view + all[a..m] + all[hi..end], CAP)
  {
    var end := if b > hi then b else hi;
    if b > lo {
      ApartFromWindow(view, all, lo, hi, a, lo, end);
      OverlapMerged(view, all, lo, hi, a, if b > hi then hi else b, end);
    } else {
      ApartFromWindow(view, all, lo, hi, a, b, hi);
      assert all[hi..hi] == [];
      assert view + all[a..b] + [] == view + all[a..b];
      FirstsOfUnique(view + all[a..b]);
    }
  }

  lemma OverlapMerged(view: seq<Entry>, all: seq<Entry>, lo: nat, hi: nat, a: nat, k: nat, end: nat)
    requires WindowOf(view, all, lo, hi) && a < lo <= k <= hi <= end <= |all| && (k < hi ==> end == hi)
    requires NoRepeats(view + all[a..lo] + all[hi..end])
    ensures var b := if k < hi then k else end;
            Firsts(view + all[a..b]) == view + all[a..lo] + all[hi..end]
  {
    var back, known, more := all[a..lo], all[lo..k], all[hi..end];
    var b := if k < hi then k else end;
    assert all[a..b] == back + known + more;
    assert view + all[a..b] == view + back + known + more;
    WindowHolds(view, all, lo, hi, lo, k);
    FirstsExtends(view + back, known, more);
  }

  lemma ApartFromWindow(view: seq<Entry>, all: seq<Entry>, lo: nat, hi: nat, a: nat, m: nat, end: nat)
    requires WindowOf(view, all, lo, hi) && Identified(all) && a <= m <= lo && hi <= end <= |all|
    ensures NoRepeats(view + all[a..m] + all[hi..end])
  {
    OutsideApart(view, all, lo, hi, a, m);
    OutsideApart(view, all, lo, hi, hi, end);
    SlicesApart(all, a, m, hi, end);
    ThreeApart(view, all[a..m], all[hi..end]);
  }

  lemma SlicesApart(all: seq<Entry>, a: nat, m: nat, hi: nat, end: nat)
    requires Identified(all) && a <= m <= hi <= end <= |all|
    ensures NoRepeats(all[a..m]) && NoRepeats(all[hi..end]) && UuidsOf(all[a..m]) !! UuidsOf(all[hi..end])
  {
    SliceServed(all, a, m);
    SliceServed(all, hi, end);
  }

  lemma ThreeApart(u: seq<Entry>, v: seq<Entry>, w: seq<Entry>)
    requires NoRepeats(u) && NoRepeats(v) && NoRepeats(w)
    requires UuidsOf(u) !! UuidsOf(v) !! UuidsOf(w)
    ensures NoRepeats(u + v + w)
  {
    NoRepeatsConcat(u, v);
    assert UuidsOf(u + v) == UuidsOf(u) + UuidsOf(v);
    NoRepeatsConcat(u + v, w);
  }

  /** So the entry before the newest ones is not the one the transcript has there. */
  lemma EarlierPageBreaks(view: seq<Entry>, all: seq<Entry>, lo: nat, hi: nat, a: nat, b: nat)
    requires WindowOf(view, all, lo, hi) && Identified(all) && lo < hi && a < lo && a < b <= |all|
    requires b - hi < CAP
    ensures !Window(Merged(view, all[a..b], false), all, if b > hi then b else hi)
  {
    var m, end := if b > lo then lo else b, if b > hi then b else hi;
    EarlierPageMerged(view, all, lo, hi, a, b);
    var x, more := all[m - 1], all[hi..end];
    var pre := view + all[a..m - 1];
    assert all[a..m] == all[a..m - 1] + [x];
    assert view + all[a..m] + more == pre + ([x] + more);
    StrangerKept(pre, x, more, all, end);
  }

  lemma StrangerKept(pre: seq<Entry>, x: Entry, more: seq<Entry>, all: seq<Entry>, hi: nat)
    requires |more| < CAP && |more| < hi <= |all| && x.uuid != all[hi - |more| - 1].uuid
    requires !IsLocal(x) && forall i :: 0 <= i < |more| ==> !IsLocal(more[i])
    ensures !Window(Newest(pre + ([x] + more), CAP), all, hi)
  {
    EndsWith(pre, [x] + more);
    var served := Served(Newest(pre + ([x] + more), CAP));
    assert served[|served| - |more| - 1] == served[|served| - |[x] + more|..][0];
    StrangerBefore(Newest(pre + ([x] + more), CAP), x, more, all, hi);
  }

  lemma StrangerBefore(view: seq<Entry>, x: Entry, more: seq<Entry>, all: seq<Entry>, hi: nat)
    requires |more| < hi <= |all| && x.uuid != all[hi - |more| - 1].uuid
    requires |Served(view)| > |more| && Served(view)[|Served(view)| - |more| - 1] == x
    ensures !Window(view, all, hi)
  {
    if lo: nat :| WindowOf(view, all, lo, hi) { WindowEntries(view, all, lo, hi); }
  }

  lemma WindowEntries(view: seq<Entry>, all: seq<Entry>, lo: nat, hi: nat)
    requires WindowOf(view, all, lo, hi)
    ensures forall i :: 0 <= i < |Served(view)| ==> Served(view)[i] == all[hi - |Served(view)| + i]
  {
  }

  /** The kept part of a sequence ends as the sequence does. */
  lemma EndsWith(pre: seq<Entry>, tail: seq<Entry>)
    requires |tail| <= CAP && forall i :: 0 <= i < |tail| ==> !IsLocal(tail[i])
    ensures var s := Served(Newest(pre + tail, CAP)); |s| >= |tail| && s[|s| - |tail|..] == tail
  {
    var kept := Newest(pre, CAP - |tail|);
    assert Newest(pre + tail, CAP) == kept + tail;
    ServedConcat(kept, tail);
    ServedAll(tail);
  }

  /** A page so long that nothing older stays is a window of its own. */
  lemma LongPageStartsOver(prior: seq<Entry>, all: seq<Entry>, a: nat, b: nat)
    requires Identified(all) && a <= b <= |all| && b - a >= CAP
    ensures Window(Newest(prior + all[a..b], CAP), all, b)
  {
    assert Newest(prior + all[a..b], CAP) == all[b - CAP..b];
    SliceServed(all, b - CAP, b);
    assert WindowOf(all[b - CAP..b], all, b - CAP, b);
  }

  /**
   The window survives a page exactly when the page starts inside it, is empty, or brings so many
   new entries that nothing older stays.
   */
  lemma MergeExactly(view: seq<Entry>, all: seq<Entry>, lo: nat, hi: nat, a: nat, b: nat)
    requires WindowOf(view, all, lo, hi) && Identified(all) && lo < hi && a <= hi && a <= b <= |all|
    ensures Window(Merged(view, all[a..b], false), all, if b > hi then b else hi) <==>
            lo <= a || a == b || b - hi >= CAP
  {
    if lo <= a {
      MergeKeepsWindow(view, all, lo, hi, a, b);
    } else if a == b {
      assert all[a..b] == all[hi..hi];
      MergeKeepsWindow(view, all, lo, hi, hi, hi);
    } else if b - hi >= CAP {
      EarlierPageMerged(view, all, lo, hi, a, b);
      LongPageStartsOver(view + all[a..lo], all, hi, b);
    } else {
      EarlierPageBreaks(view, all, lo, hi, a, b);
    }
  }

  /** How many of the older entries stay when `n` new ones come. */
  function Room(n: nat): nat {
    if n <= CAP then CAP - n else 0
  }

  /**
   A page of another transcript makes the view a window of that one exactly when no entry of the
   first transcript stays.
   */
  lemma OtherTranscriptExactly(view: seq<Entry>, all: seq<Entry>, a: nat, b: nat)
    requires NoRepeats(view) && |view| <= CAP && Identified(all)
    requires a <= b <= |all| && UuidsOf(Served(view)) !! UuidsOf(all)
    ensures Window(Merged(view, all[a..b], false), all, b) <==> Served(Newest(view, Room(b - a))) == []
  {
    ApartFromOther(view, all, a, b);
    FirstsOfUnique(view + all[a..b]);
    if b - a >= CAP {
      LongPageStartsOver(view, all, a, b);
    } else {
      NewestApart(view, all[a..b]);
      OtherWindow(view, Newest(view, Room(b - a)), all, a, b);
    }
  }

  lemma NewestApart(view: seq<Entry>, page: seq<Entry>)
    requires NoRepeats(view + page) && |page| < CAP
    ensures var kept := Newest(view, Room(|page|));
            && Newest(view + page, CAP) == kept + page && NoRepeats(kept + page)
            && forall e :: e in kept ==> e in view
  {
    var n := Room(|page|);
    var k := if |view| > n then |view| - n else 0;
    assert Newest(view, n) + page == (view + page)[k..];
  }

  lemma ApartFromOther(view: seq<Entry>, all: seq<Entry>, a: nat, b: nat)
    requires NoRepeats(view) && Identified(all) && a <= b <= |all|
    requires UuidsOf(Served(view)) !! UuidsOf(all)
    ensures NoRepeats(view + all[a..b])
  {
    SliceServed(all, a, b);
    forall e | e in all[a..b] ensures e.uuid.value !in UuidsOf(view) {
      assert e in all && e.uuid.value in UuidsOf(all);
      forall d | d in view && d.uuid == e.uuid ensures false { ServedMember(view, d); }
    }
    NoRepeatsConcat(view, all[a..b]);
  }

  lemma OtherWindow(view: seq<Entry>, kept: seq<Entry>, all: seq<Entry>, a: nat, b: nat)
    requires Identified(all) && a <= b <= |all| && NoRepeats(kept + all[a..b]) && |kept + all[a..b]| <= CAP
    requires UuidsOf(Served(view)) !! UuidsOf(all) && forall e :: e in kept ==> e in view
    ensures Window(kept + all[a..b], all, b) <==> Served(kept) == []
  {
    ServedConcat(kept, all[a..b]);
    SliceServed(all, a, b);
    if Served(kept) == [] {
      assert WindowOf(kept + all[a..b], all, a, b);
    } else {
      var y := Served(kept)[0];
      ServedMember(kept, y);
      ServedMember(view, y);
      NotThere(Served(view), y, all);
      StrangerBreaks(kept + all[a..b], y, all, b);
    }
  }

  lemma NotThere(served: seq<Entry>, y: Entry, all: seq<Entry>)
    requires y in served && Identified(all) && UuidsOf(served) !! UuidsOf(all)
    ensures y !in all
  {
    assert y.uuid.Some? ==> y.uuid.value in UuidsOf(served);
    assert forall e :: e in all ==> e.uuid.Some? && e.uuid.value in UuidsOf(all);
  }

  lemma StrangerBreaks(view: seq<Entry>, y: Entry, all: seq<Entry>, hi: nat)
    requires Served(view) != [] && Served(view)[0] == y && y !in all
    ensures !Window(view, all, hi)
  {
    if lo: nat :| WindowOf(view, all, lo, hi) { WindowEntries(view, all, lo, hi); }
  }

  /** The entries of a page whose uuids are not known yet. */
  function Unseen(page: seq<Entry>, known: set<Uuid>): seq<Entry> {
    if page == [] then []
    else
      var last := page[|page| - 1];
      Unseen(page[..|page| - 1], known) + if last.uuid.None? || last.uuid.value in known then [] else [last]
  }

  lemma {:induction false} UnseenPart(page: seq<Entry>, known: set<Uuid>)
    ensures forall e :: e in Unseen(page, known) ==> e in page && e.uuid.Some? && e.uuid.value !in known
  {
    if page != [] {
      UnseenPart(page[..|page| - 1], known);
      assert page == page[..|page| - 1] + [page[|page| - 1]];
    }
  }

  /** A page adds what is not in view, in order. */
  lemma {:induction false} FirstsUnseen(view: seq<Entry>, page: seq<Entry>)
    requires NoRepeats(view) && NoRepeats(page)
    ensures Firsts(view + page) == view + Unseen(page, UuidsOf(view))
  {
    if page == [] {
      assert view + page == view;
      FirstsOfUnique(view);
    } else {
      var init, last := page[..|page| - 1], page[|page| - 1];
      assert (view + page)[..|view + page| - 1] == view + init;
      assert page == init + [last];
      FirstsUnseen(view, init);
      UnseenPart(init, UuidsOf(view));
      NewUuid(init, last);
      assert UuidsOf(view + Unseen(init, UuidsOf(view))) == UuidsOf(view) + UuidsOf(Unseen(init, UuidsOf(view)));
    }
  }

  lemma {:induction false} FirstsUnique(es: seq<Entry>)
    ensures NoRepeats(Firsts(es))
  {
    if es != [] { FirstsUnique(es[..|es| - 1]); }
  }

  /** An entry that shares its key with one in view never shows. */
  lemma SharedKeyDropped(view: seq<Entry>, e: Entry)
    requires NoRepeats(view) && |view| <= CAP && e.uuid.Some? && e.uuid.value in UuidsOf(view)
    ensures Merged(view, [e], false) == view
  {
    FirstsUnseen(view, [e]);
    assert [e][..0] == [];
    assert view + [] == view;
  }

  /** `s` is the stretch of the transcript that ends at entry `hi`. */
  predicate StretchTo(s: seq<Entry>, all: seq<Entry>, hi: nat) {
    |s| <= hi <= |all| && s == all[hi - |s|..hi]
  }

  /** The transcript entries in view once `more` new ones have come. */
  function Remaining(view: seq<Entry>, more: seq<Entry>): seq<Entry> {
    Served(Newest(view, Room(|more|))) + Newest(more, CAP)
  }

  lemma NewestOfTwo(view: seq<Entry>, more: seq<Entry>)
    ensures Newest(view + more, CAP) == Newest(view, Room(|more|)) + Newest(more, CAP)
  {
  }

  lemma ServedMerged(view: seq<Entry>, page: seq<Entry>)
    requires NoRepeats(view) && NoRepeats(page) && forall i :: 0 <= i < |page| ==> !IsLocal(page[i])
    ensures Served(Merged(view, page, false)) == Remaining(view, Unseen(page, UuidsOf(view)))
  {
    var more := Unseen(page, UuidsOf(view));
    FirstsUnseen(view, page);
    NewestOfTwo(view, more);
    UnseenPart(page, UuidsOf(view));
    var tail := Newest(more, CAP);
    forall i | 0 <= i < |tail| ensures !IsLocal(tail[i]) { assert tail[i] in more; }
    ServedAll(tail);
    ServedConcat(Newest(view, Room(|more|)), tail);
  }

  lemma MergedUnique(view: seq<Entry>, page: seq<Entry>)
    ensures NoRepeats(Merged(view, page, false)) && |Merged(view, page, false)| <= CAP
  {
    FirstsUnique(view + page);
  }

  lemma WindowByServed(merged: seq<Entry>, all: seq<Entry>, hi: nat, served: seq<Entry>)
    requires NoRepeats(merged) && |merged| <= CAP && Served(merged) == served
    ensures Window(merged, all, hi) <==> StretchTo(served, all, hi)
  {
    if StretchTo(served, all, hi) {
      assert WindowOf(merged, all, hi - |served|, hi);
    }
  }

  /**
   A page of any other transcript, sharing entries with the view or not, makes the view a window of
   it exactly when what stays of the view and what the page adds stand there side by side.
   */
  lemma AnyTranscriptExactly(view: seq<Entry>, all: seq<Entry>, a: nat, b: nat)
    requires NoRepeats(view) && |view| <= CAP && Identified(all) && a <= b <= |all|
    ensures Window(Merged(view, all[a..b], false), all, b) <==>
            StretchTo(Remaining(view, Unseen(all[a..b], UuidsOf(view))), all, b)
  {
    var page := all[a..b];
    MergedUnique(view, page);
    PageServed(view, all, a, b);
    WindowByServed(Merged(view, page, false), all, b, Remaining(view, Unseen(page, UuidsOf(view))));
  }

  lemma PageServed(view: seq<Entry>, all: seq<Entry>, a: nat, b: nat)
    requires NoRepeats(view) && Identified(all) && a <= b <= |all|
    ensures Served(Merged(view, all[a..b], false)) == Remaining(view, Unseen(all[a..b], UuidsOf(view)))
  {
    var page := all[a..b];
    SliceServed(all, a, b);
    forall i | 0 <= i < |page| ensures !IsLocal(page[i]) { assert page[i] == all[a + i]; }
    ServedMerged(view, page);
  }

  lemma RereadInside(all: seq<Entry>, lo: nat, hi: nat, a: nat, b: nat)
    requires Identified(all) && lo <= a < b <= hi <= |all| && hi - lo <= CAP
    ensures Merged(all[lo..hi], all[a..b], false) == all[lo..hi]
  {
    var view, page := all[lo..hi], all[a..b];
    forall i | 0 <= i < |page| ensures page[i] in view {
      assert page[i] == view[a + i - lo];
    }
    FirstsKnown(view, page);
  }

  /** An entry the cap pushed out comes back as the newest one. */
  lemma RereadOutside(all: seq<Entry>, lo: nat, hi: nat, a: nat, b: nat)
    requires Identified(all) && a < lo < hi <= |all| && a < b <= hi
    ensures var merged := Merged(all[lo..hi], all[a..b], false);
            merged != [] && merged[|merged| - 1] == all[(if b > lo then lo else b) - 1]
  {
    var m := if b > lo then lo else b;
    FirstsWithBack(all, lo, hi, a, m, b);
    var back := all[lo..hi] + all[a..m];
    assert back[|back| - 1] == all[m - 1];
  }

  lemma FirstsWithBack(all: seq<Entry>, lo: nat, hi: nat, a: nat, m: nat, b: nat)
    requires Identified(all) && a < m <= lo < hi <= |all| && m <= b <= hi && (m < b ==> lo <= m)
    ensures Firsts(all[lo..hi] + all[a..b]) == all[lo..hi] + all[a..m]
  {
    var back, known := all[lo..hi] + all[a..m], all[m..b];
    assert all[lo..hi] + all[a..b] == back + known;
    FirstsKnown(back, known);
  }

  /**
   Re-reading known entries changes nothing exactly when the page starts inside the window:
   merging is not idempotent on pages older than the cap.
   */
  lemma RereadHarmlessInsideWindow(all: seq<Entry>, lo: nat, hi: nat, a: nat, b: nat)
    requires Identified(all) && lo < hi <= |all| && hi - lo <= CAP && a < b <= hi
    ensures Merged(all[lo..hi], all[a..b], false) == all[lo..hi] <==> a >= lo
  {
    if a >= lo {
      RereadInside(all, lo, hi, a, b);
    } else {
      RereadOutside(all, lo, hi, a, b);
      assert all[lo..hi][hi - lo - 1] == all[hi - 1];
    }
  }

  /** A reset page starts a new window, whatever the view held. */
  lemma ResetStartsWindow(view: seq<Entry>, all: seq<Entry>, a: nat, b: nat)
    requires Identified(all) && a <= b <= |all|
    ensures Window(Merged(view, all[a..b], true), all, b)
  {
    var page := all[a..b];
    assert [] + page == page;
    SliceServed(all, a, b);
    FirstsOfUnique(page);
    CapKeepsWindow(page, all, a, b);
  }

  /** Entries the chat adds itself join the view without disturbing the window. */
  lemma LocalsKeepWindow(view: seq<Entry>, all: seq<Entry>, lo: nat, hi: nat, locals: seq<Entry>)
    requires WindowOf(view, all, lo, hi)
    requires NoRepeats(view + locals) && forall i :: 0 <= i < |locals| ==> IsLocal(locals[i])
    ensures Window(Merged(view, locals, false), all, hi)
  {
    FirstsOfUnique(view + locals);
    ServedConcat(view, locals);
    NoneServed(locals);
    CapKeepsWindow(view + locals, all, lo, hi);
  }

  lemma {:induction false} NoneServed(s: seq<Entry>)
    requires forall i :: 0 <= i < |s| ==> IsLocal(s[i])
    ensures Served(s) == []
  {
    if s != [] { NoneServed(s[..|s| - 1]); }
  }

  // ----- the polling tick

  /** What a page holds is a stretch of the transcript as it will ever be. */
  lemma ForwardPageIsStretch(lines: Transcript, size: nat, after: nat, limit: nat)
    requires after <= size <= |lines|
    ensures var page := ForwardPage(lines[..size], after, limit);
            && after <= page.offset <= size
            && Count(lines, after) <= Count(lines, page.offset) <= |Flatten(lines)|
            && page.entries == Flatten(lines)[Count(lines, after)..Count(lines, page.offset)]
            && (|page.entries| < limit ==> page.offset == size)
  {
    var page := ForwardPage(lines[..size], after, limit);
    assert lines[..size][after..page.offset] == lines[after..page.offset];
    FlattenSlice(lines, after, page.offset);
    ShortPageCaughtUp(lines[..size], after, limit);
  }

  lemma TailPageIsStretch(lines: Transcript, size: nat, from: nat, limit: nat) returns (a: nat)
    requires from <= size <= |lines|
    ensures var page := TailPage(lines[..size], from, limit, false);
            && page.offset == size
            && a <= Count(lines, size) <= |Flatten(lines)|
            && page.entries == Flatten(lines)[a..Count(lines, size)]
  {
    assert lines[..size][from..] == lines[from..size];
    FlattenSlice(lines, from, size);
    var all := Flatten(lines[from..size]);
    a := if |all| > limit then Count(lines, size) - limit else Count(lines, from);
  }

  /** The chat before its first page: only entries of its own. */
  ghost predicate Unloaded(view: seq<Entry>) {
    NoRepeats(view) && |view| <= CAP && Served(view) == []
  }

  /** The view shows everything up to `offset`, or nothing from the transcript before the first page. */
  ghost predicate Showing(lines: Transcript, loaded: bool, offset: nat, view: seq<Entry>) {
    if loaded then offset <= |lines| && Window(view, Flatten(lines), Count(lines, offset)) else Unloaded(view)
  }

  lemma ForwardMerges(lines: Transcript, size: nat, offset: nat, view: seq<Entry>)
    requires Identified(Flatten(lines)) && offset <= size <= |lines| && Showing(lines, true, offset, view)
    ensures var page := ForwardPage(lines[..size], offset, LIMIT);
            && page.offset <= size && Showing(lines, true, page.offset, Merged(view, page.entries, false))
            && (|page.entries| < LIMIT ==> page.offset == size)
  {
    var page := ForwardPage(lines[..size], offset, LIMIT);
    var all, hi := Flatten(lines), Count(lines, offset);
    ForwardPageIsStretch(lines, size, offset, LIMIT);
    var lo: nat :| WindowOf(view, all, lo, hi);
    MergeKeepsWindow(view, all, lo, hi, hi, Count(lines, page.offset));
  }

  lemma TailMerges(lines: Transcript, size: nat, from: nat, view: seq<Entry>)
    requires Identified(Flatten(lines)) && from <= size <= |lines| && Unloaded(view)
    ensures Showing(lines, true, size, Merged(view, TailPage(lines[..size], from, LIMIT, false).entries, false))
  {
    var a := TailPageIsStretch(lines, size, from, LIMIT);
    TailStarts(view, Flatten(lines), a, Count(lines, size));
  }

  lemma TailStarts(view: seq<Entry>, all: seq<Entry>, a: nat, b: nat)
    requires Unloaded(view) && Identified(all) && a <= b <= |all|
    ensures Window(Merged(view, all[a..b], false), all, b)
  {
    assert all[a..a] == [];
    assert WindowOf(view, all, a, a);
    MergeKeepsWindow(view, all, a, a, a, b);
  }

  /** What a tick leaves behind: the stored offset, the view and the number of pages. */
  datatype Polled = Polled(offset: nat, view: seq<Entry>, pages: nat)

  /** The tick from its request number `k` on, `servers[k]` being what that request finds. */
  function Poll(servers: seq<Option<Transcript>>, from: nat, k: nat, loaded: bool, offset: nat, view: seq<Entry>)
    : Polled
    requires k < |servers| == MAX_PAGES_PER_TICK
    decreases |servers| - k
  {
    var page := Answer(servers[k], loaded, offset, from);
    var merged := Merged(view, page.entries, page.reset);
    if ShouldFollowBurst(|page.entries|, loaded, LIMIT, k + 1)
    then Poll(servers, from, k + 1, true, page.offset, merged)
    else Polled(page.offset, merged, k + 1)
  }

  /** One tick of the poll, whatever each of its requests finds. */
  method Tick(servers: seq<Option<Transcript>>, from: nat, loaded: bool, offset: nat, view: seq<Entry>)
    returns (offset': nat, view': seq<Entry>, pages: nat)
    requires |servers| == MAX_PAGES_PER_TICK
    ensures Polled(offset', view', pages) == Poll(servers, from, 0, loaded, offset, view)
  {
    var page := Answer(servers[0], loaded, offset, from);
    view' := MergeConversation(view, page.entries, page.reset);
    offset', pages := page.offset, 1;
    while ShouldFollowBurst(|page.entries|, loaded, LIMIT, pages)
      invariant 1 <= pages <= MAX_PAGES_PER_TICK
      invariant Poll(servers, from, 0, loaded, offset, view) ==
                if ShouldFollowBurst(|page.entries|, loaded, LIMIT, pages)
                then Poll(servers, from, pages, true, offset', view')
                else Polled(offset', view', pages)
      decreases MAX_PAGES_PER_TICK - pages
    {
      page := Answer(servers[pages], true, offset', from);
      view' := MergeConversation(view', page.entries, page.reset);
      offset', pages := page.offset, pages + 1;
    }
  }

  /**
   A tick reads at most five pages, one when nothing was loaded yet, and fewer than five only once
   all that the last request found has been read.
   */
  lemma {:induction false} TickCatchesUp(servers: seq<Option<Transcript>>, from: nat, k: nat,
                                         loaded: bool, offset: nat, view: seq<Entry>)
    requires k < |servers| == MAX_PAGES_PER_TICK
    ensures var r := Poll(servers, from, k, loaded, offset, view);
            && k < r.pages <= MAX_PAGES_PER_TICK && (!loaded ==> r.pages == k + 1)
            && r.offset <= Size(servers[r.pages - 1])
            && (r.pages < MAX_PAGES_PER_TICK ==> r.offset == Size(servers[r.pages - 1]))
    decreases |servers| - k
  {
    var page := Answer(servers[k], loaded, offset, from);
    if ShouldFollowBurst(|page.entries|, loaded, LIMIT, k + 1) {
      TickCatchesUp(servers, from, k + 1, true, page.offset, Merged(view, page.entries, page.reset));
    } else if servers[k].Some? && loaded && offset <= |servers[k].value| {
      ShortPageCaughtUp(servers[k].value, offset, LIMIT);
    }
  }

  /**
   A request is followed by another exactly when the chat was loaded, the page brought two hundred
   entries or more, and it was not the fifth; the last one leaves its offset and its merged view.
   */
  lemma BurstExactly(servers: seq<Option<Transcript>>, from: nat, k: nat, loaded: bool, offset: nat, view: seq<Entry>)
    requires k < |servers| == 5
    ensures var r, page := Poll(servers, from, k, loaded, offset, view), Answer(servers[k], loaded, offset, from);
      var merged := Merged(view, page.entries, page.reset);
      && (r.pages == k + 1 <==> !loaded || |page.entries| < 200 || k == 4)
      && (r.pages == k + 1 ==> r.offset == page.offset && r.view == merged)
      && (r.pages != k + 1 ==> r == Poll(servers, from, k + 1, true, page.offset, merged))
  {
    var page := Answer(servers[k], loaded, offset, from);
    if k + 1 < |servers| {
      TickCatchesUp(servers, from, k + 1, true, page.offset, Merged(view, page.entries, page.reset));
    }
  }

  /**
   What a request is answered: before the first page the last two hundred entries of the stretch,
   with a reset when the offset lies behind the end; else whole lines from the offset on, just as many
   as it takes to hold two hundred entries or to reach the end.
   */
  lemma AnswerInNumbers(lines: Transcript, started: bool, after: nat, from: nat)
    ensures var page := Answer(Some(lines), started, after, from);
      if started && after <= |lines| then
        && after <= page.offset <= |lines| && page.entries == Flatten(lines[after..page.offset]) && !page.reset
        && (page.offset == |lines| || |page.entries| >= 200)
        && (page.offset > after ==> |Flatten(lines[after..page.offset - 1])| < 200)
      else
        var stretch := Flatten(lines[if from <= |lines| then from else |lines|..]);
        && page.offset == |lines| && (page.reset <==> started)
        && page.entries == if |stretch| <= 200 then stretch else stretch[|stretch| - 200..]
  {
    if started && after <= |lines| {
      ForwardReaches(lines, after, LIMIT, 0);
      ForwardStopsEarly(lines, after, LIMIT, 0);
    }
  }

  lemma {:induction false} ForwardStopsEarly(lines: Transcript, offset: nat, limit: nat, got: nat)
    requires offset <= |lines|
    ensures var end := ForwardEnd(lines, offset, limit, got);
            end > offset ==> got + |Flatten(lines[offset..end - 1])| < limit
    decreases |lines| - offset
  {
    var end := ForwardEnd(lines, offset, limit, got);
    if end > offset + 1 {
      ForwardStopsEarly(lines, offset + 1, limit, got + |lines[offset]|);
      assert lines[offset..end - 1] == [lines[offset]] + lines[offset + 1..end - 1];
      FlattenConcat([lines[offset]], lines[offset + 1..end - 1]);
    } else if end > offset {
      assert lines[offset..end - 1] == [];
    }
  }

  /** The k-th request finds the first `sizes[k]` lines of a transcript that only grows. */
  ghost predicate Growing(servers: seq<Option<Transcript>>, lines: Transcript, sizes: seq<nat>) {
    && |servers| == |sizes|
    && (forall i, j :: 0 <= i <= j < |sizes| ==> sizes[i] <= sizes[j] <= |lines|)
    && forall i :: 0 <= i < |sizes| ==> servers[i] == Some(lines[..sizes[i]])
  }

  /**
   Over a transcript that only grows a tick keeps the window; a view of something else is replaced
   by one when the stored offset lies behind the end, which is what asks for a reset.
   */
  lemma {:induction false} TickShowsWindow(servers: seq<Option<Transcript>>, lines: Transcript, sizes: seq<nat>,
                                           from: nat, k: nat, loaded: bool, offset: nat, view: seq<Entry>)
    requires k < |servers| == MAX_PAGES_PER_TICK && Growing(servers, lines, sizes) && Identified(Flatten(lines))
    requires if loaded && offset <= sizes[k] then Showing(lines, true, offset, view) else loaded || Unloaded(view)
    ensures var r := Poll(servers, from, k, loaded, offset, view); Showing(lines, true, r.offset, r.view)
    decreases |servers| - k
  {
    var page := Answer(servers[k], loaded, offset, from);
    AnswerShows(lines, sizes[k], from, loaded, offset, view);
    if ShouldFollowBurst(|page.entries|, loaded, LIMIT, k + 1) {
      TickShowsWindow(servers, lines, sizes, from, k + 1, true, page.offset, Merged(view, page.entries, page.reset));
    }
  }

  lemma AnswerShows(lines: Transcript, size: nat, from: nat, loaded: bool, offset: nat, view: seq<Entry>)
    requires Identified(Flatten(lines)) && size <= |lines|
    requires if loaded && offset <= size then Showing(lines, true, offset, view) else loaded || Unloaded(view)
    ensures var page := Answer(Some(lines[..size]), loaded, offset, from);
            page.offset <= size && Showing(lines, true, page.offset, Merged(view, page.entries, page.reset))
  {
    if !loaded {
      TailMerges(lines, size, Within(from, lines[..size]), view);
    } else if offset <= size {
      ForwardMerges(lines, size, offset, view);
    } else {
      ResetMerges(lines, size, Within(from, lines[..size]), view);
    }
  }

  lemma ResetMerges(lines: Transcript, size: nat, from: nat, view: seq<Entry>)
    requires Identified(Flatten(lines)) && from <= size <= |lines|
    ensures Showing(lines, true, size, Merged(view, TailPage(lines[..size], from, LIMIT, true).entries, true))
  {
    var a := TailPageIsStretch(lines, size, from, LIMIT);
    ResetStartsWindow(view, Flatten(lines), a, Count(lines, size));
  }
}
