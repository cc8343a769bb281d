/**
 The editor's change preview: line endings are normalized, the common head and tail are trimmed,
 and what remains is one splice of lines.
 */
module SpliceDiff {
  // ----- line endings

  /** `toLF`: every CRLF becomes LF, from left to right. */
  function ToLF(s: string): string {
    if s == "" then ""
    else if |s| >= 2 && s[0] == '\r' && s[1] == '\n' then "\n" + ToLF(s[2..])
    else [s[0]] + ToLF(s[1..])
  }

  /** The same text as a CRLF file holds it. */
  function WithCRLF(s: string): string {
    if s == "" then "" else (if s[0] == '\n' then "\r\n" else [s[0]]) + WithCRLF(s[1..])
  }

  /** Line endings are not content: a CRLF file compares equal to the text it holds. */
  lemma {:induction false} CRLFIsNotContent(s: string)
    ensures ToLF(WithCRLF(s)) == s
  {
    if s != "" {
      CRLFIsNotContent(s[1..]);
      var tail := WithCRLF(s[1..]);
      assert tail != "" ==> tail[0] != '\n';
      if s[0] == '\n' {
        assert WithCRLF(s)[2..] == tail;
      } else {
        assert WithCRLF(s)[1..] == tail;
      }
    }
  }

  predicate BreakAt(s: string, i: nat) {
    i + 1 < |s| && s[i] == '\r' && s[i + 1] == '\n'
  }

  predicate HasCRLF(s: string) {
    exists i: nat :: i < |s| && BreakAt(s, i)
  }

  lemma TailBreaks(s: string)
    requires s != ""
    ensures HasCRLF(s) <==> BreakAt(s, 0) || HasCRLF(s[1..])
  {
    if i: nat :| i < |s| && BreakAt(s, i) {
      if i > 0 { assert BreakAt(s[1..], i - 1); }
    }
    if i: nat :| i < |s[1..]| && BreakAt(s[1..], i) { assert BreakAt(s, i + 1); }
  }

  /** A text changes exactly when it holds a CRLF: nothing else is touched, not even a lone CR. */
  lemma {:induction false} ToLFTouchesCRLF(s: string)
    ensures |ToLF(s)| <= |s|
    ensures ToLF(s) == s <==> !HasCRLF(s)
  {
    if s != "" {
      TailBreaks(s);
      if BreakAt(s, 0) {
        ToLFTouchesCRLF(s[2..]);
      } else {
        ToLFTouchesCRLF(s[1..]);
        assert s == [s[0]] + s[1..];
      }
    }
  }

  /** Each CRLF becomes an LF, wherever it stands, and what is around it is converted on its own. */
  lemma {:induction false} ToLFAtBreak(u: string, v: string)
    ensures ToLF(u + "\r\n" + v) == ToLF(u) + "\n" + ToLF(v)
  {
    var s := u + "\r\n" + v;
    if u == "" {
      assert s[2..] == v;
    } else if BreakAt(u, 0) {
      assert s[2..] == u[2..] + "\r\n" + v;
      ToLFAtBreak(u[2..], v);
    } else {
      assert s[1..] == u[1..] + "\r\n" + v;
      ToLFAtBreak(u[1..], v);
    }
  }

  predicate DoubledAt(s: string, i: nat) {
    i + 2 < |s| && s[i] == '\r' && BreakAt(s, i + 1)
  }

  predicate HasDoubled(s: string) {
    exists i: nat :: i < |s| && DoubledAt(s, i)
  }

  lemma TailDoubled(s: string)
    requires s != ""
    ensures HasDoubled(s) <==> DoubledAt(s, 0) || HasDoubled(s[1..])
  {
    if i: nat :| i < |s| && DoubledAt(s, i) {
      if i > 0 { assert DoubledAt(s[1..], i - 1); }
    }
    if i: nat :| i < |s[1..]| && DoubledAt(s[1..], i) { assert DoubledAt(s, i + 1); }
  }

  /** One pass is enough except behind a doubled CR: a CRLF is left exactly where CR CR LF stood. */
  lemma {:induction false} CRLFLeft(s: string)
    ensures HasCRLF(ToLF(s)) <==> HasDoubled(s)
  {
    if s != "" {
      TailDoubled(s);
      TailBreaks(ToLF(s));
      if BreakAt(s, 0) {
        CRLFLeft(s[2..]);
        TailDoubled(s[1..]);
        assert s[1..][1..] == s[2..] && ToLF(s)[1..] == ToLF(s[2..]);
      } else {
        CRLFLeft(s[1..]);
        assert ToLF(s)[1..] == ToLF(s[1..]);
        StartsWithLF(s[1..]);
      }
    }
  }

  lemma StartsWithLF(s: string)
    ensures (ToLF(s) != "" && ToLF(s)[0] == '\n') <==> (s != "" && s[0] == '\n') || BreakAt(s, 0)
  {
  }

  // ----- lines

  /** `split('\n')`: at least one line, none holding a newline. */
  function Lines(s: string): (ls: seq<string>)
    ensures ls != []
  {
    if s == "" then [""]
    else
      var rest := Lines(s[1..]);
      if s[0] == '\n' then [""] + rest else [[s[0]] + rest[0]] + rest[1..]
  }

  function Join(ls: seq<string>): string
    requires ls != []
  {
    if |ls| == 1 then ls[0] else ls[0] + "\n" + Join(ls[1..])
  }

  lemma {:induction false} JoinLines(s: string)
    ensures Join(Lines(s)) == s
  {
    if s != "" {
      JoinLines(s[1..]);
      var rest := Lines(s[1..]);
      if s[0] == '\n' {
        assert Lines(s)[1..] == rest;
      } else {
        JoinPrepend([s[0]], rest);
      }
    }
  }

  predicate OneLiners(ls: seq<string>) {
    forall i :: 0 <= i < |ls| ==> '\n' !in ls[i]
  }

  lemma {:induction false} LinesHoldNoNewline(s: string)
    ensures OneLiners(Lines(s))
  {
    if s != "" { LinesHoldNoNewline(s[1..]); }
  }

  /** The lines are the only ones that hold no newline and join to the text. */
  lemma {:induction false} LinesUnique(ls: seq<string>)
    requires ls != [] && OneLiners(ls)
    ensures Lines(Join(ls)) == ls
    decreases |Join(ls)|
  {
    if ls[0] == "" {
      if |ls| > 1 {
        assert Join(ls)[1..] == Join(ls[1..]);
        LinesUnique(ls[1..]);
        assert ls == [""] + ls[1..];
      }
    } else {
      var c, rest := ls[0][..1], [ls[0][1..]] + ls[1..];
      assert c + rest[0] == ls[0] && rest[1..] == ls[1..];
      JoinPrepend(c, rest);
      assert [c + rest[0]] + rest[1..] == ls;
      assert Join(ls)[1..] == Join(rest);
      assert c == [Join(ls)[0]] && ls[0][0] in ls[0];
      LinesUnique(rest);
    }
  }

  lemma JoinPrepend(c: string, ls: seq<string>)
    requires ls != []
    ensures Join([c + ls[0]] + ls[1..]) == c + Join(ls)
  {
    var r := [c + ls[0]] + ls[1..];
    assert r[0] == c + ls[0] && r[1..] == ls[1..];
    if |ls| > 1 { Regroup(c, ls[0], Join(ls[1..])); }
  }

  lemma Regroup(c: string, line: string, rest: string)
    ensures (c + line) + "\n" + rest == c + (line + "\n" + rest)
  {
  }

  // ----- the splice

  /** `a` with `count` lines from `at` on replaced. */
  function Splice<T>(a: seq<T>, at: nat, count: nat, added: seq<T>): seq<T>
    requires at + count <= |a|
  {
    a[..at] + added + a[at + count..]
  }

  /** A common head of `p` lines and a common tail of `t` lines that do not overlap. */
  predicate Common<T(==)>(a: seq<T>, b: seq<T>, p: nat, t: nat) {
    p + t <= |a| && p + t <= |b| && a[..p] == b[..p] && a[|a| - t..] == b[|b| - t..]
  }

  /** The smallest splice at this kind of trimming that turns `a` into `b`. */
  ghost predicate IsRegion(a: seq<string>, b: seq<string>, removed: seq<string>, added: seq<string>, atLine: nat) {
    && atLine >= 1 && atLine - 1 + |removed| <= |a|
    && removed == a[atLine - 1..atLine - 1 + |removed|]
    && Splice(a, atLine - 1, |removed|, added) == b
    && forall p: nat, t: nat :: Common(a, b, p, t) ==> |removed| <= |a| - p - t && |added| <= |b| - p - t
  }

  method ChangedRegion(before: string, after: string) returns (removed: seq<string>, added: seq<string>, atLine: nat)
    ensures IsRegion(Lines(ToLF(before)), Lines(ToLF(after)), removed, added, atLine)
  {
    var a, b := Lines(ToLF(before)), Lines(ToLF(after));
    var head := 0;
    while head < |a| && head < |b| && a[head] == b[head]
      invariant Common(a, b, head, 0)
    {
      MoreHead(a, b, head);
      head := head + 1;
    }
    var tail := 0;
    while tail < |a| - head && tail < |b| - head && a[|a| - 1 - tail] == b[|b| - 1 - tail]
      invariant Common(a, b, head, tail)
    {
      MoreTail(a, b, head, tail);
      tail := tail + 1;
    }
    removed, added, atLine := a[head..|a| - tail], b[head..|b| - tail], head + 1;
    TrimmedRegion(a, b, head, tail);
  }

  lemma MoreHead(a: seq<string>, b: seq<string>, head: nat)
    requires Common(a, b, head, 0) && head < |a| && head < |b| && a[head] == b[head]
    ensures Common(a, b, head + 1, 0)
  {
    assert a[..head + 1] == a[..head] + [a[head]] && b[..head + 1] == b[..head] + [b[head]];
  }

  lemma MoreTail(a: seq<string>, b: seq<string>, head: nat, tail: nat)
    requires Common(a, b, head, tail) && head + tail < |a| && head + tail < |b|
    requires a[|a| - 1 - tail] == b[|b| - 1 - tail]
    ensures Common(a, b, head, tail + 1)
  {
    assert a[|a| - tail - 1..] == [a[|a| - tail - 1]] + a[|a| - tail..];
    assert b[|b| - tail - 1..] == [b[|b| - tail - 1]] + b[|b| - tail..];
  }

  lemma TrimmedRegion(a: seq<string>, b: seq<string>, head: nat, tail: nat)
    requires Common(a, b, head, tail)
    requires head == |a| || head == |b| || a[head] != b[head]
    requires head + tail == |a| || head + tail == |b| || a[|a| - 1 - tail] != b[|b| - 1 - tail]
    ensures IsRegion(a, b, a[head..|a| - tail], b[head..|b| - tail], head + 1)
  {
    assert b == b[..head] + b[head..|b| - tail] + b[|b| - tail..];
    forall p: nat, t: nat | Common(a, b, p, t) ensures p + t <= head + tail {
      Longest(a, b, head, tail, p, t);
    }
  }

  /** Greedy head first, tail second: no other trimming takes more lines off. */
  lemma Longest<T>(a: seq<T>, b: seq<T>, head: nat, tail: nat, p: nat, t: nat)
    requires Common(a, b, head, tail) && Common(a, b, p, t)
    requires head == |a| || head == |b| || a[head] != b[head]
    requires head + tail == |a| || head + tail == |b| || a[|a| - 1 - tail] != b[|b| - 1 - tail]
    ensures p + t <= head + tail
  {
    forall k | 0 <= k < p ensures a[k] == b[k] {
      assert a[..p][k] == b[..p][k];
    }
    forall k | |a| - t <= k < |a| ensures a[k] == b[k + |b| - |a|] {
      assert a[|a| - t..][k - (|a| - t)] == b[|b| - t..][k - (|a| - t)];
    }
  }

  /** Putting the added lines in place of the removed ones turns the old text into the new one. */
  lemma SpliceIsCorrect(before: string, after: string, removed: seq<string>, added: seq<string>, atLine: nat)
    requires IsRegion(Lines(ToLF(before)), Lines(ToLF(after)), removed, added, atLine)
    ensures Join(Splice(Lines(ToLF(before)), atLine - 1, |removed|, added)) == ToLF(after)
  {
    JoinLines(ToLF(after));
  }

  /** Nothing to show exactly when the two texts are the same up to line endings. */
  lemma NoChangeMeansSame(before: string, after: string, removed: seq<string>, added: seq<string>, atLine: nat)
    requires IsRegion(Lines(ToLF(before)), Lines(ToLF(after)), removed, added, atLine)
    ensures removed == [] && added == [] <==> ToLF(before) == ToLF(after)
  {
    var a, b := Lines(ToLF(before)), Lines(ToLF(after));
    JoinLines(ToLF(before));
    JoinLines(ToLF(after));
    SpliceNothing(a, atLine - 1);
    if ToLF(before) == ToLF(after) { assert Common(a, b, |a|, 0); }
  }

  lemma SpliceNothing<T>(a: seq<T>, at: nat)
    requires at <= |a|
    ensures Splice(a, at, 0, []) == a
  {
    assert a == a[..at] + a[at..];
  }
}
