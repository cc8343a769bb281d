/**
 What a transcript is read into, said of its records alone: which records share a step, what a step
 holds of them, and which call each result answers.
 */
module TranscriptReading {
  import opened Wrappers
  import opened TranscriptParse

  // ----- which records share a step

  /** Nothing but skipped records stands behind record `j`. */
  predicate LastRead(records: seq<Record>, j: int) {
    0 <= j < |records| && !records[j].Skipped? && forall i :: j < i < |records| ==> records[i].Skipped?
  }

  /** Record `k` goes on with the message of record `j`: one id, and nothing read in between. */
  predicate Joins(records: seq<Record>, j: int, k: nat) {
    && 0 <= j < k < |records| && LastRead(records[..k], j)
    && records[j].Assistant? && records[k].Assistant? && records[j].mid == records[k].mid
  }

  ghost predicate Opens(records: seq<Record>, k: nat) {
    k < |records| && records[k].Assistant? && !exists j :: Joins(records, j, k)
  }

  ghost function OpeningRecords(records: seq<Record>): set<nat> {
    set k: nat | k < |records| && Opens(records, k)
  }

  /** The assistant messages: each the records of one id that nothing read parts. */
  ghost function Messages(records: seq<Record>): (ms: seq<seq<Record>>)
    ensures forall i :: 0 <= i < |ms| ==> ms[i] != []
    ensures (exists j :: 0 <= j < |records| && records[j].Assistant?) ==> ms != []
  {
    if records == [] then []
    else
      var n := |records| - 1;
      var ms, r := Messages(records[..n]), records[n];
      if !r.Assistant? then ms
      else if Opens(records, n) then ms + [[r]]
      else
        var j :| Joins(records, j, n);
        assert records[..n][j].Assistant?;
        Extended(ms, r)
  }

  ghost function Extended(ms: seq<seq<Record>>, r: Record): (o: seq<seq<Record>>)
    requires ms != []
    ensures |o| == |ms|
  {
    ms[|ms| - 1 := ms[|ms| - 1] + [r]]
  }

  lemma {:induction false} MessagesCounted(records: seq<Record>)
    ensures |Messages(records)| == |OpeningRecords(records)|
  {
    if records != [] {
      var n := |records| - 1;
      MessagesCounted(records[..n]);
      forall k: nat | k < n ensures Opens(records, k) <==> Opens(records[..n], k) {
        forall j ensures Joins(records, j, k) <==> Joins(records[..n], j, k) {
          assert records[..n][..k] == records[..k];
        }
      }
      assert OpeningRecords(records) == OpeningRecords(records[..n]) + if Opens(records, n) then {n} else {};
    }
  }

  // ----- what a step holds of its message

  function CallsOf(bs: seq<Block>): seq<Call> {
    if bs == [] then []
    else
      var last := bs[|bs| - 1];
      CallsOf(bs[..|bs| - 1]) + if last.ToolUse? then [last.call] else []
  }

  predicate Thinks(bs: seq<Block>) {
    exists j :: 0 <= j < |bs| && bs[j].Thinking? && !bs[j].blank
  }

  predicate Holds(s: Step, bs: seq<Block>) {
    && s.thinkChars == OfBlocks(ThinkChars, bs) && s.textChars == OfBlocks(TextChars, bs)
    && s.hasThink == Thinks(bs) && s.calls == CallsOf(bs)
  }

  /** Stamped and named by the first record of its message; it ends with the last one's stamp, if there is one. */
  predicate Stamped(s: Step, message: seq<Record>)
    requires message != []
  {
    var first, last := message[0], message[|message| - 1];
    && first.Assistant? && last.Assistant? && s.ts == first.ts && s.model == first.model
    && s.tsEnd == if last.ts == None || last.ts == Some(0.0) then first.ts else last.ts
  }

  function BlocksOf(message: seq<Record>): seq<Block> {
    if message == [] then []
    else
      var last := message[|message| - 1];
      BlocksOf(message[..|message| - 1]) + if last.Assistant? then last.blocks else []
  }

  predicate Tells(s: Step, message: seq<Record>) {
    message != [] && Stamped(s, message) && Holds(s, BlocksOf(message))
  }

  ghost predicate Pairwise<A(!new), B(!new)>(s: seq<A>, t: seq<B>, p: (A, B) -> bool) {
    |s| == |t| && forall i :: 0 <= i < |s| ==> p(s[i], t[i])
  }

  lemma PairwiseAppend<A(!new), B(!new)>(s: seq<A>, t: seq<B>, p: (A, B) -> bool, u: seq<A>, b: B)
    requires Pairwise(s, t, p) && |u| == |s| + 1 && u[..|s|] == s && p(u[|s|], b)
    ensures Pairwise(u, t + [b], p)
  {
  }

  lemma PairwiseLast<A(!new), B(!new)>(s: seq<A>, t: seq<B>, p: (A, B) -> bool, u: seq<A>, k: nat, b: B)
    requires Pairwise(s, t, p) && |s| == k + 1 == |u| && u[..k] == s[..k] && p(u[k], b)
    ensures Pairwise(u, t[k := b], p)
  {
    forall i | 0 <= i < k ensures p(u[i], t[k := b][i]) {
      assert u[..k][i] == s[..k][i];
    }
  }

  /** The open message is the one of the last record read. */
  ghost predicate OpenAt(st: State, records: seq<Record>) {
    && (st.open ==> exists j :: LastRead(records, j) && records[j].Assistant? && records[j].mid == st.curId)
    && (!st.open ==> forall j :: LastRead(records, j) ==> !records[j].Assistant?)
  }

  lemma LastReadUnique(records: seq<Record>)
    ensures forall i, j :: LastRead(records, i) && LastRead(records, j) ==> i == j
  {
  }

  lemma OpensWhenClosed(st: State, records: seq<Record>, r: Record)
    requires OpenAt(st, records) && r.Assistant?
    ensures Opens(records + [r], |records|) <==> !st.open || r.mid != st.curId
  {
    var all, n := records + [r], |records|;
    assert all[..n] == records;
    LastReadUnique(records);
    forall j ensures Joins(all, j, n) <==> LastRead(records, j) && records[j].Assistant? && records[j].mid == r.mid {
      if LastRead(records, j) { assert all[j] == records[j]; }
    }
    if st.open {
      var j :| LastRead(records, j) && records[j].Assistant? && records[j].mid == st.curId;
      assert Joins(all, j, n) <==> r.mid == st.curId;
    }
  }

  lemma OpenNext(st: State, records: seq<Record>, r: Record)
    requires OpenAt(st, records)
    ensures OpenAt(Read(st, r), records + [r])
  {
    var all, n := records + [r], |records|;
    LastReadUnique(all);
    match r
    case Assistant(mid, _, _, blocks) =>
      BlocksKeepOpen(Opened(st, r), blocks);
      assert LastRead(all, n);
    case FromUser(_, results, _, _) =>
      ResultsKeep(st.(open := false, curId := None), results);
      assert LastRead(all, n);
    case Skipped =>
      forall j ensures LastRead(all, j) <==> LastRead(records, j) {
        if LastRead(records, j) { assert all[j] == records[j]; }
        if LastRead(all, j) {
          forall i | j < i < n ensures records[i].Skipped? { assert all[i] == records[i]; }
        }
      }
  }

  lemma {:induction false} BlocksKeepOpen(st: State, bs: seq<Block>)
    requires st.steps != []
    ensures var o := WithBlocks(st, bs); o.open == st.open && o.curId == st.curId && |o.steps| == |st.steps|
  {
    if bs != [] { BlocksKeepOpen(st, bs[..|bs| - 1]); }
  }

  lemma {:induction false} ResultsKeep(st: State, rs: seq<ToolResult>)
    ensures var o := WithResults(st, rs); o.open == st.open && o.curId == st.curId && |o.steps| == |st.steps|
    ensures forall i :: 0 <= i < |st.steps| ==>
      var t := WithResults(st, rs).steps[i]; t == st.steps[i].(results := t.results)
  {
    if rs != [] { ResultsKeep(st, rs[..|rs| - 1]); }
  }

  lemma HoldsMore(s: Step, t: Step, bs: seq<Block>, b: Block)
    requires Holds(s, bs)
    requires t.thinkChars == s.thinkChars + (if b.Thinking? then b.chars else 0)
    requires t.textChars == s.textChars + (if b.Text? then b.chars else 0)
    requires t.hasThink == (s.hasThink || (b.Thinking? && !b.blank))
    requires t.calls == s.calls + (if b.ToolUse? then [b.call] else [])
    ensures Holds(t, bs + [b])
  {
    var more := bs + [b];
    assert more[..|bs|] == bs && more[|bs|] == b;
    if Thinks(bs) {
      var j :| 0 <= j < |bs| && bs[j].Thinking? && !bs[j].blank;
      assert more[j] == bs[j];
    }
  }

  /** The two steps differ in blocks and answers at most. */
  predicate SameStamps(s: Step, t: Step) {
    s.ts == t.ts && s.tsEnd == t.tsEnd && s.model == t.model
  }

  lemma BlockInLast(st: State, before: seq<Block>, b: Block)
    requires st.steps != [] && Holds(st.steps[|st.steps| - 1], before)
    ensures var o, k := WithBlock(st, b).steps, |st.steps| - 1;
      |o| == k + 1 && o[..k] == st.steps[..k] && SameStamps(o[k], st.steps[k]) && Holds(o[k], before + [b])
  {
    var k := |st.steps| - 1;
    HoldsMore(st.steps[k], WithBlock(st, b).steps[k], before, b);
  }

  lemma {:induction false} BlocksInLast(st: State, before: seq<Block>, bs: seq<Block>)
    requires st.steps != [] && Holds(st.steps[|st.steps| - 1], before)
    ensures var o, k := WithBlocks(st, bs).steps, |st.steps| - 1;
      |o| == k + 1 && o[..k] == st.steps[..k] && SameStamps(o[k], st.steps[k]) && Holds(o[k], before + bs)
  {
    if bs == [] {
      assert before + bs == before;
    } else {
      var init, b := bs[..|bs| - 1], bs[|bs| - 1];
      BlocksInLast(st, before, init);
      BlockInLast(WithBlocks(st, init), before + init, b);
      assert before + init + [b] == before + bs;
    }
  }

  lemma BlocksOfMore(message: seq<Record>, r: Record)
    requires r.Assistant?
    ensures BlocksOf(message + [r]) == BlocksOf(message) + r.blocks
  {
    assert (message + [r])[..|message|] == message;
  }

  lemma OpensStep(st: State, r: Record)
    requires r.Assistant? && (!st.open || r.mid != st.curId)
    ensures var o := Opened(st, r).steps;
      |o| == |st.steps| + 1 && o[..|st.steps|] == st.steps && Stamped(o[|st.steps|], [r]) && Holds(o[|st.steps|], [])
  {
    assert !Thinks([]);
  }

  lemma ContinuesStep(st: State, message: seq<Record>, r: Record)
    requires r.Assistant? && st.open && r.mid == st.curId && st.steps != [] && message != []
    requires Stamped(st.steps[|st.steps| - 1], message)
    ensures var o, k := Opened(st, r).steps, |st.steps| - 1;
      && |o| == k + 1 && o[..k] == st.steps[..k] && Stamped(o[k], message + [r])
      && o[k] == st.steps[k].(tsEnd := o[k].tsEnd)
  {
  }

  lemma NewMessageHolds(st: State, r: Record)
    requires r.Assistant? && (!st.open || r.mid != st.curId)
    ensures var o, k := Read(st, r).steps, |st.steps|;
      |o| == k + 1 && o[..k] == st.steps && Tells(o[k], [r]) && Holds(o[k], r.blocks)
  {
    OpensStep(st, r);
    BlocksInLast(Opened(st, r), [], r.blocks);
    BlocksOfMore([], r);
    assert [] + [r] == [r] && [] + r.blocks == r.blocks;
  }

  lemma SameMessageHolds(st: State, message: seq<Record>, r: Record)
    requires r.Assistant? && st.open && r.mid == st.curId && st.steps != [] && Tells(st.steps[|st.steps| - 1], message)
    ensures var o, k := Read(st, r).steps, |st.steps| - 1;
      |o| == k + 1 && o[..k] == st.steps[..k] && Tells(o[k], message + [r])
  {
    ContinuesStep(st, message, r);
    BlocksInLast(Opened(st, r), BlocksOf(message), r.blocks);
    BlocksOfMore(message, r);
  }

  lemma MessageOpened(st: State, ms: seq<seq<Record>>, r: Record)
    requires r.Assistant? && Pairwise(st.steps, ms, Tells)
    requires !st.open || r.mid != st.curId
    ensures Pairwise(Read(st, r).steps, ms + [[r]], Tells)
  {
    NewMessageHolds(st, r);
    PairwiseAppend(st.steps, ms, Tells, Read(st, r).steps, [r]);
  }

  lemma MessageContinued(st: State, ms: seq<seq<Record>>, r: Record, k: nat)
    requires r.Assistant? && Pairwise(st.steps, ms, Tells) && |ms| == k + 1
    requires st.open && r.mid == st.curId
    ensures Pairwise(Read(st, r).steps, ms[k := ms[k] + [r]], Tells)
  {
    assert Tells(st.steps[k], ms[k]);
    SameMessageHolds(st, ms[k], r);
    PairwiseLast(st.steps, ms, Tells, Read(st, r).steps, k, ms[k] + [r]);
  }

  lemma MessagesNext(records: seq<Record>, r: Record)
    ensures Messages(records + [r]) ==
      if !r.Assistant? then Messages(records)
      else if Opens(records + [r], |records|) then Messages(records) + [[r]]
      else Extended(Messages(records), r)
  {
    assert (records + [r])[..|records|] == records;
  }

  lemma NextTold(st: State, records: seq<Record>, r: Record)
    requires Pairwise(st.steps, Messages(records), Tells) && OpenAt(st, records)
    requires st.open ==> st.steps != []
    ensures Pairwise(Read(st, r).steps, Messages(records + [r]), Tells)
  {
    MessagesNext(records, r);
    match r
    case Assistant(mid, _, _, _) =>
      OpensWhenClosed(st, records, r);
      if !st.open || mid != st.curId {
        MessageOpened(st, Messages(records), r);
      } else {
        MessageContinued(st, Messages(records), r, |st.steps| - 1);
      }
    case FromUser(_, results, _, _) => AnswersKeepTelling(st, Messages(records), r);
    case Skipped =>
  }

  lemma AnswersKeepTelling(st: State, ms: seq<seq<Record>>, r: Record)
    requires r.FromUser? && Pairwise(st.steps, ms, Tells)
    ensures Pairwise(Read(st, r).steps, ms, Tells)
  {
    ResultsKeep(st.(open := false, curId := None), r.results);
    var o := Read(st, r).steps;
    forall i | 0 <= i < |o| ensures Tells(o[i], ms[i]) {
      assert Tells(st.steps[i], ms[i]) && o[i] == st.steps[i].(results := o[i].results);
    }
  }

  /** There is one step for each message, and it holds exactly what the records of that message say. */
  lemma {:induction false} StepsAreMessages(records: seq<Record>)
    ensures Pairwise(ReadAll(records).steps, Messages(records), Tells) && OpenAt(ReadAll(records), records)
    ensures |ReadAll(records).steps| == |OpeningRecords(records)|
  {
    MessagesCounted(records);
    if records != [] {
      var init, r := records[..|records| - 1], records[|records| - 1];
      StepsAreMessages(init);
      EveryCallAnsweredOnce(init);
      assert init + [r] == records;
      OpenNext(ReadAll(init), init, r);
      NextTold(ReadAll(init), init, r);
    }
  }

  lemma ReadAllNext(records: seq<Record>, r: Record)
    ensures ReadAll(records + [r]) == Read(ReadAll(records), r)
  {
    assert (records + [r])[..|records|] == records;
  }

  lemma OpenAfter(st: State, r: Record)
    ensures r.Assistant? ==> Read(st, r).open && Read(st, r).curId == r.mid
    ensures r.FromUser? ==> !Read(st, r).open
  {
    match r
    case Assistant(_, _, _, blocks) => BlocksKeepOpen(Opened(st, r), blocks);
    case FromUser(_, results, _, _) => ResultsKeep(st.(open := false, curId := None), results);
    case Skipped =>
  }

  lemma LastToldAt(st: State, ms: seq<seq<Record>>, a: Record) returns (before: seq<Record>)
    requires a.Assistant? && Pairwise(st.steps, ms, Tells) && (st.open ==> st.steps != [])
    ensures var steps := Read(st, a).steps; steps != [] && Tells(steps[|steps| - 1], before + [a])
  {
    if !st.open || a.mid != st.curId {
      before := [];
      NewMessageHolds(st, a);
      assert [] + [a] == [a];
    } else {
      before := ms[|st.steps| - 1];
      assert Tells(st.steps[|st.steps| - 1], before);
      SameMessageHolds(st, before, a);
    }
  }

  lemma LastTells(records: seq<Record>, a: Record) returns (before: seq<Record>)
    requires a.Assistant?
    ensures var steps := ReadAll(records + [a]).steps; steps != [] && Tells(steps[|steps| - 1], before + [a])
  {
    EveryCallAnsweredOnce(records);
    StepsAreMessages(records);
    ReadAllNext(records, a);
    before := LastToldAt(ReadAll(records), Messages(records), a);
  }

  /** An assistant record right behind one of the same id adds no step: the last one then holds the blocks of both. */
  lemma SameMessageJoins(records: seq<Record>, a: Record, b: Record)
    requires a.Assistant? && b.Assistant? && a.mid == b.mid
    ensures var one, two := ReadAll(records + [a]).steps, ReadAll(records + [a] + [b]).steps;
      var k := |one| - 1;
      && |two| == k + 1 && two[..k] == one[..k]
      && exists before :: Holds(one[k], before + a.blocks) && Holds(two[k], before + a.blocks + b.blocks)
  {
    var st := ReadAll(records + [a]);
    ReadAllNext(records, a);
    ReadAllNext(records + [a], b);
    OpenAfter(ReadAll(records), a);
    var before := LastTells(records, a);
    SameMessageHolds(st, before + [a], b);
    BlocksOfMore(before, a);
    BlocksOfMore(before + [a], b);
    assert Holds(st.steps[|st.steps| - 1], BlocksOf(before) + a.blocks);
  }

  /** Behind a user record or one of another id, an assistant record adds one step, which holds its blocks alone. */
  lemma NewMessageOpens(records: seq<Record>, a: Record, b: Record)
    requires b.Assistant? && (a.FromUser? || (a.Assistant? && a.mid != b.mid))
    ensures var one, two := ReadAll(records + [a]).steps, ReadAll(records + [a] + [b]).steps;
      |two| == |one| + 1 && two[..|one|] == one && Holds(two[|one|], b.blocks)
  {
    ReadAllNext(records, a);
    ReadAllNext(records + [a], b);
    OpenAfter(ReadAll(records), a);
    NewMessageHolds(ReadAll(records + [a]), b);
  }
}
