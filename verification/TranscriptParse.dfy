/**
 Reading an agent transcript record by record: assistant messages become steps with calls, and a
 table of pending calls routes each tool result to the call it answers.
 */
module TranscriptParse {
  import opened Wrappers

  datatype Family = Explore | Edit | Test | Exec | Mutate | Delegate | Plan | Talk | Other

  datatype Call = Call(tool: string, target: string, family: Family)

  /** The answer to call number `call` of its step; a signature only for an error. */
  datatype Answer = Answer(call: nat, err: bool, bytes: nat, sig: Option<string>)

  datatype Step = Step(ts: Option<real>, tsEnd: Option<real>, model: Option<string>,
                       thinkChars: nat, hasThink: bool, textChars: nat,
                       calls: seq<Call>, results: seq<Answer>)

  datatype Block =
    | Thinking(chars: nat, blank: bool)
    | Text(chars: nat)
    | ToolUse(id: Option<string>, call: Call)
    | OtherBlock

  /** `exitCode`: the text starts with a non-zero exit code; `sig`: the signature its lines yield. */
  datatype ToolResult = ToolResult(id: Option<string>, flagged: bool, exitCode: bool, bytes: nat, sig: string)

  datatype Record =
    | Assistant(mid: Option<string>, ts: Option<real>, model: Option<string>, blocks: seq<Block>)
    | FromUser(ts: Option<real>, results: seq<ToolResult>, meta: bool, says: bool)
    | Skipped   // unreadable, a sidechain, or neither of the two

  datatype State = State(
    steps: seq<Step>,
    open: bool,                               // the last step still takes blocks
    curId: Option<string>,
    pending: map<Option<string>, (nat, nat)>, // tool use id to (step, call)
    human: seq<Option<real>>)

  const EMPTY := State([], false, None, map[], [])

  /** Absent and zero stamps both count as missing. */
  function Or(t: Option<real>, u: Option<real>): Option<real> {
    if t.Some? && t.value != 0.0 then t else u
  }

  // ----- the specification

  function SetLast(steps: seq<Step>, s: Step): seq<Step>
    requires steps != []
  {
    steps[|steps| - 1 := s]
  }

  function Fresh(r: Record): Step
    requires r.Assistant?
  {
    Step(r.ts, None, r.model, 0, false, 0, [], [])
  }

  function Current(st: State, r: Record): (steps: seq<Step>)
    requires r.Assistant?
    ensures steps != []
  {
    if !st.open || r.mid != st.curId || st.steps == [] then st.steps + [Fresh(r)] else st.steps
  }

  /** Where an assistant message's blocks go: a new step unless it continues the last message. */
  function Opened(st: State, r: Record): (o: State)
    requires r.Assistant?
    ensures o.steps != []
  {
    var steps := Current(st, r);
    var last := steps[|steps| - 1];
    st.(steps := SetLast(steps, last.(tsEnd := Or(r.ts, last.ts))), open := true, curId := r.mid)
  }

  function WithBlock(st: State, b: Block): (o: State)
    requires st.steps != []
    ensures o.steps != []
  {
    var i := |st.steps| - 1;
    var s := st.steps[i];
    match b
    case Thinking(chars, blank) =>
      st.(steps := SetLast(st.steps, s.(thinkChars := s.thinkChars + chars, hasThink := s.hasThink || !blank)))
    case Text(chars) => st.(steps := SetLast(st.steps, s.(textChars := s.textChars + chars)))
    case ToolUse(id, call) =>
      st.(steps := SetLast(st.steps, s.(calls := s.calls + [call])), pending := st.pending[id := (i, |s.calls|)])
    case OtherBlock => st
  }

  function WithBlocks(st: State, bs: seq<Block>): (o: State)
    requires st.steps != []
    ensures o.steps != []
  {
    if bs == [] then st else WithBlock(WithBlocks(st, bs[..|bs| - 1]), bs[|bs| - 1])
  }

  predicate Points(steps: seq<Step>, at: (nat, nat)) {
    at.0 < |steps| && at.1 < |steps[at.0].calls|
  }

  function AnswerFor(call: Call, at: nat, r: ToolResult): Answer {
    var err := r.flagged || (call.tool == "bash" && r.exitCode);
    Answer(at, err, r.bytes, if err then Some(r.sig) else None)
  }

  /** A result goes to the call its id is pending for, once; any other is ignored. */
  function WithResult(st: State, r: ToolResult): State {
    if r.id !in st.pending || !Points(st.steps, st.pending[r.id]) then st
    else
      var (i, c) := st.pending[r.id];
      var s := st.steps[i];
      st.(steps := st.steps[i := s.(results := s.results + [AnswerFor(s.calls[c], c, r)])],
          pending := st.pending - {r.id})
  }

  function WithResults(st: State, rs: seq<ToolResult>): State {
    if rs == [] then st else WithResult(WithResults(st, rs[..|rs| - 1]), rs[|rs| - 1])
  }

  function Read(st: State, r: Record): State {
    match r
    case Assistant(_, _, _, blocks) => WithBlocks(Opened(st, r), blocks)
    case FromUser(ts, results, meta, says) =>
      var answered := WithResults(st.(open := false, curId := None), results);
      if results == [] && !meta && says then answered.(human := answered.human + [ts]) else answered
    case Skipped => st
  }

  function ReadAll(records: seq<Record>): State {
    if records == [] then EMPTY else Read(ReadAll(records[..|records| - 1]), records[|records| - 1])
  }

  // ----- what every prefix of a transcript keeps

  /** Results name different calls of their step. */
  ghost predicate AnsweredOnce(s: Step) {
    && (forall i :: 0 <= i < |s.results| ==> s.results[i].call < |s.calls|)
    && forall i, j :: 0 <= i < j < |s.results| ==> s.results[i].call != s.results[j].call
  }

  predicate Answered(s: Step, call: nat) {
    exists i :: 0 <= i < |s.results| && s.results[i].call == call
  }

  /** A pending entry points at an existing call that has no result, and no two at the same one. */
  ghost predicate PendingOk(steps: seq<Step>, pending: map<Option<string>, (nat, nat)>) {
    && (forall id :: id in pending ==> Points(steps, pending[id]) && !Answered(steps[pending[id].0], pending[id].1))
    && forall a, b :: a in pending && b in pending && a != b ==> pending[a] != pending[b]
  }

  ghost predicate Inv(st: State) {
    && (forall i :: 0 <= i < |st.steps| ==> AnsweredOnce(st.steps[i]))
    && PendingOk(st.steps, st.pending)
    && (st.open ==> st.steps != [])
  }

  lemma OpenedKeepsInv(st: State, r: Record)
    requires Inv(st) && r.Assistant?
    ensures Inv(Opened(st, r))
  {
  }

  lemma {:induction false} BlocksKeepInv(st: State, bs: seq<Block>)
    requires Inv(st) && st.steps != []
    ensures Inv(WithBlocks(st, bs))
  {
    if bs != [] {
      var init := WithBlocks(st, bs[..|bs| - 1]);
      BlocksKeepInv(st, bs[..|bs| - 1]);
      BlockKeepsInv(init, bs[|bs| - 1]);
    }
  }

  lemma BlockKeepsInv(st: State, b: Block)
    requires Inv(st) && st.steps != []
    ensures Inv(WithBlock(st, b))
  {
    var i := |st.steps| - 1;
    var s := st.steps[i];
    match b
    case Thinking(chars, blank) =>
      LastGrows(st, s.(thinkChars := s.thinkChars + chars, hasThink := s.hasThink || !blank));
    case Text(chars) => LastGrows(st, s.(textChars := s.textChars + chars));
    case ToolUse(id, call) => ToolUseKeepsInv(st, id, call);
    case OtherBlock =>
  }

  lemma ToolUseKeepsInv(st: State, id: Option<string>, call: Call)
    requires Inv(st) && st.steps != []
    ensures Inv(WithBlock(st, ToolUse(id, call)))
  {
    var i := |st.steps| - 1;
    var s := st.steps[i];
    var t := s.(calls := s.calls + [call]);
    LastGrows(st, t);
    assert !Answered(t, |s.calls|);
    NewPending(SetLast(st.steps, t), st.pending, id, (i, |s.calls|));
  }

  lemma LastGrows(st: State, t: Step)
    requires Inv(st) && st.steps != []
    requires var s := st.steps[|st.steps| - 1]; t.results == s.results && s.calls <= t.calls
    ensures Inv(st.(steps := SetLast(st.steps, t)))
    ensures forall id :: id in st.pending ==> Points(st.steps, st.pending[id])
  {
    var i := |st.steps| - 1;
    SameAnswers(st.steps[i], t);
    forall id | id in st.pending ensures Points(SetLast(st.steps, t), st.pending[id]) {}
  }

  lemma SameAnswers(s: Step, t: Step)
    requires t.results == s.results && s.calls <= t.calls
    ensures AnsweredOnce(s) ==> AnsweredOnce(t)
    ensures forall c :: Answered(t, c) <==> Answered(s, c)
  {
  }

  lemma NewPending(steps: seq<Step>, pending: map<Option<string>, (nat, nat)>, id: Option<string>, at: (nat, nat))
    requires PendingOk(steps, pending) && Points(steps, at) && !Answered(steps[at.0], at.1)
    requires forall a :: a in pending ==> pending[a] != at
    ensures PendingOk(steps, pending[id := at])
  {
  }

  lemma ResultKeepsInv(st: State, r: ToolResult)
    requires Inv(st)
    ensures Inv(WithResult(st, r))
  {
    if r.id in st.pending {
      var (i, c) := st.pending[r.id];
      var s := st.steps[i];
      var t := s.(results := s.results + [AnswerFor(s.calls[c], c, r)]);
      AnswerAdds(s, t, c);
    }
  }

  lemma AnswerAdds(s: Step, t: Step, c: nat)
    requires AnsweredOnce(s) && !Answered(s, c) && c < |s.calls|
    requires t.calls == s.calls && |t.results| == |s.results| + 1 && t.results[..|s.results|] == s.results
    requires t.results[|s.results|].call == c
    ensures AnsweredOnce(t) && forall d :: Answered(t, d) <==> Answered(s, d) || d == c
  {
    forall i | 0 <= i < |s.results| ensures t.results[i] == s.results[i] {
      assert t.results[..|s.results|][i] == t.results[i];
    }
    forall d | Answered(t, d) && d != c ensures Answered(s, d) {
      var i :| 0 <= i < |t.results| && t.results[i].call == d;
      assert s.results[i].call == d;
    }
    forall d | Answered(s, d) ensures Answered(t, d) {
      var i :| 0 <= i < |s.results| && s.results[i].call == d;
      assert t.results[i].call == d;
    }
  }

  lemma {:induction false} ResultsKeepInv(st: State, rs: seq<ToolResult>)
    requires Inv(st)
    ensures Inv(WithResults(st, rs))
  {
    if rs != [] {
      ResultsKeepInv(st, rs[..|rs| - 1]);
      ResultKeepsInv(WithResults(st, rs[..|rs| - 1]), rs[|rs| - 1]);
    }
  }

  lemma ReadKeepsInv(st: State, r: Record)
    requires Inv(st)
    ensures Inv(Read(st, r))
  {
    match r
    case Assistant(_, _, _, blocks) =>
      OpenedKeepsInv(st, r);
      BlocksKeepInv(Opened(st, r), blocks);
    case FromUser(ts, results, meta, says) => ResultsKeepInv(st.(open := false, curId := None), results);
    case Skipped =>
  }

  /** Whatever the records, no call ever has two results, and every pending entry awaits its first. */
  lemma {:induction false} EveryCallAnsweredOnce(records: seq<Record>)
    ensures Inv(ReadAll(records))
  {
    if records != [] {
      EveryCallAnsweredOnce(records[..|records| - 1]);
      ReadKeepsInv(ReadAll(records[..|records| - 1]), records[|records| - 1]);
    }
  }

  // ----- nothing lost, nothing counted twice

  datatype Measure = ThinkChars | TextChars | Calls | Answers

  function OfStep(m: Measure, s: Step): nat {
    match m
    case ThinkChars => s.thinkChars
    case TextChars => s.textChars
    case Calls => |s.calls|
    case Answers => |s.results|
  }

  function OfBlock(m: Measure, b: Block): nat {
    match b
    case Thinking(chars, _) => if m == ThinkChars then chars else 0
    case Text(chars) => if m == TextChars then chars else 0
    case ToolUse(_, _) => if m == Calls then 1 else 0
    case OtherBlock => 0
  }

  function OfSteps(m: Measure, steps: seq<Step>): nat {
    if steps == [] then 0 else OfSteps(m, steps[..|steps| - 1]) + OfStep(m, steps[|steps| - 1])
  }

  function OfBlocks(m: Measure, bs: seq<Block>): nat {
    if bs == [] then 0 else OfBlocks(m, bs[..|bs| - 1]) + OfBlock(m, bs[|bs| - 1])
  }

  function OfRecords(m: Measure, records: seq<Record>): nat {
    if records == [] then 0
    else
      var last := records[|records| - 1];
      OfRecords(m, records[..|records| - 1]) + if last.Assistant? then OfBlocks(m, last.blocks) else 0
  }

  lemma {:induction false} OfStepsSet(m: Measure, steps: seq<Step>, i: nat, t: Step)
    requires i < |steps|
    ensures OfSteps(m, steps[i := t]) == OfSteps(m, steps) - OfStep(m, steps[i]) + OfStep(m, t)
  {
    if i == |steps| - 1 {
      assert steps[i := t][..i] == steps[..i];
    } else {
      assert steps[i := t][..|steps| - 1] == steps[..|steps| - 1][i := t];
      OfStepsSet(m, steps[..|steps| - 1], i, t);
    }
  }

  lemma OpenedAddsNothing(m: Measure, st: State, r: Record)
    requires r.Assistant?
    ensures OfSteps(m, Opened(st, r).steps) == OfSteps(m, st.steps)
  {
    var steps := Current(st, r);
    OfStepsAppend(m, st.steps, Fresh(r));
    Restamped(m, steps, Or(r.ts, steps[|steps| - 1].ts));
  }

  lemma OfStepsAppend(m: Measure, steps: seq<Step>, t: Step)
    ensures OfSteps(m, steps + [t]) == OfSteps(m, steps) + OfStep(m, t)
  {
    assert (steps + [t])[..|steps|] == steps;
  }

  lemma Restamped(m: Measure, steps: seq<Step>, end: Option<real>)
    requires steps != []
    ensures OfSteps(m, SetLast(steps, steps[|steps| - 1].(tsEnd := end))) == OfSteps(m, steps)
  {
    OfStepsSet(m, steps, |steps| - 1, steps[|steps| - 1].(tsEnd := end));
  }

  lemma {:induction false} BlocksAdd(m: Measure, st: State, bs: seq<Block>)
    requires st.steps != []
    ensures OfSteps(m, WithBlocks(st, bs).steps) == OfSteps(m, st.steps) + OfBlocks(m, bs)
  {
    if bs != [] {
      BlocksAdd(m, st, bs[..|bs| - 1]);
      BlockAdds(m, WithBlocks(st, bs[..|bs| - 1]), bs[|bs| - 1]);
    }
  }

  lemma BlockAdds(m: Measure, st: State, b: Block)
    requires st.steps != []
    ensures OfSteps(m, WithBlock(st, b).steps) == OfSteps(m, st.steps) + OfBlock(m, b)
  {
    var i, after := |st.steps| - 1, WithBlock(st, b).steps;
    OfStepsSet(m, st.steps, i, after[i]);
    assert after == st.steps[i := after[i]];
  }

  /** How many of the results find their call pending. */
  function Routed(st: State, rs: seq<ToolResult>): nat {
    if rs == [] then 0
    else
      var before, last := WithResults(st, rs[..|rs| - 1]), rs[|rs| - 1];
      Routed(st, rs[..|rs| - 1])
      + if last.id in before.pending && Points(before.steps, before.pending[last.id]) then 1 else 0
  }

  lemma {:induction false} ResultsAdd(m: Measure, st: State, rs: seq<ToolResult>)
    ensures OfSteps(m, WithResults(st, rs).steps) == OfSteps(m, st.steps) + if m == Answers then Routed(st, rs) else 0
    ensures |WithResults(st, rs).pending| + Routed(st, rs) == |st.pending|
  {
    if rs != [] {
      ResultsAdd(m, st, rs[..|rs| - 1]);
      var before, after, r := WithResults(st, rs[..|rs| - 1]), WithResults(st, rs), rs[|rs| - 1];
      if r.id in before.pending && Points(before.steps, before.pending[r.id]) {
        var i := before.pending[r.id].0;
        OfStepsSet(m, before.steps, i, after.steps[i]);
        assert before.pending.Keys == (before.pending - {r.id}).Keys + {r.id};
      }
    }
  }

  /** Thinking, text and calls of the steps are exactly those of the messages read. */
  lemma {:induction false} ContentConserved(m: Measure, records: seq<Record>)
    requires m != Answers
    ensures OfSteps(m, ReadAll(records).steps) == OfRecords(m, records)
  {
    if records != [] {
      var st, last := ReadAll(records[..|records| - 1]), records[|records| - 1];
      ContentConserved(m, records[..|records| - 1]);
      match last
      case Assistant(_, _, _, blocks) =>
        OpenedAddsNothing(m, st, last);
        BlocksAdd(m, Opened(st, last), blocks);
      case FromUser(_, results, _, _) => ResultsAdd(m, st.(open := false, curId := None), results);
      case Skipped =>
    }
  }

  lemma {:induction false} PendingPerCall(st: State, bs: seq<Block>)
    requires st.steps != []
    ensures |WithBlocks(st, bs).pending| <= |st.pending| + OfBlocks(Calls, bs)
  {
    if bs != [] {
      PendingPerCall(st, bs[..|bs| - 1]);
      var before := WithBlocks(st, bs[..|bs| - 1]);
      if bs[|bs| - 1].ToolUse? {
        var id := bs[|bs| - 1].id;
        assert before.pending[id := (0, 0)].Keys == before.pending.Keys + {id};
      }
    }
  }

  /** Answers and pending entries together never outnumber the calls. */
  lemma {:induction false} CallsAccountFor(records: seq<Record>)
    ensures var st := ReadAll(records); OfSteps(Answers, st.steps) + |st.pending| <= OfSteps(Calls, st.steps)
  {
    if records != [] {
      var st, last := ReadAll(records[..|records| - 1]), records[|records| - 1];
      CallsAccountFor(records[..|records| - 1]);
      match last
      case Assistant(_, _, _, blocks) =>
        OpenedAddsNothing(Answers, st, last);
        OpenedAddsNothing(Calls, st, last);
        BlocksAdd(Answers, Opened(st, last), blocks);
        BlocksAdd(Calls, Opened(st, last), blocks);
        NoAnswerBlocks(blocks);
        PendingPerCall(Opened(st, last), blocks);
      case FromUser(_, results, _, _) =>
        ResultsAdd(Answers, st.(open := false, curId := None), results);
        ResultsAdd(Calls, st.(open := false, curId := None), results);
      case Skipped =>
    }
  }

  lemma {:induction false} NoAnswerBlocks(bs: seq<Block>)
    ensures OfBlocks(Answers, bs) == 0
  {
    if bs != [] { NoAnswerBlocks(bs[..|bs| - 1]); }
  }

  // ----- the loops

  lemma BlocksNext(st: State, bs: seq<Block>, k: nat)
    requires st.steps != [] && k < |bs|
    ensures WithBlocks(st, bs[..k + 1]) == WithBlock(WithBlocks(st, bs[..k]), bs[k])
  {
    assert bs[..k + 1][..k] == bs[..k];
  }

  method AddBlocks(st: State, blocks: seq<Block>) returns (o: State)
    requires st.steps != []
    ensures o == WithBlocks(st, blocks)
  {
    var steps, pending := st.steps, st.pending;
    ghost var acc := st;
    for k := 0 to |blocks|
      invariant acc == WithBlocks(st, blocks[..k]) == st.(steps := steps, pending := pending) && steps != []
    {
      BlocksNext(st, blocks, k);
      acc := WithBlock(acc, blocks[k]);
      var i := |steps| - 1;
      var cur := steps[i];
      match blocks[k]
      case Thinking(chars, blank) =>
        steps := steps[i := cur.(thinkChars := cur.thinkChars + chars, hasThink := cur.hasThink || !blank)];
      case Text(chars) => steps := steps[i := cur.(textChars := cur.textChars + chars)];
      case ToolUse(id, call) =>
        steps := steps[i := cur.(calls := cur.calls + [call])];
        pending := pending[id := (i, |steps[i].calls| - 1)];
      case OtherBlock =>
    }
    assert blocks[..|blocks|] == blocks;
    o := st.(steps := steps, pending := pending);
  }

  method AddResults(st: State, results: seq<ToolResult>) returns (o: State)
    requires Inv(st)
    ensures o == WithResults(st, results)
  {
    var steps, pending := st.steps, st.pending;
    for k := 0 to |results|
      invariant st.(steps := steps, pending := pending) == WithResults(st, results[..k])
    {
      assert results[..k + 1][..k] == results[..k];
      ResultsKeepInv(st, results[..k]);
      var r := results[k];
      if r.id in pending {
        var (i, c) := pending[r.id];
        pending := pending - {r.id};
        var call := steps[i].calls[c];
        var err := r.flagged;
        if call.tool == "bash" && r.exitCode { err := true; }
        var sig := if err then Some(r.sig) else None;
        steps := steps[i := steps[i].(results := steps[i].results + [Answer(c, err, r.bytes, sig)])];
      }
    }
    assert results[..|results|] == results;
    o := st.(steps := steps, pending := pending);
  }

  /** `parse`; no lookup in the pending table can miss its step or its call. */
  method Parse(records: seq<Record>) returns (st: State)
    ensures st == ReadAll(records) && Inv(st)
  {
    st := EMPTY;
    for k := 0 to |records|
      invariant st == ReadAll(records[..k]) && Inv(st)
    {
      assert records[..k + 1][..k] == records[..k];
      ReadKeepsInv(st, records[k]);
      match records[k]
      case Assistant(mid, ts, model, blocks) =>
        var steps := st.steps;
        if !st.open || mid != st.curId { steps := steps + [Fresh(records[k])]; }
        var cur := steps[|steps| - 1];
        steps := steps[|steps| - 1 := cur.(tsEnd := Or(ts, cur.ts))];
        st := AddBlocks(st.(steps := steps, open := true, curId := mid), blocks);
      case FromUser(ts, results, meta, says) =>
        st := AddResults(st.(open := false, curId := None), results);
        if results == [] && !meta && says { st := st.(human := st.human + [ts]); }
      case Skipped =>
    }
    assert records[..|records|] == records;
  }
}
