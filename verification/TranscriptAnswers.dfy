/**
 Which call each tool result of a transcript answers, said of its tool uses and results in the order
 they are read, with no table of pending calls.
 */
module TranscriptAnswers {
  import opened Wrappers
  import opened TranscriptParse
  import opened TranscriptReading

  /** A tool use is call `at.1` of step `at.0`. */
  datatype Use = Use(id: Option<string>, at: (nat, nat), call: Call)

  datatype Event = Used(use: Use) | Reply(result: ToolResult)

  function UsesOf(step: nat, calls: nat, bs: seq<Block>): seq<Event> {
    if bs == [] then []
    else
      var init, b := bs[..|bs| - 1], bs[|bs| - 1];
      UsesOf(step, calls, init) + if b.ToolUse? then [Used(Use(b.id, (step, calls + |CallsOf(init)|), b.call))] else []
  }

  function RepliesOf(rs: seq<ToolResult>): seq<Event> {
    seq(|rs|, i requires 0 <= i < |rs| => Reply(rs[i]))
  }

  /** The uses and results of a transcript; calls are numbered through their whole message. */
  ghost function Events(records: seq<Record>): seq<Event> {
    if records == [] then []
    else
      var n := |records| - 1;
      var init, r := records[..n], records[n];
      match r
      case Assistant(_, _, _, blocks) =>
        var ms := Messages(init);
        Events(init) + (if Opens(records, n) || ms == [] then UsesOf(|ms|, 0, blocks)
                        else UsesOf(|ms| - 1, |CallsOf(BlocksOf(ms[|ms| - 1]))|, blocks))
      case FromUser(_, results, _, _) => Events(init) + RepliesOf(results)
      case Skipped => Events(init)
  }

  predicate Names(e: Event, id: Option<string>) {
    match e
    case Used(use) => use.id == id
    case Reply(result) => result.id == id
  }

  /** The use that still awaits a result for `id`. */
  function Awaiting(es: seq<Event>, id: Option<string>): Option<Use> {
    if es == [] then None
    else
      var e := es[|es| - 1];
      if !Names(e, id) then Awaiting(es[..|es| - 1], id) else if e.Used? then Some(e.use) else None
  }

  /** A use awaits its result while it is the last event to name its id. */
  lemma {:induction false} AwaitingIsLastNaming(es: seq<Event>, id: Option<string>, u: Use)
    ensures Awaiting(es, id) == Some(u) <==>
      exists j :: 0 <= j < |es| && es[j] == Used(u) && u.id == id && forall i :: j < i < |es| ==> !Names(es[i], id)
  {
    if es != [] {
      var init, e := es[..|es| - 1], es[|es| - 1];
      AwaitingIsLastNaming(init, id, u);
      if Awaiting(es, id) == Some(u) {
        if Names(e, id) {
          assert es[|es| - 1] == Used(u);
        } else {
          var j :| 0 <= j < |init| && init[j] == Used(u) && u.id == id
            && forall i :: j < i < |init| ==> !Names(init[i], id);
          assert es[j] == Used(u) && forall i :: j < i < |init| ==> es[i] == init[i];
        }
      }
      if j :| 0 <= j < |es| && es[j] == Used(u) && u.id == id && forall i :: j < i < |es| ==> !Names(es[i], id) {
        if j < |init| {
          assert init[j] == Used(u) && forall i :: j < i < |init| ==> init[i] == es[i];
          assert !Names(e, id);
        }
      }
    }
  }

  function AnswerIn(u: Option<Use>, r: ToolResult, i: nat): seq<(Use, ToolResult)> {
    if u.Some? && u.value.at.0 == i then [(u.value, r)] else []
  }

  /** The results that answer calls of step `i`, each with the use it answers, in the order they are read. */
  function AnswersAt(es: seq<Event>, i: nat): seq<(Use, ToolResult)> {
    if es == [] then []
    else
      var init, e := es[..|es| - 1], es[|es| - 1];
      AnswersAt(init, i) + if e.Reply? then AnswerIn(Awaiting(init, e.result.id), e.result, i) else []
  }

  /** The answer is filed under the call of the use; an error when flagged, or when a shell call exits non-zero. */
  predicate Reports(a: Answer, p: (Use, ToolResult)) {
    && a.call == p.0.at.1 && a.bytes == p.1.bytes
    && (a.err <==> p.1.flagged || (p.0.call.tool == "bash" && p.1.exitCode))
    && (a.err ==> a.sig == Some(p.1.sig)) && (!a.err ==> a.sig == None)
  }

  predicate Made(steps: seq<Step>, u: Use) {
    Points(steps, u.at) && steps[u.at.0].calls[u.at.1] == u.call
  }

  /** The pending table holds exactly the awaiting uses, and the answers are the results read. */
  ghost predicate Routed(st: State, waits: Option<string> -> Option<Use>, at: nat -> seq<(Use, ToolResult)>) {
    && (forall id :: id in st.pending <==> waits(id).Some?)
    && (forall id :: id in st.pending ==> Made(st.steps, waits(id).value) && st.pending[id] == waits(id).value.at)
    && (forall i: nat :: i < |st.steps| ==> Pairwise(st.steps[i].results, at(i), Reports))
    && (forall i: nat :: i >= |st.steps| ==> at(i) == [])
  }

  /** A step's calls only grow and its answers stay. */
  predicate Grown(s: Step, t: Step) {
    s.calls <= t.calls && t.results == s.results
  }

  lemma GrownRouted(st: State, o: State, waits: Option<string> -> Option<Use>, at: nat -> seq<(Use, ToolResult)>)
    requires Routed(st, waits, at) && o.pending == st.pending && |st.steps| <= |o.steps|
    requires forall i :: 0 <= i < |st.steps| ==> Grown(st.steps[i], o.steps[i])
    requires forall i :: |st.steps| <= i < |o.steps| ==> o.steps[i].results == []
    ensures Routed(o, waits, at)
  {
    forall id | id in o.pending ensures Made(o.steps, waits(id).value) {
      var u := waits(id).value;
      assert Made(st.steps, u) && Grown(st.steps[u.at.0], o.steps[u.at.0]);
    }
    forall i: nat | i < |o.steps| ensures Pairwise(o.steps[i].results, at(i), Reports) {
      if i < |st.steps| { assert Grown(st.steps[i], o.steps[i]); }
    }
  }

  lemma UseRouted(st: State, waits: Option<string> -> Option<Use>, next: Option<string> -> Option<Use>,
                  at: nat -> seq<(Use, ToolResult)>, u: Use)
    requires st.steps != [] && Routed(st, waits, at)
    requires u.at == (|st.steps| - 1, |st.steps[|st.steps| - 1].calls|)
    requires forall id :: next(id) == if u.id == id then Some(u) else waits(id)
    ensures Routed(WithBlock(st, ToolUse(u.id, u.call)), next, at)
  {
    var o := WithBlock(st, ToolUse(u.id, u.call));
    forall i | 0 <= i < |st.steps| ensures Grown(st.steps[i], o.steps[i]) {}
    GrownRouted(st, o.(pending := st.pending), waits, at);
  }

  lemma ReportAppended(st: State, waits: Option<string> -> Option<Use>, at: nat -> seq<(Use, ToolResult)>, r: ToolResult)
    requires Routed(st, waits, at) && r.id in st.pending
    ensures forall i: nat :: i < |st.steps| ==>
      Pairwise(WithResult(st, r).steps[i].results, at(i) + AnswerIn(waits(r.id), r, i), Reports)
  {
    var o, u := WithResult(st, r), waits(r.id).value;
    assert Made(st.steps, u);
    forall i: nat | i < |st.steps| ensures Pairwise(o.steps[i].results, at(i) + AnswerIn(Some(u), r, i), Reports) {
      if i == u.at.0 {
        PairwiseAppend(st.steps[i].results, at(i), Reports, o.steps[i].results, (u, r));
      } else {
        assert o.steps[i] == st.steps[i] && at(i) + [] == at(i);
      }
    }
  }

  lemma StillMade(st: State, waits: Option<string> -> Option<Use>, r: ToolResult)
    requires (forall id :: id in st.pending ==> waits(id).Some? && Made(st.steps, waits(id).value)) && r.id in st.pending
    ensures forall id :: id in st.pending ==> Made(WithResult(st, r).steps, waits(id).value)
  {
    var o := WithResult(st, r);
    forall id | id in st.pending ensures Made(o.steps, waits(id).value) {
      assert Made(st.steps, waits(id).value);
    }
  }

  lemma ReplyRouted(st: State, waits: Option<string> -> Option<Use>, next: Option<string> -> Option<Use>,
                    at: nat -> seq<(Use, ToolResult)>, after: nat -> seq<(Use, ToolResult)>, r: ToolResult)
    requires Routed(st, waits, at)
    requires forall id :: next(id) == if r.id == id then None else waits(id)
    requires forall i :: after(i) == at(i) + AnswerIn(waits(r.id), r, i)
    ensures Routed(WithResult(st, r), next, after)
  {
    var o := WithResult(st, r);
    if r.id in st.pending {
      var u := waits(r.id).value;
      assert Made(st.steps, u);
      var i := u.at.0;
      assert forall j :: 0 <= j < |st.steps| ==> o.steps[j].calls == st.steps[j].calls;
      ReportAppended(st, waits, at, r);
      StillMade(st, waits, r);
    }
  }

  // ----- read off the events

  ghost function Waits(es: seq<Event>): Option<string> -> Option<Use> {
    id => Awaiting(es, id)
  }

  ghost function At(es: seq<Event>): nat -> seq<(Use, ToolResult)> {
    (i: nat) => AnswersAt(es, i)
  }

  lemma AfterUse(es: seq<Event>, u: Use)
    ensures forall id :: Waits(es + [Used(u)])(id) == if u.id == id then Some(u) else Waits(es)(id)
    ensures forall i :: At(es + [Used(u)])(i) == At(es)(i)
  {
    assert (es + [Used(u)])[..|es|] == es;
  }

  lemma AfterReply(es: seq<Event>, r: ToolResult)
    ensures forall id :: Waits(es + [Reply(r)])(id) == if r.id == id then None else Waits(es)(id)
    ensures forall i :: At(es + [Reply(r)])(i) == At(es)(i) + AnswerIn(Waits(es)(r.id), r, i)
  {
    assert (es + [Reply(r)])[..|es|] == es;
  }

  lemma {:induction false} CallsAfter(st: State, bs: seq<Block>)
    requires st.steps != []
    ensures var i, o := |st.steps| - 1, WithBlocks(st, bs).steps;
      |o| == |st.steps| && o[i].calls == st.steps[i].calls + CallsOf(bs)
  {
    if bs != [] { CallsAfter(st, bs[..|bs| - 1]); }
  }

  lemma BlockRouted(st: State, es: seq<Event>, more: seq<Event>, i: nat, b: Block)
    requires |st.steps| == i + 1 && Routed(st, Waits(es), At(es))
    requires more == es + if b.ToolUse? then [Used(Use(b.id, (i, |st.steps[i].calls|), b.call))] else []
    ensures Routed(WithBlock(st, b), Waits(more), At(more))
  {
    if b.ToolUse? {
      var u := Use(b.id, (i, |st.steps[i].calls|), b.call);
      AfterUse(es, u);
      UseRouted(st, Waits(es), Waits(es + [Used(u)]), At(es), u);
    } else {
      assert more == es;
      GrownRouted(st, WithBlock(st, b), Waits(es), At(es));
    }
  }

  lemma {:induction false} BlocksRouted(st: State, es: seq<Event>, i: nat, calls: nat, bs: seq<Block>, all: seq<Event>)
    requires |st.steps| == i + 1 && |st.steps[i].calls| == calls && Routed(st, Waits(es), At(es))
    requires all == es + UsesOf(i, calls, bs)
    ensures Routed(WithBlocks(st, bs), Waits(all), At(all))
  {
    if bs == [] {
      assert all == es;
    } else {
      var init := bs[..|bs| - 1];
      var before := es + UsesOf(i, calls, init);
      BlocksRouted(st, es, i, calls, init, before);
      CallsAfter(st, init);
      assert init + [bs[|bs| - 1]] == bs;
      UsesNext(es, i, calls, init, bs[|bs| - 1]);
      BlockRouted(WithBlocks(st, init), before, all, i, bs[|bs| - 1]);
    }
  }

  lemma UsesNext(es: seq<Event>, step: nat, calls: nat, bs: seq<Block>, b: Block)
    ensures es + UsesOf(step, calls, bs + [b]) == es + UsesOf(step, calls, bs)
      + if b.ToolUse? then [Used(Use(b.id, (step, calls + |CallsOf(bs)|), b.call))] else []
  {
    assert (bs + [b])[..|bs|] == bs;
  }

  lemma {:induction false} RepliesRouted(st: State, es: seq<Event>, rs: seq<ToolResult>)
    requires Routed(st, Waits(es), At(es))
    ensures Routed(WithResults(st, rs), Waits(es + RepliesOf(rs)), At(es + RepliesOf(rs)))
  {
    if rs == [] {
      assert es + RepliesOf(rs) == es;
    } else {
      var init, r := rs[..|rs| - 1], rs[|rs| - 1];
      var before := es + RepliesOf(init);
      RepliesRouted(st, es, init);
      AfterReply(before, r);
      assert es + RepliesOf(rs) == before + [Reply(r)];
      ReplyRouted(WithResults(st, init), Waits(before), Waits(before + [Reply(r)]), At(before),
                  At(before + [Reply(r)]), r);
    }
  }

  lemma MessageRouted(st: State, es: seq<Event>, r: Record)
    requires r.Assistant? && Routed(st, Waits(es), At(es))
    ensures var step := |Current(st, r)| - 1;
      var all := es + UsesOf(step, |Current(st, r)[step].calls|, r.blocks);
      Routed(Read(st, r), Waits(all), At(all))
  {
    GrownRouted(st, Opened(st, r), Waits(es), At(es));
    var step := |Current(st, r)| - 1;
    var calls := |Current(st, r)[step].calls|;
    BlocksRouted(Opened(st, r), es, step, calls, r.blocks, es + UsesOf(step, calls, r.blocks));
  }

  lemma EventsNext(records: seq<Record>, r: Record, step: nat, calls: nat)
    requires r.Assistant?
    requires var ms := Messages(records);
      if Opens(records + [r], |records|) || ms == [] then step == |ms| && calls == 0
      else step == |ms| - 1 && calls == |CallsOf(BlocksOf(ms[|ms| - 1]))|
    ensures Events(records + [r]) == Events(records) + UsesOf(step, calls, r.blocks)
  {
    assert (records + [r])[..|records|] == records;
  }

  lemma CallsTold(steps: seq<Step>, ms: seq<seq<Record>>, k: nat)
    requires Pairwise(steps, ms, Tells) && k < |steps|
    ensures |steps[k].calls| == |CallsOf(BlocksOf(ms[k]))|
  {
    assert Tells(steps[k], ms[k]);
  }

  lemma CurrentEvents(st: State, records: seq<Record>, r: Record, step: nat, calls: nat)
    requires r.Assistant? && Pairwise(st.steps, Messages(records), Tells) && OpenAt(st, records)
    requires st.open ==> st.steps != []
    requires |Current(st, r)| == step + 1 && |Current(st, r)[step].calls| == calls
    ensures Events(records + [r]) == Events(records) + UsesOf(step, calls, r.blocks)
  {
    OpensWhenClosed(st, records, r);
    if st.open && r.mid == st.curId { CallsTold(st.steps, Messages(records), step); }
    EventsNext(records, r, step, calls);
  }

  lemma NextMessageRouted(st: State, records: seq<Record>, r: Record)
    requires r.Assistant? && Routed(st, Waits(Events(records)), At(Events(records)))
    requires Pairwise(st.steps, Messages(records), Tells) && OpenAt(st, records) && (st.open ==> st.steps != [])
    ensures var es := Events(records + [r]); Routed(Read(st, r), Waits(es), At(es))
  {
    MessageRouted(st, Events(records), r);
    var step := |Current(st, r)| - 1;
    CurrentEvents(st, records, r, step, |Current(st, r)[step].calls|);
  }

  /** Each result answers the call whose use last named its id, once, and is an error as that call says. */
  lemma {:induction false} AnswersRouted(records: seq<Record>)
    ensures var es := Events(records); Routed(ReadAll(records), Waits(es), At(es))
  {
    if records != [] {
      var init, r := records[..|records| - 1], records[|records| - 1];
      var st := ReadAll(init);
      AnswersRouted(init);
      assert init + [r] == records;
      match r
      case Assistant(_, _, _, blocks) =>
        EveryCallAnsweredOnce(init);
        StepsAreMessages(init);
        NextMessageRouted(st, init, r);
      case FromUser(_, results, _, _) => RepliesRouted(st.(open := false, curId := None), Events(init), results);
      case Skipped =>
    }
  }

  /** The answers at a step are the results whose id was last named by a use of that step. */
  lemma {:induction false} AnswersAreReplies(es: seq<Event>, i: nat, u: Use, r: ToolResult)
    ensures (u, r) in AnswersAt(es, i) <==>
      u.at.0 == i && exists k :: 0 <= k < |es| && es[k] == Reply(r) && Awaiting(es[..k], r.id) == Some(u)
  {
    if es != [] {
      var n := |es| - 1;
      AnswersAreReplies(es[..n], i, u, r);
      assert forall k :: 0 <= k < n ==> es[..n][..k] == es[..k];
    }
  }

  // ----- the human messages

  /** The stamps of the user records that carry no result, are no meta record and say something. */
  function Said(records: seq<Record>): seq<Option<real>> {
    if records == [] then []
    else
      var r := records[|records| - 1];
      Said(records[..|records| - 1]) + if r.FromUser? && |r.results| == 0 && r.says && !r.meta then [r.ts] else []
  }

  lemma {:induction false} ResultsSayNothing(st: State, rs: seq<ToolResult>)
    ensures WithResults(st, rs).human == st.human
  {
    if rs != [] { ResultsSayNothing(st, rs[..|rs| - 1]); }
  }

  lemma {:induction false} BlocksSayNothing(st: State, bs: seq<Block>)
    requires st.steps != []
    ensures WithBlocks(st, bs).human == st.human
  {
    if bs != [] { BlocksSayNothing(st, bs[..|bs| - 1]); }
  }

  lemma {:induction false} HumanIsSaid(records: seq<Record>)
    ensures ReadAll(records).human == Said(records)
  {
    if records != [] {
      var init, r := records[..|records| - 1], records[|records| - 1];
      HumanIsSaid(init);
      match r
      case Assistant(_, _, _, blocks) => BlocksSayNothing(Opened(ReadAll(init), r), blocks);
      case FromUser(_, results, _, _) => ResultsSayNothing(ReadAll(init).(open := false, curId := None), results);
      case Skipped =>
    }
  }
}
