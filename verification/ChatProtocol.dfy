/**
 The chat as a protocol: the server appends lines and may move to another transcript, the client
 fetches and merges pages that lag behind, and lines that were sent wait on the pending list until
 they are delivered. The server stamps with its own clock, the client reads another one.
 Every interleaving of these steps is a run.
 */
module ChatProtocol {
  import opened Wrappers
  import opened ChatModel
  import opened ChatWindow

  /** A page on its way, the session it was read from and the entries of that one it runs from and to. */
  datatype Reply = Reply(page: Page, session: nat, start: int, end: nat)

  datatype Chat = Chat(
    clock: int,                  // what the client's clock shows
    sessions: seq<Transcript>,   // every transcript the server has served, the current one last
    known: set<Uuid>,            // every transcript uuid the server has used
    view: seq<Entry>,            // the client's entries
    loaded: bool,                // the first page has arrived
    offset: nat,                 // where the next forward page starts
    at: nat,                     // the session of the last page merged
    reach: nat,                  // how far into that session pages were read, in entries
    inbox: Option<Reply>,        // a page that was read but not merged yet
    pending: seq<Pending>,
    shown: set<nat>,             // sends whose local entries were added
    nextId: nat)

  datatype Said = Said(id: string, role: Role, text: string)

  datatype Action =
    | Clock(now: int)                                  // the client's clock moves
    | Append(said: seq<Said>, stamp: Option<int>)      // the server writes one transcript line
    | NewSession(lines: Transcript)                    // the server moves to another transcript
    | Fetch(from: nat, place: nat)                     // the server answers a page request
    | Unreadable                                       // it answers without a transcript to read
    | Merge                                            // the client merges the page
    | Abort                                            // the request fails or is aborted
    | Send(text: string)
    | Respond(id: nat, res: Response)
    | Fail(id: nat)                                    // the send request failed
    | ShowLocal(id: nat, text: string, output: bool)   // a confirmed slash command

  function Stamped(said: seq<Said>, stamp: Option<int>): seq<Entry> {
    seq(|said|, i requires 0 <= i < |said| =>
      Entry(Some(FromTranscript(said[i].id)), said[i].role, said[i].text, stamp))
  }

  function Locals(id: nat, text: string, output: bool, now: int): seq<Entry> {
    [Entry(Some(Local(id, 0)), User, text, Some(now))]
    + if output then [Entry(Some(Local(id, 1)), Command, text, Some(now))] else []
  }

  function Current(c: Chat): Transcript
    requires c.sessions != []
  {
    c.sessions[|c.sessions| - 1]
  }

  /**
   Where the stored offset, a number of bytes, falls in the current transcript: at the same line
   while the session is the one it was taken from, and anywhere, `place`, in another one.
   */
  function Place(c: Chat, place: nat): nat {
    if c.at + 1 == |c.sessions| || c.offset == 0 then c.offset else place
  }

  function Answered(c: Chat, from: nat, place: nat): Reply
    requires c.sessions != []
  {
    var page := Answer(Some(Current(c)), c.loaded, Place(c, place), from);
    var end := Count(Current(c), page.offset);
    Reply(page, |c.sessions| - 1, end - |page.entries|, end)
  }

  /** Setting the entries runs the effect that drops delivered lines. */
  function Showed(c: Chat, view: seq<Entry>): Chat {
    c.(view := view, pending := DropDelivered(c.pending, view))
  }

  /** A page moves the furthest entry read; a reset page and another session set it anew. */
  function Reached(c: Chat, r: Reply): nat {
    if r.page.reset || r.session != c.at || Served(c.view) == [] || r.end > c.reach then r.end else c.reach
  }

  function NewLine(c: Chat, text: string): Pending {
    Pending(c.nextId, text, Sent, SeenIn(c.view, text), c.clock)
  }

  ghost predicate Enabled(c: Chat, a: Action) {
    match a
    case Append(said, stamp) =>
      && c.sessions != [] && Identified(Flatten(Current(c)) + Stamped(said, stamp))
      && UuidsOf(Stamped(said, stamp)) !! c.known
    case NewSession(lines) => Identified(Flatten(lines))
    case Fetch(_, _) => c.inbox.None? && c.sessions != []
    case Unreadable => c.inbox.None?
    case Merge => c.inbox.Some?
    case ShowLocal(id, _, _) => id < c.nextId && id !in c.shown
    case _ => true
  }

  ghost function Step(c: Chat, a: Action): Chat {
    if !Enabled(c, a) then c
    else
      match a
      case Clock(now) => c.(clock := now)
      case Append(said, stamp) =>
        var line := Stamped(said, stamp);
        c.(sessions := c.sessions[|c.sessions| - 1 := Current(c) + [line]], known := c.known + UuidsOf(line))
      case NewSession(lines) =>
        c.(sessions := c.sessions + [lines], known := c.known + UuidsOf(Flatten(lines)))
      case Fetch(from, place) => c.(inbox := Some(Answered(c, from, place)))
      case Unreadable => c.(inbox := Some(Reply(Answer(None, c.loaded, c.offset, 0), c.at, 0, 0)))
      case Merge =>
        var r := c.inbox.value;
        Showed(c, Merged(c.view, r.page.entries, r.page.reset)).(
          loaded := true, offset := r.page.offset, at := r.session, reach := Reached(c, r), inbox := None)
      case Abort => c.(inbox := None)
      case Send(text) => c.(pending := c.pending + [NewLine(c, text)], nextId := c.nextId + 1)
      case Respond(id, res) => c.(pending := PendingAfterSend(c.pending, res, id))
      case Fail(id) => c.(pending := Refused(c.pending, id))
      case ShowLocal(id, text, output) =>
        Showed(c, Merged(c.view, Locals(id, text, output, c.clock), false)).(shown := c.shown + {id})
  }

  ghost function Run(c: Chat, actions: seq<Action>): Chat
    decreases |actions|
  {
    if actions == [] then c else Run(Step(c, actions[0]), actions[1..])
  }

  // ----- what every run keeps

  /** What a page holds is the stretch of its transcript that ends at its offset. */
  ghost predicate Stretch(lines: Transcript, r: Reply) {
    && r.page.offset <= |lines| && r.end == Count(lines, r.page.offset)
    && 0 <= r.start <= r.end <= |Flatten(lines)| && r.page.entries == Flatten(lines)[r.start..r.end]
  }

  /** A page of the session read so far starts no later than that was read. */
  ghost predicate InboxOk(sessions: seq<Transcript>, loaded: bool, at: nat, reach: nat, r: Reply) {
    && r.session < |sessions| && Stretch(sessions[r.session], r)
    && (loaded && r.session == at && !r.page.reset ==> r.start <= reach)
  }

  ghost predicate ReadOk(lines: Transcript, offset: nat, reach: nat) {
    offset <= |lines| && Count(lines, offset) <= reach <= |Flatten(lines)|
  }

  ghost predicate SessionOk(lines: Transcript, known: set<Uuid>) {
    Identified(Flatten(lines)) && UuidsOf(Flatten(lines)) <= known
  }

  ghost predicate SessionsOk(sessions: seq<Transcript>, known: set<Uuid>) {
    forall s :: 0 <= s < |sessions| ==> SessionOk(sessions[s], known)
  }

  ghost predicate UuidsKnown(us: set<Uuid>, known: set<Uuid>, shown: set<nat>) {
    forall u :: u in us ==> if u.Local? then u.line in shown else u in known
  }

  ghost predicate ViewOk(view: seq<Entry>, loaded: bool, known: set<Uuid>, shown: set<nat>) {
    && NoRepeats(view) && |view| <= CAP && UuidsKnown(UuidsOf(view), known, shown)
    && (!loaded ==> Served(view) == [])
  }

  ghost predicate LinesOk(pending: seq<Pending>, view: seq<Entry>, nextId: nat, known: set<Uuid>, shown: set<nat>) {
    forall p :: p in pending ==> p.id < nextId && UuidsKnown(p.seen, known, shown) && Waiting(p, view)
  }

  ghost predicate Books(c: Chat) {
    && SessionsOk(c.sessions, c.known)
    && c.at < |c.sessions| && ReadOk(c.sessions[c.at], c.offset, c.reach)
    && (c.inbox.Some? ==> InboxOk(c.sessions, c.loaded, c.at, c.reach, c.inbox.value))
    && ViewOk(c.view, c.loaded, c.known, c.shown)
    && LinesOk(c.pending, c.view, c.nextId, c.known, c.shown)
  }

  lemma {:induction false} FirstsPart(es: seq<Entry>, e: Entry)
    ensures e in Firsts(es) ==> e in es
  {
    if es != [] {
      FirstsPart(es[..|es| - 1], e);
      assert es == es[..|es| - 1] + [es[|es| - 1]];
    }
  }

  /** A merged view holds entries of the view and the page, none twice, at most a thousand. */
  lemma MergedPart(view: seq<Entry>, page: seq<Entry>, reset: bool)
    ensures var merged := Merged(view, page, reset);
            && NoRepeats(merged) && |merged| <= CAP
            && forall e :: e in merged ==> e in page || (!reset && e in view)
  {
    var es := (if reset then [] else view) + page;
    FirstsUnique(es);
    forall e | e in Merged(view, page, reset) ensures e in es { FirstsPart(es, e); }
  }

  lemma FlattenAppend(lines: Transcript, line: seq<Entry>)
    ensures Flatten(lines + [line]) == Flatten(lines) + line
    ensures forall offset: nat :: offset <= |lines| ==> Count(lines + [line], offset) == Count(lines, offset)
  {
    assert (lines + [line])[..|lines|] == lines;
    assert forall offset: nat :: offset <= |lines| ==> (lines + [line])[..offset] == lines[..offset];
  }

  /** A transcript that grows keeps what was read of it. */
  lemma AppendKeepsRead(lines: Transcript, line: seq<Entry>, offset: nat, reach: nat)
    requires ReadOk(lines, offset, reach)
    ensures ReadOk(lines + [line], offset, reach)
  {
    FlattenAppend(lines, line);
  }

  lemma AppendKeepsStretch(lines: Transcript, line: seq<Entry>, r: Reply)
    requires Stretch(lines, r)
    ensures Stretch(lines + [line], r)
  {
    FlattenAppend(lines, line);
  }

  lemma AppendKeepsSession(lines: Transcript, said: seq<Said>, stamp: Option<int>, known: set<Uuid>)
    requires SessionOk(lines, known) && Identified(Flatten(lines) + Stamped(said, stamp))
    ensures SessionOk(lines + [Stamped(said, stamp)], known + UuidsOf(Stamped(said, stamp)))
  {
    FlattenAppend(lines, Stamped(said, stamp));
  }

  lemma AppendKeepsBooks(c: Chat, said: seq<Said>, stamp: Option<int>)
    requires Books(c) && Enabled(c, Append(said, stamp))
    ensures Books(Step(c, Append(said, stamp)))
  {
    var line, d := Stamped(said, stamp), Step(c, Append(said, stamp));
    AppendKeepsSession(Current(c), said, stamp, c.known);
    if c.at == |c.sessions| - 1 { AppendKeepsRead(Current(c), line, c.offset, c.reach); }
    if c.inbox.Some? && c.inbox.value.session == |c.sessions| - 1 {
      AppendKeepsStretch(Current(c), line, c.inbox.value);
    }
  }

  lemma FetchKeepsBooks(c: Chat, from: nat, place: nat)
    requires Books(c) && Enabled(c, Fetch(from, place))
    ensures Books(Step(c, Fetch(from, place)))
  {
    AnswerIsStretch(c, from, place);
  }

  lemma AnswerIsStretch(c: Chat, from: nat, place: nat)
    requires Books(c)
    ensures InboxOk(c.sessions, c.loaded, c.at, c.reach, Answered(c, from, place))
    ensures var after := Place(c, place);
            c.loaded && after <= |Current(c)| ==>
              Answered(c, from, place).start == Count(Current(c), after)
  {
    var lines, after := Current(c), Place(c, place);
    assert lines[..|lines|] == lines;
    if c.loaded && after <= |lines| {
      ForwardPageIsStretch(lines, |lines|, after, LIMIT);
      if c.offset == 0 { assert lines[..0] == []; }
    } else {
      var a := TailPageIsStretch(lines, |lines|, Within(from, lines), LIMIT);
    }
  }

  /**
   A later page starts where reading stopped while the session lasts, at the beginning after an empty
   reply whatever the session, and otherwise wherever the stored offset happens to fall in the new one.
   */
  lemma PageStartsAt(c: Chat, from: nat, place: nat)
    requires Books(c) && Enabled(c, Fetch(from, place)) && c.loaded
    ensures var r := Step(c, Fetch(from, place)).inbox.value;
      && (c.at == |c.sessions| - 1 ==> !r.page.reset && r.start == Count(Current(c), c.offset))
      && (c.offset == 0 ==> !r.page.reset && r.start == 0)
      && (c.at != |c.sessions| - 1 && c.offset != 0 ==>
            if place <= |Current(c)| then !r.page.reset && r.start == Count(Current(c), place) else r.page.reset)
  {
    AnswerIsStretch(c, from, place);
    assert Current(c)[..0] == [];
  }

  lemma MergeKeepsBooks(c: Chat)
    requires Books(c) && Enabled(c, Merge)
    ensures Books(Step(c, Merge))
  {
    var r := c.inbox.value;
    MergedPart(c.view, r.page.entries, r.page.reset);
    PageKnown(c, r);
  }

  lemma PageKnown(c: Chat, r: Reply)
    requires Books(c) && InboxOk(c.sessions, c.loaded, c.at, c.reach, r)
    ensures forall e :: e in r.page.entries ==>
              e in Flatten(c.sessions[r.session]) && e.uuid.Some? && !IsLocal(e) && e.uuid.value in c.known
  {
    var all := Flatten(c.sessions[r.session]);
    forall e | e in r.page.entries ensures e in all && e.uuid.Some? && !IsLocal(e) && e.uuid.value in UuidsOf(all) {
      assert e in all[r.start..r.end];
    }
  }

  lemma ShowLocalKeepsBooks(c: Chat, id: nat, text: string, output: bool)
    requires Books(c) && Enabled(c, ShowLocal(id, text, output))
    ensures Books(Step(c, ShowLocal(id, text, output)))
  {
    var d := Step(c, ShowLocal(id, text, output));
    ShowLocalView(c, id, Locals(id, text, output, c.clock), d);
    DropKeepsLines(c, d);
  }

  lemma ShowLocalView(c: Chat, id: nat, locals: seq<Entry>, d: Chat)
    requires ViewOk(c.view, c.loaded, c.known, c.shown) && id !in c.shown
    requires NoRepeats(locals)
    requires forall i :: 0 <= i < |locals| ==> IsLocal(locals[i]) && locals[i].uuid.value.line == id
    requires d.view == Merged(c.view, locals, false) && d.loaded == c.loaded
    requires d.known == c.known && d.shown == c.shown + {id}
    ensures ViewOk(d.view, d.loaded, d.known, d.shown)
  {
    MergedPart(c.view, locals, false);
    if !c.loaded {
      LocalsWindow(c.view, [], 0, locals, id, c);
    }
  }

  lemma DropKeepsLines(c: Chat, d: Chat)
    requires LinesOk(c.pending, c.view, c.nextId, c.known, c.shown) && d.pending == DropDelivered(c.pending, d.view)
    requires c.known <= d.known && c.shown <= d.shown && c.nextId <= d.nextId
    ensures LinesOk(d.pending, d.view, d.nextId, d.known, d.shown)
  {
  }

  /** A slash command's entries join the view of whatever has been read so far. */
  lemma LocalsWindow(view: seq<Entry>, all: seq<Entry>, hi: nat, locals: seq<Entry>, id: nat, c: Chat)
    requires UuidsKnown(UuidsOf(view), c.known, c.shown) && id !in c.shown
    requires NoRepeats(locals)
    requires forall i :: 0 <= i < |locals| ==> IsLocal(locals[i]) && locals[i].uuid.value.line == id
    requires Window(view, all, hi) || (all == [] && hi == 0 && Unloaded(view))
    ensures Window(Merged(view, locals, false), all, hi)
  {
    if all == [] && hi == 0 && Unloaded(view) { assert WindowOf(view, all, 0, 0); }
    var lo: nat :| WindowOf(view, all, lo, hi);
    LocalsKeepWindow(view, all, lo, hi, locals);
  }

  /** A request that fails leaves the chat as it was before, free to ask again. */
  lemma FailedRequestUndone(c: Chat, from: nat, place: nat)
    requires Enabled(c, Fetch(from, place))
    ensures Step(Step(c, Fetch(from, place)), Abort) == c && Step(Step(c, Unreadable), Abort) == c
  {
  }

  /** The entries of a confirmed slash command become the newest in view. */
  lemma LocalEchoShows(c: Chat, id: nat, text: string, output: bool)
    requires Books(c) && Enabled(c, ShowLocal(id, text, output))
    ensures var view, n := Step(c, ShowLocal(id, text, output)).view, if output then 2 else 1;
      && |view| >= n && view[|view| - n] == Entry(Some(Local(id, 0)), User, text, Some(c.clock))
      && (output ==> view[|view| - 1] == Entry(Some(Local(id, 1)), Command, text, Some(c.clock)))
  {
    var locals := Locals(id, text, output, c.clock);
    LocalsNewest(c, id, locals);
    var view := Merged(c.view, locals, false);
    assert view[|view| - |locals|] == view[|view| - |locals|..][0];
    assert view[|view| - 1] == view[|view| - |locals|..][|locals| - 1];
  }

  /** They end exactly the waiting lines with that text that were sent before the client's present time. */
  lemma LocalEchoEnds(c: Chat, id: nat, text: string, output: bool, p: Pending)
    requires Books(c) && Enabled(c, ShowLocal(id, text, output))
    ensures p in Step(c, ShowLocal(id, text, output)).pending <==>
            p in c.pending && !(p.text == text && p.sentAt < c.clock)
  {
    var locals := Locals(id, text, output, c.clock);
    var view := Merged(c.view, locals, false);
    if p in c.pending {
      LocalsNewest(c, id, locals);
      MergedPart(c.view, locals, false);
      forall e | e in locals ensures e in view { assert e in view[|view| - |locals|..]; }
      WaitingAfter(p, c.view, locals, view);
      EchoDelivers(c, id, text, output, p);
    }
  }

  lemma WaitingAfter(p: Pending, before: seq<Entry>, added: seq<Entry>, after: seq<Entry>)
    requires Waiting(p, before) && (forall e :: e in added ==> e in after)
    requires forall e :: e in after ==> e in before || e in added
    ensures Waiting(p, after) <==> Waiting(p, added)
  {
  }

  lemma LocalsNewest(c: Chat, id: nat, locals: seq<Entry>)
    requires ViewOk(c.view, c.loaded, c.known, c.shown) && id !in c.shown && |locals| <= 2 && NoRepeats(locals)
    requires forall i :: 0 <= i < |locals| ==> IsLocal(locals[i]) && locals[i].uuid.value.line == id
    ensures var v := Merged(c.view, locals, false); |v| >= |locals| && v[|v| - |locals|..] == locals
  {
    assert NoRepeats(c.view + locals);
    FirstsOfUnique(c.view + locals);
  }

  /** Of a command's entries the user line alone can count as a delivery. */
  lemma EchoDelivers(c: Chat, id: nat, text: string, output: bool, p: Pending)
    requires UuidsKnown(p.seen, c.known, c.shown) && id !in c.shown
    ensures Waiting(p, Locals(id, text, output, c.clock)) <==> !(p.text == text && p.sentAt < c.clock)
  {
    assert Locals(id, text, output, c.clock)[0] in Locals(id, text, output, c.clock);
  }

  lemma RespondKeepsBooks(c: Chat, id: nat, res: Response)
    requires Books(c)
    ensures Books(Step(c, Respond(id, res)))
  {
    forall p | p in PendingAfterSend(c.pending, res, id)
      ensures exists q :: q in c.pending && SameLine(q, p)
    {
      if !res.duplicate {
        var i :| 0 <= i < |c.pending| && PendingAfterSend(c.pending, res, id)[i] == p;
        assert c.pending[i] in c.pending && SameLine(c.pending[i], p);
      }
    }
  }

  lemma SendKeepsBooks(c: Chat, text: string)
    requires Books(c)
    ensures Books(Step(c, Send(text)))
  {
  }

  lemma StepKeepsBooks(c: Chat, a: Action)
    requires Books(c)
    ensures Books(Step(c, a))
  {
    if Enabled(c, a) {
      match a
      case Append(said, stamp) => AppendKeepsBooks(c, said, stamp);
      case Fetch(from, place) => FetchKeepsBooks(c, from, place);
      case Merge => MergeKeepsBooks(c);
      case Respond(id, res) => RespondKeepsBooks(c, id, res);
      case Send(text) => SendKeepsBooks(c, text);
      case ShowLocal(id, text, output) => ShowLocalKeepsBooks(c, id, text, output);
      case Clock(_) =>
      case NewSession(_) =>
      case Unreadable =>
      case Abort =>
      case Fail(_) =>
    }
  }

  /** Over every run the view holds no entry twice and at most a thousand, and the books stay in order. */
  lemma {:induction false} RunKeepsBooks(c: Chat, actions: seq<Action>)
    requires Books(c)
    ensures Books(Run(c, actions))
    decreases |actions|
  {
    if actions != [] {
      StepKeepsBooks(c, actions[0]);
      RunKeepsBooks(Step(c, actions[0]), actions[1..]);
    }
  }

  // ----- when the view stays a window

  /** The view is a window of the session last read, ending at the furthest entry read. */
  ghost predicate Shows(c: Chat) {
    c.loaded ==> c.at < |c.sessions| && Window(c.view, Flatten(c.sessions[c.at]), c.reach)
  }

  /**
   A reset page keeps the window, as does any page while nothing of a transcript is in view. Else a
   page of the same session must be empty, start inside the window, or bring a thousand new
   entries; in another session, what stays of the view and what the page adds must stand together.
   */
  predicate KeepsWindow(c: Chat, r: Reply) {
    || r.page.reset || Served(c.view) == []
    || if r.session == c.at
       then r.start >= c.reach - |Served(c.view)| || r.page.entries == [] || r.end - c.reach >= CAP
       else r.session < |c.sessions|
            && var stays := Remaining(c.view, Unseen(r.page.entries, UuidsOf(c.view)));
               StretchTo(stays, Flatten(c.sessions[r.session]), r.end)
  }

  predicate Keeps(c: Chat, a: Action) {
    a.Merge? && c.inbox.Some? ==> KeepsWindow(c, c.inbox.value)
  }

  ghost predicate Disjoint(sessions: seq<Transcript>) {
    forall s, t :: 0 <= s < t < |sessions| ==> UuidsOf(Flatten(sessions[s])) !! UuidsOf(Flatten(sessions[t]))
  }

  lemma MergeShows(c: Chat)
    requires Books(c) && Shows(c) && c.inbox.Some?
    ensures Shows(Step(c, Merge)) <==> KeepsWindow(c, c.inbox.value)
  {
    var r := c.inbox.value;
    var all := Flatten(c.sessions[r.session]);
    var view := Merged(c.view, r.page.entries, r.page.reset);
    MergeWindow(c);
    assert Shows(Step(c, Merge)) <==> Window(view, all, Reached(c, r));
  }

  lemma MergeWindow(c: Chat)
    requires Books(c) && Shows(c) && c.inbox.Some?
    ensures var r := c.inbox.value;
            Window(Merged(c.view, r.page.entries, r.page.reset), Flatten(c.sessions[r.session]), Reached(c, r)) <==>
            KeepsWindow(c, r)
  {
    var r := c.inbox.value;
    var all := Flatten(c.sessions[r.session]);
    if r.page.reset || Served(c.view) == [] {
      StartsOver(c.view, all, r);
    } else if r.session == c.at {
      SameSession(c.view, all, c.reach, r);
    } else {
      AnyTranscriptExactly(c.view, all, r.start, r.end);
    }
  }

  lemma StartsOver(view: seq<Entry>, all: seq<Entry>, r: Reply)
    requires NoRepeats(view) && |view| <= CAP && Identified(all) && (r.page.reset || Served(view) == [])
    requires 0 <= r.start <= r.end <= |all| && r.page.entries == all[r.start..r.end]
    ensures Window(Merged(view, r.page.entries, r.page.reset), all, r.end)
  {
    if r.page.reset {
      ResetStartsWindow(view, all, r.start, r.end);
    } else {
      TailStarts(view, all, r.start, r.end);
    }
  }

  /** Whatever the view held, a reset page makes it a window again. */
  lemma ResetRecovers(c: Chat)
    requires Books(c) && c.inbox.Some? && c.inbox.value.page.reset
    ensures Shows(Step(c, Merge)) && Step(c, Merge).at == c.inbox.value.session
  {
    var r := c.inbox.value;
    StartsOver(c.view, Flatten(c.sessions[r.session]), r);
  }

  lemma SameSession(view: seq<Entry>, all: seq<Entry>, reach: nat, r: Reply)
    requires Window(view, all, reach) && Served(view) != [] && Identified(all)
    requires 0 <= r.start <= r.end <= |all| && r.start <= reach && r.page.entries == all[r.start..r.end]
    ensures Window(Merged(view, r.page.entries, false), all, if r.end > reach then r.end else reach) <==>
            r.start >= reach - |Served(view)| || r.page.entries == [] || r.end - reach >= CAP
  {
    var lo: nat :| WindowOf(view, all, lo, reach);
    MergeExactly(view, all, lo, reach, r.start, r.end);
  }

  lemma ViewOfOther(c: Chat, s: nat)
    requires Shows(c) && c.loaded && s < |c.sessions| && s != c.at && Disjoint(c.sessions)
    ensures UuidsOf(Served(c.view)) !! UuidsOf(Flatten(c.sessions[s]))
  {
    var all := Flatten(c.sessions[c.at]);
    var lo: nat :| WindowOf(c.view, all, lo, c.reach);
    forall e | e in Served(c.view) ensures e in all { assert e in all[lo..c.reach]; }
    assert UuidsOf(Served(c.view)) <= UuidsOf(all);
    assert s < c.at ==> UuidsOf(Flatten(c.sessions[s])) !! UuidsOf(Flatten(c.sessions[c.at]));
  }

  lemma WindowGrows(view: seq<Entry>, lines: Transcript, line: seq<Entry>, hi: nat)
    requires Window(view, Flatten(lines), hi)
    ensures Window(view, Flatten(lines + [line]), hi)
  {
    FlattenAppend(lines, line);
    var all := Flatten(lines);
    var lo: nat :| WindowOf(view, all, lo, hi);
    assert (all + line)[lo..hi] == all[lo..hi];
    assert WindowOf(view, all + line, lo, hi);
  }

  lemma OtherStepsShow(c: Chat, a: Action)
    requires Books(c) && Shows(c) && !a.Merge?
    ensures Shows(Step(c, a))
  {
    if Enabled(c, a) && c.loaded {
      match a
      case Append(said, stamp) =>
        if c.at == |c.sessions| - 1 { WindowGrows(c.view, Current(c), Stamped(said, stamp), c.reach); }
      case ShowLocal(id, text, output) =>
        LocalsWindow(c.view, Flatten(c.sessions[c.at]), c.reach, Locals(id, text, output, c.clock), id, c);
      case _ =>
    }
  }

  lemma StaysShown(c: Chat, a: Action)
    requires Books(c) && Shows(c) && !(a.Merge? && c.inbox.Some?)
    ensures Shows(Step(c, a))
  {
    if !a.Merge? { OtherStepsShow(c, a); }
  }

  lemma StepShowsExactly(c: Chat, a: Action)
    requires Books(c) && Shows(c)
    ensures Shows(Step(c, a)) <==> Keeps(c, a)
  {
    if a.Merge? && c.inbox.Some? {
      MergeShows(c);
    } else {
      StaysShown(c, a);
    }
  }

  ghost predicate AllShow(c: Chat, actions: seq<Action>)
    decreases |actions|
  {
    Shows(c) && (actions != [] ==> AllShow(Step(c, actions[0]), actions[1..]))
  }

  ghost predicate AllKeep(c: Chat, actions: seq<Action>)
    decreases |actions|
  {
    actions != [] ==> Keeps(c, actions[0]) && AllKeep(Step(c, actions[0]), actions[1..])
  }

  /**
   Over every run from a window the view stays one after each step exactly when every page merged
   is one that keeps it.
   */
  lemma {:induction false} EveryRunShowsWindow(c: Chat, actions: seq<Action>)
    requires Books(c) && Shows(c)
    ensures AllShow(c, actions) <==> AllKeep(c, actions)
    decreases |actions|
  {
    if actions != [] {
      StepShowsExactly(c, actions[0]);
      StepKeepsBooks(c, actions[0]);
      if Keeps(c, actions[0]) {
        EveryRunShowsWindow(Step(c, actions[0]), actions[1..]);
      }
    }
  }

  /** A chat that was just opened: nothing read, nothing sent. */
  ghost predicate Opened(c: Chat) {
    && |c.sessions| == 1 && SessionOk(c.sessions[0], c.known)
    && c.view == [] && !c.loaded && c.offset == c.reach == c.at == 0 && c.inbox.None? && c.pending == []
  }

  lemma OpenedIsInOrder(c: Chat)
    requires Opened(c)
    ensures Books(c) && Shows(c) && InStep(c)
  {
    assert UuidsOf(c.view) == {};
    assert c.sessions[0][..0] == [];
  }

  /** The server answers from one growing transcript. */
  predicate Ordinary(a: Action) {
    !a.NewSession? && !a.Unreadable?
  }

  /** Then the client is always where the view ends. */
  ghost predicate InStep(c: Chat) {
    && c.at + 1 == |c.sessions|
    && (c.loaded ==> c.offset <= |Current(c)| && c.reach == Count(Current(c), c.offset))
    && (c.inbox.Some? ==>
         var r := c.inbox.value;
         && r.session == c.at && !r.page.reset
         && (c.loaded ==> r.start == c.reach))
  }

  lemma OrdinaryKeepsInStep(c: Chat, a: Action)
    requires Books(c) && Shows(c) && InStep(c) && Ordinary(a)
    ensures Keeps(c, a) && InStep(Step(c, a))
  {
    if Enabled(c, a) {
      match a
      case Append(said, stamp) => FlattenAppend(Current(c), Stamped(said, stamp));
      case Fetch(from, place) => AnswerIsStretch(c, from, place);
      case Merge => MergeInStep(c);
      case _ =>
    }
  }

  lemma MergeInStep(c: Chat)
    requires Books(c) && Shows(c) && InStep(c) && c.inbox.Some?
    ensures KeepsWindow(c, c.inbox.value) && InStep(Step(c, Merge))
  {
    if c.loaded { ServedBounds(c); }
    assert Reached(c, c.inbox.value) == c.inbox.value.end;
  }

  lemma ServedBounds(c: Chat)
    requires Shows(c) && c.loaded
    ensures |Served(c.view)| <= c.reach <= |Flatten(c.sessions[c.at])|
  {
    var lo: nat :| WindowOf(c.view, Flatten(c.sessions[c.at]), lo, c.reach);
  }

  /**
   In every run from opening the chat in which the server answers from one growing transcript, the
   view is a window that ends exactly at the offset read.
   */
  lemma {:induction false} OrdinaryRunsShowWindow(c: Chat, actions: seq<Action>)
    requires Books(c) && Shows(c) && InStep(c) && forall i :: 0 <= i < |actions| ==> Ordinary(actions[i])
    ensures var d := Run(c, actions);
            && Books(d) && Shows(d) && InStep(d)
            && (d.loaded ==> Window(d.view, Flatten(Current(d)), Count(Current(d), d.offset)))
    decreases |actions|
  {
    if actions != [] {
      OrdinaryKeepsInStep(c, actions[0]);
      StepKeepsBooks(c, actions[0]);
      if actions[0].Merge? && c.inbox.Some? {
        MergeShows(c);
      } else {
        StaysShown(c, actions[0]);
      }
      OrdinaryRunsShowWindow(Step(c, actions[0]), actions[1..]);
    }
  }

  // ----- the empty reply and the silent switch

  lemma RunTwo(c: Chat, a: Action, b: Action)
    ensures Run(c, [a, b]) == Step(Step(c, a), b)
  {
    assert [a, b][1..] == [b] && [b][1..] == [];
    assert Run(Step(c, a), [b]) == Run(Step(Step(c, a), b), []);
  }

  lemma MergesNothing(view: seq<Entry>)
    requires NoRepeats(view) && |view| <= CAP
    ensures Merged(view, [], false) == view
  {
    assert view + [] == view;
    FirstsOfUnique(view);
  }

  /** A reply without a transcript to read sends the client back to offset zero. */
  lemma UnreadableRewinds(c: Chat)
    requires ViewOk(c.view, c.loaded, c.known, c.shown) && c.inbox.None?
    requires LinesOk(c.pending, c.view, c.nextId, c.known, c.shown)
    ensures var d := Run(c, [Unreadable, Merge]);
            d.view == c.view && d.pending == c.pending && d.offset == 0 && d.loaded && d.inbox.None?
            && d.at == c.at && d.sessions == c.sessions && (Served(c.view) != [] ==> d.reach == c.reach)
  {
    RunTwo(c, Unreadable, Merge);
    MergesNothing(c.view);
    AllWait(c.pending, c.view);
  }

  lemma {:induction false} AllWait(pending: seq<Pending>, view: seq<Entry>)
    requires forall p :: p in pending ==> Waiting(p, view)
    ensures DropDelivered(pending, view) == pending
  {
    if pending != [] {
      AllWait(pending[1..], view);
      assert pending == [pending[0]] + pending[1..];
    }
  }

  /**
   The first page of the transcript starts inside the window when that reaches back to the first
   entry; else it has to bring a thousand new ones.
   */
  predicate FirstPageKeeps(lines: Transcript, view: seq<Entry>, reach: nat) {
    reach == |Served(view)| || Count(lines, ForwardPage(lines, 0, LIMIT).offset) - reach >= CAP
  }

  /**
   After one such reply the next page starts at the first line. The window survives exactly when
   nothing of the transcript was left out of the view, or that page brings a thousand new entries.
   */
  lemma UnreadableExactly(c: Chat, from: nat, place: nat)
    requires Books(c) && Shows(c) && c.inbox.None? && c.at + 1 == |c.sessions| && Served(c.view) != []
    ensures Shows(Run(c, [Unreadable, Merge] + [Fetch(from, place), Merge])) <==>
            FirstPageKeeps(Current(c), c.view, c.reach)
  {
    RewoundInOrder(c);
    RewoundFrom(c, Run(c, [Unreadable, Merge]), from, place);
    RunSplit(c, [Unreadable, Merge], [Fetch(from, place), Merge]);
  }

  lemma RewoundFrom(c: Chat, d: Chat, from: nat, place: nat)
    requires Books(d) && Shows(d) && d.loaded && d.offset == 0 && d.inbox.None?
    requires d.at == c.at && d.sessions == c.sessions && d.view == c.view && d.reach == c.reach
    requires c.at + 1 == |c.sessions| && Served(c.view) != []
    ensures Shows(Run(d, [Fetch(from, place), Merge])) <==> FirstPageKeeps(Current(c), c.view, c.reach)
  {
    RewoundExactly(d, from, place);
  }

  lemma RewoundInOrder(c: Chat)
    requires Books(c) && Shows(c) && c.inbox.None? && Served(c.view) != []
    ensures var d := Run(c, [Unreadable, Merge]);
            && Books(d) && Shows(d) && d.loaded && d.offset == 0 && d.inbox.None?
            && d.at == c.at && d.sessions == c.sessions && d.view == c.view && d.reach == c.reach
  {
    UnreadableRewinds(c);
    RunKeepsBooks(c, [Unreadable, Merge]);
  }

  lemma RewoundExactly(c: Chat, from: nat, place: nat)
    requires Books(c) && Shows(c) && c.loaded && c.offset == 0 && c.inbox.None?
    requires c.at + 1 == |c.sessions| && Served(c.view) != []
    ensures Shows(Run(c, [Fetch(from, place), Merge])) <==>
            FirstPageKeeps(Current(c), c.view, c.reach)
  {
    FetchMergeExactly(c, from, place);
    AnswerIsStretch(c, from, place);
    FirstPageHolds(Current(c));
    ServedBounds(c);
    assert Count(Current(c), 0) == 0 by { assert Current(c)[..0] == []; }
    assert Answered(c, from, place).page == ForwardPage(Current(c), 0, LIMIT);
  }

  /** The first forward page of a transcript with entries holds some. */
  lemma FirstPageHolds(lines: Transcript)
    ensures Flatten(lines) != [] ==> ForwardPage(lines, 0, LIMIT).entries != []
  {
    ForwardReaches(lines, 0, LIMIT, 0);
    assert lines[0..|lines|] == lines;
  }

  lemma FetchMerge(c: Chat, from: nat, place: nat)
    requires Enabled(c, Fetch(from, place))
    ensures var r := Answered(c, from, place);
            Run(c, [Fetch(from, place), Merge]) ==
            Showed(c, Merged(c.view, r.page.entries, r.page.reset)).(
              loaded := true, offset := r.page.offset, at := r.session, reach := Reached(c, r), inbox := None)
  {
    RunTwo(c, Fetch(from, place), Merge);
  }

  /** One request and its merge. */
  lemma FetchMergeExactly(c: Chat, from: nat, place: nat)
    requires Books(c) && Shows(c) && c.inbox.None?
    ensures Shows(Run(c, [Fetch(from, place), Merge])) <==> KeepsWindow(c, Answered(c, from, place))
  {
    FetchMerges(c, from, place);
    FetchKeepsBooks(c, from, place);
    MergeShows(Step(c, Fetch(from, place)));
  }

  lemma FetchMerges(c: Chat, from: nat, place: nat)
    requires Enabled(c, Fetch(from, place))
    ensures var d := Step(c, Fetch(from, place));
            && Run(c, [Fetch(from, place), Merge]) == Step(d, Merge) && d == c.(inbox := Some(Answered(c, from, place)))
            && Shows(d) == Shows(c)
  {
    RunTwo(c, Fetch(from, place), Merge);
  }

  /**
   The server moves to a transcript of which nothing was seen. The next page makes the view a window
   of it exactly when the stored offset lies behind its end, so that the page comes as a reset, or
   when the page leaves no room for what the view held.
   */
  lemma SwitchExactly(c: Chat, lines: Transcript, from: nat, place: nat)
    requires Books(c) && Shows(c) && c.loaded && c.inbox.None? && Enabled(c, NewSession(lines))
    requires Disjoint(c.sessions + [lines])
    ensures var d := Step(c, NewSession(lines));
            Shows(Run(d, [Fetch(from, place), Merge])) <==>
            || Place(d, place) > |lines|
            || Served(Newest(c.view, Room(|ForwardPage(lines, Place(d, place), LIMIT).entries|))) == []
  {
    var d := Step(c, NewSession(lines));
    StepKeepsBooks(c, NewSession(lines));
    OtherStepsShow(c, NewSession(lines));
    FetchMergeExactly(d, from, place);
    if Place(d, place) <= |lines| { UnseenPageKeeps(d, from, place); }
  }

  /** A page of which the view knows nothing leaves a window exactly when it leaves nothing else. */
  lemma UnseenPageKeeps(c: Chat, from: nat, place: nat)
    requires Books(c) && Shows(c) && c.loaded && c.at + 1 < |c.sessions| && Disjoint(c.sessions)
    requires Place(c, place) <= |Current(c)|
    ensures var r := Answered(c, from, place);
            KeepsWindow(c, r) <==> Served(Newest(c.view, Room(|r.page.entries|))) == []
  {
    var r, all := Answered(c, from, place), Flatten(Current(c));
    AnswerIsStretch(c, from, place);
    if Served(c.view) == [] {
      NewestServed(c.view, Room(|r.page.entries|));
    } else {
      ViewOfOther(c, r.session);
      AnyTranscriptExactly(c.view, all, r.start, r.end);
      OtherTranscriptExactly(c.view, all, r.start, r.end);
    }
  }

  lemma NewestServed(view: seq<Entry>, n: nat)
    requires Served(view) == []
    ensures Served(Newest(view, n)) == []
  {
    var k := if |view| > n then |view| - n else 0;
    assert view[0..] == view;
    ServedSuffix(view, k);
  }

  lemma TwoLines(first: Entry, second: Entry)
    ensures var lines := [[first], [second]];
            && Flatten(lines) == [first, second] && Flatten(lines[1..]) == [second]
            && TailPage(lines, 1, LIMIT, false) == Page([second], 2, false)
            && ForwardPage(lines, 0, LIMIT) == Page([first, second], 2, false)
  {
    var lines := [[first], [second]];
    assert lines[..1] == [[first]] && lines[1..] == [[second]] && lines[0..2] == lines;
    assert Flatten([[first]]) == [first] by { assert [[first]][..0] == []; }
    assert Flatten([[second]]) == [second] by { assert [[second]][..0] == []; }
    assert ForwardEnd(lines, 1, LIMIT, 1) == ForwardEnd(lines, 2, LIMIT, 2) == 2;
  }

  lemma Reordered(first: Entry, second: Entry)
    requires Identified([first, second])
    ensures Merged([], [second], false) == [second]
    ensures Merged([second], [first, second], false) == [second, first]
  {
    assert [first, second][0].uuid != [first, second][1].uuid;
    assert NoRepeats([second, first]);
    Newly(second);
    FirstsKnown([second, first], [second]);
    assert [second] + [first, second] == [second, first] + [second];
  }

  lemma Newly(e: Entry)
    requires e.uuid.Some?
    ensures Merged([], [e], false) == [e]
  {
    assert [] + [e] == [e];
    FirstsOfUnique([e]);
  }

  lemma TailOfTwo(c: Chat, first: Entry, second: Entry)
    requires Opened(c) && c.sessions == [[[first], [second]]]
    ensures var d := Run(c, [Fetch(1, 0), Merge]);
            && Books(d) && d.inbox.None? && d.at == 0 && d.sessions == c.sessions && d.view == [second]
  {
    TwoLines(first, second);
    assert [first, second][1].uuid.Some?;
    Newly(second);
    FetchMerge(c, 1, 0);
    OpenedIsInOrder(c);
    RunKeepsBooks(c, [Fetch(1, 0), Merge]);
  }

  lemma RereadOfTwo(c: Chat, first: Entry, second: Entry)
    requires c.sessions == [[[first], [second]]] && Identified([first, second])
    requires c.loaded && c.offset == 0 && c.inbox.None? && c.view == [second]
    ensures Run(c, [Fetch(0, 0), Merge]).view == [second, first]
  {
    TwoLines(first, second);
    Reordered(first, second);
    FetchMerge(c, 0, 0);
  }

  /** Two lines, a tail page of the last one, an empty reply: the first comes in behind the second. */
  lemma EmptyReplyReorders(c: Chat, first: Entry, second: Entry)
    requires Opened(c) && c.sessions == [[[first], [second]]]
    ensures Run(c, [Fetch(1, 0), Merge] + [Unreadable, Merge] + [Fetch(0, 0), Merge]).view == [second, first]
  {
    var d := Run(c, [Fetch(1, 0), Merge]);
    TwoLines(first, second);
    TailOfTwo(c, first, second);
    UnreadableRewinds(d);
    RereadOfTwo(Run(d, [Unreadable, Merge]), first, second);
    RunSplit(c, [Fetch(1, 0), Merge], [Unreadable, Merge]);
    RunSplit(c, [Fetch(1, 0), Merge] + [Unreadable, Merge], [Fetch(0, 0), Merge]);
  }

  lemma OneOfTwo(only: Entry, first: Entry, second: Entry)
    ensures Flatten([[only]]) == [only] && TailPage([[only]], 0, LIMIT, false) == Page([only], 1, false)
    ensures Flatten([[first], [second]]) == [first, second]
    ensures ForwardPage([[first], [second]], 1, LIMIT) == Page([second], 2, false)
  {
    var lines := [[first], [second]];
    TwoLines(first, second);
    assert [[only]][..0] == [] && [[only]][0..] == [[only]];
    assert lines[1..2] == lines[1..];
    assert ForwardEnd(lines, 1, LIMIT, 0) == ForwardEnd(lines, 2, LIMIT, 1) == 2;
  }

  lemma Joined(only: Entry, second: Entry)
    requires only.uuid.Some? && second.uuid.Some? && only.uuid != second.uuid
    ensures Merged([only], [second], false) == [only, second]
  {
    assert [only] + [second] == [only, second];
    FirstsOfUnique([only, second]);
  }

  lemma ReadOnly(c: Chat, only: Entry)
    requires Opened(c) && c.sessions == [[[only]]]
    ensures var d := Run(c, [Fetch(0, 0), Merge]);
            d.loaded && d.view == [only] && d.offset == 1 && d.at == 0 && d.inbox.None? && d.sessions == c.sessions
  {
    OneOfTwo(only, only, only);
    assert [only][0].uuid.Some?;
    Newly(only);
    FetchMerge(c, 0, 0);
  }

  lemma ReadOther(c: Chat, only: Entry, first: Entry, second: Entry)
    requires c.loaded && c.view == [only] && c.offset == 1 && c.at == 0 && c.inbox.None?
    requires c.sessions == [[[only]], [[first], [second]]]
    requires only.uuid.Some? && second.uuid.Some? && only.uuid != second.uuid
    ensures Run(c, [Fetch(0, 1), Merge]).view == [only, second]
  {
    OneOfTwo(only, first, second);
    Joined(only, second);
    FetchMerge(c, 0, 1);
  }

  /**
   A transcript of one line is read, and the server moves to one of two, where the stored offset
   falls behind the first: the view ends up with the old line and the second new one.
   */
  lemma SilentSwitchMixes(c: Chat, only: Entry, first: Entry, second: Entry)
    requires Opened(c) && c.sessions == [[[only]]] && Identified([first, second]) && only.uuid != second.uuid
    ensures var d := Run(c, [Fetch(0, 0), Merge] + [NewSession([[first], [second]])] + [Fetch(0, 1), Merge]);
            d.view == [only, second]
  {
    var d, switch := Run(c, [Fetch(0, 0), Merge]), NewSession([[first], [second]]);
    ReadOnly(c, only);
    OneOfTwo(only, first, second);
    assert [only][0].uuid.Some? && [first, second][1].uuid.Some?;
    assert [[[only]]] + [[[first], [second]]] == [[[only]], [[first], [second]]];
    RunOne(d, switch);
    ReadOther(Step(d, switch), only, first, second);
    RunSplit(c, [Fetch(0, 0), Merge], [switch]);
    RunSplit(c, [Fetch(0, 0), Merge] + [switch], [Fetch(0, 1), Merge]);
  }

  lemma RunOne(c: Chat, a: Action)
    ensures Run(c, [a]) == Step(c, a)
  {
    assert [a][1..] == [] && Run(Step(c, a), []) == Step(c, a);
  }

  // ----- how a pending line ends

  /** The one step that ends line `p`: its own refusal or failure, or an entry that delivers it. */
  ghost predicate Ends(c: Chat, a: Action, p: Pending) {
    Enabled(c, a) &&
    match a
    case Respond(id, res) => id == p.id && res.duplicate
    case Fail(id) => id == p.id
    case Merge => !Waiting(p, Step(c, a).view)
    case ShowLocal(_, _, _) => !Waiting(p, Step(c, a).view)
    case _ => false
  }

  lemma StepHolds(c: Chat, a: Action, p: Pending)
    requires p.id < c.nextId
    ensures Holds(Step(c, a).pending, p) <==> Holds(c.pending, p) && !Ends(c, a, p)
    ensures c.nextId <= Step(c, a).nextId
  {
    match a
    case Respond(id, res) => ResponseHolds(c.pending, res, id, p);
    case Send(text) => assert forall q :: q in c.pending ==> q in c.pending + [NewLine(c, text)];
    case Fail(id) =>
    case _ =>
  }

  ghost predicate EndsAt(c: Chat, actions: seq<Action>, k: nat, p: Pending)
    requires k < |actions|
  {
    Ends(Run(c, actions[..k]), actions[k], p)
  }

  /** A pending line is gone after a run exactly when some step of the run ended it. */
  lemma {:induction false} LineEndsByCause(c: Chat, actions: seq<Action>, p: Pending)
    requires p.id < c.nextId && Holds(c.pending, p)
    ensures Holds(Run(c, actions).pending, p) <==> forall k :: 0 <= k < |actions| ==> !EndsAt(c, actions, k, p)
    ensures p.id < Run(c, actions).nextId
    decreases |actions|
  {
    if actions != [] {
      var init, last := actions[..|actions| - 1], actions[|actions| - 1];
      LineEndsByCause(c, init, p);
      RunSplit(c, init, [last]);
      assert actions == init + [last];
      var d := Run(c, init);
      assert Run(d, [last]) == Step(d, last);
      StepHolds(d, last, p);
      forall k | 0 <= k < |init| ensures EndsAt(c, actions, k, p) <==> EndsAt(c, init, k, p) {
        assert actions[..k] == init[..k];
      }
      assert EndsAt(c, actions, |init|, p) <==> Ends(d, last, p);
    }
  }

  lemma {:induction false} RunSplit(c: Chat, a: seq<Action>, b: seq<Action>)
    ensures Run(c, a + b) == Run(Run(c, a), b)
    decreases |a|
  {
    if a == [] {
      assert a + b == b;
    } else {
      assert (a + b)[1..] == a[1..] + b;
      RunSplit(Step(c, a[0]), a[1..], b);
    }
  }

  predicate Refuses(a: Action, id: nat) {
    match a
    case Respond(i, res) => i == id && res.duplicate
    case Fail(i) => i == id
    case _ => false
  }

  /** Stamped after the client's clock stood at `sentAt`, or not at all. */
  predicate Late(stamp: Option<int>, sentAt: int) {
    stamp.None? || stamp.value > sentAt
  }

  /** A user line with the text, not in the view at the send, and stamped late. */
  predicate LateCopy(atSend: Chat, text: string, e: Entry) {
    && e.role == User && e.text == text && Late(e.ts, atSend.clock)
    && e.uuid.Some? && e.uuid.value !in SeenIn(atSend.view, text)
  }

  ghost predicate ShowsLateCopy(atSend: Chat, text: string, view: seq<Entry>) {
    exists e :: e in view && LateCopy(atSend, text, e)
  }

  /** The states after each step of a run. */
  ghost function After(c: Chat, actions: seq<Action>, k: nat): Chat
    requires k < |actions|
  {
    Run(c, actions[..k + 1])
  }

  ghost predicate EndedAt(atSend: Chat, sent: Chat, text: string, actions: seq<Action>, k: nat)
    requires k < |actions|
  {
    || Refuses(actions[k], atSend.nextId)
    || ShowsLateCopy(atSend, text, After(sent, actions, k).view)
  }

  lemma AfterSend(c: Chat, text: string)
    requires Books(c)
    ensures var sent := Step(c, Send(text));
            && Books(sent) && NewLine(c, text) in sent.pending && c.nextId < sent.nextId
            && sent.view == c.view && sent.sessions == c.sessions
  {
    SendKeepsBooks(c, text);
  }

  /**
   Over every run after a send, whatever is appended, read, merged, sent, refused or reset and
   whatever the two clocks do, the line is gone exactly when its own send was refused or failed, or
   the view came to show a user line with its text that it had not seen and that is stamped after
   the client's clock at the send, or not stamped at all.
   */
  lemma PendingLineLeaves(c: Chat, text: string, actions: seq<Action>)
    requires Books(c)
    ensures var sent := Step(c, Send(text));
            Holds(Run(sent, actions).pending, NewLine(c, text)) <==>
            forall k :: 0 <= k < |actions| ==> !EndedAt(c, sent, text, actions, k)
  {
    AfterSend(c, text);
    LineLeaves(c, Step(c, Send(text)), text, actions);
  }

  lemma LineLeaves(c: Chat, sent: Chat, text: string, actions: seq<Action>)
    requires Books(sent) && NewLine(c, text) in sent.pending && c.nextId < sent.nextId
    ensures Holds(Run(sent, actions).pending, NewLine(c, text)) <==>
            forall k :: 0 <= k < |actions| ==> !EndedAt(c, sent, text, actions, k)
  {
    var p := NewLine(c, text);
    assert SameLine(p, p);
    LineEndsByCause(sent, actions, p);
    forall k | 0 <= k < |actions| && EndsAt(sent, actions, k, p) ensures EndedAt(c, sent, text, actions, k) {
      EndingIsSeen(c, sent, text, actions, k);
    }
    forall k | 0 <= k < |actions| && EndedAt(c, sent, text, actions, k)
      ensures !Holds(Run(sent, actions).pending, p)
    {
      if Refuses(actions[k], p.id) {
        assert EndsAt(sent, actions, k, p);
      } else {
        ShownIsGone(c, sent, text, actions, k);
      }
    }
  }

  lemma AfterIsStep(c: Chat, actions: seq<Action>, k: nat)
    requires k < |actions|
    ensures After(c, actions, k) == Step(Run(c, actions[..k]), actions[k])
  {
    assert actions[..k + 1] == actions[..k] + [actions[k]];
    RunSplit(c, actions[..k], [actions[k]]);
    var d := Run(c, actions[..k]);
    assert Run(d, [actions[k]]) == Run(Step(d, actions[k]), []);
  }

  lemma EndingIsSeen(c: Chat, sent: Chat, text: string, actions: seq<Action>, k: nat)
    requires k < |actions| && EndsAt(sent, actions, k, NewLine(c, text))
    ensures EndedAt(c, sent, text, actions, k)
  {
    AfterIsStep(sent, actions, k);
    if !Refuses(actions[k], c.nextId) { NotWaiting(c, text, After(sent, actions, k).view); }
  }

  lemma NotWaiting(c: Chat, text: string, view: seq<Entry>)
    requires !Waiting(NewLine(c, text), view)
    ensures ShowsLateCopy(c, text, view)
  {
    var e :| e in view && Delivers(NewLine(c, text), e);
    assert LateCopy(c, text, e);
  }

  lemma ShownIsGone(c: Chat, sent: Chat, text: string, actions: seq<Action>, k: nat)
    requires Books(sent) && k < |actions| && c.nextId < sent.nextId
    requires ShowsLateCopy(c, text, After(sent, actions, k).view)
    ensures !Holds(Run(sent, actions).pending, NewLine(c, text))
  {
    var p, d := NewLine(c, text), After(sent, actions, k);
    RunKeepsBooks(sent, actions[..k + 1]);
    DeliveredIsGone(c, text, d);
    IdsGrow(sent, actions[..k + 1]);
    GoneStays(d, actions[k + 1..], p);
    RunSplit(sent, actions[..k + 1], actions[k + 1..]);
    assert actions[..k + 1] + actions[k + 1..] == actions;
  }

  lemma DeliveredIsGone(c: Chat, text: string, d: Chat)
    requires LinesOk(d.pending, d.view, d.nextId, d.known, d.shown) && ShowsLateCopy(c, text, d.view)
    ensures !Holds(d.pending, NewLine(c, text))
  {
    var e :| e in d.view && LateCopy(c, text, e);
    forall q | q in d.pending && SameLine(NewLine(c, text), q) ensures false {
      assert Delivers(q, e);
    }
  }

  lemma {:induction false} IdsGrow(c: Chat, actions: seq<Action>)
    ensures c.nextId <= Run(c, actions).nextId
    decreases |actions|
  {
    if actions != [] { IdsGrow(Step(c, actions[0]), actions[1..]); }
  }

  lemma {:induction false} GoneStays(c: Chat, actions: seq<Action>, p: Pending)
    requires p.id < c.nextId && !Holds(c.pending, p)
    ensures !Holds(Run(c, actions).pending, p)
    decreases |actions|
  {
    if actions != [] {
      StepHolds(c, actions[0], p);
      GoneStays(Step(c, actions[0]), actions[1..], p);
    }
  }

  // ----- what the clocks decide

  ghost predicate NoneLate(atSend: Chat, text: string, es: seq<Entry>) {
    forall e :: e in es ==> !LateCopy(atSend, text, e)
  }

  /** No late copy is in view or in any transcript. */
  ghost predicate NothingLate(atSend: Chat, text: string, c: Chat) {
    && NoneLate(atSend, text, c.view)
    && forall s :: 0 <= s < |c.sessions| ==> NoneLate(atSend, text, Flatten(c.sessions[s]))
  }

  /** The entries a step brings into being. */
  function Brought(c: Chat, a: Action): seq<Entry> {
    match a
    case Append(said, stamp) => Stamped(said, stamp)
    case NewSession(lines) => Flatten(lines)
    case ShowLocal(id, text, output) => Locals(id, text, output, c.clock)
    case _ => []
  }

  ghost predicate BringsNoneLate(atSend: Chat, text: string, c: Chat, actions: seq<Action>)
    decreases |actions|
  {
    actions != [] ==>
      && NoneLate(atSend, text, Brought(c, actions[0]))
      && BringsNoneLate(atSend, text, Step(c, actions[0]), actions[1..])
  }

  lemma StepBringsNothingLate(atSend: Chat, text: string, c: Chat, a: Action)
    requires Books(c) && NothingLate(atSend, text, c) && NoneLate(atSend, text, Brought(c, a))
    ensures NothingLate(atSend, text, Step(c, a))
  {
    if Enabled(c, a) {
      match a
      case Append(said, stamp) => FlattenAppend(Current(c), Stamped(said, stamp));
      case Merge =>
        var r := c.inbox.value;
        PageKnown(c, r);
        MergedPart(c.view, r.page.entries, r.page.reset);
      case ShowLocal(id, t, output) => MergedPart(c.view, Locals(id, t, output, c.clock), false);
      case _ =>
    }
  }

  lemma AfterRest(c: Chat, actions: seq<Action>, k: nat)
    requires k < |actions|
    ensures var d := Step(c, actions[0]);
            After(c, actions, k) == if k == 0 then d else After(d, actions[1..], k - 1)
  {
    assert actions[..k + 1][0] == actions[0];
    assert actions[..k + 1][1..] == actions[1..][..k];
    assert Run(c, actions[..k + 1]) == Run(Step(c, actions[0]), actions[1..][..k]);
  }

  lemma {:induction false} RunBringsNothingLate(atSend: Chat, text: string, c: Chat, actions: seq<Action>)
    requires Books(c) && NothingLate(atSend, text, c) && BringsNoneLate(atSend, text, c, actions)
    ensures forall k :: 0 <= k < |actions| ==> NothingLate(atSend, text, After(c, actions, k))
    decreases |actions|
  {
    if actions != [] {
      var d := Step(c, actions[0]);
      StepBringsNothingLate(atSend, text, c, actions[0]);
      StepKeepsBooks(c, actions[0]);
      RunBringsNothingLate(atSend, text, d, actions[1..]);
      forall k | 0 <= k < |actions| ensures NothingLate(atSend, text, After(c, actions, k)) {
        AfterRest(c, actions, k);
      }
    }
  }

  lemma OnlyRefusals(c: Chat, sent: Chat, text: string, actions: seq<Action>)
    requires Books(sent) && NothingLate(c, text, sent) && BringsNoneLate(c, text, sent, actions)
    ensures forall k :: 0 <= k < |actions| ==> (EndedAt(c, sent, text, actions, k) <==> Refuses(actions[k], c.nextId))
  {
    RunBringsNothingLate(c, text, sent, actions);
    forall k | 0 <= k < |actions| ensures EndedAt(c, sent, text, actions, k) <==> Refuses(actions[k], c.nextId) {
      assert NothingLate(c, text, After(sent, actions, k));
    }
  }

  /**
   While every identical line, earlier or later, was seen at the send or is stamped no later than
   the client's clock at the send, nothing but its own refusal or failure takes the line off.
   */
  lemma UncountedLinesNeverEnd(c: Chat, text: string, actions: seq<Action>)
    requires Books(c) && NothingLate(c, text, c) && BringsNoneLate(c, text, Step(c, Send(text)), actions)
    ensures Holds(Run(Step(c, Send(text)), actions).pending, NewLine(c, text)) <==>
            forall k :: 0 <= k < |actions| ==> !Refuses(actions[k], c.nextId)
  {
    AfterSend(c, text);
    LineStays(c, Step(c, Send(text)), text, actions);
  }

  lemma LineStays(c: Chat, sent: Chat, text: string, actions: seq<Action>)
    requires Books(sent) && NewLine(c, text) in sent.pending && c.nextId < sent.nextId
    requires NothingLate(c, text, sent) && BringsNoneLate(c, text, sent, actions)
    ensures Holds(Run(sent, actions).pending, NewLine(c, text)) <==>
            forall k :: 0 <= k < |actions| ==> !Refuses(actions[k], c.nextId)
  {
    LineLeaves(c, sent, text, actions);
    OnlyRefusals(c, sent, text, actions);
  }

  /**
   The server's copy of a waiting line counts as its delivery exactly when the server's stamp is
   later than the client's clock was at the send, or missing; then the line is gone as soon as the
   view shows the copy.
   */
  lemma OwnDeliveryEnds(c: Chat, said: seq<Said>, stamp: Option<int>, i: nat, p: Pending, actions: seq<Action>)
    requires Books(c) && Enabled(c, Append(said, stamp)) && i < |said| && p in c.pending
    requires said[i].role == User && said[i].text == p.text
    ensures var e, d := Stamped(said, stamp)[i], Run(Step(c, Append(said, stamp)), actions);
            && (Delivers(p, e) <==> Late(stamp, p.sentAt))
            && (Late(stamp, p.sentAt) && e in d.view ==> !Holds(d.pending, p))
  {
    var line := Stamped(said, stamp);
    var e, d := line[i], Run(Step(c, Append(said, stamp)), actions);
    AppendKeepsBooks(c, said, stamp);
    RunKeepsBooks(Step(c, Append(said, stamp)), actions);
    assert e in line && e.uuid.value in UuidsOf(line);
    assert e.uuid.value !in p.seen;
  }

  /** An empty chat over an empty transcript, the client's clock at `now`. */
  function Empty(now: int): Chat {
    Chat(now, [[]], {}, [], false, 0, 0, 0, None, [], {}, 0)
  }

  /** An identical line stands in the transcript, unread, when the line is sent. */
  function EarlierCopy(id: string, text: string, stamp: Option<int>): seq<Action> {
    [Append([Said(id, User, text)], stamp), Send(text)] + [Fetch(0, 0), Merge]
  }

  /** The line is sent and the server writes its copy. */
  function OwnCopy(id: string, text: string, stamp: Option<int>): seq<Action> {
    [Send(text), Append([Said(id, User, text)], stamp)] + [Fetch(0, 0), Merge]
  }

  lemma OneLine(id: string, text: string, stamp: Option<int>)
    ensures var line := Stamped([Said(id, User, text)], stamp);
            && line == [Entry(Some(FromTranscript(id)), User, text, stamp)]
            && Flatten([line]) == line && Merged([], line, false) == line && Newest(line, LIMIT) == line
            && Identified(line)
  {
    var line := Stamped([Said(id, User, text)], stamp);
    assert [line][..0] == [] && Flatten([line]) == [] + line == line;
    assert [] + line == line;
    FirstsOfUnique(line);
  }

  lemma FetchOne(c: Chat, line: seq<Entry>)
    requires c.sessions == [[line]] && !c.loaded && c.at == 0 && c.inbox.None? && c.view == []
    requires Flatten([line]) == line == Newest(line, LIMIT) == Merged([], line, false)
    ensures var d := Run(c, [Fetch(0, 0), Merge]);
            d.view == line && d.pending == DropDelivered(c.pending, line)
  {
    assert [line][0..] == [line];
    FetchMerge(c, 0, 0);
  }

  lemma {:induction false} AppendOne(c: Chat, id: string, text: string, stamp: Option<int>)
    requires c.sessions == [[]] && FromTranscript(id) !in c.known
    ensures var line := Stamped([Said(id, User, text)], stamp);
            && Enabled(c, Append([Said(id, User, text)], stamp))
            && Step(c, Append([Said(id, User, text)], stamp)) ==
               c.(sessions := [[line]], known := c.known + UuidsOf(line))
  {
    var line := Stamped([Said(id, User, text)], stamp);
    OneLine(id, text, stamp);
    assert Flatten([]) + line == line;
    assert [] + [line] == [line];
  }

  /** The empty chat once the line is sent and the copy written, in either order. */
  function Ready(now: int, text: string, line: seq<Entry>): Chat {
    Empty(now).(sessions := [[line]], known := UuidsOf(line), pending := [Pending(0, text, Sent, {}, now)], nextId := 1)
  }

  lemma SendAndAppend(now: int, id: string, text: string, stamp: Option<int>)
    ensures var append := Append([Said(id, User, text)], stamp);
            var ready := Ready(now, text, Stamped([Said(id, User, text)], stamp));
            Step(Step(Empty(now), append), Send(text)) == ready == Step(Step(Empty(now), Send(text)), append)
  {
    assert SeenIn([], text) == {};
    var line := Stamped([Said(id, User, text)], stamp);
    assert {} + UuidsOf(line) == UuidsOf(line);
    AppendOne(Empty(now), id, text, stamp);
    AppendOne(Step(Empty(now), Send(text)), id, text, stamp);
  }

  /** What is left on the list: the rule does not tell the two runs apart. */
  lemma CopyDecides(now: int, id: string, text: string, stamp: Option<int>)
    ensures var early, own := Run(Empty(now), EarlierCopy(id, text, stamp)), Run(Empty(now), OwnCopy(id, text, stamp));
            early == own && own.pending == if Late(stamp, now) then [] else [Pending(0, text, Sent, {}, now)]
  {
    var append, line := Append([Said(id, User, text)], stamp), Stamped([Said(id, User, text)], stamp);
    SendAndAppend(now, id, text, stamp);
    RunTwo(Empty(now), append, Send(text));
    RunTwo(Empty(now), Send(text), append);
    RunSplit(Empty(now), [append, Send(text)], [Fetch(0, 0), Merge]);
    RunSplit(Empty(now), [Send(text), append], [Fetch(0, 0), Merge]);
    ReadyEnds(now, id, text, stamp);
  }

  lemma ReadyEnds(now: int, id: string, text: string, stamp: Option<int>)
    ensures var ready := Ready(now, text, Stamped([Said(id, User, text)], stamp));
            Run(ready, [Fetch(0, 0), Merge]).pending ==
            if Late(stamp, now) then [] else [Pending(0, text, Sent, {}, now)]
  {
    var line := Stamped([Said(id, User, text)], stamp);
    OneLine(id, text, stamp);
    FetchOne(Ready(now, text, line), line);
    DropOne(Pending(0, text, Sent, {}, now), line);
  }

  lemma {:induction false} DropOne(p: Pending, line: seq<Entry>)
    requires |line| == 1 && SaidBefore(line[0], p.text) && p.seen == {}
    ensures DropDelivered([p], line) == if Late(line[0].ts, p.sentAt) then [] else [p]
  {
    assert [p][1..] == [];
    assert Waiting(p, line) <==> !Delivers(p, line[0]);
  }

  /** Written `ms` before the send, by a clock `skew` ahead, the identical line leaves the new one waiting. */
  ghost predicate EarlierKeepsWaiting(now: int, id: string, text: string, skew: int, ms: nat) {
    Run(Empty(now), EarlierCopy(id, text, Some(now - ms + skew))).pending != []
  }

  /** Written `ms` after the send, the copy ends the line. */
  ghost predicate OwnCopyEnds(now: int, id: string, text: string, skew: int, ms: nat) {
    Run(Empty(now), OwnCopy(id, text, Some(now + ms + skew))).pending == []
  }

  /**
   Lines written before the send leave the new one waiting, however little before, exactly when the
   server's clock is not ahead; copies written after it end the line, however little after, exactly
   when the client's clock is not ahead.
   */
  lemma ClocksMustAgree(now: int, id: string, text: string, skew: int)
    ensures forall ms: nat :: EarlierKeepsWaiting(now, id, text, skew, ms) <==> skew <= ms
    ensures forall ms: nat :: OwnCopyEnds(now, id, text, skew, ms) <==> skew + ms > 0
    ensures (forall ms: nat :: EarlierKeepsWaiting(now, id, text, skew, ms)) <==> skew <= 0
    ensures (forall ms: nat :: ms > 0 ==> OwnCopyEnds(now, id, text, skew, ms)) <==> skew >= 0
  {
    forall ms: nat ensures EarlierKeepsWaiting(now, id, text, skew, ms) <==> skew <= ms {
      CopyDecides(now, id, text, Some(now - ms + skew));
    }
    forall ms: nat ensures OwnCopyEnds(now, id, text, skew, ms) <==> skew + ms > 0 {
      CopyDecides(now, id, text, Some(now + ms + skew));
    }
    assert EarlierKeepsWaiting(now, id, text, skew, 0) <==> skew <= 0;
    assert OwnCopyEnds(now, id, text, skew, 1) <==> skew + 1 > 0;
  }
}
