/**
 The pure helpers of the Supervisor chat: merging transcript pages, the paging rules, and the
 pending lines that wait for their delivery.
 */
module ChatModel {
  import opened Wrappers

  /** Transcript entries carry the server's uuid; entries made by the chat itself a local one. */
  datatype Uuid = FromTranscript(id: string) | Local(line: nat, part: nat)

  datatype Role = User | Assistant | Tool | Command

  /** `ts` is the parsed stamp, absent when the entry has none that parses. */
  datatype Entry = Entry(uuid: Option<Uuid>, role: Role, text: string, ts: Option<int>)

  // ----- mergeConversation

  const CAP := 1000

  predicate Keyed(e: Entry, u: Uuid) {
    e.uuid == Some(u)
  }

  function UuidsOf(es: seq<Entry>): set<Uuid> {
    set e | e in es && e.uuid.Some? :: e.uuid.value
  }

  /** Entries with a uuid, the first occurrence of each, in order. */
  function Firsts(es: seq<Entry>): seq<Entry> {
    if es == [] then []
    else
      var rest, last := Firsts(es[..|es| - 1]), es[|es| - 1];
      if last.uuid.None? || last.uuid.value in UuidsOf(rest) then rest else rest + [last]
  }

  function Newest<T>(s: seq<T>, n: nat): seq<T> {
    if |s| > n then s[|s| - n..] else s
  }

  /** The merged view: a reset forgets the old one, the newest thousand stay. */
  function Merged(prev: seq<Entry>, page: seq<Entry>, reset: bool): seq<Entry> {
    Newest(Firsts((if reset then [] else prev) + page), CAP)
  }

  /** An entry joins when it has a uuid that no earlier one has. */
  lemma FirstsNext(es: seq<Entry>, e: Entry)
    ensures Firsts(es + [e]) == Firsts(es)
      + if e.uuid.Some? && forall d :: d in es ==> d.uuid != e.uuid then [e] else []
  {
    assert (es + [e])[..|es|] == es;
    FirstsKeys(es);
    if e.uuid.Some? {
      assert e.uuid.value in UuidsOf(es) <==> exists d :: d in es && d.uuid == e.uuid;
    }
  }

  lemma {:induction false} FirstsKeys(es: seq<Entry>)
    ensures UuidsOf(Firsts(es)) == UuidsOf(es)
  {
    if es != [] {
      var init, last := es[..|es| - 1], es[|es| - 1];
      FirstsKeys(init);
      assert es == init + [last];
      assert UuidsOf(es) == UuidsOf(init) + if last.uuid.Some? then {last.uuid.value} else {};
      assert UuidsOf(Firsts(init) + [last]) == UuidsOf(Firsts(init)) + UuidsOf([last]);
    }
  }

  /** Of the first occurrences the last thousand stay, all of them while there are no more. */
  lemma MergedInNumbers(prev: seq<Entry>, page: seq<Entry>, reset: bool)
    ensures var firsts, merged := Firsts((if reset then [] else prev) + page), Merged(prev, page, reset);
      && |merged| == (if |firsts| <= 1000 then |firsts| else 1000)
      && merged == firsts[|firsts| - |merged|..]
  {
  }

  predicate Indexed(byUuid: map<Uuid, Entry>, order: seq<Uuid>, firsts: seq<Entry>) {
    && |order| == |firsts|
    && (forall i :: 0 <= i < |order| ==> order[i] in byUuid && byUuid[order[i]] == firsts[i] && Keyed(firsts[i], order[i]))
    && byUuid.Keys == UuidsOf(firsts)
  }

  /** One of the two filling loops of `mergeConversation`. */
  method Fill(es: seq<Entry>, done: seq<Entry>, byUuid: map<Uuid, Entry>, order: seq<Uuid>)
    returns (byUuid': map<Uuid, Entry>, order': seq<Uuid>)
    requires Indexed(byUuid, order, Firsts(done))
    ensures Indexed(byUuid', order', Firsts(done + es))
  {
    byUuid', order' := byUuid, order;
    assert done + es[..0] == done;
    for i := 0 to |es|
      invariant Indexed(byUuid', order', Firsts(done + es[..i]))
    {
      var e := es[i];
      assert (done + es[..i + 1])[..|done| + i] == done + es[..i];
      if e.uuid.Some? && e.uuid.value !in byUuid' {
        byUuid' := byUuid'[e.uuid.value := e];
        order' := order' + [e.uuid.value];
      }
    }
    assert es[..|es|] == es;
  }

  method MergeConversation(prevEntries: seq<Entry>, page: seq<Entry>, reset: bool) returns (merged: seq<Entry>)
    ensures merged == Merged(prevEntries, page, reset)
  {
    var prev := if reset then [] else prevEntries;
    var byUuid, order := Fill(prev, [], map[], []);
    assert [] + prev == prev;
    byUuid, order := Fill(page, prev, byUuid, order);
    order := if |order| > CAP then order[|order| - CAP..] else order;
    merged := seq(|order|, i requires 0 <= i < |order| && order[i] in byUuid => byUuid[order[i]]);
  }

  // ----- paging

  const LIMIT := 200
  const MAX_PAGES_PER_TICK := 5

  /** Follow at once only a forward page that came back full, at most five to a tick. */
  predicate ShouldFollowBurst(entries: nat, forward: bool, limit: nat, pagesFetched: nat) {
    forward && pagesFetched < MAX_PAGES_PER_TICK && entries >= limit
  }

  // ----- pending lines

  datatype LineState = Sent | Queued | Delivered

  datatype Pending = Pending(id: nat, text: string, state: LineState, seen: set<Uuid>, sentAt: int)

  /** The answer to a send. */
  datatype Response = Response(duplicate: bool, confirmed: bool, queued: bool)

  /** `sendFeedback`: the state a line moves to, none when the send was refused. */
  function Feedback(res: Response): Option<LineState> {
    if res.duplicate then None
    else if res.confirmed then Some(Delivered)
    else if res.queued then Some(Queued)
    else Some(Sent)
  }

  function Refused(lines: seq<Pending>, id: nat): (r: seq<Pending>)
    ensures forall p :: p in r <==> p in lines && p.id != id
  {
    if lines == [] then []
    else (if lines[0].id != id then [lines[0]] else []) + Refused(lines[1..], id)
  }

  function Marked(p: Pending, id: nat, state: LineState): Pending {
    if p.id == id then p.(state := state) else p
  }

  /** A refused line comes off, an accepted one moves to its state, the others stay as they are. */
  function PendingAfterSend(pending: seq<Pending>, res: Response, id: nat): (r: seq<Pending>)
    ensures res.duplicate ==> forall p :: p in r <==> p in pending && p.id != id
    ensures !res.duplicate ==> |r| == |pending| && forall i :: 0 <= i < |r| ==>
      && SameLine(pending[i], r[i])
      && (pending[i].id != id ==> r[i] == pending[i])
      && (pending[i].id == id ==> (r[i].state == Delivered <==> res.confirmed))
      && (pending[i].id == id ==> (r[i].state == Queued <==> res.queued && !res.confirmed))
  {
    match Feedback(res)
    case None => Refused(pending, id)
    case Some(state) => seq(|pending|, i requires 0 <= i < |pending| => Marked(pending[i], id, state))
  }

  /** The same pending line, whatever its state. */
  predicate SameLine(p: Pending, q: Pending) {
    p.(state := Sent) == q.(state := Sent)
  }

  /** Is the line, in whatever state, still on the list? */
  ghost predicate Holds(pending: seq<Pending>, p: Pending) {
    exists q :: q in pending && SameLine(p, q)
  }

  /** A response takes off exactly the line it refuses. */
  lemma ResponseHolds(pending: seq<Pending>, res: Response, id: nat, p: Pending)
    ensures Holds(PendingAfterSend(pending, res, id), p) <==> Holds(pending, p) && !(res.duplicate && p.id == id)
  {
    var after := PendingAfterSend(pending, res, id);
    if q :| q in pending && SameLine(p, q) && !(res.duplicate && p.id == id) {
      if res.duplicate {
        assert q in after;
      } else {
        var i :| 0 <= i < |pending| && pending[i] == q;
        assert after[i] in after && SameLine(p, after[i]);
      }
    }
    if q :| q in after && SameLine(p, q) && !res.duplicate {
      var i :| 0 <= i < |after| && after[i] == q;
      assert pending[i] in pending && SameLine(p, pending[i]);
    }
  }

  predicate SaidBefore(en: Entry, text: string) {
    en.role == User && en.text == text && en.uuid.Some?
  }

  /** `newPendingEntry`: remembers which identical user lines the view already shows. */
  method NewPendingEntry(id: nat, text: string, entries: seq<Entry>, sentAt: int) returns (p: Pending)
    ensures p == Pending(id, text, Sent, SeenIn(entries, text), sentAt)
  {
    var seen: set<Uuid> := {};
    for i := 0 to |entries|
      invariant seen == SeenIn(entries[..i], text)
    {
      assert entries[..i + 1] == entries[..i] + [entries[i]];
      if SaidBefore(entries[i], text) { seen := seen + {entries[i].uuid.value}; }
    }
    assert entries[..|entries|] == entries;
    p := Pending(id, text, Sent, seen, sentAt);
  }

  function SeenIn(entries: seq<Entry>, text: string): set<Uuid> {
    set e | e in entries && SaidBefore(e, text) :: e.uuid.value
  }

  /** Does this entry count as the line's delivery? No stamp counts; an unseen later one does. */
  predicate Delivers(p: Pending, en: Entry) {
    && SaidBefore(en, p.text)
    && en.uuid.value !in p.seen
    && (en.ts.Some? ==> en.ts.value > p.sentAt)
  }

  predicate Waiting(p: Pending, entries: seq<Entry>) {
    forall en :: en in entries ==> !Delivers(p, en)
  }

  /** `dropDeliveredPending`: the lines no entry delivers, in order. */
  function DropDelivered(pending: seq<Pending>, entries: seq<Entry>): (r: seq<Pending>)
    ensures forall p :: p in r <==> p in pending && Waiting(p, entries)
  {
    if pending == [] then []
    else (if Waiting(pending[0], entries) then [pending[0]] else []) + DropDelivered(pending[1..], entries)
  }

  // ----- the duplicate banner

  /** `dupWarnStillApplies`, `draft` already trimmed. */
  predicate DupWarnStillApplies(refused: Option<string>, pending: seq<Pending>, draft: string) {
    refused.Some? && (exists p :: p in pending && p.text == refused.value) && draft == refused.value
  }

  /**
   Right after a refusal the banner shows exactly when the composer holds the refused text and
   another line with that text is still pending here: a copy queued elsewhere, or before this view
   was opened, leaves the refusal without a banner.
   */
  lemma BannerAfterRefusal(pending: seq<Pending>, res: Response, id: nat, text: string, draft: string)
    requires res.duplicate
    ensures DupWarnStillApplies(Some(text), PendingAfterSend(pending, res, id), draft) <==>
            draft == text && exists p :: p in pending && p.id != id && p.text == text
  {
  }
}
