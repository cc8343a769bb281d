# Proofs about the Cockpit, the manager and their tools

A Dafny 4.11 model of the parts of this repository that are protocols, transformations or
algorithms: the Cockpit chat, the tool-profile editor and its registry, the verdict parser and
its scores, the two polling hooks, transcript segmentation, retrieval metrics and rank fusion,
the probe pools with their wire framing, the editor's change preview and the handover index.
`dafny verify dfyconfig.toml` checks everything.

Code that changes things step by step is modelled by methods with loops or by classes, each proved
against a function; the functions carry the laws. Protocols are functions `Step` over a state, and
a run is any sequence of steps, so every interleaving is covered.

| file | models |
|---|---|
| `JsonText.dfy`, `CanonicalJson.dfy` | JSON values, the compact printer and a reader; the two canonical serializers |
| `ToolProfiles.dfy`, `ProfileRegistry.dfy` | the staged copy, the sparse patch, the server's merge; editors racing on the revision |
| `VerdictScan.dfy`, `VerdictScore.dfy` | the brace scanner and `extract_json`; greedy matching and F1 |
| `ChatModel.dfy`, `ChatWindow.dfy`, `ChatProtocol.dfy` | merging, paging and pending lines; the window over the transcript; runs of the whole chat |
| `PollHook.dfy`, `LivePoll.dfy`, `Fetches.dfy` | `usePoll` and `useLivePoll`; what a fetch may publish |
| `TranscriptParse.dfy`, `TranscriptReading.dfy`, `TranscriptAnswers.dfy` | records to steps; what a step holds; which call a result answers |
| `Segmentation.dfy` | steps to episodes |
| `Retrieval.dfy`, `RankFusion.dfy` | query metrics; reciprocal rank fusion |
| `WorkerPool.dfy`, `SaturationRamp.dfy`, `ChunkedFraming.dfy` | the two thread pools; body framing |
| `SpliceDiff.dfy`, `HandoverIndex.dfy` | `changedRegion`; `compute_handover_graph` |
| `Wrappers.dfy`, `Numbers.dfy`, `Counting.dfy` | an option type; minimum and maximum; counting in sequences |

Where the code and what is said about it part ways, the model follows the code:

- Merging a page is harmless only for pages that start inside the window; an older page brings
  entries the cap had pushed out back as the newest ones (`ChatWindow.RereadHarmlessInsideWindow`).
- The reply to a transcript that cannot be opened sends the client back to offset zero without a
  reset, and the next page then puts old entries behind the newest ones unless the view reaches back
  to the first entry (`ChatProtocol.UnreadableExactly`, `ChatProtocol.EmptyReplyReorders`).
- A new session resets the view only when its file is shorter than the stored offset; a longer one
  is mixed into the old view (`ChatProtocol.SwitchExactly`, `ChatProtocol.SilentSwitchMixes`).
- A send request that fails takes its pending line off just as a refusal does, and a delivery
  stamped in the very millisecond of the send does not count (`ChatProtocol.PendingLineLeaves`).
- The send time is the client's clock and the stamps are the server's. A server clock ahead by more
  than the age of an unread identical line lets that line end the new one; a client clock ahead by
  the delivery's delay leaves a delivered line waiting for good, where the comment speaks of a drop at
  the true delivery (`ChatProtocol.CopyDecides`, `ChatProtocol.ClocksMustAgree`).
- The duplicate banner promises a queued copy, but shows only when that copy is pending in this
  view (`ChatModel.BannerAfterRefusal`).
- A stored null decides in `effectiveLead` although the launcher's `??` chain passes over it, so one
  stored for a lead or a squad can hide a list (`ToolProfiles.StoredNullHidesList`). The editor stores
  none there, and neither does any other write; the built-in registry stores one in the global layer
  alone, where it hides nothing (`ToolProfiles.DefaultRegistryStoresNull`,
  `ProfileRegistry.EveryRunResolvesLead`).
- A field staged as null stays dirty after it was applied (`ToolProfiles.CleanAfterApply`). No control
  of the editor stages one (`ui/src/components/manager/ToolProfiles.jsx:819`, `:844`), so its applied
  copies are clean (`ToolProfiles.CleanWithoutNullFields`).
- The two serializers disagree on values with a member set to `undefined`, at any depth, and on no
  others (`CanonicalJson.SerializersAgreeExactly`, `CanonicalJson.SerializersDisagree`).
- Think-block stripping also cuts quoted text inside the verdict (`VerdictScan.QuotedThinkBlockLost`).
- `lemma_overlap` can exceed 1 (`VerdictScore.OverlapIsShare`) and is symmetric only when the common
  words fill as many places in both texts (`VerdictScore.OverlapSymmetricExactly`); two empty lists
  score 0 (`VerdictScore.ScorePair`).
- `useLivePoll` does overlap two requests when an aborted one settles late
  (`LivePoll.OverlapExactlyWhenStale`), and entering live mode fetches even while it is disabled
  (`LivePoll.DisabledRenderFetches`, `LivePoll.NeverEnabledFetches`).
- The capped recall can fall as k grows (`Retrieval.CappedRecallDrops`).
- One pass over the line endings leaves a CRLF behind where two CRs stand before an LF, so such a text
  is not in LF space (`SpliceDiff.CRLFLeft`).
- The entries of a slash command end a waiting line only when the client's clock has moved on since the
  send (`ChatProtocol.LocalEchoEnds`).
- In the handover index a squad whose name contains `|` answers a read of the squad named before the
  `|`, for an agent whose name begins with the rest; reads of one key agree with filtering just when
  no filed squad's name contains it (`HandoverIndex.SeparatorCollides`,
  `HandoverIndex.IndexFaithfulExactly`).
- The report reads everything where the filter's key is absent, so a filter that selects no delegation
  shows all of them (`HandoverIndex.ReportShows`, `HandoverIndex.ReportFaithfulExactly`).

## Model

| member | source | states |
|---|---|---|
| JsonText.RoundTrip | ft/verdict-parse/train.py:57-69 | the compact printer loses nothing: reading the printed text of any value (sections 4 to 7 of RFC 8259) gives the value back |
| JsonText.PrintInjective | ft/verdict-parse/train.py:57-69 | two values print alike only when they are equal |
| JsonText.ArrayText | ft/verdict-parse/train.py:57-69 | an array is its items between brackets, a comma before each but the first |
| JsonText.ObjectText | ft/verdict-parse/train.py:57-69 | an object is its members between braces, each a quoted key, a colon and the value |
| JsonText.EscapesInFull | ft/verdict-parse/train.py:57-69 | the escape of every character, spelt out: seven short ones, four hexadecimal digits for the other controls, nothing else |
| JsonText.ReadSpells | ft/verdict-parse/eval.py:151-154 | a text spells exactly as many `<`, plainly or by escape, as the strings and keys of the value read from it hold, however its numbers are spelt |
| VerdictScan.PrintedTidy | ft/verdict-parse/train.py:57-69 | the printed text spells exactly the `<` of its value, and none of them stands inside an escape |
| CanonicalJson.BeforeTotal | ui/src/toolProfilesModel.js:74-83 | code-unit order and the engine's listing order (array indices first) are strict and total on keys |
| CanonicalJson.SortedUnique | ui/src/toolProfilesModel.js:78-79 | a set of keys has one sorted listing, so the sort's algorithm does not matter |
| CanonicalJson.StableStringifyCanonical | ui/src/toolProfilesModel.js:74-87 | text equality is equality up to key order, at every depth, both ways; `undefined` counts as null |
| CanonicalJson.EnumerationSorted | ui/src/manager/editing.js:59-69 | an object rebuilt from sorted entries lists its keys in one determined order, integer-like keys first |
| CanonicalJson.WorkingFingerprintCanonical | ui/src/manager/editing.js:55-69 | fingerprints agree exactly when the values agree up to key order once `undefined` members are dropped |
| CanonicalJson.SameAsShown | ui/src/manager/editing.js:55-69 | dropping `undefined` members leaves the same value if and only if there are none, at any depth |
| CanonicalJson.SerializersAgree | ui/src/manager/editing.js:55-69 | both serializers decide the same equality on values without a member set to `undefined`, at whatever depth; `undefined` items and roots are allowed |
| CanonicalJson.SerializersAgreeExactly | ui/src/manager/editing.js:55-69 | a value is compared alike by both, against all values without such members, if and only if it has none |
| CanonicalJson.SerializersDisagree | ui/src/toolProfilesModel.js:74-83 | a member set to `undefined` counts for one serializer and not for the other |
| VerdictScan.BraceMatch | ft/verdict-parse/eval.py:123-141 | the loop over depth, in-string and escape flags returns the text up to where the scan automaton closes |
| VerdictScan.LiteralPasses | ft/verdict-parse/eval.py:123-141 | a string literal, with any escapes, leaves the scan where it was |
| VerdictScan.GapPasses | ft/verdict-parse/eval.py:123-141 | outside literals the scan counts braces and goes on while it stays inside |
| VerdictScan.GapCloses | ft/verdict-parse/eval.py:123-141 | it ends behind the brace that takes the count back to zero |
| VerdictScan.ScanUndoesPrint | ft/verdict-parse/eval.py:123-141 | at a printed object the scan returns exactly that object, whatever precedes or follows it and whatever its strings hold |
| VerdictScan.TruncatedObjectRefused | ft/verdict-parse/eval.py:123-141 | an object cut short at any character yields nothing |
| VerdictScan.ExtractJson | ft/verdict-parse/eval.py:143-159 | the leftmost parseable object with a verdict, else the leftmost parseable one, else nothing |
| VerdictScan.ChosenUnique | ft/verdict-parse/eval.py:143-159 | that choice is unique |
| VerdictScan.VerdictPreferred | ft/verdict-parse/eval.py:143-159 | an object with the key "verdict" is chosen whenever one can be read, and nothing only when nothing can |
| VerdictScan.FirstUnlessVerdict | ft/verdict-parse/eval.py:143-159 | of two printed objects the first is the answer, unless only the second holds "verdict" |
| VerdictScan.ExtractUndoesPrint | ft/verdict-parse/eval.py:143-159 | after any prefix without an opening brace and before anything, the printed verdict object is what comes back |
| VerdictScan.StripBlock | ft/verdict-parse/eval.py:121-144 | a think block is cut out non-greedily and the search resumes behind it |
| VerdictScan.ExtractAfterThinking | ft/verdict-parse/eval.py:118-159 | a think block holding anything, then prose, then the object: the object comes back |
| VerdictScan.StripSpells | ft/verdict-parse/eval.py:121-144 | cutting think blocks out of such a text leaves fewer `<` spelt, so no escape closes up into a new one |
| VerdictScan.PrintedVerdictRecovered | ft/verdict-parse/eval.py:143-159 | on the trainer's own output the object comes back if and only if the text holds no complete think block, for every `json.loads` that reads the output back and takes no text for the object that spells fewer `<` than it holds |
| VerdictScan.ReadIsAReader | ft/verdict-parse/eval.py:151-154 | such a reader exists for every object |
| VerdictScan.QuotedThinkBlockLost | ft/verdict-parse/eval.py:121-144 | a think block quoted inside a string is removed from the answer |
| VerdictScore.Serve | ft/verdict-parse/eval.py:197-200 | the inner loop takes the first free matching gold row and marks it |
| VerdictScore.CountMatches | ft/verdict-parse/eval.py:195-200 | the loop counts the greedy matching |
| VerdictScore.GreedyValid | ft/verdict-parse/eval.py:195-200 | greedy pairs match and use no row twice |
| VerdictScore.GreedyMaximal | ft/verdict-parse/eval.py:195-200 | an unserved prediction and a free gold row never match |
| VerdictScore.GreedyAtLeastHalf | ft/verdict-parse/eval.py:178-200 | no one-to-one matching has more than twice the greedy pairs, for any predicate |
| VerdictScore.GreedyHalvesFindings | ft/verdict-parse/eval.py:178-200 | with the findings predicate the factor two is reached |
| VerdictScore.GreedyKeyed | ft/verdict-parse/eval.py:205-210 | for predicates that compare keys greedy counts the multiset intersection of the keys |
| VerdictScore.AcTpIsIntersection | ft/verdict-parse/eval.py:183-210 | the acMapping count is the size of the multiset intersection of normalized keys |
| VerdictScore.AcMatchExactly | ft/verdict-parse/eval.py:183-185 | two acMapping rows match if and only if their normalized criteria and their normalized evidence are equal |
| VerdictScore.AcTpMaximum | ft/verdict-parse/eval.py:183-210 | no one-to-one matching of the rows counts more |
| VerdictScore.AcTpPermutation | ft/verdict-parse/eval.py:183-210 | permuting either list changes nothing |
| VerdictScore.OverlapIsShare | ft/verdict-parse/eval.py:165-169 | the overlap stays within 1 exactly when no more words of the first text stand in the second than the second has |
| VerdictScore.OverlapSymmetricExactly | ft/verdict-parse/eval.py:165-169 | swapping the texts changes nothing if and only if the common words fill as many places in one as in the other |
| VerdictScore.OverlapWithoutRepeats | ft/verdict-parse/eval.py:165-169 | without repeated words the overlap is, both ways, the number of common words over the shorter length, and at most 1 |
| VerdictScore.OverlapAsymmetric | ft/verdict-parse/eval.py:165-181 | with repeated words the overlap can be 2, and swapping prediction and gold can lose the match |
| VerdictScore.FindingMatchExactly | ft/verdict-parse/eval.py:165-181 | findings match if and only if severity and normalized evidence are equal, neither text is empty, and words standing in the gold text fill three fifths of the shorter length |
| VerdictScore.FindingsWithin | ft/verdict-parse/eval.py:178-200 | no more findings are matched than the two lists have severities in common, counted with repetition, and no more than they have normalized evidence |
| VerdictScore.F1IsDice | ft/verdict-parse/eval.py:187-190 | F1 is 2tp over all rows, lies in [0,1], is 0 exactly without a match and 1 exactly for a non-empty full one |
| VerdictScore.ScorePair | ft/verdict-parse/eval.py:192-213 | tp+fp and tp+fn are the list lengths; each F1 is the Dice share, 1 exactly when both lists are non-empty and fully matched, 0 for two empty lists; findings tp within the common severities and the common evidence |
| ToolProfiles.MergeGet | scripts/tool-profiles.mjs:348-361 | the merge key by key: null deletes, objects recurse, other values replace, absent keys stay |
| ToolProfiles.FieldsShown | ui/src/toolProfilesModel.js:95-111 | the five fields; one the registry does not store shows false for `enabled` and the empty text for the others |
| ToolProfiles.DirtyPaths | ui/src/toolProfilesModel.js:203-230 | the loops list, in their order, exactly the dirty fields, the global list, the squads and the leads |
| ToolProfiles.DirtyPathsExactly | ui/src/toolProfilesModel.js:203-230 | the list holds a path if and only if it is editable and dirty, and no path twice |
| ToolProfiles.BuildPatch | ui/src/toolProfilesModel.js:233-268 | the loops assemble the sparse patch, none when nothing is dirty |
| ToolProfiles.DirtyMeansDifferent | ui/src/toolProfilesModel.js:203-230 | a path is dirty exactly when the staged and the shown value differ, although lists are compared as text |
| ToolProfiles.PatchAppliesExactly | ui/src/toolProfilesModel.js:233-268 | merging the patch stores each dirty path's staged value (null deletes) and leaves every other path as it was |
| ToolProfiles.PatchTouchesSections | ui/src/toolProfilesModel.js:233-268 | no key outside the four sections changes |
| ToolProfiles.MergeKeepsConfigOk | ui/src/toolProfilesModel.js:233-268 | merging the patch leaves a well-formed registry well formed |
| ToolProfiles.CleanAfterApply | ui/src/toolProfilesModel.js:203-268 | after the merge a path is dirty if and only if it is a field staged as null |
| ToolProfiles.CleanWithoutNullFields | ui/src/components/manager/ToolProfiles.jsx:815-850 | a copy whose fields are not null is clean at every path once applied |
| ToolProfiles.EmptyPatchMeansClean | ui/src/toolProfilesModel.js:203-268 | the patch is empty exactly when no path is dirty |
| ToolProfiles.StagedFromConfig | ui/src/toolProfilesModel.js:101-111 | the loop fills in each field or its default and copies the lists |
| ToolProfiles.FreshCopyClean | ui/src/toolProfilesModel.js:101-111 | a fresh copy is well formed and nothing in it is dirty |
| ToolProfiles.EffectiveLeadIsResolved | ui/src/toolProfilesModel.js:183-190 | the displayed lead tools are the launcher's `??` chain exactly when no stored null hides a list |
| ToolProfiles.AppliedLeadIsResolved | ui/src/toolProfilesModel.js:183-268 | where no null is stored for a lead or its squad, applying a patch stores none and keeps the displayed lead tools equal to the `??` chain |
| ToolProfiles.StoredNullHidesList | scripts/tool-profiles.mjs:195-196 | a valid registry with a null for a lead over a squad's list displays null where the launch resolves the list |
| ToolProfiles.PatchStoresNoNull | ui/src/toolProfilesModel.js:233-268 | a path stores a null after the merge if and only if it did before and was left alone |
| ToolProfiles.DefaultRegistryStoresNull | scripts/tool-profiles.mjs:105-114 | the built-in registry stores a null that the editor names as the source, in the global layer, where display and launch agree |
| ToolProfiles.PreviewValidExactly | ui/src/toolProfilesModel.js:113-130 | a preview is valid if and only if the copy it staged is the present one up to key order; an unchanged copy's is |
| ToolProfiles.ValidPreviewIsCurrent | ui/src/toolProfilesModel.js:113-130 | a preview that is still valid staged, at every path, what is staged now |
| ProfileRegistry.RunKeepsInv | scripts/tool-profiles.mjs:408-442 | over every run of reads, edits, sends, deliveries and foreign writes, what was read at the current revision is the current registry |
| ProfileRegistry.AcceptedExactly | scripts/tool-profiles.mjs:408-442 | a request, the newest included, is stored and moves the revision on by one if and only if it is permitted and expects the current revision; else nothing changes |
| ProfileRegistry.ApplyGoesThrough | ui/src/toolProfilesModel.js:203-283 | from every reachable state an undisturbed read, edit and apply sends one request if something is dirty and none otherwise; permitted, it brings every path to what was staged |
| ProfileRegistry.RunAppend | scripts/tool-profiles.mjs:408-442 | a run is its actions one after another |
| ProfileRegistry.AcceptedPutLosesNothing | ui/src/toolProfilesModel.js:270-283 | an accepted PUT lands on the very registry it was diffed against; every path it did not aim at keeps what it held |
| ProfileRegistry.AcceptedOnce | scripts/tool-profiles.mjs:408-442 | after an accepted request, in every later state, it and any other that expects the same revision are refused |
| ProfileRegistry.UnaimedPathKept | scripts/tool-profiles.mjs:408-442 | a path survives any run in which no accepted request found it dirty and no accepted foreign write's patch held it |
| ProfileRegistry.RunResolvesLead | scripts/tool-profiles.mjs:348-442 | from a registry without a null for a lead or its squad, every run of editors and foreign writes keeps the displayed lead tools equal to the launcher's chain |
| ProfileRegistry.EveryRunResolvesLead | scripts/tool-profiles.mjs:348-442 | all runs keep them equal if and only if the registry starts that way; from any other at most two writes make a null hide tools |
| ChatModel.MergeConversation | ui/src/cockpitModel.js:79-102 | the map-and-order loops compute: first occurrence of each uuid, newest thousand |
| ChatModel.FirstsNext | ui/src/cockpitModel.js:79-102 | an entry joins the merge if and only if it has a uuid that none before it has |
| ChatModel.MergedInNumbers | ui/src/cockpitModel.js:79-102 | the merge keeps the newest thousand of them |
| ChatModel.PendingAfterSend | ui/src/cockpitModel.js:485-503 | a refused line goes; an accepted one becomes delivered when confirmed, else queued when queued, else sent; every other line stays as it is |
| ChatModel.ResponseHolds | ui/src/cockpitModel.js:485-503 | a response takes off exactly the line it refuses |
| ChatModel.NewPendingEntry | ui/src/cockpitModel.js:563-569 | the snapshot holds exactly the uuids of identical user lines in view |
| ChatModel.DropDelivered | ui/src/cockpitModel.js:579-595 | a line stays exactly when no entry is an unseen, later, identical user line |
| ChatModel.BannerAfterRefusal | ui/src/cockpitModel.js:510-538 | after a refusal the banner shows exactly when the composer holds the refused text and another pending line has it |
| ChatWindow.ShortPageCaughtUp | ui/src/cockpitModel.js:260-270 | a forward page that is not full was read to the end |
| ChatWindow.FirstsExtends | ui/src/cockpitModel.js:82-96 | known entries change nothing and new ones append in order |
| ChatWindow.MergeKeepsWindow | ui/src/cockpitModel.js:79-102 | any page starting inside the window leaves a contiguous window, without repeats, of at most a thousand, ending at the furthest entry read |
| ChatWindow.MergeExactly | ui/src/cockpitModel.js:79-102 | a page keeps the window if and only if it starts inside it, is empty, or brings a thousand new entries |
| ChatWindow.AnyTranscriptExactly | ui/src/cockpitModel.js:79-102 | a page of any transcript, sharing entries with the view or not, makes the view a window of it if and only if what stays and what the page adds stand side by side there |
| ChatWindow.OtherTranscriptExactly | ui/src/cockpitModel.js:79-102 | a page of a transcript that shares nothing with the view makes a window if and only if no entry of the view's transcript stays |
| ChatWindow.SharedKeyDropped | ui/src/cockpitModel.js:82-96 | an entry whose key is in view already never shows |
| ChatWindow.RereadHarmlessInsideWindow | ui/src/cockpitModel.js:79-102 | re-reading known entries changes nothing if and only if the page starts inside the window |
| ChatWindow.ResetStartsWindow | ui/src/cockpitModel.js:79-84 | a reset page starts a new window |
| ChatWindow.LocalsKeepWindow | ui/src/components/cockpit/ChatView.jsx:212-229 | entries the chat adds itself leave the window intact |
| ChatWindow.Tick | ui/src/components/cockpit/ChatView.jsx:105-148 | whatever each request of a tick finds (a transcript, another one, a shorter one, none), the loop leaves the offset, view and page count of the request-by-request reading |
| ChatWindow.TickCatchesUp | ui/src/components/cockpit/ChatView.jsx:105-148 | that reading takes one to five pages, and fewer than five only once all that the last request found has been read |
| ChatWindow.BurstExactly | ui/src/components/cockpit/ChatView.jsx:105-148 | another page is asked for at once if and only if the chat was loaded, the page brought two hundred entries or more and it was not the fifth; the last page leaves its offset and its merged view |
| ChatWindow.AnswerInNumbers | scripts/supervisor-conversation.mjs:155-185 | a first page is the last two hundred entries of its stretch; a later one takes whole lines, just as many as hold two hundred entries, or all; behind the end it is a reset |
| ChatWindow.TickShowsWindow | ui/src/components/cockpit/ChatView.jsx:105-148 | over a transcript that grows between the requests a tick keeps the window, and makes one when the stored offset lies behind the end |
| ChatProtocol.RunKeepsBooks | ui/src/components/cockpit/ChatView.jsx:97-183 | over every run, with empty replies and session switches, the view holds no entry twice and at most a thousand, a page on its way starts no later than was read, and no listed line is delivered by the view |
| ChatProtocol.EveryRunShowsWindow | ui/src/components/cockpit/ChatView.jsx:97-163 | over every run, whatever the sessions share, the view stays a window after each step if and only if each page merged is a reset, meets a view without transcript entries, or: in the same session, starts inside the window, is empty or brings a thousand new entries; in another, adds to what stays of the view a stretch that ends with the page |
| ChatProtocol.OrdinaryRunsShowWindow | ui/src/components/cockpit/ChatView.jsx:97-163 | in every run from opening the chat in which all replies come from one growing transcript, the view is a window ending exactly at the offset read |
| ChatProtocol.PageStartsAt | scripts/supervisor-conversation.mjs:155-172 | a later page starts where reading stopped while the session lasts, at the beginning after an empty reply, and otherwise wherever the stored offset falls in the new session; behind its end it is a reset |
| ChatProtocol.ResetRecovers | ui/src/components/cockpit/ChatView.jsx:97-163 | a reset page makes the view a window again, whatever it held |
| ChatProtocol.FailedRequestUndone | ui/src/components/cockpit/ChatView.jsx:105-163 | a request that fails leaves the chat as it was, whatever the server had answered |
| ChatProtocol.LocalEchoShows | ui/src/components/cockpit/ChatView.jsx:205-229 | the entries of a confirmed slash command become the newest in view |
| ChatProtocol.LocalEchoEnds | ui/src/components/cockpit/ChatView.jsx:205-229 | they end exactly the waiting lines with that text that were sent before the client's present time |
| ChatProtocol.UnreadableExactly | scripts/supervisor-conversation.mjs:155-166 | after an empty reply, which resets the offset to zero, the next page keeps the window if and only if the view reaches back to the first entry or that page brings a thousand new ones |
| ChatProtocol.EmptyReplyReorders | scripts/supervisor-conversation.mjs:155-166 | two lines, a tail page of the second, an empty reply: the first line comes in behind the second |
| ChatProtocol.SwitchExactly | scripts/supervisor-conversation.mjs:168-172 | after a move to an unseen transcript the next page makes a window of it if and only if the stored offset lies behind its end or the page leaves no room for what the view held |
| ChatProtocol.SilentSwitchMixes | scripts/supervisor-conversation.mjs:168-172 | one line read, then a session of two lines: the view holds the old line and the second new one |
| ChatProtocol.PendingLineLeaves | ui/src/cockpitModel.js:485-595 | over every run after a send, whatever the clocks do, the line is gone exactly when it was refused or failed, or the view came to show a user line with its text, unseen at the send and stamped after it or not at all |
| ChatProtocol.UncountedLinesNeverEnd | ui/src/cockpitModel.js:540-595 | while every identical line, earlier or later, was seen or is stamped no later than the client's clock at the send, the line is gone exactly when its own send was refused or failed |
| ChatProtocol.OwnDeliveryEnds | ui/src/cockpitModel.js:571-595 | the server's copy of a waiting line counts if and only if its stamp is later than the client's clock at the send or missing, and then ends the line once the view shows it |
| ChatProtocol.CopyDecides | ui/src/cockpitModel.js:540-595 | for every stamp, an identical line written before the send and a copy written after it leave the same chat: the line waits if and only if the stamp is not later than the client's clock |
| ChatProtocol.ClocksMustAgree | ui/src/cockpitModel.js:540-562 | with a server clock ahead by some skew, a line written a given time before the send leaves the new one waiting if and only if the skew is no larger, and a copy written a given time after it ends it if and only if the skew is larger than minus that; both for all times only without skew |
| PollHook.UsePoll.RunFetch | ui/src/hooks/usePoll.js:24-31 | starts a fetch and takes the slot, unless one is in flight |
| PollHook.UsePoll.Continue | ui/src/hooks/usePoll.js:30-48 | publishes unless aborted; frees the slot only for its owner |
| PollHook.UsePoll.Rearm | ui/src/hooks/usePoll.js:51-62 | new deps: abort, then a new fetch at once |
| PollHook.ArmStarts | ui/src/hooks/usePoll.js:51-62 | mounting or new deps start a fetch at once, in every reachable state: it holds the slot and is the only one not aborted |
| PollHook.MountFetches | ui/src/hooks/usePoll.js:16-62 | the first render shows only that it is loading, and its effect starts fetch 0 |
| PollHook.SettleShows | ui/src/hooks/usePoll.js:30-48 | a fetch that was not aborted shows its result and frees the slot |
| PollHook.UnmountAborts | ui/src/hooks/usePoll.js:56-60 | an unmount aborts everything and starts nothing |
| PollHook.EveryRun | ui/src/hooks/usePoll.js:24-76 | in every interleaving at most one fetch is not aborted and it owns the slot; results are published in strictly increasing start order; data is the last success, error the last result's |
| PollHook.AbortedSettlesQuietly | ui/src/hooks/usePoll.js:30-48 | a late aborted fetch publishes nothing and frees nobody else's slot |
| PollHook.StartsWhenIdle | ui/src/hooks/usePoll.js:51-76 | a visible tick, refresh or return starts a fetch exactly when every outstanding one is aborted; that fetch alone can then publish, and otherwise nothing changes |
| PollHook.OldResultsNeverPublished | ui/src/hooks/usePoll.js:51-62 | after a re-arm or unmount no earlier fetch is ever published |
| PollHook.QuietAfterUnmount | ui/src/hooks/usePoll.js:56-60 | after an unmount, late settles leave data and error as they were |
| LivePoll.NextInterval | ui/src/manager/live.js:95-102 | one more failure moves to the next doubled, capped interval, also for a base above the cap |
| LivePoll.NextDoubles | ui/src/manager/live.js:95-102 | the next interval is twice the one in use or twice the base, whichever is larger, up to a minute |
| LivePoll.DefaultIntervals | ui/src/manager/live.js:93-102 | from 5 seconds: 10, 20, 40, then 60 for good |
| LivePoll.ClosedForm | ui/src/manager/live.js:95-102 | min(base*2^k, cap) is the interval for every k exactly when the base is within the cap |
| LivePoll.UseLivePoll.Continue | ui/src/manager/useLivePoll.js:43-58 | publishes unless aborted; frees the slot unconditionally |
| LivePoll.UseLivePoll.OnRender | ui/src/manager/useLivePoll.js:61-112 | the enable effect and the entering-live fetch of one re-render |
| LivePoll.EventStarts | ui/src/manager/useLivePoll.js:79-118 | a tick or a return to the tab starts a fetch if and only if the hook is mounted, enabled, ticking, visible and idle; a refresh if and only if it is enabled, visible and idle; else nothing changes |
| LivePoll.MountFetches | ui/src/manager/useLivePoll.js:28-69 | mounting fetches exactly when the hook is enabled |
| LivePoll.RenderDoes | ui/src/manager/useLivePoll.js:61-112 | what a re-render takes over, aborts and starts, for every combination of changes |
| LivePoll.SettleShows | ui/src/manager/useLivePoll.js:43-58 | whoever settles frees the slot; only a fetch that was not aborted shows its result |
| LivePoll.UnmountAborts | ui/src/manager/useLivePoll.js:65-69 | an unmount aborts the fetch in the slot of an enabled hook and starts nothing |
| LivePoll.BackoffOfEveryRun | ui/src/manager/useLivePoll.js:37-59 | in every run the snapshot is the last success, the error that of the last result, and the interval follows from the failures in a row; a success resets it |
| LivePoll.NoOverlapWhenSettled | ui/src/manager/useLivePoll.js:37-118 | no overlap in any run in which each re-render, and each refresh after the unmount, that starts a fetch finds the aborted ones settled; ticks, visibility and mounted refreshes are free |
| LivePoll.OverlapExactlyWhenStale | ui/src/manager/useLivePoll.js:37-118 | starting a fetch can lead to an overlap if and only if an aborted fetch is then unsettled |
| LivePoll.DisabledRenderFetches | ui/src/manager/useLivePoll.js:61-112 | a re-render that leaves the hook disabled starts a fetch if and only if ticking turns on in a visible tab and nothing is in flight after the cleanup |
| LivePoll.NeverEnabledFetches | ui/src/manager/useLivePoll.js:61-112 | a hook that was never enabled fetches on entering live mode |
| TranscriptParse.Parse | tools/precedent-spike/chains.py:115-186 | the loops compute the record-by-record reading, and no pending lookup misses its step or call |
| TranscriptParse.EveryCallAnsweredOnce | tools/precedent-spike/chains.py:115-186 | whatever the records, pending entries point at distinct, existing, unanswered calls, and no call has two results |
| TranscriptParse.ContentConserved | tools/precedent-spike/chains.py:137-161 | thinking, text and calls of the steps are exactly those of the assistant records read |
| TranscriptParse.CallsAccountFor | tools/precedent-spike/chains.py:161-181 | results and pending entries together never outnumber the calls |
| TranscriptReading.StepsAreMessages | tools/precedent-spike/chains.py:137-161 | whatever the records: there are as many steps as assistant records that open a message (no assistant record of the same id stands before them with only skipped ones between), and each step holds exactly the stamps, model, thinking, text and calls of its message |
| TranscriptReading.SameMessageJoins | tools/precedent-spike/chains.py:137-142 | an assistant record right behind one of the same id adds no step, and the last step holds the blocks of both |
| TranscriptReading.NewMessageOpens | tools/precedent-spike/chains.py:137-163 | behind a user record or one of another id it adds exactly one, which holds its blocks alone |
| TranscriptAnswers.AnswersRouted | tools/precedent-spike/chains.py:161-181 | over the uses and results as read: the pending table holds exactly the uses that await a result, and each step's answers are, in order, the results that met a use of that step, filed under its call, errors when flagged or when a shell call exits non-zero |
| TranscriptAnswers.AwaitingIsLastNaming | tools/precedent-spike/chains.py:161-181 | a use awaits its result exactly while it is the last to name its id |
| TranscriptAnswers.AnswersAreReplies | tools/precedent-spike/chains.py:161-181 | a result answers a call of a step if and only if its id was last named by a use of that call |
| TranscriptAnswers.HumanIsSaid | tools/precedent-spike/chains.py:182-185 | the human stamps are those of the user records that carry no result, are no meta record and say something |
| Segmentation.MostCommonDecided | tools/precedent-spike/chains.py:189-194 | the label is the most frequent family, the earliest on a tie |
| Segmentation.DominantLeads | tools/precedent-spike/chains.py:233-234 | the dominant family is the most frequent working one, the first to occur among equals, or that of all when nothing works |
| Segmentation.LeaderUnique | tools/precedent-spike/chains.py:189-234 | no two families lead alike |
| Segmentation.LabelSteps | tools/precedent-spike/chains.py:189-194 | each label carries its step's earliest most frequent family, other calls counting only on their own, an error exactly when a result is one, and exactly the signatures of its failing results |
| Segmentation.LabelledRunHasCommand | tools/precedent-spike/chains.py:324-328 | a step labelled test or run has a command, so the lookup never falls back to none |
| Segmentation.Smooth | tools/precedent-spike/chains.py:203-206 | a step keeps a working family that the next step shares; else the step before decides, then its own family, then the step after, as far as they work; else it stays idle |
| Segmentation.LastStepFollows | tools/precedent-spike/chains.py:203-206 | the last step behind a working one always takes that one's family |
| Segmentation.HardBoundaries | tools/precedent-spike/chains.py:208-215 | hard boundaries are exactly the long gaps and the human messages in between |
| Segmentation.HardMeans | tools/precedent-spike/chains.py:208-215 | in numbers: more than 600 seconds between the end of the one step and the start of the next, or a stamped human message in between, absent and zero stamps deciding nothing |
| Segmentation.Cuts | tools/precedent-spike/chains.py:216-226 | the hysteresis loop: episodes tile the steps, each running to the first place where it breaks |
| Segmentation.CutsUnique | tools/precedent-spike/chains.py:216-226 | that rule determines the cuts |
| Segmentation.CutsExactly | tools/precedent-spike/chains.py:216-226 | behind the start of an episode a step is a cut if and only if it is a hard boundary, or leaves the family the episode began with and is followed by its own family, a hard boundary or the end |
| Segmentation.HardBoundariesCut | tools/precedent-spike/chains.py:216-226 | every hard boundary is a cut |
| Segmentation.SoftCutLasts | tools/precedent-spike/chains.py:216-226 | a soft cut changes the family and lasts two steps unless a hard boundary or the end closes it |
| Segmentation.PairDecidesFamily | tools/precedent-spike/chains.py:216-226 | two equal consecutive smoothed families inside an episode are the episode's |
| Segmentation.Segment | tools/precedent-spike/chains.py:197-266 | the episodes are those of the determined cuts; of each: the kind that its dominant family, an error before it and an earlier edit decide, both ways; the dominant family and the sums of its steps; when it is stuck, resolved or open, both ways |
| Segmentation.Conservation | tools/precedent-spike/chains.py:229-255 | steps, errors, signatures and thinking of the episodes add up to the transcript's |
| Segmentation.KindsFollowFirstEdit | tools/precedent-spike/chains.py:228-250 | orient and reproduce never follow, investigate and verify never precede the first edit-dominated episode; recover is exactly after an error |
| Segmentation.StuckMeansThreeSteps | tools/precedent-spike/chains.py:251-260 | stuck means exactly that some signature shows in three steps |
| Segmentation.Resolves | tools/precedent-spike/chains.py:324-334 | the twelve-step loop counts exactly the failing runs with a later edit and then a clean rerun of the command |
| Segmentation.CommandIsFirst | tools/precedent-spike/chains.py:324-328 | the command of a run is the target of its first call that tests or runs |
| Segmentation.ResolvedMeans | tools/precedent-spike/chains.py:324-334 | what is counted, in full: a failing run, an edit behind it and, within twelve steps, a clean run that repeats its command |
| Retrieval.Monotone | tools/precedent-spike/pi_eval.py:143-152 | hit and recall never fall as k grows |
| Retrieval.RecallIsShare | tools/precedent-spike/pi_eval.py:143-152 | recall is the found share of the relevant items, 1 exactly when none comes later, and none exactly when there are none |
| Retrieval.CappedRecallIsShare | tools/precedent-spike/pi_eval.py:143-152 | capped recall is the found share of what k places can hold |
| Retrieval.RecallBounds | tools/precedent-spike/pi_eval.py:143-152 | 0 <= rec <= recc <= 1, and recc is 1 exactly when the places are as full as they can be |
| Retrieval.CappedRecallDrops | tools/precedent-spike/pi_eval.py:143-152 | for every ranking and k, capped recall falls from k to k+1 if and only if k is below the number of relevant items, something was hit and the next place is not relevant |
| Retrieval.CappedRecallFalls | tools/precedent-spike/pi_eval.py:143-152 | a ranking on which it falls from 1 to a half |
| Retrieval.HitMeansRank | tools/precedent-spike/pi_eval.py:150-154 | a hit within k is exactly a reciprocal rank of at least 1/k |
| Retrieval.MrrIsFirst | tools/precedent-spike/pi_eval.py:150-154 | the reciprocal rank is that of the first relevant item, 0 without one |
| Retrieval.DcgAdds | tools/precedent-spike/pi_eval.py:155-156 | a relevant item adds the discount of its place, nothing else adds |
| Retrieval.FrontIsBest | tools/precedent-spike/pi_eval.py:155-156 | hits earn at most the first places' discounts, with equality exactly when they are the first places |
| Retrieval.IdealKeepsPositives | tools/precedent-spike/pi_eval.py:157 | the ideal ranking has the same number of relevant items, all in front |
| Retrieval.NdcgBounded | tools/precedent-spike/pi_eval.py:155-160 | for any positive decreasing discount nDCG is at most 1, is 1 exactly when min(P,k) relevant items come first, and exists exactly when P > 0 |
| Retrieval.NdcgIsShare | tools/precedent-spike/pi_eval.py:155-160 | nDCG is the gain of the first k places over that of the front places filled |
| RankFusion.ArgSortPermutes | tools/precedent-spike/pi_eval.py:211 | a stable argsort is a permutation in order of key, then index |
| RankFusion.ArgSortInverts | tools/precedent-spike/pi_eval.py:211 | argsorting a permutation gives its inverse |
| RankFusion.RanksOrder | tools/precedent-spike/pi_eval.py:211 | ranks order columns by score, then index, without ties |
| RankFusion.EveryRankTaken | tools/precedent-spike/pi_eval.py:211 | ranks cover 1..n |
| RankFusion.Rrf | tools/precedent-spike/pi_eval.py:206-213 | the accumulating loop computes the weighted sum of reciprocal ranks |
| RankFusion.FusedAdds | tools/precedent-spike/pi_eval.py:206-213 | one more list adds its weight over 60 plus the rank it gives |
| RankFusion.DefaultWeights | tools/precedent-spike/pi_eval.py:206-213 | without weights every list counts once |
| RankFusion.OneListFused | tools/precedent-spike/pi_eval.py:206-213 | a single unweighted list gives 1/(60 + rank) |
| RankFusion.FusionKeepsDominance | tools/precedent-spike/pi_eval.py:206-213 | a column better in every list is strictly better after fusion with positive weights |
| WorkerPool.Hunt.ClaimNext | tools/nebul/nebul_replica_hunt.py:100-104 | the first locked block claims the next number |
| WorkerPool.Hunt.RecordResult | tools/nebul/nebul_replica_hunt.py:110-117 | the second records the result and may set the stop flag |
| WorkerPool.EveryProbeOnce | tools/nebul/nebul_replica_hunt.py:98-127 | when joined, every claimed number is recorded exactly once; without a stop these are 1..count and the counter ends at count + concurrency |
| WorkerPool.AtMostOneMoreAfterStop | tools/nebul/nebul_replica_hunt.py:98-121 | after a stop the stopper records nothing more and every other worker at most one result |
| WorkerPool.RecordedCount | tools/nebul/nebul_replica_hunt.py:110-117 | what a worker has recorded is the number of results that bear its name |
| WorkerPool.SchedulesEnd | tools/nebul/nebul_replica_hunt.py:98-127 | every schedule ends within a bound |
| WorkerPool.UnstoppedWorkerSends | tools/nebul/nebul_replica_hunt.py:98-109 | a free worker of an unstopped pool goes on to send the next number |
| WorkerPool.NeverStuck | tools/nebul/nebul_replica_hunt.py:98-127 | nothing can happen exactly when every worker is done; a new pool starts unstopped at number zero |
| SaturationRamp.Harness.EnterSend | tools/nebul/nebul_saturation_repro.py:231-236 | the first locked block of `fire` |
| SaturationRamp.Harness.LeaveSend | tools/nebul/nebul_saturation_repro.py:237-240 | the second, which still counts the request itself |
| SaturationRamp.InflightWithinLevel | tools/nebul/nebul_saturation_repro.py:231-264 | inflight is the number of threads between entry and exit and never above the level |
| SaturationRamp.EndsAtZero | tools/nebul/nebul_saturation_repro.py:379-407 | when a wave is joined inflight is 0 and the peak is the recorded maximum |
| SaturationRamp.DeepestIsMaximum | tools/nebul/nebul_saturation_repro.py:233-252 | that maximum is reached by an entry and exceeded by none |
| SaturationRamp.WaveStarts | tools/nebul/nebul_saturation_repro.py:375-399 | a wave starts with all its threads free and none of its tasks taken, unless the stop event is set |
| SaturationRamp.WaveSendsEachTaskOnce | tools/nebul/nebul_saturation_repro.py:379-399 | in every interleaving a wave joined unstopped has logged each of its tasks exactly once; a stopped one none of them twice |
| SaturationRamp.StopDrains | tools/nebul/nebul_saturation_repro.py:379-399 | once the stop event is set just the requests that threads already hold are still logged |
| SaturationRamp.FailureDrains | tools/nebul/nebul_saturation_repro.py:379-407 | a load that fails sets the event: just what the threads held is still logged, and no wave follows; a load that does not fail leaves it alone |
| ChunkedFraming.SendChunked | tools/nebul/nebul_transport_repro.py:197-204 | the loop sends the chunked coding of the body |
| ChunkedFraming.FirstChunk | tools/nebul/nebul_transport_repro.py:197-204 | the first chunk holds a full step, or all there are if fewer, and the coding of the rest follows |
| ChunkedFraming.WireBytes | tools/nebul/nebul_transport_repro.py:197-204 | the bytes of a chunk and of the end, in numbers |
| ChunkedFraming.HexForm | tools/nebul/nebul_transport_repro.py:201 | sizes are lower-case hexadecimal without leading zeros |
| ChunkedFraming.SendSlow | tools/nebul/nebul_transport_repro.py:205-210 | the slices make up the body, none empty, and every one but the last of exactly the step |
| ChunkedFraming.RoundTrip | tools/nebul/nebul_transport_repro.py:197-204 | decoding by section 7.1 of RFC 9112 gives back every body at every positive step and stops where the coding ends |
| ChunkedFraming.EncodePrefixFree | tools/nebul/nebul_transport_repro.py:197-204 | different bodies never share a wire form, not even as a prefix |
| SpliceDiff.CRLFIsNotContent | ui/src/components/MarkdownEditor.jsx:14-20 | a CRLF file compares equal to the text it holds |
| SpliceDiff.ToLFTouchesCRLF | ui/src/components/MarkdownEditor.jsx:14-20 | a text changes if and only if it holds a CRLF |
| SpliceDiff.ToLFAtBreak | ui/src/components/MarkdownEditor.jsx:14-20 | each CRLF becomes an LF wherever it stands, the rest on its own |
| SpliceDiff.CRLFLeft | ui/src/components/MarkdownEditor.jsx:14-20 | a CRLF is left behind if and only if a CR stood before one |
| SpliceDiff.LinesHoldNoNewline | ui/src/components/MarkdownEditor.jsx:28-29 | no line holds a newline |
| SpliceDiff.LinesUnique | ui/src/components/MarkdownEditor.jsx:28-29 | the lines are the only ones without a newline that join to the text |
| SpliceDiff.ChangedRegion | ui/src/components/MarkdownEditor.jsx:27-46 | the loops return a splice that turns the old lines into the new ones, and no other trimming removes or adds fewer lines |
| SpliceDiff.SpliceIsCorrect | ui/src/components/MarkdownEditor.jsx:27-46 | applied at its line the splice gives the new text |
| SpliceDiff.NoChangeMeansSame | ui/src/components/MarkdownEditor.jsx:27-46 | an empty splice means exactly the same text up to line endings |
| HandoverIndex.ComputeHandoverGraph | notebooks/agent_intelligence.py:709-760 | the loop files each delegation under its keys in order |
| HandoverIndex.IndexIsFiltering | notebooks/agent_intelligence.py:709-760 | each key holds, in order, exactly the delegations its squad and agent select, when neither name contains the separator, or when no filed squad's does |
| HandoverIndex.IndexFaithfulExactly | notebooks/agent_intelligence.py:709-760 | all reads of one key for plainly named squads agree with filtering if and only if no filed delegation's squad contains the separator |
| HandoverIndex.ReportShows | notebooks/agent_intelligence.py:1207-1209 | the report's lookup shows the delegations the filter selects, or all of them when it selects none |
| HandoverIndex.ReportFaithfulExactly | notebooks/agent_intelligence.py:1207-1209 | it agrees with the filter for all agents if and only if some delegation matches the filter or none is filed |
| HandoverIndex.SeparatorCollides | notebooks/agent_intelligence.py:709-760 | a squad name with the separator shows up under the squad named before it |

## Left out

- HTTP, sockets, files, the DOM and React itself: requests, replies and renders are steps or parameters; state updates take effect at once and in order.
- Bounds of the transcript pager in bytes: offsets count complete lines, `limit` counts entries, and where a tail read starts in the file is a parameter.
- Transcript lines without a uuid: the reader gives their parts one key each by position (`scripts/supervisor-conversation.mjs:104`), so of two such lines only the first shows (SharedKeyDropped); the windows are over transcripts whose entries have distinct keys.
- A stored offset that falls inside a line of another transcript: it counts as the next line, the torn one being skipped by the parser.
- The Cockpit's malformed inputs (pages or entries that are not objects, pending lines without a snapshot or a send time) and the labels it builds.
- The tool-profile editor before its first load (no config or no staged copy), secrets, the catalog and the probe; the registry's checks of names, URLs and secrets are one `permitted` flag.
- The registry's revision stands beside the configuration; its version number and the change list are not modelled.
- Numbers are printed tokens, compared as text; values JSON cannot hold other than `undefined` are not modelled.
- ExtractJson: `json.loads` is a parameter; the exceptions it may raise other than a decode error are not modelled.
- The regular expressions of the matchers and the classifiers: normalizers, families, signatures and whether a text reads as a human message are parameters or fields.
- `score_pair` on rows that are not objects, and verdicts other than strings.
- NextInterval: a base that changes while the hook is mounted, and a stored interval that is not a finite number.
- The `inFlight` state that mirrors the hook's ref for display, and the resync of the interval's timer after a failure whose error object is identical to the last one.
- Parse: unreadable lines and side chains are skipped records; the byte limit only shortens the list of records.
- Segment: the family string and the duration of an episode, and the notebook's totals over many transcripts.
- Rounding: times, scores, weights and metrics are real numbers, the discount is any positive decreasing one.
- Proxy labels, candidate masks, BM25, embeddings, clustering and confidence intervals: library calls, or members without a law beyond their bodies.
- Rrf: one row of each score matrix, all rows being alike.
- Which body a probe carries and what a reply says; a worker that dies from an exception between its locked blocks.
- EndsAtZero: an exception that escapes `send` would leave the counter raised; the model has `send` return, as its handlers intend.
- SendChunked: a step of zero or less, which the loop does not accept or sends nothing for.
- IndexIsFiltering: missing values that become the text of a null, and the three nested dictionaries, which are one map on the three keys.
