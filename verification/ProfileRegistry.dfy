/**
 Any number of editors writing one tool-profile registry with compare-and-swap on its
 revision: requests may be delayed, reordered, dropped or delivered twice.
 */
module ProfileRegistry {
  import opened Wrappers
  import opened JsonText
  import opened ToolProfiles

  /** One open panel: the last read, its revision, and the copy being edited. */
  datatype Editor = Editor(seen: seq<Member>, seenRevision: nat, staged: Staged)

  /** A PUT on its way: the patch and the revision it expects, with the inputs it was built from. */
  datatype Request = Request(patch: seq<Member>, expected: nat, base: seq<Member>, staged: Staged)

  datatype State = State(config: seq<Member>, revision: nat, editors: map<nat, Editor>, sent: seq<Request>)

  datatype Action =
    | Read(e: nat)                                  // load the panel, or reload after an apply
    | Stage(e: nat, staged: Staged)                 // any edit of the working copy
    | Send(e: nat)                                  // press Apply
    | Deliver(i: nat, permitted: bool)              // the server handles the i-th request
    | Write(patch: seq<Member>, permitted: bool)    // another writer (the CLI), with no expected revision

  /**
   What the server would store; `permitted` stands for the validations on names, URLs and secrets.
   That an editor's patch leaves the registry well formed is proved, not demanded.
   */
  predicate Accepts(s: State, a: Action) {
    match a
    case Deliver(i, permitted) =>
      i < |s.sent| && permitted && s.sent[i].expected == s.revision
    case Write(patch, permitted) =>
      permitted && Wf(Obj(patch)) && ConfigOk(MergeInto(s.config, patch))
    case _ => false
  }

  function Step(s: State, a: Action): State {
    match a
    case Read(e) =>
      s.(editors := s.editors[e := Editor(s.config, s.revision, FreshCopy(s.config))])
    case Stage(e, staged) =>
      if e in s.editors && StagedOk(staged) then s.(editors := s.editors[e := s.editors[e].(staged := staged)]) else s
    case Send(e) =>
      if e !in s.editors then s
      else
        var ed := s.editors[e];
        var patch := PatchMembers(ed.staged, ed.seen);
        if patch == [] then s else s.(sent := s.sent + [Request(patch, ed.seenRevision, ed.seen, ed.staged)])
    case Deliver(i, _) =>
      if Accepts(s, a) then s.(config := MergeInto(s.config, s.sent[i].patch), revision := s.revision + 1) else s
    case Write(patch, _) =>
      if Accepts(s, a) then s.(config := MergeInto(s.config, patch), revision := s.revision + 1) else s
  }

  function Run(s: State, actions: seq<Action>): State
    decreases |actions|
  {
    if actions == [] then s else Run(Step(s, actions[0]), actions[1..])
  }

  lemma {:induction false} RunAppend(s: State, actions: seq<Action>, a: Action)
    ensures Run(s, []) == s && Run(s, actions + [a]) == Step(Run(s, actions), a)
    decreases |actions|
  {
    if actions == [] {
      assert [] + [a] == [a];
    } else {
      assert (actions + [a])[1..] == actions[1..] + [a];
      RunAppend(Step(s, actions[0]), actions[1..], a);
    }
  }

  /** A request, the newest one included, is stored exactly when permitted and at the current revision. */
  lemma AcceptedExactly(s: State, i: nat, permitted: bool)
    requires i < |s.sent|
    ensures var t := Step(s, Deliver(i, permitted));
      if permitted && s.sent[i].expected == s.revision
      then t == s.(revision := s.revision + 1, config := MergeInto(s.config, s.sent[i].patch))
      else t == s
  {
  }

  /** What was read at the current revision is the current registry. */
  ghost predicate Fresh(s: State, seen: seq<Member>, revision: nat) {
    revision <= s.revision && (revision == s.revision ==> seen == s.config)
  }

  ghost predicate EditorsOk(s: State) {
    forall e :: e in s.editors ==>
      Fresh(s, s.editors[e].seen, s.editors[e].seenRevision) && StagedOk(s.editors[e].staged)
  }

  predicate RequestOk(r: Request) {
    StagedOk(r.staged) && r.patch == PatchMembers(r.staged, r.base)
  }

  ghost predicate SentOk(s: State) {
    forall i :: 0 <= i < |s.sent| ==> Fresh(s, s.sent[i].base, s.sent[i].expected) && RequestOk(s.sent[i])
  }

  ghost predicate Inv(s: State) {
    ConfigOk(s.config) && EditorsOk(s) && SentOk(s)
  }

  ghost predicate Initial(s: State) {
    ConfigOk(s.config) && s.editors == map[] && s.sent == []
  }

  lemma FreshCopyValid(c: seq<Member>)
    requires ConfigOk(c)
    ensures StagedOk(FreshCopy(c))
  {
    FreshCopyOk(c);
  }

  lemma StepKeepsInv(s: State, a: Action)
    requires Inv(s)
    ensures Inv(Step(s, a))
  {
    StepConfigOk(s, a);
    StepEditorsOk(s, a);
    StepSentOk(s, a);
  }

  lemma StepConfigOk(s: State, a: Action)
    requires Inv(s)
    ensures ConfigOk(Step(s, a).config)
  {
    if a.Deliver? && Accepts(s, a) { DeliveredConfigOk(s, s.sent[a.i]); }
  }

  lemma DeliveredConfigOk(s: State, r: Request)
    requires ConfigOk(s.config) && RequestOk(r) && r.base == s.config
    ensures ConfigOk(MergeInto(s.config, r.patch))
  {
    MergeKeepsConfigOk(r.staged, s.config);
  }

  lemma StepEditorsOk(s: State, a: Action)
    requires ConfigOk(s.config) && EditorsOk(s)
    ensures EditorsOk(Step(s, a))
  {
    if a.Read? {
      FreshCopyValid(s.config);
      EditorsAfterRead(s, a.e, FreshCopy(s.config));
    }
  }

  lemma EditorsAfterRead(s: State, e: nat, staged: Staged)
    requires EditorsOk(s) && StagedOk(staged)
    ensures EditorsOk(s.(editors := s.editors[e := Editor(s.config, s.revision, staged)]))
  {
  }

  lemma StepSentOk(s: State, a: Action)
    requires EditorsOk(s) && SentOk(s)
    ensures SentOk(Step(s, a))
  {
    if a.Send? && a.e in s.editors {
      var ed := s.editors[a.e];
      assert RequestOk(Request(PatchMembers(ed.staged, ed.seen), ed.seenRevision, ed.seen, ed.staged));
    }
  }

  lemma {:induction false} RunKeepsInv(s: State, actions: seq<Action>)
    requires Inv(s)
    ensures Inv(Run(s, actions))
    decreases |actions|
  {
    if actions != [] {
      StepKeepsInv(s, actions[0]);
      RunKeepsInv(Step(s, actions[0]), actions[1..]);
    }
  }

  /**
   In every run, an accepted PUT lands on the very registry it was diffed against: each path the
   editor changed takes its staged value, every other path keeps what the registry held just
   before, whoever wrote it.
   */
  lemma AcceptedPutLosesNothing(s: State, actions: seq<Action>, i: nat, permitted: bool, p: Path)
    requires Initial(s) && Editable(p)
    requires Accepts(Run(s, actions), Deliver(i, permitted))
    ensures var before := Run(s, actions);
            var after := Step(before, Deliver(i, permitted));
            var r := before.sent[i];
            && r.base == before.config
            && Stored(after.config, p) ==
                 (if !Dirty(r.staged, before.config, p) then Stored(before.config, p)
                  else if StagedValue(r.staged, p) == Null then Undef else StagedValue(r.staged, p))
  {
    RunKeepsInv(s, actions);
    var before := Run(s, actions);
    PatchAppliesExactly(before.sent[i].staged, before.config, p);
  }

  /** The state once an editor has read, staged a copy and pressed Apply, with nobody in between. */
  function Applied(s: State, e: nat, staged: Staged): State {
    Step(Step(Step(s, Read(e)), Stage(e, staged)), Send(e))
  }

  lemma AppliedSends(s: State, e: nat, staged: Staged)
    requires StagedOk(staged)
    ensures var t, patch := Applied(s, e, staged), PatchMembers(staged, s.config);
      && t.config == s.config && t.revision == s.revision
      && t.sent == if patch == [] then s.sent else s.sent + [Request(patch, s.revision, s.config, staged)]
  {
    var read := Step(s, Read(e));
    var edited := Step(read, Stage(e, staged));
    assert edited.editors[e] == Editor(s.config, s.revision, staged);
  }

  /**
   From any reachable state, applying sends one request if something is dirty, and none otherwise;
   permitted, that request moves the revision on by one and every path to what was staged.
   */
  lemma ApplyGoesThrough(s: State, e: nat, staged: Staged, p: Path)
    requires Inv(s) && StagedOk(staged) && Editable(p)
    ensures var t := Applied(s, e, staged);
      if AllDirty(staged, s.config) == [] then t.sent == s.sent
      else
        var after := Step(t, Deliver(|s.sent|, true));
        && |t.sent| == |s.sent| + 1 && after.revision == s.revision + 1
        && Stored(after.config, p) ==
             (if !Dirty(staged, s.config, p) then Stored(s.config, p)
              else if StagedValue(staged, p) == Null then Undef else StagedValue(staged, p))
  {
    AppliedSends(s, e, staged);
    EmptyPatchMeansClean(staged, s.config);
    if AllDirty(staged, s.config) != [] {
      AcceptedExactly(Applied(s, e, staged), |s.sent|, true);
      PatchAppliesExactly(staged, s.config, p);
    }
  }

  /** Time only moves the revision on, and a request stays what it was. */
  lemma {:induction false} RevisionGrows(s: State, i: nat, actions: seq<Action>)
    requires i < |s.sent|
    ensures var t := Run(s, actions); t.revision >= s.revision && i < |t.sent| && t.sent[i] == s.sent[i]
    decreases |actions|
  {
    if actions != [] {
      var t := Step(s, actions[0]);
      assert i < |t.sent| && t.sent[i] == s.sent[i] && t.revision >= s.revision;
      RevisionGrows(t, i, actions[1..]);
    }
  }

  /**
   Once a request was accepted, every request that expects the same revision is refused, however
   late it arrives: the same one delivered again, or that of another editor who read as much.
   */
  lemma AcceptedOnce(s: State, i: nat, permitted: bool, actions: seq<Action>, j: nat, again: bool)
    requires Accepts(s, Deliver(i, permitted))
    requires j < |s.sent| && s.sent[j].expected == s.sent[i].expected
    ensures !Accepts(Run(Step(s, Deliver(i, permitted)), actions), Deliver(j, again))
  {
    RevisionGrows(Step(s, Deliver(i, permitted)), j, actions);
  }

  // ----- paths nobody writes

  /** The keys a path goes through. */
  function KeysOf(p: Path): seq<string> {
    match p
    case Field(f) => ["mcp", "thoughtmap", f]
    case Global => ["globalTools"]
    case Squad(q) => ["squadTools", q]
    case Lead(q) => ["leadTools", q]
  }

  /** Does a patch say something about what stands under the keys, or about an object on the way? */
  predicate Reaches(patch: Json, keys: seq<string>)
    decreases |keys|
  {
    patch.Obj? && keys != [] ==>
      keys[0] in Keys(patch.members) && Reaches(Get(patch.members, keys[0]), keys[1..])
  }

  function Under(v: Json, keys: seq<string>): Json
    decreases |keys|
  {
    if keys == [] then v else Under(At(v, keys[0]), keys[1..])
  }

  /** The objects on the way down the keys have no key twice. */
  predicate DistinctAlong(v: Json, keys: seq<string>)
    decreases |keys|
  {
    keys != [] ==> (v.Obj? ==> DistinctKeys(v.members)) && DistinctAlong(At(v, keys[0]), keys[1..])
  }

  /** Merging leaves alone what the patch does not reach. */
  lemma {:induction false} UnreachedKept(was: Json, patch: Json, keys: seq<string>)
    requires Wf(patch) && !Reaches(patch, keys) && DistinctAlong(was, keys)
    ensures Under(MergeValue(was, patch), keys) == Under(was, keys)
    decreases |keys|
  {
    var k := keys[0];
    MergeAt(was, patch.members, k);
    if k in Keys(patch.members) {
      var v := Get(patch.members, k);
      assert Member(k, v) in patch.members;
      UnreachedKept(At(was, k), v, keys[1..]);
    }
  }

  lemma StoredUnder(c: seq<Member>, p: Path)
    ensures Stored(c, p) == Under(Obj(c), KeysOf(p))
    ensures ConfigOk(c) ==> DistinctAlong(Obj(c), KeysOf(p))
  {
    var keys := KeysOf(p);
    UnderNext(Obj(c), keys);
    match p
    case Field(f) =>
      assert keys[1..] == ["thoughtmap", f];
      UnderNext(Get(c, "mcp"), keys[1..]);
      assert keys[1..][1..] == [f];
      UnderNext(At(Get(c, "mcp"), "thoughtmap"), [f]);
    case Global =>
    case Squad(q) =>
      assert keys[1..] == [q];
      UnderNext(Get(c, "squadTools"), [q]);
    case Lead(q) =>
      assert keys[1..] == [q];
      UnderNext(Get(c, "leadTools"), [q]);
  }

  lemma UnderNext(v: Json, keys: seq<string>)
    requires keys != []
    ensures Under(v, keys) == Under(At(v, keys[0]), keys[1..])
    ensures |keys| == 1 ==> keys[1..] == [] && Under(v, keys) == At(v, keys[0])
    ensures DistinctAlong(v, keys) <==> (v.Obj? ==> DistinctKeys(v.members)) && DistinctAlong(At(v, keys[0]), keys[1..])
    ensures DistinctAlong(v, [])
  {
  }

  /** Does the action, accepted here, write the path: an editor's dirty path, or a key of the patch? */
  ghost predicate Aims(s: State, a: Action, p: Path) {
    Accepts(s, a) &&
    if a.Write? then Reaches(Obj(a.patch), KeysOf(p)) else Dirty(s.sent[a.i].staged, s.sent[a.i].base, p)
  }

  ghost predicate NobodyAims(s: State, actions: seq<Action>, p: Path)
    decreases |actions|
  {
    actions != [] ==> !Aims(s, actions[0], p) && NobodyAims(Step(s, actions[0]), actions[1..], p)
  }

  lemma WriteKeepsPath(c: seq<Member>, patch: seq<Member>, p: Path)
    requires ConfigOk(c) && Wf(Obj(patch)) && !Reaches(Obj(patch), KeysOf(p))
    ensures Stored(MergeInto(c, patch), p) == Stored(c, p)
  {
    StoredUnder(c, p);
    StoredUnder(MergeInto(c, patch), p);
    UnreachedKept(Obj(c), Obj(patch), KeysOf(p));
  }

  lemma StepKeepsPath(s: State, a: Action, p: Path)
    requires Inv(s) && Editable(p) && !Aims(s, a, p)
    ensures Stored(Step(s, a).config, p) == Stored(s.config, p)
  {
    if Accepts(s, a) {
      if a.Deliver? {
        PatchAppliesExactly(s.sent[a.i].staged, s.config, p);
      } else {
        WriteKeepsPath(s.config, a.patch, p);
      }
    }
  }

  /** A path keeps its value through any run in which no accepted write, the CLI's included, held it. */
  lemma {:induction false} UnaimedPathKept(s: State, actions: seq<Action>, p: Path)
    requires Inv(s) && Editable(p) && NobodyAims(s, actions, p)
    ensures Stored(Run(s, actions).config, p) == Stored(s.config, p)
    decreases |actions|
  {
    if actions != [] {
      var a := actions[0];
      StepKeepsInv(s, a);
      StepKeepsPath(s, a, p);
      UnaimedPathKept(Step(s, a), actions[1..], p);
    }
  }

  // ----- what every run keeps of the lead's tools

  /** The display names what a launch resolves. */
  predicate Resolves(c: seq<Member>, q: string) {
    EffectiveLead(c, q).0 == ResolvedLead(c, q)
  }

  /** A merge deletes or stores a value; it never stores a null. */
  lemma MergeAddsNoNull(was: Json, v: Json, q: string)
    requires Wf(v) && (was.Obj? ==> DistinctKeys(was.members)) && At(was, q) != Null
    ensures At(MergeValue(was, v), q) != Null
  {
    if v.Obj? { MergeAt(was, v.members, q); }
  }

  lemma WriteAddsNoNull(c: seq<Member>, patch: seq<Member>, q: string)
    requires ConfigOk(c) && Wf(Obj(patch)) && NoNullLists(c, q)
    ensures NoNullLists(MergeInto(c, patch), q)
  {
    forall key | key in {"leadTools", "squadTools"} ensures At(Get(MergeInto(c, patch), key), q) != Null {
      MergeGet(c, patch, key);
      if key in Keys(patch) {
        assert Member(key, Get(patch, key)) in patch;
        MergeAddsNoNull(Get(c, key), Get(patch, key), q);
      }
    }
  }

  lemma StepAddsNoNull(s: State, a: Action, q: string)
    requires Inv(s) && NoNullLists(s.config, q)
    ensures NoNullLists(Step(s, a).config, q)
  {
    if Accepts(s, a) {
      if a.Deliver? {
        AppliedLeadIsResolved(s.sent[a.i].staged, s.config, q);
      } else {
        WriteAddsNoNull(s.config, a.patch, q);
      }
    }
  }

  /**
   From a registry that stores no null above the global list, as the built-in one, every run of
   editors and other writers leaves the displayed lead tools those that a launch resolves.
   */
  lemma {:induction false} RunResolvesLead(s: State, actions: seq<Action>, q: string)
    requires Inv(s) && NoNullLists(s.config, q)
    ensures Resolves(Run(s, actions).config, q) && NoNullLists(Run(s, actions).config, q)
    decreases |actions|
  {
    if actions == [] {
      EffectiveLeadIsResolved(s.config, q);
    } else {
      StepKeepsInv(s, actions[0]);
      StepAddsNoNull(s, actions[0], q);
      RunResolvesLead(Step(s, actions[0]), actions[1..], q);
    }
  }

  /** A registry is well formed by its four sections. */
  lemma SectionsDecide(c: seq<Member>, d: seq<Member>)
    requires ConfigOk(c) && DistinctKeys(d) && Get(d, "mcp") == Get(c, "mcp")
    requires Get(d, "globalTools") == Get(c, "globalTools") || ListValue(Get(d, "globalTools"))
    requires Get(d, "squadTools") == Get(c, "squadTools")
    requires || Get(d, "leadTools") == Get(c, "leadTools")
             || (Get(d, "leadTools").Obj? && ListMap(Get(d, "leadTools").members))
    ensures ConfigOk(d)
  {
  }

  lemma MergeOne(c: seq<Member>, key: string, v: Json, k: string)
    requires DistinctKeys(c)
    ensures var d := MergeInto(c, [Member(key, v)]);
            DistinctKeys(d) && Get(d, k) == if k == key then MergeValue(Get(c, key), v) else Get(c, k)
  {
    var patch := [Member(key, v)];
    MergeGet(c, patch, k);
    assert patch[0] in patch;
    GetMember(patch, patch[0]);
  }

  const NO_TOOLS := [Member("globalTools", Arr([]))]

  /** Listing no tools for everyone is a write the registry takes. */
  lemma WriteGlobal(c: seq<Member>, q: string)
    requires ConfigOk(c)
    ensures Wf(Obj(NO_TOOLS)) && ConfigOk(MergeInto(c, NO_TOOLS))
    ensures var d := MergeInto(c, NO_TOOLS);
            && Stored(d, Global) == Arr([])
            && Stored(d, Lead(q)) == Stored(c, Lead(q)) && Stored(d, Squad(q)) == Stored(c, Squad(q))
  {
    assert |"mcp"| == 3 && |"globalTools"| == 11 && |"squadTools"| == 10 && |"leadTools"| == 9;
    MergeOne(c, "globalTools", Arr([]), "mcp");
    MergeOne(c, "globalTools", Arr([]), "globalTools");
    MergeOne(c, "globalTools", Arr([]), "squadTools");
    MergeOne(c, "globalTools", Arr([]), "leadTools");
    SectionsDecide(c, MergeInto(c, NO_TOOLS));
  }

  function NoLead(q: string): seq<Member> {
    [Member("leadTools", Obj([Member(q, Null)]))]
  }

  lemma DropsKey(was: Json, q: string)
    requires ListMap(MembersOf(was))
    ensures var now := MergeValue(was, Obj([Member(q, Null)]));
            now.Obj? && ListMap(now.members) && At(now, q) == Undef
  {
    var ms, patch := MembersOf(was), [Member(q, Null)];
    assert patch[1..] == [];
    assert MergeInto(ms, patch) == MergeInto(Without(ms, q), []);
    WithoutGet(ms, q, q);
  }

  /** So is taking a lead's list away. */
  lemma WriteNoLead(c: seq<Member>, q: string)
    requires ConfigOk(c)
    ensures Wf(Obj(NoLead(q))) && ConfigOk(MergeInto(c, NoLead(q)))
    ensures var d := MergeInto(c, NoLead(q));
            Stored(d, Lead(q)) == Undef && Stored(d, Squad(q)) == Stored(c, Squad(q))
  {
    NoLeadGets(c, q);
    DropsKey(Get(c, "leadTools"), q);
    SectionsDecide(c, MergeInto(c, NoLead(q)));
  }

  lemma NoLeadGets(c: seq<Member>, q: string)
    requires DistinctKeys(c)
    ensures var d := MergeInto(c, NoLead(q));
      && DistinctKeys(d) && Get(d, "mcp") == Get(c, "mcp") && Get(d, "globalTools") == Get(c, "globalTools")
      && Get(d, "squadTools") == Get(c, "squadTools")
      && Get(d, "leadTools") == MergeValue(Get(c, "leadTools"), Obj([Member(q, Null)]))
  {
    var v := Obj([Member(q, Null)]);
    assert |"mcp"| == 3 && |"globalTools"| == 11 && |"squadTools"| == 10 && |"leadTools"| == 9;
    MergeOne(c, "leadTools", v, "mcp");
    MergeOne(c, "leadTools", v, "globalTools");
    MergeOne(c, "leadTools", v, "squadTools");
    MergeOne(c, "leadTools", v, "leadTools");
  }

  lemma RunWrite(s: State, patch: seq<Member>, actions: seq<Action>)
    requires Wf(Obj(patch)) && ConfigOk(MergeInto(s.config, patch))
    ensures var t := s.(config := MergeInto(s.config, patch), revision := s.revision + 1);
            Run(s, [Write(patch, true)] + actions) == Run(t, actions)
  {
    RunCons(s, Write(patch, true), actions);
    WriteTaken(s, patch);
  }

  lemma RunCons(s: State, a: Action, actions: seq<Action>)
    ensures Run(s, [a] + actions) == Run(Step(s, a), actions)
  {
    assert ([a] + actions)[1..] == actions;
  }

  lemma WriteTaken(s: State, patch: seq<Member>)
    requires Wf(Obj(patch)) && ConfigOk(MergeInto(s.config, patch))
    ensures Step(s, Write(patch, true)) == s.(config := MergeInto(s.config, patch), revision := s.revision + 1)
  {
  }

  /** Once the global layer lists tools, a null above it hides them. */
  lemma GlobalShowsNull(s: State, q: string)
    requires ConfigOk(s.config)
    requires || Stored(s.config, Lead(q)) == Null
             || (Stored(s.config, Lead(q)) == Undef && Stored(s.config, Squad(q)) == Null)
    ensures !Resolves(Run(s, [Write(NO_TOOLS, true)] + []).config, q)
  {
    WriteGlobal(s.config, q);
    RunWrite(s, NO_TOOLS, []);
    EffectiveLeadIsResolved(MergeInto(s.config, NO_TOOLS), q);
  }

  /** Where the lead's own list covers a squad's null, it is taken away first. */
  lemma NullUncovered(s: State, q: string)
    requires ConfigOk(s.config) && Stored(s.config, Squad(q)) == Null
    ensures !Resolves(Run(s, [Write(NoLead(q), true)] + ([Write(NO_TOOLS, true)] + [])).config, q)
  {
    WriteNoLead(s.config, q);
    RunWrite(s, NoLead(q), [Write(NO_TOOLS, true)] + []);
    GlobalShowsNull(s.(config := MergeInto(s.config, NoLead(q)), revision := s.revision + 1), q);
  }

  /**
   Exactly such registries keep display and launch in agreement over all runs: from any other, two
   writes at most make a stored null hide tools.
   */
  lemma EveryRunResolvesLead(s: State, q: string)
    requires Inv(s)
    ensures (forall actions :: Resolves(Run(s, actions).config, q)) <==> NoNullLists(s.config, q)
  {
    if NoNullLists(s.config, q) {
      forall actions ensures Resolves(Run(s, actions).config, q) { RunResolvesLead(s, actions, q); }
    } else if Stored(s.config, Lead(q)) == Null {
      GlobalShowsNull(s, q);
    } else {
      NullUncovered(s, q);
    }
  }
}
