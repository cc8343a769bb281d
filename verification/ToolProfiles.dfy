/**
 The tool-profile working copy: a staged copy of the registry, the sparse patch that
 describes it, the server's deep merge in which null deletes, and compare-and-swap on the
 revision. The registry and the patch are JSON objects; only the shape the registry's own
 validation guarantees is assumed of them.
 */
module ToolProfiles {
  import opened Wrappers
  import opened JsonText
  import opened CanonicalJson

  const FIELDS := ["enabled", "baseUrl", "ollamaBaseUrl", "embeddingModel", "clustersPath"]

  // ----- objects with updatable keys

  /** `object?.[key]` on any value. */
  function At(j: Json, key: string): Json {
    if j.Obj? then Get(j.members, key) else Undef
  }

  /** `value ?? fallback`. */
  function Or(value: Json, fallback: Json): Json {
    if value == Undef || value == Null then fallback else value
  }

  function Without(ms: seq<Member>, key: string): (r: seq<Member>)
    ensures forall m :: m in r <==> m in ms && m.key != key
  {
    if ms == [] then []
    else (if ms[0].key == key then [] else [ms[0]]) + Without(ms[1..], key)
  }

  /** `object[key] = value`, the key keeping its place when it has one. */
  function With(ms: seq<Member>, key: string, value: Json): seq<Member> {
    if ms == [] then [Member(key, value)]
    else if ms[0].key == key then [Member(key, value)] + ms[1..]
    else [ms[0]] + With(ms[1..], key, value)
  }

  lemma {:induction false} WithoutDistinct(ms: seq<Member>, key: string)
    requires DistinctKeys(ms)
    ensures DistinctKeys(Without(ms, key))
  {
    if ms != [] {
      var tail := ms[1..];
      assert forall i :: 0 <= i < |tail| ==> tail[i] == ms[i + 1];
      WithoutDistinct(tail, key);
      assert forall m :: m in Without(tail, key) ==> m in tail;
    }
  }

  lemma WithoutGet(ms: seq<Member>, key: string, k: string)
    requires DistinctKeys(ms)
    ensures DistinctKeys(Without(ms, key))
    ensures Get(Without(ms, key), k) == if k == key then Undef else Get(ms, k)
  {
    var r := Without(ms, key);
    WithoutDistinct(ms, key);
    if k in Keys(ms) && k != key {
      assert Member(k, Get(ms, k)) in r;
      GetMember(r, Member(k, Get(ms, k)));
    } else {
      assert k !in Keys(r);
    }
  }

  lemma {:induction false} WithGet(ms: seq<Member>, key: string, value: Json, k: string)
    requires DistinctKeys(ms)
    ensures DistinctKeys(With(ms, key, value))
    ensures Get(With(ms, key, value), k) == if k == key then value else Get(ms, k)
  {
    WithDistinct(ms, key, value);
    if ms != [] {
      TailDistinct(ms);
      WithGet(ms[1..], key, value, k);
      var r := With(ms, key, value);
      assert r[1..] == if ms[0].key == key then ms[1..] else With(ms[1..], key, value);
    }
  }

  lemma TailDistinct(ms: seq<Member>)
    requires DistinctKeys(ms) && ms != []
    ensures DistinctKeys(ms[1..]) && forall m :: m in ms[1..] ==> m.key != ms[0].key
  {
  }

  lemma {:induction false} WithDistinct(ms: seq<Member>, key: string, value: Json)
    requires DistinctKeys(ms)
    ensures DistinctKeys(With(ms, key, value))
    ensures forall m :: m in With(ms, key, value) ==> m.key == key || m in ms
  {
    if ms != [] {
      TailDistinct(ms);
      WithDistinct(ms[1..], key, value);
    }
  }

  // ----- the server's deep merge

  /** What a patch value makes of the value it meets; `Undef` means the key is deleted. */
  function MergeValue(was: Json, v: Json): Json
    decreases v, 1
  {
    match v
    case Null => Undef
    case Obj(patch) => Obj(MergeInto(if was.Obj? then was.members else [], patch))
    case _ => v
  }

  /** `mergeInto`: null deletes, objects recurse, anything else replaces. */
  function MergeInto(target: seq<Member>, patch: seq<Member>): seq<Member>
    decreases patch, 0
  {
    if patch == [] then target
    else
      var key := patch[0].key;
      var v := MergeValue(Get(target, key), patch[0].value);
      MergeInto(if v == Undef then Without(target, key) else With(target, key, v), patch[1..])
  }

  lemma {:induction false} MergeGet(target: seq<Member>, patch: seq<Member>, k: string)
    requires DistinctKeys(target) && DistinctKeys(patch)
    ensures DistinctKeys(MergeInto(target, patch))
    ensures Get(MergeInto(target, patch), k) ==
            if k in Keys(patch) then MergeValue(Get(target, k), Get(patch, k)) else Get(target, k)
    decreases patch
  {
    if patch != [] {
      var key := patch[0].key;
      var v := MergeValue(Get(target, key), patch[0].value);
      var next := if v == Undef then Without(target, key) else With(target, key, v);
      WithoutGet(target, key, k);
      WithGet(target, key, v, k);
      assert forall i :: 0 <= i < |patch[1..]| ==> patch[1..][i] == patch[i + 1];
      MergeGet(next, patch[1..], k);
      KeysCons(patch);
      assert key !in Keys(patch[1..]);
    }
  }

  /** Merging an object into any value, seen key by key. */
  lemma MergeAt(was: Json, patch: seq<Member>, k: string)
    requires DistinctKeys(patch) && (was.Obj? ==> DistinctKeys(was.members))
    ensures At(MergeValue(was, Obj(patch)), k) ==
            if k in Keys(patch) then MergeValue(At(was, k), Get(patch, k)) else At(was, k)
  {
    MergeGet(if was.Obj? then was.members else [], patch, k);
  }

  // ----- registry and staged copy

  /** null = inherit, [] = explicit none, [names] = explicit list. */
  predicate ListValue(j: Json) {
    j == Null || (j.Arr? && forall i :: 0 <= i < |j.items| ==> j.items[i].Str?)
  }

  predicate ListMap(ms: seq<Member>) {
    DistinctKeys(ms) && forall m :: m in ms ==> ListValue(m.value)
  }

  /** The shape `validateToolProfiles` guarantees, of which only the types matter here. */
  predicate ConfigOk(c: seq<Member>) {
    && DistinctKeys(c)
    && (Get(c, "mcp") != Undef ==> Get(c, "mcp").Obj? && DistinctKeys(Get(c, "mcp").members))
    && (At(Get(c, "mcp"), "thoughtmap") != Undef ==>
          && At(Get(c, "mcp"), "thoughtmap").Obj?
          && DistinctKeys(At(Get(c, "mcp"), "thoughtmap").members))
    && (forall f :: f in FIELDS ==> FieldValue(At(At(Get(c, "mcp"), "thoughtmap"), f)))
    && (Get(c, "globalTools") == Undef || ListValue(Get(c, "globalTools")))
    && (Get(c, "squadTools") != Undef ==> Get(c, "squadTools").Obj? && ListMap(Get(c, "squadTools").members))
    && (Get(c, "leadTools") != Undef ==> Get(c, "leadTools").Obj? && ListMap(Get(c, "leadTools").members))
  }

  predicate FieldValue(j: Json) {
    j == Undef || j.Bool? || j.Str?
  }

  datatype Staged = Staged(thoughtmap: seq<Member>, globalTools: Json, squadTools: seq<Member>, leadTools: seq<Member>)

  /** What the editor can stage: a switch or a text (or null) per field, list values per layer. */
  predicate StagedOk(s: Staged) {
    && DistinctKeys(s.thoughtmap)
    && (forall f :: f in FIELDS ==>
          Get(s.thoughtmap, f) == Null || Get(s.thoughtmap, f).Bool? || Get(s.thoughtmap, f).Str?)
    && ListValue(s.globalTools)
    && ListMap(s.squadTools)
    && ListMap(s.leadTools)
  }

  /** The places the editor can change. */
  datatype Path = Field(f: string) | Global | Squad(q: string) | Lead(q: string)

  predicate Editable(p: Path) {
    p.Field? ==> p.f in FIELDS
  }

  function DefaultFor(f: string): Json {
    if f == "enabled" then Bool(false) else Str("")
  }

  /** The five fields; one the registry does not store shows off for the switch and empty for a text. */
  lemma FieldsShown(c: seq<Member>, f: string)
    requires ConfigOk(c)
    ensures Editable(Field(f)) <==>
            f == "enabled" || f == "baseUrl" || f == "ollamaBaseUrl" || f == "embeddingModel" || f == "clustersPath"
    ensures Editable(Field(f)) && Stored(c, Field(f)) != Undef ==> ServerValue(c, Field(f)) == Stored(c, Field(f))
    ensures Stored(c, Field(f)) == Undef ==>
              ServerValue(c, Field(f)) == if f == "enabled" then Bool(false) else Str("")
  {
    assert FIELDS[0] in FIELDS && FIELDS[1] in FIELDS && FIELDS[2] in FIELDS;
    assert FIELDS[3] in FIELDS && FIELDS[4] in FIELDS;
    if f in FIELDS { assert FieldValue(Stored(c, Field(f))); }
  }

  /** What the registry stores at a path, `Undef` when nothing. */
  function Stored(c: seq<Member>, p: Path): Json {
    match p
    case Field(f) => At(At(Get(c, "mcp"), "thoughtmap"), f)
    case Global => Get(c, "globalTools")
    case Squad(q) => At(Get(c, "squadTools"), q)
    case Lead(q) => At(Get(c, "leadTools"), q)
  }

  /** What the editor shows for it: absent counts as the default, or as inherit. */
  function ServerValue(c: seq<Member>, p: Path): Json {
    Or(Stored(c, p), if p.Field? then DefaultFor(p.f) else Null)
  }

  function StagedValue(s: Staged, p: Path): Json {
    match p
    case Field(f) => Get(s.thoughtmap, f)
    case Global => Or(s.globalTools, Null)
    case Squad(q) => Or(Get(s.squadTools, q), Null)
    case Lead(q) => Or(Get(s.leadTools, q), Null)
  }

  predicate SameValue(a: Json, b: Json) {
    StableStringify(a) == StableStringify(b)
  }

  /** `===`: arrays and objects are equal only to themselves, never to another read of them. */
  predicate StrictEqual(a: Json, b: Json) {
    a == b && !a.Arr? && !a.Obj?
  }

  predicate Dirty(s: Staged, c: seq<Member>, p: Path) {
    if p.Field? then !StrictEqual(StagedValue(s, p), ServerValue(c, p))
    else !SameValue(StagedValue(s, p), ServerValue(c, p))
  }

  /** The keys of two objects, each once, those of the first first. */
  function UnionKeys(a: seq<Member>, b: seq<Member>): seq<string> {
    KeySeq(a) + NewKeys(KeySeq(b), Keys(a))
  }

  function NewKeys(ks: seq<string>, seen: set<string>): (r: seq<string>)
    ensures forall k :: k in r <==> k in ks && k !in seen
  {
    if ks == [] then [] else (if ks[0] in seen then [] else [ks[0]]) + NewKeys(ks[1..], seen)
  }

  function MembersOf(j: Json): seq<Member> {
    if j.Obj? then j.members else []
  }

  function SquadKeys(s: Staged, c: seq<Member>): seq<string> {
    UnionKeys(s.squadTools, MembersOf(Get(c, "squadTools")))
  }

  function LeadKeys(s: Staged, c: seq<Member>): seq<string> {
    UnionKeys(s.leadTools, MembersOf(Get(c, "leadTools")))
  }

  datatype Layer = Fields | Squads | Leads

  function PathIn(layer: Layer, name: string): Path {
    match layer
    case Fields => Field(name)
    case Squads => Squad(name)
    case Leads => Lead(name)
  }

  /** The dirty names of one layer, in the order given. */
  function DirtyNames(s: Staged, c: seq<Member>, layer: Layer, names: seq<string>): (r: seq<string>)
    ensures forall n :: n in r <==> n in names && Dirty(s, c, PathIn(layer, n))
  {
    if names == [] then []
    else
      var rest := DirtyNames(s, c, layer, names[..|names| - 1]);
      var last := names[|names| - 1];
      if Dirty(s, c, PathIn(layer, last)) then rest + [last] else rest
  }

  function Paths(layer: Layer, names: seq<string>): seq<Path> {
    seq(|names|, i requires 0 <= i < |names| => PathIn(layer, names[i]))
  }

  function Patched(s: Staged, layer: Layer, names: seq<string>): seq<Member> {
    seq(|names|, i requires 0 <= i < |names| => Member(names[i], StagedValue(s, PathIn(layer, names[i]))))
  }

  function PathsOf(fields: seq<string>, global: bool, squads: seq<string>, leads: seq<string>): seq<Path> {
    Paths(Fields, fields) + (if global then [Global] else []) + Paths(Squads, squads) + Paths(Leads, leads)
  }

  function AllDirty(s: Staged, c: seq<Member>): seq<Path> {
    PathsOf(DirtyNames(s, c, Fields, FIELDS), Dirty(s, c, Global),
            DirtyNames(s, c, Squads, SquadKeys(s, c)), DirtyNames(s, c, Leads, LeadKeys(s, c)))
  }

  method DirtyOfLayer(s: Staged, c: seq<Member>, layer: Layer, names: seq<string>) returns (out: seq<string>)
    ensures out == DirtyNames(s, c, layer, names)
  {
    out := [];
    for i := 0 to |names|
      invariant out == DirtyNames(s, c, layer, names[..i])
    {
      assert names[..i + 1][..i] == names[..i];
      if Dirty(s, c, PathIn(layer, names[i])) { out := out + [names[i]]; }
    }
    assert names[..|names|] == names;
  }

  /** `dirtyPaths`, in its own order: fields, global, squads, leads. */
  method DirtyPaths(s: Staged, c: seq<Member>) returns (out: seq<Path>)
    ensures out == AllDirty(s, c)
  {
    var fields := DirtyOfLayer(s, c, Fields, FIELDS);
    var squads := DirtyOfLayer(s, c, Squads, SquadKeys(s, c));
    var leads := DirtyOfLayer(s, c, Leads, LeadKeys(s, c));
    out := Paths(Fields, fields);
    if Dirty(s, c, Global) { out := out + [Global]; }
    out := out + Paths(Squads, squads) + Paths(Leads, leads);
  }

  /** A key that is set only when there is something to set. */
  function Entry(key: string, value: Option<Json>): seq<Member> {
    if value.None? then [] else [Member(key, value.value)]
  }

  function NonEmpty(ms: seq<Member>): Option<Json> {
    if ms == [] then None else Some(Obj(ms))
  }

  function McpSection(s: Staged, fields: seq<string>): Option<Json> {
    NonEmpty(Entry("thoughtmap", NonEmpty(Patched(s, Fields, fields))))
  }

  function GlobalSection(s: Staged, global: bool): Option<Json> {
    if global then Some(StagedValue(s, Global)) else None
  }

  function PatchOf(s: Staged, fields: seq<string>, global: bool, squads: seq<string>, leads: seq<string>): seq<Member> {
    Entry("mcp", McpSection(s, fields))
    + (Entry("globalTools", GlobalSection(s, global))
       + (Entry("squadTools", NonEmpty(Patched(s, Squads, squads)))
          + (Entry("leadTools", NonEmpty(Patched(s, Leads, leads))) + [])))
  }

  /** The sparse patch: only what is dirty, each layer only when it has something. */
  function PatchMembers(s: Staged, c: seq<Member>): seq<Member> {
    PatchOf(s, DirtyNames(s, c, Fields, FIELDS), Dirty(s, c, Global),
            DirtyNames(s, c, Squads, SquadKeys(s, c)), DirtyNames(s, c, Leads, LeadKeys(s, c)))
  }

  method AssemblePatch(s: Staged, fields: seq<string>, global: bool, squads: seq<string>, leads: seq<string>)
    returns (patch: Option<seq<Member>>)
    ensures var out := PatchOf(s, fields, global, squads, leads); patch == if out == [] then None else Some(out)
  {
    var mcp := Entry("mcp", McpSection(s, fields));
    var out := mcp;
    var entry := Entry("globalTools", GlobalSection(s, global));
    out := out + entry;
    var squadEntry := Entry("squadTools", NonEmpty(Patched(s, Squads, squads)));
    out := out + squadEntry;
    var leadEntry := Entry("leadTools", NonEmpty(Patched(s, Leads, leads)));
    out := out + leadEntry;
    assert out == mcp + (entry + (squadEntry + (leadEntry + [])));
    patch := if out != [] then Some(out) else None;
  }

  /** `buildPatch`: nothing to send when nothing is dirty. */
  method BuildPatch(s: Staged, c: seq<Member>) returns (patch: Option<seq<Member>>)
    ensures patch == if PatchMembers(s, c) == [] then None else Some(PatchMembers(s, c))
  {
    var fields := DirtyOfLayer(s, c, Fields, FIELDS);
    var squads := DirtyOfLayer(s, c, Squads, SquadKeys(s, c));
    var leads := DirtyOfLayer(s, c, Leads, LeadKeys(s, c));
    patch := AssemblePatch(s, fields, Dirty(s, c, Global), squads, leads);
  }

  // ----- what the patch holds

  lemma {:induction false} NamesDistinct(s: Staged, c: seq<Member>, layer: Layer, names: seq<string>)
    requires Distinct(names)
    ensures Distinct(DirtyNames(s, c, layer, names))
  {
    if names != [] {
      NamesDistinct(s, c, layer, names[..|names| - 1]);
    }
  }

  lemma {:induction false} NewKeysDistinct(ks: seq<string>, seen: set<string>)
    requires Distinct(ks)
    ensures Distinct(NewKeys(ks, seen))
  {
    if ks != [] {
      NewKeysDistinct(ks[1..], seen);
    }
  }

  lemma UnionKeysAll(a: seq<Member>, b: seq<Member>)
    requires DistinctKeys(a) && DistinctKeys(b)
    ensures Distinct(UnionKeys(a, b))
    ensures forall k :: k in UnionKeys(a, b) <==> k in Keys(a) || k in Keys(b)
  {
    KeySeqElements(a);
    KeySeqElements(b);
    NewKeysDistinct(KeySeq(b), Keys(a));
    var more := NewKeys(KeySeq(b), Keys(a));
    forall i, j | 0 <= i < |a| && 0 <= j < |more| ensures KeySeq(a)[i] != more[j] {
      assert a[i] in a && more[j] in more;
    }
    assert forall k :: k in KeySeq(a) <==> k in Elements(KeySeq(a));
    assert forall k :: k in KeySeq(b) <==> k in Elements(KeySeq(b));
  }

  lemma PatchedGet(s: Staged, layer: Layer, names: seq<string>, n: string)
    requires Distinct(names)
    ensures DistinctKeys(Patched(s, layer, names))
    ensures n in Keys(Patched(s, layer, names)) <==> n in names
    ensures n in names ==> Get(Patched(s, layer, names), n) == StagedValue(s, PathIn(layer, n))
  {
    var ms := Patched(s, layer, names);
    if n in names {
      var i :| 0 <= i < |names| && names[i] == n;
      assert ms[i] in ms;
      GetMember(ms, ms[i]);
    }
    if n in Keys(ms) {
      var m :| m in ms && m.key == n;
      var i :| 0 <= i < |ms| && ms[i] == m;
      assert names[i] == n;
    }
  }

  lemma EntryGet(key: string, value: Option<Json>, rest: seq<Member>, k: string)
    requires DistinctKeys(rest) && key !in Keys(rest)
    ensures DistinctKeys(Entry(key, value) + rest)
    ensures Keys(Entry(key, value) + rest) == Keys(rest) + if value.Some? then {key} else {}
    ensures Get(Entry(key, value) + rest, k) == if k == key && value.Some? then value.value else Get(rest, k)
  {
    var ms := Entry(key, value) + rest;
    if value.Some? {
      KeysCons(ms);
      assert ms[1..] == rest;
      assert forall i :: 0 <= i < |rest| ==> rest[i] in rest;
    } else {
      assert ms == rest;
    }
  }

  function GetIf(value: Option<Json>): Json {
    value.GetOr(Undef)
  }

  lemma TwoEntries(k1: string, v1: Option<Json>, k2: string, v2: Option<Json>, rest: seq<Member>, k: string)
    requires DistinctKeys(rest) && k1 != k2 && k1 !in Keys(rest) && k2 !in Keys(rest)
    ensures var ms := Entry(k1, v1) + (Entry(k2, v2) + rest);
            && DistinctKeys(ms)
            && (k in Keys(ms) <==> (k == k1 && v1.Some?) || (k == k2 && v2.Some?) || k in Keys(rest))
            && Get(ms, k) == if k == k1 then GetIf(v1) else if k == k2 then GetIf(v2) else Get(rest, k)
  {
    EntryGet(k2, v2, rest, k);
    EntryGet(k1, v1, Entry(k2, v2) + rest, k);
  }

  /** The top-level keys of a patch. */
  lemma PatchGet(s: Staged, fields: seq<string>, global: bool, squads: seq<string>, leads: seq<string>, k: string)
    ensures var patch := PatchOf(s, fields, global, squads, leads);
            && DistinctKeys(patch)
            && (k == "mcp" ==> Get(patch, k) == GetIf(McpSection(s, fields)))
            && (k == "globalTools" ==> Get(patch, k) == GetIf(GlobalSection(s, global)))
            && (k == "squadTools" ==> Get(patch, k) == GetIf(NonEmpty(Patched(s, Squads, squads))))
            && (k == "leadTools" ==> Get(patch, k) == GetIf(NonEmpty(Patched(s, Leads, leads))))
            && (k in Keys(patch) ==> k == "mcp" || k == "globalTools" || k == "squadTools" || k == "leadTools")
            && (k in Keys(patch) <==> Get(patch, k) != Undef)
  {
    var squadSection, leadSection := NonEmpty(Patched(s, Squads, squads)), NonEmpty(Patched(s, Leads, leads));
    assert |"mcp"| == 3 && |"globalTools"| == 11 && |"squadTools"| == 10 && |"leadTools"| == 9;
    FourEntries("mcp", McpSection(s, fields), "globalTools", GlobalSection(s, global),
                "squadTools", squadSection, "leadTools", leadSection, k);
  }

  predicate AllDifferent(k1: string, k2: string, k3: string, k4: string) {
    k1 != k2 && k1 != k3 && k1 != k4 && k2 != k3 && k2 != k4 && k3 != k4
  }

  lemma FourEntries(k1: string, v1: Option<Json>, k2: string, v2: Option<Json>,
                    k3: string, v3: Option<Json>, k4: string, v4: Option<Json>, k: string)
    requires AllDifferent(k1, k2, k3, k4)
    ensures var ms := Entry(k1, v1) + (Entry(k2, v2) + (Entry(k3, v3) + (Entry(k4, v4) + [])));
            && DistinctKeys(ms)
            && (k in Keys(ms) <==>
                  (k == k1 && v1.Some?) || (k == k2 && v2.Some?) || (k == k3 && v3.Some?) || (k == k4 && v4.Some?))
            && Get(ms, k) == (if k == k1 then GetIf(v1) else if k == k2 then GetIf(v2)
                              else if k == k3 then GetIf(v3) else if k == k4 then GetIf(v4) else Undef)
  {
    forall key { TwoEntries(k3, v3, k4, v4, [], key); }
    TwoEntries(k1, v1, k2, v2, Entry(k3, v3) + (Entry(k4, v4) + []), k);
  }

  ghost predicate NoPathTwice(ps: seq<Path>) {
    forall i, j :: 0 <= i < j < |ps| ==> ps[i] != ps[j]
  }

  lemma JoinPaths(ps: seq<Path>, qs: seq<Path>)
    requires NoPathTwice(ps) && NoPathTwice(qs) && forall p :: p in ps ==> p !in qs
    ensures NoPathTwice(ps + qs)
  {
    forall i, j | 0 <= i < |ps| && 0 <= j < |qs| ensures ps[i] != qs[j] {
      assert ps[i] in ps;
    }
  }

  lemma LayerPaths(layer: Layer, names: seq<string>)
    requires Distinct(names)
    ensures NoPathTwice(Paths(layer, names))
    ensures forall p :: p in Paths(layer, names) ==>
              p.Field? == layer.Fields? && p.Squad? == layer.Squads? && p.Lead? == layer.Leads?
  {
  }

  lemma InLayer(layer: Layer, names: seq<string>, n: string)
    ensures PathIn(layer, n) in Paths(layer, names) <==> n in names
  {
    if n in names {
      var i :| 0 <= i < |names| && names[i] == n;
      assert Paths(layer, names)[i] == PathIn(layer, n);
    }
  }

  predicate Names(p: Path, fields: seq<string>, global: bool, squads: seq<string>, leads: seq<string>) {
    match p
    case Field(f) => f in fields
    case Global => global
    case Squad(q) => q in squads
    case Lead(q) => q in leads
  }

  /** The listing names each path once, and those its four parts name. */
  lemma PathsNamed(fields: seq<string>, global: bool, squads: seq<string>, leads: seq<string>, p: Path)
    requires Distinct(fields) && Distinct(squads) && Distinct(leads)
    ensures NoPathTwice(PathsOf(fields, global, squads, leads))
    ensures p in PathsOf(fields, global, squads, leads) <==> Names(p, fields, global, squads, leads)
  {
    var first := Paths(Fields, fields) + (if global then [Global] else []);
    LayerPaths(Fields, fields);
    LayerPaths(Squads, squads);
    LayerPaths(Leads, leads);
    JoinPaths(Paths(Fields, fields), if global then [Global] else []);
    JoinPaths(first, Paths(Squads, squads));
    JoinPaths(first + Paths(Squads, squads), Paths(Leads, leads));
    match p
    case Field(f) => InLayer(Fields, fields, f);
    case Global =>
    case Squad(q) => InLayer(Squads, squads, q);
    case Lead(q) => InLayer(Leads, leads, q);
  }

  // ----- what merging the patch does

  /** One layer's section, merged: its dirty names take the staged values, the rest stay. */
  lemma SectionMerge(was: Json, s: Staged, c: seq<Member>, layer: Layer, names: seq<string>, n: string)
    requires Distinct(names) && (was.Obj? ==> DistinctKeys(was.members))
    ensures var dirty := DirtyNames(s, c, layer, names);
            var now := if dirty == [] then was else MergeValue(was, Obj(Patched(s, layer, dirty)));
            At(now, n) ==
              if n in names && Dirty(s, c, PathIn(layer, n)) then MergeValue(At(was, n), StagedValue(s, PathIn(layer, n)))
              else At(was, n)
  {
    var dirty := DirtyNames(s, c, layer, names);
    NamesDistinct(s, c, layer, names);
    PatchedGet(s, layer, dirty, n);
    MergeAt(was, Patched(s, layer, dirty), n);
  }

  /** A name outside both objects is inherited on both sides, so it is not dirty. */
  lemma UnlistedClean(s: Staged, c: seq<Member>, p: Path)
    requires StagedOk(s) && ConfigOk(c)
    requires (p.Squad? && p.q !in SquadKeys(s, c)) || (p.Lead? && p.q !in LeadKeys(s, c))
    ensures !Dirty(s, c, p)
  {
    UnionKeysAll(s.squadTools, MembersOf(Get(c, "squadTools")));
    UnionKeysAll(s.leadTools, MembersOf(Get(c, "leadTools")));
  }

  /** The dirty paths are listed, all of them, nothing else, and each once. */
  lemma DirtyPathsExactly(s: Staged, c: seq<Member>, p: Path)
    requires ConfigOk(c) && StagedOk(s)
    ensures p in AllDirty(s, c) <==> Editable(p) && Dirty(s, c, p)
    ensures NoPathTwice(AllDirty(s, c))
  {
    var fields := DirtyNames(s, c, Fields, FIELDS);
    var squads, leads := DirtyNames(s, c, Squads, SquadKeys(s, c)), DirtyNames(s, c, Leads, LeadKeys(s, c));
    FieldsDistinct();
    NamesDistinct(s, c, Fields, FIELDS);
    ListNamesDistinct(s, c);
    PathsNamed(fields, Dirty(s, c, Global), squads, leads, p);
    if (p.Squad? && p.q !in SquadKeys(s, c)) || (p.Lead? && p.q !in LeadKeys(s, c)) { UnlistedClean(s, c, p); }
  }

  lemma ListNamesDistinct(s: Staged, c: seq<Member>)
    requires ConfigOk(c) && StagedOk(s)
    ensures Distinct(DirtyNames(s, c, Squads, SquadKeys(s, c))) && Distinct(DirtyNames(s, c, Leads, LeadKeys(s, c)))
  {
    UnionKeysAll(s.squadTools, MembersOf(Get(c, "squadTools")));
    UnionKeysAll(s.leadTools, MembersOf(Get(c, "leadTools")));
    NamesDistinct(s, c, Squads, SquadKeys(s, c));
    NamesDistinct(s, c, Leads, LeadKeys(s, c));
  }

  lemma TopMerge(s: Staged, c: seq<Member>, k: string)
    requires ConfigOk(c)
    ensures var patch := PatchMembers(s, c);
            && DistinctKeys(MergeInto(c, patch))
            && Get(MergeInto(c, patch), k) ==
                 (if Get(patch, k) == Undef then Get(c, k) else MergeValue(Get(c, k), Get(patch, k)))
  {
    var fields, squads := DirtyNames(s, c, Fields, FIELDS), DirtyNames(s, c, Squads, SquadKeys(s, c));
    var leads := DirtyNames(s, c, Leads, LeadKeys(s, c));
    PatchGet(s, fields, Dirty(s, c, Global), squads, leads, k);
    MergeGet(c, PatchMembers(s, c), k);
  }

  lemma FieldsDistinct()
    ensures Distinct(FIELDS)
  {
    assert |FIELDS[0]| == 7 && |FIELDS[1]| == 7 && |FIELDS[2]| == 13 && |FIELDS[3]| == 14 && |FIELDS[4]| == 12;
    assert FIELDS[0][0] != FIELDS[1][0];
  }

  lemma McpSectionAfter(s: Staged, c: seq<Member>)
    requires ConfigOk(c)
    ensures var fields, was := DirtyNames(s, c, Fields, FIELDS), Get(c, "mcp");
            Get(MergeInto(c, PatchMembers(s, c)), "mcp") ==
              if fields == [] then was
              else MergeValue(was, Obj(Entry("thoughtmap", NonEmpty(Patched(s, Fields, fields)))))
  {
    var fields, squads := DirtyNames(s, c, Fields, FIELDS), DirtyNames(s, c, Squads, SquadKeys(s, c));
    var leads := DirtyNames(s, c, Leads, LeadKeys(s, c));
    PatchGet(s, fields, Dirty(s, c, Global), squads, leads, "mcp");
    TopMerge(s, c, "mcp");
  }

  lemma MergedFields(s: Staged, c: seq<Member>, f: string)
    requires ConfigOk(c) && StagedOk(s) && f in FIELDS
    ensures Stored(MergeInto(c, PatchMembers(s, c)), Field(f)) ==
            if Dirty(s, c, Field(f)) then MergeValue(Stored(c, Field(f)), StagedValue(s, Field(f))) else Stored(c, Field(f))
  {
    var fields, mcp := DirtyNames(s, c, Fields, FIELDS), Get(c, "mcp");
    McpSectionAfter(s, c);
    FieldsDistinct();
    SectionMerge(At(mcp, "thoughtmap"), s, c, Fields, FIELDS, f);
    if fields != [] {
      var section := Entry("thoughtmap", NonEmpty(Patched(s, Fields, fields)));
      EntryGet("thoughtmap", NonEmpty(Patched(s, Fields, fields)), [], "thoughtmap");
      assert section + [] == section;
      MergeAt(mcp, section, "thoughtmap");
    }
  }

  function LayerKey(layer: Layer): string {
    match layer
    case Fields => "mcp"
    case Squads => "squadTools"
    case Leads => "leadTools"
  }

  function LayerNames(s: Staged, c: seq<Member>, layer: Layer): seq<string> {
    match layer
    case Fields => FIELDS
    case Squads => SquadKeys(s, c)
    case Leads => LeadKeys(s, c)
  }

  lemma ListSectionAfter(s: Staged, c: seq<Member>, layer: Layer)
    requires ConfigOk(c) && !layer.Fields?
    ensures var dirty := DirtyNames(s, c, layer, LayerNames(s, c, layer));
            var was := Get(c, LayerKey(layer));
            Get(MergeInto(c, PatchMembers(s, c)), LayerKey(layer)) ==
              if dirty == [] then was else MergeValue(was, Obj(Patched(s, layer, dirty)))
  {
    var fields := DirtyNames(s, c, Fields, FIELDS);
    var squads, leads := DirtyNames(s, c, Squads, SquadKeys(s, c)), DirtyNames(s, c, Leads, LeadKeys(s, c));
    PatchGet(s, fields, Dirty(s, c, Global), squads, leads, LayerKey(layer));
    TopMerge(s, c, LayerKey(layer));
  }

  lemma ListLayerShape(s: Staged, c: seq<Member>, layer: Layer, q: string)
    requires ConfigOk(c) && StagedOk(s) && !layer.Fields?
    ensures Distinct(LayerNames(s, c, layer))
    ensures var was := Get(c, LayerKey(layer)); was.Obj? ==> DistinctKeys(was.members)
    ensures q !in LayerNames(s, c, layer) ==> !Dirty(s, c, PathIn(layer, q))
  {
    UnionKeysAll(s.squadTools, MembersOf(Get(c, "squadTools")));
    UnionKeysAll(s.leadTools, MembersOf(Get(c, "leadTools")));
    if q !in LayerNames(s, c, layer) { UnlistedClean(s, c, PathIn(layer, q)); }
  }

  lemma MergedList(s: Staged, c: seq<Member>, layer: Layer, q: string)
    requires ConfigOk(c) && StagedOk(s) && !layer.Fields?
    ensures var p := PathIn(layer, q);
            Stored(MergeInto(c, PatchMembers(s, c)), p) ==
            if Dirty(s, c, p) then MergeValue(Stored(c, p), StagedValue(s, p)) else Stored(c, p)
  {
    ListSectionAfter(s, c, layer);
    ListLayerShape(s, c, layer, q);
    SectionMerge(Get(c, LayerKey(layer)), s, c, layer, LayerNames(s, c, layer), q);
    StoredInLayer(c, layer, q);
    StoredInLayer(MergeInto(c, PatchMembers(s, c)), layer, q);
  }

  lemma StoredInLayer(c: seq<Member>, layer: Layer, q: string)
    requires !layer.Fields?
    ensures Stored(c, PathIn(layer, q)) == At(Get(c, LayerKey(layer)), q)
  {
  }

  /**
   Merging the patch stores the staged value at every dirty path (null storing nothing) and
   leaves every other path as it was.
   */
  lemma PatchAppliesExactly(s: Staged, c: seq<Member>, p: Path)
    requires ConfigOk(c) && StagedOk(s) && Editable(p)
    ensures Stored(MergeInto(c, PatchMembers(s, c)), p) ==
            if !Dirty(s, c, p) then Stored(c, p) else if StagedValue(s, p) == Null then Undef else StagedValue(s, p)
  {
    match p
    case Field(f) => MergedFields(s, c, f);
    case Global =>
      var squads, leads := DirtyNames(s, c, Squads, SquadKeys(s, c)), DirtyNames(s, c, Leads, LeadKeys(s, c));
      PatchGet(s, DirtyNames(s, c, Fields, FIELDS), Dirty(s, c, Global), squads, leads, "globalTools");
      TopMerge(s, c, "globalTools");
    case Squad(q) => MergedList(s, c, Squads, q); StagedListValue(s, p);
    case Lead(q) => MergedList(s, c, Leads, q); StagedListValue(s, p);
  }

  lemma StagedListValue(s: Staged, p: Path)
    requires StagedOk(s) && !p.Field?
    ensures ListValue(StagedValue(s, p))
  {
    match p
    case Squad(q) => if q in Keys(s.squadTools) { assert Member(q, Get(s.squadTools, q)) in s.squadTools; }
    case Lead(q) => if q in Keys(s.leadTools) { assert Member(q, Get(s.leadTools, q)) in s.leadTools; }
    case _ =>
  }

  // ----- the merged registry is well formed

  predicate NoHoles(ms: seq<Member>) {
    forall m :: m in ms ==> m.value != Undef
  }

  lemma {:induction false} WithMembers(ms: seq<Member>, key: string, value: Json)
    ensures forall m :: m in With(ms, key, value) ==> m == Member(key, value) || m in ms
  {
    if ms != [] { WithMembers(ms[1..], key, value); }
  }

  /** A merge deletes a key or gives it a value; it never leaves it without one. */
  lemma {:induction false} MergeLeavesNoHoles(target: seq<Member>, patch: seq<Member>)
    requires NoHoles(target)
    ensures NoHoles(MergeInto(target, patch))
    decreases patch
  {
    if patch != [] {
      var key := patch[0].key;
      var v := MergeValue(Get(target, key), patch[0].value);
      WithMembers(target, key, v);
      MergeLeavesNoHoles(if v == Undef then Without(target, key) else With(target, key, v), patch[1..]);
    }
  }

  /** A list section that holds a list value, or nothing, under every name is a map of lists. */
  lemma ListMapAt(ms: seq<Member>)
    requires DistinctKeys(ms) && NoHoles(ms)
    requires forall q :: Get(ms, q) == Undef || ListValue(Get(ms, q))
    ensures ListMap(ms)
  {
    forall m | m in ms ensures ListValue(m.value) { GetMember(ms, m); }
  }

  lemma ListStays(s: Staged, c: seq<Member>, p: Path)
    requires ConfigOk(c) && StagedOk(s) && !p.Field?
    ensures var now := Stored(MergeInto(c, PatchMembers(s, c)), p); now == Undef || ListValue(now)
  {
    PatchAppliesExactly(s, c, p);
    StagedListValue(s, p);
    StoredListValue(c, p);
  }

  lemma StoredListValue(c: seq<Member>, p: Path)
    requires ConfigOk(c) && !p.Field?
    ensures Stored(c, p) == Undef || ListValue(Stored(c, p))
  {
  }

  lemma ListSectionOk(s: Staged, c: seq<Member>, layer: Layer)
    requires ConfigOk(c) && StagedOk(s) && !layer.Fields?
    ensures var now := Get(MergeInto(c, PatchMembers(s, c)), LayerKey(layer));
            now != Undef ==> now.Obj? && ListMap(now.members)
  {
    var was, now := Get(c, LayerKey(layer)), Get(MergeInto(c, PatchMembers(s, c)), LayerKey(layer));
    var names := DirtyNames(s, c, layer, LayerNames(s, c, layer));
    ListSectionAfter(s, c, layer);
    SectionWasOk(c, layer);
    if names != [] {
      PatchedDistinct(s, c, layer);
      SectionMerged(was, Patched(s, layer, names));
      forall q ensures Get(now.members, q) == Undef || ListValue(Get(now.members, q)) {
        LayerListStays(s, c, layer, q);
      }
      ListMapAt(now.members);
    }
  }

  lemma LayerListStays(s: Staged, c: seq<Member>, layer: Layer, q: string)
    requires ConfigOk(c) && StagedOk(s) && !layer.Fields?
    ensures var now := At(Get(MergeInto(c, PatchMembers(s, c)), LayerKey(layer)), q); now == Undef || ListValue(now)
  {
    ListStays(s, c, PathIn(layer, q));
    StoredInLayer(MergeInto(c, PatchMembers(s, c)), layer, q);
  }

  lemma PatchedDistinct(s: Staged, c: seq<Member>, layer: Layer)
    requires ConfigOk(c) && StagedOk(s) && !layer.Fields?
    ensures DistinctKeys(Patched(s, layer, DirtyNames(s, c, layer, LayerNames(s, c, layer))))
  {
    ListLayerShape(s, c, layer, "");
    NamesDistinct(s, c, layer, LayerNames(s, c, layer));
    PatchedGet(s, layer, DirtyNames(s, c, layer, LayerNames(s, c, layer)), "");
  }

  lemma SectionMerged(was: Json, patch: seq<Member>)
    requires DistinctKeys(MembersOf(was)) && NoHoles(MembersOf(was)) && DistinctKeys(patch)
    ensures var now := MergeValue(was, Obj(patch)); now.Obj? && DistinctKeys(now.members) && NoHoles(now.members)
  {
    MergeGet(MembersOf(was), patch, "");
    MergeLeavesNoHoles(MembersOf(was), patch);
  }

  lemma SectionWasOk(c: seq<Member>, layer: Layer)
    requires ConfigOk(c) && !layer.Fields?
    ensures var was := Get(c, LayerKey(layer));
            (was != Undef ==> was.Obj? && ListMap(was.members)) && DistinctKeys(MembersOf(was)) && NoHoles(MembersOf(was))
  {
  }

  /** The two nested objects above the fields stay objects without repeated keys. */
  lemma McpShape(s: Staged, c: seq<Member>)
    requires ConfigOk(c) && StagedOk(s)
    ensures var mcp := Get(MergeInto(c, PatchMembers(s, c)), "mcp");
            && (mcp != Undef ==> mcp.Obj? && DistinctKeys(mcp.members))
            && (At(mcp, "thoughtmap") != Undef ==>
                  At(mcp, "thoughtmap").Obj? && DistinctKeys(At(mcp, "thoughtmap").members))
  {
    var fields, mcp := DirtyNames(s, c, Fields, FIELDS), Get(c, "mcp");
    McpSectionAfter(s, c);
    FieldsDistinct();
    NamesDistinct(s, c, Fields, FIELDS);
    PatchedGet(s, Fields, fields, "");
    if fields != [] { NestedMerged(mcp, "thoughtmap", Patched(s, Fields, fields)); }
  }

  lemma NestedMerged(outer: Json, key: string, fields: seq<Member>)
    requires DistinctKeys(fields) && fields != []
    requires outer.Obj? ==> DistinctKeys(outer.members)
    requires At(outer, key).Obj? ==> DistinctKeys(At(outer, key).members)
    ensures var now := MergeValue(outer, Obj(Entry(key, NonEmpty(fields))));
            && now.Obj? && DistinctKeys(now.members)
            && At(now, key).Obj? && DistinctKeys(At(now, key).members)
  {
    var section := Entry(key, NonEmpty(fields));
    EntryGet(key, NonEmpty(fields), [], key);
    assert section + [] == section;
    MergeGet(MembersOf(outer), section, key);
    MergeAt(outer, section, key);
    MergedObject(At(outer, key), fields);
  }

  lemma MergedObject(was: Json, fields: seq<Member>)
    requires DistinctKeys(fields) && (was.Obj? ==> DistinctKeys(was.members))
    ensures var now := MergeValue(was, Obj(fields)); now.Obj? && DistinctKeys(now.members)
  {
    MergeGet(MembersOf(was), fields, "");
  }

  lemma FieldStays(s: Staged, c: seq<Member>, f: string)
    requires ConfigOk(c) && StagedOk(s) && f in FIELDS
    ensures FieldValue(Stored(MergeInto(c, PatchMembers(s, c)), Field(f)))
  {
    PatchAppliesExactly(s, c, Field(f));
  }

  /** Merging what the editor staged into a well-formed registry leaves it well formed. */
  lemma MergeKeepsConfigOk(s: Staged, c: seq<Member>)
    requires ConfigOk(c) && StagedOk(s)
    ensures ConfigOk(MergeInto(c, PatchMembers(s, c)))
  {
    var merged := MergeInto(c, PatchMembers(s, c));
    TopDistinct(s, c);
    McpShape(s, c);
    forall f | f in FIELDS ensures FieldValue(At(At(Get(merged, "mcp"), "thoughtmap"), f)) {
      FieldStays(s, c, f);
      assert Stored(merged, Field(f)) == At(At(Get(merged, "mcp"), "thoughtmap"), f);
    }
    ListStays(s, c, Global);
    ListSectionOk(s, c, Squads);
    ListSectionOk(s, c, Leads);
  }

  lemma TopDistinct(s: Staged, c: seq<Member>)
    requires ConfigOk(c)
    ensures DistinctKeys(MergeInto(c, PatchMembers(s, c)))
  {
    var fields, squads := DirtyNames(s, c, Fields, FIELDS), DirtyNames(s, c, Squads, SquadKeys(s, c));
    PatchGet(s, fields, Dirty(s, c, Global), squads, DirtyNames(s, c, Leads, LeadKeys(s, c)), "");
    MergeGet(c, PatchMembers(s, c), "");
  }

  /** No key outside the four sections is touched. */
  lemma PatchTouchesSections(s: Staged, c: seq<Member>, k: string)
    requires ConfigOk(c) && k != "mcp" && k != "globalTools" && k != "squadTools" && k != "leadTools"
    ensures Get(MergeInto(c, PatchMembers(s, c)), k) == Get(c, k)
  {
    PatchGet(s, DirtyNames(s, c, Fields, FIELDS), Dirty(s, c, Global), DirtyNames(s, c, Squads, SquadKeys(s, c)),
             DirtyNames(s, c, Leads, LeadKeys(s, c)), k);
    TopMerge(s, c, k);
  }

  // ----- clean after applying

  /** On list values the text comparison is plain equality. */
  lemma ListsCompareByText(a: Json, b: Json)
    requires ListValue(a) && ListValue(b)
    ensures SameValue(a, b) <==> a == b
  {
    StableStringifyCanonical(a, b);
    SameReflexive(a);
    if Same(a, b) && a.Arr? {
      forall i | 0 <= i < |a.items| ensures a.items[i] == b.items[i] {
        assert Same(a.items[i], b.items[i]);
      }
    }
  }

  lemma ServerListValue(c: seq<Member>, p: Path)
    requires ConfigOk(c) && !p.Field?
    ensures ListValue(ServerValue(c, p))
  {
    match p
    case Squad(q) =>
      var ms := MembersOf(Get(c, "squadTools"));
      if q in Keys(ms) { assert Member(q, Get(ms, q)) in ms; }
    case Lead(q) =>
      var ms := MembersOf(Get(c, "leadTools"));
      if q in Keys(ms) { assert Member(q, Get(ms, q)) in ms; }
    case _ =>
  }

  /** A path is dirty exactly when what the editor shows differs from what was staged. */
  lemma DirtyMeansDifferent(s: Staged, c: seq<Member>, p: Path)
    requires ConfigOk(c) && StagedOk(s) && Editable(p)
    ensures Dirty(s, c, p) <==> StagedValue(s, p) != ServerValue(c, p)
  {
    if !p.Field? {
      StagedListValue(s, p);
      ServerListValue(c, p);
      ListsCompareByText(StagedValue(s, p), ServerValue(c, p));
    }
  }

  /**
   After the patch is merged a path is still dirty exactly when it is a field that was staged
   as null: the merge deletes it, and the editor then reads the default back, not null.
   */
  lemma CleanAfterApply(s: Staged, c: seq<Member>, p: Path)
    requires ConfigOk(c) && StagedOk(s) && Editable(p)
    ensures Dirty(s, MergeInto(c, PatchMembers(s, c)), p) <==> p.Field? && StagedValue(s, p) == Null
  {
    MergeKeepsConfigOk(s, c);
    ShownAfterApply(s, c, p);
    DirtyMeansDifferent(s, MergeInto(c, PatchMembers(s, c)), p);
    StagedIsNoDefaultNull(s, p);
  }

  /** What the editor shows once its patch is merged: what was staged, or the default for a null. */
  lemma ShownAfterApply(s: Staged, c: seq<Member>, p: Path)
    requires ConfigOk(c) && StagedOk(s) && Editable(p)
    ensures ServerValue(MergeInto(c, PatchMembers(s, c)), p) ==
            if StagedValue(s, p) != Null then StagedValue(s, p) else if p.Field? then DefaultFor(p.f) else Null
  {
    PatchAppliesExactly(s, c, p);
    DirtyMeansDifferent(s, c, p);
    StagedIsNoDefaultNull(s, p);
  }

  lemma StagedIsNoDefaultNull(s: Staged, p: Path)
    requires StagedOk(s) && Editable(p)
    ensures p.Field? ==> DefaultFor(p.f) != Null
    ensures StagedValue(s, p) != Undef
  {
    if !p.Field? { StagedListValue(s, p); }
  }

  /** The editor's controls stage no null field, and then an applied copy is clean. */
  lemma CleanWithoutNullFields(s: Staged, c: seq<Member>, p: Path)
    requires ConfigOk(c) && StagedOk(s) && Editable(p)
    requires forall f :: f in FIELDS ==> Get(s.thoughtmap, f) != Null
    ensures !Dirty(s, MergeInto(c, PatchMembers(s, c)), p)
  {
    CleanAfterApply(s, c, p);
  }

  /** Nothing is sent exactly when nothing is dirty. */
  lemma EmptyPatchMeansClean(s: Staged, c: seq<Member>)
    requires ConfigOk(c) && StagedOk(s)
    ensures PatchMembers(s, c) == [] <==> AllDirty(s, c) == []
    ensures AllDirty(s, c) == [] <==> forall p :: Editable(p) ==> !Dirty(s, c, p)
  {
    var fields, squads := DirtyNames(s, c, Fields, FIELDS), DirtyNames(s, c, Squads, SquadKeys(s, c));
    var leads := DirtyNames(s, c, Leads, LeadKeys(s, c));
    AllDirtyEmpty(s, c);
    if AllDirty(s, c) == [] {
      forall p | Editable(p) ensures !Dirty(s, c, p) {
        NotListedClean(s, c, p);
      }
    } else {
      var p := SomeDirty(s, c);
    }
  }

  predicate NoneDirty(s: Staged, c: seq<Member>, layer: Layer) {
    DirtyNames(s, c, layer, LayerNames(s, c, layer)) == []
  }

  lemma AllDirtyEmpty(s: Staged, c: seq<Member>)
    ensures AllDirty(s, c) == [] <==> !Dirty(s, c, Global) && forall layer: Layer :: NoneDirty(s, c, layer)
    ensures PatchMembers(s, c) == [] <==> AllDirty(s, c) == []
  {
    var fields := DirtyNames(s, c, Fields, FIELDS);
    var squads, leads := DirtyNames(s, c, Squads, SquadKeys(s, c)), DirtyNames(s, c, Leads, LeadKeys(s, c));
    EmptyPatch(s, fields, Dirty(s, c, Global), squads, leads);
    assert NoneDirty(s, c, Fields) <==> fields == [];
    assert NoneDirty(s, c, Squads) <==> squads == [];
    assert NoneDirty(s, c, Leads) <==> leads == [];
    if fields == [] && squads == [] && leads == [] {
      forall layer: Layer ensures NoneDirty(s, c, layer) {
        match layer
        case Fields =>
        case Squads =>
        case Leads =>
      }
    }
  }

  lemma EmptyPatch(s: Staged, fields: seq<string>, global: bool, squads: seq<string>, leads: seq<string>)
    ensures PatchOf(s, fields, global, squads, leads) == [] <==>
            fields == [] && !global && squads == [] && leads == []
    ensures PathsOf(fields, global, squads, leads) == [] <==> fields == [] && !global && squads == [] && leads == []
  {
  }

  lemma NotListedClean(s: Staged, c: seq<Member>, p: Path)
    requires ConfigOk(c) && StagedOk(s) && Editable(p) && AllDirty(s, c) == []
    ensures !Dirty(s, c, p)
  {
    AllDirtyEmpty(s, c);
    if !p.Global? {
      var layer := if p.Field? then Fields else if p.Squad? then Squads else Leads;
      var name := if p.Field? then p.f else p.q;
      assert p == PathIn(layer, name);
      assert NoneDirty(s, c, layer);
      assert name !in DirtyNames(s, c, layer, LayerNames(s, c, layer));
      if name !in LayerNames(s, c, layer) { UnlistedClean(s, c, p); }
    }
  }

  lemma SomeDirty(s: Staged, c: seq<Member>) returns (p: Path)
    requires AllDirty(s, c) != []
    ensures Editable(p) && Dirty(s, c, p)
  {
    if Dirty(s, c, Global) {
      p := Global;
    } else {
      var layer := DirtyLayer(s, c);
      var name := FirstDirty(s, c, layer, LayerNames(s, c, layer));
      p := PathIn(layer, name);
    }
  }

  lemma DirtyLayer(s: Staged, c: seq<Member>) returns (layer: Layer)
    requires AllDirty(s, c) != [] && !Dirty(s, c, Global)
    ensures !NoneDirty(s, c, layer)
  {
    AllDirtyEmpty(s, c);
    layer :| !NoneDirty(s, c, layer);
  }

  lemma FirstDirty(s: Staged, c: seq<Member>, layer: Layer, names: seq<string>) returns (name: string)
    requires DirtyNames(s, c, layer, names) != []
    ensures name in names && Dirty(s, c, PathIn(layer, name))
  {
    name := DirtyNames(s, c, layer, names)[0];
    assert name in DirtyNames(s, c, layer, names);
  }

  // ----- a fresh copy

  /** `stagedFromConfig`: defaults filled in, the lists copied. */
  method StagedFromConfig(c: seq<Member>) returns (s: Staged)
    requires ConfigOk(c)
    ensures s == FreshCopy(c)
  {
    var tm: seq<Member> := [];
    for i := 0 to |FIELDS|
      invariant tm == FreshFields(c, FIELDS[..i])
    {
      assert FIELDS[..i + 1][..i] == FIELDS[..i];
      tm := tm + [Member(FIELDS[i], ServerValue(c, Field(FIELDS[i])))];
    }
    assert FIELDS[..|FIELDS|] == FIELDS;
    s := Staged(tm, Or(Get(c, "globalTools"), Null), MembersOf(Get(c, "squadTools")), MembersOf(Get(c, "leadTools")));
  }

  function FreshFields(c: seq<Member>, names: seq<string>): seq<Member> {
    if names == [] then []
    else FreshFields(c, names[..|names| - 1]) + [Member(names[|names| - 1], ServerValue(c, Field(names[|names| - 1])))]
  }

  function FreshCopy(c: seq<Member>): Staged {
    Staged(FreshFields(c, FIELDS), Or(Get(c, "globalTools"), Null),
           MembersOf(Get(c, "squadTools")), MembersOf(Get(c, "leadTools")))
  }

  lemma {:induction false} AppendGet(a: seq<Member>, b: seq<Member>, k: string)
    ensures Get(a + b, k) == if k in Keys(a) then Get(a, k) else Get(b, k)
    ensures Keys(a + b) == Keys(a) + Keys(b)
  {
    if a == [] {
      assert a + b == b;
    } else {
      KeysCons(a);
      KeysCons(a + b);
      assert (a + b)[1..] == a[1..] + b;
      AppendGet(a[1..], b, k);
    }
  }

  lemma AppendDistinct(a: seq<Member>, b: seq<Member>)
    requires DistinctKeys(a) && DistinctKeys(b) && Keys(a) !! Keys(b)
    ensures DistinctKeys(a + b)
  {
    forall i, j | 0 <= i < |a| && 0 <= j < |b| ensures a[i].key != b[j].key {
      assert a[i].key in Keys(a) && b[j].key in Keys(b);
    }
  }

  lemma {:induction false} FreshFieldsGet(c: seq<Member>, names: seq<string>, f: string)
    requires Distinct(names)
    ensures DistinctKeys(FreshFields(c, names))
    ensures f in Keys(FreshFields(c, names)) <==> f in names
    ensures f in names ==> Get(FreshFields(c, names), f) == ServerValue(c, Field(f))
  {
    if names != [] {
      var init, last := names[..|names| - 1], names[|names| - 1];
      var added := [Member(last, ServerValue(c, Field(last)))];
      assert names == init + [last];
      FreshFieldsGet(c, init, f);
      FreshFieldsGet(c, init, last);
      AppendGet(FreshFields(c, init), added, f);
      assert added[0] in added;
      AppendDistinct(FreshFields(c, init), added);
    }
  }

  lemma FreshCopyOk(c: seq<Member>)
    requires ConfigOk(c)
    ensures StagedOk(FreshCopy(c))
    ensures forall f :: f in FIELDS ==> Get(FreshCopy(c).thoughtmap, f) == ServerValue(c, Field(f))
  {
    FieldsDistinct();
    FreshFieldsOk(c, FIELDS);
  }

  lemma FreshFieldsOk(c: seq<Member>, names: seq<string>)
    requires Distinct(names)
    ensures DistinctKeys(FreshFields(c, names))
    ensures forall f :: f in names ==> Get(FreshFields(c, names), f) == ServerValue(c, Field(f))
  {
    FreshFieldsGet(c, names, "");
    forall f | f in names ensures Get(FreshFields(c, names), f) == ServerValue(c, Field(f)) {
      FreshFieldsGet(c, names, f);
    }
  }

  /** A fresh copy is well formed and shows nothing as dirty. */
  lemma FreshCopyClean(c: seq<Member>, p: Path)
    requires ConfigOk(c) && Editable(p)
    ensures StagedOk(FreshCopy(c)) && !Dirty(FreshCopy(c), c, p)
  {
    FreshCopyOk(c);
    FreshValue(c, p);
    DirtyMeansDifferent(FreshCopy(c), c, p);
  }

  lemma FreshValue(c: seq<Member>, p: Path)
    requires p.Field? ==> Get(FreshCopy(c).thoughtmap, p.f) == ServerValue(c, p)
    ensures StagedValue(FreshCopy(c), p) == ServerValue(c, p)
  {
  }

  // ----- which layer decides

  datatype Source = LeadTools | SquadTools | GlobalTools | Native

  /** `effectiveLead`: the first layer that stores anything, null included. */
  function EffectiveLead(c: seq<Member>, q: string): (Json, Source) {
    if Stored(c, Lead(q)) != Undef then (Stored(c, Lead(q)), LeadTools)
    else if Stored(c, Squad(q)) != Undef then (Stored(c, Squad(q)), SquadTools)
    else if Stored(c, Global) != Undef then (Stored(c, Global), GlobalTools)
    else (Null, Native)
  }

  /** The launcher's chain `lead ?? squad ?? global ?? null`. */
  function ResolvedLead(c: seq<Member>, q: string): Json {
    Or(Stored(c, Lead(q)), Or(Stored(c, Squad(q)), Or(Stored(c, Global), Null)))
  }

  /** Some layer stores null while a layer below it names tools. */
  predicate NullHidesTools(c: seq<Member>, q: string) {
    || (Stored(c, Lead(q)) == Null && (Or(Stored(c, Squad(q)), Null) != Null || Or(Stored(c, Global), Null) != Null))
    || (Stored(c, Lead(q)) == Undef && Stored(c, Squad(q)) == Null && Or(Stored(c, Global), Null) != Null)
  }

  /** What the editor displays is what a launch resolves, except where a stored null hides tools. */
  lemma EffectiveLeadIsResolved(c: seq<Member>, q: string)
    ensures EffectiveLead(c, q).0 == ResolvedLead(c, q) <==> !NullHidesTools(c, q)
  {
  }

  /** The merge stores no null: one found afterwards was there before, on a path left alone. */
  lemma PatchStoresNoNull(s: Staged, c: seq<Member>, p: Path)
    requires ConfigOk(c) && StagedOk(s) && Editable(p)
    ensures Stored(MergeInto(c, PatchMembers(s, c)), p) == Null <==> Stored(c, p) == Null && !Dirty(s, c, p)
  {
    PatchAppliesExactly(s, c, p);
  }

  /** Neither list above the global one is a stored null. */
  predicate NoNullLists(c: seq<Member>, q: string) {
    Stored(c, Lead(q)) != Null && Stored(c, Squad(q)) != Null
  }

  /** So where no null stood above the global list, editing keeps display and launch in agreement. */
  lemma AppliedLeadIsResolved(s: Staged, c: seq<Member>, q: string)
    requires ConfigOk(c) && StagedOk(s) && NoNullLists(c, q)
    ensures var merged := MergeInto(c, PatchMembers(s, c));
            NoNullLists(merged, q) && EffectiveLead(merged, q).0 == ResolvedLead(merged, q)
  {
    PatchStoresNoNull(s, c, Lead(q));
    PatchStoresNoNull(s, c, Squad(q));
    EffectiveLeadIsResolved(MergeInto(c, PatchMembers(s, c)), q);
  }

  /** A null stored for a lead hides the list of its squad from the display, and not from the launch. */
  lemma StoredNullHidesList(q: string, tool: string)
    ensures var squads := Obj([Member(q, Arr([Str(tool)]))]);
            var c := [Member("leadTools", Obj([Member(q, Null)])), Member("squadTools", squads)];
            && ConfigOk(c)
            && EffectiveLead(c, q) == (Null, LeadTools)
            && ResolvedLead(c, q) == Arr([Str(tool)])
  {
    var list := Arr([Str(tool)]);
    var c := [Member("leadTools", Obj([Member(q, Null)])), Member("squadTools", Obj([Member(q, list)]))];
    assert |"mcp"| == 3 && |"globalTools"| == 11 && |"squadTools"| == 10 && |"leadTools"| == 9;
    TwoSections(c, Obj([Member(q, Null)]), Obj([Member(q, list)]));
    OnlyMember(q, Null);
    OnlyMember(q, list);
    TwoListsOk(c, [Member(q, Null)], [Member(q, list)]);
  }

  lemma TwoListsOk(c: seq<Member>, leads: seq<Member>, squads: seq<Member>)
    requires DistinctKeys(c) && Get(c, "leadTools") == Obj(leads) && Get(c, "squadTools") == Obj(squads)
    requires Get(c, "mcp") == Undef && Get(c, "globalTools") == Undef && ListMap(leads) && ListMap(squads)
    ensures ConfigOk(c)
  {
  }

  lemma TwoSections(c: seq<Member>, leads: Json, squads: Json)
    requires c == [Member("leadTools", leads), Member("squadTools", squads)] && |"squadTools"| != |"leadTools"|
    ensures DistinctKeys(c) && Get(c, "leadTools") == leads && Get(c, "squadTools") == squads
    ensures forall k :: k != "leadTools" && k != "squadTools" ==> Get(c, k) == Undef
  {
    assert c[1..] == [Member("squadTools", squads)] && c[1..][1..] == [];
  }

  lemma FourSections(k1: string, v1: Json, k2: string, v2: Json, k3: string, v3: Json, k4: string, v4: Json)
    requires AllDifferent(k1, k2, k3, k4)
    ensures var c := [Member(k1, v1), Member(k2, v2), Member(k3, v3), Member(k4, v4)];
            && DistinctKeys(c)
            && Get(c, k1) == v1 && Get(c, k2) == v2 && Get(c, k3) == v3 && Get(c, k4) == v4
  {
    var c := [Member(k1, v1), Member(k2, v2), Member(k3, v3), Member(k4, v4)];
    GetMember(c, c[0]);
    GetMember(c, c[1]);
    GetMember(c, c[2]);
    GetMember(c, c[3]);
  }

  /**
   The built-in registry stores one in the global layer, so an unset one names itself as the source;
   below it there is nothing to hide.
   */
  lemma DefaultRegistryStoresNull(q: string)
    ensures var c := [Member("mcp", Obj([Member("thoughtmap", Obj([]))])), Member("leadTools", Obj([])),
                      Member("globalTools", Null), Member("squadTools", Obj([]))];
            && ConfigOk(c) && NoNullLists(c, q)
            && EffectiveLead(c, q) == (Null, GlobalTools)
            && ResolvedLead(c, q) == Null
  {
    var mcp := Obj([Member("thoughtmap", Obj([]))]);
    var c := [Member("mcp", mcp), Member("leadTools", Obj([])),
              Member("globalTools", Null), Member("squadTools", Obj([]))];
    assert |"mcp"| == 3 && |"globalTools"| == 11 && |"squadTools"| == 10 && |"leadTools"| == 9;
    FourSections("mcp", mcp, "leadTools", Obj([]), "globalTools", Null, "squadTools", Obj([]));
    OnlyMember("thoughtmap", Obj([]));
    NothingConnected(c);
    NullGlobal(c, q);
  }

  lemma OnlyMember(key: string, value: Json)
    ensures DistinctKeys([Member(key, value)]) && Get([Member(key, value)], key) == value
  {
  }

  lemma NullGlobal(c: seq<Member>, q: string)
    requires Get(c, "leadTools") == Get(c, "squadTools") == Obj([]) && Get(c, "globalTools") == Null
    ensures NoNullLists(c, q) && EffectiveLead(c, q) == (Null, GlobalTools) && ResolvedLead(c, q) == Null
  {
    assert At(Obj([]), q) == Undef;
  }

  lemma NothingConnected(c: seq<Member>)
    requires DistinctKeys(c) && Get(c, "mcp").Obj? && DistinctKeys(Get(c, "mcp").members)
    requires At(Get(c, "mcp"), "thoughtmap") == Obj([])
    requires Get(c, "leadTools") == Get(c, "squadTools") == Obj([]) && Get(c, "globalTools") == Null
    ensures ConfigOk(c)
  {
    forall f | f in FIELDS ensures At(Obj([]), f) == Undef {}
  }

  // ----- the preview gate

  function StagedJson(s: Staged): Json {
    Obj(Entry("thoughtmap", Some(Obj(s.thoughtmap))) + (Entry("globalTools", Some(s.globalTools))
        + (Entry("squadTools", Some(Obj(s.squadTools))) + (Entry("leadTools", Some(Obj(s.leadTools))) + []))))
  }

  function StagedFingerprint(s: Staged): string {
    StableStringify(StagedJson(s))
  }

  predicate PreviewIsValid(previewFp: string, currentFp: string) {
    previewFp != "" && previewFp == currentFp
  }

  datatype Part = ThoughtmapPart | GlobalPart | SquadPart | LeadPart

  function PartKey(part: Part): string {
    match part
    case ThoughtmapPart => "thoughtmap"
    case GlobalPart => "globalTools"
    case SquadPart => "squadTools"
    case LeadPart => "leadTools"
  }

  function PartValue(s: Staged, part: Part): Json {
    match part
    case ThoughtmapPart => Obj(s.thoughtmap)
    case GlobalPart => s.globalTools
    case SquadPart => Obj(s.squadTools)
    case LeadPart => Obj(s.leadTools)
  }

  lemma PartGet(s: Staged, part: Part)
    ensures PartKey(part) in Keys(StagedJson(s).members)
    ensures Get(StagedJson(s).members, PartKey(part)) == PartValue(s, part)
  {
    assert |"thoughtmap"| == 10 && |"globalTools"| == 11 && |"squadTools"| == 10 && |"leadTools"| == 9;
    assert "thoughtmap"[0] != "squadTools"[0];
    FourEntries("thoughtmap", Some(Obj(s.thoughtmap)), "globalTools", Some(s.globalTools),
                "squadTools", Some(Obj(s.squadTools)), "leadTools", Some(Obj(s.leadTools)), PartKey(part));
  }

  lemma PartSame(s: Staged, s': Staged, part: Part)
    requires Same(StagedJson(s), StagedJson(s'))
    ensures Same(PartValue(s, part), PartValue(s', part))
  {
    PartGet(s, part);
    PartGet(s', part);
    assert Same(Get(StagedJson(s).members, PartKey(part)), Get(StagedJson(s').members, PartKey(part)));
  }

  lemma SameListEntry(ms: seq<Member>, ns: seq<Member>, q: string)
    requires ListMap(ms) && ListMap(ns) && Same(Obj(ms), Obj(ns))
    ensures Or(Get(ms, q), Null) == Or(Get(ns, q), Null)
  {
    if q in Keys(ms) {
      assert Member(q, Get(ms, q)) in ms && Member(q, Get(ns, q)) in ns;
      SameList(Get(ms, q), Get(ns, q));
    }
  }

  lemma SameList(a: Json, b: Json)
    requires ListValue(a) && ListValue(b) && Same(a, b)
    ensures a == b
  {
    if a.Arr? {
      forall i | 0 <= i < |a.items| ensures a.items[i] == b.items[i] { assert Same(a.items[i], b.items[i]); }
    }
  }

  lemma SameField(ms: seq<Member>, ns: seq<Member>, f: string)
    requires Same(Obj(ms), Obj(ns)) && FieldValue(Get(ms, f)) && Get(ms, f) != Undef
    ensures Get(ms, f) == Get(ns, f)
  {
    assert f in Keys(ms);
    assert Same(Get(ms, f), Get(ns, f));
  }

  lemma SameNullField(ms: seq<Member>, ns: seq<Member>, f: string)
    requires Same(Obj(ms), Obj(ns)) && Get(ms, f) == Null && Get(ns, f) != Undef
    ensures Get(ns, f) == Null
  {
    assert f in Keys(ms);
    assert Same(Get(ms, f), Get(ns, f));
  }

  /** The same staged copies show the same at every path. */
  lemma SameStagedValue(s: Staged, s': Staged, p: Path)
    requires StagedOk(s) && StagedOk(s') && Editable(p) && Same(StagedJson(s), StagedJson(s'))
    ensures StagedValue(s, p) == StagedValue(s', p)
  {
    match p
    case Field(f) =>
      PartSame(s, s', ThoughtmapPart);
      if Get(s.thoughtmap, f) == Null { SameNullField(s.thoughtmap, s'.thoughtmap, f); }
      else { SameField(s.thoughtmap, s'.thoughtmap, f); }
    case Global => PartSame(s, s', GlobalPart); SameList(s.globalTools, s'.globalTools);
    case Squad(q) => PartSame(s, s', SquadPart); SameListEntry(s.squadTools, s'.squadTools, q);
    case Lead(q) => PartSame(s, s', LeadPart); SameListEntry(s.leadTools, s'.leadTools, q);
  }

  /** A preview is valid exactly while the copy, key order aside, is the one it staged. */
  lemma PreviewValidExactly(previewed: Staged, current: Staged)
    requires Wf(StagedJson(previewed)) && Wf(StagedJson(current))
    ensures PreviewIsValid(StagedFingerprint(previewed), StagedFingerprint(current))
            <==> Same(StagedJson(previewed), StagedJson(current))
    ensures previewed == current ==> PreviewIsValid(StagedFingerprint(previewed), StagedFingerprint(current))
  {
    StableStringifyCanonical(StagedJson(previewed), StagedJson(current));
    FingerprintNotEmpty(previewed);
  }

  lemma FingerprintNotEmpty(s: Staged)
    ensures StagedFingerprint(s) != ""
  {
    assert StagedJson(s).Obj?;
  }

  /** A preview that is still valid stages, at every path, what is staged now. */
  lemma ValidPreviewIsCurrent(previewed: Staged, current: Staged, p: Path)
    requires StagedOk(previewed) && StagedOk(current) && Editable(p)
    requires Wf(StagedJson(previewed)) && Wf(StagedJson(current))
    requires PreviewIsValid(StagedFingerprint(previewed), StagedFingerprint(current))
    ensures StagedValue(previewed, p) == StagedValue(current, p)
  {
    StableStringifyCanonical(StagedJson(previewed), StagedJson(current));
    SameStagedValue(previewed, current, p);
  }
}
