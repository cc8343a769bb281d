/**
 Finding the verdict object in a model's answer: the string- and escape-aware brace
 scanner, the removal of think blocks, and the search that prefers an object holding
 "verdict". The scanner is proved to undo the compact printer of the training data.
 */
module VerdictScan {
  import opened Wrappers
  import opened JsonText

  // ----- the scanner

  datatype Scan = Scan(depth: int, inStr: bool, esc: bool)

  function Next(s: Scan, c: char): Scan {
    if s.inStr then
      if s.esc then s.(esc := false)
      else if c == '\\' then s.(esc := true)
      else if c == '\"' then s.(inStr := false)
      else s
    else if c == '\"' then s.(inStr := true)
    else if c == '{' then s.(depth := s.depth + 1)
    else if c == '}' then s.(depth := s.depth - 1)
    else s
  }

  predicate Closes(s: Scan, c: char) {
    !s.inStr && c == '}' && s.depth == 1
  }

  /** How many characters of `t` the scan takes up to and including the closing brace. */
  function ScanLength(t: string, s: Scan): (n: Option<nat>)
    ensures n.Some? ==> 0 < n.value <= |t|
  {
    if t == [] then None
    else if Closes(s, t[0]) then Some(1)
    else
      match ScanLength(t[1..], Next(s, t[0]))
      case None => None
      case Some(n) => Some(n + 1)
  }

  const START := Scan(0, false, false)

  /** The balanced object that starts at `start`, if it closes. */
  function Matched(text: string, start: nat): Option<string>
    requires start <= |text|
  {
    match ScanLength(text[start..], START)
    case None => None
    case Some(n) => Some(text[start..start + n])
  }

  method BraceMatch(text: string, start: nat) returns (r: Option<string>)
    requires start <= |text|
    ensures r == Matched(text, start)
  {
    var depth, i, inStr, esc := 0, start, false, false;
    while i < |text|
      invariant start <= i <= |text|
      invariant ScanLength(text[start..], START) ==
                match ScanLength(text[i..], Scan(depth, inStr, esc))
                case None => None
                case Some(n) => Some(n + (i - start))
    {
      var c := text[i];
      assert text[i..][1..] == text[i + 1..];
      if inStr {
        if esc { esc := false; }
        else if c == '\\' { esc := true; }
        else if c == '\"' { inStr := false; }
      } else {
        if c == '\"' { inStr := true; }
        else if c == '{' { depth := depth + 1; }
        else if c == '}' {
          depth := depth - 1;
          if depth == 0 {
            return Some(text[start..i + 1]);
          }
        }
      }
      i := i + 1;
    }
    return None;
  }

  // ----- the scanner over printed text

  /** Scanning `w` from `s` never closes the object and ends in `s'`. */
  predicate Passes(w: string, s: Scan, s': Scan) {
    if w == [] then s == s'
    else !Closes(s, w[0]) && Passes(w[1..], Next(s, w[0]), s')
  }

  lemma {:induction false} PassesConcat(v: string, w: string, s: Scan, m: Scan, s': Scan)
    requires Passes(v, s, m) && Passes(w, m, s')
    ensures Passes(v + w, s, s')
  {
    if v == [] {
      assert v + w == w;
    } else {
      PassesConcat(v[1..], w, Next(s, v[0]), m, s');
      assert (v + w)[1..] == v[1..] + w;
    }
  }

  lemma {:induction false} ScanAfter(w: string, rest: string, s: Scan, s': Scan)
    requires Passes(w, s, s')
    ensures ScanLength(w + rest, s) ==
            match ScanLength(rest, s') case None => None case Some(n) => Some(n + |w|)
  {
    if w == [] {
      assert w + rest == rest;
    } else {
      assert (w + rest)[1..] == w[1..] + rest;
      ScanAfter(w[1..], rest, Next(s, w[0]), s');
    }
  }

  lemma PlainPasses(w: string, s: Scan)
    requires !s.inStr
    requires forall i :: 0 <= i < |w| ==> w[i] !in "\"{}"
    ensures Passes(w, s, s)
  {
  }

  lemma EscapedCharPasses(c: char, d: int)
    ensures Passes(EscapeChar(c), Scan(d, true, false), Scan(d, true, false))
  {
    var e := EscapeChar(c);
    var s := Scan(d, true, false);
    if |e| == 1 {
      assert e[1..] == [];
    } else {
      assert Next(s, e[0]) == s.(esc := true);
      assert Next(s.(esc := true), e[1]) == s;
      if |e| == 2 {
        assert e[1..][1..] == [];
      } else {
        var n := c as int;
        assert HEX[n / 16] !in "\\\"" && HEX[n % 16] !in "\\\"";
        assert e[1..][1..] == e[2..];
        assert e[2..] == ['0', '0', HEX[n / 16], HEX[n % 16]];
        InsidePasses(e[2..], s);
      }
    }
  }

  lemma InsidePasses(w: string, s: Scan)
    requires s.inStr && !s.esc
    requires forall i :: 0 <= i < |w| ==> w[i] !in "\\\""
    ensures Passes(w, s, s)
  {
  }

  lemma {:induction false} EscapedPasses(s: string, d: int)
    ensures Passes(Escape(s), Scan(d, true, false), Scan(d, true, false))
  {
    if s != [] {
      EscapedCharPasses(s[0], d);
      EscapedPasses(s[1..], d);
      PassesConcat(EscapeChar(s[0]), Escape(s[1..]), Scan(d, true, false), Scan(d, true, false), Scan(d, true, false));
    }
  }

  lemma QuotedPasses(s: string, d: int)
    ensures Passes(Quote(s), Scan(d, false, false), Scan(d, false, false))
  {
    var out, in_ := Scan(d, false, false), Scan(d, true, false);
    assert Passes("\"", out, in_) by { assert "\""[1..] == []; }
    assert Passes("\"", in_, out) by { assert "\""[1..] == []; }
    EscapedPasses(s, d);
    PassesConcat("\"", Escape(s), out, in_, in_);
    PassesConcat("\"" + Escape(s), "\"", out, in_, out);
  }

  /** One piece of a string literal: a plain character, or a backslash and whatever follows it. */
  predicate Piece(w: string) {
    (|w| == 1 && w[0] != '\"' && w[0] != '\\') || (|w| == 2 && w[0] == '\\')
  }

  function Joined(ws: seq<string>): string {
    if ws == [] then "" else ws[0] + Joined(ws[1..])
  }

  /** Any literal at all, escapes of every kind included, leaves the scan where it was. */
  lemma LiteralPasses(ws: seq<string>, d: int)
    requires forall i :: 0 <= i < |ws| ==> Piece(ws[i])
    ensures Passes("\"" + Joined(ws) + "\"", Scan(d, false, false), Scan(d, false, false))
  {
    var out, in_ := Scan(d, false, false), Scan(d, true, false);
    assert Passes("\"", out, in_) by { assert "\""[1..] == []; }
    assert Passes("\"", in_, out) by { assert "\""[1..] == []; }
    PiecesPass(ws, in_);
    PassesConcat("\"", Joined(ws), out, in_, in_);
    PassesConcat("\"" + Joined(ws), "\"", out, in_, out);
  }

  lemma {:induction false} PiecesPass(ws: seq<string>, s: Scan)
    requires s.inStr && !s.esc && forall i :: 0 <= i < |ws| ==> Piece(ws[i])
    ensures Passes(Joined(ws), s, s)
  {
    if ws != [] {
      var w := ws[0];
      assert Passes(w, s, s) by {
        assert |w| == 1 ==> w[1..] == [];
        assert |w| == 2 ==> w[1..][1..] == [];
      }
      PiecesPass(ws[1..], s);
      PassesConcat(w, Joined(ws[1..]), s, s, s);
    }
  }

  /** How deep `w` leaves a scan that was `d` deep: each brace counts one. */
  function Depth(w: string, d: int): int {
    d + multiset(w)['{'] - multiset(w)['}']
  }

  /** Outside literals the scan counts braces, and goes on as long as it stays inside. */
  lemma {:induction false} GapPasses(w: string, d: int)
    requires '\"' !in w && forall k :: 0 < k <= |w| ==> Depth(w[..k], d) != 0
    ensures Passes(w, Scan(d, false, false), Scan(Depth(w, d), false, false))
  {
    if w != [] {
      var n := |w| - 1;
      assert w == w[..n] + [w[n]] && w[..|w|] == w;
      forall k | 0 < k <= n ensures Depth(w[..n][..k], d) != 0 { assert w[..n][..k] == w[..k]; }
      GapPasses(w[..n], d);
      var s := Scan(Depth(w[..n], d), false, false);
      assert Passes([w[n]], s, Next(s, w[n])) by { assert [w[n]][1..] == []; }
      PassesConcat(w[..n], [w[n]], Scan(d, false, false), s, Next(s, w[n]));
    }
  }

  /** The scan ends behind the brace that takes it back to depth zero. */
  lemma GapCloses(w: string, rest: string)
    requires '\"' !in w && forall k :: 0 < k <= |w| ==> Depth(w[..k], 0) != 0
    requires Depth(w, 0) == 1
    ensures ScanLength(w + "}" + rest, START) == Some(|w| + 1)
  {
    GapPasses(w, 0);
    assert w + "}" + rest == w + ("}" + rest);
    ScanAfter(w, "}" + rest, START, Scan(1, false, false));
  }

  /** Inside an object, any printed value leaves the scan where it was. */
  lemma {:induction false} PrintedPasses(j: Json, d: int)
    requires Wf(j) && d >= 1
    ensures Passes(Print(j), Scan(d, false, false), Scan(d, false, false))
    decreases j, 1
  {
    match j
    case Str(text) => QuotedPasses(text, d);
    case Arr(items) => ArrayPasses(items, d);
    case Obj(ms) => ObjectPasses(ms, d);
    case _ => WordPasses(j, Scan(d, false, false));
  }

  predicate IsWord(j: Json) {
    !j.Str? && !j.Arr? && !j.Obj?
  }

  lemma WordChars(j: Json)
    requires Wf(j) && IsWord(j)
    ensures forall i :: 0 <= i < |Print(j)| ==> Print(j)[i] !in "\"{}\\<"
  {
    if j.Num? {
      forall i | 0 <= i < |j.token| ensures j.token[i] !in "\"{}\\<" {
        assert j.token[i] in NUMBER_CHARS;
      }
    }
  }

  lemma WordPasses(j: Json, s: Scan)
    requires Wf(j) && IsWord(j) && !s.inStr
    ensures Passes(Print(j), s, s)
  {
    WordChars(j);
    PlainPasses(Print(j), s);
  }

  lemma {:induction false} ArrayPasses(items: seq<Json>, d: int)
    requires d >= 1 && forall i :: 0 <= i < |items| ==> Wf(items[i])
    ensures Passes(Print(Arr(items)), Scan(d, false, false), Scan(d, false, false))
    decreases items, 1
  {
    var s := Scan(d, false, false);
    ItemsPass(items, d);
    PlainPasses("[", s);
    PlainPasses("]", s);
    PassesConcat("[", PrintItems(items), s, s, s);
    PassesConcat("[" + PrintItems(items), "]", s, s, s);
  }

  lemma {:induction false} ItemsPass(items: seq<Json>, d: int)
    requires d >= 1 && forall i :: 0 <= i < |items| ==> Wf(items[i])
    ensures Passes(PrintItems(items), Scan(d, false, false), Scan(d, false, false))
    decreases items, 0
  {
    if items != [] {
      var s := Scan(d, false, false);
      PrintedPasses(items[0], d);
      if |items| > 1 {
        PlainPasses(",", s);
        ItemsPass(items[1..], d);
        PassesConcat(Print(items[0]), ",", s, s, s);
        PassesConcat(Print(items[0]) + ",", PrintItems(items[1..]), s, s, s);
      }
    }
  }

  lemma {:induction false} MembersPass(ms: seq<Member>, d: int)
    requires d >= 1 && forall i :: 0 <= i < |ms| ==> Wf(ms[i].value)
    ensures Passes(PrintMembers(ms), Scan(d, false, false), Scan(d, false, false))
    decreases ms, 0
  {
    if ms != [] {
      var s := Scan(d, false, false);
      var key, value := Quote(ms[0].key), Print(ms[0].value);
      QuotedPasses(ms[0].key, d);
      PlainPasses(":", s);
      PrintedPasses(ms[0].value, d);
      PassesConcat(key, ":", s, s, s);
      PassesConcat(key + ":", value, s, s, s);
      if |ms| > 1 {
        PlainPasses(",", s);
        MembersPass(ms[1..], d);
        PassesConcat(key + ":" + value, ",", s, s, s);
        PassesConcat(key + ":" + value + ",", PrintMembers(ms[1..]), s, s, s);
      }
    }
  }

  lemma {:induction false} ObjectPasses(ms: seq<Member>, d: int)
    requires d >= 1 && forall i :: 0 <= i < |ms| ==> Wf(ms[i].value)
    ensures Passes(Print(Obj(ms)), Scan(d, false, false), Scan(d, false, false))
    decreases ms, 1
  {
    var s, inner := Scan(d, false, false), Scan(d + 1, false, false);
    MembersPass(ms, d + 1);
    assert Passes("{", s, inner) by { assert "{"[1..] == []; }
    assert Passes("}", inner, s) by { assert "}"[1..] == []; }
    PassesConcat("{", PrintMembers(ms), s, inner, inner);
    PassesConcat("{" + PrintMembers(ms), "}", s, inner, s);
  }

  /** Scanning at a printed object finds exactly that object, whatever stands around it. */
  lemma ScanUndoesPrint(pre: string, ms: seq<Member>, suf: string)
    requires Wf(Obj(ms))
    ensures Matched(pre + Print(Obj(ms)) + suf, |pre|) == Some(Print(Obj(ms)))
  {
    var text := Print(Obj(ms));
    var body := "{" + PrintMembers(ms);
    var inner := Scan(1, false, false);
    MembersPass(ms, 1);
    assert Passes("{", START, inner) by { assert "{"[1..] == []; }
    PassesConcat("{", PrintMembers(ms), START, inner, inner);
    ScanAfter(body, "}" + suf, START, inner);
    assert ScanLength("}" + suf, inner) == Some(1);
    var all := pre + text + suf;
    assert all[|pre|..] == body + ("}" + suf);
    assert all[|pre|..|pre| + |text|] == text;
  }

  lemma {:induction false} NoEarlyClose(t: string, s: Scan, k: nat)
    requires k < |t| && (ScanLength(t, s).Some? ==> k < ScanLength(t, s).value)
    ensures ScanLength(t[..k], s) == None
  {
    if k > 0 {
      assert t[..k][1..] == t[1..][..k - 1];
      NoEarlyClose(t[1..], Next(s, t[0]), k - 1);
    }
  }

  /** An object cut short, at whatever character, is not found. */
  lemma TruncatedObjectRefused(pre: string, ms: seq<Member>, k: nat)
    requires Wf(Obj(ms)) && k < |Print(Obj(ms))|
    ensures Matched(pre + Print(Obj(ms))[..k], |pre|) == None
  {
    var text := Print(Obj(ms));
    ScanUndoesPrint(pre, ms, "");
    assert (pre + text + "")[|pre|..] == text;
    var n := ScanLength(text, START).value;
    assert (pre + text + "")[|pre|..|pre| + n] == text[..n];
    assert |text[..n]| == |text|;
    NoEarlyClose(text, START, k);
    assert (pre + text[..k])[|pre|..] == text[..k];
  }

  // ----- think blocks

  const OPEN := "<think>"
  const CLOSE := "</think>"

  predicate StandsAt(text: string, i: nat, pattern: string) {
    i + |pattern| <= |text| && text[i..i + |pattern|] == pattern
  }

  lemma StandsInTail(text: string, pattern: string)
    requires text != [] && !(pattern <= text)
    ensures forall i: nat :: StandsAt(text, i, pattern) <==> i > 0 && StandsAt(text[1..], i - 1, pattern)
  {
  }

  /** Where `pattern` first stands in `text`. */
  function Find(text: string, pattern: string): (r: Option<nat>)
    ensures r.Some? ==> StandsAt(text, r.value, pattern)
    ensures forall i: nat :: (r.None? || i < r.value) ==> !StandsAt(text, i, pattern)
  {
    if pattern <= text then
      assert text[0..|pattern|] == pattern;
      Some(0)
    else if text == [] then None
    else
      StandsInTail(text, pattern);
      match Find(text[1..], pattern)
      case None => None
      case Some(i) => Some(i + 1)
  }

  /** Every leftmost `<think>`, up to the nearest `</think>`, removed. */
  function StripThink(text: string): string
    decreases |text|
  {
    match Find(text, OPEN)
    case None => text
    case Some(i) =>
      var after := text[i + |OPEN|..];
      match Find(after, CLOSE)
      case None => text
      case Some(j) => text[..i] + StripThink(after[j + |CLOSE|..])
  }

  predicate HasThinkBlock(text: string) {
    var i := Find(text, OPEN);
    i.Some? && Find(text[i.value + |OPEN|..], CLOSE).Some?
  }

  lemma {:induction false} StripShortens(text: string)
    ensures |StripThink(text)| <= |text|
    ensures StripThink(text) == text <==> !HasThinkBlock(text)
    decreases |text|
  {
    if HasThinkBlock(text) {
      var i := Find(text, OPEN).value;
      var after := text[i + |OPEN|..];
      var j := Find(after, CLOSE).value;
      StripShortens(after[j + |CLOSE|..]);
      assert |StripThink(text)| < |text|;
    }
  }

  lemma FindFirst(a: string, pattern: string, rest: string)
    requires pattern != [] && forall k :: 0 < k < |pattern| ==> pattern[k] != pattern[0]
    requires Find(a, pattern).None?
    ensures Find(a + pattern + rest, pattern) == Some(|a|)
  {
    var text := a + pattern + rest;
    assert StandsAt(text, |a|, pattern);
    forall n: nat | n < |a| ensures !StandsAt(text, n, pattern) {
      if n + |pattern| <= |a| {
        assert a[n..n + |pattern|] == text[n..n + |pattern|];
        assert !StandsAt(a, n, pattern);
      } else if n + |pattern| <= |text| {
        assert text[n..n + |pattern|][|a| - n] == text[|a|] == pattern[0];
      }
    }
  }

  /** A block in the text is cut out and the search goes on behind it. */
  lemma StripBlock(a: string, body: string, rest: string)
    requires Find(a, OPEN).None? && Find(body, CLOSE).None?
    ensures StripThink(a + OPEN + body + CLOSE + rest) == a + StripThink(rest)
  {
    var more := body + CLOSE + rest;
    Associate(a, OPEN, body, CLOSE, rest);
    FindFirst(a, OPEN, more);
    TakeDrop(a, OPEN, more);
    FindFirst(body, CLOSE, rest);
    TakeDrop(body, CLOSE, rest);
  }

  lemma Associate(a: string, open: string, body: string, close: string, rest: string)
    ensures a + open + body + close + rest == a + open + (body + close + rest)
  {
  }

  lemma TakeDrop(a: string, mark: string, more: string)
    ensures var text := a + mark + more; text[..|a|] == a && text[|a| + |mark|..] == more
  {
  }

  // ----- marks in printed text

  /** Nothing `w` ends with reaches into what follows it. */
  ghost predicate Whole(w: string) {
    forall x: string :: Spelt(w + x) == Spelt(w) + Spelt(x)
  }

  /** Every `<` stands where a new spelling starts, so cutting there cuts no escape. */
  ghost predicate Clean(w: string) {
    forall k :: 0 <= k < |w| && w[k] == '<' ==> Whole(w[..k])
  }

  lemma WholeConcat(v: string, w: string)
    requires Whole(v)
    ensures Whole(w) <==> Whole(v + w)
  {
    forall x: string ensures Spelt((v + w) + x) == Spelt(v) + Spelt(w + x) {
      assert (v + w) + x == v + (w + x);
    }
    assert Spelt(v + w) == Spelt(v) + Spelt(w);
    if Whole(v + w) {
      forall x: string ensures Spelt(w + x) == Spelt(w) + Spelt(x) {
        assert Spelt((v + w) + x) == Spelt(v + w) + Spelt(x);
      }
    }
  }

  lemma CleanConcat(v: string, w: string)
    requires Whole(v) && Clean(v) && Clean(w)
    ensures Clean(v + w)
  {
    forall k | 0 <= k < |v + w| && (v + w)[k] == '<' ensures Whole((v + w)[..k]) {
      if k < |v| {
        assert (v + w)[..k] == v[..k];
      } else {
        assert (v + w)[..k] == v + w[..k - |v|];
        assert w[k - |v|] == '<';
        WholeConcat(v, w[..k - |v|]);
      }
    }
  }

  lemma CleanRest(v: string, w: string)
    requires Whole(v) && Clean(v + w)
    ensures Clean(w)
  {
    forall k | 0 <= k < |w| && w[k] == '<' ensures Whole(w[..k]) {
      assert (v + w)[|v| + k] == '<' && (v + w)[..|v| + k] == v + w[..k];
      WholeConcat(v, w[..k]);
    }
  }

  lemma PlainWhole(w: string)
    requires '\\' !in w
    ensures Whole(w) && Spelt(w) == Marks(w)
  {
    forall x: string ensures Spelt(w + x) == Marks(w) + Spelt(x) {
      assert (w + x)[..|w|] == w && (w + x)[|w|..] == x;
      DropPlain(w + x, |w|);
    }
    assert w + "" == w;
  }

  /** Text that ends no escape early and spells `n` marks. */
  ghost predicate Tidy(w: string, n: nat) {
    Whole(w) && Clean(w) && Spelt(w) == n
  }

  lemma TidyConcat(v: string, n: nat, w: string, m: nat)
    requires Tidy(v, n) && Tidy(w, m)
    ensures Tidy(v + w, n + m)
  {
    WholeConcat(v, w);
    CleanConcat(v, w);
  }

  lemma PlainTidy(w: string)
    requires '\\' !in w
    ensures Tidy(w, Marks(w))
  {
    PlainWhole(w);
    forall k | 0 <= k < |w| && w[k] == '<' ensures Whole(w[..k]) {
      PlainWhole(w[..k]);
    }
  }

  lemma UnmarkedTidy(w: string)
    requires '\\' !in w && '<' !in w
    ensures Tidy(w, 0)
  {
    PlainTidy(w);
    NoMarks(w);
  }

  lemma EscapedCharTidy(c: char)
    ensures Tidy(EscapeChar(c), Marks([c]))
  {
    var e := EscapeChar(c);
    if |e| == 1 {
      PlainTidy(e);
    } else {
      assert Marks([c]) == 0 by { NoMarks([c]); }
      EscapeShape(c);
      PairTidy(e);
    }
  }

  lemma EscapeShape(c: char)
    requires |EscapeChar(c)| > 1
    ensures var e := EscapeChar(c); e[0] == '\\' && !SpellsMark(e) && '<' !in e && '\\' !in e[2..]
    ensures (|EscapeChar(c)| == 2 && EscapeChar(c)[1] != 'u') || |EscapeChar(c)| == 6
    ensures c != '<'
  {
  }

  lemma PairTidy(e: string)
    requires (|e| == 2 && e[1] != 'u') || |e| == 6
    requires e[0] == '\\' && !SpellsMark(e) && '<' !in e && '\\' !in e[2..]
    ensures Tidy(e, 0)
  {
    PlainWhole(e[2..]);
    NoMarks(e[2..]);
    forall x: string ensures Spelt(e + x) == Spelt(x) {
      PairSpells(e, x);
    }
    assert e + "" == e;
  }

  lemma PairSpells(e: string, x: string)
    requires |e| == 2 || |e| == 6
    requires e[0] == '\\' && !SpellsMark(e) && Whole(e[2..]) && Spelt(e[2..]) == 0
    requires |e| == 2 ==> e[1] != 'u'
    ensures Spelt(e + x) == Spelt(x)
  {
    assert (e + x)[2..] == e[2..] + x;
    if |e| == 6 {
      assert forall k :: 0 <= k < 6 ==> (e + x)[k] == e[k];
    }
  }

  lemma {:induction false} EscapedTidy(s: string)
    ensures Tidy(Escape(s), Marks(s))
  {
    if s == [] {
      UnmarkedTidy("");
    } else {
      EscapedCharTidy(s[0]);
      assert [s[0]][1..] == [] && Marks(s) == Marks([s[0]]) + Marks(s[1..]);
      EscapedTidy(s[1..]);
      TidyConcat(EscapeChar(s[0]), Marks([s[0]]), Escape(s[1..]), Marks(s[1..]));
    }
  }

  lemma QuotedTidy(s: string)
    ensures Tidy(Quote(s), Marks(s))
  {
    UnmarkedTidy("\"");
    EscapedTidy(s);
    TidyConcat("\"", 0, Escape(s), Marks(s));
    TidyConcat("\"" + Escape(s), Marks(s), "\"", 0);
  }

  lemma WrappedTidy(open: string, w: string, n: nat, close: string)
    requires Tidy(w, n) && (open, close) in {("[", "]"), ("{", "}")}
    ensures Tidy(open + w + close, n)
  {
    UnmarkedTidy(open);
    UnmarkedTidy(close);
    TidyConcat(open, 0, w, n);
    TidyConcat(open + w, n, close, 0);
  }

  lemma JoinedTidy(v: string, n: nat, mark: string, w: string, m: nat)
    requires Tidy(v, n) && Tidy(w, m) && mark in {",", ":"}
    ensures Tidy(v + mark + w, n + m)
  {
    UnmarkedTidy(mark);
    TidyConcat(v, n, mark, 0);
    TidyConcat(v + mark, n, w, m);
  }

  /** The printed text spells exactly the marks its value holds. */
  lemma {:induction false} PrintedTidy(j: Json)
    requires Wf(j)
    ensures Tidy(Print(j), MarksIn(j))
    decreases j, 1
  {
    match j
    case Str(text) => QuotedTidy(text);
    case Arr(items) => ArrayTidy(items);
    case Obj(ms) => ObjectTidy(ms);
    case _ => WordTidy(j);
  }

  lemma WordTidy(j: Json)
    requires Wf(j) && IsWord(j)
    ensures Tidy(Print(j), 0)
  {
    WordChars(j);
    UnmarkedTidy(Print(j));
  }

  lemma {:induction false} ArrayTidy(items: seq<Json>)
    requires forall i :: 0 <= i < |items| ==> Wf(items[i])
    ensures Tidy(Print(Arr(items)), MarksInItems(items))
    decreases items, 1
  {
    ItemsTidy(items);
    WrappedTidy("[", PrintItems(items), MarksInItems(items), "]");
  }

  lemma {:induction false} ObjectTidy(ms: seq<Member>)
    requires forall i :: 0 <= i < |ms| ==> Wf(ms[i].value)
    ensures Tidy(Print(Obj(ms)), MarksInMembers(ms))
    decreases ms, 1
  {
    MembersTidy(ms);
    WrappedTidy("{", PrintMembers(ms), MarksInMembers(ms), "}");
  }

  lemma {:induction false} ItemsTidy(items: seq<Json>)
    requires forall i :: 0 <= i < |items| ==> Wf(items[i])
    ensures Tidy(PrintItems(items), MarksInItems(items))
    decreases items, 0
  {
    if items == [] {
      UnmarkedTidy("");
    } else {
      PrintedTidy(items[0]);
      ItemsTidy(items[1..]);
      if |items| > 1 {
        JoinedTidy(Print(items[0]), MarksIn(items[0]), ",", PrintItems(items[1..]), MarksInItems(items[1..]));
      }
    }
  }

  lemma {:induction false} MembersTidy(ms: seq<Member>)
    requires forall i :: 0 <= i < |ms| ==> Wf(ms[i].value)
    ensures Tidy(PrintMembers(ms), MarksInMembers(ms))
    decreases ms, 0
  {
    if ms == [] {
      UnmarkedTidy("");
    } else {
      var text, n := Quote(ms[0].key) + ":" + Print(ms[0].value), Marks(ms[0].key) + MarksIn(ms[0].value);
      QuotedTidy(ms[0].key);
      PrintedTidy(ms[0].value);
      JoinedTidy(Quote(ms[0].key), Marks(ms[0].key), ":", Print(ms[0].value), MarksIn(ms[0].value));
      MembersTidy(ms[1..]);
      if |ms| > 1 {
        JoinedTidy(text, n, ",", PrintMembers(ms[1..]), MarksInMembers(ms[1..]));
      }
    }
  }

  // ----- fewer marks behind the removal of a block

  /** A block runs from a `<` that starts a spelling to the end of one. */
  lemma BlockSpells(a: string, open: string, body: string, close: string, rest: string)
    requires open != [] && open[0] == '<' && close != [] && close[0] == '<' && '\\' !in close
    requires Clean(a + open + body + close + rest)
    ensures Whole(a) && Clean(rest)
    ensures Spelt(a + open + body + close + rest) > Spelt(a) + Spelt(rest)
  {
    var text, upto := a + open + body + close + rest, a + open + body;
    assert text[|a|] == '<' && text[..|a|] == a;
    assert text[|upto|] == '<' && text[..|upto|] == upto;
    PlainWhole(close);
    WholeConcat(upto, close);
    assert upto + close + rest == text;
    CleanRest(upto + close, rest);
    MarkFirst(a, open, body, close);
  }

  lemma MarkFirst(a: string, open: string, body: string, close: string)
    requires Whole(a) && open != [] && open[0] == '<'
    ensures Spelt(a + open + body + close) > Spelt(a)
  {
    var block := open + body + close;
    assert a + open + body + close == a + block;
    assert block[0] == '<';
  }

  lemma Cut(text: string, i: nat, mark: string)
    requires StandsAt(text, i, mark)
    ensures text == text[..i] + mark + text[i + |mark|..]
  {
  }

  lemma FirstBlock(text: string) returns (a: string, body: string, rest: string)
    requires HasThinkBlock(text)
    ensures text == a + OPEN + body + CLOSE + rest && StripThink(text) == a + StripThink(rest)
  {
    var i := Find(text, OPEN).value;
    var after := text[i + |OPEN|..];
    var j := Find(after, CLOSE).value;
    a, body, rest := text[..i], after[..j], after[j + |CLOSE|..];
    Cut(text, i, OPEN);
    Cut(after, j, CLOSE);
    Associate(a, OPEN, body, CLOSE, rest);
  }

  lemma WholeAdds(a: string, w: string)
    requires Whole(a)
    ensures Spelt(a + w) == Spelt(a) + Spelt(w)
  {
  }

  lemma {:induction false} StripSpells(text: string)
    requires Clean(text)
    ensures Spelt(StripThink(text)) <= Spelt(text)
    ensures HasThinkBlock(text) ==> Spelt(StripThink(text)) < Spelt(text)
    decreases |text|
  {
    if HasThinkBlock(text) {
      var a, body, rest := FirstBlock(text);
      BlockSpells(a, OPEN, body, CLOSE, rest);
      StripSpells(rest);
      WholeAdds(a, StripThink(rest));
    } else {
      StripShortens(text);
    }
  }

  lemma {:induction false} PrefixSpells(t: string, n: nat)
    requires n <= |t|
    ensures Spelt(t[..n]) <= Spelt(t)
    decreases n
  {
    if n > 0 {
      if SpellsMark(t) {
        if n >= 6 {
          assert t[..n][6..] == t[6..][..n - 6];
          PrefixSpells(t[6..], n - 6);
        } else {
          ShortSpellsNothing(t, n);
        }
      } else if t[0] == '\\' {
        if n >= 2 {
          assert t[..n][2..] == t[2..][..n - 2];
          PrefixSpells(t[2..], n - 2);
          assert !SpellsMark(t[..n]);
        }
      } else {
        assert t[..n][1..] == t[1..][..n - 1];
        PrefixSpells(t[1..], n - 1);
      }
    }
  }

  lemma ShortSpellsNothing(t: string, n: nat)
    requires SpellsMark(t) && 0 < n < 6
    ensures Spelt(t[..n]) == 0
  {
    var w := t[..n];
    if n >= 2 {
      assert '\\' !in w[2..] && '<' !in w[2..];
      PlainWhole(w[2..]);
      NoMarks(w[2..]);
    }
  }

  lemma {:induction false} SuffixSpells(t: string, k: nat)
    requires k < |t| && t[k] == '{'
    ensures Spelt(t[k..]) <= Spelt(t)
    decreases k
  {
    if k == 0 {
      assert t[0..] == t;
    } else if SpellsMark(t) {
      assert t[6..][k - 6..] == t[k..];
      SuffixSpells(t[6..], k - 6);
    } else if t[0] == '\\' {
      if k == 1 {
        assert t[1..][1..] == t[2..];
      } else {
        assert t[2..][k - 2..] == t[k..];
        SuffixSpells(t[2..], k - 2);
      }
    } else {
      assert t[1..][k - 1..] == t[k..];
      SuffixSpells(t[1..], k - 1);
    }
  }

  // ----- extract_json

  predicate HasVerdict(j: Json) {
    j.Obj? && "verdict" in Keys(j.members)
  }

  /** The value read at index `i`, if an object opens, closes and parses there. */
  function Candidate(text: string, i: nat, loads: string -> Option<Json>): Option<Json>
    requires i < |text|
  {
    if text[i] != '{' then None
    else
      match Matched(text, i)
      case None => None
      case Some(found) => loads(found)
  }

  predicate VerdictAt(text: string, i: nat, loads: string -> Option<Json>)
    requires i < |text|
  {
    Candidate(text, i, loads).Some? && HasVerdict(Candidate(text, i, loads).value)
  }

  /**
   `r` is the leftmost candidate that holds "verdict"; without one, the leftmost candidate;
   without any, nothing.
   */
  ghost predicate Chosen(text: string, loads: string -> Option<Json>, r: Option<Json>) {
    if exists i :: 0 <= i < |text| && VerdictAt(text, i, loads) then
      exists i :: 0 <= i < |text| && VerdictAt(text, i, loads) && r == Candidate(text, i, loads)
                  && forall k :: 0 <= k < i ==> !VerdictAt(text, k, loads)
    else if exists i :: 0 <= i < |text| && Candidate(text, i, loads).Some? then
      exists i :: 0 <= i < |text| && Candidate(text, i, loads).Some? && r == Candidate(text, i, loads)
                  && forall k :: 0 <= k < i ==> Candidate(text, k, loads).None?
    else r == None
  }

  method ExtractJson(raw: string, loads: string -> Option<Json>) returns (r: Option<Json>)
    ensures Chosen(StripThink(raw), loads, r)
  {
    var text := StripThink(raw);
    var candidates: seq<Json> := [];
    ghost var first := 0;
    var idx := 0;
    while idx < |text|
      invariant 0 <= idx <= |text|
      invariant forall k :: 0 <= k < idx ==> !VerdictAt(text, k, loads)
      invariant candidates == [] ==> forall k :: 0 <= k < idx ==> Candidate(text, k, loads).None?
      invariant candidates != [] ==>
                  0 <= first < idx && Candidate(text, first, loads) == Some(candidates[0])
                  && forall k :: 0 <= k < first ==> Candidate(text, k, loads).None?
    {
      if text[idx] == '{' {
        var cand := BraceMatch(text, idx);
        if cand.Some? {
          var obj := loads(cand.value);
          if obj.Some? {
            if HasVerdict(obj.value) {
              assert VerdictAt(text, idx, loads);
              return obj;
            }
            if candidates == [] { first := idx; }
            candidates := candidates + [obj.value];
          }
        }
      }
      idx := idx + 1;
    }
    if candidates != [] {
      return Some(candidates[0]);
    }
    return None;
  }

  /** The choice is determined, so what is proved of a chosen value is proved of the answer. */
  lemma ChosenUnique(text: string, loads: string -> Option<Json>, r: Option<Json>, r': Option<Json>)
    requires Chosen(text, loads, r) && Chosen(text, loads, r')
    ensures r == r'
  {
  }

  /**
   Any prose without `{`, then the printed verdict object, then anything at all: the answer is
   the object, for every `json.loads` that reads the printed object back.
   */
  lemma ExtractUndoesPrint(raw: string, pre: string, o: Json, suf: string,
                           loads: string -> Option<Json>, r: Option<Json>)
    requires Wf(o) && HasVerdict(o) && loads(Print(o)) == Some(o)
    requires '{' !in pre && StripThink(raw) == pre + Print(o) + suf
    requires Chosen(StripThink(raw), loads, r)
    ensures r == Some(o)
  {
    var text := pre + Print(o) + suf;
    ScanUndoesPrint(pre, o.members, suf);
    assert text[|pre|] == '{';
    assert Candidate(text, |pre|, loads) == Some(o);
    assert VerdictAt(text, |pre|, loads);
    forall k | 0 <= k < |pre| ensures !VerdictAt(text, k, loads) {
      assert text[k] == pre[k];
    }
    assert Chosen(text, loads, Some(o));
    ChosenUnique(text, loads, r, Some(o));
  }

  /** Whenever an object with the key "verdict" can be read, one such is chosen; nothing only when nothing can. */
  lemma VerdictPreferred(text: string, loads: string -> Option<Json>, r: Option<Json>)
    requires Chosen(text, loads, r)
    ensures r.Some? && r.value.Obj? && "verdict" in Keys(r.value.members) <==>
            exists i :: 0 <= i < |text| && Candidate(text, i, loads).Some?
              && var j := Candidate(text, i, loads).value; j.Obj? && "verdict" in Keys(j.members)
    ensures r.None? <==> forall i :: 0 <= i < |text| ==> Candidate(text, i, loads).None?
  {
    if i :| 0 <= i < |text| && Candidate(text, i, loads).Some? && HasVerdict(Candidate(text, i, loads).value) {
      assert VerdictAt(text, i, loads);
    }
  }

  lemma PrintedCandidate(text: string, p: nat, o: Json, loads: string -> Option<Json>)
    requires Wf(o) && o.Obj? && loads(Print(o)) == Some(o)
    requires p + |Print(o)| <= |text| && text[p..p + |Print(o)|] == Print(o)
    ensures p < |text| && Candidate(text, p, loads) == Some(o)
  {
    var pre, suf := text[..p], text[p + |Print(o)|..];
    assert text == pre + Print(o) + suf;
    ScanUndoesPrint(pre, o.members, suf);
    assert text[p] == Print(o)[0] == '{';
  }

  /** Of two printed objects the first is the answer, unless only the second holds "verdict". */
  lemma FirstUnlessVerdict(text: string, p: nat, a: Json, q: nat, o: Json,
                           loads: string -> Option<Json>, r: Option<Json>)
    requires Wf(a) && a.Obj? && loads(Print(a)) == Some(a) && Wf(o) && o.Obj? && loads(Print(o)) == Some(o)
    requires p < q && p + |Print(a)| <= |text| && text[p..p + |Print(a)|] == Print(a)
    requires q + |Print(o)| <= |text| && text[q..q + |Print(o)|] == Print(o)
    requires forall k :: 0 <= k < |text| && text[k] == '{' ==> k == p || k == q
    requires Chosen(text, loads, r)
    ensures r == Some(if "verdict" !in Keys(a.members) && "verdict" in Keys(o.members) then o else a)
  {
    PrintedCandidate(text, p, a, loads);
    PrintedCandidate(text, q, o, loads);
    ChosenOfTwo(text, p, q, a, o, loads, r);
  }

  lemma ChosenOfTwo(text: string, p: nat, q: nat, a: Json, o: Json, loads: string -> Option<Json>, r: Option<Json>)
    requires p < q < |text| && Candidate(text, p, loads) == Some(a) && Candidate(text, q, loads) == Some(o)
    requires forall k :: 0 <= k < |text| && k != p && k != q ==> Candidate(text, k, loads).None?
    requires a.Obj? && o.Obj? && Chosen(text, loads, r)
    ensures r == Some(if "verdict" !in Keys(a.members) && "verdict" in Keys(o.members) then o else a)
  {
    assert VerdictAt(text, p, loads) <==> "verdict" in Keys(a.members);
    assert VerdictAt(text, q, loads) <==> "verdict" in Keys(o.members);
  }

  lemma StripLeading(reason: string, tail: string)
    requires Find(reason, CLOSE).None? && !HasThinkBlock(tail)
    ensures StripThink(OPEN + reason + CLOSE + tail) == tail
  {
    StripBlock("", reason, tail);
    assert "" + OPEN + reason + CLOSE + tail == OPEN + reason + CLOSE + tail;
    StripShortens(tail);
  }

  /** The shape the model emits: a think block holding anything, then the object. */
  lemma ExtractAfterThinking(reason: string, pre: string, o: Json, suf: string,
                             loads: string -> Option<Json>, r: Option<Json>)
    requires Wf(o) && HasVerdict(o) && loads(Print(o)) == Some(o)
    requires '{' !in pre && Find(reason, CLOSE).None? && !HasThinkBlock(pre + Print(o) + suf)
    requires Chosen(StripThink(OPEN + reason + CLOSE + (pre + Print(o) + suf)), loads, r)
    ensures r == Some(o)
  {
    var tail := pre + Print(o) + suf;
    StripLeading(reason, tail);
    ExtractUndoesPrint(OPEN + reason + CLOSE + tail, pre, o, suf, loads, r);
  }

  lemma ExtractWhole(raw: string, o: Json, loads: string -> Option<Json>, r: Option<Json>)
    requires Wf(o) && HasVerdict(o) && loads(Print(o)) == Some(o)
    requires StripThink(raw) == Print(o) && Chosen(StripThink(raw), loads, r)
    ensures r == Some(o)
  {
    ExtractUndoesPrint(raw, "", o, "", loads, r);
  }

  lemma ChosenWasFound(text: string, loads: string -> Option<Json>, r: Option<Json>) returns (found: string)
    requires Chosen(text, loads, r) && r.Some?
    ensures loads(found) == r && Spelt(found) <= Spelt(text)
  {
    var i :| 0 <= i < |text| && Candidate(text, i, loads) == r;
    found := Matched(text, i).value;
    var n := ScanLength(text[i..], START).value;
    assert found == text[i..][..n];
    PrefixSpells(text[i..], n);
    SuffixSpells(text, i);
  }

  /**
   On exactly the text `train.py` prints for an object, the object comes back if and only if
   that text holds no complete think block. Of `json.loads` this takes that it reads the printed
   text back, and that a text read as the object spells the marks the object holds.
   */
  lemma PrintedVerdictRecovered(o: Json, loads: string -> Option<Json>, r: Option<Json>)
    requires Wf(o) && HasVerdict(o) && loads(Print(o)) == Some(o)
    requires forall found :: loads(found) == Some(o) ==> Spelt(found) >= MarksIn(o)
    requires Chosen(StripThink(Print(o)), loads, r)
    ensures r == Some(o) <==> !HasThinkBlock(Print(o))
  {
    if HasThinkBlock(Print(o)) {
      PrintedTidy(o);
      StripSpells(Print(o));
      if r == Some(o) { var found := ChosenWasFound(StripThink(Print(o)), loads, r); }
    } else {
      StripShortens(Print(o));
      ExtractWhole(Print(o), o, loads, r);
    }
  }

  /** Such readers exist: the reader of `JsonText` is one, for every object. */
  lemma ReadIsAReader(o: Json)
    requires Wf(o) && Defined(o)
    ensures Read(Print(o)) == Some(o)
    ensures forall found :: Read(found) == Some(o) ==> Spelt(found) >= MarksIn(o)
  {
    RoundTrip(o);
    forall found | Read(found) == Some(o) ensures Spelt(found) >= MarksIn(o) {
      ReadSpells(found);
    }
  }

  /** Characters that print as themselves. */
  predicate Printable(s: string) {
    forall i :: 0 <= i < |s| ==> s[i] as int >= 0x20 && s[i] != '\"' && s[i] != '\\'
  }

  lemma {:induction false} PrintableEscape(s: string)
    requires Printable(s)
    ensures Escape(s) == s
  {
    if s != [] {
      PrintableEscape(s[1..]);
      assert s == [s[0]] + s[1..];
    }
  }

  lemma NoMark(s: string, pattern: string)
    requires '<' !in s && pattern != [] && pattern[0] == '<'
    ensures Find(s, pattern).None?
  {
  }

  lemma StripQuoted(head: string, body: string, tail: string)
    requires '<' !in head && '<' !in body && '<' !in tail
    ensures StripThink(head + OPEN + body + CLOSE + tail) == head + tail
  {
    NoMark(head, OPEN);
    NoMark(body, CLOSE);
    NoMark(tail, OPEN);
    StripBlock(head, body, tail);
  }

  function Single(s: string): Json {
    Obj([Member("verdict", Str(s))])
  }

  const HEAD := "{" + Quote("verdict") + ":\""

  lemma SinglePrint(s: string)
    requires Printable(s)
    ensures Print(Single(s)) == HEAD + s + "\"}"
    ensures Wf(Single(s)) && HasVerdict(Single(s))
  {
    PrintableEscape(s);
    var key := Quote("verdict");
    var m := Member("verdict", Str(s));
    assert m in [m];
    assert PrintMembers([m]) == key + ":" + ("\"" + s + "\"");
    Reassociate(key, s);
  }

  lemma Reassociate(key: string, s: string)
    ensures "{" + (key + ":" + ("\"" + s + "\"")) + "}" == "{" + key + ":\"" + s + "\"}"
  {
  }

  lemma Regroup(h: string, u: string, open: string, body: string, close: string, v: string, t: string)
    ensures h + (u + open + body + close + v) + t == (h + u) + open + body + close + (v + t)
    ensures h + (u + v) + t == (h + u) + (v + t)
  {
  }

  lemma QuotePlain(s: string)
    requires Printable(s) && '<' !in s
    ensures '<' !in Quote(s)
  {
    PrintableEscape(s);
  }

  lemma HeadIsPlain()
    ensures '<' !in HEAD
  {
    QuotePlain("verdict");
    assert '<' !in "{" && '<' !in ":\"";
  }

  lemma QuotedStrips(u: string, body: string, v: string)
    requires Printable(u) && Printable(body) && Printable(v) && '<' !in u && '<' !in body && '<' !in v
    ensures StripThink(Print(Single(u + OPEN + body + CLOSE + v))) == Print(Single(u + v))
  {
    assert Printable(OPEN) && Printable(CLOSE);
    SinglePrint(u + OPEN + body + CLOSE + v);
    SinglePrint(u + v);
    var tail := "\"}";
    Regroup(HEAD, u, OPEN, body, CLOSE, v, tail);
    HeadIsPlain();
    StripQuoted(HEAD + u, body, v + tail);
  }

  /** The block need not be the model's thinking: one quoted inside a string is cut out as well. */
  lemma QuotedThinkBlockLost(u: string, body: string, v: string, loads: string -> Option<Json>, r: Option<Json>)
    requires Printable(u) && Printable(body) && Printable(v) && '<' !in u && '<' !in body && '<' !in v
    requires loads(Print(Single(u + v))) == Some(Single(u + v))
    requires Chosen(StripThink(Print(Single(u + "<think>" + body + "</think>" + v))), loads, r)
    ensures r == Some(Single(u + v))
  {
    QuotedStrips(u, body, v);
    SinglePrint(u + v);
    ExtractWhole(Print(Single(u + OPEN + body + CLOSE + v)), Single(u + v), loads, r);
  }
}
