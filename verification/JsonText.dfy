/**
 Values as JavaScript and Python hold them, the compact printer both of them share
 (`JSON.stringify(v)` and `json.dumps(v, ensure_ascii=False, separators=(",", ":"))`),
 and a reader that undoes it.

 A number is the text its printer emits, a string is a sequence of Unicode scalar values,
 and an object keeps the order of its members. `Undef` is JavaScript's `undefined`.
 */
module JsonText {
  import opened Wrappers

  datatype Json =
    | Undef
    | Null
    | Bool(b: bool)
    | Num(token: string)
    | Str(s: string)
    | Arr(items: seq<Json>)
    | Obj(members: seq<Member>)

  datatype Member = Member(key: string, value: Json)

  const NUMBER_CHARS := "0123456789+-.eE"

  predicate IsNumberToken(t: string) {
    && t != []
    && (t[0] == '-' || '0' <= t[0] <= '9')
    && forall i :: 0 <= i < |t| ==> t[i] in NUMBER_CHARS
  }

  function Keys(ms: seq<Member>): set<string> {
    set m | m in ms :: m.key
  }

  /** `object[key]`: the member's value, `undefined` when there is none. */
  function Get(ms: seq<Member>, key: string): (v: Json)
    ensures key in Keys(ms) ==> Member(key, v) in ms
    ensures key !in Keys(ms) ==> v == Undef
  {
    if ms == [] then Undef
    else if ms[0].key == key then ms[0].value
    else
      assert Keys(ms) == {ms[0].key} + Keys(ms[1..]) by { KeysCons(ms); }
      Get(ms[1..], key)
  }

  lemma KeysCons(ms: seq<Member>)
    requires ms != []
    ensures Keys(ms) == {ms[0].key} + Keys(ms[1..])
  {
    assert ms == [ms[0]] + ms[1..];
  }

  lemma GetMember(ms: seq<Member>, m: Member)
    requires DistinctKeys(ms) && m in ms
    ensures m.key in Keys(ms) && Get(ms, m.key) == m.value
  {
  }

  /** No key twice, as in every JavaScript object and Python dictionary. */
  predicate DistinctKeys(ms: seq<Member>) {
    forall i, j :: 0 <= i < j < |ms| ==> ms[i].key != ms[j].key
  }

  /** A value a program can hold: number tokens are numbers and objects have distinct keys. */
  predicate Wf(j: Json)
    decreases j, 1
  {
    match j
    case Num(t) => IsNumberToken(t)
    case Arr(items) => forall i :: 0 <= i < |items| ==> Wf(items[i])
    case Obj(ms) => DistinctKeys(ms) && forall i :: 0 <= i < |ms| ==> Wf(ms[i].value)
    case _ => true
  }

  /** Nothing in the value is `undefined`: what parsing JSON, or Python, can produce. */
  predicate Defined(j: Json) {
    match j
    case Undef => false
    case Arr(items) => forall i :: 0 <= i < |items| ==> Defined(items[i])
    case Obj(ms) => forall i :: 0 <= i < |ms| ==> Defined(ms[i].value)
    case _ => true
  }

  // ----- printing

  const HEX := "0123456789abcdef"

  /** How one character stands inside a string literal (both printers agree on every one). */
  function EscapeChar(c: char): (e: string)
    ensures e != []
  {
    var n := c as int;
    if c == '\"' then "\\\""
    else if c == '\\' then "\\\\"
    else if n == 8 then "\\b"
    else if n == 9 then "\\t"
    else if n == 10 then "\\n"
    else if n == 12 then "\\f"
    else if n == 13 then "\\r"
    else if n < 0x20 then ['\\', 'u', '0', '0', HEX[n / 16], HEX[n % 16]]
    else [c]
  }

  function Escape(s: string): string {
    if s == [] then [] else EscapeChar(s[0]) + Escape(s[1..])
  }

  function Quote(s: string): string {
    "\"" + Escape(s) + "\""
  }

  /** The compact text of a value, members in the order the object holds them. */
  function Print(j: Json): (t: string)
    decreases j, 1
  {
    match j
    case Undef => "null"
    case Null => "null"
    case Bool(b) => if b then "true" else "false"
    case Num(token) => token
    case Str(s) => Quote(s)
    case Arr(items) => "[" + PrintItems(items) + "]"
    case Obj(ms) => "{" + PrintMembers(ms) + "}"
  }

  function PrintItems(items: seq<Json>): string
    decreases items, 0
  {
    if items == [] then ""
    else if |items| == 1 then Print(items[0])
    else Print(items[0]) + "," + PrintItems(items[1..])
  }

  function PrintMembers(ms: seq<Member>): string
    decreases ms, 0
  {
    if ms == [] then ""
    else
      var text := Quote(ms[0].key) + ":" + Print(ms[0].value);
      if |ms| == 1 then text else text + "," + PrintMembers(ms[1..])
  }

  /**
   The escapes, character by character: quote, backslash and five controls have a short one, the
   other controls four lower-case hexadecimal digits, and nothing else is escaped.
   */
  lemma EscapesInFull(c: char)
    ensures EscapeChar('\"') == "\\\"" && EscapeChar('\\') == "\\\\"
    ensures EscapeChar(8 as char) == "\\b" && EscapeChar(9 as char) == "\\t" && EscapeChar(10 as char) == "\\n"
    ensures EscapeChar(12 as char) == "\\f" && EscapeChar(13 as char) == "\\r"
    ensures c as int >= 32 && c != '\"' && c != '\\' ==> EscapeChar(c) == [c]
    ensures c as int < 32 && |EscapeChar(c)| != 2 ==>
              EscapeChar(c) == "\\u00" + [if c as int >= 16 then '1' else '0'] + ["0123456789abcdef"[c as int % 16]]
  {
  }

  /** An array is its items between brackets, a comma before each but the first. */
  lemma ArrayText(items: seq<Json>, x: Json)
    ensures Print(Arr([])) == "[]" && Print(Arr(items)) == "[" + PrintItems(items) + "]"
    ensures PrintItems(items + [x]) == if items == [] then Print(x) else PrintItems(items) + ("," + Print(x))
  {
    ItemsAppend(items, x);
  }

  lemma Regroup(a: string, b: string, c: string)
    ensures a + (b + c) == a + b + c
  {
  }

  lemma {:induction false} ItemsAppend(items: seq<Json>, x: Json)
    ensures PrintItems(items + [x]) == if items == [] then Print(x) else PrintItems(items) + ("," + Print(x))
  {
    var all := items + [x];
    if |items| <= 1 {
      assert all == if items == [] then [x] else [items[0], x];
      assert |items| == 1 ==> all[1..] == [x];
    } else {
      var first, rest := Print(items[0]) + ",", PrintItems(items[1..]);
      ItemsAppend(items[1..], x);
      assert all[0] == items[0] && all[1..] == items[1..] + [x];
      Regroup(first, rest, "," + Print(x));
      assert PrintItems(items) == first + rest && PrintItems(all) == first + PrintItems(all[1..]);
    }
  }

  /** An object is its members between braces, each a quoted key, a colon and the value. */
  lemma ObjectText(ms: seq<Member>, m: Member)
    ensures Print(Obj([])) == "{}" && Print(Obj(ms)) == "{" + PrintMembers(ms) + "}"
    ensures var text := "\"" + Escape(m.key) + "\"" + ":" + Print(m.value);
      PrintMembers(ms + [m]) == if ms == [] then text else PrintMembers(ms) + ("," + text)
  {
    MembersAppend(ms, m);
  }

  lemma MembersCons(ms: seq<Member>) returns (first: string)
    requires |ms| > 1
    ensures first == Quote(ms[0].key) + ":" + Print(ms[0].value) + ","
    ensures PrintMembers(ms) == first + PrintMembers(ms[1..])
  {
    first := Quote(ms[0].key) + ":" + Print(ms[0].value) + ",";
  }

  lemma {:induction false} MembersAppend(ms: seq<Member>, m: Member)
    ensures var text := Quote(m.key) + ":" + Print(m.value);
      PrintMembers(ms + [m]) == if ms == [] then text else PrintMembers(ms) + ("," + text)
  {
    var all, text := ms + [m], Quote(m.key) + ":" + Print(m.value);
    if |ms| <= 1 {
      assert all == if ms == [] then [m] else [ms[0], m];
      assert |ms| == 1 ==> all[1..] == [m];
    } else {
      MembersAppend(ms[1..], m);
      assert all[0] == ms[0] && all[1..] == ms[1..] + [m];
      var first := MembersCons(all);
      var same := MembersCons(ms);
      Regroup(first, PrintMembers(ms[1..]), "," + text);
    }
  }

  // ----- reading

  function HexValue(c: char): Option<nat> {
    if '0' <= c <= '9' then Some(c as int - '0' as int)
    else if 'a' <= c <= 'f' then Some(c as int - 'a' as int + 10)
    else None
  }

  /** The character an escape stands for and what follows it; `t` starts after the backslash. */
  function ReadEscape(t: string): (r: Option<(char, string)>)
    ensures r.Some? ==> |r.value.1| < |t|
  {
    if t == [] then None
    else if t[0] == '\"' || t[0] == '\\' || t[0] == '/' then Some((t[0], t[1..]))
    else if t[0] == 'b' then Some((8 as char, t[1..]))
    else if t[0] == 't' then Some((9 as char, t[1..]))
    else if t[0] == 'n' then Some((10 as char, t[1..]))
    else if t[0] == 'f' then Some((12 as char, t[1..]))
    else if t[0] == 'r' then Some((13 as char, t[1..]))
    else if t[0] == 'u' && |t| >= 5 && t[1] == '0' && t[2] == '0' then
      match (HexValue(t[3]), HexValue(t[4]))
      case (Some(h), Some(l)) => Some(((16 * h + l) as char, t[5..]))
      case _ => None
    else None
  }

  /** The rest of a string literal, after its opening quote. */
  function ReadChars(t: string): (r: Option<(string, string)>)
    ensures r.Some? ==> |r.value.1| < |t|
    decreases |t|
  {
    if t == [] then None
    else if t[0] == '\"' then Some(("", t[1..]))
    else if t[0] == '\\' then
      match ReadEscape(t[1..])
      case None => None
      case Some((c, rest)) =>
        match ReadChars(rest)
        case None => None
        case Some((s, rest')) => Some(([c] + s, rest'))
    else if t[0] as int < 0x20 then None
    else
      match ReadChars(t[1..])
      case None => None
      case Some((s, rest)) => Some(([t[0]] + s, rest))
  }

  /** The longest stretch of number characters at the front. */
  function NumberPrefix(t: string): (n: nat)
    ensures n <= |t|
  {
    if t == [] || t[0] !in NUMBER_CHARS then 0 else 1 + NumberPrefix(t[1..])
  }

  function ReadValue(t: string): (r: Option<(Json, string)>)
    ensures r.Some? ==> |r.value.1| < |t|
    decreases |t|, 1
  {
    if t == [] then None
    else if t[0] == 'n' then if "null" <= t then Some((Null, t[4..])) else None
    else if t[0] == 't' then if "true" <= t then Some((Bool(true), t[4..])) else None
    else if t[0] == 'f' then if "false" <= t then Some((Bool(false), t[5..])) else None
    else if t[0] == '\"' then
      match ReadChars(t[1..])
      case None => None
      case Some((s, rest)) => Some((Str(s), rest))
    else if t[0] == '[' then
      if |t| > 1 && t[1] == ']' then Some((Arr([]), t[2..]))
      else
        match ReadItems(t[1..])
        case None => None
        case Some((items, rest)) => Some((Arr(items), rest))
    else if t[0] == '{' then
      if |t| > 1 && t[1] == '}' then Some((Obj([]), t[2..]))
      else
        match ReadMembers(t[1..])
        case None => None
        case Some((ms, rest)) => Some((Obj(ms), rest))
    else if t[0] == '-' || '0' <= t[0] <= '9' then
      var n := NumberPrefix(t);
      if n == 0 then None else Some((Num(t[..n]), t[n..]))
    else None
  }

  /** One or more items up to and including the closing bracket. */
  function ReadItems(t: string): (r: Option<(seq<Json>, string)>)
    ensures r.Some? ==> |r.value.1| < |t|
    decreases |t|, 2
  {
    match ReadValue(t)
    case None => None
    case Some((v, rest)) =>
      if rest != [] && rest[0] == ',' then
        match ReadItems(rest[1..])
        case None => None
        case Some((vs, rest')) => Some(([v] + vs, rest'))
      else if rest != [] && rest[0] == ']' then Some(([v], rest[1..]))
      else None
  }

  /** One or more members up to and including the closing brace. */
  function ReadMembers(t: string): (r: Option<(seq<Member>, string)>)
    ensures r.Some? ==> |r.value.1| < |t|
    decreases |t|, 2
  {
    if t == [] || t[0] != '\"' then None
    else
      match ReadChars(t[1..])
      case None => None
      case Some((k, afterKey)) =>
        if afterKey == [] || afterKey[0] != ':' then None
        else
          match ReadValue(afterKey[1..])
          case None => None
          case Some((v, rest)) =>
            if rest != [] && rest[0] == ',' then
              match ReadMembers(rest[1..])
              case None => None
              case Some((ms, rest')) => Some(([Member(k, v)] + ms, rest'))
            else if rest != [] && rest[0] == '}' then Some(([Member(k, v)], rest[1..]))
            else None
  }

  /** A whole text that is one value and nothing else. */
  function Read(t: string): Option<Json> {
    match ReadValue(t)
    case Some((j, rest)) => if rest == [] then Some(j) else None
    case None => None
  }

  // ----- the reader undoes the printer

  lemma ReadEscapedChar(c: char, rest: string)
    ensures ReadChars(EscapeChar(c) + rest) ==
            match ReadChars(rest) case None => None case Some((s, r)) => Some(([c] + s, r))
  {
    var e := EscapeChar(c);
    var t := e + rest;
    assert t[0] == e[0];
    if |e| == 1 {
      assert t[1..] == rest;
    } else {
      assert t[1..] == e[1..] + rest;
      ReadEscapeBack(c, rest);
    }
  }

  lemma ReadEscapeBack(c: char, rest: string)
    requires |EscapeChar(c)| > 1
    ensures EscapeChar(c)[0] == '\\' && ReadEscape(EscapeChar(c)[1..] + rest) == Some((c, rest))
  {
    var e := EscapeChar(c);
    var u := e[1..] + rest;
    if |e| == 2 {
      assert u[0] == e[1] && u[1..] == rest;
    } else {
      assert u[..5] == e[1..] && u[5..] == rest;
      HexDigits(c as int);
    }
  }

  lemma HexDigits(n: nat)
    requires n < 0x20
    ensures HexValue(HEX[n / 16]) == Some(n / 16) && HexValue(HEX[n % 16]) == Some(n % 16)
    ensures 16 * (n / 16) + n % 16 == n
  {
  }

  lemma {:induction false} ReadEscaped(s: string, rest: string)
    ensures ReadChars(Escape(s) + "\"" + rest) == Some((s, rest))
  {
    if s == [] {
      assert Escape(s) + "\"" + rest == "\"" + rest;
      assert ("\"" + rest)[1..] == rest;
    } else {
      var tail := Escape(s[1..]) + "\"" + rest;
      ReadEscaped(s[1..], rest);
      ReadEscapedChar(s[0], tail);
      assert Escape(s) + "\"" + rest == EscapeChar(s[0]) + tail;
      assert [s[0]] + s[1..] == s;
    }
  }

  lemma {:induction false} NumberPrefixIs(token: string, rest: string)
    requires forall i :: 0 <= i < |token| ==> token[i] in NUMBER_CHARS
    requires rest == [] || rest[0] !in NUMBER_CHARS
    ensures NumberPrefix(token + rest) == |token|
  {
    if token == [] {
      assert token + rest == rest;
    } else {
      assert (token + rest)[1..] == token[1..] + rest;
      NumberPrefixIs(token[1..], rest);
    }
  }

  /** A number has no closing mark of its own, so what follows must not look like more of it. */
  predicate Follows(j: Json, rest: string) {
    j.Num? ==> rest == [] || rest[0] !in NUMBER_CHARS
  }

  lemma PrintStart(j: Json)
    requires Wf(j)
    ensures Print(j) != []
    ensures Print(j)[0] != ']' && Print(j)[0] != '}'
  {
  }

  lemma Brackets(open: string, body: string, close: string, rest: string)
    requires |open| == 1
    ensures (open + body + close + rest)[1..] == body + close + rest
    ensures (open + body + close + rest)[0] == open[0]
  {
  }

  lemma Mark(mark: char, more: string)
    ensures ([mark] + more)[0] == mark && ([mark] + more)[1..] == more
  {
  }

  lemma Split(first: string, mark: string, more: string, close: string, rest: string)
    ensures first + mark + more + close + rest == first + (mark + (more + close + rest))
  {
  }

  lemma ReadWord(word: string, j: Json, rest: string)
    requires (word, j) in {("null", Null), ("true", Bool(true)), ("false", Bool(false))}
    ensures ReadValue(word + rest) == Some((j, rest))
  {
    var t := word + rest;
    assert t[..|word|] == word && t[|word|..] == rest;
    assert t[0] == word[0];
  }

  lemma ReadNumber(token: string, rest: string)
    requires IsNumberToken(token) && (rest == [] || rest[0] !in NUMBER_CHARS)
    ensures ReadValue(token + rest) == Some((Num(token), rest))
  {
    var t := token + rest;
    NumberPrefixIs(token, rest);
    assert t[0] == token[0];
    NumberAt(t);
    assert t[..|token|] == token && t[|token|..] == rest;
  }

  lemma NumberAt(t: string)
    requires t != [] && (t[0] == '-' || '0' <= t[0] <= '9') && NumberPrefix(t) > 0
    ensures ReadValue(t) == Some((Num(t[..NumberPrefix(t)]), t[NumberPrefix(t)..]))
  {
  }

  lemma ReadQuoted(s: string, rest: string)
    ensures (Quote(s) + rest)[0] == '\"' && ReadChars((Quote(s) + rest)[1..]) == Some((s, rest))
  {
    Brackets("\"", Escape(s), "\"", rest);
    ReadEscaped(s, rest);
  }

  lemma {:induction false} ReadPrinted(j: Json, rest: string)
    requires Wf(j) && Defined(j) && Follows(j, rest)
    ensures ReadValue(Print(j) + rest) == Some((j, rest))
    decreases j, 1
  {
    match j
    case Null => ReadWord("null", j, rest);
    case Bool(b) => ReadWord(if b then "true" else "false", j, rest);
    case Num(token) => ReadNumber(token, rest);
    case Str(s) => ReadQuoted(s, rest);
    case Arr(items) => ReadPrintedArray(items, rest);
    case Obj(ms) => ReadPrintedObject(ms, rest);
  }

  lemma {:induction false} ReadPrintedArray(items: seq<Json>, rest: string)
    requires forall i :: 0 <= i < |items| ==> Wf(items[i]) && Defined(items[i])
    ensures ReadValue(Print(Arr(items)) + rest) == Some((Arr(items), rest))
    decreases items, 1
  {
    var t := Print(Arr(items)) + rest;
    var body := PrintItems(items);
    Brackets("[", body, "]", rest);
    if items == [] {
      assert t[2..] == rest;
    } else {
      PrintStart(items[0]);
      assert t[1] == body[0] == Print(items[0])[0];
      ReadPrintedItems(items, rest);
    }
  }

  lemma {:induction false} ReadPrintedObject(ms: seq<Member>, rest: string)
    requires forall i :: 0 <= i < |ms| ==> Wf(ms[i].value) && Defined(ms[i].value)
    ensures ReadValue(Print(Obj(ms)) + rest) == Some((Obj(ms), rest))
    decreases ms, 1
  {
    var t := Print(Obj(ms)) + rest;
    var body := PrintMembers(ms);
    Brackets("{", body, "}", rest);
    if ms == [] {
      assert t[2..] == rest;
    } else {
      assert t[1] == body[0] == '\"';
      ReadPrintedMembers(ms, rest);
    }
  }

  lemma ReadFirstItem(t: string, v: Json, rest: string)
    requires ReadValue(t) == Some((v, rest)) && rest != []
    ensures rest[0] == ']' ==> ReadItems(t) == Some(([v], rest[1..]))
    ensures rest[0] == ',' && ReadItems(rest[1..]).Some? ==>
              var (vs, r) := ReadItems(rest[1..]).value; ReadItems(t) == Some(([v] + vs, r))
  {
  }

  lemma {:induction false} ReadPrintedItems(items: seq<Json>, rest: string)
    requires items != []
    requires forall i :: 0 <= i < |items| ==> Wf(items[i]) && Defined(items[i])
    ensures ReadItems(PrintItems(items) + "]" + rest) == Some((items, rest))
    decreases items, 0
  {
    var first := Print(items[0]);
    if |items| == 1 {
      ReadLastItem(items[0], rest);
      Split(first, [], [], "]", rest);
      assert PrintItems(items) + "]" + rest == first + ([']'] + rest);
      assert [items[0]] == items;
    } else {
      var others := PrintItems(items[1..]);
      ReadPrintedItems(items[1..], rest);
      ReadNextItem(items[0], others + "]" + rest);
      Split(first, ",", others, "]", rest);
      assert PrintItems(items) + "]" + rest == first + ([','] + (others + "]" + rest));
      assert [items[0]] + items[1..] == items;
    }
  }

  lemma {:induction false} ReadLastItem(v: Json, rest: string)
    requires Wf(v) && Defined(v)
    ensures ReadItems(Print(v) + ([']'] + rest)) == Some(([v], rest))
    decreases v, 2
  {
    Mark(']', rest);
    ReadPrinted(v, [']'] + rest);
    ReadFirstItem(Print(v) + ([']'] + rest), v, [']'] + rest);
  }

  lemma {:induction false} ReadNextItem(v: Json, more: string)
    requires Wf(v) && Defined(v) && ReadItems(more).Some?
    ensures var (vs, r) := ReadItems(more).value; ReadItems(Print(v) + ([','] + more)) == Some(([v] + vs, r))
    decreases v, 2
  {
    Mark(',', more);
    ReadPrinted(v, [','] + more);
    ReadFirstItem(Print(v) + ([','] + more), v, [','] + more);
  }

  lemma ReadFirstMember(t: string, m: Member, afterKey: string, rest: string)
    requires t != [] && t[0] == '\"' && ReadChars(t[1..]) == Some((m.key, afterKey))
    requires afterKey != [] && afterKey[0] == ':' && ReadValue(afterKey[1..]) == Some((m.value, rest))
    requires rest != []
    ensures rest[0] == '}' ==> ReadMembers(t) == Some(([m], rest[1..]))
    ensures rest[0] == ',' && ReadMembers(rest[1..]).Some? ==>
              var (ms, r) := ReadMembers(rest[1..]).value; ReadMembers(t) == Some(([m] + ms, r))
  {
  }

  lemma ReadKey(key: string, value: string, rest: string)
    ensures var t := Quote(key) + ":" + value + rest;
            t != [] && t[0] == '\"' && ReadChars(t[1..]) == Some((key, [':'] + (value + rest)))
  {
    ReadQuoted(key, [':'] + (value + rest));
    assert Quote(key) + ":" + value + rest == Quote(key) + ([':'] + (value + rest));
  }

  lemma {:induction false} ReadPrintedMembers(ms: seq<Member>, rest: string)
    requires ms != []
    requires forall i :: 0 <= i < |ms| ==> Wf(ms[i].value) && Defined(ms[i].value)
    ensures ReadMembers(PrintMembers(ms) + "}" + rest) == Some((ms, rest))
    decreases ms, 0
  {
    var m := ms[0];
    var first := Quote(m.key) + ":" + Print(m.value);
    if |ms| == 1 {
      ReadOnlyMember(m, rest);
      Split(first, [], [], "}", rest);
      assert PrintMembers(ms) + "}" + rest == first + (['}'] + rest);
      assert [m] == ms;
    } else {
      var others := PrintMembers(ms[1..]);
      ReadPrintedMembers(ms[1..], rest);
      ReadNextMember(m, others + "}" + rest);
      Split(first, ",", others, "}", rest);
      assert [m] + ms[1..] == ms;
    }
  }

  lemma {:induction false} ReadOnlyMember(m: Member, rest: string)
    requires Wf(m.value) && Defined(m.value)
    ensures ReadMembers(Quote(m.key) + ":" + Print(m.value) + (['}'] + rest)) == Some(([m], rest))
    decreases m, 2
  {
    var value, after := Print(m.value), ['}'] + rest;
    ReadPrinted(m.value, after);
    ReadKey(m.key, value, after);
    Mark(':', value + after);
    Mark('}', rest);
    ReadFirstMember(Quote(m.key) + ":" + value + after, m, [':'] + (value + after), after);
  }

  lemma {:induction false} ReadNextMember(m: Member, more: string)
    requires Wf(m.value) && Defined(m.value) && ReadMembers(more).Some?
    ensures var (ms, r) := ReadMembers(more).value;
            ReadMembers(Quote(m.key) + ":" + Print(m.value) + ([','] + more)) == Some(([m] + ms, r))
    decreases m, 2
  {
    var value, after := Print(m.value), [','] + more;
    ReadPrinted(m.value, after);
    ReadKey(m.key, value, after);
    Mark(':', value + after);
    Mark(',', more);
    ReadFirstMember(Quote(m.key) + ":" + value + after, m, [':'] + (value + after), after);
  }

  /** Reading back a printed value gives the value. */
  lemma RoundTrip(j: Json)
    requires Wf(j) && Defined(j)
    ensures Read(Print(j)) == Some(j)
  {
    ReadPrinted(j, "");
    assert Print(j) + "" == Print(j);
  }

  /** So one text stands for one value: the printer loses nothing. */
  lemma PrintInjective(a: Json, b: Json)
    requires Wf(a) && Defined(a) && Wf(b) && Defined(b)
    requires Print(a) == Print(b)
    ensures a == b
  {
    RoundTrip(a);
    RoundTrip(b);
  }

  // ----- how many `<` a text spells

  function Marks(s: string): nat {
    if s == [] then 0 else (if s[0] == '<' then 1 else 0) + Marks(s[1..])
  }

  /** How many `<` the strings and keys of a value hold. */
  function MarksIn(j: Json): nat
    decreases j, 1
  {
    match j
    case Str(s) => Marks(s)
    case Arr(items) => MarksInItems(items)
    case Obj(ms) => MarksInMembers(ms)
    case _ => 0
  }

  function MarksInItems(items: seq<Json>): nat
    decreases items, 0
  {
    if items == [] then 0 else MarksIn(items[0]) + MarksInItems(items[1..])
  }

  function MarksInMembers(ms: seq<Member>): nat
    decreases ms, 0
  {
    if ms == [] then 0 else Marks(ms[0].key) + MarksIn(ms[0].value) + MarksInMembers(ms[1..])
  }

  predicate SpellsMark(t: string) {
    |t| >= 6 && t[0] == '\\' && t[1] == 'u' && t[2] == '0' && t[3] == '0' && t[4] == '3' && t[5] in "cC"
  }

  /** How many `<` a text spells, plainly or by escape; an escaped backslash starts no escape. */
  function Spelt(t: string): nat
    decreases |t|
  {
    if t == [] then 0
    else if SpellsMark(t) then 1 + Spelt(t[6..])
    else if t[0] == '\\' then if |t| == 1 then 0 else Spelt(t[2..])
    else (if t[0] == '<' then 1 else 0) + Spelt(t[1..])
  }

  lemma {:induction false} DropPlain(t: string, n: nat)
    requires n <= |t| && '\\' !in t[..n]
    ensures Spelt(t) == Marks(t[..n]) + Spelt(t[n..])
    decreases n
  {
    if n > 0 {
      assert t[0] == t[..n][0];
      assert t[..n][1..] == t[1..][..n - 1];
      assert t[1..][n - 1..] == t[n..];
      DropPlain(t[1..], n - 1);
    } else {
      assert t[0..] == t;
    }
  }

  lemma HexSpellsNothing(t: string, digits: string)
    requires |t| >= 6 && t[0] == '\\' && !SpellsMark(t)
    requires digits == t[2..6] && '\\' !in digits && '<' !in digits
    ensures Spelt(t) == Spelt(t[6..])
  {
    assert t[2..][..4] == digits && t[2..][4..] == t[6..];
    DropPlain(t[2..], 4);
    NoMarks(digits);
  }

  lemma ReadEscapeSpells(t: string)
    requires t != [] && t[0] == '\\' && ReadEscape(t[1..]).Some?
    ensures var (c, rest) := ReadEscape(t[1..]).value; Spelt(t) == Marks([c]) + Spelt(rest)
  {
    if t[1] == 'u' {
      assert t[1..][5..] == t[6..];
      if !SpellsMark(t) { HexSpellsNothing(t, t[2..6]); }
    } else {
      assert t[1..][1..] == t[2..];
    }
  }

  lemma NoMarks(s: string)
    requires '<' !in s
    ensures Marks(s) == 0
  {
  }

  lemma {:induction false} ReadCharsSpells(t: string)
    ensures ReadChars(t).Some? ==> Spelt(t) == Marks(ReadChars(t).value.0) + Spelt(ReadChars(t).value.1)
    decreases |t|
  {
    if ReadChars(t).Some? && t[0] != '\"' {
      if t[0] == '\\' {
        ReadEscapeSpells(t);
        ReadCharsSpells(ReadEscape(t[1..]).value.1);
      } else {
        ReadCharsSpells(t[1..]);
      }
    }
  }

  lemma {:induction false} NumberSpells(t: string)
    ensures Spelt(t) == Spelt(t[NumberPrefix(t)..])
  {
    if t != [] && t[0] in NUMBER_CHARS {
      NumberSpells(t[1..]);
      assert t[1..][NumberPrefix(t[1..])..] == t[NumberPrefix(t)..];
    } else {
      assert t[0..] == t;
    }
  }

  lemma WordSpells(t: string, word: string)
    requires word <= t && '\\' !in word && '<' !in word
    ensures Spelt(t) == Spelt(t[|word|..])
  {
    assert t[..|word|] == word;
    DropPlain(t, |word|);
    NoMarks(word);
  }

  lemma {:induction false} ReadValueSpells(t: string)
    ensures ReadValue(t).Some? ==> Spelt(t) == MarksIn(ReadValue(t).value.0) + Spelt(ReadValue(t).value.1)
    decreases |t|, 1
  {
    if ReadValue(t).Some? {
      if t[0] == 'n' {
        WordSpells(t, "null");
      } else if t[0] == 't' {
        WordSpells(t, "true");
      } else if t[0] == 'f' {
        WordSpells(t, "false");
      } else if t[0] == '\"' {
        ReadCharsSpells(t[1..]);
      } else if t[0] == '[' {
        ArraySpells(t);
      } else if t[0] == '{' {
        ObjectSpells(t);
      } else {
        NumberSpells(t);
      }
    }
  }

  lemma {:induction false} ArraySpells(t: string)
    requires t != [] && t[0] == '[' && ReadValue(t).Some?
    ensures Spelt(t) == MarksIn(ReadValue(t).value.0) + Spelt(ReadValue(t).value.1)
    decreases |t|, 0
  {
    if |t| > 1 && t[1] == ']' {
      WordSpells(t, "[]");
    } else {
      ReadItemsSpells(t[1..]);
    }
  }

  lemma {:induction false} ObjectSpells(t: string)
    requires t != [] && t[0] == '{' && ReadValue(t).Some?
    ensures Spelt(t) == MarksIn(ReadValue(t).value.0) + Spelt(ReadValue(t).value.1)
    decreases |t|, 0
  {
    if |t| > 1 && t[1] == '}' {
      WordSpells(t, "{}");
    } else {
      ReadMembersSpells(t[1..]);
    }
  }

  lemma {:induction false} ReadItemsSpells(t: string)
    ensures ReadItems(t).Some? ==>
              Spelt(t) == MarksInItems(ReadItems(t).value.0) + Spelt(ReadItems(t).value.1)
    decreases |t|, 2
  {
    if ReadItems(t).Some? {
      ReadValueSpells(t);
      var rest := ReadValue(t).value.1;
      if rest[0] == ',' {
        ReadItemsSpells(rest[1..]);
        assert ReadItems(t).value.0[1..] == ReadItems(rest[1..]).value.0;
      }
    }
  }

  lemma {:induction false} ReadMembersSpells(t: string)
    ensures ReadMembers(t).Some? ==>
              Spelt(t) == MarksInMembers(ReadMembers(t).value.0) + Spelt(ReadMembers(t).value.1)
    decreases |t|, 2
  {
    if ReadMembers(t).Some? {
      ReadCharsSpells(t[1..]);
      var afterKey := ReadChars(t[1..]).value.1;
      ReadValueSpells(afterKey[1..]);
      var rest := ReadValue(afterKey[1..]).value.1;
      if rest[0] == ',' {
        ReadMembersSpells(rest[1..]);
        assert ReadMembers(t).value.0[1..] == ReadMembers(rest[1..]).value.0;
      }
    }
  }

  /** A text spells as many `<` as the value read from it holds, however its numbers are spelt. */
  lemma ReadSpells(t: string)
    ensures Read(t).Some? ==> Spelt(t) == MarksIn(Read(t).value)
  {
    ReadValueSpells(t);
  }
}
