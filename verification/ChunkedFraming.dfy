/**
 How `send_once` puts a request body on the wire: in chunks of the transfer coding of section 7.1
 of RFC 9112, in slices, or whole; and a decoder for the coding.
 */
module ChunkedFraming {
  import opened Numbers
  import opened Wrappers

  type Byte = x: int | 0 <= x < 256

  const CR: Byte := 13
  const LF: Byte := 10
  const CRLF: seq<Byte> := [CR, LF]
  const SEMICOLON: Byte := 59

  // ----- encoding

  function HexDigit(d: nat): Byte
    requires d < 16
  {
    if d < 10 then 48 + d else 87 + d
  }

  /** `%x`: lower case, no leading zeros. */
  function Hex(n: nat): (h: seq<Byte>)
    ensures h != []
  {
    if n < 16 then [HexDigit(n)] else Hex(n / 16) + [HexDigit(n % 16)]
  }

  function Chunk(part: seq<Byte>): seq<Byte> {
    Hex(|part|) + CRLF + part + CRLF
  }

  function Encode(body: seq<Byte>, step: nat): seq<Byte>
    requires step > 0
    decreases |body|
  {
    if body == [] then [48] + CRLF + CRLF
    else if |body| <= step then Chunk(body) + Encode([], step)
    else Chunk(body[..step]) + Encode(body[step..], step)
  }

  /** The chunked branch of `send_once`; `sent` is the wire after every `sendall`. */
  method SendChunked(body: seq<Byte>, step: nat) returns (sent: seq<Byte>)
    requires step > 0
    ensures sent == Encode(body, step)
  {
    sent := [];
    var i := 0;
    while i < |body|
      invariant 0 <= i
      invariant sent + Encode(body[Min(i, |body|)..], step) == Encode(body, step)
      decreases |body| - i
    {
      var part := body[i..Min(i + step, |body|)];
      EncodeFrom(body, i, step);
      Associative(sent, Chunk(part), Encode(body[Min(i + step, |body|)..], step));
      sent := sent + (Hex(|part|) + CRLF + part + CRLF);
      i := i + step;
    }
    sent := sent + ([48] + CRLF + CRLF);
  }

  lemma EncodeNext(body: seq<Byte>, step: nat)
    requires step > 0 && body != []
    ensures var m := Min(step, |body|); Encode(body, step) == Chunk(body[..m]) + Encode(body[m..], step)
  {
  }

  lemma EncodeFrom(body: seq<Byte>, i: nat, step: nat)
    requires step > 0 && i < |body|
    ensures var j := Min(i + step, |body|);
            Encode(body[i..], step) == Chunk(body[i..j]) + Encode(body[j..], step)
  {
  }

  /** The bytes on the wire: size, CR LF, data, CR LF; in the end a zero and two line ends. */
  lemma WireBytes(part: seq<Byte>, step: nat)
    requires step > 0
    ensures Chunk(part) == Hex(|part|) + [13, 10] + part + [13, 10]
    ensures Encode([], step) == [48, 13, 10, 13, 10]
  {
  }

  /** Sizes are lower-case hexadecimal without leading zeros. */
  lemma {:induction false} HexForm(n: nat)
    ensures forall i :: 0 <= i < |Hex(n)| ==> 48 <= Hex(n)[i] <= 57 || 97 <= Hex(n)[i] <= 102
    ensures Hex(n)[0] == 48 <==> n == 0
    ensures n < 16 ==> |Hex(n)| == 1
  {
    if n >= 16 { HexForm(n / 16); }
  }

  // ----- slices

  function Concat(parts: seq<seq<Byte>>): seq<Byte> {
    if parts == [] then [] else Concat(parts[..|parts| - 1]) + parts[|parts| - 1]
  }

  /** The slow branch: the slices handed to `sendall` make up the body, none of them empty. */
  method SendSlow(body: seq<Byte>, step: nat) returns (parts: seq<seq<Byte>>)
    requires step > 0
    ensures Concat(parts) == body
    ensures forall p :: p in parts ==> 0 < |p| <= step
    ensures forall i :: 0 <= i < |parts| - 1 ==> |parts[i]| == step
  {
    parts := [];
    var i := 0;
    while i < |body|
      invariant 0 <= i
      invariant Concat(parts) == body[..Min(i, |body|)]
      invariant forall p :: p in parts ==> 0 < |p| <= step
      invariant forall k :: 0 <= k < |parts| && (k < |parts| - 1 || i <= |body|) ==> |parts[k]| == step
      decreases |body| - i
    {
      var part := body[i..Min(i + step, |body|)];
      assert (parts + [part])[..|parts|] == parts;
      assert body[..Min(i + step, |body|)] == body[..i] + part;
      parts := parts + [part];
      i := i + step;
    }
  }

  // ----- decoding

  function HexValue(b: Byte): Option<nat> {
    if 48 <= b <= 57 then Some(b - 48)
    else if 97 <= b <= 102 then Some(b - 87)
    else if 65 <= b <= 70 then Some(b - 55)
    else None
  }

  /** Where the first CRLF starts. */
  function LineEnd(wire: seq<Byte>): (r: Option<nat>)
    ensures r.Some? ==> r.value + 2 <= |wire|
  {
    if |wire| < 2 then None
    else if wire[0] == CR && wire[1] == LF then Some(0)
    else
      match LineEnd(wire[1..])
      case None => None
      case Some(i) => Some(i + 1)
  }

  /** How many hexadecimal digits a line starts with. */
  function Digits(line: seq<Byte>): (n: nat)
    ensures n <= |line|
    ensures forall i :: 0 <= i < n ==> HexValue(line[i]).Some?
  {
    if line == [] || HexValue(line[0]).None? then 0 else 1 + Digits(line[1..])
  }

  function Number(digits: seq<Byte>): nat
    requires forall i :: 0 <= i < |digits| ==> HexValue(digits[i]).Some?
  {
    if digits == [] then 0 else 16 * Number(digits[..|digits| - 1]) + HexValue(digits[|digits| - 1]).value
  }

  /** `chunk-size [ chunk-ext ]`; an extension is skipped. */
  function ChunkSize(line: seq<Byte>): Option<nat> {
    var n := Digits(line);
    if n == 0 || (n < |line| && line[n] != SEMICOLON) then None else Some(Number(line[..n]))
  }

  /** The trailer section: lines up to an empty one. */
  function SkipTrailers(wire: seq<Byte>): Option<seq<Byte>>
    decreases |wire|
  {
    match LineEnd(wire)
    case None => None
    case Some(0) => Some(wire[2..])
    case Some(i) => SkipTrailers(wire[i + 2..])
  }

  /** The body, and what follows it on the connection. */
  function Decode(wire: seq<Byte>): Option<(seq<Byte>, seq<Byte>)>
    decreases |wire|
  {
    match LineEnd(wire)
    case None => None
    case Some(i) =>
      var data := wire[i + 2..];
      match ChunkSize(wire[..i])
      case None => None
      case Some(size) =>
        if size == 0 then
          match SkipTrailers(data)
          case None => None
          case Some(rest) => Some(([], rest))
        else if |data| < size + 2 || data[size] != CR || data[size + 1] != LF then None
        else
          match Decode(data[size + 2..])
          case None => None
          case Some((body, rest)) => Some((data[..size] + body, rest))
  }

  // ----- the round trip

  lemma {:induction false} HexDigits(n: nat)
    ensures forall i :: 0 <= i < |Hex(n)| ==> HexValue(Hex(n)[i]).Some?
    ensures Number(Hex(n)) == n
  {
    if n >= 16 {
      HexDigits(n / 16);
      assert Hex(n)[..|Hex(n)| - 1] == Hex(n / 16);
    } else {
      assert Hex(n)[..0] == [];
    }
  }

  lemma {:induction false} LineEndAfter(line: seq<Byte>, rest: seq<Byte>)
    requires CR !in line
    ensures LineEnd(line + CRLF + rest) == Some(|line|)
  {
    var wire := line + CRLF + rest;
    if line != [] {
      LineEndAfter(line[1..], rest);
      assert wire[1..] == line[1..] + CRLF + rest;
    }
  }

  lemma {:induction false} AllDigits(line: seq<Byte>)
    requires forall i :: 0 <= i < |line| ==> HexValue(line[i]).Some?
    ensures Digits(line) == |line|
  {
    if line != [] { AllDigits(line[1..]); }
  }

  lemma SizeLine(n: nat, rest: seq<Byte>)
    ensures LineEnd(Hex(n) + CRLF + rest) == Some(|Hex(n)|) && ChunkSize(Hex(n)) == Some(n)
  {
    HexDigits(n);
    AllDigits(Hex(n));
    assert Hex(n)[..|Hex(n)|] == Hex(n);
    forall i | 0 <= i < |Hex(n)| ensures Hex(n)[i] != CR {
      assert HexValue(Hex(n)[i]).Some?;
    }
    LineEndAfter(Hex(n), rest);
  }

  /** One chunk decodes to its data, whatever bytes it holds. */
  lemma DecodeChunk(part: seq<Byte>, more: seq<Byte>)
    requires part != []
    ensures Decode(Chunk(part) + more) ==
            match Decode(more) case None => None case Some((body, rest)) => Some((part + body, rest))
  {
    SizeLine(|part|, part + CRLF + more);
    ChunkSplits(Hex(|part|), part, more);
    DecodeData(Chunk(part) + more, |Hex(|part|)|, part, more);
  }

  lemma DecodeData(wire: seq<Byte>, i: nat, part: seq<Byte>, more: seq<Byte>)
    requires part != [] && LineEnd(wire) == Some(i) && ChunkSize(wire[..i]) == Some(|part|)
    requires wire[i + 2..] == part + CRLF + more
    ensures Decode(wire) == match Decode(more) case None => None case Some((body, rest)) => Some((part + body, rest))
  {
    DataSplits(part, more);
  }

  lemma DataSplits(part: seq<Byte>, more: seq<Byte>)
    ensures var data := part + CRLF + more;
            && |data| >= |part| + 2 && data[|part|] == CR && data[|part| + 1] == LF
            && data[..|part|] == part && data[|part| + 2..] == more
  {
  }

  lemma DecodeNext(part: seq<Byte>, more: seq<Byte>, others: seq<Byte>, rest: seq<Byte>)
    requires part != [] && Decode(more) == Some((others, rest))
    ensures Decode(Chunk(part) + more) == Some((part + others, rest))
  {
    DecodeChunk(part, more);
  }

  lemma DecodeFirst(body: seq<Byte>, m: nat, more: seq<Byte>, rest: seq<Byte>)
    requires 0 < m <= |body| && Decode(more + rest) == Some((body[m..], rest))
    ensures Decode(Chunk(body[..m]) + more + rest) == Some((body, rest))
  {
    DecodeNext(body[..m], more + rest, body[m..], rest);
    Rejoined(body, m);
    SameWire(Chunk(body[..m]), more, rest);
  }

  lemma SameWire(chunk: seq<Byte>, more: seq<Byte>, rest: seq<Byte>)
    ensures Decode(chunk + more + rest) == Decode(chunk + (more + rest))
  {
    Associative(chunk, more, rest);
  }

  lemma Rejoined(body: seq<Byte>, m: nat)
    requires m <= |body|
    ensures body[..m] + body[m..] == body
  {
  }

  lemma Associative(a: seq<Byte>, b: seq<Byte>, c: seq<Byte>)
    ensures a + b + c == a + (b + c)
  {
  }

  lemma ChunkSplits(line: seq<Byte>, part: seq<Byte>, more: seq<Byte>)
    ensures var wire := line + CRLF + part + CRLF + more;
            && wire == line + CRLF + (part + CRLF + more)
            && wire[..|line|] == line && wire[|line| + 2..] == part + CRLF + more
  {
  }

  lemma DecodeEnd(rest: seq<Byte>)
    ensures Decode([48] + CRLF + CRLF + rest) == Some(([], rest))
  {
    SizeLine(0, CRLF + rest);
    assert Hex(0) == [48];
    var wire := [48] + CRLF + CRLF + rest;
    assert wire == [48] + CRLF + (CRLF + rest);
    assert wire[..1] == [48] && wire[3..] == CRLF + rest;
    assert (CRLF + rest)[2..] == rest;
  }

  /**
   Decoding gives back every body, of any bytes and at any positive step, and stops exactly where
   the coding ends.
   */
  lemma {:induction false} RoundTrip(body: seq<Byte>, step: nat, rest: seq<Byte>)
    requires step > 0
    ensures Decode(Encode(body, step) + rest) == Some((body, rest))
    decreases |body|
  {
    if body == [] {
      DecodeEnd(rest);
    } else {
      var m := Min(step, |body|);
      EncodeNext(body, step);
      RoundTrip(body[m..], step, rest);
      DecodeFirst(body, m, Encode(body[m..], step), rest);
    }
  }

  /**
   The first chunk on the wire holds `step` bytes, or all there are if fewer; what follows it is
   the coding of the rest.
   */
  lemma FirstChunk(body: seq<Byte>, step: nat)
    requires step > 0 && body != []
    ensures var wire, m := Encode(body, step), Min(step, |body|);
            && LineEnd(wire).Some? && ChunkSize(wire[..LineEnd(wire).value]) == Some(m)
            && var data := wire[LineEnd(wire).value + 2..];
               |data| >= m + 2 && data[..m] == body[..m] && data[m + 2..] == Encode(body[m..], step)
  {
    var m := Min(step, |body|);
    var part, more := body[..m], Encode(body[m..], step);
    EncodeNext(body, step);
    SizeLine(m, part + CRLF + more);
    ChunkSplits(Hex(m), part, more);
    DataSplits(part, more);
  }

  /** So two bodies never share a wire form, not even as one's prefix. */
  lemma EncodePrefixFree(a: seq<Byte>, b: seq<Byte>, s: nat, t: nat, rest: seq<Byte>)
    requires s > 0 && t > 0 && Encode(a, s) + rest == Encode(b, t)
    ensures a == b && rest == []
  {
    RoundTrip(a, s, rest);
    RoundTrip(b, t, []);
    assert Encode(b, t) + [] == Encode(b, t);
  }
}
