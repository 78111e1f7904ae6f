/** The chunked transfer decoder of the MCP client, against the chunked-body
    grammar of section 7.1 of RFC 9112 without extensions or trailers. */
module ChunkedDecoder {
  import opened Bytes

  const MAX_BODY_BYTES: nat := 256 * 1024
  const CRLF: Buf := [13, 10]

  datatype Error = TruncatedHeader | InvalidSize | TrailersRefused | InvalidBody
  datatype Result = Ok(body: Buf) | Err(error: Error)

  // ---- chunk sizes ----------------------------------------------------------

  predicate HexChar(c: Byte) { 48 <= c <= 57 || 65 <= c <= 70 || 97 <= c <= 102 }

  function CharValue(c: Byte): (n: nat)
    requires HexChar(c)
    ensures n < 16
  {
    if c <= 57 then c - 48 else if c <= 70 then c - 55 else c - 87
  }

  predicate AllHex(s: Buf) { forall i | 0 <= i < |s| :: HexChar(s[i]) }

  function HexNumber(s: Buf): nat
    requires AllHex(s)
  {
    if s == [] then 0
    else assert HexChar(s[|s| - 1]); 16 * HexNumber(s[..|s| - 1]) + CharValue(s[|s| - 1])
  }

  /** Any non-empty spelling, leading zeros included, of a 64-bit number. */
  predicate Spells(s: Buf, n: nat) { s != [] && AllHex(s) && HexNumber(s) == n <= U64_MAX }

  function ParseSize(s: Buf): Option<nat> {
    if s == [] || !AllHex(s) || HexNumber(s) > U64_MAX then None else Some(HexNumber(s))
  }

  const LOWER: Buf := Ascii("0123456789abcdef")
  const UPPER: Buf := Ascii("0123456789ABCDEF")

  predicate DigitFor(c: Byte, d: nat) { d < 16 && (c == LOWER[d] || c == UPPER[d]) }

  function Pow16(k: nat): nat { if k == 0 then 1 else 16 * Pow16(k - 1) }

  /** The number with these hexadecimal digits, most significant first. */
  function Value(ds: seq<nat>): nat { if ds == [] then 0 else ds[0] * Pow16(|ds| - 1) + Value(ds[1..]) }

  ghost predicate Written(s: Buf, ds: seq<nat>) {
    |ds| == |s| && forall i | 0 <= i < |s| :: DigitFor(s[i], ds[i])
  }

  lemma DigitTable()
    ensures LOWER == [48, 49, 50, 51, 52, 53, 54, 55, 56, 57, 97, 98, 99, 100, 101, 102]
    ensures UPPER == [48, 49, 50, 51, 52, 53, 54, 55, 56, 57, 65, 66, 67, 68, 69, 70]
  {
  }

  lemma DigitIs(c: Byte, d: nat)
    ensures DigitFor(c, d) <==> HexChar(c) && CharValue(c) == d
  {
    DigitTable();
  }

  lemma {:induction false} ValueLast(ds: seq<nat>, d: nat)
    ensures Value(ds + [d]) == 16 * Value(ds) + d
    decreases |ds|
  {
    if ds == [] {
      assert (ds + [d])[1..] == [];
    } else {
      assert (ds + [d])[1..] == ds[1..] + [d];
      ValueLast(ds[1..], d);
    }
  }

  lemma {:induction false} HexNumberIs(s: Buf, ds: seq<nat>)
    requires Written(s, ds)
    ensures AllHex(s) && HexNumber(s) == Value(ds)
    decreases |s|
  {
    forall i | 0 <= i < |s|
      ensures HexChar(s[i])
    {
      DigitIs(s[i], ds[i]);
    }
    if s != [] {
      var n := |s| - 1;
      HexNumberIs(s[..n], ds[..n]);
      DigitIs(s[n], ds[n]);
      ValueLast(ds[..n], ds[n]);
      assert ds[..n] + [ds[n]] == ds;
    }
  }

  /** A size is spelled exactly by the hexadecimal digits of its number, in
      either case and with any leading zeros. */
  lemma SpellsExactly(s: Buf, n: nat)
    ensures Spells(s, n) <==> s != [] && n <= U64_MAX && exists ds :: Written(s, ds) && Value(ds) == n
  {
    if Spells(s, n) {
      var ds := seq(|s|, i requires 0 <= i < |s| => assert HexChar(s[i]); CharValue(s[i]));
      forall i | 0 <= i < |s|
        ensures DigitFor(s[i], ds[i])
      {
        DigitIs(s[i], ds[i]);
      }
      HexNumberIs(s, ds);
    }
    if s != [] && n <= U64_MAX && exists ds :: Written(s, ds) && Value(ds) == n {
      var ds :| Written(s, ds) && Value(ds) == n;
      HexNumberIs(s, ds);
    }
  }

  // ---- lines ----------------------------------------------------------------

  predicate CrlfAt(s: Buf, i: nat) { i + 2 <= |s| && s[i] == 13 && s[i + 1] == 10 }

  function LineEnd(s: Buf, from: nat): (p: Option<nat>)
    requires from <= |s|
    ensures p.Some? ==> from <= p.value && CrlfAt(s, p.value)
    decreases |s| - from
  {
    if from + 2 > |s| then None
    else if CrlfAt(s, from) then Some(from)
    else LineEnd(s, from + 1)
  }

  method Position(s: Buf) returns (p: Option<nat>)
    ensures p == LineEnd(s, 0)
  {
    for i := 0 to |s|
      invariant LineEnd(s, 0) == LineEnd(s, i)
    {
      if CrlfAt(s, i) { return Some(i); }
    }
    return None;
  }

  lemma {:induction false} NoneBefore(s: Buf, from: nat, p: nat)
    requires from <= p && CrlfAt(s, p) && forall i: nat | from <= i < p :: !CrlfAt(s, i)
    ensures LineEnd(s, from) == Some(p)
    decreases p - from
  {
    if from < p {
      assert !CrlfAt(s, from);
      NoneBefore(s, from + 1, p);
    }
  }

  lemma {:induction false} FirstFound(s: Buf, from: nat, i: nat)
    requires from <= |s| && from <= i && (LineEnd(s, from).Some? ==> i < LineEnd(s, from).value)
    ensures !CrlfAt(s, i)
    decreases |s| - from
  {
    if from + 2 <= |s| && from < i {
      FirstFound(s, from + 1, i);
    }
  }

  /** Bytes, then CRLF, then the rest. */
  function Line(bytes: Buf, rest: Buf): Buf { bytes + CRLF + rest }

  lemma LineMore(bytes: Buf, rest: Buf, more: Buf)
    ensures Line(bytes, rest) + more == Line(bytes, rest + more)
  {
  }

  /** Lines of one length cut at one place. */
  lemma LineCancel(a: Buf, x: Buf, b: Buf, y: Buf)
    requires |a| == |b| && Line(a, x) == Line(b, y)
    ensures a == b && x == y
  {
    var n := |a|;
    assert Line(a, x)[..n] == a && Line(b, y)[..n] == b && Line(a, x)[n + 2..] == x && Line(b, y)[n + 2..] == y;
  }

  /** A size line ends where the size does. */
  lemma SizeLine(size: Buf, rest: Buf)
    requires AllHex(size)
    ensures LineEnd(Line(size, rest), 0) == Some(|size|)
    ensures Line(size, rest)[..|size|] == size && Line(size, rest)[|size| + 2..] == rest
  {
    var s := Line(size, rest);
    forall i: nat | i < |size|
      ensures !CrlfAt(s, i)
    {
      assert HexChar(size[i]) && s[i] == size[i];
    }
    NoneBefore(s, 0, |size|);
  }

  // ---- the decoder ----------------------------------------------------------

  datatype Turn = Fail(error: Error) | Done | Take(data: Buf, rest: Buf)

  /** One turn of the loop: the front chunk, with `room` bytes still allowed. */
  function Next(encoded: Buf, room: nat): (t: Turn)
    ensures t.Take? ==> 0 < |t.data| <= room && |t.rest| < |encoded|
  {
    var p := LineEnd(encoded, 0);
    if p.None? then Fail(TruncatedHeader)
    else
      var size := ParseSize(encoded[..p.value]);
      if size.None? then Fail(InvalidSize)
      else AfterSize(size.value, encoded[p.value + 2..], room)
  }

  function AfterSize(size: nat, rest: Buf, room: nat): (t: Turn)
    ensures t.Take? ==> 0 < |t.data| <= room && |t.rest| < |rest|
  {
    if size == 0 then if rest == CRLF then Done else Fail(TrailersRefused)
    else if size > room || |rest| < size + 2 || rest[size..size + 2] != CRLF then Fail(InvalidBody)
    else Take(rest[..size], rest[size + 2..])
  }

  /** The body of `encoded`, given how many bytes may be decoded. */
  function Decode(encoded: Buf, room: nat): (r: Result)
    ensures r.Ok? ==> |r.body| <= room
    decreases |encoded|
  {
    match Next(encoded, room)
    case Fail(e) => Err(e)
    case Done => Ok([])
    case Take(data, rest) => Prepend(data, Decode(rest, room - |data|))
  }

  function Prepend(decoded: Buf, r: Result): Result {
    if r.Err? then r else Ok(decoded + r.body)
  }

  method NextChunk(encoded: Buf, room: nat) returns (t: Turn)
    ensures t == Next(encoded, room)
  {
    var lineEnd := Position(encoded);
    if lineEnd.None? { return Fail(TruncatedHeader); }
    var size := ParseSize(encoded[..lineEnd.value]);
    if size.None? { return Fail(InvalidSize); }
    var rest := encoded[lineEnd.value + 2..];
    t := AfterSize(size.value, rest, room);
  }

  lemma DecodeTakes(encoded: Buf, room: nat, data: Buf, rest: Buf)
    requires Next(encoded, room) == Take(data, rest)
    ensures Decode(encoded, room) == Prepend(data, Decode(rest, room - |data|))
  {
  }

  /** The answer for the whole input is what is decoded, then the answer for
      what is left. */
  ghost predicate SoFar(whole: Result, decoded: Buf, encoded: Buf, room: nat) {
    whole == Prepend(decoded, Decode(encoded, room))
  }

  lemma Takes(whole: Result, decoded: Buf, encoded: Buf, room: nat, t: Turn)
    requires SoFar(whole, decoded, encoded, room) && t == Next(encoded, room) && t.Take?
    ensures SoFar(whole, decoded + t.data, t.rest, room - |t.data|)
  {
  }

  lemma Ends(whole: Result, decoded: Buf, encoded: Buf, room: nat, t: Turn)
    requires SoFar(whole, decoded, encoded, room) && t == Next(encoded, room) && !t.Take?
    ensures whole == if t.Done? then Ok(decoded) else Err(t.error)
  {
  }

  method DecodeChunked(input: Buf) returns (r: Result)
    ensures r == Decode(input, MAX_BODY_BYTES)
  {
    var encoded, decoded: Buf, room: nat := input, [], MAX_BODY_BYTES;
    ghost var whole := Decode(input, MAX_BODY_BYTES);
    while true
      invariant room == MAX_BODY_BYTES - |decoded|
      invariant SoFar(whole, decoded, encoded, room)
      decreases |encoded|
    {
      var t := NextChunk(encoded, room);
      if !t.Take? {
        Ends(whole, decoded, encoded, room, t);
        return if t.Done? then Ok(decoded) else Err(t.error);
      }
      Takes(whole, decoded, encoded, room, t);
      decoded := decoded + t.data;
      encoded := t.rest;
      room := MAX_BODY_BYTES - |decoded|;
    }
  }

  // ---- the grammar ----------------------------------------------------------

  datatype Chunk = Chunk(size: Buf, data: Buf)

  predicate ChunkOk(c: Chunk) { c.data != [] && Spells(c.size, |c.data|) }
  predicate ChunksOk(chunks: seq<Chunk>) { forall i | 0 <= i < |chunks| :: ChunkOk(chunks[i]) }

  function Encode(chunks: seq<Chunk>, last: Buf): Buf {
    if chunks == [] then Line(last, CRLF) else Line(chunks[0].size, Line(chunks[0].data, Encode(chunks[1..], last)))
  }

  function Body(chunks: seq<Chunk>): Buf {
    if chunks == [] then [] else chunks[0].data + Body(chunks[1..])
  }

  lemma NextLast(last: Buf, room: nat)
    requires Spells(last, 0)
    ensures Next(Line(last, CRLF), room) == Done
  {
    SizeLine(last, CRLF);
  }

  lemma AfterChunk(data: Buf, rest: Buf, room: nat)
    requires data != [] && |data| <= room
    ensures AfterSize(|data|, Line(data, rest), room) == Take(data, rest)
  {
  }

  lemma NextIsChunk(c: Chunk, rest: Buf, room: nat)
    requires ChunkOk(c) && |c.data| <= room
    ensures Next(Line(c.size, Line(c.data, rest)), room) == Take(c.data, rest)
  {
    SizeLine(c.size, Line(c.data, rest));
    AfterChunk(c.data, rest, room);
  }

  /** A chunk taken off the front was spelled there. */
  lemma TakenIsChunk(encoded: Buf, room: nat) returns (c: Chunk)
    requires Next(encoded, room).Take?
    ensures ChunkOk(c) && c.data == Next(encoded, room).data
    ensures encoded == Line(c.size, Line(c.data, Next(encoded, room).rest))
  {
    var p := LineEnd(encoded, 0).value;
    var size, rest := encoded[..p], encoded[p + 2..];
    assert encoded == Line(size, rest);
    var n := ParseSize(size).value;
    assert rest == Line(rest[..n], rest[n + 2..]);
    c := Chunk(size, rest[..n]);
  }

  lemma DoneIsLast(encoded: Buf, room: nat) returns (last: Buf)
    requires Next(encoded, room).Done?
    ensures Spells(last, 0) && encoded == Line(last, CRLF)
  {
    var p := LineEnd(encoded, 0).value;
    last := encoded[..p];
    assert encoded == Line(last, encoded[p + 2..]);
  }

  /** Every encoding of non-empty chunks that fits decodes to their
      concatenation, however the sizes are spelled. */
  lemma {:induction false} EncodingDecodes(chunks: seq<Chunk>, last: Buf, room: nat)
    requires ChunksOk(chunks) && Spells(last, 0) && |Body(chunks)| <= room
    ensures Decode(Encode(chunks, last), room) == Ok(Body(chunks))
    decreases |chunks|
  {
    if chunks == [] {
      NextLast(last, room);
    } else {
      var rest := Encode(chunks[1..], last);
      NextIsChunk(chunks[0], rest, room);
      DecodeTakes(Encode(chunks, last), room, chunks[0].data, rest);
      EncodingDecodes(chunks[1..], last, room - |chunks[0].data|);
    }
  }

  ghost predicate EncodedBy(encoded: Buf, body: Buf, chunks: seq<Chunk>, last: Buf) {
    ChunksOk(chunks) && Spells(last, 0) && encoded == Encode(chunks, last) && body == Body(chunks)
  }

  ghost predicate IsEncodingOf(encoded: Buf, body: Buf) {
    exists chunks, last :: EncodedBy(encoded, body, chunks, last)
  }

  lemma ConsEncodes(c: Chunk, encoded: Buf, body: Buf, chunks: seq<Chunk>, last: Buf)
    requires ChunkOk(c) && EncodedBy(encoded, body, chunks, last)
    ensures EncodedBy(Line(c.size, Line(c.data, encoded)), c.data + body, [c] + chunks, last)
  {
  }

  lemma {:induction false} DecodedIsEncoding(encoded: Buf, room: nat)
    requires Decode(encoded, room).Ok?
    ensures IsEncodingOf(encoded, Decode(encoded, room).body)
    decreases |encoded|
  {
    var t := Next(encoded, room);
    if t.Done? {
      var last := DoneIsLast(encoded, room);
      assert EncodedBy(encoded, [], [], last);
    } else {
      var c := TakenIsChunk(encoded, room);
      DecodedIsEncoding(t.rest, room - |t.data|);
      var body := Decode(t.rest, room - |t.data|).body;
      var chunks, last :| EncodedBy(t.rest, body, chunks, last);
      ConsEncodes(c, t.rest, body, chunks, last);
    }
  }

  /** The decoder accepts exactly the encodings of bodies that fit. */
  lemma DecodesExactly(encoded: Buf, room: nat, body: Buf)
    ensures Decode(encoded, room) == Ok(body) <==> IsEncodingOf(encoded, body) && |body| <= room
  {
    if Decode(encoded, room) == Ok(body) {
      DecodedIsEncoding(encoded, room);
    }
    if IsEncodingOf(encoded, body) && |body| <= room {
      var chunks, last :| EncodedBy(encoded, body, chunks, last);
      EncodingDecodes(chunks, last, room);
    }
  }

  // ---- unambiguous ----------------------------------------------------------

  lemma SizeLineCancel(size: Buf, rest: Buf, size': Buf, rest': Buf)
    requires AllHex(size) && AllHex(size') && Line(size, rest) == Line(size', rest')
    ensures size == size' && rest == rest'
  {
    SizeLine(size, rest);
    SizeLine(size', rest');
  }

  /** Encodings are prefix-free and each has one reading, sizes' spelling
      included. */
  lemma {:induction false} EncodingIsUnique(chunks: seq<Chunk>, last: Buf, more: Buf, chunks': seq<Chunk>, last': Buf)
    requires ChunksOk(chunks) && Spells(last, 0) && ChunksOk(chunks') && Spells(last', 0)
    requires Encode(chunks, last) + more == Encode(chunks', last')
    ensures more == [] && chunks == chunks' && last == last'
    decreases |chunks|
  {
    var x, y := Encode(chunks, last), Encode(chunks', last');
    if chunks == [] {
      LineMore(last, CRLF, more);
      if chunks' == [] {
        SizeLineCancel(last, CRLF + more, last', CRLF);
        assert |CRLF + more| == |CRLF|;
      } else {
        var c' := chunks'[0];
        SizeLineCancel(last, CRLF + more, c'.size, Line(c'.data, Encode(chunks'[1..], last')));
      }
    } else {
      var c, rest := chunks[0], Encode(chunks[1..], last);
      LineMore(c.size, Line(c.data, rest), more);
      LineMore(c.data, rest, more);
      if chunks' == [] {
        SizeLineCancel(c.size, Line(c.data, rest + more), last', CRLF);
      } else {
        var c', rest' := chunks'[0], Encode(chunks'[1..], last');
        SizeLineCancel(c.size, Line(c.data, rest + more), c'.size, Line(c'.data, rest'));
        LineCancel(c.data, rest + more, c'.data, rest');
        EncodingIsUnique(chunks[1..], last, more, chunks'[1..], last');
        assert chunks == [c] + chunks[1..] && chunks' == [c'] + chunks'[1..];
      }
    }
  }

  /** No accepted input is a proper prefix of another: a cut-off response is
      refused, and so is one with anything after it. */
  lemma NothingFollows(encoded: Buf, more: Buf, room: nat, room': nat)
    requires Decode(encoded, room).Ok? && more != []
    ensures Decode(encoded + more, room').Err?
  {
    if Decode(encoded + more, room').Ok? {
      DecodedIsEncoding(encoded, room);
      DecodedIsEncoding(encoded + more, room');
      var body, body' := Decode(encoded, room).body, Decode(encoded + more, room').body;
      var chunks, last :| EncodedBy(encoded, body, chunks, last);
      var chunks', last' :| EncodedBy(encoded + more, body', chunks', last');
      EncodingIsUnique(chunks, last, more, chunks', last');
    }
  }
}
