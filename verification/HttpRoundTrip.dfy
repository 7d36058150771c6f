/** Responses framed as sections 6.3 and 7.1 of RFC 9112 describe decode to their body. */
module HttpRoundTrip {
  import opened Bytes
  import opened HttpStream

  // ---------------------------------------------------------------- what every byte keeps

  /** The C buffers hold what the model keeps: lines fit and hold no NUL, counters fit. */
  predicate Sound(s: Stream) {
    && |s.line| <= 1023 && NoNul(s.line) && |s.location| <= 767 && NoNul(s.location)
    && s.headerBytes <= 8192 + 1 && s.remaining <= 0xFFFF_FFFF && s.status < 600
    && (s.Active() && (s.phase == BodyLength || s.phase == ChunkBody) ==> s.remaining > 0)
    && (s.Active() ==> s.headerBytes <= 8192)
  }

  predicate NoNul(v: seq<byte>) { 0 !in v }

  predicate LinePhase(p: Phase) { p == Status || p == Headers || p == ChunkSize || p == Trailers }

  lemma {:induction false} TrimKeeps(v: seq<byte>, c: byte)
    requires c !in v
    ensures c !in SkipBlanks(v) && c !in TrimBlanks(v)
    decreases |v|
  {
    if v != [] && Blank(v[0]) {
      TrimKeeps(v[1..], c);
    }
    if v != [] && Blank(v[|v| - 1]) {
      TrimKeeps(v[..|v| - 1], c);
    }
  }

  lemma {:induction false} ScannedFits(text: seq<byte>, base: nat)
    ensures Scanned(text, base) <= 0xFFFF_FFFF
    ensures IsNumber(text, base) && base > 0 ==> Scanned(text, base) == Value(Digits(text, base), base)
  {
    var d := Digits(text, base);
    AcceptedFits(d, base, 0);
    if IsNumber(text, base) && base > 0 {
      AcceptedAll(d, base, 0);
      assert d[..|d|] == d;
    }
  }

  lemma {:induction false} AcceptedFits(d: seq<byte>, base: nat, n: nat)
    requires n <= |d| && Value(d[..n], base) <= 0xFFFF_FFFF
    ensures Value(d[..Accepted(d, base, n)], base) <= 0xFFFF_FFFF
    decreases |d| - n
  {
    if n < |d| && Takes(d, base, n) {
      AcceptedFits(d, base, n + 1);
    }
  }

  lemma {:induction false} AcceptedAll(d: seq<byte>, base: nat, n: nat)
    requires base > 0 && n <= |d| && AllDigits(d, base) && Value(d, base) <= 0xFFFF_FFFF
    ensures Accepted(d, base, n) == |d|
    decreases |d| - n
  {
    if n < |d| {
      ValueGrows(d, base, n + 1);
      AcceptedAll(d, base, n + 1);
    }
  }

  lemma HeaderFieldSound(s: Stream, name: seq<byte>, value: seq<byte>)
    requires Sound(s) && s.Active() && s.phase == Headers && NoNul(value)
    ensures Sound(HeaderField(s, name, value))
  {
    ScannedFits(value, 10);
    hide Scanned, IsNumber, SameName, Text, NoNul;
  }

  lemma ValueHasNoNul(line: seq<byte>)
    requires NoNul(line) && Find(line, COLON) < |line|
    ensures NoNul(FieldValue(line))
  {
    var v := line[Find(line, COLON) + 1..];
    TrimKeeps(v, 0);
    TrimKeeps(SkipBlanks(v), 0);
  }

  lemma FieldSound(s: Stream)
    requires Sound(s) && s.Active() && (s.phase == Headers || s.phase == Trailers)
    ensures Sound(FieldLine(s))
  {
    hide FieldName, FieldValue, HeaderField, Field, NoNul;
    if Find(s.line, COLON) < |s.line| {
      ValueHasNoNul(s.line);
      if s.phase == Headers {
        HeaderFieldSound(s, FieldName(s.line), FieldValue(s.line));
      }
    }
  }

  lemma StatusSound(s: Stream)
    requires Sound(s) && s.Active() && s.phase == Status
    ensures Sound(StatusLine(s))
  {
    hide NoNul, Text;
  }

  lemma SizeSound(s: Stream)
    requires Sound(s) && s.Active() && s.phase == ChunkSize
    ensures Sound(SizeLine(s))
  {
    ScannedFits(s.line, 16);
    hide Scanned, IsNumber, NoNul;
  }

  lemma EmptySound(s: Stream)
    requires Sound(s) && s.Active() && (s.phase == Headers || s.phase == Trailers)
    ensures Sound(EmptyLine(s))
  {
    var t := EmptyLine(s);
    assert t.location == s.location || t.location == [];
    hide NoNul;
  }

  lemma LineSound(s: Stream)
    requires Sound(s) && s.Active() && LinePhase(s.phase)
    ensures Sound(Line(s))
  {
    hide StatusLine, SizeLine, EmptyLine, FieldLine, Sound;
    if s.phase == Status {
      StatusSound(s);
    } else if s.phase == ChunkSize {
      SizeSound(s);
    } else if s.line == [] {
      EmptySound(s);
    } else {
      FieldSound(s);
    }
  }

  lemma EndOfLineSound(s: Stream)
    requires Sound(s) && s.Active() && LinePhase(s.phase)
    ensures Sound(EndOfLine(s))
  {
    hide Line;
    if s.line != [] {
      var l := s.(line := s.line[..|s.line| - 1]);
      assert Sound(l);
      LineSound(l);
    }
  }

  /** Every wire byte keeps the decoder within its buffers, and a body phase has bytes left. */
  lemma StepSound(s: Stream, c: byte)
    requires Sound(s) && s.Active()
    ensures Sound(Step(s, c))
  {
    hide EndOfLine;
    if LinePhase(s.phase) && c == LF && s.headerBytes < 8192 {
      EndOfLineSound(s.(headerBytes := s.headerBytes + 1));
    }
  }

  // ---------------------------------------------------------------- one line

  const CRLF: seq<byte> := [CR, LF]

  /** Text a line may hold: printable, tab or above 127, and short enough with its CR. */
  predicate LineText(l: seq<byte>) {
    |l| < 1023 && forall i :: 0 <= i < |l| ==> l[i] == 9 || 32 <= l[i] < 127 || 128 <= l[i]
  }

  /** The decoder after a complete line. */
  function AfterLine(s: Stream, l: seq<byte>): Stream {
    var t := Line(s.(headerBytes := s.headerBytes + |l| + 2, line := l));
    t.(line := [], headerBytes := if t.phase == ChunkBody then 0 else t.headerBytes)
  }

  predicate AtLine(s: Stream, length: nat) {
    s.Active() && LinePhase(s.phase) && s.line == [] && s.headerBytes + length <= 8192
  }

  lemma TextStep(s: Stream, c: byte)
    requires LinePhase(s.phase) && |s.line| < 1023 && s.headerBytes < 8192 && LineByteOk(c)
    ensures Step(s, c) == s.(headerBytes := s.headerBytes + 1, line := s.line + [c])
  {
    hide EndOfLine;
  }

  lemma {:induction false} FeedText(s: Stream, l: seq<byte>)
    requires s.Active() && LinePhase(s.phase) && |s.line| + |l| <= 1023 && s.headerBytes + |l| <= 8192
    requires forall i :: 0 <= i < |l| ==> LineByteOk(l[i])
    ensures Decode(s, l) == Decoded(s.(headerBytes := s.headerBytes + |l|, line := s.line + l), [])
    decreases |l|
  {
    hide Step, LineByteOk;
    if l == [] {
      assert s.line + l == s.line;
    } else {
      var t := s.(headerBytes := s.headerBytes + 1, line := s.line + [l[0]]);
      TextStep(s, l[0]);
      FeedText(t, l[1..]);
      assert t.line + l[1..] == s.line + l;
    }
  }

  lemma FeedLine(s: Stream, l: seq<byte>)
    requires AtLine(s, |l| + 2) && LineText(l)
    ensures Decode(s, l + CRLF) == Decoded(AfterLine(s, l), [])
  {
    hide Decode, Step, AfterLine;
    var text := l + [CR];
    FeedText(s, text);
    assert s.line + text == text;
    var t := s.(headerBytes := s.headerBytes + |text|, line := text);
    DecodeAppend(s, text, [LF]);
    assert l + CRLF == text + [LF];
    EndStep(s, l);
    DecodeOne(t, LF);
  }

  lemma EndStep(s: Stream, l: seq<byte>)
    requires AtLine(s, |l| + 2) && LineText(l)
    ensures Step(s.(headerBytes := s.headerBytes + |l| + 1, line := l + [CR]), LF) == AfterLine(s, l)
  {
    hide Line;
    assert (l + [CR])[..|l|] == l;
  }

  lemma DecodeOne(s: Stream, c: byte)
    requires s.Active()
    ensures Decode(s, [c]) == Decoded(Step(s, c), if s.Body() then [c] else [])
  {
    hide Step;
    assert [c][1..] == [];
  }

  // ---------------------------------------------------------------- fields beside the framing

  function Lines(ls: seq<seq<byte>>): seq<byte> {
    if ls == [] then [] else ls[0] + CRLF + Lines(ls[1..])
  }

  /** A trailer: any well-formed field. */
  predicate TrailerOk(l: seq<byte>) { LineText(l) && Field(l) }

  predicate IsLocation(l: seq<byte>) { SameName(FieldName(l), Text("Location")) }

  /** A header field the decoder takes no notice of; Content-Encoding must be identity. */
  predicate Harmless(l: seq<byte>)
    requires Field(l)
  {
    var name := FieldName(l);
    && !SameName(name, Text("Content-Length")) && !SameName(name, Text("Transfer-Encoding")) && !IsLocation(l)
    && (SameName(name, Text("Content-Encoding")) ==> SameName(FieldValue(l), Text("identity")))
  }

  /** Header fields other than the framing, the Location already seen being given: any
      harmless ones, and one Location that fits. */
  predicate FieldsOk(location: seq<byte>, ls: seq<seq<byte>>)
    decreases |ls|
  {
    ls != [] ==>
      var l := ls[0];
      && LineText(l) && Field(l)
      && (if IsLocation(l) then location == [] && |FieldValue(l)| <= 767 && FieldsOk(FieldValue(l), ls[1..])
          else Harmless(l) && FieldsOk(location, ls[1..]))
  }

  function LocationAfter(location: seq<byte>, ls: seq<seq<byte>>): seq<byte>
    requires FieldsOk(location, ls)
    decreases |ls|
  {
    if ls == [] then location
    else LocationAfter(if IsLocation(ls[0]) then FieldValue(ls[0]) else location, ls[1..])
  }

  lemma {:induction false} FeedTrailers(s: Stream, ls: seq<seq<byte>>)
    requires AtLine(s, |Lines(ls)|) && s.phase == Trailers && forall i :: 0 <= i < |ls| ==> TrailerOk(ls[i])
    ensures Decode(s, Lines(ls)) == Decoded(s.(headerBytes := s.headerBytes + |Lines(ls)|), [])
    decreases |ls|
  {
    if ls != [] {
      var l := ls[0];
      assert TrailerOk(l);
      FeedLine(s, l);
      var t := s.(headerBytes := s.headerBytes + |l| + 2);
      TrailerLine(s, l);
      hide AfterLine, TrailerOk, Decode;
      FeedTrailers(t, ls[1..]);
      DecodeAppend(s, l + CRLF, Lines(ls[1..]));
    }
  }

  lemma TrailerLine(s: Stream, l: seq<byte>)
    requires TrailerOk(l) && s.phase == Trailers && s.line == []
    ensures AfterLine(s, l) == s.(headerBytes := s.headerBytes + |l| + 2)
  {
    hide Text, FieldValue, TokenChar, SameName;
  }

  lemma HarmlessLine(s: Stream, l: seq<byte>)
    requires s.phase == Headers && s.line == [] && s.error == NoError && LineText(l) && Field(l)
    requires if IsLocation(l) then s.location == [] && |FieldValue(l)| <= 767 else Harmless(l)
    ensures AfterLine(s, l) == s.(headerBytes := s.headerBytes + |l| + 2,
                                  location := if IsLocation(l) then FieldValue(l) else s.location)
  {
    if IsLocation(l) {
      LocationIsNoOther(l);
    }
    hide Text, FieldValue, TokenChar, SameName, Scanned, IsNumber;
  }

  lemma LocationIsNoOther(l: seq<byte>)
    requires IsLocation(l)
    ensures var name := FieldName(l);
            && !SameName(name, Text("Content-Length")) && !SameName(name, Text("Transfer-Encoding"))
            && !SameName(name, Text("Content-Encoding"))
  {
  }

  lemma {:induction false} FeedOthers(s: Stream, ls: seq<seq<byte>>)
    requires AtLine(s, |Lines(ls)|) && s.phase == Headers && FieldsOk(s.location, ls)
    ensures Decode(s, Lines(ls)) ==
            Decoded(s.(headerBytes := s.headerBytes + |Lines(ls)|, location := LocationAfter(s.location, ls)), [])
    decreases |ls|
  {
    if ls != [] {
      hide AfterLine, Harmless, Decode, FieldValue, LineText, Field, SameName, Text;
      var l := ls[0];
      FeedLine(s, l);
      HarmlessLine(s, l);
      var t := s.(headerBytes := s.headerBytes + |l| + 2, location := if IsLocation(l) then FieldValue(l) else s.location);
      FeedOthers(t, ls[1..]);
      DecodeAppend(s, l + CRLF, Lines(ls[1..]));
    }
  }

  // ---------------------------------------------------------------- chunks

  /** A chunk, its size spelt in any way section 7.1 allows: either case, leading
      zeros, an extension. */
  datatype Chunk = Chunk(size: seq<byte>, data: seq<byte>)

  predicate SizeText(l: seq<byte>, n: nat) { LineText(l) && IsNumber(l, 16) && Value(Digits(l, 16), 16) == n }

  predicate ChunkOk(c: Chunk) { c.data != [] && SizeText(c.size, |c.data|) }

  function EncodeChunk(c: Chunk): seq<byte> { c.size + CRLF + c.data + CRLF }

  function EncodeChunks(cs: seq<Chunk>): seq<byte> {
    if cs == [] then [] else EncodeChunk(cs[0]) + EncodeChunks(cs[1..])
  }

  function BodyOf(cs: seq<Chunk>): seq<byte> {
    if cs == [] then [] else cs[0].data + BodyOf(cs[1..])
  }

  /** Metadata bytes counted when the first size line is complete. */
  function FirstLine(cs: seq<Chunk>): nat { if cs == [] then 0 else |cs[0].size| + 2 }

  lemma {:induction false} FeedCounted(s: Stream, data: seq<byte>)
    requires s.Active() && (s.phase == ChunkBody || s.phase == BodyLength) && 0 < |data| <= s.remaining
    ensures var left := s.remaining - |data|;
            Decode(s, data) == Decoded(s.(remaining := left,
                                          done := left == 0 && s.phase == BodyLength,
                                          phase := if left == 0 && s.phase == ChunkBody then ChunkCr else s.phase), data)
    decreases |data|
  {
    DecodeOne(s, data[0]);
    if |data| == 1 {
      assert data == [data[0]];
    } else {
      assert data == [data[0]] + data[1..];
      DecodeAppend(s, [data[0]], data[1..]);
      FeedCounted(Step(s, data[0]), data[1..]);
    }
  }

  lemma FeedSize(s: Stream, l: seq<byte>, n: nat)
    requires AtLine(s, |l| + 2) && s.phase == ChunkSize && SizeText(l, n)
    ensures Decode(s, l + CRLF) ==
            Decoded(s.(remaining := n, phase := if n != 0 then ChunkBody else Trailers,
                       headerBytes := if n != 0 then 0 else s.headerBytes + |l| + 2), [])
  {
    FeedLine(s, l);
    ScannedFits(l, 16);
    hide Decode, Scanned, IsNumber, Value;
  }

  lemma FeedDelimiter(s: Stream)
    requires s.Active() && s.phase == ChunkCr
    ensures Decode(s, CRLF) == Decoded(s.(phase := ChunkSize), [])
  {
    DecodeOne(s, CR);
    DecodeOne(Step(s, CR), LF);
    DecodeAppend(s, [CR], [LF]);
    assert CRLF == [CR] + [LF];
  }

  lemma FeedChunk(s: Stream, c: Chunk)
    requires AtLine(s, |c.size| + 2) && s.phase == ChunkSize && ChunkOk(c)
    ensures Decode(s, EncodeChunk(c)) == Decoded(s.(headerBytes := 0, remaining := 0), c.data)
  {
    hide Decode, SizeText;
    FeedSize(s, c.size, |c.data|);
    var t := s.(remaining := |c.data|, phase := ChunkBody, headerBytes := 0);
    FeedCounted(t, c.data);
    var u := t.(remaining := 0, phase := ChunkCr);
    FeedDelimiter(u);
    DecodeAppend(s, c.size + CRLF, c.data);
    DecodeAppend(s, c.size + CRLF + c.data, CRLF);
  }

  lemma {:induction false} FeedChunks(s: Stream, cs: seq<Chunk>)
    requires AtLine(s, FirstLine(cs)) && s.phase == ChunkSize && forall i :: 0 <= i < |cs| ==> ChunkOk(cs[i])
    ensures Decode(s, EncodeChunks(cs)) ==
            Decoded(if cs == [] then s else s.(headerBytes := 0, remaining := 0), BodyOf(cs))
    decreases |cs|
  {
    if cs != [] {
      hide Decode;
      assert ChunkOk(cs[0]);
      FeedChunk(s, cs[0]);
      var t := s.(headerBytes := 0, remaining := 0);
      if |cs| > 1 {
        assert ChunkOk(cs[1]);
      }
      FeedChunks(t, cs[1..]);
      DecodeAppend(s, EncodeChunk(cs[0]), EncodeChunks(cs[1..]));
    }
  }

  /** Everything after the header section: chunks, the last chunk, trailers. */
  function EncodeBody(cs: seq<Chunk>, last: seq<byte>, trailers: seq<seq<byte>>): seq<byte> {
    EncodeChunks(cs) + (last + CRLF + Lines(trailers) + CRLF)
  }

  predicate BodyOk(cs: seq<Chunk>, last: seq<byte>, trailers: seq<seq<byte>>) {
    && (forall i :: 0 <= i < |cs| ==> ChunkOk(cs[i])) && SizeText(last, 0)
    && (forall i :: 0 <= i < |trailers| ==> TrailerOk(trailers[i]))
  }

  /** The trailer section's share of the metadata limit. */
  function TailLength(last: seq<byte>, trailers: seq<seq<byte>>): nat { |last| + 2 + |Lines(trailers)| + 2 }

  /** A chunk counts its metadata from the last chunk's data, the first from the head. */
  predicate WithinLimits(head: nat, cs: seq<Chunk>, last: seq<byte>, trailers: seq<seq<byte>>) {
    && head + FirstLine(cs) <= 8192
    && (if cs == [] then head else 0) + TailLength(last, trailers) <= 8192
  }

  lemma FeedTail(s: Stream, last: seq<byte>, trailers: seq<seq<byte>>)
    requires AtLine(s, TailLength(last, trailers)) && s.phase == ChunkSize && BodyOk([], last, trailers)
    ensures var d := Decode(s, last + CRLF + Lines(trailers) + CRLF);
            d.stream.done && d.stream.error == NoError && d.emitted == []
  {
    hide Decode, SizeText, TrailerOk;
    FeedSize(s, last, 0);
    var t := s.(remaining := 0, phase := Trailers, headerBytes := s.headerBytes + |last| + 2);
    FeedTrailers(t, trailers);
    var u := t.(headerBytes := t.headerBytes + |Lines(trailers)|);
    FeedLine(u, []);
    assert [] + CRLF == CRLF;
    DecodeAppend(s, last + CRLF, Lines(trailers));
    DecodeAppend(s, last + CRLF + Lines(trailers), CRLF);
  }

  /** Chunked round trip: any body, divided into any nonempty chunks with sizes spelt in
      any legal way, decodes to itself and ends done, from the end of the header section. */
  lemma ChunkedRoundTrip(s: Stream, cs: seq<Chunk>, last: seq<byte>, trailers: seq<seq<byte>>)
    requires s.Active() && s.phase == ChunkSize && s.line == [] && BodyOk(cs, last, trailers)
    requires WithinLimits(s.headerBytes, cs, last, trailers)
    ensures var d := Decode(s, EncodeBody(cs, last, trailers));
            d.stream.done && d.stream.error == NoError && d.emitted == BodyOf(cs)
  {
    hide Decode, SizeText, TrailerOk;
    FeedChunks(s, cs);
    var t := if cs == [] then s else s.(headerBytes := 0, remaining := 0);
    FeedTail(t, last, trailers);
    DecodeAppend(s, EncodeChunks(cs), last + CRLF + Lines(trailers) + CRLF);
  }

  // ---------------------------------------------------------------- header sections

  /** A header section: status line, other fields around one framing field. */
  datatype Head = Head(status: seq<byte>, before: seq<seq<byte>>, framing: seq<byte>, after: seq<seq<byte>>)

  function EncodeHead(h: Head): seq<byte> {
    h.status + CRLF + Lines(h.before) + (h.framing + CRLF) + Lines(h.after) + CRLF
  }

  predicate HeadOk(h: Head) {
    && LineText(h.status) && StatusLineOk(h.status) && h.status[9..12] == Text("200")
    && FieldsOk([], h.before) && FieldsOk(LocationAfter([], h.before), h.after)
    && LineText(h.framing) && Field(h.framing) && |EncodeHead(h)| <= 8192
  }

  predicate IsChunked(l: seq<byte>)
    requires Field(l)
  {
    SameName(FieldName(l), Text("Transfer-Encoding")) && SameName(FieldValue(l), Text("chunked"))
  }

  predicate IsLength(l: seq<byte>, n: nat)
    requires Field(l)
  {
    && SameName(FieldName(l), Text("Content-Length"))
    && IsNumber(FieldValue(l), 10) && Value(FieldValue(l), 10) == n
  }

  /** The decoder before the empty line, for what the framing field made of it. */
  function InHeaders(chunked: bool, length: nat, bytes: nat, location: seq<byte>): Stream {
    Stream(Headers, 200, bytes, length, [], !chunked, chunked, false, NoError, location)
  }

  function HeadLocation(h: Head): seq<byte>
    requires HeadOk(h)
  {
    LocationAfter(LocationAfter([], h.before), h.after)
  }

  /** Before a status line, some metadata already counted. */
  function Fresh(status: nat, bytes: nat): Stream { START.(status := status, headerBytes := bytes) }

  lemma AfterStatus(p: seq<byte>, status: nat, bytes: nat)
    requires StatusLineOk(p) && p[9..12] == Text("200")
    ensures AfterLine(Fresh(status, bytes), p) == Fresh(200, bytes + |p| + 2).(phase := Headers)
  {
    assert p[9] == p[9..12][0] && p[10] == p[9..12][1] && p[11] == p[9..12][2];
    assert Text("200") == [50, 48, 48];
    assert p[9] == 50 && p[10] == 48 && p[11] == 48;
    hide StatusLineOk, Text;
  }

  lemma StatusIs200(p: seq<byte>, status: nat, bytes: nat)
    requires LineText(p) && StatusLineOk(p) && p[9..12] == Text("200") && bytes + |p| + 2 <= 8192
    ensures Decode(Fresh(status, bytes), p + CRLF) == Decoded(Fresh(200, bytes + |p| + 2).(phase := Headers), [])
  {
    hide Decode, AfterLine, StatusLineOk;
    AfterStatus(p, status, bytes);
    FeedLine(Fresh(status, bytes), p);
  }

  lemma FramingLine(s: Stream, l: seq<byte>, chunked: bool, n: nat)
    requires s == Stream(Headers, 200, s.headerBytes, 0, [], false, false, false, NoError, s.location)
    requires LineText(l) && Field(l) && AtLine(s, |l| + 2)
    requires if chunked then n == 0 && IsChunked(l) else IsLength(l, n)
    ensures Decode(s, l + CRLF) == Decoded(InHeaders(chunked, n, s.headerBytes + |l| + 2, s.location), [])
  {
    hide Decode, LineText;
    FeedLine(s, l);
    ScannedFits(FieldValue(l), 10);
    assert !(SameName(FieldName(l), Text("Transfer-Encoding")) && SameName(FieldName(l), Text("Content-Length")));
    hide Scanned, IsNumber, FieldValue, SameName, Text, Value, Find;
  }

  lemma FeedFields(h: Head, chunked: bool, n: nat, status: nat, bytes: nat)
    requires HeadOk(h) && bytes + |EncodeHead(h)| <= 8192
    requires if chunked then n == 0 && IsChunked(h.framing) else IsLength(h.framing, n)
    ensures var wire := h.status + CRLF + Lines(h.before) + (h.framing + CRLF) + Lines(h.after);
            Decode(Fresh(status, bytes), wire) == Decoded(InHeaders(chunked, n, bytes + |wire|, HeadLocation(h)), [])
  {
    hide Decode, FieldsOk, LocationAfter, IsChunked, IsLength, StatusLineOk;
    var f := Fresh(status, bytes);
    var a := h.status + CRLF;
    StatusIs200(h.status, status, bytes);
    var s := Fresh(200, bytes + |a|).(phase := Headers);
    FeedOthers(s, h.before);
    DecodeAppend(f, a, Lines(h.before));
    var b := a + Lines(h.before);
    var t := s.(headerBytes := bytes + |b|, location := LocationAfter([], h.before));
    FramingLine(t, h.framing, chunked, n);
    DecodeAppend(f, b, h.framing + CRLF);
    var c := b + (h.framing + CRLF);
    FeedOthers(InHeaders(chunked, n, bytes + |c|, t.location), h.after);
    DecodeAppend(f, c, Lines(h.after));
  }

  /** The decoder after a header section. */
  function AfterHead(chunked: bool, n: nat, bytes: nat, location: seq<byte>): Stream {
    InHeaders(chunked, n, bytes, location).(phase := if chunked then ChunkSize else BodyLength, done := !chunked && n == 0)
  }

  lemma FeedHead(h: Head, chunked: bool, n: nat, status: nat, bytes: nat)
    requires HeadOk(h) && bytes + |EncodeHead(h)| <= 8192
    requires if chunked then n == 0 && IsChunked(h.framing) else IsLength(h.framing, n)
    ensures Decode(Fresh(status, bytes), EncodeHead(h)) == Decoded(AfterHead(chunked, n, bytes + |EncodeHead(h)|, HeadLocation(h)), [])
  {
    hide Decode, IsChunked, IsLength, FieldsOk, LocationAfter, StatusLineOk;
    FeedFields(h, chunked, n, status, bytes);
    var wire := h.status + CRLF + Lines(h.before) + (h.framing + CRLF) + Lines(h.after);
    FeedLine(InHeaders(chunked, n, bytes + |wire|, HeadLocation(h)), []);
    assert [] + CRLF == CRLF;
    DecodeAppend(Fresh(status, bytes), wire, CRLF);
  }

  // ---------------------------------------------------------------- interim responses

  /** A 1xx response, other than 101, with fields that are not framing. */
  datatype Interim = Interim(status: seq<byte>, fields: seq<seq<byte>>)

  predicate InterimOk(m: Interim) {
    && LineText(m.status) && StatusLineOk(m.status) && m.status[9] == 49 && m.status[9..12] != Text("101")
    && FieldsOk([], m.fields)
  }

  function Code(p: seq<byte>): nat
    requires StatusLineOk(p)
  {
    (p[9] as int - 48) * 100 + (p[10] as int - 48) * 10 + (p[11] as int - 48)
  }

  function EncodeInterim(m: Interim): seq<byte> { m.status + CRLF + Lines(m.fields) + CRLF }

  lemma InterimCode(p: seq<byte>)
    requires StatusLineOk(p) && p[9] == 49 && p[9..12] != Text("101")
    ensures Informational(Code(p))
  {
    assert p[9..12] == [p[9], p[10], p[11]] && Text("101") == [49, 48, 49];
  }

  lemma InterimLine(p: seq<byte>, status: nat, bytes: nat)
    requires StatusLineOk(p)
    ensures AfterLine(Fresh(status, bytes), p) == Fresh(Code(p), bytes + |p| + 2).(phase := Headers)
  {
  }

  /** An interim response is skipped: the decoder is back before a status line. */
  lemma InterimSkipped(m: Interim, status: nat, bytes: nat)
    requires InterimOk(m) && bytes + |EncodeInterim(m)| <= 8192
    ensures Decode(Fresh(status, bytes), EncodeInterim(m)) ==
            Decoded(Fresh(Code(m.status), bytes + |EncodeInterim(m)|), [])
  {
    hide Decode, FieldsOk, LocationAfter, StatusLineOk;
    var f, c := Fresh(status, bytes), Code(m.status);
    var a := m.status + CRLF;
    InterimLine(m.status, status, bytes);
    FeedLine(f, m.status);
    var s := Fresh(c, bytes + |a|).(phase := Headers);
    FeedOthers(s, m.fields);
    DecodeAppend(f, a, Lines(m.fields));
    var t := s.(headerBytes := bytes + |a + Lines(m.fields)|, location := LocationAfter([], m.fields));
    InterimCode(m.status);
    hide Code;
    FeedLine(t, []);
    assert [] + CRLF == CRLF;
    DecodeAppend(f, a + Lines(m.fields), CRLF);
  }

  function EncodeInterims(ms: seq<Interim>): seq<byte> {
    if ms == [] then [] else EncodeInterim(ms[0]) + EncodeInterims(ms[1..])
  }

  lemma {:induction false} InterimsSkipped(ms: seq<Interim>, status: nat, bytes: nat) returns (last: nat)
    requires (forall i :: 0 <= i < |ms| ==> InterimOk(ms[i])) && bytes + |EncodeInterims(ms)| <= 8192
    ensures Decode(Fresh(status, bytes), EncodeInterims(ms)) == Decoded(Fresh(last, bytes + |EncodeInterims(ms)|), [])
    decreases |ms|
  {
    hide Decode, InterimOk, Code, EncodeInterim;
    if ms == [] {
      last := status;
      DecodeNothing(Fresh(status, bytes));
    } else {
      var a := EncodeInterim(ms[0]);
      StatusLineOf(ms[0]);
      InterimSkipped(ms[0], status, bytes);
      last := InterimsSkipped(ms[1..], Code(ms[0].status), bytes + |a|);
      DecodeAppend(Fresh(status, bytes), a, EncodeInterims(ms[1..]));
    }
  }

  lemma StatusLineOf(m: Interim)
    requires InterimOk(m)
    ensures StatusLineOk(m.status)
  {
  }

  // ---------------------------------------------------------------- whole responses

  function EncodeResponse(ms: seq<Interim>, h: Head, cs: seq<Chunk>, last: seq<byte>, trailers: seq<seq<byte>>): seq<byte> {
    EncodeInterims(ms) + (EncodeHead(h) + EncodeBody(cs, last, trailers))
  }

  predicate ResponseOk(ms: seq<Interim>, h: Head, cs: seq<Chunk>, last: seq<byte>, trailers: seq<seq<byte>>) {
    && (forall i :: 0 <= i < |ms| ==> InterimOk(ms[i]))
    && HeadOk(h) && IsChunked(h.framing) && BodyOk(cs, last, trailers)
    && WithinLimits(|EncodeInterims(ms)| + |EncodeHead(h)|, cs, last, trailers)
  }

  /** The decoder at the end of the header section of a response. */
  lemma ResponseHead(ms: seq<Interim>, h: Head, cs: seq<Chunk>, last: seq<byte>, trailers: seq<seq<byte>>, body: seq<byte>)
    requires ResponseOk(ms, h, cs, last, trailers)
    ensures Decode(START, EncodeInterims(ms) + (EncodeHead(h) + body)) ==
            Decode(AfterHead(true, 0, |EncodeInterims(ms)| + |EncodeHead(h)|, HeadLocation(h)), body)
  {
    hide Decode, InterimOk, HeadOk, BodyOk, IsChunked, EncodeHead;
    var i := EncodeInterims(ms);
    var status := InterimsSkipped(ms, 0, 0);
    HeadFits(h);
    FeedHead(h, true, 0, status, |i|);
    var s := AfterHead(true, 0, |i| + |EncodeHead(h)|, HeadLocation(h));
    DecodeAppend(Fresh(status, |i|), EncodeHead(h), body);
    DecodeAppend(START, i, EncodeHead(h) + body);
    assert [] + Decode(s, body).emitted == Decode(s, body).emitted;
  }

  lemma HeadFits(h: Head)
    requires HeadOk(h)
    ensures Field(h.framing)
  {
  }

  /** A whole chunked response, after any interim ones, decodes to its body. */
  lemma ResponseDecodes(ms: seq<Interim>, h: Head, cs: seq<Chunk>, last: seq<byte>, trailers: seq<seq<byte>>)
    requires ResponseOk(ms, h, cs, last, trailers)
    ensures var d := Decode(START, EncodeResponse(ms, h, cs, last, trailers));
            d.stream.done && d.stream.error == NoError && d.emitted == BodyOf(cs)
  {
    hide Decode, InterimOk, HeadOk, BodyOk, IsChunked, EncodeHead, EncodeBody;
    ResponseHead(ms, h, cs, last, trailers, EncodeBody(cs, last, trailers));
    ChunkedRoundTrip(AfterHead(true, 0, |EncodeInterims(ms)| + |EncodeHead(h)|, HeadLocation(h)), cs, last, trailers);
  }

  /** It does so however it is split and however often its consumer refuses a byte. */
  lemma ChunkedResponse(ms: seq<Interim>, h: Head, cs: seq<Chunk>, last: seq<byte>, trailers: seq<seq<byte>>, calls: seq<Call>)
    requires ResponseOk(ms, h, cs, last, trailers)
    ensures var wire := EncodeResponse(ms, h, cs, last, trailers);
            var f := Calls(START, wire, calls);
            f.used == |wire| || !f.stream.Active() ==>
              f.stream.done && f.stream.error == NoError && f.emitted == BodyOf(cs)
  {
    hide Decode, ResponseOk, EncodeResponse, Calls;
    ResponseDecodes(ms, h, cs, last, trailers);
    var wire := EncodeResponse(ms, h, cs, last, trailers);
    var f := Calls(START, wire, calls);
    if f.used == |wire| || !f.stream.Active() {
      SplitIndependence(START, wire, calls);
    }
  }

  // ---------------------------------------------------------------- truncation

  lemma InactiveStays(s: Stream, data: seq<byte>)
    requires !s.Active()
    ensures Decode(s, data) == Decoded(s, [])
  {
  }

  lemma {:induction false} NeverDone(s: Stream, data: seq<byte>)
    requires s.Active() && s.phase == BodyClose
    ensures Decode(s, data).stream.Active()
    decreases |data|
  {
    if data != [] {
      NeverDone(Step(s, data[0]), data[1..]);
    }
  }

  /** A wire that is open until its last byte is refused when closed any earlier. */
  lemma PrefixTruncated(s: Stream, wire: seq<byte>, k: nat)
    requires k < |wire| && Decode(s, wire[..|wire| - 1]).stream.Active() && Decode(s, wire).stream.done
    ensures Close(Decode(s, wire[..k]).stream).error == Truncated
  {
    hide Decode;
    var d := Decode(s, wire[..k]).stream;
    var n := |wire| - 1;
    DecodeAppend(s, wire[..k], wire[k..n]);
    assert wire[..k] + wire[k..n] == wire[..n];
    if !d.Active() {
      InactiveStays(d, wire[k..n]);
    }
    DecodeAppend(s, wire[..k], wire[k..]);
    assert wire[..k] + wire[k..] == wire;
    if d.Active() && d.phase == BodyClose {
      NeverDone(d, wire[k..]);
    }
  }

  lemma TailOpen(s: Stream, last: seq<byte>, trailers: seq<seq<byte>>)
    requires AtLine(s, TailLength(last, trailers)) && s.phase == ChunkSize && BodyOk([], last, trailers)
    ensures Decode(s, last + CRLF + Lines(trailers) + [CR]).stream.Active()
  {
    hide Decode, SizeText, TrailerOk;
    FeedSize(s, last, 0);
    var t := s.(remaining := 0, phase := Trailers, headerBytes := s.headerBytes + |last| + 2);
    FeedTrailers(t, trailers);
    var u := t.(headerBytes := t.headerBytes + |Lines(trailers)|);
    FeedText(u, [CR]);
    DecodeAppend(s, last + CRLF, Lines(trailers));
    DecodeAppend(s, last + CRLF + Lines(trailers), [CR]);
  }

  lemma BodyOpen(s: Stream, cs: seq<Chunk>, last: seq<byte>, trailers: seq<seq<byte>>)
    requires s.Active() && s.phase == ChunkSize && s.line == [] && BodyOk(cs, last, trailers)
    requires WithinLimits(s.headerBytes, cs, last, trailers)
    ensures var b := EncodeBody(cs, last, trailers); b != [] && Decode(s, b[..|b| - 1]).stream.Active()
  {
    hide Decode, SizeText, TrailerOk;
    FeedChunks(s, cs);
    var t := if cs == [] then s else s.(headerBytes := 0, remaining := 0);
    TailOpen(t, last, trailers);
    var b, tail := EncodeBody(cs, last, trailers), last + CRLF + Lines(trailers) + [CR];
    DecodeAppend(s, EncodeChunks(cs), tail);
    assert b[..|b| - 1] == EncodeChunks(cs) + tail;
  }

  /** Truncation is always noticed: a chunked response closed before its last byte, at
      any byte of it, ends in an error. */
  lemma TruncationNoticed(ms: seq<Interim>, h: Head, cs: seq<Chunk>, last: seq<byte>, trailers: seq<seq<byte>>, k: nat)
    requires ResponseOk(ms, h, cs, last, trailers) && k < |EncodeResponse(ms, h, cs, last, trailers)|
    ensures Close(Decode(START, EncodeResponse(ms, h, cs, last, trailers)[..k]).stream).error == Truncated
  {
    hide Decode, InterimOk, HeadOk, BodyOk, IsChunked, EncodeHead, EncodeBody;
    var b, wire := EncodeBody(cs, last, trailers), EncodeResponse(ms, h, cs, last, trailers);
    var s := AfterHead(true, 0, |EncodeInterims(ms)| + |EncodeHead(h)|, HeadLocation(h));
    BodyOpen(s, cs, last, trailers);
    var short := b[..|b| - 1];
    ResponseHead(ms, h, cs, last, trailers, short);
    assert wire[..|wire| - 1] == EncodeInterims(ms) + (EncodeHead(h) + short);
    ResponseDecodes(ms, h, cs, last, trailers);
    PrefixTruncated(START, wire, k);
  }

  // ---------------------------------------------------------------- counted bodies

  /** A Content-Length response emits exactly its body, and nothing of what follows it. */
  lemma LengthResponse(h: Head, body: seq<byte>, more: seq<byte>, calls: seq<Call>)
    requires HeadOk(h) && IsLength(h.framing, |body|)
    ensures var wire := EncodeHead(h) + (body + more);
            var f := Calls(START, wire, calls);
            f.used == |wire| || !f.stream.Active() ==>
              f.stream.done && f.stream.error == NoError && f.emitted == body
  {
    hide Decode, FieldsOk, LocationAfter, IsLength, StatusLineOk, Calls;
    FeedHead(h, false, |body|, 0, 0);
    LengthBody(AfterHead(false, |body|, |EncodeHead(h)|, HeadLocation(h)), body, more);
    DecodeAppend(START, EncodeHead(h), body + more);
    var wire := EncodeHead(h) + (body + more);
    var f := Calls(START, wire, calls);
    if f.used == |wire| || !f.stream.Active() {
      SplitIndependence(START, wire, calls);
    }
  }

  lemma LengthBody(s: Stream, body: seq<byte>, more: seq<byte>)
    requires s.phase == BodyLength && s.error == NoError && s.remaining == |body| && s.done == (|body| == 0)
    ensures Decode(s, body + more) == Decoded(s.(remaining := 0, done := true), body)
  {
    if |body| > 0 {
      FeedCounted(s, body);
      DecodeAppend(s, body, more);
      assert Decode(s.(remaining := 0, done := true), more) == Decoded(s.(remaining := 0, done := true), []);
    }
  }

  // ---------------------------------------------------------------- responses without framing

  /** A header section with no framing field. */
  function EncodeUnframed(p: seq<byte>, fields: seq<seq<byte>>): seq<byte> { p + CRLF + Lines(fields) + CRLF }

  predicate UnframedOk(p: seq<byte>, fields: seq<seq<byte>>) {
    && LineText(p) && StatusLineOk(p) && FieldsOk([], fields) && (Code(p) < 100 || Code(p) == 101 || 200 <= Code(p))
    && |EncodeUnframed(p, fields)| <= 8192
  }

  /** The decoder before the empty line of such a section. */
  function BeforeEmptyLine(p: seq<byte>, fields: seq<seq<byte>>, bytes: nat): Stream
    requires UnframedOk(p, fields)
  {
    Fresh(Code(p), bytes).(phase := Headers, location := LocationAfter([], fields))
  }

  lemma FeedUnframed(p: seq<byte>, fields: seq<seq<byte>>)
    requires UnframedOk(p, fields)
    ensures var head := EncodeUnframed(p, fields);
            Decode(START, head) == Decoded(EmptyLine(BeforeEmptyLine(p, fields, |head|)), [])
  {
    hide Decode, FieldsOk, LocationAfter, StatusLineOk, Code, EmptyLine;
    var a := p + CRLF;
    InterimLine(p, 0, 0);
    FeedLine(START, p);
    var s := Fresh(Code(p), |a|).(phase := Headers);
    FeedOthers(s, fields);
    DecodeAppend(START, a, Lines(fields));
    var b := a + Lines(fields);
    FeedLine(BeforeEmptyLine(p, fields, |b|), []);
    assert [] + CRLF == CRLF;
    DecodeAppend(START, b, CRLF);
    EmptyLineEnds(BeforeEmptyLine(p, fields, |b|));
  }

  /** Taken as a line, the empty line does what EmptyLine says. */
  lemma EmptyLineEnds(s: Stream)
    requires s.phase == Headers && s.line == []
    ensures AfterLine(s, []) == EmptyLine(s.(headerBytes := s.headerBytes + 2))
  {
    hide StatusLine, SizeLine, FieldLine;
  }

  /** How a response without a framing field ends, by its status: a redirect is done with
      its Location and is an error without one; 204 is done; 200 has every byte up to the
      close as its body; any other status is an error. Nothing but that body is emitted. */
  lemma UnframedResponse(p: seq<byte>, fields: seq<seq<byte>>, body: seq<byte>)
    requires UnframedOk(p, fields)
    ensures var d := Decode(START, EncodeUnframed(p, fields) + body);
            var code, location := Code(p), LocationAfter([], fields);
            var redirect := code in {301, 302, 303, 307, 308};
            && d.stream.status == code && d.stream.location == location
            && d.emitted == (if code == 200 then body else [])
            && (d.stream.done <==> code == 204 || (redirect && location != []))
            && d.stream.error == (if redirect && location == [] then RedirectWithoutLocation
                                  else if redirect || code == 200 || code == 204 then NoError
                                  else ServerError)
            && (code == 200 ==> Close(d.stream).done && Close(d.stream).error == NoError)
  {
    hide Decode, FieldsOk, LocationAfter, StatusLineOk, Code, EncodeUnframed;
    var head := EncodeUnframed(p, fields);
    var s := EmptyLine(BeforeEmptyLine(p, fields, |head|));
    FeedUnframed(p, fields);
    DecodeAppend(START, head, body);
    assert [] + Decode(s, body).emitted == Decode(s, body).emitted;
    if Code(p) == 200 {
      FeedToClose(s, body);
    } else {
      InactiveStays(s, body);
    }
  }

  lemma {:induction false} FeedToClose(s: Stream, body: seq<byte>)
    requires s.Active() && s.phase == BodyClose
    ensures Decode(s, body) == Decoded(s, body)
    decreases |body|
  {
    if body != [] {
      FeedToClose(s, body[1..]);
    }
  }

  /** A close-delimited response, through any calls: all of it up to the close. */
  lemma CloseResponse(p: seq<byte>, fields: seq<seq<byte>>, body: seq<byte>, calls: seq<Call>)
    requires UnframedOk(p, fields) && Code(p) == 200
    ensures var wire := EncodeUnframed(p, fields) + body;
            var f := Calls(START, wire, calls);
            f.used == |wire| || !f.stream.Active() ==>
              f.emitted == body && Close(f.stream).done && Close(f.stream).error == NoError
  {
    hide Decode, UnframedOk, EncodeUnframed, Calls, Code;
    UnframedResponse(p, fields, body);
    var wire := EncodeUnframed(p, fields) + body;
    var f := Calls(START, wire, calls);
    if f.used == |wire| || !f.stream.Active() {
      SplitIndependence(START, wire, calls);
    }
  }

  // ---------------------------------------------------------------- both framings

  /** A second framing field of the other kind, and what may follow it. */
  lemma SecondFraming(s: Stream, l: seq<byte>, chunked: bool, n: nat)
    requires s.Active() && s.phase == Headers && s.line == [] && LineText(l) && Field(l)
    requires if chunked then IsChunked(l) && !s.chunked else IsLength(l, n) && !s.haveLength
    ensures var t := AfterLine(s, l);
            && t.Active() && t.phase == Headers && t.headerBytes == s.headerBytes + |l| + 2 && t.location == s.location
            && t.status == s.status && t.line == []
            && t.chunked == (s.chunked || chunked) && t.haveLength == (s.haveLength || !chunked)
  {
    assert !(SameName(FieldName(l), Text("Transfer-Encoding")) && SameName(FieldName(l), Text("Content-Length")));
    hide Scanned, IsNumber, FieldValue, SameName, Text, Value, Find;
  }

  /** A response that carries both a length and a transfer coding, in either order, is
      refused at the end of its header section and emits nothing. */
  lemma BothFramingsRefused(h: Head, chunked: bool, n: nat, second: seq<byte>, fields: seq<seq<byte>>, body: seq<byte>)
    requires HeadOk(h) && LineText(second) && Field(second) && FieldsOk(HeadLocation(h), fields)
    requires if chunked then IsChunked(h.framing) && IsLength(second, n) else IsLength(h.framing, n) && IsChunked(second)
    requires |EncodeHead(h)| + |second| + 2 + |Lines(fields)| <= 8192
    ensures var head := h.status + CRLF + Lines(h.before) + (h.framing + CRLF) + Lines(h.after);
            var d := Decode(START, head + (second + CRLF) + Lines(fields) + CRLF + body);
            d.stream.error == AmbiguousFraming && d.emitted == []
  {
    hide Decode, FieldsOk, LocationAfter, IsChunked, IsLength, StatusLineOk, AfterLine, HeadLocation;
    var a := h.status + CRLF + Lines(h.before) + (h.framing + CRLF) + Lines(h.after);
    var m := if chunked then 0 else n;
    FeedFields(h, chunked, m, 0, 0);
    var s := InHeaders(chunked, m, |a|, HeadLocation(h));
    assert |EncodeHead(h)| == |a| + 2;
    SecondFraming(s, second, !chunked, n);
    FeedLine(s, second);
    var t := AfterLine(s, second);
    var b := a + (second + CRLF);
    DecodeAppend(START, a, second + CRLF);
    FeedOthers(t, fields);
    var u := t.(headerBytes := t.headerBytes + |Lines(fields)|, location := LocationAfter(t.location, fields));
    DecodeAppend(START, b, Lines(fields));
    var c := b + Lines(fields);
    AmbiguousEnds(u, body);
    DecodeAppend(START, c, CRLF + body);
    assert c + (CRLF + body) == c + CRLF + body;
  }

  lemma AmbiguousEnds(s: Stream, body: seq<byte>)
    requires AtLine(s, 2) && s.phase == Headers && s.haveLength && s.chunked
    ensures var d := Decode(s, CRLF + body); d.stream.error == AmbiguousFraming && d.emitted == []
  {
    hide Decode, AfterLine;
    FeedLine(s, []);
    EmptyLineEnds(s);
    assert [] + CRLF == CRLF;
    DecodeAppend(s, CRLF, body);
    InactiveStays(EmptyLine(s.(headerBytes := s.headerBytes + 2)), body);
  }
}
