/** A chat response end to end: whatever way the server cuts its event lines into chunks,
    the terminal is shown the content of every event, in order, and nothing else. */
module ChatTranscript {
  import opened Bytes
  import opened Json
  import opened JsonText
  import opened JsonLookup
  import opened ChatStream
  import Http = HttpStream

  // ---------------------------------------------------------------- chunking is transparent

  /** The stream without its HTTP framing. */
  function Plain(s: Chat): Chat {
    s.(chunked := false, haveLength := false, remaining := 0, chunkSize := 0, chunkPhase := Size, extension := false,
       digits := 0, headerBytes := 0)
  }

  lemma PlainKeeps(s: Chat)
    ensures Plain(s).Active() == s.Active() && Plain(s).Pending() == s.Pending() && Plain(s).Shown() == Plain(s.Shown())
    ensures Plain(Plain(s)) == Plain(s)
  {
  }

  /** Same line state, whatever the framing. */
  predicate Blind(s: Chat, t: Chat, u: Chat) {
    Plain(t) == u && t.phase == s.phase && Framing(t) == Framing(s)
  }

  lemma DocumentIsBlind(s: Chat, data: seq<byte>)
    ensures Blind(s, Document(s, data), Document(Plain(s), data))
  {
    hide ReadDocument;
  }

  lemma EventIsBlind(s: Chat)
    ensures Blind(s, Event(s), Event(Plain(s)))
  {
    hide Document, Payload, Text;
    if Text("data:") <= s.line {
      DocumentIsBlind(s, Payload(s.line));
    }
  }

  lemma WholeLineIsBlind(s: Chat)
    requires s.phase == Body && !(s.chunked && s.chunkPhase == Trailers)
    ensures Blind(s, WholeLine(s), WholeLine(Plain(s)))
  {
    EventIsBlind(s);
    hide Event, Status, Header;
  }

  lemma EndIsBlind(s: Chat)
    requires s.phase == Body && !(s.chunked && s.chunkPhase == Trailers)
    ensures Blind(s, WholeLine(s.(line := Stripped(s.line))).(line := []),
                  WholeLine(Plain(s).(line := Stripped(s.line))).(line := []))
  {
    hide WholeLine, Stripped;
    var l := s.(line := Stripped(s.line));
    assert Plain(l) == Plain(s).(line := Stripped(s.line));
    WholeLineIsBlind(l);
  }

  /** A line does not look at the framing around it. */
  lemma LineIsBlind(s: Chat, c: byte)
    requires s.phase == Body && !(s.chunked && s.chunkPhase == Trailers)
    ensures Blind(s, LineByte(s, c), LineByte(Plain(s), c)) && Step(Plain(s), c) == LineByte(Plain(s), c)
  {
    hide WholeLine, Stripped, ChunkByte;
    if c == LF {
      EndIsBlind(s);
      assert LineByte(s, LF) == WholeLine(s.(line := Stripped(s.line))).(line := []);
      assert LineByte(Plain(s), LF) == WholeLine(Plain(s).(line := Stripped(s.line))).(line := []);
    }
  }

  datatype Frame = Frame(chunked: bool, chunkSize: nat, chunkPhase: ChunkPhase, extension: bool, digits: nat, headerBytes: nat)

  function Framing(s: Chat): Frame {
    Frame(s.chunked, s.chunkSize, s.chunkPhase, s.extension, s.digits, s.headerBytes)
  }

  /** Chunked data decodes as the same bytes without chunks, up to the framing fields. */
  predicate Transparent(s: Chat, wire: seq<byte>, data: seq<byte>) {
    var d, e := Decode(s, wire), Decode(Plain(s), data);
    Plain(d.chat) == e.chat && d.emitted == e.emitted
  }

  lemma {:induction false} DataIsPlain(s: Chat, data: seq<byte>)
    requires s.phase == Body && s.chunked && s.chunkPhase == Data && 0 < |data| <= s.chunkSize
    ensures Transparent(s, data, data)
    ensures var t := Decode(s, data).chat;
            t.Active() ==> t.phase == Body
                           && Framing(t) == Framing(s).(chunkSize := s.chunkSize - |data|,
                                                        chunkPhase := if s.chunkSize == |data| then Cr else Data)
    decreases |data|
  {
    hide LineByte, Step, Decode;
    PlainKeeps(s);
    var t := s.Shown();
    if !t.Active() {
      DecodeEnds(s, data);
      DecodeEnds(Plain(s), data);
    } else {
      var u := Step(t, data[0]);
      DataByte(t, data[0]);
      DecodeByte(s, data);
      DecodeByte(Plain(s), data);
      if |data| == 1 {
        assert data[1..] == [];
        DecodeNothing(u);
        DecodeNothing(Plain(u));
        PlainKeeps(u);
      } else {
        DataIsPlain(u, data[1..]);
      }
    }
  }

  lemma DataByte(s: Chat, c: byte)
    requires s.phase == Body && s.chunked && s.chunkPhase == Data && s.chunkSize > 0
    ensures var t := Step(s, c);
            && Plain(t) == Step(Plain(s), c) && t.phase == Body
            && Framing(t) == Framing(s).(chunkSize := s.chunkSize - 1, chunkPhase := if s.chunkSize == 1 then Cr else Data)
  {
    LineIsBlind(s, c);
    hide LineByte;
  }

  lemma DecodeEnds(s: Chat, data: seq<byte>)
    requires !s.Shown().Active()
    ensures Decode(s, data) == Decoded(s.Shown(), s.Pending())
  {
  }

  lemma Compose(s: Chat, a: seq<byte>, b: seq<byte>, x: seq<byte>, y: seq<byte>)
    requires Transparent(s, a, x) && Transparent(Decode(s, a).chat, b, y)
    ensures Transparent(s, a + b, x + y)
  {
    hide Decode, Plain;
    DecodeAppend(s, a, b);
    DecodeAppend(Plain(s), x, y);
  }

  // ---------------------------------------------------------------- size lines and delimiters

  const CRLF: seq<byte> := [CR, LF]

  /** Nothing waiting, in a chunked body. */
  predicate Framed(s: Chat, phase: ChunkPhase) {
    s.Active() && !s.Waiting() && s.phase == Body && s.chunked && s.chunkPhase == phase
  }

  /** A framing byte shows nothing and leaves the line alone. */
  lemma FrameByte(s: Chat, c: byte, rest: seq<byte>)
    requires s.Active() && !s.Waiting()
    ensures Decode(s, [c] + rest) == Decode(Step(s, c), rest)
  {
    hide Step;
    assert ([c] + rest)[1..] == rest;
  }

  lemma HexIsDigit(c: byte)
    ensures IsHex(c) ==> Http.Digit(c) == Hex(c)
  {
  }

  lemma {:induction false} FeedDigits(s: Chat, p: seq<byte>, d: seq<byte>, rest: seq<byte>)
    requires Framed(s, Size) && !s.extension && s.digits == |p| && s.chunkSize == Http.Value(p, 16)
    requires |p| + |d| <= 8 && Http.Value(p + d, 16) <= UINT32_MAX && forall i :: 0 <= i < |d| ==> IsHex(d[i])
    ensures Decode(s, d + rest) == Decode(s.(chunkSize := Http.Value(p + d, 16), digits := |p| + |d|), rest)
    decreases |d|
  {
    hide Decode, Http.Value;
    if d == [] {
      assert d + rest == rest && p + d == p;
    } else {
      var q := p + [d[0]];
      assert q + d[1..] == p + d && d + rest == [d[0]] + (d[1..] + rest);
      FrameByte(s, d[0], d[1..] + rest);
      NextSize(p, d);
      FeedDigits(s.(chunkSize := Http.Value(q, 16), digits := |q|), q, d[1..], rest);
    }
  }

  lemma LastDigit(p: seq<byte>, c: byte)
    ensures Http.Value(p + [c], 16) == Http.Shifted(Http.Value(p, 16), 16, Http.Digit(c))
  {
    hide Http.Shifted, Http.Digit;
    assert (p + [c])[..|p|] == p;
  }

  lemma NoOverflow(v: nat, h: nat)
    requires h < 16 && Http.Shifted(v, 16, h) <= UINT32_MAX
    ensures Http.Shifted(v, 16, h) == v * 16 % 0x1_0000_0000 + h
  {
  }

  /** The shifted size does not overflow while the whole size fits. */
  lemma NextSize(p: seq<byte>, d: seq<byte>)
    requires d != [] && IsHex(d[0]) && Http.Value(p + d, 16) <= UINT32_MAX
    ensures Http.Value(p + [d[0]], 16) == Http.Value(p, 16) * 16 % 0x1_0000_0000 + Hex(d[0])
  {
    hide Http.Value, Http.Shifted, Http.Digit, Hex;
    var q := p + [d[0]];
    HexIsDigit(d[0]);
    HexSmall(d[0]);
    LastDigit(p, d[0]);
    Http.ValueGrows(p + d, 16, |q|);
    assert (p + d)[..|q|] == q;
    NoOverflow(Http.Value(p, 16), Hex(d[0]));
  }

  lemma HexSmall(c: byte)
    requires IsHex(c)
    ensures Hex(c) < 16
  {
  }

  /** A chunk extension: a semicolon and printable text. */
  predicate ExtensionOk(x: seq<byte>) {
    (x != [] ==> x[0] == 59) && forall i :: 0 <= i < |x| ==> 32 <= x[i] < 127
  }

  lemma {:induction false} FeedExtension(s: Chat, x: seq<byte>, rest: seq<byte>) returns (n: nat)
    requires Framed(s, Size) && s.digits > 0 && s.headerBytes + |x| <= HEADERS_MAX
    requires (x != [] ==> s.extension || x[0] == 59) && forall i :: 0 <= i < |x| ==> 32 <= x[i] < 127
    ensures n <= s.headerBytes + |x|
    ensures Decode(s, x + rest) == Decode(s.(extension := s.extension || x != [], headerBytes := n), rest)
    decreases |x|
  {
    hide Decode;
    if x == [] {
      n := s.headerBytes;
      assert x + rest == rest;
    } else {
      assert x + rest == [x[0]] + (x[1..] + rest);
      FrameByte(s, x[0], x[1..] + rest);
      var t := Step(s, x[0]);
      assert t == s.(extension := true, headerBytes := t.headerBytes) && t.headerBytes <= s.headerBytes + 1;
      n := FeedExtension(t, x[1..], rest);
    }
  }

  /** A chunk as the chat decoder takes it: up to eight digits and an extension. */
  datatype Chunk = Chunk(size: seq<byte>, extension: seq<byte>, data: seq<byte>)

  predicate ChunkOk(c: Chunk) {
    && 0 < |c.size| <= 8 && (forall i :: 0 <= i < |c.size| ==> IsHex(c.size[i])) && ExtensionOk(c.extension)
    && 0 < |c.data| == Http.Value(c.size, 16) <= UINT32_MAX
  }

  function EncodeChunk(c: Chunk): seq<byte> { c.size + (c.extension + CRLF) + c.data + CRLF }

  lemma FeedEnd(s: Chat)
    requires Framed(s, Size) && s.digits > 0
    ensures Decode(s, CRLF) == Decoded(s.(chunkPhase := if s.chunkSize != 0 then Data else Trailers), [])
  {
    hide Decode;
    assert CRLF == [CR] + [LF] && [LF] + [] == [LF];
    FrameByte(s, CR, [LF]);
    FrameByte(Step(s, CR), LF, []);
    DecodeNothing(s.(chunkPhase := if s.chunkSize != 0 then Data else Trailers));
  }

  lemma FeedDelimiter(s: Chat)
    requires Framed(s, Cr)
    ensures Decode(s, CRLF) == Decoded(s.(chunkPhase := Size, digits := 0, extension := false), [])
  {
    hide Decode;
    assert CRLF == [CR] + [LF] && [LF] + [] == [LF];
    FrameByte(s, CR, [LF]);
    FrameByte(Step(s, CR), LF, []);
    DecodeNothing(s.(chunkPhase := Size, digits := 0, extension := false));
  }

  /** Ready for a size line. */
  predicate AtSize(s: Chat) { Framed(s, Size) && s.digits == 0 && !s.extension && s.chunkSize == 0 }

  lemma FeedSizeLine(s: Chat, c: Chunk) returns (t: Chat)
    requires AtSize(s) && ChunkOk(c) && s.headerBytes + |c.extension| <= HEADERS_MAX
    ensures Decode(s, c.size + (c.extension + CRLF)) == Decoded(t, [])
    ensures Framed(t, Data) && t.chunkSize == |c.data| && Plain(t) == Plain(s) && t.headerBytes <= s.headerBytes + |c.extension|
  {
    hide Decode;
    assert [] + c.size == c.size;
    Http.EmptyValue(16);
    FeedDigits(s, [], c.size, c.extension + CRLF);
    var u := s.(chunkSize := |c.data|, digits := |c.size|);
    var n := FeedExtension(u, c.extension, CRLF);
    var v := u.(extension := c.extension != [], headerBytes := n);
    FeedEnd(v);
    t := v.(chunkPhase := Data);
    hide Http.Value;
  }

  lemma OneChunk(s: Chat, c: Chunk)
    requires AtSize(s) && ChunkOk(c) && s.headerBytes + |c.extension| <= HEADERS_MAX
    ensures Transparent(s, EncodeChunk(c), c.data)
    ensures var t := Decode(s, EncodeChunk(c)).chat;
            t.Active() ==> AtSize(t) && t.headerBytes <= s.headerBytes + |c.extension|
  {
    hide Decode, ChunkOk;
    assert 0 < |c.data| by {
      DataNotEmpty(c);
    }
    var line := c.size + (c.extension + CRLF);
    var t := FeedSizeLine(s, c);
    DataIsPlain(t, c.data);
    DecodeAppend(s, line, c.data);
    var d := Decode(t, c.data);
    DecodeDrains(t, c.data);
    assert [] + d.emitted == d.emitted && d.emitted + [] == d.emitted;
    DecodeAppend(s, line + c.data, CRLF);
    if d.chat.Active() {
      FeedDelimiter(d.chat);
    } else {
      DecodeOver(d.chat, CRLF);
    }
  }

  lemma DataNotEmpty(c: Chunk)
    requires ChunkOk(c)
    ensures 0 < |c.data|
  {
  }

  /** A call that is never refused leaves nothing waiting. */
  lemma {:induction false} DecodeDrains(s: Chat, data: seq<byte>)
    ensures !Decode(s, data).chat.Waiting()
    decreases |data|
  {
    hide Step;
    if s.Shown().Active() && data != [] {
      DecodeDrains(Step(s.Shown(), data[0]), data[1..]);
    }
  }

  function EncodeChunks(cs: seq<Chunk>): seq<byte> {
    if cs == [] then [] else EncodeChunk(cs[0]) + EncodeChunks(cs[1..])
  }

  function BodyOf(cs: seq<Chunk>): seq<byte> {
    if cs == [] then [] else cs[0].data + BodyOf(cs[1..])
  }

  function Extensions(cs: seq<Chunk>): nat {
    if cs == [] then 0 else |cs[0].extension| + Extensions(cs[1..])
  }

  /** Chunking is transparent: chunks of any sizes, cut anywhere in the text, decode as
      the text itself. */
  lemma {:induction false} ChunksAreTransparent(s: Chat, cs: seq<Chunk>)
    requires AtSize(s) && s.headerBytes + Extensions(cs) <= HEADERS_MAX
    requires forall i :: 0 <= i < |cs| ==> ChunkOk(cs[i])
    ensures Transparent(s, EncodeChunks(cs), BodyOf(cs))
    decreases |cs|
  {
    hide Decode;
    if cs == [] {
      DecodeNothing(s);
      DecodeNothing(Plain(s));
      PlainKeeps(s);
    } else {
      OneChunk(s, cs[0]);
      var t := Decode(s, EncodeChunk(cs[0])).chat;
      if t.Active() {
        ChunksAreTransparent(t, cs[1..]);
      } else {
        DecodeDrains(s, EncodeChunk(cs[0]));
        PlainKeeps(t);
        DecodeOver(t, EncodeChunks(cs[1..]));
        DecodeOver(Plain(t), BodyOf(cs[1..]));
      }
      Compose(s, EncodeChunk(cs[0]), EncodeChunks(cs[1..]), cs[0].data, BodyOf(cs[1..]));
    }
  }

  // ---------------------------------------------------------------- event lines

  /** A line of the event stream: an event, or anything else that carries no data. */
  datatype Line =
    | Message(space: bool, before: seq<byte>, root: Tree, after: seq<byte>)
    | Other(text: seq<byte>)

  function LineText(l: Line): seq<byte> {
    if l.Other? then l.text else if TreeOk(l.root) then EventLine(l.space, l.before, l.root, l.after) else []
  }

  /** What a line may hold on the wire, ended by LF or CRLF. */
  predicate Sendable(text: seq<byte>) {
    |text| < LINE_SIZE - 1 && (forall i :: 0 <= i < |text| ==> text[i] != 0 && text[i] != LF)
    && (text != [] ==> text[|text| - 1] != CR)
  }

  /** The line shows something or nothing, but is not refused. */
  predicate LineOk(l: Line) {
    && (l.Message? ==>
          && TreeOk(l.root) && l.root.Object? && White(l.before) && White(l.after)
          && Lookup(l.root).Keeps? && !Lookup(l.root).found.providerError)
    && (l.Other? ==> !(Text("data:") <= l.text)) && Sendable(LineText(l))
  }

  function Content(l: Line): seq<byte>
    requires LineOk(l)
  {
    if l.Message? then Lookup(l.root).found.text else []
  }

  /** At the start of a line of an unframed body, nothing waiting. */
  predicate AtLine(s: Chat) {
    s.Active() && !s.Waiting() && s.phase == Body && !s.chunked && !s.haveLength && s.line == []
  }

  lemma {:induction false} FeedText(s: Chat, text: seq<byte>, rest: seq<byte>)
    requires s.Active() && !s.Waiting() && s.phase == Body && !s.chunked && !s.haveLength
    requires |s.line| + |text| < LINE_SIZE && forall i :: 0 <= i < |text| ==> text[i] != 0 && text[i] != LF
    ensures Decode(s, text + rest) == Decode(s.(line := s.line + text), rest)
    decreases |text|
  {
    hide Decode;
    if text == [] {
      assert text + rest == rest && s.line + text == s.line;
    } else {
      assert text + rest == [text[0]] + (text[1..] + rest);
      FrameByte(s, text[0], text[1..] + rest);
      var t := s.(line := s.line + [text[0]]);
      TextByte(s, text[0]);
      FeedText(t, text[1..], rest);
      assert s.line + [text[0]] + text[1..] == s.line + text;
    }
  }

  lemma TextByte(s: Chat, c: byte)
    requires s.phase == Body && !s.chunked && !s.haveLength && |s.line| + 1 < LINE_SIZE && c != 0 && c != LF
    ensures Step(s, c) == s.(line := s.line + [c])
  {
    hide WholeLine;
  }

  lemma EndByte(s: Chat)
    requires s.phase == Body && !s.chunked && !s.haveLength
    ensures Step(s, LF) == WholeLine(s.(line := Stripped(s.line))).(line := [])
  {
    hide WholeLine;
  }

  /** The line ending: LF, or CRLF. */
  function Ending(crlf: bool): seq<byte> { if crlf then CRLF else [LF] }

  /** The stream after a line that showed its content. */
  function AfterContent(s: Chat, l: Line): Chat
    requires LineOk(l)
  {
    if l.Message? then s.(text := Content(l), position := |Content(l)|) else s
  }

  lemma LineResult(s: Chat, l: Line)
    requires AtLine(s) && LineOk(l)
    ensures var t := WholeLine(s.(line := LineText(l))).(line := []);
            t == if l.Message? then s.(text := Content(l), position := 0) else s
  {
    var u := s.(line := LineText(l));
    if l.Message? {
      EventCapture(u, l.space, l.before, l.root, l.after);
      EventNotEmpty(l.space, l.before, l.root, l.after);
    }
    hide EventLine, Lookup, TreeOk, Status, Header;
  }

  lemma EventNotEmpty(space: bool, before: seq<byte>, root: Tree, after: seq<byte>)
    requires TreeOk(root)
    ensures EventLine(space, before, root, after) != []
  {
  }

  /** Any text up to its line ending, then the line as a whole. */
  lemma FeedWhole(s: Chat, text: seq<byte>, crlf: bool, rest: seq<byte>)
    requires AtLine(s) && Sendable(text)
    ensures Decode(s, text + (Ending(crlf) + rest)) == Decode(WholeLine(s.(line := text)).(line := []), rest)
  {
    hide Decode, WholeLine, Step;
    FeedText(s, text, Ending(crlf) + rest);
    assert s.line + text == text;
    var t := s.(line := text);
    if crlf {
      assert Ending(crlf) + rest == [CR] + ([LF] + rest);
      FeedText(t, [CR], [LF] + rest);
      assert (text + [CR])[..|text|] == text;
      t := s.(line := text + [CR]);
    }
    assert Stripped(t.line) == text;
    FrameByte(t, LF, rest);
    EndByte(t);
    assert t.(line := text) == s.(line := text);
  }

  lemma FeedLine(s: Chat, l: Line, crlf: bool, rest: seq<byte>)
    requires AtLine(s) && LineOk(l)
    ensures var d := Decode(AfterContent(s, l), rest);
            Decode(s, LineText(l) + (Ending(crlf) + rest)) == Decoded(d.chat, Content(l) + d.emitted)
  {
    hide Decode, LineOk, LineText, WholeLine, Content, AfterContent;
    IsSendable(l);
    FeedWhole(s, LineText(l), crlf, rest);
    LineResult(s, l);
    ShowContent(s, l, rest);
  }

  lemma IsSendable(l: Line)
    requires LineOk(l)
    ensures Sendable(LineText(l))
  {
  }

  lemma ShowContent(s: Chat, l: Line, rest: seq<byte>)
    requires AtLine(s) && LineOk(l)
    ensures var t := if l.Message? then s.(text := Content(l), position := 0) else s;
            var d := Decode(AfterContent(s, l), rest);
            Decode(t, rest) == Decoded(d.chat, Content(l) + d.emitted)
  {
    hide Decode, LineOk, Content;
    var t := if l.Message? then s.(text := Content(l), position := 0) else s;
    var d := Decode(AfterContent(s, l), rest);
    if l.Message? && Content(l) != [] {
      DecodeShown(t, rest);
      assert t.text[0..] == t.text;
    } else {
      NoContent(l);
      assert [] + d.emitted == d.emitted;
    }
  }

  lemma NoContent(l: Line)
    requires LineOk(l)
    ensures l.Other? ==> Content(l) == []
  {
  }

  /** The event stream: lines with their endings. */
  function Stream(lines: seq<Line>, crlf: bool, rest: seq<byte>): seq<byte>
    requires forall i :: 0 <= i < |lines| ==> LineOk(lines[i])
  {
    if lines == [] then rest else LineText(lines[0]) + (Ending(crlf) + Stream(lines[1..], crlf, rest))
  }

  function Contents(lines: seq<Line>): seq<byte>
    requires forall i :: 0 <= i < |lines| ==> LineOk(lines[i])
  {
    if lines == [] then [] else Content(lines[0]) + Contents(lines[1..])
  }

  /** The code points of every content, in order. */
  function Points(lines: seq<Line>): seq<nat>
    requires forall i :: 0 <= i < |lines| ==> LineOk(lines[i])
  {
    if lines == [] then [] else LinePoints(lines[0]) + Points(lines[1..])
  }

  function LinePoints(l: Line): seq<nat>
    requires LineOk(l)
  {
    if l.Message? && JsonLookup.Contents(l.root.members) != [] then JsonLookup.Contents(l.root.members)[0] else []
  }

  lemma LineShown(l: Line)
    requires LineOk(l)
    ensures ShownAs(LinePoints(l), Content(l))
  {
    hide Print, Height, HasKey, JsonLookup.Contents;
    MappedShows(LinePoints(l));
  }

  lemma {:induction false} ContentsShown(lines: seq<Line>)
    requires forall i :: 0 <= i < |lines| ==> LineOk(lines[i])
    ensures ShownAs(Points(lines), Contents(lines))
  {
    if lines != [] {
      hide LineOk, Content, LinePoints, ShownAs;
      LineShown(lines[0]);
      ContentsShown(lines[1..]);
      ShownAppend(LinePoints(lines[0]), Points(lines[1..]), Content(lines[0]), Contents(lines[1..]));
    }
  }

  lemma {:induction false} StreamShows(s: Chat, lines: seq<Line>, crlf: bool)
    requires AtLine(s) && forall i :: 0 <= i < |lines| ==> LineOk(lines[i])
    ensures var d := Decode(s, Stream(lines, crlf, Text("data: [DONE]") + Ending(crlf)));
            d.emitted == Contents(lines) && d.chat.done && d.chat.error == NoError
    decreases |lines|
  {
    hide Decode, LineOk, LineText, Content;
    var end := Text("data: [DONE]") + Ending(crlf);
    if lines == [] {
      DoneEnds(s, crlf);
    } else {
      var rest := Stream(lines[1..], crlf, end);
      FeedLine(s, lines[0], crlf, rest);
      StreamShows(AfterContent(s, lines[0]), lines[1..], crlf);
    }
  }

  lemma DoneEnds(s: Chat, crlf: bool)
    requires AtLine(s)
    ensures var d := Decode(s, Text("data: [DONE]") + Ending(crlf));
            d.emitted == [] && d.chat.done && d.chat.error == NoError
  {
    hide Decode, WholeLine, Text;
    var text := Text("data: [DONE]");
    DoneText();
    assert Ending(crlf) + [] == Ending(crlf);
    FeedWhole(s, text, crlf, []);
    DoneLine(s.(line := text));
    DecodeNothing(s.(done := true));
  }

  lemma DoneText()
    ensures var text := Text("data: [DONE]");
            && |text| == 12 && (forall i :: 0 <= i < |text| ==> text[i] != 0 && text[i] != LF) && text[11] != CR
            && Text("data:") <= text && Payload(text) == Text("[DONE]")
  {
    var text := Text("data: [DONE]");
    assert text[..5] == Text("data:") && text[6..] == Text("[DONE]");
  }

  lemma DoneLine(s: Chat)
    requires s.phase == Body && !s.chunked && s.line == Text("data: [DONE]")
    ensures WholeLine(s) == s.(done := true)
  {
    DoneText();
    hide Payload, Text;
  }

  /** From the end of the header section: any events with at most one content each, cut
      into chunks anywhere, show exactly the contents, in order. */
  lemma BodyShows(s: Chat, lines: seq<Line>, crlf: bool, cs: seq<Chunk>)
    requires AtSize(s) && s.line == [] && s.headerBytes + Extensions(cs) <= HEADERS_MAX
    requires (forall i :: 0 <= i < |lines| ==> LineOk(lines[i])) && forall i :: 0 <= i < |cs| ==> ChunkOk(cs[i])
    requires BodyOf(cs) == Stream(lines, crlf, Text("data: [DONE]") + Ending(crlf))
    ensures var d := Decode(s, EncodeChunks(cs));
            d.emitted == Contents(lines) && d.chat.done && d.chat.error == NoError
  {
    hide Decode, LineOk, ChunkOk, Stream, Contents, Text;
    ChunksAreTransparent(s, cs);
    PlainKeeps(s);
    StreamShows(Plain(s), lines, crlf);
  }

  // ---------------------------------------------------------------- the header section

  /** At the start of a line before the body, with this many more bytes allowed. */
  predicate AtHead(s: Chat, length: nat) {
    s.Active() && !s.Waiting() && s.phase != Body && s.line == [] && s.headerBytes + length <= HEADERS_MAX
  }

  lemma {:induction false} FeedHeadText(s: Chat, text: seq<byte>, rest: seq<byte>)
    requires s.Active() && !s.Waiting() && s.phase != Body && s.headerBytes + |text| <= HEADERS_MAX
    requires |s.line| + |text| < LINE_SIZE && forall i :: 0 <= i < |text| ==> text[i] != 0 && text[i] != LF
    ensures Decode(s, text + rest) == Decode(s.(line := s.line + text, headerBytes := s.headerBytes + |text|), rest)
    decreases |text|
  {
    hide Decode;
    if text == [] {
      assert text + rest == rest && s.line + text == s.line;
    } else {
      assert text + rest == [text[0]] + (text[1..] + rest);
      FrameByte(s, text[0], text[1..] + rest);
      HeadByte(s, text[0]);
      FeedHeadText(s.(line := s.line + [text[0]], headerBytes := s.headerBytes + 1), text[1..], rest);
      assert s.line + [text[0]] + text[1..] == s.line + text;
    }
  }

  lemma HeadByte(s: Chat, c: byte)
    requires s.phase != Body && s.headerBytes < HEADERS_MAX && (c == LF || (|s.line| + 1 < LINE_SIZE && c != 0))
    ensures Step(s, c) ==
            if c == LF then WholeLine(s.(line := Stripped(s.line), headerBytes := s.headerBytes + 1)).(line := [])
            else s.(line := s.line + [c], headerBytes := s.headerBytes + 1)
  {
    hide WholeLine;
  }

  lemma FeedHeadLine(s: Chat, text: seq<byte>, crlf: bool, rest: seq<byte>)
    requires AtHead(s, |text| + |Ending(crlf)|) && Sendable(text)
    ensures Decode(s, text + (Ending(crlf) + rest)) ==
            Decode(WholeLine(s.(line := text, headerBytes := s.headerBytes + |text| + |Ending(crlf)|)).(line := []), rest)
  {
    hide Decode, WholeLine, Step;
    FeedHeadText(s, text, Ending(crlf) + rest);
    assert s.line + text == text;
    var t := s.(line := text, headerBytes := s.headerBytes + |text|);
    if crlf {
      assert Ending(crlf) + rest == [CR] + ([LF] + rest);
      FeedHeadText(t, [CR], [LF] + rest);
      assert (text + [CR])[..|text|] == text;
      t := s.(line := text + [CR], headerBytes := s.headerBytes + |text| + 1);
    }
    assert Stripped(t.line) == text;
    FrameByte(t, LF, rest);
    HeadByte(t, LF);
  }

  function NameOf(l: seq<byte>): seq<byte> { l[..Http.Find(l, COLON)] }

  function ValueOf(l: seq<byte>): seq<byte>
    requires Http.Find(l, COLON) < |l|
  {
    Http.TrimBlanks(Http.SkipBlanks(l[Http.Find(l, COLON) + 1..]))
  }

  /** What a header field does to the response. */
  datatype Kind = Plainly | EventType | ChunkedCoding

  predicate FieldIs(l: seq<byte>, k: Kind) {
    && Sendable(l) && Http.Find(l, COLON) < |l|
    && match k
       case EventType =>
         Http.SameName(NameOf(l), Text("Content-Type")) && Http.SameName(MediaType(ValueOf(l)), Text("text/event-stream"))
       case ChunkedCoding =>
         Http.SameName(NameOf(l), Text("Transfer-Encoding")) && Http.SameName(ValueOf(l), Text("chunked"))
       case Plainly =>
         && !Http.SameName(NameOf(l), Text("Content-Type")) && !Http.SameName(NameOf(l), Text("Transfer-Encoding"))
         && !Http.SameName(NameOf(l), Text("Content-Length"))
         && (Http.SameName(NameOf(l), Text("Content-Encoding")) ==> Http.SameName(ValueOf(l), Text("identity")))
  }

  datatype Field = Field(text: seq<byte>, kind: Kind)

  /** Well-formed fields, with one transfer coding in all. */
  predicate FieldsOk(chunked: bool, fs: seq<Field>)
    decreases |fs|
  {
    fs != [] ==>
      && FieldIs(fs[0].text, fs[0].kind) && !(chunked && fs[0].kind.ChunkedCoding?)
      && FieldsOk(chunked || fs[0].kind.ChunkedCoding?, fs[1..])
  }

  predicate Has(fs: seq<Field>, k: Kind) { exists i :: 0 <= i < |fs| && fs[i].kind == k }

  function FieldBytes(fs: seq<Field>, crlf: bool, rest: seq<byte>): seq<byte> {
    if fs == [] then rest else fs[0].text + (Ending(crlf) + FieldBytes(fs[1..], crlf, rest))
  }

  lemma NamesDiffer(l: seq<byte>)
    ensures !(Http.SameName(NameOf(l), Text("Transfer-Encoding")) && Http.SameName(NameOf(l), Text("Content-Type")))
    ensures !(Http.SameName(NameOf(l), Text("Content-Length")) && Http.SameName(NameOf(l), Text("Content-Type")))
  {
  }

  lemma FieldLine(s: Chat, f: Field)
    requires s.phase == Headers && FieldIs(f.text, f.kind) && s.error == NoError && !s.haveLength
    requires f.kind.ChunkedCoding? ==> !s.chunked
    ensures WholeLine(s.(line := f.text)) == s.(line := f.text, chunked := s.chunked || f.kind.ChunkedCoding?,
                                                eventStream := s.eventStream || f.kind.EventType?)
  {
    NamesDiffer(f.text);
    hide Text, Http.SameName, Http.Find, ReadLength, Event, Status;
  }

  lemma {:induction false} FeedFields(s: Chat, fs: seq<Field>, crlf: bool, rest: seq<byte>)
    requires AtHead(s, |FieldBytes(fs, crlf, [])|) && s.phase == Headers && !s.haveLength && FieldsOk(s.chunked, fs)
    ensures Decode(s, FieldBytes(fs, crlf, rest)) ==
            Decode(s.(headerBytes := s.headerBytes + |FieldBytes(fs, crlf, [])|,
                      chunked := s.chunked || Has(fs, ChunkedCoding), eventStream := s.eventStream || Has(fs, EventType)), rest)
    decreases |fs|
  {
    hide Decode, WholeLine, FieldIs;
    if fs != [] {
      var f := fs[0];
      FieldIsSendable(f);
      FeedHeadLine(s, f.text, crlf, FieldBytes(fs[1..], crlf, rest));
      var n := |f.text| + |Ending(crlf)|;
      FieldLine(s.(headerBytes := s.headerBytes + n), f);
      var t := s.(headerBytes := s.headerBytes + n, chunked := s.chunked || f.kind.ChunkedCoding?,
                  eventStream := s.eventStream || f.kind.EventType?);
      FeedFields(t, fs[1..], crlf, rest);
      HasFirst(fs, ChunkedCoding);
      HasFirst(fs, EventType);
    }
  }

  lemma FieldIsSendable(f: Field)
    requires FieldIs(f.text, f.kind)
    ensures Sendable(f.text) && f.text != []
  {
  }

  lemma HasFirst(fs: seq<Field>, k: Kind)
    requires fs != []
    ensures Has(fs, k) <==> fs[0].kind == k || Has(fs[1..], k)
  {
    if Has(fs[1..], k) {
      var i :| 0 <= i < |fs[1..]| && fs[1..][i].kind == k;
      assert fs[i + 1].kind == k;
    }
    if Has(fs, k) && fs[0].kind != k {
      var i :| 0 <= i < |fs| && fs[i].kind == k;
      assert fs[1..][i - 1].kind == k;
    }
  }

  /** A 200 status line of HTTP/1.0 or 1.1. */
  predicate StatusOk(p: seq<byte>) {
    && Sendable(p) && |p| >= 12 && p[..7] == Text("HTTP/1.") && (p[7] == 48 || p[7] == 49) && p[8] == 32
    && p[9..12] == Text("200") && (|p| > 12 ==> p[12] == 32)
  }

  lemma ScanOk(p: seq<byte>)
    requires StatusOk(p)
    ensures ScanStatus(p) == Scanned(200, 12)
  {
    assert Text("200") == [50, 48, 48];
    var d := p[9..12];
    assert d == [50, 48, 48];
    assert p[8..][0] == 32 && p[8..][1..] == p[9..] && p[9..][0] == p[9] == d[0];
    assert Spaces(p[8..]) == 1;
    assert d[1..] == [48, 48] && d[1..][1..] == [48] && [48][1..] == [];
    assert DigitRun([48]) == 1 && DigitRun([48, 48]) == 2 && DigitRun(d) == 3;
    assert d[..3] == d && d[..2] == [50, 48] && [50, 48][..1] == [50] && [50][..0] == [];
    Http.EmptyValue(10);
    assert Http.Value([50], 10) == 2;
    assert Http.Value([50, 48], 10) == 20;
    assert Http.Value(d, 10) == 200;
    hide Http.Value, DigitRun, Spaces, Text;
  }

  lemma StatusLine200(p: seq<byte>, bytes: nat)
    requires StatusOk(p)
    ensures WholeLine(START.(line := p, headerBytes := bytes)) == START.(line := p, headerBytes := bytes, status := 200, phase := Headers)
  {
    ScanOk(p);
    hide ScanStatus;
  }

  function EncodeHead(p: seq<byte>, fs: seq<Field>, crlf: bool): seq<byte> {
    p + (Ending(crlf) + FieldBytes(fs, crlf, Ending(crlf)))
  }

  predicate HeadOk(p: seq<byte>, fs: seq<Field>, crlf: bool) {
    && StatusOk(p) && FieldsOk(false, fs) && Has(fs, EventType) && Has(fs, ChunkedCoding)
    && |EncodeHead(p, fs, crlf)| <= HEADERS_MAX
  }

  lemma {:induction false} FieldBytesAppend(fs: seq<Field>, crlf: bool, rest: seq<byte>)
    ensures FieldBytes(fs, crlf, rest) == FieldBytes(fs, crlf, []) + rest
    decreases |fs|
  {
    if fs != [] {
      FieldBytesAppend(fs[1..], crlf, rest);
    }
  }

  /** The decoder at the first chunk of an event-stream response. */
  function AtBody(bytes: nat): Chat {
    START.(status := 200, phase := Body, headerBytes := bytes, chunked := true, eventStream := true)
  }

  lemma FeedHead(p: seq<byte>, fs: seq<Field>, crlf: bool, rest: seq<byte>)
    requires HeadOk(p, fs, crlf)
    ensures Decode(START, EncodeHead(p, fs, crlf) + rest) == Decode(AtBody(|EncodeHead(p, fs, crlf)|), rest)
  {
    hide Decode, WholeLine, StatusOk, FieldsOk, Has, FieldBytes;
    var more := Ending(crlf) + rest;
    FieldBytesAppend(fs, crlf, Ending(crlf));
    FieldBytesAppend(fs, crlf, more);
    var fields := FieldBytes(fs, crlf, more);
    assert EncodeHead(p, fs, crlf) + rest == p + (Ending(crlf) + fields);
    StatusIsSendable(p);
    FeedHeadLine(START, p, crlf, fields);
    var n := |p| + |Ending(crlf)|;
    StatusLine200(p, n);
    var s := START.(status := 200, phase := Headers, headerBytes := n);
    FeedFields(s, fs, crlf, more);
    var m := n + |FieldBytes(fs, crlf, [])|;
    var t := s.(headerBytes := m, chunked := true, eventStream := true);
    assert [] + more == more;
    FeedHeadLine(t, [], crlf, rest);
    EmptyHead(t.(headerBytes := m + |Ending(crlf)|));
  }

  lemma StatusIsSendable(p: seq<byte>)
    requires StatusOk(p)
    ensures Sendable(p)
  {
  }

  lemma EmptyHead(s: Chat)
    requires s.phase == Headers && s.line == [] && s.eventStream
    ensures WholeLine(s) == s.(phase := Body)
  {
  }

  /** A chat response end to end, from the status line: any fields with an event-stream
      type and one chunked coding, any events with at most one content each, in any
      spelling, any lines without data between them, LF or CRLF endings, cut into chunks
      anywhere, sent through any calls to a consumer that refuses when it likes: exactly
      the contents are shown, in order, and the stream ends done. */
  lemma Transcript(p: seq<byte>, fs: seq<Field>, lines: seq<Line>, crlf: bool, cs: seq<Chunk>, calls: seq<Http.Call>)
    requires HeadOk(p, fs, crlf) && |EncodeHead(p, fs, crlf)| + Extensions(cs) <= HEADERS_MAX
    requires (forall i :: 0 <= i < |lines| ==> LineOk(lines[i])) && forall i :: 0 <= i < |cs| ==> ChunkOk(cs[i])
    requires BodyOf(cs) == Stream(lines, crlf, Text("data: [DONE]") + Ending(crlf))
    ensures var wire := EncodeHead(p, fs, crlf) + EncodeChunks(cs);
            var f := Calls(START, wire, calls);
            (f.used == |wire| || !f.chat.Active()) && !f.chat.Waiting() ==>
              ShownAs(Points(lines), f.emitted) && f.chat.done && f.chat.error == NoError
  {
    ContentsShown(lines);
    hide Decode, Calls, ShownAs, Points, LineOk, ChunkOk, Stream, Contents, Text, HeadOk, EncodeHead;
    FeedHead(p, fs, crlf, EncodeChunks(cs));
    BodyShows(AtBody(|EncodeHead(p, fs, crlf)|), lines, crlf, cs);
    var wire := EncodeHead(p, fs, crlf) + EncodeChunks(cs);
    var f := Calls(START, wire, calls);
    if (f.used == |wire| || !f.chat.Active()) && !f.chat.Waiting() {
      SplitIndependence(START, wire, calls);
    }
  }
}
