/** The chat client's response decoder, chat_stream.c: HTTP framing, server-sent events
    and the JSON they carry, one wire byte at a time. Text waiting to be shown is shown
    before the next byte is taken. */
module ChatStream {
  import opened Bytes
  import opened Json
  import opened JsonText
  import opened JsonLookup
  import opened JsonSound
  import opened JsonReader
  import Http = HttpStream

  const CR: byte := 13
  const LF: byte := 10

  const LINE_SIZE := 4096        // char line[4096]
  const HEADERS_MAX := 4096
  const TRAILERS_MAX := 8192
  const UINT32_MAX := 0xFFFF_FFFF

  datatype Phase = StatusLine | Headers | Body

  datatype ChunkPhase = Size | SizeLf | Data | Cr | Lf | Trailers

  datatype Error =
    | NoError
    | NulByte
    | LineTooLong
    | InvalidStatus
    | Unauthorized
    | RateLimited
    | StatusNot200
    | MalformedHeader
    | UnsupportedEncoding
    | InvalidLength
    | Compressed
    | NotEventStream
    | EndedWithoutDone
    | MalformedJson
    | TrailingData
    | ProviderError
    | HeadersTooLong
    | ExtensionsTooLong
    | InvalidChunkSize
    | InvalidDelimiter
    | TrailersTooLong

  datatype Chat = Chat(line: seq<byte>, text: seq<byte>, position: nat, headerBytes: nat, remaining: nat,
                       chunkSize: nat, phase: Phase, chunkPhase: ChunkPhase, status: nat, chunked: bool,
                       haveLength: bool, eventStream: bool, done: bool, extension: bool, digits: nat, error: Error)
  {
    predicate Active() { error == NoError && !done }

    predicate Waiting() { error == NoError && position < |text| }

    /** The text still to be shown: none once an error is set. */
    function Pending(): seq<byte> { if Waiting() then text[position..] else [] }

    function Shown(): Chat { if Waiting() then this.(position := |text|) else this }
  }

  const START := Chat([], [], 0, 0, 0, 0, StatusLine, Size, 0, false, false, false, false, false, 0, NoError)

  // ---------------------------------------------------------------- events

  function Payload(line: seq<byte>): seq<byte>
    requires Text("data:") <= line
  {
    if |line| > 5 && line[5] == 32 then line[6..] else line[5..]
  }

  datatype Doc = Doc(error: Error, text: seq<byte>)

  /** The JSON of one event: the text it shows, or why it is refused. */
  function ReadDocument(data: seq<byte>): Doc {
    var d := Skip(data);
    if d == [] || d[0] != LBRACE then Doc(MalformedJson, [])
    else
      var r := ReadValue(d, 0, Root, NOTHING);
      if r.BadValue? then Doc(MalformedJson, [])
      else if Skip(r.rest) != [] then Doc(TrailingData, [])
      else if r.found.providerError then Doc(ProviderError, [])
      else Doc(NoError, r.found.text)
  }

  /** After an error the text buffer is of no consequence. */
  function Document(s: Chat, data: seq<byte>): Chat {
    var d := ReadDocument(data);
    s.(text := d.text, position := 0, error := if d.error == NoError then s.error else d.error)
  }

  function Event(s: Chat): Chat {
    if !(Text("data:") <= s.line) then s
    else if Payload(s.line) == Text("[DONE]") then s.(done := true)
    else Document(s, Payload(s.line))
  }

  // ---------------------------------------------------------------- HTTP lines

  predicate IsSpace(c: byte) { c == 32 || 9 <= c <= 13 }

  function Spaces(s: seq<byte>): (n: nat)
    ensures n <= |s|
  {
    if s != [] && IsSpace(s[0]) then 1 + Spaces(s[1..]) else 0
  }

  function DigitRun(s: seq<byte>): (n: nat)
    ensures n <= |s|
  {
    if s != [] && Digit(s[0]) then 1 + DigitRun(s[1..]) else 0
  }

  datatype Scanned = NoMatch | Scanned(status: nat, used: nat)

  /** sscanf(line, "HTTP/1.%*1[01] %3u%n"): any white space, then up to three characters
      of an unsigned number that may carry a sign. */
  function ScanStatus(line: seq<byte>): Scanned {
    if |line| < 8 || line[..7] != Text("HTTP/1.") || (line[7] != 48 && line[7] != 49) then NoMatch
    else
      var at := 8 + Spaces(line[8..]);
      var field := line[at..if at + 3 <= |line| then at + 3 else |line|];
      var signed := field != [] && IsSign(field[0]);
      var tail := if signed then field[1..] else field;
      var n := DigitRun(tail);
      if n == 0 then NoMatch
      else
        var v := Http.Value(tail[..n], 10);
        Scanned(if signed && field[0] == MINUS then (0x1_0000_0000 - v) % 0x1_0000_0000 else v,
                at + n + (if signed then 1 else 0))
  }

  function Status(s: Chat): Chat {
    var m := ScanStatus(s.line);
    var status := if m.Scanned? then m.status else s.status;
    var bad := m.NoMatch? || m.used != 12 || (|s.line| > 12 && s.line[12] != 32);
    s.(status := status, phase := Headers,
       error := if bad then InvalidStatus
                else if status == 200 then s.error
                else if status == 401 || status == 403 then Unauthorized
                else if status == 429 then RateLimited
                else StatusNot200)
  }

  datatype Length = BadLength | Length(n: nat)

  function ReadLength(v: seq<byte>, n: nat): Length
    decreases |v|
  {
    if v == [] then Length(n)
    else if !Digit(v[0]) || n > (UINT32_MAX - 9) / 10 then BadLength
    else ReadLength(v[1..], n * 10 + (v[0] - 48))
  }

  function MediaType(v: seq<byte>): seq<byte> { v[..Http.Find(v, 59)] }

  function Header(s: Chat): Chat {
    var colon := Http.Find(s.line, COLON);
    if colon == |s.line| then s.(error := MalformedHeader)
    else
      var name := s.line[..colon];
      var value := Http.TrimBlanks(Http.SkipBlanks(s.line[colon + 1..]));
      if Http.SameName(name, Text("Transfer-Encoding")) then
        s.(chunked := true,
           error := if s.chunked || s.haveLength || !Http.SameName(value, Text("chunked")) then UnsupportedEncoding else s.error)
      else if Http.SameName(name, Text("Content-Length")) then
        if s.haveLength || s.chunked || value == [] || ReadLength(value, 0).BadLength? then s.(error := InvalidLength)
        else s.(remaining := ReadLength(value, 0).n, haveLength := true)
      else if Http.SameName(name, Text("Content-Type")) then
        s.(eventStream := Http.SameName(MediaType(value), Text("text/event-stream")))
      else if Http.SameName(name, Text("Content-Encoding")) && !Http.SameName(value, Text("identity")) then
        s.(error := Compressed)
      else s
  }

  /** A complete line, its line ending removed. */
  function WholeLine(s: Chat): Chat {
    match s.phase
    case StatusLine => Status(s)
    case Headers =>
      if s.line != [] then Header(s)
      else if !s.eventStream then s.(error := NotEventStream)
      else s.(phase := Body)
    case Body =>
      if s.chunkPhase == Trailers && s.chunked then
        if s.line == [] then s.(error := EndedWithoutDone) else s
      else if s.line != [] then Event(s)
      else s
  }

  function Stripped(line: seq<byte>): seq<byte> {
    if line != [] && line[|line| - 1] == CR then line[..|line| - 1] else line
  }

  function LineByte(s: Chat, c: byte): Chat {
    if c == 0 then s.(error := NulByte)
    else if c != LF then
      if |s.line| + 1 == LINE_SIZE then s.(error := LineTooLong) else s.(line := s.line + [c])
    else WholeLine(s.(line := Stripped(s.line))).(line := [])
  }

  // ---------------------------------------------------------------- bytes

  function PlainByte(s: Chat, c: byte): Chat {
    if s.haveLength && s.remaining == 0 then s.(error := EndedWithoutDone)
    else
      var t := LineByte(s, c);
      if !s.haveLength then t
      else
        t.(remaining := s.remaining - 1,
           error := if s.remaining == 1 && !t.done then EndedWithoutDone else t.error)
  }

  function SizeByte(s: Chat, c: byte): Chat {
    if c == CR && s.digits > 0 then s.(chunkPhase := SizeLf)
    else if c == 59 && s.digits > 0 then s.(extension := true)
    else if s.extension && 32 <= c < 127 then
      s.(headerBytes := s.headerBytes + 1, error := if s.headerBytes + 1 > HEADERS_MAX then ExtensionsTooLong else s.error)
    else if !s.extension && IsHex(c) && s.digits < 8 then
      s.(chunkSize := s.chunkSize * 16 % 0x1_0000_0000 + Hex(c), digits := s.digits + 1)
    else s.(error := InvalidChunkSize)
  }

  function ChunkByte(s: Chat, c: byte): Chat {
    match s.chunkPhase
    case Size => SizeByte(s, c)
    case SizeLf =>
      if c != LF then s.(error := InvalidDelimiter)
      else s.(chunkPhase := if s.chunkSize != 0 then Data else Trailers)
    case Data =>
      var t := LineByte(s, c);
      var left := if s.chunkSize == 0 then UINT32_MAX else s.chunkSize - 1;
      t.(chunkSize := left, chunkPhase := if left == 0 then Cr else t.chunkPhase)
    case Cr => if c != CR then s.(error := InvalidDelimiter) else s.(chunkPhase := Lf)
    case Lf =>
      if c != LF then s.(error := InvalidDelimiter)
      else s.(chunkPhase := Size, digits := 0, extension := false)
    case Trailers =>
      var t := s.(headerBytes := s.headerBytes + 1);
      if t.headerBytes > TRAILERS_MAX then t.(error := TrailersTooLong) else LineByte(t, c)
  }

  /** One wire byte, once nothing is waiting to be shown. */
  function Step(s: Chat, c: byte): Chat {
    if s.phase != Body then
      var t := s.(headerBytes := s.headerBytes + 1);
      if t.headerBytes > HEADERS_MAX then t.(error := HeadersTooLong) else LineByte(t, c)
    else if !s.chunked then PlainByte(s, c)
    else ChunkByte(s, c)
  }

  datatype Fed = Fed(chat: Chat, used: nat, emitted: seq<byte>)

  /** z80_chat_stream_feed to a consumer that takes room bytes and then refuses. */
  function Feed(s: Chat, data: seq<byte>, room: nat): (f: Fed)
    ensures f.used <= |data| && |f.emitted| <= room
    decreases |data|
  {
    var p := s.Pending();
    if |p| > room then Fed(s.(position := s.position + room), 0, p[..room])
    else
      var t := s.Shown();
      if !t.Active() || data == [] then Fed(t, 0, p)
      else
        var f := Feed(Step(t, data[0]), data[1..], room - |p|);
        Fed(f.chat, f.used + 1, p + f.emitted)
  }

  datatype Decoded = Decoded(chat: Chat, emitted: seq<byte>)

  /** The whole wire in one call, to a consumer that never refuses. */
  function Decode(s: Chat, data: seq<byte>): Decoded
    decreases |data|
  {
    var t := s.Shown();
    if !t.Active() || data == [] then Decoded(t, s.Pending())
    else
      var d := Decode(Step(t, data[0]), data[1..]);
      Decoded(d.chat, s.Pending() + d.emitted)
  }

  // ---------------------------------------------------------------- splitting and back-pressure

  /** Showing the waiting text first changes nothing but when it is shown. */
  lemma DecodeShown(s: Chat, data: seq<byte>)
    ensures Decode(s, data) == Decoded(Decode(s.Shown(), data).chat, s.Pending() + Decode(s.Shown(), data).emitted)
  {
    hide Step;
    assert s.Shown().Shown() == s.Shown() && s.Shown().Pending() == [];
  }

  lemma DecodeOver(s: Chat, data: seq<byte>)
    requires !s.Active() && !s.Waiting()
    ensures Decode(s, data) == Decoded(s, [])
  {
  }

  lemma DecodeNothing(s: Chat)
    ensures Decode(s, []) == Decoded(s.Shown(), s.Pending())
  {
  }

  lemma DecodeByte(s: Chat, data: seq<byte>)
    requires s.Shown().Active() && data != []
    ensures Decode(s, data) ==
            Decoded(Decode(Step(s.Shown(), data[0]), data[1..]).chat,
                    s.Pending() + Decode(Step(s.Shown(), data[0]), data[1..]).emitted)
  {
    hide Step;
  }

  lemma {:induction false} DecodeAppend(s: Chat, a: seq<byte>, b: seq<byte>)
    ensures var d := Decode(s, a); var e := Decode(d.chat, b);
            Decode(s, a + b) == Decoded(e.chat, d.emitted + e.emitted)
    decreases |a|
  {
    hide Step;
    var t := s.Shown();
    if a == [] {
      assert a + b == b;
      DecodeShown(s, b);
    } else if t.Active() {
      hide Decode;
      assert (a + b)[0] == a[0] && (a + b)[1..] == a[1..] + b;
      DecodeByte(s, a);
      DecodeByte(s, a + b);
      var u := Step(t, a[0]);
      DecodeAppend(u, a[1..], b);
      var d := Decode(u, a[1..]);
      assert s.Pending() + (d.emitted + Decode(d.chat, b).emitted) == s.Pending() + d.emitted + Decode(d.chat, b).emitted;
    } else {
      assert !t.Waiting();
      DecodeOver(t, b);
      assert Decode(s, a) == Decoded(t, s.Pending()) == Decode(s, a + b);
      assert s.Pending() + [] == s.Pending();
    }
  }

  /** Showing part of the waiting text leaves the rest of it waiting. */
  lemma PartlyShown(s: Chat, room: nat)
    requires |s.Pending()| > room
    ensures var t := s.(position := s.position + room);
            t.Waiting() && t.Shown() == s.Shown() && s.Pending()[..room] + t.Pending() == s.Pending()
  {
    var t := s.(position := s.position + room);
    assert t.Pending() == s.Pending()[room..];
  }

  lemma FeedRefused(s: Chat, data: seq<byte>, room: nat)
    requires |s.Pending()| > room
    ensures var f := Feed(s, data, room);
            f.used == 0 && f.chat.Waiting() && |f.emitted| == room
            && Decode(s, data[..0]) == Decoded(f.chat.Shown(), f.emitted + f.chat.Pending())
  {
    hide Step, Decode, Chat.Pending, Chat.Shown, Chat.Waiting;
    PartlyShown(s, room);
    assert data[..0] == [];
    DecodeNothing(s);
  }

  lemma FeedStep(s: Chat, data: seq<byte>, room: nat)
    requires |s.Pending()| <= room && s.Shown().Active() && data != []
    ensures var f := Feed(Step(s.Shown(), data[0]), data[1..], room - |s.Pending()|);
            Feed(s, data, room) == Fed(f.chat, f.used + 1, s.Pending() + f.emitted)
  {
    hide Step;
  }

  lemma FeedOver(s: Chat, data: seq<byte>, room: nat)
    requires |s.Pending()| <= room && (!s.Shown().Active() || data == [])
    ensures Feed(s, data, room) == Fed(s.Shown(), 0, s.Pending())
    ensures s.Shown().Shown() == s.Shown() && s.Shown().Pending() == []
  {
  }

  /** A call decodes the bytes it consumed; what its consumer refused is still pending. */
  lemma {:induction false} FeedDecodes(s: Chat, data: seq<byte>, room: nat)
    ensures var f := Feed(s, data, room);
            && Decode(s, data[..f.used]) == Decoded(f.chat.Shown(), f.emitted + f.chat.Pending())
            && (f.used < |data| ==> !f.chat.Active() || (f.chat.Waiting() && |f.emitted| == room))
    decreases |data|
  {
    hide Step, Feed, Decode, Chat.Pending, Chat.Shown;
    var p := s.Pending();
    if |p| > room {
      FeedRefused(s, data, room);
    } else if s.Shown().Active() && data != [] {
      var u := Step(s.Shown(), data[0]);
      FeedStep(s, data, room);
      FeedDecodes(u, data[1..], room - |p|);
      var f := Feed(u, data[1..], room - |p|);
      assert data[..f.used + 1][1..] == data[1..][..f.used];
      DecodeByte(s, data[..f.used + 1]);
      assert p + (f.emitted + f.chat.Pending()) == p + f.emitted + f.chat.Pending();
    } else {
      FeedOver(s, data, room);
      assert data[..0] == [] && p + [] == p;
      DecodeNothing(s);
    }
  }

  /** A sequence of calls, each resubmitting what the last one left. */
  function Calls(s: Chat, wire: seq<byte>, calls: seq<Http.Call>): (f: Fed)
    ensures f.used <= |wire|
    decreases |calls|
  {
    if calls == [] then Fed(s, 0, [])
    else
      var n := if calls[0].available < |wire| then calls[0].available else |wire|;
      var f := Feed(s, wire[..n], calls[0].room);
      var g := Calls(f.chat, wire[f.used..], calls[1..]);
      Fed(g.chat, f.used + g.used, f.emitted + g.emitted)
  }

  lemma {:induction false} CallsDecode(s: Chat, wire: seq<byte>, calls: seq<Http.Call>)
    ensures var f := Calls(s, wire, calls);
            Decode(s, wire[..f.used]) == Decoded(f.chat.Shown(), f.emitted + f.chat.Pending())
    decreases |calls|
  {
    hide Step, Feed, Decode, Chat.Pending, Chat.Shown;
    if calls == [] {
      assert wire[..0] == [] && [] + s.Pending() == s.Pending();
      DecodeNothing(s);
    } else {
      var n := if calls[0].available < |wire| then calls[0].available else |wire|;
      var f := Feed(s, wire[..n], calls[0].room);
      var rest := wire[f.used..];
      FeedDecodes(s, wire[..n], calls[0].room);
      assert wire[..n][..f.used] == wire[..f.used];
      CallsDecode(f.chat, rest, calls[1..]);
      var g := Calls(f.chat, rest, calls[1..]);
      var d := Decode(f.chat.Shown(), rest[..g.used]);
      DecodeShown(f.chat, rest[..g.used]);
      DecodeAppend(s, wire[..f.used], rest[..g.used]);
      assert wire[..f.used] + rest[..g.used] == wire[..f.used + g.used];
      assert f.emitted + f.chat.Pending() + d.emitted == f.emitted + (f.chat.Pending() + d.emitted);
      assert f.emitted + (g.emitted + g.chat.Pending()) == f.emitted + g.emitted + g.chat.Pending();
    }
  }

  /** Splitting and back-pressure do not matter: calls that take the whole wire, or go on
      until the response is over, and whose consumer has taken all text, emit what one
      call would and leave the same state. */
  lemma SplitIndependence(s: Chat, wire: seq<byte>, calls: seq<Http.Call>)
    requires var f := Calls(s, wire, calls); (f.used == |wire| || !f.chat.Active()) && !f.chat.Waiting()
    ensures var f := Calls(s, wire, calls); Decode(s, wire) == Decoded(f.chat, f.emitted)
  {
    hide Step, Feed, Calls;
    var f := Calls(s, wire, calls);
    CallsDecode(s, wire, calls);
    DecodeAppend(s, wire[..f.used], wire[f.used..]);
    assert wire[..f.used] + wire[f.used..] == wire;
  }

  // ---------------------------------------------------------------- what an event shows

  /** What a lookup in the event's tree makes of the stream. */
  function Looked(s: Chat, o: Outcome): Chat {
    var t := s.(text := [], position := 0);
    if o.Fails? then t.(error := MalformedJson)
    else if o.found.providerError then t.(error := ProviderError)
    else t.(text := o.found.text)
  }

  function EventLine(space: bool, before: seq<byte>, root: Tree, after: seq<byte>): seq<byte>
    requires TreeOk(root)
  {
    Text("data:") + ((if space then [32] else []) + (before + Print(root, after)))
  }

  /** The payload of a line is its white space, less one optional space, and the rest. */
  lemma PayloadOf(space: bool, before: seq<byte>, p: seq<byte>) returns (w: seq<byte>)
    requires White(before) && p != [] && p[0] == LBRACE
    ensures var line := Text("data:") + ((if space then [32] else []) + (before + p));
            Text("data:") <= line && White(w) && Payload(line) == w + p
  {
    var tail := (if space then [32] else []) + (before + p);
    var line := Text("data:") + tail;
    assert line[..5] == Text("data:") && line[5..] == tail;
    hide Text;
    if space {
      w := before;
      assert line[5] == tail[0] == 32 && line[6..] == tail[1..] == before + p;
    } else {
      w := if before != [] && before[0] == 32 then before[1..] else before;
      assert tail == before + p && line[5] == tail[0] && line[6..] == tail[1..];
      assert tail[0] == if before == [] then LBRACE else before[0];
      assert before != [] ==> tail[1..] == before[1..] + p;
    }
  }

  lemma NotDone(w: seq<byte>, p: seq<byte>)
    requires White(w) && p != [] && p[0] == LBRACE
    ensures w + p != Text("[DONE]")
  {
    assert (w + p)[0] == if w == [] then LBRACE else w[0];
    assert Text("[DONE]")[0] == 91;
  }

  lemma EventPayload(space: bool, before: seq<byte>, root: Tree, after: seq<byte>) returns (w: seq<byte>)
    requires TreeOk(root) && root.Object? && White(before)
    ensures var line := EventLine(space, before, root, after);
            && Text("data:") <= line && White(w) && Payload(line) == w + Print(root, after)
            && Payload(line) != Text("[DONE]")
  {
    PrintOpens(root, after);
    hide Print, TreeOk, Payload, Text;
    w := PayloadOf(space, before, Print(root, after));
    NotDone(w, Print(root, after));
  }

  lemma WhiteEnds(w: seq<byte>)
    requires White(w)
    ensures Ends(w) && Skip(w) == []
  {
    SkipWhite(w, []);
    assert w + [] == w;
  }

  /** JSON capture: an event whose data is any spelling of an object shows exactly the
      string at choices[0].delta.content, or fails exactly when the lookup says so. */
  lemma EventCapture(s: Chat, space: bool, before: seq<byte>, root: Tree, after: seq<byte>)
    requires TreeOk(root) && root.Object? && White(before) && White(after)
    requires s.line == EventLine(space, before, root, after)
    ensures Event(s) == Looked(s, Lookup(root))
    ensures var c := Contents(root.members);
            Event(s).error == s.error == NoError && c != [] ==>
              && |c| == 1 && ShownAs(c[0], Event(s).text) && (forall i :: 0 <= i < |Event(s).text| ==> Plain(Event(s).text[i]))
              && ((forall i :: 0 <= i < |c[0]| ==> Plain(c[0][i])) ==> Event(s).text == c[0])
  {
    var c := Contents(root.members);
    hide Print, TreeOk, Payload, EventLine, ReadDocument, Height, HasKey, Contents;
    var w := EventPayload(space, before, root, after);
    DocumentOf(w, root, after);
    if |c| == 1 {
      MappedShows(c[0]);
      ShownIsPlain(c[0], Mapped(c[0]));
    }
    hide ShownAs, Mapped;
  }

  lemma DocumentOf(w: seq<byte>, root: Tree, after: seq<byte>)
    requires TreeOk(root) && root.Object? && White(w) && White(after)
    ensures var d, o := ReadDocument(w + Print(root, after)), Lookup(root);
            d == if o.Fails? then Doc(MalformedJson, [])
                 else if o.found.providerError then Doc(ProviderError, []) else Doc(NoError, o.found.text)
  {
    hide TreeOk, ReadValue, Lookup, Eval;
    var p := Print(root, after);
    PrintOpens(root, after);
    hide Print, Skip;
    SkipWhite(w, p);
    WhiteEnds(after);
    ReadPrinted(root, [], after, 0, Root, NOTHING);
    assert [] + p == p;
    EvalIsLookup(root);
  }

  /** The converse: an event accepted without error is such a spelling. */
  lemma EventAccepted(s: Chat) returns (before: seq<byte>, root: Tree, after: seq<byte>)
    requires Text("data:") <= s.line && Payload(s.line) != Text("[DONE]")
    requires s.error == NoError && Event(s).error == NoError
    ensures TreeOk(root) && root.Object? && White(before) && White(after)
    ensures Payload(s.line) == before + Print(root, after)
    ensures Event(s) == Looked(s, Lookup(root))
  {
    var data := Payload(s.line);
    hide Payload;
    before := SkipSplits(data);
    var d := Skip(data);
    var r := ReadValue(d, 0, Root, NOTHING);
    var w;
    w, root := ValueWitness(d, 0, Root, NOTHING);
    FirstIsOpening(w, root, r.rest);
    after := r.rest;
    var a := SkipSplits(after);
    assert a + [] == a;
    EvalIsLookup(root);
    hide ReadValue, Lookup, Skip, Eval, Print, TreeOk;
  }

  lemma FirstIsOpening(w: seq<byte>, t: Tree, rest: seq<byte>)
    requires TreeOk(t) && White(w) && (w + Print(t, rest))[0] == LBRACE
    ensures w == [] && w + Print(t, rest) == Print(t, rest) && t.Object?
  {
    PrintOpens(t, rest);
    hide Print;
    if w == [] {
      assert w + Print(t, rest) == Print(t, rest);
    }
  }

  // ---------------------------------------------------------------- the decoder object

  /** The whole call, once its first used bytes have been taken. */
  function Resumed(s: Chat, data: seq<byte>, used: nat, emitted: seq<byte>, room: nat): Fed
    requires used <= |data| && |emitted| <= room
  {
    var f := Feed(s, data[used..], room - |emitted|);
    Fed(f.chat, used + f.used, emitted + f.emitted)
  }

  lemma ShownOnce(s: Chat)
    ensures s.Shown().Shown() == s.Shown() && s.Shown().Pending() == [] && !s.Shown().Waiting()
  {
  }

  lemma FeedCut(s: Chat, data: seq<byte>, room: nat)
    requires |s.Pending()| > room
    ensures Feed(s, data, room) == Fed(s.(position := s.position + room), 0, s.Pending()[..room])
  {
    hide Step;
  }

  lemma FeedShows(s: Chat, data: seq<byte>, room: nat)
    ensures var p := s.Pending();
            if |p| > room then Feed(s, data, room) == Fed(s.(position := s.position + room), 0, p[..room])
            else !s.Shown().Waiting() && Feed(s, data, room) == Resumed(s.Shown(), data, 0, p, room)
  {
    hide Feed, Step, Chat.Pending, Chat.Shown;
    var p, t := s.Pending(), s.Shown();
    ShownOnce(s);
    assert data[0..] == data && p + [] == p;
    if |p| > room {
      FeedCut(s, data, room);
    } else if t.Active() && data != [] {
      FeedStep(s, data, room);
      FeedStep(t, data, room - |p|);
      var f := Feed(Step(t, data[0]), data[1..], room - |p|);
      assert [] + f.emitted == f.emitted;
    } else {
      FeedOver(s, data, room);
      FeedOver(t, data, room - |p|);
    }
  }

  lemma ResumeStep(s: Chat, data: seq<byte>, used: nat, emitted: seq<byte>, room: nat)
    requires used < |data| && |emitted| <= room && s.Active() && !s.Waiting()
    ensures Resumed(s, data, used, emitted, room) == Resumed(Step(s, data[used]), data, used + 1, emitted, room)
  {
    hide Step;
    assert data[used..][0] == data[used] && data[used..][1..] == data[used + 1..];
  }

  lemma ResumeShows(s: Chat, data: seq<byte>, used: nat, emitted: seq<byte>, room: nat)
    requires used <= |data| && |emitted| <= room
    ensures var p := s.Pending();
            if |p| > room - |emitted| then
              Resumed(s, data, used, emitted, room) ==
              Fed(s.(position := s.position + (room - |emitted|)), used, emitted + p[..room - |emitted|])
            else
              !s.Shown().Waiting() &&
              Resumed(s, data, used, emitted, room) == Resumed(s.Shown(), data, used, emitted + p, room)
  {
    hide Feed, Chat.Pending, Chat.Shown;
    var left := room - |emitted|;
    FeedShows(s, data[used..], left);
    var p := s.Pending();
    if |p| <= left {
      var rest := data[used..];
      assert rest[0..] == rest;
      var f := Feed(s.Shown(), rest, left - |p|);
      assert Feed(s, rest, left) == Fed(f.chat, f.used, p + f.emitted);
      assert emitted + (p + f.emitted) == emitted + p + f.emitted;
      assert |emitted + p| == |emitted| + |p|;
    }
  }

  lemma FeedEnds(s: Chat, data: seq<byte>, used: nat, emitted: seq<byte>, room: nat)
    requires used <= |data| && |emitted| <= room && !s.Waiting() && (!s.Active() || used == |data|)
    ensures Resumed(s, data, used, emitted, room) == Fed(s, used, emitted)
  {
  }

  class Decoder {
    var s: Chat

    constructor ()
      ensures s == START
    {
      s := START;
    }

    /** The JSON of one event, read by a cursor over the line. */
    method TakeDocument(data: seq<byte>)
      modifies this
      ensures s == Document(old(s), data)
    {
      hide ReadValue, Skip;
      s := s.(text := [], position := 0);
      var r := new Reader(data);
      r.Whitespace();
      var ok := r.unread != [] && r.unread[0] == LBRACE;
      if ok {
        ok := r.Value(0, Root);
      }
      if !ok {
        s := s.(error := MalformedJson);
      } else {
        r.Whitespace();
        if r.unread != [] {
          s := s.(error := TrailingData);
        } else if r.providerError {
          s := s.(error := ProviderError);
        } else {
          s := s.(text := r.text);
        }
      }
    }

    method TakeEvent()
      modifies this
      ensures s == Event(old(s))
    {
      hide Document;
      if Text("data:") <= s.line {
        if Payload(s.line) == Text("[DONE]") {
          s := s.(done := true);
        } else {
          TakeDocument(Payload(s.line));
        }
      }
    }

    method TakeLineByte(c: byte)
      modifies this
      ensures s == LineByte(old(s), c)
    {
      hide Event, Status, Header;
      if c == 0 {
        s := s.(error := NulByte);
      } else if c != LF {
        if |s.line| + 1 == LINE_SIZE {
          s := s.(error := LineTooLong);
        } else {
          s := s.(line := s.line + [c]);
        }
      } else {
        s := s.(line := Stripped(s.line));
        if s.phase == StatusLine {
          s := Status(s);
        } else if s.phase == Headers {
          if s.line != [] {
            s := Header(s);
          } else if !s.eventStream {
            s := s.(error := NotEventStream);
          } else {
            s := s.(phase := Body);
          }
        } else if s.chunkPhase == Trailers && s.chunked {
          if s.line == [] {
            s := s.(error := EndedWithoutDone);
          }
        } else if s.line != [] {
          TakeEvent();
        }
        s := s.(line := []);
      }
    }

    method TakeChunkByte(c: byte)
      modifies this
      ensures s == ChunkByte(old(s), c)
    {
      hide LineByte, SizeByte;
      if s.chunkPhase == Size {
        s := SizeByte(s, c);
      } else if s.chunkPhase == SizeLf {
        s := if c != LF then s.(error := InvalidDelimiter)
             else s.(chunkPhase := if s.chunkSize != 0 then Data else Trailers);
      } else if s.chunkPhase == Data {
        var left := if s.chunkSize == 0 then UINT32_MAX else s.chunkSize - 1;
        TakeLineByte(c);
        s := s.(chunkSize := left, chunkPhase := if left == 0 then Cr else s.chunkPhase);
      } else if s.chunkPhase == Cr {
        s := if c != CR then s.(error := InvalidDelimiter) else s.(chunkPhase := Lf);
      } else if s.chunkPhase == Lf {
        s := if c != LF then s.(error := InvalidDelimiter) else s.(chunkPhase := Size, digits := 0, extension := false);
      } else {
        s := s.(headerBytes := s.headerBytes + 1);
        if s.headerBytes > TRAILERS_MAX {
          s := s.(error := TrailersTooLong);
        } else {
          TakeLineByte(c);
        }
      }
    }

    method TakeByte(c: byte)
      modifies this
      ensures s == Step(old(s), c)
    {
      hide LineByte, ChunkByte;
      if s.phase != Body {
        s := s.(headerBytes := s.headerBytes + 1);
        if s.headerBytes > HEADERS_MAX {
          s := s.(error := HeadersTooLong);
        } else {
          TakeLineByte(c);
        }
      } else if s.chunked {
        TakeChunkByte(c);
      } else if s.haveLength && s.remaining == 0 {
        s := s.(error := EndedWithoutDone);
      } else {
        var left, counted := s.remaining, s.haveLength;
        TakeLineByte(c);
        if counted {
          s := s.(remaining := left - 1, error := if left == 1 && !s.done then EndedWithoutDone else s.error);
        }
      }
    }

    /** Text already read is shown before the next byte is taken. */
    method Show(room: nat) returns (emitted: seq<byte>, refused: bool)
      modifies this
      ensures refused == (|old(s).Pending()| > room)
      ensures refused ==> emitted == old(s).Pending()[..room] && s == old(s).(position := old(s).position + room)
      ensures !refused ==> emitted == old(s).Pending() && s == old(s).Shown()
    {
      emitted, refused := [], false;
      while !refused && s.error == NoError && s.position < |s.text|
        invariant s == old(s).(position := s.position) && old(s).position <= s.position
        invariant |emitted| <= room && s.position == old(s).position + |emitted|
        invariant old(s).Waiting() ==> s.position <= |s.text| && emitted == s.text[old(s).position..s.position]
        invariant !old(s).Waiting() ==> emitted == []
        invariant refused ==> s.Waiting() && |emitted| == room
        decreases |s.text| - s.position, !refused
      {
        if |emitted| == room {
          refused := true;
        } else {
          emitted := emitted + [s.text[s.position]];
          s := s.(position := s.position + 1);
        }
      }
    }

    /** z80_chat_stream_feed to a consumer that takes room bytes. */
    method Take(data: seq<byte>, room: nat) returns (used: nat, emitted: seq<byte>)
      modifies this
      ensures Fed(s, used, emitted) == Feed(old(s), data, room)
    {
      hide Step, Feed;
      var refused;
      used := 0;
      ghost var whole := Feed(s, data, room);
      FeedShows(s, data, room);
      emitted, refused := Show(room);
      assert data[0..] == data;
      while !refused && s.error == NoError && !s.done && used < |data|
        invariant used <= |data| && |emitted| <= room
        invariant !refused ==> !s.Waiting() && whole == Resumed(s, data, used, emitted, room)
        invariant refused ==> whole == Fed(s, used, emitted)
        decreases |data| - used
      {
        ResumeStep(s, data, used, emitted, room);
        var c := data[used];
        used := used + 1;
        TakeByte(c);
        ResumeShows(s, data, used, emitted, room);
        hide Resumed;
        var more;
        more, refused := Show(room - |emitted|);
        emitted := emitted + more;
      }
      if !refused {
        FeedEnds(s, data, used, emitted, room);
      }
    }
  }
}
