/** The incremental HTTP/1.1 response decoder of http_stream.c: one wire byte at a
    time, stopping before a body byte its consumer has no room for. */
module HttpStream {
  import opened Bytes

  const CR: byte := 13
  const LF: byte := 10
  const TAB: byte := 9
  const SPACE: byte := 32
  const COLON: byte := 58
  const SEMICOLON: byte := 59

  const LINE_MAX := 1023         // line[1024] less its NUL
  const METADATA_MAX := 8192
  const LOCATION_MAX := 767      // location[768] less its NUL
  const UINT32_MAX := 0xFFFF_FFFF

  datatype Phase = Status | Headers | BodyLength | BodyClose | ChunkSize | ChunkBody | ChunkCr | ChunkLf | Trailers

  datatype Error =
    | NoError
    | InvalidStatusLine
    | InvalidChunkSize
    | AmbiguousFraming
    | RedirectWithoutLocation
    | ServerError
    | InvalidHeader
    | InvalidHeaderName
    | InvalidContentLength
    | UnsupportedTransferEncoding
    | Compressed
    | InvalidLocation
    | MissingChunkDelimiter
    | MetadataTooLarge
    | MissingCrlf
    | UnexpectedCr
    | InvalidLine
    | Truncated
    | Aborted                    // set from outside, by z80_http_io_error

  datatype Stream = Stream(phase: Phase, status: nat, headerBytes: nat, remaining: nat, line: seq<byte>,
                           haveLength: bool, chunked: bool, done: bool, error: Error, location: seq<byte>)
  {
    predicate Active() { error == NoError && !done }

    /** The next byte is body, offered to the consumer. */
    predicate Body() { phase == BodyLength || phase == BodyClose || phase == ChunkBody }
  }

  const START := Stream(Status, 0, 0, 0, [], false, false, false, NoError, [])

  // ---------------------------------------------------------------- text

  function Lower(c: byte): byte { if 65 <= c <= 90 then c + 32 else c }

  /** strcasecmp(a, b) == 0. */
  predicate SameName(a: seq<byte>, b: seq<byte>) {
    |a| == |b| && forall i :: 0 <= i < |a| ==> Lower(a[i]) == Lower(b[i])
  }

  predicate Blank(c: byte) { c == SPACE || c == TAB }

  predicate IsDigit(c: byte) { 48 <= c <= 57 }

  predicate TokenChar(c: byte) {
    || 97 <= c <= 122 || 65 <= c <= 90 || IsDigit(c)
    || c in {33, 35, 36, 37, 38, 39, 42, 43, 45, 46, 94, 95, 96, 124, 126}
  }

  /** The offset of the first c, or the length. */
  function Find(s: seq<byte>, c: byte): (i: nat)
    ensures i <= |s| && (i < |s| ==> s[i] == c)
    ensures forall j :: 0 <= j < i ==> s[j] != c
  {
    if s == [] || s[0] == c then 0 else 1 + Find(s[1..], c)
  }

  function SkipBlanks(s: seq<byte>): seq<byte> { if s != [] && Blank(s[0]) then SkipBlanks(s[1..]) else s }

  function TrimBlanks(s: seq<byte>): seq<byte> {
    if s != [] && Blank(s[|s| - 1]) then TrimBlanks(s[..|s| - 1]) else s
  }

  // ---------------------------------------------------------------- numbers

  function Digit(c: byte): nat {
    if IsDigit(c) then c - 48 else if 97 <= c <= 102 then c - 87 else if 65 <= c <= 70 then c - 55 else 16
  }

  /** The digits of a number: a chunk size ends at its extension. */
  function Digits(text: seq<byte>, base: nat): seq<byte> {
    if base == 16 then text[..Find(text, SEMICOLON)] else text
  }

  /** The value of a digit string, from its last digit. */
  function Value(digits: seq<byte>, base: nat): nat {
    if digits == [] then 0 else Shifted(Value(digits[..|digits| - 1], base), base, Digit(digits[|digits| - 1]))
  }

  function Shifted(v: nat, base: nat, digit: nat): nat { v * base + digit }

  lemma ShiftedGrows(v: nat, base: nat, digit: nat)
    requires base > 0
    ensures v <= Shifted(v, base, digit)
  {
    assert v * (base - 1) >= 0;
  }

  /** The overflow test of number is exact. */
  lemma OverflowTest(v: nat, base: nat, digit: nat)
    requires base == 10 || base == 16
    requires digit < base
    ensures v > (UINT32_MAX - digit) / base <==> Shifted(v, base, digit) > UINT32_MAX
  {
  }

  predicate AllDigits(digits: seq<byte>, base: nat) { forall i :: 0 <= i < |digits| ==> Digit(digits[i]) < base }

  predicate IsNumber(text: seq<byte>, base: nat) {
    var d := Digits(text, base);
    d != [] && AllDigits(d, base) && Value(d, base) <= UINT32_MAX
  }

  /** How much of a digit string the scan accepts: all of it, or up to the first digit
      that is not one of the base or takes the value past 32 bits. */
  function Accepted(digits: seq<byte>, base: nat, n: nat): (r: nat)
    requires n <= |digits|
    ensures n <= r <= |digits|
    decreases |digits| - n
  {
    if n < |digits| && Takes(digits, base, n) then Accepted(digits, base, n + 1)
    else n
  }

  /** The next digit is taken exactly when it is one and the value still fits. */
  predicate Takes(digits: seq<byte>, base: nat, n: nat)
    requires n < |digits|
  {
    Digit(digits[n]) < base && Value(digits[..n + 1], base) <= UINT32_MAX
  }

  lemma NextDigit(d: seq<byte>, base: nat, i: nat)
    requires (base == 10 || base == 16) && i < |d|
    ensures Value(d[..i + 1], base) == Shifted(Value(d[..i], base), base, Digit(d[i]))
    ensures var digit := Digit(d[i]);
            Takes(d, base, i) <==> digit < base && Value(d[..i], base) <= (UINT32_MAX - digit) / base
  {
    assert d[..i + 1][..i] == d[..i];
    if Digit(d[i]) < base {
      OverflowTest(Value(d[..i], base), base, Digit(d[i]));
    }
  }

  lemma RefusedDigit(d: seq<byte>, base: nat, i: nat)
    requires base > 0 && i < |d| && !Takes(d, base, i)
    ensures !(AllDigits(d, base) && Value(d, base) <= UINT32_MAX)
  {
    ValueGrows(d, base, i + 1);
  }

  /** number: the value is left behind even when the text is refused. */
  method Number(text: seq<byte>, base: nat) returns (ok: bool, result: nat)
    requires base == 10 || base == 16
    ensures ok <==> IsNumber(text, base)
    ensures ok ==> result == Value(Digits(text, base), base)
    ensures result == Scanned(text, base)
  {
    hide Shifted, Value, Digit;
    ghost var d := Digits(text, base);
    assert Value([], base) == 0 by {
      EmptyValue(base);
    }
    result := 0;
    ok := true;
    var i := 0;
    while ok && i < |text| && !(base == 16 && text[i] == SEMICOLON)
      invariant 0 <= i <= |d| && d == text[..|d|] && d == Digits(text, base)
      invariant forall j :: 0 <= j < i ==> Digit(d[j]) < base
      invariant result == Value(d[..i], base) && (i > 0 ==> result <= UINT32_MAX)
      invariant Accepted(d, base, 0) == Accepted(d, base, i)
      invariant !ok ==> i < |d| && !Takes(d, base, i)
      decreases |text| - i, ok
    {
      var digit := Digit(text[i]);
      NextDigit(d, base, i);
      if digit >= base || result > (UINT32_MAX - digit) / base {
        ok := false;
      } else {
        result := Shifted(result, base, digit);
        i := i + 1;
      }
    }
    if !ok {
      RefusedDigit(d, base, i);
    } else {
      assert d[..i] == d;
    }
    ok := ok && i != 0;
  }

  lemma EmptyValue(base: nat)
    ensures Value([], base) == 0
  {
  }

  /** What number leaves in its result. */
  function Scanned(text: seq<byte>, base: nat): nat {
    var d := Digits(text, base);
    Value(d[..Accepted(d, base, 0)], base)
  }

  lemma {:induction false} ValueGrows(d: seq<byte>, base: nat, i: nat)
    requires base > 0 && i <= |d|
    ensures Value(d[..i], base) <= Value(d, base)
    decreases |d|
  {
    hide Shifted;
    if i < |d| {
      var e := d[..|d| - 1];
      ValueGrows(e, base, i);
      assert e[..i] == d[..i];
      ShiftedGrows(Value(e, base), base, Digit(d[|d| - 1]));
    } else {
      assert d[..i] == d;
    }
  }

  // ---------------------------------------------------------------- lines

  predicate StatusLineOk(p: seq<byte>) {
    && |p| >= 12 && (p[..9] == Text("HTTP/1.0 ") || p[..9] == Text("HTTP/1.1 "))
    && 49 <= p[9] <= 53 && IsDigit(p[10]) && IsDigit(p[11]) && (|p| > 12 ==> p[12] == SPACE)
  }

  function StatusLine(s: Stream): Stream {
    var p := s.line;
    if !StatusLineOk(p) then s.(error := InvalidStatusLine)
    else s.(status := (p[9] as int - 48) * 100 + (p[10] as int - 48) * 10 + (p[11] as int - 48), phase := Headers)
  }

  function SizeLine(s: Stream): Stream {
    var size := Scanned(s.line, 16);
    if !IsNumber(s.line, 16) then s.(remaining := size, error := InvalidChunkSize)
    else s.(remaining := size, phase := if size != 0 then ChunkBody else Trailers)
  }

  predicate Redirect(status: nat) { status in {301, 302, 303, 307, 308} }

  predicate Informational(status: nat) { 100 <= status < 200 && status != 101 }

  /** The empty line after the header fields, or after the trailers. */
  function EmptyLine(s: Stream): Stream {
    if s.phase == Trailers then s.(done := true)
    else if s.haveLength && s.chunked then s.(error := AmbiguousFraming)
    else if Informational(s.status) then
      s.(phase := Status, haveLength := false, chunked := false, remaining := 0, location := [])
    else if Redirect(s.status) then
      if s.location == [] then s.(error := RedirectWithoutLocation) else s.(done := true)
    else if s.status != 200 && s.status != 204 then s.(error := ServerError)
    else
      s.(phase := if s.chunked then ChunkSize else if s.haveLength then BodyLength else BodyClose,
         done := s.status == 204 || (s.haveLength && s.remaining == 0))
  }

  predicate Field(line: seq<byte>) {
    var colon := Find(line, COLON);
    0 < colon < |line| && !Blank(line[0]) && forall i :: 0 <= i < colon ==> TokenChar(line[i])
  }

  function FieldName(line: seq<byte>): seq<byte> { line[..Find(line, COLON)] }

  function FieldValue(line: seq<byte>): seq<byte>
    requires Find(line, COLON) < |line|
  {
    TrimBlanks(SkipBlanks(line[Find(line, COLON) + 1..]))
  }

  function HeaderField(s: Stream, name: seq<byte>, value: seq<byte>): Stream {
    if SameName(name, Text("Content-Length")) then
      if s.haveLength then s.(error := InvalidContentLength)
      else
        s.(remaining := Scanned(value, 10), haveLength := true,
           error := if IsNumber(value, 10) then s.error else InvalidContentLength)
    else if SameName(name, Text("Transfer-Encoding")) then
      s.(error := if s.chunked || !SameName(value, Text("chunked")) then UnsupportedTransferEncoding else s.error,
         chunked := true)
    else if SameName(name, Text("Content-Encoding")) then
      s.(error := if SameName(value, Text("identity")) then s.error else Compressed)
    else if SameName(name, Text("Location")) then
      if s.location != [] || |value| > LOCATION_MAX then s.(error := InvalidLocation) else s.(location := value)
    else s
  }

  function FieldLine(s: Stream): Stream {
    var colon := Find(s.line, COLON);
    if colon == |s.line| || colon == 0 || Blank(s.line[0]) then s.(error := InvalidHeader)
    else if !Field(s.line) then s.(error := InvalidHeaderName)
    else if s.phase == Trailers then s
    else HeaderField(s, FieldName(s.line), FieldValue(s.line))
  }

  /** line: the complete line in s.line, its CRLF removed. */
  function Line(s: Stream): Stream {
    if s.phase == Status then StatusLine(s)
    else if s.phase == ChunkSize then SizeLine(s)
    else if s.line == [] then EmptyLine(s)
    else FieldLine(s)
  }

  // ---------------------------------------------------------------- bytes

  function BodyByte(s: Stream): Stream {
    if s.phase == BodyClose then s
    else
      var left := if s.remaining == 0 then UINT32_MAX else s.remaining - 1;
      s.(remaining := left,
         done := s.done || (left == 0 && s.phase == BodyLength),
         phase := if left == 0 && s.phase == ChunkBody then ChunkCr else s.phase)
  }

  function Delimiter(s: Stream, c: byte): Stream {
    if c != (if s.phase == ChunkCr then CR else LF) then s.(error := MissingChunkDelimiter)
    else s.(phase := if s.phase == ChunkCr then ChunkLf else ChunkSize)
  }

  predicate LineByteOk(c: byte) { c != 0 && c != 127 && (c >= 32 || c == CR || c == TAB) }

  function EndOfLine(s: Stream): Stream {
    var n := |s.line|;
    if n == 0 || s.line[n - 1] != CR then s.(error := MissingCrlf)
    else
      var l := s.line[..n - 1];
      if CR in l then s.(line := l, error := UnexpectedCr)
      else
        var t := Line(s.(line := l));
        t.(line := [], headerBytes := if t.phase == ChunkBody then 0 else t.headerBytes)
  }

  function LineByte(s: Stream, c: byte): Stream {
    var t := s.(headerBytes := s.headerBytes + 1);
    if t.headerBytes > METADATA_MAX then t.(error := MetadataTooLarge)
    else if c == LF then EndOfLine(t)
    else if !LineByteOk(c) || |t.line| == LINE_MAX then t.(error := InvalidLine)
    else t.(line := t.line + [c])
  }

  /** One wire byte, taken. */
  function Step(s: Stream, c: byte): Stream {
    if s.Body() then BodyByte(s)
    else if s.phase == ChunkCr || s.phase == ChunkLf then Delimiter(s, c)
    else LineByte(s, c)
  }

  datatype Fed = Fed(stream: Stream, used: nat, emitted: seq<byte>)

  /** z80_http_stream_feed with a consumer that takes room more bytes and then refuses:
      the first refusal ends the call, so room is all a call can see of its consumer. */
  function Feed(s: Stream, data: seq<byte>, room: nat): (f: Fed)
    ensures f.used <= |data| && |f.emitted| <= room
    decreases |data|
  {
    if data == [] || !s.Active() || (s.Body() && room == 0) then Fed(s, 0, [])
    else
      var f := Feed(Step(s, data[0]), data[1..], if s.Body() then room - 1 else room);
      Fed(f.stream, f.used + 1, if s.Body() then [data[0]] + f.emitted else f.emitted)
  }

  datatype Decoded = Decoded(stream: Stream, emitted: seq<byte>)

  /** The whole wire in one call, to a consumer that never refuses. */
  function Decode(s: Stream, data: seq<byte>): Decoded
    decreases |data|
  {
    if data == [] || !s.Active() then Decoded(s, [])
    else
      var d := Decode(Step(s, data[0]), data[1..]);
      Decoded(d.stream, if s.Body() then [data[0]] + d.emitted else d.emitted)
  }

  /** z80_http_stream_close. */
  function Close(s: Stream): Stream {
    if !s.Active() then s else if s.phase == BodyClose then s.(done := true) else s.(error := Truncated)
  }

  // ---------------------------------------------------------------- splitting and back-pressure

  lemma {:induction false} DecodeAppend(s: Stream, a: seq<byte>, b: seq<byte>)
    ensures var d := Decode(s, a); var e := Decode(d.stream, b);
            Decode(s, a + b) == Decoded(e.stream, d.emitted + e.emitted)
    decreases |a|
  {
    hide Step;
    if a == [] {
      assert a + b == b;
    } else if s.Active() {
      assert (a + b)[0] == a[0] && (a + b)[1..] == a[1..] + b;
      DecodeAppend(Step(s, a[0]), a[1..], b);
    }
  }

  /** A call decodes exactly the bytes it consumed; it stops short only when the
      response is over or the consumer refused the next body byte. */
  lemma {:induction false} FeedDecodes(s: Stream, data: seq<byte>, room: nat)
    ensures var f := Feed(s, data, room);
            && Decode(s, data[..f.used]) == Decoded(f.stream, f.emitted)
            && (f.used < |data| ==> !f.stream.Active() || (f.stream.Body() && |f.emitted| == room))
    decreases |data|
  {
    hide Step;
    if !(data == [] || !s.Active() || (s.Body() && room == 0)) {
      var t := Step(s, data[0]);
      var r := if s.Body() then room - 1 else room;
      FeedDecodes(t, data[1..], r);
      var f := Feed(t, data[1..], r);
      assert data[..f.used + 1][1..] == data[1..][..f.used];
    }
  }

  lemma DecodeNothing(s: Stream)
    ensures Decode(s, []) == Decoded(s, [])
  {
  }

  /** One call: how many of the bytes not yet consumed it is given, and its consumer's room. */
  datatype Call = Call(available: nat, room: nat)

  /** A sequence of calls, each resubmitting what the last one left. */
  function Calls(s: Stream, wire: seq<byte>, calls: seq<Call>): (f: Fed)
    ensures f.used <= |wire|
    decreases |calls|
  {
    if calls == [] then Fed(s, 0, [])
    else
      var n := if calls[0].available < |wire| then calls[0].available else |wire|;
      var f := Feed(s, wire[..n], calls[0].room);
      var g := Calls(f.stream, wire[f.used..], calls[1..]);
      Fed(g.stream, f.used + g.used, f.emitted + g.emitted)
  }

  /** Splitting and back-pressure do not matter: any calls decode what they consumed
      exactly as one call would. */
  lemma {:induction false} CallsDecode(s: Stream, wire: seq<byte>, calls: seq<Call>)
    ensures var f := Calls(s, wire, calls);
            Decode(s, wire[..f.used]) == Decoded(f.stream, f.emitted)
    decreases |calls|
  {
    hide Step, Feed, Decode, Stream.Active, Stream.Body;
    if calls == [] {
      assert wire[..0] == [];
      DecodeNothing(s);
    } else {
      var n := if calls[0].available < |wire| then calls[0].available else |wire|;
      var f := Feed(s, wire[..n], calls[0].room);
      var rest := wire[f.used..];
      FeedDecodes(s, wire[..n], calls[0].room);
      assert wire[..n][..f.used] == wire[..f.used];
      CallsDecode(f.stream, rest, calls[1..]);
      var g := Calls(f.stream, rest, calls[1..]);
      DecodeAppend(s, wire[..f.used], rest[..g.used]);
      assert wire[..f.used] + rest[..g.used] == wire[..f.used + g.used];
    }
  }

  /** Two sequences of calls that consume the whole wire, or go on until the response
      is over, emit the same bytes and leave the same state. */
  lemma SplitIndependence(s: Stream, wire: seq<byte>, calls: seq<Call>)
    requires var f := Calls(s, wire, calls); f.used == |wire| || !f.stream.Active()
    ensures var f := Calls(s, wire, calls);
            Decode(s, wire) == Decoded(f.stream, f.emitted)
  {
    hide Step, Feed, Calls;
    var f := Calls(s, wire, calls);
    CallsDecode(s, wire, calls);
    DecodeAppend(s, wire[..f.used], wire[f.used..]);
    assert wire[..f.used] + wire[f.used..] == wire;
  }

  // ---------------------------------------------------------------- the decoder object

  /** The whole call, once its first used bytes have been taken. */
  function Resumed(s: Stream, data: seq<byte>, used: nat, emitted: seq<byte>, room: nat): Fed
    requires used <= |data| && |emitted| <= room
  {
    var f := Feed(s, data[used..], room - |emitted|);
    Fed(f.stream, used + f.used, emitted + f.emitted)
  }

  lemma FeedOne(s: Stream, data: seq<byte>, used: nat, emitted: seq<byte>, room: nat)
    requires used < |data| && |emitted| <= room && s.Active()
    ensures s.Body() && |emitted| < room ==>
              Resumed(s, data, used, emitted, room) ==
              Resumed(Step(s, data[used]), data, used + 1, emitted + [data[used]], room)
    ensures !s.Body() ==>
              Resumed(s, data, used, emitted, room) == Resumed(Step(s, data[used]), data, used + 1, emitted, room)
  {
    hide Step;
    assert data[used..][0] == data[used] && data[used..][1..] == data[used + 1..];
    if s.Body() && |emitted| < room {
      var e := emitted + [data[used]];
      var f := Feed(Step(s, data[used]), data[used + 1..], room - |e|);
      assert emitted + ([data[used]] + f.emitted) == e + f.emitted;
    }
  }

  lemma FeedEnds(s: Stream, data: seq<byte>, used: nat, emitted: seq<byte>, room: nat)
    requires used <= |data| && |emitted| <= room
    requires used == |data| || !s.Active() || (s.Body() && |emitted| == room)
    ensures Resumed(s, data, used, emitted, room) == Fed(s, used, emitted)
  {
    assert emitted + [] == emitted;
  }

  class Decoder {
    var phase: Phase
    var status: nat
    var headerBytes: nat
    var remaining: nat
    var line: seq<byte>
    var haveLength: bool
    var chunked: bool
    var done: bool
    var error: Error
    var location: seq<byte>

    ghost function View(): Stream
      reads this
    {
      Stream(phase, status, headerBytes, remaining, line, haveLength, chunked, done, error, location)
    }

    /** z80_http_stream_init. */
    constructor ()
      ensures View() == START
    {
      phase, status, headerBytes, remaining, line := Status, 0, 0, 0, [];
      haveLength, chunked, done, error, location := false, false, false, NoError, [];
    }

    method TakeSize()
      modifies this
      ensures View() == SizeLine(old(View()))
    {
      var ok, size := Number(line, 16);
      remaining := size;
      if !ok {
        error := InvalidChunkSize;
      } else {
        phase := if size != 0 then ChunkBody else Trailers;
      }
    }

    method TakeEmptyLine()
      modifies this
      ensures View() == EmptyLine(old(View()))
    {
      if phase == Trailers {
        done := true;
      } else if haveLength && chunked {
        error := AmbiguousFraming;
      } else if Informational(status) {
        phase := Status;
        haveLength, chunked := false, false;
        remaining := 0;
        location := [];
      } else if Redirect(status) {
        if location == [] {
          error := RedirectWithoutLocation;
        } else {
          done := true;
        }
      } else if status != 200 && status != 204 {
        error := ServerError;
      } else {
        phase := if chunked then ChunkSize else if haveLength then BodyLength else BodyClose;
        done := status == 204 || (haveLength && remaining == 0);
      }
    }

    method TakeField(name: seq<byte>, value: seq<byte>)
      modifies this
      ensures View() == HeaderField(old(View()), name, value)
    {
      if SameName(name, Text("Content-Length")) {
        if haveLength {
          error := InvalidContentLength;
        } else {
          var ok, length := Number(value, 10);
          remaining := length;
          if !ok {
            error := InvalidContentLength;
          }
        }
        haveLength := true;
      } else if SameName(name, Text("Transfer-Encoding")) {
        if chunked || !SameName(value, Text("chunked")) {
          error := UnsupportedTransferEncoding;
        }
        chunked := true;
      } else if SameName(name, Text("Content-Encoding")) {
        if !SameName(value, Text("identity")) {
          error := Compressed;
        }
      } else if SameName(name, Text("Location")) {
        if location != [] || |value| > LOCATION_MAX {
          error := InvalidLocation;
        } else {
          location := value;
        }
      }
    }

    method TakeFieldLine()
      modifies this
      ensures View() == FieldLine(old(View()))
    {
      var colon := Find(line, COLON);
      if colon == |line| || colon == 0 || Blank(line[0]) {
        error := InvalidHeader;
      } else if !Field(line) {
        error := InvalidHeaderName;
      } else if phase != Trailers {
        TakeField(FieldName(line), FieldValue(line));
      }
    }

    method TakeLine()
      modifies this
      ensures View() == Line(old(View()))
    {
      if phase == Status {
        if !StatusLineOk(line) {
          error := InvalidStatusLine;
        } else {
          status := (line[9] as int - 48) * 100 + (line[10] as int - 48) * 10 + (line[11] as int - 48);
          phase := Headers;
        }
      } else if phase == ChunkSize {
        TakeSize();
      } else if line == [] {
        TakeEmptyLine();
      } else {
        TakeFieldLine();
      }
    }

    method TakeEndOfLine()
      modifies this
      ensures View() == EndOfLine(old(View()))
    {
      hide Line;
      if line == [] || line[|line| - 1] != CR {
        error := MissingCrlf;
      } else {
        line := line[..|line| - 1];
        if CR in line {
          error := UnexpectedCr;
        } else {
          TakeLine();
          line := [];
          if phase == ChunkBody {
            headerBytes := 0;
          }
        }
      }
    }

    method TakeLineByte(c: byte)
      modifies this
      ensures View() == LineByte(old(View()), c)
    {
      hide EndOfLine;
      headerBytes := headerBytes + 1;
      if headerBytes > METADATA_MAX {
        error := MetadataTooLarge;
      } else if c == LF {
        TakeEndOfLine();
      } else if !LineByteOk(c) || |line| == LINE_MAX {
        error := InvalidLine;
      } else {
        line := line + [c];
      }
    }

    /** A body byte the consumer took. */
    method TakeBodyByte()
      modifies this
      ensures View() == BodyByte(old(View()))
    {
      if phase != BodyClose {
        remaining := if remaining == 0 then UINT32_MAX else remaining - 1;
        if remaining == 0 {
          if phase == BodyLength {
            done := true;
          } else if phase == ChunkBody {
            phase := ChunkCr;
          }
        }
      }
    }

    method TakeByte(c: byte)
      modifies this
      ensures View() == Step(old(View()), c)
    {
      hide LineByte, BodyByte;
      if phase == BodyLength || phase == BodyClose || phase == ChunkBody {
        TakeBodyByte();
      } else if phase == ChunkCr || phase == ChunkLf {
        if c != (if phase == ChunkCr then CR else LF) {
          error := MissingChunkDelimiter;
        } else {
          phase := if phase == ChunkCr then ChunkLf else ChunkSize;
        }
      } else {
        TakeLineByte(c);
      }
    }

    /** z80_http_stream_feed, byte by byte, to a consumer that takes room bytes. */
    method Take(data: seq<byte>, room: nat) returns (used: nat, emitted: seq<byte>)
      modifies this
      ensures Fed(View(), used, emitted) == Feed(old(View()), data, room)
    {
      hide Step, Feed;
      used, emitted := 0, [];
      var refused := false;
      ghost var whole := Feed(View(), data, room);
      assert data[0..] == data && [] + whole.emitted == whole.emitted;
      while !refused && used < |data| && error == NoError && !done
        invariant used <= |data| && |emitted| <= room
        invariant whole == Resumed(View(), data, used, emitted, room)
        invariant refused ==> View().Body() && |emitted| == room
        decreases |data| - used, !refused
      {
        var c := data[used];
        FeedOne(View(), data, used, emitted, room);
        hide Resumed;
        if phase == BodyLength || phase == BodyClose || phase == ChunkBody {
          if |emitted| == room {
            refused := true;
          } else {
            emitted := emitted + [c];
            used := used + 1;
            TakeByte(c);
          }
        } else {
          used := used + 1;
          TakeByte(c);
        }
      }
      FeedEnds(View(), data, used, emitted, room);
    }

    method Shut()
      modifies this
      ensures View() == Close(old(View()))
    {
      if !done && error == NoError {
        if phase == BodyClose {
          done := true;
        } else {
          error := Truncated;
        }
      }
    }
  }
}
