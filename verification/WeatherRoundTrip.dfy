/** The in-place decoder returns the body of every chunked response within its limits,
    the same body the incremental decoder emits. */
module WeatherRoundTrip {
  import opened Bytes
  import opened Options
  import opened HttpRoundTrip
  import Http = HttpStream
  import W = Weather

  predicate NoCr(l: seq<byte>) { forall i :: 0 <= i < |l| ==> l[i] != Http.CR }

  lemma {:induction false} FindLine(l: seq<byte>, rest: seq<byte>)
    requires NoCr(l)
    ensures W.FindCrlf(l + (CRLF + rest)) == |l|
    decreases |l|
  {
    var s := l + (CRLF + rest);
    if l == [] {
      assert s == CRLF + rest;
      assert W.CrlfAt(s, 0);
    } else {
      assert s[0] == l[0] && s[1..] == l[1..] + (CRLF + rest);
      FindLine(l[1..], rest);
    }
  }

  lemma LineParts(l: seq<byte>, rest: seq<byte>)
    ensures var s := l + (CRLF + rest); s[..|l|] == l && s[|l| + 2..] == rest && |s| == |l| + 2 + |rest|
  {
  }

  // ---------------------------------------------------------------- the header section

  lemma {:induction false} BlankSkips(l: seq<byte>, s: seq<byte>)
    requires NoCr(l)
    ensures W.FindBlank(l + s) == |l| + W.FindBlank(s)
    decreases |l|
  {
    if l == [] {
      assert l + s == s;
    } else {
      assert (l + s)[0] == l[0] && (l + s)[1..] == l[1..] + s;
      BlankSkips(l[1..], s);
    }
  }

  lemma BlankSkipsEnd(s: seq<byte>)
    requires s != [] && s[0] != Http.CR
    ensures W.FindBlank(CRLF + s) == 2 + W.FindBlank(s)
  {
    var t := CRLF + s;
    assert t[2] == s[0] && t[1] == Http.LF && t[1..][1..] == s;
  }

  lemma BlankHere(rest: seq<byte>)
    ensures W.FindBlank(CRLF + (CRLF + rest)) == 0
  {
    var s := CRLF + (CRLF + rest);
    assert W.CrlfAt(s, 0) && W.CrlfAt(s, 2);
  }

  predicate PlainLines(ls: seq<seq<byte>>) { forall i :: 0 <= i < |ls| ==> LineText(ls[i]) && ls[i] != [] }

  lemma {:induction false} BlankAfter(ls: seq<seq<byte>>, rest: seq<byte>)
    requires PlainLines(ls) && ls != []
    ensures |Lines(ls)| >= 2 && W.FindBlank(Lines(ls) + (CRLF + rest)) == |Lines(ls)| - 2
    decreases |ls|
  {
    hide W.FindBlank;
    var l := ls[0];
    var more := Lines(ls[1..]) + (CRLF + rest);
    assert Lines(ls) + (CRLF + rest) == l + (CRLF + more);
    BlankSkips(l, CRLF + more);
    if |ls| == 1 {
      assert more == CRLF + rest;
      BlankHere(rest);
    } else {
      assert LineText(ls[1]) && ls[1] != [] && Lines(ls[1..]) == ls[1] + CRLF + Lines(ls[1..][1..]);
      assert more[0] == ls[1][0];
      hide LineText;
      BlankSkipsEnd(more);
      BlankAfter(ls[1..], rest);
    }
  }

  lemma {:induction false} LinesAppend(a: seq<seq<byte>>, b: seq<seq<byte>>)
    ensures Lines(a + b) == Lines(a) + Lines(b)
    decreases |a|
  {
    if a == [] {
      assert a + b == b;
    } else {
      assert (a + b)[1..] == a[1..] + b;
      LinesAppend(a[1..], b);
    }
  }

  function AllLines(h: Head): seq<seq<byte>> { [h.status] + h.before + [h.framing] + h.after }

  lemma OneLine(l: seq<byte>)
    ensures Lines([l]) == l + CRLF
  {
    assert [l][1..] == [];
  }

  lemma HeadIsLines(h: Head)
    ensures EncodeHead(h) == Lines(AllLines(h)) + CRLF
    ensures Lines(AllLines(h)) == (h.status + CRLF) + Lines(FieldLines(h))
  {
    OneLine(h.status);
    OneLine(h.framing);
    LinesAppend([h.status], h.before);
    LinesAppend([h.status] + h.before, [h.framing]);
    LinesAppend([h.status] + h.before + [h.framing], h.after);
    assert AllLines(h) == [h.status] + FieldLines(h);
    LinesAppend([h.status], FieldLines(h));
  }

  function FieldLines(h: Head): seq<seq<byte>> { h.before + ([h.framing] + h.after) }

  // ---------------------------------------------------------------- fields

  lemma FieldLine(l: seq<byte>, rest: seq<byte>, f: W.Framing)
    requires LineText(l) && Http.Field(l)
    ensures var g := W.FieldFraming(f, Http.FieldName(l), Http.FieldValue(l));
            W.Fields(l + (CRLF + rest), f) == if g.None? then None else W.Fields(rest, g.value)
  {
    FindLine(l, rest);
    LineParts(l, rest);
    var s := l + (CRLF + rest);
    var colon := Http.Find(l, Http.COLON);
    assert s[..colon] == l[..colon] && s[colon + 1..|l|] == l[colon + 1..];
    hide W.FieldFraming, W.FindCrlf;
  }

  lemma IgnoredFraming(l: seq<byte>, f: W.Framing)
    requires LineText(l) && Http.Field(l) && (IsLocation(l) || Harmless(l))
    ensures W.FieldFraming(f, Http.FieldName(l), Http.FieldValue(l)) == Some(f)
  {
    if IsLocation(l) {
      LocationIsNoOther(l);
    }
    hide Text, Http.SameName;
  }

  lemma FirstLine(ls: seq<seq<byte>>, rest: seq<byte>)
    requires ls != []
    ensures Lines(ls) + rest == ls[0] + (CRLF + (Lines(ls[1..]) + rest))
  {
  }

  lemma {:induction false} IgnoredFields(location: seq<byte>, ls: seq<seq<byte>>, rest: seq<byte>, f: W.Framing)
    requires FieldsOk(location, ls)
    ensures W.Fields(Lines(ls) + rest, f) == W.Fields(rest, f)
    decreases |ls|
  {
    if ls == [] {
      assert Lines(ls) + rest == rest;
    } else {
      hide W.Fields, Lines;
      var l := ls[0];
      FirstLine(ls, rest);
      FieldLine(l, Lines(ls[1..]) + rest, f);
      IgnoredFraming(l, f);
      var next := if IsLocation(l) then Http.FieldValue(l) else location;
      hide W.FieldFraming, IsLocation, Harmless, Http.Field, LineText;
      IgnoredFields(next, ls[1..], rest, f);
    }
  }

  lemma FieldLinesText(h: Head)
    ensures Lines(FieldLines(h)) == Lines(h.before) + (h.framing + (CRLF + Lines(h.after)))
  {
    OneLine(h.framing);
    LinesAppend([h.framing], h.after);
    LinesAppend(h.before, [h.framing] + h.after);
    hide Lines;
    assert h.framing + CRLF + Lines(h.after) == h.framing + (CRLF + Lines(h.after));
  }

  /** What the framing field makes of the framing. */
  predicate Frames(l: seq<byte>, f: W.Framing)
    requires Http.Field(l)
  {
    W.FieldFraming(W.Framing(false, None), Http.FieldName(l), Http.FieldValue(l)) == Some(f)
  }

  lemma HeadFields(h: Head, f: W.Framing)
    requires HeadOk(h) && Frames(h.framing, f)
    ensures W.Fields(Lines(FieldLines(h)), W.Framing(false, None)) == Some(f)
  {
    hide Lines, FieldsOk, LocationAfter, Http.StatusLineOk, W.FieldFraming;
    var none := W.Framing(false, None);
    FieldLinesText(h);
    IgnoredFields([], h.before, h.framing + (CRLF + Lines(h.after)), none);
    FieldLine(h.framing, Lines(h.after), none);
    IgnoredFields(LocationAfter([], h.before), h.after, [], f);
    assert Lines(h.after) + [] == Lines(h.after);
    NoFields(f);
    hide W.Fields, Http.Field;
  }

  lemma NoFields(f: W.Framing)
    ensures W.Fields([], f) == Some(f)
  {
  }

  lemma ChunkedField(l: seq<byte>)
    requires Http.Field(l) && IsChunked(l)
    ensures Frames(l, W.Framing(true, None))
  {
    assert |Text("Content-Length")| == 14 && |Text("Transfer-Encoding")| == 17;
    hide Text, Http.FieldValue, Http.Find;
  }

  lemma LengthField(l: seq<byte>, n: nat)
    requires Http.Field(l) && IsLength(l, n) && n <= W.BODY_MAX
    ensures Frames(l, W.Framing(false, Some(n)))
  {
    hide Text, Http.FieldValue, Http.Find, Http.Value;
  }

  // ---------------------------------------------------------------- chunks

  lemma SizeFits(l: seq<byte>, n: nat)
    requires SizeText(l, n) && n <= W.BODY_MAX
    ensures W.Fits(Http.Digits(l, 16), 16) && Http.Value(Http.Digits(l, 16), 16) == n && l != [] && NoCr(l)
  {
  }

  lemma TrailerColon(l: seq<byte>)
    requires TrailerOk(l)
    ensures NoCr(l) && 0 < |l| && Http.Find(l, Http.COLON) < |l|
  {
  }

  lemma {:induction false} TrailersAccepted(ls: seq<seq<byte>>)
    requires forall i :: 0 <= i < |ls| ==> TrailerOk(ls[i])
    ensures W.TrailersOk(Lines(ls) + CRLF)
    decreases |ls|
  {
    if ls == [] {
      FindLine([], []);
      assert Lines(ls) + CRLF == [] + (CRLF + []);
    } else {
      hide W.TrailersOk, Lines, W.FindCrlf, W.CrlfAt;
      var l := ls[0];
      var more := Lines(ls[1..]) + CRLF;
      FirstLine(ls, CRLF);
      TrailerColon(l);
      FindLine(l, more);
      LineParts(l, more);
      W.TrailerLine(l + (CRLF + more));
      hide TrailerOk, NoCr;
      TrailersAccepted(ls[1..]);
    }
  }

  /** The size lines fit the decoder's 64 characters. */
  predicate ShortSizes(cs: seq<Chunk>, last: seq<byte>) {
    |last| <= W.SIZE_LINE_MAX && forall i :: 0 <= i < |cs| ==> |cs[i].size| <= W.SIZE_LINE_MAX
  }

  lemma ChunkText(c: Chunk, rest: seq<byte>)
    ensures EncodeChunk(c) + rest == c.size + (CRLF + (c.data + (CRLF + rest)))
  {
  }

  lemma BodyText(cs: seq<Chunk>, last: seq<byte>, trailers: seq<seq<byte>>)
    ensures cs == [] ==> EncodeBody(cs, last, trailers) == last + (CRLF + (Lines(trailers) + CRLF))
    ensures cs != [] ==> EncodeBody(cs, last, trailers) == EncodeChunk(cs[0]) + EncodeBody(cs[1..], last, trailers)
  {
    if cs != [] {
      var tail := last + CRLF + Lines(trailers) + CRLF;
      assert EncodeChunk(cs[0]) + EncodeChunks(cs[1..]) + tail == EncodeChunk(cs[0]) + (EncodeChunks(cs[1..]) + tail);
    }
  }

  /** One size line of the in-place decoder. */
  lemma SizeLine(size: seq<byte>, n: nat, rest: seq<byte>, room: nat)
    requires SizeText(size, n) && |size| <= W.SIZE_LINE_MAX && n <= W.BODY_MAX
    ensures W.Chunks(size + (CRLF + rest), room) == W.AfterSize(rest, n, room)
  {
    hide SizeText, W.Fits, Http.Value, Http.Digits, NoCr, W.Chunks, W.AfterSize, W.CrlfAt;
    var s := size + (CRLF + rest);
    SizeFits(size, n);
    FindLine(size, rest);
    LineParts(size, rest);
    W.SizeLine(s, |size|, n, room);
  }

  lemma AfterData(data: seq<byte>, rest: seq<byte>, room: nat)
    requires 0 < |data| <= room
    ensures var more := W.Chunks(rest, room - |data|);
            W.AfterSize(data + (CRLF + rest), |data|, room) == if more.None? then None else Some(data + more.value)
  {
    hide W.Chunks;
    LineParts(data, rest);
    assert W.CrlfAt(data + (CRLF + rest), |data|);
  }

  lemma OneChunk(c: Chunk, rest: seq<byte>, room: nat)
    requires ChunkOk(c) && |c.size| <= W.SIZE_LINE_MAX && |c.data| <= room <= W.BODY_MAX
    ensures var more := W.Chunks(rest, room - |c.data|);
            W.Chunks(EncodeChunk(c) + rest, room) == if more.None? then None else Some(c.data + more.value)
  {
    hide W.Chunks, W.AfterSize, EncodeChunk, SizeText;
    ChunkText(c, rest);
    SizeLine(c.size, |c.data|, c.data + (CRLF + rest), room);
    AfterData(c.data, rest, room);
  }

  lemma {:induction false} ChunksDecode(cs: seq<Chunk>, last: seq<byte>, trailers: seq<seq<byte>>, room: nat)
    requires BodyOk(cs, last, trailers) && ShortSizes(cs, last) && |BodyOf(cs)| <= room <= W.BODY_MAX
    ensures W.Chunks(EncodeBody(cs, last, trailers), room) == Some(BodyOf(cs))
    decreases |cs|
  {
    hide W.Chunks, EncodeBody, EncodeChunk, SizeText, TrailerOk;
    BodyText(cs, last, trailers);
    if cs == [] {
      SizeLine(last, 0, Lines(trailers) + CRLF, room);
      TrailersAccepted(trailers);
    } else {
      assert ChunkOk(cs[0]) && |cs[0].size| <= W.SIZE_LINE_MAX;
      var rest := EncodeBody(cs[1..], last, trailers);
      OneChunk(cs[0], rest, room);
      ChunksDecode(cs[1..], last, trailers, room - |cs[0].data|);
    }
  }

  // ---------------------------------------------------------------- no NUL anywhere

  predicate NulFree(s: seq<byte>) { forall i :: 0 <= i < |s| ==> s[i] != 0 }

  lemma NulFreeAppend(a: seq<byte>, b: seq<byte>)
    requires NulFree(a) && NulFree(b)
    ensures NulFree(a + b)
  {
  }

  lemma {:induction false} LinesNulFree(ls: seq<seq<byte>>)
    requires forall i :: 0 <= i < |ls| ==> LineText(ls[i])
    ensures NulFree(Lines(ls))
    decreases |ls|
  {
    if ls != [] {
      assert LineText(ls[0]);
      LinesNulFree(ls[1..]);
    }
  }

  lemma {:induction false} ChunksNulFree(cs: seq<Chunk>)
    requires (forall i :: 0 <= i < |cs| ==> ChunkOk(cs[i])) && NulFree(BodyOf(cs))
    ensures NulFree(EncodeChunks(cs))
    decreases |cs|
  {
    if cs != [] {
      var b := BodyOf(cs[1..]);
      assert ChunkOk(cs[0]) && BodyOf(cs) == cs[0].data + b;
      forall i | 0 <= i < |cs[0].data|
        ensures cs[0].data[i] != 0
      {
        assert BodyOf(cs)[i] == cs[0].data[i];
      }
      forall i | 0 <= i < |b|
        ensures b[i] != 0
      {
        assert BodyOf(cs)[|cs[0].data| + i] == b[i];
      }
      ChunksNulFree(cs[1..]);
      NulFreeAppend(EncodeChunk(cs[0]), EncodeChunks(cs[1..]));
    }
  }

  lemma {:induction false} FieldsAreText(location: seq<byte>, ls: seq<seq<byte>>, i: nat)
    requires FieldsOk(location, ls) && i < |ls|
    ensures LineText(ls[i]) && ls[i] != []
    decreases |ls|
  {
    if i > 0 {
      FieldsAreText(if IsLocation(ls[0]) then Http.FieldValue(ls[0]) else location, ls[1..], i - 1);
    }
  }

  lemma HeadNulFree(h: Head)
    requires HeadOk(h)
    ensures PlainLines(AllLines(h)) && NulFree(EncodeHead(h))
  {
    var ls := AllLines(h);
    forall i | 0 <= i < |ls|
      ensures LineText(ls[i]) && ls[i] != []
    {
      var n := |h.before|;
      if 0 < i < n + 1 {
        FieldsAreText([], h.before, i - 1);
      } else if i > n + 1 {
        FieldsAreText(LocationAfter([], h.before), h.after, i - n - 2);
      }
    }
    LinesNulFree(ls);
    HeadIsLines(h);
  }

  lemma BodyNulFree(cs: seq<Chunk>, last: seq<byte>, trailers: seq<seq<byte>>)
    requires BodyOk(cs, last, trailers) && NulFree(BodyOf(cs))
    ensures NulFree(EncodeBody(cs, last, trailers))
  {
    ChunksNulFree(cs);
    forall i | 0 <= i < |trailers|
      ensures LineText(trailers[i])
    {
      assert TrailerOk(trailers[i]);
    }
    LinesNulFree(trailers);
    NulFreeAppend(last + CRLF, Lines(trailers));
    NulFreeAppend(last + CRLF + Lines(trailers), CRLF);
    NulFreeAppend(EncodeChunks(cs), last + CRLF + Lines(trailers) + CRLF);
  }

  // ---------------------------------------------------------------- the round trip

  /** Where a head's parts lie in the wire. */
  lemma HeadLayout(h: Head, body: seq<byte>)
    ensures var wire, fields := EncodeHead(h) + body, Lines(FieldLines(h));
            && wire == Lines(AllLines(h)) + (CRLF + body)
            && wire == h.status + (CRLF + (fields + CRLF + body))
            && |EncodeHead(h)| == |h.status| + 2 + |fields| + 2
            && wire[|h.status| + 2..|h.status| + 2 + |fields|] == fields && |fields| >= |h.framing| + 2
  {
    HeadIsLines(h);
    FieldLinesText(h);
    hide Lines, EncodeHead, AllLines, FieldLines;
    assert Lines(AllLines(h)) + CRLF + body == Lines(AllLines(h)) + (CRLF + body);
  }

  lemma HeadRead(wire: seq<byte>, line: nat, end: nat, f: W.Framing)
    requires W.FindBlank(wire) == end < |wire| && end <= W.HEADER_MAX && W.FindCrlf(wire) == line && 12 <= line
    requires line + 2 < end && end + 2 <= |wire| && 0 !in wire && Http.StatusLineOk(wire[..line])
    requires wire[9] == 50 && wire[10] == 48 && wire[11] == 48
    requires W.Fields(wire[line + 2..end + 2], W.Framing(false, None)) == Some(f)
    ensures W.ReadHead(wire) == W.Head(200, f, end + 4)
  {
    hide W.Fields, W.FindBlank, W.FindCrlf, Http.StatusLineOk;
  }

  lemma HeadDecodes(h: Head, body: seq<byte>, f: W.Framing)
    requires HeadOk(h) && Frames(h.framing, f) && |EncodeHead(h)| <= W.HEADER_MAX + 4 && NulFree(body)
    ensures W.ReadHead(EncodeHead(h) + body) == W.Head(200, f, |EncodeHead(h)|)
  {
    hide Lines, EncodeHead, AllLines, FieldLines, Frames, FieldsOk, LocationAfter, W.ReadHead, W.Fields, PlainLines;
    hide Http.StatusLineOk, Http.Field, W.FindBlank, W.FindCrlf, W.CrlfAt, Text;
    var wire, fields := EncodeHead(h) + body, Lines(FieldLines(h));
    HeadNulFree(h);
    HeadFields(h, f);
    HeadLayout(h, body);
    HeadIsLines(h);
    NulFreeAppend(EncodeHead(h), body);
    NotEmpty(h);
    BlankAfter(AllLines(h), body);
    FindLine(h.status, fields + CRLF + body);
    LineParts(h.status, fields + CRLF + body);
    StatusDigits(h.status, wire);
    FramingNotEmpty(h);
    hide HeadOk, LineText, NoCr;
    HeadRead(wire, |h.status|, |EncodeHead(h)| - 4, f);
  }

  lemma FramingNotEmpty(h: Head)
    requires HeadOk(h)
    ensures h.framing != []
  {
  }

  lemma NotEmpty(h: Head)
    ensures AllLines(h) != []
  {
  }

  lemma StatusDigits(p: seq<byte>, wire: seq<byte>)
    requires Http.StatusLineOk(p) && p[9..12] == Text("200") && |wire| >= |p| && wire[..|p|] == p
    ensures wire[9] == 50 && wire[10] == 48 && wire[11] == 48 && |p| >= 12
  {
    assert Text("200") == [50, 48, 48];
    assert wire[9] == p[9] == p[9..12][0] && wire[10] == p[10] == p[9..12][1] && wire[11] == p[11] == p[9..12][2];
  }

  /** The in-place decoder returns the body of every chunked response that is NUL-free
      and within its limits: 2048 header bytes, 64 per size line, 8192 in the body. */
  lemma InPlaceRoundTrip(h: Head, cs: seq<Chunk>, last: seq<byte>, trailers: seq<seq<byte>>)
    requires HeadOk(h) && IsChunked(h.framing) && BodyOk(cs, last, trailers)
    requires |EncodeHead(h)| <= W.HEADER_MAX + 4 && ShortSizes(cs, last)
    requires |BodyOf(cs)| <= W.BODY_MAX && NulFree(BodyOf(cs))
    ensures W.Decode(EncodeHead(h) + EncodeBody(cs, last, trailers)) == W.Decoded(200, BodyOf(cs))
  {
    hide EncodeHead, EncodeBody, W.ReadHead, W.Chunks, FieldsOk, LocationAfter, SizeText, IsChunked, Http.StatusLineOk, LineText, Frames;
    var body := EncodeBody(cs, last, trailers);
    var wire := EncodeHead(h) + body;
    BodyNulFree(cs, last, trailers);
    ChunkedField(h.framing);
    HeadDecodes(h, body, W.Framing(true, None));
    ChunksDecode(cs, last, trailers, W.BODY_MAX);
    assert wire[|EncodeHead(h)|..] == body;
    hide W.ReadHead, W.Chunks, EncodeHead, EncodeBody, HeadOk, BodyOk;
  }

  /** A Content-Length response decodes to its body when the length is right, and is
      refused when any other number of bytes follows. */
  lemma LengthInPlace(h: Head, n: nat, body: seq<byte>)
    requires HeadOk(h) && IsLength(h.framing, n) && |EncodeHead(h)| <= W.HEADER_MAX + 4
    requires n <= W.BODY_MAX && NulFree(body)
    ensures W.Decode(EncodeHead(h) + body) == if |body| == n then W.Decoded(200, body) else W.Refused
  {
    hide EncodeHead, W.ReadHead, FieldsOk, LocationAfter, IsLength, Http.StatusLineOk, LineText, Frames;
    LengthField(h.framing, n);
    HeadDecodes(h, body, W.Framing(false, Some(n)));
    assert (EncodeHead(h) + body)[|EncodeHead(h)|..] == body;
  }

  /** Both decoders agree on every such response. */
  lemma DecodersAgree(h: Head, cs: seq<Chunk>, last: seq<byte>, trailers: seq<seq<byte>>)
    requires HeadOk(h) && IsChunked(h.framing) && BodyOk(cs, last, trailers)
    requires |EncodeHead(h)| <= W.HEADER_MAX + 4 && ShortSizes(cs, last)
    requires |BodyOf(cs)| <= W.BODY_MAX && NulFree(BodyOf(cs))
    requires WithinLimits(|EncodeHead(h)|, cs, last, trailers)
    ensures var wire := EncodeHead(h) + EncodeBody(cs, last, trailers);
            W.Decode(wire) == W.Decoded(200, Http.Decode(Http.START, wire).emitted)
  {
    hide Http.Decode, W.Decode, EncodeHead, EncodeBody, BodyOk, IsChunked;
    var wire := EncodeHead(h) + EncodeBody(cs, last, trailers);
    InPlaceRoundTrip(h, cs, last, trailers);
    FeedHead(h, true, 0, 0, 0);
    ChunkedRoundTrip(AfterHead(true, 0, |EncodeHead(h)|, HeadLocation(h)), cs, last, trailers);
    Http.DecodeAppend(Http.START, EncodeHead(h), EncodeBody(cs, last, trailers));
    assert [] + BodyOf(cs) == BodyOf(cs);
  }
}
