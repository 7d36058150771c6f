/** The language of the HTTP response decoder: the wires it takes without an error are
    exactly the readings below, and its state and output are those of the reading. */
module HttpLanguage {
  import opened Bytes
  import opened HttpStream
  import opened HttpRoundTrip

  // ---------------------------------------------------------------- header sections

  datatype Section = Section(status: seq<byte>, fields: seq<seq<byte>>)

  /** The values of the fields of one name, in order. */
  function Values(fields: seq<seq<byte>>, name: seq<byte>): seq<seq<byte>> {
    if fields == [] then []
    else
      var l := fields[|fields| - 1];
      Values(fields[..|fields| - 1], name) + (if Field(l) && SameName(FieldName(l), name) then [FieldValue(l)] else [])
  }

  function Lengths(fields: seq<seq<byte>>): seq<seq<byte>> { Values(fields, Text("Content-Length")) }

  function Codings(fields: seq<seq<byte>>): seq<seq<byte>> { Values(fields, Text("Transfer-Encoding")) }

  function Encodings(fields: seq<seq<byte>>): seq<seq<byte>> { Values(fields, Text("Content-Encoding")) }

  function Locations(fields: seq<seq<byte>>): seq<seq<byte>> { Values(fields, Text("Location")) }

  /** One length at most, a number; one transfer coding at most, chunked; no compression;
      and locations that fit, only the last of them other than empty. */
  predicate FieldsFit(fields: seq<seq<byte>>) {
    && AllFields(fields)
    && AtMostOne(Lengths(fields)) && (Lengths(fields) != [] ==> IsNumber(Lengths(fields)[0], 10))
    && AtMostOne(Codings(fields)) && (Codings(fields) != [] ==> SameName(Codings(fields)[0], Text("chunked")))
    && NotCompressed(Encodings(fields)) && OneLocation(Locations(fields))
  }

  predicate AllFields(fields: seq<seq<byte>>) { forall i :: 0 <= i < |fields| ==> LineText(fields[i]) && Field(fields[i]) }

  predicate AtMostOne(vs: seq<seq<byte>>) { |vs| <= 1 }

  predicate NotCompressed(vs: seq<seq<byte>>) { forall i :: 0 <= i < |vs| ==> SameName(vs[i], Text("identity")) }

  predicate OneLocation(vs: seq<seq<byte>>) {
    forall i :: 0 <= i < |vs| ==> |vs[i]| <= 767 && (i < |vs| - 1 ==> vs[i] == [])
  }

  function Length(fields: seq<seq<byte>>): nat {
    if Lengths(fields) == [] then 0 else Value(Lengths(fields)[0], 10)
  }

  function Last(vs: seq<seq<byte>>): seq<byte> { if vs == [] then [] else vs[|vs| - 1] }

  function Location(fields: seq<seq<byte>>): seq<byte> { Last(Locations(fields)) }

  /** The decoder among the fields of a section, with what they have told it. */
  function Told(status: nat, bytes: nat, length: nat, counted: bool, chunked: bool, location: seq<byte>): Stream {
    Stream(Headers, status, bytes, length, [], counted, chunked, false, NoError, location)
  }

  function Among(status: nat, fields: seq<seq<byte>>, bytes: nat): Stream {
    Told(status, bytes, Length(fields), Lengths(fields) != [], Codings(fields) != [], Location(fields))
  }

  lemma ValuesNext(fields: seq<seq<byte>>, l: seq<byte>, name: seq<byte>)
    ensures Values(fields + [l], name) ==
            Values(fields, name) + (if Field(l) && SameName(FieldName(l), name) then [FieldValue(l)] else [])
  {
    assert (fields + [l])[..|fields|] == fields;
  }

  /** No field has two of the names. */
  lemma NamesDiffer(n: seq<byte>)
    ensures SameName(n, Text("Content-Length")) ==> |n| == 14
    ensures SameName(n, Text("Transfer-Encoding")) ==> |n| == 17
    ensures SameName(n, Text("Content-Encoding")) ==> |n| == 16
    ensures SameName(n, Text("Location")) ==> |n| == 8
  {
  }

  lemma OneMoreLocation(vs: seq<seq<byte>>, v: seq<byte>)
    requires OneLocation(vs)
    ensures OneLocation(vs + [v]) <==> (vs == [] || vs[|vs| - 1] == []) && |v| <= 767
  {
    var ws := vs + [v];
    assert ws[|vs|] == v;
    if (vs == [] || vs[|vs| - 1] == []) && |v| <= 767 {
      forall i | 0 <= i < |ws|
        ensures |ws[i]| <= 767 && (i < |ws| - 1 ==> ws[i] == [])
      {
        if i < |vs| {
          assert ws[i] == vs[i];
        }
      }
    }
    if OneLocation(ws) && vs != [] {
      assert ws[|vs| - 1] == vs[|vs| - 1];
    }
  }

  lemma OneMoreEncoding(vs: seq<seq<byte>>, v: seq<byte>)
    requires NotCompressed(vs)
    ensures NotCompressed(vs + [v]) <==> SameName(v, Text("identity"))
  {
    hide SameName, Text;
    assert (vs + [v])[|vs|] == v;
    if SameName(v, Text("identity")) {
      assert forall i :: 0 <= i < |vs + [v]| ==> (vs + [v])[i] == v || (i < |vs| && (vs + [v])[i] == vs[i]);
    }
  }

  lemma LinesNext(fields: seq<seq<byte>>, l: seq<byte>)
    requires AllFields(fields)
    ensures AllFields(fields + [l]) <==> LineText(l) && Field(l)
  {
    hide LineText, Field;
    var fs := fields + [l];
    assert fs[|fields|] == l;
    if LineText(l) && Field(l) {
      assert forall i :: 0 <= i < |fs| ==> fs[i] == l || (i < |fields| && fs[i] == fields[i]);
    }
  }

  /** What each of the four names makes of one more field. */
  lemma ListsNext(fields: seq<seq<byte>>, l: seq<byte>)
    requires Field(l)
    ensures var name, v, fs := FieldName(l), FieldValue(l), fields + [l];
            && Lengths(fs) == (if SameName(name, Text("Content-Length")) then Lengths(fields) + [v] else Lengths(fields))
            && Codings(fs) == (if SameName(name, Text("Transfer-Encoding")) then Codings(fields) + [v] else Codings(fields))
            && Encodings(fs) == (if SameName(name, Text("Content-Encoding")) then Encodings(fields) + [v] else Encodings(fields))
            && Locations(fs) == (if SameName(name, Text("Location")) then Locations(fields) + [v] else Locations(fields))
  {
    hide Values, SameName, Text, FieldName, FieldValue;
    ValuesNext(fields, l, Text("Content-Length"));
    ValuesNext(fields, l, Text("Transfer-Encoding"));
    ValuesNext(fields, l, Text("Content-Encoding"));
    ValuesNext(fields, l, Text("Location"));
  }

  /** The fields with one more are again fields exactly when its line is one and its
      value is allowed. */
  lemma FitNext(fields: seq<seq<byte>>, l: seq<byte>)
    requires FieldsFit(fields) && LineText(l)
    ensures FieldsFit(fields + [l]) <==> Field(l) && Allowed(fields, FieldName(l), FieldValue(l))
  {
    assert Field(l) ==> Find(l, COLON) < |l|;
    hide Values, Text, SameName, IsNumber, FieldName, FieldValue, NotCompressed, OneLocation, LineText, Field, AllFields;
    LinesNext(fields, l);
    if Field(l) {
      ListsNext(fields, l);
      OneMoreLocation(Locations(fields), FieldValue(l));
      OneMoreEncoding(Encodings(fields), FieldValue(l));
      hide Lengths, Codings, Encodings, Locations;
    }
  }

  predicate Allowed(fields: seq<seq<byte>>, name: seq<byte>, value: seq<byte>) {
    && (SameName(name, Text("Content-Length")) ==> Lengths(fields) == [] && IsNumber(value, 10))
    && (SameName(name, Text("Transfer-Encoding")) ==> Codings(fields) == [] && SameName(value, Text("chunked")))
    && (SameName(name, Text("Content-Encoding")) ==> SameName(value, Text("identity")))
    && (SameName(name, Text("Location")) ==> Location(fields) == [] && |value| <= 767)
  }

  lemma ToldNext(s: Stream, name: seq<byte>, v: seq<byte>)
    requires s.error == NoError
    ensures var t := HeaderField(s, name, v);
            && (t.error == NoError <==>
                  && (SameName(name, Text("Content-Length")) ==> !s.haveLength && IsNumber(v, 10))
                  && (SameName(name, Text("Transfer-Encoding")) ==> !s.chunked && SameName(v, Text("chunked")))
                  && (SameName(name, Text("Content-Encoding")) ==> SameName(v, Text("identity")))
                  && (SameName(name, Text("Location")) ==> s.location == [] && |v| <= 767))
            && (t.error == NoError ==>
                  t == s.(remaining := if SameName(name, Text("Content-Length")) then Value(v, 10) else s.remaining,
                          haveLength := s.haveLength || SameName(name, Text("Content-Length")),
                          chunked := s.chunked || SameName(name, Text("Transfer-Encoding")),
                          location := if SameName(name, Text("Location")) then v else s.location))
  {
    NamesDiffer(name);
    ScannedFits(v, 10);
    NumberIsValue(v);
    hide Text, SameName, IsNumber, Value, Scanned;
  }

  /** What one more field tells, when it is allowed. */
  lemma TellsNext(fields: seq<seq<byte>>, l: seq<byte>)
    requires Field(l) && (SameName(FieldName(l), Text("Content-Length")) ==> Lengths(fields) == [])
    ensures var name, v, fs := FieldName(l), FieldValue(l), fields + [l];
            && Length(fs) == (if SameName(name, Text("Content-Length")) then Value(v, 10) else Length(fields))
            && (Lengths(fs) != [] <==> Lengths(fields) != [] || SameName(name, Text("Content-Length")))
            && (Codings(fs) != [] <==> Codings(fields) != [] || SameName(name, Text("Transfer-Encoding")))
            && Location(fs) == (if SameName(name, Text("Location")) then v else Location(fields))
  {
    assert Find(l, COLON) < |l|;
    hide Values, Text, SameName, FieldName, FieldValue, Value, Field;
    ListsNext(fields, l);
    hide Lengths, Codings, Encodings, Locations;
  }

  lemma AmongNext(status: nat, fields: seq<seq<byte>>, bytes: nat, l: seq<byte>)
    requires Field(l)
    ensures var t := HeaderField(Among(status, fields, bytes).(line := l), FieldName(l), FieldValue(l));
            && (t.error == NoError <==> Allowed(fields, FieldName(l), FieldValue(l)))
            && (t.error == NoError ==> t == Among(status, fields + [l], bytes).(line := l))
  {
    assert Find(l, COLON) < |l|;
    hide HeaderField, Text, SameName, IsNumber, FieldName, FieldValue, Value, Field, Lengths, Codings, Location, Length;
    ToldNext(Among(status, fields, bytes).(line := l), FieldName(l), FieldValue(l));
    if Allowed(fields, FieldName(l), FieldValue(l)) {
      TellsNext(fields, l);
    }
  }

  lemma NumberIsValue(v: seq<byte>)
    ensures Digits(v, 10) == v
  {
  }

  lemma FieldTaken(s: Stream, l: seq<byte>)
    requires s.phase == Headers && l != []
    ensures var t := s.(headerBytes := s.headerBytes + |l| + 2, line := l);
            if Field(l) then
              var u := HeaderField(t, FieldName(l), FieldValue(l));
              AfterLine(s, l) == u.(line := [], headerBytes := if u.phase == ChunkBody then 0 else u.headerBytes)
            else AfterLine(s, l).error != NoError
  {
    hide Text, SameName, FieldName, FieldValue, TokenChar, HeaderField;
  }

  /** A field line is taken exactly when the section stays one. */
  lemma FieldStep(status: nat, fields: seq<seq<byte>>, bytes: nat, l: seq<byte>)
    requires FieldsFit(fields) && LineText(l) && l != []
    ensures var t := AfterLine(Among(status, fields, bytes), l);
            && (t.error == NoError <==> FieldsFit(fields + [l]))
            && (t.error == NoError ==> t == Among(status, fields + [l], bytes + |l| + 2))
  {
    hide HttpStream.FieldName, HttpStream.FieldValue, FieldsFit, Allowed, LineText, HeaderField, Values, Lengths, Codings, Locations, AfterLine, Field;
    FitNext(fields, l);
    FieldTaken(Among(status, fields, bytes), l);
    if Field(l) {
      AmongNext(status, fields, bytes + |l| + 2, l);
    }
  }

  // ---------------------------------------------------------------- readings

  predicate SectionFits(h: Section) { LineText(h.status) && StatusLineOk(h.status) && FieldsFit(h.fields) }

  predicate Unambiguous(h: Section) { Lengths(h.fields) == [] || Codings(h.fields) == [] }

  predicate Interims(ms: seq<Section>) {
    forall i :: 0 <= i < |ms| ==> SectionFits(ms[i]) && Unambiguous(ms[i]) && Passing(ms[i])
  }

  /** A 1xx response other than 101 is passed over. */
  predicate Passing(h: Section)
    requires SectionFits(h)
  {
    100 <= Code(h.status) <= 199 && Code(h.status) != 101
  }

  predicate Redirects(h: Section)
    requires SectionFits(h)
  {
    Code(h.status) in {301, 302, 303, 307, 308}
  }

  /** A chunked body beyond its whole chunks: in a size line, in a chunk's data, in the
      CRLF after it (its CR read or not), among the trailers, or over. */
  datatype Tail =
    | InSize(text: seq<byte>)
    | InChunk(size: seq<byte>, data: seq<byte>)
    | InDelimiter(c: Chunk, cr: bool)
    | InTrailers(last: seq<byte>, trailers: seq<seq<byte>>, text: seq<byte>)
    | Finished(last: seq<byte>, trailers: seq<seq<byte>>)

  datatype Part = Bodiless | Counted(data: seq<byte>) | ToClose(data: seq<byte>) | Chunked(cs: seq<Chunk>, tail: Tail)

  /** What a wire has been read as, from the start of the connection: any interim
      sections, then a final one and its body, all whole but the last part. */
  datatype Reading =
    | InStatus(ms: seq<Section>, text: seq<byte>)
    | InFields(ms: seq<Section>, h: Section, text: seq<byte>)
    | InBody(ms: seq<Section>, h: Section, part: Part)

  function Opened(h: Section): seq<byte> { h.status + CRLF + Lines(h.fields) }

  function Sections(ms: seq<Section>): seq<byte> {
    if ms == [] then [] else Sections(ms[..|ms| - 1]) + (Opened(ms[|ms| - 1]) + CRLF)
  }

  function HeadBytes(ms: seq<Section>, h: Section): seq<byte> { Sections(ms) + Opened(h) + CRLF }

  function TailBytes(t: Tail): seq<byte> {
    match t
    case InSize(text) => text
    case InChunk(size, data) => size + CRLF + data
    case InDelimiter(c, cr) => c.size + CRLF + c.data + (if cr then [CR] else [])
    case InTrailers(last, trailers, text) => last + CRLF + Lines(trailers) + text
    case Finished(last, trailers) => last + CRLF + Lines(trailers) + CRLF
  }

  function PartBytes(p: Part): seq<byte> {
    match p
    case Bodiless => []
    case Counted(data) => data
    case ToClose(data) => data
    case Chunked(cs, tail) => EncodeChunks(cs) + TailBytes(tail)
  }

  function Wire(r: Reading): seq<byte> {
    match r
    case InStatus(ms, text) => Sections(ms) + text
    case InFields(ms, h, text) => Sections(ms) + Opened(h) + text
    case InBody(ms, h, part) => HeadBytes(ms, h) + PartBytes(part)
  }

  /** The body bytes among them. */
  function TailContent(t: Tail): seq<byte> { if t.InChunk? then t.data else if t.InDelimiter? then t.c.data else [] }

  function PartContent(p: Part): seq<byte> {
    match p
    case Bodiless => []
    case Counted(data) => data
    case ToClose(data) => data
    case Chunked(cs, tail) => BodyOf(cs) + TailContent(tail)
  }

  function Content(r: Reading): seq<byte> { if r.InBody? then PartContent(r.part) else [] }

  /** The response is complete, and its last byte with it. */
  predicate Complete(r: Reading) {
    && r.InBody?
    && match r.part
       case Bodiless => true
       case Counted(data) => |data| == Length(r.h.fields)
       case ToClose(_) => false
       case Chunked(_, tail) => tail.Finished?
  }

  // ---------------------------------------------------------------- which readings are legal

  /** A line not yet ended. */
  predicate TextFits(text: seq<byte>) {
    |text| <= 1023 && forall i :: 0 <= i < |text| ==> text[i] == 9 || text[i] == 13 || 32 <= text[i] < 127 || 128 <= text[i]
  }

  function SizeOf(size: seq<byte>): nat { Value(Digits(size, 16), 16) }

  predicate AllTrailers(ls: seq<seq<byte>>) { forall i :: 0 <= i < |ls| ==> TrailerOk(ls[i]) }

  predicate AllChunks(cs: seq<Chunk>) { forall i :: 0 <= i < |cs| ==> ChunkOk(cs[i]) }

  predicate TailLegal(t: Tail) {
    match t
    case InSize(text) => TextFits(text)
    case InChunk(size, data) => LineText(size) && IsNumber(size, 16) && |data| < SizeOf(size)
    case InDelimiter(c, _) => ChunkOk(c)
    case InTrailers(last, trailers, text) => SizeText(last, 0) && AllTrailers(trailers) && TextFits(text)
    case Finished(last, trailers) => SizeText(last, 0) && AllTrailers(trailers)
  }

  /** The framing agrees with the header section. */
  predicate PartLegal(h: Section, p: Part)
    requires SectionFits(h)
  {
    var code, counted, chunked := Code(h.status), Lengths(h.fields) != [], Codings(h.fields) != [];
    match p
    case Bodiless =>
      || (Redirects(h) && Location(h.fields) != []) || code == 204
      || (code == 200 && counted && Length(h.fields) == 0)
    case Counted(data) => code == 200 && counted && 0 < Length(h.fields) && |data| <= Length(h.fields)
    case ToClose(_) => code == 200 && !counted && !chunked
    case Chunked(cs, tail) => code == 200 && chunked && AllChunks(cs) && TailLegal(tail)
  }

  /** Metadata counted since the last chunk's data. */
  function TailCount(t: Tail): nat { if t.InChunk? || t.InDelimiter? then 0 else |TailBytes(t)| }

  /** The bytes of the first size line, when it is complete. */
  function FirstSize(cs: seq<Chunk>, t: Tail): nat {
    if cs != [] then |cs[0].size| + 2
    else if t.InChunk? then |t.size| + 2
    else if t.InDelimiter? then |t.c.size| + 2
    else 0
  }

  /** The metadata counted at the end of the reading: everything up to the first chunk's
      data, and what follows the last chunk's. */
  function Metadata(r: Reading): nat {
    if !r.InBody? then |Wire(r)|
    else if !r.part.Chunked? then |HeadBytes(r.ms, r.h)|
    else (if FirstSize(r.part.cs, r.part.tail) == 0 then |HeadBytes(r.ms, r.h)| else 0) + TailCount(r.part.tail)
  }

  predicate Bounded(r: Reading) {
    && Metadata(r) <= 8192
    && (r.InBody? ==>
          |HeadBytes(r.ms, r.h)| + (if r.part.Chunked? then FirstSize(r.part.cs, r.part.tail) else 0) <= 8192)
  }

  /** Legal readings: the grammar of a response and the decoder's limits. */
  predicate Legal(r: Reading) {
    && Interims(r.ms) && Bounded(r)
    && match r
       case InStatus(_, text) => TextFits(text)
       case InFields(_, h, text) => SectionFits(h) && TextFits(text)
       case InBody(_, h, part) => SectionFits(h) && Unambiguous(h) && !Passing(h) && PartLegal(h, part)
  }

  // ---------------------------------------------------------------- the decoder's state

  function LastCode(ms: seq<Section>): nat
    requires Interims(ms)
  {
    if ms == [] then 0 else Code(ms[|ms| - 1].status)
  }

  /** The decoder past a header section. */
  function Past(h: Section, bytes: nat): Stream
    requires SectionFits(h)
  {
    Among(Code(h.status), h.fields, bytes).(
      phase := if Codings(h.fields) != [] then ChunkSize else if Lengths(h.fields) != [] then BodyLength else BodyClose)
  }

  function TailState(s: Stream, t: Tail): Stream
    requires TailLegal(t)
  {
    match t
    case InSize(text) => s.(line := text)
    case InChunk(size, data) => s.(phase := ChunkBody, remaining := SizeOf(size) - |data|)
    case InDelimiter(_, cr) => s.(phase := if cr then ChunkLf else ChunkCr, remaining := 0)
    case InTrailers(_, _, text) => s.(phase := HttpStream.Trailers, remaining := 0, line := text)
    case Finished(_, _) => s.(phase := HttpStream.Trailers, remaining := 0, done := true)
  }

  function PartState(h: Section, bytes: nat, p: Part): Stream
    requires SectionFits(h) && PartLegal(h, p)
  {
    var s := Past(h, bytes);
    match p
    case Bodiless => s.(done := true, phase := if Redirects(h) then Headers else s.phase)
    case Counted(data) => s.(remaining := Length(h.fields) - |data|, done := |data| == Length(h.fields))
    case ToClose(_) => s
    case Chunked(_, tail) => TailState(s, tail)
  }

  function StateOf(r: Reading): Stream
    requires Legal(r)
  {
    match r
    case InStatus(ms, text) => Fresh(LastCode(ms), Metadata(r)).(line := text)
    case InFields(_, h, text) => Among(Code(h.status), h.fields, Metadata(r)).(line := text)
    case InBody(_, h, part) => PartState(h, Metadata(r), part)
  }

  // ---------------------------------------------------------------- every legal reading is taken

  lemma {:induction false} LinesNextBytes(ls: seq<seq<byte>>, l: seq<byte>)
    ensures Lines(ls + [l]) == Lines(ls) + (l + CRLF)
    decreases |ls|
  {
    if ls == [] {
      assert ls + [l] == [l] && [l][1..] == [];
    } else {
      assert (ls + [l])[1..] == ls[1..] + [l];
      LinesNextBytes(ls[1..], l);
    }
  }

  lemma {:induction false} ReadFields(status: nat, fields: seq<seq<byte>>, bytes: nat)
    requires FieldsFit(fields) && bytes + |Lines(fields)| <= 8192
    ensures Decode(Among(status, [], bytes), Lines(fields)) == Decoded(Among(status, fields, bytes + |Lines(fields)|), [])
    decreases |fields|
  {
    hide Decode, Among, FieldsFit, AfterLine;
    var s := Among(status, [], bytes);
    if fields == [] {
      DecodeNothing(s);
    } else {
      var fs, l := fields[..|fields| - 1], fields[|fields| - 1];
      assert fields == fs + [l];
      LinesNextBytes(fs, l);
      FewerFit(fs, l);
      ReadFields(status, fs, bytes);
      var t := Among(status, fs, bytes + |Lines(fs)|);
      FieldStep(status, fs, bytes + |Lines(fs)|, l);
      AmongIsAtLine(status, fs, bytes + |Lines(fs)|);
      FeedLine(t, l);
      DecodeAppend(s, Lines(fs), l + CRLF);
    }
  }

  lemma AmongIsAtLine(status: nat, fields: seq<seq<byte>>, bytes: nat)
    ensures var s := Among(status, fields, bytes); s.Active() && s.phase == Headers && s.line == [] && s.headerBytes == bytes
  {
    hide Values;
  }

  lemma FewerValues(vs: seq<seq<byte>>, v: seq<byte>)
    ensures NotCompressed(vs + [v]) ==> NotCompressed(vs)
    ensures OneLocation(vs + [v]) ==> OneLocation(vs)
  {
    hide SameName, Text;
    assert forall i :: 0 <= i < |vs| ==> vs[i] == (vs + [v])[i];
  }

  lemma FewerLines(fs: seq<seq<byte>>, l: seq<byte>)
    requires AllFields(fs + [l])
    ensures AllFields(fs) && LineText(l) && Field(l) && l != []
  {
    var all := fs + [l];
    assert all[|fs|] == l && forall i :: 0 <= i < |fs| ==> fs[i] == all[i];
    assert Field(l);
    hide Field, LineText;
  }

  lemma FewerFit(fs: seq<seq<byte>>, l: seq<byte>)
    requires FieldsFit(fs + [l])
    ensures FieldsFit(fs) && LineText(l) && l != []
  {
    FewerLines(fs, l);
    var v := FieldValue(l);
    hide Values, SameName, Text, IsNumber, FieldName, FieldValue, LineText, Field, AllFields, NotCompressed, OneLocation;
    ListsNext(fs, l);
    FewerValues(Encodings(fs), v);
    FewerValues(Locations(fs), v);
    hide Lengths, Codings, Encodings, Locations;
  }

  lemma AmongNone(status: nat, bytes: nat)
    ensures Among(status, [], bytes) == Fresh(status, bytes).(phase := Headers)
  {
  }

  lemma ReadOpened(h: Section, status: nat, bytes: nat)
    requires SectionFits(h) && bytes + |Opened(h)| <= 8192
    ensures Decode(Fresh(status, bytes), Opened(h)) == Decoded(Among(Code(h.status), h.fields, bytes + |Opened(h)|), [])
  {
    hide Decode, Among, FieldsFit, AfterLine, LineText, StatusLineOk, Code;
    var f, line := Fresh(status, bytes), h.status + CRLF;
    FeedLine(f, h.status);
    InterimLine(h.status, status, bytes);
    AmongNone(Code(h.status), bytes + |line|);
    ReadFields(Code(h.status), h.fields, bytes + |line|);
    DecodeAppend(f, line, Lines(h.fields));
  }

  lemma ReadEmptyLine(status: nat, fields: seq<seq<byte>>, bytes: nat)
    requires bytes + 2 <= 8192
    ensures Decode(Among(status, fields, bytes), CRLF) == Decoded(EmptyLine(Among(status, fields, bytes + 2)), [])
  {
    hide Decode, AfterLine, EmptyLine, Among;
    var s := Among(status, fields, bytes);
    AmongIsAtLine(status, fields, bytes);
    FeedLine(s, []);
    EmptyLineEnds(s);
    AmongCounts(status, fields, bytes);
    assert [] + CRLF == CRLF;
  }

  lemma AmongCounts(status: nat, fields: seq<seq<byte>>, bytes: nat)
    ensures Among(status, fields, bytes).(headerBytes := bytes + 2) == Among(status, fields, bytes + 2)
  {
    hide Values;
  }

  /** From a fresh decoder, a whole section leads to what its empty line makes of it. */
  lemma ReadSection(h: Section, status: nat, bytes: nat)
    requires SectionFits(h) && bytes + |Opened(h) + CRLF| <= 8192
    ensures Decode(Fresh(status, bytes), Opened(h) + CRLF) ==
            Decoded(EmptyLine(Among(Code(h.status), h.fields, bytes + |Opened(h) + CRLF|)), [])
  {
    FitsHasCode(h);
    var n := bytes + |Opened(h)|;
    assert n + 2 == bytes + |Opened(h) + CRLF|;
    ReadOpened(h, status, bytes);
    hide *;
    ThenEmptyLine(Fresh(status, bytes), Opened(h), Code(h.status), h.fields, n);
  }

  lemma ThenEmptyLine(s: Stream, a: seq<byte>, status: nat, fields: seq<seq<byte>>, n: nat)
    requires Decode(s, a) == Decoded(Among(status, fields, n), []) && n + 2 <= 8192
    ensures Decode(s, a + CRLF) == Decoded(EmptyLine(Among(status, fields, n + 2)), [])
  {
    hide Decode, Among, EmptyLine, CRLF;
    ReadEmptyLine(status, fields, n);
    DecodeAppend(s, a, CRLF);
  }

  lemma PassedOver(h: Section, bytes: nat)
    requires SectionFits(h) && Unambiguous(h) && Passing(h)
    ensures EmptyLine(Among(Code(h.status), h.fields, bytes)) == Fresh(Code(h.status), bytes)
  {
    hide Values, LineText, StatusLineOk, FieldsFit, Code;
  }

  lemma {:induction false} ReadSections(ms: seq<Section>)
    requires Interims(ms) && |Sections(ms)| <= 8192
    ensures Decode(START, Sections(ms)) == Decoded(Fresh(LastCode(ms), |Sections(ms)|), [])
    decreases |ms|
  {
    hide Decode, Among, EmptyLine, SectionFits, Unambiguous, Passing, Code, Opened;
    if ms == [] {
      DecodeNothing(START);
    } else {
      var most, m := ms[..|ms| - 1], ms[|ms| - 1];
      assert SectionFits(m) && Unambiguous(m) && Passing(m);
      ReadSections(most);
      var n := |Sections(most)|;
      ReadSection(m, LastCode(most), n);
      FitsHasCode(m);
      PassedOver(m, n + |Opened(m) + CRLF|);
      DecodeAppend(START, Sections(most), Opened(m) + CRLF);
    }
  }

  lemma FitsHasCode(h: Section)
    requires SectionFits(h)
    ensures StatusLineOk(h.status)
  {
  }

  lemma ReadHead(ms: seq<Section>, h: Section)
    requires Interims(ms) && SectionFits(h) && |HeadBytes(ms, h)| <= 8192
    ensures Decode(START, HeadBytes(ms, h)) == Decoded(EmptyLine(Among(Code(h.status), h.fields, |HeadBytes(ms, h)|)), [])
  {
    hide Decode, Among, EmptyLine, SectionFits, Code, Opened, Interims, Sections;
    FitsHasCode(h);
    ReadSections(ms);
    ReadSection(h, LastCode(ms), |Sections(ms)|);
    assert HeadBytes(ms, h) == Sections(ms) + (Opened(h) + CRLF);
    DecodeAppend(START, Sections(ms), Opened(h) + CRLF);
  }

  /** How a final section leaves the decoder, before any body. */
  function Begun(h: Section, bytes: nat): Stream
    requires SectionFits(h)
  {
    var s := Past(h, bytes);
    if Redirects(h) then Among(Code(h.status), h.fields, bytes).(done := true)
    else s.(done := Code(h.status) == 204 || (Lengths(h.fields) != [] && Length(h.fields) == 0))
  }

  /** The empty line of a final section is taken exactly when it may have a body of
      some kind, and leads there. */
  lemma FinalSection(h: Section, bytes: nat)
    requires SectionFits(h)
    ensures var t := EmptyLine(Among(Code(h.status), h.fields, bytes));
            && (t.error == NoError <==> Unambiguous(h) && (Passing(h) || Ends(h)))
            && (t.error == NoError && !Passing(h) ==> t == Begun(h, bytes))
  {
    hide Values, LineText, StatusLineOk, FieldsFit, Code;
  }

  // ---------------------------------------------------------------- reading the parts

  lemma ReadText(s: Stream, text: seq<byte>)
    requires s.Active() && LinePhase(s.phase) && s.line == [] && s.headerBytes + |text| <= 8192 && TextFits(text)
    ensures Decode(s, text) == Decoded(s.(headerBytes := s.headerBytes + |text|, line := text), [])
  {
    FeedText(s, text);
    assert [] + text == text;
  }

  lemma ReadChunkPart(s: Stream, size: seq<byte>, data: seq<byte>)
    requires AtLine(s, |size| + 2) && s.phase == ChunkSize && LineText(size) && IsNumber(size, 16) && |data| <= SizeOf(size) && 0 < SizeOf(size)
    ensures var left := SizeOf(size) - |data|;
            Decode(s, size + CRLF + data) ==
            Decoded(s.(headerBytes := 0, remaining := left, phase := if left == 0 then ChunkCr else ChunkBody), data)
  {
    hide Decode, LineText, IsNumber, Value;
    FeedSize(s, size, SizeOf(size));
    var t := s.(headerBytes := 0, remaining := SizeOf(size), phase := ChunkBody);
    DecodeAppend(s, size + CRLF, data);
    if data == [] {
      DecodeNothing(t);
    } else {
      FeedCounted(t, data);
    }
    assert [] + data == data;
  }

  lemma ReadDelimiter(s: Stream, c: Chunk, cr: bool)
    requires AtLine(s, |c.size| + 2) && s.phase == ChunkSize && ChunkOk(c)
    ensures Decode(s, TailBytes(InDelimiter(c, cr))) ==
            Decoded(s.(headerBytes := 0, remaining := 0, phase := if cr then ChunkLf else ChunkCr), c.data)
  {
    ReadChunkPart(s, c.size, c.data);
    hide Decode, ChunkOk;
    var b, t := c.size + CRLF + c.data, s.(headerBytes := 0, remaining := 0, phase := ChunkCr);
    if cr {
      DecodeOne(t, CR);
      DecodeAppend(s, b, [CR]);
    } else {
      assert b + [] == b;
    }
  }

  lemma ReadTrailers(s: Stream, last: seq<byte>, trailers: seq<seq<byte>>)
    requires AtLine(s, |last| + 2 + |Lines(trailers)|) && s.phase == ChunkSize && SizeText(last, 0) && AllTrailers(trailers)
    ensures Decode(s, last + CRLF + Lines(trailers)) ==
            Decoded(s.(headerBytes := s.headerBytes + |last| + 2 + |Lines(trailers)|, remaining := 0, phase := HttpStream.Trailers), [])
  {
    hide Decode, SizeText, TrailerOk;
    FeedSize(s, last, 0);
    FeedTrailers(s.(remaining := 0, phase := HttpStream.Trailers, headerBytes := s.headerBytes + |last| + 2), trailers);
    DecodeAppend(s, last + CRLF, Lines(trailers));
  }

  lemma ReadEnd(s: Stream, last: seq<byte>, trailers: seq<seq<byte>>)
    requires AtLine(s, TailLength(last, trailers)) && s.phase == ChunkSize && SizeText(last, 0) && AllTrailers(trailers)
    ensures Decode(s, last + CRLF + Lines(trailers) + CRLF) ==
            Decoded(s.(headerBytes := s.headerBytes + TailLength(last, trailers), remaining := 0, phase := HttpStream.Trailers,
                       done := true), [])
  {
    hide Decode, SizeText, TrailerOk, AfterLine;
    ReadTrailers(s, last, trailers);
    var a := last + CRLF + Lines(trailers);
    var u := s.(headerBytes := s.headerBytes + |a|, remaining := 0, phase := HttpStream.Trailers);
    FeedLine(u, []);
    LastLine(u);
    assert [] + CRLF == CRLF;
    DecodeAppend(s, a, CRLF);
  }

  lemma LastLine(s: Stream)
    requires s.phase == HttpStream.Trailers && s.line == []
    ensures AfterLine(s, []) == s.(headerBytes := s.headerBytes + 2, done := true)
  {
  }

  lemma ReadTrailersText(s: Stream, last: seq<byte>, trailers: seq<seq<byte>>, text: seq<byte>)
    requires AtLine(s, |last| + 2 + |Lines(trailers)| + |text|) && s.phase == ChunkSize
    requires SizeText(last, 0) && AllTrailers(trailers) && TextFits(text)
    ensures var b := last + CRLF + Lines(trailers) + text;
            Decode(s, b) ==
            Decoded(s.(headerBytes := s.headerBytes + |b|, remaining := 0, phase := HttpStream.Trailers, line := text), [])
  {
    hide Decode, SizeText, TrailerOk, TextFits;
    ReadTrailers(s, last, trailers);
    var a := last + CRLF + Lines(trailers);
    ReadText(s.(headerBytes := s.headerBytes + |a|, remaining := 0, phase := HttpStream.Trailers), text);
    DecodeAppend(s, a, text);
  }

  /** The part of a chunked body that is not whole chunks. */
  lemma ReadTail(s: Stream, t: Tail)
    requires s.Active() && s.phase == ChunkSize && s.line == [] && s.remaining == 0 && TailLegal(t)
    requires s.headerBytes + TailCount(t) <= 8192 && s.headerBytes + FirstSize([], t) <= 8192
    ensures Decode(s, TailBytes(t)) ==
            Decoded(TailState(s.(headerBytes := if FirstSize([], t) == 0 then s.headerBytes + TailCount(t) else 0), t), TailContent(t))
  {
    hide Decode, AllTrailers, TextFits, LineText, IsNumber, SizeText, Value, Lines;
    match t
    case InSize(text) => ReadText(s, text);
    case InChunk(size, data) => ReadChunkPart(s, size, data);
    case InDelimiter(c, cr) => ReadDelimiter(s, c, cr);
    case InTrailers(last, trailers, text) => ReadTrailersText(s, last, trailers, text);
    case Finished(last, trailers) => ReadEnd(s, last, trailers);
  }

  /** A chunked body. */
  lemma ReadChunked(s: Stream, cs: seq<Chunk>, t: Tail)
    requires s.Active() && s.phase == ChunkSize && s.line == [] && s.remaining == 0 && AllChunks(cs) && TailLegal(t)
    requires s.headerBytes + FirstSize(cs, t) <= 8192 && (if FirstSize(cs, t) == 0 then s.headerBytes else 0) + TailCount(t) <= 8192
    ensures var n := (if FirstSize(cs, t) == 0 then s.headerBytes else 0) + TailCount(t);
            Decode(s, PartBytes(Chunked(cs, t))) == Decoded(TailState(s.(headerBytes := n), t), BodyOf(cs) + TailContent(t))
  {
    hide Decode, TailState, TailLegal, TailBytes, TailContent, TailCount, AllChunks, ChunkOk;
    ChunksOf(cs);
    FeedChunks(s, cs);
    hide BodyOf, EncodeChunks;
    var u := if cs == [] then s else s.(headerBytes := 0, remaining := 0);
    ShortSizes(t);
    DataCounts(t);
    ReadTail(u, t);
    DecodeAppend(s, EncodeChunks(cs), TailBytes(t));
  }

  /** Nothing is counted of a chunk being read or just read. */
  lemma DataCounts(t: Tail)
    ensures FirstSize([], t) != 0 ==> TailCount(t) == 0
  {
    hide TailBytes;
  }

  lemma ChunksOf(cs: seq<Chunk>)
    requires AllChunks(cs)
    ensures forall i :: 0 <= i < |cs| ==> ChunkOk(cs[i])
  {
    hide ChunkOk;
  }

  lemma ShortSizes(t: Tail)
    requires TailLegal(t)
    ensures FirstSize([], t) <= 1025
  {
    hide IsNumber, Value;
  }

  predicate PartBounded(bytes: nat, p: Part) {
    var first := if p.Chunked? then FirstSize(p.cs, p.tail) else 0;
    bytes + first <= 8192 && PartCount(bytes, p) <= 8192
  }

  function PartCount(bytes: nat, p: Part): nat {
    if !p.Chunked? then bytes else (if FirstSize(p.cs, p.tail) == 0 then bytes else 0) + TailCount(p.tail)
  }

  lemma ReadPart(h: Section, bytes: nat, p: Part)
    requires SectionFits(h) && Unambiguous(h) && !Passing(h) && PartLegal(h, p) && PartBounded(bytes, p)
    ensures Decode(Begun(h, bytes), PartBytes(p)) == Decoded(PartState(h, PartCount(bytes, p), p), PartContent(p))
  {
    hide Decode, Values, LineText, StatusLineOk, FieldsFit, Code, TailState, TailLegal, TailBytes, TailContent, AllChunks, TailCount, FirstSize;
    var s := Begun(h, bytes);
    match p
    case Bodiless => DecodeNothing(s);
    case Counted(data) =>
      if data == [] {
        DecodeNothing(s);
      } else {
        FeedCounted(s, data);
      }
    case ToClose(data) => FeedToClose(s, data);
    case Chunked(cs, tail) =>
      ReadChunked(s, cs, tail);
      assert Past(h, PartCount(bytes, p)) == s.(headerBytes := PartCount(bytes, p));
  }

  /** Every legal reading is taken: the decoder has emitted its body and is in its state. */
  lemma LegalIsTaken(r: Reading)
    requires Legal(r)
    ensures Decode(START, Wire(r)) == Decoded(StateOf(r), Content(r))
  {
    hide Decode, Among, SectionFits, Interims, TextFits, PartLegal, Sections, Opened, PartBytes, PartContent, Begun, PartState, EmptyLine;
    match r
    case InStatus(ms, text) =>
      ReadSections(ms);
      ReadText(Fresh(LastCode(ms), |Sections(ms)|), text);
      DecodeAppend(START, Sections(ms), text);
    case InFields(ms, h, text) =>
      ReadSections(ms);
      FitsHasCode(h);
      var a := Sections(ms) + Opened(h);
      ReadOpened(h, LastCode(ms), |Sections(ms)|);
      DecodeAppend(START, Sections(ms), Opened(h));
      AmongIsAtLine(Code(h.status), h.fields, |a|);
      AmongWith(Code(h.status), h.fields, |a|, |text|);
      ReadText(Among(Code(h.status), h.fields, |a|), text);
      DecodeAppend(START, a, text);
    case InBody(ms, h, part) =>
      var n := |HeadBytes(ms, h)|;
      ReadHead(ms, h);
      LegalEnds(h, part);
      FinalSection(h, n);
      ReadPart(h, n, part);
      DecodeAppend(START, HeadBytes(ms, h), PartBytes(part));
      assert [] + PartContent(part) == PartContent(part);
  }

  lemma AmongWith(status: nat, fields: seq<seq<byte>>, bytes: nat, more: nat)
    ensures Among(status, fields, bytes + more) == Among(status, fields, bytes).(headerBytes := bytes + more)
  {
    hide Values;
  }

  lemma LegalEnds(h: Section, p: Part)
    requires SectionFits(h) && PartLegal(h, p)
    ensures Ends(h)
  {
  }

  // ---------------------------------------------------------------- nothing else is taken

  predicate Goes(s: Stream, c: byte) { Step(s, c).error == NoError }

  lemma TextGrows(s: Stream, c: byte)
    requires s.Active() && LinePhase(s.phase) && TextFits(s.line) && c != LF && Goes(s, c)
    ensures TextFits(s.line + [c]) && s.headerBytes < 8192
  {
    hide EndOfLine;
  }

  /** A line feed ends a line only after a carriage return, the only one in it. */
  lemma LineEnds(s: Stream) returns (m: seq<byte>)
    requires s.Active() && LinePhase(s.phase) && TextFits(s.line) && |s.line| <= s.headerBytes && Goes(s, LF)
    ensures s.line == m + [CR] && LineText(m) && s.headerBytes < 8192
    ensures Step(s, LF) == AfterLine(s.(line := [], headerBytes := s.headerBytes - |s.line|), m)
  {
    LastIsCr(s);
    m := s.line[..|s.line| - 1];
    hide Step, AfterLine, Goes, TextFits, LineText;
    assert s.line == m + [CR];
    LastLineText(m);
    var t := s.(line := [], headerBytes := s.headerBytes - |s.line|);
    assert s == t.(headerBytes := t.headerBytes + |m| + 1, line := m + [CR]);
    EndStep(t, m);
  }

  lemma LastLineText(m: seq<byte>)
    requires TextFits(m + [CR]) && CR !in m
    ensures LineText(m)
  {
    assert forall i :: 0 <= i < |m| ==> m[i] == (m + [CR])[i] && m[i] in m;
  }

  lemma LastIsCr(s: Stream)
    requires s.Active() && LinePhase(s.phase) && Goes(s, LF)
    ensures var n := |s.line|; n > 0 && s.line[n - 1] == CR && CR !in s.line[..n - 1] && s.headerBytes < 8192
  {
    hide Line;
  }

  lemma StatusTaken(m: seq<byte>, status: nat, bytes: nat)
    requires AfterLine(Fresh(status, bytes), m).error == NoError
    ensures StatusLineOk(m)
  {
    hide StatusLineOk;
  }

  /** In a status line. */
  lemma GrowStatus(ms: seq<Section>, text: seq<byte>, c: byte) returns (r: Reading)
    requires var r := InStatus(ms, text); Legal(r) && Goes(StateOf(r), c)
    ensures Legal(r) && Wire(r) == Wire(InStatus(ms, text)) + [c]
  {
    hide Goes, Interims, Sections, AfterLine, StatusLineOk, LineText, TextFits, Step;
    var s := StateOf(InStatus(ms, text));
    if c == LF {
      var m := LineEnds(s);
      StatusTaken(m, LastCode(ms), |Sections(ms)|) by {
        assert Fresh(LastCode(ms), |Sections(ms)|) == s.(line := [], headerBytes := s.headerBytes - |s.line|);
        Gone(s, LF);
      }
      NoFields();
      NoText();
      r := InFields(ms, Section(m, []), []);
      assert Opened(r.h) == m + CRLF;
      assert Sections(ms) + (m + CRLF) + [] == Sections(ms) + (m + [CR]) + [LF];
    } else {
      TextGrows(s, c);
      r := InStatus(ms, text + [c]);
      assert Sections(ms) + (text + [c]) == Sections(ms) + text + [c];
    }
  }

  lemma Gone(s: Stream, c: byte)
    requires Goes(s, c)
    ensures Step(s, c).error == NoError
  {
  }

  lemma NoFields()
    ensures FieldsFit([])
  {
  }

  lemma NoText()
    ensures TextFits([])
  {
  }

  /** Among header fields, but at the end of the section. */
  lemma GrowFields(ms: seq<Section>, h: Section, text: seq<byte>, c: byte) returns (r: Reading)
    requires var r := InFields(ms, h, text); Legal(r) && Goes(StateOf(r), c) && !(c == LF && text == [CR])
    ensures Legal(r) && Wire(r) == Wire(InFields(ms, h, text)) + [c]
  {
    hide Goes, Interims, Sections, AfterLine, StatusLineOk, LineText, TextFits, FieldsFit, Code, Among, Lines, Step;
    var s, n := StateOf(InFields(ms, h, text)), |Sections(ms) + Opened(h)|;
    AmongIsAtLine(Code(h.status), h.fields, n + |text|);
    if c == LF {
      var m := LineEnds(s);
      AmongWith(Code(h.status), h.fields, n, |text|);
      AmongIsAtLine(Code(h.status), h.fields, n);
      Gone(s, LF);
      assert s.(line := [], headerBytes := n) == Among(Code(h.status), h.fields, n);
      assert [] + [CR] == [CR];
      FieldStep(Code(h.status), h.fields, n, m);
      NoText();
      LinesNextBytes(h.fields, m);
      r := InFields(ms, h.(fields := h.fields + [m]), []);
      assert Opened(r.h) == Opened(h) + (m + CRLF);
      assert Sections(ms) + (Opened(h) + (m + CRLF)) + [] == Sections(ms) + Opened(h) + (m + [CR]) + [LF];
    } else {
      TextGrows(s, c);
      r := InFields(ms, h, text + [c]);
      assert Sections(ms) + Opened(h) + (text + [c]) == Sections(ms) + Opened(h) + text + [c];
    }
  }

  /** The part a final section begins with. */
  function FirstPart(h: Section): Part
    requires SectionFits(h)
  {
    if Redirects(h) || Code(h.status) == 204 || (Lengths(h.fields) != [] && Length(h.fields) == 0) then Bodiless
    else if Codings(h.fields) != [] then Chunked([], InSize([]))
    else if Lengths(h.fields) != [] then Counted([])
    else ToClose([])
  }

  lemma InterimsNext(ms: seq<Section>, h: Section)
    requires Interims(ms) && SectionFits(h) && Unambiguous(h) && Passing(h)
    ensures Interims(ms + [h]) && Sections(ms + [h]) == Sections(ms) + (Opened(h) + CRLF)
  {
    hide SectionFits, Unambiguous, Passing, Opened;
    var all := ms + [h];
    assert forall i :: 0 <= i < |all| ==> all[i] == h || (i < |ms| && all[i] == ms[i]);
    assert all[..|ms|] == ms;
  }

  predicate Ends(h: Section)
    requires SectionFits(h)
  {
    Code(h.status) == 200 || Code(h.status) == 204 || (Redirects(h) && Location(h.fields) != [])
  }

  lemma FirstPartLegal(h: Section)
    requires SectionFits(h) && Unambiguous(h) && Ends(h)
    ensures var p := FirstPart(h); PartLegal(h, p) && (p.Chunked? ==> p == Chunked([], InSize([])))
    ensures PartBytes(FirstPart(h)) == []
  {
    hide Values, StatusLineOk, Code, LineText, FieldsFit;
  }

  lemma BeginBody(ms: seq<Section>, h: Section) returns (r: Reading)
    requires Interims(ms) && SectionFits(h) && Unambiguous(h) && !Passing(h) && Ends(h) && |HeadBytes(ms, h)| <= 8192
    ensures Legal(r) && Wire(r) == HeadBytes(ms, h)
  {
    hide HeadBytes, Interims, SectionFits, Code, Unambiguous, Passing, Ends, PartLegal, PartBytes, FirstPart;
    FirstPartLegal(h);
    r := InBody(ms, h, FirstPart(h));
    assert HeadBytes(ms, h) + [] == HeadBytes(ms, h);
  }

  lemma PassOver(ms: seq<Section>, h: Section) returns (r: Reading)
    requires Interims(ms) && SectionFits(h) && Unambiguous(h) && Passing(h) && |HeadBytes(ms, h)| <= 8192
    ensures Legal(r) && Wire(r) == HeadBytes(ms, h)
  {
    r := InStatus(ms + [h], []);
    hide Interims, SectionFits, Unambiguous, Passing, Opened, Sections, TextFits;
    InterimsNext(ms, h);
    NoText();
    assert HeadBytes(ms, h) == Sections(ms) + (Opened(h) + CRLF);
    assert Sections(ms + [h]) + [] == Sections(ms + [h]);
  }

  lemma HeadEnds(ms: seq<Section>, h: Section)
    ensures Wire(InFields(ms, h, [CR])) + [LF] == HeadBytes(ms, h)
    ensures |HeadBytes(ms, h)| == |Sections(ms) + Opened(h)| + 2
    ensures Legal(InFields(ms, h, [CR])) ==> Interims(ms) && SectionFits(h)
  {
    hide Opened, Sections;
  }

  lemma OnlyCr()
    ensures TextFits([CR])
  {
  }

  lemma SectionTaken(status: nat, fields: seq<seq<byte>>, bytes: nat)
    requires bytes < 8192 && Goes(Among(status, fields, bytes + 1).(line := [CR]), LF)
    ensures bytes + 2 <= 8192 && EmptyLine(Among(status, fields, bytes + 2)).error == NoError
  {
    hide Goes, AfterLine, Among, EmptyLine, Step, TextFits, LineText;
    var s, t := Among(status, fields, bytes + 1).(line := [CR]), Among(status, fields, bytes);
    AmongIsAtLine(status, fields, bytes + 1);
    AmongIsAtLine(status, fields, bytes);
    OnlyCr();
    var m := LineEnds(s);
    assert |m| == 0;
    AmongWith(status, fields, bytes, 1);
    assert s.(line := [], headerBytes := bytes) == t;
    Gone(s, LF);
    EmptyLineEnds(t);
    AmongCounts(status, fields, bytes);
  }

  lemma FieldsState(ms: seq<Section>, h: Section)
    requires Legal(InFields(ms, h, [CR]))
    ensures SectionFits(h) && |Sections(ms) + Opened(h)| < 8192
    ensures StateOf(InFields(ms, h, [CR])) ==
            Among(Code(h.status), h.fields, |Sections(ms) + Opened(h)| + 1).(line := [CR])
  {
    FitsHasCode(h);
    hide Among, Interims, SectionFits, Code, Opened, Sections, TextFits, PartState, PartLegal, Unambiguous, Passing, Fresh, LastCode, HeadBytes, TailCount, FirstSize;
    assert |Sections(ms) + Opened(h) + [CR]| == |Sections(ms) + Opened(h)| + 1;
  }

  lemma SectionGoes(ms: seq<Section>, h: Section)
    requires var r := InFields(ms, h, [CR]); Legal(r) && Goes(StateOf(r), LF)
    ensures Interims(ms) && SectionFits(h) && Unambiguous(h) && (Passing(h) || Ends(h)) && |HeadBytes(ms, h)| <= 8192
  {
    var n := |Sections(ms) + Opened(h)|;
    HeadEnds(ms, h);
    FieldsState(ms, h);
    FitsHasCode(h);
    hide *;
    SectionTaken(Code(h.status), h.fields, n);
    FinalSection(h, n + 2);
  }

  /** The end of a header section. */
  lemma GrowSection(ms: seq<Section>, h: Section) returns (r: Reading)
    requires var r := InFields(ms, h, [CR]); Legal(r) && Goes(StateOf(r), LF)
    ensures Legal(r) && Wire(r) == Wire(InFields(ms, h, [CR])) + [LF]
  {
    SectionGoes(ms, h);
    HeadEnds(ms, h);
    hide *;
    if Passing(h) {
      r := PassOver(ms, h);
    } else {
      r := BeginBody(ms, h);
    }
  }

  /** The decoder in a chunked body, its metadata counted. */
  predicate AmongChunks(s: Stream, head: nat, cs: seq<Chunk>, t: Tail) {
    && s.Active() && s.phase == ChunkSize && s.line == [] && s.remaining == 0
    && AllChunks(cs) && TailLegal(t) && PartBounded(head, Chunked(cs, t)) && s.headerBytes == PartCount(head, Chunked(cs, t))
  }

  /** One more byte of a chunked body: again whole chunks and a legal tail. */
  predicate Grown(head: nat, cs: seq<Chunk>, t: Tail, c: byte, p: Part) {
    && p.Chunked? && AllChunks(p.cs) && TailLegal(p.tail) && PartBounded(head, p)
    && PartBytes(p) == PartBytes(Chunked(cs, t)) + [c]
  }

  lemma SizeTaken(s: Stream, m: seq<byte>)
    requires s.phase == ChunkSize && AfterLine(s, m).error == NoError
    ensures IsNumber(m, 16)
  {
    hide IsNumber, Scanned;
  }

  lemma NoTrailers()
    ensures AllTrailers([])
  {
  }

  lemma GrowSize(s: Stream, head: nat, cs: seq<Chunk>, text: seq<byte>, c: byte) returns (p: Part)
    requires AmongChunks(s, head, cs, InSize(text)) && Goes(TailState(s, InSize(text)), c)
    ensures Grown(head, cs, InSize(text), c, p)
  {
    hide Goes, AllChunks, AfterLine, LineText, TextFits, IsNumber, Value, Step, EncodeChunks, AllTrailers;
    var u := s.(line := text);
    if c == LF {
      var m := LineEnds(u);
      Gone(u, LF);
      SizeTaken(u.(line := [], headerBytes := u.headerBytes - |text|), m);
      NoText();
      NoTrailers();
      p := Chunked(cs, if SizeOf(m) != 0 then InChunk(m, []) else InTrailers(m, [], []));
      assert TailBytes(p.tail) == m + CRLF == text + [LF];
      assert EncodeChunks(cs) + (text + [LF]) == EncodeChunks(cs) + text + [LF];
    } else {
      TextGrows(u, c);
      p := Chunked(cs, InSize(text + [c]));
      assert EncodeChunks(cs) + (text + [c]) == EncodeChunks(cs) + text + [c];
    }
  }

  lemma GrowChunk(s: Stream, head: nat, cs: seq<Chunk>, size: seq<byte>, data: seq<byte>, c: byte) returns (p: Part)
    requires AmongChunks(s, head, cs, InChunk(size, data))
    ensures Grown(head, cs, InChunk(size, data), c, p)
  {
    hide AllChunks, LineText, IsNumber, Value, EncodeChunks;
    var d := data + [c];
    p := Chunked(cs, if |d| == SizeOf(size) then InDelimiter(Chunk(size, d), false) else InChunk(size, d));
    assert TailBytes(p.tail) == size + CRLF + data + [c];
    assert EncodeChunks(cs) + (size + CRLF + data + [c]) == EncodeChunks(cs) + (size + CRLF + data) + [c];
  }

  lemma {:induction false} ChunksNextBytes(cs: seq<Chunk>, c: Chunk)
    ensures EncodeChunks(cs + [c]) == EncodeChunks(cs) + EncodeChunk(c)
    decreases |cs|
  {
    hide EncodeChunk;
    if cs == [] {
      assert cs + [c] == [c] && [c][1..] == [];
    } else {
      assert (cs + [c])[1..] == cs[1..] + [c];
      ChunksNextBytes(cs[1..], c);
    }
  }

  lemma ChunksNext(cs: seq<Chunk>, c: Chunk)
    requires AllChunks(cs) && ChunkOk(c)
    ensures AllChunks(cs + [c])
  {
    hide ChunkOk;
  }

  lemma DelimiterTaken(s: Stream, c: byte)
    requires (s.phase == ChunkCr || s.phase == ChunkLf) && Goes(s, c)
    ensures c == if s.phase == ChunkCr then 13 else 10
  {
  }

  lemma GrowCr(head: nat, cs: seq<Chunk>, k: Chunk) returns (p: Part)
    requires AllChunks(cs) && ChunkOk(k) && PartBounded(head, Chunked(cs, InDelimiter(k, false)))
    ensures Grown(head, cs, InDelimiter(k, false), CR, p)
  {
    hide AllChunks, ChunkOk, EncodeChunks;
    p := Chunked(cs, InDelimiter(k, true));
    assert TailBytes(p.tail) == TailBytes(InDelimiter(k, false)) + [CR];
    assert EncodeChunks(cs) + (TailBytes(InDelimiter(k, false)) + [CR]) == EncodeChunks(cs) + TailBytes(InDelimiter(k, false)) + [CR];
  }

  lemma GrowLf(head: nat, cs: seq<Chunk>, k: Chunk) returns (p: Part)
    requires AllChunks(cs) && ChunkOk(k) && PartBounded(head, Chunked(cs, InDelimiter(k, true)))
    ensures Grown(head, cs, InDelimiter(k, true), LF, p)
  {
    hide AllChunks, ChunkOk, EncodeChunks, TextFits;
    ChunksNextBytes(cs, k);
    ChunksNext(cs, k);
    NoText();
    p := Chunked(cs + [k], InSize([]));
    assert EncodeChunk(k) == TailBytes(InDelimiter(k, true)) + [LF];
    hide EncodeChunk;
    assert EncodeChunks(cs) + (TailBytes(InDelimiter(k, true)) + [LF]) + [] == EncodeChunks(cs) + TailBytes(InDelimiter(k, true)) + [LF];
  }

  lemma GrowDelimiter(s: Stream, head: nat, cs: seq<Chunk>, k: Chunk, cr: bool, c: byte) returns (p: Part)
    requires AmongChunks(s, head, cs, InDelimiter(k, cr)) && Goes(TailState(s, InDelimiter(k, cr)), c)
    ensures Grown(head, cs, InDelimiter(k, cr), c, p)
  {
    DelimiterTaken(TailState(s, InDelimiter(k, cr)), c);
    hide Goes, AllChunks, ChunkOk, PartBounded, Grown;
    if cr {
      p := GrowLf(head, cs, k);
    } else {
      p := GrowCr(head, cs, k);
    }
  }

  lemma TrailerTaken(s: Stream, m: seq<byte>)
    requires s.phase == HttpStream.Trailers && m != [] && LineText(m) && AfterLine(s, m).error == NoError
    ensures TrailerOk(m)
  {
    hide LineText, FieldName, FieldValue, HeaderField, TokenChar;
  }

  lemma TrailersNext(ls: seq<seq<byte>>, l: seq<byte>)
    requires AllTrailers(ls) && TrailerOk(l)
    ensures AllTrailers(ls + [l])
  {
    hide TrailerOk;
  }

  lemma GrowTrailers(s: Stream, head: nat, cs: seq<Chunk>, last: seq<byte>, ls: seq<seq<byte>>, text: seq<byte>, c: byte) returns (p: Part)
    requires AmongChunks(s, head, cs, InTrailers(last, ls, text)) && Goes(TailState(s, InTrailers(last, ls, text)), c)
    ensures Grown(head, cs, InTrailers(last, ls, text), c, p)
  {
    hide Goes, AllChunks, AfterLine, LineText, TextFits, SizeText, Step, EncodeChunks, AllTrailers, Lines;
    var u := TailState(s, InTrailers(last, ls, text));
    var b := last + CRLF + Lines(ls);
    if c == LF {
      var m := LineEnds(u);
      Gone(u, LF);
      NoText();
      if m == [] {
        p := Chunked(cs, Finished(last, ls));
        assert TailBytes(p.tail) == b + text + [LF];
      } else {
        TrailerTaken(u.(line := [], headerBytes := u.headerBytes - |text|), m);
        TrailersNext(ls, m);
        LinesNextBytes(ls, m);
        p := Chunked(cs, InTrailers(last, ls + [m], []));
        assert TailBytes(p.tail) == b + text + [LF];
      }
    } else {
      TextGrows(u, c);
      p := Chunked(cs, InTrailers(last, ls, text + [c]));
      assert TailBytes(p.tail) == b + text + [c];
    }
    assert EncodeChunks(cs) + (b + text + [c]) == EncodeChunks(cs) + (b + text) + [c];
  }

  /** One more byte of a body. */
  lemma GrowBody(ms: seq<Section>, h: Section, part: Part, c: byte) returns (r: Reading)
    requires var r := InBody(ms, h, part); Legal(r) && StateOf(r).Active() && Goes(StateOf(r), c)
    ensures Legal(r) && Wire(r) == Wire(InBody(ms, h, part)) + [c]
  {
    hide Goes, Interims, SectionFits, Code, HeadBytes, AllChunks, TailLegal, TailBytes, TailCount, FirstSize, TailState, Values, Passing, Redirects, EncodeChunks, Step;
    var head := |HeadBytes(ms, h)|;
    var p := part;
    match part {
      case Bodiless => assert false;
      case Counted(data) => p := Counted(data + [c]);
      case ToClose(data) => p := ToClose(data + [c]);
      case Chunked(cs, tail) =>
        var s := Past(h, PartCount(head, part));
        match tail {
          case InSize(text) => p := GrowSize(s, head, cs, text, c);
          case InChunk(size, data) => p := GrowChunk(s, head, cs, size, data, c);
          case InDelimiter(k, cr) => p := GrowDelimiter(s, head, cs, k, cr, c);
          case InTrailers(last, ls, text) => p := GrowTrailers(s, head, cs, last, ls, text, c);
          case Finished(_, _) => FinishedIsDone(s, tail);
        }
    }
    r := InBody(ms, h, p);
    assert HeadBytes(ms, h) + (PartBytes(part) + [c]) == HeadBytes(ms, h) + PartBytes(part) + [c];
  }

  lemma FinishedIsDone(s: Stream, t: Tail)
    requires t.Finished? && TailLegal(t)
    ensures !TailState(s, t).Active()
  {
  }

  /** Every byte taken was read. */
  predicate Taken(wire: seq<byte>) { wire == [] || Decode(START, wire[..|wire| - 1]).stream.Active() }

  /** Whatever is taken without an error is a legal reading. */
  lemma {:induction false} TakenIsLegal(wire: seq<byte>) returns (r: Reading)
    requires Taken(wire) && Decode(START, wire).stream.error == NoError
    ensures Legal(r) && Wire(r) == wire
    decreases |wire|
  {
    if wire == [] {
      NoText();
      r := InStatus([], []);
    } else {
      var w, c := wire[..|wire| - 1], wire[|wire| - 1];
      assert wire == w + [c];
      hide Decode, Legal, StateOf, Wire, Step;
      StillTaken(w);
      var q := TakenIsLegal(w);
      LegalIsTaken(q);
      DecodeAppend(START, w, [c]);
      DecodeOne(StateOf(q), c);
      r := Grow(q, c) by {
        WillGo(StateOf(q), c);
      }
    }
  }

  lemma WillGo(s: Stream, c: byte)
    requires Step(s, c).error == NoError
    ensures Goes(s, c)
  {
  }

  lemma Grow(q: Reading, c: byte) returns (r: Reading)
    requires Legal(q) && StateOf(q).Active() && Goes(StateOf(q), c)
    ensures Legal(r) && Wire(r) == Wire(q) + [c]
  {
    hide Legal, StateOf, Wire, Goes;
    match q
    case InStatus(ms, text) => r := GrowStatus(ms, text, c);
    case InFields(ms, h, text) =>
      if c == LF && text == [CR] {
        r := GrowSection(ms, h);
      } else {
        r := GrowFields(ms, h, text, c);
      }
    case InBody(ms, h, part) => r := GrowBody(ms, h, part, c);
  }

  lemma StillTaken(w: seq<byte>)
    requires Decode(START, w).stream.Active()
    ensures Taken(w)
  {
    if w != [] {
      var v := w[..|w| - 1];
      assert w == v + [w[|w| - 1]];
      DecodeAppend(START, v, [w[|w| - 1]]);
      if !Decode(START, v).stream.Active() {
        InactiveStays(Decode(START, v).stream, [w[|w| - 1]]);
      }
    }
  }

  // ---------------------------------------------------------------- the language

  /** The language of the decoder: a wire it reads to its end is accepted exactly when it
      is a legal reading; it is done exactly when that reading is a complete response;
      and what it has emitted is that reading's body. */
  lemma Language(wire: seq<byte>)
    requires Taken(wire)
    ensures var d := Decode(START, wire);
            && (d.stream.error == NoError <==> exists r :: Legal(r) && Wire(r) == wire)
            && (forall r :: Legal(r) && Wire(r) == wire ==>
                  d.emitted == Content(r) && (d.stream.done <==> Complete(r)) && d.stream == StateOf(r))
            && (Close(d.stream).done && Close(d.stream).error == NoError <==>
                exists r :: Legal(r) && Wire(r) == wire && (Complete(r) || (r.InBody? && r.part.ToClose?)))
  {
    hide Decode, Legal, Wire, Content, StateOf, Complete;
    forall r | Legal(r) && Wire(r) == wire
      ensures Decode(START, wire) == Decoded(StateOf(r), Content(r)) && StateOf(r).error == NoError
      ensures StateOf(r).done <==> Complete(r)
      ensures StateOf(r).phase == BodyClose && !StateOf(r).done <==> r.InBody? && r.part.ToClose?
    {
      LegalIsTaken(r);
      StateTells(r);
    }
    if Decode(START, wire).stream.error == NoError {
      var r := TakenIsLegal(wire);
    }
  }

  /** What the state tells of the reading. */
  lemma StateTells(r: Reading)
    requires Legal(r)
    ensures StateOf(r).error == NoError
    ensures StateOf(r).done <==> Complete(r)
    ensures StateOf(r).phase == BodyClose && !StateOf(r).done <==> r.InBody? && r.part.ToClose?
  {
    hide Values, LineText, StatusLineOk, FieldsFit, Code, TailLegal, AllChunks, TailBytes, Sections, Opened;
  }
}
