/** The language of the chat decoder: the wires it takes without an error are exactly the
    readings below, and what it has shown is the text of the events in the reading. */
module ChatLanguage {
  import opened Bytes
  import opened Options
  import opened ChatStream
  import Json
  import Http = HttpStream
  import Transcript = ChatTranscript

  // ---------------------------------------------------------------- lines

  function Front(b: seq<byte>): seq<byte>
    requires b != []
  {
    b[..|b| - 1]
  }

  function Back(b: seq<byte>): byte
    requires b != []
  {
    b[|b| - 1]
  }

  /** The complete lines of some bytes, each without its line feed. */
  function Cut(b: seq<byte>): seq<seq<byte>> {
    if b == [] then [] else if Back(b) == 10 then Cut(Front(b)) + [Rest(Front(b))] else Cut(Front(b))
  }

  /** The line not yet ended. */
  function Rest(b: seq<byte>): seq<byte> {
    if b == [] || Back(b) == 10 then [] else Rest(Front(b)) + [Back(b)]
  }

  /** A line without the carriage return before its line feed. */
  function Bare(l: seq<byte>): seq<byte> { if l != [] && Back(l) == 13 then Front(l) else l }

  predicate Held(l: seq<byte>) { |l| <= 4095 && 0 !in l }

  predicate AllHeld(ls: seq<seq<byte>>) { forall i :: 0 <= i < |ls| ==> Held(ls[i]) }

  lemma CutNext(b: seq<byte>, c: byte)
    ensures Cut(b + [c]) == if c == 10 then Cut(b) + [Rest(b)] else Cut(b)
    ensures Rest(b + [c]) == if c == 10 then [] else Rest(b) + [c]
  {
    assert Front(b + [c]) == b;
  }

  lemma HeldNext(l: seq<byte>, c: byte)
    requires Held(l)
    ensures Held(l + [c]) <==> |l| < 4095 && c != 0
  {
  }

  /** A byte of a line is kept while the line fits. */
  lemma TextTaken(s: Chat, b: seq<byte>, c: byte)
    requires s.error == NoError && s.line == Rest(b) && Held(Rest(b)) && c != 10
    ensures var t := LineByte(s, c);
            (t.error == NoError <==> Held(Rest(b + [c]))) && (t.error == NoError ==> t == s.(line := Rest(b + [c])))
  {
    CutNext(b, c);
    HeldNext(Rest(b), c);
    hide WholeLine, Held, Cut, Rest;
  }

  /** A line feed ends it. */
  lemma LineTaken(s: Chat, b: seq<byte>)
    requires s.line == Rest(b)
    ensures LineByte(s, 10) == WholeLine(s.(line := Bare(Rest(b)))).(line := [])
  {
    hide WholeLine, Rest;
    assert Stripped(s.line) == Bare(s.line);
  }

  // ---------------------------------------------------------------- the status line

  /** HTTP/1.0 or HTTP/1.1, one white space character, 200, and a reason after a space. */
  predicate StatusFits(l: seq<byte>) {
    && |l| >= 12 && l[..7] == Text("HTTP/1.") && (l[7] == '0' as int || l[7] == '1' as int)
    && (l[8] == 32 || 9 <= l[8] <= 13) && l[9..12] == Text("200") && (|l| > 12 ==> l[12] == 32)
  }

  lemma SpacesOne(s: seq<byte>)
    ensures Spaces(s) == 1 <==> s != [] && IsSpace(s[0]) && (|s| > 1 ==> !IsSpace(s[1]))
  {
    if s != [] {
      assert |s| > 1 ==> s[1..][0] == s[1];
    }
  }

  lemma {:induction false} DigitRunAt(s: seq<byte>, i: nat)
    requires i < DigitRun(s)
    ensures 48 <= s[i] <= 57
  {
    if i > 0 {
      DigitRunAt(s[1..], i - 1);
    }
  }

  lemma {:induction false} ShortValue(d: seq<byte>)
    requires |d| <= 2 && forall i :: 0 <= i < |d| ==> 48 <= d[i] <= 57
    ensures Http.Value(d, 10) <= 99 && (|d| <= 1 ==> Http.Value(d, 10) <= 9)
  {
    if d != [] {
      ShortValue(Front(d));
    }
  }

  lemma ThreeDigits(d: seq<byte>)
    requires |d| == 3 && forall i :: 0 <= i < |d| ==> 48 <= d[i] <= 57
    ensures Http.Value(d, 10) == (d[0] as int - 48) * 100 + (d[1] as int - 48) * 10 + (d[2] as int - 48)
  {
    assert d[..2] == [d[0], d[1]] && [d[0], d[1]][..1] == [d[0]] && [d[0]][..0] == [];
    Http.EmptyValue(10);
    assert Http.Value([d[0]], 10) == d[0] as int - 48;
    assert Http.Value([d[0], d[1]], 10) == (d[0] as int - 48) * 10 + (d[1] as int - 48);
  }

  lemma DigitsRun3(d: seq<byte>)
    requires |d| == 3 && forall i :: 0 <= i < |d| ==> 48 <= d[i] <= 57
    ensures DigitRun(d) == 3
  {
    assert d[1..] == [d[1], d[2]] && [d[1], d[2]][1..] == [d[2]] && [d[2]][1..] == [];
    assert DigitRun([d[2]]) == 1;
    assert DigitRun([d[1], d[2]]) == 2;
  }

  /** A status line is taken exactly when it fits. */
  lemma StatusExact(s: Chat)
    requires s.error == NoError && s.phase == StatusLine
    ensures Status(s).error == NoError <==> StatusFits(s.line)
    ensures StatusFits(s.line) ==> Status(s) == s.(status := 200, phase := Headers)
  {
    if StatusFits(s.line) {
      FitScans(s.line);
    } else if Status(s).error == NoError {
      ScanFits(s.line);
    }
    hide ScanStatus;
  }

  /** HTTP/1.0 or HTTP/1.1, one white space character, three digits, and a reason after a space. */
  predicate StatusShape(l: seq<byte>) {
    && |l| >= 12 && l[..7] == Text("HTTP/1.") && (l[7] == '0' as int || l[7] == '1' as int)
    && (l[8] == 32 || 9 <= l[8] <= 13) && (forall i :: 9 <= i < 12 ==> 48 <= l[i] <= 57) && (|l| > 12 ==> l[12] == 32)
  }

  function CodeOf(l: seq<byte>): int
    requires StatusShape(l)
  {
    (l[9] as int - 48) * 100 + (l[10] as int - 48) * 10 + (l[11] as int - 48)
  }

  lemma ShapeScans(l: seq<byte>)
    requires StatusShape(l)
    ensures CodeOf(l) >= 0 && ScanStatus(l) == Scanned(CodeOf(l), 12)
  {
    var d := l[9..12];
    assert d == [l[9], l[10], l[11]];
    assert l[8..][0] == l[8] && l[8..][1] == l[9];
    SpacesOne(l[8..]);
    DigitsRun3(d);
    ThreeDigits(d);
    assert d[..3] == d;
    hide Http.Value, DigitRun, Spaces, Text;
  }

  lemma FitScans(l: seq<byte>)
    requires StatusFits(l)
    ensures ScanStatus(l) == Scanned(200, 12)
  {
    assert l[9] == l[9..12][0] && l[10] == l[9..12][1] && l[11] == l[9..12][2];
    assert Text("200") == [50, 48, 48];
    ShapeScans(l);
    hide ScanStatus, Text;
  }

  /** What a status of three digits tells the user: 401 and 403 that the key is wrong, 429
      that the rate limit is exceeded, any other but 200 that the server failed. */
  lemma StatusTold(s: Chat)
    requires s.error == NoError && StatusShape(s.line)
    ensures var code := CodeOf(s.line);
            Status(s).error == if code == 200 then NoError
                               else if code == 401 || code == 403 then Unauthorized
                               else if code == 429 then RateLimited else StatusNot200
  {
    ShapeScans(s.line);
    hide ScanStatus, Text;
  }

  /** Three characters read as 200 only if they are its digits. */
  lemma ReadsTwoHundred(field: seq<byte>)
    requires |field| <= 3
    ensures var signed := field != [] && Json.IsSign(field[0]);
            var tail := if signed then field[1..] else field;
            var v := Http.Value(tail[..DigitRun(tail)], 10);
            (if signed && field[0] == Json.MINUS then (0x1_0000_0000 - v) % 0x1_0000_0000 else v) == 200 ==>
              !signed && field == [50, 48, 48]
  {
    var signed := field != [] && Json.IsSign(field[0]);
    var tail := if signed then field[1..] else field;
    var n := DigitRun(tail);
    var d := tail[..n];
    forall i | 0 <= i < n
      ensures 48 <= d[i] <= 57
    {
      DigitRunAt(tail, i);
    }
    hide Http.Value, DigitRun, Json.IsSign;
    if n <= 2 {
      ShortValue(d);
    } else {
      assert d == field;
      ThreeDigits(d);
      assert field == [field[0], field[1], field[2]];
    }
  }

  lemma ScanFits(l: seq<byte>)
    requires ScanStatus(l) == Scanned(200, 12) && (|l| > 12 ==> l[12] == 32)
    ensures StatusFits(l)
  {
    var at := 8 + Spaces(l[8..]);
    var field := l[at..if at + 3 <= |l| then at + 3 else |l|];
    ReadsTwoHundred(field);
    assert DigitRun([50, 48, 48]) == 3 by {
      DigitsRun3([50, 48, 48]);
    }
    hide Http.Value, DigitRun, Spaces;
    SpacesOne(l[8..]);
    assert Text("200") == [50, 48, 48];
    hide Text;
    assert at == 9 && l[9..12] == field;
  }

  // ---------------------------------------------------------------- lengths

  predicate AllDecimal(v: seq<byte>) { forall i :: 0 <= i < |v| ==> 48 <= v[i] <= 57 }

  /** A length: decimal digits, below the largest 32-bit number that the guard admits. */
  predicate LengthFits(v: seq<byte>) { v != [] && AllDecimal(v) && Http.Value(v, 10) <= 4294967289 }

  lemma DecimalNext(p: seq<byte>, c: byte)
    requires 48 <= c <= 57
    ensures Http.Value(p + [c], 10) == Http.Value(p, 10) * 10 + (c - 48)
  {
    assert Front(p + [c]) == p;
  }

  lemma {:induction false} LengthExact(p: seq<byte>, v: seq<byte>)
    ensures var n := ReadLength(v, Http.Value(p, 10));
            && (n.Length? <==> v == [] || (AllDecimal(v) && Http.Value(p + v, 10) <= 4294967289))
            && (n.Length? ==> n.n == Http.Value(p + v, 10))
    decreases |v|
  {
    hide Http.Value;
    if v == [] {
      assert p + v == p;
    } else if 48 <= v[0] <= 57 {
      var q := p + [v[0]];
      DecimalNext(p, v[0]);
      assert q + v[1..] == p + v;
      LengthExact(q, v[1..]);
      assert (p + v)[..|q|] == q;
      Http.ValueGrows(p + v, 10, |q|);
      if v[1..] == [] {
        assert v == [v[0]];
      }
      assert AllDecimal(v) <==> AllDecimal(v[1..]) by {
        assert forall i :: 0 < i < |v| ==> v[i] == v[1..][i - 1];
      }
    }
  }

  // ---------------------------------------------------------------- header fields

  predicate HasColon(l: seq<byte>) { Http.Find(l, 58) < |l| }

  function NameOf(l: seq<byte>): seq<byte> { l[..Http.Find(l, 58)] }

  function ValueOf(l: seq<byte>): seq<byte>
    requires HasColon(l)
  {
    Http.TrimBlanks(Http.SkipBlanks(l[Http.Find(l, 58) + 1..]))
  }

  /** The values of the fields of one name, in order. */
  function Values(fields: seq<seq<byte>>, name: seq<byte>): seq<seq<byte>> {
    if fields == [] then []
    else
      var l := Bare(fields[|fields| - 1]);
      Values(fields[..|fields| - 1], name) + (if HasColon(l) && Http.SameName(NameOf(l), name) then [ValueOf(l)] else [])
  }

  function Lengths(fields: seq<seq<byte>>): seq<seq<byte>> { Values(fields, Text("Content-Length")) }

  function Codings(fields: seq<seq<byte>>): seq<seq<byte>> { Values(fields, Text("Transfer-Encoding")) }

  function Encodings(fields: seq<seq<byte>>): seq<seq<byte>> { Values(fields, Text("Content-Encoding")) }

  function Types(fields: seq<seq<byte>>): seq<seq<byte>> { Values(fields, Text("Content-Type")) }

  predicate AllFields(fields: seq<seq<byte>>) {
    forall i :: 0 <= i < |fields| ==> Held(fields[i]) && HasColon(Bare(fields[i]))
  }

  predicate NotCompressed(vs: seq<seq<byte>>) { forall i :: 0 <= i < |vs| ==> Http.SameName(vs[i], Text("identity")) }

  /** At most one framing field in all: one length that fits, or one chunked coding; and
      no compression. */
  predicate FieldsFit(fields: seq<seq<byte>>) {
    && AllFields(fields) && |Lengths(fields)| + |Codings(fields)| <= 1
    && (Lengths(fields) != [] ==> LengthFits(Lengths(fields)[0]))
    && (Codings(fields) != [] ==> Http.SameName(Codings(fields)[0], Text("chunked")))
    && NotCompressed(Encodings(fields))
  }

  function Length(fields: seq<seq<byte>>): nat {
    if Lengths(fields) == [] then 0 else Http.Value(Lengths(fields)[0], 10)
  }

  /** The last content type decides, its parameters aside. */
  predicate EventType(fields: seq<seq<byte>>) { Types(fields) != [] && IsEventType(Types(fields)[|Types(fields)| - 1]) }

  predicate IsEventType(v: seq<byte>) { Http.SameName(v[..Http.Find(v, 59)], Text("text/event-stream")) }

  /** What the fields have told the decoder. */
  function Told(s: Chat, fields: seq<seq<byte>>): Chat {
    s.(remaining := Length(fields), haveLength := Lengths(fields) != [], chunked := Codings(fields) != [],
       eventStream := EventType(fields))
  }

  lemma ValuesNext(fields: seq<seq<byte>>, l: seq<byte>, name: seq<byte>)
    requires HasColon(Bare(l))
    ensures Values(fields + [l], name) ==
            if Http.SameName(NameOf(Bare(l)), name) then Values(fields, name) + [ValueOf(Bare(l))] else Values(fields, name)
  {
    assert (fields + [l])[..|fields|] == fields;
  }

  lemma ListsNext(fields: seq<seq<byte>>, l: seq<byte>)
    requires HasColon(Bare(l))
    ensures var name, v, fs := NameOf(Bare(l)), ValueOf(Bare(l)), fields + [l];
            && Lengths(fs) == (if Http.SameName(name, Text("Content-Length")) then Lengths(fields) + [v] else Lengths(fields))
            && Codings(fs) == (if Http.SameName(name, Text("Transfer-Encoding")) then Codings(fields) + [v] else Codings(fields))
            && Encodings(fs) == (if Http.SameName(name, Text("Content-Encoding")) then Encodings(fields) + [v] else Encodings(fields))
            && Types(fs) == (if Http.SameName(name, Text("Content-Type")) then Types(fields) + [v] else Types(fields))
  {
    hide Values, Http.SameName, Text, NameOf, ValueOf, HasColon;
    ValuesNext(fields, l, Text("Content-Length"));
    ValuesNext(fields, l, Text("Transfer-Encoding"));
    ValuesNext(fields, l, Text("Content-Encoding"));
    ValuesNext(fields, l, Text("Content-Type"));
  }

  lemma NamesDiffer(n: seq<byte>)
    ensures Http.SameName(n, Text("Content-Length")) ==> |n| == 14
    ensures Http.SameName(n, Text("Transfer-Encoding")) ==> |n| == 17
    ensures Http.SameName(n, Text("Content-Encoding")) ==> |n| == 16
    ensures Http.SameName(n, Text("Content-Type")) ==> |n| == 12
  {
  }

  lemma OneMoreEncoding(vs: seq<seq<byte>>, v: seq<byte>)
    ensures NotCompressed(vs + [v]) <==> NotCompressed(vs) && Http.SameName(v, Text("identity"))
  {
    hide Http.SameName, Text;
    var ws := vs + [v];
    assert ws[|vs|] == v && forall i :: 0 <= i < |vs| ==> ws[i] == vs[i];
  }

  lemma OneMoreField(fields: seq<seq<byte>>, l: seq<byte>)
    ensures AllFields(fields + [l]) <==> AllFields(fields) && Held(l) && HasColon(Bare(l))
  {
    hide Held, HasColon;
    var ws := fields + [l];
    assert ws[|fields|] == l && forall i :: 0 <= i < |fields| ==> ws[i] == fields[i];
  }

  predicate Allowed(fields: seq<seq<byte>>, name: seq<byte>, value: seq<byte>) {
    && (Http.SameName(name, Text("Content-Length")) ==> Lengths(fields) == [] && Codings(fields) == [] && LengthFits(value))
    && (Http.SameName(name, Text("Transfer-Encoding")) ==>
          Lengths(fields) == [] && Codings(fields) == [] && Http.SameName(value, Text("chunked")))
    && (Http.SameName(name, Text("Content-Encoding")) ==> Http.SameName(value, Text("identity")))
  }

  /** The fields with one more are again fields exactly when its value is allowed. */
  lemma FitNext(fields: seq<seq<byte>>, l: seq<byte>)
    requires Held(l)
    ensures FieldsFit(fields + [l]) ==> FieldsFit(fields)
    ensures FieldsFit(fields) ==>
              (FieldsFit(fields + [l]) <==> HasColon(Bare(l)) && Allowed(fields, NameOf(Bare(l)), ValueOf(Bare(l))))
  {
    hide Values, Text, Http.SameName, LengthFits, NameOf, ValueOf, NotCompressed, Held, HasColon, AllFields, Bare;
    OneMoreField(fields, l);
    if HasColon(Bare(l)) {
      NamesDiffer(NameOf(Bare(l)));
      ListsNext(fields, l);
      OneMoreEncoding(Encodings(fields), ValueOf(Bare(l)));
      hide Lengths, Codings, Encodings;
    }
  }

  lemma HeaderTold(s: Chat)
    requires s.error == NoError && HasColon(s.line)
    ensures var t, name, v := Header(s), NameOf(s.line), ValueOf(s.line);
            && (t.error == NoError <==>
                  && (Http.SameName(name, Text("Content-Length")) ==> !s.haveLength && !s.chunked && LengthFits(v))
                  && (Http.SameName(name, Text("Transfer-Encoding")) ==>
                        !s.haveLength && !s.chunked && Http.SameName(v, Text("chunked")))
                  && (Http.SameName(name, Text("Content-Encoding")) ==> Http.SameName(v, Text("identity"))))
            && (t.error == NoError ==>
                  t == s.(remaining := if Http.SameName(name, Text("Content-Length")) then Http.Value(v, 10) else s.remaining,
                          haveLength := s.haveLength || Http.SameName(name, Text("Content-Length")),
                          chunked := s.chunked || Http.SameName(name, Text("Transfer-Encoding")),
                          eventStream := if Http.SameName(name, Text("Content-Type")) then IsEventType(v) else s.eventStream))
  {
    var name, v := NameOf(s.line), ValueOf(s.line);
    NamesDiffer(name);
    Http.EmptyValue(10);
    LengthExact([], v);
    assert [] + v == v;
    hide Text, Http.SameName, Http.Value, ReadLength, Http.Find, AllDecimal, Http.TrimBlanks, Http.SkipBlanks;
  }

  lemma ToldNext(s: Chat, fields: seq<seq<byte>>, l: seq<byte>)
    requires s.error == NoError && FieldsFit(fields) && HasColon(Bare(l))
    ensures var t := Header(Told(s, fields).(line := Bare(l)));
            && (t.error == NoError <==> Allowed(fields, NameOf(Bare(l)), ValueOf(Bare(l))))
            && (t.error == NoError ==> t == Told(s, fields + [l]).(line := Bare(l)))
  {
    hide Header, Values, Text, Http.SameName, LengthFits, NameOf, ValueOf, NotCompressed, Http.Value, HasColon, AllFields, IsEventType, Bare;
    ListsNext(fields, l);
    HeaderTold(Told(s, fields).(line := Bare(l)));
    NamesDiffer(NameOf(Bare(l)));
    hide Lengths, Codings, Encodings, Types;
  }

  lemma NoColon(s: Chat)
    requires !HasColon(s.line)
    ensures Header(s).error != NoError
  {
    hide Http.Find;
  }

  /** A field line is taken exactly when the fields stay a header section. */
  lemma FieldTaken(s: Chat, fields: seq<seq<byte>>, l: seq<byte>)
    requires s.error == NoError && FieldsFit(fields) && Held(l)
    ensures var t := Header(Told(s, fields).(line := Bare(l)));
            && (t.error == NoError <==> FieldsFit(fields + [l]))
            && (t.error == NoError ==> t == Told(s, fields + [l]).(line := Bare(l)))
  {
    hide Header, FieldsFit, Allowed, NameOf, ValueOf, HasColon, Lengths, Codings, Types, Length, EventType, Bare;
    FitNext(fields, l);
    if HasColon(Bare(l)) {
      ToldNext(s, fields, l);
    } else {
      NoColon(Told(s, fields).(line := Bare(l)));
    }
  }

  // ---------------------------------------------------------------- events

  /** The line that ends the stream. */
  predicate Stops(l: seq<byte>) { Bare(l) == Text("data:[DONE]") || Bare(l) == Text("data: [DONE]") }

  predicate IsEvent(l: seq<byte>) { Text("data:") <= Bare(l) && !Stops(l) }

  /** The text an event shows; EventCapture and EventAccepted say what it is. */
  function EventDoc(l: seq<byte>): Doc
    requires IsEvent(l)
  {
    ReadDocument(Payload(Bare(l)))
  }

  /** A line that is not refused. */
  predicate Good(l: seq<byte>) { Held(l) && (IsEvent(l) ==> EventDoc(l).error == NoError) }

  function Shows(l: seq<byte>): seq<byte> { if IsEvent(l) then EventDoc(l).text else [] }

  function Shown(ls: seq<seq<byte>>): seq<byte> {
    if ls == [] then [] else Shown(ls[..|ls| - 1]) + Shows(ls[|ls| - 1])
  }

  /** The text buffer: that of the last event. */
  function Buffer(ls: seq<seq<byte>>): seq<byte> {
    if ls == [] then [] else if IsEvent(ls[|ls| - 1]) then Shows(ls[|ls| - 1]) else Buffer(ls[..|ls| - 1])
  }

  predicate AllGood(ls: seq<seq<byte>>) { forall i :: 0 <= i < |ls| ==> Good(ls[i]) && !Stops(ls[i]) }

  /** Data whose lines are good, none of which ends the stream. */
  predicate Running(data: seq<byte>) { AllGood(Cut(data)) && Held(Rest(data)) }

  /** Such data and then the line that ends it. */
  predicate Closing(data: seq<byte>) {
    data != [] && Back(data) == 10 && Running(Front(data)) && Stops(Rest(Front(data)))
  }

  lemma DoneTexts()
    ensures Text("data:[DONE]") == Text("data:") + Text("[DONE]") && Text("data: [DONE]") == Text("data:") + ([32] + Text("[DONE]"))
    ensures Text("[DONE]") != [] && Text("[DONE]")[0] == 91 && |Text("data:")| == 5
  {
  }

  lemma PayloadDone(line: seq<byte>)
    requires Text("data:") <= line
    ensures Payload(line) == Text("[DONE]") <==> line == Text("data:[DONE]") || line == Text("data: [DONE]")
  {
    hide Text;
    DoneTexts();
    var p, d, r := Text("data:"), Text("[DONE]"), line[5..];
    assert line == p + r;
    assert forall x: seq<byte> :: p + x == line ==> x == r by {
      assert forall x: seq<byte> :: (p + x)[5..] == x;
    }
    if r != [] && r[0] == 32 {
      assert r == [32] + line[6..] && ([32] + d)[1..] == d && r[1..] == line[6..];
    }
  }

  lemma StopsIsData(l: seq<byte>)
    requires Stops(l)
    ensures Text("data:") <= Bare(l) && Bare(l) != []
  {
    assert Text("data:[DONE]")[..5] == Text("data:") && Text("data: [DONE]")[..5] == Text("data:");
  }

  /** One line of the body. */
  lemma EventTaken(s: Chat, l: seq<byte>)
    requires s.error == NoError && s.phase == Body && !(s.chunked && s.chunkPhase == Trailers) && Held(l) && s.line == Bare(l)
    ensures var t := WholeLine(s);
            && (t.error == NoError <==> Good(l))
            && (Good(l) ==> t == if Stops(l) then s.(done := true)
                                 else if IsEvent(l) then s.(text := Shows(l), position := 0) else s)
  {
    hide Text, Held, Bare, Status, Header, ReadDocument, Payload;
    if Stops(l) {
      StopsIsData(l);
    }
    if Text("data:") <= s.line {
      PayloadDone(s.line);
    }
    assert Text("data:") <= s.line ==> s.line != [] by {
      DataIsLong();
    }
  }

  lemma DataIsLong()
    ensures |Text("data:")| == 5
  {
  }

  lemma ShownNext(ls: seq<seq<byte>>, l: seq<byte>)
    ensures Shown(ls + [l]) == Shown(ls) + Shows(l)
    ensures Buffer(ls + [l]) == if IsEvent(l) then Shows(l) else Buffer(ls)
    ensures AllGood(ls + [l]) <==> AllGood(ls) && Good(l) && !Stops(l)
  {
    hide Good, Stops, Shows, IsEvent;
    var ws := ls + [l];
    assert ws[..|ls|] == ls && ws[|ls|] == l && forall i :: 0 <= i < |ls| ==> ws[i] == ls[i];
  }

  /** Body lines: the decoder has these bytes of the event stream. */
  function Having(s: Chat, data: seq<byte>): Chat {
    s.(line := Rest(data), text := Buffer(Cut(data)), position := |Buffer(Cut(data))|, done := Closing(data))
  }

  /** Where the text of a line just ended starts. */
  function Start(data: seq<byte>, c: byte): nat {
    if c == 10 && IsEvent(Rest(data)) then 0 else |Buffer(Cut(data))|
  }

  lemma RunningNext(data: seq<byte>, c: byte)
    requires Running(data)
    ensures var d := data + [c];
            if c == 10 then
              && Cut(d) == Cut(data) + [Rest(data)] && Rest(d) == []
              && (Running(d) || Closing(d) <==> Good(Rest(data))) && (Closing(d) <==> Stops(Rest(data)))
            else
              Cut(d) == Cut(data) && Rest(d) == Rest(data) + [c] && (Running(d) <==> Held(Rest(d))) && !Closing(d)
  {
    CutNext(data, c);
    ShownNext(Cut(data), Rest(data));
    assert Front(data + [c]) == data;
    if Stops(Rest(data)) {
      StoppingIsGood(Rest(data));
    }
    EmptyHeld();
    hide Good, Stops, Held, Cut, Rest, AllGood;
  }

  lemma StoppingIsGood(l: seq<byte>)
    requires Stops(l) && Held(l)
    ensures Good(l)
  {
  }

  lemma EmptyHeld()
    ensures Held([])
  {
  }

  /** One byte of the event stream, whatever the framing. */
  lemma DataTaken(s: Chat, data: seq<byte>, c: byte)
    requires s.error == NoError && !s.done && s.phase == Body && !(s.chunked && s.chunkPhase == Trailers) && Running(data)
    ensures var t, d := LineByte(Having(s, data), c), data + [c];
            && (t.error == NoError <==> Running(d) || Closing(d))
            && (t.error == NoError ==> t == Having(s, d).(position := Start(data, c)))
  {
    hide WholeLine, LineByte, Running, Held, Good, Stops, Shows, IsEvent, Bare, Cut, Rest;
    RunningNext(data, c);
    NotClosing(data);
    HeldRest(data);
    var h := Having(s, data);
    if c == 10 {
      LineTaken(h, data);
      EventTaken(h.(line := Bare(Rest(data))), Rest(data));
      ShownNext(Cut(data), Rest(data));
      StopsNoEvent(Rest(data));
    } else {
      TextTaken(h, data, c);
    }
  }

  lemma StopsNoEvent(l: seq<byte>)
    ensures Stops(l) ==> !IsEvent(l)
  {
  }

  lemma HeldRest(data: seq<byte>)
    requires Running(data)
    ensures Held(Rest(data))
  {
  }

  lemma NotClosing(data: seq<byte>)
    requires Running(data)
    ensures !Closing(data)
  {
    if Closing(data) {
      CutNext(Front(data), 10);
      assert data == Front(data) + [10];
      ShownNext(Cut(Front(data)), Rest(Front(data)));
    }
    hide Good, Stops, Held;
  }

  /** What a byte adds to the text shown. */
  lemma ShownByte(s: Chat, data: seq<byte>, c: byte)
    requires s.error == NoError && Running(data) && (Running(data + [c]) || Closing(data + [c]))
    ensures var t := Having(s, data + [c]).(position := Start(data, c));
            t.Shown() == Having(s, data + [c]) && Shown(Cut(data + [c])) == Shown(Cut(data)) + t.Pending()
  {
    hide Running, Closing, Held, Good, Stops, Cut, Rest, Having, IsEvent, Shows;
    RunningNext(data, c);
    var d := data + [c];
    HavingIs(s, d);
    if c == 10 {
      ShownNext(Cut(data), Rest(data));
      NoEvent(Rest(data));
    }
    var t := Having(s, d).(position := Start(data, c));
    assert t.text[0..] == t.text;
    assert Shown(Cut(data)) + [] == Shown(Cut(data));
  }

  lemma HavingIs(s: Chat, data: seq<byte>)
    ensures var t := Having(s, data); t.text == Buffer(Cut(data)) && t.position == |t.text| && t.error == s.error
  {
    hide Cut, Rest, Closing, Buffer;
  }

  lemma NoEvent(l: seq<byte>)
    ensures !IsEvent(l) ==> Shows(l) == []
  {
    hide IsEvent;
  }

  // ---------------------------------------------------------------- readings

  type Chunk = Transcript.Chunk

  /** A chunked body beyond its whole chunks: in a size line, past its CR, in a chunk's
      data, in the CRLF after it, or in the trailers. */
  datatype Tail =
    | InSize(size: seq<byte>, extension: seq<byte>)
    | SizeEnd(size: seq<byte>, extension: seq<byte>)
    | InData(size: seq<byte>, extension: seq<byte>, data: seq<byte>)
    | InDelimiter(c: Chunk, cr: bool)
    | Trailing(size: seq<byte>, extension: seq<byte>, bytes: seq<byte>)

  /** What a wire has been read as, from the start of the connection. */
  datatype Reading =
    | InHead(bytes: seq<byte>)
    | InPlain(head: seq<byte>, data: seq<byte>)
    | InChunks(head: seq<byte>, cs: seq<Chunk>, tail: Tail)

  function SizeLine(size: seq<byte>, extension: seq<byte>): seq<byte> { size + (extension + [13, 10]) }

  function TailBytes(t: Tail): seq<byte> {
    match t
    case InSize(size, extension) => size + extension
    case SizeEnd(size, extension) => size + (extension + [13])
    case InData(size, extension, data) => SizeLine(size, extension) + data
    case InDelimiter(c, cr) => SizeLine(c.size, c.extension) + c.data + (if cr then [13] else [])
    case Trailing(size, extension, bytes) => SizeLine(size, extension) + bytes
  }

  function ChunkBytes(cs: seq<Chunk>): seq<byte> {
    if cs == [] then []
    else
      var c := cs[|cs| - 1];
      ChunkBytes(cs[..|cs| - 1]) + (SizeLine(c.size, c.extension) + c.data + [13, 10])
  }

  function Wire(r: Reading): seq<byte> {
    match r
    case InHead(bytes) => bytes
    case InPlain(head, data) => head + data
    case InChunks(head, cs, tail) => head + (ChunkBytes(cs) + TailBytes(tail))
  }

  function ChunkData(cs: seq<Chunk>): seq<byte> {
    if cs == [] then [] else ChunkData(cs[..|cs| - 1]) + cs[|cs| - 1].data
  }

  function TailData(t: Tail): seq<byte> { if t.InData? then t.data else if t.InDelimiter? then t.c.data else [] }

  /** The event stream, its framing removed. */
  function Data(r: Reading): seq<byte> {
    match r
    case InHead(_) => []
    case InPlain(_, data) => data
    case InChunks(_, cs, tail) => ChunkData(cs) + TailData(tail)
  }

  /** The text shown: that of the events, in order, and nothing else. */
  function Content(r: Reading): seq<byte> { Shown(Cut(Data(r))) }

  // ---------------------------------------------------------------- header sections

  function Fields(b: seq<byte>): seq<seq<byte>> { if Cut(b) == [] then [] else Cut(b)[1..] }

  predicate HeadLegal(b: seq<byte>) {
    && |b| <= 4096 && Held(Rest(b)) && FieldsFit(Fields(b))
    && (Cut(b) != [] ==> Held(Cut(b)[0]) && StatusFits(Bare(Cut(b)[0])))
  }

  /** A whole header section: a status line, fields, and an empty line. */
  predicate Whole(head: seq<byte>) {
    && head != [] && Back(head) == 10 && |head| <= 4096
    && HeadLegal(Front(head)) && Cut(Front(head)) != [] && Bare(Rest(Front(head))) == [] && EventType(Fields(Front(head)))
  }

  function HeadFields(head: seq<byte>): seq<seq<byte>>
    requires head != []
  {
    Fields(Front(head))
  }

  function HeadState(b: seq<byte>): Chat {
    Told(START.(line := Rest(b), headerBytes := |b|, phase := if Cut(b) == [] then StatusLine else Headers,
                status := if Cut(b) == [] then 0 else 200), Fields(b))
  }

  /** The decoder past the header section. */
  function Begun(head: seq<byte>): Chat
    requires head != []
  {
    Told(START.(headerBytes := |head|, phase := Body, status := 200), HeadFields(head))
  }

  lemma {:induction false} FieldsNext(b: seq<byte>)
    ensures Cut(b + [10]) != [] && Cut(b + [10])[0] == (if Cut(b) == [] then Rest(b) else Cut(b)[0])
    ensures Fields(b + [10]) == if Cut(b) == [] then [] else Fields(b) + [Rest(b)]
  {
    CutNext(b, 10);
  }

  /** A byte of the header section other than the end of its empty line. */
  lemma HeadTaken(b: seq<byte>, c: byte)
    requires HeadLegal(b) && !(c == 10 && Cut(b) != [] && Bare(Rest(b)) == [])
    ensures var t := Step(HeadState(b), c);
            && (t.error == NoError <==> HeadLegal(b + [c]))
            && (t.error == NoError ==> t == HeadState(b + [c]))
  {
    hide FieldsFit, Held, StatusFits, Told, Cut, Rest, WholeLine, LineByte, Bare;
    CutNext(b, c);
    NoFields();
    var s := HeadState(b).(headerBytes := |b| + 1);
    assert HeadState(b).phase != Body && HeadState(b).line == Rest(b) && HeadState(b).error == NoError && HeadState(b).headerBytes == |b| by {
      HeadIs(b);
    }
    if |b| < 4096 {
      if c == 10 {
        FieldsNext(b);
        LineTaken(s, b);
        EmptyHeld();
        HeadLine(b);
      } else {
        TextTaken(s, b, c);
        TellsApart(b, c);
      }
    }
  }

  lemma NoFields()
    ensures FieldsFit([])
  {
  }

  lemma HeadIs(b: seq<byte>)
    ensures var s := HeadState(b); s.phase != Body && s.line == Rest(b) && s.error == NoError && s.headerBytes == |b|
    ensures HeadState(b).phase == if Cut(b) == [] then StatusLine else Headers
  {
    hide Cut, Rest, FieldsFit;
  }

  lemma TellsApart(b: seq<byte>, c: byte)
    requires c != 10
    ensures HeadState(b + [c]) == HeadState(b).(headerBytes := |b| + 1, line := Rest(b + [c])) && Fields(b + [c]) == Fields(b)
  {
    CutNext(b, c);
    hide Cut, Rest, Length, EventType, Lengths, Codings;
  }

  /** The decoder before a line of the header section, its bytes counted. */
  function Before(bytes: nat, first: bool): Chat {
    START.(headerBytes := bytes, phase := if first then StatusLine else Headers, status := if first then 0 else 200)
  }

  lemma HeadIsTold(b: seq<byte>, l: seq<byte>)
    ensures HeadState(b).(headerBytes := |b| + 1, line := l) == Told(Before(|b| + 1, Cut(b) == []), Fields(b)).(line := l)
    ensures HeadState(b).(line := []) == Told(Before(|b|, Cut(b) == []), Fields(b))
  {
    hide Cut, Rest, Fields, Length, EventType, Lengths, Codings;
  }

  lemma HeadStatus(bytes: nat, l: seq<byte>)
    ensures var t := WholeLine(Told(Before(bytes, true), []).(line := l)).(line := []);
            && (t.error == NoError <==> StatusFits(l)) && (t.error == NoError ==> t == Told(Before(bytes, false), []))
  {
    hide StatusFits, Status, Told;
    ToldNothing(Before(bytes, true));
    ToldNothing(Before(bytes, false));
    StatusExact(Before(bytes, true).(line := l));
  }

  lemma HeadField(bytes: nat, fields: seq<seq<byte>>, l: seq<byte>)
    requires FieldsFit(fields) && Held(l) && Bare(l) != []
    ensures var t := WholeLine(Told(Before(bytes, false), fields).(line := Bare(l))).(line := []);
            && (t.error == NoError <==> FieldsFit(fields + [l]))
            && (t.error == NoError ==> t == Told(Before(bytes, false), fields + [l]))
  {
    hide FieldsFit, Held, Bare, Header, Told;
    var s := Before(bytes, false);
    ToldKeeps(s, fields);
    ToldKeeps(s, fields + [l]);
    FieldTaken(s, fields, l);
  }

  /** A whole line of the header section. */
  lemma HeadLine(b: seq<byte>)
    requires HeadLegal(b) && (Cut(b) != [] ==> Bare(Rest(b)) != [])
    ensures var t := WholeLine(HeadState(b).(headerBytes := |b| + 1, line := Bare(Rest(b)))).(line := []);
            && (t.error == NoError <==> if Cut(b) == [] then StatusFits(Bare(Rest(b))) else FieldsFit(Fields(b) + [Rest(b)]))
            && (t.error == NoError ==> t == HeadState(b + [10]))
  {
    hide FieldsFit, Held, StatusFits, Told, Cut, Rest, WholeLine, Bare, HeadState, Before;
    CutNext(b, 10);
    FieldsNext(b);
    HeadIsTold(b, Bare(Rest(b)));
    HeadIsTold(b + [10], []);
    NoLine(b + [10]);
    if Cut(b) == [] {
      HeadStatus(|b| + 1, Bare(Rest(b)));
    } else {
      HeadField(|b| + 1, Fields(b), Rest(b));
    }
  }

  lemma NoLine(b: seq<byte>)
    requires Rest(b) == []
    ensures HeadState(b).(line := []) == HeadState(b)
  {
    hide Cut, Fields, Length, EventType, Lengths, Codings;
  }

  lemma ToldNothing(s: Chat)
    requires s.remaining == 0 && !s.haveLength && !s.chunked && !s.eventStream
    ensures Told(s, []) == s
  {
  }

  lemma ToldKeeps(s: Chat, fields: seq<seq<byte>>)
    ensures var t := Told(s, fields);
            t.phase == s.phase && t.line == s.line && t.(line := []) == Told(s.(line := []), fields) && t.error == s.error
  {
    hide Length, EventType, Lengths, Codings;
  }

  /** The empty line begins the body exactly when the type is right. */
  lemma HeadEnds(b: seq<byte>)
    requires HeadLegal(b) && Cut(b) != [] && Bare(Rest(b)) == []
    ensures var t := Step(HeadState(b), 10);
            && (t.error == NoError <==> Whole(b + [10]))
            && (t.error == NoError ==> t == Begun(b + [10]))
  {
    hide FieldsFit, Held, StatusFits, Cut, Rest, Bare, LineByte, WholeLine, HeadLegal;
    assert Front(b + [10]) == b;
    HeadIs(b);
    var s := HeadState(b).(headerBytes := |b| + 1);
    if |b| < 4096 {
      LineTaken(s, b);
      assert Step(HeadState(b), 10) == LineByte(s, 10);
      EmptyHead(s.(line := []));
    }
    hide Length, EventType, Lengths, Codings;
  }

  lemma EmptyHead(s: Chat)
    requires s.phase == Headers && s.line == [] && s.error == NoError
    ensures WholeLine(s) == if s.eventStream then s.(phase := Body) else s.(error := NotEventStream)
  {
  }

  // ---------------------------------------------------------------- bodies without chunks

  predicate HasLength(head: seq<byte>)
    requires head != []
  {
    Lengths(HeadFields(head)) != []
  }

  function LengthOf(head: seq<byte>): nat
    requires head != []
  {
    Length(HeadFields(head))
  }

  /** A counted body must bring the line that ends the stream by its last byte. */
  predicate PlainLegal(head: seq<byte>, data: seq<byte>) {
    && Whole(head) && Codings(HeadFields(head)) == [] && (Running(data) || Closing(data))
    && (HasLength(head) ==>
          |data| < LengthOf(head) || (|data| == LengthOf(head) && (data == [] || Closing(data))))
  }

  function PlainState(head: seq<byte>, data: seq<byte>): Chat
    requires PlainLegal(head, data)
  {
    Having(Begun(head).(remaining := if HasLength(head) then LengthOf(head) - |data| else 0), data)
  }

  lemma PlainTaken(head: seq<byte>, data: seq<byte>, c: byte)
    requires PlainLegal(head, data) && Running(data)
    ensures var t, d := Step(PlainState(head, data), c), data + [c];
            && (t.error == NoError <==> PlainLegal(head, d))
            && (PlainLegal(head, d) ==> t == PlainState(head, d).(position := Start(data, c)))
  {
    hide Whole, Running, Closing, LineByte, Cut, Rest, Buffer, Start, HeadFields, Lengths, Codings, Length, EventType;
    BegunIs(head);
    var s := Begun(head).(remaining := if HasLength(head) then LengthOf(head) - |data| else 0);
    assert PlainState(head, data) == Having(s, data);
    assert Having(s, data).phase == Body && !Having(s, data).chunked;
    assert Step(Having(s, data), c) == PlainByte(Having(s, data), c);
    DataTaken(s, data, c);
  }

  lemma BegunIs(head: seq<byte>)
    requires Whole(head)
    ensures head != []
    ensures var s := Begun(head);
            && s.error == NoError && !s.done && s.phase == Body && s.headerBytes == |head| && s.chunked == (Codings(HeadFields(head)) != [])
            && s.haveLength == HasLength(head) && s.remaining == LengthOf(head) && s.line == [] && s.text == [] && s.position == 0
            && s.chunkPhase == Size && s.chunkSize == 0 && s.digits == 0 && !s.extension
  {
    hide Lengths, Codings, Length, EventType, Front, Fields;
  }

  // ---------------------------------------------------------------- chunked bodies

  predicate HexDigits(size: seq<byte>) {
    |size| <= 8 && forall i :: 0 <= i < |size| ==> 48 <= size[i] <= 57 || 65 <= size[i] <= 70 || 97 <= size[i] <= 102
  }

  function SizeOf(size: seq<byte>): nat { Http.Value(size, 16) }

  predicate ExtensionFits(x: seq<byte>) {
    (x != [] ==> x[0] == 59) && forall i :: 0 <= i < |x| ==> 32 <= x[i] < 127
  }

  /** The bytes of an extension that count against the limit: all but its semicolons. */
  function Weight(x: seq<byte>): nat {
    if x == [] then 0 else Weight(Front(x)) + (if Back(x) == 59 then 0 else 1)
  }

  predicate SizeFits(size: seq<byte>, extension: seq<byte>) { size != [] && HexDigits(size) && ExtensionFits(extension) }

  predicate ChunkFits(c: Chunk) { SizeFits(c.size, c.extension) && 0 < |c.data| == SizeOf(c.size) }

  predicate AllChunks(cs: seq<Chunk>) { forall i :: 0 <= i < |cs| ==> ChunkFits(cs[i]) }

  function Weights(cs: seq<Chunk>): nat {
    if cs == [] then 0 else Weights(cs[..|cs| - 1]) + Weight(cs[|cs| - 1].extension)
  }

  function TailWeight(t: Tail): nat { if t.InDelimiter? then Weight(t.c.extension) else Weight(t.extension) }

  /** Trailer lines, the first of them joined to what the data left of a line: none is empty. */
  predicate TrailersFit(bytes: seq<byte>) {
    && Held(Rest(bytes))
    && forall i :: 0 <= i < |Cut(bytes)| ==> Held(Cut(bytes)[i]) && Bare(Cut(bytes)[i]) != []
  }

  predicate TailLegal(rest: seq<byte>, t: Tail) {
    match t
    case InSize(size, extension) => HexDigits(size) && ExtensionFits(extension) && (extension != [] ==> size != [])
    case SizeEnd(size, extension) => SizeFits(size, extension)
    case InData(size, extension, data) => SizeFits(size, extension) && |data| < SizeOf(size)
    case InDelimiter(c, _) => ChunkFits(c)
    case Trailing(size, extension, bytes) => SizeFits(size, extension) && SizeOf(size) == 0 && TrailersFit(rest + bytes)
  }

  /** The last byte of the wire is one of data. */
  predicate JustRead(t: Tail) { (t.InData? && t.data != []) || (t.InDelimiter? && !t.cr) }

  predicate ChunksLegal(head: seq<byte>, cs: seq<Chunk>, t: Tail) {
    var data, weight := ChunkData(cs) + TailData(t), Weights(cs) + TailWeight(t);
    && Framed(head) && AllChunks(cs) && TailLegal(Rest(data), t) && (Running(data) || (JustRead(t) && Closing(data)))
    && Within(|head| + weight, t)
  }

  predicate Framed(head: seq<byte>) { Whole(head) && Codings(HeadFields(head)) != [] }

  /** At most 4096 bytes of head and extensions, and 8192 with the trailers. */
  predicate Within(bytes: nat, t: Tail) { bytes <= 4096 && (t.Trailing? ==> bytes + |t.bytes| <= 8192) }

  function Sized(s: Chat, size: seq<byte>, extension: seq<byte>, phase: ChunkPhase): Chat {
    s.(chunkPhase := phase, chunkSize := SizeOf(size), digits := |size|, extension := extension != [])
  }

  function TailState(s: Chat, rest: seq<byte>, t: Tail): Chat
    requires TailLegal(rest, t)
  {
    match t
    case InSize(size, extension) => Sized(s, size, extension, Size)
    case SizeEnd(size, extension) => Sized(s, size, extension, SizeLf)
    case InData(size, extension, data) =>
      s.(chunkPhase := ChunkPhase.Data, chunkSize := SizeOf(size) - |data|, digits := |size|, extension := extension != [])
    case InDelimiter(c, cr) =>
      s.(chunkPhase := if cr then Lf else Cr, chunkSize := 0, digits := |c.size|, extension := c.extension != [])
    case Trailing(size, extension, bytes) =>
      s.(chunkPhase := Trailers, chunkSize := 0, digits := |size|, extension := extension != [],
         headerBytes := s.headerBytes + |bytes|, line := Rest(rest + bytes))
  }

  /** The decoder in a chunked body before what its tail adds. */
  function Base(head: seq<byte>, weight: nat, data: seq<byte>): Chat
    requires head != []
  {
    Having(Begun(head).(headerBytes := |head| + weight), data)
  }

  function ChunksState(head: seq<byte>, cs: seq<Chunk>, t: Tail): Chat
    requires ChunksLegal(head, cs, t)
  {
    var data := ChunkData(cs) + TailData(t);
    TailState(Base(head, Weights(cs) + TailWeight(t), data), Rest(data), t)
  }

  // ---------------------------------------------------------------- size lines

  function Power(n: nat): nat { if n == 0 then 1 else 16 * Power(n - 1) }

  lemma HexValue(p: seq<byte>, c: byte)
    ensures Http.Value(p + [c], 16) == Http.Value(p, 16) * 16 + Http.Digit(c)
  {
    assert Front(p + [c]) == p;
    hide Http.Digit;
  }

  lemma {:induction false} HexBelow(d: seq<byte>)
    requires forall i :: 0 <= i < |d| ==> Http.Digit(d[i]) < 16
    ensures Http.Value(d, 16) < Power(|d|)
  {
    hide Http.Digit;
    if d != [] {
      HexBelow(Front(d));
      assert d == Front(d) + [Back(d)];
      HexValue(Front(d), Back(d));
      hide Http.Value;
    }
  }

  /** A further digit is taken exactly when it is one, of eight at most. */
  lemma DigitTaken(size: seq<byte>, c: byte)
    requires HexDigits(size)
    ensures HexDigits(size + [c]) <==> |size| < 8 && Json.IsHex(c)
    ensures HexDigits(size + [c]) ==> SizeOf(size + [c]) == SizeOf(size) * 16 % 0x1_0000_0000 + Json.Hex(c)
  {
    var d := size + [c];
    assert d[|size|] == c && forall i :: 0 <= i < |size| ==> d[i] == size[i];
    if HexDigits(d) {
      Transcript.HexIsDigit(c);
      HexValue(size, c);
      HexBelow(size);
      BelowWord(|size|);
      hide Http.Value, Http.Digit, Json.Hex;
    }
  }

  lemma BelowWord(n: nat)
    requires n < 8
    ensures Power(n) <= 0x1000_0000
  {
    assert Power(7) == 0x1000_0000 && Power(6) == 0x100_0000 && Power(5) == 0x10_0000 && Power(4) == 0x1_0000;
    assert Power(3) == 0x1000 && Power(2) == 0x100 && Power(1) == 0x10;
  }

  lemma ExtensionNext(x: seq<byte>, c: byte)
    requires ExtensionFits(x) && (x != [] || c == 59)
    ensures ExtensionFits(x + [c]) <==> 32 <= c < 127
    ensures Weight(x + [c]) == Weight(x) + (if c == 59 then 0 else 1)
  {
    var y := x + [c];
    assert Front(y) == x && y[|x|] == c && forall i :: 0 <= i < |x| ==> y[i] == x[i];
  }

  /** In a chunked body, whatever its tail. */
  predicate InBody(s: Chat) { s.Active() && s.phase == Body && s.chunked && s.headerBytes <= 4096 }

  lemma BaseIs(head: seq<byte>, weight: nat, data: seq<byte>)
    requires Framed(head) && Running(data) && |head| + weight <= 4096
    ensures head != []
    ensures var s := Base(head, weight, data); InBody(s) && s.headerBytes == |head| + weight && s.line == Rest(data)
  {
    BegunIs(head);
    NotClosing(data);
    hide Whole, Running, Closing, Cut, Rest, Buffer, Lengths, Codings, Length, EventType, Fields;
  }

  lemma BaseWeighs(head: seq<byte>, v: nat, w: nat, data: seq<byte>)
    requires head != []
    ensures Base(head, w, data) == Base(head, v, data).(headerBytes := |head| + w)
  {
    hide Begun, Rest, Cut, Buffer, Closing;
  }

  // ---------------------------------------------------------------- one byte of a tail

  function NextSize(size: seq<byte>, x: seq<byte>, c: byte): Tail {
    if c == 13 && size != [] then SizeEnd(size, x)
    else if x != [] || (c == 59 && size != []) then InSize(size, x + [c])
    else InSize(size + [c], [])
  }

  lemma SizeTaken(s: Chat, size: seq<byte>, x: seq<byte>, c: byte)
    requires s.error == NoError && s.headerBytes <= 4096
    requires HexDigits(size) && ExtensionFits(x) && (x != [] ==> size != [])
    ensures var v, u := SizeByte(Sized(s, size, x, Size), c), NextSize(size, x, c);
            var more := Weight(u.extension) - Weight(x);
            && (v.error == NoError <==> TailLegal([], u) && s.headerBytes + more <= 4096)
            && (v.error == NoError ==>
                  v == Sized(s.(headerBytes := s.headerBytes + more), u.size, u.extension, if u.SizeEnd? then SizeLf else Size))
  {
    hide HexDigits, ExtensionFits, Http.Value, Json.Hex, Weight;
    if x != [] || (c == 59 && size != []) {
      ExtensionNext(x, c);
    } else if !(c == 13 && size != []) {
      DigitTaken(size, c);
      assert c == 13 || c == 59 ==> !Json.IsHex(c);
      NoExtension();
      assert x == [];
    }
  }

  lemma NoExtension()
    ensures ExtensionFits([]) && Weight([]) == 0
  {
  }

  lemma SizeStep(s: Chat, rest: seq<byte>, size: seq<byte>, x: seq<byte>, c: byte)
    requires InBody(s) && TailLegal(rest, InSize(size, x))
    ensures var v, u := Step(TailState(s, rest, InSize(size, x)), c), NextSize(size, x, c);
            var more := Weight(u.extension) - Weight(x);
            && (v.error == NoError <==> TailLegal(rest, u) && s.headerBytes + more <= 4096)
            && (v.error == NoError ==> v == TailState(s.(headerBytes := s.headerBytes + more), rest, u))
  {
    hide HexDigits, ExtensionFits, SizeOf, Weight, SizeByte, Step, NextSize;
    NextIsSize(size, x, c);
    SizeTaken(s, size, x, c);
    SizeByteTaken(TailState(s, rest, InSize(size, x)), c);
    hide Sized;
  }

  lemma NextIsSize(size: seq<byte>, x: seq<byte>, c: byte)
    ensures var u := NextSize(size, x, c); u.InSize? || u.SizeEnd?
  {
  }

  lemma SizeByteTaken(s: Chat, c: byte)
    requires s.phase == Body && s.chunked && s.chunkPhase == Size
    ensures Step(s, c) == SizeByte(s, c)
  {
    hide SizeByte;
  }

  function NextLine(size: seq<byte>, x: seq<byte>): Tail {
    if SizeOf(size) != 0 then InData(size, x, []) else Trailing(size, x, [])
  }

  lemma SizeEndStep(s: Chat, rest: seq<byte>, size: seq<byte>, x: seq<byte>, c: byte)
    requires InBody(s) && TailLegal(rest, SizeEnd(size, x)) && TrailersFit(rest + []) && s.line == rest == Rest(rest + [])
    ensures var v := Step(TailState(s, rest, SizeEnd(size, x)), c);
            && (v.error == NoError <==> c == 10) && TailLegal(rest, NextLine(size, x))
            && (c == 10 ==> v == TailState(s, rest, NextLine(size, x)))
  {
    hide SizeFits, SizeOf, TrailersFit, Rest;
  }

  function NextData(size: seq<byte>, x: seq<byte>, data: seq<byte>): Tail {
    if |data| == SizeOf(size) then InDelimiter(Transcript.Chunk(size, x, data), false) else InData(size, x, data)
  }

  lemma DataStep(s: Chat, data: seq<byte>, size: seq<byte>, x: seq<byte>, part: seq<byte>, c: byte)
    requires InBody(s) && TailLegal([], InData(size, x, part)) && Running(data)
    ensures var v, u := Step(TailState(Having(s, data), [], InData(size, x, part)), c), NextData(size, x, part + [c]);
            && TailLegal([], u)
            && (v.error == NoError <==> Running(data + [c]) || Closing(data + [c]))
            && (v.error == NoError ==> v == TailState(Having(s, data + [c]), [], u).(position := Start(data, c)))
  {
    hide LineByte, Running, Closing, Cut, Rest, Buffer, Start, SizeOf, SizeFits;
    var b := TailState(s, [], InData(size, x, part));
    assert Having(b, data) == TailState(Having(s, data), [], InData(size, x, part));
    DataTaken(b, data, c);
    NotClosing(data);
    ChunkStep(Having(b, data), c);
    assert |part + [c]| == |part| + 1;
  }

  lemma ChunkStep(s: Chat, c: byte)
    requires s.phase == Body && s.chunked && s.chunkPhase == ChunkPhase.Data && s.chunkSize > 0
    ensures var t := LineByte(s, c);
            Step(s, c) == t.(chunkSize := s.chunkSize - 1, chunkPhase := if s.chunkSize == 1 then Cr else t.chunkPhase)
  {
    hide LineByte;
  }

  lemma DelimiterStep(s: Chat, k: Chunk, cr: bool, c: byte)
    requires InBody(s) && ChunkFits(k)
    ensures var v := Step(TailState(s, [], InDelimiter(k, cr)), c);
            && (v.error == NoError <==> c == if cr then 10 else 13)
            && (v.error == NoError ==> v == if cr then TailState(s, [], InSize([], [])) else TailState(s, [], InDelimiter(k, true)))
  {
    NoExtension();
    Http.EmptyValue(16);
    hide ChunkFits, Http.Value, ExtensionFits;
  }

  /** At the start of the trailers: the rest of the data is a line not yet ended. */
  lemma JoinedTrailers(data: seq<byte>)
    requires Running(data)
    ensures TrailersFit(Rest(data) + []) && Rest(Rest(data) + []) == Rest(data)
  {
    RestIsRest(data);
    assert Rest(data) + [] == Rest(data);
  }

  lemma {:induction false} RestIsRest(b: seq<byte>)
    ensures Cut(Rest(b)) == [] && Rest(Rest(b)) == Rest(b)
  {
    if b != [] && Back(b) != 10 {
      RestIsRest(Front(b));
      CutNext(Rest(Front(b)), Back(b));
    }
  }

  lemma ChunksNext(cs: seq<Chunk>, k: Chunk)
    ensures var ds := cs + [k];
            && (AllChunks(ds) <==> AllChunks(cs) && ChunkFits(k)) && Weights(ds) == Weights(cs) + Weight(k.extension)
            && ChunkData(ds) == ChunkData(cs) + k.data
            && ChunkBytes(ds) == ChunkBytes(cs) + (SizeLine(k.size, k.extension) + k.data + [13, 10])
  {
    hide ChunkFits, Weight, SizeLine;
    var ds := cs + [k];
    assert ds[..|cs|] == cs && ds[|cs|] == k && forall i :: 0 <= i < |cs| ==> ds[i] == cs[i];
  }

  // ---------------------------------------------------------------- trailers

  lemma TrailersNext(bytes: seq<byte>, c: byte)
    requires TrailersFit(bytes)
    ensures TrailersFit(bytes + [c]) <==> if c == 10 then Bare(Rest(bytes)) != [] else Held(Rest(bytes + [c]))
  {
    hide Held, Bare;
    CutNext(bytes, c);
    EmptyHeld();
    var a, b := Cut(bytes), Cut(bytes + [c]);
    assert c == 10 ==> b[|a|] == Rest(bytes);
    assert forall i :: 0 <= i < |a| ==> b[i] == a[i];
  }

  lemma TrailerLine(s: Chat, bytes: seq<byte>, c: byte)
    requires s.error == NoError && s.phase == Body && s.chunked && s.chunkPhase == Trailers && s.line == Rest(bytes) && TrailersFit(bytes)
    ensures var t := LineByte(s, c);
            && (t.error == NoError <==> TrailersFit(bytes + [c]))
            && (t.error == NoError ==> t == s.(line := Rest(bytes + [c])))
  {
    hide LineByte, WholeLine, Held, Bare, Cut, Rest;
    TrailersNext(bytes, c);
    CutNext(bytes, c);
    if c == 10 {
      LineTaken(s, bytes);
      IgnoredLine(s.(line := Bare(Rest(bytes))));
    } else {
      TextTaken(s, bytes, c);
    }
  }

  lemma IgnoredLine(s: Chat)
    requires s.error == NoError && s.phase == Body && s.chunked && s.chunkPhase == Trailers
    ensures WholeLine(s) == if s.line == [] then s.(error := EndedWithoutDone) else s
  {
  }

  lemma TrailingStep(s: Chat, rest: seq<byte>, size: seq<byte>, x: seq<byte>, bytes: seq<byte>, c: byte)
    requires InBody(s) && TailLegal(rest, Trailing(size, x, bytes)) && s.headerBytes + |bytes| <= 8192
    ensures var v, u := Step(TailState(s, rest, Trailing(size, x, bytes)), c), Trailing(size, x, bytes + [c]);
            && (v.error == NoError <==> TailLegal(rest, u) && s.headerBytes + |u.bytes| <= 8192)
            && (v.error == NoError ==> v == TailState(s, rest, u))
  {
    hide LineByte, Cut, Rest, SizeFits, SizeOf, TrailersFit;
    assert rest + (bytes + [c]) == rest + bytes + [c];
    var t := TailState(s, rest, Trailing(size, x, bytes));
    if t.headerBytes < 8192 {
      TrailerLine(t.(headerBytes := t.headerBytes + 1), rest + bytes, c);
    }
  }

  // ---------------------------------------------------------------- legal readings

  predicate Legal(r: Reading) {
    match r
    case InHead(bytes) => HeadLegal(bytes)
    case InPlain(head, data) => PlainLegal(head, data)
    case InChunks(head, cs, tail) => ChunksLegal(head, cs, tail)
  }

  function StateOf(r: Reading): Chat
    requires Legal(r)
  {
    match r
    case InHead(bytes) => HeadState(bytes)
    case InPlain(head, data) => PlainState(head, data)
    case InChunks(head, cs, tail) => ChunksState(head, cs, tail)
  }

  /** The reading with one more byte, when there can be one. */
  function Next(q: Reading, c: byte): Option<Reading> {
    match q
    case InHead(b) =>
      if !(c == 10 && Cut(b) != [] && Bare(Rest(b)) == []) then Some(InHead(b + [c]))
      else if Codings(Fields(b)) == [] then Some(InPlain(b + [c], []))
      else Some(InChunks(b + [c], [], InSize([], [])))
    case InPlain(head, data) => Some(InPlain(head, data + [c]))
    case InChunks(head, cs, t) =>
      match t
      case InSize(size, x) => Some(InChunks(head, cs, NextSize(size, x, c)))
      case SizeEnd(size, x) => if c == 10 then Some(InChunks(head, cs, NextLine(size, x))) else None
      case InData(size, x, data) => Some(InChunks(head, cs, NextData(size, x, data + [c])))
      case InDelimiter(k, cr) =>
        if c != (if cr then 10 else 13) then None
        else if cr then Some(InChunks(head, cs + [k], InSize([], [])))
        else Some(InChunks(head, cs, InDelimiter(k, true)))
      case Trailing(size, x, bytes) => Some(InChunks(head, cs, Trailing(size, x, bytes + [c])))
  }

  /** A byte is taken exactly when the reading it makes is legal, and shows what that
      reading adds. */
  predicate Moves(q: Reading, c: byte)
    requires Legal(q)
  {
    var v, n := Step(StateOf(q), c), Next(q, c);
    && (v.error == NoError <==> n.Some? && Legal(n.value))
    && (v.error == NoError ==> v.Shown() == StateOf(n.value) && Content(n.value) == Content(q) + v.Pending())
  }

  lemma Quietly(q: Reading, c: byte, r: Reading)
    requires Legal(q) && Next(q, c) == Some(r) && Data(r) == Data(q)
    requires Step(StateOf(q), c).error == NoError <==> Legal(r)
    requires Legal(r) ==> Step(StateOf(q), c) == StateOf(r) && StateOf(r).position == |StateOf(r).text|
    ensures Moves(q, c)
  {
    hide Legal, StateOf, Next, Step, Data;
    assert Content(q) + [] == Content(q);
  }

  lemma Refused(q: Reading, c: byte)
    requires Legal(q) && Next(q, c) == None && Step(StateOf(q), c).error != NoError
    ensures Moves(q, c)
  {
  }

  lemma HeadMoves(b: seq<byte>, c: byte)
    requires HeadLegal(b)
    ensures Moves(InHead(b), c)
  {
    hide HeadLegal, Told, Cut, Rest, Bare, Step, Fields, Codings, Whole, Running, Buffer;
    if c == 10 && Cut(b) != [] && Bare(Rest(b)) == [] {
      HeadEnds(b);
      var head := b + [10];
      assert Front(head) == b;
      if Codings(Fields(b)) == [] {
        BeginPlain(head);
        Quietly(InHead(b), c, InPlain(head, []));
      } else {
        BeginChunks(head);
        Quietly(InHead(b), c, InChunks(head, [], InSize([], [])));
      }
    } else {
      HeadTaken(b, c);
      HeadSilent(b + [c]);
      Quietly(InHead(b), c, InHead(b + [c]));
    }
  }

  lemma HeadSilent(b: seq<byte>)
    ensures HeadState(b).position == |HeadState(b).text|
  {
    hide Length, EventType, Lengths, Codings, Cut, Rest;
  }

  lemma NoData()
    ensures Running([]) && !Closing([]) && Cut([]) == [] && Rest([]) == [] && Buffer([]) == [] && ChunkData([]) == [] && Weights([]) == 0
    ensures AllChunks([]) && Weight([]) == 0 && ExtensionFits([]) && HexDigits([]) && SizeOf([]) == 0
  {
    Http.EmptyValue(16);
  }

  lemma BeginPlain(head: seq<byte>)
    requires head != [] && Codings(HeadFields(head)) == []
    ensures PlainLegal(head, []) <==> Whole(head)
    ensures Whole(head) ==> PlainState(head, []) == Begun(head) && Begun(head).position == |Begun(head).text|
  {
    NoData();
    if Whole(head) {
      BegunIs(head);
    }
    NoLength(head);
    hide Whole, Running, Closing, Begun, Lengths, Codings, Cut, Rest, Buffer, Fields;
  }

  lemma NoLength(head: seq<byte>)
    requires head != []
    ensures !HasLength(head) ==> LengthOf(head) == 0
  {
  }

  lemma BeginChunks(head: seq<byte>)
    requires head != [] && Codings(HeadFields(head)) != []
    ensures ChunksLegal(head, [], InSize([], [])) <==> Whole(head)
    ensures Whole(head) ==> ChunksState(head, [], InSize([], [])) == Begun(head) && Begun(head).position == |Begun(head).text|
  {
    NoData();
    hide Whole, Running, Closing, Begun, Codings, HeadFields, Cut, Rest, Buffer, ChunkData, Weights, AllChunks, Weight, ExtensionFits, HexDigits, SizeOf;
    var none: seq<byte> := [];
    assert ChunkData([]) + none == none;
    if Whole(head) {
      BegunIs(head);
      WholeFits(head);
    }
  }

  lemma WholeFits(head: seq<byte>)
    requires Whole(head)
    ensures |head| <= 4096
  {
  }

  lemma PlainMoves(head: seq<byte>, data: seq<byte>, c: byte)
    requires PlainLegal(head, data) && Running(data)
    ensures Moves(InPlain(head, data), c)
  {
    hide PlainLegal, PlainState, Running, Step, Start, Shown, Cut;
    PlainTaken(head, data, c);
    if PlainLegal(head, data + [c]) {
      PlainShows(head, data, c);
    }
  }

  lemma PlainShows(head: seq<byte>, data: seq<byte>, c: byte)
    requires PlainLegal(head, data + [c]) && Running(data)
    ensures var t := PlainState(head, data + [c]).(position := Start(data, c));
            t.Shown() == PlainState(head, data + [c]) && Shown(Cut(data + [c])) == Shown(Cut(data)) + t.Pending()
  {
    hide Whole, Running, Closing, Having, Cut, Codings, Lengths, Length, Start, Shown;
    BegunIs(head);
    ShownByte(Begun(head).(remaining := if HasLength(head) then LengthOf(head) - |data + [c]| else 0), data, c);
  }

  // ---------------------------------------------------------------- chunked bodies, byte by byte

  lemma TailSilent(head: seq<byte>, cs: seq<Chunk>, t: Tail)
    requires ChunksLegal(head, cs, t)
    ensures var s := ChunksState(head, cs, t); s.position == |s.text|
  {
    hide Whole, Framed, Running, Closing, Begun, Cut, Rest, Buffer, Fields, TailLegal, AllChunks;
  }

  lemma SizeMoves(head: seq<byte>, cs: seq<Chunk>, size: seq<byte>, x: seq<byte>, c: byte)
    requires ChunksLegal(head, cs, InSize(size, x))
    ensures Moves(InChunks(head, cs, InSize(size, x)), c)
  {
    var data, w, u := ChunkData(cs) + [], Weights(cs) + Weight(x), NextSize(size, x, c);
    hide Framed, Running, Closing, Begun, Cut, Rest, Buffer, TailLegal, TailState, AllChunks, Base, Step, InBody, Weight, ChunkData, Weights;
    BaseIs(head, w, data);
    SizeStep(Base(head, w, data), Rest(data), size, x, c);
    BaseWeighs(head, w, Weights(cs) + Weight(u.extension), data);
    assert ChunkData(cs) + TailData(u) == data;
    if ChunksLegal(head, cs, u) {
      TailSilent(head, cs, u);
    }
    Quietly(InChunks(head, cs, InSize(size, x)), c, InChunks(head, cs, u));
  }

  lemma SizeEndMoves(head: seq<byte>, cs: seq<Chunk>, size: seq<byte>, x: seq<byte>, c: byte)
    requires ChunksLegal(head, cs, SizeEnd(size, x))
    ensures Moves(InChunks(head, cs, SizeEnd(size, x)), c)
  {
    var q, data, w, u := InChunks(head, cs, SizeEnd(size, x)), ChunkData(cs) + [], Weights(cs) + Weight(x), NextLine(size, x);
    hide Framed, Running, Closing, Begun, Cut, Rest, Buffer, TailLegal, TailState, AllChunks, Base, Step, InBody, Weight, ChunkData, Weights, TrailersFit, SizeOf;
    BaseIs(head, w, data);
    JoinedTrailers(data);
    SizeEndStep(Base(head, w, data), Rest(data), size, x, c);
    if c == 10 {
      assert ChunkData(cs) + TailData(u) == data;
      TailSilent(head, cs, u);
      Quietly(q, c, InChunks(head, cs, u));
    } else {
      Refused(q, c);
    }
  }

  lemma DelimiterMoves(head: seq<byte>, cs: seq<Chunk>, k: Chunk, c: byte)
    requires ChunksLegal(head, cs, InDelimiter(k, false)) && Running(ChunkData(cs) + k.data)
    ensures Moves(InChunks(head, cs, InDelimiter(k, false)), c)
  {
    var q, data, w, u := InChunks(head, cs, InDelimiter(k, false)), ChunkData(cs) + k.data, Weights(cs) + Weight(k.extension), InDelimiter(k, true);
    hide Framed, Running, Closing, Begun, Cut, Rest, Buffer, AllChunks, Base, Step, InBody, Weight, ChunkData, Weights, TrailersFit, ChunkFits;
    BaseIs(head, w, data);
    DelimiterStep(Base(head, w, data), k, false, c);
    if c == 13 {
      TailSilent(head, cs, u);
      Quietly(q, c, InChunks(head, cs, u));
    } else {
      Refused(q, c);
    }
  }

  lemma ChunkMoves(head: seq<byte>, cs: seq<Chunk>, k: Chunk, c: byte)
    requires ChunksLegal(head, cs, InDelimiter(k, true))
    ensures Moves(InChunks(head, cs, InDelimiter(k, true)), c)
  {
    var q, data, w, u := InChunks(head, cs, InDelimiter(k, true)), ChunkData(cs) + k.data, Weights(cs) + Weight(k.extension), InSize([], []);
    NoData();
    hide Framed, Running, Closing, Begun, Cut, Rest, Buffer, AllChunks, Base, Step, InBody, Weight, ChunkData, Weights, TrailersFit, ChunkFits, HexDigits, ExtensionFits, SizeOf;
    BaseIs(head, w, data);
    DelimiterStep(Base(head, w, data), k, true, c);
    if c == 10 {
      var ds := cs + [k];
      ChunksNext(cs, k);
      assert ChunkData(ds) + [] == data;
      assert Weights(ds) + Weight([]) == w;
      TailSilent(head, ds, u);
      Quietly(q, c, InChunks(head, ds, u));
    } else {
      Refused(q, c);
    }
  }

  lemma TrailingMoves(head: seq<byte>, cs: seq<Chunk>, size: seq<byte>, x: seq<byte>, bytes: seq<byte>, c: byte)
    requires ChunksLegal(head, cs, Trailing(size, x, bytes))
    ensures Moves(InChunks(head, cs, Trailing(size, x, bytes)), c)
  {
    var t, u := Trailing(size, x, bytes), Trailing(size, x, bytes + [c]);
    var q, data, w := InChunks(head, cs, t), ChunkData(cs) + [], Weights(cs) + Weight(x);
    hide Framed, Running, Closing, Begun, Cut, Rest, Buffer, TailLegal, TailState, AllChunks, Base, Step, InBody, Weight, ChunkData, Weights, TrailersFit, SizeOf;
    BaseIs(head, w, data);
    TrailingStep(Base(head, w, data), Rest(data), size, x, bytes, c);
    if ChunksLegal(head, cs, u) {
      TailSilent(head, cs, u);
    }
    Quietly(q, c, InChunks(head, cs, u));
  }

  lemma DataTail(rest: seq<byte>, t: Tail)
    requires !t.Trailing?
    ensures TailLegal(rest, t) <==> TailLegal([], t)
    ensures TailLegal(rest, t) ==> forall s :: TailState(s, rest, t) == TailState(s, [], t)
  {
    hide SizeFits, ChunkFits, HexDigits, ExtensionFits, SizeOf;
  }

  lemma DataMoves(head: seq<byte>, cs: seq<Chunk>, size: seq<byte>, x: seq<byte>, part: seq<byte>, c: byte)
    requires ChunksLegal(head, cs, InData(size, x, part)) && Running(ChunkData(cs) + part)
    ensures Moves(InChunks(head, cs, InData(size, x, part)), c)
  {
    var t, u := InData(size, x, part), NextData(size, x, part + [c]);
    var q, r, data, w := InChunks(head, cs, t), InChunks(head, cs, u), ChunkData(cs) + part, Weights(cs) + Weight(x);
    hide Framed, Running, Closing, Cut, Rest, TailLegal, TailState, AllChunks, Step, InBody, Weight, ChunkData, Weights, TrailersFit, SizeOf, Having, Start, Shown;
    BegunInBody(head, w);
    var b := Begun(head).(headerBytes := |head| + w);
    assert Base(head, w, data) == Having(b, data);
    DataTail(Rest(data), t);
    DataTail(Rest(data + [c]), u);
    DataStep(b, data, size, x, part, c);
    assert ChunkData(cs) + (part + [c]) == data + [c];
    assert ChunksState(head, cs, t) == TailState(Having(b, data), [], t);
    if ChunksLegal(head, cs, u) {
      ShownByte(b, data, c);
      assert ChunksState(head, cs, u) == TailState(Having(b, data + [c]), [], u);
      ShownTail(Having(b, data + [c]), Start(data, c), u);
    }
  }

  lemma BegunInBody(head: seq<byte>, w: nat)
    requires Framed(head) && |head| + w <= 4096
    ensures head != [] && InBody(Begun(head).(headerBytes := |head| + w))
  {
    BegunIs(head);
    hide Whole, Begun, Codings, Lengths, Fields;
  }

  /** The framing does not touch what is to be shown. */
  lemma TailKeeps(s: Chat, t: Tail)
    requires TailLegal([], t)
    ensures var u := TailState(s, [], t); u.error == s.error && u.text == s.text && u.position == s.position
  {
    hide TailLegal, SizeOf, Rest;
  }

  lemma ShownTail(s: Chat, position: nat, t: Tail)
    requires TailLegal([], t)
    ensures var u, v := s.(position := position), TailState(s, [], t).(position := position);
            v.Pending() == u.Pending() && (u.Shown() == s ==> v.Shown() == TailState(s, [], t))
  {
    hide TailLegal, TailState;
    TailKeeps(s, t);
  }

  lemma StepMoves(q: Reading, c: byte)
    requires Legal(q) && StateOf(q).Active()
    ensures Moves(q, c)
  {
    hide Moves, HeadLegal, HeadState;
    match q
    case InHead(b) => HeadMoves(b, c);
    case InPlain(head, data) =>
      hide Whole, Running, Closing, Begun, Codings, Lengths, Length, Cut, Rest, Buffer, Fields;
      PlainMoves(head, data, c);
    case InChunks(head, cs, t) =>
      hide Framed, Running, Closing, Begun, Cut, Rest, Buffer, AllChunks, Weight, ChunkData, Weights, TrailersFit, SizeOf, SizeFits, ChunkFits, HexDigits, ExtensionFits;
      match t {
        case InSize(size, x) => SizeMoves(head, cs, size, x, c);
        case SizeEnd(size, x) => SizeEndMoves(head, cs, size, x, c);
        case InData(size, x, data) => DataMoves(head, cs, size, x, data, c);
        case InDelimiter(k, cr) =>
          if cr {
            ChunkMoves(head, cs, k, c);
          } else {
            DelimiterMoves(head, cs, k, c);
          }
        case Trailing(size, x, bytes) => TrailingMoves(head, cs, size, x, bytes, c);
      }
  }

  // ---------------------------------------------------------------- every legal reading is taken

  lemma WireNext(q: Reading, c: byte)
    requires Next(q, c).Some?
    ensures Wire(Next(q, c).value) == Wire(q) + [c]
  {
    var r := Next(q, c).value;
    if q.InChunks? {
      ChunksWire(q.head, q.cs, q.tail, c, r);
    } else if q.InHead? {
      HeadWire(q.bytes, c, r);
    } else {
      assert q.head + (q.data + [c]) == q.head + q.data + [c];
    }
  }

  lemma HeadWire(b: seq<byte>, c: byte, r: Reading)
    requires Next(InHead(b), c) == Some(r)
    ensures Wire(r) == b + [c]
  {
    hide Cut, Rest, Bare, Codings, Fields;
    var head := b + [c];
    EmptyTail();
    assert head + [] == head && ChunkBytes([]) + TailBytes(InSize([], [])) == [];
  }

  lemma ChunksWire(head: seq<byte>, cs: seq<Chunk>, t: Tail, c: byte, r: Reading)
    requires Next(InChunks(head, cs, t), c) == Some(r)
    ensures Wire(r) == Wire(InChunks(head, cs, t)) + [c]
  {
    hide ChunkBytes, NextSize, NextLine, NextData, TailBytes;
    var b, d := ChunkBytes(cs), TailBytes(t);
    if t.InDelimiter? && t.cr {
      ChunksNext(cs, t.c);
      WholeChunk(t.c);
      assert TailBytes(InSize([], [])) == [] by {
        EmptyTail();
      }
      assert head + (b + (d + [10]) + []) == head + (b + d) + [10];
    } else {
      TailNext(t, c, r.tail);
      assert head + (b + (d + [c])) == head + (b + d) + [c];
    }
  }

  lemma EmptyTail()
    ensures TailBytes(InSize([], [])) == []
  {
  }

  lemma WholeChunk(k: Chunk)
    ensures SizeLine(k.size, k.extension) + k.data + [13, 10] == TailBytes(InDelimiter(k, true)) + [10]
  {
    hide SizeLine;
  }

  lemma TailNext(t: Tail, c: byte, u: Tail)
    requires Leads(t, c, u)
    ensures TailBytes(u) == TailBytes(t) + [c]
  {
    hide SizeOf;
    match t
    case InSize(size, x) => assert size + (x + [c]) == size + x + [c]; assert x == [] ==> size + [c] + [] == size + x + [c];
    case SizeEnd(size, x) => assert SizeLine(size, x) + [] == size + (x + [13]) + [10];
    case InData(size, x, data) => assert SizeLine(size, x) + (data + [c]) + [] == SizeLine(size, x) + data + [c];
    case InDelimiter(k, cr) =>
    case Trailing(size, x, bytes) =>
  }

  lemma RunningBefore(data: seq<byte>)
    requires data != [] && (Running(data) || Closing(data))
    ensures Running(Front(data))
  {
    if Running(data) {
      var d, c := Front(data), Back(data);
      assert data == d + [c];
      CutNext(d, c);
      ShownNext(Cut(d), Rest(d));
      assert Held(Rest(d)) by {
        if c != 10 {
          assert forall x :: x in Rest(d) ==> x in Rest(data);
        }
      }
      hide Good, Stops, Held, Cut, Rest;
    }
  }

  lemma TrailersBefore(bytes: seq<byte>, c: byte)
    requires TrailersFit(bytes + [c])
    ensures TrailersFit(bytes)
  {
    CutNext(bytes, c);
    var a, b := Cut(bytes), Cut(bytes + [c]);
    assert forall i :: 0 <= i < |a| ==> b[i] == a[i];
    if c == 10 {
      assert b[|a|] == Rest(bytes);
    } else {
      assert forall x :: x in Rest(bytes) ==> x in Rest(bytes + [c]);
    }
    hide Cut, Rest, Bare;
  }

  lemma ShorterHeld(l: seq<byte>, c: byte)
    requires Held(l + [c])
    ensures Held(l)
  {
    assert forall x :: x in l ==> x in l + [c];
  }

  lemma FewerFit(fields: seq<seq<byte>>, l: seq<byte>)
    requires FieldsFit(fields + [l])
    ensures FieldsFit(fields) && Held(l) && Bare(l) != []
  {
    hide Values, LengthFits, NotCompressed, Http.SameName, Text, Lengths, Codings, Encodings;
    OneMoreField(fields, l);
    FitNext(fields, l);
  }

  /** A header section less its last byte is part of one, and was not yet at its end. */
  lemma HeadBefore(b: seq<byte>)
    requires b != [] && HeadLegal(b)
    ensures HeadLegal(Front(b)) && !(Back(b) == 10 && Cut(Front(b)) != [] && Bare(Rest(Front(b))) == [])
  {
    hide Cut, Rest, StatusFits, FieldsFit, Held, Bare;
    var d, c := Front(b), Back(b);
    assert b == d + [c];
    CutNext(d, c);
    if c != 10 {
      ShorterHeld(Rest(d), c);
    } else {
      FieldsNext(d);
      if Cut(d) != [] {
        FewerFit(Fields(d), Rest(d));
      } else {
        NoFields();
      }
    }
  }

  lemma HeadUndone(head: seq<byte>)
    requires Whole(head)
    ensures HeadLegal(Front(head))
    ensures Next(InHead(Front(head)), 10) ==
            Some(if Codings(HeadFields(head)) == [] then InPlain(head, []) else InChunks(head, [], InSize([], [])))
  {
    hide HeadLegal, Cut, Rest, Bare, Codings, EventType, Fields;
    var b := Front(head);
    assert head == b + [10];
    NextHead(b);
  }

  lemma NextHead(b: seq<byte>)
    requires Cut(b) != [] && Bare(Rest(b)) == []
    ensures Next(InHead(b), 10) ==
            Some(if Codings(Fields(b)) == [] then InPlain(b + [10], []) else InChunks(b + [10], [], InSize([], [])))
  {
    hide Cut, Rest, Bare, Codings, Fields;
  }

  lemma PlainUndone(head: seq<byte>, data: seq<byte>)
    requires PlainLegal(head, data) && data != []
    ensures PlainLegal(head, Front(data)) && Running(Front(data)) && data == Front(data) + [Back(data)]
  {
    hide Whole, Running, Closing, Codings, HasLength, LengthOf;
    RunningBefore(data);
  }

  lemma HexBefore(size: seq<byte>)
    requires HexDigits(size) && size != []
    ensures HexDigits(Front(size)) && Back(size) != 13 && Back(size) != 59 && size == Front(size) + [Back(size)]
  {
  }

  lemma ExtensionBefore(x: seq<byte>)
    requires ExtensionFits(x) && x != []
    ensures ExtensionFits(Front(x)) && Back(x) != 13 && x == Front(x) + [Back(x)] && Weight(Front(x)) <= Weight(x)
    ensures Front(x) == [] ==> Back(x) == 59
  {
  }

  /** Part of a size line. */
  lemma SizeUndone(rest: seq<byte>, size: seq<byte>, x: seq<byte>) returns (t: Tail, c: byte)
    requires TailLegal(rest, InSize(size, x)) && (size != [] || x != [])
    ensures TailLegal(rest, t) && t.InSize? && NextSize(t.size, t.extension, c) == InSize(size, x) && TailWeight(t) <= Weight(x)
  {
    hide HexDigits, ExtensionFits, Weight;
    NoExtension();
    if x != [] {
      ExtensionBefore(x);
      t, c := InSize(size, Front(x)), Back(x);
    } else {
      HexBefore(size);
      t, c := InSize(Front(size), []), Back(size);
    }
  }

  lemma LegalTail(head: seq<byte>, cs: seq<Chunk>, t: Tail, u: Tail)
    requires ChunksLegal(head, cs, u) && TailLegal(Rest(ChunkData(cs) + TailData(t)), t)
    requires TailWeight(t) <= TailWeight(u) && Running(ChunkData(cs) + TailData(t))
    requires t.Trailing? ==> u.Trailing? && |t.bytes| <= |u.bytes| && t.extension == u.extension
    ensures ChunksLegal(head, cs, t)
  {
    hide Framed, Running, Closing, Rest, TailLegal, AllChunks, TailWeight, ChunkData, TailData;
  }

  /** One byte less of the tail of a chunked body, and that byte. */
  lemma TailUndone(d: seq<byte>, u: Tail) returns (t: Tail, c: byte)
    requires TailLegal(Rest(d + TailData(u)), u) && u != InSize([], []) && WholeTail(d, u)
    ensures TailLegal(Rest(d + TailData(t)), t) && Running(d + TailData(t)) && TailWeight(t) <= TailWeight(u)
    ensures (t.Trailing? ==> u.Trailing? && |t.bytes| <= |u.bytes| && t.extension == u.extension) && Leads(t, c, u)
  {
    hide Running, Closing, Rest, TrailersFit, HexDigits, ExtensionFits, SizeOf, Weight;
    var data := d + TailData(u);
    match u
    case InSize(size, x) =>
      t, c := SizeUndone(Rest(data), size, x);
    case SizeEnd(size, x) =>
      t, c := InSize(size, x), 13;
    case InData(size, x, part) =>
      t, c := DataUndone(d, size, x, part, u);
    case InDelimiter(k, cr) =>
      if cr {
        t, c := InDelimiter(k, false), 13;
      } else {
        t, c := DataUndone(d, k.size, k.extension, k.data, u);
      }
    case Trailing(size, x, bytes) =>
      if bytes == [] {
        t, c := SizeEnd(size, x), 10;
      } else {
        t, c := Trailing(size, x, Front(bytes)), Back(bytes);
        assert Rest(data) + bytes == Rest(data) + Front(bytes) + [c];
        TrailersBefore(Rest(data) + Front(bytes), c);
      }
  }

  predicate WholeTail(d: seq<byte>, u: Tail) {
    Running(d + TailData(u)) || (JustRead(u) && Closing(d + TailData(u)))
  }

  /** A byte takes one tail to the next, within a chunk. */
  predicate Leads(t: Tail, c: byte, u: Tail) {
    match t
    case InSize(size, x) => u == NextSize(size, x, c)
    case SizeEnd(size, x) => c == 10 && u == NextLine(size, x)
    case InData(size, x, data) => u == NextData(size, x, data + [c])
    case InDelimiter(k, cr) => !cr && c == 13 && u == InDelimiter(k, true)
    case Trailing(size, x, bytes) => u == Trailing(size, x, bytes + [c])
  }

  lemma LeadsNext(head: seq<byte>, cs: seq<Chunk>, t: Tail, c: byte, u: Tail)
    requires Leads(t, c, u)
    ensures Next(InChunks(head, cs, t), c) == Some(InChunks(head, cs, u))
  {
    hide NextSize, NextLine, NextData;
  }

  lemma ChunksUndone(head: seq<byte>, cs: seq<Chunk>, u: Tail) returns (q: Reading, c: byte)
    requires ChunksLegal(head, cs, u)
    ensures Legal(q) && Running(Data(q)) && Next(q, c) == Some(InChunks(head, cs, u))
  {
    hide Framed, Running, Closing, Rest, AllChunks, ChunkData, Leads, TailLegal, TailWeight, Next, JustRead;
    if u == InSize([], []) {
      q, c := StartUndone(head, cs);
    } else {
      var t;
      t, c := TailUndone(ChunkData(cs), u);
      LegalTail(head, cs, t, u);
      LeadsNext(head, cs, t, c, u);
      q := InChunks(head, cs, t);
    }
  }

  lemma DataUndone(d: seq<byte>, size: seq<byte>, x: seq<byte>, part: seq<byte>, u: Tail) returns (t: Tail, c: byte)
    requires SizeFits(size, x) && |part| <= SizeOf(size) && 0 < SizeOf(size)
    requires if part == [] then u == InData(size, x, []) && Running(d + part) else u == NextData(size, x, part)
    requires Running(d + part) || (part != [] && Closing(d + part))
    ensures (forall rest :: TailLegal(rest, t)) && Running(d + TailData(t)) && TailWeight(t) == Weight(x)
    ensures if part == [] then c == 10 && t == SizeEnd(size, x) && NextLine(size, x) == u
            else t == InData(size, x, Front(part)) && part == Front(part) + [c]
  {
    hide Running, Closing, SizeFits, SizeOf, Weight;
    if part == [] {
      t, c := SizeEnd(size, x), 10;
      assert d + [] == d + part;
    } else {
      t, c := InData(size, x, Front(part)), Back(part);
      assert Front(d + part) == d + Front(part);
      RunningBefore(d + part);
    }
  }

  /** Before a size line: the chunk before it, or the head. */
  lemma StartUndone(head: seq<byte>, cs: seq<Chunk>) returns (q: Reading, c: byte)
    requires ChunksLegal(head, cs, InSize([], []))
    ensures Legal(q) && Running(Data(q)) && Next(q, c) == Some(InChunks(head, cs, InSize([], [])))
  {
    hide Running, Next, ChunksLegal, HeadLegal, Codings, HeadFields;
    c := 10;
    if cs == [] {
      LegalIsFramed(head, cs, InSize([], []));
      NoData();
      HeadUndone(head);
      q := InHead(Front(head));
    } else {
      var ds, k := cs[..|cs| - 1], cs[|cs| - 1];
      assert cs == ds + [k];
      ChunkUndone(head, ds, k);
      NextChunk(head, ds, k);
      q := InChunks(head, ds, InDelimiter(k, true));
    }
  }

  lemma LegalIsFramed(head: seq<byte>, cs: seq<Chunk>, t: Tail)
    requires ChunksLegal(head, cs, t)
    ensures Whole(head) && head != [] && Codings(HeadFields(head)) != []
  {
    hide AllChunks, Running, Closing, TailLegal, Codings;
  }

  lemma NextChunk(head: seq<byte>, ds: seq<Chunk>, k: Chunk)
    ensures Next(InChunks(head, ds, InDelimiter(k, true)), 10) == Some(InChunks(head, ds + [k], InSize([], [])))
  {
  }

  lemma ChunkUndone(head: seq<byte>, ds: seq<Chunk>, k: Chunk)
    requires ChunksLegal(head, ds + [k], InSize([], []))
    ensures ChunksLegal(head, ds, InDelimiter(k, true)) && Running(ChunkData(ds) + k.data)
  {
    NoExtension();
    ChunksNext(ds, k);
    hide Framed, Running, Closing, Rest, AllChunks, ChunkFits, Weight, Weights, ChunkData, HexDigits, ExtensionFits;
    assert ChunkData(ds + [k]) + [] == ChunkData(ds) + k.data;
  }

  /** Every reading but the first is one byte more than another. */
  lemma Undone(r: Reading) returns (q: Reading, c: byte)
    requires Legal(r) && r != InHead([])
    ensures Legal(q) && Running(Data(q)) && Next(q, c) == Some(r)
  {
    hide ChunksLegal, PlainLegal, HeadLegal, Next, Running;
    match r
    case InHead(b) =>
      HeadBefore(b);
      NoData();
      q, c := InHead(Front(b)), Back(b);
      assert b == Front(b) + [c];
      NextByte(q, c);
    case InPlain(head, data) =>
      if data == [] {
        PlainIsWhole(head);
        HeadUndone(head);
        NoData();
        q, c := InHead(Front(head)), 10;
      } else {
        PlainUndone(head, data);
        q, c := InPlain(head, Front(data)), Back(data);
        NextByte(q, c);
      }
    case InChunks(head, cs, t) => q, c := ChunksUndone(head, cs, t);
  }

  lemma PlainIsWhole(head: seq<byte>)
    requires PlainLegal(head, [])
    ensures Whole(head) && Codings(HeadFields(head)) == []
  {
  }

  lemma NextByte(q: Reading, c: byte)
    ensures q.InPlain? ==> Next(q, c) == Some(InPlain(q.head, q.data + [c]))
    ensures q.InHead? && !(c == 10 && Cut(q.bytes) != [] && Bare(Rest(q.bytes)) == []) ==> Next(q, c) == Some(InHead(q.bytes + [c]))
  {
    hide Cut, Rest, Bare, Codings, Fields;
  }

  /** The stream has not ended: the decoder is active. */
  lemma RunningIsActive(r: Reading)
    requires Legal(r)
    ensures StateOf(r).error == NoError && StateOf(r).position == |StateOf(r).text|
    ensures StateOf(r).Active() <==> Running(Data(r))
    ensures StateOf(r).done <==> Closing(Data(r))
  {
    hide Running, Closing, HeadLegal, PlainLegal, ChunksLegal, HeadState, PlainState, ChunksState;
    match r
    case InHead(b) =>
      NoData();
      HeadSilent(b);
      HeadActive(b);
    case InPlain(head, data) =>
      PlainActive(head, data);
    case InChunks(head, cs, t) =>
      TailSilent(head, cs, t);
      ChunksActive(head, cs, t);
  }

  lemma PlainActive(head: seq<byte>, data: seq<byte>)
    requires PlainLegal(head, data)
    ensures var s := PlainState(head, data);
            && s.error == NoError && s.position == |s.text|
            && (s.Active() <==> Running(data)) && (s.done <==> Closing(data))
  {
    BegunIs(head);
    Apart(data);
    hide Whole, Running, Closing, Begun, Cut, Rest, Buffer, HasLength, LengthOf, Codings;
  }

  lemma ChunksActive(head: seq<byte>, cs: seq<Chunk>, t: Tail)
    requires ChunksLegal(head, cs, t)
    ensures var s, data := ChunksState(head, cs, t), ChunkData(cs) + TailData(t);
            && s.error == NoError && (s.Active() <==> Running(data)) && (s.done <==> Closing(data))
  {
    hide Running, Closing, Begun, Cut, Rest, Buffer, TailLegal, AllChunks, Framed, ChunkData, Weights, TailWeight, TailData, SizeOf;
    LegalIsFramed(head, cs, t);
    BegunIs(head);
    Apart(ChunkData(cs) + TailData(t));
    hide Whole, Codings;
  }

  lemma HeadActive(b: seq<byte>)
    ensures HeadState(b).Active()
  {
    hide Length, EventType, Lengths, Codings, Cut, Rest;
  }

  lemma Apart(data: seq<byte>)
    ensures !(Running(data) && Closing(data))
  {
    if Running(data) {
      NotClosing(data);
    }
  }

  /** A byte taken by an active decoder. */
  lemma DecodeNext(w: seq<byte>, c: byte)
    requires var s := Decode(START, w).chat; s.Active() && !s.Waiting()
    ensures var d := Decode(START, w); var v := Step(d.chat, c);
            Decode(START, w + [c]) == Decoded(v.Shown(), d.emitted + v.Pending())
  {
    hide Step, Decode;
    var s := Decode(START, w).chat;
    DecodeAppend(START, w, [c]);
    DecodeByte(s, [c]);
    assert [c][1..] == [];
    DecodeNothing(Step(s, c));
    assert [] + Step(s, c).Pending() == Step(s, c).Pending();
  }

  lemma NothingRead()
    ensures Legal(InHead([])) && StateOf(InHead([])) == START && Content(InHead([])) == [] && Decode(START, []) == Decoded(START, [])
  {
    NoFields();
    EmptyHeld();
  }

  /** Every legal reading is taken: the decoder has shown its text and is in its state. */
  lemma {:induction false} LegalIsTaken(r: Reading)
    requires Legal(r)
    ensures Decode(START, Wire(r)) == Decoded(StateOf(r), Content(r))
    decreases |Wire(r)|
  {
    hide Legal, StateOf, Wire, Content, Decode, Next, Running, Step;
    if r == InHead([]) {
      NothingRead();
      NoBytes();
    } else {
      var q, c := Undone(r);
      WireNext(q, c);
      LegalIsTaken(q);
      RunningIsActive(q);
      StepMoves(q, c);
      DecodeNext(Wire(q), c);
    }
  }

  lemma NoBytes()
    ensures Wire(InHead([])) == []
  {
  }

  // ---------------------------------------------------------------- the language

  /** Every byte was taken by an active decoder. */
  predicate Taken(wire: seq<byte>) { wire == [] || Decode(START, Front(wire)).chat.Active() }

  lemma Drained(wire: seq<byte>)
    ensures !Decode(START, wire).chat.Waiting()
  {
    Transcript.DecodeDrains(START, wire);
  }

  lemma StillTaken(w: seq<byte>)
    requires Decode(START, w).chat.Active()
    ensures Taken(w)
  {
    if w != [] {
      hide Decode;
      var v, c := Front(w), [Back(w)];
      assert w == v + c;
      DecodeAppend(START, v, c);
      Drained(v);
      if !Decode(START, v).chat.Active() {
        DecodeOver(Decode(START, v).chat, c);
      }
    }
  }

  /** Whatever is taken without an error is a legal reading. */
  lemma {:induction false} TakenIsLegal(wire: seq<byte>) returns (r: Reading)
    requires Taken(wire) && Decode(START, wire).chat.error == NoError
    ensures Legal(r) && Wire(r) == wire
    decreases |wire|
  {
    hide Legal, StateOf, Wire, Content, Decode, Next, Step;
    if wire == [] {
      NothingRead();
      NoBytes();
      r := InHead([]);
    } else {
      var w, c := Front(wire), Back(wire);
      assert wire == w + [c];
      StillTaken(w);
      var q := TakenIsLegal(w);
      LegalIsTaken(q);
      StepMoves(q, c);
      Drained(w);
      DecodeNext(w, c);
      r := Next(q, c).value;
      WireNext(q, c);
    }
  }

  /** The language of the decoder: a wire it reads to its end is accepted exactly when it
      is a legal reading, in whose state it then is; it is done exactly when that reading
      ends with the line that ends the stream; and it has shown the text of the events. */
  lemma Language(wire: seq<byte>)
    requires Taken(wire)
    ensures var d := Decode(START, wire);
            && (d.chat.error == NoError <==> exists r :: Legal(r) && Wire(r) == wire)
            && (forall r :: Legal(r) && Wire(r) == wire ==>
                  d.chat == StateOf(r) && d.emitted == Content(r) && (d.chat.done <==> Closing(Data(r))))
  {
    hide Decode, Legal, Wire, Content, StateOf, Closing, Running;
    forall r | Legal(r) && Wire(r) == wire
      ensures Decode(START, wire) == Decoded(StateOf(r), Content(r)) && StateOf(r).error == NoError
      ensures StateOf(r).done <==> Closing(Data(r))
    {
      LegalIsTaken(r);
      RunningIsActive(r);
    }
    if Decode(START, wire).chat.error == NoError {
      var r := TakenIsLegal(wire);
    }
  }

  /** Whatever the server sends, all that ever reaches the terminal is the text of the
      events of a legal reading of the first bytes it sent. */
  lemma {:induction false} OnlyEventsShown(wire: seq<byte>) returns (r: Reading)
    ensures Legal(r) && Wire(r) <= wire && Decode(START, wire).emitted == Content(r)
    decreases |wire|
  {
    hide Legal, Wire, Content, Decode, StateOf, Step, Next;
    if wire == [] {
      NothingRead();
      NoBytes();
      r := InHead([]);
    } else {
      var w, c := Front(wire), Back(wire);
      assert wire == w + [c];
      Drained(w);
      if Decode(START, w).chat.Active() {
        StillTaken(w);
        DecodeNext(w, c);
        r := TakenIsLegal(w);
        LegalIsTaken(r);
        StepMoves(r, c);
        if Step(StateOf(r), c).error == NoError {
          WireNext(r, c);
          r := Next(r, c).value;
        } else {
          assert Content(r) + [] == Content(r);
        }
      } else {
        r := OnlyEventsShown(w);
        DecodeAppend(START, w, [c]);
        DecodeOver(Decode(START, w).chat, [c]);
        assert Content(r) + [] == Content(r);
      }
    }
  }
}
