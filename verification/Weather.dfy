/** The weather client's response decoder, weather_http.c: a complete response in one
    NUL-terminated buffer, its chunks moved together in place. */
module Weather {
  import opened Bytes
  import opened Options
  import Http = HttpStream

  const CR: byte := 13
  const LF: byte := 10
  const COLON: byte := 58
  const SEMICOLON: byte := 59

  const BODY_MAX := 8192
  const HEADER_MAX := 2048
  const SIZE_LINE_MAX := 64

  // ---------------------------------------------------------------- searching

  predicate CrlfAt(s: seq<byte>, i: nat) { i + 1 < |s| && s[i] == CR && s[i + 1] == LF }

  /** strstr for CRLF: its first offset, or the length when there is none. */
  function FindCrlf(s: seq<byte>): (i: nat)
    ensures i <= |s| && (i < |s| ==> CrlfAt(s, i))
  {
    if s == [] || CrlfAt(s, 0) then 0 else 1 + FindCrlf(s[1..])
  }

  /** The first empty line: the offset of CRLF CRLF, or the length. */
  function FindBlank(s: seq<byte>): (i: nat)
    ensures i <= |s| && (i < |s| ==> CrlfAt(s, i) && CrlfAt(s, i + 2))
  {
    if s == [] || (CrlfAt(s, 0) && CrlfAt(s, 2)) then 0 else 1 + FindBlank(s[1..])
  }

  // ---------------------------------------------------------------- numbers

  /** A number no greater than the largest body. */
  predicate Fits(digits: seq<byte>, base: nat) {
    digits != [] && Http.AllDigits(digits, base) && Http.Value(digits, base) <= BODY_MAX
  }

  /** The overflow test of both number loops is exact. */
  lemma LimitTest(v: nat, base: nat, digit: nat)
    requires (base == 10 || base == 16) && digit < base
    ensures v > (BODY_MAX - digit) / base <==> Http.Shifted(v, base, digit) > BODY_MAX
  {
  }

  lemma PrefixDigits(d: seq<byte>, base: nat, i: nat)
    requires (base == 10 || base == 16) && i < |d|
    ensures Http.Value(d[..i + 1], base) == Http.Shifted(Http.Value(d[..i], base), base, Http.Digit(d[i]))
    ensures Http.Value(d[..i + 1], base) > BODY_MAX ==> Http.Value(d, base) > BODY_MAX
  {
    assert d[..i + 1][..i] == d[..i];
    Http.ValueGrows(d, base, i + 1);
  }

  /** decimal, and the digit loop of a chunk size: over bytes first..end of the buffer. */
  method ScanNumber(a: array<byte>, first: nat, end: nat, base: nat) returns (ok: bool, value: nat)
    requires first <= end <= a.Length && (base == 10 || base == 16)
    ensures var d := Http.Digits(a[first..end], base);
            ok == Fits(d, base) && (ok ==> value == Http.Value(d, base))
  {
    hide Http.Shifted, Http.Value, Http.Digit;
    ghost var d := Http.Digits(a[first..end], base);
    assert Http.Value([], base) == 0 by {
      Http.EmptyValue(base);
    }
    value, ok := 0, true;
    var i := first;
    while ok && i < end && !(base == 16 && a[i] == SEMICOLON)
      invariant first <= i <= first + |d| <= end && d == a[first..first + |d|]
      invariant d == Http.Digits(a[first..end], base)
      invariant forall j :: 0 <= j < i - first ==> Http.Digit(d[j]) < base
      invariant value == Http.Value(d[..i - first], base) && value <= BODY_MAX
      invariant !ok ==> !Fits(d, base)
      decreases end - i, ok
    {
      var digit := Http.Digit(a[i]);
      PrefixDigits(d, base, i - first);
      if digit < base {
        LimitTest(value, base, digit);
      }
      if digit >= base || value > (BODY_MAX - digit) / base {
        ok := false;
      } else {
        value := Http.Shifted(value, base, digit);
        i := i + 1;
      }
    }
    if ok {
      assert d[..i - first] == d;
    }
    ok := ok && i != first;
  }

  // ---------------------------------------------------------------- chunks

  /** Trailer lines, each with a colon, up to an empty line that ends the buffer. */
  predicate TrailersOk(s: seq<byte>)
    decreases |s|
  {
    var n := FindCrlf(s);
    n < |s| && (if n == 0 then |s| == 2 else Http.Find(s[..n], COLON) < n && TrailersOk(s[n + 2..]))
  }

  /** The body of a chunked message that may still hold room bytes. */
  function Chunks(s: seq<byte>, room: nat): Option<seq<byte>>
    decreases |s|
  {
    var n := FindCrlf(s);
    if n == |s| || n > SIZE_LINE_MAX || n == 0 || !Fits(Http.Digits(s[..n], 16), 16) then None
    else
      var size := Http.Value(Http.Digits(s[..n], 16), 16);
      var rest := s[n + 2..];
      if size == 0 then if TrailersOk(rest) then Some([]) else None
      else if |rest| < size + 2 || size > room || !CrlfAt(rest, size) then None
      else
        var more := Chunks(rest[size + 2..], room - size);
        if more.None? then None else Some(rest[..size] + more.value)
  }

  /** What follows a size line decides the rest. */
  function AfterSize(rest: seq<byte>, size: nat, room: nat): Option<seq<byte>> {
    if size == 0 then if TrailersOk(rest) then Some([]) else None
    else if |rest| < size + 2 || size > room || !CrlfAt(rest, size) then None
    else
      var more := Chunks(rest[size + 2..], room - size);
      if more.None? then None else Some(rest[..size] + more.value)
  }

  lemma SizeLine(s: seq<byte>, n: nat, size: nat, room: nat)
    requires n == FindCrlf(s) && 0 < n < |s| && n <= SIZE_LINE_MAX
    requires Fits(Http.Digits(s[..n], 16), 16) && size == Http.Value(Http.Digits(s[..n], 16), 16)
    ensures Chunks(s, room) == AfterSize(s[n + 2..], size, room)
  {
    hide Fits, Http.Value, Http.Digits, TrailersOk, FindCrlf, CrlfAt;
  }

  /** strstr(wire + from, CRLF) in the NUL-terminated buffer. */
  method Search(a: array<byte>, from: nat, length: nat) returns (next: nat)
    requires from <= length < a.Length && a[length] == 0
    ensures next == from + FindCrlf(a[from..length])
  {
    next := from;
    assert a[from..length] == a[next..length];
    while next < length && !(a[next] == CR && a[next + 1] == LF)
      invariant from <= next <= length
      invariant from + FindCrlf(a[from..length]) == next + FindCrlf(a[next..length])
    {
      assert a[next..length][1..] == a[next + 1..length];
      assert !CrlfAt(a[next..length], 0);
      next := next + 1;
    }
    if next < length {
      assert next + 1 < length;
      assert CrlfAt(a[next..length], 0);
    }
  }

  /** memmove to a lower address. */
  method MoveDown(a: array<byte>, to: nat, from: nat, n: nat)
    requires to <= from && from + n <= a.Length
    modifies a
    ensures a[to..to + n] == old(a[from..from + n])
    ensures a[..to] == old(a[..to]) && a[to + n..] == old(a[to + n..])
  {
    ghost var was := a[..];
    var i := 0;
    while i < n
      invariant 0 <= i <= n
      invariant a[to..to + i] == was[from..from + i]
      invariant a[..to] == was[..to] && a[to + i..] == was[to + i..]
    {
      assert a[from + i] == a[to + i..][from - to];
      a[to + i] := a[from + i];
      i := i + 1;
      assert a[to + i..] == was[to + i - 1..][1..];
    }
  }

  lemma SplitAt(a: array<byte>, at: nat, next: nat, length: nat)
    requires at <= next && next + 2 <= length <= a.Length
    ensures a[at..length][..next - at] == a[at..next]
    ensures a[at..length][next - at + 2..] == a[next + 2..length]
  {
  }

  /** The trailer loop, its cursor the bytes not yet read. */
  method Trailers(lines: seq<byte>) returns (ok: bool)
    ensures ok == TrailersOk(lines)
  {
    hide TrailersOk, FindCrlf, Http.Find;
    var rest, open := lines, true;
    ok := false;
    while open
      invariant open ==> !ok && TrailersOk(rest) == TrailersOk(lines)
      invariant !open ==> ok == TrailersOk(lines)
      decreases open, |rest|
    {
      TrailerLine(rest);
      var n := FindCrlf(rest);
      open := false;
      if n == 0 {
        ok := |rest| == 2;
      } else if n < |rest| && Http.Find(rest[..n], COLON) < n {
        open := true;
        rest := rest[n + 2..];
      }
    }
  }

  lemma TrailerLine(s: seq<byte>)
    ensures var n := FindCrlf(s);
            TrailersOk(s) ==
            (n < |s| && (if n == 0 then |s| == 2 else Http.Find(s[..n], COLON) < n && TrailersOk(s[n + 2..])))
  {
    hide FindCrlf, Http.Find;
  }

  /** The whole decoding, once the chunks before read have been moved to data. */
  function Resumed(moved: seq<byte>, rest: seq<byte>): Option<seq<byte>> {
    if |moved| > BODY_MAX then None
    else
      var more := Chunks(rest, BODY_MAX - |moved|);
      if more.None? then None else Some(moved + more.value)
  }

  lemma OneChunk(moved: seq<byte>, s: seq<byte>, n: nat, size: nat)
    requires |moved| <= BODY_MAX && n == FindCrlf(s) && 0 < n < |s| && n <= SIZE_LINE_MAX
    requires Fits(Http.Digits(s[..n], 16), 16) && size == Http.Value(Http.Digits(s[..n], 16), 16)
    ensures size == 0 ==> Resumed(moved, s) == if TrailersOk(s[n + 2..]) then Some(moved) else None
    ensures var rest := s[n + 2..];
            size > 0 ==>
              if |rest| < size + 2 || |moved| + size > BODY_MAX || !CrlfAt(rest, size) then Resumed(moved, s) == None
              else Resumed(moved, s) == Resumed(moved + rest[..size], rest[size + 2..])
  {
    hide Fits, Http.Value, Http.Digits;
    if size > 0 && |s[n + 2..]| >= size + 2 && |moved| + size <= BODY_MAX {
      var rest := s[n + 2..];
      var more := Chunks(rest[size + 2..], BODY_MAX - |moved| - size);
      if more.Some? {
        assert moved + (rest[..size] + more.value) == moved + rest[..size] + more.value;
      }
    } else {
      assert moved + [] == moved;
    }
  }

  /** A chunk's data and CRLF, moved down if they are all there. */
  method TakeChunk(a: array<byte>, data: nat, write: nat, body: nat, chunk: nat, length: nat) returns (ok: bool)
    requires data <= write <= body <= length < a.Length && chunk > 0
    modifies a
    ensures var rest := old(a[body..length]);
            ok == !(|rest| < chunk + 2 || write - data + chunk > BODY_MAX || !CrlfAt(rest, chunk))
    ensures ok ==> a[..write] == old(a[..write]) && a[write..write + chunk] == old(a[body..length])[..chunk]
                   && body + chunk + 2 <= length && a[body + chunk..] == old(a[body + chunk..])
    ensures !ok ==> a[..] == old(a[..])
  {
    ok := length - body >= chunk + 2 && write - data + chunk <= BODY_MAX && a[body + chunk] == CR && a[body + chunk + 1] == LF;
    ghost var rest := a[body..length];
    assert |rest| >= chunk + 2 ==> rest[chunk] == a[body + chunk] && rest[chunk + 1] == a[body + chunk + 1];
    if ok {
      ghost var was := a[..];
      MoveDown(a, write, body, chunk);
      assert a[body + chunk..] == a[write + chunk..][body - write..];
      assert was[body + chunk..] == was[write + chunk..][body - write..];
    }
  }

  /** One turn of the chunk loop: a chunk is moved down, or the outcome is known. */
  method NextChunk(a: array<byte>, data: nat, length: nat, read: nat, write: nat)
    returns (open: bool, ok: bool, read': nat, write': nat)
    requires data <= write <= read <= length < a.Length && a[length] == 0 && write - data <= BODY_MAX
    modifies a
    ensures data <= write' <= read' <= length && write' - data <= BODY_MAX
    ensures a[..data] == old(a[..data]) && a[length..] == old(a[length..])
    ensures open ==> !ok && read' > read
    ensures var was := Resumed(old(a[data..write]), old(a[read..length]));
            if open then Resumed(a[data..write'], a[read'..length]) == was
            else ok == was.Some? && (ok ==> a[data..write'] == was.value)
  {
    hide Chunks, Resumed, FindCrlf, TrailersOk, Fits, Http.Value, Http.Digits, CrlfAt;
    open, ok, read', write' := false, false, read, write;
    ghost var s, moved := a[read..length], a[data..write];
    var step, chunk := ReadSize(a, read, length);
    if step == 0 {
      NoChunk(moved, s);
    } else {
      var body := read + step;
      SplitAt(a, read, body - 2, length);
      OneChunk(moved, s, step - 2, chunk);
      if chunk == 0 {
        ok := Trailers(a[body..length]);
      } else {
        ghost var was := a[..];
        WasParts(a, was, data, write, body, length);
        open := TakeChunk(a, data, write, body, chunk, length);
        if open {
          read', write' := body + chunk + 2, write + chunk;
          ChunkMoved(a, was, data, write', body, chunk, length);
        }
      }
    }
  }

  lemma WasParts(a: array<byte>, was: seq<byte>, data: nat, write: nat, body: nat, length: nat)
    requires was == a[..] && data <= write && body <= length <= a.Length && write <= a.Length
    ensures was[data..write] == a[data..write] && was[body..length] == a[body..length]
  {
  }

  /** The chunk loop: reads ahead of where it writes, in the same buffer. */
  method Compact(a: array<byte>, data: nat, length: nat) returns (ok: bool, bodyLength: nat)
    requires data <= length < a.Length && a[length] == 0
    modifies a
    ensures ok == Chunks(old(a[data..length]), BODY_MAX).Some?
    ensures ok ==> data + bodyLength <= length &&
                   a[data..data + bodyLength] == Chunks(old(a[data..length]), BODY_MAX).value
    ensures a[..data] == old(a[..data]) && a[length..] == old(a[length..])
  {
    ghost var whole := Chunks(a[data..length], BODY_MAX);
    var read, write, open := data, data, true;
    ok := false;
    assert a[data..data] == [];
    ResumedStart(a[data..length]);
    hide Chunks, Resumed;
    while open
      invariant data <= write <= read <= length && write - data <= BODY_MAX
      invariant a[..data] == old(a[..data]) && a[length..] == old(a[length..]) && a[length] == 0
      invariant open ==> Resumed(a[data..write], a[read..length]) == whole
      invariant !open ==> ok == whole.Some? && (ok ==> a[data..write] == whole.value)
      decreases open, length - read
    {
      open, ok, read, write := NextChunk(a, data, length, read, write);
    }
    bodyLength := write - data;
  }

  /** After a move the parts of the buffer the loop speaks of are as they should be. */
  lemma ChunkMoved(a: array<byte>, was: seq<byte>, data: nat, write: nat, body: nat, chunk: nat, length: nat)
    requires |was| == a.Length && data + chunk <= write && write - chunk <= body && body + chunk + 2 <= length < a.Length
    requires a[..write - chunk] == was[..write - chunk] && a[write - chunk..write] == was[body..length][..chunk]
    requires a[body + chunk..] == was[body + chunk..]
    ensures a[data..write] == was[data..write - chunk] + was[body..length][..chunk]
    ensures a[body + chunk + 2..length] == was[body..length][chunk + 2..]
    ensures a[..data] == was[..data] && a[length..] == was[length..]
  {
    var cut := body + chunk;
    forall k | cut <= k < a.Length
      ensures a[k] == was[k]
    {
      assert a[k] == a[cut..][k - cut] && was[k] == was[cut..][k - cut];
    }
    forall k | 0 <= k < write - chunk
      ensures a[k] == was[k]
    {
      assert a[k] == a[..write - chunk][k] && was[k] == was[..write - chunk][k];
    }
    assert a[data..write] == a[data..write - chunk] + a[write - chunk..write];
  }

  lemma ResumedStart(s: seq<byte>)
    ensures Resumed([], s) == Chunks(s, BODY_MAX)
  {
    hide Chunks;
    var c := Chunks(s, BODY_MAX);
    if c.Some? {
      assert [] + c.value == c.value;
    }
  }

  lemma NoChunk(moved: seq<byte>, s: seq<byte>)
    requires var n := FindCrlf(s); n == |s| || n > SIZE_LINE_MAX || n == 0 || !Fits(Http.Digits(s[..n], 16), 16)
    ensures Resumed(moved, s) == None
  {
  }

  /** A chunk's size line: how far it reaches with its CRLF, or 0 if it is refused. */
  method ReadSize(a: array<byte>, read: nat, length: nat) returns (step: nat, chunk: nat)
    requires read <= length < a.Length && a[length] == 0
    ensures var s := a[read..length]; var n := FindCrlf(s);
            if n == |s| || n > SIZE_LINE_MAX || n == 0 || !Fits(Http.Digits(s[..n], 16), 16) then step == 0
            else step == n + 2 <= |s| && chunk == Http.Value(Http.Digits(s[..n], 16), 16)
  {
    step, chunk := 0, 0;
    var next := Search(a, read, length);
    if next < length && next - read <= SIZE_LINE_MAX && next != read {
      var ok;
      assert a[read..length][..next - read] == a[read..next];
      ok, chunk := ScanNumber(a, read, next, 16);
      if ok {
        step := next + 2 - read;
      }
    }
  }

  // ---------------------------------------------------------------- headers

  datatype Framing = Framing(chunked: bool, length: Option<nat>)

  function Trimmed(s: seq<byte>): seq<byte> { Http.TrimBlanks(Http.SkipBlanks(s)) }

  function FieldFraming(f: Framing, name: seq<byte>, value: seq<byte>): Option<Framing> {
    if Http.SameName(name, Text("Content-Length")) then
      if f.length.Some? || !Fits(value, 10) then None else Some(f.(length := Some(Http.Value(value, 10))))
    else if Http.SameName(name, Text("Transfer-Encoding")) then
      if f.chunked || !Http.SameName(value, Text("chunked")) then None else Some(f.(chunked := true))
    else if Http.SameName(name, Text("Content-Encoding")) && !Http.SameName(value, Text("identity")) then None
    else Some(f)
  }

  /** The header lines, each ended by CRLF. */
  function Fields(s: seq<byte>, f: Framing): Option<Framing>
    decreases |s|
  {
    if s == [] then Some(f)
    else
      var n := FindCrlf(s);
      if n == |s| then None
      else
        var colon := Http.Find(s[..n], COLON);
        if colon == n then None
        else
          var g := FieldFraming(f, s[..colon], Trimmed(s[colon + 1..n]));
          if g.None? then None else Fields(s[n + 2..], g.value)
  }

  datatype Head = BadHead | Head(status: nat, framing: Framing, data: nat)

  /** Everything before the body: the status, the framing and where the body starts. */
  function ReadHead(wire: seq<byte>): (h: Head)
    ensures h.Head? ==> h.data <= |wire|
  {
    var end, line := FindBlank(wire), FindCrlf(wire);
    if 0 in wire || end == |wire| || end > HEADER_MAX || line < 12 || !Http.StatusLineOk(wire[..line]) then BadHead
    else
      var f := if line + 2 < end then Fields(wire[line + 2..end + 2], Framing(false, None)) else Some(Framing(false, None));
      if f.None? then BadHead
      else
        Head((wire[9] as int - 48) * 100 + (wire[10] as int - 48) * 10 + (wire[11] as int - 48), f.value, end + 4)
  }

  function ReadBody(f: Framing, data: seq<byte>): Option<seq<byte>> {
    if f.chunked then if f.length.Some? then None else Chunks(data, BODY_MAX)
    else if |data| > BODY_MAX || (f.length.Some? && |data| != f.length.value) then None
    else Some(data)
  }

  datatype Decoded = Refused | Decoded(status: nat, body: seq<byte>)

  /** z80_weather_http_decode. */
  function Decode(wire: seq<byte>): Decoded {
    var h := ReadHead(wire);
    if h.BadHead? then Refused
    else
      var b := ReadBody(h.framing, wire[h.data..]);
      if b.None? then Refused else Decoded(h.status, b.value)
  }

  /** The decoder on its buffer: the body is left where it starts, NUL-terminated. */
  method DecodeInPlace(a: array<byte>, length: nat) returns (ok: bool, status: nat, body: nat, bodyLength: nat)
    requires length < a.Length && a[length] == 0
    modifies a
    ensures ok == Decode(old(a[..length])).Decoded?
    ensures ok ==> body + bodyLength <= length && a[body + bodyLength] == 0
                   && Decoded(status, a[body..body + bodyLength]) == Decode(old(a[..length]))
  {
    hide ReadHead, Chunks;
    ghost var wire := a[..length];
    var h := ReadHead(a[..length]);
    ok, status, body, bodyLength := h.Head?, 0, 0, 0;
    if ok {
      status, body := h.status, h.data;
      assert wire[body..] == a[body..length];
      if !h.framing.chunked {
        bodyLength := length - body;
        ok := bodyLength <= BODY_MAX && (h.framing.length.Some? ==> bodyLength == h.framing.length.value);
      } else if h.framing.length.Some? {
        ok := false;
      } else {
        ok, bodyLength := Compact(a, body, length);
      }
      if ok {
        ghost var decoded := a[body..body + bodyLength];
        a[body + bodyLength] := 0;
        assert a[body..body + bodyLength] == decoded;
      }
    }
  }
}
