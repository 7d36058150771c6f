/** The JSON reader of chat_stream.c: it validates a whole value and keeps only the
    string at choices[0].delta.content. Functions take the unread bytes and return what
    they leave unread. */
module Json {
  import opened Bytes

  const QUOTE: byte := 34
  const BACKSLASH: byte := 92
  const LBRACE: byte := 123
  const RBRACE: byte := 125
  const LBRACKET: byte := 91
  const RBRACKET: byte := 93
  const COMMA: byte := 44
  const COLON: byte := 58
  const LOWER_U: byte := 117
  const MINUS: byte := 45
  const PLUS: byte := 43
  const ZERO: byte := 48
  const DOT: byte := 46

  const KEY_SIZE := 32           // char key[32]
  const TEXT_SIZE := 4096        // char text[4096]
  const DEPTH_MAX := 16

  /** The terminal's character for a code point. */
  function Ascii(cp: nat): byte {
    if cp == 10 || cp == 13 || cp == 9 || 32 <= cp < 127 then cp
    else if cp == 0xa0 then 32
    else if cp == 0x2018 || cp == 0x2019 then 39
    else if cp == 0x201c || cp == 0x201d then 34
    else if cp == 0x2013 || cp == 0x2014 then 45
    else 63
  }

  function Mapped(cps: seq<nat>): (r: seq<byte>)
    ensures |r| == |cps|
  {
    seq(|cps|, i requires 0 <= i < |cps| => Ascii(cps[i]))
  }

  /** strchr(" \t\r\n", c), which also finds the terminating NUL. */
  predicate Space(c: byte) { c == 32 || c == 9 || c == 13 || c == 10 || c == 0 }

  function Skip(s: seq<byte>): (r: seq<byte>)
    ensures |r| <= |s| && (r == [] || !Space(r[0]))
  {
    if s != [] && Space(s[0]) then Skip(s[1..]) else s
  }

  // ---------------------------------------------------------------- strings

  datatype CharResult = BadChar | Char(cp: nat, rest: seq<byte>)

  predicate IsHex(c: byte) { 48 <= c <= 57 || 97 <= c <= 102 || 65 <= c <= 70 }

  function Hex(c: byte): nat
    requires IsHex(c)
  {
    if c <= 57 then c - 48 else if c >= 97 then c - 87 else c - 55
  }

  predicate IsQuad(h: seq<byte>) { |h| == 4 && forall i :: 0 <= i < 4 ==> IsHex(h[i]) }

  function Quad(h: seq<byte>): (n: nat)
    requires IsQuad(h)
    ensures n < 65536
  {
    Hex(h[0]) * 4096 + Hex(h[1]) * 256 + Hex(h[2]) * 16 + Hex(h[3])
  }

  function UnicodeEscape(s: seq<byte>): CharResult {
    if |s| < 4 || !IsQuad(s[..4]) then BadChar else Char(Quad(s[..4]), s[4..])
  }

  predicate IsHigh(cp: nat) { 0xd800 <= cp <= 0xdbff }

  predicate IsLow(cp: nat) { 0xdc00 <= cp <= 0xdfff }

  function Combined(high: nat, low: nat): nat
    requires IsHigh(high) && IsLow(low)
  {
    0x10000 + (high - 0xd800) * 1024 + low - 0xdc00
  }

  /** The low half of a surrogate pair. */
  function LowHalf(high: nat, s: seq<byte>): CharResult
    requires IsHigh(high)
  {
    if |s| < 6 || s[0] != BACKSLASH || s[1] != LOWER_U then BadChar
    else
      var low := UnicodeEscape(s[2..]);
      if low.BadChar? || !IsLow(low.cp) then BadChar else Char(Combined(high, low.cp), low.rest)
  }

  function LongEscape(s: seq<byte>): CharResult {
    var c := UnicodeEscape(s);
    if c.BadChar? then c
    else if IsHigh(c.cp) then LowHalf(c.cp, c.rest)
    else if IsLow(c.cp) then BadChar
    else c
  }

  /** The letters of the short escapes and what they stand for. */
  const LETTERS: seq<byte> := [34, 92, 47, 98, 102, 110, 114, 116]
  const CODES: seq<nat> := [34, 92, 47, 8, 12, 10, 13, 9]

  function ShortEscape(c: byte, i: nat): (r: nat)
    requires i <= 8
    ensures i <= r <= 8
    ensures r < 8 ==> LETTERS[r] == c
    ensures forall j :: i <= j < r ==> LETTERS[j] != c
    decreases 8 - i
  {
    if i == 8 || LETTERS[i] == c then i else ShortEscape(c, i + 1)
  }

  function EscapedChar(s: seq<byte>): CharResult {
    if s == [] then BadChar
    else if s[0] == LOWER_U then LongEscape(s[1..])
    else
      var i := ShortEscape(s[0], 0);
      if i == 8 then BadChar else Char(CODES[i], s[1..])
  }

  function Continuation(cp: nat, extra: nat, s: seq<byte>): (r: CharResult)
    ensures r.Char? ==> |r.rest| <= |s|
    decreases extra
  {
    if extra == 0 then Char(cp, s)
    else if s == [] || !(128 <= s[0] < 192) then BadChar
    else Continuation(cp * 64 + (s[0] - 128), extra - 1, s[1..])
  }

  predicate Scalar(cp: nat) { cp <= 0x10ffff && !IsHigh(cp) && !IsLow(cp) }

  function Utf8Char(lead: byte, s: seq<byte>): CharResult
    requires lead >= 128
  {
    if !(0xc2 <= lead <= 0xf4) then BadChar
    else
      var extra := if lead <= 0xdf then 1 else if lead <= 0xef then 2 else 3;
      var minimum := if lead <= 0xdf then 0x80 else if lead <= 0xef then 0x800 else 0x10000;
      var start := if lead <= 0xdf then lead - 0xc0 else if lead <= 0xef then lead - 0xe0 else lead - 0xf0;
      var c := Continuation(start, extra, s);
      if c.BadChar? || c.cp < minimum || !Scalar(c.cp) then BadChar else c
  }

  /** One character of a string, its closing quote excluded. */
  function ReadChar(s: seq<byte>): (r: CharResult)
    requires s != [] && s[0] != QUOTE
    ensures r.Char? ==> |r.rest| < |s|
  {
    if s[0] < 32 then BadChar
    else if s[0] == BACKSLASH then EscapedChar(s[1..])
    else if s[0] >= 128 then Utf8Char(s[0], s[1..])
    else Char(s[0], s[1..])
  }

  datatype StringResult = BadString | Str(cps: seq<nat>, rest: seq<byte>)

  function ReadChars(s: seq<byte>): (r: StringResult)
    ensures r.Str? ==> |r.rest| < |s|
    decreases |s|
  {
    if s == [] then BadString
    else if s[0] == QUOTE then Str([], s[1..])
    else
      var c := ReadChar(s);
      if c.BadChar? then BadString
      else
        var r := ReadChars(c.rest);
        if r.BadString? then r else Str([c.cp] + r.cps, r.rest)
  }

  function ReadString(s: seq<byte>): (r: StringResult)
    ensures r.Str? ==> |r.rest| < |s|
  {
    if s == [] || s[0] != QUOTE then BadString else ReadChars(s[1..])
  }

  // ---------------------------------------------------------------- values

  /** Where a value stands on the way to choices[0].delta.content. */
  datatype Path = Elsewhere | Root | Choices | Choice | Delta | Content

  datatype Found = Found(seen: bool, text: seq<byte>, providerError: bool)

  const NOTHING := Found(false, [], false)

  function NextPath(path: Path, key: seq<nat>): Path {
    if |key| >= KEY_SIZE then Elsewhere
    else if path == Root && Mapped(key) == Text("choices") then Choices
    else if path == Choice && Mapped(key) == Text("delta") then Delta
    else if path == Delta && Mapped(key) == Text("content") then Content
    else Elsewhere
  }

  predicate MarksError(path: Path, key: seq<nat>) {
    |key| < KEY_SIZE && path == Root && Mapped(key) == Text("error")
  }

  function NoteKey(f: Found, path: Path, key: seq<nat>): Found {
    f.(providerError := f.providerError || MarksError(path, key))
  }

  datatype ValueResult = BadValue | Parsed(found: Found, rest: seq<byte>)

  predicate Digit(c: byte) { 48 <= c <= 57 }

  function SkipDigits(s: seq<byte>): (r: seq<byte>)
    ensures |r| <= |s|
  {
    if s != [] && Digit(s[0]) then SkipDigits(s[1..]) else s
  }

  datatype Rest = Refused | Rest(rest: seq<byte>)

  function DigitsOf(s: seq<byte>): (r: Rest)
    ensures r.Rest? ==> |r.rest| < |s|
  {
    if s == [] || !Digit(s[0]) then Refused else Rest(SkipDigits(s))
  }

  function IntegerPart(s: seq<byte>): (r: Rest)
    ensures r.Rest? ==> |r.rest| < |s|
  {
    if s != [] && s[0] == ZERO then Rest(s[1..]) else DigitsOf(s)
  }

  function FractionPart(s: seq<byte>): (r: Rest)
    ensures r.Rest? ==> |r.rest| <= |s|
  {
    if s == [] || s[0] != DOT then Rest(s) else DigitsOf(s[1..])
  }

  predicate IsExponent(c: byte) { c == 101 || c == 69 }

  predicate IsSign(c: byte) { c == PLUS || c == MINUS }

  function ExponentPart(s: seq<byte>): (r: Rest)
    ensures r.Rest? ==> |r.rest| <= |s|
  {
    if s == [] || !IsExponent(s[0]) then Rest(s)
    else
      var t := s[1..];
      DigitsOf(if t != [] && IsSign(t[0]) then t[1..] else t)
  }

  function ReadNumber(s: seq<byte>): (r: Rest)
    requires s != []
    ensures r.Rest? ==> |r.rest| < |s|
  {
    var i := IntegerPart(if s[0] == MINUS then s[1..] else s);
    if i.Refused? then i
    else
      var f := FractionPart(i.rest);
      if f.Refused? then f else ExponentPart(f.rest)
  }

  function Word(i: nat): seq<byte> {
    if i == 0 then Text("true") else if i == 1 then Text("false") else Text("null")
  }

  /** A literal chosen by its first letter, or a number. */
  function ReadScalar(s: seq<byte>): (r: Rest)
    requires s != []
    ensures r.Rest? ==> |r.rest| < |s|
  {
    if s[0] == 116 || s[0] == 102 || s[0] == 110 then
      var w := Word(if s[0] == 116 then 0 else if s[0] == 102 then 1 else 2);
      if w <= s then Rest(s[|w|..]) else Refused
    else ReadNumber(s)
  }

  function ReadText(s: seq<byte>, path: Path, f: Found): (r: ValueResult)
    ensures r.Parsed? ==> |r.rest| < |s|
  {
    if path == Content && f.seen then BadValue
    else
      var t := ReadString(s);
      if t.BadString? || (path == Content && |t.cps| >= TEXT_SIZE) then BadValue
      else Parsed(if path == Content then f.(seen := true, text := Mapped(t.cps)) else f, t.rest)
  }

  function ReadValue(s: seq<byte>, depth: nat, path: Path, f: Found): (r: ValueResult)
    ensures r.Parsed? ==> |r.rest| < |s|
    decreases |s|, 0
  {
    var t := Skip(s);
    if depth > DEPTH_MAX || t == [] then BadValue
    else if t[0] == LBRACE then
      var u := Skip(t[1..]);
      if u != [] && u[0] == RBRACE then Parsed(f, u[1..]) else ReadMembers(u, depth, path, f)
    else if t[0] == LBRACKET then
      var u := Skip(t[1..]);
      if u != [] && u[0] == RBRACKET then Parsed(f, u[1..]) else ReadElements(u, depth, path == Choices, f)
    else if t[0] == QUOTE then ReadText(t, path, f)
    else
      var r := ReadScalar(t);
      if r.Refused? then BadValue else Parsed(f, r.rest)
  }

  /** From a key to the object's closing brace. */
  function ReadMembers(s: seq<byte>, depth: nat, path: Path, f: Found): (r: ValueResult)
    ensures r.Parsed? ==> |r.rest| < |s|
    decreases |s|, 0
  {
    var key := ReadString(s);
    if key.BadString? then BadValue
    else
      var t := Skip(key.rest);
      if t == [] || t[0] != COLON then BadValue
      else
        var v := ReadValue(t[1..], depth + 1, NextPath(path, key.cps), NoteKey(f, path, key.cps));
        if v.BadValue? then v
        else
          var u := Skip(v.rest);
          if u == [] then BadValue
          else if u[0] == RBRACE then Parsed(v.found, u[1..])
          else if u[0] != COMMA then BadValue
          else ReadMembers(Skip(u[1..]), depth, path, v.found)
  }

  /** From an element to the array's closing bracket; chosen for element 0 of choices. */
  function ReadElements(s: seq<byte>, depth: nat, chosen: bool, f: Found): (r: ValueResult)
    ensures r.Parsed? ==> |r.rest| < |s|
    decreases |s|, 1
  {
    var v := ReadValue(s, depth + 1, if chosen then Choice else Elsewhere, f);
    if v.BadValue? then v
    else
      var u := Skip(v.rest);
      if u == [] then BadValue
      else if u[0] == RBRACKET then Parsed(v.found, u[1..])
      else if u[0] != COMMA then BadValue
      else ReadElements(u[1..], depth, false, v.found)
  }
}
