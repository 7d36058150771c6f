/** JSON as section 2 of RFC 8259 writes it, with every choice of white space (the reader
    also takes NUL as such) and spelling, and what the reader makes of each text: it accepts it, stops at its end
    and keeps exactly the string at choices[0].delta.content. */
module JsonText {
  import opened Bytes
  import opened Json

  // ---------------------------------------------------------------- texts

  /** A character of the text, as a byte. */
  function Ch(c: char): byte
    requires c as int < 128
  {
    c as int
  }

  const LOWER_DIGITS := "0123456789abcdef"
  const UPPER_DIGITS := "0123456789ABCDEF"
  const SHORT_NAMES := "\"\\/bfnrt"
  const SHORT_CODES: seq<nat> := [34, 92, 47, 8, 12, 10, 13, 9]

  predicate HexDigit(c: byte, d: int) {
    0 <= d < 16 && (c == LOWER_DIGITS[d] as int || c == UPPER_DIGITS[d] as int)
  }

  /** Four hexadecimal digits, in either case, that spell n. */
  predicate HexOf(h: seq<byte>, n: nat) {
    |h| == 4 && HexDigit(h[0], n / 4096) && HexDigit(h[1], n / 256 % 16) && HexDigit(h[2], n / 16 % 16) && HexDigit(h[3], n % 16)
  }

  /** One character, as itself in UTF-8 or escaped: by a letter, by its number, or by the
      numbers of its two surrogates. */
  datatype Unit = Raw(cp: nat) | Short(i: nat) | Escaped(cp: nat, h: seq<byte>) | Pair(cp: nat, high: seq<byte>, low: seq<byte>)

  predicate UnitOk(u: Unit) {
    match u
    case Raw(cp) => 32 <= cp < 0x110000 && cp != Ch('\"') && cp != Ch('\\') && !(0xd800 <= cp < 0xe000)
    case Short(i) => i < 8
    case Escaped(cp, h) => HexOf(h, cp) && !(0xd800 <= cp < 0xe000)
    case Pair(cp, high, low) =>
      && 0x10000 <= cp < 0x110000
      && HexOf(high, 0xd800 + (cp - 0x10000) / 1024) && HexOf(low, 0xdc00 + (cp - 0x10000) % 1024)
  }

  function CodePoint(u: Unit): nat
    requires UnitOk(u)
  {
    if u.Short? then SHORT_CODES[u.i] else u.cp
  }

  function Utf8(cp: nat): seq<byte>
    requires cp < 0x110000
  {
    if cp < 0x80 then [cp]
    else if cp < 0x800 then [0xc0 + cp / 64, 0x80 + cp % 64]
    else if cp < 0x10000 then [0xe0 + cp / 4096, 0x80 + cp / 64 % 64, 0x80 + cp % 64]
    else [0xf0 + cp / 262144, 0x80 + cp / 4096 % 64, 0x80 + cp / 64 % 64, 0x80 + cp % 64]
  }

  function Spelling(u: Unit): seq<byte>
    requires UnitOk(u)
  {
    match u
    case Raw(cp) => Utf8(cp)
    case Short(i) => [Ch('\\'), SHORT_NAMES[i] as int]
    case Escaped(_, h) => [Ch('\\'), Ch('u')] + h
    case Pair(_, high, low) => [Ch('\\'), Ch('u')] + high + [Ch('\\'), Ch('u')] + low
  }

  /** The reader's digits are these. */
  lemma HexExact(c: byte, d: int)
    ensures HexDigit(c, d) <==> IsHex(c) && Hex(c) == d
  {
  }

  lemma Digits16(a: nat, b: nat, c: nat, d: nat)
    requires a < 16 && b < 16 && c < 16 && d < 16
    ensures var n := a * 4096 + b * 256 + c * 16 + d; n / 4096 == a && n / 256 % 16 == b && n / 16 % 16 == c && n % 16 == d
  {
    var n := a * 4096 + b * 256 + c * 16 + d;
    assert n / 16 == a * 256 + b * 16 + c && n / 256 == a * 16 + b;
  }

  lemma Split16(n: nat)
    ensures n / 4096 * 4096 + n / 256 % 16 * 256 + n / 16 % 16 * 16 + n % 16 == n
  {
    assert n / 256 / 16 == n / 4096 && n / 16 / 16 == n / 256;
  }

  lemma QuadRead(h: seq<byte>, n: nat)
    requires HexOf(h, n)
    ensures IsQuad(h) && Quad(h) == n
  {
    HexExact(h[0], n / 4096);
    HexExact(h[1], n / 256 % 16);
    HexExact(h[2], n / 16 % 16);
    HexExact(h[3], n % 16);
    hide HexDigit, IsHex, Hex;
    Split16(n);
  }

  lemma QuadWritten(h: seq<byte>)
    requires IsQuad(h)
    ensures HexOf(h, Quad(h))
  {
    hide HexDigit, IsHex, Hex, Quad;
    HexRange(h[0]);
    HexRange(h[1]);
    HexRange(h[2]);
    HexRange(h[3]);
    Digits16(Hex(h[0]), Hex(h[1]), Hex(h[2]), Hex(h[3]));
    QuadSum(h);
  }

  lemma QuadSum(h: seq<byte>)
    requires IsQuad(h)
    ensures Quad(h) == Hex(h[0]) * 4096 + Hex(h[1]) * 256 + Hex(h[2]) * 16 + Hex(h[3])
  {
    hide Hex;
  }

  lemma HexRange(c: byte)
    requires IsHex(c)
    ensures 0 <= Hex(c) < 16 && HexDigit(c, Hex(c))
  {
    HexExact(c, Hex(c));
  }

  predicate UnitsOk(us: seq<Unit>) { forall i :: 0 <= i < |us| ==> UnitOk(us[i]) }

  function CodePoints(us: seq<Unit>): (r: seq<nat>)
    requires UnitsOk(us)
    ensures |r| == |us|
  {
    if us == [] then [] else [CodePoint(us[0])] + CodePoints(us[1..])
  }

  /** The rest of a string from its next character, followed by rest. */
  function PrintUnits(us: seq<Unit>, rest: seq<byte>): seq<byte>
    requires UnitsOk(us)
  {
    if us == [] then [Ch('\"')] + rest else Spelling(us[0]) + PrintUnits(us[1..], rest)
  }

  function PrintString(us: seq<Unit>, rest: seq<byte>): seq<byte>
    requires UnitsOk(us)
  {
    [Ch('\"')] + PrintUnits(us, rest)
  }

  lemma QuadPrefix(h: seq<byte>, rest: seq<byte>)
    requires IsQuad(h)
    ensures UnicodeEscape(h + rest) == Char(Quad(h), rest)
  {
    assert (h + rest)[..4] == h && (h + rest)[4..] == rest;
  }

  lemma PairJoins(cp: nat)
    requires 0x10000 <= cp < 0x110000
    ensures var high, low := 0xd800 + (cp - 0x10000) / 1024, 0xdc00 + (cp - 0x10000) % 1024;
            IsHigh(high) && IsLow(low) && Combined(high, low) == cp
  {
  }

  lemma ReadPair(cp: nat, high: seq<byte>, low: seq<byte>, rest: seq<byte>)
    requires UnitOk(Pair(cp, high, low))
    ensures ReadChar(Spelling(Pair(cp, high, low)) + rest) == Char(cp, rest)
  {
    hide IsQuad, Quad, HexOf, Combined;
    var s := Spelling(Pair(cp, high, low)) + rest;
    var t := [BACKSLASH, LOWER_U] + low + rest;
    QuadRead(high, 0xd800 + (cp - 0x10000) / 1024);
    QuadRead(low, 0xdc00 + (cp - 0x10000) % 1024);
    PairJoins(cp);
    assert s[1..][1..] == high + t;
    QuadPrefix(high, t);
    assert t[2..] == low + rest;
    QuadPrefix(low, rest);
  }

  lemma ReadEscaped(cp: nat, h: seq<byte>, rest: seq<byte>)
    requires UnitOk(Escaped(cp, h))
    ensures ReadChar(Spelling(Escaped(cp, h)) + rest) == Char(cp, rest)
  {
    var s := Spelling(Escaped(cp, h)) + rest;
    QuadRead(h, cp);
    assert s[1..][1..] == h + rest;
    QuadPrefix(h, rest);
    hide IsQuad, Quad, HexOf;
  }

  lemma ReadShort(i: nat, rest: seq<byte>)
    requires i < 8
    ensures ReadChar(Spelling(Short(i)) + rest) == Char(SHORT_CODES[i], rest)
  {
    var s := Spelling(Short(i)) + rest;
    assert s[1..][0] == LETTERS[i] && s[1..][1..] == rest;
    var k := ShortEscape(LETTERS[i], 0);
    assert k == i;
  }

  lemma FoldedOne(cp: nat, d: nat)
    requires d < 64
    ensures Folded(cp, [0x80 + d]) == cp * 64 + d
  {
    assert [0x80 + d][1..] == [];
  }

  /** The continuation bytes give back what the lead byte left out. */
  lemma Refolded(cp: nat)
    requires Scalar(cp) && cp >= 0x80
    ensures var b := Utf8(cp);
            && (forall i :: 1 <= i < |b| ==> 128 <= b[i] < 192)
            && Folded(if cp < 0x800 then cp / 64 else if cp < 0x10000 then cp / 4096 else cp / 262144, b[1..]) == cp
  {
    var b := Utf8(cp);
    var d0, d1, d2 := cp % 64, cp / 64 % 64, cp / 4096 % 64;
    if cp < 0x800 {
      assert b[1..] == [0x80 + d0];
      FoldedOne(cp / 64, d0);
    } else if cp < 0x10000 {
      assert cp / 4096 * 64 + d1 == cp / 64;
      assert b[1..] == [0x80 + d1, 0x80 + d0] && b[1..][1..] == [0x80 + d0];
      FoldedOne(cp / 64, d0);
    } else {
      assert cp / 262144 * 64 + d2 == cp / 4096 && cp / 4096 * 64 + d1 == cp / 64;
      assert b[1..] == [0x80 + d2, 0x80 + d1, 0x80 + d0] && b[1..][1..] == [0x80 + d1, 0x80 + d0];
      assert [0x80 + d1, 0x80 + d0][1..] == [0x80 + d0];
      FoldedOne(cp / 64, d0);
      assert Folded(cp / 4096, [0x80 + d1, 0x80 + d0]) == Folded(cp / 64, [0x80 + d0]);
    }
  }

  lemma ReadRaw(cp: nat, rest: seq<byte>)
    requires UnitOk(Raw(cp))
    ensures ReadChar(Utf8(cp) + rest) == Char(cp, rest)
  {
    var b := Utf8(cp);
    var s := b + rest;
    assert s[0] == b[0] && s[1..] == b[1..] + rest;
    if cp >= 0x80 {
      Refolded(cp);
      Continue(b[1..], rest, if cp < 0x800 then cp / 64 else if cp < 0x10000 then cp / 4096 else cp / 262144);
      hide Folded, Continuation;
    }
  }

  /** The value continuation bytes add to what the lead byte gave. */
  function Folded(cp: nat, b: seq<byte>): nat
    requires forall i :: 0 <= i < |b| ==> 128 <= b[i] < 192
    decreases |b|
  {
    if b == [] then cp else Folded(cp * 64 + (b[0] - 128), b[1..])
  }

  lemma {:induction false} Continue(b: seq<byte>, rest: seq<byte>, cp: nat)
    requires forall i :: 0 <= i < |b| ==> 128 <= b[i] < 192
    ensures Continuation(cp, |b|, b + rest) == Char(Folded(cp, b), rest)
    decreases |b|
  {
    if b == [] {
      assert b + rest == rest;
    } else {
      assert (b + rest)[0] == b[0] && (b + rest)[1..] == b[1..] + rest;
      Continue(b[1..], rest, cp * 64 + (b[0] - 128));
    }
  }

  lemma ReadUnit(u: Unit, rest: seq<byte>)
    requires UnitOk(u)
    ensures Spelling(u) != [] && Spelling(u)[0] != QUOTE
    ensures ReadChar(Spelling(u) + rest) == Char(CodePoint(u), rest)
  {
    match u
    case Raw(cp) => ReadRaw(cp, rest);
    case Short(i) => ReadShort(i, rest);
    case Escaped(cp, h) => ReadEscaped(cp, h, rest);
    case Pair(cp, high, low) => ReadPair(cp, high, low, rest);
  }

  lemma {:induction false} ReadUnits(us: seq<Unit>, rest: seq<byte>)
    requires UnitsOk(us)
    ensures ReadChars(PrintUnits(us, rest)) == Str(CodePoints(us), rest)
    decreases |us|
  {
    if us == [] {
      assert ([QUOTE] + rest)[1..] == rest;
    } else {
      ReadUnit(us[0], PrintUnits(us[1..], rest));
      ReadUnits(us[1..], rest);
      hide ReadChar, Spelling, CodePoint;
    }
  }

  lemma ReadPrintedString(us: seq<Unit>, rest: seq<byte>)
    requires UnitsOk(us)
    ensures ReadString(PrintString(us, rest)) == Str(CodePoints(us), rest)
  {
    ReadUnits(us, rest);
    assert PrintString(us, rest)[1..] == PrintUnits(us, rest);
  }

  // ---------------------------------------------------------------- trees

  datatype Exponent = NoExponent | Exponent(e: byte, sign: seq<byte>, digits: seq<byte>)

  /** A value with the white space inside it. */
  datatype Tree =
    | Object(inside: seq<byte>, members: Members)
    | Array(inside: seq<byte>, elements: Elements)
    | String(units: seq<Unit>)
    | Literal(i: nat)
    | Number(negative: bool, integer: seq<byte>, fraction: seq<byte>, exponent: Exponent)

  datatype Members =
    | NoMembers
    | Member(before: seq<byte>, key: seq<Unit>, afterKey: seq<byte>, beforeValue: seq<byte>,
             value: Tree, after: seq<byte>, tail: Members)

  datatype Elements = NoElements | Element(before: seq<byte>, value: Tree, after: seq<byte>, tail: Elements)

  predicate White(w: seq<byte>) { forall i :: 0 <= i < |w| ==> w[i] in {0, 9, 10, 13, 32} }

  predicate Digits(d: seq<byte>) { d != [] && forall i :: 0 <= i < |d| ==> Ch('0') <= d[i] <= Ch('9') }

  predicate ExponentOk(x: Exponent) {
    x.Exponent? ==>
      && (x.e == Ch('e') || x.e == Ch('E')) && (x.sign == [] || x.sign == [Ch('+')] || x.sign == [Ch('-')]) && Digits(x.digits)
  }

  const LITERALS := ["true", "false", "null"]

  predicate TreeOk(t: Tree) {
    match t
    case Object(w, ms) => White(w) && MembersOk(ms)
    case Array(w, es) => White(w) && ElementsOk(es)
    case String(us) => UnitsOk(us)
    case Literal(i) => i < 3
    case Number(_, d, f, x) =>
      && Digits(d) && (d == [Ch('0')] || d[0] != Ch('0')) && (f == [] || Digits(f)) && ExponentOk(x)
  }

  predicate MembersOk(m: Members) {
    m.Member? ==>
      && White(m.before) && UnitsOk(m.key) && White(m.afterKey) && White(m.beforeValue) && TreeOk(m.value)
      && White(m.after) && MembersOk(m.tail)
  }

  predicate ElementsOk(e: Elements) {
    e.Element? ==> White(e.before) && TreeOk(e.value) && White(e.after) && ElementsOk(e.tail)
  }

  function PrintExponent(x: Exponent, rest: seq<byte>): seq<byte> {
    if x.NoExponent? then rest else [x.e] + (x.sign + (x.digits + rest))
  }

  function PrintFraction(f: seq<byte>, rest: seq<byte>): seq<byte> {
    if f == [] then rest else [Ch('.')] + (f + rest)
  }

  function PrintNumber(t: Tree, rest: seq<byte>): seq<byte>
    requires t.Number?
  {
    (if t.negative then [Ch('-')] else []) + (t.integer + PrintFraction(t.fraction, PrintExponent(t.exponent, rest)))
  }

  /** The text of a value, followed by rest. */
  function Print(t: Tree, rest: seq<byte>): seq<byte>
    requires TreeOk(t)
    decreases t, 0
  {
    match t
    case Object(w, ms) => [Ch('{')] + (if ms.NoMembers? then w + ([Ch('}')] + rest) else PrintMembers(ms, rest))
    case Array(w, es) => [Ch('[')] + (if es.NoElements? then w + ([Ch(']')] + rest) else PrintElements(es, rest))
    case String(us) => PrintString(us, rest)
    case Literal(i) => Text(LITERALS[i]) + rest
    case Number(_, _, _, _) => PrintNumber(t, rest)
  }

  function PrintMembers(m: Members, rest: seq<byte>): seq<byte>
    requires m.Member? && MembersOk(m)
    decreases m, 0
  {
    m.before + PrintString(m.key, m.afterKey + ([Ch(':')] + (m.beforeValue + Print(m.value, m.after + NextMember(m.tail, rest)))))
  }

  function NextMember(m: Members, rest: seq<byte>): seq<byte>
    requires MembersOk(m)
    decreases m, 1
  {
    if m.NoMembers? then [Ch('}')] + rest else [Ch(',')] + PrintMembers(m, rest)
  }

  function PrintElements(e: Elements, rest: seq<byte>): seq<byte>
    requires e.Element? && ElementsOk(e)
    decreases e, 0
  {
    e.before + Print(e.value, e.after + NextElement(e.tail, rest))
  }

  function NextElement(e: Elements, rest: seq<byte>): seq<byte>
    requires ElementsOk(e)
    decreases e, 1
  {
    if e.NoElements? then [Ch(']')] + rest else [Ch(',')] + PrintElements(e, rest)
  }

  // ---------------------------------------------------------------- what the reader makes of a tree

  datatype Outcome = Fails | Keeps(found: Found)

  /** The reader's outcome on a tree, without its text. */
  function Eval(t: Tree, depth: nat, path: Path, f: Found): Outcome
    requires TreeOk(t)
  {
    if depth > DEPTH_MAX then Fails
    else match t
      case Object(_, ms) => EvalMembers(ms, depth, path, f)
      case Array(_, es) => EvalElements(es, depth, path == Choices, f)
      case String(us) =>
        if path != Content then Keeps(f)
        else if f.seen || |us| >= TEXT_SIZE then Fails
        else Keeps(f.(seen := true, text := Mapped(CodePoints(us))))
      case _ => Keeps(f)
  }

  function EvalMembers(m: Members, depth: nat, path: Path, f: Found): Outcome
    requires MembersOk(m)
  {
    if m.NoMembers? then Keeps(f)
    else
      var key := CodePoints(m.key);
      var v := Eval(m.value, depth + 1, NextPath(path, key), NoteKey(f, path, key));
      if v.Fails? then Fails else EvalMembers(m.tail, depth, path, v.found)
  }

  function EvalElements(e: Elements, depth: nat, chosen: bool, f: Found): Outcome
    requires ElementsOk(e)
  {
    if e.NoElements? then Keeps(f)
    else
      var v := Eval(e.value, depth + 1, if chosen then Choice else Elsewhere, f);
      if v.Fails? then Fails else EvalElements(e.tail, depth, false, v.found)
  }

  function Result(o: Outcome, rest: seq<byte>): ValueResult {
    if o.Fails? then BadValue else Parsed(o.found, rest)
  }

  /** Nothing here would prolong a number. */
  predicate Ends(rest: seq<byte>) { rest == [] || (!Digit(rest[0]) && rest[0] != DOT && !IsExponent(rest[0])) }

  lemma {:induction false} SkipWhite(w: seq<byte>, s: seq<byte>)
    requires White(w) && (s == [] || !Space(s[0]))
    ensures Skip(w + s) == s
    decreases |w|
  {
    if w == [] {
      assert w + s == s;
    } else {
      assert (w + s)[1..] == w[1..] + s;
      SkipWhite(w[1..], s);
    }
  }

  lemma {:induction false} SkipNumber(d: seq<byte>, s: seq<byte>)
    requires (forall i :: 0 <= i < |d| ==> Digit(d[i])) && (s == [] || !Digit(s[0]))
    ensures SkipDigits(d + s) == s
    decreases |d|
  {
    if d == [] {
      assert d + s == s;
    } else {
      assert (d + s)[1..] == d[1..] + s;
      SkipNumber(d[1..], s);
    }
  }

  lemma ReadExponent(x: Exponent, rest: seq<byte>)
    requires ExponentOk(x) && Ends(rest)
    ensures ExponentPart(PrintExponent(x, rest)) == Rest(rest)
    ensures var s := PrintExponent(x, rest); s == [] || (!Digit(s[0]) && s[0] != DOT)
  {
    if x.Exponent? {
      var s := PrintExponent(x, rest);
      assert s[1..] == x.sign + (x.digits + rest);
      if x.sign == [] {
        assert s[1..] == x.digits + rest;
      } else {
        assert s[1..][1..] == x.digits + rest;
      }
      SkipNumber(x.digits, rest);
    }
  }

  lemma ReadFraction(f: seq<byte>, rest: seq<byte>)
    requires (f == [] || Digits(f)) && (rest == [] || (!Digit(rest[0]) && rest[0] != DOT))
    ensures FractionPart(PrintFraction(f, rest)) == Rest(rest)
    ensures var s := PrintFraction(f, rest); s == [] || !Digit(s[0])
  {
    if f != [] {
      assert PrintFraction(f, rest)[1..] == f + rest;
      SkipNumber(f, rest);
    }
  }

  lemma ReadInteger(d: seq<byte>, rest: seq<byte>)
    requires Digits(d) && (d == [ZERO] || d[0] != ZERO) && (rest == [] || !Digit(rest[0]))
    ensures IntegerPart(d + rest) == Rest(rest)
  {
    if d == [ZERO] {
      assert (d + rest)[1..] == rest;
    } else {
      SkipNumber(d, rest);
    }
  }

  lemma ReadPrintedNumber(t: Tree, rest: seq<byte>)
    requires t.Number? && TreeOk(t) && Ends(rest)
    ensures PrintNumber(t, rest) != [] && ReadNumber(PrintNumber(t, rest)) == Rest(rest)
    ensures var c := PrintNumber(t, rest)[0]; c == MINUS || Digit(c)
  {
    ReadExponent(t.exponent, rest);
    var x := PrintExponent(t.exponent, rest);
    ReadFraction(t.fraction, x);
    var f := PrintFraction(t.fraction, x);
    ReadInteger(t.integer, f);
    hide PrintFraction, PrintExponent, FractionPart, ExponentPart, IntegerPart, ExponentOk;
    var s := PrintNumber(t, rest);
    if t.negative {
      assert s[1..] == t.integer + f;
    } else {
      assert s == t.integer + f;
    }
  }

  lemma ReadLiteral(i: nat, rest: seq<byte>)
    requires i < 3
    ensures ReadScalar(Word(i) + rest) == Rest(rest)
    ensures Word(i)[0] == (if i == 0 then 116 else if i == 1 then 102 else 110)
  {
    var s := Word(i) + rest;
    assert s[..|Word(i)|] == Word(i) && s[|Word(i)|..] == rest;
  }

  /** The first byte of a value tells its kind. */
  predicate Opens(t: Tree, c: byte) {
    match t
    case Object(_, _) => c == LBRACE
    case Array(_, _) => c == LBRACKET
    case String(_) => c == QUOTE
    case Literal(i) => c == (if i == 0 then 116 else if i == 1 then 102 else 110)
    case Number(_, _, _, _) => c == MINUS || Digit(c)
  }

  lemma PrintOpens(t: Tree, rest: seq<byte>)
    requires TreeOk(t)
    ensures Print(t, rest) != [] && Opens(t, Print(t, rest)[0])
  {
    hide PrintMembers, PrintElements, PrintFraction, PrintExponent, PrintUnits;
    if t.Literal? {
      ReadLiteral(t.i, rest);
    }
  }

  lemma ReadPrintedScalar(t: Tree, rest: seq<byte>)
    requires TreeOk(t) && (t.Literal? || t.Number?) && Ends(rest)
    ensures Print(t, rest) != [] && ReadScalar(Print(t, rest)) == Rest(rest)
  {
    if t.Literal? {
      ReadLiteral(t.i, rest);
    } else {
      ReadPrintedNumber(t, rest);
      hide PrintNumber, ReadNumber;
    }
  }

  /** Capture refines evaluation: the reader accepts a printed value exactly when its
      tree evaluates, keeps what the tree keeps, and stops at the value's end. */
  lemma {:induction false} ReadPrinted(t: Tree, w: seq<byte>, rest: seq<byte>, depth: nat, path: Path, f: Found)
    requires TreeOk(t) && White(w) && Ends(rest)
    ensures ReadValue(w + Print(t, rest), depth, path, f) == Result(Eval(t, depth, path, f), rest)
    decreases t
  {
    var s := Print(t, rest);
    PrintOpens(t, rest);
    SkipWhite(w, s);
    if depth <= DEPTH_MAX {
      match t {
        case Object(i, ms) => ReadPrintedObject(t, rest, depth, path, f);
        case Array(i, es) => ReadPrintedArray(t, rest, depth, path, f);
        case String(us) => ReadPrintedString(us, rest);
        case Literal(i) => ReadPrintedScalar(t, rest);
        case Number(_, _, _, _) => ReadPrintedScalar(t, rest);
      }
    }
    hide ReadMembers, ReadElements, ReadScalar, ReadString, Print, EvalMembers, EvalElements, Skip, TreeOk;
  }

  function AfterOpening(t: Tree, s: seq<byte>, depth: nat, path: Path, f: Found): ValueResult
    requires t.Object? || t.Array?
  {
    var u := Skip(s);
    if t.Object? then if u != [] && u[0] == RBRACE then Parsed(f, u[1..]) else ReadMembers(u, depth, path, f)
    else if u != [] && u[0] == RBRACKET then Parsed(f, u[1..]) else ReadElements(u, depth, path == Choices, f)
  }

  lemma {:induction false} ReadPrintedObject(t: Tree, rest: seq<byte>, depth: nat, path: Path, f: Found)
    requires t.Object? && TreeOk(t) && depth <= DEPTH_MAX
    ensures Print(t, rest) != [] &&
            AfterOpening(t, Print(t, rest)[1..], depth, path, f) == Result(EvalMembers(t.members, depth, path, f), rest)
    decreases t, 0
  {
    var s := Print(t, rest);
    if t.members.NoMembers? {
      assert s[1..] == t.inside + ([RBRACE] + rest);
      SkipWhite(t.inside, [RBRACE] + rest);
      assert ([RBRACE] + rest)[1..] == rest;
    } else {
      assert s[1..] == PrintMembers(t.members, rest);
      ReadPrintedMembers(t.members, rest, depth, path, f);
      hide ReadMembers, PrintMembers, EvalMembers;
    }
  }

  lemma {:induction false} ReadPrintedArray(t: Tree, rest: seq<byte>, depth: nat, path: Path, f: Found)
    requires t.Array? && TreeOk(t) && depth <= DEPTH_MAX
    ensures Print(t, rest) != [] &&
            AfterOpening(t, Print(t, rest)[1..], depth, path, f) ==
            Result(EvalElements(t.elements, depth, path == Choices, f), rest)
    decreases t, 0
  {
    var s := Print(t, rest);
    if t.elements.NoElements? {
      assert s[1..] == t.inside + ([RBRACKET] + rest);
      SkipWhite(t.inside, [RBRACKET] + rest);
      assert ([RBRACKET] + rest)[1..] == rest;
    } else {
      assert s[1..] == PrintElements(t.elements, rest);
      ReadPrintedElements(t.elements, rest, depth, path == Choices, f);
      hide ReadElements, PrintElements, EvalElements;
    }
  }

  /** The bytes after a member's or an element's value end it. */
  lemma AfterValue(after: seq<byte>, next: seq<byte>)
    requires White(after) && next != [] && (next[0] == COMMA || next[0] == RBRACE || next[0] == RBRACKET)
    ensures Ends(after + next) && Skip(after + next) == next
  {
    SkipWhite(after, next);
    assert (after + next)[0] == if after == [] then next[0] else after[0];
  }

  lemma {:induction false} ReadPrintedMembers(m: Members, rest: seq<byte>, depth: nat, path: Path, f: Found)
    requires m.Member? && MembersOk(m) && depth <= DEPTH_MAX
    ensures var s := Skip(PrintMembers(m, rest));
            s != [] && s[0] == QUOTE && ReadMembers(s, depth, path, f) == Result(EvalMembers(m, depth, path, f), rest)
    decreases m
  {
    hide Print, ReadValue, Eval, Skip, ReadString, NextPath, NoteKey, PrintUnits, CodePoints;
    var next := NextMember(m.tail, rest);
    var colon := [COLON] + (m.beforeValue + Print(m.value, m.after + next));
    var s := PrintString(m.key, m.afterKey + colon);
    SkipWhite(m.before, s);
    ReadPrintedString(m.key, m.afterKey + colon);
    SkipWhite(m.afterKey, colon);
    AfterValue(m.after, next);
    var key := CodePoints(m.key);
    var g := NoteKey(f, path, key);
    assert colon[1..] == m.beforeValue + Print(m.value, m.after + next);
    ReadPrinted(m.value, m.beforeValue, m.after + next, depth + 1, NextPath(path, key), g);
    var v := Eval(m.value, depth + 1, NextPath(path, key), g);
    assert next[1..] == if m.tail.NoMembers? then rest else PrintMembers(m.tail, rest);
    if v.Keeps? && m.tail.Member? {
      ReadPrintedMembers(m.tail, rest, depth, path, v.found);
    }
    hide PrintMembers;
  }

  /** One element, and what its separator leads to. */
  lemma OneElement(s: seq<byte>, depth: nat, chosen: bool, f: Found, v: Outcome, after: seq<byte>)
    requires ReadValue(s, depth + 1, if chosen then Choice else Elsewhere, f) == Result(v, after)
    requires Skip(after) != [] && (Skip(after)[0] == RBRACKET || Skip(after)[0] == COMMA)
    ensures ReadElements(s, depth, chosen, f) ==
            if v.Fails? then BadValue
            else if Skip(after)[0] == RBRACKET then Parsed(v.found, Skip(after)[1..])
            else ReadElements(Skip(after)[1..], depth, false, v.found)
  {
    hide ReadValue, Skip;
  }

  lemma {:induction false} ReadPrintedElements(e: Elements, rest: seq<byte>, depth: nat, chosen: bool, f: Found)
    requires e.Element? && ElementsOk(e) && depth <= DEPTH_MAX
    ensures var s := Skip(PrintElements(e, rest));
            s != [] && s[0] != RBRACKET && ReadElements(s, depth, chosen, f) == Result(EvalElements(e, depth, chosen, f), rest)
    decreases e
  {
    hide ReadElements, ReadValue, Eval, Skip;
    var next := NextElement(e.tail, rest);
    var s := Print(e.value, e.after + next);
    var path := if chosen then Choice else Elsewhere;
    PrintOpens(e.value, e.after + next);
    SkipWhite(e.before, s);
    AfterValue(e.after, next);
    assert next[1..] == if e.tail.NoElements? then rest else PrintElements(e.tail, rest);
    assert PrintElements(e, rest) == e.before + s;
    hide PrintElements, Print;
    ReadPrinted(e.value, [], e.after + next, depth + 1, path, f);
    assert [] + s == s;
    var v := Eval(e.value, depth + 1, path, f);
    OneElement(s, depth, chosen, f, v, e.after + next);
    if v.Keeps? && e.tail.Element? {
      LeadingSpace(PrintElements(e.tail, rest), depth, v.found);
      ReadPrintedElements(e.tail, rest, depth, false, v.found);
    }
  }

  lemma {:induction false} SkipTwice(s: seq<byte>)
    ensures Skip(Skip(s)) == Skip(s)
  {
  }

  /** White space before an element is the element's own. */
  lemma LeadingSpace(s: seq<byte>, depth: nat, f: Found)
    ensures ReadElements(s, depth, false, f) == ReadElements(Skip(s), depth, false, f)
  {
    SkipTwice(s);
  }
}
