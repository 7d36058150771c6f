/** The converse of JsonText: whatever the reader accepts is the text of some tree, so it
    validates even the values it skips. */
module JsonSound {
  import opened Bytes
  import opened Json
  import opened JsonText

  lemma {:induction false} SkipSplits(s: seq<byte>) returns (w: seq<byte>)
    ensures White(w) && s == w + Skip(s)
    decreases |s|
  {
    if s != [] && Space(s[0]) {
      w := SkipSplits(s[1..]);
      w := [s[0]] + w;
    } else {
      w := [];
    }
  }

  // ---------------------------------------------------------------- strings

  lemma QuadSplits(s: seq<byte>)
    requires UnicodeEscape(s).Char?
    ensures s == s[..4] + UnicodeEscape(s).rest && IsQuad(s[..4]) && Quad(s[..4]) == UnicodeEscape(s).cp
  {
  }

  lemma Surrogates(high: nat, low: nat)
    requires IsHigh(high) && IsLow(low)
    ensures var cp := Combined(high, low);
            0x10000 <= cp < 0x110000 && 0xd800 + (cp - 0x10000) / 1024 == high && 0xdc00 + (cp - 0x10000) % 1024 == low
  {
    var a, b := high - 0xd800, low - 0xdc00;
    assert (a * 1024 + b) / 1024 == a && (a * 1024 + b) % 1024 == b;
  }

  lemma PairOf(high: seq<byte>, low: seq<byte>)
    requires IsQuad(high) && IsQuad(low) && IsHigh(Quad(high)) && IsLow(Quad(low))
    ensures UnitOk(Pair(Combined(Quad(high), Quad(low)), high, low))
  {
    hide Quad, HexOf, IsQuad, Combined;
    QuadWritten(high);
    QuadWritten(low);
    Surrogates(Quad(high), Quad(low));
  }

  lemma ShortWitness(s: seq<byte>)
    requires s != [] && s[0] != LOWER_U && EscapedChar(s).Char?
    ensures var u := Short(ShortEscape(s[0], 0));
            UnitOk(u) && CodePoint(u) == EscapedChar(s).cp && [BACKSLASH] + s == Spelling(u) + EscapedChar(s).rest
  {
    assert SHORT_NAMES[ShortEscape(s[0], 0)] as int == s[0];
  }

  lemma PairWitness(h: seq<byte>) returns (u: Unit)
    requires LongEscape(h).Char? && IsHigh(UnicodeEscape(h).cp)
    ensures UnitOk(u) && CodePoint(u) == LongEscape(h).cp && [BACKSLASH, LOWER_U] + h == Spelling(u) + LongEscape(h).rest
  {
    QuadSplits(h);
    var r := UnicodeEscape(h).rest;
    assert LongEscape(h) == LowHalf(UnicodeEscape(h).cp, r);
    QuadSplits(r[2..]);
    var a, b, rest := h[..4], r[2..][..4], UnicodeEscape(r[2..]).rest;
    assert r == [BACKSLASH, LOWER_U] + b + rest;
    hide Quad, HexOf, IsQuad, Combined, UnicodeEscape, LowHalf;
    PairOf(a, b);
    u := Pair(LongEscape(h).cp, a, b);
    assert [BACKSLASH, LOWER_U] + h == [BACKSLASH, LOWER_U] + a + [BACKSLASH, LOWER_U] + b + rest;
  }

  lemma LongWitness(h: seq<byte>) returns (u: Unit)
    requires LongEscape(h).Char?
    ensures UnitOk(u) && CodePoint(u) == LongEscape(h).cp && [BACKSLASH, LOWER_U] + h == Spelling(u) + LongEscape(h).rest
  {
    if IsHigh(UnicodeEscape(h).cp) {
      u := PairWitness(h);
    } else {
      QuadSplits(h);
      hide Quad, HexOf, IsQuad, UnicodeEscape;
      QuadWritten(h[..4]);
      u := Escaped(UnicodeEscape(h).cp, h[..4]);
    }
  }

  lemma EscapeWitness(s: seq<byte>) returns (u: Unit)
    requires EscapedChar(s).Char?
    ensures UnitOk(u) && CodePoint(u) == EscapedChar(s).cp && [BACKSLASH] + s == Spelling(u) + EscapedChar(s).rest
  {
    hide UnitOk, CodePoint, Spelling, LongEscape;
    if s[0] != LOWER_U {
      ShortWitness(s);
      u := Short(ShortEscape(s[0], 0));
    } else {
      u := LongWitness(s[1..]);
      assert [BACKSLASH] + s == [BACKSLASH, LOWER_U] + s[1..];
    }
  }

  lemma TwoBytes(lead: byte, b: byte)
    requires 0xc2 <= lead <= 0xdf && 128 <= b < 192
    ensures var cp := (lead - 0xc0) * 64 + (b - 128); Scalar(cp) && cp >= 0x80 && Utf8(cp) == [lead, b]
  {
  }

  lemma ThreeBytes(lead: byte, b: byte, c: byte)
    requires 0xe0 <= lead <= 0xef && 128 <= b < 192 && 128 <= c < 192
    ensures var cp := ((lead - 0xe0) * 64 + (b - 128)) * 64 + (c - 128);
            0x800 <= cp < 0x10000 && Scalar(cp) ==> Utf8(cp) == [lead, b, c]
  {
    var m := (lead - 0xe0) * 64 + (b - 128);
    var cp := m * 64 + (c - 128);
    assert cp / 64 == m && cp % 64 == c - 128 && m / 64 == lead - 0xe0 && m % 64 == b - 128;
    assert cp / 4096 == m / 64;
  }

  lemma FourBytes(lead: byte, b: byte, c: byte, d: byte)
    requires 0xf0 <= lead <= 0xf4 && 128 <= b < 192 && 128 <= c < 192 && 128 <= d < 192
    ensures var cp := (((lead - 0xf0) * 64 + (b - 128)) * 64 + (c - 128)) * 64 + (d - 128);
            0x10000 <= cp && Scalar(cp) ==> Utf8(cp) == [lead, b, c, d]
  {
    var l := (lead - 0xf0) * 64 + (b - 128);
    var m := l * 64 + (c - 128);
    var cp := m * 64 + (d - 128);
    assert cp / 64 == m && cp % 64 == d - 128 && m / 64 == l && m % 64 == c - 128 && l / 64 == lead - 0xf0 && l % 64 == b - 128;
    assert cp / 4096 == l && cp / 262144 == l / 64;
  }

  lemma OneMore(cp: nat, extra: nat, s: seq<byte>)
    requires extra > 0 && Continuation(cp, extra, s).Char?
    ensures s != [] && 128 <= s[0] < 192
    ensures Continuation(cp, extra, s) == Continuation(cp * 64 + (s[0] - 128), extra - 1, s[1..])
  {
  }

  lemma NoMore(cp: nat, s: seq<byte>)
    ensures Continuation(cp, 0, s) == Char(cp, s)
  {
  }

  lemma TwoWitness(lead: byte, s: seq<byte>)
    requires 0xc2 <= lead <= 0xdf && Continuation(lead - 0xc0, 1, s).Char?
    ensures var c := Continuation(lead - 0xc0, 1, s); Scalar(c.cp) && [lead] + s == Utf8(c.cp) + c.rest
  {
    OneMore(lead - 0xc0, 1, s);
    NoMore((lead - 0xc0) * 64 + (s[0] - 128), s[1..]);
    TwoBytes(lead, s[0]);
    hide Utf8, Continuation;
    assert [lead] + s == [lead, s[0]] + s[1..];
  }

  lemma ThreeWitness(lead: byte, s: seq<byte>)
    requires 0xe0 <= lead <= 0xef && Continuation(lead - 0xe0, 2, s).Char?
    ensures var c := Continuation(lead - 0xe0, 2, s);
            0x800 <= c.cp < 0x10000 && Scalar(c.cp) ==> [lead] + s == Utf8(c.cp) + c.rest
  {
    hide Utf8, Continuation;
    OneMore(lead - 0xe0, 2, s);
    var t := s[1..];
    var cp := (lead - 0xe0) * 64 + (s[0] - 128);
    OneMore(cp, 1, t);
    NoMore(cp * 64 + (t[0] - 128), t[1..]);
    ThreeBytes(lead, s[0], t[0]);
    assert [lead] + s == [lead, s[0], t[0]] + t[1..];
  }

  lemma FourWitness(lead: byte, s: seq<byte>)
    requires 0xf0 <= lead <= 0xf4 && Continuation(lead - 0xf0, 3, s).Char?
    ensures var c := Continuation(lead - 0xf0, 3, s); 0x10000 <= c.cp && Scalar(c.cp) ==> [lead] + s == Utf8(c.cp) + c.rest
  {
    hide Utf8, Continuation;
    OneMore(lead - 0xf0, 3, s);
    var t := s[1..];
    var cp := (lead - 0xf0) * 64 + (s[0] - 128);
    OneMore(cp, 2, t);
    var u, cp' := t[1..], cp * 64 + (t[0] - 128);
    OneMore(cp', 1, u);
    NoMore(cp' * 64 + (u[0] - 128), u[1..]);
    FourBytes(lead, s[0], t[0], u[0]);
    assert [lead] + s == [lead, s[0], t[0], u[0]] + u[1..];
  }

  lemma ThreeFit(lead: byte, s: seq<byte>)
    requires 0xe0 <= lead <= 0xef && Continuation(lead - 0xe0, 2, s).Char?
    ensures Continuation(lead - 0xe0, 2, s).cp < 0x10000
  {
    OneMore(lead - 0xe0, 2, s);
    OneMore((lead - 0xe0) * 64 + (s[0] - 128), 1, s[1..]);
  }

  lemma Utf8Witness(lead: byte, s: seq<byte>)
    requires lead >= 128 && Utf8Char(lead, s).Char?
    ensures var c := Utf8Char(lead, s); UnitOk(Raw(c.cp)) && [lead] + s == Utf8(c.cp) + c.rest
  {
    hide Utf8, Continuation;
    if lead <= 0xdf {
      TwoWitness(lead, s);
    } else if lead <= 0xef {
      ThreeFit(lead, s);
      ThreeWitness(lead, s);
    } else {
      FourWitness(lead, s);
    }
  }

  lemma CharWitness(s: seq<byte>) returns (u: Unit)
    requires s != [] && s[0] != QUOTE && ReadChar(s).Char?
    ensures UnitOk(u) && CodePoint(u) == ReadChar(s).cp && s == Spelling(u) + ReadChar(s).rest
  {
    assert s == [s[0]] + s[1..];
    if s[0] == BACKSLASH {
      u := EscapeWitness(s[1..]);
    } else {
      u := Raw(ReadChar(s).cp);
      if s[0] >= 128 {
        Utf8Witness(s[0], s[1..]);
        hide Utf8Char;
      }
    }
  }

  lemma {:induction false} CharsWitness(s: seq<byte>) returns (us: seq<Unit>)
    requires ReadChars(s).Str?
    ensures UnitsOk(us) && CodePoints(us) == ReadChars(s).cps && s == PrintUnits(us, ReadChars(s).rest)
    decreases |s|
  {
    if s[0] == QUOTE {
      us := [];
    } else {
      var u := CharWitness(s);
      var c := ReadChar(s);
      hide ReadChar, Spelling, CodePoint;
      us := CharsWitness(c.rest);
      us := [u] + us;
      assert us[1..] == us[1..] && us[0] == u;
    }
  }

  lemma StringWitness(s: seq<byte>) returns (us: seq<Unit>)
    requires ReadString(s).Str?
    ensures UnitsOk(us) && CodePoints(us) == ReadString(s).cps && s == PrintString(us, ReadString(s).rest)
  {
    us := CharsWitness(s[1..]);
    assert s == [QUOTE] + s[1..];
  }

  // ---------------------------------------------------------------- numbers and literals

  lemma {:induction false} DigitsSplit(s: seq<byte>) returns (d: seq<byte>)
    ensures (forall i :: 0 <= i < |d| ==> Digit(d[i])) && s == d + SkipDigits(s)
    ensures s != [] && Digit(s[0]) ==> d != [] && d[0] == s[0]
    decreases |s|
  {
    if s != [] && Digit(s[0]) {
      d := DigitsSplit(s[1..]);
      d := [s[0]] + d;
    } else {
      d := [];
    }
  }

  lemma ExponentWitness(s: seq<byte>) returns (x: Exponent)
    requires ExponentPart(s).Rest?
    ensures ExponentOk(x) && s == PrintExponent(x, ExponentPart(s).rest)
  {
    if s == [] || !IsExponent(s[0]) {
      x := NoExponent;
    } else {
      var t := s[1..];
      var sign := if IsSign(t[0]) then [t[0]] else [];
      var d := DigitsSplit(t[|sign|..]);
      x := Exponent(s[0], sign, d);
      assert t == sign + t[|sign|..];
      assert s == [s[0]] + t;
    }
  }

  lemma FractionWitness(s: seq<byte>) returns (f: seq<byte>)
    requires FractionPart(s).Rest?
    ensures (f == [] || Digits(f)) && s == PrintFraction(f, FractionPart(s).rest)
  {
    if s == [] || s[0] != DOT {
      f := [];
    } else {
      f := DigitsSplit(s[1..]);
      assert s == [DOT] + s[1..];
    }
  }

  lemma IntegerWitness(s: seq<byte>) returns (d: seq<byte>)
    requires IntegerPart(s).Rest?
    ensures Digits(d) && (d == [ZERO] || d[0] != ZERO) && s == d + IntegerPart(s).rest
  {
    if s[0] == ZERO {
      d := [ZERO];
    } else {
      d := DigitsSplit(s);
    }
  }

  lemma NumberWitness(s: seq<byte>) returns (t: Tree)
    requires s != [] && ReadNumber(s).Rest?
    ensures t.Number? && TreeOk(t) && s == PrintNumber(t, ReadNumber(s).rest)
  {
    hide IntegerPart, FractionPart, ExponentPart, PrintFraction, PrintExponent, Digits, ExponentOk;
    var n := s[0] == MINUS;
    var i := if n then s[1..] else s;
    var d := IntegerWitness(i);
    var r := IntegerPart(i).rest;
    var f := FractionWitness(r);
    var x := ExponentWitness(FractionPart(r).rest);
    t := Number(n, d, f, x);
    assert s == (if n then [MINUS] else []) + i;
  }

  lemma ScalarWitness(s: seq<byte>) returns (t: Tree)
    requires s != [] && ReadScalar(s).Rest?
    ensures (t.Literal? || t.Number?) && TreeOk(t) && s == Print(t, ReadScalar(s).rest)
  {
    if s[0] == 116 || s[0] == 102 || s[0] == 110 {
      t := Literal(if s[0] == 116 then 0 else if s[0] == 102 then 1 else 2);
      var w := Word(t.i);
      assert s == w + s[|w|..];
    } else {
      t := NumberWitness(s);
      hide ReadNumber, PrintNumber;
    }
  }

  // ---------------------------------------------------------------- values

  /** Everything accepted is JSON, and is kept as its tree evaluates. */
  lemma {:induction false} ValueWitness(s: seq<byte>, depth: nat, path: Path, f: Found) returns (w: seq<byte>, t: Tree)
    requires ReadValue(s, depth, path, f).Parsed?
    ensures White(w) && TreeOk(t)
    ensures var r := ReadValue(s, depth, path, f);
            s == w + Print(t, r.rest) && Eval(t, depth, path, f) == Keeps(r.found)
    decreases |s|, 0
  {
    hide ReadMembers, ReadElements, ReadScalar, ReadString, EvalMembers, EvalElements, PrintMembers, PrintElements, White, Skip;
    w := SkipSplits(s);
    var u := Skip(s);
    assert u == [u[0]] + u[1..];
    if u[0] == LBRACE {
      t := ObjectWitness(u[1..], depth, path, f);
    } else if u[0] == LBRACKET {
      t := ArrayWitness(u[1..], depth, path, f);
    } else if u[0] == QUOTE {
      var us := StringWitness(u);
      t := String(us);
    } else {
      t := ScalarWitness(u);
    }
  }

  lemma {:induction false} ObjectWitness(s: seq<byte>, depth: nat, path: Path, f: Found) returns (t: Tree)
    requires AfterOpening(Object([], NoMembers), s, depth, path, f).Parsed? && depth <= DEPTH_MAX
    ensures t.Object? && TreeOk(t)
    ensures var r := AfterOpening(Object([], NoMembers), s, depth, path, f);
            [LBRACE] + s == Print(t, r.rest) && EvalMembers(t.members, depth, path, f) == Keeps(r.found)
    decreases |s|, 2
  {
    var w := SkipSplits(s);
    var u := Skip(s);
    hide Skip;
    if u != [] && u[0] == RBRACE {
      t := Object(w, NoMembers);
      assert u == [RBRACE] + u[1..];
    } else {
      var m := MembersWitness(u, w, depth, path, f);
      t := Object([], m);
    }
    hide ReadMembers, PrintMembers;
  }

  lemma {:induction false} ArrayWitness(s: seq<byte>, depth: nat, path: Path, f: Found) returns (t: Tree)
    requires AfterOpening(Array([], NoElements), s, depth, path, f).Parsed? && depth <= DEPTH_MAX
    ensures t.Array? && TreeOk(t)
    ensures var r := AfterOpening(Array([], NoElements), s, depth, path, f);
            [LBRACKET] + s == Print(t, r.rest) && EvalElements(t.elements, depth, path == Choices, f) == Keeps(r.found)
    decreases |s|, 2
  {
    hide Skip, ReadElements, Print, PrintElements, TreeOk, ElementsOk, EvalElements, White;
    var w := SkipSplits(s);
    var u := Skip(s);
    if u != [] && u[0] == RBRACKET {
      t := Array(w, NoElements);
      EmptyArray(w, u[1..], depth, path == Choices, f);
      assert u == [RBRACKET] + u[1..];
    } else {
      var e := ElementsWitness(u, depth, path == Choices, f);
      t := Array([], e.(before := w + e.before));
      WiderElement(w, e, ReadElements(u, depth, path == Choices, f).rest, depth, path == Choices, f);
    }
  }

  lemma EmptyArray(w: seq<byte>, rest: seq<byte>, depth: nat, chosen: bool, f: Found)
    requires White(w)
    ensures var t := Array(w, NoElements);
            TreeOk(t) && Print(t, rest) == [LBRACKET] + (w + ([RBRACKET] + rest)) && EvalElements(NoElements, depth, chosen, f) == Keeps(f)
  {
  }

  /** White space before the first element. */
  lemma WiderElement(w: seq<byte>, e: Elements, rest: seq<byte>, depth: nat, chosen: bool, f: Found)
    requires White(w) && e.Element? && ElementsOk(e)
    ensures var d := e.(before := w + e.before);
            && TreeOk(Array([], d)) && Print(Array([], d), rest) == [LBRACKET] + (w + PrintElements(e, rest))
            && EvalElements(d, depth, chosen, f) == EvalElements(e, depth, chosen, f)
  {
    hide Eval, Print;
    var d := e.(before := w + e.before);
    assert TreeOk(Array([], d));
    assert PrintElements(d, rest) == w + PrintElements(e, rest);
    ArrayText(d, rest);
  }

  lemma ArrayText(e: Elements, rest: seq<byte>)
    requires e.Element? && ElementsOk(e)
    ensures TreeOk(Array([], e)) && Print(Array([], e), rest) == [LBRACKET] + PrintElements(e, rest)
  {
    hide PrintElements, ElementsOk;
  }

  lemma {:induction false} MembersWitness(s: seq<byte>, before: seq<byte>, depth: nat, path: Path, f: Found) returns (m: Members)
    requires White(before) && ReadMembers(s, depth, path, f).Parsed? && depth <= DEPTH_MAX
    ensures m.Member? && MembersOk(m)
    ensures var r := ReadMembers(s, depth, path, f);
            before + s == PrintMembers(m, r.rest) && EvalMembers(m, depth, path, f) == Keeps(r.found)
    decreases |s|, 1
  {
    hide ReadString, PrintString, CodePoints, Skip, ReadValue, NextPath, NoteKey, Print, Eval, White, UnitsOk;
    var us := StringWitness(s);
    var key := ReadString(s);
    var w1 := SkipSplits(key.rest);
    var t := Skip(key.rest);
    assert t == [COLON] + t[1..];
    var w2, v := ValueWitness(t[1..], depth + 1, NextPath(path, key.cps), NoteKey(f, path, key.cps));
    var rv := ReadValue(t[1..], depth + 1, NextPath(path, key.cps), NoteKey(f, path, key.cps));
    var w3 := SkipSplits(rv.rest);
    var u := Skip(rv.rest);
    assert u == [u[0]] + u[1..];
    var tail := NoMembers;
    if u[0] == COMMA {
      var w4 := SkipSplits(u[1..]);
      tail := MembersWitness(Skip(u[1..]), w4, depth, path, rv.found);
    }
    m := Member(before, us, w1, w2, v, w3, tail);
  }

  lemma {:induction false} ElementsWitness(s: seq<byte>, depth: nat, chosen: bool, f: Found) returns (e: Elements)
    requires ReadElements(s, depth, chosen, f).Parsed? && depth <= DEPTH_MAX
    ensures e.Element? && ElementsOk(e)
    ensures var r := ReadElements(s, depth, chosen, f);
            s == PrintElements(e, r.rest) && EvalElements(e, depth, chosen, f) == Keeps(r.found)
    decreases |s|, 1
  {
    var path := if chosen then Choice else Elsewhere;
    var w, v := ValueWitness(s, depth + 1, path, f);
    var rv := ReadValue(s, depth + 1, path, f);
    var w3 := SkipSplits(rv.rest);
    var u := Skip(rv.rest);
    assert u == [u[0]] + u[1..];
    hide Skip, ReadValue, Print, Eval;
    var tail := NoElements;
    if u[0] == COMMA {
      tail := ElementsWitness(u[1..], depth, false, rv.found);
    }
    e := Element(w, v, w3, tail);
  }
}
