/** The words of a response head, against the grammar of RFC 9110 and RFC 9112 in its own
    characters: what the decoder takes for a token, a field, a number and a status line. */
module HttpGrammar {
  import opened Bytes
  import opened HttpStream
  import opened HttpRoundTrip

  // ---------------------------------------------------------------- characters

  predicate Between(c: byte, from: char, to: char) { from as int <= c <= to as int }

  /** tchar of section 5.6.2 of RFC 9110. */
  predicate Tchar(c: byte) {
    Between(c, 'a', 'z') || Between(c, 'A', 'Z') || Between(c, '0', '9') || c in Text("!#$%&'*+-.^_`|~")
  }

  lemma TokenExact(c: byte)
    ensures TokenChar(c) <==> Tchar(c)
  {
    var marks := Text("!#$%&'*+-.^_`|~");
    assert marks == [33, 35, 36, 37, 38, 39, 42, 43, 45, 46, 94, 95, 96, 124, 126];
  }

  /** The same letter in the other case. */
  predicate CaseOf(x: byte, y: byte) { Between(x, 'a', 'z') && y == x - 'a' as int + 'A' as int }

  /** Names are compared without regard to case, and with regard to everything else. */
  lemma NameExact(a: seq<byte>, b: seq<byte>)
    ensures SameName(a, b) <==>
              |a| == |b| && forall i :: 0 <= i < |a| ==> a[i] == b[i] || CaseOf(a[i], b[i]) || CaseOf(b[i], a[i])
  {
    if |a| == |b| {
      forall i | 0 <= i < |a|
        ensures Lower(a[i]) == Lower(b[i]) <==> a[i] == b[i] || CaseOf(a[i], b[i]) || CaseOf(b[i], a[i])
      {
      }
    }
  }

  predicate Blanks(w: seq<byte>) { forall i :: 0 <= i < |w| ==> w[i] == ' ' as int || w[i] == '\t' as int }

  predicate Trimmed(v: seq<byte>) { v != [] ==> !Blanks([v[0]]) && !Blanks([v[|v| - 1]]) }

  lemma {:induction false} SkipExact(w: seq<byte>, v: seq<byte>)
    requires Blanks(w) && (v != [] ==> !Blanks([v[0]]))
    ensures SkipBlanks(w + v) == v
    decreases |w|
  {
    if w == [] {
      assert w + v == v;
    } else {
      assert (w + v)[1..] == w[1..] + v;
      SkipExact(w[1..], v);
    }
  }

  lemma {:induction false} TrimExact(v: seq<byte>, w: seq<byte>)
    requires Blanks(w) && (v != [] ==> !Blanks([v[|v| - 1]]))
    ensures TrimBlanks(v + w) == v
    decreases |w|
  {
    if w == [] {
      assert v + w == v;
    } else {
      assert (v + w)[..|v + w| - 1] == v + w[..|w| - 1];
      TrimExact(v, w[..|w| - 1]);
    }
  }

  lemma {:induction false} FindExact(name: seq<byte>, rest: seq<byte>, c: byte)
    requires c !in name
    ensures Find(name + [c] + rest, c) == |name|
    decreases |name|
  {
    if name == [] {
      assert name + [c] + rest == [c] + rest;
    } else {
      assert (name + [c] + rest)[1..] == name[1..] + [c] + rest;
      FindExact(name[1..], rest, c);
    }
  }

  /** A token, a colon, and a value with blanks around it that are no part of it. */
  lemma FieldExact(name: seq<byte>, left: seq<byte>, value: seq<byte>, right: seq<byte>)
    requires name != [] && (forall i :: 0 <= i < |name| ==> Tchar(name[i]))
    requires Blanks(left) && Blanks(right) && Trimmed(value) && (value == [] ==> right == [])
    ensures var l := name + [':' as int] + (left + value + right);
            Field(l) && FieldName(l) == name && FieldValue(l) == value
  {
    var rest := left + value + right;
    var l := name + [COLON] + rest;
    forall i | 0 <= i < |name|
      ensures TokenChar(l[i]) && l[i] == name[i] && name[i] != COLON
    {
      TokenExact(name[i]);
    }
    FindExact(name, rest, COLON);
    assert l[|name| + 1..] == rest;
    assert rest == left + (value + right);
    SkipExact(left, value + right);
    TrimExact(value, right);
  }

  /** Whatever is taken for a field has that form. */
  lemma FieldSplits(l: seq<byte>) returns (name: seq<byte>, left: seq<byte>, value: seq<byte>, right: seq<byte>)
    requires Field(l)
    ensures l == name + [':' as int] + (left + value + right) && name != [] && (forall i :: 0 <= i < |name| ==> Tchar(name[i]))
    ensures Blanks(left) && Blanks(right) && Trimmed(value) && name == FieldName(l) && value == FieldValue(l)
  {
    name := FieldName(l);
    forall i | 0 <= i < |name|
      ensures Tchar(name[i])
    {
      TokenExact(name[i]);
    }
    var rest := l[|name| + 1..];
    left := SkipSplits(rest);
    var tail := SkipBlanks(rest);
    right := TrimSplits(tail);
    value := TrimBlanks(tail);
    assert l == name + [COLON] + rest && rest == left + (value + right);
  }

  lemma {:induction false} SkipSplits(s: seq<byte>) returns (w: seq<byte>)
    ensures Blanks(w) && s == w + SkipBlanks(s) && (SkipBlanks(s) != [] ==> !Blanks([SkipBlanks(s)[0]]))
  {
    if s != [] && Blank(s[0]) {
      w := SkipSplits(s[1..]);
      w := [s[0]] + w;
    } else {
      w := [];
      assert s != [] ==> [s[0]][0] == s[0];
    }
  }

  lemma {:induction false} TrimSplits(s: seq<byte>) returns (w: seq<byte>)
    ensures var v := TrimBlanks(s); Blanks(w) && s == v + w && v == s[..|v|] && (v != [] ==> !Blanks([v[|v| - 1]]))
  {
    if s != [] && Blank(s[|s| - 1]) {
      w := TrimSplits(s[..|s| - 1]);
      w := w + [s[|s| - 1]];
    } else {
      w := [];
      assert s != [] ==> [s[|s| - 1]][0] == s[|s| - 1];
    }
  }

  // ---------------------------------------------------------------- numbers

  /** The value of a digit by its place in the alphabet. */
  function Digited(c: byte): int {
    if Between(c, '0', '9') then c - '0' as int
    else if Between(c, 'a', 'f') then 10 + c - 'a' as int
    else if Between(c, 'A', 'F') then 10 + c - 'A' as int
    else -1
  }

  predicate Numeral(d: seq<byte>, base: nat) { d != [] && forall i :: 0 <= i < |d| ==> 0 <= Digited(d[i]) < base }

  function Power(base: nat, n: nat): nat { if n == 0 then 1 else base * Power(base, n - 1) }

  /** Each digit by its place: the sum of digit * base^k. */
  function Denoted(d: seq<byte>, base: nat): int {
    if d == [] then 0 else Digited(d[0]) * Power(base, |d| - 1) + Denoted(d[1..], base)
  }

  lemma Distributes(x: int, base: int, p: int, r: int, y: int)
    ensures x * (base * p) + (base * r + y) == base * (x * p + r) + y
  {
    assert x * (base * p) == base * (x * p);
    assert base * (x * p + r) == base * (x * p) + base * r;
  }

  lemma {:induction false} DenotedLast(d: seq<byte>, base: nat, c: byte)
    ensures Denoted(d + [c], base) == base * Denoted(d, base) + Digited(c)
    decreases |d|
  {
    var e := d + [c];
    if d == [] {
      assert e == [c] && e[1..] == [];
      assert Denoted(e[1..], base) == 0 && Power(base, 0) == 1;
    } else {
      var t := d[1..];
      assert e[1..] == t + [c] && e[0] == d[0];
      DenotedLast(t, base, c);
      var x, p, r, y := Digited(d[0]), Power(base, |t|), Denoted(t, base), Digited(c);
      PowerNext(base, |t|);
      DenotedFirst(e, base);
      DenotedFirst(d, base);
      hide *;
      assert Denoted(e, base) == x * (base * p) + (base * r + y);
      assert Denoted(d, base) == x * p + r;
      Distributes(x, base, p, r, y);
    }
  }

  lemma PowerNext(base: nat, n: nat)
    ensures Power(base, n + 1) == base * Power(base, n)
  {
  }

  lemma DenotedFirst(d: seq<byte>, base: nat)
    requires d != []
    ensures Denoted(d, base) == Digited(d[0]) * Power(base, |d[1..]|) + Denoted(d[1..], base)
  {
  }

  lemma DigitExact(c: byte)
    ensures 0 <= Digited(c) < 16 ==> Digit(c) == Digited(c)
  {
  }

  lemma ShiftedExact(v: nat, base: nat, digit: nat)
    ensures Shifted(v, base, digit) == base * v + digit
  {
  }

  lemma {:induction false} ValueExact(d: seq<byte>, base: nat)
    requires base <= 16 && forall i :: 0 <= i < |d| ==> 0 <= Digited(d[i]) < base
    ensures Value(d, base) == Denoted(d, base)
    decreases |d|
  {
    if d != [] {
      var e, c := d[..|d| - 1], d[|d| - 1];
      assert d == e + [c];
      ValueExact(e, base);
      DenotedLast(e, base, c);
      DigitExact(c);
      hide Denoted, Digited, Digit, Shifted;
      ShiftedExact(Value(e, base), base, Digit(c));
    }
  }

  /** A size or length is a numeral of at most 32 bits; a size may carry an extension. */
  lemma NumberExact(d: seq<byte>, extension: seq<byte>, base: nat)
    requires base == 10 || base == 16
    requires Numeral(d, base) && (extension != [] ==> base == 16 && extension[0] == ';' as int)
    ensures Digits(d + extension, base) == d && Value(d, base) == Denoted(d, base)
    ensures IsNumber(d + extension, base) <==> Denoted(d, base) < 0x1_0000_0000
  {
    ValueExact(d, base);
    var text := d + extension;
    assert AllDigits(d, base);
    if base == 16 {
      assert SEMICOLON !in d;
      if extension == [] {
        FindNone(d, SEMICOLON);
        assert text == d;
      } else {
        assert text == d + [SEMICOLON] + extension[1..];
        FindExact(d, extension[1..], SEMICOLON);
      }
      assert text[..|d|] == d;
    } else {
      assert text == d;
    }
  }

  lemma {:induction false} FindNone(s: seq<byte>, c: byte)
    requires c !in s
    ensures Find(s, c) == |s|
  {
    if s != [] {
      FindNone(s[1..], c);
    }
  }

  /** Whatever else is taken for a number is none: every other text is refused. */
  lemma NumberSplits(text: seq<byte>, base: nat) returns (d: seq<byte>, extension: seq<byte>)
    requires (base == 10 || base == 16) && IsNumber(text, base)
    ensures text == d + extension && Numeral(d, base) && (extension != [] ==> base == 16 && extension[0] == ';' as int)
  {
    d := Digits(text, base);
    extension := text[|d|..];
    assert forall i :: 0 <= i < |d| ==> Digit(d[i]) < base;
  }

  // ---------------------------------------------------------------- status lines

  /** "HTTP/1.0 " or "HTTP/1.1 ", three digits from 100 to 599, and a reason after a space. */
  lemma StatusExact(p: seq<byte>)
    ensures StatusLineOk(p) <==>
              && |p| >= 12 && p[..7] == Text("HTTP/1.") && (p[7] == '0' as int || p[7] == '1' as int) && p[8] == ' ' as int
              && Between(p[9], '1', '5') && Between(p[10], '0', '9') && Between(p[11], '0', '9')
              && (|p| > 12 ==> p[12] == ' ' as int)
    ensures StatusLineOk(p) ==> Code(p) == Denoted(p[9..12], 10)
  {
    var a, b, c := Text("HTTP/1.0 "), Text("HTTP/1.1 "), Text("HTTP/1.");
    assert a == c + [48, 32] && b == c + [49, 32];
    if |p| >= 12 {
      assert p[..9] == p[..7] + [p[7], p[8]];
      var d := p[9..12];
      assert d == [p[9], p[10], p[11]];
      DenotedThree(p[9], p[10], p[11]);
    }
    hide Denoted, Text;
  }

  lemma DenotedThree(x: byte, y: byte, z: byte)
    ensures Denoted([x, y, z], 10) == Digited(x) * 100 + Digited(y) * 10 + Digited(z)
  {
    assert [x, y, z][1..] == [y, z] && [y, z][1..] == [z] && [z][1..] == [];
    assert Power(10, 1) == 10 && Power(10, 2) == 100;
    assert Denoted([z], 10) == Digited(z);
    assert Denoted([y, z], 10) == Digited(y) * 10 + Digited(z);
  }
}
