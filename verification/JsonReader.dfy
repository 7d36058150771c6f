/** string and value as chat_stream.c runs them: a cursor over the line, a key buffer
    and the stream's text buffer, filled in place. */
module JsonReader {
  import opened Bytes
  import opened Json

  /** What a buffer of the given capacity holds of a string. */
  function Buffered(cps: seq<nat>, capacity: nat): (r: seq<byte>)
    requires capacity > 0
    ensures |cps| < capacity ==> r == Mapped(cps)
  {
    if |cps| < capacity then Mapped(cps) else Mapped(cps[..capacity - 1])
  }

  class Reader {
    var unread: seq<byte>
    var text: seq<byte>
    var seen: bool
    var providerError: bool

    ghost function Kept(): Found
      reads this
    {
      Found(seen, text, providerError)
    }

    constructor (data: seq<byte>)
      ensures unread == data && Kept() == NOTHING
    {
      unread, text, seen, providerError := data, [], false, false;
    }

    method Whitespace()
      modifies this`unread
      ensures unread == Skip(old(unread))
    {
      while unread != [] && Space(unread[0])
        invariant Skip(unread) == Skip(old(unread))
        decreases |unread|
      {
        unread := unread[1..];
      }
    }

    /** string: the length counts every character, the buffer keeps those that fit. */
    method String(capacity: nat) returns (ok: bool, out: seq<byte>, length: nat)
      requires capacity > 0
      modifies this`unread
      ensures var r := ReadString(old(unread));
              ok == r.Str? && (ok ==> unread == r.rest && length == |r.cps| && out == Buffered(r.cps, capacity))
    {
      ok, out, length := false, [], 0;
      if unread == [] || unread[0] != QUOTE {
        return;
      }
      unread := unread[1..];
      ghost var whole := ReadChars(unread);
      ghost var cps: seq<nat> := [];
      var bad := false;
      while !ok && !bad
        invariant length == |cps| && out == Buffered(cps, capacity)
        invariant ok ==> whole == Str(cps, unread)
        invariant bad ==> whole.BadString?
        invariant !ok && !bad ==> whole == Prefixed(cps, ReadChars(unread))
        decreases !ok && !bad, |unread|
      {
        if unread == [] {
          bad := true;
        } else if unread[0] == QUOTE {
          assert cps + [] == cps;
          unread, ok := unread[1..], true;
        } else {
          var c := ReadChar(unread);
          PrefixStep(cps, unread);
          hide ReadChar, ReadChars;
          if c.BadChar? {
            bad := true;
          } else {
            BufferStep(cps, c.cp, capacity);
            if length + 1 < capacity {
              out := out + [Ascii(c.cp)];
            }
            length := length + 1;
            unread := c.rest;
            cps := cps + [c.cp];
          }
        }
      }
    }

    method Scalar() returns (ok: bool)
      requires unread != []
      modifies this`unread
      ensures var r := ReadScalar(old(unread)); ok == r.Rest? && (ok ==> unread == r.rest)
    {
      var r := ReadScalar(unread);
      ok := r.Rest?;
      if ok {
        unread := r.rest;
      }
    }

    /** A string value: captured at choices[0].delta.content, once. */
    method TextValue(path: Path) returns (ok: bool)
      modifies this
      ensures var r := ReadText(old(unread), path, old(Kept()));
              ok == r.Parsed? && (ok ==> unread == r.rest && Kept() == r.found)
    {
      hide ReadString;
      var capture := path == Content;
      ok := false;
      if !(capture && seen) {
        var out, length;
        ok, out, length := String(TEXT_SIZE);
        if ok && capture {
          if length >= TEXT_SIZE {
            ok := false;
          } else {
            text, seen := out, true;
          }
        }
      }
    }

    method Value(depth: nat, path: Path) returns (ok: bool)
      modifies this
      ensures var r := ReadValue(old(unread), depth, path, old(Kept()));
              ok == r.Parsed? && (ok ==> unread == r.rest && Kept() == r.found)
      decreases |unread|, 0
    {
      hide ReadMembers, ReadElements, ReadText, ReadScalar, Skip;
      ok := false;
      ghost var start := unread;
      if depth <= DEPTH_MAX {
        Whitespace();
        if unread != [] {
          if unread[0] == LBRACE {
            unread := unread[1..];
            Whitespace();
            if unread != [] && unread[0] == RBRACE {
              unread, ok := unread[1..], true;
            } else {
              ok := Members(depth, path);
            }
          } else if unread[0] == LBRACKET {
            unread := unread[1..];
            Whitespace();
            if unread != [] && unread[0] == RBRACKET {
              unread, ok := unread[1..], true;
            } else {
              ok := Elements(depth, path);
            }
          } else if unread[0] == QUOTE {
            ok := TextValue(path);
          } else {
            ok := Scalar();
          }
        }
      }
    }

    /** A member's key and colon, and the path of the value they lead to. */
    method Key(path: Path) returns (good: bool, next: Path)
      modifies this
      ensures var r := ReadString(old(unread));
              && good == (r.Str? && Skip(r.rest) != [] && Skip(r.rest)[0] == COLON)
              && (good ==> unread == Skip(r.rest)[1..] && next == NextPath(path, r.cps)
                           && Kept() == NoteKey(old(Kept()), path, r.cps))
    {
      hide ReadString, Skip;
      next := Elsewhere;
      var key, length;
      good, key, length := String(KEY_SIZE);
      if good {
        Whitespace();
        good := unread != [] && unread[0] == COLON;
        if good {
          unread := unread[1..];
          if length < KEY_SIZE {
            if path == Root && key == Text("choices") {
              next := Choices;
            } else if path == Choice && key == Text("delta") {
              next := Delta;
            } else if path == Delta && key == Text("content") {
              next := Content;
            }
            if path == Root && key == Text("error") {
              providerError := true;
            }
          }
        }
      }
    }

    /** The byte after a value and its white space; NUL at the end of the line. */
    method Separator() returns (c: byte)
      modifies this`unread
      ensures var u := Skip(old(unread));
              if u == [] then c == 0 && unread == [] else c == u[0] && unread == u[1..]
    {
      hide Skip;
      Whitespace();
      c := 0;
      if unread != [] {
        c, unread := unread[0], unread[1..];
      }
    }

    /** The loop over an object's members. */
    method Members(depth: nat, path: Path) returns (ok: bool)
      modifies this
      ensures var r := ReadMembers(old(unread), depth, path, old(Kept()));
              ok == r.Parsed? && (ok ==> unread == r.rest && Kept() == r.found)
      decreases |unread|, 2
    {
      hide ReadValue, NextPath, NoteKey, ReadString;
      ok := false;
      var more := true;
      ghost var whole := ReadMembers(unread, depth, path, Kept());
      while more
        invariant more ==> |unread| <= |old(unread)|
        invariant more ==> !ok && ReadMembers(unread, depth, path, Kept()) == whole
        invariant !more ==> ok == whole.Parsed? && (ok ==> unread == whole.rest && Kept() == whole.found)
        decreases more, |unread|
      {
        more := false;
        var good, next := Key(path);
        if good {
          good := Value(depth + 1, next);
          if good {
            var c := Separator();
            if c == RBRACE {
              ok := true;
            } else if c == COMMA {
              Whitespace();
              more := true;
            }
          }
        }
      }
    }

    /** The loop over an array's elements. */
    method Elements(depth: nat, path: Path) returns (ok: bool)
      modifies this
      ensures var r := ReadElements(old(unread), depth, path == Choices, old(Kept()));
              ok == r.Parsed? && (ok ==> unread == r.rest && Kept() == r.found)
      decreases |unread|, 2
    {
      hide ReadValue;
      ok := false;
      var more, index := true, 0;
      ghost var whole := ReadElements(unread, depth, path == Choices, Kept());
      while more
        invariant more ==> |unread| <= |old(unread)|
        invariant more ==> !ok && ReadElements(unread, depth, path == Choices && index == 0, Kept()) == whole
        invariant !more ==> ok == whole.Parsed? && (ok ==> unread == whole.rest && Kept() == whole.found)
        decreases more, |unread|
      {
        more := false;
        var good := Value(depth + 1, if path == Choices && index == 0 then Choice else Elsewhere);
        index := index + 1;
        if good {
          var c := Separator();
          if c == RBRACKET {
            ok := true;
          } else if c == COMMA {
            more := true;
          }
        }
      }
    }
  }

  function Prefixed(cps: seq<nat>, r: StringResult): StringResult {
    if r.BadString? then r else Str(cps + r.cps, r.rest)
  }

  lemma PrefixStep(cps: seq<nat>, s: seq<byte>)
    requires s != [] && s[0] != QUOTE
    ensures var c := ReadChar(s);
            if c.BadChar? then ReadChars(s).BadString?
            else Prefixed(cps, ReadChars(s)) == Prefixed(cps + [c.cp], ReadChars(c.rest))
  {
    var c := ReadChar(s);
    if c.Char? && ReadChars(c.rest).Str? {
      assert cps + ([c.cp] + ReadChars(c.rest).cps) == cps + [c.cp] + ReadChars(c.rest).cps;
    }
  }

  lemma BufferStep(cps: seq<nat>, cp: nat, capacity: nat)
    requires capacity > 0
    ensures Buffered(cps + [cp], capacity) ==
            if |cps| + 1 < capacity then Buffered(cps, capacity) + [Ascii(cp)] else Buffered(cps, capacity)
  {
    var more := cps + [cp];
    if |cps| + 1 >= capacity {
      assert more[..capacity - 1] == cps[..capacity - 1];
      if |cps| < capacity {
        assert cps[..capacity - 1] == cps;
      }
    }
  }
}
