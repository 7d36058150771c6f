/** The value the chat reader keeps is the one a plain lookup in the tree finds. */
module JsonLookup {
  import opened Bytes
  import opened Json
  import opened JsonText

  // ---------------------------------------------------------------- the lookup

  /** A key is a name exactly when its code points are the name's. */
  predicate KeyIs(key: seq<Unit>, name: string)
    requires UnitsOk(key)
  {
    var cps := CodePoints(key);
    |cps| == |name| && forall i :: 0 <= i < |cps| ==> cps[i] == name[i] as int
  }

  /** Every string at choices[0].delta.content: repeated keys may give several. */
  function Contents(root: Members): seq<seq<nat>>
    requires MembersOk(root)
  {
    if root.NoMembers? then []
    else (if KeyIs(root.key, "choices") then FirstChoice(root.value) else []) + Contents(root.tail)
  }

  function FirstChoice(choices: Tree): seq<seq<nat>>
    requires TreeOk(choices)
  {
    if choices.Array? && choices.elements.Element? then
      assert ElementsOk(choices.elements);
      ChoiceContents(choices.elements.value)
    else []
  }

  function ChoiceContents(choice: Tree): seq<seq<nat>>
    requires TreeOk(choice)
  {
    if choice.Object? then Deltas(choice.members) else []
  }

  function Deltas(m: Members): seq<seq<nat>>
    requires MembersOk(m)
  {
    if m.NoMembers? then [] else (if KeyIs(m.key, "delta") then DeltaContents(m.value) else []) + Deltas(m.tail)
  }

  function DeltaContents(delta: Tree): seq<seq<nat>>
    requires TreeOk(delta)
  {
    if delta.Object? then Strings(delta.members) else []
  }

  function Strings(m: Members): seq<seq<nat>>
    requires MembersOk(m)
  {
    if m.NoMembers? then [] else (if KeyIs(m.key, "content") then StringOf(m.value) else []) + Strings(m.tail)
  }

  function StringOf(content: Tree): seq<seq<nat>>
    requires TreeOk(content)
  {
    if content.String? then [CodePoints(content.units)] else []
  }

  predicate HasKey(m: Members, name: string)
    requires MembersOk(m)
  {
    m.Member? && (KeyIs(m.key, name) || HasKey(m.tail, name))
  }

  /** Characters the terminal has. */
  predicate Plain(cp: nat) { cp == 9 || cp == 10 || cp == 13 || 32 <= cp <= 126 }

  /** Typographic characters and what stands for them. */
  const TYPOGRAPHY: map<nat, char> :=
    map[0xa0 := ' ', 0x2018 := '\'', 0x2019 := '\'', 0x201c := '\"', 0x201d := '\"', 0x2013 := '-', 0x2014 := '-']

  /** The text shows these code points: each as itself, as its plain counterpart, or as '?'. */
  predicate ShownAs(cps: seq<nat>, text: seq<byte>) {
    |text| == |cps| &&
    forall i :: 0 <= i < |cps| ==>
      text[i] == if Plain(cps[i]) then cps[i] else if cps[i] in TYPOGRAPHY then TYPOGRAPHY[cps[i]] as int else '?' as int
  }

  lemma MappedShows(cps: seq<nat>)
    ensures ShownAs(cps, Mapped(cps))
  {
  }

  lemma ShownAppend(a: seq<nat>, b: seq<nat>, x: seq<byte>, y: seq<byte>)
    requires ShownAs(a, x) && ShownAs(b, y)
    ensures ShownAs(a + b, x + y)
  {
  }

  /** Plain text is shown unchanged, and whatever is shown is plain. */
  lemma ShownIsPlain(cps: seq<nat>, text: seq<byte>)
    requires ShownAs(cps, text)
    ensures forall i :: 0 <= i < |text| ==> Plain(text[i])
    ensures (forall i :: 0 <= i < |cps| ==> Plain(cps[i])) ==> text == cps
  {
  }

  /** How many containers deep the deepest value lies. */
  function Height(t: Tree): nat {
    match t
    case Object(_, ms) => MembersHeight(ms)
    case Array(_, es) => ElementsHeight(es)
    case _ => 0
  }

  function MembersHeight(m: Members): nat {
    if m.NoMembers? then 0
    else
      var v, r := 1 + Height(m.value), MembersHeight(m.tail);
      if v >= r then v else r
  }

  function ElementsHeight(e: Elements): nat {
    if e.NoElements? then 0
    else
      var v, r := 1 + Height(e.value), ElementsHeight(e.tail);
      if v >= r then v else r
  }

  // ---------------------------------------------------------------- evaluation collects

  /** The strings a value contributes, by the reader's path. */
  function Collected(t: Tree, path: Path): seq<seq<nat>>
    requires TreeOk(t)
  {
    match t
    case Object(_, ms) => CollectedMembers(ms, path)
    case Array(_, es) => CollectedElements(es, path == Choices)
    case String(us) => if path == Content then [CodePoints(us)] else []
    case _ => []
  }

  function CollectedMembers(m: Members, path: Path): seq<seq<nat>>
    requires MembersOk(m)
  {
    if m.NoMembers? then []
    else Collected(m.value, NextPath(path, CodePoints(m.key))) + CollectedMembers(m.tail, path)
  }

  function CollectedElements(e: Elements, chosen: bool): seq<seq<nat>>
    requires ElementsOk(e)
  {
    if e.NoElements? then []
    else Collected(e.value, if chosen then Choice else Elsewhere) + CollectedElements(e.tail, false)
  }

  predicate Marked(m: Members, path: Path)
    requires MembersOk(m)
  {
    m.Member? && (MarksError(path, CodePoints(m.key)) || Marked(m.tail, path))
  }

  function Noted(t: Tree, path: Path, f: Found): Found
    requires TreeOk(t)
  {
    f.(providerError := f.providerError || (t.Object? && Marked(t.members, path)))
  }

  /** Keeping strings one after another: at most one, and it must fit. */
  function Keep(f: Found, c: seq<seq<nat>>): Outcome {
    if c == [] then Keeps(f)
    else if f.seen || |c[0]| >= TEXT_SIZE || |c| > 1 then Fails
    else Keeps(f.(seen := true, text := Mapped(c[0])))
  }

  lemma KeepAppend(f: Found, a: seq<seq<nat>>, b: seq<seq<nat>>)
    ensures Keep(f, a + b) == if Keep(f, a).Fails? then Fails else Keep(Keep(f, a).found, b)
  {
    if a == [] {
      assert a + b == b;
    }
    if b == [] {
      assert a + b == a;
    }
  }

  lemma KeepNoted(f: Found, e: bool, c: seq<seq<nat>>)
    ensures var g := f.(providerError := f.providerError || e);
            Keep(g, c) ==
            if Keep(f, c).Fails? then Fails
            else Keeps(Keep(f, c).found.(providerError := f.providerError || e))
  {
  }

  /** Only objects at the root can note a provider error. */
  lemma {:induction false} NotMarked(m: Members, path: Path)
    requires MembersOk(m) && path != Root
    ensures !Marked(m, path)
  {
    if m.Member? {
      NotMarked(m.tail, path);
    }
  }

  lemma NextIsNotRoot(path: Path, key: seq<nat>)
    ensures NextPath(path, key) != Root
  {
  }

  lemma {:induction false} EvalCollects(t: Tree, depth: nat, path: Path, f: Found)
    requires TreeOk(t)
    ensures Eval(t, depth, path, f) ==
            if depth + Height(t) <= DEPTH_MAX then Keep(Noted(t, path, f), Collected(t, path)) else Fails
    decreases t
  {
    if depth <= DEPTH_MAX {
      match t
      case Object(_, ms) => EvalMembersCollects(ms, depth, path, f);
      case Array(_, es) => EvalElementsCollects(es, depth, path == Choices, f);
      case _ =>
    }
  }

  /** A member's own mark is noted before the rest are. */
  lemma MarkedNext(m: Members, path: Path, f: Found)
    requires m.Member? && MembersOk(m)
    ensures var g := NoteKey(f, path, CodePoints(m.key));
            f.(providerError := f.providerError || Marked(m, path)) == g.(providerError := g.providerError || Marked(m.tail, path))
  {
    hide CodePoints;
  }

  lemma {:induction false} EvalMembersCollects(m: Members, depth: nat, path: Path, f: Found)
    requires MembersOk(m) && depth <= DEPTH_MAX
    ensures EvalMembers(m, depth, path, f) ==
            if depth + MembersHeight(m) <= DEPTH_MAX
            then Keep(f.(providerError := f.providerError || Marked(m, path)), CollectedMembers(m, path)) else Fails
    decreases m
  {
    if m.Member? {
      MemberFirst(m, depth, path, f);
      hide *;
      var key := CodePoints(m.key);
      var next := NextPath(path, key);
      var g := NoteKey(f, path, key);
      EvalCollects(m.value, depth + 1, next, g);
      NextIsNotRoot(path, key);
      NotNoted(m.value, next, g);
      MarkedNext(m, path, f);
      var a, b := Collected(m.value, next), CollectedMembers(m.tail, path);
      KeepRest(g, Marked(m.tail, path), a, b);
      var v := Keep(g, a);
      if v.Keeps? {
        EvalMembersCollects(m.tail, depth, path, v.found);
      }
    }
  }

  lemma MemberFirst(m: Members, depth: nat, path: Path, f: Found)
    requires m.Member? && MembersOk(m)
    ensures TreeOk(m.value) && MembersOk(m.tail)
    ensures var key := CodePoints(m.key);
            var v := Eval(m.value, depth + 1, NextPath(path, key), NoteKey(f, path, key));
            && EvalMembers(m, depth, path, f) == (if v.Fails? then Fails else EvalMembers(m.tail, depth, path, v.found))
            && CollectedMembers(m, path) == Collected(m.value, NextPath(path, key)) + CollectedMembers(m.tail, path)
    ensures depth + MembersHeight(m) <= DEPTH_MAX <==>
            depth + 1 + Height(m.value) <= DEPTH_MAX && depth + MembersHeight(m.tail) <= DEPTH_MAX
  {
    hide Eval, NextPath, NoteKey, CodePoints, Collected, Height;
  }

  lemma NotNoted(t: Tree, path: Path, f: Found)
    requires TreeOk(t) && path != Root
    ensures Noted(t, path, f) == f
  {
    if t.Object? {
      NotMarked(t.members, path);
    }
  }

  /** Strings kept one after another, a mark of the later ones noted first. */
  lemma KeepRest(g: Found, e: bool, a: seq<seq<nat>>, b: seq<seq<nat>>)
    ensures var v, h := Keep(g, a), g.(providerError := g.providerError || e);
            Keep(h, a + b) == if v.Fails? then Fails else Keep(v.found.(providerError := v.found.providerError || e), b)
  {
    KeepAppend(g.(providerError := g.providerError || e), a, b);
    KeepNoted(g, e, a);
  }

  lemma {:induction false} EvalElementsCollects(e: Elements, depth: nat, chosen: bool, f: Found)
    requires ElementsOk(e) && depth <= DEPTH_MAX
    ensures EvalElements(e, depth, chosen, f) ==
            if depth + ElementsHeight(e) <= DEPTH_MAX then Keep(f, CollectedElements(e, chosen)) else Fails
    decreases e
  {
    if e.Element? {
      var path := if chosen then Choice else Elsewhere;
      EvalCollects(e.value, depth + 1, path, f);
      if e.value.Object? {
        NotMarked(e.value.members, path);
      }
      assert Noted(e.value, path, f) == f;
      var a, b := Collected(e.value, path), CollectedElements(e.tail, false);
      var v := Keep(f, a);
      hide Eval, Collected, Height;
      if v.Keeps? {
        EvalElementsCollects(e.tail, depth, false, v.found);
      }
      KeepAppend(f, a, b);
    }
  }

  // ---------------------------------------------------------------- paths are lookups

  /** Letters come only from themselves, so comparing mapped keys compares code points. */
  lemma NameExact(key: seq<Unit>, name: string)
    requires UnitsOk(key) && |name| < KEY_SIZE && forall i :: 0 <= i < |name| ==> 'a' <= name[i] <= 'z'
    ensures Mapped(CodePoints(key)) == Text(name) <==> KeyIs(key, name)
  {
    var cps := CodePoints(key);
    hide CodePoints;
    if KeyIs(key, name) {
      assert Mapped(cps) == Text(name);
    } else if |cps| == |name| {
      var i :| 0 <= i < |cps| && cps[i] != name[i] as int;
      assert Mapped(cps)[i] != Text(name)[i];
    }
  }

  lemma KeyPaths(key: seq<Unit>)
    requires UnitsOk(key)
    ensures var cps := CodePoints(key);
            && (NextPath(Root, cps) == if KeyIs(key, "choices") then Choices else Elsewhere)
            && (NextPath(Choice, cps) == if KeyIs(key, "delta") then Delta else Elsewhere)
            && (NextPath(Delta, cps) == if KeyIs(key, "content") then Content else Elsewhere)
            && NextPath(Elsewhere, cps) == Elsewhere && NextPath(Choices, cps) == Elsewhere
            && NextPath(Content, cps) == Elsewhere && (MarksError(Root, cps) <==> KeyIs(key, "error"))
  {
    NameExact(key, "choices");
    NameExact(key, "delta");
    NameExact(key, "content");
    NameExact(key, "error");
    hide Text, Mapped;
  }

  lemma {:induction false} NothingElsewhere(t: Tree, path: Path)
    requires TreeOk(t) && (path == Elsewhere || (path == Content && !t.String?) || (path == Choices && !t.Array?)
                           || ((path == Choice || path == Delta) && !t.Object?))
    ensures Collected(t, path) == []
    decreases t
  {
    match t
    case Object(_, ms) => NoMembersElsewhere(ms, path);
    case Array(_, es) => NoElementsElsewhere(es);
    case _ =>
  }

  lemma {:induction false} NoMembersElsewhere(m: Members, path: Path)
    requires MembersOk(m) && (path == Elsewhere || path == Content || path == Choices)
    ensures CollectedMembers(m, path) == []
    decreases m
  {
    if m.Member? {
      KeyPaths(m.key);
      NothingElsewhere(m.value, Elsewhere);
      NoMembersElsewhere(m.tail, path);
    }
  }

  lemma {:induction false} NoElementsElsewhere(e: Elements)
    requires ElementsOk(e)
    ensures CollectedElements(e, false) == []
    decreases e
  {
    if e.Element? {
      NothingElsewhere(e.value, Elsewhere);
      NoElementsElsewhere(e.tail);
    }
  }

  lemma {:induction false} StringsAre(m: Members)
    requires MembersOk(m)
    ensures CollectedMembers(m, Delta) == Strings(m)
  {
    if m.Member? {
      KeyPaths(m.key);
      if !KeyIs(m.key, "content") {
        NothingElsewhere(m.value, Elsewhere);
      } else if !m.value.String? {
        NothingElsewhere(m.value, Content);
      }
      StringsAre(m.tail);
    }
  }

  lemma DeltaIs(t: Tree)
    requires TreeOk(t)
    ensures Collected(t, Delta) == DeltaContents(t)
  {
    if t.Object? {
      StringsAre(t.members);
    } else {
      NothingElsewhere(t, Delta);
    }
  }

  lemma {:induction false} DeltasAre(m: Members)
    requires MembersOk(m)
    ensures CollectedMembers(m, Choice) == Deltas(m)
  {
    if m.Member? {
      KeyPaths(m.key);
      if !KeyIs(m.key, "delta") {
        NothingElsewhere(m.value, Elsewhere);
      } else {
        DeltaIs(m.value);
      }
      DeltasAre(m.tail);
    }
  }

  lemma ChoiceIs(t: Tree)
    requires TreeOk(t)
    ensures Collected(t, Choice) == ChoiceContents(t)
  {
    if t.Object? {
      DeltasAre(t.members);
    } else {
      NothingElsewhere(t, Choice);
    }
  }

  lemma FirstChoiceIs(t: Tree)
    requires TreeOk(t)
    ensures Collected(t, Choices) == FirstChoice(t)
  {
    if !t.Array? {
      NothingElsewhere(t, Choices);
    } else if t.elements.Element? {
      assert ElementsOk(t.elements);
      ChoiceIs(t.elements.value);
      NoElementsElsewhere(t.elements.tail);
      assert CollectedElements(t.elements, true) == Collected(t.elements.value, Choice) + [];
    }
  }

  lemma {:induction false} ContentsAre(m: Members)
    requires MembersOk(m)
    ensures CollectedMembers(m, Root) == Contents(m) && Marked(m, Root) == HasKey(m, "error")
  {
    if m.Member? {
      KeyPaths(m.key);
      if KeyIs(m.key, "choices") {
        FirstChoiceIs(m.value);
      } else {
        NothingElsewhere(m.value, Elsewhere);
      }
      ContentsAre(m.tail);
      hide KeyIs, NextPath, MarksError;
    }
  }

  /** The document's outcome: it is kept exactly when it is not too deep, holds at most
      one string at choices[0].delta.content and that string fits; what is kept is that
      string as the terminal shows it. */
  function Lookup(root: Tree): Outcome
    requires TreeOk(root) && root.Object?
  {
    var c := Contents(root.members);
    if Height(root) > 16 || |c| > 1 || (|c| == 1 && |c[0]| > 4095) then Fails
    else Keeps(Found(|c| == 1, if |c| == 1 then Mapped(c[0]) else [], HasKey(root.members, "error")))
  }

  lemma EvalIsLookup(root: Tree)
    requires TreeOk(root) && root.Object?
    ensures Eval(root, 0, Root, NOTHING) == Lookup(root)
  {
    EvalCollects(root, 0, Root, NOTHING);
    ContentsAre(root.members);
    hide Height, Contents, HasKey, Marked, CollectedMembers, Eval;
  }
}
