/** The discovery worklist: it terminates, and what it returns is the least set of
    instructions closed under control flow, none overlapping another. */
module Discovery {
  import opened Bytes
  import opened Options
  import opened Disassembler

  type Listing = map<int, Instruction>

  /** The successors of an instruction that lie in the image. */
  predicate Leads(i: Instruction, a: int) {
    InImage(a) && (i.target == Some(a) || i.FallThrough() == Some(a))
  }

  /** The image is loaded at E300 and ends at F900. */
  predicate Within(a: int) { 0xE300 <= a < 0xF900 }

  /** JMP, CALL and their conditional forms carry an address. */
  predicate Carries(op: byte) { op == 0xC3 || op == 0xCD || (op >= 0xC0 && (op % 8 == 2 || op % 8 == 4)) }

  /** Where the bytes at a lead within the image: on past the instruction, unless it is HLT,
      JMP, RET or PCHL, and to the address it carries. */
  predicate Succ(image: seq<byte>, a: int, b: int) {
    var k := a - 0xE300;
    0 <= k < |image| && Within(b) &&
    (|| (image[k] != 0x76 && image[k] != 0xC3 && image[k] != 0xC9 && image[k] != 0xE9 && b == a + Length(image[k]))
     || (Carries(image[k]) && Holds(image, a + 1, b)))
  }

  /** A set of addresses that control flow does not leave, within the image. */
  ghost predicate Closed(image: seq<byte>, s: set<int>) {
    forall a, b :: a in s && Within(a) && Decode(image, a).Ok? && Succ(image, a, b) ==> b in s
  }

  ghost predicate HoldsRoots(image: seq<byte>, s: set<int>) { forall a :: IsRoot(image, a) && Within(a) ==> a in s }

  /** Control flow from the roots reaches a: it lies in every closed set that holds them. */
  ghost predicate Reached(image: seq<byte>, a: int) {
    Within(a) && forall s: set<int> :: Closed(image, s) && HoldsRoots(image, s) ==> a in s
  }

  /** The successors that are followed are those the bytes say. */
  lemma LeadsIsSucc(image: seq<byte>, a: int, b: int)
    requires InImage(a) && Decode(image, a).Ok?
    ensures Leads(Decode(image, a).value, b) <==> Succ(image, a, b)
  {
    DecodeTotal(image, a);
    hide Decode, Length;
  }

  /** A reached address that holds no whole official instruction. */
  ghost predicate Undecodable(image: seq<byte>, a: int) {
    Reached(image, a) &&
    (Decode(image, a).Err? || Decode(image, a).value.flow == Unofficial || a + Decode(image, a).value.size > 0xF900)
  }

  /** Two reached instructions, one starting inside the other. */
  ghost predicate Overlap(image: seq<byte>, a: int, b: int) {
    Reached(image, a) && Reached(image, b) && Decode(image, a).Ok? && a < b < a + Decode(image, a).value.size
  }

  /** What discovery cannot make a listing of. */
  ghost predicate Flawed(image: seq<byte>) {
    || |image| < 0xEB47 - 0xE300 + 82
    || (exists a :: Undecodable(image, a))
    || (exists a, b :: Overlap(image, a, b))
  }

  /** Each entry is what the image decodes to there, and lies wholly in the image. */
  predicate Decoded(image: seq<byte>, found: Listing) {
    forall a :: a in found ==>
      && InImage(a) && Decode(image, a) == Ok(found[a]) && found[a].address == a
      && found[a].flow != Unofficial && 1 <= found[a].size && a + found[a].size <= BIOS_BASE
  }

  predicate Covers(i: Instruction, b: int) { i.address <= b < i.address + i.size }

  /** The occupied bytes are exactly those of the instructions, each owned by one. */
  ghost predicate Owned(found: Listing, occupied: map<int, int>) {
    && (forall b :: b in occupied ==> occupied[b] in found && Covers(found[occupied[b]], b))
    && (forall a, b :: a in found && Covers(found[a], b) ==> b in occupied && occupied[b] == a)
  }

  /** Every in-image target and fall-through is decoded, but for those still to do. */
  ghost predicate Followed(found: Listing, targets: set<int>, todo: set<int>) {
    && (forall t :: t in targets && InImage(t) ==> t in found || t in todo)
    && (forall a :: a in found ==>
          && (found[a].target.Some? && InImage(found[a].target.value) ==> found[a].target.value in targets)
          && (found[a].FallThrough().Some? && InImage(found[a].FallThrough().value) ==>
                found[a].FallThrough().value in found || found[a].FallThrough().value in todo))
  }

  /** Nothing is found or to be followed that control flow from the roots does not reach. */
  ghost predicate Needed(image: seq<byte>, found: Listing, targets: set<int>, todo: set<int>) {
    && (forall t :: t in targets ==> IsRoot(image, t) || exists a :: a in found && found[a].target == Some(t) && InImage(t))
    && forall s: set<int> :: Closed(image, s) && HoldsRoots(image, s) ==>
         (forall a :: a in found ==> a in s) && (forall a :: a in todo && InImage(a) ==> a in s)
  }

  ghost predicate Inv(image: seq<byte>, found: Listing, occupied: map<int, int>, targets: set<int>, todo: set<int>) {
    Decoded(image, found) && Owned(found, occupied) && Followed(found, targets, todo) && Needed(image, found, targets, todo)
    && forall t :: IsRoot(image, t) ==> t in targets
  }

  function Elements(s: seq<int>): set<int> { set a | a in s }

  /** Addresses not yet decoded: what each turn of the inner loop uses up. */
  ghost function Left(found: Listing): nat { |(set a | ORIGIN <= a < BIOS_BASE && InImage(a)) - found.Keys| }

  /** Two instructions that share a byte are the same. */
  predicate Disjoint(found: Listing) {
    forall a, b :: a in found && b in found && a < b ==> a + found[a].size <= b
  }

  lemma OwnedDisjoint(image: seq<byte>, found: Listing, occupied: map<int, int>)
    requires Decoded(image, found) && Owned(found, occupied)
    ensures Disjoint(found)
  {
    hide Decode;
    forall a, b | a in found && b in found && a < b
      ensures a + found[a].size <= b
    {
      assert Covers(found[b], b) && occupied[b] == b;
      assert !Covers(found[a], b);
    }
  }

  /** The instruction's bytes, none occupied before, are now its own. */
  ghost predicate Marks(i: Instruction, occupied: map<int, int>, marked: map<int, int>) {
    && (forall b :: Covers(i, b) ==> b !in occupied)
    && (forall b :: b in marked <==> b in occupied || Covers(i, b))
    && (forall b :: b in marked ==> marked[b] == if Covers(i, b) then i.address else occupied[b])
  }

  /** The loop over an instruction's bytes. */
  method Occupy(i: Instruction, occupied: map<int, int>) returns (r: Result<map<int, int>>)
    requires 1 <= i.size
    ensures r.Ok? ==> i.address + i.size <= BIOS_BASE && Marks(i, occupied, r.value)
    ensures r.Err? ==> r.error == CrossesEnd || r.error == Overlapping
    ensures r.Err? ==> i.address + i.size > BIOS_BASE || exists b :: Covers(i, b) && b in occupied
  {
    var now, at := occupied, i.address;
    r := Ok(now);
    while at < i.address + i.size && r.Ok?
      invariant i.address <= at <= i.address + i.size
      invariant r.Ok? ==> r.value == now && (at > i.address ==> at <= BIOS_BASE)
      invariant forall b :: i.address <= b < at ==> b !in occupied
      invariant forall b :: b in now <==> b in occupied || i.address <= b < at
      invariant forall b :: b in now ==> now[b] == if i.address <= b < at then i.address else occupied[b]
      invariant r.Err? ==> r.error == CrossesEnd || r.error == Overlapping
      invariant r.Err? ==> i.address + i.size > BIOS_BASE || exists b :: Covers(i, b) && b in occupied
      decreases i.address + i.size - at, r.Ok?
    {
      if at >= BIOS_BASE {
        r := Err(CrossesEnd);
      } else if at in now {
        assert Covers(i, at) && at in occupied;
        r := Err(Overlapping);
      } else {
        now := now[at := i.address];
        at := at + 1;
        r := Ok(now);
      }
    }
  }

  /** What is still to do after an instruction is added. */
  function Onward(i: Instruction, todo: set<int>): set<int> {
    todo - {i.address} + (if i.FallThrough().Some? then {i.FallThrough().value} else {})
      + (if i.target.Some? && InImage(i.target.value) then {i.target.value} else {})
  }

  function WithTarget(i: Instruction, targets: set<int>): set<int> {
    if i.target.Some? && InImage(i.target.value) then targets + {i.target.value} else targets
  }

  lemma AddOwned(found: Listing, occupied: map<int, int>, i: Instruction, marked: map<int, int>)
    requires Owned(found, occupied) && i.address !in found
    requires Marks(i, occupied, marked)
    ensures Owned(found[i.address := i], marked)
  {
  }

  lemma AddNeeded(image: seq<byte>, found: Listing, targets: set<int>, todo: set<int>, i: Instruction)
    requires Needed(image, found, targets, todo) && i.address in todo && InImage(i.address) && i.address !in found
    requires Decode(image, i.address) == Ok(i)
    ensures Needed(image, found[i.address := i], WithTarget(i, targets), Onward(i, todo))
  {
    var found', targets', todo' := found[i.address := i], WithTarget(i, targets), Onward(i, todo);
    hide Decode, IsRoot;
    forall t | t in targets'
      ensures IsRoot(image, t) || exists a :: a in found' && found'[a].target == Some(t) && InImage(t)
    {
      if t !in targets {
        assert i.address in found' && found'[i.address].target == Some(t);
      } else if !IsRoot(image, t) {
        var a :| a in found && found[a].target == Some(t) && InImage(t);
        assert a in found' && found'[a].target == Some(t);
      }
    }
    forall s: set<int> | Closed(image, s) && HoldsRoots(image, s)
      ensures (forall a :: a in found' ==> a in s) && (forall a :: a in todo' && InImage(a) ==> a in s)
    {
      assert i.address in s;
      forall a | a in todo' && InImage(a)
        ensures a in s
      {
        LeadsIsSucc(image, i.address, a);
        assert a in todo || Leads(i, a);
      }
    }
  }

  lemma AddFollowed(found: Listing, targets: set<int>, todo: set<int>, i: Instruction)
    requires Followed(found, targets, todo) && i.address !in found
    ensures Followed(found[i.address := i], WithTarget(i, targets), Onward(i, todo))
  {
  }

  /** Decoding one more address keeps the invariant. */
  lemma Add(image: seq<byte>, found: Listing, occupied: map<int, int>, targets: set<int>, todo: set<int>, i: Instruction,
            marked: map<int, int>)
    requires Inv(image, found, occupied, targets, todo) && i.address in todo && InImage(i.address) && i.address !in found
    requires Decode(image, i.address) == Ok(i) && i.flow != Unofficial && 1 <= i.size && i.address + i.size <= BIOS_BASE
    requires Marks(i, occupied, marked)
    ensures Inv(image, found[i.address := i], marked, WithTarget(i, targets), Onward(i, todo))
  {
    AddOwned(found, occupied, i, marked);
    AddFollowed(found, targets, todo, i);
    AddNeeded(image, found, targets, todo, i);
    hide Decode, IsRoot, Owned, Followed, Needed, Marks;
  }

  lemma LeftShrinks(found: Listing, a: int, i: Instruction)
    requires InImage(a) && a !in found
    ensures Left(found[a := i]) < Left(found)
  {
    var all := set x | ORIGIN <= x < BIOS_BASE && InImage(x);
    var found' := found[a := i];
    assert all - found'.Keys == (all - found.Keys) - {a};
    assert a in all - found.Keys;
  }

  function ToDo(pending: seq<int>, next: Option<int>): set<int> {
    Elements(pending) + (if next.Some? then {next.value} else {})
  }

  /** The two sets differ at most in one address. */
  predicate SameBut(x: int, s: set<int>, t: set<int>) { s - {x} == t - {x} }

  /** The worklist after an instruction holds what is left to follow. */
  lemma OnwardIs(i: Instruction, pending: seq<int>, pending': seq<int>)
    requires pending' == if i.target.Some? && InImage(i.target.value) then pending + [i.target.value] else pending
    ensures var todo, rest := ToDo(pending, Some(i.address)), ToDo(pending', i.FallThrough());
            && SameBut(i.address, Onward(i, todo), rest)
  {
  }

  lemma DecodeKind(image: seq<byte>, address: int)
    requires InImage(address)
    ensures var d := Decode(image, address);
            if d.Ok? then d.value.address == address && 1 <= d.value.size
            else d.error == IndexOutOfRange || d.error == TruncatedInstruction
  {
    DecodeTotal(image, address);
  }

  /** The address to decode, and everything decoded before, is reached. */
  lemma ReachedNow(image: seq<byte>, found: Listing, occupied: map<int, int>, targets: set<int>, pending: seq<int>, address: int)
    requires Inv(image, found, occupied, targets, ToDo(pending, Some(address))) && InImage(address)
    ensures Reached(image, address) && forall a :: a in found ==> Reached(image, a) && Decode(image, a) == Ok(found[a])
  {
    InToDo(pending, address);
    hide Decode, IsRoot, Closed, Owned, Followed, ToDo;
  }

  lemma OwnerOf(image: seq<byte>, found: Listing, occupied: map<int, int>, targets: set<int>, todo: set<int>, b: int)
    requires Inv(image, found, occupied, targets, todo) && b in occupied
    ensures occupied[b] in found && occupied[b] <= b < occupied[b] + found[occupied[b]].size
  {
    hide Decode, IsRoot, Followed, Needed;
    assert Covers(found[occupied[b]], b);
  }

  /** A byte of the address's own range that is already taken means two reached
      instructions overlap: the owner starts before the address or inside its range. */
  lemma Collision(image: seq<byte>, found: Listing, occupied: map<int, int>, targets: set<int>, pending: seq<int>,
                  address: int, b: int, last: int)
    requires Inv(image, found, occupied, targets, ToDo(pending, Some(address))) && InImage(address) && address !in found
    requires b in occupied && address <= b <= last
    requires last > address ==> Decode(image, address).Ok? && last < address + Decode(image, address).value.size
    ensures Flawed(image)
  {
    hide Inv, Reached, ToDo, Decode, IsRoot;
    ReachedNow(image, found, occupied, targets, pending, address);
    var owner := occupied[b];
    OwnerOf(image, found, occupied, targets, ToDo(pending, Some(address)), b);
    if owner < address {
      assert Overlap(image, owner, address);
    } else {
      assert Overlap(image, address, owner);
    }
  }

  lemma Refused(image: seq<byte>, found: Listing, occupied: map<int, int>, targets: set<int>, pending: seq<int>, i: Instruction)
    requires Inv(image, found, occupied, targets, ToDo(pending, Some(i.address))) && InImage(i.address) && i.address !in found
    requires Decode(image, i.address) == Ok(i)
    requires i.address + i.size > BIOS_BASE || exists b :: Covers(i, b) && b in occupied
    ensures Flawed(image)
  {
    if i.address + i.size > BIOS_BASE {
      ReachedNow(image, found, occupied, targets, pending, i.address);
      hide Inv, Reached, ToDo, Decode;
      assert Undecodable(image, i.address);
    } else {
      var b :| Covers(i, b) && b in occupied;
      hide Inv, Reached, ToDo, Decode;
      Collision(image, found, occupied, targets, pending, i.address, b, b);
    }
  }

  /** A finished listing holds every reached address, and none of them is at fault. */
  lemma FinishedIsSound(image: seq<byte>, found: Listing, targets: set<int>)
    requires Decoded(image, found) && Disjoint(found) && Followed(found, targets, {}) && |image| >= 0xEB47 - ORIGIN + 82
    requires forall t :: IsRoot(image, t) ==> t in targets
    ensures !Flawed(image) && forall a :: Reached(image, a) ==> a in found
  {
    hide Decode, IsRoot;
    var all := found.Keys;
    assert HoldsRoots(image, all);
    forall a, b | a in all && Within(a) && Decode(image, a).Ok? && Succ(image, a, b)
      ensures b in all
    {
      LeadsIsSucc(image, a, b);
      assert found[a] == Decode(image, a).value;
    }
    assert Closed(image, all);
    assert forall a :: Reached(image, a) ==> a in found;
  }

  /** A finished listing holds nothing else, and follows every successor. */
  lemma FinishedIsLeast(image: seq<byte>, found: Listing, targets: set<int>)
    requires Decoded(image, found) && Followed(found, targets, {}) && Needed(image, found, targets, {})
    ensures forall a :: a in found ==> Reached(image, a)
    ensures forall a, b :: a in found && Succ(image, a, b) ==> b in found
  {
    hide Decode, IsRoot, Closed;
    forall a, b | a in found && Succ(image, a, b)
      ensures b in found
    {
      LeadsIsSucc(image, a, b);
    }
  }

  /** One turn of the inner loop: decode an address not seen before. */
  method OneInstruction(image: seq<byte>, address: int, found: Listing, occupied: map<int, int>, targets: set<int>, pending: seq<int>)
    returns (found': Listing, occupied': map<int, int>, targets': set<int>, pending': seq<int>, next: Option<int>, error: Option<Error>)
    requires Inv(image, found, occupied, targets, ToDo(pending, Some(address))) && InImage(address) && address !in found
    ensures error.None? ==> Inv(image, found', occupied', targets', ToDo(pending', next)) && Left(found') < Left(found)
    ensures error.Some? ==> error.value != NotABoundary && error.value != UnsupportedOpcode && Flawed(image)
  {
    DecodeKind(image, address);
    hide Decode, Inv, Left, ToDo, Onward, Marks, SameBut, Covers, WithTarget, WithPending, Reached;
    found', occupied', targets', pending', next, error := found, occupied, targets, pending, None, None;
    var d := Decode(image, address);
    if address in occupied {
      Collision(image, found, occupied, targets, pending, address, address, address);
      error := Some(EntersData);
    } else if d.Err? {
      ReachedNow(image, found, occupied, targets, pending, address);
      assert Undecodable(image, address);
      error := Some(d.error);
    } else if d.value.flow == Unofficial {
      ReachedNow(image, found, occupied, targets, pending, address);
      assert Undecodable(image, address);
      error := Some(NonOfficialOpcode);
    } else {
      var i := d.value;
      var marked := Occupy(i, occupied);
      if marked.Err? {
        Refused(image, found, occupied, targets, pending, i);
        error := Some(marked.error);
      } else {
        AddOne(image, found, occupied, targets, pending, i, marked.value);
        found', occupied' := found[address := i], marked.value;
        targets', pending' := WithTarget(i, targets), WithPending(i, pending);
        next := i.FallThrough();
      }
    }
  }

  function WithPending(i: Instruction, pending: seq<int>): seq<int> {
    if i.target.Some? && InImage(i.target.value) then pending + [i.target.value] else pending
  }

  lemma AddOne(image: seq<byte>, found: Listing, occupied: map<int, int>, targets: set<int>, pending: seq<int>,
               i: Instruction, marked: map<int, int>)
    requires Inv(image, found, occupied, targets, ToDo(pending, Some(i.address))) && InImage(i.address) && i.address !in found
    requires Decode(image, i.address) == Ok(i) && i.flow != Unofficial && 1 <= i.size && i.address + i.size <= BIOS_BASE
    requires Marks(i, occupied, marked)
    ensures Inv(image, found[i.address := i], marked, WithTarget(i, targets), ToDo(WithPending(i, pending), i.FallThrough()))
    ensures Left(found[i.address := i]) < Left(found)
  {
    hide Decode, Inv, Left, ToDo, Onward, Marks, SameBut, WithTarget;
    InToDo(pending, i.address);
    var todo, found' := ToDo(pending, Some(i.address)), found[i.address := i];
    Add(image, found, occupied, targets, todo, i, marked);
    LeftShrinks(found, i.address, i);
    OnwardIs(i, pending, WithPending(i, pending));
    assert i.address in found';
    Resume(image, found', marked, WithTarget(i, targets), Onward(i, todo), ToDo(WithPending(i, pending), i.FallThrough()));
  }

  lemma InToDo(pending: seq<int>, address: int)
    ensures address in ToDo(pending, Some(address))
  {
  }

  /** The inner loop: from one address on, until the path ends or joins a known one. */
  method Follow(image: seq<byte>, start: int, found0: Listing, occupied0: map<int, int>, targets0: set<int>, pending0: seq<int>)
    returns (found: Listing, occupied: map<int, int>, targets: set<int>, pending: seq<int>, error: Option<Error>)
    requires Inv(image, found0, occupied0, targets0, ToDo(pending0, Some(start)))
    ensures error.None? ==> Inv(image, found, occupied, targets, ToDo(pending, None))
    ensures error.None? ==> Left(found) < Left(found0) || (Left(found) == Left(found0) && pending == pending0)
    ensures error.Some? ==> error.value != NotABoundary && error.value != UnsupportedOpcode && Flawed(image)
  {
    hide Inv, Left, ToDo;
    found, occupied, targets, pending, error := found0, occupied0, targets0, pending0, None;
    var next := Some(start);
    while error.None? && next.Some? && ORIGIN <= next.value < BIOS_BASE && next.value !in found
      invariant error.None? ==> Inv(image, found, occupied, targets, ToDo(pending, next))
      invariant error.None? ==> Left(found) < Left(found0) || (Left(found) == Left(found0) && pending == pending0)
      invariant error.Some? ==> error.value != NotABoundary && error.value != UnsupportedOpcode && Flawed(image)
      decreases error.None?, Left(found)
    {
      found, occupied, targets, pending, next, error :=
        OneInstruction(image, next.value, found, occupied, targets, pending);
    }
    if error.None? && next.Some? {
      PathEnds(image, found, occupied, targets, pending, next.value);
    }
  }

  lemma PathEnds(image: seq<byte>, found: Listing, occupied: map<int, int>, targets: set<int>, pending: seq<int>, a: int)
    requires Inv(image, found, occupied, targets, ToDo(pending, Some(a))) && (a in found || !InImage(a))
    ensures Inv(image, found, occupied, targets, ToDo(pending, None))
  {
    hide Inv;
    assert SameBut(a, ToDo(pending, Some(a)), ToDo(pending, None));
    Resume(image, found, occupied, targets, ToDo(pending, Some(a)), ToDo(pending, None));
  }

  lemma PopIs(pending: seq<int>)
    requires pending != []
    ensures var n := |pending| - 1; ToDo(pending, None) == ToDo(pending[..n], Some(pending[n]))
  {
    var n := |pending| - 1;
    assert pending == pending[..n] + [pending[n]];
  }

  method Pick<T>(s: set<T>) returns (a: T)
    requires s != {}
    ensures a in s
  {
    a :| a in s;
  }

  /** list(targets): the elements in some order. */
  method Listed(s: set<int>) returns (r: seq<int>)
    ensures forall a :: a in r <==> a in s
  {
    r := [];
    var rest := s;
    while rest != {}
      invariant forall a :: a in s <==> a in r || a in rest
      decreases rest
    {
      var a := Pick(rest);
      rest := rest - {a};
      r := r + [a];
    }
  }

  lemma SameElements(r: seq<int>, s: set<int>)
    requires forall a :: a in r <==> a in s
    ensures Elements(r) == s
  {
    forall a
      ensures a in Elements(r) <==> a in s
    {
    }
  }

  lemma Start(image: seq<byte>, roots: set<int>)
    requires forall a :: a in roots <==> IsRoot(image, a)
    ensures Inv(image, map[], map[], roots, roots)
  {
    hide Decode, IsRoot;
  }

  /** discover: it always ends. If it returns a listing, every entry is what the image
      decodes to, no two overlap, every in-image target and fall-through is an entry, the
      roots are among the targets, and every entry is reachable: it lies in each set that
      holds the roots and is closed under control flow. It returns one exactly when the
      tables fit, every reached address holds a whole official instruction and no two of
      those overlap. Its last check never fires. */
  method Discover(image: seq<byte>) returns (r: Result<Listing>, targets: set<int>)
    ensures r.Ok? ==> Decoded(image, r.value) && Disjoint(r.value) && Followed(r.value, targets, {})
    ensures r.Ok? ==> Needed(image, r.value, targets, {}) && forall t :: IsRoot(image, t) ==> t in targets
    ensures r.Err? ==> r.error != NotABoundary && r.error != UnsupportedOpcode
    ensures r.Ok? ==> forall a :: a in r.value <==> Reached(image, a)
    ensures r.Ok? ==> forall a, b :: a in r.value && Succ(image, a, b) ==> b in r.value
    ensures r.Ok? <==> !Flawed(image)
  {
    hide Inv, Left, ToDo, IsRoot, Decoded, Owned, Needed;
    var found: Listing, occupied: map<int, int> := map[], map[];
    targets := {};
    var starts := Roots(image);
    if starts.Err? {
      return Err(starts.error), {};
    }
    targets := starts.value;
    Start(image, targets);
    var pending := Listed(targets);
    ToDoNone(pending);
    SameElements(pending, targets);
    var error: Option<Error> := None;
    while pending != [] && error.None?
      invariant error.None? ==> Inv(image, found, occupied, targets, ToDo(pending, None))
      invariant error.Some? ==> error.value != NotABoundary && error.value != UnsupportedOpcode && Flawed(image)
      decreases error.None?, Left(found), |pending|
    {
      PopIs(pending);
      var n := |pending| - 1;
      var address := pending[n];
      pending := pending[..n];
      found, occupied, targets, pending, error := Follow(image, address, found, occupied, targets, pending);
    }
    if error.Some? {
      r := Err(error.value);
    } else {
      Finished(image, found, occupied, targets);
      FinishedIsSound(image, found, targets);
      FinishedIsLeast(image, found, targets);
      var stray := exists t :: t in targets && InImage(t) && t !in found;
      r := if stray then Err(NotABoundary) else Ok(found);
    }
  }

  lemma ToDoNone(pending: seq<int>)
    ensures ToDo(pending, None) == Elements(pending) && ToDo([], None) == {}
  {
  }

  lemma Finished(image: seq<byte>, found: Listing, occupied: map<int, int>, targets: set<int>)
    requires Inv(image, found, occupied, targets, ToDo([], None))
    ensures Decoded(image, found) && Disjoint(found) && Followed(found, targets, {}) && Needed(image, found, targets, {})
    ensures forall t :: IsRoot(image, t) ==> t in targets
  {
    ToDoNone([]);
    OwnedDisjoint(image, found, occupied);
    hide ToDo, Decoded, Owned, Needed, Followed, IsRoot;
  }

  /** More to do than needed does no harm, as long as it is reachable and nothing is lost. */
  lemma Resume(image: seq<byte>, found: Listing, occupied: map<int, int>, targets: set<int>, todo: set<int>, rest: set<int>)
    requires Inv(image, found, occupied, targets, todo)
    requires exists a :: SameBut(a, todo, rest) && (a in found || (!InImage(a) && rest <= todo))
    ensures Inv(image, found, occupied, targets, rest)
  {
    hide Decode, IsRoot, Closed, Owned, Decoded;
    var x :| SameBut(x, todo, rest) && (x in found || (!InImage(x) && rest <= todo));
    forall a | a != x
      ensures a in todo <==> a in rest
    {
      assert a in todo - {x} <==> a in rest - {x};
    }
  }
}
