/** The HTTP port as the Z80 sees it: a name spelled out byte by byte, chunks asked for and
    read, and a status, told from its port accesses and from the chunks that arrive. */
module HttpPort {
  import opened Bytes
  import opened Options
  import opened HttpIo
  import opened HttpDelivery
  import Http = HttpStream

  // ---------------------------------------------------------------- the reference

  /** The dialogue of one session: the name so far, whether it was misused, whether a chunk
      is asked for, what is left of the last chunk, the status that chunk came
      with and the body bytes read. The access under way, if any, comes last. */
  datatype View = View(collecting: bool, name: seq<byte>, misused: bool, asked: bool,
                       announced: bool, left: nat, last: byte, read: seq<byte>,
                       pumping: bool, reading: Option<byte>)
  {
    predicate Unread() { announced || left > 0 }

    /** Between 1 and 767 bytes, closed by a NUL. */
    predicate Spelled() { !collecting && 1 <= |name| <= 767 }

    function Status(): byte {
      if misused then 255 else if Unread() then 1 else if asked then 3 else last
    }
  }

  const FRESH := View(false, [], false, false, false, 0, 0, [], false, None)

  /** An access begins; one with nothing left to read looks at the mailbox first. */
  function Begun(v: View, io: Io): View {
    match io
    case In(address) => v.(reading := Some(address), pumping := !v.Unread())
    case Out(21, 1) => FRESH.(collecting := true, pumping := true)
    case Out(21, 4) => FRESH.(pumping := true)
    case Out(21, 3) =>
      if v.asked || v.Unread() then v
      else if !v.Spelled() || v.Status() == 255 then v.(misused := true)
      else if v.last == 2 then v
      else v.(asked := true, pumping := true)
    case Out(22, x) =>
      if !v.collecting then v
      else if x == 0 then v.(collecting := false, misused := v.misused || |v.name| == 0)
      else v.(name := v.name + [x], misused := v.misused || |v.name| >= 767)
    case _ => v
  }

  /** The mailbox is looked at: a chunk for this session is taken if one was asked for. */
  function Pumped(v: View, mail: Owner, slot: Slot, session: nat): View {
    if v.asked && mail == Done && slot.session == session
    then v.(pumping := false, asked := false, announced := slot.length > 0, left := slot.length, last := slot.status)
    else v.(pumping := false)
  }

  /** A read returns: of a chunk, first its length, then its bytes. */
  function Replied(v: View, address: byte, answer: byte): View {
    if address != 22 || !v.Unread() then v.(reading := None)
    else if v.announced then v.(reading := None, announced := false)
    else v.(reading := None, left := v.left - 1, read := v.read + [answer])
  }

  function NextView(s: State, st: Step, t: State, v: View): View {
    if st.Z80? then Begun(v, st.io)
    else if st.Core0Step? && v.pumping then Pumped(v, s.owner, s.slot, s.session)
    else if st.Core0Step? && s.c0.Reply? && v.reading.Some? then Replied(v, v.reading.value, t.answer)
    else v
  }

  ghost function Seen(run: seq<State>, steps: seq<Step>, i: nat): View
    requires Trace(run, steps) && i < |run|
  {
    if i == 0 then FRESH else NextView(run[i - 1], steps[i - 1], run[i], Seen(run, steps, i - 1))
  }

  // ---------------------------------------------------------------- agreement

  function Destination(c: Core0): Option<byte> {
    match c
    case Reply(a) => Some(a)
    case PumpLoad(Answer(a)) => Some(a)
    case StoreFree(Answer(a)) => Some(a)
    case FillSlot(Answer(a)) => Some(a)
    case PostSlot(Answer(a)) => Some(a)
    case _ => None
  }

  predicate Names(s: State, v: View) {
    && (forall k :: 0 <= k < |v.name| ==> v.name[k] != 0)
    && s.port.collecting == v.collecting && s.port.overflow == (|v.name| > 767)
    && s.port.name == (if |v.name| > 767 then v.name[..767] else v.name)
    && (|v.name| > 767 ==> v.misused) && (v.asked || v.Unread() ==> v.Spelled() && !v.misused)
    && (s.c0.PostSlot? || (s.owner == Pending && s.slot.session == s.session) ==> s.slot.name == v.name)
  }

  predicate Chunks(s: State, v: View) {
    && s.port.wantChunk == v.asked && s.port.Unread() == v.Unread() && s.got == v.read
    && (s.port.Unread() ==>
          && v.announced == (s.port.position == 0) && s.port.finalStatus == v.last
          && v.left == s.port.length - (if s.port.position == 0 then 1 else s.port.position))
    && s.port.status == v.Status()
    && !(v.asked && v.Unread())
  }

  predicate Moves(s: State, v: View) {
    && (s.c0.PumpLoad? <==> v.pumping) && Destination(s.c0) == v.reading
    && (v.asked && (s.c0.Ready? || s.c0.Reply?) ==> s.owner != Free) && (s.c0.Release? ==> !v.asked)
  }

  /** The statuses a chunk may come with: idle, end of file, no base URL, error. */
  predicate Code(b: byte) { b == 0 || b == 2 || b == 4 || b == 255 }

  predicate Codes(s: State, v: View) {
    && Code(v.last) && Code(s.worker.errorStatus) && s.worker.errorStatus != 2
    && (s.c1.Publishing? || s.owner == Done ==> Code(s.slot.status))
  }

  predicate Agrees(s: State, v: View) { Names(s, v) && Chunks(s, v) && Moves(s, v) && Codes(s, v) }

  lemma AgreeBegin(s: State, v: View, io: Io)
    requires Owned(s) && Agrees(s, v) && s.c0.Ready?
    ensures Agrees(Begin(s, io), Begun(v, io))
  {
    BeginNames(s, v, io);
    BeginChunks(s, v, io);
    BeginMoves(s, v, io);
    hide Begin, Begun, Names, Chunks, Moves;
  }

  lemma BeginNames(s: State, v: View, io: Io)
    requires Owned(s) && Names(s, v) && Chunks(s, v) && s.c0.Ready?
    ensures Names(Begin(s, io), Begun(v, io))
  {
    if io.Out? && io.address == 22 {
      NameGrows(v.name, io.value);
    }
  }

  /** A name longer than the buffer keeps its first 767 bytes. */
  lemma NameGrows(name: seq<byte>, x: byte)
    ensures |name| >= 767 ==> (name + [x])[..767] == name[..767] && (|name| == 767 ==> name[..767] == name)
    ensures x != 0 && (forall k :: 0 <= k < |name| ==> name[k] != 0) ==> forall k :: 0 <= k <= |name| ==> (name + [x])[k] != 0
  {
  }

  lemma BeginChunks(s: State, v: View, io: Io)
    requires Owned(s) && Names(s, v) && Chunks(s, v) && s.c0.Ready?
    ensures Chunks(Begin(s, io), Begun(v, io))
  {
  }

  lemma BeginMoves(s: State, v: View, io: Io)
    requires Owned(s) && Names(s, v) && Chunks(s, v) && Moves(s, v) && Codes(s, v) && s.c0.Ready?
    ensures Moves(Begin(s, io), Begun(v, io)) && Codes(Begin(s, io), Begun(v, io))
  {
  }

  lemma AgreePump(s: State, v: View)
    requires Owned(s) && Agrees(s, v) && s.c0.PumpLoad?
    ensures Agrees(Core0Next(s), NextView(s, Core0Step, Core0Next(s), v))
  {
  }

  lemma AgreeSlot(s: State, v: View)
    requires Owned(s) && Agrees(s, v) && (s.c0.StoreFree? || s.c0.FillSlot? || s.c0.PostSlot? || s.c0.Release?)
    ensures Agrees(Core0Next(s), NextView(s, Core0Step, Core0Next(s), v))
  {
  }

  lemma AgreeReply(s: State, v: View)
    requires Owned(s) && Agrees(s, v) && s.c0.Reply?
    ensures Agrees(Core0Next(s), NextView(s, Core0Step, Core0Next(s), v))
  {
  }

  lemma AgreeWorker(s: State, st: Step, v: View)
    requires Owned(s) && Agrees(s, v) && Enabled(s, st) && !st.Z80? && !st.Core0Step?
    ensures Agrees(Apply(s, st), v)
  {
    var t := Apply(s, st);
    assert t.port == s.port && t.c0 == s.c0 && t.session == s.session && t.got == s.got;
    assert t.slot.name == s.slot.name && t.slot.session == s.slot.session && (t.owner == Free <==> s.owner == Free);
    assert t.owner == Pending ==> s.owner == Pending;
    assert Codes(t, v);
    hide Apply, Enabled, Owned, Codes;
  }

  /** Every step keeps the port and the reference in agreement. */
  lemma AgreeStep(s: State, st: Step, v: View)
    requires Owned(s) && Enabled(s, st) && Agrees(s, v)
    ensures Agrees(Apply(s, st), NextView(s, st, Apply(s, st), v))
  {
    hide Owned, Core0Next, Serve, Serviced, Begin, Begun, Agrees;
    if st.Z80? {
      AgreeBegin(s, v, st.io);
    } else if !st.Core0Step? {
      AgreeWorker(s, st, v);
    } else {
      hide NextView;
      if s.c0.PumpLoad? {
        AgreePump(s, v);
      } else if s.c0.Reply? {
        AgreeReply(s, v);
      } else {
        AgreeSlot(s, v);
      }
    }
  }

  lemma PowerOn(s: State)
    requires Init(s)
    ensures Agrees(s, FRESH)
  {
  }

  lemma {:induction false} TraceAgrees(run: seq<State>, steps: seq<Step>, i: nat)
    requires Trace(run, steps) && i < |run|
    ensures Agrees(run[i], Seen(run, steps, i))
  {
    hide Flow, Statuses, StreamOk, Agrees, NextView, Sized, Init, Apply, Enabled, Owned;
    if i == 0 {
      PowerOn(run[0]);
    } else {
      TraceAgrees(run, steps, i - 1);
      TraceInv(run, steps, i - 1);
      assert Follows(run[i - 1], steps[i - 1], run[i]);
      AgreeStep(run[i - 1], steps[i - 1], Seen(run, steps, i - 1));
    }
  }

  // ---------------------------------------------------------------- what the Z80 gets

  /** A request in the mailbox for the current session names exactly the bytes the Z80 spelled
      out since it opened the session, in order and up to the NUL, 1 to 767 of them; and
      between accesses a chunk asked for is in the mailbox's hands. */
  lemma NameAsked(run: seq<State>, steps: seq<Step>, i: nat)
    requires Trace(run, steps) && i < |run|
    ensures var s, v := run[i], Seen(run, steps, i);
            && (s.owner == Pending && s.slot.session == s.session ==>
                  s.slot.name == v.name && v.asked && v.Spelled() && forall k :: 0 <= k < |v.name| ==> v.name[k] != 0)
            && (v.asked && s.c0.Ready? ==> s.owner != Free)
  {
    TraceAgrees(run, steps, i);
    TraceInv(run, steps, i);
    hide Flow, Statuses, StreamOk, Seen, Init, Follows;
  }

  /** What was read is a prefix of the body, and all of it at the end. */
  lemma BodyDecodes(w: Worker)
    requires StreamOk(w)
    ensures w.body == Http.Decode(Http.START, w.wire).emitted
  {
    hide Http.Decode;
  }

  lemma StateDelivered(s: State, v: View)
    requires Inv(s) && Agrees(s, v)
    ensures var body := Http.Decode(Http.START, s.worker.wire).emitted;
            && (if s.worker.session == s.session then v.read <= body else v.read == [])
            && (v.Status() == 2 ==> s.worker.session == s.session && s.worker.stream.done && v.read == body)
            && (v.announced ==> 1 <= v.left <= 256 && (v.left < 256 ==> v.last == 2))
  {
    BodyDecodes(s.worker);
    hide Http.Decode, StreamOk, Names, Moves, Codes, Owned;
    if s.port.status == EOF {
      assert Waiting(s) == [] && s.worker.body[..s.worker.taken] == s.worker.body;
    }
  }

  /** What a read of the data port returns. */
  lemma ReplyIsNext(s: State, v: View)
    requires Inv(s) && Agrees(s, v) && s.c0 == Reply(22)
    ensures var body := Http.Decode(Http.START, s.worker.wire).emitted;
            var answer := Core0Next(s).answer;
            if !v.Unread() then answer == 0
            else if v.announced then answer == if v.left == 256 then 0 else v.left
            else s.worker.session == s.session && |v.read| < |body| && answer == body[|v.read|]
  {
    assert s.worker.body == Http.Decode(Http.START, s.worker.wire).emitted;
    hide Http.Decode, StreamOk, Names, Moves, Codes, Statuses;
    if s.port.Unread() && s.port.position > 0 {
      assert Waiting(s)[0] == s.slot.data[s.port.position - 1];
      assert (s.got + Waiting(s))[|s.got|] == Waiting(s)[0];
    }
  }

  /** HTTP port delivery. What the Z80 has read in a session is a prefix of that session's
      body, the decoding of the bytes core 1 received for it; an end-of-file status means
      all of it was read and the response is complete; a chunk is of 256 bytes, or of
      fewer and the last. */
  lemma Delivery(run: seq<State>, steps: seq<Step>, i: nat)
    requires Trace(run, steps) && i < |run|
    ensures var s, v := run[i], Seen(run, steps, i);
            var w := s.worker;
            && (if w.session == s.session then v.read <= Http.Decode(Http.START, w.wire).emitted else v.read == [])
            && (v.Status() == 2 ==> w.session == s.session && w.stream.done
                                    && v.read == Http.Decode(Http.START, w.wire).emitted)
            && (v.announced ==> 1 <= v.left <= 256 && (v.left < 256 ==> v.last == 2))
  {
    hide Http.Decode, Init, Follows, Seen, Inv, Agrees;
    TraceInv(run, steps, i);
    TraceAgrees(run, steps, i);
    StateDelivered(run[i], Seen(run, steps, i));
  }

  /** A read of the data port returns a chunk's length byte, 0 for 256, then each next byte
      of the session's body, and 0 when there is nothing to read. */
  lemma DataAnswered(run: seq<State>, steps: seq<Step>, i: nat)
    requires Trace(run, steps) && i < |steps| && steps[i].Core0Step? && run[i].c0.Reply?
    requires Seen(run, steps, i).reading == Some(22)
    ensures var s, t, v := run[i], run[i + 1], Seen(run, steps, i);
            var body := Http.Decode(Http.START, s.worker.wire).emitted;
            if !v.Unread() then t.answer == 0
            else if v.announced then t.answer == if v.left == 256 then 0 else v.left
            else s.worker.session == s.session && |v.read| < |body| && t.answer == body[|v.read|]
  {
    hide Http.Decode, Init, Seen, Inv, Names, Chunks, Codes;
    TraceInv(run, steps, i);
    TraceAgrees(run, steps, i);
    assert Follows(run[i], steps[i], run[i + 1]);
    ReplyIsNext(run[i], Seen(run, steps, i));
    hide Core0Next;
  }

  /** A status read answers 1 exactly if a byte of a chunk can be fetched, 3 exactly if a
      chunk is asked for, 255 if the port was misused, and else the status of the last
      chunk; 2, end of file, only when the whole body was read. */
  lemma StatusAnswered(run: seq<State>, steps: seq<Step>, i: nat)
    requires Trace(run, steps) && i < |steps| && steps[i].Core0Step? && run[i].c0.Reply?
    requires Seen(run, steps, i).reading == Some(21)
    ensures var s, t, v := run[i], run[i + 1], Seen(run, steps, i);
            && t.c0.Ready? && t.answer == v.Status()
            && (t.answer == 1 <==> v.Unread()) && (t.answer == 3 <==> v.asked) && (v.misused ==> t.answer == 255)
            && (t.answer == 2 ==> s.worker.session == s.session && s.worker.stream.done
                                  && v.read == Http.Decode(Http.START, s.worker.wire).emitted)
  {
    TraceAgrees(run, steps, i);
    Delivery(run, steps, i);
    TraceInv(run, steps, i);
    assert Follows(run[i], steps[i], run[i + 1]);
    hide Flow, Statuses, StreamOk, Http.Decode, Init, Seen;
  }

  /** A delivery from the network is consumed in order, and wholly unless the ring is full,
      the response is over or nothing is being received. */
  lemma ReceiveTakes(w: Worker, data: seq<byte>)
    requires |w.ring| <= RING && w.active
    ensures var r := Received(w, data);
            exists n :: 0 <= n <= |data| && r.wire == w.wire + data[..n]
                        && (n == |data| || |r.ring| == RING || !r.stream.Active())
  {
    hide Http.Feed, Http.Decode;
    var f := Http.Feed(w.stream, data, RING - |w.ring|);
    Http.FeedDecodes(w.stream, data, RING - |w.ring|);
  }
}
