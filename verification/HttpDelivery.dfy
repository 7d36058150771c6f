/** What the Z80 reads through the HTTP port, in every interleaving of the two cores. */
module HttpDelivery {
  import opened Bytes
  import opened HttpIo
  import Http = HttpStream

  // ---------------------------------------------------------------- the decoder's side

  predicate Late(s: Http.Stream) { s.phase != Http.Status && s.phase != Http.Headers }

  predicate LateOk(s: Http.Stream) { Late(s) ==> s.status < 300 }

  lemma LateLine(s: Http.Stream)
    requires LateOk(s) && s.phase in {Http.Status, Http.Headers, Http.ChunkSize, Http.Trailers}
    ensures LateOk(Http.Line(s)) && (Late(s) ==> Late(Http.Line(s)))
  {
    hide Http.StatusLineOk, Http.Field, Http.FieldName, Http.FieldValue, Http.SameName, Http.IsNumber, Http.Scanned;
  }

  lemma LateStep(s: Http.Stream, c: byte)
    requires LateOk(s)
    ensures LateOk(Http.Step(s, c)) && (Late(s) ==> Late(Http.Step(s, c)))
  {
    hide Http.Line;
    if s.line != [] && s.phase in {Http.Status, Http.Headers, Http.ChunkSize, Http.Trailers} {
      LateLine(s.(headerBytes := s.headerBytes + 1, line := s.line[..|s.line| - 1]));
    }
  }

  /** Only a response with a body, never a redirect, emits anything. */
  lemma {:induction false} LateDecode(s: Http.Stream, data: seq<byte>)
    requires LateOk(s)
    ensures var d := Http.Decode(s, data);
            LateOk(d.stream) && (Late(s) || d.emitted != [] ==> Late(d.stream))
    decreases |data|
  {
    hide Http.Step;
    if data != [] && s.Active() {
      LateStep(s, data[0]);
      LateDecode(Http.Step(s, data[0]), data[1..]);
    }
  }

  /** The worker's stream and body are the decoding of the bytes it consumed. */
  ghost predicate StreamOk(w: Worker) {
    var d := Http.Decode(Http.START, w.wire);
    && w.body == d.emitted
    && (w.stream.error == Http.NoError ==> w.stream == d.stream || w.stream == Http.Close(d.stream))
    && (w.active ==> w.isOpen) && (w.active && w.stream.done ==> w.stream.error == Http.NoError)
    && (!w.isOpen ==> !w.stream.done && w.wire == [])
    && w.taken <= |w.body| && |w.ring| <= RING && w.errorStatus != EOF
    && (w.stream.error == Http.NoError ==> w.ring == w.body[w.taken..])
  }

  lemma StreamFailed(w: Worker)
    requires StreamOk(w)
    ensures StreamOk(Failed(w))
  {
    hide Http.Decode;
  }

  lemma StreamRestarted(session: nat)
    ensures StreamOk(Restarted(session))
  {
  }

  /** A redirect response has no body, so following it loses none. */
  lemma RedirectHasNoBody(w: Worker)
    requires StreamOk(w) && w.active && w.stream.done && w.stream.status >= 300
    ensures w.body == [] && w.taken == 0 && w.ring == []
  {
    LateDecode(Http.START, w.wire);
    hide Http.Decode;
  }

  lemma StreamFinish(w: Worker, r: Opening)
    requires StreamOk(w)
    ensures StreamOk(Finish(w, r))
  {
    if w.active && w.stream.done && w.stream.status >= 300 {
      RedirectHasNoBody(w);
      var v := w.(redirects := w.redirects + 1);
      StreamFailed(v);
      var u := v.(stream := Http.START, wire := []);
      assert StreamOk(u);
      StreamFailed(u);
    }
    hide Http.Decode;
  }

  lemma StreamServiced(w: Worker, session: nat, down: bool, r: Opening)
    requires StreamOk(w)
    ensures StreamOk(Serviced(w, session, down, r))
  {
    StreamRestarted(session);
    var a := if session != w.session then Restarted(session) else w;
    StreamFailed(a);
    hide StreamOk, Finish, Failed;
    StreamFinish(if a.active && down then Failed(a) else a, r);
  }

  lemma StreamOpened(w: Worker, o: Opening)
    requires StreamOk(w)
    ensures StreamOk(Opened(w, o))
  {
  }

  /** A receive that the stream is past caring about changes nothing. */
  lemma ReceivedOver(w: Worker, data: seq<byte>)
    requires StreamOk(w) && w.active && !w.stream.Active()
    ensures StreamOk(Received(w, data))
  {
    var f := Http.Feed(w.stream, data, RING - |w.ring|);
    assert f == Http.Fed(w.stream, 0, []);
    assert data[..0] == [] && w.wire + [] == w.wire && w.body + [] == w.body && w.ring + [] == w.ring;
    assert Received(w, data) == w.(active := w.stream.error == Http.NoError);
    hide Http.Decode, Http.Feed;
  }

  lemma StreamReceived(w: Worker, data: seq<byte>)
    requires StreamOk(w)
    ensures StreamOk(Received(w, data))
  {
    hide Http.Decode, Http.Feed;
    if w.active && !w.stream.Active() {
      ReceivedOver(w, data);
    } else if w.active {
      var f := Http.Feed(w.stream, data, RING - |w.ring|);
      assert w.stream == Http.Decode(Http.START, w.wire).stream;
      Http.FeedDecodes(w.stream, data, RING - |w.ring|);
      Http.DecodeAppend(Http.START, w.wire, data[..f.used]);
      assert (w.body + f.emitted)[w.taken..] == w.body[w.taken..] + f.emitted;
    }
  }

  lemma StreamClosed(w: Worker)
    requires StreamOk(w)
    ensures StreamOk(Closed(w))
  {
    Http.DecodeNothing(Http.START);
    hide Http.Decode, Http.Close;
    CloseOnce(w.stream);
    CloseOnce(Http.Decode(Http.START, w.wire).stream);
  }

  lemma CloseOnce(s: Http.Stream)
    ensures var c := Http.Close(s);
            && Http.Close(c) == c && (c.error == Http.NoError ==> s.error == Http.NoError)
            && (c.done ==> s.done || (s.error == Http.NoError && s.phase == Http.BodyClose && c.error == Http.NoError))
            && (s.done ==> c == s)
  {
  }

  lemma StreamHanded(w: Worker)
    requires StreamOk(w)
    ensures StreamOk(Handed(w))
    ensures w.stream.error == Http.NoError ==>
              w.body[..w.taken + ChunkLength(w)] == w.body[..w.taken] + w.ring[..ChunkLength(w)]
  {
    hide Http.Decode;
    if w.stream.error == Http.NoError {
      var n := ChunkLength(w);
      assert w.body[w.taken..][n..] == w.body[w.taken + n..];
      assert w.body[..w.taken + n] == w.body[..w.taken] + w.body[w.taken..][..n];
    }
  }

  // ---------------------------------------------------------------- the mailbox

  /** Who owns the slot, and what each core may assume of it. */
  predicate Owned(s: State) {
    && Sized(s) && s.slot.length <= CHUNK && s.slot.session <= s.session && s.worker.session <= s.session
    && (s.c1.Publishing? ==> s.owner == Pending)
    && (s.c1.Serving? ==> s.c1.current == s.worker.session)
    && (s.c0.StoreFree? || s.c0.Release? ==> s.owner == Done && (s.slot.session == s.session ==> !s.port.wantChunk))
    && (s.c0.FillSlot? || s.c0.PostSlot? ==> s.owner == Free && s.port.wantChunk)
    && (s.c0.PostSlot? ==> s.slot.session == s.session)
    && (s.port.Unread() ==>
          && s.owner == Done && s.slot.session == s.session && !s.port.wantChunk
          && s.port.length == s.slot.length + 1 > 1 && (s.c0.Ready? || s.c0.Reply?))
    && (s.owner == Done && s.slot.session == s.session ==>
          s.port.wantChunk || s.port.Unread() || s.c0.StoreFree? || s.c0.Release?)
    && (s.owner == Pending && s.slot.session == s.session ==> s.port.wantChunk)
    && |s.port.name| <= NAME_MAX
  }

  /** A chunk for this session that core 0 has not yet looked at. */
  predicate Fresh(s: State) {
    s.slot.session == s.session && s.port.wantChunk && (s.c1.Publishing? || s.owner == Done)
  }

  /** Body bytes handed over and not yet read. */
  function Waiting(s: State): seq<byte>
    requires Owned(s)
  {
    if Fresh(s) then s.slot.data[..s.slot.length]
    else if s.port.Unread() then s.slot.data[if s.port.position == 0 then 0 else s.port.position - 1..s.slot.length]
    else []
  }

  /** Core 1 has decoded the whole body of this session and handed all of it over. */
  predicate Finished(s: State) {
    var w := s.worker;
    w.session == s.session && w.isOpen && !w.active && w.stream.done && w.taken == |w.body|
  }

  /** What was read and what is waiting is what was handed over. */
  predicate Flow(s: State)
    requires Owned(s)
  {
    if s.worker.session == s.session
    then s.worker.taken <= |s.worker.body| && s.got + Waiting(s) == s.worker.body[..s.worker.taken]
    else s.got == [] && Waiting(s) == []
  }

  predicate Statuses(s: State) {
    && (Fresh(s) && 0 < s.slot.length < CHUNK ==> s.slot.status == EOF)
    && (s.port.Unread() ==> s.port.finalStatus == s.slot.status && (s.slot.length < CHUNK ==> s.slot.status == EOF))
    && (Fresh(s) && s.slot.status == EOF ==> Finished(s))
    && (s.port.Unread() && s.port.finalStatus == EOF ==> Finished(s))
    && (s.port.status == EOF ==> Finished(s) && !s.port.wantChunk && !s.port.Unread())
  }

  ghost predicate Inv(s: State) { Owned(s) && StreamOk(s.worker) && Flow(s) && Statuses(s) }

  lemma InitInv(s: State)
    requires Init(s)
    ensures Inv(s)
  {
    Http.DecodeNothing(Http.START);
  }

  // ---------------------------------------------------------------- core 0's steps

  lemma BeginKeeps(s: State, io: Io)
    requires Inv(s) && s.c0.Ready?
    ensures Inv(Begin(s, io))
  {
    hide StreamOk;
  }

  lemma PumpKeeps(s: State)
    requires Inv(s) && s.c0.PumpLoad?
    ensures Inv(Core0Next(s))
  {
    hide StreamOk;
    if Adopts(s) && s.slot.length != 0 {
      assert Waiting(Core0Next(s)) == s.slot.data[0..s.slot.length] == s.slot.data[..s.slot.length];
    }
  }

  lemma SlotStepKeeps(s: State)
    requires Inv(s) && (s.c0.StoreFree? || s.c0.FillSlot? || s.c0.PostSlot? || s.c0.Release?)
    ensures Inv(Core0Next(s))
  {
    hide StreamOk;
  }

  lemma ReplyKeeps(s: State)
    requires Inv(s) && s.c0.Reply?
    ensures Inv(Core0Next(s))
  {
    ReplyOwned(s);
    ReplyFlow(s);
    hide StreamOk, Owned, Flow;
  }

  lemma ReplyOwned(s: State)
    requires Owned(s) && s.c0.Reply?
    ensures Owned(Core0Next(s))
  {
  }

  lemma ReplyFlow(s: State)
    requires Inv(s) && s.c0.Reply?
    ensures Flow(Core0Next(s))
  {
    hide StreamOk, Statuses;
    var t := Core0Next(s);
    var k := s.port.position;
    if s.c0.address == DATA_PORT && s.port.Unread() && k > 0 {
      assert Waiting(s) == [s.slot.data[k - 1]] + s.slot.data[k..s.slot.length];
      assert Waiting(t) == s.slot.data[k..s.slot.length];
      assert s.got + Waiting(s) == t.got + Waiting(t);
    }
  }

  // ---------------------------------------------------------------- core 1's steps

  /** Core 1 changes only its own state, and nothing handed over. */
  lemma WorkerMove(s: State, w: Worker, c1: Core1)
    requires Inv(s) && !s.c1.Publishing? && !c1.Publishing? && StreamOk(w)
    requires w.session <= s.session && (c1.Serving? ==> c1.current == w.session)
    requires w.session == s.session ==>
               if s.worker.session == s.session then w.taken == s.worker.taken && w.body[..w.taken] == s.worker.body[..w.taken]
               else w.taken == 0
    requires w.session != s.session ==> s.worker.session != s.session
    requires Finished(s) ==> Finished(s.(worker := w))
    ensures Inv(s.(worker := w, c1 := c1))
  {
    var t := s.(worker := w, c1 := c1);
    assert Fresh(t) == Fresh(s) && Waiting(t) == Waiting(s);
    hide StreamOk;
  }

  lemma ServiceKeeps(s: State, down: bool, r: Opening)
    requires Inv(s) && s.c1.Outside?
    ensures Inv(s.(worker := Serviced(s.worker, s.session, down, r), c1 := Serving(s.session)))
  {
    var w := Serviced(s.worker, s.session, down, r);
    StreamServiced(s.worker, s.session, down, r);
    if s.worker.session == s.session && s.worker.active && s.worker.stream.done && s.worker.stream.status >= 300 {
      RedirectHasNoBody(s.worker);
    }
    hide StreamOk;
    WorkerMove(s, w, Serving(s.session));
  }

  lemma NetworkKeeps(s: State, st: Step)
    requires Inv(s) && s.c1.Outside? && (st.Receive? || st.RemoteClose? || st.NetworkError?)
    ensures Inv(Apply(s, st))
  {
    var w := match st
      case Receive(data) => Received(s.worker, data)
      case RemoteClose => Closed(s.worker)
      case _ => Failed(s.worker);
    match st {
      case Receive(data) => StreamReceived(s.worker, data);
      case RemoteClose => StreamClosed(s.worker);
      case _ => StreamFailed(s.worker);
    }
    assert s.worker.taken <= |s.worker.body|;
    hide StreamOk, Http.Feed, Owned, Flow, Statuses;
    assert w.taken == s.worker.taken && w.body[..w.taken] == s.worker.body[..w.taken];
    WorkerMove(s, w, Outside);
  }

  predicate MayFill(s: State, w: Worker) {
    && s.c1.Serving? && s.owner == Pending && s.slot.session == s.c1.current
    && w.session == s.worker.session && w.taken == s.worker.taken && w.body == s.worker.body && w.isOpen
    && (Finished(s) ==> Finished(s.(worker := w)))
  }

  function Filled(s: State, w: Worker): State
    requires |s.slot.data| == CHUNK
  {
    s.(worker := Handed(w), slot := FilledSlot(s.slot, w), c1 := Publishing)
  }

  lemma FillOwned(s: State, w: Worker)
    requires Inv(s) && StreamOk(w) && MayFill(s, w) && w.stream.error == Http.NoError
    ensures Owned(Filled(s, w)) && Waiting(s) == []
  {
    assert |w.ring| <= RING;
    hide StreamOk, Flow, Statuses;
  }

  lemma FillFlow(s: State, w: Worker)
    requires Inv(s) && StreamOk(w) && MayFill(s, w) && w.stream.error == Http.NoError && Owned(Filled(s, w))
    requires Waiting(s) == []
    ensures Flow(Filled(s, w))
  {
    StreamHanded(w);
    assert w.taken + |w.ring| == |w.body|;
    var t, n := Filled(s, w), ChunkLength(w);
    assert t.slot.data[..n] == w.ring[..n] && t.slot.length == n && t.worker.taken == w.taken + n;
    hide StreamOk, Handed, FilledSlot, ChunkLength, Statuses;
  }

  lemma FillStatuses(s: State, w: Worker)
    requires Inv(s) && StreamOk(w) && MayFill(s, w) && w.stream.error == Http.NoError && !Holds(w)
    ensures Statuses(Filled(s, w))
  {
    assert w.taken + |w.ring| == |w.body|;
    hide StreamOk, Flow;
  }

  /** Core 1 fills the slot: the chunk is the next part of the body. */
  lemma FillKeeps(s: State, w: Worker)
    requires Inv(s) && StreamOk(w) && MayFill(s, w) && w.stream.error == Http.NoError && !Holds(w)
    ensures Inv(s.(worker := Handed(w), slot := FilledSlot(s.slot, w), c1 := Publishing))
  {
    FillOwned(s, w);
    FillFlow(s, w);
    FillStatuses(s, w);
    StreamHanded(w);
    hide StreamOk, Flow, Statuses, Owned, Handed, FilledSlot;
  }

  lemma FillErrorKeeps(s: State, w: Worker)
    requires Inv(s) && StreamOk(w) && MayFill(s, w) && w.stream.error != Http.NoError
    ensures Inv(s.(worker := Handed(w), slot := FilledSlot(s.slot, w), c1 := Publishing))
  {
    StreamHanded(w);
    assert w.errorStatus != EOF;
    hide StreamOk;
    assert Waiting(s) == [];
  }

  /** A request posted after core 1 loaded the session is answered with an empty chunk. */
  lemma RefuseKeeps(s: State)
    requires Inv(s) && s.c1.Serving? && s.owner == Pending && s.slot.session != s.c1.current
    ensures Inv(s.(slot := s.slot.(length := 0, status := IDLE), c1 := Publishing))
  {
    hide StreamOk;
    assert Waiting(s) == [];
  }

  lemma OpenedKeeps(w: Worker, o: Opening)
    ensures var v := Opened(w, o);
            v.session == w.session && v.taken == w.taken && v.body == w.body && v.isOpen && (w.isOpen ==> v == w)
  {
  }

  lemma ServeKeeps(s: State, o: Opening)
    requires Inv(s) && s.c1.Serving?
    ensures Inv(Serve(s, o))
  {
    var w := Opened(s.worker, o);
    StreamOpened(s.worker, o);
    OpenedKeeps(s.worker, o);
    assert s.worker.session <= s.session && s.c1.current == s.worker.session;
    hide StreamOk, Opened, Statuses, Flow, Handed, FilledSlot;
    if s.owner != Pending {
      WorkerMove(s, s.worker, Outside);
    } else if s.slot.session != s.c1.current {
      RefuseKeeps(s);
    } else if w.stream.error != Http.NoError {
      FillErrorKeeps(s, w);
    } else if Holds(w) {
      WorkerMove(s, w, Outside);
    } else {
      FillKeeps(s, w);
    }
  }

  lemma PublishKeeps(s: State)
    requires Inv(s) && s.c1.Publishing?
    ensures Inv(s.(owner := Done, c1 := Outside))
  {
    hide StreamOk;
  }

  // ---------------------------------------------------------------- every run

  lemma StepKeeps(s: State, st: Step)
    requires Inv(s) && Enabled(s, st)
    ensures Inv(Apply(s, st))
  {
    hide StreamOk, Flow, Statuses, Core0Next, Serve, Serviced, Begin;
    match st
    case Z80(io) => BeginKeeps(s, io);
    case Core0Step =>
      if s.c0.PumpLoad? {
        PumpKeeps(s);
      } else if s.c0.Reply? {
        ReplyKeeps(s);
      } else {
        SlotStepKeeps(s);
      }
    case Service(down, r) => ServiceKeeps(s, down, r);
    case ServeSlot(o) => ServeKeeps(s, o);
    case PublishSlot => PublishKeeps(s);
    case Receive(_) => NetworkKeeps(s, st);
    case RemoteClose => NetworkKeeps(s, st);
    case NetworkError => NetworkKeeps(s, st);
  }

  predicate Follows(s: State, st: Step, t: State) { Sized(s) && Enabled(s, st) && t == Apply(s, st) }

  ghost predicate Trace(run: seq<State>, steps: seq<Step>) {
    && |run| == |steps| + 1 && Init(run[0])
    && forall i :: 0 <= i < |steps| ==> Follows(run[i], steps[i], run[i + 1])
  }

  lemma {:induction false} TraceInv(run: seq<State>, steps: seq<Step>, i: nat)
    requires Trace(run, steps) && i < |run|
    ensures Inv(run[i])
  {
    hide Inv, Init, Enabled, Apply, Sized;
    if i == 0 {
      InitInv(run[0]);
    } else {
      TraceInv(run, steps, i - 1);
      assert Follows(run[i - 1], steps[i - 1], run[i]);
      StepKeeps(run[i - 1], steps[i - 1]);
    }
  }

  // ---------------------------------------------------------------- empty answers

  /** An error is never reported as IDLE to a request of a session core 1 has loaded. */
  predicate Named(s: State) {
    s.worker.errorStatus == IDLE ==> s.worker.session < s.session && !s.c1.Serving?
  }

  lemma WorkerNamed(w: Worker, session: nat, down: bool, r: Opening, o: Opening)
    ensures var v := Serviced(w, session, down, r);
            v.session == session && (v.errorStatus == IDLE ==> w.session == session && w.errorStatus == IDLE)
    ensures var v := Opened(w, o); v.session == w.session && (v.errorStatus == IDLE ==> w.errorStatus == IDLE)
  {
  }

  lemma StepKeepsNamed(s: State, st: Step)
    requires Owned(s) && Named(s) && Enabled(s, st)
    ensures Named(Apply(s, st))
  {
    match st {
      case Service(down, r) => WorkerNamed(s.worker, s.session, down, r, NoNetwork);
      case ServeSlot(o) => WorkerNamed(s.worker, s.session, false, NoNetwork, o);
      case _ =>
    }
    hide Serviced, Opened, Http.Feed, OutPort, Adopted;
  }

  lemma InitNamed(s: State)
    requires Init(s)
    ensures Named(s)
  {
  }

  lemma {:induction false} TraceNamed(run: seq<State>, steps: seq<Step>, i: nat)
    requires Trace(run, steps) && i < |run|
    ensures Named(run[i])
  {
    hide Flow, Statuses, StreamOk, Apply, Enabled, Init, Named, Owned, Sized;
    if i == 0 {
      InitNamed(run[0]);
    } else {
      TraceNamed(run, steps, i - 1);
      TraceInv(run, steps, i - 1);
      assert Follows(run[i - 1], steps[i - 1], run[i]);
      StepKeepsNamed(run[i - 1], steps[i - 1]);
    }
  }

  /** Core 1's answer holds no data, no end of file and no error. */
  predicate EmptyAnswer(t: State) { t.c1.Publishing? && t.slot.length == 0 && t.slot.status == IDLE }

  lemma EmptyAnswerStep(s: State, o: Opening)
    requires Owned(s) && s.c1.Serving? && s.owner == Pending && s.worker.errorStatus != IDLE
    ensures EmptyAnswer(Serve(s, o)) <==> s.slot.session != s.c1.current
  {
  }

  /** Exactly when a posted request is answered with an empty, idle chunk: when it was
      posted for another session than the one core 1 loaded for this service. */
  lemma EmptyAnswerIff(run: seq<State>, steps: seq<Step>, i: nat)
    requires Trace(run, steps) && i < |steps| && steps[i].ServeSlot? && run[i].owner == Pending
    ensures run[i].c1.Serving? && run[i].c1.current <= run[i].session
    ensures EmptyAnswer(run[i + 1]) <==> run[i].slot.session != run[i].c1.current
  {
    TraceInv(run, steps, i);
    TraceNamed(run, steps, i);
    assert Follows(run[i], steps[i], run[i + 1]);
    hide Flow, Statuses, StreamOk, Init, Serve;
    EmptyAnswerStep(run[i], steps[i].opening);
  }

  ghost predicate Reachable(s: State) {
    exists run, steps :: Trace(run, steps) && run[|steps|] == s
  }

  /** One more step of a reachable run. */
  lemma Then(s: State, st: Step) returns (t: State)
    requires Reachable(s) && Sized(s) && Enabled(s, st)
    ensures t == Apply(s, st) && Reachable(t)
  {
    hide Init, Sized, Enabled, Apply;
    t := Apply(s, st);
    var run, steps :| Trace(run, steps) && run[|steps|] == s;
    var run', steps' := run + [t], steps + [st];
    forall i | 0 <= i < |steps'|
      ensures Follows(run'[i], steps'[i], run'[i + 1])
    {
      assert i < |steps| ==> Follows(run[i], steps[i], run[i + 1]);
    }
    assert Trace(run', steps') && run'[|steps'|] == t;
  }

  /** Core 1 has loaded the session; the Z80 then opens another and asks for a chunk. */
  function Asked(s: State, c0: Core0): State {
    s.(session := s.session + 1, worker := Restarted(s.session), c1 := Serving(s.session), got := [],
       port := RESET.(name := [97], wantChunk := true, status := BUSY), c0 := c0)
  }

  lemma AskedReachable(s: State)
    requires Init(s)
    ensures Reachable(Asked(s, PumpLoad(Return)))
  {
    var none: seq<Step> := [];
    assert Trace([s], none) && [s][|none|] == s;
    hide Reachable, Core0Next, Serve, Http.Feed;
    var t := Then(s, Service(false, NoNetwork));
    assert t == s.(worker := Restarted(s.session), c1 := Serving(s.session));
    t := NameGiven(t);
    t := Then(t, Z80(Out(COMMAND_PORT, REQUEST_CHUNK)));
    assert t == Asked(s, PumpLoad(Return));
  }

  lemma NameGiven(s: State) returns (t: State)
    requires Reachable(s) && Sized(s) && s.owner == Free && s.c0.Ready? && s.port == RESET
    ensures Reachable(t) && t == s.(session := s.session + 1, got := [], port := RESET.(name := [97]))
  {
    hide Reachable, Serve, Serviced;
    t := Then(s, Z80(Out(COMMAND_PORT, SET_FILENAME)));
    t := Then(t, Core0Step);
    assert t == s.(session := s.session + 1, got := [], port := RESET.(collecting := true));
    t := Then(t, Z80(Out(DATA_PORT, 97)));
    assert [] + [97] == [97];
    t := Then(t, Z80(Out(DATA_PORT, 0)));
  }

  lemma AnsweredReachable(s: State) returns (t: State)
    requires Init(s)
    ensures Reachable(t) && Sized(t)
    ensures t == Asked(s, Ready).(owner := Done, c1 := Outside,
                                  slot := s.slot.(session := s.session + 1, name := [97], length := 0, status := IDLE))
  {
    AskedReachable(s);
    hide Reachable, Serviced, Begin;
    t := Then(Asked(s, PumpLoad(Return)), Core0Step);
    t := Then(t, Core0Step);
    t := Then(t, Core0Step);
    assert t == Asked(s, Ready).(owner := Pending, slot := s.slot.(session := s.session + 1, name := [97]));
    t := Then(t, ServeSlot(NoNetwork));
    t := Then(t, PublishSlot);
  }

  /** It does happen, from every boot state: the Z80 opens a session and asks for a chunk
      while core 1 is between loading the session and looking at the slot, and reads back
      an idle status with nothing to fetch. */
  lemma EmptyAnswerReachable(s: State) returns (t: State)
    requires Init(s)
    ensures Reachable(t) && t.c0.Ready? && t.session == s.session + 1 && t.slot.session == t.session
    ensures t.answer == IDLE && t.port.status == IDLE && !t.port.wantChunk && !t.port.Unread() && t.got == []
    ensures !t.worker.isOpen
  {
    t := AnsweredReachable(s);
    hide Reachable, Serviced, Serve;
    t := Then(t, Z80(In(COMMAND_PORT)));
    t := Then(t, Core0Step);
    t := Then(t, Core0Step);
    t := Then(t, Core0Step);
  }
}
