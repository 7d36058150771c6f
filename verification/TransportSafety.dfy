/** What holds of the service transport in every trace of port accesses interleaved with
    core 1's work. */
module TransportSafety {
  import opened Bytes
  import opened Transport

  // ---------------------------------------------------------------- ownership

  /** Between the last byte of a request and its submission. */
  predicate Submitting(c: Core0) {
    c.SubmitLoad? || c.SubmitFill? || c.SubmitPost? || ((c.Poll? || c.PollStore?) && c.next.DoSubmit?)
  }

  function Current(p: Port): Request
    requires p.requestLength <= |p.request|
  {
    Request(p.generation, p.command, p.request[..p.requestLength])
  }

  /** Core 0 is reading core 1's result in place. */
  predicate ReadsResult(p: Port) { p.status == ResponseReady && p.source == ResultBuffer }

  predicate Owned(s: State) {
    var p := s.port;
    && Sized(s)
    && (!s.c1.Outside? ==> s.work == Pending && s.result.generation == s.request.generation)
    && (s.c0.PollStore? ==> s.work == Done)
    && (s.c0.SubmitFill? || s.c0.SubmitPost? ==> s.work == Idle)
    && (Submitting(s.c0) ==> p.status == Collecting && p.lengthBytes == 2 && 0 < p.requestPosition == p.requestLength <= PAYLOAD)
    && (s.c0.SubmitPost? ==> s.request == Current(p))
    && s.request.generation <= p.generation
    && (s.work != Idle && s.request.generation == p.generation ==> p.status == Busy)
    && (p.status == Busy ==> s.work != Idle && p.requestLength <= PAYLOAD && s.request == Current(p))
  }

  /** A finished job is on record; one being read is the answer to the current request. */
  predicate Recorded(s: State) {
    var p := s.port;
    && (s.work == Done ==> s.result.generation == s.request.generation && Served(s.request, s.result) in s.served)
    && (ReadsResult(p) ==>
          && s.work == Idle && s.c1.Outside? && p.requestLength <= |p.request|
          && s.request == Current(p) && Served(s.request, s.result) in s.served
          && s.result.generation == p.generation && s.result.error == OK && s.result.hasResponse
          && p.responseLength == s.result.length)
  }

  // ---------------------------------------------------------------- what is written and read

  predicate Whole(p: Port, given: seq<byte>) {
    && |given| == 2 + p.requestLength && 0 < p.requestLength <= |p.request|
    && p.requestLength == given[0] as int + 256 * (given[1] as int)
    && given[2..] == p.request[..p.requestLength]
  }

  /** The request so far is what the Z80 wrote: two length bytes, then the data. */
  predicate Collected(s: State) {
    var p := s.port;
    && (p.status == Collecting ==>
          && p.lengthBytes <= 2 && |s.given| == p.lengthBytes + p.requestPosition
          && (p.lengthBytes < 2 ==> p.requestPosition == 0)
          && (p.lengthBytes == 0 ==> p.requestLength == 0)
          && (p.lengthBytes == 1 ==> p.requestLength == s.given[0])
          && (p.lengthBytes == 2 ==>
                && p.requestLength == s.given[0] as int + 256 * (s.given[1] as int)
                && 0 < p.requestLength <= PAYLOAD && p.requestPosition <= p.requestLength
                && |p.request| == PAYLOAD && s.given[2..] == p.request[..p.requestPosition]))
    && (p.status == Busy || ReadsResult(p) ==> Whole(p, s.given))
  }

  function Response(s: State): seq<byte>
    requires Sized(s) && CanRead(s.port)
  {
    if s.port.source == LocalBuffer then s.port.local[..s.port.responseLength] else s.result.data[..s.port.responseLength]
  }

  predicate Reads(s: State)
    requires Sized(s)
  {
    && (s.port.status == ResponseReady ==> CanRead(s.port))
    && (s.port.status == Error ==> s.port.source == LocalBuffer && s.port.responsePosition <= s.port.responseLength + 2)
    && (CanRead(s.port) ==> s.read == Encoded(Response(s))[..s.port.responsePosition])
  }

  predicate Inv(s: State) { Owned(s) && Recorded(s) && Collected(s) && Reads(s) }

  lemma InitInv(s: State)
    requires Init(s)
    ensures Inv(s)
  {
  }

  // ---------------------------------------------------------------- steps

  /** Where core 0 may stand when it finishes a port access by itself. */
  predicate Own(c: Core0) { c.Quiet? || c.Poll? || c.SubmitLoad? }

  predicate SameRequest(p: Port, q: Port) {
    && |q.local| == LOCAL && |q.request| == PAYLOAD && q.generation == p.generation && q.requestLength < 65536
  }

  lemma EncodedStart(data: seq<byte>)
    ensures Encoded(data)[..0] == []
  {
  }

  /** A failure leaves a fresh one-byte error response and a generation of its own. */
  lemma FailedInv(s: State, p: Port, error: byte, reset: bool, given: seq<byte>)
    requires Inv(s) && Own(s.c0) && SameRequest(s.port, p)
    ensures Inv(s.(port := Failed(p, error, reset), c0 := Quiet, read := [], given := given))
  {
    var t := s.(port := Failed(p, error, reset), c0 := Quiet, read := [], given := given);
    assert Owned(t);
    hide Collected, Owned;
    EncodedStart(Response(t));
  }

  lemma AnsweredInv(s: State, bytes: seq<byte>)
    requires Inv(s) && Own(s.c0) && |bytes| <= LOCAL && s.port.status != Busy
    requires s.work != Idle ==> s.request.generation != s.port.generation
    ensures Inv(s.(port := Answered(s.port, bytes), c0 := Quiet, read := []))
  {
    var t := s.(port := Answered(s.port, bytes), c0 := Quiet, read := []);
    if bytes != [] {
      EncodedStart(Response(t));
    }
  }

  lemma ClearedInv(s: State, p: Port, read: seq<byte>)
    requires Inv(s) && Own(s.c0) && SameRequest(s.port, p)
    ensures Inv(s.(port := Cleared(p), c0 := Quiet, read := read))
  {
  }

  lemma CommandKeeps(s: State, c: byte, clock: Reading)
    requires Inv(s) && s.c0 == Poll(DoCommand(c))
    ensures Inv(Local(s, DoCommand(c), clock))
  {
    var t := Local(s, DoCommand(c), clock);
    ClearedInv(s, s.port, s.read);
    FailedInv(s, s.port, INVALID_STATE, s.port.resetRequired, s.given);
    FailedInv(s, s.port, BUSY_ERROR, true, s.given);
    FailedInv(s, s.port, UNKNOWN_GROUP, false, s.given);
    if s.port.status == Ready {
      AnsweredInv(s, Text("ROMLESS-SVC/1"));
      AcceptedInv(s, c);
    }
    hide Inv, Text;
  }

  lemma AcceptedInv(s: State, c: byte)
    requires Inv(s) && Own(s.c0) && s.port.status == Ready
    ensures Inv(s.(port := s.port.(command := c, lengthBytes := 0, requestLength := 0, requestPosition := 0,
                                   status := Collecting), c0 := Quiet, given := []))
  {
  }

  /** The bytes of a request arrive in order, and a bad length fails at once. */
  lemma RequestKeeps(s: State, d: byte, clock: Reading)
    requires Inv(s) && (s.c0.Quiet? || s.c0 == Poll(DoRequest(d)))
    ensures Inv(Local(s, DoRequest(d), clock))
  {
    var t := Local(s, DoRequest(d), clock);
    var p := s.port;
    if p.status != Collecting {
      FailedInv(s, p, INVALID_STATE, p.status == Busy, s.given);
      hide Failed;
    } else if p.lengthBytes < 2 {
      var q := p.(requestLength := if p.lengthBytes == 0 then d else p.requestLength + 256 * (d as int),
                  lengthBytes := p.lengthBytes + 1);
      FailedInv(s, q, INVALID_LENGTH, false, s.given + [d]);
      hide Failed;
    } else {
      var k := p.requestPosition;
      assert t.port.request[..k + 1] == p.request[..k] + [d];
      assert t.given[2..] == s.given[2..] + [d];
    }
  }

  lemma TimerKeeps(s: State, clock: Reading)
    requires Inv(s) && s.c0 == Poll(DoSubmit)
    ensures Inv(s.(port := TimerService(s.port, clock), c0 := Quiet, read := []))
  {
    var p := s.port;
    FailedInv(s, p, UNKNOWN_OPERATION, false, s.given);
    FailedInv(s, p, INVALID_LENGTH, false, s.given);
    FailedInv(s, p, INVALID_PARAMETER, false, s.given);
    FailedInv(s, p.(responseLength := 0, responsePosition := 0, source := LocalBuffer), INVALID_PARAMETER, false, s.given);
    AnsweredInv(s, []);
    AnsweredInv(s, [if clock.running then 1 else 0]);
    AnsweredInv(s, LeBytes(clock.value));
    hide Inv, Failed, Answered, LeBytes;
  }

  lemma SubmitKeeps(s: State, clock: Reading)
    requires Inv(s) && s.c0 == Poll(DoSubmit)
    ensures Inv(Local(s, DoSubmit, clock))
  {
    TimerKeeps(s, clock);
    hide TimerService;
  }

  lemma EncodedAt(s: State)
    requires Sized(s) && CanRead(s.port)
    ensures |Encoded(Response(s))| == s.port.responseLength + 2
    ensures Encoded(Response(s))[s.port.responsePosition] == ResponseByte(s)
  {
  }

  /** One byte read, and more to come. */
  lemma ReadKeeps(s: State)
    requires Inv(s) && Own(s.c0) && !Submitting(s.c0) && CanRead(s.port)
    requires s.port.status == ResponseReady ==> s.port.responsePosition + 1 < s.port.responseLength + 2
    ensures Inv(s.(port := s.port.(responsePosition := s.port.responsePosition + 1), c0 := Quiet,
                   read := s.read + [ResponseByte(s)], answer := ResponseByte(s)))
  {
    var e, k := Encoded(Response(s)), s.port.responsePosition;
    EncodedAt(s);
    hide Encoded;
    assert e[..k + 1] == e[..k] + [e[k]];
    hide ResponseByte;
    var t := s.(port := s.port.(responsePosition := k + 1), c0 := Quiet,
                read := s.read + [ResponseByte(s)], answer := ResponseByte(s));
    assert CanRead(t.port) ==> Response(t) == Response(s);
  }

  lemma AnswerKeeps(s: State, answer: byte)
    requires Inv(s)
    ensures Inv(s.(answer := answer))
  {
  }

  lemma ResponseKeeps(s: State, clock: Reading)
    requires Inv(s) && (s.c0.Quiet? || s.c0 == Poll(DoResponse))
    ensures Inv(Local(s, DoResponse, clock))
  {
    var t := Local(s, DoResponse, clock);
    var p := s.port;
    var q := p.(responsePosition := p.responsePosition + 1);
    if !CanRead(p) {
      FailedInv(s, p, UNDERFLOW, p.status == Busy, s.given);
      AnswerKeeps(s.(port := t.port, c0 := Quiet, read := []), 0);
    } else if p.status == ResponseReady && q.responsePosition == q.responseLength + 2 {
      ClearedInv(s, q, t.read);
      AnswerKeeps(s.(port := t.port, c0 := Quiet, read := t.read), t.answer);
    } else {
      ReadKeeps(s);
    }
    hide Inv, Failed, Cleared, ResponseByte;
  }

  lemma LocalKeeps(s: State, a: After, clock: Reading)
    requires Inv(s) && (s.c0 == Poll(a) || (s.c0.Quiet? && (a.DoRequest? || a.DoResponse?)))
    ensures Inv(Local(s, a, clock))
  {
    hide CommandOut, RequestOut, ResponseIn, TimerService;
    match a
    case DoCommand(c) => CommandKeeps(s, c, clock);
    case DoRequest(d) => RequestKeeps(s, d, clock);
    case DoSubmit => SubmitKeeps(s, clock);
    case DoStatus =>
    case DoResponse => ResponseKeeps(s, clock);
  }

  /** A late result is discarded; the current one becomes the response, in place. */
  lemma PolledKeeps(s: State)
    requires Inv(s) && s.c0.PollStore?
    ensures Inv(Polled(s).(c0 := Poll(s.c0.next)))
  {
    var t := Polled(s).(c0 := Poll(s.c0.next));
    if CanRead(t.port) && t.port != s.port {
      EncodedStart(Response(t));
    }
  }

  lemma SubmitStepKeeps(s: State, clock: Reading)
    requires Inv(s) && (s.c0.SubmitLoad? || s.c0.SubmitFill? || s.c0.SubmitPost?)
    ensures Inv(Core0Next(s, clock))
  {
    if s.c0.SubmitLoad? {
      FailedInv(s, s.port, BUSY_ERROR, true, s.given);
    }
    hide Failed, Local, Polled;
  }

  /** Where core 0 polled from does not matter to what it does next. */
  lemma LocalForgets(s: State, a: After, clock: Reading)
    requires Sized(s) && s.c0 == PollStore(a)
    ensures Sized(s.(c0 := Poll(a))) && Local(s.(c0 := Poll(a)), a, clock) == Local(s, a, clock)
  {
    hide CommandOut, RequestOut, ResponseIn, TimerService;
  }

  lemma PollStoreKeeps(s: State, clock: Reading)
    requires Inv(s) && s.c0.PollStore?
    ensures Inv(Core0Next(s, clock))
  {
    PolledKeeps(s);
    var p := Polled(s);
    var t := p.(c0 := Poll(s.c0.next));
    PolledSized(s);
    LocalForgets(p, s.c0.next, clock);
    hide Local, Polled, Owned, Recorded, Collected, Reads;
    LocalKeeps(t, s.c0.next, clock);
  }

  lemma Core0Keeps(s: State, clock: Reading)
    requires Inv(s) && !s.c0.Quiet?
    ensures Inv(Core0Next(s, clock))
  {
    if s.c0.PollStore? {
      PollStoreKeeps(s, clock);
    } else if s.c0.Poll? {
      LocalKeeps(s, s.c0.next, clock);
      assert s.work == Done ==> Inv(s.(c0 := PollStore(s.c0.next)));
    } else {
      SubmitStepKeeps(s, clock);
    }
    hide Local, Inv;
  }

  lemma BeginKeeps(s: State, io: Io)
    requires Inv(s) && s.c0.Quiet?
    ensures Inv(Begin(s, io))
  {
    hide Local;
    match io
    case Out(a, v) => LocalKeeps(s, DoRequest(v), Reading(false, 0));
    case In(a) => LocalKeeps(s, DoResponse, Reading(false, 0));
  }

  lemma WorkerKeeps(s: State, st: Step)
    requires Inv(s) && Enabled(s, st) && !st.Z80? && !st.Core0Step?
    ensures Inv(Apply(s, st))
  {
    var t := Apply(s, st);
    assert !ReadsResult(s.port);
    assert t.port == s.port && t.c0 == s.c0 && t.given == s.given && t.read == s.read;
    assert CanRead(s.port) ==> Response(t) == Response(s);
  }

  lemma StepKeeps(s: State, st: Step)
    requires Inv(s) && Enabled(s, st)
    ensures Inv(Apply(s, st))
  {
    match st {
      case Z80(io) => BeginKeeps(s, io);
      case Core0Step(clock) => Core0Keeps(s, clock);
      case _ => WorkerKeeps(s, st);
    }
    hide Owned, Recorded, Collected, Reads, Core0Next, Begin;
  }

  // ---------------------------------------------------------------- every trace

  predicate Follows(s: State, st: Step, t: State) { Sized(s) && Enabled(s, st) && t == Apply(s, st) }

  ghost predicate Trace(run: seq<State>, steps: seq<Step>) {
    && |run| == |steps| + 1 && Init(run[0])
    && forall i :: 0 <= i < |steps| ==> Follows(run[i], steps[i], run[i + 1])
  }

  lemma {:induction false} TraceInv(run: seq<State>, steps: seq<Step>, i: nat)
    requires Trace(run, steps) && i < |run|
    ensures Inv(run[i])
  {
    hide Inv, Init, Sized, Enabled, Apply;
    if i == 0 {
      InitInv(run[0]);
    } else {
      TraceInv(run, steps, i - 1);
      assert Follows(run[i - 1], steps[i - 1], run[i]);
      StepKeeps(run[i - 1], steps[i - 1]);
    }
  }

  /** Core 1 writes neither the result being read nor anything but a posted job's, and
      core 0 writes a request only while no job is posted. */
  lemma BuffersNotShared(s: State, st: Step)
    requires Inv(s) && Enabled(s, st)
    ensures st.StartWork? || st.WriteResult? || st.FinishWork? ==> !ReadsResult(s.port) && s.work == Pending
    ensures Apply(s, st).request != s.request ==> s.work == Idle
    ensures ReadsResult(s.port) ==> Apply(s, st).result == s.result
  {
    hide CommandOut, RequestOut, ResponseIn, TimerService, Consumed, ResponseByte;
  }
}
