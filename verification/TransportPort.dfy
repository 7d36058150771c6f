/** The service transport as the Z80 sees it: a command, a request spelled out byte by byte,
    a response read back and a status, without generations, positions or shared buffers. */
module TransportPort {
  import opened Bytes
  import opened Transport
  import opened TransportSafety

  // ---------------------------------------------------------------- the reference

  /** How far the access under way has got; looked means a finished job was seen. */
  datatype Phase = Rest | Access(io: Io, looked: bool) | Full(looked: bool) | Offer | Fill | Hand

  /** The bytes given since the last accepted command, the response and the bytes heard
      of it, whether core 1 gave it, and whether only a reset is accepted. */
  datatype View = View(status: Status, command: byte, given: seq<byte>, response: seq<byte>, remote: bool,
                       heard: seq<byte>, locked: bool, phase: Phase)
  {
    /** The length the first two bytes given announce. */
    function Announced(): nat
      requires |given| >= 2
    {
      given[0] as int + 256 * (given[1] as int)
    }

    predicate Readable() { (status == ResponseReady || status == Error) && |heard| < |response| + 2 }
  }

  const POWER_ON := View(Ready, 0, [], [], false, [], false, Rest)

  function Reset(v: View): View { v.(status := Ready, locked := false) }

  function Refused(v: View, error: byte, lock: bool): View {
    v.(status := Error, response := [error], remote := false, heard := [], locked := v.locked || lock)
  }

  function Answers(v: View, data: seq<byte>): View {
    if data == [] then v.(status := Complete)
    else v.(status := ResponseReady, response := data, remote := false, heard := [])
  }

  /** A command byte. */
  function Commanded(v: View, c: byte): View {
    if c == 1 then Reset(v)
    else if c == 0 then
      if !v.locked && (v.status == Complete || (v.status == Error && |v.heard| == |v.response| + 2))
      then Reset(v) else Refused(v, 8, false)
    else if v.status != Ready then Refused(v, 6, true)
    else if c == 2 then Answers(v, Text("ROMLESS-SVC/1"))
    else if c in {0x10, 0x11, 0x20, 0x21, 0x30, 0x40, 0x50, 0x60} then v.(status := Collecting, command := c, given := [])
    else Refused(v, 1, false)
  }

  /** A request byte: two of length, little endian, then that many of data. */
  function Wrote(v: View, d: byte): View {
    if v.status != Collecting then Refused(v, 8, v.status == Busy)
    else
      var w := v.(given := v.given + [d]);
      if |w.given| < 2 then w
      else if |w.given| == 2 && !(1 <= w.Announced() <= 2048) then Refused(w, 3, false)
      else if |w.given| == 2 + w.Announced() then w.(phase := Full(false))
      else w
  }

  /** A response byte came back, or there was none to give. */
  function Heard(v: View, answer: byte): View {
    if !v.Readable() then Refused(v, 9, v.status == Busy)
    else
      var w := v.(heard := v.heard + [answer]);
      if v.status == ResponseReady && |w.heard| == |w.response| + 2 then Reset(w) else w
  }

  /** A finished job: the answer if the Z80 still waits for one, or too late. */
  function Taken(v: View, r: Result): View
    requires |r.data| == PAYLOAD + 1
  {
    if v.status != Busy then v
    else if r.error != 0 then Refused(v, r.error, false)
    else if r.length > 2048 then Refused(v, 0x13, false)
    else if r.hasResponse then
      v.(status := ResponseReady, response := r.data[..r.length], remote := true, heard := [])
    else v.(status := Complete)
  }

  /** Timers and stopwatches, which core 0 answers itself. */
  function Timed(v: View, clock: Reading): View
    requires |v.given| >= 3
  {
    var r := v.given[2..];
    if v.command == 0x10 then
      if r[0] > 1 then Refused(v, 2, false)
      else if |r| != (if r[0] == 0 then 6 else 2) then Refused(v, 3, false)
      else if r[1] > 3 then Refused(v, 4, false)
      else if r[0] == 1 then Answers(v, [if clock.running then 1 else 0])
      else if r[4] != 0 || r[5] != 0 || (r[1] == 3 && r[3] != 0) then Refused(v, 4, false)
      else Answers(v, [])
    else
      if r[0] > 2 then Refused(v, 2, false)
      else if |r| != 2 then Refused(v, 3, false)
      else if r[1] > 2 then Refused(v, 4, false)
      else if r[0] == 0 then Answers(v, [])
      else Answers(v, LeBytes(clock.value))
  }

  /** The access itself, its look at the job over. */
  function Acted(v: View, io: Io, answer: byte): View {
    match io
    case Out(2, c) => Commanded(v, c)
    case Out(3, d) => Wrote(v, d)
    case In(4) => Heard(v, answer)
    case _ => v
  }

  /** An access begins; request and response bytes need no look at the job when one is
      being collected or none is awaited. */
  function Begun(v: View, io: Io, answer: byte): View {
    match io
    case Out(3, d) => if v.status == Collecting then Wrote(v, d) else v.(phase := Access(io, false))
    case In(4) => if v.status == Busy then v.(phase := Access(io, false)) else Heard(v, answer)
    case Out(2, _) => v.(phase := Access(io, false))
    case In(2) => v.(phase := Access(io, false))
    case _ => v
  }

  function Submitted(v: View, clock: Reading): View
    requires |v.given| >= 3
  {
    if v.command == 0x10 || v.command == 0x11 then Timed(v.(phase := Rest), clock) else v.(phase := Offer)
  }

  function Advanced(v: View, work: Work, result: Result, clock: Reading, answer: byte): View
    requires |result.data| == PAYLOAD + 1 && (v.phase.Full? ==> |v.given| >= 3)
  {
    match v.phase
    case Rest => v
    case Access(io, looked) =>
      if !looked && work == Done then v.(phase := Access(io, true))
      else Acted(if looked then Taken(v.(phase := Rest), result) else v.(phase := Rest), io, answer)
    case Full(looked) =>
      if !looked && work == Done then v.(phase := Full(true)) else Submitted(v, clock)
    case Offer => if work != Idle then Refused(v.(phase := Rest), 6, true) else v.(phase := Fill)
    case Fill => v.(phase := Hand)
    case Hand => v.(phase := Rest, status := Busy)
  }

  function NextView(s: State, st: Step, t: State, v: View): View
    requires |s.result.data| == PAYLOAD + 1 && (v.phase.Full? ==> |v.given| >= 3)
  {
    if st.Z80? then Begun(v, st.io, t.answer)
    else if st.Core0Step? then Advanced(v, s.work, s.result, st.clock, t.answer)
    else v
  }

  // ---------------------------------------------------------------- agreement

  function Does(io: Io): After {
    match io
    case Out(2, c) => DoCommand(c)
    case Out(_, d) => DoRequest(d)
    case In(2) => DoStatus
    case In(_) => DoResponse
  }

  predicate Service(io: Io) { io.port == 2 || (io.Out? && io.port == 3) || (io.In? && io.port == 4) }

  predicate Stands(c: Core0, p: Phase) {
    match p
    case Rest => c.Quiet?
    case Access(io, looked) => Service(io) && c == if looked then PollStore(Does(io)) else Poll(Does(io))
    case Full(looked) => c == if looked then PollStore(DoSubmit) else Poll(DoSubmit)
    case Offer => c.SubmitLoad?
    case Fill => c.SubmitFill?
    case Hand => c.SubmitPost?
  }

  /** The port's registers and buffers amount to the reference. */
  predicate Same(s: State, v: View)
    requires Sized(s)
  {
    && v.status == s.port.status && v.locked == s.port.resetRequired && v.given == s.given
    && (v.status == Collecting || v.status == Busy || (v.status == ResponseReady && v.remote) ==> v.command == s.port.command)
    && (v.status == ResponseReady || v.status == Error ==>
          && |v.response| == s.port.responseLength && |v.heard| == s.port.responsePosition && v.heard == s.read
          && v.remote == (s.port.source == ResultBuffer))
    && (CanRead(s.port) ==> v.response == Response(s))
  }

  predicate Agrees(s: State, v: View)
    requires Sized(s)
  {
    Same(s, v) && Stands(s.c0, v.phase) && (v.phase.Full? ==> |v.given| >= 3)
  }

  /** Core 0 acts, having looked. */
  predicate Acts(s: State, v: View, a: After) {
    Inv(s) && Same(s, v) && v.phase.Rest? && (s.c0 == Poll(a) || (s.c0.Quiet? && (a.DoRequest? || a.DoResponse?)))
  }

  lemma AgreeCommand(s: State, v: View, c: byte, clock: Reading)
    requires Acts(s, v, DoCommand(c))
    ensures Sized(Local(s, DoCommand(c), clock)) && Agrees(Local(s, DoCommand(c), clock), Commanded(v, c))
  {
    CommandKeeps(s, c, clock);
    var t := Local(s, DoCommand(c), clock);
    hide Text, Recorded, Collected;
    if c == 0 || c == 1 {
    } else if s.port.status != Ready {
    } else if c == 2 {
      assert t.port.local[..t.port.responseLength] == Text("ROMLESS-SVC/1");
    }
  }

  lemma AgreeRequest(s: State, v: View, d: byte, clock: Reading)
    requires Acts(s, v, DoRequest(d))
    ensures Sized(Local(s, DoRequest(d), clock)) && Agrees(Local(s, DoRequest(d), clock), Wrote(v, d))
  {
    RequestKeeps(s, d, clock);
    hide Recorded;
  }

  lemma AgreeResponse(s: State, v: View, clock: Reading)
    requires Acts(s, v, DoResponse)
    ensures var t := Local(s, DoResponse, clock); Sized(t) && Agrees(t, Heard(v, t.answer))
    ensures Local(s, DoResponse, clock).answer ==
              if v.Readable() then ([|v.response| % 256, |v.response| / 256] + v.response)[|v.heard|] else 0
  {
    ResponseKeeps(s, clock);
    var t := Local(s, DoResponse, clock);
    assert CanRead(s.port) && CanRead(t.port) ==> Response(t) == Response(s);
    hide Recorded, Collected;
  }

  lemma AgreeTimer(s: State, v: View, clock: Reading)
    requires Acts(s, v, DoSubmit) && |v.given| >= 3 && (v.command == 0x10 || v.command == 0x11)
    ensures var t := s.(port := TimerService(s.port, clock), c0 := Quiet, read := []);
            Sized(t) && Agrees(t, Timed(v, clock))
  {
    TimerKeeps(s, clock);
    assert v.given[2..] == s.port.request[..s.port.requestLength] && v.command == s.port.command;
    hide Recorded, Collected;
  }

  lemma AgreeSubmit(s: State, v: View, clock: Reading)
    requires Acts(s, v, DoSubmit) && |v.given| >= 3
    ensures Sized(Local(s, DoSubmit, clock)) && Agrees(Local(s, DoSubmit, clock), Submitted(v, clock))
  {
    SubmitKeeps(s, clock);
    if v.command == 0x10 || v.command == 0x11 {
      AgreeTimer(s, v, clock);
    }
    assert v.command == s.port.command;
    hide TimerService, Timed, Recorded, Collected;
  }

  lemma AgreeLocal(s: State, v: View, io: Io, clock: Reading)
    requires Acts(s, v, Does(io)) && Service(io)
    ensures var t := Local(s, Does(io), clock); Sized(t) && Agrees(t, Acted(v, io, t.answer))
  {
    hide Local, Inv, Same, Agrees, Commanded, Wrote, Heard;
    match Does(io) {
      case DoCommand(c) => AgreeCommand(s, v, c, clock);
      case DoRequest(d) => AgreeRequest(s, v, d, clock);
      case DoResponse => AgreeResponse(s, v, clock);
      case DoStatus => AgreeStatus(s, v, clock);
    }
  }

  lemma AgreeStatus(s: State, v: View, clock: Reading)
    requires Acts(s, v, DoStatus)
    ensures var t := Local(s, DoStatus, clock); Sized(t) && Agrees(t, v)
    ensures Local(s, DoStatus, clock).answer ==
              match v.status case Ready => 0 case Complete => 1 case ResponseReady => 2
                             case Collecting => 3 case Busy => 4 case Error => 255
  {
  }

  /** A result is taken exactly if the Z80 still waits for it. */
  lemma AgreeTaken(s: State, v: View)
    requires Inv(s) && Same(s, v) && s.c0.PollStore?
    ensures Same(Polled(s), Taken(v, s.result))
  {
    hide Collected;
  }

  lemma AgreePoll(s: State, v: View, clock: Reading)
    requires Inv(s) && Agrees(s, v) && s.c0.Poll?
    ensures var t := Core0Next(s, clock); Sized(t) && Agrees(t, Advanced(v, s.work, s.result, clock, t.answer))
  {
    assert v.phase.Full? ==> Submitted(v, clock) == Submitted(v.(phase := Rest), clock);
    hide Local, Acted, Submitted, Recorded, Collected;
    if s.work != Done {
      if v.phase.Access? {
        AgreeLocal(s, v.(phase := Rest), v.phase.io, clock);
      } else {
        AgreeSubmit(s, v.(phase := Rest), clock);
      }
    }
  }

  lemma AgreePollStore(s: State, v: View, clock: Reading)
    requires Inv(s) && Agrees(s, v) && s.c0.PollStore?
    ensures var t := Core0Next(s, clock); Sized(t) && Agrees(t, Advanced(v, s.work, s.result, clock, t.answer))
  {
    PolledKeeps(s);
    PolledSized(s);
    AgreeTaken(s, v.(phase := Rest));
    var p, w := Polled(s), Taken(v.(phase := Rest), s.result);
    var q := p.(c0 := Poll(s.c0.next));
    LocalForgets(p, s.c0.next, clock);
    assert Same(q, w);
    if v.phase.Access? {
      hide Local, Acted, Inv, Polled, Taken, Same;
      AgreeLocal(q, w, v.phase.io, clock);
    } else {
      assert w == v.(phase := Rest);
      hide Local, Submitted, Inv, Polled, Taken, Same;
      AgreeSubmit(q, w, clock);
    }
  }

  lemma AgreeHand(s: State, v: View, clock: Reading)
    requires Inv(s) && Agrees(s, v) && (s.c0.SubmitLoad? || s.c0.SubmitFill? || s.c0.SubmitPost?)
    ensures var t := Core0Next(s, clock); Sized(t) && Agrees(t, Advanced(v, s.work, s.result, clock, t.answer))
  {
    SubmitStepKeeps(s, clock);
    hide Local, Polled, Recorded, Collected;
  }

  lemma AgreeBegin(s: State, v: View, io: Io)
    requires Inv(s) && Agrees(s, v) && s.c0.Quiet?
    ensures var t := Begin(s, io); Sized(t) && Agrees(t, Begun(v, io, t.answer))
  {
    hide Local, Wrote, Heard, Recorded, Collected;
    if io.Out? && io.port == 3 && s.port.status == Collecting {
      AgreeRequest(s, v, io.value, Reading(false, 0));
    } else if io.In? && io.port == 4 && s.port.status != Busy {
      AgreeResponse(s, v, Reading(false, 0));
    }
  }

  lemma AgreeWorker(s: State, st: Step, v: View)
    requires Inv(s) && Agrees(s, v) && Enabled(s, st) && !st.Z80? && !st.Core0Step?
    ensures Sized(Apply(s, st)) && Agrees(Apply(s, st), v)
  {
    WorkerKeeps(s, st);
    var t := Apply(s, st);
    assert !ReadsResult(s.port);
    assert t.port == s.port && t.c0 == s.c0 && t.given == s.given && t.read == s.read;
    assert CanRead(s.port) ==> Response(t) == Response(s);
    hide Apply, Enabled, Inv;
  }

  /** Every step keeps the transport and the reference in agreement. */
  lemma AgreeStep(s: State, st: Step, v: View)
    requires Inv(s) && Agrees(s, v) && Enabled(s, st)
    ensures var t := Apply(s, st); Sized(t) && Agrees(t, NextView(s, st, t, v))
  {
    assert v.phase.Full? ==> |v.given| >= 3;
    match st {
      case Z80(io) => AgreeBegin(s, v, io);
      case Core0Step(clock) =>
        hide Core0Next, Agrees, Inv, Advanced;
        if s.c0.Poll? {
          AgreePoll(s, v, clock);
        } else if s.c0.PollStore? {
          AgreePollStore(s, v, clock);
        } else {
          AgreeHand(s, v, clock);
        }
      case _ => AgreeWorker(s, st, v);
    }
    hide Core0Next, Begin, Agrees, Inv, Advanced, Begun;
  }

  /** What the Z80 has seen after i steps. */
  ghost function Seen(run: seq<State>, steps: seq<Step>, i: nat): (v: View)
    requires Trace(run, steps) && i < |run|
    ensures v.phase.Full? ==> |v.given| >= 3
    ensures Sized(run[i]) && Agrees(run[i], v)
  {
    if i == 0 then
      POWER_ON
    else
      var v := Seen(run, steps, i - 1);
      assert Follows(run[i - 1], steps[i - 1], run[i]);
      TraceInv(run, steps, i - 1);
      AgreeStep(run[i - 1], steps[i - 1], v);
      NextView(run[i - 1], steps[i - 1], run[i], v)
  }

  // ---------------------------------------------------------------- what the Z80 gets

  /** The access the reference is about to answer: at once, or having looked at the job. */
  predicate Answering(s: State, st: Step, v: View, io: Io) {
    || (st == Z80(io) && io == In(4) && v.status != Busy)
    || (st.Core0Step? && v.phase.Access? && v.phase.io == io && (v.phase.looked || s.work != Done))
  }

  /** The reference as it stands when the access acts: a finished job is taken first. */
  function Looked(s: State, v: View): View
    requires |s.result.data| == PAYLOAD + 1
  {
    if v.phase.Access? && v.phase.looked then Taken(v, s.result) else v
  }

  lemma StatusOfState(s: State, v: View, clock: Reading)
    requires Inv(s) && Agrees(s, v) && v.phase.Access? && v.phase.io == In(2) && (v.phase.looked || s.work != Done)
    ensures Core0Next(s, clock).answer ==
              match Looked(s, v).status case Ready => 0 case Complete => 1 case ResponseReady => 2
                                        case Collecting => 3 case Busy => 4 case Error => 255
  {
    if s.c0.PollStore? {
      AgreeTaken(s, v);
      PolledSized(s);
    }
    hide Recorded, Collected;
  }

  /** A status read answers the code of the status, once a finished job has been taken. */
  lemma StatusAnswered(run: seq<State>, steps: seq<Step>, i: nat)
    requires Trace(run, steps) && i < |steps| && Answering(run[i], steps[i], Seen(run, steps, i), In(2))
    ensures run[i + 1].c0.Quiet?
    ensures run[i + 1].answer ==
              match Looked(run[i], Seen(run, steps, i)).status
              case Ready => 0 case Complete => 1 case ResponseReady => 2 case Collecting => 3 case Busy => 4 case Error => 255
  {
    TraceInv(run, steps, i);
    assert Follows(run[i], steps[i], run[i + 1]);
    StatusOfState(run[i], Seen(run, steps, i), steps[i].clock);
    hide Inv, Init, Same;
  }

  lemma ResponseOfState(s: State, v: View, clock: Reading)
    requires Inv(s) && Agrees(s, v) && v.phase.Access? && v.phase.io == In(4) && (v.phase.looked || s.work != Done)
    ensures var w := Looked(s, v);
            Core0Next(s, clock).answer ==
              if w.Readable() then ([|w.response| % 256, |w.response| / 256] + w.response)[|w.heard|] else 0
  {
    if s.c0.PollStore? {
      PolledKeeps(s);
      AgreeTaken(s, v);
      PolledSized(s);
      LocalForgets(Polled(s), DoResponse, clock);
      var q := Polled(s).(c0 := Poll(DoResponse));
      assert Same(q, Taken(v, s.result));
      hide Local, Inv, Polled, Taken, Same;
      AgreeResponse(q, Looked(s, v).(phase := Rest), clock);
    } else {
      hide Local, Inv;
      AgreeResponse(s, v.(phase := Rest), clock);
    }
  }

  /** A read of the response port returns the next of two length bytes, little endian, and
      the data of the response, or 0 if there is nothing left of one. */
  lemma ResponseAnswered(run: seq<State>, steps: seq<Step>, i: nat)
    requires Trace(run, steps) && i < |steps| && Answering(run[i], steps[i], Seen(run, steps, i), In(4))
    ensures var v := Looked(run[i], Seen(run, steps, i));
            run[i + 1].answer ==
              if v.Readable() then ([|v.response| % 256, |v.response| / 256] + v.response)[|v.heard|] else 0
  {
    TraceInv(run, steps, i);
    var s, v := run[i], Seen(run, steps, i);
    assert Follows(s, steps[i], run[i + 1]);
    if steps[i].Z80? {
      AgreeResponse(s, v, Reading(false, 0));
    } else {
      ResponseOfState(s, v, steps[i].clock);
    }
    hide Inv, Init, Same, Core0Next, Local;
  }

  lemma PostedState(s: State, v: View)
    requires Inv(s) && Agrees(s, v) && v.status == Busy
    ensures && s.work != Idle && |v.given| >= 3 && v.Announced() == |v.given| - 2
            && s.request.command == v.command && s.request.data == v.given[2..]
            && (s.work == Done ==> Served(s.request, s.result) in s.served)
  {
  }

  lemma AnswerState(s: State, v: View)
    requires Inv(s) && Agrees(s, v) && v.status == ResponseReady && v.remote
    ensures && |v.given| >= 3 && s.request.command == v.command && s.request.data == v.given[2..]
            && Served(s.request, s.result) in s.served && s.result.error == 0 && s.result.hasResponse
            && s.result.length <= 2048 < |s.result.data| && v.response == s.result.data[..s.result.length]
            && v.heard <= [|v.response| % 256, |v.response| / 256] + v.response
  {
  }

  /** A job in core 1's hands that the Z80 waits for is exactly what it wrote: the command and
      the bytes given since, as many as the first two announced. */
  lemma RequestPosted(run: seq<State>, steps: seq<Step>, i: nat)
    requires Trace(run, steps) && i < |run| && Seen(run, steps, i).status == Busy
    ensures var s, v := run[i], Seen(run, steps, i);
            && s.work != Idle && |v.given| >= 3 && v.Announced() == |v.given| - 2
            && s.request.command == v.command && s.request.data == v.given[2..]
            && (s.work == Done ==> Served(s.request, s.result) in s.served)
  {
    TraceInv(run, steps, i);
    PostedState(run[i], Seen(run, steps, i));
    hide Init, Follows, Inv, Same, Seen;
  }

  /** A response of core 1's is its answer to the command and the bytes the Z80 wrote: the
      Z80 reads a published result of exactly that request, without error. */
  lemma ResponseIsAnswer(run: seq<State>, steps: seq<Step>, i: nat)
    requires Trace(run, steps) && i < |run|
    requires Seen(run, steps, i).status == ResponseReady && Seen(run, steps, i).remote
    ensures var s, v := run[i], Seen(run, steps, i);
            && |v.given| >= 3 && s.request.command == v.command && s.request.data == v.given[2..]
            && Served(s.request, s.result) in s.served && s.result.error == 0 && s.result.hasResponse
            && s.result.length <= 2048 < |s.result.data| && v.response == s.result.data[..s.result.length]
            && v.heard <= [|v.response| % 256, |v.response| / 256] + v.response
  {
    TraceInv(run, steps, i);
    AnswerState(run[i], Seen(run, steps, i));
    hide Init, Follows, Inv, Same, Seen;
  }
}
