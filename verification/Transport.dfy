/** The service transport: core 0's ports of io_ports.c collect a request and read back
    a response, core 1's worker of io_service.c answers it through one shared request
    and one shared result. Each step makes at most one access to the work state, which
    hands those two buffers from one core to the other. */
module Transport {
  import opened Bytes

  const PAYLOAD := 2048
  const LOCAL := 16

  const COMMAND_PORT: byte := 2
  const REQUEST_PORT: byte := 3
  const RESPONSE_PORT: byte := 4

  const ACK: byte := 0
  const RESET: byte := 1
  const IDENTIFY: byte := 2
  const TIMERS: byte := 0x10
  const STOPWATCHES: byte := 0x11
  const GROUPS: set<byte> := {0x10, 0x11, 0x20, 0x21, 0x30, 0x40, 0x50, 0x60}

  const OK: byte := 0
  const UNKNOWN_GROUP: byte := 1
  const UNKNOWN_OPERATION: byte := 2
  const INVALID_LENGTH: byte := 3
  const INVALID_PARAMETER: byte := 4
  const BUSY_ERROR: byte := 6
  const INVALID_STATE: byte := 8
  const UNDERFLOW: byte := 9
  const CAPACITY: byte := 0x13

  datatype Status = Ready | Complete | ResponseReady | Collecting | Busy | Error

  function StatusByte(s: Status): byte {
    match s
    case Ready => 0
    case Complete => 1
    case ResponseReady => 2
    case Collecting => 3
    case Busy => 4
    case Error => 0xff
  }

  /** Which buffer transport.response points into. */
  datatype Source = LocalBuffer | ResultBuffer

  datatype Port = Port(status: Status, command: byte, lengthBytes: nat, requestLength: nat, requestPosition: nat,
                       responseLength: nat, responsePosition: nat, generation: nat, resetRequired: bool,
                       request: seq<byte>, local: seq<byte>, source: Source)

  datatype Request = Request(generation: nat, command: byte, data: seq<byte>)

  datatype Result = Result(generation: nat, error: byte, hasResponse: bool, length: nat, data: seq<byte>)

  datatype Work = Idle | Pending | Done

  datatype Io = Out(port: byte, value: byte) | In(port: byte)

  /** What a port access does once its poll is over. */
  datatype After = DoCommand(c: byte) | DoRequest(d: byte) | DoSubmit | DoStatus | DoResponse

  datatype Core0 = Quiet | Poll(next: After) | PollStore(next: After) | SubmitLoad | SubmitFill | SubmitPost

  datatype Core1 = Outside | Working | Publishing

  datatype Served = Served(request: Request, result: Result)

  datatype State = State(port: Port, work: Work, request: Request, result: Result, c0: Core0, c1: Core1, answer: byte,
                         // history: answers core 1 published, bytes the Z80 wrote since its last
                         // accepted command and bytes of the response it has read
                         served: set<Served>, given: seq<byte>, read: seq<byte>)

  /** The clock readings a timer request may ask for. */
  datatype Reading = Reading(running: bool, value: u32)

  datatype Step =
    | Z80(io: Io)
    | Core0Step(clock: Reading)
    | StartWork
    | WriteResult(data: seq<byte>, length: nat, hasResponse: bool)
    | FinishWork(error: byte)
    | PublishWork

  // ---------------------------------------------------------------- transport functions

  /** reset_transport. */
  function Cleared(p: Port): Port {
    p.(generation := p.generation + 1, status := Ready, lengthBytes := 0, requestLength := 0, requestPosition := 0,
       responseLength := 0, responsePosition := 0, source := LocalBuffer, resetRequired := false)
  }

  /** fail. */
  function Failed(p: Port, error: byte, reset: bool): Port
    requires |p.local| == LOCAL
  {
    p.(generation := p.generation + 1, local := p.local[0 := error], source := LocalBuffer, responseLength := 1,
       responsePosition := 0, resetRequired := p.resetRequired || reset, status := Error)
  }

  /** A response of core 0's own. */
  function Answered(p: Port, bytes: seq<byte>): Port
    requires |p.local| == LOCAL && |bytes| <= LOCAL
  {
    p.(local := bytes + p.local[|bytes|..], source := LocalBuffer, responseLength := |bytes|, responsePosition := 0,
       status := if bytes == [] then Complete else ResponseReady)
  }

  function CommandOut(p: Port, c: byte): Port
    requires |p.local| == LOCAL
  {
    if c == RESET then Cleared(p)
    else if c == ACK then
      if !p.resetRequired && (p.status == Complete || (p.status == Error && p.responsePosition == p.responseLength + 2))
      then Cleared(p) else Failed(p, INVALID_STATE, p.resetRequired)
    else if p.status != Ready then Failed(p, BUSY_ERROR, true)
    else if c == IDENTIFY then Answered(p, Text("ROMLESS-SVC/1"))
    else if c in GROUPS then
      p.(command := c, lengthBytes := 0, requestLength := 0, requestPosition := 0, status := Collecting)
    else Failed(p, UNKNOWN_GROUP, false)
  }

  predicate LastByte(p: Port) {
    p.status == Collecting && p.lengthBytes == 2 && p.requestPosition + 1 == p.requestLength
  }

  function RequestOut(p: Port, d: byte): Port
    requires |p.local| == LOCAL && |p.request| == PAYLOAD
    requires p.status == Collecting && p.lengthBytes >= 2 ==> p.requestPosition < PAYLOAD
  {
    if p.status != Collecting then Failed(p, INVALID_STATE, p.status == Busy)
    else if p.lengthBytes < 2 then
      var q := p.(requestLength := if p.lengthBytes == 0 then d else p.requestLength + 256 * (d as int),
                  lengthBytes := p.lengthBytes + 1);
      if q.lengthBytes == 2 && (q.requestLength == 0 || q.requestLength > PAYLOAD) then Failed(q, INVALID_LENGTH, false)
      else q
    else p.(request := p.request[p.requestPosition := d], requestPosition := p.requestPosition + 1)
  }

  /** timer_service, the clock readings given. */
  function TimerService(p: Port, clock: Reading): Port
    requires |p.local| == LOCAL && |p.request| == PAYLOAD
  {
    var countdown := p.command == TIMERS;
    var op, id := p.request[0], p.request[1];
    if op > (if countdown then 1 else 2) then Failed(p, UNKNOWN_OPERATION, false)
    else if p.requestLength != (if countdown && op == 0 then 6 else 2) then Failed(p, INVALID_LENGTH, false)
    else if id > (if countdown then 3 else 2) then Failed(p, INVALID_PARAMETER, false)
    else if countdown && op == 0 then
      if p.request[4] != 0 || p.request[5] != 0 || (id == 3 && p.request[3] != 0)
      then Failed(p.(responseLength := 0, responsePosition := 0, source := LocalBuffer), INVALID_PARAMETER, false)
      else Answered(p, [])
    else if countdown then Answered(p, [if clock.running then 1 else 0])
    else if op == 0 then Answered(p, [])
    else Answered(p, LeBytes(clock.value))
  }

  /** poll_service with a result in hand. */
  function Consumed(p: Port, r: Result): Port
    requires |p.local| == LOCAL
  {
    if r.generation != p.generation || p.status != Busy then p
    else if r.error != OK then Failed(p, r.error, false)
    else if r.length > PAYLOAD then Failed(p, CAPACITY, false)
    else
      p.(source := ResultBuffer, responseLength := r.length, responsePosition := 0,
         status := if r.hasResponse then ResponseReady else Complete)
  }

  /** A response as the Z80 reads it: two length bytes, then the data. */
  function Encoded(data: seq<byte>): seq<byte> {
    [|data| % 256, |data| / 256 % 256] + data
  }

  predicate CanRead(p: Port) {
    (p.status == ResponseReady || p.status == Error) && p.responsePosition < p.responseLength + 2
  }

  function ResponseByte(s: State): byte
    requires |s.port.local| == LOCAL && |s.result.data| == PAYLOAD + 1
    requires CanRead(s.port) && s.port.responseLength <= (if s.port.source == LocalBuffer then LOCAL else PAYLOAD)
  {
    var p := s.port;
    var k := p.responsePosition;
    if k == 0 then p.responseLength % 256
    else if k == 1 then p.responseLength / 256 % 256
    else if p.source == LocalBuffer then p.local[k - 2] else s.result.data[k - 2]
  }

  function ResponseIn(p: Port): Port
    requires |p.local| == LOCAL
  {
    if !CanRead(p) then Failed(p, UNDERFLOW, p.status == Busy)
    else
      var q := p.(responsePosition := p.responsePosition + 1);
      if p.status == ResponseReady && q.responsePosition == q.responseLength + 2 then Cleared(q) else q
  }

  // ---------------------------------------------------------------- steps

  predicate Sized(s: State) {
    && |s.port.local| == LOCAL && |s.port.request| == PAYLOAD && |s.result.data| == PAYLOAD + 1
    && (s.port.status == Collecting && s.port.lengthBytes >= 2 ==> s.port.requestPosition <= s.port.requestLength <= PAYLOAD)
    && (s.port.status == Collecting && s.port.lengthBytes >= 2 && (s.c0.Quiet? || HandlesRequest(s.c0)) ==>
          s.port.requestPosition < s.port.requestLength)
    && s.port.requestLength < 65536
    && (s.c0.SubmitFill? ==> s.port.requestLength <= PAYLOAD)
    && (CanRead(s.port) ==> s.port.responseLength <= (if s.port.source == LocalBuffer then LOCAL else PAYLOAD))
  }

  predicate HandlesRequest(c: Core0) { (c.Poll? || c.PollStore?) && !c.next.DoSubmit? }

  /** A port access once its poll, if any, is over: all of it core 0's own. */
  function Local(s: State, a: After, clock: Reading): State
    requires Sized(s) && (s.c0.Quiet? || s.c0.Poll? || s.c0.PollStore?)
    requires s.port.status == Collecting && s.port.lengthBytes >= 2 && a.DoRequest? ==>
               s.port.requestPosition < s.port.requestLength
  {
    match a
    case DoCommand(c) =>
      var q := CommandOut(s.port, c);
      s.(port := q, c0 := Quiet, given := if q.status == Collecting then [] else s.given,
         read := if q.status == ResponseReady || q.status == Error then [] else s.read)
    case DoRequest(d) =>
      var q := RequestOut(s.port, d);
      s.(port := q, c0 := if LastByte(s.port) then Poll(DoSubmit) else Quiet,
         given := if s.port.status == Collecting then s.given + [d] else s.given,
         read := if q.status == Error then [] else s.read)
    case DoSubmit =>
      if s.port.command == TIMERS || s.port.command == STOPWATCHES then
        s.(port := TimerService(s.port, clock), c0 := Quiet, read := [])
      else s.(c0 := SubmitLoad)
    case DoStatus => s.(answer := StatusByte(s.port.status), c0 := Quiet)
    case DoResponse =>
      var ok := CanRead(s.port);
      s.(port := ResponseIn(s.port), answer := if ok then ResponseByte(s) else 0, c0 := Quiet,
         read := if ok then s.read + [ResponseByte(s)] else [])
  }

  function Begin(s: State, io: Io): State
    requires Sized(s) && s.c0.Quiet?
  {
    match io
    case Out(a, v) =>
      if a == COMMAND_PORT then s.(c0 := Poll(DoCommand(v)))
      else if a != REQUEST_PORT then s
      else if s.port.status != Collecting then s.(c0 := Poll(DoRequest(v)))
      else Local(s, DoRequest(v), Reading(false, 0))
    case In(a) =>
      if a == COMMAND_PORT then s.(c0 := Poll(DoStatus))
      else if a != RESPONSE_PORT then s
      else if s.port.status == Busy then s.(c0 := Poll(DoResponse))
      else Local(s, DoResponse, Reading(false, 0))
  }

  function Polled(s: State): State
    requires |s.port.local| == LOCAL
  {
    var q := Consumed(s.port, s.result);
    s.(work := Idle, port := q, read := if q == s.port then s.read else [])
  }

  lemma PolledSized(s: State)
    requires Sized(s)
    ensures Sized(Polled(s))
  {
  }

  function Core0Next(s: State, clock: Reading): State
    requires Sized(s) && !s.c0.Quiet?
  {
    match s.c0
    case Poll(a) => if s.work == Done then s.(c0 := PollStore(a)) else Local(s, a, clock)
    case PollStore(a) =>
      PolledSized(s);
      Local(Polled(s), a, clock)
    case SubmitLoad =>
      if s.work != Idle then s.(port := Failed(s.port, BUSY_ERROR, true), c0 := Quiet, read := [])
      else s.(c0 := SubmitFill)
    case SubmitFill =>
      s.(request := Request(s.port.generation, s.port.command, s.port.request[..s.port.requestLength]), c0 := SubmitPost)
    case SubmitPost => s.(work := Pending, port := s.port.(status := Busy), c0 := Quiet)
  }

  predicate Enabled(s: State, st: Step) {
    match st
    case Z80(_) => s.c0.Quiet?
    case Core0Step(_) => !s.c0.Quiet?
    case StartWork => s.c1.Outside? && s.work == Pending
    case WriteResult(data, _, _) => s.c1.Working? && |data| == PAYLOAD + 1
    case FinishWork(_) => s.c1.Working?
    case PublishWork => s.c1.Publishing?
  }

  function Apply(s: State, st: Step): State
    requires Sized(s) && Enabled(s, st)
  {
    match st
    case Z80(io) => Begin(s, io)
    case Core0Step(clock) => Core0Next(s, clock)
    case StartWork =>
      s.(result := Result(s.request.generation, OK, false, 0, seq<byte>(PAYLOAD + 1, _ => 0)), c1 := Working)
    case WriteResult(data, n, has) => s.(result := s.result.(data := data, length := n, hasResponse := has))
    case FinishWork(error) => s.(result := s.result.(error := error), c1 := Publishing)
    case PublishWork => s.(work := Done, c1 := Outside, served := s.served + {Served(s.request, s.result)})
  }

  predicate Init(s: State) {
    && s.port.status == Ready && s.port.lengthBytes == 0 && s.port.requestLength == 0 && s.port.responseLength == 0
    && s.port.responsePosition == 0 && s.port.source == LocalBuffer && !s.port.resetRequired
    && |s.port.request| == PAYLOAD && |s.port.local| == LOCAL && |s.result.data| == PAYLOAD + 1
    && s.work == Idle && s.c0 == Quiet && s.c1 == Outside && s.served == {} && s.given == []
    && s.request.generation < s.port.generation
  }
}
