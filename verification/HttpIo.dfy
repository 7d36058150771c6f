/** The HTTP port of http_io.c: core 0 serves the Z80's port accesses, core 1 decodes the
    response into a ring and hands it over in chunks through one mailbox slot. Each
    step makes at most one access to memory the other core may be writing. */
module HttpIo {
  import opened Bytes
  import Http = HttpStream

  const RING := 1024
  const CHUNK := 256
  const NAME_MAX := 767          // char filename[768]

  const COMMAND_PORT: byte := 21
  const DATA_PORT: byte := 22

  const IDLE: byte := 0
  const DATA_READY: byte := 1
  const EOF: byte := 2
  const BUSY: byte := 3
  const MISSING_BASE_URL: byte := 4
  const ERROR: byte := 255

  const SET_FILENAME: byte := 1
  const REQUEST_CHUNK: byte := 3
  const CLOSE: byte := 4

  datatype Owner = Free | Pending | Done

  /** The mailbox: core 1's while pending, core 0's otherwise. */
  datatype Slot = Slot(session: nat, name: seq<byte>, length: nat, status: byte, data: seq<byte>)

  datatype Port = Port(name: seq<byte>, length: nat, position: nat, status: byte, finalStatus: byte,
                       collecting: bool, overflow: bool, wantChunk: bool)
  {
    predicate Unread() { position < length }
  }

  const RESET := Port([], 0, 0, 0, 0, false, false, false)

  datatype Io = Out(address: byte, value: byte) | In(address: byte)

  /** What a core 0 port access does once its pump is over. */
  datatype Then = Return | Answer(address: byte)

  datatype Core0 =
    | Ready
    | PumpLoad(next: Then)
    | StoreFree(next: Then)
    | FillSlot(next: Then)
    | PostSlot(next: Then)
    | Reply(address: byte)
    | Release

  datatype Core1 = Outside | Serving(current: nat) | Publishing

  datatype Worker = Worker(session: nat, isOpen: bool, active: bool, redirects: nat, errorStatus: byte,
                           stream: Http.Stream, ring: seq<byte>,
                           // history: bytes consumed of the last response, its decoded body and how much was handed over
                           wire: seq<byte>, body: seq<byte>, taken: nat)

  datatype State = State(owner: Owner, session: nat, slot: Slot, port: Port, worker: Worker, c0: Core0, c1: Core1,
                         // history: the body bytes the Z80 has read in this session, and the last value read
                         got: seq<byte>, answer: byte)

  datatype Opening = NoNetwork | MissingBase | BadTarget | NotStarted | Started

  datatype Step =
    | Z80(io: Io)
    | Core0Step
    | Service(netDown: bool, redirected: Opening)
    | ServeSlot(opening: Opening)
    | PublishSlot
    | Receive(data: seq<byte>)
    | RemoteClose
    | NetworkError

  // ---------------------------------------------------------------- core 0

  /** z80_http_io_out and z80_http_io_in up to their first access to the slot. */
  function OutPort(p: Port, address: byte, value: byte): Port {
    if address == COMMAND_PORT then
      if value == SET_FILENAME || value == CLOSE then RESET.(collecting := value == SET_FILENAME)
      else if value != REQUEST_CHUNK || p.wantChunk || p.Unread() then p
      else if p.collecting || p.overflow || p.name == [] || p.status == ERROR then p.(status := ERROR)
      else if p.status == EOF then p
      else p.(wantChunk := true, status := BUSY)
    else if address == DATA_PORT && p.collecting then
      if value == 0 then p.(collecting := false, status := if p.overflow || p.name == [] then ERROR else p.status)
      else if |p.name| < NAME_MAX && !p.overflow then p.(name := p.name + [value])
      else p.(overflow := true, status := ERROR)
    else p
  }

  predicate NewSession(address: byte, value: byte) {
    address == COMMAND_PORT && (value == SET_FILENAME || value == CLOSE)
  }

  predicate Requests(p: Port, address: byte, value: byte) {
    address == COMMAND_PORT && value == REQUEST_CHUNK && !p.wantChunk && OutPort(p, address, value).wantChunk
  }

  function Begin(s: State, io: Io): State {
    match io
    case Out(a, v) =>
      s.(session := if NewSession(a, v) then s.session + 1 else s.session,
         got := if NewSession(a, v) then [] else s.got,
         port := OutPort(s.port, a, v),
         c0 := if NewSession(a, v) || Requests(s.port, a, v) then PumpLoad(Return) else Ready)
    case In(a) => s.(c0 := if s.port.Unread() then Reply(a) else PumpLoad(Answer(a)))
  }

  function After(t: Then): Core0 { if t.Return? then Ready else Reply(t.address) }

  predicate Adopts(s: State) { s.owner == Done && s.slot.session == s.session && s.port.wantChunk }

  function Adopted(p: Port, slot: Slot): Port {
    p.(wantChunk := false, length := if slot.length != 0 then slot.length + 1 else 0, position := 0,
       finalStatus := slot.status, status := if slot.length != 0 then DATA_READY else slot.status)
  }

  function Core0Next(s: State): State
    requires |s.slot.data| == CHUNK && s.port.length <= CHUNK + 1 && !s.c0.Ready?
  {
    match s.c0
    case PumpLoad(t) =>
      s.(port := if Adopts(s) then Adopted(s.port, s.slot) else s.port,
         c0 := if s.owner == Done then (if Adopts(s) && s.slot.length != 0 then After(t) else StoreFree(t))
               else if s.owner == Free && s.port.wantChunk then FillSlot(t)
               else After(t))
    case StoreFree(t) => s.(owner := Free, c0 := if s.port.wantChunk then FillSlot(t) else After(t))
    case FillSlot(t) => s.(slot := s.slot.(session := s.session, name := s.port.name), c0 := PostSlot(t))
    case PostSlot(t) => s.(owner := Pending, c0 := After(t))
    case Reply(a) =>
      var takes := a == DATA_PORT && s.port.Unread();
      var k := s.port.position;
      s.(answer := if a == COMMAND_PORT then s.port.status else if !takes then 0
                   else if k == 0 then s.slot.length % 256 else s.slot.data[k - 1],
         got := if takes && k > 0 then s.got + [s.slot.data[k - 1]] else s.got,
         port := if !takes then s.port
                 else s.port.(position := k + 1,
                              status := if k + 1 == s.port.length then s.port.finalStatus else s.port.status),
         c0 := if takes && k + 1 == s.port.length then Release else Ready)
    case Release => s.(owner := Free, c0 := Ready)
  }

  // ---------------------------------------------------------------- core 1

  /** z80_http_io_error: the first error stays. */
  function Failed(w: Worker): Worker {
    w.(active := false, stream := w.stream.(error := if w.stream.error == Http.NoError then Http.Aborted else w.stream.error))
  }

  function Restarted(session: nat): Worker {
    Worker(session, false, false, 0, ERROR, Http.START, [], [], [], 0)
  }

  /** A finished response: a redirect is followed, anything else is the body. */
  function Finish(w: Worker, redirected: Opening): Worker {
    if !(w.active && w.stream.done) then w
    else if w.stream.status < 300 then w.(active := false)
    else
      var v := w.(redirects := w.redirects + 1);
      if v.redirects > 5 || redirected.BadTarget? then Failed(v)
      else
        var u := v.(stream := Http.START, wire := []);
        if redirected.Started? then u else Failed(u)
  }

  function Serviced(w: Worker, session: nat, netDown: bool, redirected: Opening): Worker {
    var a := if session != w.session then Restarted(session) else w;
    Finish(if a.active && netDown then Failed(a) else a, redirected)
  }

  function Opened(w: Worker, o: Opening): Worker {
    if w.isOpen then w
    else
      var v := w.(isOpen := true, errorStatus := if o.MissingBase? then MISSING_BASE_URL else w.errorStatus);
      if o.Started? then v.(active := true) else Failed(v)
  }

  predicate Holds(w: Worker) { |w.ring| < CHUNK && (w.active || !w.stream.done) }

  function ChunkLength(w: Worker): nat { if |w.ring| < CHUNK then |w.ring| else CHUNK }

  function Handed(w: Worker): Worker {
    if w.stream.error != Http.NoError then w.(ring := [])
    else w.(ring := w.ring[ChunkLength(w)..], taken := w.taken + ChunkLength(w))
  }

  function FilledSlot(slot: Slot, w: Worker): Slot
    requires |slot.data| == CHUNK
  {
    if w.stream.error != Http.NoError then slot.(length := 0, status := w.errorStatus)
    else
      var n := ChunkLength(w);
      slot.(length := n, data := w.ring[..n] + slot.data[n..],
            status := if !w.active && w.stream.done && |w.ring| == n then EOF else IDLE)
  }

  function Serve(s: State, o: Opening): State
    requires |s.slot.data| == CHUNK && s.c1.Serving?
  {
    if s.owner != Pending then s.(c1 := Outside)
    else if s.slot.session != s.c1.current then s.(slot := s.slot.(length := 0, status := IDLE), c1 := Publishing)
    else
      var w := Opened(s.worker, o);
      if w.stream.error == Http.NoError && Holds(w) then s.(worker := w, c1 := Outside)
      else s.(worker := Handed(w), slot := FilledSlot(s.slot, w), c1 := Publishing)
  }

  function Received(w: Worker, data: seq<byte>): Worker
    requires |w.ring| <= RING
  {
    if !w.active then w
    else
      var f := Http.Feed(w.stream, data, RING - |w.ring|);
      w.(stream := f.stream, ring := w.ring + f.emitted, wire := w.wire + data[..f.used], body := w.body + f.emitted,
         active := f.stream.error == Http.NoError)
  }

  function Closed(w: Worker): Worker {
    var c := Http.Close(w.stream);
    w.(stream := c, active := w.active && c.error == Http.NoError)
  }

  // ---------------------------------------------------------------- steps

  predicate Sized(s: State) { |s.slot.data| == CHUNK && s.port.length <= CHUNK + 1 && |s.worker.ring| <= RING }

  predicate Enabled(s: State, st: Step) {
    match st
    case Z80(_) => s.c0.Ready?
    case Core0Step => !s.c0.Ready?
    case Service(_, _) => s.c1.Outside?
    case ServeSlot(_) => s.c1.Serving?
    case PublishSlot => s.c1.Publishing?
    case Receive(_) => s.c1.Outside?
    case RemoteClose => s.c1.Outside?
    case NetworkError => s.c1.Outside?
  }

  function Apply(s: State, st: Step): State
    requires Sized(s) && Enabled(s, st)
  {
    match st
    case Z80(io) => Begin(s, io)
    case Core0Step => Core0Next(s)
    case Service(down, r) => s.(worker := Serviced(s.worker, s.session, down, r), c1 := Serving(s.session))
    case ServeSlot(o) => Serve(s, o)
    case PublishSlot => s.(owner := Done, c1 := Outside)
    case Receive(data) => s.(worker := Received(s.worker, data))
    case RemoteClose => s.(worker := Closed(s.worker))
    case NetworkError => s.(worker := Failed(s.worker))
  }

  predicate Init(s: State) {
    && s.owner == Free && s.port == RESET && s.c0 == Ready && s.c1 == Outside && |s.slot.data| == CHUNK
    && s.slot.length == 0 && s.slot.session < s.session && s.worker.session < s.session && s.got == []
    && s.worker == Restarted(s.worker.session).(errorStatus := 0)
  }
}
