/** The disk as the Z80 sees it: four registers, a status and the bytes that crossed the
    data port, told from the port accesses alone. Every run of the two cores shows
    the Z80 exactly this. */
module DiskPort {
  import opened Bytes
  import opened Options
  import opened DiskSystem
  import opened DiskInvariant
  import opened DiskTheorems

  // ---------------------------------------------------------------- the reference

  /** What the accepted port accesses amount to: the last values written to ports 0x11,
      0x12 and 0x13, the READ and its bytes so far, the write and its bytes so far, the
      command last handed to core 1 and every full write. */
  datatype View = View(drive: nat, low: nat, high: nat, status: Status,
                       source: nat, fetched: seq<byte>,
                       target: nat, given: seq<byte>, command: byte, posted: seq<Write>,
                       asked: Option<byte>, fetching: bool)    // a command or a data read under way
  {
    function Lba(): nat { low + 256 * high }
    function Place(): nat { drive * 4096 + Lba() }
    predicate Exists() { drive < 4 && Lba() < 4096 }
  }

  const POWER_ON := View(0, 0, 0, Ready, 0, [], 0, [], 0, [], None, false)

  /** An access begins: gate is the write gate. */
  function Begun(v: View, io: Io, gate: bool): View {
    match io
    case In(port) => v.(fetching := port == 0x14 && v.status == DataReady)
    case Out(port, x) =>
      if !gate then v
      else if port == 0x10 then v.(asked := Some(x))
      else if v.status == Busy then v
      else if port == 0x11 then v.(drive := x)
      else if port == 0x12 then v.(low := x)
      else if port == 0x13 then v.(high := x)
      else if port == 0x14 && v.status == DataRoom then Given(v, x)
      else v
  }

  /** One more byte of the record being written; the 128th posts it. */
  function Given(v: View, x: byte): View {
    var g := v.given + [x];
    if |g| == 128 then v.(given := g, status := Busy, posted := v.posted + [Write(v.target, g)])
    else v.(given := g)
  }

  /** A command byte, ignored while the disk is busy. */
  function Ordered(v: View, c: byte): View {
    if v.status == Busy then v
    else if c == 0 then v.(status := Ready)
    else if c == 5 then v.(status := Busy, command := c)
    else if !v.Exists() then v.(status := Error)
    else if c == 1 then v.(status := DataReady, source := v.Place(), fetched := [])
    else if c == 2 || c == 3 || c == 4 then v.(status := DataRoom, target := v.Place(), given := [], command := c)
    else v.(status := Error)
  }

  /** One more byte read of the record offered; the 128th ends the offer. */
  function Fetched(v: View, answer: byte): View {
    var f := v.fetched + [answer];
    v.(fetched := f, status := if |f| == 128 then Ready else v.status)
  }

  /** A step of the board from s to t, as the Z80 sees it. */
  function NextView(s: State, st: Step, t: State, v: View): View
    requires Enabled(s, st)
  {
    if st.TrapStart? then Begun(v, s.fifo[0], s.enabled)
    else if st.TrapStep? then
      if v.asked.Some? then Ordered(v.(asked := None), v.asked.value)
      else if v.fetching then Fetched(v.(fetching := false), t.answer)
      else v
    else if st.WorkerStep? && s.status == Busy && t.status != Busy then v.(status := Ready)
    else v
  }

  /** What the Z80 has seen after i steps. */
  ghost function Seen(run: seq<State>, steps: seq<Step>, i: nat): View
    requires Trace(run, steps) && i < |run|
  {
    if i == 0 then POWER_ON
    else
      assert Follows(run[i - 1], steps[i - 1], run[i]);
      NextView(run[i - 1], steps[i - 1], run[i], Seen(run, steps, i - 1))
  }

  // ---------------------------------------------------------------- agreement

  predicate Registers(s: State, v: View) {
    && v.drive == s.port.drive && v.low < 256 && v.high < 256 && v.Lba() == s.port.lba
    && (s.c0.Command? <==> v.asked.Some?) && (s.c0.Command? ==> v.asked == Some(s.c0.c))
    && (s.c0.FetchByte? <==> v.fetching)
  }

  /** The trap is between accesses, or has not touched anything yet. */
  predicate AtRest(c: Trap) { c.Idle? || c.Command? || c.FetchByte? }

  predicate Offers(s: State, v: View) {
    s.port.index < 128 && v.fetched == s.record[..s.port.index] && v.source == s.readAddress
  }

  predicate Wants(s: State, v: View) {
    && s.port.index < 128 && v.given == s.record[..s.port.index] && v.target == WriteAddress(s)
    && v.command == s.port.writeCommand
  }

  predicate Works(s: State, v: View) {
    (s.pending != 0 && s.pending == v.command) || (s.pending == 0 && s.c1.PublishReady? && s.command == v.command)
  }

  predicate Rests(s: State, v: View) {
    && v.status == s.status && v.posted == s.writes
    && (s.status == DataReady ==> Offers(s, v))
    && (s.status == DataRoom ==> Wants(s, v))
    && (s.status == Busy ==> Works(s, v))
  }

  /** A command accepted but not yet carried out. */
  predicate Dispatches(s: State, v: View, c: byte) {
    && v.posted == s.writes
    && (if c == 0 then v.status == Ready
        else if c == 5 then v.status == Busy && v.command == 5
        else if !v.Exists() || c > 5 then v.status == Error
        else if c == 1 then v.status == DataReady && v.source == v.Place() && v.fetched == []
        else v.status == DataRoom && v.target == v.Place() && v.given == [] && v.command == c)
  }

  predicate Reads(s: State, v: View) {
    v.status == DataReady && v.source == v.Place() && v.fetched == [] && v.posted == s.writes
  }

  predicate Stores(s: State, v: View, x: byte) {
    && s.port.index < 128 && v.given == s.record[..s.port.index] + [x] && v.target == WriteAddress(s)
    && v.command == s.port.writeCommand
    && (if |v.given| == 128 then v.status == Busy && v.posted == s.writes + [Write(v.target, v.given)]
        else v.status == DataRoom && v.posted == s.writes)
  }

  predicate Submits(s: State, v: View, c: byte) {
    && v.status == Busy && v.command == c
    && v.posted == if IsWrite(c) then s.writes + [Write(WriteAddress(s), s.record)] else s.writes
  }

  predicate Agrees(s: State, v: View) {
    && Registers(s, v)
    && (AtRest(s.c0) ==> Rests(s, v))
    && (s.c0.Dispatch? ==> Dispatches(s, v, s.c0.c))
    && (s.c0.Reading() ==> Reads(s, v))
    && (s.c0.StoreByte? ==> Stores(s, v, s.c0.v))
    && (s.c0.MarkBusy? || s.c0.Post? ==> Submits(s, v, s.c0.c))
  }

  lemma AgreeStart(s: State, v: View)
    requires Shape(s) && Mailbox(s) && Agrees(s, v) && TrapMayStart(s)
    ensures Agrees(StartIo(s), Begun(v, s.fifo[0], s.enabled))
  {
    StartRegisters(s, v);
    StartRests(s, v);
    hide Rests, Registers, Dispatches, Reads, Submits, Stores, Begun;
  }

  lemma StartRegisters(s: State, v: View)
    requires Agrees(s, v) && TrapMayStart(s)
    ensures Registers(StartIo(s), Begun(v, s.fifo[0], s.enabled))
  {
    hide Dispatches, Reads, Submits, Stores, Wants, Offers, Works;
  }

  lemma StartRests(s: State, v: View)
    requires Shape(s) && Mailbox(s) && Agrees(s, v) && TrapMayStart(s)
    ensures var t, u := StartIo(s), Begun(v, s.fifo[0], s.enabled);
            && (AtRest(t.c0) ==> Rests(t, u)) && (t.c0.StoreByte? ==> Stores(t, u, t.c0.v))
            && (AtRest(t.c0) || t.c0.StoreByte?)
  {
    hide Dispatches, Reads, Submits, Registers;
  }

  lemma AgreeCommand(s: State, v: View)
    requires Shape(s) && Mailbox(s) && Agrees(s, v) && s.c0.Command?
    ensures Agrees(TrapNext(s), NextView(s, TrapStep, TrapNext(s), v))
  {
    hide CopyWord, ReadSlot, InCache;
  }

  lemma AgreeDispatch(s: State, v: View)
    requires Shape(s) && Mailbox(s) && Agrees(s, v) && s.c0.Dispatch?
    ensures Agrees(TrapNext(s), v)
  {
    hide CopyWord, ReadSlot, InCache;
  }

  lemma AgreeFetch(s: State, v: View)
    requires Shape(s) && Mailbox(s) && Agrees(s, v) && s.c0.FetchByte?
    ensures Agrees(TrapNext(s), NextView(s, TrapStep, TrapNext(s), v))
  {
    hide CopyWord, ReadSlot, InCache, DispatchPort, DispatchTrap, DispatchStatus;
    var k := s.port.index;
    assert s.record[..k + 1] == s.record[..k] + [s.record[k]];
  }

  lemma AgreeStore(s: State, v: View)
    requires Shape(s) && Mailbox(s) && Agrees(s, v) && s.c0.StoreByte?
    ensures Agrees(TrapNext(s), v)
  {
    hide CopyWord, ReadSlot, InCache, DispatchPort, DispatchTrap, DispatchStatus;
    var k, r := s.port.index, TrapNext(s).record;
    assert r[..k + 1] == s.record[..k] + [s.c0.v];
    assert k == 127 ==> r == r[..k + 1];
  }

  lemma AgreeRead(s: State, v: View)
    requires Shape(s) && Mailbox(s) && Agrees(s, v) && s.c0.Reading()
    ensures Agrees(TrapNext(s), v)
  {
    assert s.port.index == 0;
    hide Dispatches, Stores, Submits, Mailbox;
    ReadMoves(s);
    var t := TrapNext(s);
    hide TrapNext;
    if s.c0.PublishData? {
      hide Wants, Works;
    } else {
      hide Rests;
    }
  }

  /** A READ touches nothing the Z80 sees until it publishes the data. */
  lemma ReadMoves(s: State)
    requires Sized(s) && s.c0.Reading()
    ensures var t := TrapNext(s);
            && t.port.drive == s.port.drive && t.port.lba == s.port.lba && t.writes == s.writes
            && (if s.c0.PublishData? then t.c0.Idle? && t.status == DataReady && t.port.index == s.port.index && t.readAddress == ReadAddress(s)
                else t.c0.Reading())
  {
    hide CopyWord, ReadSlot, InCache, DispatchPort, DispatchTrap, DispatchStatus;
  }

  lemma AgreeSubmit(s: State, v: View)
    requires Shape(s) && Mailbox(s) && Agrees(s, v) && (s.c0.MarkBusy? || s.c0.Post?)
    ensures Agrees(TrapNext(s), v)
  {
    hide CopyWord, ReadSlot, InCache, DispatchPort, DispatchTrap, DispatchStatus;
  }

  lemma AgreeTrap(s: State, v: View)
    requires Shape(s) && Mailbox(s) && Agrees(s, v) && !s.c0.Idle?
    ensures Agrees(TrapNext(s), NextView(s, TrapStep, TrapNext(s), v))
  {
    assert !s.c0.Command? && !s.c0.FetchByte? ==> NextView(s, TrapStep, TrapNext(s), v) == v;
    hide TrapNext, NextView, Shape, Mailbox, Agrees;
    if s.c0.Command? {
      AgreeCommand(s, v);
    } else if s.c0.Dispatch? {
      AgreeDispatch(s, v);
    } else if s.c0.FetchByte? {
      AgreeFetch(s, v);
    } else if s.c0.StoreByte? {
      AgreeStore(s, v);
    } else if s.c0.Reading() {
      AgreeRead(s, v);
    } else {
      AgreeSubmit(s, v);
    }
  }

  lemma AgreeWorker(s: State, due: bool, v: View)
    requires Shape(s) && Mailbox(s) && Agrees(s, v) && !s.c1.Working?
    ensures Agrees(WorkerNext(s, due), NextView(s, WorkerStep(due), WorkerNext(s, due), v))
  {
    WorkerSameTrap(s, due);
    hide WorkerNext, Shape;
  }

  lemma AgreeElsewhere(s: State, st: Step, v: View)
    requires Shape(s) && Mailbox(s) && Agrees(s, v) && Enabled(s, st)
    requires !st.TrapStart? && !st.TrapStep? && !st.WorkerStep?
    ensures Agrees(Apply(s, st), v)
  {
    var t := Apply(s, st);
    assert SameTrap(s, t) && t.status == s.status && t.pending == s.pending && t.command == s.command;
    assert s.c1.PublishReady? ==> t.c1 == s.c1;
    hide Apply, Enabled, Shape;
  }

  /** Every step keeps the board and the reference in agreement. */
  lemma AgreeStep(s: State, st: Step, v: View)
    requires Inv(s) && Enabled(s, st) && Agrees(s, v)
    ensures Agrees(Apply(s, st), NextView(s, st, Apply(s, st), v))
  {
    hide TrapNext, WorkerNext, StartIo, SupervisorNext, Ledger, StopOk, Contents, Agrees, Shape, Mailbox, Begun;
    if st.TrapStart? {
      AgreeStart(s, v);
    } else if st.TrapStep? {
      hide NextView;
      AgreeTrap(s, v);
    } else if st.WorkerStep? {
      hide NextView;
      AgreeWorker(s, st.due, v);
    } else {
      AgreeElsewhere(s, st, v);
    }
  }

  lemma PowerOn(s: State)
    requires Init(s)
    ensures s.c0.Idle? && s.port.drive == 0 && s.port.lba == 0 && s.status == Ready && s.writes == []
  {
  }

  lemma AgreePowerOn(s: State, v: View)
    requires s.c0.Idle? && s.port.drive == 0 && s.port.lba == 0 && s.status == Ready && s.writes == []
    requires v.drive == 0 && v.low == 0 && v.high == 0 && v.status == Ready && v.posted == [] && v.asked == None
    requires !v.fetching
    ensures Agrees(s, v)
  {
  }

  lemma {:induction false} TraceAgrees(run: seq<State>, steps: seq<Step>, i: nat)
    requires Trace(run, steps) && i < |run|
    ensures Agrees(run[i], Seen(run, steps, i))
  {
    hide Agrees, NextView, Sized, Init, Inv, Apply, Enabled;
    if i == 0 {
      PowerOn(run[0]);
      AgreePowerOn(run[0], POWER_ON);
    } else {
      TraceAgrees(run, steps, i - 1);
      TraceInv(run, steps, i - 1);
      assert Follows(run[i - 1], steps[i - 1], run[i]);
      AgreeStep(run[i - 1], steps[i - 1], Seen(run, steps, i - 1));
    }
  }

  // ---------------------------------------------------------------- what the Z80 gets

  /** Between accesses the status is that of the reference, and the writes accepted
      are exactly the full transfers: each the 128 bytes given since its write command,
      in order, for the record the address ports named when that command came. */
  lemma PortsRefine(run: seq<State>, steps: seq<Step>, i: nat)
    requires Trace(run, steps) && i < |run| && run[i].c0.Idle?
    ensures var s, v := run[i], Seen(run, steps, i);
            && s.status == v.status && s.writes == v.posted && v.asked == None && !v.fetching
            && (v.status == DataRoom ==> |v.given| < 128) && (v.status == DataReady ==> |v.fetched| < 128)
            && (s.pending != 0 ==> v.status == Busy && s.pending == v.command)
  {
    TraceAgrees(run, steps, i);
    TraceInv(run, steps, i);
    hide Contents, Ledger, StopOk, Shape, Seen, Init, Follows;
  }

  /** A read of the status port returns the reference's status bits, or busy and error
      while the gate is off; any read that is not one of data offered returns 0. */
  lemma StatusAnswered(run: seq<State>, steps: seq<Step>, i: nat)
    requires Trace(run, steps) && i < |steps| && steps[i].TrapStart? && run[i].fifo != [] && run[i].fifo[0].In?
    ensures var s, t, v := run[i], run[i + 1], Seen(run, steps, i);
            var port := s.fifo[0].port;
            if port == 0x14 && v.status == DataReady then Seen(run, steps, i + 1).fetching
            else
              && t.c0.Idle?
              && t.answer == if port != 0x10 then 0
                             else if !s.enabled then 8 + 128
                             else if v.status == Busy then 8
                             else 1 + (if v.status == DataReady then 2 else if v.status == DataRoom then 4
                                       else if v.status == Error then 128 else 0)
  {
    assert Follows(run[i], steps[i], run[i + 1]);
    PortsRefine(run, steps, i);
    hide Init;
  }

  /** Whenever data is offered every accepted write has completed, and the bytes fetched
      so far are those of the record the READ named, as the accepted writes left it. */
  lemma DataIsCurrent(run: seq<State>, steps: seq<Step>, i: nat)
    requires Trace(run, steps) && i < |run| && AtRest(run[i].c0) && Seen(run, steps, i).status == DataReady
    ensures var s, v := run[i], Seen(run, steps, i);
            && s.done == |v.posted| && v.source < 16384 && |v.fetched| < 128
            && v.fetched == AfterWrites(run[0].flash, v.posted)[v.source][..|v.fetched|]
            && s.record == AfterWrites(run[0].flash, v.posted)[v.source] && s.port.index == |v.fetched|
  {
    TraceInv(run, steps, i);
    TraceBoot(run, steps, i);
    TraceAgrees(run, steps, i);
    assert Ledger(run[i]) && Mailbox(run[i]) && ReaderOk(run[i]);
    assert run[i].writes[..|run[i].writes|] == run[i].writes;
    hide AfterWrites, CacheOk, SlotsOk, Shape, StopOk, Init, Follows, Seen;
  }

  /** Read coherence: each byte the Z80 reads from the data port is the next byte of the last
      write accepted for the record it asked for, or of the boot image if there was none. */
  lemma ReadCoherence(run: seq<State>, steps: seq<Step>, i: nat) returns (last: int)
    requires Trace(run, steps) && i < |steps| && steps[i].TrapStep? && Seen(run, steps, i).fetching
    ensures var v := Seen(run, steps, i);
            && -1 <= last < |v.posted| && |v.fetched| < 128 && v.source < 16384
            && (last >= 0 ==> v.posted[last].address == v.source)
            && (forall j :: last < j < |v.posted| ==> v.posted[j].address != v.source)
            && run[i + 1].c0.Idle?
            && run[i + 1].answer == (if last < 0 then run[0].flash[v.source] else v.posted[last].data)[|v.fetched|]
            && Seen(run, steps, i + 1).fetched == v.fetched + [run[i + 1].answer]
  {
    var s := run[i];
    TraceInv(run, steps, i);
    TraceAgrees(run, steps, i);
    FetchMeansData(s);
    TraceBoot(run, steps, i);
    hide Inv, Init, AfterWrites, Agrees;
    DataIsCurrent(run, steps, i);
    last := LastWriteWins(run[0].flash, Seen(run, steps, i).posted, Seen(run, steps, i).source);
    assert Follows(run[i], steps[i], run[i + 1]);
    hide Seen;
  }

  lemma FetchMeansData(s: State)
    requires Inv(s) && s.c0.FetchByte?
    ensures s.status == DataReady && s.port.index < 128 && |s.boot| == 16384
  {
    hide Contents, Ledger, StopOk;
  }

  /** A flush command or a directory write is durable: at the moment core 1 makes the
      disk READY again, flash is the boot image with every accepted write. */
  lemma CompletedFlushIsDurable(run: seq<State>, steps: seq<Step>, i: nat)
    requires Trace(run, steps) && i < |steps| && steps[i].WorkerStep?
    requires run[i].status == Busy && run[i + 1].status != Busy
    requires Seen(run, steps, i).command == 3 || Seen(run, steps, i).command == 5
    ensures var t, v := run[i + 1], Seen(run, steps, i);
            && t.status == Ready && t.pending == 0 && !t.cache.dirty && t.done == |v.posted|
            && t.flash == AfterWrites(run[0].flash, v.posted)
  {
    TraceInv(run, steps, i);
    TraceInv(run, steps, i + 1);
    TraceBoot(run, steps, i + 1);
    TraceAgrees(run, steps, i);
    assert Follows(run[i], steps[i], run[i + 1]);
    WorkerSameTrap(run[i], steps[i].due);
    PublishedCommand(run[i], Seen(run, steps, i));
    PublishesClean(run[i], run[i + 1], steps[i].due);
    CleanIsDurable(run[i + 1]);
    hide Inv, Init, AfterWrites, Agrees, WorkerNext;
  }

  /** While core 1 publishes READY, the command it served is the one the Z80 gave last. */
  lemma PublishedCommand(s: State, v: View)
    requires Inv(s) && Agrees(s, v) && s.c1.PublishReady?
    ensures s.command == v.command && s.writes == v.posted
  {
    hide Contents, Ledger, StopOk, Shape;
  }

  // ---------------------------------------------------------------- clean stop

  /** When the stop path holds the CPU, core 1 is outside the flash service, every
      port access the Z80 completed was served, no command is posted and flash is the
      whole logical disk: the boot image with every full write the Z80 gave. */
  lemma CleanStop(run: seq<State>, steps: seq<Step>, i: nat)
    requires Trace(run, steps) && i < |run| && run[i].stop.pc.Held?
    ensures var s, v := run[i], Seen(run, steps, i);
            && s.c1.Outside() && s.issued == s.started && s.c0.Idle?
            && s.status == Ready && s.pending == 0 && !s.supervisorFlush && !s.cache.dirty
            && s.done == |v.posted| && s.flash == AfterWrites(run[0].flash, v.posted)
  {
    TraceInv(run, steps, i);
    TraceBoot(run, steps, i);
    var s := run[i];
    assert s.c0.Idle?;
    PortsRefine(run, steps, i);
    hide SlotsOk, ReaderOk, Init, Follows, Seen;
    assert s.writes[..|s.writes|] == s.writes;
    assert forall a :: 0 <= a < 16384 ==> s.flash[a] == Expected(s, a) == s.disk[a];
    assert s.flash == s.disk;
  }
}
