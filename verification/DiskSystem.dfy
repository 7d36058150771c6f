/** The disk device, four drives of 4096 records in 512 flash sectors of 32, as two cores
    run it: core 0's I/O trap and supervisor loop, core 1's flash worker, the mailbox and
    the read-ahead slots between them.
    Every step makes at most one access to memory the other core may be writing, but for
    the start of a trap, which reads the write gate and the status together. */
module DiskSystem {
  import opened Bytes

  type Record = r: seq<byte> | |r| == 128 witness seq(128, _ => 0)

  datatype Key = NoKey | Key(drive: nat, lba: nat)

  /** record_key: the word that stands for a key, 0 for none. */
  function KeyWord(k: Key): nat {
    if k.NoKey? then 0 else 0x8000_0000 + 65536 * k.drive + k.lba
  }

  /** Comparing key words compares keys, and the hint's drive and record come back out. */
  lemma KeyWordExact(k: Key, m: Key)
    requires k.Key? ==> k.drive < 256 && k.lba < 65536
    requires m.Key? ==> m.drive < 256 && m.lba < 65536
    ensures KeyWord(k) == KeyWord(m) <==> k == m
    ensures KeyWord(k) == 0 <==> k.NoKey?
    ensures k.Key? ==> KeyWord(k) / 65536 % 256 == k.drive && KeyWord(k) % 65536 == k.lba
  {
  }

  /** A read-ahead slot: odd sequence while core 1 rewrites it. */
  datatype Slot = Slot(sequence: nat, key: Key, words: Record)

  datatype Cache = Cache(valid: bool, dirty: bool, block: nat, data: seq<Record>)

  datatype Status = Ready | DataReady | DataRoom | Busy | Error

  datatype Io = Out(port: byte, value: byte) | In(port: byte)

  datatype Write = Write(address: nat, data: Record)

  datatype Publish = Publish(key: Key, words: Record)

  /** Core 0's port registers; the write address is read by core 1. */
  datatype Port = Port(drive: byte, lba: nat, writeDrive: nat, writeLba: nat, writeCommand: byte, index: nat)

  /** Where core 0's trap is. */
  datatype Trap =
    | Idle
    | Command(c: byte)
    | Dispatch(c: byte)
    | FetchByte
    | StoreByte(v: byte)
    | TakeSequence
    | TakeKey(q: nat)
    | TakeWord(q: nat, i: nat)
    | TakeRecheck(q: nat)
    | ReadSource
    | ReadWord(cached: bool, i: nat)
    | PublishHint
    | PublishData
    | MarkBusy(c: byte)
    | Post(c: byte)
  {
    /** Inside a READ, between accepting it and publishing the data. */
    predicate Reading() {
      TakeSequence? || TakeKey? || TakeWord? || TakeRecheck? || ReadSource? || ReadWord? || PublishHint? || PublishData?
    }
  }

  /** What core 1 does once a flush is over. */
  datatype Goal = LoadNext | FinishCommand | FinishSupervisor | FinishIdle

  datatype Ahead = Ahead(drive: nat, lba: nat, n: nat)
  {
    function Next(): nat { lba + n }
    function Target(): Key { Key(drive, lba + n) }
  }

  /** Where core 1 is, from its main loop down to a single word store. */
  datatype Worker =
    | Top
    | PauseSeen
    | Resume
    | Working
    | QuietStatus
    | QuietDirty
    | SetPaused
    | Poll
    | Invalidate
    | InvOdd
    | InvKey
    | InvEven
    | Select
    | LoadData
    | LoadTag
    | StoreRecord
    | StoreDirty
    | FlushTest(goal: Goal)
    | FlushWork(goal: Goal)
    | FlushClean(goal: Goal)
    | ClearPending
    | PublishReady
    | PollSupervisor
    | ClearSupervisor
    | PollIdle
    | HintLoad
    | Fill(a: Ahead)
    | PubOdd(a: Ahead)
    | PubKey(a: Ahead)
    | PubWord(a: Ahead, i: nat)
    | PubEven(a: Ahead)
  {
    predicate Publishing() { PubKey? || PubWord? || PubEven? }

    /** Serving a command taken from the mailbox, which is still posted. */
    predicate Handling() {
      || Invalidate? || InvOdd? || InvKey? || InvEven? || Select? || LoadData? || LoadTag? || StoreRecord?
      || StoreDirty? || ClearPending?
      || ((FlushTest? || FlushWork? || FlushClean?) && (goal.LoadNext? || goal.FinishCommand?))
    }

    /** Serving a write whose record is not yet in the cache. */
    predicate BeforeStore() {
      || Invalidate? || InvOdd? || InvKey? || InvEven? || Select? || LoadData? || LoadTag? || StoreRecord?
      || ((FlushTest? || FlushWork? || FlushClean?) && goal.LoadNext?)
    }

    predicate AfterStore() {
      || StoreDirty? || ClearPending? || PublishReady?
      || ((FlushTest? || FlushWork? || FlushClean?) && goal.FinishCommand?)
    }

    /** Past the point where the written record's slot has been invalidated. */
    predicate Invalidated() { AfterStore() || (BeforeStore() && !Invalidate? && !InvOdd? && !InvKey? && !InvEven?) }

    /** Outside z80_flash_core1_service and not about to call it. */
    predicate Outside() { Top? || PauseSeen? }
  }

  /** Where the supervisor's stop path is. */
  datatype Sup = Loop | SawPaused | Draining | CheckFlush | CheckStatus | CheckDirty | Release | PauseOff | Held

  datatype Stop = Stop(requested: bool, flushSubmitted: bool, resuming: bool, pauseRequest: bool, paused: bool,
                       parked: bool, pc: Sup)

  datatype State = State(
    status: Status, pending: byte, supervisorFlush: bool, hint: Key, enabled: bool,
    port: Port, record: Record, slots: seq<Slot>,
    cache: Cache, flash: seq<Record>,
    fifo: seq<Io>, c0: Trap, c1: Worker, draining: bool, command: byte, buffer: Record,
    stop: Stop,
    answer: byte,                  // what the last port read returned
    // history: the disk as completed writes left it, and what happened
    boot: seq<Record>, disk: seq<Record>, writes: seq<Write>, done: nat, published: seq<Publish>,
    issued: seq<Io>, started: seq<Io>, readAddress: nat)

  function Address(drive: nat, lba: nat): nat { drive * 4096 + lba }

  function ReadAddress(s: State): nat { Address(s.port.drive, s.port.lba) }

  function WriteAddress(s: State): nat { Address(s.port.writeDrive, s.port.writeLba) }

  predicate IsWrite(c: byte) { 2 <= c <= 4 }

  /** A 4-byte word copied between records. */
  function CopyWord(to: Record, from: Record, i: nat): Record
    requires i < 32
  {
    to[..4 * i] + from[4 * i..4 * i + 4] + to[4 * i + 4..]
  }

  function BlockOf(flash: seq<Record>, b: nat): (d: seq<Record>)
    requires |flash| == 16384 && b < 512
    ensures |d| == 32
  {
    flash[32 * b..32 * b + 32]
  }

  function WithBlock(flash: seq<Record>, b: nat, d: seq<Record>): (r: seq<Record>)
    requires |flash| == 16384 && b < 512 && |d| == 32
    ensures |r| == 16384
    ensures forall a :: 0 <= a < 16384 ==> r[a] == if a / 32 == b then d[a % 32] else flash[a]
  {
    flash[..32 * b] + d + flash[32 * b + 32..]
  }

  predicate InCache(cache: Cache, a: nat) { cache.valid && cache.block == a / 32 }

  /** z80_flash_backend_read_record: the cached sector, or flash. */
  function Backend(cache: Cache, flash: seq<Record>, a: nat): Record
    requires a < 16384 && |cache.data| == 32 && |flash| == 16384
  {
    if InCache(cache, a) then cache.data[a % 32] else flash[a]
  }

  /** The disk after writes, oldest first. */
  function AfterWrites(boot: seq<Record>, writes: seq<Write>): (d: seq<Record>)
    ensures |d| == |boot|
  {
    if writes == [] then boot
    else
      var d := AfterWrites(boot, writes[..|writes| - 1]);
      var w := writes[|writes| - 1];
      if w.address < |boot| then d[w.address := w.data] else d
  }

  /** AfterWrites holds the last write to an address, or the boot image. */
  lemma {:induction false} LastWriteWins(boot: seq<Record>, writes: seq<Write>, a: nat) returns (last: int)
    requires a < |boot|
    ensures -1 <= last < |writes|
    ensures last >= 0 ==> writes[last].address == a
    ensures forall j :: last < j < |writes| ==> writes[j].address != a
    ensures AfterWrites(boot, writes)[a] == if last < 0 then boot[a] else writes[last].data
  {
    if writes == [] {
      last := -1;
    } else {
      var n := |writes| - 1;
      if writes[n].address == a {
        last := n;
      } else {
        last := LastWriteWins(boot, writes[..n], a);
      }
    }
  }

  // ---------------------------------------------------------------- the steps

  datatype Step =
    | Z80(io: Io)
    | Gate(on: bool)
    | TrapStart
    | TrapStep
    | WorkerStep(due: bool)
    | Scribble(garbage: seq<Record>)
    | EnterFlash
    | LeaveWindow(portsQuiet: bool)
    | StopCommand(byKey: bool)     // the x command, or the boot timeout
    | SupervisorStep

  /** Core 0's IRQ may start on the next FIFO entry: never while the supervisor
      has interrupts masked, except as the drain itself. */
  predicate TrapMayStart(s: State) {
    s.c0.Idle? && s.fifo != [] && (s.stop.pc.Loop? || s.stop.pc.SawPaused? || s.stop.pc.Draining? || s.stop.pc.PauseOff?)
  }

  predicate Enabled(s: State, st: Step) {
    match st
    case Z80(io) => !s.stop.parked && !s.stop.pc.Held?
    case Gate(_) => true
    case TrapStart => TrapMayStart(s)
    case TrapStep => !s.c0.Idle?
    case WorkerStep(_) => !s.c1.Working?
    case Scribble(garbage) => s.c1.FlushWork? && |garbage| == 32
    case EnterFlash => s.c1.Working?
    case LeaveWindow(_) => s.c1.Working?
    case StopCommand(_) => s.c0.Idle? && s.stop.pc.Loop?
    case SupervisorStep => s.c0.Idle? && (s.stop.pc.Loop? ==> s.stop.requested) && !s.stop.pc.Held?
  }

  /** The trap position after z80_flash_disk_io_write / _read made its first loads. */
  function StartTrap(s: State, io: Io): Trap {
    match io
    case In(port) => if port == 0x14 && s.status == DataReady then FetchByte else Idle
    case Out(port, value) =>
      if s.enabled && port == 0x10 then Command(value)
      else if s.enabled && port == 0x14 && s.status == DataRoom then StoreByte(value)
      else Idle
  }

  /** The drive and LBA registers, which only a write to an idle disk changes. */
  function StartPort(s: State, io: Io): Port {
    if io.In? || !s.enabled || s.status == Busy then s.port
    else if io.port == 0x11 then s.port.(drive := io.value)
    else if io.port == 0x12 then s.port.(lba := s.port.lba / 256 * 256 + io.value)
    else if io.port == 0x13 then s.port.(lba := s.port.lba % 256 + 256 * (io.value as int))
    else s.port
  }

  /** The value of the status port. */
  function StatusByte(status: Status): byte {
    match status
    case Ready => 1
    case DataReady => 3
    case DataRoom => 5
    case Busy => 8
    case Error => 0x81
  }

  /** What z80_flash_disk_io_read returns at once: anything but a byte of data. */
  function StartAnswer(s: State, io: Io): byte {
    if io.Out? || (io.port == 0x14 && s.status == DataReady) then s.answer
    else if io.port == 0x10 then (if s.enabled then StatusByte(s.status) else 0x88)
    else 0
  }

  function StartIo(s: State): State
    requires s.fifo != []
  {
    s.(fifo := s.fifo[1..], started := s.started + [s.fifo[0]],
       c0 := StartTrap(s, s.fifo[0]), port := StartPort(s, s.fifo[0]), answer := StartAnswer(s, s.fifo[0]))
  }

  /** disk_start_command once the disk is known not to be busy. */
  function DispatchTrap(p: Port, c: byte): Trap {
    if c == 5 then MarkBusy(5)
    else if c == 1 && p.drive < 4 && p.lba < 4096 then TakeSequence
    else Idle
  }

  function DispatchStatus(s: State, c: byte): Status {
    if c == 0 then Ready
    else if c == 5 then s.status
    else if s.port.drive >= 4 || s.port.lba >= 4096 then Error
    else if c == 1 then s.status
    else if IsWrite(c) then DataRoom
    else Error
  }

  function DispatchPort(p: Port, c: byte): Port {
    if c == 0 then p.(index := 0)
    else if c == 5 || p.drive >= 4 || p.lba >= 4096 then p
    else if IsWrite(c) then p.(index := 0, writeDrive := p.drive, writeLba := p.lba, writeCommand := c)
    else p.(index := 0)
  }

  function ReadSlot(s: State): Slot
    requires |s.slots| == 8
  {
    s.slots[s.port.lba % 8]
  }

  predicate Sized(s: State) {
    && |s.slots| == 8 && |s.flash| == 16384 && |s.disk| == 16384 && |s.boot| == 16384 && |s.cache.data| == 32
    && (s.c0.TakeWord? ==> s.c0.i < 32) && (s.c0.ReadWord? ==> s.c0.i < 32 && ReadAddress(s) < 16384)
    && (s.c0.FetchByte? || s.c0.StoreByte? ==> s.port.index < 128)
    && (s.c1.PubWord? ==> s.c1.i < 32)
    && (s.c1.FlushWork? ==> s.cache.block < 512)
    && (s.c1.Handling() && IsWrite(s.command) ==> WriteAddress(s) < 16384)
    && (s.c1.PublishReady? && IsWrite(s.command) ==> WriteAddress(s) < 16384)
    && (s.c1.BeforeStore() || s.c1.StoreDirty? ==> IsWrite(s.command))
    && (s.c1.Fill? || s.c1.PubOdd? || s.c1.Publishing() ==> s.c1.a.drive < 4)
  }

  function TrapNext(s: State): State
    requires Sized(s) && !s.c0.Idle?
  {
    match s.c0
    case Command(c) => s.(c0 := if s.status == Busy then Idle else Dispatch(c))
    case Dispatch(c) =>
      s.(port := DispatchPort(s.port, c), status := DispatchStatus(s, c), c0 := DispatchTrap(s.port, c))
    case FetchByte =>
      s.(answer := s.record[s.port.index], port := s.port.(index := s.port.index + 1), c0 := Idle,
         status := if s.port.index + 1 == 128 then Ready else s.status)
    case StoreByte(v) =>
      s.(record := s.record[s.port.index := v], port := s.port.(index := s.port.index + 1),
         c0 := if s.port.index + 1 == 128 then MarkBusy(s.port.writeCommand) else Idle)
    case TakeSequence =>
      s.(c0 := if ReadSlot(s).sequence % 2 == 1 then ReadSource else TakeKey(ReadSlot(s).sequence))
    case TakeKey(q) =>
      s.(c0 := if ReadSlot(s).key == Key(s.port.drive, s.port.lba) then TakeWord(q, 0) else ReadSource)
    case TakeWord(q, i) =>
      s.(record := CopyWord(s.record, ReadSlot(s).words, i),
         c0 := if i == 31 then TakeRecheck(q) else TakeWord(q, i + 1))
    case TakeRecheck(q) => s.(c0 := if ReadSlot(s).sequence == q then PublishHint else ReadSource)
    case ReadSource => s.(c0 := ReadWord(InCache(s.cache, ReadAddress(s)), 0))
    case ReadWord(cached, i) =>
      var source := if cached then s.cache.data[ReadAddress(s) % 32] else s.flash[ReadAddress(s)];
      s.(record := CopyWord(s.record, source, i), c0 := if i == 31 then PublishHint else ReadWord(cached, i + 1))
    case PublishHint => s.(hint := Key(s.port.drive, s.port.lba), c0 := PublishData)
    case PublishData => s.(status := DataReady, readAddress := ReadAddress(s), c0 := Idle)
    case MarkBusy(c) => s.(status := Busy, c0 := Post(c))
    case Post(c) =>
      s.(pending := c, c0 := Idle,
         writes := if IsWrite(c) then s.writes + [Write(WriteAddress(s), s.record)] else s.writes)
  }

  function AfterFlush(goal: Goal): Worker {
    match goal
    case LoadNext => LoadData
    case FinishCommand => ClearPending
    case FinishSupervisor => ClearSupervisor
    case FinishIdle => HintLoad
  }

  /** Where a write goes once its record is in the cache: a directory write flushes. */
  function AfterRecord(command: byte): Worker {
    if command == 3 then FlushTest(FinishCommand) else ClearPending
  }

  function BumpSlot(s: State, k: nat): (r: seq<Slot>)
    requires k < |s.slots|
    ensures |r| == |s.slots|
  {
    s.slots[k := s.slots[k].(sequence := s.slots[k].sequence + 1)]
  }

  function WorkerNext(s: State, due: bool): State
    requires Sized(s) && !s.c1.Working?
  {
    var w := s.port.writeLba % 8;
    match s.c1
    case Top => s.(c1 := if s.stop.pauseRequest then PauseSeen else Resume)
    case PauseSeen => s.(c1 := if s.stop.paused then Top else Working, draining := !s.stop.paused)
    case Resume => s.(stop := s.stop.(paused := false), c1 := Working, draining := false)
    case QuietStatus => s.(c1 := if s.status == Ready then QuietDirty else Top)
    case QuietDirty => s.(c1 := if s.cache.dirty then Top else SetPaused)
    case SetPaused => s.(stop := s.stop.(paused := true), c1 := Top)
    case Poll =>
      s.(command := s.pending,
         c1 := if s.pending == 0 then PollSupervisor
               else if s.pending == 5 then FlushTest(FinishCommand) else Invalidate)
    case Invalidate =>
      s.(c1 := if s.slots[w].key == Key(s.port.writeDrive, s.port.writeLba) then InvOdd else Select)
    case InvOdd => s.(slots := BumpSlot(s, w), c1 := InvKey)
    case InvKey => s.(slots := s.slots[w := s.slots[w].(key := NoKey)], c1 := InvEven)
    case InvEven => s.(slots := BumpSlot(s, w), c1 := Select)
    case Select => s.(c1 := if InCache(s.cache, WriteAddress(s)) then StoreRecord else FlushTest(LoadNext))
    case LoadData => s.(cache := s.cache.(data := BlockOf(s.flash, WriteAddress(s) / 32)), c1 := LoadTag)
    case LoadTag => s.(cache := s.cache.(valid := true, block := WriteAddress(s) / 32), c1 := StoreRecord)
    case StoreRecord =>
      var at := WriteAddress(s) % 32;
      s.(cache := s.cache.(data := s.cache.data[at := s.record]),
         c1 := if s.cache.data[at] == s.record then AfterRecord(s.command) else StoreDirty)
    case StoreDirty => s.(cache := s.cache.(dirty := true), c1 := AfterRecord(s.command))
    case FlushTest(goal) => s.(c1 := if s.cache.dirty then FlushWork(goal) else AfterFlush(goal))
    case FlushWork(goal) => s.(flash := WithBlock(s.flash, s.cache.block, s.cache.data), c1 := FlushClean(goal))
    case FlushClean(goal) => s.(cache := s.cache.(dirty := false), c1 := AfterFlush(goal))
    case ClearPending => s.(pending := 0, c1 := PublishReady)
    case PublishReady =>
      s.(status := Ready, c1 := HintLoad,
         disk := if IsWrite(s.command) then s.disk[WriteAddress(s) := s.record] else s.disk,
         done := if IsWrite(s.command) then s.done + 1 else s.done)
    case PollSupervisor => s.(c1 := if s.supervisorFlush then FlushTest(FinishSupervisor) else PollIdle)
    case ClearSupervisor => s.(supervisorFlush := false, c1 := HintLoad)
    case PollIdle => s.(c1 := if s.cache.dirty && due then FlushTest(FinishIdle) else HintLoad)
    case HintLoad => s.(c1 := if s.hint.NoKey? then Working else Fill(Ahead(s.hint.drive, s.hint.lba, 1)))
    case Fill(a) =>
      s.(buffer := if a.n <= 8 && a.Next() < 4096 then Backend(s.cache, s.flash, Address(a.drive, a.Next())) else s.buffer,
         c1 := if a.n > 8 || a.Next() >= 4096 then Working
               else if s.slots[a.Next() % 8].key == a.Target() then Fill(a.(n := a.n + 1))
               else PubOdd(a))
    case PubOdd(a) => s.(slots := BumpSlot(s, a.Next() % 8), c1 := PubKey(a))
    case PubKey(a) =>
      var k := a.Next() % 8;
      s.(slots := s.slots[k := s.slots[k].(key := a.Target())], c1 := PubWord(a, 0))
    case PubWord(a, i) =>
      var k := a.Next() % 8;
      s.(slots := s.slots[k := s.slots[k].(words := CopyWord(s.slots[k].words, s.buffer, i))],
         c1 := if i == 31 then PubEven(a) else PubWord(a, i + 1))
    case PubEven(a) =>
      s.(slots := BumpSlot(s, a.Next() % 8), published := s.published + [Publish(a.Target(), s.buffer)],
         c1 := Fill(a.(n := a.n + 1)))
  }

  /** service_run with a stop requested. */
  function SupervisorNext(s: State): State {
    s.(supervisorFlush := s.supervisorFlush || SubmitsFlush(s.stop), stop := StopNext(s))
  }

  predicate SubmitsFlush(p: Stop) { p.pc.Loop? && !p.resuming && !p.paused && !p.flushSubmitted }

  function StopNext(s: State): Stop {
    var p := s.stop;
    match p.pc
    case Loop =>
      if p.resuming then
        if p.paused then p else p.(resuming := false, flushSubmitted := false, pauseRequest := true)
      else if p.paused then p.(pc := SawPaused)
      else p.(flushSubmitted := true)
    case SawPaused => p.(parked := true, pc := Draining)
    case Draining => if s.fifo == [] then p.(pc := CheckFlush) else p
    case CheckFlush => p.(pc := if s.supervisorFlush then Release else CheckStatus)
    case CheckStatus => p.(pc := if s.status == Ready then CheckDirty else Release)
    case CheckDirty => p.(pc := if s.cache.dirty then Release else Held)
    case Release => p.(parked := false, resuming := true, pc := PauseOff)
    case PauseOff => p.(pauseRequest := false, pc := Loop)
    case Held => p
  }

  function Apply(s: State, st: Step): State
    requires Sized(s) && Enabled(s, st)
  {
    match st
    case Z80(io) => s.(fifo := s.fifo + [io], issued := s.issued + [io])
    case Gate(on) => s.(enabled := on)
    case TrapStart => StartIo(s)
    case TrapStep => TrapNext(s)
    case WorkerStep(due) => WorkerNext(s, due)
    case Scribble(garbage) => s.(flash := WithBlock(s.flash, s.cache.block, garbage))
    case EnterFlash => s.(c1 := Poll)
    case LeaveWindow(quiet) => s.(c1 := if s.draining && quiet && !s.supervisorFlush then QuietStatus else Top)
    case StopCommand(byKey) =>
      s.(stop := s.stop.(requested := true, flushSubmitted := !byKey && s.stop.flushSubmitted, pauseRequest := true))
    case SupervisorStep => SupervisorNext(s)
  }

  predicate Init(s: State) {
    && s.status == Ready && s.pending == 0 && !s.supervisorFlush && s.hint == NoKey
    && s.port.drive == 0 && s.port.lba == 0
    && |s.slots| == 8 && (forall k :: 0 <= k < 8 ==> s.slots[k].key == NoKey && s.slots[k].sequence % 2 == 0)
    && !s.cache.valid && !s.cache.dirty && |s.cache.data| == 32 && |s.flash| == 16384
    && s.fifo == [] && s.c0 == Idle && s.c1 == Top
    && s.stop == Stop(false, false, false, false, false, false, Loop)
    && s.boot == s.flash && s.disk == s.flash && s.writes == [] && s.done == 0 && s.published == []
    && s.issued == [] && s.started == []
  }
}
