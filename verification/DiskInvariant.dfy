/** What every step of the two-core disk keeps. */
module DiskInvariant {
  import opened Bytes
  import opened DiskSystem

  // ---------------------------------------------------------------- mailbox ownership

  predicate WriteTargetOk(s: State) {
    s.port.writeDrive < 4 && s.port.writeLba < 4096 && IsWrite(s.port.writeCommand)
  }

  /** A posted write that has not been published as complete. */
  predicate InFlight(s: State) {
    IsWrite(s.pending) || (s.c1.PublishReady? && IsWrite(s.command))
  }

  predicate Shape(s: State) {
    && Sized(s)
    && s.port.drive < 256 && s.port.lba < 65536
    && (s.cache.valid ==> s.cache.block < 512)
    && (s.cache.dirty ==> s.cache.valid)
    && (s.hint.Key? ==> s.hint.drive < 4 && s.hint.lba < 4096)
    && (s.c0.Reading() ==> s.port.drive < 4 && s.port.lba < 4096)
    && (s.c1.LoadData? || s.c1.LoadTag? ==> !s.cache.dirty)
    && (s.c1.StoreRecord? || RecordStored(s) ==> InCache(s.cache, WriteAddress(s)))
    && (s.c1.FlushWork? || s.c1.FlushClean? ==> s.cache.dirty)
    && (s.c1.ClearPending? || s.c1.PublishReady? ==> s.command == 3 || s.command == 5 ==> !s.cache.dirty)
  }

  /** The mailbox: who owns the record and the write address, and when. */
  predicate Mailbox(s: State) {
    && (s.pending == 0 || s.pending == 5 || IsWrite(s.pending))
    && (s.pending != 0 ==> s.status == Busy && !s.c0.Post?)
    && (s.status == Busy ==> s.pending != 0 || s.c0.Post? || s.c1.PublishReady?)
    && (s.c0.Post? ==> s.status == Busy && s.pending == 0 && !s.c1.PublishReady?)
    && (s.c0.MarkBusy? || s.c0.Reading() || s.c0.Dispatch? || s.c0.FetchByte? || s.c0.StoreByte? ==>
          s.status != Busy && s.pending == 0)
    && (s.c1.Handling() ==> s.pending == s.command && s.command != 0)
    && (s.c1.PublishReady? ==> s.status == Busy && s.pending == 0 && (s.command == 5 || IsWrite(s.command)))
    && (s.c1.BeforeStore() || s.c1.StoreDirty? ==> IsWrite(s.command))
    && (s.c0.MarkBusy? ==> s.c0.c == 5 || (s.status == DataRoom && s.c0.c == s.port.writeCommand && IsWrite(s.c0.c)))
    && (s.c0.Post? ==> s.c0.c == 5 || (s.c0.c == s.port.writeCommand && IsWrite(s.c0.c)))
    && (s.c0.FetchByte? ==> s.status == DataReady)
    && (s.c0.StoreByte? ==> s.status == DataRoom)
    && (s.status == DataRoom ==> WriteTargetOk(s))
    && ((s.c0.Post? && IsWrite(s.c0.c)) || InFlight(s) ==> WriteTargetOk(s))
    && ((s.status == DataReady && !s.c0.Reading()) || (s.status == DataRoom && !s.c0.MarkBusy? && !s.c0.Reading()) ==>
          s.port.index < 128)
    && (s.c0.Reading() ==> s.port.index == 0)
  }

  /** Every posted write is applied exactly once, in order. */
  predicate Ledger(s: State) {
    && (if InFlight(s) then |s.writes| == s.done + 1 && s.writes[s.done] == Write(WriteAddress(s), s.record)
        else s.done == |s.writes|)
    && s.disk == AfterWrites(s.boot, s.writes[..s.done])
  }

  // ---------------------------------------------------------------- contents

  predicate RecordStored(s: State) { s.c1.AfterStore() && IsWrite(s.command) }

  /** The record at a that the cache and flash together must show. */
  function Expected(s: State, a: nat): Record
    requires a < |s.disk|
  {
    if RecordStored(s) && a == WriteAddress(s) then s.record else s.disk[a]
  }

  /** The cache over flash is the logical disk, except while a new tag is pending. */
  predicate CacheOk(s: State)
    requires Sized(s)
  {
    && (!s.c1.LoadTag? ==> forall a :: 0 <= a < 16384 ==> Backend(s.cache, s.flash, a) == Expected(s, a))
    && ((!s.cache.dirty && !s.c1.StoreDirty?) || s.c1.FlushClean? ==>
          forall a :: 0 <= a < 16384 ==> s.flash[a] == Expected(s, a))
    && (s.c1.LoadTag? ==> s.cache.data == BlockOf(s.flash, WriteAddress(s) / 32))
  }

  // ---------------------------------------------------------------- read-ahead slots

  predicate AheadOk(a: Ahead) { a.drive < 4 && a.lba < 4096 && 1 <= a.n }

  predicate BeingRewritten(s: State, k: nat) {
    || (s.c1.Publishing() && k == s.c1.a.Next() % 8)
    || ((s.c1.InvKey? || s.c1.InvEven?) && k == s.port.writeLba % 8)
  }

  predicate WriteInvalidated(s: State) { s.c1.Invalidated() && IsWrite(s.command) }

  /** A slot at rest holds one publish of its key, and the disk's record for it. */
  predicate SlotAtRest(s: State, k: nat)
    requires k < |s.slots|
  {
    var slot := s.slots[k];
    slot.key.Key? ==>
      && slot.key.drive < 4 && slot.key.lba < 4096 && slot.key.lba % 8 == k
      && Address(slot.key.drive, slot.key.lba) < |s.disk|
      && slot.words == s.disk[Address(slot.key.drive, slot.key.lba)]
      && Publish(slot.key, slot.words) in s.published
      && !(WriteInvalidated(s) && slot.key == Key(s.port.writeDrive, s.port.writeLba))
  }

  predicate SlotsOk(s: State)
    requires Sized(s)
  {
    && (forall k :: 0 <= k < 8 ==> (s.slots[k].sequence % 2 == 1 <==> BeingRewritten(s, k)))
    && (forall k :: 0 <= k < 8 && !BeingRewritten(s, k) ==> SlotAtRest(s, k))
    && (s.c1.Fill? ==> AheadOk(s.c1.a))
    && (s.c1.PubOdd? || s.c1.Publishing() ==>
          && AheadOk(s.c1.a) && s.c1.a.n <= 8 && s.c1.a.Next() < 4096
          && s.buffer == s.disk[Address(s.c1.a.drive, s.c1.a.Next())])
    && (s.c1.InvOdd? ==> s.slots[s.port.writeLba % 8].key == Key(s.port.writeDrive, s.port.writeLba))
    && (s.c1.InvEven? ==> s.slots[s.port.writeLba % 8].key == NoKey)
    && (s.c1.PubWord? ==>
          && s.slots[s.c1.a.Next() % 8].key == s.c1.a.Target()
          && s.slots[s.c1.a.Next() % 8].words[..4 * s.c1.i] == s.buffer[..4 * s.c1.i])
    && (s.c1.PubEven? ==>
          && s.slots[s.c1.a.Next() % 8].key == s.c1.a.Target()
          && s.slots[s.c1.a.Next() % 8].words == s.buffer)
  }

  // ---------------------------------------------------------------- core 0's READ

  /** What core 0 has copied so far is right, or the recheck will notice. */
  predicate ReaderOk(s: State)
    requires Sized(s)
  {
    var slot := ReadSlot(s);
    && (s.c0.TakeKey? || s.c0.TakeWord? || s.c0.TakeRecheck? ==> s.c0.q % 2 == 0 && s.c0.q <= slot.sequence)
    && (s.c0.TakeWord? && slot.sequence == s.c0.q ==>
          slot.key == Key(s.port.drive, s.port.lba) && s.record[..4 * s.c0.i] == slot.words[..4 * s.c0.i])
    && (s.c0.TakeRecheck? && slot.sequence == s.c0.q ==>
          slot.key == Key(s.port.drive, s.port.lba) && s.record == slot.words)
    && (s.c0.ReadWord? ==>
          && s.c0.cached == InCache(s.cache, ReadAddress(s))
          && s.record[..4 * s.c0.i] == s.disk[ReadAddress(s)][..4 * s.c0.i])
    && (s.c0.PublishHint? || s.c0.PublishData? ==> ReadAddress(s) < 16384 && s.record == s.disk[ReadAddress(s)])
    && (s.status == DataReady && !s.c0.Reading() ==> s.readAddress < 16384 && s.record == s.disk[s.readAddress])
  }

  // ---------------------------------------------------------------- stop handshake

  /** Between core 1 deciding to work and its next look at the pause request. */
  predicate InWindow(s: State) { !s.c1.Top? && !s.c1.PauseSeen? && !s.c1.Resume? }

  predicate StopOk(s: State) {
    var p := s.stop;
    && (InWindow(s) ==> !p.paused)
    && (p.paused || s.c1.PauseSeen? || (InWindow(s) && s.draining) ==> p.pauseRequest || p.resuming)
    && (s.c1.Resume? ==> !p.paused || p.resuming)
    && (p.pc.SawPaused? || p.pc.Draining? || p.pc.CheckFlush? || p.pc.CheckStatus? || p.pc.CheckDirty? || p.pc.Release?
        || p.pc.Held? ==>
          p.paused && p.pauseRequest && !p.resuming && s.c1.Outside())
    && (p.pc.PauseOff? ==> p.paused && p.pauseRequest && p.resuming && s.c1.Outside())
    && (s.c1.QuietStatus? || s.c1.QuietDirty? || s.c1.SetPaused? ==> s.draining)
    && (p.parked <==> p.pc.Draining? || p.pc.CheckFlush? || p.pc.CheckStatus? || p.pc.CheckDirty? || p.pc.Release?
                      || p.pc.Held?)
    && (p.pc.CheckFlush? || p.pc.CheckStatus? || p.pc.CheckDirty? || p.pc.Release? || p.pc.Held? ==>
          s.fifo == [] && s.c0.Idle?)
    && (p.pc.CheckDirty? || p.pc.Held? ==> s.status == Ready)
    && (p.pc.CheckStatus? || p.pc.CheckDirty? || p.pc.Held? ==> !s.supervisorFlush)
    && (p.pc.Held? ==> !s.cache.dirty)
    && s.issued == s.started + s.fifo
  }

  predicate Control(s: State) { Shape(s) && Mailbox(s) && Ledger(s) && StopOk(s) }

  predicate Contents(s: State)
    requires Sized(s)
  {
    CacheOk(s) && SlotsOk(s) && ReaderOk(s)
  }

  predicate Inv(s: State) { Control(s) && Contents(s) }

  lemma InitInv(s: State)
    requires Init(s)
    ensures Inv(s)
  {
  }

  // ---------------------------------------------------------------- frames

  predicate SameStore(s: State, t: State) {
    && t.cache == s.cache && t.flash == s.flash && t.slots == s.slots && t.disk == s.disk
    && t.published == s.published && t.buffer == s.buffer && t.command == s.command
  }

  predicate SameWrite(s: State, t: State) {
    && t.port.writeDrive == s.port.writeDrive && t.port.writeLba == s.port.writeLba && t.record == s.record
  }

  /** Core 0 moves: what core 1 keeps is not disturbed. */
  lemma StoreFrame(s: State, t: State)
    requires Sized(s) && Sized(t) && SameStore(s, t) && CacheOk(s) && SlotsOk(s)
    requires t.c1 == s.c1 && (s.c1.Handling() || s.c1.PublishReady? ==> SameWrite(s, t))
    ensures CacheOk(t) && SlotsOk(t)
  {
    forall a | 0 <= a < 16384
      ensures Expected(t, a) == Expected(s, a)
    {
    }
    forall k | 0 <= k < 8
      ensures BeingRewritten(t, k) == BeingRewritten(s, k) && SlotAtRest(t, k) == SlotAtRest(s, k)
    {
    }
  }

  /** Core 1 touches only the read-ahead slots. */
  lemma CacheFrame(s: State, t: State)
    requires Sized(s) && Sized(t) && CacheOk(s)
    requires t.cache == s.cache && t.flash == s.flash && t.disk == s.disk && SameWrite(s, t)
    requires RecordStored(t) == RecordStored(s) && !t.c1.LoadTag? && !s.c1.LoadTag?
    requires t.c1.StoreDirty? == s.c1.StoreDirty? && t.c1.FlushClean? == s.c1.FlushClean?
    ensures CacheOk(t)
  {
    forall a | 0 <= a < 16384
      ensures Expected(t, a) == Expected(s, a)
    {
    }
  }

  /** Core 1 touches only the cache or flash, past any invalidation. */
  lemma SlotFrame(s: State, t: State)
    requires Sized(s) && Sized(t) && SlotsOk(s)
    requires t.slots == s.slots && t.disk == s.disk && t.published == s.published
    requires t.port == s.port && WriteInvalidated(t) == WriteInvalidated(s)
    requires !s.c1.PubOdd? && !s.c1.Publishing() && !s.c1.InvKey? && !s.c1.InvEven?
    requires !t.c1.PubOdd? && !t.c1.Publishing() && !t.c1.InvOdd? && !t.c1.InvKey? && !t.c1.InvEven?
    requires t.c1.Fill? ==> AheadOk(t.c1.a)
    ensures SlotsOk(t)
  {
    forall k | 0 <= k < 8
      ensures !BeingRewritten(t, k) && !BeingRewritten(s, k) && SlotAtRest(t, k) == SlotAtRest(s, k)
    {
    }
  }

  /** Core 1 moves without touching anything a READ looks at. */
  lemma ReaderFrame(s: State, t: State)
    requires Sized(s) && Sized(t) && ReaderOk(s)
    requires t.slots == s.slots && t.disk == s.disk && t.record == s.record && t.port == s.port
    requires t.cache.valid == s.cache.valid && t.cache.block == s.cache.block
    requires t.c0 == s.c0 && t.status == s.status && t.readAddress == s.readAddress
    ensures ReaderOk(t)
  {
  }

  /** Core 1 changes one slot, leaving its sequence higher or odd: a READ under way
      can only be made to fail its recheck. */
  lemma ReaderSlot(s: State, t: State, k: nat)
    requires Sized(s) && Sized(t) && ReaderOk(s) && k < 8
    requires t.slots == s.slots[k := t.slots[k]] && s.slots[k].sequence <= t.slots[k].sequence
    requires t.slots[k].sequence == s.slots[k].sequence ==> s.slots[k].sequence % 2 == 1
    requires t.disk == s.disk && t.record == s.record && t.port == s.port && t.cache == s.cache
    requires t.c0 == s.c0 && t.status == s.status && t.readAddress == s.readAddress
    ensures ReaderOk(t)
  {
  }

  lemma CopyWordPrefix(to: Record, from: Record, i: nat)
    requires i < 32 && to[..4 * i] == from[..4 * i]
    ensures CopyWord(to, from, i)[..4 * (i + 1)] == from[..4 * (i + 1)]
    ensures i == 31 ==> CopyWord(to, from, i) == from
  {
    var r := CopyWord(to, from, i);
    assert from[..4 * (i + 1)] == from[..4 * i] + from[4 * i..4 * i + 4];
    assert r[..4 * (i + 1)] == to[..4 * i] + from[4 * i..4 * i + 4];
    if i == 31 {
      assert r == r[..128] && from == from[..128];
    }
  }

  // ---------------------------------------------------------------- core 0's trap

  lemma ControlCommand(s: State)
    requires Control(s) && (s.c0.Command? || s.c0.Dispatch?)
    ensures Control(TrapNext(s))
  {
    hide CopyWord, AfterWrites;
  }

  lemma ControlBytes(s: State)
    requires Control(s) && (s.c0.FetchByte? || s.c0.StoreByte?)
    ensures Control(TrapNext(s))
  {
    hide CopyWord, AfterWrites;
  }

  lemma ControlTake(s: State)
    requires Control(s) && (s.c0.TakeSequence? || s.c0.TakeKey? || s.c0.TakeWord? || s.c0.TakeRecheck?)
    ensures Control(TrapNext(s))
  {
    hide CopyWord, AfterWrites;
  }

  lemma ControlRead(s: State)
    requires Control(s) && (s.c0.ReadSource? || s.c0.ReadWord? || s.c0.PublishHint? || s.c0.PublishData?)
    ensures Control(TrapNext(s))
  {
    hide CopyWord, AfterWrites;
  }

  lemma ControlSubmit(s: State)
    requires Control(s) && (s.c0.MarkBusy? || s.c0.Post?)
    ensures Control(TrapNext(s))
  {
    hide CopyWord, AfterWrites;
    assert s.c0.Post? ==> TrapNext(s).writes[..s.done] == s.writes[..s.done];
  }

  lemma TrapCommand(s: State)
    requires Inv(s) && s.c0.Command?
    ensures Inv(TrapNext(s))
  {
    var t := TrapNext(s);
    ControlCommand(s);
    hide Ledger, StopOk;
    StoreFrame(s, t);
    hide CacheOk, SlotsOk;
  }

  lemma TrapDispatch(s: State)
    requires Inv(s) && s.c0.Dispatch?
    ensures Inv(TrapNext(s))
  {
    var t := TrapNext(s);
    ControlCommand(s);
    hide Ledger, StopOk;
    assert !s.c1.Handling() && !s.c1.PublishReady?;
    assert t == s.(port := DispatchPort(s.port, s.c0.c), status := t.status, c0 := t.c0);
    assert t.status == DataReady ==> t.c0.Reading() || s.status == DataReady;
    assert t.c0.Idle? || t.c0.MarkBusy? || t.c0.TakeSequence?;
    hide TrapNext;
    StoreFrame(s, t);
    hide CacheOk, SlotsOk, Mailbox;
  }

  lemma TrapFetchByte(s: State)
    requires Inv(s) && s.c0.FetchByte?
    ensures Inv(TrapNext(s))
  {
    var t := TrapNext(s);
    ControlBytes(s);
    hide Ledger, StopOk;
    StoreFrame(s, t);
    hide CacheOk, SlotsOk;
  }

  lemma TrapStoreByte(s: State)
    requires Inv(s) && s.c0.StoreByte?
    ensures Inv(TrapNext(s))
  {
    var t := TrapNext(s);
    ControlBytes(s);
    hide Ledger, StopOk;
    StoreFrame(s, t);
    hide CacheOk, SlotsOk;
  }

  lemma TrapMarkBusy(s: State)
    requires Inv(s) && s.c0.MarkBusy?
    ensures Inv(TrapNext(s))
  {
    var t := TrapNext(s);
    ControlSubmit(s);
    hide Ledger, StopOk;
    StoreFrame(s, t);
    hide CacheOk, SlotsOk;
  }

  lemma TrapPost(s: State)
    requires Inv(s) && s.c0.Post?
    ensures Inv(TrapNext(s))
  {
    var t := TrapNext(s);
    ControlSubmit(s);
    hide Ledger, StopOk;
    StoreFrame(s, t);
    hide CacheOk, SlotsOk;
  }

  lemma TrapTakeSequence(s: State)
    requires Inv(s) && s.c0.TakeSequence?
    ensures Inv(TrapNext(s))
  {
    var t := TrapNext(s);
    ControlTake(s);
    hide Ledger, StopOk;
    StoreFrame(s, t);
    hide CacheOk, SlotsOk;
  }

  lemma TrapTakeKey(s: State)
    requires Inv(s) && s.c0.TakeKey?
    ensures Inv(TrapNext(s))
  {
    var t := TrapNext(s);
    ControlTake(s);
    hide Ledger, StopOk;
    StoreFrame(s, t);
    hide CacheOk, SlotsOk;
  }

  lemma TrapTakeWord(s: State)
    requires Inv(s) && s.c0.TakeWord?
    ensures Inv(TrapNext(s))
  {
    var t := TrapNext(s);
    ControlTake(s);
    hide Ledger, StopOk;
    StoreFrame(s, t);
    if ReadSlot(s).sequence == s.c0.q {
      CopyWordPrefix(s.record, ReadSlot(s).words, s.c0.i);
    }
    hide CacheOk, SlotsOk, CopyWord;
  }

  /** The recheck passes: the record is one publish of this key, and current. */
  lemma TrapTakeRecheck(s: State)
    requires Inv(s) && s.c0.TakeRecheck?
    ensures Inv(TrapNext(s))
  {
    var t := TrapNext(s);
    ControlTake(s);
    hide Ledger, StopOk;
    StoreFrame(s, t);
    if ReadSlot(s).sequence == s.c0.q {
      assert SlotAtRest(s, s.port.lba % 8);
    }
    hide CacheOk, SlotsOk;
  }

  lemma TrapReadSource(s: State)
    requires Inv(s) && s.c0.ReadSource?
    ensures Inv(TrapNext(s))
  {
    var t := TrapNext(s);
    ControlRead(s);
    hide Ledger, StopOk;
    StoreFrame(s, t);
    hide CacheOk, SlotsOk;
  }

  lemma TrapReadWord(s: State)
    requires Inv(s) && s.c0.ReadWord?
    ensures Inv(TrapNext(s))
  {
    var t := TrapNext(s);
    ControlRead(s);
    hide Ledger, StopOk;
    StoreFrame(s, t);
    var a := ReadAddress(s);
    assert Backend(s.cache, s.flash, a) == Expected(s, a) == s.disk[a];
    CopyWordPrefix(s.record, s.disk[a], s.c0.i);
    hide CacheOk, SlotsOk, CopyWord;
  }

  lemma TrapPublishHint(s: State)
    requires Inv(s) && s.c0.PublishHint?
    ensures Inv(TrapNext(s))
  {
    var t := TrapNext(s);
    ControlRead(s);
    hide Ledger, StopOk;
    StoreFrame(s, t);
    hide CacheOk, SlotsOk;
  }

  lemma TrapPublishData(s: State)
    requires Inv(s) && s.c0.PublishData?
    ensures Inv(TrapNext(s))
  {
    var t := TrapNext(s);
    ControlRead(s);
    hide Ledger, StopOk;
    StoreFrame(s, t);
    hide CacheOk, SlotsOk;
  }

  lemma StartPortOk(s: State, io: Io)
    requires s.port.lba < 65536
    ensures var p := StartPort(s, io);
            && p.lba < 65536 && p.index == s.port.index && p.writeCommand == s.port.writeCommand
            && p.writeDrive == s.port.writeDrive && p.writeLba == s.port.writeLba
  {
  }

  lemma StartTrapOk(s: State, io: Io)
    ensures var c := StartTrap(s, io);
            || c.Idle? || c.Command? || (c.FetchByte? && s.status == DataReady) || (c.StoreByte? && s.status == DataRoom)
  {
  }

  lemma StopStart(s: State)
    requires StopOk(s) && TrapMayStart(s)
    ensures StopOk(StartIo(s))
  {
    assert s.started + s.fifo == (s.started + [s.fifo[0]]) + s.fifo[1..];
    hide StartPort, StartTrap;
  }

  lemma ControlStart(s: State)
    requires Control(s) && TrapMayStart(s)
    ensures Control(StartIo(s))
  {
    StartPortOk(s, s.fifo[0]);
    StartTrapOk(s, s.fifo[0]);
    StopStart(s);
    hide StartPort, StartTrap, AfterWrites, StopOk;
  }

  lemma TrapStarts(s: State)
    requires Inv(s) && TrapMayStart(s)
    ensures Inv(StartIo(s))
  {
    var t := StartIo(s);
    ControlStart(s);
    StartPortOk(s, s.fifo[0]);
    StartTrapOk(s, s.fifo[0]);
    hide StartPort, StartTrap, Ledger, StopOk;
    StoreFrame(s, t);
    hide CacheOk, SlotsOk;
  }

  // ---------------------------------------------------------------- core 1's worker

  lemma ControlLoop(s: State, due: bool)
    requires Control(s) && (s.c1.Top? || s.c1.PauseSeen? || s.c1.Resume?)
    ensures Control(WorkerNext(s, due))
  {
    hide CopyWord, WithBlock, BlockOf, Backend, BumpSlot, AfterWrites;
  }

  lemma ControlQuiet(s: State, due: bool)
    requires Control(s) && (s.c1.QuietStatus? || s.c1.QuietDirty? || s.c1.SetPaused?)
    ensures Control(WorkerNext(s, due))
  {
    hide CopyWord, WithBlock, BlockOf, Backend, BumpSlot, AfterWrites;
  }

  lemma ControlPoll(s: State, due: bool)
    requires Control(s) && (s.c1.Poll?)
    ensures Control(WorkerNext(s, due))
  {
    hide CopyWord, WithBlock, BlockOf, Backend, BumpSlot, AfterWrites;
  }

  lemma ControlPollSupervisor(s: State, due: bool)
    requires Control(s) && s.c1.PollSupervisor?
    ensures Control(WorkerNext(s, due))
  {
    hide CopyWord, WithBlock, BlockOf, Backend, BumpSlot, AfterWrites;
    var t := WorkerNext(s, due);
    assert t == s.(c1 := t.c1) && (t.c1 == PollIdle || t.c1 == FlushTest(FinishSupervisor));
    hide WorkerNext;
  }

  lemma ControlPollIdle(s: State, due: bool)
    requires Control(s) && s.c1.PollIdle?
    ensures Control(WorkerNext(s, due))
  {
    hide CopyWord, WithBlock, BlockOf, Backend, BumpSlot, AfterWrites;
    var t := WorkerNext(s, due);
    assert t == s.(c1 := t.c1) && (t.c1 == HintLoad || t.c1 == FlushTest(FinishIdle));
    hide WorkerNext;
  }

  lemma ControlClearFlush(s: State, due: bool)
    requires Control(s) && (s.c1.ClearSupervisor?)
    ensures Control(WorkerNext(s, due))
  {
    hide CopyWord, WithBlock, BlockOf, Backend, BumpSlot, AfterWrites;
  }

  lemma ControlInvalidate(s: State, due: bool)
    requires Control(s) && (s.c1.Invalidate? || s.c1.InvOdd? || s.c1.InvKey? || s.c1.InvEven?)
    ensures Control(WorkerNext(s, due))
  {
    hide CopyWord, WithBlock, BlockOf, Backend, BumpSlot, AfterWrites;
  }

  lemma ControlSelect(s: State, due: bool)
    requires Control(s) && (s.c1.Select? || s.c1.LoadData? || s.c1.LoadTag?)
    ensures Control(WorkerNext(s, due))
  {
    hide CopyWord, WithBlock, BlockOf, Backend, BumpSlot, AfterWrites;
  }

  lemma ControlStore(s: State, due: bool)
    requires Control(s) && (s.c1.StoreRecord? || s.c1.StoreDirty?)
    ensures Control(WorkerNext(s, due))
  {
    hide CopyWord, WithBlock, BlockOf, Backend, BumpSlot, AfterWrites;
  }

  lemma ControlFlushTest(s: State, due: bool)
    requires Control(s) && (s.c1.FlushTest?)
    ensures Control(WorkerNext(s, due))
  {
    hide CopyWord, WithBlock, BlockOf, Backend, BumpSlot, AfterWrites;
  }

  lemma ControlFlushWork(s: State, due: bool)
    requires Control(s) && (s.c1.FlushWork?)
    ensures Control(WorkerNext(s, due))
  {
    hide CopyWord, WithBlock, BlockOf, Backend, BumpSlot, AfterWrites;
  }

  lemma ControlFlushClean(s: State, due: bool)
    requires Control(s) && (s.c1.FlushClean?)
    ensures Control(WorkerNext(s, due))
  {
    hide CopyWord, WithBlock, BlockOf, Backend, BumpSlot, AfterWrites;
  }

  lemma ControlClearPending(s: State, due: bool)
    requires Control(s) && s.c1.ClearPending?
    ensures Control(WorkerNext(s, due))
  {
    hide CopyWord, WithBlock, BlockOf, Backend, BumpSlot, AfterWrites;
    var t := WorkerNext(s, due);
    assert t == s.(pending := 0, c1 := PublishReady);
    hide WorkerNext;
  }

  /** The completed write joins the disk: the ledger advances by exactly one. */
  lemma LedgerAdvances(s: State, t: State)
    requires Shape(s) && Mailbox(s) && Ledger(s) && s.c1.PublishReady?
    requires t == s.(status := Ready, c1 := HintLoad, disk := t.disk, done := t.done)
    requires t.disk == (if IsWrite(s.command) then s.disk[WriteAddress(s) := s.record] else s.disk)
    requires t.done == (if IsWrite(s.command) then s.done + 1 else s.done)
    ensures Ledger(t)
  {
    if IsWrite(s.command) {
      assert s.writes[..s.done + 1][..s.done] == s.writes[..s.done];
    }
  }

  lemma ControlPublishReady(s: State, due: bool)
    requires Control(s) && s.c1.PublishReady?
    ensures Control(WorkerNext(s, due))
  {
    hide CopyWord, WithBlock, BlockOf, Backend, BumpSlot, AfterWrites;
    var t := WorkerNext(s, due);
    LedgerAdvances(s, t);
    assert t == s.(status := Ready, c1 := HintLoad, disk := t.disk, done := t.done) && |t.disk| == 16384;
    hide WorkerNext, Ledger;
  }

  lemma ControlHint(s: State, due: bool)
    requires Control(s) && (s.c1.HintLoad?)
    ensures Control(WorkerNext(s, due))
  {
    hide CopyWord, WithBlock, BlockOf, Backend, BumpSlot, AfterWrites;
    var t := WorkerNext(s, due);
    assert t == s.(c1 := t.c1) && (t.c1.Working? || (t.c1.Fill? && t.c1.a.drive < 4));
    hide WorkerNext;
  }

  lemma ControlFill(s: State, due: bool)
    requires Control(s) && (s.c1.Fill?)
    ensures Control(WorkerNext(s, due))
  {
    hide CopyWord, WithBlock, BlockOf, Backend, BumpSlot, AfterWrites;
  }

  lemma ControlOdd(s: State, due: bool)
    requires Control(s) && (s.c1.PubOdd?)
    ensures Control(WorkerNext(s, due))
  {
    hide CopyWord, WithBlock, BlockOf, Backend, BumpSlot, AfterWrites;
  }

  lemma ControlPublish(s: State, due: bool)
    requires Control(s) && (s.c1.PubKey? || s.c1.PubWord?)
    ensures Control(WorkerNext(s, due))
  {
    hide CopyWord, WithBlock, BlockOf, Backend, BumpSlot, AfterWrites;
  }

  lemma ControlPublished(s: State, due: bool)
    requires Control(s) && (s.c1.PubEven?)
    ensures Control(WorkerNext(s, due))
  {
    hide CopyWord, WithBlock, BlockOf, Backend, BumpSlot, AfterWrites;
  }

  /** Core 1 moves in its main loop, touching neither the cache nor the slots. */
  lemma PlainMove(s: State, t: State)
    requires Inv(s) && Control(t) && SameStore(s, t) && t.port == s.port && t.record == s.record
    requires t.c0 == s.c0 && t.status == s.status && t.readAddress == s.readAddress
    requires Plain(s.c1) && Plain(t.c1)
    ensures Inv(t)
  {
    hide Ledger, StopOk, Mailbox;
    CacheFrame(s, t);
    SlotFrame(s, t);
    ReaderFrame(s, t);
  }

  predicate Plain(c: Worker) {
    || c.Top? || c.PauseSeen? || c.Resume? || c.Working? || c.QuietStatus? || c.QuietDirty? || c.SetPaused?
    || c.PollSupervisor? || c.PollIdle? || c.ClearSupervisor? || c.HintLoad?
    || (c.FlushTest? && (c.goal.FinishSupervisor? || c.goal.FinishIdle?))
  }

  lemma WorkerLoop(s: State, due: bool)
    requires Inv(s) && (s.c1.Top? || s.c1.PauseSeen? || s.c1.Resume?)
    ensures Inv(WorkerNext(s, due))
  {
    var t := WorkerNext(s, due);
    ControlLoop(s, due);
    hide Control, Contents;
    PlainMove(s, t);
  }

  lemma WorkerQuiet(s: State, due: bool)
    requires Inv(s) && (s.c1.QuietStatus? || s.c1.QuietDirty? || s.c1.SetPaused?)
    ensures Inv(WorkerNext(s, due))
  {
    var t := WorkerNext(s, due);
    ControlQuiet(s, due);
    hide Control, Contents;
    PlainMove(s, t);
  }

  lemma WorkerPollSupervisor(s: State, due: bool)
    requires Inv(s) && s.c1.PollSupervisor?
    ensures Inv(WorkerNext(s, due))
  {
    var t := WorkerNext(s, due);
    ControlPollSupervisor(s, due);
    hide Control, Contents;
    PlainMove(s, t);
  }

  lemma WorkerPollIdle(s: State, due: bool)
    requires Inv(s) && s.c1.PollIdle?
    ensures Inv(WorkerNext(s, due))
  {
    var t := WorkerNext(s, due);
    ControlPollIdle(s, due);
    hide Control, Contents;
    PlainMove(s, t);
  }

  lemma WorkerClearSupervisor(s: State, due: bool)
    requires Inv(s) && s.c1.ClearSupervisor?
    ensures Inv(WorkerNext(s, due))
  {
    var t := WorkerNext(s, due);
    ControlClearFlush(s, due);
    hide Control, Contents;
    PlainMove(s, t);
  }

  lemma WorkerPoll(s: State, due: bool)
    requires Inv(s) && s.c1.Poll?
    ensures Inv(WorkerNext(s, due))
  {
    var t := WorkerNext(s, due);
    ControlPoll(s, due);
    hide Ledger, StopOk;
    assert t == s.(command := s.pending, c1 := t.c1);
    assert (t.c1.PollSupervisor? && t.command == 0) || (t.c1 == FlushTest(FinishCommand) && t.command == 5) || t.c1.Invalidate?;
    hide WorkerNext, Mailbox;
    ReaderFrame(s, t);
    SlotFrame(s, t);
    hide ReaderOk, SlotsOk;
    CacheFrame(s, t);
  }

  lemma WorkerSelect(s: State, due: bool)
    requires Inv(s) && s.c1.Select?
    ensures Inv(WorkerNext(s, due))
  {
    var t := WorkerNext(s, due);
    ControlSelect(s, due);
    hide Ledger, StopOk;
    assert t == s.(c1 := t.c1) && (t.c1.StoreRecord? || t.c1 == FlushTest(LoadNext));
    hide WorkerNext, Mailbox;
    ReaderFrame(s, t);
    SlotFrame(s, t);
    hide ReaderOk, SlotsOk;
    CacheFrame(s, t);
  }

  /** No slot other than the written record's can hold its key. */
  lemma SlotsInvalidate(s: State, t: State)
    requires Sized(s) && Sized(t) && SlotsOk(s) && s.c1.Invalidate?
    requires t == s.(c1 := t.c1) && (t.c1.InvOdd? || t.c1.Select?)
    requires t.c1.InvOdd? <==> s.slots[s.port.writeLba % 8].key == Key(s.port.writeDrive, s.port.writeLba)
    ensures SlotsOk(t)
  {
    forall k | 0 <= k < 8
      ensures t.slots[k].sequence % 2 == 0 && !BeingRewritten(t, k) && SlotAtRest(t, k)
    {
      assert !BeingRewritten(s, k) && SlotAtRest(s, k);
    }
  }

  lemma WorkerInvalidate(s: State, due: bool)
    requires Inv(s) && s.c1.Invalidate?
    ensures Inv(WorkerNext(s, due))
  {
    var t := WorkerNext(s, due);
    ControlInvalidate(s, due);
    hide Ledger, StopOk, Mailbox;
    assert t == s.(c1 := t.c1) && (t.c1.InvOdd? || t.c1.Select?)
           && (t.c1.InvOdd? <==> s.slots[s.port.writeLba % 8].key == Key(s.port.writeDrive, s.port.writeLba));
    hide WorkerNext;
    SlotsInvalidate(s, t);
    ReaderFrame(s, t);
    hide SlotsOk, ReaderOk;
    CacheFrame(s, t);
  }

  lemma SlotsInvEven(s: State, t: State)
    requires Sized(s) && Sized(t) && SlotsOk(s) && s.c1.InvEven?
    requires t == s.(slots := BumpSlot(s, s.port.writeLba % 8), c1 := Select)
    ensures SlotsOk(t)
  {
    forall k | 0 <= k < 8
      ensures t.slots[k].sequence % 2 == 0 && !BeingRewritten(t, k) && SlotAtRest(t, k)
    {
      assert k != s.port.writeLba % 8 ==> !BeingRewritten(s, k) && SlotAtRest(s, k);
      assert k == s.port.writeLba % 8 ==> BeingRewritten(s, k);
    }
  }

  lemma WorkerInvEven(s: State, due: bool)
    requires Inv(s) && s.c1.InvEven?
    ensures Inv(WorkerNext(s, due))
  {
    var t := WorkerNext(s, due);
    ControlInvalidate(s, due);
    hide Ledger, StopOk, Mailbox;
    assert t == s.(slots := BumpSlot(s, s.port.writeLba % 8), c1 := Select);
    hide WorkerNext;
    SlotsInvEven(s, t);
    ReaderSlot(s, t, s.port.writeLba % 8);
    hide SlotsOk, ReaderOk;
    CacheFrame(s, t);
  }

  lemma WorkerInvOdd(s: State, due: bool)
    requires Inv(s) && s.c1.InvOdd?
    ensures Inv(WorkerNext(s, due))
  {
    var t := WorkerNext(s, due);
    ControlInvalidate(s, due);
    hide Ledger, StopOk;
    assert t == s.(slots := t.slots, c1 := t.c1);
    assert t.slots == BumpSlot(s, s.port.writeLba % 8) && t.c1.InvKey?;
    hide WorkerNext;
    CacheFrame(s, t);
    assert s.status == Busy && !s.c0.Reading();
    hide CacheOk, Mailbox;
    forall k | 0 <= k < 8
      ensures t.slots[k].sequence % 2 == 1 <==> BeingRewritten(t, k)
      ensures !BeingRewritten(t, k) ==> SlotAtRest(t, k)
    {
      assert !BeingRewritten(s, k) && SlotAtRest(s, k);
    }
  }

  lemma WorkerInvKey(s: State, due: bool)
    requires Inv(s) && s.c1.InvKey?
    ensures Inv(WorkerNext(s, due))
  {
    var t := WorkerNext(s, due);
    ControlInvalidate(s, due);
    hide Ledger, StopOk;
    assert t == s.(slots := t.slots, c1 := t.c1);
    CacheFrame(s, t);
    assert s.status == Busy && !s.c0.Reading();
    hide CacheOk, Mailbox;
  }

  lemma WorkerLoadData(s: State, due: bool)
    requires Inv(s) && s.c1.LoadData?
    ensures Inv(WorkerNext(s, due))
  {
    var t := WorkerNext(s, due);
    ControlSelect(s, due);
    hide Ledger, StopOk;
    SlotFrame(s, t);
    hide SlotsOk;
  }

  lemma WorkerLoadTag(s: State, due: bool)
    requires Inv(s) && s.c1.LoadTag?
    ensures Inv(WorkerNext(s, due))
  {
    var t := WorkerNext(s, due);
    ControlSelect(s, due);
    hide Ledger, StopOk;
    SlotFrame(s, t);
    hide SlotsOk;
  }

  lemma WorkerStoreRecord(s: State, due: bool)
    requires Inv(s) && s.c1.StoreRecord?
    ensures Inv(WorkerNext(s, due))
  {
    var t := WorkerNext(s, due);
    ControlStore(s, due);
    hide Ledger, StopOk;
    assert t == s.(cache := s.cache.(data := s.cache.data[WriteAddress(s) % 32 := s.record]), c1 := t.c1)
           && t.c1.AfterStore() && !t.c1.FlushClean?
           && (!t.c1.StoreDirty? ==> s.cache.data[WriteAddress(s) % 32] == s.record);
    hide WorkerNext;
    SlotFrame(s, t);
    ReaderFrame(s, t);
    hide SlotsOk, ReaderOk;
    forall a | 0 <= a < 16384
      ensures Backend(t.cache, t.flash, a) == Expected(t, a)
    {
      assert Backend(s.cache, s.flash, a) == Expected(s, a);
    }
    if !s.cache.dirty && !t.c1.StoreDirty? {
      forall a | 0 <= a < 16384
        ensures t.flash[a] == Expected(t, a)
      {
        assert s.flash[a] == Expected(s, a) && Backend(s.cache, s.flash, a) == Expected(s, a);
      }
    }
  }

  lemma WorkerStoreDirty(s: State, due: bool)
    requires Inv(s) && s.c1.StoreDirty?
    ensures Inv(WorkerNext(s, due))
  {
    var t := WorkerNext(s, due);
    ControlStore(s, due);
    hide Ledger, StopOk;
    SlotFrame(s, t);
    ReaderFrame(s, t);
    hide SlotsOk, ReaderOk;
    forall a | 0 <= a < 16384
      ensures Backend(t.cache, t.flash, a) == Expected(t, a)
    {
      assert Backend(s.cache, s.flash, a) == Expected(s, a);
    }
  }

  lemma WorkerFlushTest(s: State, due: bool)
    requires Inv(s) && s.c1.FlushTest?
    ensures Inv(WorkerNext(s, due))
  {
    var t := WorkerNext(s, due);
    ControlFlushTest(s, due);
    hide Ledger, StopOk;
    SlotFrame(s, t);
    ReaderFrame(s, t);
    hide SlotsOk, ReaderOk;
    forall a | 0 <= a < 16384
      ensures Backend(t.cache, t.flash, a) == Expected(t, a)
    {
      assert Backend(s.cache, s.flash, a) == Expected(s, a);
    }
  }

  lemma WorkerFlushWork(s: State, due: bool)
    requires Inv(s) && s.c1.FlushWork?
    ensures Inv(WorkerNext(s, due))
  {
    var t := WorkerNext(s, due);
    ControlFlushWork(s, due);
    hide Ledger, StopOk, Mailbox;
    assert t == s.(flash := WithBlock(s.flash, s.cache.block, s.cache.data), c1 := FlushClean(s.c1.goal));
    hide WorkerNext;
    SlotFrame(s, t);
    ReaderFrame(s, t);
    hide SlotsOk, ReaderOk;
    forall a | 0 <= a < 16384
      ensures Backend(t.cache, t.flash, a) == Expected(t, a)
    {
      assert Backend(s.cache, s.flash, a) == Expected(s, a);
    }
    forall a | 0 <= a < 16384
      ensures t.flash[a] == Expected(t, a)
    {
      assert Backend(s.cache, s.flash, a) == Expected(s, a);
    }
  }

  lemma WorkerFlushClean(s: State, due: bool)
    requires Inv(s) && s.c1.FlushClean?
    ensures Inv(WorkerNext(s, due))
  {
    var t := WorkerNext(s, due);
    ControlFlushClean(s, due);
    hide Ledger, StopOk;
    SlotFrame(s, t);
    ReaderFrame(s, t);
    hide SlotsOk, ReaderOk;
    forall a | 0 <= a < 16384
      ensures Backend(t.cache, t.flash, a) == Expected(t, a)
    {
      assert Backend(s.cache, s.flash, a) == Expected(s, a);
    }
    forall a | 0 <= a < 16384
      ensures t.flash[a] == Expected(t, a)
    {
      assert s.flash[a] == Expected(s, a);
    }
  }

  lemma WorkerClearPending(s: State, due: bool)
    requires Inv(s) && s.c1.ClearPending?
    ensures Inv(WorkerNext(s, due))
  {
    var t := WorkerNext(s, due);
    ControlClearPending(s, due);
    hide Ledger, StopOk;
    SlotFrame(s, t);
    ReaderFrame(s, t);
    hide SlotsOk, ReaderOk;
    forall a | 0 <= a < 16384
      ensures Backend(t.cache, t.flash, a) == Expected(t, a)
    {
      assert Backend(s.cache, s.flash, a) == Expected(s, a);
    }
  }

  /** The record joins the disk; no slot holds its key. */
  lemma PublishedDisk(s: State, t: State)
    requires Sized(s) && Sized(t) && CacheOk(s) && SlotsOk(s) && s.c1.PublishReady?
    requires t == s.(status := Ready, c1 := HintLoad, disk := t.disk, done := t.done)
    requires t.disk == (if IsWrite(s.command) then s.disk[WriteAddress(s) := s.record] else s.disk)
    requires IsWrite(s.command) ==> s.port.writeDrive < 4 && s.port.writeLba < 4096
    ensures CacheOk(t) && SlotsOk(t)
  {
    forall a | 0 <= a < 16384
      ensures Expected(t, a) == Expected(s, a)
    {
    }
    forall k | 0 <= k < 8
      ensures t.slots[k].sequence % 2 == 0 && !BeingRewritten(t, k) && SlotAtRest(t, k)
    {
      assert !BeingRewritten(s, k) && SlotAtRest(s, k);
    }
  }

  lemma WorkerPublishReady(s: State, due: bool)
    requires Inv(s) && s.c1.PublishReady?
    ensures Inv(WorkerNext(s, due))
  {
    var t := WorkerNext(s, due);
    ControlPublishReady(s, due);
    hide Ledger, StopOk;
    assert t == s.(status := Ready, c1 := HintLoad, disk := t.disk, done := t.done)
           && t.disk == (if IsWrite(s.command) then s.disk[WriteAddress(s) := s.record] else s.disk);
    assert s.status == Busy && !s.c0.Reading() && (IsWrite(s.command) ==> WriteTargetOk(s));
    hide WorkerNext, Mailbox;
    PublishedDisk(s, t);
    hide CacheOk, SlotsOk;
  }

  lemma HintMoves(s: State, due: bool)
    requires Control(s) && s.c1.HintLoad?
    ensures var t := WorkerNext(s, due); t == s.(c1 := t.c1) && (t.c1.Working? || (t.c1.Fill? && AheadOk(t.c1.a)))
  {
    hide Ledger, StopOk, Mailbox;
  }

  lemma WorkerHintLoad(s: State, due: bool)
    requires Inv(s) && s.c1.HintLoad?
    ensures Inv(WorkerNext(s, due))
  {
    var t := WorkerNext(s, due);
    ControlHint(s, due);
    HintMoves(s, due);
    hide Ledger, StopOk, WorkerNext, Mailbox, Shape;
    SlotFrame(s, t);
    ReaderFrame(s, t);
    hide SlotsOk, ReaderOk;
    CacheFrame(s, t);
    hide CacheOk;
  }

  /** One word of a publish. */
  function SlotCopied(slot: Slot, from: Record, i: nat): Slot
    requires i < 32
  {
    slot.(words := CopyWord(slot.words, from, i))
  }

  lemma SlotsPubOdd(s: State, t: State)
    requires Sized(s) && Sized(t) && SlotsOk(s) && s.c1.PubOdd?
    requires t == s.(slots := BumpSlot(s, s.c1.a.Next() % 8), c1 := PubKey(s.c1.a))
    ensures SlotsOk(t)
  {
    var j := s.c1.a.Next() % 8;
    forall k | 0 <= k < 8
      ensures t.slots[k].sequence % 2 == 1 <==> BeingRewritten(t, k)
      ensures !BeingRewritten(t, k) ==> SlotAtRest(t, k)
    {
      assert k != j ==> !BeingRewritten(s, k) && SlotAtRest(s, k);
    }
  }

  lemma WorkerPubOdd(s: State, due: bool)
    requires Inv(s) && s.c1.PubOdd?
    ensures Inv(WorkerNext(s, due))
  {
    var t := WorkerNext(s, due);
    ControlOdd(s, due);
    hide Ledger, StopOk, Mailbox;
    assert s.slots[s.c1.a.Next() % 8].sequence % 2 == 0;
    assert t == s.(slots := BumpSlot(s, s.c1.a.Next() % 8), c1 := PubKey(s.c1.a));
    hide WorkerNext;
    SlotsPubOdd(s, t);
    ReaderSlot(s, t, s.c1.a.Next() % 8);
    hide SlotsOk, ReaderOk;
    CacheFrame(s, t);
  }

  lemma SlotsPubKey(s: State, t: State)
    requires Sized(s) && Sized(t) && SlotsOk(s) && s.c1.PubKey?
    requires t == s.(slots := s.slots[s.c1.a.Next() % 8 := s.slots[s.c1.a.Next() % 8].(key := s.c1.a.Target())], c1 := PubWord(s.c1.a, 0))
    ensures SlotsOk(t)
  {
    var j := s.c1.a.Next() % 8;
    forall k | 0 <= k < 8
      ensures t.slots[k].sequence % 2 == 1 <==> BeingRewritten(t, k)
      ensures !BeingRewritten(t, k) ==> SlotAtRest(t, k)
    {
      assert k != j ==> !BeingRewritten(s, k) && SlotAtRest(s, k);
    }
  }

  lemma WorkerPubKey(s: State, due: bool)
    requires Inv(s) && s.c1.PubKey?
    ensures Inv(WorkerNext(s, due))
  {
    var t := WorkerNext(s, due);
    ControlPublish(s, due);
    hide Ledger, StopOk, Mailbox;
    assert s.slots[s.c1.a.Next() % 8].sequence % 2 == 1;
    assert t == s.(slots := s.slots[s.c1.a.Next() % 8 := s.slots[s.c1.a.Next() % 8].(key := s.c1.a.Target())], c1 := PubWord(s.c1.a, 0));
    hide WorkerNext;
    SlotsPubKey(s, t);
    ReaderSlot(s, t, s.c1.a.Next() % 8);
    hide SlotsOk, ReaderOk;
    CacheFrame(s, t);
  }

  lemma SlotsPubWord(s: State, t: State)
    requires Sized(s) && Sized(t) && SlotsOk(s) && s.c1.PubWord?
    requires t == s.(slots := s.slots[s.c1.a.Next() % 8 := SlotCopied(s.slots[s.c1.a.Next() % 8], s.buffer, s.c1.i)],
                   c1 := if s.c1.i == 31 then PubEven(s.c1.a) else PubWord(s.c1.a, s.c1.i + 1))
    ensures SlotsOk(t)
  {
    var j := s.c1.a.Next() % 8;
    forall k | 0 <= k < 8
      ensures t.slots[k].sequence % 2 == 1 <==> BeingRewritten(t, k)
      ensures !BeingRewritten(t, k) ==> SlotAtRest(t, k)
    {
      assert k != j ==> !BeingRewritten(s, k) && SlotAtRest(s, k);
    }
    CopyWordPrefix(s.slots[j].words, s.buffer, s.c1.i);
    hide CopyWord;
  }

  lemma WorkerPubWord(s: State, due: bool)
    requires Inv(s) && s.c1.PubWord?
    ensures Inv(WorkerNext(s, due))
  {
    var t := WorkerNext(s, due);
    ControlPublish(s, due);
    hide Ledger, StopOk, Mailbox;
    assert s.slots[s.c1.a.Next() % 8].sequence % 2 == 1;
    assert t == s.(slots := s.slots[s.c1.a.Next() % 8 := SlotCopied(s.slots[s.c1.a.Next() % 8], s.buffer, s.c1.i)],
                   c1 := if s.c1.i == 31 then PubEven(s.c1.a) else PubWord(s.c1.a, s.c1.i + 1));
    hide WorkerNext;
    SlotsPubWord(s, t);
    ReaderSlot(s, t, s.c1.a.Next() % 8);
    hide SlotsOk, ReaderOk;
    CacheFrame(s, t);
  }

  lemma SlotsPubEven(s: State, t: State)
    requires Sized(s) && Sized(t) && SlotsOk(s) && s.c1.PubEven?
    requires t == s.(slots := BumpSlot(s, s.c1.a.Next() % 8), published := s.published + [Publish(s.c1.a.Target(), s.buffer)],
                   c1 := Fill(s.c1.a.(n := s.c1.a.n + 1)))
    ensures SlotsOk(t)
  {
    var j := s.c1.a.Next() % 8;
    forall k | 0 <= k < 8
      ensures t.slots[k].sequence % 2 == 1 <==> BeingRewritten(t, k)
      ensures !BeingRewritten(t, k) ==> SlotAtRest(t, k)
    {
      assert k != j ==> !BeingRewritten(s, k) && SlotAtRest(s, k);
    }
  }

  lemma WorkerPubEven(s: State, due: bool)
    requires Inv(s) && s.c1.PubEven?
    ensures Inv(WorkerNext(s, due))
  {
    var t := WorkerNext(s, due);
    ControlPublished(s, due);
    hide Ledger, StopOk, Mailbox;
    assert s.slots[s.c1.a.Next() % 8].sequence % 2 == 1;
    assert t == s.(slots := BumpSlot(s, s.c1.a.Next() % 8), published := s.published + [Publish(s.c1.a.Target(), s.buffer)],
                   c1 := Fill(s.c1.a.(n := s.c1.a.n + 1)));
    hide WorkerNext;
    SlotsPubEven(s, t);
    ReaderSlot(s, t, s.c1.a.Next() % 8);
    hide SlotsOk, ReaderOk;
    CacheFrame(s, t);
  }

  /** Read-ahead fills its buffer with the disk's record. */
  lemma FillBuffer(s: State)
    requires Sized(s) && CacheOk(s) && s.c1.Fill? && s.c1.a.n <= 8 && s.c1.a.Next() < 4096
    ensures Backend(s.cache, s.flash, Address(s.c1.a.drive, s.c1.a.Next())) == s.disk[Address(s.c1.a.drive, s.c1.a.Next())]
  {
    var a := Address(s.c1.a.drive, s.c1.a.Next());
    assert Backend(s.cache, s.flash, a) == Expected(s, a);
  }

  lemma SlotsFill(s: State, t: State)
    requires Sized(s) && Sized(t) && SlotsOk(s) && CacheOk(s) && s.c1.Fill?
    requires t == s.(buffer := t.buffer, c1 := t.c1)
    requires t.c1.Working? || t.c1 == Fill(s.c1.a.(n := s.c1.a.n + 1)) || t.c1 == PubOdd(s.c1.a)
    requires t.c1.PubOdd? ==> s.c1.a.n <= 8 && s.c1.a.Next() < 4096
    requires t.c1.PubOdd? ==> t.buffer == Backend(s.cache, s.flash, Address(s.c1.a.drive, s.c1.a.Next()))
    ensures SlotsOk(t)
  {
    if t.c1.PubOdd? {
      FillBuffer(s);
    }
    hide CacheOk, Backend;
    forall k | 0 <= k < 8
      ensures !BeingRewritten(t, k) && t.slots[k].sequence % 2 == 0 && SlotAtRest(t, k)
    {
      assert !BeingRewritten(s, k) && SlotAtRest(s, k);
    }
  }

  lemma WorkerFill(s: State, due: bool)
    requires Inv(s) && s.c1.Fill?
    ensures Inv(WorkerNext(s, due))
  {
    var t := WorkerNext(s, due);
    ControlFill(s, due);
    hide Ledger, StopOk, Mailbox;
    SlotsFill(s, t);
    assert t == s.(buffer := t.buffer, c1 := t.c1) && (t.c1.Working? || t.c1.Fill? || t.c1.PubOdd?);
    hide WorkerNext, SlotsOk;
    ReaderFrame(s, t);
    hide ReaderOk;
    CacheFrame(s, t);
  }

  // ---------------------------------------------------------------- everything else

  lemma ControlIo(s: State, st: Step)
    requires Control(s) && Enabled(s, st) && (st.Z80? || st.Gate?)
    ensures Control(Apply(s, st))
  {
    hide WithBlock, AfterWrites, TrapNext, WorkerNext, StartIo, SupervisorNext;
  }

  lemma ControlWindow(s: State, st: Step)
    requires Control(s) && Enabled(s, st) && (st.EnterFlash? || st.LeaveWindow?)
    ensures Control(Apply(s, st))
  {
    hide WithBlock, AfterWrites, TrapNext, WorkerNext, StartIo, SupervisorNext;
  }

  lemma ControlScribble(s: State, st: Step)
    requires Control(s) && Enabled(s, st) && (st.Scribble?)
    ensures Control(Apply(s, st))
  {
    hide WithBlock, AfterWrites, TrapNext, WorkerNext, StartIo, SupervisorNext;
  }

  lemma ControlSupervisor(s: State, st: Step)
    requires Control(s) && Enabled(s, st) && (st.StopCommand? || st.SupervisorStep?)
    ensures Control(Apply(s, st))
  {
    hide AfterWrites, TrapNext, WorkerNext, StartIo;
  }

  lemma OtherIo(s: State, st: Step)
    requires Inv(s) && Enabled(s, st) && (st.Z80? || st.Gate?)
    ensures Inv(Apply(s, st))
  {
    var t := Apply(s, st);
    ControlIo(s, st);
    hide Control, TrapNext, WorkerNext, StartIo, SupervisorNext;
    StoreFrame(s, t);
    ReaderFrame(s, t);
  }

  lemma OtherWindow(s: State, st: Step)
    requires Inv(s) && Enabled(s, st) && (st.EnterFlash? || st.LeaveWindow?)
    ensures Inv(Apply(s, st))
  {
    var t := Apply(s, st);
    ControlWindow(s, st);
    hide Control, TrapNext, WorkerNext, StartIo, SupervisorNext;
    CacheFrame(s, t);
    SlotFrame(s, t);
    ReaderFrame(s, t);
  }

  /** A flush may leave anything in the sector it is rewriting. */
  lemma OtherScribble(s: State, st: Step)
    requires Inv(s) && Enabled(s, st) && st.Scribble?
    ensures Inv(Apply(s, st))
  {
    var t := Apply(s, st);
    ControlScribble(s, st);
    hide Mailbox, Ledger, StopOk, TrapNext, WorkerNext, StartIo, SupervisorNext;
    SlotFrame(s, t);
    ReaderFrame(s, t);
    hide SlotsOk, ReaderOk;
    forall a | 0 <= a < 16384
      ensures Backend(t.cache, t.flash, a) == Expected(t, a)
    {
      assert Backend(s.cache, s.flash, a) == Expected(s, a);
    }
  }

  lemma OtherSupervisor(s: State, st: Step)
    requires Inv(s) && Enabled(s, st) && (st.StopCommand? || st.SupervisorStep?)
    ensures Inv(Apply(s, st))
  {
    var t := Apply(s, st);
    ControlSupervisor(s, st);
    hide Control, TrapNext, WorkerNext, StartIo, StopNext;
    StoreFrame(s, t);
    ReaderFrame(s, t);
  }
}
