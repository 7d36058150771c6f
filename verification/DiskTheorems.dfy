/** What holds in every run of the two-core disk, in every interleaving. */
module DiskTheorems {
  import opened Bytes
  import opened DiskSystem
  import opened DiskInvariant

  // ---------------------------------------------------------------- every step keeps the invariant

  lemma TrapKeeps(s: State)
    requires Inv(s) && !s.c0.Idle?
    ensures Inv(TrapNext(s))
  {
    hide TrapNext, Contents, Control;
    match s.c0
    case Command(_) => TrapCommand(s);
    case Dispatch(_) => TrapDispatch(s);
    case FetchByte => TrapFetchByte(s);
    case StoreByte(_) => TrapStoreByte(s);
    case TakeSequence => TrapTakeSequence(s);
    case TakeKey(_) => TrapTakeKey(s);
    case TakeWord(_, _) => TrapTakeWord(s);
    case TakeRecheck(_) => TrapTakeRecheck(s);
    case ReadSource => TrapReadSource(s);
    case ReadWord(_, _) => TrapReadWord(s);
    case PublishHint => TrapPublishHint(s);
    case PublishData => TrapPublishData(s);
    case MarkBusy(_) => TrapMarkBusy(s);
    case Post(_) => TrapPost(s);
  }

  lemma WorkerKeeps(s: State, due: bool)
    requires Inv(s) && !s.c1.Working?
    ensures Inv(WorkerNext(s, due))
  {
    hide WorkerNext, Contents, Control;
    match s.c1
    case Top => WorkerLoop(s, due);
    case PauseSeen => WorkerLoop(s, due);
    case Resume => WorkerLoop(s, due);
    case QuietStatus => WorkerQuiet(s, due);
    case QuietDirty => WorkerQuiet(s, due);
    case SetPaused => WorkerQuiet(s, due);
    case Poll => WorkerPoll(s, due);
    case Invalidate => WorkerInvalidate(s, due);
    case InvOdd => WorkerInvOdd(s, due);
    case InvKey => WorkerInvKey(s, due);
    case InvEven => WorkerInvEven(s, due);
    case Select => WorkerSelect(s, due);
    case LoadData => WorkerLoadData(s, due);
    case LoadTag => WorkerLoadTag(s, due);
    case StoreRecord => WorkerStoreRecord(s, due);
    case StoreDirty => WorkerStoreDirty(s, due);
    case FlushTest(_) => WorkerFlushTest(s, due);
    case FlushWork(_) => WorkerFlushWork(s, due);
    case FlushClean(_) => WorkerFlushClean(s, due);
    case ClearPending => WorkerClearPending(s, due);
    case PublishReady => WorkerPublishReady(s, due);
    case PollSupervisor => WorkerPollSupervisor(s, due);
    case ClearSupervisor => WorkerClearSupervisor(s, due);
    case PollIdle => WorkerPollIdle(s, due);
    case HintLoad => WorkerHintLoad(s, due);
    case Fill(_) => WorkerFill(s, due);
    case PubOdd(_) => WorkerPubOdd(s, due);
    case PubKey(_) => WorkerPubKey(s, due);
    case PubWord(_, _) => WorkerPubWord(s, due);
    case PubEven(_) => WorkerPubEven(s, due);
  }

  /** Every step that is enabled keeps the invariant, whichever core takes it. */
  lemma StepKeeps(s: State, st: Step)
    requires Inv(s) && Enabled(s, st)
    ensures Inv(Apply(s, st))
  {
    hide TrapNext, WorkerNext, StartIo, SupervisorNext, Contents, Control;
    match st
    case Z80(_) => OtherIo(s, st);
    case Gate(_) => OtherIo(s, st);
    case TrapStart => TrapStarts(s);
    case TrapStep => TrapKeeps(s);
    case WorkerStep(due) => WorkerKeeps(s, due);
    case Scribble(_) => OtherScribble(s, st);
    case EnterFlash => OtherWindow(s, st);
    case LeaveWindow(_) => OtherWindow(s, st);
    case StopCommand(_) => OtherSupervisor(s, st);
    case SupervisorStep => OtherSupervisor(s, st);
  }

  // ---------------------------------------------------------------- runs

  /** run[0] is a boot state and each state follows from the one before. */
  ghost predicate Trace(run: seq<State>, steps: seq<Step>) {
    && |run| == |steps| + 1 && Init(run[0])
    && forall i :: 0 <= i < |steps| ==> Follows(run[i], steps[i], run[i + 1])
  }

  /** A step from a sound state; TraceInv shows no reachable state is left out. */
  predicate Follows(s: State, st: Step, t: State) { Sized(s) && Enabled(s, st) && t == Apply(s, st) }

  lemma {:induction false} TraceInv(run: seq<State>, steps: seq<Step>, i: nat)
    requires Trace(run, steps) && i < |run|
    ensures Inv(run[i])
  {
    hide Inv, Apply, Enabled, Init, Sized;
    if i == 0 {
      InitInv(run[0]);
    } else {
      TraceInv(run, steps, i - 1);
      assert Follows(run[i - 1], steps[i - 1], run[i]);
      StepKeeps(run[i - 1], steps[i - 1]);
    }
  }

  /** What core 1 can never touch. */
  predicate SameTrap(s: State, t: State) {
    && t.boot == s.boot && t.c0 == s.c0 && t.record == s.record && t.port == s.port && t.writes == s.writes
    && t.readAddress == s.readAddress && (t.status == s.status || (t.status == Ready && s.c1.PublishReady?))
  }

  /** Of the stop handshake core 1 writes only the paused flag, and only in two places. */
  predicate PausesOnly(s: State, t: State) {
    t.stop == s.stop.(paused := if s.c1.SetPaused? then true else if s.c1.Resume? then false else s.stop.paused)
  }

  /** Core 1 clears the mailbox once, on its way to publishing READY. */
  predicate MailMoves(s: State, t: State) {
    && t.pending == (if s.c1.ClearPending? then 0 else s.pending)
    && (t.c1.PublishReady? <==> s.c1.ClearPending?) && (s.c1.ClearPending? ==> t.command == s.command)
    && (s.c1.PublishReady? ==> t.status == Ready)
  }

  lemma LoopSameTrap(s: State, due: bool)
    requires Sized(s) && (s.c1.Top? || s.c1.PauseSeen? || s.c1.Resume? || s.c1.QuietStatus? || s.c1.QuietDirty? || s.c1.SetPaused?)
    ensures SameTrap(s, WorkerNext(s, due)) && PausesOnly(s, WorkerNext(s, due)) && MailMoves(s, WorkerNext(s, due))
  {
    hide CopyWord, WithBlock, BlockOf, Backend, BumpSlot, InCache, AfterFlush, AfterRecord;
  }

  lemma PollSameTrap(s: State, due: bool)
    requires Sized(s) && (s.c1.PollSupervisor? || s.c1.PollIdle? || s.c1.ClearSupervisor? || s.c1.HintLoad?)
    ensures SameTrap(s, WorkerNext(s, due)) && PausesOnly(s, WorkerNext(s, due)) && MailMoves(s, WorkerNext(s, due))
  {
    hide CopyWord, WithBlock, BlockOf, Backend, BumpSlot, InCache, AfterFlush, AfterRecord;
  }

  lemma InvalidateSameTrap(s: State, due: bool)
    requires Sized(s) && (s.c1.Invalidate? || s.c1.InvOdd? || s.c1.InvKey? || s.c1.InvEven?)
    ensures SameTrap(s, WorkerNext(s, due)) && PausesOnly(s, WorkerNext(s, due)) && MailMoves(s, WorkerNext(s, due))
  {
    hide CopyWord, WithBlock, BlockOf, Backend, BumpSlot, InCache, AfterFlush, AfterRecord;
  }

  lemma WriteSameTrap(s: State, due: bool)
    requires Sized(s) && (s.c1.Select? || s.c1.LoadData? || s.c1.LoadTag? || s.c1.StoreRecord? || s.c1.StoreDirty? || s.c1.ClearPending?)
    ensures SameTrap(s, WorkerNext(s, due)) && PausesOnly(s, WorkerNext(s, due)) && MailMoves(s, WorkerNext(s, due))
  {
    hide CopyWord, WithBlock, BlockOf, Backend, BumpSlot, InCache;
  }

  lemma FlushSameTrap(s: State, due: bool)
    requires Sized(s) && (s.c1.FlushTest? || s.c1.FlushWork? || s.c1.FlushClean? || s.c1.PublishReady? || s.c1.Poll?)
    ensures SameTrap(s, WorkerNext(s, due)) && PausesOnly(s, WorkerNext(s, due)) && MailMoves(s, WorkerNext(s, due))
  {
    hide CopyWord, WithBlock, BlockOf, Backend, BumpSlot, InCache;
  }

  lemma FillSameTrap(s: State, due: bool)
    requires Sized(s) && (s.c1.Fill? || s.c1.PubOdd?)
    ensures SameTrap(s, WorkerNext(s, due)) && PausesOnly(s, WorkerNext(s, due)) && MailMoves(s, WorkerNext(s, due))
  {
    hide CopyWord, WithBlock, BlockOf, Backend, BumpSlot, InCache, AfterFlush, AfterRecord;
  }

  lemma PublishSameTrap(s: State, due: bool)
    requires Sized(s) && s.c1.Publishing()
    ensures SameTrap(s, WorkerNext(s, due)) && PausesOnly(s, WorkerNext(s, due)) && MailMoves(s, WorkerNext(s, due))
  {
    hide CopyWord, WithBlock, BlockOf, Backend, BumpSlot, InCache, AfterFlush, AfterRecord;
  }

  lemma WorkerSameTrap(s: State, due: bool)
    requires Sized(s) && !s.c1.Working?
    ensures SameTrap(s, WorkerNext(s, due)) && PausesOnly(s, WorkerNext(s, due)) && MailMoves(s, WorkerNext(s, due))
  {
    hide WorkerNext, SameTrap, PausesOnly, MailMoves, Sized;
    if s.c1.Top? || s.c1.PauseSeen? || s.c1.Resume? || s.c1.QuietStatus? || s.c1.QuietDirty? || s.c1.SetPaused? {
      LoopSameTrap(s, due);
    } else if s.c1.PollSupervisor? || s.c1.PollIdle? || s.c1.ClearSupervisor? || s.c1.HintLoad? {
      PollSameTrap(s, due);
    } else if s.c1.Invalidate? || s.c1.InvOdd? || s.c1.InvKey? || s.c1.InvEven? {
      InvalidateSameTrap(s, due);
    } else if s.c1.Fill? || s.c1.PubOdd? {
      FillSameTrap(s, due);
    } else if s.c1.Publishing() {
      PublishSameTrap(s, due);
    } else if s.c1.FlushTest? || s.c1.FlushWork? || s.c1.FlushClean? || s.c1.PublishReady? || s.c1.Poll? {
      FlushSameTrap(s, due);
    } else {
      WriteSameTrap(s, due);
    }
  }

  lemma TrapBoot(s: State)
    requires Sized(s) && !s.c0.Idle?
    ensures TrapNext(s).boot == s.boot
  {
    hide CopyWord, InCache, ReadSlot, DispatchPort, DispatchTrap, DispatchStatus;
    if s.c0.Reading() {
    } else if s.c0.Command? || s.c0.Dispatch? {
    }
  }

  lemma BootKept(s: State, st: Step)
    requires Sized(s) && Enabled(s, st)
    ensures Apply(s, st).boot == s.boot
  {
    hide TrapNext, WorkerNext;
    if st.TrapStep? {
      TrapBoot(s);
    } else if st.WorkerStep? {
      WorkerSameTrap(s, st.due);
    }
  }

  lemma {:induction false} TraceBoot(run: seq<State>, steps: seq<Step>, i: nat)
    requires Trace(run, steps) && i < |run|
    ensures run[i].boot == run[0].flash
  {
    if i == 0 {
      hide Follows;
    } else {
      hide Apply, Enabled, Init, Sized;
      TraceBoot(run, steps, i - 1);
      assert Follows(run[i - 1], steps[i - 1], run[i]);
      BootKept(run[i - 1], steps[i - 1]);
    }
  }

  // ---------------------------------------------------------------- seqlock

  /** Seqlock soundness: a copy that passes its recheck is, word for word, one single
      publish of exactly the key asked for, and that publish is still current. */
  lemma SeqlockSound(run: seq<State>, steps: seq<Step>, i: nat)
    requires Trace(run, steps) && i < |steps| && steps[i].TrapStep?
    requires run[i].c0.TakeRecheck? && run[i + 1].c0.PublishHint?
    ensures run[i + 1].record == run[i].record
    ensures Publish(Key(run[i].port.drive, run[i].port.lba), run[i].record) in run[i].published
    ensures ReadAddress(run[i]) < |run[i].disk| && run[i].record == run[i].disk[ReadAddress(run[i])]
  {
    TraceInv(run, steps, i);
    assert Follows(run[i], steps[i], run[i + 1]);
    RecheckPasses(run[i]);
    hide Inv, Init;
  }

  lemma RecheckPasses(s: State)
    requires Inv(s) && s.c0.TakeRecheck? && ReadSlot(s).sequence == s.c0.q
    ensures Publish(Key(s.port.drive, s.port.lba), s.record) in s.published
    ensures ReadAddress(s) < |s.disk| && s.record == s.disk[ReadAddress(s)]
  {
    hide CacheOk, StopOk, Ledger;
    assert SlotAtRest(s, s.port.lba % 8);
  }

  // ---------------------------------------------------------------- mailbox ownership

  /** Core 1 owns the record and the write address: a command is posted or being finished. */
  predicate WorkerOwns(s: State) { s.pending != 0 || s.c1.PublishReady? }

  /** Mailbox ownership, in every reachable state. */
  lemma MailboxOwnership(run: seq<State>, steps: seq<Step>, i: nat)
    requires Trace(run, steps) && i < |run|
    ensures var s := run[i];
            && (WorkerOwns(s) ==> s.status == Busy)
            && ((s.status == DataReady || s.status == DataRoom) && s.c0.Idle? ==> s.port.index < 128)
            && (s.pending == 0 || s.pending == 5 || IsWrite(s.pending))
            && |s.writes| == s.done + (if InFlight(s) then 1 else 0)
            && s.disk == AfterWrites(run[0].flash, s.writes[..s.done])
  {
    TraceInv(run, steps, i);
    TraceBoot(run, steps, i);
    hide Contents, Shape, StopOk, AfterWrites, Init, Follows;
  }

  /** While core 1 owns the record, nothing core 0 does changes it or its address. */
  lemma CoreZeroLeavesRecord(s: State, st: Step)
    requires Inv(s) && Enabled(s, st) && WorkerOwns(s) && !st.WorkerStep?
    ensures Apply(s, st).record == s.record && WriteAddress(Apply(s, st)) == WriteAddress(s)
    ensures Apply(s, st).port.writeCommand == s.port.writeCommand
  {
    hide Contents, Ledger, StopOk, WorkerNext;
    if st.TrapStart? {
      StartPortOk(s, s.fifo[0]);
      hide StartPort, StartTrap;
    }
    if st.TrapStep? {
      assert s.c0.Command?;
    }
  }

  lemma PublishesClean(s: State, t: State, due: bool)
    requires Inv(s) && s.c1.PublishReady? && (s.command == 3 || s.command == 5) && t == WorkerNext(s, due)
    ensures t.status == Ready && t.pending == 0 && !t.cache.dirty && t.c1.HintLoad?
  {
    hide Contents, Ledger, StopOk, AfterWrites;
  }

  /** With no write under way, a clean cache means that flash is the whole disk. */
  lemma CleanIsDurable(s: State)
    requires Inv(s) && !s.cache.dirty && s.pending == 0 && s.c1.HintLoad?
    ensures s.done == |s.writes| && s.flash == AfterWrites(s.boot, s.writes)
  {
    hide SlotsOk, ReaderOk, StopOk, Mailbox, AfterWrites;
    assert s.writes[..|s.writes|] == s.writes;
    assert forall a :: 0 <= a < 16384 ==> s.flash[a] == Expected(s, a) == s.disk[a];
    assert s.flash == s.disk;
  }
}
