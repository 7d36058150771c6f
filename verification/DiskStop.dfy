/** The stop handshake under repeated stop commands, typed or from the boot timeout: it
    never holds the CPU too early (DiskPort.CleanStop), but a stop command given while
    an earlier one is resuming can leave both cores waiting for each other for ever. */
module DiskStop {
  import opened Bytes
  import opened DiskSystem
  import opened DiskInvariant
  import opened DiskTheorems

  /** Core 1 keeps waiting for the pause to be lifted, the supervisor for the pause to end. */
  predicate Wedged(s: State) {
    s.stop.resuming && s.stop.paused && s.stop.pauseRequest && s.stop.pc.Loop? && s.c1.Outside()
  }

  lemma WedgeKept(s: State, st: Step)
    requires Sized(s) && Enabled(s, st) && Wedged(s)
    ensures Wedged(Apply(s, st))
  {
    hide CopyWord, WithBlock, BlockOf, Backend, BumpSlot, InCache, DispatchPort, DispatchTrap, DispatchStatus, StartPort, StartTrap;
    if st.TrapStep? {
      TrapKeepsStop(s);
      hide TrapNext;
    }
  }

  lemma TrapKeepsStop(s: State)
    requires Sized(s) && !s.c0.Idle?
    ensures TrapNext(s).stop == s.stop && TrapNext(s).c1 == s.c1
  {
    hide CopyWord, InCache, ReadSlot, DispatchPort, DispatchTrap, DispatchStatus;
  }

  /** Once wedged, no continuation ever holds the CPU. */
  lemma {:induction false} WedgedNeverHolds(run: seq<State>, steps: seq<Step>, i: nat, j: nat)
    requires Trace(run, steps) && i <= j < |run| && Wedged(run[i])
    ensures Wedged(run[j]) && !run[j].stop.pc.Held?
  {
    hide Init, Sized, Enabled, Apply;
    if i < j {
      WedgedNeverHolds(run, steps, i, j - 1);
      assert Follows(run[j - 1], steps[j - 1], run[j]);
      WedgeKept(run[j - 1], steps[j - 1]);
    }
  }

  // ---------------------------------------------------------------- only a second stop wedges

  /** A pause requested while still resuming from the last one. */
  predicate Crossed(s: State) {
    s.stop.resuming && s.stop.pauseRequest && !s.stop.pc.PauseOff?
  }

  lemma CrossedBySecondStop(s: State, st: Step)
    requires Inv(s) && Enabled(s, st)
    ensures Crossed(Apply(s, st)) ==> Crossed(s) || (st.StopCommand? && s.stop.resuming)
  {
    assert Sized(s);
    hide Contents, Shape, Mailbox, Ledger, CopyWord, WithBlock, StartPort, StartTrap, TrapNext, WorkerNext;
    if st.TrapStep? {
      TrapKeepsStop(s);
    } else if st.WorkerStep? {
      WorkerSameTrap(s, st.due);
    }
  }

  lemma BootIsNotCrossed(s: State)
    requires Init(s)
    ensures !Crossed(s)
  {
  }

  lemma {:induction false} CrossedNeedsSecondStop(run: seq<State>, steps: seq<Step>, i: nat) returns (j: nat)
    requires Trace(run, steps) && i < |run| && Crossed(run[i])
    ensures j < i && steps[j].StopCommand? && run[j].stop.resuming
  {
    hide Init, Sized, Enabled, Apply, Crossed, Inv;
    BootIsNotCrossed(run[0]);
    assert i > 0 && Follows(run[i - 1], steps[i - 1], run[i]);
    if Crossed(run[i - 1]) {
      j := CrossedNeedsSecondStop(run, steps, i - 1);
    } else {
      TraceInv(run, steps, i - 1);
      CrossedBySecondStop(run[i - 1], steps[i - 1]);
      j := i - 1;
    }
  }

  /** A run is wedged only if some stop command was given while resuming. */
  lemma WedgeNeedsSecondStop(run: seq<State>, steps: seq<Step>, i: nat) returns (j: nat)
    requires Trace(run, steps) && i < |run| && Wedged(run[i])
    ensures j < i && steps[j].StopCommand? && run[j].stop.resuming
  {
    hide Init, Follows;
    assert Crossed(run[i]);
    j := CrossedNeedsSecondStop(run, steps, i);
  }

  // ---------------------------------------------------------------- exactly when

  /** The steps that wedge the board: a stop command while resuming from a pause that core
      1 has not left, or core 1 pausing while such a command is outstanding. */
  predicate Wedges(s: State, st: Step) {
    || (st.StopCommand? && s.stop.resuming && s.stop.paused && s.stop.pc.Loop? && s.c1.Outside())
    || (st.WorkerStep? && s.c1.SetPaused? && Crossed(s) && s.stop.pc.Loop?)
  }

  lemma WorkerWedges(s: State, due: bool)
    requires Inv(s) && !s.c1.Working? && !Wedged(s)
    ensures Wedged(WorkerNext(s, due)) <==> Wedges(s, WorkerStep(due))
  {
    WorkerSameTrap(s, due);
    if s.c1.Top? || s.c1.PauseSeen? || s.c1.Resume? || s.c1.SetPaused? {
      hide Contents, Shape, Mailbox, Ledger;
    } else {
      assert InWindow(s) && !s.stop.paused;
      hide WorkerNext, Contents, Shape, Mailbox, Ledger;
    }
  }

  lemma SupervisorWedges(s: State, st: Step)
    requires Inv(s) && Enabled(s, st) && !Wedged(s) && (st.StopCommand? || st.SupervisorStep?)
    ensures Wedged(Apply(s, st)) <==> Wedges(s, st)
  {
    hide Contents, Shape, Mailbox, Ledger, TrapNext, WorkerNext, StartIo;
  }

  lemma OtherWedges(s: State, st: Step)
    requires Inv(s) && Enabled(s, st) && !Wedged(s)
    requires !st.StopCommand? && !st.SupervisorStep? && !st.WorkerStep?
    ensures !Wedged(Apply(s, st))
  {
    if st.TrapStep? {
      TrapKeepsStop(s);
    }
    hide Contents, Shape, Mailbox, Ledger, TrapNext, WorkerNext, StartPort, StartTrap, SupervisorNext, WithBlock;
  }

  /** A step wedges the board exactly when it is one of those. */
  lemma WedgeStepIff(s: State, st: Step)
    requires Inv(s) && Enabled(s, st) && !Wedged(s)
    ensures Wedged(Apply(s, st)) <==> Wedges(s, st)
  {
    assert Sized(s);
    hide Inv, TrapNext, WorkerNext, StartIo, SupervisorNext, Wedged;
    if st.WorkerStep? {
      WorkerWedges(s, st.due);
    } else if st.StopCommand? || st.SupervisorStep? {
      SupervisorWedges(s, st);
    } else {
      OtherWedges(s, st);
    }
  }

  lemma BootIsNotWedged(s: State)
    requires Init(s)
    ensures !Wedged(s)
  {
  }

  /** In every run: the board is wedged exactly if some earlier step wedged it. */
  lemma {:induction false} WedgedIff(run: seq<State>, steps: seq<Step>, i: nat)
    requires Trace(run, steps) && i < |run|
    ensures Wedged(run[i]) <==> exists j :: 0 <= j < i && Wedges(run[j], steps[j])
  {
    hide Init, Sized, Enabled, Apply, Wedged, Wedges, Inv;
    if i == 0 {
      BootIsNotWedged(run[0]);
    } else {
      var n := i - 1;
      WedgedIff(run, steps, n);
      TraceInv(run, steps, n);
      assert Follows(run[n], steps[n], run[i]);
      if Wedged(run[n]) {
        WedgeKept(run[n], steps[n]);
      } else {
        WedgeStepIff(run[n], steps[n]);
      }
    }
  }

  // ---------------------------------------------------------------- and it can happen

  ghost predicate Reachable(s: State) {
    exists run, steps :: Trace(run, steps) && run[|steps|] == s
  }

  lemma ReachStep(s: State, st: Step)
    requires Reachable(s) && Sized(s) && Enabled(s, st)
    ensures Reachable(Apply(s, st))
  {
    hide Init, Sized, Enabled, Apply;
    var run, steps :| Trace(run, steps) && run[|steps|] == s;
    var run', steps' := run + [Apply(s, st)], steps + [st];
    forall i | 0 <= i < |steps'|
      ensures Follows(run'[i], steps'[i], run'[i + 1])
    {
      assert i < |steps| ==> Follows(run[i], steps[i], run[i + 1]);
    }
    assert Trace(run', steps') && run'[|steps'|] == Apply(s, st);
  }

  /** A fresh boot after one stop command, core 1 about to look at its services. */
  function Stopping(s: State, c1: Worker, paused: bool): State {
    s.(enabled := true, command := 0, draining := true, c1 := c1,
       stop := Stop(true, false, false, true, paused, false, Loop))
  }

  lemma AskedToPause(s: State) returns (t: State)
    requires Init(s)
    ensures Reachable(t) && t == s.(enabled := true, stop := Stop(true, false, false, true, false, false, Loop))
  {
    hide TrapNext, SupervisorNext, StartIo, Reachable, BumpSlot, WorkerNext;
    BootReachable(s);
    t := Then(s, Gate(true));
    t := Then(t, StopCommand(true));
  }

  lemma StoppingReachable(s: State)
    requires Init(s)
    ensures Reachable(Stopping(s, PollSupervisor, false))
  {
    hide TrapNext, SupervisorNext, StartIo, Reachable, BumpSlot;
    var t := AskedToPause(s);
    t := ThenWorker(t);
    t := ThenWorker(t);
    assert t == s.(enabled := true, draining := true, c1 := Working, stop := t.stop);
    t := ThenEnter(t);
    t := ThenWorker(t);
    assert t == Stopping(s, PollSupervisor, false);
  }

  lemma FlashServiceEnds(s: State)
    requires Init(s) && Reachable(Stopping(s, PollSupervisor, false))
    ensures Reachable(Stopping(s, Working, false))
  {
    hide TrapNext, SupervisorNext, StartIo, Reachable, BumpSlot;
    var t := ThenWorker(Stopping(s, PollSupervisor, false));
    t := ThenWorker(t);
    t := ThenWorker(t);
    assert t == Stopping(s, Working, false);
  }

  lemma LooksQuiet(s: State)
    requires Init(s)
    ensures Reachable(Stopping(s, QuietStatus, false))
  {
    StoppingReachable(s);
    FlashServiceEnds(s);
    hide TrapNext, WorkerNext, SupervisorNext, StartIo, Reachable, BumpSlot;
    var t := Then(Stopping(s, Working, false), LeaveWindow(true));
    assert t == Stopping(s, QuietStatus, false);
  }

  lemma PausedReachable(s: State)
    requires Init(s)
    ensures Reachable(Stopping(s, Top, true))
  {
    LooksQuiet(s);
    hide TrapNext, SupervisorNext, StartIo, Reachable, BumpSlot;
    var t := Stopping(s, QuietStatus, false);
    t := ThenWorker(t);
    t := ThenWorker(t);
    t := ThenWorker(t);
    assert t == Stopping(s, Top, true);
  }

  const FLUSH := Out(0x10, 5)

  /** The paused board once the Z80 has issued a flush command. */
  function Asked(s: State, fifo: seq<Io>, c0: Trap, pc: Sup): State {
    var p := Stopping(s, Top, true);
    p.(fifo := fifo, issued := s.issued + [FLUSH], started := if fifo == [] then s.started + [FLUSH] else s.started,
       c0 := c0, stop := p.stop.(pc := pc, parked := !pc.Loop?))
  }

  lemma ParkedReachable(s: State)
    requires Init(s)
    ensures Reachable(Asked(s, [FLUSH], Idle, Draining))
  {
    PausedReachable(s);
    hide WorkerNext, TrapNext, StartIo, Reachable;
    var t := Then(Stopping(s, Top, true), Z80(FLUSH));
    t := ThenSupervisor(t);
    t := ThenSupervisor(t);
    assert t == Asked(s, [FLUSH], Idle, Draining);
  }

  lemma DrainReachable(s: State)
    requires Init(s)
    ensures Reachable(Asked(s, [], Dispatch(5), Draining))
  {
    ParkedReachable(s);
    hide WorkerNext, SupervisorNext, Reachable, DispatchPort, DispatchTrap, DispatchStatus, CopyWord, InCache;
    var t := Then(Asked(s, [FLUSH], Idle, Draining), TrapStart);
    assert t == Asked(s, [], Command(5), Draining);
    t := ThenTrap(t);
    assert t == Asked(s, [], Dispatch(5), Draining);
  }

  lemma PostedReachable(s: State)
    requires Init(s)
    ensures Reachable(Asked(s, [], Idle, Draining).(status := Busy, pending := 5))
  {
    DrainReachable(s);
    hide WorkerNext, SupervisorNext, Reachable, CopyWord, InCache;
    var t := ThenTrap(Asked(s, [], Dispatch(5), Draining));
    assert t == Asked(s, [], MarkBusy(5), Draining);
    t := ThenTrap(t);
    t := ThenTrap(t);
    assert t == Asked(s, [], Idle, Draining).(status := Busy, pending := 5);
  }

  /** From every boot state, one stop command, one flush command from the Z80 and a
      second stop command can wedge the board. */
  lemma WedgeReachable(s: State) returns (t: State)
    requires Init(s)
    ensures Reachable(t) && Wedged(t)
  {
    PostedReachable(s);
    hide WorkerNext, TrapNext, StartIo, Reachable;
    t := ThenSupervisor(Asked(s, [], Idle, Draining).(status := Busy, pending := 5));
    t := ThenSupervisor(t);
    t := ThenSupervisor(t);
    assert t.stop.pc == Release;
    t := ThenSupervisor(t);
    t := ThenSupervisor(t);
    t := Then(t, StopCommand(true));
  }

  lemma BootReachable(s: State)
    requires Init(s)
    ensures Reachable(s)
  {
    hide Init;
    var steps: seq<Step> := [];
    assert Trace([s], steps) && [s][|steps|] == s;
  }

  /** One more step of a reachable run. */
  lemma Then(s: State, st: Step) returns (t: State)
    requires Reachable(s) && Sized(s) && Enabled(s, st)
    ensures t == Apply(s, st) && Reachable(t)
  {
    t := Apply(s, st);
    ReachStep(s, st);
  }

  lemma ThenEnter(s: State) returns (t: State)
    requires Reachable(s) && Sized(s) && s.c1.Working?
    ensures t == s.(c1 := Poll) && Reachable(t)
  {
    hide WorkerNext, Reachable;
    t := Then(s, EnterFlash);
  }

  lemma ThenWorker(s: State) returns (t: State)
    requires Reachable(s) && Sized(s) && !s.c1.Working?
    ensures t == WorkerNext(s, false) && Reachable(t)
  {
    hide WorkerNext, Reachable;
    t := Then(s, WorkerStep(false));
  }

  lemma ThenTrap(s: State) returns (t: State)
    requires Reachable(s) && Sized(s) && !s.c0.Idle?
    ensures t == TrapNext(s) && Reachable(t)
  {
    hide TrapNext, Reachable;
    t := Then(s, TrapStep);
  }

  lemma ThenSupervisor(s: State) returns (t: State)
    requires Reachable(s) && Sized(s) && s.c0.Idle? && !s.stop.pc.Held? && s.stop.requested
    ensures t == SupervisorNext(s) && Reachable(t)
  {
    hide SupervisorNext, Reachable;
    t := Then(s, SupervisorStep);
  }
}
