/** What core 1 and the supervisor get done: the records after the last one read are made
    ready in the slots, and every attempt to stop asks for exactly one flush. */
module DiskService {
  import opened Bytes
  import opened DiskSystem
  import opened DiskTheorems
  import DiskStop

  // ---------------------------------------------------------------- read-ahead

  /** The slot of the record m after a hint is marked as that record's. */
  predicate Marked(slots: seq<Slot>, drive: nat, lba: nat, m: nat)
    requires |slots| == 8
  {
    slots[(lba + m) % 8].key == Key(drive, lba + m)
  }

  predicate MarkedBelow(slots: seq<Slot>, a: Ahead, n: nat)
    requires |slots| == 8
  {
    forall m :: 1 <= m < n ==> Marked(slots, a.drive, a.lba, m)
  }

  predicate AllMarked(slots: seq<Slot>, drive: nat, lba: nat)
    requires |slots| == 8
  {
    forall m :: 1 <= m <= 8 && lba + m < 4096 ==> Marked(slots, drive, lba, m)
  }

  predicate Filling(c: Worker) { c.Fill? || c.PubOdd? || c.Publishing() }

  /** While the slots are being filled, those before the current one are marked. */
  predicate MarkedSoFar(s: State, drive: nat, lba: nat)
    requires |s.slots| == 8 && Filling(s.c1)
  {
    var a := s.c1.a;
    && a.drive == drive && a.lba == lba && 1 <= a.n && MarkedBelow(s.slots, a, a.n)
    && (if s.c1.Fill? then a.n <= 9 && a.lba + a.n <= 4096 else a.n <= 8 && a.lba + a.n < 4096)
    && (s.c1.PubWord? || s.c1.PubEven? ==> Marked(s.slots, drive, lba, a.n))
  }

  /** Rewriting one slot leaves the seven before it alone. */
  lemma OtherSlots(s: State, t: State, a: Ahead)
    requires |s.slots| == |t.slots| == 8 && 1 <= a.n <= 8 && MarkedBelow(s.slots, a, a.n)
    requires forall k :: 0 <= k < 8 && k != (a.lba + a.n) % 8 ==> t.slots[k].key == s.slots[k].key
    ensures MarkedBelow(t.slots, a, a.n)
  {
    forall m | 1 <= m < a.n
      ensures Marked(t.slots, a.drive, a.lba, m)
    {
      assert Marked(s.slots, a.drive, a.lba, m);
    }
  }

  /** One worker step of the filling. */
  lemma FillMarks(s: State, drive: nat, lba: nat, due: bool)
    requires Sized(s) && Filling(s.c1) && MarkedSoFar(s, drive, lba)
    ensures var t := WorkerNext(s, due);
            && |t.slots| == 8 && (Filling(t.c1) ==> MarkedSoFar(t, drive, lba))
            && (!Filling(t.c1) ==>
                  t.c1.Working? && AllMarked(t.slots, drive, lba))
  {
    hide Backend, CopyWord;
    var t, a := WorkerNext(s, due), s.c1.a;
    if s.c1.Fill? {
      NextOrDone(s, due);
    } else {
      PubMoves(s, due);
      OtherSlots(s, t, a);
      hide WorkerNext;
    }
  }

  lemma NextOrDone(s: State, due: bool)
    requires Sized(s) && s.c1.Fill? && s.c1.a.n >= 1
    ensures var t, a := WorkerNext(s, due), s.c1.a;
            && t.slots == s.slots
            && (if a.n > 8 || a.lba + a.n >= 4096 then t.c1.Working?
                else if Marked(s.slots, a.drive, a.lba, a.n) then t.c1 == Fill(a.(n := a.n + 1)) else t.c1 == PubOdd(a))
  {
    hide Backend;
  }

  lemma PubMoves(s: State, due: bool)
    requires Sized(s) && (s.c1.PubOdd? || s.c1.Publishing())
    ensures var t, a := WorkerNext(s, due), s.c1.a;
            var k := (a.lba + a.n) % 8;
            && |t.slots| == 8 && (forall j :: 0 <= j < 8 && j != k ==> t.slots[j].key == s.slots[j].key)
            && t.slots[k].key == (if s.c1.PubKey? then Key(a.drive, a.lba + a.n) else s.slots[k].key)
            && (if s.c1.PubEven? then t.c1 == Fill(a.(n := a.n + 1))
                else Filling(t.c1) && !t.c1.Fill? && t.c1.a == a
                     && (t.c1.PubWord? || t.c1.PubEven? ==> s.c1.PubKey? || s.c1.PubWord?))
  {
    hide Backend, CopyWord;
  }

  lemma OtherStep(s: State, st: Step)
    requires Sized(s) && Enabled(s, st) && !st.WorkerStep? && Filling(s.c1)
    ensures Apply(s, st).c1 == s.c1 && Apply(s, st).slots == s.slots
  {
    if st.TrapStep? {
      TrapSlots(s);
      DiskStop.TrapKeepsStop(s);
    }
    hide TrapNext, StartIo, SupervisorNext, WorkerNext, WithBlock;
  }

  lemma TrapSlots(s: State)
    requires Sized(s) && !s.c0.Idle?
    ensures TrapNext(s).slots == s.slots
  {
    hide CopyWord, InCache, ReadSlot, DispatchPort, DispatchTrap, DispatchStatus;
  }

  lemma StepMarks(s: State, st: Step, drive: nat, lba: nat)
    requires Sized(s) && Enabled(s, st) && Filling(s.c1) && MarkedSoFar(s, drive, lba)
    ensures var t := Apply(s, st);
            && |t.slots| == 8 && (Filling(t.c1) ==> MarkedSoFar(t, drive, lba))
            && (!Filling(t.c1) ==>
                  t.c1.Working? && AllMarked(t.slots, drive, lba))
  {
    hide WorkerNext, MarkedBelow, Marked;
    if st.WorkerStep? {
      FillMarks(s, drive, lba, st.due);
    } else {
      OtherStep(s, st);
      hide Apply;
    }
  }

  lemma HintStarts(s: State, st: Step)
    requires Sized(s) && Enabled(s, st) && s.c1.HintLoad? && Filling(Apply(s, st).c1)
    requires s.hint.Key? ==> s.hint.lba < 4096
    ensures s.hint.Key? && |Apply(s, st).slots| == 8 && MarkedSoFar(Apply(s, st), s.hint.drive, s.hint.lba)
  {
    if st.TrapStep? {
      TrapSlots(s);
      DiskStop.TrapKeepsStop(s);
    }
    hide TrapNext, StartIo, SupervisorNext, WithBlock;
  }

  /** Read-ahead, from the hint taken at step j to the end of the filling at step i: each
      of the next eight records of the drive that exists has its slot. */
  lemma {:induction false} ReadAhead(run: seq<State>, steps: seq<Step>, j: nat, i: nat)
    requires Trace(run, steps) && j < i < |steps| && run[j].c1.HintLoad?
    requires (forall k :: j < k <= i ==> Filling(run[k].c1)) && !Filling(run[i + 1].c1)
    ensures var hint, t := run[j].hint, run[i + 1];
            hint.Key? && t.c1.Working? && |t.slots| == 8 && AllMarked(t.slots, hint.drive, hint.lba)
  {
    MarkedWhile(run, steps, j, i);
    var hint := run[j].hint;
    assert Follows(run[i], steps[i], run[i + 1]);
    StepMarks(run[i], steps[i], hint.drive, hint.lba);
    hide AllMarked, MarkedSoFar, Enabled, Sized;
  }

  lemma {:induction false} MarkedWhile(run: seq<State>, steps: seq<Step>, j: nat, i: nat)
    requires Trace(run, steps) && j < i < |run| && run[j].c1.HintLoad? && forall k :: j < k <= i ==> Filling(run[k].c1)
    ensures run[j].hint.Key? && |run[i].slots| == 8 && MarkedSoFar(run[i], run[j].hint.drive, run[j].hint.lba)
    decreases i
  {
    hide MarkedSoFar, Apply, Enabled, Sized;
    assert Follows(run[i - 1], steps[i - 1], run[i]);
    if i == j + 1 {
      HintInRange(run, steps, j);
      HintStarts(run[j], steps[j]);
    } else {
      MarkedWhile(run, steps, j, i - 1);
      StepMarks(run[i - 1], steps[i - 1], run[j].hint.drive, run[j].hint.lba);
    }
  }

  lemma HintInRange(run: seq<State>, steps: seq<Step>, j: nat)
    requires Trace(run, steps) && j < |run|
    ensures run[j].hint.Key? ==> run[j].hint.lba < 4096
  {
    TraceInv(run, steps, j);
  }

  // ---------------------------------------------------------------- one flush an attempt

  /** An attempt to stop begins with the key, or when an earlier attempt has been undone. */
  predicate Begins(s: State, st: Step, t: State) {
    (st.StopCommand? && st.byKey) || (st.SupervisorStep? && s.stop.resuming && !t.stop.resuming)
  }

  /** The supervisor in its loop, core 1 neither paused nor being let go on. */
  predicate Attempting(s: State, st: Step) { st.SupervisorStep? && s.stop.pc.Loop? && !s.stop.resuming && !s.stop.paused }

  /** Whether the supervisor has been in its loop since the attempt began. */
  function Attempted(run: seq<State>, steps: seq<Step>, i: nat): bool
    requires i <= |steps| && |run| == |steps| + 1
  {
    if i == 0 then false
    else if Begins(run[i - 1], steps[i - 1], run[i]) then false
    else Attempted(run, steps, i - 1) || Attempting(run[i - 1], steps[i - 1])
  }

  lemma SubmittedStep(s: State, st: Step)
    requires Sized(s) && Enabled(s, st)
    ensures var t := Apply(s, st);
            t.stop.flushSubmitted <==> !Begins(s, st, t) && (s.stop.flushSubmitted || Attempting(s, st))
  {
    hide TrapNext, WorkerNext, StartTrap, StartPort, StartAnswer, WithBlock, SupervisorNext, Sized;
    match st
    case TrapStep => DiskStop.TrapKeepsStop(s);
    case WorkerStep(due) => WorkerSameTrap(s, due);
    case SupervisorStep => SupervisorSubmits(s);
    case _ =>
  }

  lemma SupervisorSubmits(s: State)
    ensures var p, q := s.stop, SupervisorNext(s).stop;
            q.flushSubmitted <==> !(p.resuming && !q.resuming) && (p.flushSubmitted || (p.pc.Loop? && !p.resuming && !p.paused))
  {
  }

  lemma {:induction false} SubmittedIs(run: seq<State>, steps: seq<Step>, i: nat)
    requires Trace(run, steps) && i < |run|
    ensures run[i].stop.flushSubmitted <==> Attempted(run, steps, i)
  {
    hide Apply, Enabled, Sized;
    if i > 0 {
      SubmittedIs(run, steps, i - 1);
      assert Follows(run[i - 1], steps[i - 1], run[i]);
      SubmittedStep(run[i - 1], steps[i - 1]);
    }
  }

  /** Each attempt asks core 1 for one flush, at the supervisor's first turn, and no
      other turn of the supervisor asks for any. */
  lemma FlushAsked(run: seq<State>, steps: seq<Step>, i: nat)
    requires Trace(run, steps) && i < |steps| && steps[i].SupervisorStep?
    ensures run[i + 1].supervisorFlush <==>
              run[i].supervisorFlush || (Attempting(run[i], steps[i]) && !Attempted(run, steps, i))
  {
    SubmittedIs(run, steps, i);
    assert Follows(run[i], steps[i], run[i + 1]);
    hide Attempted, Init;
  }
}
