/** Replay is an ordered redo that power cuts cannot disturb. */
module Recovery {
  import opened Bytes
  import opened Flash
  import opened Journal

  /** Replaying g gives the same disk as replaying f, and g is as replayable as f. */
  ghost predicate KeepsRedo(crc: Crc, f: Image, g: Image) {
    && RedoDisk(crc, g) == RedoDisk(crc, f)
    && DistinctSequences(crc, g)
    && DataMatches(crc, g)
    && NoForgedHeader(crc, f, g)
    && (forall p :: 0 <= p < 8 ==> DataOf(g, p) == DataOf(f, p))
    && (forall i :: 0 <= i < 0x1D0 || 0x1E0 <= i < 0x200 ==> g[i] == f[i])
  }

  lemma BlankIsNoHeader(crc: Crc)
    ensures !HeaderValid(crc, BLANK)
  {
    var b := BLANK[0..4];
    assert b[0] == 0xFF && b[1] == 0xFF && b[2] == 0xFF && b[3] == 0xFF;
  }

  lemma {:induction false} NewestSame(crc: Crc, f: Image, g: Image, i: nat, n: nat)
    requires n <= 8
    requires forall p :: 0 <= p < 8 ==> Live(crc, f, p) == Live(crc, g, p)
    requires forall p :: 0 <= p < 8 && Live(crc, f, p) ==> HeaderOf(f, p) == HeaderOf(g, p)
    ensures Newest(crc, f, i, n) == Newest(crc, g, i, n)
  {
    if n > 0 {
      hide Live, HeaderOf;
      NewestSame(crc, f, g, i, n - 1);
      assert Live(crc, f, n - 1) ==> HeaderOf(f, n - 1) == HeaderOf(g, n - 1);
    }
  }

  ghost predicate Oldest(crc: Crc, f: Image, p: nat) {
    && Live(crc, f, p)
    && forall q :: Live(crc, f, q) ==> HeaderOf(f, p).sequence <= HeaderOf(f, q).sequence
  }

  /** While the header stands, the target sector's contents do not matter. */
  lemma TargetMayBeTorn(crc: Crc, f: Image, p: nat, g: Image)
    requires DistinctSequences(crc, f) && DataMatches(crc, f) && Live(crc, f, p)
    requires forall i :: 0 <= i < 1024 && i != TargetOf(f, p) ==> g[i] == f[i]
    ensures KeepsRedo(crc, f, g)
  {
    LiveTargetIsDisk(crc, f, p);
    hide HeaderValid, ReadHeader;
    forall q | 0 <= q < 8
      ensures g[HeaderSector(q)] == f[HeaderSector(q)] && DataOf(g, q) == DataOf(f, q)
    {
    }
    forall i | 0 <= i < 512
      ensures RedoDisk(crc, g)[i] == RedoDisk(crc, f)[i]
    {
      NewestSame(crc, f, g, 0x200 + i, 8);
    }
  }

  /** Once the target is rewritten, the oldest header may go, or may linger. */
  lemma HeaderMayBeTorn(crc: Crc, f: Image, p: nat, g: Image)
    requires DistinctSequences(crc, f) && DataMatches(crc, f) && Oldest(crc, f, p)
    requires forall i :: 0 <= i < 1024 && i != TargetOf(f, p) && i != HeaderSector(p) ==> g[i] == f[i]
    requires g[TargetOf(f, p)] == DataOf(f, p)
    requires NoForgedHeader(crc, f, g)
    ensures KeepsRedo(crc, f, g)
  {
    LiveTargetIsDisk(crc, f, p);
    hide HeaderValid, ReadHeader;
    forall q | 0 <= q < 8
      ensures q != p ==> g[HeaderSector(q)] == f[HeaderSector(q)]
      ensures DataOf(g, q) == DataOf(f, q)
    {
    }
    forall i | 0 <= i < 512
      ensures RedoDisk(crc, g)[i] == RedoDisk(crc, f)[i]
    {
      var s := 0x200 + i;
      var r := Newest(crc, f, s, 8);
      if Live(crc, g, p) {
        NewestSame(crc, f, g, s, 8);
      } else if r >= 0 && r != p {
        NewestIsUnique(crc, g, s, r);
      } else {
        assert Newest(crc, g, s, 8) == -1;
      }
    }
  }

  lemma RestorePrefix(f: Image, p: nat, t: nat, data: Sector)
    requires p < 8 && IsDisk(t)
    ensures var ops := RestoreOps(p, t, data);
            && Run(f, ops[..0]) == f
            && Run(f, ops[..1]) == Apply(f, ops[0])
            && Run(f, ops[..2]) == f[t := data]
            && Run(f, ops[..3]) == f[t := data][HeaderSector(p) := BLANK]
  {
    var ops := RestoreOps(p, t, data);
    var f1 := Apply(f, ops[0]);
    assert f1 == f[t := BLANK];
    ProgramErased(BLANK, 0, data);
    var f2 := Apply(f1, ops[1]);
    assert BLANK[..0] + data + BLANK[0 + |data|..] == data;
    assert f2 == f[t := data];
    var f3 := Apply(f2, ops[2]);
    assert f3 == f[t := data][HeaderSector(p) := BLANK];
    RunPrefixes(f, ops);
    assert Run(f, ops[..0 + 1]) == f1 && Run(f, ops[..1 + 1]) == f2 && Run(f, ops[..2 + 1]) == f3;
  }

  /** Every cut of restoring the oldest pair keeps what replay will produce. */
  lemma RestoreCut(crc: Crc, f: Image, p: nat, k: nat, g: Image)
    requires DistinctSequences(crc, f) && DataMatches(crc, f) && Oldest(crc, f, p)
    requires IsDisk(TargetOf(f, p))
    requires CutAt(crc, f, RestoreOps(p, TargetOf(f, p), DataOf(f, p)), k, g)
    ensures KeepsRedo(crc, f, g)
  {
    var t := TargetOf(f, p);
    RestorePrefix(f, p, t, DataOf(f, p));
    if k == 3 || (k == 2 && g != f[t := DataOf(f, p)]) {
      BlankIsNoHeader(crc);
      HeaderMayBeTorn(crc, f, p, g);
    } else {
      TargetMayBeTorn(crc, f, p, g);
    }
  }

  lemma {:induction false} SelectSame(a: seq<Header>, b: seq<Header>, valid: seq<bool>, n: nat)
    requires |a| == |b| == |valid| == 8 && n <= 8
    requires forall p :: 0 <= p < 8 && valid[p] ==> a[p] == b[p]
    ensures Select(a, valid, n) == Select(b, valid, n)
  {
    if n > 0 {
      SelectSame(a, b, valid, n - 1);
    }
  }

  lemma {:induction false} PlanSame(crc: Crc, f: Image, g: Image, valid: seq<bool>)
    requires FlagsLegal(f, valid) && FlagsLegal(g, valid)
    requires forall p :: 0 <= p < 8 && valid[p] ==> HeaderOf(f, p) == HeaderOf(g, p)
    requires forall p :: 0 <= p < 8 ==> DataOf(f, p) == DataOf(g, p)
    ensures Plan(crc, f, valid) == Plan(crc, g, valid)
    decreases Flagged(valid)
  {
    SelectSame(Headers(f), Headers(g), valid, 8);
    var p := Select(Headers(f), valid, 8);
    if p >= 0 {
      ClearFlag(valid, p);
      PlanSame(crc, f, g, valid[p := false]);
    }
  }

  /** Restoring the oldest pair clears that pair's header and no other. */
  lemma RestoreClears(crc: Crc, f: Image, p: nat, f1: Image)
    requires Live(crc, f, p) && IsDisk(TargetOf(f, p))
    requires f1 == Run(f, RestoreOps(p, TargetOf(f, p), DataOf(f, p)))
    ensures LiveFlags(crc, f1) == LiveFlags(crc, f)[p := false]
    ensures forall r :: 0 <= r < 8 && r != p ==> HeaderOf(f1, r) == HeaderOf(f, r)
    ensures forall r :: 0 <= r < 8 ==> DataOf(f1, r) == DataOf(f, r)
  {
    var ops := RestoreOps(p, TargetOf(f, p), DataOf(f, p));
    RestorePrefix(f, p, TargetOf(f, p), DataOf(f, p));
    assert ops[..3] == ops;
    BlankIsNoHeader(crc);
    forall r | 0 <= r < 8
      ensures r != p ==> f1[HeaderSector(r)] == f[HeaderSector(r)]
      ensures f1[DataSector(r)] == f[DataSector(r)]
    {
    }
  }

  /** What recover_journal does first when something is live. */
  lemma PlanUnfold(crc: Crc, f: Image) returns (p: nat, f1: Image)
    requires DistinctSequences(crc, f) && DataMatches(crc, f) && !NoneLive(crc, f)
    ensures Oldest(crc, f, p) && IsDisk(TargetOf(f, p))
    ensures var ops := RestoreOps(p, TargetOf(f, p), DataOf(f, p));
            && f1 == Run(f, ops)
            && Recover(crc, f).ops == ops + Recover(crc, f1).ops
            && Recover(crc, f).ok == Recover(crc, f1).ok
    ensures KeepsRedo(crc, f, f1)
    ensures Flagged(LiveFlags(crc, f1)) < Flagged(LiveFlags(crc, f))
  {
    hide KeepsRedo, HeaderValid, RedoDisk, Run, Apply, HeaderOf, DataOf, TargetOf;
    var valid := LiveFlags(crc, f);
    LiveFlagsLegal(crc, f);
    var q := Select(Headers(f), valid, 8);
    assert q >= 0;
    p := q;
    var ops := RestoreOps(p, TargetOf(f, p), DataOf(f, p));
    f1 := Run(f, ops);
    assert ops[..3] == ops;
    RestoreCut(crc, f, p, 3, f1);
    RestoreClears(crc, f, p, f1);
    ClearFlag(valid, p);
    LiveFlagsLegal(crc, f1);
    PlanSame(crc, f, f1, valid[p := false]);
  }

  lemma CutAfter(crc: Crc, f: Image, a: seq<Op>, b: seq<Op>, k: nat, g: Image)
    requires OpsOk(a) && OpsOk(b) && OpsOk(a + b)
    requires |a| <= k && CutAt(crc, f, a + b, k, g)
    ensures CutAt(crc, Run(f, a), b, k - |a|, g)
  {
    assert (a + b)[..k] == a + b[..k - |a|];
    RunAppend(f, a, b[..k - |a|]);
  }

  /** A replay cut anywhere can be rerun to the same disk. */
  lemma {:induction false} ReplayCutKeepsRedo(crc: Crc, f: Image, k: nat, g: Image)
    requires DistinctSequences(crc, f) && DataMatches(crc, f)
    requires CutAt(crc, f, Recover(crc, f).ops, k, g)
    ensures KeepsRedo(crc, f, g)
    decreases Flagged(LiveFlags(crc, f))
  {
    hide HeaderValid, Newest, RedoSector, HeaderOf, TargetOf, DataOf, Apply;
    if NoneLive(crc, f) {
      NothingToReplay(crc, f);
    } else {
      var p, f1 := PlanUnfold(crc, f);
      var ops := RestoreOps(p, TargetOf(f, p), DataOf(f, p));
      var rest := Recover(crc, f1).ops;
      if k < 3 {
        assert (ops + rest)[..k] == ops[..k] && (ops + rest)[k] == ops[k];
        RestoreCut(crc, f, p, k, g);
      } else {
        CutAfter(crc, f, ops, rest, k, g);
        ReplayCutKeepsRedo(crc, f1, k - 3, g);
        KeepsRedoTransitive(crc, f, f1, g);
      }
    }
  }

  lemma KeepsRedoTransitive(crc: Crc, f: Image, g: Image, h: Image)
    requires KeepsRedo(crc, f, g) && KeepsRedo(crc, g, h)
    ensures KeepsRedo(crc, f, h)
  {
    hide RedoDisk, HeaderValid, HeaderOf, DataOf;
  }

  lemma NothingToReplay(crc: Crc, f: Image)
    requires NoneLive(crc, f)
    ensures Recover(crc, f) == Journal.Recovery([], true)
  {
    LiveFlagsLegal(crc, f);
    assert Select(Headers(f), LiveFlags(crc, f), 8) < 0;
  }

  /** An uncut replay accepts the journal, clears it and leaves the redo image. */
  lemma {:induction false} ReplayIsRedo(crc: Crc, f: Image)
    requires DistinctSequences(crc, f) && DataMatches(crc, f)
    ensures Recover(crc, f).ok
    ensures var h := Run(f, Recover(crc, f).ops);
            NoneLive(crc, h) && Disk(h) == RedoDisk(crc, f) && KeepsRedo(crc, f, h)
    decreases Flagged(LiveFlags(crc, f))
  {
    hide RedoDisk, HeaderValid, HeaderOf, DataOf, TargetOf, Apply;
    if NoneLive(crc, f) {
      NothingToReplay(crc, f);
      RedoOfCleanJournal(crc, f);
      assert Run(f, []) == f;
    } else {
      var p, f1 := PlanUnfold(crc, f);
      ReplayIsRedo(crc, f1);
      RunAppend(f, RestoreOps(p, TargetOf(f, p), DataOf(f, p)), Recover(crc, f1).ops);
      KeepsRedoTransitive(crc, f, f1, Run(f, Recover(crc, f).ops));
    }
  }

  ghost predicate CutSomewhere(crc: Crc, f: Image, ops: seq<Op>, g: Image)
    requires OpsOk(ops)
  {
    exists k: nat :: CutAt(crc, f, ops, k, g)
  }

  ghost predicate CutReplay(crc: Crc, f: Image, g: Image) {
    CutSomewhere(crc, f, Recover(crc, f).ops, g)
  }

  /** images is a chain of boots each cut inside recover_journal. */
  ghost predicate CutBoots(crc: Crc, images: seq<Image>) {
    forall j :: 1 <= j < |images| ==> CutReplay(crc, images[j - 1], images[j])
  }

  /** However often replay is cut, the first one to finish leaves the same disk. */
  lemma {:induction false} RepeatedCutsAreHarmless(crc: Crc, images: seq<Image>)
    requires |images| > 0 && CutBoots(crc, images)
    requires DistinctSequences(crc, images[0]) && DataMatches(crc, images[0])
    ensures var last := images[|images| - 1];
            && Recover(crc, last).ok
            && NoneLive(crc, Run(last, Recover(crc, last).ops))
            && Disk(Run(last, Recover(crc, last).ops)) == RedoDisk(crc, images[0])
    decreases |images|
  {
    if |images| == 1 {
      ReplayIsRedo(crc, images[0]);
    } else {
      assert CutReplay(crc, images[0], images[1]);
      var k: nat :| CutAt(crc, images[0], Recover(crc, images[0]).ops, k, images[1]);
      ReplayCutKeepsRedo(crc, images[0], k, images[1]);
      var tail := images[1..];
      forall j | 1 <= j < |tail|
        ensures CutReplay(crc, tail[j - 1], tail[j])
      {
        assert CutReplay(crc, images[j], images[j + 1]);
      }
      RepeatedCutsAreHarmless(crc, tail);
    }
  }
}
