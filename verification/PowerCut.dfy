/** Power-cut atomicity of a journalled sector write, and of whole runs of
    boots, flushes and power cuts. */
module PowerCut {
  import opened Bytes
  import opened Flash
  import opened Journal
  import opened Recovery

  /** The flash operations of write_callback, in order. */
  function WriteOps(crc: Crc, pair: nat, sequence: u32, target: u32, data: Sector): (ops: seq<Op>)
    requires pair < 8 && DiskBlockOffsetValid(target)
    ensures OpsOk(ops) && |ops| == 7
  {
    [Erase(HeaderSector(pair), 2),
     Program(DataSector(pair), 0, data),
     Program(HeaderSector(pair), 0, HeaderPage(crc, sequence, target, data)),
     Erase(target / 4096, 1),
     Program(target / 4096, 0, data[..2048]),
     Program(target / 4096, 2048, data[2048..]),
     Erase(HeaderSector(pair), 1)]
  }

  /** The header sector once its page is programmed. */
  function WrittenHeader(crc: Crc, sequence: u32, target: u32, data: Sector): Sector {
    HeaderPage(crc, sequence, target, data) + BLANK[256..]
  }

  /** What flush_disk_cache writes is what recover_journal reads back. */
  lemma HeaderRoundTrip(crc: Crc, sequence: u32, target: u32, data: Sector)
    requires DiskBlockOffsetValid(target)
    ensures var s := WrittenHeader(crc, sequence, target, data);
            && HeaderValid(crc, s)
            && ReadHeader(s).sequence == sequence
            && ReadHeader(s).target == target
            && ReadHeader(s).dataCrc == crc(data)
    ensures var s := WrittenHeader(crc, sequence, target, data);
            && s[..4] == Text("JNL1") && Spells(s, 4, sequence) && Spells(s, 8, target) && Spells(s, 12, crc(data))
            && Spells(s, 16, crc(s[..16]))
  {
    var s := WrittenHeader(crc, sequence, target, data);
    var fields := HeaderFields(crc, sequence, target, data);
    assert s[..16] == fields;
    assert s[0..4] == LeBytes(MAGIC);
    assert s[4..8] == LeBytes(sequence);
    assert s[8..12] == LeBytes(target);
    assert s[12..16] == LeBytes(crc(data));
    assert s[16..20] == LeBytes(crc(fields));
    LeRoundTrip(MAGIC);
    LeRoundTrip(sequence);
    LeRoundTrip(target);
    LeRoundTrip(crc(data));
    LeRoundTrip(crc(fields));
    WordSpells(s, 4, sequence);
    WordSpells(s, 8, target);
    WordSpells(s, 12, crc(data));
    WordSpells(s, 16, crc(fields));
    assert LeBytes(MAGIC) == [0x4A, 0x4E, 0x4C, 0x31] == Text("JNL1");
  }

  /** Flash after the first k operations of a write, for each k. */
  lemma WritePrefix(crc: Crc, f: Image, pair: nat, sequence: u32, target: u32, data: Sector)
    requires pair < 8 && DiskBlockOffsetValid(target)
    ensures
      var ops := WriteOps(crc, pair, sequence, target, data);
      var h := HeaderSector(pair);
      var t := target / 4096;
      var staged := f[h + 1 := data][h := WrittenHeader(crc, sequence, target, data)];
      && Run(f, ops[..0]) == f
      && Run(f, ops[..1]) == f[h := BLANK][h + 1 := BLANK]
      && Run(f, ops[..2]) == f[h := BLANK][h + 1 := data]
      && Run(f, ops[..3]) == staged
      && Run(f, ops[..4]) == staged[t := BLANK]
      && Run(f, ops[..5]) == staged[t := data[..2048] + BLANK[2048..]]
      && Run(f, ops[..6]) == staged[t := data]
      && Run(f, ops[..7]) == staged[t := data][h := BLANK]
  {
    hide Apply, Run, HeaderPage, WrittenHeader;
    var ops := WriteOps(crc, pair, sequence, target, data);
    var h := HeaderSector(pair);
    var t := target / 4096;
    StageSteps(crc, f, pair, sequence, target, data);
    var f3: Image := f[h + 1 := data][h := WrittenHeader(crc, sequence, target, data)];
    TargetSteps(f3, t, data);
    EraseOne(f3[t := data], h);
    RunPrefixes(f, ops);
    assert Run(f, ops[..0 + 1]) == f[h := BLANK][h + 1 := BLANK];
    assert Run(f, ops[..1 + 1]) == f[h := BLANK][h + 1 := data];
    assert Run(f, ops[..2 + 1]) == f3;
    assert Run(f, ops[..3 + 1]) == f3[t := BLANK];
    assert Run(f, ops[..4 + 1]) == f3[t := data[..2048] + BLANK[2048..]];
    assert Run(f, ops[..5 + 1]) == f3[t := data];
    assert Run(f, ops[..6 + 1]) == f3[t := data][h := BLANK];
  }

  /** Erasing the pair, then programming its data and its header page. */
  lemma StageSteps(crc: Crc, f: Image, pair: nat, sequence: u32, target: u32, data: Sector)
    requires pair < 8
    ensures
      var h := HeaderSector(pair);
      var f1: Image := f[h := BLANK][h + 1 := BLANK];
      var f2: Image := f[h := BLANK][h + 1 := data];
      && Apply(f, Erase(h, 2)) == f1 && Apply(f1, Program(DataSector(pair), 0, data)) == f2
      && Apply(f2, Program(h, 0, HeaderPage(crc, sequence, target, data)))
         == f[h + 1 := data][h := WrittenHeader(crc, sequence, target, data)]
  {
    hide AndBits, HeaderPage, Programmed;
    var page := HeaderPage(crc, sequence, target, data);
    ProgramErased(BLANK, 0, data);
    assert BLANK[..0] + data + BLANK[0 + |data|..] == data;
    ProgramErased(BLANK, 0, page);
    assert BLANK[..0] + page + BLANK[0 + |page|..] == page + BLANK[256..];
  }

  /** Rewriting the target sector in two halves. */
  lemma TargetSteps(f: Image, t: nat, data: Sector)
    requires t < 1024
    ensures
      var half: Sector := data[..2048] + BLANK[2048..];
      && Apply(f, Erase(t, 1)) == f[t := BLANK] && Apply(f[t := BLANK], Program(t, 0, data[..2048])) == f[t := half]
      && Apply(f[t := half], Program(t, 2048, data[2048..])) == f[t := data]
  {
    hide AndBits, Programmed;
    EraseOne(f, t);
    ProgramErased(BLANK, 0, data[..2048]);
    var half: Sector := data[..2048] + BLANK[2048..];
    assert BLANK[..0] + data[..2048] + BLANK[0 + |data[..2048]|..] == half;
    ProgramErased(half, 2048, data[2048..]);
    assert half[..2048] + data[2048..] + half[2048 + |data[2048..]|..] == data;
  }

  lemma EraseOne(f: Image, t: nat)
    requires t < 1024
    ensures Apply(f, Erase(t, 1)) == f[t := BLANK]
  {
  }

  /** At most one header is live, and it is replayable. */
  ghost predicate JournalInv(crc: Crc, f: Image) {
    && DataMatches(crc, f)
    && forall p, q :: Live(crc, f, p) && Live(crc, f, q) ==> p == q
  }

  /** Before the header is whole the write has not happened. */
  lemma CutBeforeHeader(crc: Crc, f: Image, h: nat, g: Image)
    requires NoneLive(crc, g) && 0x1D0 <= h < 0x1DF
    requires forall i :: 0 <= i < 1024 && i != h && i != h + 1 ==> g[i] == f[i]
    ensures RedoDisk(crc, g) == Disk(f)
  {
    RedoOfCleanJournal(crc, g);
    assert Disk(g) == Disk(f);
  }

  /** With the header whole, the write has happened whatever the target holds. */
  lemma CutAfterHeader(crc: Crc, f: Image, pair: nat, sequence: u32, target: u32, data: Sector, g: Image)
    requires NoneLive(crc, f) && pair < 8 && DiskBlockOffsetValid(target)
    requires g[HeaderSector(pair)] == WrittenHeader(crc, sequence, target, data)
    requires g[DataSector(pair)] == data
    requires forall i :: 0 <= i < 1024 && i != target / 4096 && i != HeaderSector(pair) && i != DataSector(pair)
                         ==> g[i] == f[i]
    ensures JournalInv(crc, g) && RedoDisk(crc, g) == Disk(f)[target / 4096 - 0x200 := data]
  {
    HeaderRoundTrip(crc, sequence, target, data);
    hide HeaderValid, WrittenHeader, ReadHeader;
    var t := target / 4096;
    forall q | 0 <= q < 8
      ensures q != pair ==> !Live(crc, g, q)
    {
      assert q != pair ==> g[HeaderSector(q)] == f[HeaderSector(q)];
      assert !Live(crc, f, q);
    }
    assert Live(crc, g, pair) && TargetOf(g, pair) == t;
    forall i | 0 <= i < 512
      ensures RedoDisk(crc, g)[i] == Disk(f)[t - 0x200 := data][i]
    {
      var s := 0x200 + i;
      if s == t {
        NewestIsUnique(crc, g, s, pair);
      }
    }
  }

  /** Once the target is verified the header may be half erased. */
  lemma CutAfterTarget(crc: Crc, f: Image, pair: nat, target: u32, data: Sector, g: Image)
    requires NoneLive(crc, f) && pair < 8 && DiskBlockOffsetValid(target)
    requires !Live(crc, g, pair)
    requires g[target / 4096] == data
    requires forall i :: 0 <= i < 1024 && i != target / 4096 && i != HeaderSector(pair) && i != DataSector(pair)
                         ==> g[i] == f[i]
    ensures NoneLive(crc, g) && RedoDisk(crc, g) == Disk(f)[target / 4096 - 0x200 := data]
  {
    hide HeaderValid;
    forall q | 0 <= q < 8
      ensures !Live(crc, g, q)
    {
      assert q != pair ==> g[HeaderSector(q)] == f[HeaderSector(q)];
      assert !Live(crc, f, q);
    }
    RedoOfCleanJournal(crc, g);
    assert Disk(g) == Disk(f)[target / 4096 - 0x200 := data];
  }

  /** A write cut at step k stands for the old disk before the header page is
      complete and for the new disk from then on; nothing else changes. */
  lemma WriteCut(crc: Crc, f: Image, pair: nat, sequence: u32, target: u32, data: Sector, k: nat, g: Image)
    requires NoneLive(crc, f) && pair < 8 && DiskBlockOffsetValid(target)
    requires CutAt(crc, f, WriteOps(crc, pair, sequence, target, data), k, g)
    ensures JournalInv(crc, g)
    ensures RedoDisk(crc, g) == if k < 3 then Disk(f) else Disk(f)[target / 4096 - 0x200 := data]
    ensures k == 7 ==> NoneLive(crc, g)
  {
    hide HeaderValid, HeaderPage, WrittenHeader, RedoDisk, Run, Apply;
    var ops := WriteOps(crc, pair, sequence, target, data);
    var h := HeaderSector(pair);
    var t := target / 4096;
    WritePrefix(crc, f, pair, sequence, target, data);
    BlankIsNoHeader(crc);
    HeaderRoundTrip(crc, sequence, target, data);
    var before := Run(f, ops[..k]);
    if k < 3 {
      forall q | 0 <= q < 8
        ensures !Live(crc, before, q)
      {
        assert before[HeaderSector(q)] == if k > 0 && q == pair then BLANK else f[HeaderSector(q)];
        assert !Live(crc, f, q);
      }
      CutBeforeHeader(crc, f, h, g);
    } else if k == 7 {
      CutAfterTarget(crc, f, pair, target, data, g);
    } else if k == 6 && g != before {
      if Live(crc, g, pair) {
        WriteCutAtClear(crc, f, pair, sequence, target, data, before, g);
      } else {
        CutAfterTarget(crc, f, pair, target, data, g);
      }
    } else {
      CutAfterHeader(crc, f, pair, sequence, target, data, g);
    }
  }

  /** The header erase is cut and the header still reads as before. */
  lemma WriteCutAtClear(crc: Crc, f: Image, pair: nat, sequence: u32, target: u32, data: Sector,
                        before: Image, g: Image)
    requires NoneLive(crc, f) && pair < 8 && DiskBlockOffsetValid(target)
    requires var h := HeaderSector(pair);
             before == f[h + 1 := data][h := WrittenHeader(crc, sequence, target, data)][target / 4096 := data]
    requires Torn(crc, before, Erase(HeaderSector(pair), 1), g) && Live(crc, g, pair)
    ensures JournalInv(crc, g) && RedoDisk(crc, g) == Disk(f)[target / 4096 - 0x200 := data]
  {
    CutAfterHeader(crc, f, pair, sequence, target, data, before);
    HeaderRoundTrip(crc, sequence, target, data);
    hide HeaderValid, WrittenHeader, ReadHeader;
    assert Oldest(crc, before, pair);
    HeaderMayBeTorn(crc, before, pair, g);
  }

  /** flush_disk_cache, whatever its cut point, followed by boots that may be cut
      again and again: the first boot to finish finds the target wholly old or
      wholly new, new once the header page was complete, and all else unchanged. */
  lemma PowerCutAtomicity(crc: Crc, f: Image, pair: nat, sequence: u32, target: u32, data: Sector,
                          k: nat, images: seq<Image>)
    requires NoneLive(crc, f) && pair < 8 && DiskBlockOffsetValid(target)
    requires |images| > 0 && CutAt(crc, f, WriteOps(crc, pair, sequence, target, data), k, images[0])
    requires CutBoots(crc, images)
    ensures var last := images[|images| - 1];
            var booted := Run(last, Recover(crc, last).ops);
            && Recover(crc, last).ok
            && NoneLive(crc, booted)
            && Disk(booted) == if k < 3 then Disk(f) else Disk(f)[target / 4096 - 0x200 := data]
  {
    hide HeaderValid, RedoDisk, WriteOps, Run, Recover;
    WriteCut(crc, f, pair, sequence, target, data, k, images[0]);
    RepeatedCutsAreHarmless(crc, images);
  }

  // ---------------------------------------------------------------- whole runs

  /** The board between power-ups: flash, and the worker's counters while up. */
  datatype Board = Board(flash: Image, up: bool, nextPair: u32, sequence: u32)

  datatype Event =
    | Boot
    | BootCut(after: Image)
    | Flush(block: nat, data: Sector)
    | FlushCut(block: nat, data: Sector, after: Image)
    | PowerOff

  function BlockOffset(block: nat): (o: u32)
    requires block < 512
    ensures DiskBlockOffsetValid(o) && o / 4096 - 0x200 == block
  {
    0x200000 + 4096 * block
  }

  /** The operations the next flush issues, from the worker's counters. */
  function FlushOps(crc: Crc, s: Board, block: nat, data: Sector): (ops: seq<Op>)
    requires block < 512
    ensures OpsOk(ops) && |ops| == 7
  {
    WriteOps(crc, s.nextPair % 8, (s.sequence + 1) % U32_MOD, BlockOffset(block), data)
  }

  ghost predicate Step(crc: Crc, s: Board, e: Event, t: Board) {
    match e
    case Boot =>
      !s.up && t == Board(Run(s.flash, Recover(crc, s.flash).ops), Recover(crc, s.flash).ok, 0, 0)
    case BootCut(after) =>
      !s.up && CutReplay(crc, s.flash, after) && t == Board(after, false, 0, 0)
    case Flush(block, data) =>
      && s.up && block < 512
      && t == Board(Run(s.flash, FlushOps(crc, s, block, data)), true,
                    (s.nextPair + 1) % U32_MOD, (s.sequence + 1) % U32_MOD)
    case FlushCut(block, data, after) =>
      && s.up && block < 512
      && CutSomewhere(crc, s.flash, FlushOps(crc, s, block, data), after)
      && t == Board(after, false, 0, 0)
    case PowerOff =>
      s.up && t == Board(s.flash, false, 0, 0)
  }

  ghost predicate BoardInv(crc: Crc, s: Board) {
    JournalInv(crc, s.flash) && (s.up ==> NoneLive(crc, s.flash))
  }

  /** What an event may do to the disk the board stands for. */
  predicate DiskStep(d: seq<Sector>, e: Event, d': seq<Sector>)
    requires |d| == |d'| == 512
  {
    match e
    case Flush(block, data) => block < 512 && d' == d[block := data]
    case FlushCut(block, data, _) => block < 512 && (d' == d || d' == d[block := data])
    case _ => d' == d
  }

  lemma JournalInvIsReplayable(crc: Crc, f: Image)
    requires JournalInv(crc, f)
    ensures DistinctSequences(crc, f) && DataMatches(crc, f)
  {
  }

  lemma StillReplayable(crc: Crc, f: Image, g: Image)
    requires JournalInv(crc, f) && KeepsRedo(crc, f, g)
    ensures JournalInv(crc, g)
  {
    hide RedoDisk, HeaderValid, HeaderOf;
    forall p, q | Live(crc, g, p) && Live(crc, g, q)
      ensures p == q
    {
      assert Live(crc, f, p) && Live(crc, f, q);
    }
  }

  /** Every event keeps the journal replayable and is atomic on the disk; a boot
      never refuses to start because of power cuts. */
  lemma StepRefines(crc: Crc, s: Board, e: Event, t: Board)
    requires BoardInv(crc, s) && Step(crc, s, e, t)
    ensures BoardInv(crc, t)
    ensures DiskStep(RedoDisk(crc, s.flash), e, RedoDisk(crc, t.flash))
    ensures e.Boot? ==> t.up
  {
    hide RedoDisk, HeaderValid, Run, WriteOps, Recover, KeepsRedo;
    JournalInvIsReplayable(crc, s.flash);
    match e {
      case Boot =>
        ReplayIsRedo(crc, s.flash);
        RedoOfCleanJournal(crc, t.flash);
      case BootCut(after) =>
        var k: nat :| CutAt(crc, s.flash, Recover(crc, s.flash).ops, k, after);
        ReplayCutKeepsRedo(crc, s.flash, k, after);
        StillReplayable(crc, s.flash, after);
        KeptDisk(crc, s.flash, after);
      case Flush(block, data) =>
        RedoOfCleanJournal(crc, s.flash);
        var ops := FlushOps(crc, s, block, data);
        assert ops[..7] == ops;
        WriteCut(crc, s.flash, s.nextPair % 8, (s.sequence + 1) % U32_MOD, BlockOffset(block), data, 7, t.flash);
      case FlushCut(block, data, after) =>
        RedoOfCleanJournal(crc, s.flash);
        var ops := FlushOps(crc, s, block, data);
        var k: nat :| CutAt(crc, s.flash, ops, k, after);
        WriteCut(crc, s.flash, s.nextPair % 8, (s.sequence + 1) % U32_MOD, BlockOffset(block), data, k, after);
      case PowerOff =>
    }
  }

  lemma KeptDisk(crc: Crc, f: Image, g: Image)
    requires KeepsRedo(crc, f, g)
    ensures RedoDisk(crc, g) == RedoDisk(crc, f)
  {
  }

  ghost predicate IsRun(crc: Crc, boards: seq<Board>, events: seq<Event>) {
    && |boards| == |events| + 1
    && forall j :: 0 <= j < |events| ==> Step(crc, boards[j], events[j], boards[j + 1])
  }

  /** The disk after the flushes that count: every completed one, and those of
      the cut ones that kept selects. */
  function Survivors(d: seq<Sector>, events: seq<Event>, kept: seq<bool>): (r: seq<Sector>)
    requires |events| == |kept| && |d| == 512
    ensures |r| == 512
    decreases |events|
  {
    if events == [] then d
    else
      var n := |events| - 1;
      var r := Survivors(d, events[..n], kept[..n]);
      match events[n]
      case Flush(block, data) => if block < 512 then r[block := data] else r
      case FlushCut(block, data, _) => if block < 512 && kept[n] then r[block := data] else r
      case _ => r
  }

  /** Over every run of boots, flushes and power cuts the journal stays
      replayable and the disk is exactly the surviving flushes in order. */
  lemma {:induction false} RunIsDurable(crc: Crc, boards: seq<Board>, events: seq<Event>)
    returns (kept: seq<bool>)
    requires IsRun(crc, boards, events) && BoardInv(crc, boards[0])
    ensures forall j :: 0 <= j <= |events| ==> BoardInv(crc, boards[j])
    ensures forall j :: 0 <= j < |events| && events[j].Boot? ==> boards[j + 1].up
    ensures |kept| == |events|
    ensures RedoDisk(crc, boards[|events|].flash) == Survivors(RedoDisk(crc, boards[0].flash), events, kept)
    decreases |events|
  {
    hide RedoDisk, BoardInv, Step;
    if events == [] {
      kept := [];
    } else {
      var n := |events| - 1;
      var before := RunIsDurable(crc, boards[..n + 1], events[..n]);
      StepRefines(crc, boards[n], events[n], boards[n + 1]);
      var d, d' := RedoDisk(crc, boards[n].flash), RedoDisk(crc, boards[n + 1].flash);
      kept := before + [d' != d];
      assert kept[..n] == before;
    }
  }
}
