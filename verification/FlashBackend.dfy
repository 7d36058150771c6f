/** flash_backend.c as it runs: raw flash, the one-sector write-back cache in
    front of it, and the journal counters, all updated in place. */
module FlashBackend {
  import opened Bytes
  import opened Flash
  import opened Journal
  import opened Recovery
  import opened PowerCut

  /** Position of (drive, lba) on the 512-sector disk. */
  function SectorIndex(drive: nat, lba: nat): nat { drive * 128 + lba / 32 }

  function RecordAt(disk: seq<Sector>, drive: nat, lba: nat): (r: seq<byte>)
    requires |disk| == 512 && drive < 4 && lba < 4096
    ensures |r| == 128
  {
    disk[SectorIndex(drive, lba)][lba % 32 * 128..lba % 32 * 128 + 128]
  }

  function Patched(s: Sector, at: nat, data: seq<byte>): (r: Sector)
    requires at + |data| <= 4096
  {
    s[..at] + data + s[at + |data|..]
  }

  function WithRecord(disk: seq<Sector>, drive: nat, lba: nat, data: seq<byte>): (r: seq<Sector>)
    requires |disk| == 512 && drive < 4 && lba < 4096 && |data| == 128
    ensures |r| == 512
  {
    var i := SectorIndex(drive, lba);
    disk[i := Patched(disk[i], lba % 32 * 128, data)]
  }

  /** Reading a record back after a write, and every other record untouched. */
  lemma RecordUpdate(disk: seq<Sector>, drive: nat, lba: nat, data: seq<byte>, drive': nat, lba': nat)
    requires |disk| == 512 && drive < 4 && lba < 4096 && |data| == 128 && drive' < 4 && lba' < 4096
    ensures RecordAt(WithRecord(disk, drive, lba, data), drive', lba')
            == if drive == drive' && lba == lba' then data else RecordAt(disk, drive', lba')
  {
    var i := SectorIndex(drive, lba);
    var at, at' := lba % 32 * 128, lba' % 32 * 128;
    if SectorIndex(drive', lba') == i {
      assert drive == drive' && lba / 32 == lba' / 32;
      var p := Patched(disk[i], at, data);
      if lba == lba' {
        assert p[at..at + 128] == data;
      } else {
        assert at' + 128 <= at || at + 128 <= at';
        forall k | at' <= k < at' + 128
          ensures p[k] == disk[i][k]
        {
        }
        assert p[at'..at' + 128] == disk[i][at'..at' + 128];
      }
    }
  }

  class Backend {
    const crc: Crc
    var flash: Image
    var cacheValid: bool
    var cacheDirty: bool
    var cacheDrive: nat
    var cacheBlock: nat          // byte offset of the cached sector in its slot
    var cacheData: Sector
    var sequence: u32
    var nextPair: u32

    /** The invariant between calls: nothing is left in the journal and a clean
        cache agrees with flash. */
    ghost predicate Valid()
      reads this
    {
      && NoneLive(crc, flash)
      && (cacheDirty ==> cacheValid)
      && (cacheValid ==> cacheDrive < 4 && cacheBlock % 4096 == 0 && cacheBlock < 0x80000)
      && (cacheValid && !cacheDirty ==> Disk(flash)[CacheIndex()] == cacheData)
    }

    function CacheIndex(): nat
      reads this
    {
      cacheDrive * 128 + cacheBlock / 4096
    }

    /** The disk the Z80 sees: flash with the cached sector laid over it. */
    ghost function Logical(): (d: seq<Sector>)
      requires Valid()
      reads this
      ensures |d| == 512
    {
      if cacheValid then Disk(flash)[CacheIndex() := cacheData] else Disk(flash)
    }

    constructor (crc: Crc, image: Image)
      ensures this.crc == crc && flash == image && !cacheValid && !cacheDirty
    {
      this.crc := crc;
      flash := image;
      cacheValid, cacheDirty := false, false;
      cacheDrive, cacheBlock, cacheData := 0, 0, BLANK;
      sequence, nextPair := 0, 0;
    }

    method WriteCallback(pair: nat, seqno: u32, target: u32, data: Sector) returns (committed: bool)
      requires pair < 8 && DiskBlockOffsetValid(target)
      modifies `flash
      ensures flash == Run(old(flash), WriteOps(crc, pair, seqno, target, data))
      ensures committed
    {
      var ops := WriteOps(crc, pair, seqno, target, data);
      var header := HeaderSector(pair);
      var t := target / 4096;
      ghost var f := flash;
      WritePrefix(crc, f, pair, seqno, target, data);
      RunPrefixes(f, ops);
      hide HeaderPage, HeaderValid, Run, Apply;
      committed := false;
      flash := Apply(flash, ops[0]);
      assert flash == Run(f, ops[..0 + 1]);
      flash := Apply(flash, ops[1]);
      assert flash == Run(f, ops[..1 + 1]);
      flash := Apply(flash, ops[2]);
      assert flash == Run(f, ops[..2 + 1]);
      assert flash[header] == WrittenHeader(crc, seqno, target, data);
      if flash[header + 1] != data || flash[header][..256] != HeaderPage(crc, seqno, target, data) {
        return;
      }
      flash := Apply(flash, ops[3]);
      assert flash == Run(f, ops[..3 + 1]);
      flash := Apply(flash, ops[4]);
      assert flash == Run(f, ops[..4 + 1]);
      flash := Apply(flash, ops[5]);
      assert flash == Run(f, ops[..5 + 1]);
      committed := flash[t] == data;
      if committed {
        flash := Apply(flash, ops[6]);
        assert flash == Run(f, ops[..6 + 1]);
        committed := flash[header][0..4] == [0xFF, 0xFF, 0xFF, 0xFF];
      }
    }

    method RestoreCallback(pair: nat, target: nat, data: Sector) returns (restored: bool)
      requires pair < 8 && IsDisk(target)
      modifies `flash
      ensures flash == Run(old(flash), RestoreOps(pair, target, data))
      ensures restored
    {
      ghost var f := flash;
      var ops := RestoreOps(pair, target, data);
      RestorePrefix(f, pair, target, data);
      RunPrefixes(f, ops);
      hide Run, Apply;
      assert Run(f, ops[..0 + 1]) == Apply(f, ops[0]) && Run(f, ops[..2 + 1]) == Apply(Run(f, ops[..2]), ops[2]);
      assert Run(f, ops[..1 + 1]) == Apply(Run(f, ops[..1]), ops[1]);
      flash := Apply(flash, ops[0]);
      flash := Apply(flash, ops[1]);
      restored := flash[target] == data;
      if restored {
        flash := Apply(flash, ops[2]);
        restored := flash[HeaderSector(pair)][0..4] == [0xFF, 0xFF, 0xFF, 0xFF];
      }
    }

    /** recover_journal: replay the live pairs, oldest sequence first. */
    method RecoverJournal() returns (ok: bool)
      modifies `flash
      ensures flash == Run(old(flash), Recover(crc, old(flash)).ops)
      ensures ok == Recover(crc, old(flash)).ok
    {
      hide ReadHeader, HeaderValid, Run, Flagged, RestoreOps, HeaderOf, Plan, Select, Live;
      ghost var f := flash;
      var headers, valid := ReadJournal();
      LiveFlagsLegal(crc, f);
      ghost var done: seq<Op> := [];
      ghost var plan := Recover(crc, f);
      EmptyRun(f);
      assert done + Plan(crc, f, valid).ops == Plan(crc, f, valid).ops;
      ok := true;
      for recovered := 0 to 8
        invariant ok
        invariant |valid| == 8 && FlagsLegal(f, valid) && Flagged(valid) <= 8 - recovered
        invariant OpsOk(done) && flash == Run(f, done)
        invariant forall p :: 0 <= p < 8 ==> DataOf(flash, p) == DataOf(f, p)
        invariant plan == Journal.Recovery(done + Plan(crc, f, valid).ops, Plan(crc, f, valid).ok)
      {
        var selected := SelectOldest(headers, valid);
        PlanNext(crc, f, valid);
        if selected < 0 {
          break;
        }
        var block := flash[DataSector(selected)];
        assert block == DataOf(flash, selected);
        if crc(block) != headers[selected].dataCrc {
          ok := false;
          break;
        }
        var target := headers[selected].target / 4096;
        assert target == TargetOf(f, selected);
        var restored := RestoreCallback(selected, target, block);
        if !restored {
          ok := false;
          break;
        }
        ghost var ops := RestoreOps(selected, target, block);
        RunAppend(f, done, ops);
        assert (done + ops) + Plan(crc, f, valid[selected := false]).ops == done + Plan(crc, f, valid).ops;
        RestoreKeepsData(Run(f, done), selected, target, block);
        done := done + ops;
        valid := valid[selected := false];
      }
      PlanNext(crc, f, valid);
      assert done + [] == done;
    }

    /** The first loop of recover_journal: snapshot the headers and their validity. */
    method ReadJournal() returns (headers: seq<Header>, valid: seq<bool>)
      ensures headers == Headers(flash) && valid == LiveFlags(crc, flash)
    {
      headers, valid := [], [];
      for pair := 0 to 8
        invariant |headers| == |valid| == pair
        invariant headers == Headers(flash)[..pair] && valid == LiveFlags(crc, flash)[..pair]
      {
        headers := headers + [ReadHeader(flash[HeaderSector(pair)])];
        valid := valid + [HeaderValid(crc, flash[HeaderSector(pair)])];
      }
    }

    /** flush_disk_cache: journal the dirty sector and write it home. */
    method FlushDiskCache(bus: Bus) returns (ok: bool)
      requires Valid()
      modifies `flash, `cacheDirty, `sequence, `nextPair
      ensures Valid() && Logical() == old(Logical())
      ensures ok == (!old(cacheDirty) || (bus.acquired && bus.released))
      ensures cacheDirty == (old(cacheDirty) && !bus.acquired)
      ensures !cacheDirty ==> Disk(flash) == Logical()
      ensures !old(cacheDirty) || !bus.acquired ==> flash == old(flash)
      ensures old(cacheDirty) && bus.acquired ==>
        flash == Run(old(flash), FlushOps(crc, Board(old(flash), true, old(nextPair), old(sequence)),
                                          old(CacheIndex()), cacheData))
      ensures var n := if old(cacheDirty) && bus.acquired then 1 else 0;
              nextPair == (old(nextPair) + n) % 0x1_0000_0000 && sequence == (old(sequence) + n) % 0x1_0000_0000
    {
      hide Run, WriteOps, NoneLive, Disk;
      ok := !cacheDirty;
      if cacheDirty && bus.acquired {
        var offset := 0x200000 + cacheDrive * 0x80000 + cacheBlock;
        var pair := nextPair % 8;
        nextPair := (nextPair + 1) % U32_MOD;
        sequence := (sequence + 1) % U32_MOD;
        ghost var f := flash;
        assert offset == BlockOffset(CacheIndex());
        var committed := WriteCallback(pair, sequence, offset, cacheData);
        FlushWrites(crc, f, old(nextPair), old(sequence), CacheIndex(), cacheData);
        if committed {
          cacheDirty := false;
        }
        ok := bus.released && committed;
      }
      assert cacheValid && !cacheDirty ==> Disk(flash)[CacheIndex() := cacheData] == Disk(flash);
    }

    /** select_disk_cache: bring the sector of (drive, lba) into the cache. */
    method SelectDiskCache(drive: nat, lba: nat, bus: Bus) returns (ok: bool)
      requires Valid() && drive < 4 && lba < 4096
      modifies this
      ensures Valid() && Logical() == old(Logical())
      ensures ok ==> cacheValid && CacheIndex() == SectorIndex(drive, lba)
      ensures !ok ==> old(cacheDirty) && !(bus.acquired && bus.released)
    {
      hide NoneLive, Run, FlushOps;
      BlockArithmetic(lba);
      var block := lba * 128 / 4096 * 4096;
      if cacheValid && cacheDrive == drive && cacheBlock == block {
        return true;
      }
      ok := FlushDiskCache(bus);
      if !ok {
        return false;
      }
      ghost var logical := Logical();
      cacheData := Disk(flash)[drive * 128 + block / 4096];
      cacheDrive, cacheBlock, cacheValid := drive, block, true;
      assert Disk(flash)[CacheIndex() := cacheData] == Disk(flash);
      return true;
    }

    /** z80_flash_backend_read_record: word by word from the cache or from flash. */
    method ReadRecord(drive: nat, lba: nat) returns (data: seq<byte>)
      requires Valid() && drive < 4 && lba < 4096
      ensures data == RecordAt(Logical(), drive, lba)
    {
      hide NoneLive;
      BlockArithmetic(lba);
      var block := lba * 128 / 4096 * 4096;
      var cached := cacheValid && cacheDrive == drive && cacheBlock == block;
      var source := if cached then cacheData else flash[0x200 + drive * 128 + block / 4096];
      assert source == Logical()[SectorIndex(drive, lba)];
      data := CopyWords(source, lba * 128 - block);
    }

    /** z80_flash_backend_write_record: refuse bad arguments, else update the
        cached sector, and flush at once for a directory write. */
    method WriteRecord(drive: nat, lba: nat, data: seq<byte>, writeType: nat, first: Bus, second: Bus)
      returns (ok: bool)
      requires Valid()
      modifies this
      ensures Valid()
      ensures drive >= 4 || lba >= 4096 || |data| != 128 || writeType > 2 ==>
                !ok && Logical() == old(Logical())
      ensures drive < 4 && lba < 4096 && |data| == 128 && writeType <= 2 ==>
                && (Logical() == old(Logical()) || Logical() == WithRecord(old(Logical()), drive, lba, data))
                && (ok ==> Logical() == WithRecord(old(Logical()), drive, lba, data))
                && (ok && writeType == 1 ==> Disk(flash) == Logical())
                && (first == second == Bus(true, true) ==> ok)
    {
      hide NoneLive, Run, FlushOps;
      BlockArithmetic(lba);
      if drive >= 4 || lba >= 4096 || |data| != 128 || writeType > 2 {
        return false;
      }
      var selected := SelectDiskCache(drive, lba, first);
      if !selected {
        return false;
      }
      var within := lba * 128 % 4096;
      ghost var before := Logical();
      ghost var i := SectorIndex(drive, lba);
      assert before[i] == cacheData;
      assert RecordAt(before, drive, lba) == cacheData[within..within + 128];
      if cacheData[within..within + 128] != data {
        cacheData := Patched(cacheData, within, data);
        cacheDirty := true;
        assert Logical() == WithRecord(before, drive, lba, data);
      } else {
        assert Patched(cacheData, within, data) == cacheData;
        assert WithRecord(before, drive, lba, data) == before;
      }
      if writeType == 1 {
        ok := FlushDiskCache(second);
        return ok;
      }
      return true;
    }

    /** z80_flash_backend_init_observed, with the outcome of the boot-image load. */
    method Init(bootImageOk: bool) returns (ok: bool)
      modifies this
      ensures flash == Run(old(flash), Recover(crc, old(flash)).ops)
      ensures ok == (Recover(crc, old(flash)).ok && bootImageOk)
      ensures ok ==> !cacheValid && !cacheDirty && sequence == 0 && nextPair == 0
      ensures old(DistinctSequences(crc, flash) && DataMatches(crc, flash)) && bootImageOk ==>
                ok && Valid() && Logical() == old(RedoDisk(crc, flash))
    {
      ghost var f := flash;
      var recovered := RecoverJournal();
      if DistinctSequences(crc, f) && DataMatches(crc, f) {
        ReplayIsRedo(crc, f);
      }
      hide Run, Recover, HeaderValid, RedoDisk, DistinctSequences, DataMatches;
      if !recovered || !bootImageOk {
        return false;
      }
      cacheValid, cacheDirty, cacheDrive, cacheBlock := false, false, 0, 0;
      sequence, nextPair := 0, 0;
      return true;
    }
  }

  /** The word loop of z80_flash_backend_read_record. */
  method CopyWords(source: Sector, within: nat) returns (data: seq<byte>)
    requires within + 128 <= 4096
    ensures data == source[within..within + 128]
  {
    data := [];
    var index := 0;
    while index < 128
      invariant 0 <= index <= 128 && index % 4 == 0
      invariant data == source[within..within + index]
    {
      data := data + source[within + index..within + index + 4];
      index := index + 4;
    }
  }

  /** The inner loop of recover_journal. */
  method SelectOldest(headers: seq<Header>, valid: seq<bool>) returns (selected: int)
    requires |headers| == |valid| == 8
    ensures selected == Select(headers, valid, 8)
  {
    selected := -1;
    for pair := 0 to 8
      invariant selected == Select(headers, valid, pair)
    {
      if valid[pair] && (selected < 0 || headers[pair].sequence < headers[selected].sequence) {
        selected := pair;
      }
    }
  }

  /** One turn of the replay loop, in terms of the plan. */
  lemma PlanNext(crc: Crc, f: Image, valid: seq<bool>)
    requires FlagsLegal(f, valid)
    ensures var p := Select(Headers(f), valid, 8);
            if p < 0 then Plan(crc, f, valid) == Journal.Recovery([], true)
            else if crc(DataOf(f, p)) != Headers(f)[p].dataCrc then Plan(crc, f, valid) == Journal.Recovery([], false)
            else
              && FlagsLegal(f, valid[p := false])
              && Flagged(valid[p := false]) == Flagged(valid) - 1
              && Plan(crc, f, valid).ops
                 == RestoreOps(p, TargetOf(f, p), DataOf(f, p)) + Plan(crc, f, valid[p := false]).ops
              && Plan(crc, f, valid).ok == Plan(crc, f, valid[p := false]).ok
    ensures Flagged(valid) == 0 ==> Select(Headers(f), valid, 8) < 0
  {
    var p := Select(Headers(f), valid, 8);
    if p >= 0 {
      ClearFlag(valid, p);
    }
  }

  /** What a completed flush leaves. */
  lemma FlushWrites(crc: Crc, f: Image, pair: u32, seqno: u32, index: nat, data: Sector)
    requires NoneLive(crc, f) && index < 512
    ensures var g := Run(f, FlushOps(crc, Board(f, true, pair, seqno), index, data));
            NoneLive(crc, g) && Disk(g) == Disk(f)[index := data]
  {
    hide Run, WriteOps, HeaderValid, RedoDisk;
    var s := Board(f, true, pair, seqno);
    var ops := FlushOps(crc, s, index, data);
    var g := Run(f, ops);
    assert ops[..7] == ops;
    WriteCut(crc, f, pair % 8, (seqno + 1) % U32_MOD, BlockOffset(index), data, 7, g);
    RedoOfCleanJournal(crc, g);
  }

  lemma EmptyRun(f: Image)
    ensures Run(f, []) == f
  {
  }

  lemma BlockArithmetic(lba: nat)
    ensures lba * 128 / 4096 == lba / 32
    ensures lba * 128 % 4096 == lba % 32 * 128
    ensures lba * 128 - lba * 128 / 4096 * 4096 == lba % 32 * 128
  {
    var q, r := lba / 32, lba % 32;
    assert lba * 128 == q * 4096 + r * 128;
  }

  lemma RestoreKeepsData(f: Image, pair: nat, target: nat, data: Sector)
    requires pair < 8 && IsDisk(target)
    ensures forall p :: 0 <= p < 8 ==> DataOf(Run(f, RestoreOps(pair, target, data)), p) == DataOf(f, p)
  {
    var ops := RestoreOps(pair, target, data);
    RestorePrefix(f, pair, target, data);
    assert ops[..3] == ops;
  }
}
