/** The two durable stores share one chip and never touch each other: whatever one of
    them does, cut anywhere, the other reads as before. */
module FlashLayout {
  import opened Bytes
  import opened Flash
  import Journal
  import Recovery
  import PowerCut
  import EnvStore

  /** The last two sectors before the disks hold the environment. */
  predicate IsEnvironment(i: nat) { i == 0x1FE || i == 0x1FF }

  /** Eight pairs of journal sectors, from offset 1D0000. */
  predicate IsJournal(i: nat) { 0x1D0 <= i < 0x1E0 }

  /** What no operation addresses, a cut leaves alone. */
  lemma CutFrame(f: Image, ops: seq<Op>, k: nat, g: Image, i: nat)
    requires OpsOk(ops) && k <= |ops| && i < 1024
    requires g == Run(f, ops[..k]) || (k < |ops| && Interrupted(Run(f, ops[..k]), ops[k], g))
    requires forall j :: 0 <= j < |ops| ==> !ops[j].Touches(i)
    ensures g[i] == f[i]
  {
    RunFrame(f, ops[..k], i);
  }

  lemma SaveTouches(crc: EnvStore.Crc, f: Image, data: seq<byte>, j: nat, i: nat)
    requires |data| <= 3840 && j < |EnvStore.SaveOps(crc, f, data)| && EnvStore.SaveOps(crc, f, data)[j].Touches(i)
    ensures IsEnvironment(i)
  {
    hide EnvStore.Built, EnvStore.CurrentSlot, EnvStore.Valid, Run;
  }

  lemma SaveFrame(crc: EnvStore.Crc, f: Image, data: seq<byte>, k: nat, g: Image, i: nat)
    requires |data| <= 3840 && EnvStore.CutAt(crc, f, EnvStore.SaveOps(crc, f, data), k, g)
    requires i < 1024 && !IsEnvironment(i)
    ensures g[i] == f[i]
  {
    hide EnvStore.SaveOps, EnvStore.NoForgedSlot;
    var ops := EnvStore.SaveOps(crc, f, data);
    forall j | 0 <= j < |ops|
      ensures !ops[j].Touches(i)
    {
      if ops[j].Touches(i) {
        SaveTouches(crc, f, data, j, i);
      }
    }
    CutFrame(f, ops, k, g, i);
  }

  /** The disks and what the journal makes of them do not depend on the environment. */
  lemma SameDisk(redo: Journal.Crc, f: Image, g: Image)
    requires forall i :: 0 <= i < 1024 && !IsEnvironment(i) ==> g[i] == f[i]
    ensures Journal.Disk(g) == Journal.Disk(f) && Journal.RedoDisk(redo, g) == Journal.RedoDisk(redo, f)
  {
    forall i | 0 <= i < 512
      ensures Journal.RedoDisk(redo, g)[i] == Journal.RedoDisk(redo, f)[i]
    {
      Recovery.NewestSame(redo, f, g, 0x200 + i, 8);
    }
  }

  /** A save, cut anywhere, changes nothing but the two environment sectors: the disks and
      every journal entry stand, for any checksum. */
  lemma SaveLeavesDisk(crc: EnvStore.Crc, f: Image, data: seq<byte>, k: nat, g: Image, redo: Journal.Crc)
    requires |data| <= 3840 && EnvStore.CutAt(crc, f, EnvStore.SaveOps(crc, f, data), k, g)
    ensures forall i :: 0 <= i < 1024 && !IsEnvironment(i) ==> g[i] == f[i]
    ensures Journal.Disk(g) == Journal.Disk(f) && Journal.RedoDisk(redo, g) == Journal.RedoDisk(redo, f)
  {
    hide EnvStore.SaveOps, EnvStore.CutAt, Journal.RedoDisk, Journal.Disk;
    forall i | 0 <= i < 1024 && !IsEnvironment(i)
      ensures g[i] == f[i]
    {
      SaveFrame(crc, f, data, k, g, i);
    }
    SameDisk(redo, f, g);
  }

  /** The environment depends on its two sectors alone. */
  lemma SameEnvironment(crc: EnvStore.Crc, f: Image, g: Image)
    requires g[0x1FE] == f[0x1FE] && g[0x1FF] == f[0x1FF]
    ensures EnvStore.Load(crc, g) == EnvStore.Load(crc, f)
  {
    assert EnvStore.Slot(g, 0) == EnvStore.Slot(f, 0) && EnvStore.Slot(g, 1) == EnvStore.Slot(f, 1);
    hide EnvStore.Valid, EnvStore.Payload, EnvStore.ReadHeader;
  }

  /** A journalled write, cut anywhere, changes nothing but the journal and its target: the
      environment reads as before, for any checksum. */
  lemma WriteLeavesEnvironment(crc: Journal.Crc, f: Image, pair: nat, sequence: u32, target: u32, data: Sector, k: nat, g: Image,
                               env: EnvStore.Crc)
    requires pair < 8 && Journal.DiskBlockOffsetValid(target)
    requires Journal.CutAt(crc, f, PowerCut.WriteOps(crc, pair, sequence, target, data), k, g)
    ensures forall i :: 0 <= i < 1024 && !IsJournal(i) && i != target / 4096 ==> g[i] == f[i]
    ensures EnvStore.Load(env, g) == EnvStore.Load(env, f)
  {
    var ops := PowerCut.WriteOps(crc, pair, sequence, target, data);
    forall i | 0 <= i < 1024 && !IsJournal(i) && i != target / 4096
      ensures g[i] == f[i]
    {
      CutFrame(f, ops, k, g, i);
    }
    SameEnvironment(env, f, g);
    hide EnvStore.Load;
  }

  lemma {:induction false} PlanTouches(crc: Journal.Crc, f: Image, valid: seq<bool>, j: nat, i: nat)
    requires Journal.FlagsLegal(f, valid) && j < |Journal.Plan(crc, f, valid).ops|
    requires Journal.Plan(crc, f, valid).ops[j].Touches(i)
    ensures IsJournal(i) || 0x200 <= i < 0x400
    decreases Journal.Flagged(valid)
  {
    var p := Journal.Select(Journal.Headers(f), valid, 8);
    if j >= 3 {
      Journal.ClearFlag(valid, p);
      PlanTouches(crc, f, valid[p := false], j - 3, i);
    }
  }

  /** A replay, cut anywhere, leaves the environment alone. */
  lemma ReplayLeavesEnvironment(crc: Journal.Crc, f: Image, k: nat, g: Image, env: EnvStore.Crc)
    requires Journal.CutAt(crc, f, Journal.Recover(crc, f).ops, k, g)
    ensures forall i :: 0 <= i < 0x200 && !IsJournal(i) ==> g[i] == f[i]
    ensures EnvStore.Load(env, g) == EnvStore.Load(env, f)
  {
    Journal.LiveFlagsLegal(crc, f);
    var ops := Journal.Recover(crc, f).ops;
    forall i | 0 <= i < 0x200 && !IsJournal(i)
      ensures g[i] == f[i]
    {
      forall j | 0 <= j < |ops|
        ensures !ops[j].Touches(i)
      {
        if ops[j].Touches(i) {
          PlanTouches(crc, f, Journal.LiveFlags(crc, f), j, i);
        }
      }
      CutFrame(f, ops, k, g, i);
    }
    SameEnvironment(env, f, g);
    hide EnvStore.Load;
  }
}
