/** The redo journal of the disk sectors: eight header/data sector pairs from sector
    0x1D0 (offset 0x1D0000), the steps of a journalled sector write, and the boot-time
    replay. The disks are the 512 sectors from 0x200 (offset 0x200000). */
module Journal {
  import opened Bytes
  import opened Flash

  /** Any checksum function: nothing below depends on which one is used. */
  type Crc = seq<byte> -> u32

  const MAGIC := 0x314C4E4A

  datatype Header = Header(magic: u32, sequence: u32, target: u32, dataCrc: u32, headerCrc: u32)

  function ReadHeader(s: Sector): Header {
    Header(LeValue(s[0..4]), LeValue(s[4..8]), LeValue(s[8..12]), LeValue(s[12..16]), LeValue(s[16..20]))
  }

  predicate DiskBlockOffsetValid(offset: u32) {
    0x200000 <= offset <= 0x400000 - 4096 && offset % 4096 == 0
  }

  predicate HeaderValid(crc: Crc, s: Sector) {
    var h := ReadHeader(s);
    h.magic == MAGIC && h.headerCrc == crc(s[..16]) && DiskBlockOffsetValid(h.target)
  }

  function HeaderFields(crc: Crc, sequence: u32, target: u32, data: Sector): (b: seq<byte>)
    ensures |b| == 16
  {
    LeBytes(MAGIC) + LeBytes(sequence) + LeBytes(target) + LeBytes(crc(data))
  }

  /** The page flush_disk_cache builds: fields, their checksum, 0xFF padding. */
  function HeaderPage(crc: Crc, sequence: u32, target: u32, data: Sector): (b: seq<byte>)
    ensures |b| == 256
  {
    var fields := HeaderFields(crc, sequence, target, data);
    fields + LeBytes(crc(fields)) + BLANK[20..256]
  }

  function HeaderSector(pair: nat): nat { 0x1D0 + 2 * pair }
  function DataSector(pair: nat): nat { 0x1D0 + 2 * pair + 1 }

  function HeaderOf(f: Image, pair: nat): Header
    requires pair < 8
  {
    ReadHeader(f[HeaderSector(pair)])
  }

  function DataOf(f: Image, pair: nat): Sector
    requires pair < 8
  {
    f[DataSector(pair)]
  }

  predicate Live(crc: Crc, f: Image, pair: nat) {
    pair < 8 && HeaderValid(crc, f[HeaderSector(pair)])
  }

  /** The sector a live header redirects to. */
  function TargetOf(f: Image, pair: nat): nat
    requires pair < 8
  {
    HeaderOf(f, pair).target / 4096
  }

  predicate IsDisk(i: nat) { 0x200 <= i < 0x400 }

  lemma LiveTargetIsDisk(crc: Crc, f: Image, pair: nat)
    requires Live(crc, f, pair)
    ensures IsDisk(TargetOf(f, pair))
  {
  }

  /** A cut operation never makes a journal header that was not already there. */
  ghost predicate NoForgedHeader(crc: Crc, f: Image, g: Image) {
    forall p :: Live(crc, g, p) ==> Live(crc, f, p) && HeaderOf(g, p) == HeaderOf(f, p)
  }

  ghost predicate Torn(crc: Crc, f: Image, op: Op, g: Image) {
    Interrupted(f, op, g) && NoForgedHeader(crc, f, g)
  }

  /** g is what a power cut leaves: k operations done, the next one perhaps torn. */
  ghost predicate CutAt(crc: Crc, f: Image, ops: seq<Op>, k: nat, g: Image)
    requires OpsOk(ops)
  {
    && k <= |ops|
    && (g == Run(f, ops[..k]) || (k < |ops| && Torn(crc, Run(f, ops[..k]), ops[k], g)))
  }

  ghost predicate DataMatches(crc: Crc, f: Image) {
    forall p :: Live(crc, f, p) ==> crc(DataOf(f, p)) == HeaderOf(f, p).dataCrc
  }

  ghost predicate DistinctSequences(crc: Crc, f: Image) {
    forall p, q :: Live(crc, f, p) && Live(crc, f, q) && p != q
      ==> HeaderOf(f, p).sequence != HeaderOf(f, q).sequence
  }

  ghost predicate NoneLive(crc: Crc, f: Image) {
    forall p :: !Live(crc, f, p)
  }

  // ---------------------------------------------------------------- redo image

  /** The newest of the first n pairs whose live header targets sector i; -1 if none. */
  function Newest(crc: Crc, f: Image, i: nat, n: nat): (r: int)
    requires n <= 8
    ensures r == -1 || (0 <= r < n && Live(crc, f, r) && TargetOf(f, r) == i)
    ensures r == -1 ==> forall p :: 0 <= p < n && Live(crc, f, p) ==> TargetOf(f, p) != i
    ensures r >= 0 ==> forall p :: 0 <= p < n && Live(crc, f, p) && TargetOf(f, p) == i
                                   ==> HeaderOf(f, p).sequence <= HeaderOf(f, r).sequence
  {
    if n == 0 then -1
    else
      var best := Newest(crc, f, i, n - 1);
      if Live(crc, f, n - 1) && TargetOf(f, n - 1) == i
         && (best < 0 || HeaderOf(f, best).sequence < HeaderOf(f, n - 1).sequence)
      then n - 1 else best
  }

  /** What sector i must hold once the journal has been replayed. */
  function RedoSector(crc: Crc, f: Image, i: nat): Sector
    requires i < 1024
  {
    var p := Newest(crc, f, i, 8);
    if p >= 0 then DataOf(f, p) else f[i]
  }

  /** The disk the journal stands for: each sector's newest journalled contents. */
  function RedoDisk(crc: Crc, f: Image): (d: seq<Sector>)
    ensures |d| == 512
  {
    seq(512, i requires 0 <= i < 512 => RedoSector(crc, f, 0x200 + i))
  }

  function Disk(f: Image): (d: seq<Sector>)
    ensures |d| == 512
  {
    f[0x200..0x400]
  }

  lemma RedoOfCleanJournal(crc: Crc, f: Image)
    requires NoneLive(crc, f)
    ensures RedoDisk(crc, f) == Disk(f)
  {
    forall i | 0 <= i < 512
      ensures RedoDisk(crc, f)[i] == Disk(f)[i]
    {
      var p := Newest(crc, f, 0x200 + i, 8);
    }
  }

  /** Distinct sequences make the newest writer the only one there is. */
  lemma NewestIsUnique(crc: Crc, f: Image, i: nat, p: nat)
    requires DistinctSequences(crc, f)
    requires Live(crc, f, p) && TargetOf(f, p) == i
    requires forall q :: Live(crc, f, q) && TargetOf(f, q) == i
                         ==> HeaderOf(f, q).sequence <= HeaderOf(f, p).sequence
    ensures Newest(crc, f, i, 8) == p
  {
    var r := Newest(crc, f, i, 8);
    assert r >= 0;
  }

  // ---------------------------------------------------------------- replay

  function RestoreOps(pair: nat, target: nat, data: Sector): (ops: seq<Op>)
    requires pair < 8 && IsDisk(target)
    ensures OpsOk(ops) && |ops| == 3
  {
    [Erase(target, 1), Program(target, 0, data), Erase(HeaderSector(pair), 1)]
  }

  /** The selection loop of recover_journal over the first n pairs. */
  function Select(headers: seq<Header>, valid: seq<bool>, n: nat): (r: int)
    requires |headers| == |valid| == 8 && n <= 8
    ensures r == -1 || (0 <= r < n && valid[r])
    ensures r == -1 ==> forall p :: 0 <= p < n ==> !valid[p]
    ensures r >= 0 ==> forall p :: 0 <= p < n && valid[p] ==> headers[r].sequence <= headers[p].sequence
  {
    if n == 0 then -1
    else
      var best := Select(headers, valid, n - 1);
      if valid[n - 1] && (best < 0 || headers[n - 1].sequence < headers[best].sequence)
      then n - 1 else best
  }

  function Headers(f: Image): (h: seq<Header>)
    ensures |h| == 8
    ensures forall p :: 0 <= p < 8 ==> h[p] == HeaderOf(f, p)
  {
    seq(8, p requires 0 <= p < 8 => HeaderOf(f, p))
  }

  function LiveFlags(crc: Crc, f: Image): (v: seq<bool>)
    ensures |v| == 8
    ensures forall p :: 0 <= p < 8 ==> v[p] == Live(crc, f, p)
  {
    seq(8, p requires 0 <= p < 8 => Live(crc, f, p))
  }

  function Flagged(valid: seq<bool>): (n: nat)
    ensures n <= |valid|
    ensures n == 0 ==> forall p :: 0 <= p < |valid| ==> !valid[p]
  {
    if valid == [] then 0 else Flagged(valid[1..]) + (if valid[0] then 1 else 0)
  }

  lemma {:induction false} ClearFlag(valid: seq<bool>, p: nat)
    requires p < |valid| && valid[p]
    ensures Flagged(valid[p := false]) == Flagged(valid) - 1
  {
    if p > 0 {
      ClearFlag(valid[1..], p - 1);
      assert valid[p := false][1..] == valid[1..][p - 1 := false];
    }
  }

  datatype Recovery = Recovery(ops: seq<Op>, ok: bool)

  predicate FlagsLegal(f: Image, valid: seq<bool>) {
    |valid| == 8 && forall p :: 0 <= p < 8 && valid[p] ==> IsDisk(TargetOf(f, p))
  }

  /** recover_journal from flash f with the pairs still marked valid. */
  function Plan(crc: Crc, f: Image, valid: seq<bool>): (r: Recovery)
    requires FlagsLegal(f, valid)
    ensures OpsOk(r.ops)
    decreases Flagged(valid)
  {
    var p := Select(Headers(f), valid, 8);
    if p < 0 then Recovery([], true)
    else if crc(DataOf(f, p)) != HeaderOf(f, p).dataCrc then Recovery([], false)
    else
      ClearFlag(valid, p);
      var rest := Plan(crc, f, valid[p := false]);
      Recovery(RestoreOps(p, TargetOf(f, p), DataOf(f, p)) + rest.ops, rest.ok)
  }

  lemma LiveFlagsLegal(crc: Crc, f: Image)
    ensures FlagsLegal(f, LiveFlags(crc, f))
  {
  }

  /** The whole of recover_journal at boot. */
  function Recover(crc: Crc, f: Image): (r: Recovery)
    ensures OpsOk(r.ops)
  {
    LiveFlagsLegal(crc, f);
    Plan(crc, f, LiveFlags(crc, f))
  }
}
