/** The environment snapshot: two flash slots written alternately, the newer
    chosen by a wrapping 32-bit sequence number. A snapshot holds at most 3840 bytes, the
    sector less its header page. */
module EnvStore {
  import opened Bytes
  import opened Flash

  type Crc = seq<byte> -> u32

  const ENV_MAGIC := 0x31564e45
  const ENV_VERSION := 1

  datatype Header = Header(magic: u32, version: u32, sequence: u32, length: u32, payloadCrc: u32, headerCrc: u32)

  function ReadHeader(s: Sector): Header {
    Header(LeValue(s[0..4]), LeValue(s[4..8]), LeValue(s[8..12]), LeValue(s[12..16]), LeValue(s[16..20]),
           LeValue(s[20..24]))
  }

  predicate Valid(crc: Crc, s: Sector): (v: bool)
    ensures v ==> ReadHeader(s).length <= 3840
  {
    var h := ReadHeader(s);
    && h.magic == ENV_MAGIC && h.version == ENV_VERSION && h.length <= 3840
    && h.headerCrc == crc(s[..20])
    && h.payloadCrc == crc(s[256..256 + h.length])
  }

  function Payload(s: Sector): seq<byte>
    requires ReadHeader(s).length <= 3840
  {
    s[256..256 + ReadHeader(s).length]
  }

  function SlotSector(slot: nat): nat { 0x1FE + slot }

  function Slot(f: Image, slot: nat): Sector
    requires slot < 2
  {
    f[SlotSector(slot)]
  }

  predicate Blank(f: Image) { Slot(f, 0) == BLANK && Slot(f, 1) == BLANK }

  /** Slot 1 is newer when its sequence is ahead by less than half the ring. */
  predicate SecondIsNewer(f: Image) {
    (ReadHeader(Slot(f, 1)).sequence - ReadHeader(Slot(f, 0)).sequence) % U32_MOD < 0x8000_0000
  }

  /** current_slot: 0 or 1, -1 for a blank store, -2 for an unreadable one. */
  function CurrentSlot(crc: Crc, f: Image): (r: int)
    ensures r == -2 || r == -1 || ((r == 0 || r == 1) && Valid(crc, Slot(f, r)))
  {
    var v0, v1 := Valid(crc, Slot(f, 0)), Valid(crc, Slot(f, 1));
    if !v0 && !v1 then if Blank(f) then -1 else -2
    else if !v0 then 1
    else if !v1 then 0
    else if SecondIsNewer(f) then 1 else 0
  }

  datatype Snapshot = Unreadable | Stored(data: seq<byte>)

  /** What z80_env_snapshot_load finds, given room for it. */
  function Load(crc: Crc, f: Image): Snapshot {
    var slot := CurrentSlot(crc, f);
    if slot == -2 then Unreadable
    else if slot == -1 then Stored([])
    else Stored(Payload(Slot(f, slot)))
  }

  // ---------------------------------------------------------------- saving

  function HeaderFields(crc: Crc, sequence: u32, data: seq<byte>): (b: seq<byte>)
    requires |data| <= 3840
    ensures |b| == 20
  {
    LeBytes(ENV_MAGIC) + LeBytes(ENV_VERSION) + LeBytes(sequence) + LeBytes(|data|) + LeBytes(crc(data))
  }

  /** The sector z80_env_snapshot_save builds. */
  function Built(crc: Crc, sequence: u32, data: seq<byte>): (s: Sector)
    requires |data| <= 3840
  {
    HeaderFields(crc, sequence, data) + LeBytes(crc(HeaderFields(crc, sequence, data))) + BLANK[24..256]
    + data + BLANK[256 + |data|..]
  }

  /** env_write_callback: payload first, the header page last. */
  function SlotOps(slot: nat, s: Sector): (ops: seq<Op>)
    requires slot < 2
    ensures OpsOk(ops) && |ops| == 3
  {
    [Erase(SlotSector(slot), 1), Program(SlotSector(slot), 256, s[256..]), Program(SlotSector(slot), 0, s[..256])]
  }

  function NextSequence(crc: Crc, f: Image): u32 {
    var slot := CurrentSlot(crc, f);
    if slot < 0 then 1 else (ReadHeader(Slot(f, slot)).sequence + 1) % U32_MOD
  }

  function NextSlot(crc: Crc, f: Image): (slot: nat)
    ensures slot < 2
  {
    if CurrentSlot(crc, f) == 0 then 1 else 0
  }

  /** The operations of writing data as the next snapshot. */
  function WriteOps(crc: Crc, f: Image, data: seq<byte>): (ops: seq<Op>)
    requires |data| <= 3840
    ensures OpsOk(ops) && |ops| == 3
  {
    SlotOps(NextSlot(crc, f), Built(crc, NextSequence(crc, f), data))
  }

  /** A cut operation never makes a snapshot that was not already there. */
  ghost predicate NoForgedSlot(crc: Crc, f: Image, g: Image) {
    forall k :: 0 <= k < 2 ==> SameIfValid(crc, Slot(f, k), Slot(g, k))
  }

  /** If t is a snapshot at all, it is the one s already was. */
  predicate SameIfValid(crc: Crc, s: Sector, t: Sector) {
    Valid(crc, t) ==> Valid(crc, s) && ReadHeader(t) == ReadHeader(s) && Payload(t) == Payload(s)
  }

  /** A slot after its payload step: data in place, header page still erased. */
  function Half(s: Sector): Sector { BLANK[..256] + s[256..] }

  ghost predicate Torn(crc: Crc, f: Image, op: Op, g: Image) {
    Interrupted(f, op, g) && NoForgedSlot(crc, f, g)
  }

  ghost predicate CutAt(crc: Crc, f: Image, ops: seq<Op>, k: nat, g: Image)
    requires OpsOk(ops)
  {
    && k <= |ops|
    && (g == Run(f, ops[..k]) || (k < |ops| && Torn(crc, Run(f, ops[..k]), ops[k], g)))
  }

  /** A readable store: some slot is valid and two valid ones are neighbours. */
  predicate Good(crc: Crc, f: Image) {
    var v0, v1 := Valid(crc, Slot(f, 0)), Valid(crc, Slot(f, 1));
    && (v0 || v1)
    && (v0 && v1 ==> Neighbours(ReadHeader(Slot(f, 0)).sequence, ReadHeader(Slot(f, 1)).sequence))
  }

  predicate Neighbours(a: u32, b: u32) {
    (b - a) % U32_MOD == 1 || (a - b) % U32_MOD == 1
  }

  /** The wrapping comparison picks the successor of two neighbours. */
  lemma WrapPicksNewer(a: u32, b: u32)
    requires Neighbours(a, b)
    ensures (b - a) % U32_MOD < 0x8000_0000 <==> b == (a + 1) % U32_MOD
    ensures !((b - a) % U32_MOD < 0x8000_0000) <==> a == (b + 1) % U32_MOD
  {
  }

  lemma BlankIsInvalid(crc: Crc)
    ensures !Valid(crc, BLANK)
  {
    var b := BLANK[0..4];
    assert b[0] == 0xFF && b[3] == 0xFF;
  }

  /** A sector whose first page is erased is not a snapshot. */
  lemma NoHeaderIsInvalid(crc: Crc, s: Sector)
    requires s[0] == 0xFF && s[1] == 0xFF && s[2] == 0xFF && s[3] == 0xFF
    ensures !Valid(crc, s)
  {
    var b := s[0..4];
    assert b[0] == 0xFF && b[3] == 0xFF;
  }

  /** What save writes is what load accepts, laid out as the sector's format says: "ENV1", the
      version, the sequence, the length and two checksums, the data from byte 256. */
  lemma BuiltRoundTrip(crc: Crc, sequence: u32, data: seq<byte>)
    requires |data| <= 3840
    ensures var s := Built(crc, sequence, data);
            Valid(crc, s) && ReadHeader(s).sequence == sequence && Payload(s) == data
    ensures var s := Built(crc, sequence, data);
            && s[..4] == Text("ENV1") && Spells(s, 4, 1) && Spells(s, 8, sequence) && Spells(s, 12, |data|)
            && Spells(s, 16, crc(data)) && Spells(s, 20, crc(s[..20])) && s[256..256 + |data|] == data
  {
    var s := Built(crc, sequence, data);
    var fields := HeaderFields(crc, sequence, data);
    assert s[..20] == fields;
    assert s[0..4] == LeBytes(ENV_MAGIC);
    assert s[4..8] == LeBytes(ENV_VERSION);
    assert s[8..12] == LeBytes(sequence);
    assert s[12..16] == LeBytes(|data|);
    assert s[16..20] == LeBytes(crc(data));
    assert s[20..24] == LeBytes(crc(fields));
    LeRoundTrip(ENV_MAGIC);
    LeRoundTrip(ENV_VERSION);
    LeRoundTrip(sequence);
    LeRoundTrip(|data|);
    LeRoundTrip(crc(data));
    LeRoundTrip(crc(fields));
    assert s[256..256 + |data|] == data;
    Layout(s, sequence, |data|, crc(data), crc(fields));
  }

  lemma Layout(s: Sector, sequence: u32, length: u32, payload: u32, header: u32)
    requires s[0..4] == LeBytes(ENV_MAGIC) && s[4..8] == LeBytes(ENV_VERSION) && s[8..12] == LeBytes(sequence)
    requires s[12..16] == LeBytes(length) && s[16..20] == LeBytes(payload) && s[20..24] == LeBytes(header)
    ensures s[..4] == Text("ENV1") && Spells(s, 4, 1) && Spells(s, 8, sequence) && Spells(s, 12, length)
    ensures Spells(s, 16, payload) && Spells(s, 20, header)
  {
    WordSpells(s, 4, 1);
    WordSpells(s, 8, sequence);
    WordSpells(s, 12, length);
    WordSpells(s, 16, payload);
    WordSpells(s, 20, header);
    assert LeBytes(ENV_MAGIC) == [0x45, 0x4E, 0x56, 0x31] == Text("ENV1");
  }

  lemma SlotPrefix(f: Image, slot: nat, s: Sector)
    requires slot < 2
    ensures var ops := SlotOps(slot, s);
            var at := SlotSector(slot);
            && Run(f, ops[..0]) == f
            && Run(f, ops[..1]) == f[at := BLANK]
            && Run(f, ops[..2]) == f[at := Half(s)]
            && Run(f, ops[..3]) == f[at := s]
  {
    hide AndBits;
    var ops := SlotOps(slot, s);
    var at := SlotSector(slot);
    assert Apply(f, ops[0]) == f[at := BLANK];
    ProgramErased(BLANK, 256, s[256..]);
    var half: Sector := BLANK[..256] + s[256..];
    assert BLANK[..256] + s[256..] + BLANK[256 + |s[256..]|..] == half;
    assert Apply(f[at := BLANK], ops[1]) == f[at := half];
    ProgramErased(half, 0, s[..256]);
    assert half[..0] + s[..256] + half[0 + |s[..256]|..] == s;
    assert Apply(f[at := half], ops[2]) == f[at := s];
    RunPrefixes(f, ops);
    assert Run(f, ops[..0 + 1]) == f[at := BLANK] && Run(f, ops[..1 + 1]) == f[at := half]
           && Run(f, ops[..2 + 1]) == f[at := s];
  }

  lemma SlotAfter(f: Image, slot: nat, s: Sector, k: nat)
    requires slot < 2 && k <= 3
    ensures var g := Run(f, SlotOps(slot, s)[..k]);
            && Slot(g, 1 - slot) == Slot(f, 1 - slot)
            && Slot(g, slot) == match k case 0 => Slot(f, slot) case 1 => BLANK case 2 => Half(s) case 3 => s
  {
    SlotPrefix(f, slot, s);
    hide Run, Half;
  }

  /** Until the new slot is whole, the old one is still the current one. */
  lemma OldSlotStands(crc: Crc, f: Image, g: Image)
    requires Good(crc, f)
    requires var slot := CurrentSlot(crc, f); Slot(g, slot) == Slot(f, slot)
    requires var other := NextSlot(crc, f); SameIfValid(crc, Slot(f, other), Slot(g, other))
    ensures Good(crc, g) && Load(crc, g) == Load(crc, f)
  {
    hide Valid, ReadHeader;
    var a, b := ReadHeader(Slot(f, 0)).sequence, ReadHeader(Slot(f, 1)).sequence;
    if Valid(crc, Slot(f, 0)) && Valid(crc, Slot(f, 1)) {
      WrapPicksNewer(a, b);
    }
  }

  /** The slot one ahead of the other, or the only valid one, is current. */
  lemma AheadIsCurrent(crc: Crc, g: Image, slot: nat)
    requires slot < 2 && Valid(crc, Slot(g, slot))
    requires Valid(crc, Slot(g, 1 - slot)) ==>
               ReadHeader(Slot(g, slot)).sequence == (ReadHeader(Slot(g, 1 - slot)).sequence + 1) % U32_MOD
    ensures Good(crc, g) && CurrentSlot(crc, g) == slot
  {
    hide Valid, ReadHeader;
    if Valid(crc, Slot(g, 1 - slot)) {
      var a, b := ReadHeader(Slot(g, 0)).sequence, ReadHeader(Slot(g, 1)).sequence;
      assert Neighbours(a, b);
      WrapPicksNewer(a, b);
    }
  }

  /** Once it is whole, the new slot is the current one. */
  lemma NewSlotWins(crc: Crc, f: Image, g: Image, data: seq<byte>)
    requires |data| <= 3840 && CurrentSlot(crc, f) != -2
    requires Slot(g, NextSlot(crc, f)) == Built(crc, NextSequence(crc, f), data)
    requires CurrentSlot(crc, f) >= 0 ==> Slot(g, CurrentSlot(crc, f)) == Slot(f, CurrentSlot(crc, f))
    requires CurrentSlot(crc, f) == -1 ==> !Valid(crc, Slot(g, 1))
    ensures Good(crc, g) && Load(crc, g) == Stored(data)
  {
    BuiltRoundTrip(crc, NextSequence(crc, f), data);
    hide Valid, ReadHeader, Built, Good, CurrentSlot;
    AheadIsCurrent(crc, g, NextSlot(crc, f));
  }

  lemma HalfIsInvalid(crc: Crc, s: Sector)
    ensures !Valid(crc, Half(s))
  {
    NoHeaderIsInvalid(crc, Half(s));
  }

  lemma SlotOpsTouch(slot: nat, s: Sector, k: nat)
    requires slot < 2 && k < 3
    ensures !SlotOps(slot, s)[k].Touches(SlotSector(1 - slot))
  {
  }

  lemma TornSlot(crc: Crc, f: Image, slot: nat, op: Op, g: Image)
    requires slot < 2 && Torn(crc, f, op, g) && !op.Touches(SlotSector(1 - slot))
    ensures Slot(g, 1 - slot) == Slot(f, 1 - slot) && SameIfValid(crc, Slot(f, slot), Slot(g, slot))
  {
    hide Valid, ReadHeader, Payload;
  }

  /** A slot write touches nothing else, and before its last step the slot is
      either invalid or still what it was. */
  lemma SlotCut(crc: Crc, f: Image, slot: nat, s: Sector, k: nat, g: Image)
    requires slot < 2 && CutAt(crc, f, SlotOps(slot, s), k, g)
    ensures Slot(g, 1 - slot) == Slot(f, 1 - slot)
    ensures if k == 3 then Slot(g, slot) == s else SameIfValid(crc, Slot(f, slot), Slot(g, slot))
  {
    BlankIsInvalid(crc);
    HalfIsInvalid(crc, s);
    SlotAfter(f, slot, s, k);
    hide Valid, ReadHeader, Payload, Run, Torn, Half, SlotOps;
    if g != Run(f, SlotOps(slot, s)[..k]) {
      SlotOpsTouch(slot, s, k);
      TornSlot(crc, Run(f, SlotOps(slot, s)[..k]), slot, SlotOps(slot, s)[k], g);
    }
  }

  /** A save cut at any step leaves exactly the old or the new snapshot. */
  lemma SaveCut(crc: Crc, f: Image, data: seq<byte>, k: nat, g: Image)
    requires Good(crc, f) && |data| <= 3840
    requires CutAt(crc, f, WriteOps(crc, f, data), k, g)
    ensures Good(crc, g)
    ensures Load(crc, g) == if k < 3 then Load(crc, f) else Stored(data)
  {
    hide Valid, ReadHeader, Built, Run, SlotOps, Payload;
    SlotCut(crc, f, NextSlot(crc, f), Built(crc, NextSequence(crc, f), data), k, g);
    if k == 3 {
      NewSlotWins(crc, f, g, data);
    } else {
      OldSlotStands(crc, f, g);
    }
  }

  // ---------------------------------------------------------------- the empty store

  lemma BaselineOps(crc: Crc, f: Image)
    requires Blank(f)
    ensures CurrentSlot(crc, f) == -1 && WriteOps(crc, f, []) == SlotOps(0, Built(crc, 1, []))
  {
    BlankIsInvalid(crc);
  }

  /** Slot 1 blank: slot 0 alone decides. */
  lemma OnlyFirstSlot(crc: Crc, g: Image)
    requires Slot(g, 1) == BLANK
    ensures Good(crc, g) <==> Valid(crc, Slot(g, 0))
    ensures Valid(crc, Slot(g, 0)) ==> Load(crc, g) == Stored(Payload(Slot(g, 0)))
    ensures !Valid(crc, Slot(g, 0)) ==> Load(crc, g) == if Slot(g, 0) == BLANK then Stored([]) else Unreadable
  {
    BlankIsInvalid(crc);
    hide Valid, ReadHeader, Payload;
  }

  /** The baseline written before the first mutation of a blank store. */
  lemma BaselineCut(crc: Crc, f: Image, k: nat, g: Image)
    requires Blank(f) && CutAt(crc, f, WriteOps(crc, f, []), k, g)
    ensures Load(crc, g) == if Blank(g) || Good(crc, g) then Stored([]) else Unreadable
    ensures k == 3 ==> Good(crc, g)
  {
    BlankIsInvalid(crc);
    BuiltRoundTrip(crc, 1, []);
    BaselineOps(crc, f);
    hide Valid, ReadHeader, Built, Run, SlotOps, Payload, WriteOps, Load, Good, CutAt;
    SlotCut(crc, f, 0, Built(crc, 1, []), k, g);
    OnlyFirstSlot(crc, g);
  }

  /** One programmed byte of the baseline's header page, the version's, is enough to lose
      the store for good: load and every later save report a read error. */
  lemma TornBaselineIsUnreadable(crc: Crc, f: Image) returns (g: Image)
    requires Blank(f)
    ensures CutAt(crc, f, WriteOps(crc, f, []), 2, g)
    ensures var s := Built(crc, 1, []); Slot(g, 0) == Half(s)[4 := s[4]]
    ensures Load(crc, g) == Unreadable
    ensures forall data :: SaveStatus(crc, g, data) != 0
  {
    var s := Built(crc, 1, []);
    VersionByte(crc);
    hide Built;
    SlotPrefix(f, 0, s);
    BaselineOps(crc, f);
    hide Valid, Run, Apply, ReadHeader, Payload, WriteOps, Load, SecondIsNewer, Torn;
    var half := Half(s);
    var torn: Sector := half[4 := s[4]];
    g := f[SlotSector(0) := torn];
    NoHeaderIsInvalid(crc, torn);
    assert torn[4] != BLANK[4];
    assert Slot(g, 0) == torn && Slot(g, 1) == BLANK;
    OnlyFirstSlot(crc, g);
    TornHeader(crc, f, half, torn, SlotOps(0, s)[2]);
  }

  lemma VersionByte(crc: Crc)
    ensures Built(crc, 1, [])[4] == 1
  {
    assert Built(crc, 1, [])[4] == HeaderFields(crc, 1, [])[4] == LeBytes(ENV_VERSION)[0];
  }

  lemma TornHeader(crc: Crc, f: Image, half: Sector, torn: Sector, op: Op)
    requires Blank(f) && op.Touches(SlotSector(0)) && !Valid(crc, torn)
    ensures Torn(crc, f[SlotSector(0) := half], op, f[SlotSector(0) := torn])
  {
    BlankIsInvalid(crc);
    hide Valid, ReadHeader, Payload;
  }

  // ---------------------------------------------------------------- the whole save

  predicate Unchanged(crc: Crc, f: Image, data: seq<byte>) {
    CurrentSlot(crc, f) >= 0 && Load(crc, f) == Stored(data)
  }

  /** The status z80_env_snapshot_save returns when the bus is granted. */
  function SaveStatus(crc: Crc, f: Image, data: seq<byte>): int {
    if |data| > 3840 then -4 else if CurrentSlot(crc, f) == -2 then -2 else 0
  }

  /** Everything a save programs: nothing, one slot, or baseline then data. */
  function SaveOps(crc: Crc, f: Image, data: seq<byte>): (ops: seq<Op>)
    ensures OpsOk(ops)
  {
    if SaveStatus(crc, f, data) != 0 || Unchanged(crc, f, data) then []
    else if CurrentSlot(crc, f) == -1 && data != [] then
      var base := WriteOps(crc, f, []);
      base + WriteOps(crc, Run(f, base), data)
    else WriteOps(crc, f, data)
  }

  /** After an uncut save load returns what was saved; a refused one changes nothing. */
  lemma SaveThenLoad(crc: Crc, f: Image, data: seq<byte>)
    requires CurrentSlot(crc, f) == -1 || Good(crc, f)
    requires |data| <= 3840
    ensures SaveStatus(crc, f, data) == 0
    ensures var g := Run(f, SaveOps(crc, f, data)); Load(crc, g) == Stored(data) && Good(crc, g)
  {
    hide Valid, ReadHeader, Built, WriteOps, Payload;
    if Unchanged(crc, f, data) {
    } else if CurrentSlot(crc, f) == -1 {
      var base := WriteOps(crc, f, []);
      var g := Run(f, base);
      assert base[..3] == base;
      BaselineCut(crc, f, 3, g);
      if data != [] {
        var ops := WriteOps(crc, g, data);
        assert ops[..3] == ops;
        SaveCut(crc, g, data, 3, Run(g, ops));
        RunAppend(f, base, ops);
      }
    } else {
      var ops := WriteOps(crc, f, data);
      assert ops[..3] == ops;
      SaveCut(crc, f, data, 3, Run(f, ops));
    }
  }

  /** Whatever a cut leaves loads as the old or as the new snapshot. */
  ghost predicate AtomicSave(crc: Crc, f: Image, data: seq<byte>) {
    forall k: nat, g: Image :: CutAt(crc, f, SaveOps(crc, f, data), k, g) ==>
      Load(crc, g) == Load(crc, f) || Load(crc, g) == Stored(data)
  }

  /** A save to a blank store can be cut where the baseline's header page is half written. */
  lemma BlankSaveCut(crc: Crc, f: Image, data: seq<byte>) returns (g: Image)
    requires Blank(f) && |data| <= 3840
    ensures CutAt(crc, f, SaveOps(crc, f, data), 2, g) && Load(crc, g) == Unreadable
  {
    hide Valid, Built, Run, Apply, ReadHeader, Payload, WriteOps, Torn, SaveOps, Load;
    SaveStartsWithBaseline(crc, f, data);
    g := TornBaselineIsUnreadable(crc, f);
  }

  lemma SaveStartsWithBaseline(crc: Crc, f: Image, data: seq<byte>)
    requires Blank(f) && |data| <= 3840
    ensures var base, ops := WriteOps(crc, f, []), SaveOps(crc, f, data);
            |ops| >= 3 && ops[..2] == base[..2] && ops[2] == base[2]
  {
    BlankIsInvalid(crc);
    hide Valid, Run, WriteOps, ReadHeader, Payload;
  }

  /** Exactly when a save is atomic, for a store that is blank or readable: when it is
      readable. Only the first save to a blank store is not. */
  lemma SaveIsAtomicIff(crc: Crc, f: Image, data: seq<byte>)
    requires (Blank(f) || Good(crc, f)) && |data| <= 3840
    ensures AtomicSave(crc, f, data) <==> Good(crc, f)
  {
    if Good(crc, f) {
      forall k: nat, g: Image | CutAt(crc, f, SaveOps(crc, f, data), k, g)
        ensures Load(crc, g) == Load(crc, f) || Load(crc, g) == Stored(data)
      {
        var took := StoreStep(crc, f, SaveCutOff(data, k, g), g);
      }
    } else {
      var g := BlankSaveCut(crc, f, data);
      BlankIsInvalid(crc);
      hide Valid, CutAt;
      assert Load(crc, f) == Stored([]);
    }
  }

  /** One life of a readable store: a save that completes, or one a power cut ends. */
  datatype Event = Saved(data: seq<byte>) | SaveCutOff(data: seq<byte>, k: nat, after: Image)

  ghost predicate Step(crc: Crc, f: Image, e: Event, g: Image) {
    match e
    case Saved(data) => |data| <= 3840 && g == Run(f, SaveOps(crc, f, data))
    case SaveCutOff(data, k, after) =>
      |data| <= 3840 && CutAt(crc, f, SaveOps(crc, f, data), k, after) && g == after
  }

  /** Over any run of saves and power cuts on a readable store it stays
      readable, two valid slots are always neighbours, and load returns the last
      completed save or one cut after it. */
  lemma {:induction false} StoreRun(crc: Crc, images: seq<Image>, events: seq<Event>) returns (last: int)
    requires |images| == |events| + 1 && Good(crc, images[0])
    requires forall j :: 0 <= j < |events| ==> Step(crc, images[j], events[j], images[j + 1])
    ensures forall j :: 0 <= j < |images| ==> Good(crc, images[j])
    ensures -1 <= last < |events|
    ensures forall j :: last < j < |events| ==> !events[j].Saved?
    ensures Load(crc, images[|events|])
            == if last < 0 then Load(crc, images[0]) else Stored(events[last].data)
    decreases |events|
  {
    hide Good, Load, Step;
    if events == [] {
      last := -1;
    } else {
      var n := |events| - 1;
      last := StoreRun(crc, images[..n + 1], events[..n]);
      var f, g := images[n], images[n + 1];
      assert Step(crc, f, events[n], g);
      var took := StoreStep(crc, f, events[n], g);
      if took {
        last := n;
      }
    }
  }

  lemma StoreStep(crc: Crc, f: Image, e: Event, g: Image) returns (took: bool)
    requires Good(crc, f) && Step(crc, f, e, g)
    ensures Good(crc, g)
    ensures e.Saved? ==> took
    ensures Load(crc, g) == if took then Stored(e.data) else Load(crc, f)
  {
    hide Valid, ReadHeader, Built, WriteOps, Payload;
    if e.Saved? {
      SaveThenLoad(crc, f, e.data);
      took := true;
    } else if Unchanged(crc, f, e.data) {
      took := false;
    } else {
      SaveCut(crc, f, e.data, e.k, g);
      took := e.k == 3;
    }
  }

  /** environment_store.c over the flash it reads and rewrites. */
  class Store {
    const crc: Crc
    var flash: Image

    constructor (crc: Crc, image: Image)
      ensures this.crc == crc && flash == image
    {
      this.crc := crc;
      flash := image;
    }

    /** current_slot, with its byte-by-byte test for an erased store. */
    method FindCurrent() returns (slot: int)
      ensures slot == CurrentSlot(crc, flash)
    {
      var v0, v1 := Valid(crc, Slot(flash, 0)), Valid(crc, Slot(flash, 1));
      if !v0 && !v1 {
        for k := 0 to 2
          invariant forall j :: 0 <= j < k ==> Slot(flash, j) == BLANK
        {
          for i := 0 to 4096
            invariant forall j :: 0 <= j < i ==> Slot(flash, k)[j] == BLANK[j]
          {
            if Slot(flash, k)[i] != 0xFF {
              assert Slot(flash, k) != BLANK;
              return -2;
            }
          }
          assert Slot(flash, k) == BLANK;
        }
        return -1;
      }
      slot := if !v0 then 1 else if !v1 then 0 else if SecondIsNewer(flash) then 1 else 0;
    }

    /** env_write_callback between acquiring and releasing the bus. */
    method EnvWrite(slot: nat, s: Sector, bus: Bus) returns (ok: bool)
      modifies `flash
      ensures ok == (slot < 2 && bus.acquired && bus.released)
      ensures flash == if slot < 2 && bus.acquired then Run(old(flash), SlotOps(slot, s)) else old(flash)
    {
      if slot >= 2 || !bus.acquired {
        return false;
      }
      ghost var f := flash;
      var ops := SlotOps(slot, s);
      SlotPrefix(f, slot, s);
      RunPrefixes(f, ops);
      hide Run, Apply;
      var committed := false;
      flash := Apply(flash, ops[0]);
      assert flash == Run(f, ops[..0 + 1]);
      flash := Apply(flash, ops[1]);
      assert flash == Run(f, ops[..1 + 1]);
      if flash[SlotSector(slot)][256..] == s[256..] {
        flash := Apply(flash, ops[2]);
        assert flash == Run(f, ops[..2 + 1]);
        committed := flash[SlotSector(slot)] == s;
      }
      return bus.released && committed;
    }

    /** z80_env_snapshot_load. */
    method LoadSnapshot(capacity: nat) returns (status: int, data: seq<byte>)
      ensures Load(crc, flash) == Unreadable <==> status == -2
      ensures Load(crc, flash).Stored? && capacity < |Load(crc, flash).data| <==> status == -4
      ensures status == 0 ==> Load(crc, flash) == Stored(data) && |data| <= capacity
      ensures status == 0 || status == -2 || status == -4
    {
      data := [];
      var slot := FindCurrent();
      if slot == -2 {
        return -2, [];
      }
      var length := if slot < 0 then 0 else ReadHeader(Slot(flash, slot)).length;
      if capacity < length {
        return -4, [];
      }
      if length != 0 {
        data := Slot(flash, slot)[256..256 + length];
      }
      status := 0;
    }

    /** z80_env_snapshot_save; a status of 0 means the snapshot is durable. */
    method Save(data: seq<byte>, first: Bus, second: Bus) returns (status: int)
      modifies `flash
      ensures first == second == Bus(true, true) ==>
                status == SaveStatus(crc, old(flash), data) && flash == Run(old(flash), SaveOps(crc, old(flash), data))
      ensures status == 0 && (CurrentSlot(crc, old(flash)) == -1 || Good(crc, old(flash))) ==>
                Load(crc, flash) == Stored(data) && Good(crc, flash)
      ensures status == -2 || status == -4 ==> flash == old(flash)
    {
      hide Valid, ReadHeader, Built, Run, SlotOps, Good;
      ghost var f := flash;
      RunNothing(f);
      if |data| > 3840 {
        return -4;
      }
      var slot := FindCurrent();
      if slot == -2 {
        return -2;
      }
      if CurrentSlot(crc, f) == -1 || Good(crc, f) {
        SaveThenLoad(crc, f, data);
      }
      if slot >= 0 && Payload(Slot(flash, slot)) == data {
        return 0;
      }
      if slot == -1 && data != [] {
        BaselineDone(crc, f);
        status := Baseline(first);
        if status != 0 {
          return;
        }
        RunAppend(f, WriteOps(crc, f, []), WriteOps(crc, flash, data));
      }
      var s := Built(crc, NextSequence(crc, flash), data);
      var ok := EnvWrite(NextSlot(crc, flash), s, if slot == -1 && data != [] then second else first);
      return if ok then 0 else -3;
    }

    /** The recursive call that gives a blank store its empty baseline. */
    method Baseline(bus: Bus) returns (status: int)
      requires CurrentSlot(crc, flash) == -1
      modifies `flash
      ensures status == if bus == Bus(true, true) then 0 else -3
      ensures status == 0 ==> flash == Run(old(flash), WriteOps(crc, old(flash), []))
      ensures status == 0 ==> Good(crc, flash) && Load(crc, flash) == Stored([])
    {
      BaselineDone(crc, flash);
      hide Valid, WriteOps, Run, SlotOps, Built;
      var ok := EnvWrite(NextSlot(crc, flash), Built(crc, NextSequence(crc, flash), []), bus);
      return if ok then 0 else -3;
    }
  }

  lemma RunNothing(f: Image)
    ensures Run(f, []) == f
  {
  }

  lemma BaselineDone(crc: Crc, f: Image)
    requires CurrentSlot(crc, f) == -1
    ensures var g := Run(f, WriteOps(crc, f, [])); CurrentSlot(crc, g) >= 0 && Good(crc, g) && Load(crc, g) == Stored([])
  {
    hide Valid, WriteOps, Run;
    var base := WriteOps(crc, f, []);
    assert base[..3] == base;
    BaselineCut(crc, f, 3, Run(f, base));
  }
}
