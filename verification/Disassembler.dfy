/** The control-flow discovery of disassemble_cpm64.py: decode one 8080 instruction, then
    follow every path from the entry points. */
module Disassembler {
  import opened Bytes
  import opened Options

  const ORIGIN := 0xE300
  const BDOS_BASE := 0xEB00
  const BIOS_BASE := 0xF900

  const UNOFFICIAL: set<int> := {0x08, 0x10, 0x18, 0x20, 0x28, 0x30, 0x38, 0xCB, 0xD9, 0xDD, 0xED, 0xFD}

  datatype Flow = Next | Jump | Call | ConditionalJump | ConditionalCall | Stop | Unofficial

  datatype Instruction = Instruction(address: int, opcode: byte, size: int, target: Option<int>, flow: Flow)
  {
    /** Where execution goes on if it does not branch. */
    function FallThrough(): Option<int> { if flow == Stop || flow == Jump then None else Some(address + size) }
  }

  datatype Error =
    | IndexOutOfRange
    | TruncatedInstruction
    | UnsupportedOpcode
    | EntersData
    | NonOfficialOpcode
    | CrossesEnd
    | Overlapping
    | NotABoundary

  datatype Result<T> = Ok(value: T) | Err(error: Error)

  predicate InImage(a: int) { ORIGIN <= a < BIOS_BASE }

  // ---------------------------------------------------------------- decode

  /** The one-byte and operand-carrying opcodes of the table. */
  predicate FixedOne(op: byte) {
    op in {0x00, 0x02, 0x07, 0x0A, 0x0F, 0x12, 0x17, 0x1A, 0x1F, 0x27, 0x2F, 0x37, 0x3F, 0xC9, 0xE3, 0xE9, 0xEB, 0xF3, 0xF9, 0xFB}
  }

  predicate FixedThree(op: byte) { op in {0x22, 0x2A, 0x32, 0x3A, 0xC3, 0xCD} }

  function FixedFlow(op: byte): Flow {
    if op == 0xC3 then Jump else if op == 0xCD then Call else if op == 0xC9 || op == 0xE9 then Stop else Next
  }

  /** Opcodes below 0x40 that are not in the table. */
  function DecodeLow(address: int, op: byte): Result<Instruction> {
    var nibble := op % 16;
    if nibble == 0x01 then Ok(Instruction(address, op, 3, None, Next))
    else if nibble == 0x06 || nibble == 0x0E then Ok(Instruction(address, op, 2, None, Next))
    else if nibble in {0x03, 0x04, 0x0C, 0x05, 0x0D, 0x09, 0x0B} || op % 8 == 7 then Ok(Instruction(address, op, 1, None, Next))
    else Err(UnsupportedOpcode)
  }

  function DecodeHigh(address: int, op: byte, word: int): Result<Instruction> {
    var column := op % 8;
    if column == 2 then Ok(Instruction(address, op, 3, Some(word), ConditionalJump))
    else if column == 4 then Ok(Instruction(address, op, 3, Some(word), ConditionalCall))
    else if column == 6 then Ok(Instruction(address, op, 2, None, Next))
    else if column != 3 then Ok(Instruction(address, op, 1, None, Next))
    else Err(UnsupportedOpcode)
  }

  /** decode. Building the table of fixed opcodes fetches two operand bytes whatever the
      opcode, so any opcode not decided early is refused in the last two bytes. */
  function Decode(image: seq<byte>, address: int): Result<Instruction>
    requires address >= ORIGIN
  {
    var offset := address - ORIGIN;
    if offset >= |image| then Err(IndexOutOfRange)
    else
      var op := image[offset];
      if op in UNOFFICIAL then Ok(Instruction(address, op, 1, None, Unofficial))
      else if 0x40 <= op <= 0xBF then Ok(Instruction(address, op, 1, None, if op == 0x76 then Stop else Next))
      else if offset + 2 >= |image| then Err(TruncatedInstruction)
      else
        var word := image[offset + 1] as int + 256 * (image[offset + 2] as int);
        if FixedOne(op) then Ok(Instruction(address, op, 1, None, FixedFlow(op)))
        else if op == 0xD3 || op == 0xDB then Ok(Instruction(address, op, 2, None, Next))
        else if FixedThree(op) then
          Ok(Instruction(address, op, 3, if op == 0xC3 || op == 0xCD then Some(word) else None, FixedFlow(op)))
        else if op < 0x40 then DecodeLow(address, op)
        else DecodeHigh(address, op, word)
  }

  /** Opcodes the 8080 does not document: column 0 of the first quarter but for NOP, and five more. */
  predicate Undocumented(op: byte) {
    (0 < op < 0x40 && op % 8 == 0) || op == 0xCB || op == 0xD9 || (op > 0xD0 && op % 16 == 0xD)
  }

  /** Opcodes decided before the table of fixed opcodes is built. */
  predicate Early(op: byte) { Undocumented(op) || op / 64 == 1 || op / 64 == 2 }

  /** The 8080's own instruction lengths, by opcode column. */
  function Length(op: byte): int {
    if Undocumented(op) || op / 64 == 1 || op / 64 == 2 then 1
    else if op < 0x40 then
      if op % 16 == 1 || op in {0x22, 0x2A, 0x32, 0x3A} then 3 else if op % 8 == 6 then 2 else 1
    else if op % 8 == 2 || op % 8 == 4 || op == 0xC3 || op == 0xCD then 3
    else if op % 8 == 6 || op == 0xD3 || op == 0xDB then 2
    else 1
  }

  /** Where the 8080 goes next, by opcode column. */
  function FlowOf(op: byte): Flow {
    if Undocumented(op) then Unofficial
    else if op == 0x76 || op == 0xC9 || op == 0xE9 then Stop
    else if op == 0xC3 then Jump
    else if op == 0xCD then Call
    else if op >= 0xC0 && op % 8 == 2 then ConditionalJump
    else if op >= 0xC0 && op % 8 == 4 then ConditionalCall
    else Next
  }

  /** The address an instruction carries, if its flow uses one. */
  function TargetOf(image: seq<byte>, offset: nat): Option<int>
    requires offset + 2 < |image|
  {
    if FlowOf(image[offset]) in {Jump, Call, ConditionalJump, ConditionalCall}
    then Some(image[offset + 1] as int + 256 * (image[offset + 2] as int)) else None
  }

  /** Every opcode decodes to its 8080 length, flow and target; decoding fails exactly past the image or,
      for any opcode not decided early, within its last two bytes. */
  lemma DecodeTotal(image: seq<byte>, address: int)
    requires address >= ORIGIN
    ensures var offset := address - ORIGIN; var r := Decode(image, address);
            && (offset >= |image| ==> r == Err(IndexOutOfRange))
            && (offset < |image| ==>
                  && (r.Ok? <==> Early(image[offset]) || offset + 2 < |image|)
                  && (r.Err? ==> r.error == TruncatedInstruction)
                  && (r.Ok? ==>
                        && r.value.address == address && r.value.opcode == image[offset]
                        && r.value.size == Length(image[offset]) && 1 <= r.value.size <= 3
                        && r.value.flow == FlowOf(image[offset])
                        && r.value.target == if offset + 2 < |image| then TargetOf(image, offset) else None))
  {
  }

  /** RET as the last byte of an image is complete, and is refused. */
  lemma RefusesFinalReturn(image: seq<byte>)
    requires image != [] && image[|image| - 1] == 0xC9
    ensures Length(0xC9) == 1
    ensures Decode(image, ORIGIN + |image| - 1) == Err(TruncatedInstruction)
  {
  }

  // ---------------------------------------------------------------- roots

  /** The little-endian word at an address, if it lies in an image loaded at E300. */
  predicate Holds(image: seq<byte>, address: int, word: int) {
    var k := address - 0xE300;
    0 <= k && k + 1 < |image| && word == image[k] as int + 256 * (image[k + 1] as int)
  }

  /** Little-endian words from a jump table. */
  method TableTargets(image: seq<byte>, start: int, count: nat) returns (r: Result<seq<int>>)
    requires start >= ORIGIN
    ensures r.Err? <==> count > 0 && start - 0xE300 + 2 * count > |image|
    ensures r.Ok? ==> |r.value| == count && forall i :: 0 <= i < count ==> Holds(image, start + 2 * i, r.value[i])
    ensures r.Err? ==> r.error == IndexOutOfRange
  {
    var targets: seq<int> := [];
    var index := 0;
    while index < count && start - ORIGIN + index * 2 + 1 < |image|
      invariant 0 <= index == |targets| <= count
      invariant forall i :: 0 <= i < index ==> Holds(image, start + 2 * i, targets[i])
      invariant index > 0 ==> start - ORIGIN + 2 * index <= |image|
    {
      var offset := start - ORIGIN + index * 2;
      targets := targets + [image[offset] as int + 256 * (image[offset + 1] as int)];
      index := index + 1;
    }
    r := if index == count then Ok(targets) else Err(IndexOutOfRange);
  }

  const ENTRIES: set<int> := {0xE300, 0xE303, 0xEB06, 0xF874}

  /** The addresses discovery starts from: four entries, 7 command handlers, 4 error handlers
      and those of 41 system functions that lie in the image. */
  ghost predicate IsRoot(image: seq<byte>, a: int) {
    || a == 0xE300 || a == 0xE303 || a == 0xEB06 || a == 0xF874
    || (exists i: nat :: i < 7 && Holds(image, 0xE6C1 + 2 * i, a))
    || (exists i: nat :: i < 4 && Holds(image, 0xEB09 + 2 * i, a))
    || (exists i: nat :: i < 41 && Holds(image, 0xEB47 + 2 * i, a) && 0xE300 <= a < 0xF900)
  }

  method Roots(image: seq<byte>) returns (r: Result<set<int>>)
    ensures r.Ok? <==> |image| >= 0xEB47 - 0xE300 + 82
    ensures r.Ok? ==> forall a :: a in r.value <==> IsRoot(image, a)
    ensures r.Err? ==> r.error == IndexOutOfRange
  {
    var ccp := TableTargets(image, 0xE6C1, 7);
    var errors := TableTargets(image, 0xEB09, 4);
    var functions := TableTargets(image, 0xEB47, 41);
    if ccp.Err? || errors.Err? || functions.Err? {
      r := Err(IndexOutOfRange);
    } else {
      var found := ENTRIES + (set a | a in ccp.value) + (set a | a in errors.value)
                   + (set a | a in functions.value && InImage(a));
      forall a
        ensures a in found <==> IsRoot(image, a)
      {
        TableMembers(image, 0xE6C1, ccp.value, a);
        TableMembers(image, 0xEB09, errors.value, a);
        TableMembers(image, 0xEB47, functions.value, a);
      }
      r := Ok(found);
    }
  }

  lemma TableMembers(image: seq<byte>, start: int, words: seq<int>, a: int)
    requires forall i :: 0 <= i < |words| ==> Holds(image, start + 2 * i, words[i])
    ensures a in words <==> exists i: nat :: i < |words| && Holds(image, start + 2 * i, a)
  {
    if a in words {
      var i :| 0 <= i < |words| && words[i] == a;
      assert Holds(image, start + 2 * i, a);
    }
    if i: nat :| i < |words| && Holds(image, start + 2 * i, a) {
      assert words[i] == a;
    }
  }
}
