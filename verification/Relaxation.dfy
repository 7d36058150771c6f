/** The JR selection rule of emit_z80_port: chosen from the original addresses, before the
    section is compacted, and still in range after. */
module Relaxation {
  import opened Bytes
  import opened Options
  import opened Disassembler

  /** One emitted item: the bytes it took in the image and takes in the port. */
  datatype Item = Item(oldSize: nat, newSize: nat)

  function OldAddress(items: seq<Item>, base: int, i: nat): int
    requires i <= |items|
  {
    if i == 0 then base else OldAddress(items, base, i - 1) + items[i - 1].oldSize
  }

  function NewAddress(items: seq<Item>, base: int, i: nat): int
    requires i <= |items|
  {
    if i == 0 then base else NewAddress(items, base, i - 1) + items[i - 1].newSize
  }

  predicate NoGrowth(items: seq<Item>) { forall k :: 0 <= k < |items| ==> items[k].newSize <= items[k].oldSize }

  /** NZ, Z, NC or C: the conditions JR can test. */
  predicate JrCondition(op: byte) { op / 8 % 8 < 4 }

  predicate ShortRange(displacement: int) { -128 <= displacement <= 127 }

  /** The rule: a jump within its section, near enough at its original address. */
  predicate UsesJr(i: Instruction) {
    && (i.flow == Jump || i.flow == ConditionalJump) && i.target.Some?
    && (i.address < BDOS_BASE <==> i.target.value < BDOS_BASE)
    && ShortRange(i.target.value - (i.address + 2))
    && (i.flow == Jump || JrCondition(i.opcode))
  }

  /** Exactly which jumps are shortened: those within one section and near enough that are JMP, JNZ, JZ,
      JNC or JC; JPO, JPE, JP and JM have no short form. */
  lemma ShortenedExactly(image: seq<byte>, a: int)
    requires InImage(a) && Decode(image, a).Ok?
    ensures var k := a - 0xE300;
            UsesJr(Decode(image, a).value) <==>
              && k + 2 < |image| && image[k] in {0xC3, 0xC2, 0xCA, 0xD2, 0xDA}
              && var target := image[k + 1] as int + 256 * (image[k + 2] as int);
                 (a < 0xEB00 <==> target < 0xEB00) && a + 2 - 128 <= target <= a + 2 + 127
  {
    DecodeTotal(image, a);
    hide Decode, Length;
  }

  /** Compaction only brings items closer, and never reorders them. */
  lemma {:induction false} Closer(items: seq<Item>, oldBase: int, newBase: int, i: nat, j: nat)
    requires NoGrowth(items) && i <= j <= |items|
    ensures 0 <= NewAddress(items, newBase, j) - NewAddress(items, newBase, i)
              <= OldAddress(items, oldBase, j) - OldAddress(items, oldBase, i)
    decreases j
  {
    if i < j {
      Closer(items, oldBase, newBase, i, j - 1);
    }
  }

  /** Branch relaxation is sound: every jump the rule shortens still reaches its target,
      wherever the compacted section is placed and whatever else in it shrinks. */
  lemma RelaxationSound(items: seq<Item>, oldBase: int, newBase: int, jump: Instruction, i: nat, j: nat)
    requires NoGrowth(items) && i < |items| && j <= |items|
    requires UsesJr(jump) && items[i].newSize == 2
    requires jump.address == OldAddress(items, oldBase, i) && jump.target == Some(OldAddress(items, oldBase, j))
    ensures ShortRange(NewAddress(items, newBase, j) - (NewAddress(items, newBase, i) + 2))
  {
    if j <= i {
      Closer(items, oldBase, newBase, j, i);
    } else {
      Closer(items, oldBase, newBase, i, j);
      Closer(items, oldBase, newBase, i + 1, j);
    }
  }

  /** The assumption is needed: one item that grows can push a target out of reach. */
  lemma GrowthBreaks()
    ensures var items := [Item(3, 2), Item(126, 128)];
            var jump := Instruction(ORIGIN, 0xC3, 3, Some(ORIGIN + 129), Jump);
            && UsesJr(jump) && jump.target == Some(OldAddress(items, ORIGIN, 2)) && items[0].newSize == 2
            && !ShortRange(NewAddress(items, ORIGIN, 2) - (NewAddress(items, ORIGIN, 0) + 2))
  {
    var items := [Item(3, 2), Item(126, 128)];
    assert OldAddress(items, ORIGIN, 1) == ORIGIN + 3 && NewAddress(items, ORIGIN, 1) == ORIGIN + 2;
  }
}
