/** The flash chip of the board: 1024 sectors of 4096 bytes that are erased as
    a whole and programmed by clearing bits, and what a power cut can leave. */
module Flash {
  import opened Bytes

  type Sector = s: seq<byte> | |s| == 4096 witness seq(4096, _ => 0xFF)

  type Image = f: seq<Sector> | |f| == 1024 witness seq<Sector>(1024, _ => BLANK)

  /** An erased sector reads as all ones. */
  function Filled(b: byte): (s: Sector)
    ensures forall k :: 0 <= k < 4096 ==> s[k] == b
  {
    seq(4096, _ => b)
  }

  const BLANK: Sector := Filled(0xFF)

  /** Whether core 0 grants and gives back the Z80 bus around one flash job. */
  datatype Bus = Bus(acquired: bool, released: bool)

  datatype Op =
    | Erase(first: nat, count: nat)
    | Program(sector: nat, offset: nat, data: seq<byte>)
  {
    predicate Ok() {
      match this
      case Erase(first, count) => first + count <= 1024
      case Program(sector, offset, data) => sector < 1024 && offset + |data| <= 4096
    }

    predicate Touches(i: nat) {
      match this
      case Erase(first, count) => first <= i < first + count
      case Program(sector, _, _) => i == sector
    }
  }

  /** Programming clears bits: every byte becomes the AND of old and new. */
  function Programmed(s: Sector, offset: nat, data: seq<byte>): Sector
    requires offset + |data| <= 4096
  {
    seq(4096, k requires 0 <= k < 4096 =>
      if offset <= k < offset + |data| then (AndBits(s[k], data[k - offset]) as byte) else s[k])
  }

  function Apply(f: Image, op: Op): Image
    requires op.Ok()
  {
    match op
    case Erase(first, count) =>
      seq(1024, i requires 0 <= i < 1024 => if first <= i < first + count then BLANK else f[i])
    case Program(sector, offset, data) =>
      f[sector := Programmed(f[sector], offset, data)]
  }

  predicate OpsOk(ops: seq<Op>) {
    forall k :: 0 <= k < |ops| ==> ops[k].Ok()
  }

  function Run(f: Image, ops: seq<Op>): Image
    requires OpsOk(ops)
    decreases |ops|
  {
    if ops == [] then f else Run(Apply(f, ops[0]), ops[1..])
  }

  /** g is f with op interrupted: only sectors op addresses may differ, by anything. */
  predicate Interrupted(f: Image, op: Op, g: Image) {
    forall i :: 0 <= i < 1024 && !op.Touches(i) ==> g[i] == f[i]
  }

  lemma {:induction false} RunAppend(f: Image, a: seq<Op>, b: seq<Op>)
    requires OpsOk(a) && OpsOk(b)
    ensures OpsOk(a + b)
    ensures Run(f, a + b) == Run(Run(f, a), b)
    decreases |a|
  {
    if a == [] {
      assert a + b == b;
    } else {
      assert (a + b)[0] == a[0] && (a + b)[1..] == a[1..] + b;
      RunAppend(Apply(f, a[0]), a[1..], b);
    }
  }

  lemma RunOne(f: Image, a: seq<Op>, op: Op)
    requires OpsOk(a) && op.Ok()
    ensures OpsOk(a + [op])
    ensures Run(f, a + [op]) == Apply(Run(f, a), op)
  {
    RunAppend(f, a, [op]);
    var g := Run(f, a);
    assert [op][0] == op && [op][1..] == [];
    assert Run(Apply(g, op), []) == Apply(g, op);
  }

  /** A run, one operation at a time. */
  lemma RunPrefixes(f: Image, ops: seq<Op>)
    requires OpsOk(ops)
    ensures Run(f, ops[..0]) == f && ops[..|ops|] == ops
    ensures forall k :: 0 <= k < |ops| ==> Run(f, ops[..k + 1]) == Apply(Run(f, ops[..k]), ops[k])
  {
    forall k | 0 <= k < |ops|
      ensures Run(f, ops[..k + 1]) == Apply(Run(f, ops[..k]), ops[k])
    {
      assert ops[..k + 1] == ops[..k] + [ops[k]];
      RunOne(f, ops[..k], ops[k]);
    }
  }

  lemma {:induction false} RunFrame(f: Image, ops: seq<Op>, i: nat)
    requires OpsOk(ops) && i < 1024
    requires forall k :: 0 <= k < |ops| ==> !ops[k].Touches(i)
    ensures Run(f, ops)[i] == f[i]
    decreases |ops|
  {
    if ops != [] {
      assert Apply(f, ops[0])[i] == f[i];
      RunFrame(Apply(f, ops[0]), ops[1..], i);
    }
  }

  /** Programming a range that is still erased stores exactly the data. */
  lemma ProgramErased(s: Sector, offset: nat, data: seq<byte>)
    requires offset + |data| <= 4096
    requires forall k :: offset <= k < offset + |data| ==> s[k] == 0xFF
    ensures Programmed(s, offset, data) == s[..offset] + data + s[offset + |data|..]
  {
    var p := Programmed(s, offset, data);
    var q := s[..offset] + data + s[offset + |data|..];
    assert |q| == 4096;
    forall k | 0 <= k < 4096
      ensures p[k] == q[k]
    {
      if offset <= k < offset + |data| {
        AndErased(data[k - offset]);
      }
    }
  }
}
