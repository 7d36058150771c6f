/** The byte ring of http_io.c between the decoder and the mailbox slot. */
module HttpRing {
  import opened Bytes
  import opened HttpIo

  /** Where the i-th byte from the tail lies. */
  function At(tail: nat, i: nat): (k: nat)
    ensures k < RING
  {
    (tail + i) % RING
  }

  lemma AtDistinct(tail: nat, i: nat, j: nat)
    requires i < j < RING
    ensures At(tail, i) != At(tail, j)
  {
  }

  lemma AtNext(tail: nat, i: nat)
    ensures At((tail + 1) % RING, i) == At(tail, i + 1)
  {
  }

  class Ring {
    const data: array<byte>
    var head: nat
    var tail: nat
    var count: nat

    ghost predicate Valid()
      reads this
    {
      data.Length == RING && tail < RING && count <= RING && head == At(tail, count)
    }

    ghost function Contents(): (c: seq<byte>)
      reads this, data
      requires Valid()
      ensures |c| == count
    {
      seq(count, i requires 0 <= i < count && Valid() reads this, data => data[At(tail, i)])
    }

    constructor ()
      ensures Valid() && Contents() == [] && fresh(data)
    {
      data := new byte[RING](_ => 0);
      head, tail, count := 0, 0, 0;
    }

    /** emit: the consumer z80_http_stream_feed sees, with room for RING - count bytes. */
    method Emit(b: byte) returns (ok: bool)
      requires Valid()
      modifies this`head, this`count, data
      ensures Valid() && ok == (|old(Contents())| < RING)
      ensures Contents() == if ok then old(Contents()) + [b] else old(Contents())
    {
      ok := count != RING;
      if ok {
        ghost var before := Contents();
        data[head] := b;
        head := (head + 1) % RING;
        count := count + 1;
        forall i | 0 <= i < count - 1
          ensures At(tail, i) != At(tail, count - 1)
        {
          AtDistinct(tail, i, count - 1);
        }
        assert Contents() == before + [b];
      }
    }

    method Pop() returns (b: byte)
      requires Valid() && count > 0
      modifies this`tail, this`count
      ensures Valid() && [b] + Contents() == old(Contents())
    {
      ghost var before := Contents();
      b := data[tail];
      AtNext(tail, count - 1);
      ghost var first := tail;
      tail := (tail + 1) % RING;
      count := count - 1;
      forall i | 0 <= i < count
        ensures Contents()[i] == before[i + 1]
      {
        AtNext(first, i);
      }
      assert before[0] == b && before[1..] == Contents();
    }

    /** The copy loop of z80_http_io_core1_service. */
    method Take(slot: array<byte>, n: nat)
      requires Valid() && n <= count && n <= slot.Length && slot != data
      modifies this`tail, this`count, slot
      ensures Valid() && Contents() == old(Contents())[n..]
      ensures slot[..n] == old(Contents())[..n] && slot[n..] == old(slot[n..])
    {
      ghost var before := Contents();
      var i := 0;
      while i < n
        invariant 0 <= i <= n && Valid() && Contents() == before[i..]
        invariant slot[..i] == before[..i] && slot[n..] == old(slot[n..])
      {
        var b := Pop();
        assert before[i..][0] == b;
        slot[i] := b;
        i := i + 1;
      }
    }
  }
}
