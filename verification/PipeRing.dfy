/** The ring buffer inside a pipe: the copy loops of pipe_read and pipe_write. */
module PipeRing {
  import opened Prelude

  const CAPACITY: nat := 3952  // 4096 - sizeof(struct pipe)

  datatype Ring = Ring(buffer: seq<byte>, readOffset: nat, writeOffset: nat, available: nat)

  ghost predicate RingOk(r: Ring) {
    && |r.buffer| == CAPACITY && r.readOffset < CAPACITY && r.available <= CAPACITY
    && r.writeOffset == (r.readOffset + r.available) % 3952
  }

  /** The bytes in the ring, oldest first. */
  ghost function Contents(r: Ring): (c: seq<byte>)
    requires RingOk(r)
    ensures |c| == r.available
  {
    seq(r.available, i requires 0 <= i < r.available => r.buffer[(r.readOffset + i) % 3952])
  }

  function Put(r: Ring, b: byte): Ring
    requires r.writeOffset < |r.buffer|
  {
    Ring(r.buffer[r.writeOffset := b], r.readOffset, (r.writeOffset + 1) % 3952, r.available + 1)
  }

  function Drop(r: Ring): Ring
    requires 0 < r.available
  {
    Ring(r.buffer, (r.readOffset + 1) % 3952, r.writeOffset, r.available - 1)
  }

  /** A byte put into a ring with room goes behind the others and overwrites none of them. */
  lemma PutAppends(r: Ring, b: byte)
    requires RingOk(r) && r.available < CAPACITY
    ensures RingOk(Put(r, b)) && Contents(Put(r, b)) == Contents(r) + [b]
  {
  }

  lemma DropRemovesFirst(r: Ring)
    requires RingOk(r) && 0 < r.available
    ensures r.buffer[r.readOffset] == Contents(r)[0]
    ensures RingOk(Drop(r)) && Contents(Drop(r)) == Contents(r)[1..]
  {
    assert (r.readOffset + 0) % 3952 == r.readOffset;
    var d := Drop(r);
    forall i | 0 <= i < d.available ensures Contents(d)[i] == Contents(r)[1..][i] {
      assert (d.readOffset + i) % 3952 == (r.readOffset + (i + 1)) % 3952;
    }
  }

  function PutAll(r: Ring, bs: seq<byte>): (r': Ring)
    requires |r.buffer| == CAPACITY && r.writeOffset < CAPACITY
    ensures |r'.buffer| == CAPACITY && r'.writeOffset < CAPACITY
  {
    if bs == [] then r else Put(PutAll(r, bs[..|bs| - 1]), bs[|bs| - 1])
  }

  function DropAll(r: Ring, n: nat): (r': Ring)
    requires n <= r.available
    ensures r'.available == r.available - n
  {
    if n == 0 then r else Drop(DropAll(r, n - 1))
  }

  lemma {:induction false} PutAllAppends(r: Ring, bs: seq<byte>)
    requires RingOk(r) && r.available + |bs| <= CAPACITY
    ensures RingOk(PutAll(r, bs)) && Contents(PutAll(r, bs)) == Contents(r) + bs
  {
    if bs != [] {
      var init := bs[..|bs| - 1];
      PutAllAppends(r, init);
      PutAppends(PutAll(r, init), bs[|bs| - 1]);
      assert bs == init + [bs[|bs| - 1]];
    }
  }

  lemma {:induction false} DropAllRemoves(r: Ring, n: nat)
    requires RingOk(r) && n <= r.available
    ensures RingOk(DropAll(r, n)) && Contents(DropAll(r, n)) == Contents(r)[n..]
  {
    if n > 0 {
      DropAllRemoves(r, n - 1);
      DropRemovesFirst(DropAll(r, n - 1));
    }
  }

  /** After k bytes left, the read offset is at the k'th. */
  lemma NextByte(r: Ring, k: nat)
    requires RingOk(r) && k < r.available
    ensures DropAll(r, k).readOffset < |r.buffer| && DropAll(r, k).buffer == r.buffer
    ensures r.buffer[DropAll(r, k).readOffset] == Contents(r)[k]
    ensures Contents(r)[..k] + [Contents(r)[k]] == Contents(r)[..k + 1]
  {
    DropAllRemoves(r, k);
    DropRemovesFirst(DropAll(r, k));
    SameBuffer(r, k);
  }

  lemma {:induction false} SameBuffer(r: Ring, n: nat)
    requires n <= r.available
    ensures DropAll(r, n).buffer == r.buffer
  {
    if n > 0 {
      SameBuffer(r, n - 1);
    }
  }

  function Min(a: nat, b: nat): nat {
    if a < b then a else b
  }

  class PipeBuffer {
    const buffer: array<byte>
    var readOffset: nat
    var writeOffset: nat
    var available: nat

    ghost function Now(): Ring
      reads this, buffer
    {
      Ring(buffer[..], readOffset, writeOffset, available)
    }

    constructor ()
      ensures fresh(buffer) && RingOk(Now()) && Contents(Now()) == []
    {
      buffer := new byte[CAPACITY];
      readOffset, writeOffset, available := 0, 0, 0;
    }

    /** pipe_write's copy loop: as many bytes of buf from idx on as fit go into the ring, in order. */
    method CopyIn(buf: seq<byte>, idx: nat) returns (next: nat)
      requires RingOk(Now()) && idx <= |buf|
      modifies this, buffer
      ensures next == idx + Min(|buf| - idx, CAPACITY - old(available))
      ensures Now() == PutAll(old(Now()), buf[idx..next])
      ensures RingOk(Now()) && Contents(Now()) == Contents(old(Now())) + buf[idx..next]
    {
      ghost var r := Now();
      next := idx;
      while next < |buf| && available < CAPACITY
        invariant idx <= next <= |buf| && available == r.available + (next - idx) <= CAPACITY
        invariant Now() == PutAll(r, buf[idx..next])
      {
        buffer[writeOffset] := buf[next];
        writeOffset := (writeOffset + 1) % 3952;
        next := next + 1;
        available := available + 1;
        assert buf[idx..next][..next - 1 - idx] == buf[idx..next - 1];
      }
      PutAllAppends(r, buf[idx..next]);
    }

    /** pipe_read's copy loop: the oldest bytes, at most n, leave the ring. */
    method CopyOut(n: nat) returns (out: seq<byte>)
      requires RingOk(Now())
      modifies this
      ensures out == Contents(old(Now()))[..Min(n, old(available))]
      ensures Now() == DropAll(old(Now()), |out|)
      ensures RingOk(Now()) && Contents(old(Now())) == out + Contents(Now())
    {
      ghost var r := Now();
      out := [];
      while |out| < n && available > 0
        invariant |out| <= n && |out| + available == r.available && Now() == DropAll(r, |out|)
        invariant out == Contents(r)[..|out|]
      {
        NextByte(r, |out|);
        out := out + [buffer[readOffset]];
        readOffset := (readOffset + 1) % 3952;
        available := available - 1;
      }
      DropAllRemoves(r, |out|);
      assert Contents(r) == Contents(r)[..|out|] + Contents(r)[|out|..];
    }
  }
}
