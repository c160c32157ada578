/** One direction of the shared memory: the byte array and its two position counters. */
module Ring {
  import opened Protocol
  import opened RingModel
  import opened Window

  /** Copies src over dst[at..], byte by byte and in order. */
  method Memcpy(dst: array<byte>, at: nat, src: seq<byte>)
    requires at + |src| <= dst.Length
    modifies dst
    ensures dst[..] == old(dst[..])[..at] + src + old(dst[..])[at + |src|..]
  {
    var i := 0;
    while i < |src|
      invariant 0 <= i <= |src|
      invariant dst[..] == old(dst[..])[..at] + src[..i] + old(dst[..])[at + i..]
    {
      ghost var before := dst[..];
      dst[at + i] := src[i];
      assert dst[..] == before[at + i := src[i]];
      i := i + 1;
    }
  }

  /** Zero-fills dst[at..at + n]. */
  method Memset(dst: array<byte>, at: nat, n: nat)
    requires at + n <= dst.Length
    modifies dst
    ensures dst[..] == old(dst[..])[..at] + Silence(n) + old(dst[..])[at + n..]
  {
    Memcpy(dst, at, seq(n, _ => 0));
  }

  /** Two copies, the second right behind the first, are one copy of the concatenation. */
  lemma TwoCopies(before: seq<byte>, at: nat, a: seq<byte>, b: seq<byte>)
    requires at + |a| + |b| <= |before|
    ensures var mid := before[..at] + a + before[at + |a|..];
            mid[..at + |a|] + b + mid[at + |a| + |b|..] == before[..at] + (a + b) + before[at + |a| + |b|..]
  {
  }

  /** What does not fit before the end of the ring goes over its start. */
  lemma TwoChunks(ring: seq<byte>, offset: nat, chunk1: nat, src: seq<byte>)
    requires offset + chunk1 == |ring| && chunk1 < |src| <= chunk1 + |ring|
    ensures var mid := ring[..offset] + src[..chunk1] + ring[offset + chunk1..];
            mid[..0] + src[chunk1..] + mid[|src| - chunk1..] == Window.CopiedIn(ring, offset, chunk1, src)
  {
  }

  lemma NothingCopied(dst: seq<byte>, at: nat)
    requires at <= |dst|
    ensures dst == dst[..at] + [] + dst[at..]
  {
  }

  class Ring {
    const data: array<byte>
    var writePos: nat
    var readPos: nat
    ghost var history: Stream   // everything ever written, and what the consumer made of it

    ghost predicate Valid()
      reads this, data
    {
      && data.Length == RING_BYTES
      && history.Sound(0) && writePos == history.Wp() && readPos == history.rp
      && Holds(data[..], history.bytes, writePos)
    }

    constructor ()
      ensures Valid() && fresh(data) && history == EMPTY
    {
      data := new byte[RING_BYTES](_ => 0);
      writePos, readPos := 0, 0;
      history := EMPTY;
    }

    /** The two-chunk copy into the ring. */
    method CopyIn(wp: nat, src: seq<byte>)
      requires data.Length == RING_BYTES && |src| <= 2 * RING_BYTES - Slot(wp)
      modifies data
      ensures data[..] == Overwritten(old(data[..]), wp, src)
    {
      ghost var before := data[..];
      var offset := wp % RING_BYTES;
      var chunk1 := RING_BYTES - offset;
      if chunk1 >= |src| {
        Memcpy(data, offset, src);
      } else {
        Memcpy(data, offset, src[..chunk1]);
        Memcpy(data, 0, src[chunk1..]);
        TwoChunks(before, offset, chunk1, src);
      }
    }

    method Write(src: seq<byte>)
      requires Valid() && |src| <= 2 * RING_BYTES - Slot(writePos)
      modifies this`writePos, this`history, data
      ensures Valid() && history == old(history).Publish(src)
    {
      var wp := writePos;
      CopyIn(wp, src);
      WriteMovesWindow(old(data[..]), history.bytes, src);
      writePos := wp + |src|;
      WriteEffect(history, src, 0);
      history := history.Publish(src);
    }

    /** The two-chunk copy out of a ring that holds those n bytes of the stream. */
    method CopyOut(dst: array<byte>, at: nat, rp: nat, n: nat, ghost stream: seq<byte>)
      requires data.Length == RING_BYTES && at + n <= dst.Length && dst != data
      requires Holds(data[..], stream, |stream|) && rp + n <= |stream| <= rp + RING_BYTES
      modifies dst
      ensures dst[..] == old(dst[..])[..at] + stream[rp..rp + n] + old(dst[..])[at + n..]
    {
      ghost var before := dst[..];
      var offset := rp % RING_BYTES;
      var chunk1 := RING_BYTES - offset;
      ReadSeesWindow(data[..], stream, rp, n);
      if chunk1 >= n {
        assert data[offset..offset + n] == data[..][offset..offset + n];
        Memcpy(dst, at, data[offset..offset + n]);
      } else {
        assert data[offset..offset + chunk1] == data[..][offset..];
        assert data[..n - chunk1] == data[..][..n - chunk1];
        TwoCopies(before, at, data[offset..offset + chunk1], data[..n - chunk1]);
        Memcpy(dst, at, data[offset..offset + chunk1]);
        Memcpy(dst, at + chunk1, data[..n - chunk1]);
      }
    }

    /** Copies up to max bytes to dst[at..] and returns how many; a lapped consumer gets none and catches up. */
    method Read(dst: array<byte>, at: nat, max: nat) returns (got: nat)
      requires Valid() && at + max <= dst.Length && dst != data
      modifies this`readPos, this`history, dst
      ensures Valid() && history == old(history).Consume(max)
      ensures got == old(history).Count(max)
      ensures dst[..] == old(dst[..])[..at] + old(history).Received(max) + old(dst[..])[at + got..]
    {
      var wp := writePos;
      var rp := readPos;
      var available := wp - rp;
      ghost var before := history;
      ApplyEffect(history, RingModel.Read(max), 0);
      history := history.Consume(max);
      if available > RING_BYTES {
        readPos := wp;
        NothingCopied(dst[..], at);
        return 0;
      }
      if available == 0 {
        NothingCopied(dst[..], at);
        return 0;
      }
      var toRead := if available < max then available else max;
      CopyOut(dst, at, rp, toRead, before.bytes);
      readPos := rp + toRead;
      return toRead;
    }

    method Available() returns (n: nat)
      requires Valid()
      ensures n == history.Unread()
    {
      return writePos - readPos;
    }

    /** The consumer jumps to the write position, as ConnectToShm and the loopback drain do. */
    method Resync()
      requires Valid()
      modifies this`readPos, this`history
      ensures Valid() && history == old(history).Reconnect()
    {
      readPos := writePos;
      ApplyEffect(history, Sync, 0);
      history := history.Reconnect();
    }
  }
}
