/** Constants of the shared-memory layout and the slot arithmetic of the rings. */
module Protocol {

  newtype byte = x: int | 0 <= x < 256

  const CHANNELS: nat := 6
  const BYTES_PER_SAMPLE: nat := 3
  const FRAME_SIZE: nat := 18
  const RING_FRAMES: nat := 256
  const RING_BYTES: nat := 4608

  const PACKET_SIZE: nat := 864       // nominal OUT packet: 48 frames
  const MAX_PACKET: nat := 1024       // largest IN packet the endpoint can return
  const PACKETS_PER_XFER: nat := 4
  const NUM_XFERS: nat := 4
  const XFER_SIZE: nat := 3456        // PACKETS_PER_XFER packets of PACKET_SIZE bytes

  function Min(a: nat, b: nat): nat {
    if a < b then a else b
  }

  function Silence(n: nat): (z: seq<byte>)
    ensures |z| == n
    ensures forall k :: 0 <= k < n ==> z[k] == 0
  {
    seq(n, _ => 0)
  }

  function Concat(parts: seq<seq<byte>>): seq<byte> {
    if parts == [] then [] else Concat(parts[..|parts| - 1]) + parts[|parts| - 1]
  }

  lemma SliceJoin(s: seq<byte>, a: nat, b: nat, c: nat)
    requires a <= b <= c <= |s|
    ensures s[a..b] + s[b..c] == s[a..c]
  {
  }

  lemma SliceOneMore(s: seq<byte>, a: nat, b: nat)
    requires a <= b < |s|
    ensures s[a..b] + [s[b]] == s[a..b + 1]
  {
  }

  lemma SliceOfPrefix(s: seq<byte>, more: seq<byte>, a: nat, b: nat)
    requires a <= b <= |s|
    ensures (s + more)[a..b] == s[a..b]
  {
  }

  lemma Associative(a: seq<byte>, b: seq<byte>, c: seq<byte>)
    ensures a + b + c == a + (b + c)
  {
  }

  lemma ConcatOne(parts: seq<seq<byte>>, part: seq<byte>)
    ensures Concat(parts + [part]) == Concat(parts) + part
  {
    assert (parts + [part])[..|parts + [part]| - 1] == parts;
  }

  lemma {:induction false} ConcatJoin(a: seq<seq<byte>>, b: seq<seq<byte>>)
    ensures Concat(a + b) == Concat(a) + Concat(b)
  {
    if b == [] {
      assert a + b == a;
    } else {
      var front, last := b[..|b| - 1], b[|b| - 1];
      assert a + b == a + front + [last];
      ConcatJoin(a, front);
      ConcatOne(a + front, last);
      Associative(Concat(a), Concat(front), last);
    }
  }

  /** The ring index of a stream position. */
  function Slot(k: nat): (s: nat)
    ensures s < RING_BYTES
  {
    k % RING_BYTES
  }

  /** Two stream positions less than one lap apart never share a slot. */
  lemma SlotDistinct(a: nat, b: nat)
    requires a < b < a + RING_BYTES
    ensures Slot(a) != Slot(b)
  {
  }

  /** Where the two-chunk copy of n bytes starting at stream position pos puts (or finds) byte i. */
  function CopySlot(pos: nat, n: nat, i: nat): nat
    requires i < n
  {
    var offset := pos % RING_BYTES;
    var chunk1 := RING_BYTES - offset;
    if chunk1 >= n || i < chunk1 then offset + i else i - chunk1
  }

  /** The copy stays inside the ring exactly when it is no longer than the rest of this lap plus one more. */
  lemma CopyFitsIff(pos: nat, n: nat)
    ensures (forall i :: 0 <= i < n ==> CopySlot(pos, n, i) < RING_BYTES) <==> n <= 2 * RING_BYTES - Slot(pos)
  {
    if n > 2 * RING_BYTES - Slot(pos) {
      assert CopySlot(pos, n, n - 1) >= RING_BYTES;
    }
  }

  lemma CopySlotIsSlot(pos: nat, n: nat, i: nat)
    requires i < n <= 2 * RING_BYTES - Slot(pos)
    ensures CopySlot(pos, n, i) == Slot(pos + i)
  {
  }

  /** Each write stays inside the ring at the position it will find, the first one at wp. */
  predicate WritesFit(wp: nat, writes: seq<seq<byte>>) {
    writes == [] ||
    (&& WritesFit(wp, writes[..|writes| - 1])
     && |writes[|writes| - 1]| <= 2 * RING_BYTES - Slot(wp + |Concat(writes[..|writes| - 1])|))
  }

  /** The lengths up to which a copy stays inside the ring wherever it starts, and up to which there is such a start. */
  lemma CopyFitsEverywhereIff(n: nat)
    ensures (forall pos: nat :: n <= 2 * RING_BYTES - Slot(pos)) <==> n <= RING_BYTES + 1
    ensures (exists pos: nat :: n <= 2 * RING_BYTES - Slot(pos)) <==> n <= 2 * RING_BYTES
  {
    assert Slot(RING_BYTES - 1) == RING_BYTES - 1;
    assert Slot(0) == 0;
  }

  /** A CoreAudio buffer of 1024 frames. */
  const LARGE_BUFFER: nat := 18432

  /** A plugin buffer of 1024 frames leaves the ring from every position: its last byte would land behind the end. */
  lemma LargeBufferNeverFits(pos: nat)
    ensures CopySlot(pos, LARGE_BUFFER, LARGE_BUFFER - 1) >= RING_BYTES
  {
  }
}
