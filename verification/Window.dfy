/** The sliding window a ring keeps of the stream written through it. */
module Window {
  import opened Protocol

  /**
   With the first `frontier` bytes of the stream copied in, the ring holds the latest lap of them:
   byte k at slot k modulo the capacity, for the last RING_BYTES positions.
   */
  ghost predicate Holds(ring: seq<byte>, stream: seq<byte>, frontier: nat) {
    && |ring| == RING_BYTES && frontier <= |stream|
    && forall k: nat :: k < frontier <= k + RING_BYTES ==> ring[Slot(k)] == stream[k]
  }

  /** The stream position whose byte a slot holds: the latest one below the frontier that shares q's slot. */
  function Latest(q: nat, frontier: nat): (k: nat)
    requires q < frontier
    ensures q <= k < frontier
    decreases frontier - q
  {
    if frontier <= q + RING_BYTES then q else Latest(q + RING_BYTES, frontier)
  }

  /** It lies in the last lap, a whole number of laps after q. */
  lemma {:induction false} LatestFacts(q: nat, frontier: nat) returns (laps: nat)
    requires q < frontier
    ensures Latest(q, frontier) == q + laps * RING_BYTES
    ensures frontier <= q + (laps + 1) * RING_BYTES
    ensures laps == 0 <==> frontier <= q + RING_BYTES
    ensures Slot(Latest(q, frontier)) == Slot(q)
    decreases frontier - q
  {
    if frontier <= q + RING_BYTES {
      laps := 0;
    } else {
      laps := LatestFacts(q + RING_BYTES, frontier);
      laps := laps + 1;
    }
  }

  /** One byte copied at the frontier moves the window by one. */
  lemma CopyByte(ring: seq<byte>, stream: seq<byte>, frontier: nat)
    requires Holds(ring, stream, frontier) && frontier < |stream|
    ensures Holds(ring[Slot(frontier) := stream[frontier]], stream, frontier + 1)
  {
    forall k: nat | k < frontier + 1 <= k + RING_BYTES
      ensures ring[Slot(frontier) := stream[frontier]][Slot(k)] == stream[k]
    {
      if k < frontier {
        SlotDistinct(k, frontier);
      }
    }
  }

  lemma StreamGrows(ring: seq<byte>, stream: seq<byte>, frontier: nat, more: seq<byte>)
    requires Holds(ring, stream, frontier)
    ensures Holds(ring, stream + more, frontier)
  {
  }

  /** Any slot once written holds the latest stream byte that maps to it. */
  lemma SlotHoldsLatest(ring: seq<byte>, stream: seq<byte>, frontier: nat, q: nat)
    requires Holds(ring, stream, frontier) && q < frontier
    ensures ring[Slot(q)] == stream[Latest(q, frontier)]
  {
    var k := Latest(q, frontier);
    var laps := LatestFacts(q, frontier);
    assert ring[Slot(k)] == stream[k];
  }

  /** data copied to ring[offset..], what does not fit in chunk1 going to the start of the ring. */
  function CopiedIn(ring: seq<byte>, offset: nat, chunk1: nat, data: seq<byte>): (r: seq<byte>)
    requires offset + chunk1 == |ring| && |data| <= chunk1 + |ring|
    ensures |r| == |ring|
  {
    if chunk1 >= |data| then
      ring[..offset] + data + ring[offset + |data|..]
    else
      var first := ring[..offset] + data[..chunk1];
      data[chunk1..] + first[|data| - chunk1..]
  }

  /** n bytes copied from ring[offset..], what chunk1 does not hold coming from the start of the ring. */
  function CopiedOut(ring: seq<byte>, offset: nat, chunk1: nat, n: nat): (r: seq<byte>)
    requires offset + chunk1 == |ring| && n <= |ring|
    ensures |r| == n
  {
    if chunk1 >= n then ring[offset..offset + n] else ring[offset..] + ring[..n - chunk1]
  }

  /** The ring after the two-chunk copy of data at stream position wp. */
  function Overwritten(ring: seq<byte>, wp: nat, data: seq<byte>): (r: seq<byte>)
    requires |ring| == RING_BYTES && |data| <= 2 * RING_BYTES - Slot(wp)
    ensures |r| == RING_BYTES
  {
    CopiedIn(ring, Slot(wp), RING_BYTES - Slot(wp), data)
  }

  /** The two-chunk copy moves the window by the whole write, even when it laps itself. */
  lemma WriteMovesWindow(ring: seq<byte>, stream: seq<byte>, data: seq<byte>)
    requires Holds(ring, stream, |stream|) && |data| <= 2 * RING_BYTES - Slot(|stream|)
    ensures Holds(Overwritten(ring, |stream|, data), stream + data, |stream| + |data|)
  {
    var wp, after := |stream|, Overwritten(ring, |stream|, data);
    forall k: nat | k < wp + |data| <= k + RING_BYTES
      ensures after[Slot(k)] == (stream + data)[k]
    {
      if k < wp {
        OldByteSurvives(ring, wp, data, k);
        assert ring[Slot(k)] == stream[k];
      } else {
        NewByteLands(ring, wp, data, k - wp);
      }
    }
  }

  /** The zeroed ring after a sequence of writes. */
  function RingAfter(writes: seq<seq<byte>>): (ring: seq<byte>)
    requires WritesFit(0, writes)
    ensures |ring| == RING_BYTES
  {
    if writes == [] then Silence(RING_BYTES)
    else
      var front := writes[..|writes| - 1];
      Overwritten(RingAfter(front), |Concat(front)|, writes[|writes| - 1])
  }

  /** However often the writes overwrite the ring, it ends up with the last lap of what was written. */
  lemma {:induction false} WindowAfterWrites(writes: seq<seq<byte>>)
    requires WritesFit(0, writes)
    ensures Holds(RingAfter(writes), Concat(writes), |Concat(writes)|)
  {
    if writes != [] {
      var front := writes[..|writes| - 1];
      WindowAfterWrites(front);
      WriteMovesWindow(RingAfter(front), Concat(front), writes[|writes| - 1]);
    }
  }

  lemma NewByteLands(ring: seq<byte>, wp: nat, data: seq<byte>, i: nat)
    requires |ring| == RING_BYTES && i < |data| <= 2 * RING_BYTES - Slot(wp)
    requires |data| <= i + RING_BYTES
    ensures Overwritten(ring, wp, data)[Slot(wp + i)] == data[i]
  {
    CopySlotIsSlot(wp, |data|, i);
  }

  lemma OldByteSurvives(ring: seq<byte>, wp: nat, data: seq<byte>, k: nat)
    requires |ring| == RING_BYTES && |data| <= 2 * RING_BYTES - Slot(wp)
    requires k < wp && wp + |data| <= k + RING_BYTES
    ensures Overwritten(ring, wp, data)[Slot(k)] == ring[Slot(k)]
  {
  }

  /** The bytes a two-chunk copy out of the ring yields. */
  function Extracted(ring: seq<byte>, rp: nat, n: nat): (r: seq<byte>)
    requires |ring| == RING_BYTES && n <= RING_BYTES
    ensures |r| == n
  {
    CopiedOut(ring, Slot(rp), RING_BYTES - Slot(rp), n)
  }

  lemma ReadSeesWindow(ring: seq<byte>, stream: seq<byte>, rp: nat, n: nat)
    requires Holds(ring, stream, |stream|) && rp + n <= |stream| <= rp + RING_BYTES
    ensures Extracted(ring, rp, n) == stream[rp..rp + n]
  {
    var r := Extracted(ring, rp, n);
    forall i | 0 <= i < n
      ensures r[i] == stream[rp + i]
    {
      CopySlotIsSlot(rp, n, i);
      assert ring[Slot(rp + i)] == stream[rp + i];
    }
  }
}
