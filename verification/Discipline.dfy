/**
 What the interleaving machine guarantees once its threads respect a discipline: a producer that keeps to
 the header's free-space formula, and callers that move whole frames.
 */
module Discipline {
  import opened Protocol
  import opened Ledger
  import opened Window
  import opened Interleaving

  // ---- Free space respected: an exact FIFO with no shared slot ----

  /** The write still fits into the ring beside what the consumer has not retired. */
  predicate HasRoom(m: Machine, len: nat)
    requires m.Ordered()
  {
    m.wp + len - m.rp <= RING_BYTES
  }

  /** Every write of a run from m begins with room for all of it, and the consumer only reads. */
  predicate SpaciousFrom(m: Machine, schedule: seq<Action>)
    requires m.Ordered()
  {
    schedule == [] ||
    (&& SpaciousFrom(m, schedule[..|schedule| - 1])
     && var t, a := Run(m, schedule[..|schedule| - 1]), schedule[|schedule| - 1];
        !a.BeginSync? && (a.BeginWrite? && t.prod.Resting? ==> HasRoom(t, |a.data|)))
  }

  predicate Spacious(schedule: seq<Action>) {
    SpaciousFrom(IDLE, schedule)
  }

  /** Where an exact FIFO began: the stream position, and what the ledger said by then. */
  datatype Base = Base(from: nat, before: seq<byte>, laps: nat)

  function Here(m: Machine): Base {
    Base(m.rp, Delivered(m.log), Laps(m.log))
  }

  /** Since its base the consumer was never lapped and received exactly the next bytes of the stream. */
  predicate Exact(m: Machine, b: Base) {
    && b.from <= m.rp <= |m.stream|
    && Laps(m.log) == b.laps
    && Delivered(m.log) == b.before + m.stream[b.from..m.rp]
  }

  predicate FifoInv(m: Machine, b: Base)
    requires m.Ordered()
  {
    && Exact(m, b)
    && |m.stream| <= m.rp + RING_BYTES
    && !m.cons.Syncing?
    && (m.cons.Reading? ==>
          m.rp + |m.cons.dst| <= |m.stream| && m.cons.dst == m.stream[m.rp..m.rp + |m.cons.dst|])
  }

  lemma ProducerKeepsFifo(m: Machine, a: Action, b: Base)
    requires Inv(m) && FifoInv(m, b) && a.OfProducer()
    requires a.BeginWrite? && m.prod.Resting? ==> HasRoom(m, |a.data|)
    ensures FifoInv(ProducerStep(m, a), b)
  {
    if a.BeginWrite? {
      SliceOfPrefix(m.stream, a.data, b.from, m.rp);
      if m.cons.Reading? {
        SliceOfPrefix(m.stream, a.data, m.rp, m.rp + |m.cons.dst|);
      }
    }
  }

  /** While the producer is at most a ring ahead, a byte copied out is the byte of its own position. */
  lemma OwnByte(m: Machine)
    requires Inv(m) && m.cons.Reading? && |m.cons.dst| < m.cons.n && |m.stream| <= m.rp + RING_BYTES
    ensures m.ring[CopySlot(m.cons.at, m.cons.n, |m.cons.dst|)] == m.stream[m.rp + |m.cons.dst|]
  {
    CopySlotIsSlot(m.cons.at, m.cons.n, |m.cons.dst|);
    SlotHoldsLatest(m.ring, m.stream, m.Frontier(), m.rp + |m.cons.dst|);
  }

  lemma CopyOutStep(m: Machine, value: byte)
    requires m.Ordered() && m.cons.Reading? && |m.cons.dst| < m.cons.n
    requires m.ring[CopySlot(m.cons.at, m.cons.n, |m.cons.dst|)] == value
    ensures ConsumerStep(m, CopyOut)
         == m.(cons := Reading(m.cons.at, m.cons.n, m.cons.dst + [value], m.cons.fronts + [m.Frontier()]))
  {
  }

  lemma CopyOutKeepsFifo(m: Machine, b: Base)
    requires Inv(m) && FifoInv(m, b) && m.cons.Reading? && |m.cons.dst| < m.cons.n
    ensures FifoInv(ConsumerStep(m, CopyOut), b)
  {
    var q := m.rp + |m.cons.dst|;
    OwnByte(m);
    CopyOutStep(m, m.stream[q]);
    SliceOneMore(m.stream, m.rp, q);
  }

  lemma RetireKeepsFifo(m: Machine, b: Base)
    requires m.Ordered() && FifoInv(m, b) && m.cons.Reading? && |m.cons.dst| == m.cons.n
    ensures FifoInv(ConsumerStep(m, Retire), b)
  {
    Append(m.log, Got(m.rp, m.cons.dst));
    SliceJoin(m.stream, b.from, m.rp, m.rp + m.cons.n);
    Associative(b.before, m.stream[b.from..m.rp], m.cons.dst);
  }

  lemma ConsumerKeepsFifo(m: Machine, a: Action, b: Base)
    requires Inv(m) && FifoInv(m, b) && !a.OfProducer() && !a.BeginSync?
    ensures FifoInv(ConsumerStep(m, a), b)
  {
    if a.CopyOut? && m.cons.Reading? && |m.cons.dst| < m.cons.n {
      CopyOutKeepsFifo(m, b);
    } else if a.Retire? && m.cons.Reading? && |m.cons.dst| == m.cons.n {
      RetireKeepsFifo(m, b);
    }
  }

  lemma StepKeepsFifo(m: Machine, a: Action, b: Base)
    requires Inv(m) && FifoInv(m, b) && !a.BeginSync?
    requires a.BeginWrite? && m.prod.Resting? ==> HasRoom(m, |a.data|)
    ensures FifoInv(Step(m, a), b)
  {
    if a.OfProducer() {
      ProducerKeepsFifo(m, a, b);
    } else {
      ConsumerKeepsFifo(m, a, b);
    }
  }

  lemma {:induction false} SpaciousKeepsFifo(m: Machine, schedule: seq<Action>, b: Base)
    requires Inv(m) && FifoInv(m, b) && SpaciousFrom(m, schedule)
    ensures FifoInv(Run(m, schedule), b)
  {
    if schedule != [] {
      var front := schedule[..|schedule| - 1];
      SpaciousKeepsFifo(m, front, b);
      InvKept(m, front);
      StepKeepsFifo(Run(m, front), schedule[|schedule| - 1], b);
    }
  }

  /** The slots the two threads are about to touch. */
  predicate Collide(m: Machine)
    requires m.Ordered()
  {
    && m.prod.Copying? && m.prod.done < |m.prod.data|
    && m.cons.Reading? && |m.cons.dst| < m.cons.n
    && CopySlot(m.prod.start, |m.prod.data|, m.prod.done) == CopySlot(m.cons.at, m.cons.n, |m.cons.dst|)
  }

  lemma RoomPreventsCollision(m: Machine)
    requires Inv(m) && |m.stream| <= m.rp + RING_BYTES
    ensures !Collide(m)
  {
    if m.prod.Copying? && m.prod.done < |m.prod.data| && m.cons.Reading? && |m.cons.dst| < m.cons.n {
      CopySlotIsSlot(m.prod.start, |m.prod.data|, m.prod.done);
      CopySlotIsSlot(m.cons.at, m.cons.n, |m.cons.dst|);
      SlotDistinct(m.cons.at + |m.cons.dst|, m.prod.start + m.prod.done);
    }
  }

  /**
   With the free-space formula respected at the start of every write, in every interleaving: the lap
   branch is never taken, the two threads never stand at the same slot, and what has been read is
   exactly a prefix of what has been published.
   */
  lemma FreeSpaceGivesFifo(schedule: seq<Action>)
    requires Spacious(schedule)
    ensures var m := Run(IDLE, schedule);
            && Laps(m.log) == 0
            && !Collide(m)
            && m.rp <= m.wp <= |m.stream|
            && Delivered(m.log) == m.stream[..m.rp]
  {
    var t := Run(IDLE, schedule);
    SpaciousKeepsFifo(IDLE, schedule, Here(IDLE));
    Reachable(schedule);
    RoomPreventsCollision(t);
    assert [] + t.stream[0..t.rp] == t.stream[..t.rp];
  }

  // ---- Whole frames: channels never drift, even in a torn read ----

  predicate WholeFrames(n: nat) {
    n % FRAME_SIZE == 0
  }

  /** Every write length and every read limit is a whole number of frames. */
  predicate Framed(schedule: seq<Action>) {
    forall a <- schedule ::
      && (a.BeginWrite? ==> WholeFrames(|a.data|))
      && (a.BeginRead? ==> WholeFrames(a.max))
  }

  predicate FramedProducer(m: Machine) {
    WholeFrames(m.wp) && (m.prod.Copying? ==> WholeFrames(|m.prod.data|))
  }

  predicate FramedConsumer(m: Machine) {
    && WholeFrames(m.rp)
    && match m.cons
       case Waiting => true
       case SawWp(seen, max) => WholeFrames(seen) && WholeFrames(max)
       case SawBoth(seen, _, max) => WholeFrames(seen) && WholeFrames(max)
       case Reading(_, n, _, _) => WholeFrames(n)
       case Syncing(seen) => WholeFrames(seen)
  }

  predicate FrameInv(m: Machine) {
    && FramedProducer(m) && FramedConsumer(m)
    && forall e <- m.log :: WholeFrames(e.from) && WholeFrames(e.Upto())
  }

  lemma SumOfWhole(a: nat, b: nat)
    requires WholeFrames(a) && WholeFrames(b)
    ensures WholeFrames(a + b) && (a >= b ==> WholeFrames(a - b))
  {
  }

  lemma StepKeepsFrames(m: Machine, a: Action)
    requires m.Ordered() && FrameInv(m)
    requires a.BeginWrite? ==> WholeFrames(|a.data|)
    requires a.BeginRead? ==> WholeFrames(a.max)
    ensures FrameInv(Step(m, a))
  {
    if a.Publish? && m.prod.Copying? {
      SumOfWhole(m.wp, |m.prod.data|);
    } else if a.Check? && m.cons.SawBoth? {
      SumOfWhole(m.cons.seen, m.cons.at);
    } else if a.Retire? && m.cons.Reading? {
      SumOfWhole(m.rp, m.cons.n);
    }
  }

  lemma {:induction false} FramedKeepsFrames(schedule: seq<Action>)
    requires Framed(schedule)
    ensures FrameInv(Run(IDLE, schedule))
  {
    if schedule != [] {
      var front := schedule[..|schedule| - 1];
      FramedKeepsFrames(front);
      StepKeepsFrames(Run(IDLE, front), schedule[|schedule| - 1]);
    }
  }

  function Channel(k: nat): nat {
    k % FRAME_SIZE / BYTES_PER_SAMPLE
  }

  function ByteOfSample(k: nat): nat {
    k % FRAME_SIZE % BYTES_PER_SAMPLE
  }

  /** A frame of the stream lies in consecutive slots: it never straddles the end of the ring. */
  lemma FrameIsContiguous(q: nat, i: nat)
    requires WholeFrames(q) && i < FRAME_SIZE
    ensures Slot(q + i) == Slot(q) + i
  {
    var rings := q / RING_BYTES;
    assert Slot(q) == q - RING_BYTES * rings;
    assert Slot(q) == FRAME_SIZE * (q / FRAME_SIZE - RING_FRAMES * rings);
    assert Slot(q) + i < RING_BYTES;
  }

  predicate SameLane(k: nat, j: nat) {
    Channel(k) == Channel(j) && ByteOfSample(k) == ByteOfSample(j)
  }

  /** The lane of a byte is its place in the frame: the same residue modulo 18. */
  lemma LaneIsResidue(k: nat, j: nat)
    ensures SameLane(k, j) <==> k % 18 == j % 18
  {
  }

  lemma LapsKeepLane(from: nat, j: nat, laps: nat)
    requires WholeFrames(from)
    ensures SameLane(from + j + laps * RING_BYTES, j)
  {
    assert (from + j + laps * RING_BYTES) % FRAME_SIZE == j % FRAME_SIZE by {
      assert from + j + laps * RING_BYTES == j + FRAME_SIZE * (from / FRAME_SIZE + laps * RING_FRAMES);
    }
  }

  /**
   Byte j of a read comes from its own position or from a whole number of laps later, and that position has
   the channel and the byte of the sample that byte j of the buffer has.
   */
  ghost predicate Aligned(stream: seq<byte>, e: Entry, fronts: seq<nat>, j: nat)
    requires e.Got? && j < |e.bytes| == |fronts|
  {
    exists laps: nat ::
      FromLap(stream, e.from, e.bytes, fronts, j, laps) && SameLane(e.from + j + laps * RING_BYTES, j)
  }

  /** A read that stays frame aligned in both position and length, and in every byte it delivered. */
  ghost predicate AlignedRead(stream: seq<byte>, e: Entry, fronts: seq<nat>)
    requires e.Got?
  {
    && WholeFrames(e.from) && WholeFrames(|e.bytes|) && |fronts| == |e.bytes|
    && forall j :: 0 <= j < |e.bytes| ==> Aligned(stream, e, fronts, j)
  }

  lemma ReadIsAligned(stream: seq<byte>, e: Entry, fronts: seq<nat>)
    requires e.Got? && WholeFrames(e.from) && WholeFrames(e.Upto())
    requires FromSomeLap(stream, e.from, e.bytes, fronts)
    ensures AlignedRead(stream, e, fronts)
  {
    forall j | 0 <= j < |e.bytes|
      ensures Aligned(stream, e, fronts, j)
    {
      assert ByteFromSomeLap(stream, e.from, e.bytes, fronts, j);
      var laps: nat :| FromLap(stream, e.from, e.bytes, fronts, j, laps);
      LapsKeepLane(e.from, j, laps);
    }
  }

  /** When every call moves whole frames, both counters stay frame aligned through laps and resyncs. */
  lemma PositionsStayAligned(schedule: seq<Action>)
    requires Framed(schedule)
    ensures WholeFrames(Run(IDLE, schedule).wp) && WholeFrames(Run(IDLE, schedule).rp)
  {
    FramedKeepsFrames(schedule);
  }

  /**
   ... and even a torn read puts into each byte of its buffer the byte of its own position or of one whole
   laps later, which has that channel and that place in the sample.
   */
  lemma AlignmentSurvivesTearing(schedule: seq<Action>, i: nat)
    requires Framed(schedule)
    requires i < |Run(IDLE, schedule).log| && Run(IDLE, schedule).log[i].Got?
    ensures var m := Run(IDLE, schedule);
            i < |m.sources| && AlignedRead(m.stream, m.log[i], m.sources[i])
  {
    FramedKeepsFrames(schedule);
    TornReads(schedule, i);
    var m := Run(IDLE, schedule);
    assert m.log[i] in m.log;
    ReadIsAligned(m.stream, m.log[i], m.sources[i]);
  }
}
