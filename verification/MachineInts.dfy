/**
 The ring in machine arithmetic: uint64 counters, and uint32 offsets, chunks and lengths, with every wrap
 and cast written out. It agrees with the unbounded model for as long as the stream is shorter than 2^64.
 */
module MachineInts {
  import opened Protocol
  import opened Ledger
  import opened Window
  import opened RingModel

  const U32: nat := 0x1_0000_0000
  const U64: nat := 0x1_0000_0000_0000_0000

  function Cast32(x: nat): nat {
    x % U32
  }

  function Wrap32(x: int): nat {
    x % U32
  }

  function Wrap64(x: int): nat {
    x % U64
  }

  datatype Memory = Memory(ring: seq<byte>, wp: nat, rp: nat)
  {
    predicate Ok() {
      |ring| == RING_BYTES && wp < U64 && rp < U64
    }
  }

  /** The offset and first chunk as the code computes them. */
  function Offset(pos: nat): nat {
    Cast32(pos % RING_BYTES)
  }

  function Chunk1(pos: nat): nat {
    Wrap32(RING_BYTES - Offset(pos))
  }

  lemma OffsetsExact(pos: nat)
    ensures Offset(pos) == Slot(pos) && Chunk1(pos) == RING_BYTES - Slot(pos)
  {
  }

  function WriteMachine(m: Memory, data: seq<byte>): (r: Memory)
    requires m.Ok() && |data| <= 2 * RING_BYTES - Slot(m.wp)
    ensures r.Ok()
  {
    OffsetsExact(m.wp);
    Memory(CopiedIn(m.ring, Offset(m.wp), Chunk1(m.wp), data), Wrap64(m.wp + |data|), m.rp)
  }

  function ToRead(available: nat, max: nat): nat {
    if available < max then Cast32(available) else max
  }

  function ReadMachine(m: Memory, max: nat): (r: (Memory, seq<byte>))
    requires m.Ok()
    ensures r.0.Ok()
  {
    var available := Wrap64(m.wp - m.rp);
    if available > RING_BYTES then (m.(rp := m.wp), [])
    else if available == 0 then (m, [])
    else
      var n := ToRead(available, max);
      OffsetsExact(m.rp);
      (m.(rp := Wrap64(m.rp + n)), CopiedOut(m.ring, Offset(m.rp), Chunk1(m.rp), n))
  }

  ghost predicate Refines(m: Memory, s: Stream) {
    && m.Ok() && s.Ok() && m.wp == s.Wp() && m.rp == s.rp
    && Holds(m.ring, s.bytes, s.Wp())
  }

  lemma WriteRefines(m: Memory, s: Stream, data: seq<byte>)
    requires Refines(m, s) && |data| <= 2 * RING_BYTES - Slot(m.wp)
    requires s.Wp() + |data| < U64
    ensures Refines(WriteMachine(m, data), s.Publish(data))
  {
    OffsetsExact(m.wp);
    WriteMovesWindow(m.ring, s.bytes, data);
  }

  /** With the counters in order and below 2^64 no wrap or cast of a read changes anything. */
  lemma ReadExact(m: Memory, max: nat)
    requires m.Ok() && m.rp <= m.wp
    ensures Wrap64(m.wp - m.rp) == m.wp - m.rp
    ensures m.wp - m.rp <= RING_BYTES ==>
              && ToRead(m.wp - m.rp, max) == Min(m.wp - m.rp, max)
              && Wrap64(m.rp + Min(m.wp - m.rp, max)) == m.rp + Min(m.wp - m.rp, max)
    ensures Offset(m.rp) == Slot(m.rp) && Chunk1(m.rp) == RING_BYTES - Slot(m.rp)
  {
    OffsetsExact(m.rp);
  }

  lemma ReadRefines(m: Memory, s: Stream, max: nat)
    requires Refines(m, s)
    ensures Refines(ReadMachine(m, max).0, s.Consume(max))
    ensures ReadMachine(m, max).1 == s.Received(max)
  {
    ReadExact(m, max);
    if 0 < s.Unread() <= RING_BYTES {
      var n := s.Count(max);
      ReadSeesWindow(m.ring, s.bytes, s.rp, n);
      assert ReadMachine(m, max) == (m.(rp := m.rp + n), Extracted(m.ring, m.rp, n));
    }
  }

  predicate Fits(m: Memory, op: Op)
    requires m.Ok()
  {
    op.Write? ==> |op.data| <= 2 * RING_BYTES - Slot(m.wp)
  }

  function StepMachine(m: Memory, op: Op): (r: (Memory, seq<byte>))
    requires m.Ok() && Fits(m, op)
    ensures r.0.Ok()
  {
    match op
    case Write(data) => (WriteMachine(m, data), [])
    case Read(max) => ReadMachine(m, max)
    case Sync => (m.(rp := m.wp), [])
  }

  datatype Outcome = Outcome(m: Memory, read: seq<byte>) | Stuck

  /** The machine run, or Stuck once a write is longer than the two-chunk copy can place. */
  function RunMachine(ops: seq<Op>): (r: Outcome)
    ensures r.Outcome? ==> r.m.Ok()
  {
    if ops == [] then Outcome(Memory(Silence(RING_BYTES), 0, 0), [])
    else
      var before := RunMachine(ops[..|ops| - 1]);
      if before.Stuck? || !Fits(before.m, ops[|ops| - 1]) then Stuck
      else
        var (m, got) := StepMachine(before.m, ops[|ops| - 1]);
        Outcome(m, before.read + got)
  }

  /**
   For every run that writes fewer than 2^64 bytes, the machine counters, the ring contents and all bytes
   read are those of the unbounded model.
   */
  lemma {:induction false} MachineRefinesModel(ops: seq<Op>)
    requires |Written(ops)| < U64 && RunMachine(ops).Outcome?
    ensures var s := Run(EMPTY, ops);
            Refines(RunMachine(ops).m, s) && RunMachine(ops).read == Delivered(s.log)
  {
    if ops != [] {
      var front, op := ops[..|ops| - 1], ops[|ops| - 1];
      MachineRefinesModel(front);
      RunEffect(EMPTY, front, 0);
      StreamIsWritten(front);
      MachineStep(RunMachine(front).m, Run(EMPTY, front), op);
    }
  }

  lemma MachineStep(m: Memory, s: Stream, op: Op)
    requires Refines(m, s) && Fits(m, op) && s.Sound(0)
    requires op.Write? ==> s.Wp() + |op.data| < U64
    ensures var (t, got) := StepMachine(m, op);
            Refines(t, Apply(s, op)) && Delivered(Apply(s, op).log) == Delivered(s.log) + got
  {
    ApplyEffect(s, op, 0);
    match op
    case Write(data) => WriteRefines(m, s, data);
    case Read(max) => ReadRefines(m, s, max);
    case Sync =>
  }

  function Writes(ops: seq<Op>): nat {
    if ops == [] then 0
    else Writes(ops[..|ops| - 1]) + if ops[|ops| - 1].Write? then 1 else 0
  }

  lemma {:induction false} PacketsBoundStream(ops: seq<Op>)
    requires forall op <- ops :: op.Write? ==> |op.data| <= MAX_PACKET
    ensures |Written(ops)| <= MAX_PACKET * Writes(ops)
  {
    if ops != [] {
      PacketsBoundStream(ops[..|ops| - 1]);
    }
  }

  lemma {:induction false} PacketRunsNeverStick(ops: seq<Op>)
    requires forall op <- ops :: op.Write? ==> |op.data| <= MAX_PACKET
    ensures RunMachine(ops).Outcome?
  {
    if ops != [] {
      PacketRunsNeverStick(ops[..|ops| - 1]);
    }
  }

  /** USB packets always fit, so the IN ring is exact for its first 2^54 packets. */
  lemma InRingIsExact(ops: seq<Op>)
    requires forall op <- ops :: op.Write? ==> |op.data| <= MAX_PACKET
    requires Writes(ops) < 0x40_0000_0000_0000
    ensures RunMachine(ops).Outcome?
    ensures RunMachine(ops).read == Delivered(Run(EMPTY, ops).log)
    ensures Refines(RunMachine(ops).m, Run(EMPTY, ops))
  {
    PacketRunsNeverStick(ops);
    PacketsBoundStream(ops);
    MachineRefinesModel(ops);
  }

  /** One wrap of the counter shifts the slots by 1024, and nine such shifts are two whole rings. */
  lemma ShiftedSlot(laps: nat, r: nat)
    ensures Slot(1024 * laps + r) == Slot(r) <==> laps % 9 == 0
  {
    var c, d := laps / 9, laps % 9;
    var a, b := r / RING_BYTES, r % RING_BYTES;
    SameSlot(1024 * d + b, 1024 * laps + r, 2 * c + a);
    if d == 0 {
    } else if d == 1 {
    } else if d == 2 {
    } else if d == 3 {
    } else if d == 4 {
    } else if d == 5 {
    } else if d == 6 {
    } else if d == 7 {
    } else {
    }
  }

  lemma SameSlot(small: nat, big: nat, rings: nat)
    requires big == small + RING_BYTES * rings
    ensures Slot(big) == Slot(small)
  {
  }

  /**
   The bound is needed: 2^64 is not a multiple of the capacity. After a wrap the counter names the right
   slot again only every ninth lap of the 64-bit range.
   */
  lemma WrapKeepsSlotIff(p: nat)
    ensures Slot(Wrap64(p)) == Slot(p) <==> (p / U64) % 9 == 0
  {
    var laps, r := p / U64, p % U64;
    assert U64 == RING_BYTES * 4003199668773774 + 1024;
    SameSlot(1024 * laps + r, p, 4003199668773774 * laps);
    ShiftedSlot(laps, r);
  }

  /** At the first wrap the counter names slot 0, and the stream stands at slot 1024. */
  lemma FirstWrapLosesSlot()
    ensures Slot(Wrap64(U64)) == 0 && Slot(U64) == 1024
  {
    WrapKeepsSlotIff(U64);
    assert U64 == RING_BYTES * 4003199668773774 + 1024;
  }
}
