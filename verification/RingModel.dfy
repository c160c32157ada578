/**
 The ring as its users see it when calls do not overlap: an append-only stream, a read position,
 and the consumer's ledger. Ring.dfy refines it to an array; Interleaving.dfy takes the calls apart.
 */
module RingModel {
  import opened Protocol
  import opened Ledger

  datatype Stream = Stream(bytes: seq<byte>, rp: nat, log: seq<Entry>)
  {
    function Wp(): nat {
      |bytes|
    }

    predicate Ok() {
      rp <= Wp()
    }

    /** The ledger accounts for everything from start to the read position, and tells the truth. */
    predicate Sound(start: nat) {
      Ok() && Tiles(log, start, rp) && Faithful(log, bytes)
    }

    function Unread(): nat
      requires Ok()
    {
      Wp() - rp
    }

    predicate Lapped()
      requires Ok()
    {
      Unread() > RING_BYTES
    }

    /** How many bytes a read of at most max returns. */
    function Count(max: nat): (n: nat)
      requires Ok()
      ensures n <= max && rp + n <= Wp()
    {
      if Lapped() then 0 else Min(Unread(), max)
    }

    function Received(max: nat): (r: seq<byte>)
      requires Ok()
      ensures |r| == Count(max)
    {
      bytes[rp..rp + Count(max)]
    }

    function Publish(data: seq<byte>): (s: Stream)
      requires Ok()
      ensures s.Ok()
    {
      this.(bytes := bytes + data)
    }

    function Consume(max: nat): (s: Stream)
      requires Ok()
      ensures s.Ok()
    {
      if Lapped() then
        this.(rp := Wp(), log := log + [Lap(rp, Wp())])
      else if Unread() == 0 then
        this
      else
        this.(rp := rp + Count(max), log := log + [Got(rp, Received(max))])
    }

    /** The consumer gives up its backlog and starts from the write position. */
    function Reconnect(): (s: Stream)
      requires Ok()
      ensures s.Ok()
    {
      this.(rp := Wp(), log := log + [Resync(rp, Wp())])
    }
  }

  /** The zeroed positions of a freshly initialised ring. */
  const EMPTY: Stream := Stream([], 0, [])

  datatype Op = Write(data: seq<byte>) | Read(max: nat) | Sync

  function Apply(s: Stream, op: Op): (t: Stream)
    requires s.Ok()
    ensures t.Ok()
  {
    match op
    case Write(data) => s.Publish(data)
    case Read(max) => s.Consume(max)
    case Sync => s.Reconnect()
  }

  function Run(s: Stream, ops: seq<Op>): (t: Stream)
    requires s.Ok()
    ensures t.Ok()
  {
    if ops == [] then s else Apply(Run(s, ops[..|ops| - 1]), ops[|ops| - 1])
  }

  lemma WriteEffect(s: Stream, data: seq<byte>, start: nat)
    requires s.Sound(start)
    ensures s.Publish(data).Sound(start)
  {
    FaithfulGrows(s.log, s.bytes, data);
  }

  /** What a read does to the ledger and to what was delivered. */
  predicate ReadDoes(s: Stream, t: Stream, max: nat, start: nat)
    requires s.Ok()
  {
    && t.Sound(start) && s.rp <= t.rp && t.bytes == s.bytes
    && Delivered(t.log) == Delivered(s.log) + s.Received(max)
    && Laps(t.log) == Laps(s.log) + if s.Lapped() then 1 else 0
  }

  lemma LapEffect(s: Stream, max: nat, start: nat)
    requires s.Sound(start) && s.Lapped()
    ensures ReadDoes(s, s.Consume(max), max, start)
  {
    AppendEffect(s, Lap(s.rp, s.Wp()), start);
    assert s.Received(max) == [];
  }

  lemma GotEffect(s: Stream, max: nat, start: nat)
    requires s.Sound(start) && 0 < s.Unread() <= RING_BYTES
    ensures ReadDoes(s, s.Consume(max), max, start)
  {
    AppendEffect(s, Got(s.rp, s.Received(max)), start);
  }

  lemma ReadEffect(s: Stream, max: nat, start: nat)
    requires s.Sound(start)
    ensures ReadDoes(s, s.Consume(max), max, start)
  {
    if s.Lapped() {
      LapEffect(s, max, start);
    } else if s.Unread() > 0 {
      GotEffect(s, max, start);
    } else {
      assert Delivered(s.log) + s.Received(max) == Delivered(s.log);
    }
  }

  /** One operation, described by its effect on the observable quantities. */
  lemma ApplyEffect(s: Stream, op: Op, start: nat)
    requires s.Sound(start)
    ensures var t := Apply(s, op);
            && t.Sound(start)
            && s.bytes <= t.bytes && s.rp <= t.rp
            && (op.Read? ==> Delivered(t.log) == Delivered(s.log) + s.Received(op.max))
            && (!op.Read? ==> Delivered(t.log) == Delivered(s.log))
            && Laps(t.log) == Laps(s.log) + if op.Read? && s.Lapped() then 1 else 0
  {
    match op
    case Write(data) => WriteEffect(s, data, start);
    case Read(max) => ReadEffect(s, max, start);
    case Sync => AppendEffect(s, Resync(s.rp, s.Wp()), start);
  }

  /** A read that is not lapped takes max bytes or all there is, the next of the stream; a lapped one takes none. */
  lemma ReadTakesAll(s: Stream, max: nat)
    requires s.Ok()
    ensures var t, taken := s.Consume(max), s.Received(max);
            && t.bytes == s.bytes
            && if |s.bytes| - s.rp > RING_BYTES then taken == [] && t.rp == |s.bytes|
               else
                 && t.rp == s.rp + |taken| && taken == s.bytes[s.rp..t.rp]
                 && |taken| <= max && (|taken| == max || t.rp == |s.bytes|)
  {
  }

  lemma AppendEffect(s: Stream, e: Entry, start: nat)
    requires s.Sound(start) && e.from == s.rp <= e.Upto() <= s.Wp()
    requires e.Lap? ==> e.upto > e.from + RING_BYTES
    requires e.Got? ==> e.bytes == s.bytes[e.from..e.Upto()]
    ensures s.(rp := e.Upto(), log := s.log + [e]).Sound(start)
    ensures Delivered(s.log + [e]) == Delivered(s.log) + if e.Got? then e.bytes else []
    ensures Laps(s.log + [e]) == Laps(s.log) + if e.Lap? then 1 else 0
  {
    Append(s.log, e);
    AppendTiles(s.log, e, start);
    AppendFaithful(s.log, e, s.bytes);
  }

  lemma ApplyKeepsSound(s: Stream, op: Op, start: nat)
    requires s.Sound(start)
    ensures Apply(s, op).Sound(start)
  {
    ApplyEffect(s, op, start);
  }

  lemma {:induction false} RunEffect(s: Stream, ops: seq<Op>, start: nat)
    requires s.Sound(start)
    ensures var t := Run(s, ops); t.Sound(start) && s.bytes <= t.bytes && s.rp <= t.rp
  {
    if ops != [] {
      RunEffect(s, ops[..|ops| - 1], start);
      ApplyEffect(Run(s, ops[..|ops| - 1]), ops[|ops| - 1], start);
    }
  }

  function Written(ops: seq<Op>): seq<byte> {
    if ops == [] then []
    else
      var op := ops[|ops| - 1];
      Written(ops[..|ops| - 1]) + if op.Write? then op.data else []
  }

  lemma PublishTwice(s: Stream, a: seq<byte>, b: seq<byte>)
    requires s.Ok()
    ensures s.Publish(a).Publish(b) == s.Publish(a + b)
  {
    Associative(s.bytes, a, b);
  }

  lemma {:induction false} RunWrites(s: Stream, ops: seq<Op>)
    requires s.Ok()
    ensures Run(s, ops).bytes == s.bytes + Written(ops)
  {
    if ops == [] {
      assert s.bytes + [] == s.bytes;
    } else {
      var front, op := ops[..|ops| - 1], ops[|ops| - 1];
      RunWrites(s, front);
      Associative(s.bytes, Written(front), if op.Write? then op.data else []);
      assert Run(s, front).bytes + [] == Run(s, front).bytes;
    }
  }

  lemma StreamIsWritten(ops: seq<Op>)
    ensures Run(EMPTY, ops).bytes == Written(ops)
  {
    RunWrites(EMPTY, ops);
  }

  lemma RunOne(s: Stream, op: Op)
    requires s.Ok()
    ensures Run(s, [op]) == Apply(s, op) && Written([op]) == if op.Write? then op.data else []
  {
    assert [op][..0] == [];
    assert Run(s, []) == s && Written([]) == [];
  }

  lemma {:induction false} RunJoin(s: Stream, a: seq<Op>, b: seq<Op>)
    requires s.Ok()
    ensures Run(s, a + b) == Run(Run(s, a), b)
  {
    if b == [] {
      assert a + b == a;
    } else {
      assert (a + b)[..|a + b| - 1] == a + b[..|b| - 1];
      RunJoin(s, a, b[..|b| - 1]);
    }
  }

  lemma {:induction false} WrittenJoin(a: seq<Op>, b: seq<Op>)
    ensures Written(a + b) == Written(a) + Written(b)
  {
    if b == [] {
      assert a + b == a;
    } else {
      var front, op := b[..|b| - 1], b[|b| - 1];
      assert (a + b)[..|a + b| - 1] == a + front;
      WrittenJoin(a, front);
      Associative(Written(a), Written(front), if op.Write? then op.data else []);
    }
  }

  /**
   Delivery and conservation for every run from the initialised ring: the bytes read are the bytes
   written, in order, minus the skipped intervals; every byte written was read, skipped or is still
   unread; and laps are bounded by the volume written.
   */
  lemma DeliveryAndConservation(ops: seq<Op>)
    ensures var t := Run(EMPTY, ops);
            && t.bytes == Written(ops)
            && Delivered(t.log) == Kept(t.bytes, t.log, 0, t.rp)
            && |Delivered(t.log)| + Skipped(t.log) + t.Unread() == |Written(ops)|
            && Laps(t.log) * (RING_BYTES + 1) <= |Written(ops)|
  {
    var t := Run(EMPTY, ops);
    StreamIsWritten(ops);
    RunEffect(EMPTY, ops, 0);
    Conservation(t.log, 0, t.rp);
    LapBound(t.log, 0, t.rp);
    DeliveredIsKept(t.log, t.bytes, 0, t.rp);
  }

  /** Every read of the run starts with the consumer at most one ring behind, and nothing resynchronises. */
  predicate KeepsUp(s: Stream, ops: seq<Op>)
    requires s.Ok()
  {
    ops == [] || (KeepsUp(s, ops[..|ops| - 1]) &&
                  match ops[|ops| - 1]
                  case Write(_) => true
                  case Read(_) => !Run(s, ops[..|ops| - 1]).Lapped()
                  case Sync => false)
  }

  /** A consumer that keeps up receives the stream exactly. */
  lemma {:induction false} KeepingUpIsExact(s: Stream, ops: seq<Op>, start: nat)
    requires s.Sound(start) && KeepsUp(s, ops)
    ensures var t := Run(s, ops);
            && s.rp <= t.rp
            && Laps(t.log) == Laps(s.log)
            && Delivered(t.log) == Delivered(s.log) + t.bytes[s.rp..t.rp]
  {
    if ops != [] {
      var front := ops[..|ops| - 1];
      RunEffect(s, front, start);
      KeepingUpIsExact(s, front, start);
      KeepingUpStep(Run(s, front), ops[|ops| - 1], start, s.rp, Delivered(s.log));
    }
  }

  lemma KeepingUpStep(m: Stream, op: Op, start: nat, from: nat, before: seq<byte>)
    requires m.Sound(start) && from <= m.rp
    requires !op.Sync? && (op.Read? ==> !m.Lapped())
    requires Delivered(m.log) == before + m.bytes[from..m.rp]
    ensures var t := Apply(m, op);
            && m.rp <= t.rp && Laps(t.log) == Laps(m.log)
            && Delivered(t.log) == before + t.bytes[from..t.rp]
  {
    ApplyEffect(m, op, start);
    match op
    case Write(data) => SliceOfPrefix(m.bytes, data, from, m.rp);
    case Read(max) =>
      SliceJoin(m.bytes, from, m.rp, m.rp + m.Count(max));
      Associative(before, m.bytes[from..m.rp], m.Received(max));
  }

  // ---- The four packet reads of an OUT transfer ----

  function Padded(bytes: seq<byte>, size: nat): (r: seq<byte>)
    requires |bytes| <= size
    ensures |r| == size
  {
    bytes + Silence(size - |bytes|)
  }

  /** The bytes come first and everything behind them is zero. */
  lemma PaddedIs(bytes: seq<byte>, size: nat)
    requires |bytes| <= size
    ensures Padded(bytes, size)[..|bytes|] == bytes
    ensures forall k :: |bytes| <= k < size ==> Padded(bytes, size)[k] == 0
  {
  }

  /**
   The ring after |gaps| packet reads, gaps[i] being what the producer publishes just before read i,
   and the packets those reads filled.
   */
  function AfterPackets(s: Stream, gaps: seq<seq<byte>>): (t: Stream)
    requires s.Ok()
    ensures t.Ok()
    decreases gaps, 0
  {
    if gaps == [] then s else BeforeLast(s, gaps).Consume(PACKET_SIZE)
  }

  function BeforeLast(s: Stream, gaps: seq<seq<byte>>): (t: Stream)
    requires s.Ok() && gaps != []
    ensures t.Ok()
    decreases gaps[..|gaps| - 1], 1
  {
    AfterPackets(s, gaps[..|gaps| - 1]).Publish(gaps[|gaps| - 1])
  }

  function PacketOf(s: Stream): (packet: seq<byte>)
    requires s.Ok()
    ensures |packet| == PACKET_SIZE
  {
    Padded(s.Received(PACKET_SIZE), PACKET_SIZE)
  }

  function Packets(s: Stream, gaps: seq<seq<byte>>): (packets: seq<seq<byte>>)
    requires s.Ok()
    ensures |packets| == |gaps|
  {
    if gaps == [] then [] else Packets(s, gaps[..|gaps| - 1]) + [PacketOf(BeforeLast(s, gaps))]
  }

  /** Nothing published between the packets, be it in bytes or in writes. */
  function Quiet<T>(n: nat): (gaps: seq<seq<T>>)
    ensures |gaps| == n
  {
    if n == 0 then [] else Quiet(n - 1) + [[]]
  }

  lemma QuietStep(s: Stream, n: nat)
    requires s.Ok()
    ensures Quiet<byte>(n + 1)[..n] == Quiet<byte>(n)
    ensures BeforeLast(s, Quiet(n + 1)) == AfterPackets(s, Quiet(n))
  {
    assert Quiet<byte>(n + 1)[..n] == Quiet<byte>(n);
    var m := AfterPackets(s, Quiet(n));
    assert m.bytes + [] == m.bytes;
  }

  /** n packet reads ask for size bytes. */
  predicate Asks(n: nat, size: nat) {
    size == n * PACKET_SIZE
  }

  lemma AsksLess(n: nat, size: nat)
    requires Asks(n, size) && n > 0
    ensures size >= PACKET_SIZE && Asks(n - 1, size - PACKET_SIZE)
  {
  }

  /** The ring, its ledger aside, after quiet reads that asked for size bytes in all. */
  function QuietAt(s: Stream, size: nat): (m: Stream)
    requires s.Ok()
    ensures m.Ok()
  {
    s.(rp := if s.Lapped() && size > 0 then s.Wp() else s.rp + s.Count(size))
  }

  /** Two rings that differ only in their ledgers serve the same read. */
  lemma SameRead(a: Stream, b: Stream)
    requires a.Ok() && a.bytes == b.bytes && a.rp == b.rp
    ensures a.Received(PACKET_SIZE) == b.Received(PACKET_SIZE)
    ensures a.Consume(PACKET_SIZE).rp == b.Consume(PACKET_SIZE).rp
    ensures a.Consume(PACKET_SIZE).bytes == b.Consume(PACKET_SIZE).bytes
  {
  }

  lemma QuietAtNext(s: Stream, size: nat, more: nat)
    requires s.Ok() && more == size + PACKET_SIZE
    ensures QuietAt(s, size).Consume(PACKET_SIZE).rp == QuietAt(s, more).rp
    ensures s.Received(more) == s.Received(size) + QuietAt(s, size).Received(PACKET_SIZE)
  {
  }

  /** Where n quiet packet reads leave the ring. */
  lemma {:induction false} QuietPosition(s: Stream, n: nat, size: nat)
    requires s.Ok() && Asks(n, size)
    ensures AfterPackets(s, Quiet(n)).bytes == s.bytes
    ensures AfterPackets(s, Quiet(n)).rp == QuietAt(s, size).rp
  {
    if n > 0 {
      AsksLess(n, size);
      QuietPosition(s, n - 1, size - PACKET_SIZE);
      QuietStep(s, n - 1);
      SameRead(AfterPackets(s, Quiet(n - 1)), QuietAt(s, size - PACKET_SIZE));
      QuietAtNext(s, size - PACKET_SIZE, size);
    }
  }

  /** What the packet reads took from the ring, without padding. */
  function Taken(s: Stream, gaps: seq<seq<byte>>): seq<byte>
    requires s.Ok()
  {
    if gaps == [] then [] else Taken(s, gaps[..|gaps| - 1]) + BeforeLast(s, gaps).Received(PACKET_SIZE)
  }

  lemma QuietTake(s: Stream, n: nat, next: nat, size: nat)
    requires s.Ok() && Asks(n, size) && next == n + 1
    ensures Taken(s, Quiet(next)) == Taken(s, Quiet(n)) + QuietAt(s, size).Received(PACKET_SIZE)
  {
    QuietPosition(s, n, size);
    QuietStep(s, n);
    SameRead(AfterPackets(s, Quiet(n)), QuietAt(s, size));
  }

  /** What n quiet packet reads take, packet by packet ... */
  function QuietTakings(s: Stream, n: nat, size: nat): seq<byte>
    requires s.Ok() && Asks(n, size)
  {
    if n == 0 then []
    else
      AsksLess(n, size);
      QuietTakings(s, n - 1, size - PACKET_SIZE) + QuietAt(s, size - PACKET_SIZE).Received(PACKET_SIZE)
  }

  lemma {:induction false} TakenIsQuiet(s: Stream, n: nat, size: nat)
    requires s.Ok() && Asks(n, size)
    ensures Taken(s, Quiet(n)) == QuietTakings(s, n, size)
  {
    if n > 0 {
      AsksLess(n, size);
      TakenIsQuiet(s, n - 1, size - PACKET_SIZE);
      OneMoreQuietTake(s, n, size, n - 1, size - PACKET_SIZE);
    }
  }

  lemma OneMoreQuietTake(s: Stream, n: nat, size: nat, before: nat, less: nat)
    requires s.Ok() && Asks(n, size) && n == before + 1 && size == less + PACKET_SIZE && Asks(before, less)
    requires Taken(s, Quiet(before)) == QuietTakings(s, before, less)
    ensures Taken(s, Quiet(n)) == QuietTakings(s, n, size)
  {
    QuietTake(s, before, n, less);
  }

  /** ... and as a whole. */
  lemma {:induction false} QuietTaken(s: Stream, n: nat, size: nat)
    requires s.Ok() && Asks(n, size)
    ensures QuietTakings(s, n, size) == s.Received(size)
  {
    if n == 0 {
      assert s.Received(0) == [];
    } else {
      AsksLess(n, size);
      var less := size - PACKET_SIZE;
      QuietTaken(s, n - 1, less);
      QuietAtNext(s, less, size);
    }
  }

  /** The next packet of a quiet transfer, in terms of the ring at its start. */
  lemma QuietPacket(s: Stream, n: nat, next: nat, size: nat)
    requires s.Ok() && Asks(n, size) && next == n + 1
    ensures Concat(Packets(s, Quiet(next))) == Concat(Packets(s, Quiet(n))) + PacketOf(QuietAt(s, size))
  {
    QuietPosition(s, n, size);
    QuietStep(s, n);
    SameRead(AfterPackets(s, Quiet(n)), QuietAt(s, size));
    ConcatOne(Packets(s, Quiet(n)), PacketOf(QuietAt(s, size)));
  }

  /** What n quiet packet reads leave in the buffer, packet by packet ... */
  function QuietBuffer(s: Stream, n: nat, size: nat): seq<byte>
    requires s.Ok() && Asks(n, size)
  {
    if n == 0 then []
    else
      AsksLess(n, size);
      QuietBuffer(s, n - 1, size - PACKET_SIZE) + PacketOf(QuietAt(s, size - PACKET_SIZE))
  }

  lemma {:induction false} PacketsAreQuiet(s: Stream, n: nat, size: nat)
    requires s.Ok() && Asks(n, size)
    ensures Concat(Packets(s, Quiet(n))) == QuietBuffer(s, n, size)
  {
    if n > 0 {
      AsksLess(n, size);
      PacketsAreQuiet(s, n - 1, size - PACKET_SIZE);
      OneMoreQuietPacket(s, n, size, n - 1, size - PACKET_SIZE);
    }
  }

  lemma OneMoreQuietPacket(s: Stream, n: nat, size: nat, before: nat, less: nat)
    requires s.Ok() && Asks(n, size) && n == before + 1 && size == less + PACKET_SIZE && Asks(before, less)
    requires Concat(Packets(s, Quiet(before))) == QuietBuffer(s, before, less)
    ensures Concat(Packets(s, Quiet(n))) == QuietBuffer(s, n, size)
  {
    QuietPacket(s, before, n, less);
  }

  /** ... and as a whole. */
  lemma {:induction false} QuietBytes(s: Stream, n: nat, size: nat)
    requires s.Ok() && Asks(n, size)
    ensures QuietBuffer(s, n, size) == Padded(s.Received(size), size)
  {
    if n == 0 {
      assert Padded(s.Received(0), 0) == [];
    } else {
      AsksLess(n, size);
      var less := size - PACKET_SIZE;
      QuietBytes(s, n - 1, less);
      PaddedJoin(s, less, size);
    }
  }

  lemma PaddedJoin(s: Stream, size: nat, more: nat)
    requires s.Ok() && more == size + PACKET_SIZE
    ensures Padded(s.Received(size), size) + PacketOf(QuietAt(s, size)) == Padded(s.Received(more), more)
  {
    var m := QuietAt(s, size);
    QuietAtNext(s, size, more);
    if s.Count(size) == size {
      PadAfterFull(s.Received(size), m.Received(PACKET_SIZE), PACKET_SIZE);
    } else {
      assert m.Received(PACKET_SIZE) == [];
      PadMore(s.Received(size), size, PACKET_SIZE);
    }
  }

  lemma PadAfterFull(a: seq<byte>, b: seq<byte>, size: nat)
    requires |b| <= size
    ensures Padded(a, |a|) + Padded(b, size) == Padded(a + b, |a| + size)
  {
  }

  lemma PadMore(a: seq<byte>, size: nat, more: nat)
    requires |a| <= size
    ensures Padded(a, size) + Padded([], more) == Padded(a + [], size + more)
  {
  }

  /** The read positions before each packet, and after the last. */
  function Marks(s: Stream, gaps: seq<seq<byte>>): (r: seq<nat>)
    requires s.Ok()
    ensures |r| == |gaps| + 1 && r[|gaps|] == AfterPackets(s, gaps).rp
  {
    if gaps == [] then [s.rp]
    else Marks(s, gaps[..|gaps| - 1]) + [AfterPackets(s, gaps).rp]
  }

  /** What the packet read that moved the position from `from` to `next` put into the buffer. */
  predicate PacketIsSegment(bytes: seq<byte>, from: nat, next: nat, packet: seq<byte>) {
    if from <= next <= from + PACKET_SIZE then
      next <= |bytes| && packet == Padded(bytes[from..next], PACKET_SIZE)
    else
      next > from + RING_BYTES && packet == Silence(PACKET_SIZE)
  }

  /**
   With arbitrary publishes between the packets, every packet is a contiguous segment of the final
   stream followed only by silence; segments appear in stream order; and the next one starts exactly
   where this one stopped unless a lap skip of more than a ring lies between them.
   */
  lemma {:induction false} InterleavedPackets(s: Stream, gaps: seq<seq<byte>>)
    requires s.Ok()
    ensures var bytes, marks, packets := AfterPackets(s, gaps).bytes, Marks(s, gaps), Packets(s, gaps);
            && bytes == s.bytes + Concat(gaps)
            && marks[0] == s.rp
            && forall p :: 0 <= p < |gaps| ==> PacketIsSegment(bytes, marks[p], marks[p + 1], packets[p])
  {
    if gaps == [] {
      assert s.bytes + Concat(gaps) == s.bytes;
    } else {
      var front, gap := gaps[..|gaps| - 1], gaps[|gaps| - 1];
      InterleavedPackets(s, front);
      var m, marks, packets := AfterPackets(s, front), Marks(s, front), Packets(s, front);
      assert (s.bytes + Concat(front)) + gap == s.bytes + (Concat(front) + gap);
      LastPacket(m.Publish(gap));
      forall p | 0 <= p < |front|
        ensures PacketIsSegment(m.bytes + gap, marks[p], marks[p + 1], packets[p])
      {
        SegmentSurvives(m.bytes, gap, marks[p], marks[p + 1], packets[p]);
      }
    }
  }

  lemma LastPacket(ready: Stream)
    requires ready.Ok()
    ensures PacketIsSegment(ready.bytes, ready.rp, ready.Consume(PACKET_SIZE).rp, PacketOf(ready))
  {
  }

  lemma SegmentSurvives(bytes: seq<byte>, more: seq<byte>, from: nat, next: nat, packet: seq<byte>)
    requires PacketIsSegment(bytes, from, next, packet)
    ensures PacketIsSegment(bytes + more, from, next, packet)
  {
    if from <= next <= from + PACKET_SIZE {
      assert (bytes + more)[from..next] == bytes[from..next];
    }
  }

  // ---- What the packets hold, without their padding ----

  /** The stream bytes a packet read took that moved the position from `from` to `next`. */
  function Piece(bytes: seq<byte>, from: nat, next: nat): (p: seq<byte>)
    ensures |p| <= PACKET_SIZE
  {
    if from <= next <= from + PACKET_SIZE && next <= |bytes| then bytes[from..next] else []
  }

  /** The pieces between consecutive marks, joined. */
  function Pieces(bytes: seq<byte>, marks: seq<nat>): seq<byte> {
    if |marks| <= 1 then []
    else
      var n := |marks| - 1;
      Pieces(bytes, marks[..n]) + Piece(bytes, marks[n - 1], marks[n])
  }

  lemma {:induction false} PiecesBound(bytes: seq<byte>, marks: seq<nat>, size: nat)
    requires marks != [] && Asks(|marks| - 1, size)
    ensures |Pieces(bytes, marks)| <= size
  {
    if |marks| > 1 {
      AsksLess(|marks| - 1, size);
      PiecesBound(bytes, marks[..|marks| - 1], size - PACKET_SIZE);
    }
  }

  predicate MarksWithin(marks: seq<nat>, end: nat) {
    forall p :: 0 <= p < |marks| ==> marks[p] <= end
  }

  lemma PieceGrows(bytes: seq<byte>, more: seq<byte>, from: nat, next: nat)
    requires next <= |bytes|
    ensures Piece(bytes + more, from, next) == Piece(bytes, from, next)
  {
    if from <= next {
      SliceOfPrefix(bytes, more, from, next);
    }
  }

  lemma {:induction false} PiecesGrow(bytes: seq<byte>, more: seq<byte>, marks: seq<nat>)
    requires MarksWithin(marks, |bytes|)
    ensures Pieces(bytes + more, marks) == Pieces(bytes, marks)
  {
    if |marks| > 1 {
      var n := |marks| - 1;
      PiecesGrow(bytes, more, marks[..n]);
      PieceGrows(bytes, more, marks[n - 1], marks[n]);
    }
  }

  lemma {:induction false} MarksInside(s: Stream, gaps: seq<seq<byte>>)
    requires s.Ok()
    ensures MarksWithin(Marks(s, gaps), |AfterPackets(s, gaps).bytes|)
  {
    if gaps != [] {
      MarksInside(s, gaps[..|gaps| - 1]);
    }
  }

  lemma PiecesOneMore(bytes: seq<byte>, marks: seq<nat>, next: nat)
    requires marks != []
    ensures Pieces(bytes, marks + [next]) == Pieces(bytes, marks) + Piece(bytes, marks[|marks| - 1], next)
  {
    assert (marks + [next])[..|marks|] == marks;
  }

  lemma PieceIsReceived(m: Stream)
    requires m.Ok()
    ensures Piece(m.bytes, m.rp, m.Consume(PACKET_SIZE).rp) == m.Received(PACKET_SIZE)
  {
  }

  /** The pieces between the marks, cut from the stream as it ends up, are what the packet reads took. */
  lemma {:induction false} TakenIsPieces(s: Stream, gaps: seq<seq<byte>>)
    requires s.Ok()
    ensures Taken(s, gaps) == Pieces(AfterPackets(s, gaps).bytes, Marks(s, gaps))
  {
    if gaps != [] {
      var front, gap := gaps[..|gaps| - 1], gaps[|gaps| - 1];
      var m, ready := AfterPackets(s, front), BeforeLast(s, gaps);
      TakenIsPieces(s, front);
      MarksInside(s, front);
      PiecesGrow(m.bytes, gap, Marks(s, front));
      PieceIsReceived(ready);
      PiecesOneMore(ready.bytes, Marks(s, front), AfterPackets(s, gaps).rp);
    }
  }

  /** Whatever is published between them, packet reads keep the ledger sound and deliver exactly what they took. */
  lemma {:induction false} PacketsDeliver(s: Stream, gaps: seq<seq<byte>>, start: nat)
    requires s.Sound(start)
    ensures AfterPackets(s, gaps).Sound(start)
    ensures Delivered(AfterPackets(s, gaps).log) == Delivered(s.log) + Taken(s, gaps)
  {
    if gaps == [] {
      assert Delivered(s.log) + [] == Delivered(s.log);
    } else {
      var front := gaps[..|gaps| - 1];
      PacketsDeliver(s, front, start);
      ApplyEffect(AfterPackets(s, front), Write(gaps[|gaps| - 1]), start);
      ApplyEffect(BeforeLast(s, gaps), Read(PACKET_SIZE), start);
      Associative(Delivered(s.log), Taken(s, front), BeforeLast(s, gaps).Received(PACKET_SIZE));
    }
  }

  /** Four packet reads are one big read, zero padded; a lapped transfer is all silence. */
  lemma PacketLoopIsOneRead(s: Stream, start: nat)
    requires s.Sound(start)
    ensures var t := AfterPackets(s, Quiet(PACKETS_PER_XFER));
            && Concat(Packets(s, Quiet(PACKETS_PER_XFER))) == Padded(s.Received(XFER_SIZE), XFER_SIZE)
            && t.rp == (if s.Lapped() then s.Wp() else s.rp + Min(s.Unread(), XFER_SIZE))
            && t.bytes == s.bytes
            && t.Sound(start)
            && Delivered(t.log) == Delivered(s.log) + s.Received(XFER_SIZE)
  {
    QuietPosition(s, PACKETS_PER_XFER, XFER_SIZE);
    PacketsAreQuiet(s, PACKETS_PER_XFER, XFER_SIZE);
    QuietBytes(s, PACKETS_PER_XFER, XFER_SIZE);
    TakenIsQuiet(s, PACKETS_PER_XFER, XFER_SIZE);
    QuietTaken(s, PACKETS_PER_XFER, XFER_SIZE);
    PacketsDeliver(s, Quiet(PACKETS_PER_XFER), start);
  }
}
