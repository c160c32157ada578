/**
 The OUT ring with nothing taken whole: what the engine's packet reads put into its transfer buffers while the
 plugin, keeping to the free-space formula, stands anywhere inside its writes.
 */
module PacketReads {
  import opened Protocol
  import opened Ledger
  import opened Interleaving
  import opened Discipline
  import RM = RingModel

  /** This step ends a read call: it found nothing, skipped a lap, or stored the read position. */
  predicate EndsRead(m: Machine, a: Action)
    requires m.Ordered()
  {
    || (a.Check? && m.cons.SawBoth? && (m.cons.seen == m.cons.at || m.cons.seen - m.cons.at > RING_BYTES))
    || (a.Retire? && m.cons.Reading? && |m.cons.dst| == m.cons.n)
  }

  /** What the read returned that a step ends, if it ends one. */
  function Taken(m: Machine, a: Action): seq<seq<byte>>
    requires m.Ordered()
  {
    if !EndsRead(m, a) then [] else if a.Retire? then [m.cons.dst] else [[]]
  }

  /** What the reads of a schedule returned, in order. */
  function Takes(schedule: seq<Action>): seq<seq<byte>> {
    if schedule == [] then []
    else
      var front := schedule[..|schedule| - 1];
      Takes(front) + Taken(Run(IDLE, front), schedule[|schedule| - 1])
  }

  /** Every read asks for one packet, as SubmitOut's do. */
  predicate ReadsPackets(schedule: seq<Action>) {
    forall a <- schedule :: a.BeginRead? ==> a.max == PACKET_SIZE
  }

  /** The packet that SubmitOut makes of what a read returned. */
  function PacketOf(take: seq<byte>): seq<byte>
    requires |take| <= PACKET_SIZE
  {
    RM.Padded(take, PACKET_SIZE)
  }

  /** The takes are consecutive segments of the stream up to end, and each makes one packet: itself, then silence. */
  predicate Consecutive(stream: seq<byte>, takes: seq<seq<byte>>, end: nat) {
    if takes == [] then end == 0
    else
      var take := takes[|takes| - 1];
      && |take| <= PACKET_SIZE && |take| <= end <= |stream|
      && take == stream[end - |take|..end]
      && RM.PacketIsSegment(stream, end - |take|, end, PacketOf(take))
      && Consecutive(stream, takes[..|takes| - 1], end - |take|)
  }

  /** A read under way asks for at most one packet. */
  predicate AsksPacket(c: Consumer) {
    match c
    case SawWp(_, max) => max == PACKET_SIZE
    case SawBoth(_, _, max) => max == PACKET_SIZE
    case Reading(_, n, _, _) => n <= PACKET_SIZE
    case _ => true
  }

  lemma {:induction false} ConsecutiveGrows(stream: seq<byte>, more: seq<byte>, takes: seq<seq<byte>>, end: nat)
    requires Consecutive(stream, takes, end)
    ensures Consecutive(stream + more, takes, end)
  {
    if takes != [] {
      var take := takes[|takes| - 1];
      ConsecutiveGrows(stream, more, takes[..|takes| - 1], end - |take|);
      SliceOfPrefix(stream, more, end - |take|, end);
      RM.SegmentSurvives(stream, more, end - |take|, end, PacketOf(take));
    }
  }

  lemma OneMoreTake(stream: seq<byte>, takes: seq<seq<byte>>, end: nat, take: seq<byte>)
    requires Consecutive(stream, takes, end) && |take| <= PACKET_SIZE
    requires end + |take| <= |stream| && take == stream[end..end + |take|]
    ensures Consecutive(stream, takes + [take], end + |take|)
  {
    assert (takes + [take])[..|takes|] == takes;
  }

  /** What holds at every step of a spacious schedule of packet reads. */
  ghost predicate PacketInv(m: Machine, takes: seq<seq<byte>>) {
    Inv(m) && FifoInv(m, Here(IDLE)) && AsksPacket(m.cons) && Consecutive(m.stream, takes, m.rp)
  }

  lemma StepAsks(m: Machine, a: Action)
    requires m.Ordered() && AsksPacket(m.cons) && (a.BeginRead? ==> a.max == PACKET_SIZE)
    ensures AsksPacket(Step(m, a).cons)
  {
  }

  /** A step that ends no read leaves the read position and only ever extends the stream. */
  lemma QuietStep(m: Machine, a: Action)
    requires m.Ordered() && !EndsRead(m, a) && !a.BeginSync? && !m.cons.Syncing?
    ensures Step(m, a).rp == m.rp
    ensures Step(m, a).stream == m.stream || (a.BeginWrite? && Step(m, a).stream == m.stream + a.data)
  {
  }

  /** A step that ends a read, with the producer at most a ring ahead, takes the next bytes of the stream. */
  lemma EndStep(m: Machine, a: Action) returns (take: seq<byte>)
    requires Inv(m) && FifoInv(m, Here(IDLE)) && AsksPacket(m.cons) && EndsRead(m, a)
    ensures Taken(m, a) == [take] && |take| <= PACKET_SIZE
    ensures Step(m, a).stream == m.stream && Step(m, a).rp == m.rp + |take|
    ensures m.rp + |take| <= |m.stream| && take == m.stream[m.rp..m.rp + |take|]
  {
    take := if a.Retire? then m.cons.dst else [];
  }

  lemma EndKeepsConsecutive(m: Machine, a: Action, takes: seq<seq<byte>>)
    requires PacketInv(m, takes) && EndsRead(m, a)
    ensures Consecutive(Step(m, a).stream, takes + Taken(m, a), Step(m, a).rp)
  {
    var take := EndStep(m, a);
    OneMoreTake(m.stream, takes, m.rp, take);
  }

  lemma QuietKeepsConsecutive(m: Machine, a: Action, takes: seq<seq<byte>>)
    requires PacketInv(m, takes) && !EndsRead(m, a) && !a.BeginSync?
    ensures Consecutive(Step(m, a).stream, takes + Taken(m, a), Step(m, a).rp)
  {
    QuietStep(m, a);
    if a.BeginWrite? {
      ConsecutiveGrows(m.stream, a.data, takes, m.rp);
    }
    assert takes + [] == takes;
  }

  lemma StepKeepsPackets(m: Machine, a: Action, takes: seq<seq<byte>>)
    requires PacketInv(m, takes) && !a.BeginSync? && (a.BeginRead? ==> a.max == PACKET_SIZE)
    requires a.BeginWrite? && m.prod.Resting? ==> HasRoom(m, |a.data|)
    ensures PacketInv(Step(m, a), takes + Taken(m, a))
  {
    StepKeepsInv(m, a);
    StepKeepsFifo(m, a, Here(IDLE));
    StepAsks(m, a);
    if EndsRead(m, a) {
      EndKeepsConsecutive(m, a, takes);
    } else {
      QuietKeepsConsecutive(m, a, takes);
    }
  }

  lemma {:induction false} PacketsStayWhole(schedule: seq<Action>)
    requires Spacious(schedule) && ReadsPackets(schedule)
    ensures PacketInv(Run(IDLE, schedule), Takes(schedule))
  {
    if schedule == [] {
      Reachable([]);
      assert Run(IDLE, []) == IDLE;
    } else {
      var front := schedule[..|schedule| - 1];
      PacketsStayWhole(front);
      StepKeepsPackets(Run(IDLE, front), schedule[|schedule| - 1], Takes(front));
    }
  }

  lemma {:induction false} TakesAreStream(stream: seq<byte>, takes: seq<seq<byte>>, end: nat)
    requires Consecutive(stream, takes, end)
    ensures end <= |stream| && Concat(takes) == stream[..end]
  {
    if takes != [] {
      var take := takes[|takes| - 1];
      TakesAreStream(stream, takes[..|takes| - 1], end - |take|);
      SliceJoin(stream, 0, end - |take|, end);
    }
  }

  /**
   From the plugin to the transfer buffers. If every plugin write begins with room by the free-space formula, then
   in every byte-granular interleaving each packet read is its own segment of the plugin's stream, then silence,
   each segment starts where the one before it stopped, nothing is lapped, and together they are the stream up to
   the read position.
   */
  lemma RoomKeepsPackets(schedule: seq<Action>)
    requires Spacious(schedule) && ReadsPackets(schedule)
    ensures var m, takes := Run(IDLE, schedule), Takes(schedule);
            && Consecutive(m.stream, takes, m.rp)
            && Concat(takes) == m.stream[..m.rp]
            && m.rp <= m.wp <= |m.stream| && Laps(m.log) == 0
  {
    PacketsStayWhole(schedule);
    var m := Run(IDLE, schedule);
    TakesAreStream(m.stream, Takes(schedule), m.rp);
  }
}
