/** How far behind a plugin may be when an IN completion arrives: exactly as far as the completion leaves room for. */
module Slack {
  import opened Protocol
  import opened Ledger
  import opened Interleaving
  import opened Discipline
  import opened Atomicity
  import opened EngineModel
  import opened Bursts
  import RM = RingModel

  /** No further completion and no connection. */
  predicate OnlyThis(vs: seq<Move>) {
    forall v <- vs :: !v.Complete? && !(v.Move? && v.a.BeginSync?)
  }

  lemma {:induction false} FittingKeepsUp(s: System, vs: seq<Move>, b: Base)
    requires BurstInv(s) && KeepsUp(s, b) && AllLegal(s, vs) && OnlyThis(vs)
    ensures KeepsUp(PlayAll(s, vs), b)
  {
    if vs != [] {
      var front, v := vs[..|vs| - 1], vs[|vs| - 1];
      FittingKeepsUp(s, front, b);
      MovesKeepInv(s, front);
      if v.NextPacket? {
        NextPacketKeepsUp(PlayAll(s, front), b);
      } else {
        MoveKeepsUp(PlayAll(s, front), v.a, b);
      }
    }
  }

  lemma {:induction false} NotConnecting(s: System, vs: seq<Move>)
    requires s.m.Ordered() && !s.m.cons.Syncing? && OnlyThis(vs)
    ensures !PlayAll(s, vs).m.cons.Syncing?
  {
    if vs != [] {
      NotConnecting(s, vs[..|vs| - 1]);
    }
  }

  // ---- The whole burst, written without a read in between ----

  function Moves(schedule: seq<Action>): (vs: seq<Move>)
    ensures |vs| == |schedule|
  {
    if schedule == [] then [] else Moves(schedule[..|schedule| - 1]) + [Move(schedule[|schedule| - 1])]
  }

  lemma {:induction false} MovesRun(s: System, schedule: seq<Action>)
    requires s.m.Ordered() && forall a <- schedule :: !a.BeginWrite? && !a.BeginSync?
    ensures AllLegal(s, Moves(schedule)) && OnlyThis(Moves(schedule))
    ensures PlayAll(s, Moves(schedule)) == s.(m := Run(s.m, schedule))
  {
    if schedule != [] {
      MovesRun(s, schedule[..|schedule| - 1]);
    }
  }

  /** Two stretches of moves. */
  lemma PlayBoth(s: System, a: seq<Move>, b: seq<Move>)
    requires s.m.Ordered() && AllLegal(s, a) && OnlyThis(a)
    requires AllLegal(PlayAll(s, a), b) && OnlyThis(b)
    ensures AllLegal(s, a + b) && OnlyThis(a + b) && PlayAll(s, a + b) == PlayAll(PlayAll(s, a), b)
  {
    PlayOn(s, a, b);
  }

  lemma PlayOne(s: System, v: Move)
    requires s.m.Ordered() && Legal(s, v)
    ensures AllLegal(s, [v]) && PlayAll(s, [v]) == Play(s, v)
  {
    assert [v][..0] == [];
    assert PlayAll(s, []) == s && AllLegal(s, []);
  }

  /** The rest of a write of n bytes that has begun. */
  function Rest(n: nat): seq<Action> {
    Times(CopyIn, n) + [Publish]
  }

  function PacketMoves(data: seq<byte>): seq<Move> {
    [NextPacket] + Moves(Rest(|data|))
  }

  /** One payload written in one go. */
  lemma PacketPlays(s: System)
    requires Inv(s.m) && s.m.prod.Resting? && s.todo != [] && Small(s.todo)
    ensures AllLegal(s, PacketMoves(s.todo[0])) && OnlyThis(PacketMoves(s.todo[0]))
    ensures PlayAll(s, PacketMoves(s.todo[0])) == System(Run(s.m, WriteCall(s.todo[0])), s.todo[1..])
  {
    var data := s.todo[0];
    var begun := Play(s, NextPacket);
    PlayOne(s, NextPacket);
    MovesRun(begun, Rest(|data|));
    PlayBoth(s, [NextPacket], Moves(Rest(|data|)));
    RunOne(s.m, BeginWrite(data));
    RunConcat(s.m, [BeginWrite(data)], Rest(|data|));
    assert [BeginWrite(data)] + Rest(|data|) == WriteCall(data);
  }

  function BurstMoves(payloads: seq<seq<byte>>): seq<Move> {
    if payloads == [] then [] else PacketMoves(payloads[0]) + BurstMoves(payloads[1..])
  }

  /** t is s with the burst written. */
  ghost predicate BurstWritten(s: System, t: System) {
    && Inv(t.m) && t.todo == []
    && t.m == s.m.(ring := t.m.ring, wp := s.m.wp + |Concat(s.todo)|, stream := s.m.stream + Concat(s.todo))
  }

  lemma OnePacketWritten(s: System)
    requires Inv(s.m) && s.m.prod.Resting? && s.todo != [] && Small(s.todo)
    ensures var t := System(Run(s.m, WriteCall(s.todo[0])), s.todo[1..]);
            && Inv(t.m) && Small(t.todo)
            && t.m == s.m.(ring := t.m.ring, wp := s.m.wp + |s.todo[0]|, stream := s.m.stream + s.todo[0])
  {
    assert s.todo[0] in s.todo;
    WriteRuns(s.m, s.todo[0]);
  }

  lemma RestWritten(s: System, m: System, t: System)
    requires s.todo != [] && m.todo == s.todo[1..]
    requires m.m == s.m.(ring := m.m.ring, wp := s.m.wp + |s.todo[0]|, stream := s.m.stream + s.todo[0])
    requires BurstWritten(m, t)
    ensures BurstWritten(s, t)
  {
    FirstOf(s.todo);
    Associative(s.m.stream, s.todo[0], Concat(s.todo[1..]));
  }

  lemma {:induction false} BurstPlays(s: System)
    requires Inv(s.m) && s.m.prod.Resting? && Small(s.todo)
    ensures AllLegal(s, BurstMoves(s.todo)) && OnlyThis(BurstMoves(s.todo))
    ensures BurstWritten(s, PlayAll(s, BurstMoves(s.todo)))
    decreases |s.todo|
  {
    if s.todo == [] {
      assert s.m.stream + [] == s.m.stream;
    } else {
      var m := System(Run(s.m, WriteCall(s.todo[0])), s.todo[1..]);
      PacketPlays(s);
      OnePacketWritten(s);
      BurstPlays(m);
      PlayBoth(s, PacketMoves(s.todo[0]), BurstMoves(s.todo[1..]));
      RestWritten(s, m, PlayAll(m, BurstMoves(m.todo)));
    }
  }

  /** The burst, and then a read that finds itself lapped. */
  lemma BurstLaps(s: System) returns (vs: seq<Move>)
    requires Inv(s.m) && s.m.prod.Resting? && s.m.cons.Waiting? && Small(s.todo)
    requires Committed(s) > s.m.rp + RING_BYTES
    ensures AllLegal(s, vs) && OnlyThis(vs)
    ensures Laps(PlayAll(s, vs).m.log) == Laps(s.m.log) + 1
  {
    BurstPlays(s);
    var t := PlayAll(s, BurstMoves(s.todo));
    var read := ReadCall(1, 0);
    EmptyHandedRead(t.m, RM.Stream(t.m.stream, t.m.rp, t.m.log), 1);
    MovesRun(t, read);
    PlayBoth(s, BurstMoves(s.todo), Moves(read));
    Append(s.m.log, Lap(s.m.rp, t.m.wp));
    vs := BurstMoves(s.todo) + Moves(read);
  }

  /** Whatever the plugin does while this completion is stored, it stays whole. */
  ghost predicate Safe(s: System, packets: seq<Packet>)
    requires s.m.Ordered()
  {
    forall vs :: AllLegal(Play(s, Complete(packets)), vs) && OnlyThis(vs) ==>
      Exact(PlayAll(Play(s, Complete(packets)), vs).m, Here(s.m))
  }

  lemma AtRestIsFifo(m: Machine)
    requires Inv(m) && m.prod.Resting? && m.cons.Waiting? && m.wp <= m.rp + RING_BYTES
    ensures FifoInv(m, Here(m))
  {
    assert m.stream[m.rp..m.rp] == [];
  }

  lemma CompletionFits(s: System, packets: seq<Packet>)
    requires BurstInv(s) && Legal(s, Complete(packets)) && s.m.cons.Waiting?
    requires Behind(s.m) + |Concat(Payloads(packets))| <= RING_BYTES
    ensures BurstInv(Play(s, Complete(packets))) && KeepsUp(Play(s, Complete(packets)), Here(s.m))
  {
    AtRestIsFifo(s.m);
    PlayKeepsInv(s, Complete(packets));
  }

  lemma FittingIsSafe(s: System, packets: seq<Packet>, vs: seq<Move>)
    requires BurstInv(s) && Legal(s, Complete(packets)) && s.m.cons.Waiting?
    requires Behind(s.m) + |Concat(Payloads(packets))| <= RING_BYTES
    requires AllLegal(Play(s, Complete(packets)), vs) && OnlyThis(vs)
    ensures Exact(PlayAll(Play(s, Complete(packets)), vs).m, Here(s.m))
  {
    CompletionFits(s, packets);
    FittingKeepsUp(Play(s, Complete(packets)), vs, Here(s.m));
    NotConnecting(Play(s, Complete(packets)), vs);
  }

  /**
   The exact slack. A plugin between calls when a completion arrives is safe from it in every interleaving, never
   lapped and given only its own bytes, if and only if the completion's payloads fit beside what it has not read.
   */
  lemma SlackIsExact(s: System, packets: seq<Packet>)
    requires BurstInv(s) && Legal(s, Complete(packets)) && s.m.cons.Waiting?
    ensures Safe(s, packets) <==> Behind(s.m) + |Concat(Payloads(packets))| <= RING_BYTES
  {
    if Behind(s.m) + |Concat(Payloads(packets))| <= RING_BYTES {
      forall vs | AllLegal(Play(s, Complete(packets)), vs) && OnlyThis(vs)
        ensures Exact(PlayAll(Play(s, Complete(packets)), vs).m, Here(s.m))
      {
        FittingIsSafe(s, packets, vs);
      }
    } else {
      PlayKeepsInv(s, Complete(packets));
      var vs := BurstLaps(Play(s, Complete(packets)));
      assert !Exact(PlayAll(Play(s, Complete(packets)), vs).m, Here(s.m));
    }
  }

  /** n packets of the largest size. */
  function Full(n: nat): (packets: seq<Packet>)
    ensures |packets| == n
  {
    if n == 0 then [] else Full(n - 1) + [Packet(Completed, Silence(MAX_PACKET))]
  }

  lemma {:induction false} FullBytes(n: nat, size: nat)
    requires size == n * MAX_PACKET
    ensures |Concat(Payloads(Full(n)))| == size
    ensures forall p <- Full(n) :: |p.payload| <= MAX_PACKET
  {
    if n > 0 {
      FullBytes(n - 1, size - MAX_PACKET);
      assert Full(n)[..n - 1] == Full(n - 1);
      ConcatOne(Payloads(Full(n - 1)), Silence(MAX_PACKET));
    }
  }

  /** So SLACK cannot be raised: it is exactly what a completion of four full packets leaves. */
  lemma SlackIsTight(s: System)
    requires BurstInv(s) && s.todo == [] && s.m.prod.Resting? && s.m.cons.Waiting?
    ensures Safe(s, Full(PACKETS_PER_XFER)) <==> Behind(s.m) <= SLACK
  {
    FullBytes(PACKETS_PER_XFER, BURST);
    SlackIsExact(s, Full(PACKETS_PER_XFER));
  }
}
