/**
 Where the guarantees of the rings end: the free-space formula is exactly what keeps a write from hurting the
 reader, and only the two endpoint threads see a fill level that never underflows.
 */
module Limits {
  import opened Protocol
  import opened Ledger
  import opened Window
  import opened Interleaving
  import opened Discipline
  import opened Atomicity
  import opened Observers
  import RM = RingModel

  // ---- One write of data, with any reading around and during it ----

  function Begins(schedule: seq<Action>): nat {
    if schedule == [] then 0
    else Begins(schedule[..|schedule| - 1]) + if schedule[|schedule| - 1].BeginWrite? then 1 else 0
  }

  /** The producer makes at most the one call, with data; the consumer reads, in any way. */
  predicate OneWrite(data: seq<byte>, schedule: seq<Action>) {
    && Begins(schedule) <= 1
    && forall a <- schedule :: !a.BeginSync? && (a.BeginWrite? ==> a.data == data)
  }

  lemma {:induction false} BeginsJoin(a: seq<Action>, b: seq<Action>)
    ensures Begins(a + b) == Begins(a) + Begins(b)
  {
    if b == [] {
      assert a + b == a;
    } else {
      assert (a + b)[..|a + b| - 1] == a + b[..|b| - 1];
      BeginsJoin(a, b[..|b| - 1]);
    }
  }

  lemma {:induction false} NoBegins(schedule: seq<Action>)
    requires forall a <- schedule :: !a.BeginWrite?
    ensures Begins(schedule) == 0
  {
    if schedule != [] {
      NoBegins(schedule[..|schedule| - 1]);
    }
  }

  lemma {:induction false} NotBegun(m: Machine, schedule: seq<Action>)
    requires m.Ordered() && m.prod.Resting? && Begins(schedule) == 0
    ensures Run(m, schedule).prod.Resting? && Run(m, schedule).wp == m.wp && m.rp <= Run(m, schedule).rp
  {
    if schedule != [] {
      NotBegun(m, schedule[..|schedule| - 1]);
    }
  }

  lemma {:induction false} OneWriteIsSpacious(m: Machine, data: seq<byte>, schedule: seq<Action>)
    requires m.Ordered() && m.prod.Resting? && HasRoom(m, |data|) && OneWrite(data, schedule)
    ensures SpaciousFrom(m, schedule)
  {
    if schedule != [] {
      var front, a := schedule[..|schedule| - 1], schedule[|schedule| - 1];
      OneWriteIsSpacious(m, data, front);
      if a.BeginWrite? {
        NotBegun(m, front);
      }
    }
  }

  lemma HereIsFifo(m: Machine, s: RM.Stream)
    requires Represents(m, s) && !s.Lapped()
    ensures FifoInv(m, Here(m))
  {
    assert m.stream[m.rp..m.rp] == [];
  }

  lemma RoomSuffices(m: Machine, s: RM.Stream, data: seq<byte>, schedule: seq<Action>)
    requires Represents(m, s) && !s.Lapped() && HasRoom(m, |data|) && OneWrite(data, schedule)
    ensures Exact(Run(m, schedule), Here(m))
  {
    OneWriteIsSpacious(m, data, schedule);
    HereIsFifo(m, s);
    SpaciousKeepsFifo(m, schedule, Here(m));
  }

  /** The write, then a read. */
  function WriteThenRead(data: seq<byte>): seq<Action> {
    WriteCall(data) + ReadCall(1, 0)
  }

  lemma WriteThenReadIsOneWrite(data: seq<byte>)
    ensures OneWrite(data, WriteThenRead(data))
  {
    NoBegins(ReadCall(1, 0));
    NoBegins([Publish]);
    NoBegins(Times(CopyIn, |data|));
    BeginsJoin([BeginWrite(data)], Times(CopyIn, |data|));
    BeginsJoin([BeginWrite(data)] + Times(CopyIn, |data|), [Publish]);
    BeginsJoin(WriteCall(data), ReadCall(1, 0));
    assert Begins([BeginWrite(data)]) == 1 by {
      assert [BeginWrite(data)][..0] == [];
    }
  }

  lemma NoRoomLaps(m: Machine, s: RM.Stream, data: seq<byte>)
    requires Represents(m, s) && |data| <= 2 * RING_BYTES - Slot(m.wp) && !HasRoom(m, |data|)
    ensures Laps(Run(m, WriteThenRead(data)).log) == Laps(m.log) + 1
  {
    var t := Run(m, WriteCall(data));
    WriteCallRuns(m, s, data);
    EmptyHandedRead(t, s.Publish(data), 1);
    RunConcat(m, WriteCall(data), ReadCall(1, 0));
    Append(m.log, Lap(m.rp, m.wp + |data|));
  }

  /**
   The free-space formula is exact. From a state between calls, a write leaves the reader whole in every
   interleaving, neither lapped nor given a byte that is not its own, if and only if the write had room.
   */
  lemma RoomIsExact(m: Machine, s: RM.Stream, data: seq<byte>)
    requires Represents(m, s) && !s.Lapped() && |data| <= 2 * RING_BYTES - Slot(m.wp)
    ensures HasRoom(m, |data|) <==>
            forall schedule :: OneWrite(data, schedule) ==> Exact(Run(m, schedule), Here(m))
  {
    if HasRoom(m, |data|) {
      forall schedule | OneWrite(data, schedule)
        ensures Exact(Run(m, schedule), Here(m))
      {
        RoomSuffices(m, s, data, schedule);
      }
    } else {
      WriteThenReadIsOneWrite(data);
      NoRoomLaps(m, s, data);
      assert !Exact(Run(m, WriteThenRead(data)), Here(m));
    }
  }

  // ---- A read overtaken between its check and its copy ----

  /** The consumer passes its lap check, the producer writes data, and the consumer copies n bytes. */
  function Overtaken(max: nat, data: seq<byte>, n: nat): seq<Action> {
    [BeginRead(max), LoadRp, Check] + WriteCall(data) + Times(CopyOut, n) + [Retire]
  }

  lemma RunFour(m: Machine, a: seq<Action>, b: seq<Action>, c: seq<Action>, d: seq<Action>)
    requires m.Ordered()
    ensures Run(m, a + b + c + d) == Run(Run(Run(Run(m, a), b), c), d)
  {
    RunConcat(m, a, b);
    RunConcat(m, a + b, c);
    RunConcat(m, a + b + c, d);
  }

  /** The state of an overtaken read when its copy begins. */
  lemma OvertakenStart(m: Machine, s: RM.Stream, data: seq<byte>, max: nat) returns (t: Machine)
    requires Represents(m, s) && 0 < s.Unread() <= RING_BYTES && |data| <= 2 * RING_BYTES - Slot(m.wp)
    ensures Inv(t) && t == Run(Run(m, [BeginRead(max), LoadRp, Check]), WriteCall(data))
    ensures t == m.(ring := t.ring, wp := m.wp + |data|, stream := m.stream + data,
                    cons := Reading(m.rp, s.Count(max), [], []))
  {
    ReadStarts(m, max);
    ReadBegins(m, s, max);
    var started := m.(cons := Reading(m.rp, s.Count(max), [], []));
    WriteRuns(started, data);
    t := Run(started, WriteCall(data));
  }

  /** Each byte is the latest of its slot among the first `frontier` bytes of the stream. */
  predicate LatestBytes(bytes: seq<byte>, stream: seq<byte>, from: nat, frontier: nat) {
    bytes == [] ||
    (&& LatestBytes(bytes[..|bytes| - 1], stream, from, frontier)
     && from + |bytes| <= frontier <= |stream|
     && bytes[|bytes| - 1] == stream[Latest(from + |bytes| - 1, frontier)])
  }

  lemma {:induction false} LatestBytesAt(bytes: seq<byte>, stream: seq<byte>, from: nat, frontier: nat, j: nat)
    requires LatestBytes(bytes, stream, from, frontier) && j < |bytes|
    ensures from + j < frontier <= |stream| && bytes[j] == stream[Latest(from + j, frontier)]
  {
    if j < |bytes| - 1 {
      LatestBytesAt(bytes[..|bytes| - 1], stream, from, frontier, j);
    }
  }

  lemma {:induction false} AllLatest(bytes: seq<byte>, stream: seq<byte>, from: nat, frontier: nat)
    requires from + |bytes| <= frontier <= |stream|
    requires forall j :: 0 <= j < |bytes| ==> bytes[j] == stream[Latest(from + j, frontier)]
    ensures LatestBytes(bytes, stream, from, frontier)
  {
    if bytes != [] {
      AllLatest(bytes[..|bytes| - 1], stream, from, frontier);
    }
  }

  /** Slot j of a read at `from` still holds the byte the read means. */
  predicate Own(from: nat, j: nat, frontier: nat) {
    from + j < frontier && Latest(from + j, frontier) == from + j
  }

  predicate AllOwn(from: nat, n: nat, frontier: nat) {
    forall j: nat :: j < n ==> Own(from, j, frontier)
  }

  lemma AllOwnIff(from: nat, n: nat, frontier: nat)
    requires 0 < n && from + n <= frontier
    ensures AllOwn(from, n, frontier) <==> frontier <= from + RING_BYTES
  {
    if AllOwn(from, n, frontier) {
      assert Own(from, 0, frontier);
    }
  }

  lemma RetireLogs(t: Machine, n: nat)
    requires t.Ordered() && t.cons.Reading? && |t.cons.dst| == t.cons.n == n
    ensures Step(t, Retire).log == t.log + [Got(t.rp, t.cons.dst)] && Step(t, Retire).stream == t.stream
  {
  }

  /** The copy of a read whose check is behind it, with the producer at rest. */
  lemma OvertakenEnd(t: Machine) returns (bytes: seq<byte>)
    requires Inv(t) && t.prod.Resting? && t.cons.Reading? && t.cons.dst == []
    ensures |bytes| == t.cons.n && LatestBytes(bytes, t.stream, t.rp, t.wp)
    ensures var end := Run(Run(t, Times(CopyOut, t.cons.n)), [Retire]);
            end.log == t.log + [Got(t.rp, bytes)] && end.stream == t.stream
  {
    var copied := Run(t, Times(CopyOut, t.cons.n));
    bytes := AllCopied(t, copied);
    RunOne(copied, Retire);
    RetireLogs(copied, t.cons.n);
  }

  lemma AllCopied(t: Machine, copied: Machine) returns (bytes: seq<byte>)
    requires Inv(t) && t.prod.Resting? && t.cons.Reading? && t.cons.dst == []
    requires copied == Run(t, Times(CopyOut, t.cons.n))
    ensures LatestBytes(bytes, t.stream, t.rp, t.wp) && |bytes| == t.cons.n
    ensures copied.cons.Reading? && copied == t.(cons := t.cons.(dst := bytes, fronts := copied.cons.fronts))
  {
    CopyOutAll(t, t.cons.n);
    bytes := copied.cons.dst;
    CopiedAreLatest(t, copied, t.cons.n);
  }

  lemma CopiedAreLatest(t: Machine, copied: Machine, k: nat)
    requires t.Ordered() && copied.Ordered() && t.cons.Reading? && AfterCopyOut(t, copied, k)
    ensures LatestBytes(copied.cons.dst, t.stream, t.rp, t.wp)
  {
    AllLatest(copied.cons.dst, t.stream, t.rp, t.wp);
  }

  lemma OvertakenSplit(m: Machine, max: nat, data: seq<byte>, n: nat)
    requires m.Ordered()
    ensures Run(m, Overtaken(max, data, n))
         == Run(Run(Run(Run(m, [BeginRead(max), LoadRp, Check]), WriteCall(data)), Times(CopyOut, n)), [Retire])
  {
    RunFour(m, [BeginRead(max), LoadRp, Check], WriteCall(data), Times(CopyOut, n), [Retire]);
  }

  lemma OvertakenCopy(m: Machine, t: Machine, n: nat, data: seq<byte>) returns (bytes: seq<byte>)
    requires m.Ordered() && Inv(t)
    requires t == m.(ring := t.ring, wp := m.wp + |data|, stream := m.stream + data, cons := Reading(m.rp, n, [], []))
    requires m.prod.Resting?
    ensures |bytes| == n && LatestBytes(bytes, m.stream + data, m.rp, m.wp + |data|)
    ensures var end := Run(Run(t, Times(CopyOut, n)), [Retire]);
            end.log == m.log + [Got(m.rp, bytes)] && end.stream == m.stream + data
  {
    bytes := OvertakenEnd(t);
  }

  /** What a read delivers that a whole write overtakes after the lap check: the latest byte of each slot ... */
  lemma OvertakenRead(m: Machine, s: RM.Stream, data: seq<byte>, max: nat) returns (bytes: seq<byte>)
    requires Represents(m, s) && 0 < s.Unread() <= RING_BYTES && |data| <= 2 * RING_BYTES - Slot(m.wp)
    ensures |bytes| == s.Count(max)
    ensures LatestBytes(bytes, m.stream + data, m.rp, m.wp + |data|)
    ensures var t := Run(m, Overtaken(max, data, s.Count(max)));
            t.log == m.log + [Got(m.rp, bytes)] && t.stream == m.stream + data
  {
    var t := OvertakenStart(m, s, data, max);
    bytes := OvertakenCopy(m, t, s.Count(max), data);
    OvertakenSplit(m, max, data, s.Count(max));
  }

  /** ... and every one of them is the reader's own if and only if the write had room. */
  lemma OvertakenOwnIff(m: Machine, s: RM.Stream, data: seq<byte>, max: nat)
    requires Represents(m, s) && 0 < s.Unread() <= RING_BYTES && 0 < max
    ensures AllOwn(m.rp, s.Count(max), m.wp + |data|) <==> HasRoom(m, |data|)
  {
    AllOwnIff(m.rp, s.Count(max), m.wp + |data|);
  }

  // ---- A torn read with the calls the driver makes ----

  /** A CoreAudio buffer of 128 frames, and the OUT ring after two of them. */
  const BUFFER: nat := 2304
  const TWO_BUFFERS: seq<RM.Op> := [RM.Write(Silence(BUFFER)), RM.Write(Silence(BUFFER))]

  function Loud(n: nat): (z: seq<byte>)
    ensures |z| == n && forall k :: 0 <= k < n ==> z[k] == 1
  {
    seq(n, _ => 1)
  }

  lemma TwoBuffers()
    ensures CallsFit(TWO_BUFFERS)
    ensures RM.Run(RM.EMPTY, TWO_BUFFERS) == RM.Stream(Silence(RING_BYTES), 0, [])
  {
    var one := RM.EMPTY.Publish(Silence(BUFFER));
    assert TWO_BUFFERS[..1] == [RM.Write(Silence(BUFFER))];
    assert TWO_BUFFERS[..1][..0] == [];
    assert RM.Run(RM.EMPTY, []) == RM.EMPTY;
    assert RM.Run(RM.EMPTY, TWO_BUFFERS[..1]) == one;
    assert CallsFit([]);
    assert CallsFit(TWO_BUFFERS[..1]);
    assert Silence(BUFFER) + Silence(BUFFER) == Silence(RING_BYTES);
    assert one.bytes == Silence(BUFFER);
  }

  lemma NextLap(j: nat)
    requires j < PACKET_SIZE
    ensures Latest(j, RING_BYTES + BUFFER) == j + RING_BYTES
  {
  }

  /**
   Tearing is real with the calls the driver makes: the OUT ring is full of two plugin buffers of silence, an
   engine packet read of 864 bytes passes its check, and the plugin's third buffer replaces all it copies.
   */
  lemma TearingHappens() returns (schedule: seq<Action>)
    ensures schedule == Schedule(TWO_BUFFERS) + Overtaken(PACKET_SIZE, Loud(BUFFER), PACKET_SIZE)
    ensures Run(IDLE, schedule).log == [Got(0, Loud(PACKET_SIZE))]
    ensures Run(IDLE, schedule).stream == Silence(RING_BYTES) + Loud(BUFFER)
  {
    TwoBuffers();
    CallsAreSchedules(TWO_BUFFERS);
    var m, s := Run(IDLE, Schedule(TWO_BUFFERS)), RM.Run(RM.EMPTY, TWO_BUFFERS);
    var bytes := OvertakenRead(m, s, Loud(BUFFER), PACKET_SIZE);
    forall j | 0 <= j < PACKET_SIZE
      ensures bytes[j] == 1
    {
      LatestBytesAt(bytes, m.stream + Loud(BUFFER), 0, RING_BYTES + BUFFER, j);
      NextLap(j);
    }
    assert bytes == Loud(PACKET_SIZE);
    RunConcat(IDLE, Schedule(TWO_BUFFERS), Overtaken(PACKET_SIZE, Loud(BUFFER), PACKET_SIZE));
    schedule := Schedule(TWO_BUFFERS) + Overtaken(PACKET_SIZE, Loud(BUFFER), PACKET_SIZE);
  }

  // ---- A thread that is at neither end ----

  /**
   Only the endpoint threads are safe. From every state between calls, a third thread that loads write_pos,
   as print_shm_stats does, can find read_pos a frame ahead of it by the time it loads that: one frame is
   written and the consumer reads up to the write position, or skips to it.
   */
  lemma ThirdPartyCanUnderflow(m: Machine, s: RM.Stream) returns (during: seq<Action>)
    requires Represents(m, s)
    ensures Observed(m, Run(m, during)) == 0 - FRAME_SIZE
  {
    var frame := Silence(FRAME_SIZE);
    var ready, max := s.Publish(frame), s.Unread() + FRAME_SIZE;
    WriteCallRuns(m, s, frame);
    ReadCallRuns(Run(m, WriteCall(frame)), ready, max);
    RunConcat(m, WriteCall(frame), ReadCall(max, ready.Count(max)));
    during := WriteCall(frame) + ReadCall(max, ready.Count(max));
  }
}
