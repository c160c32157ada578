/**
 The IN ring with nothing taken whole: the engine's packet loop over the byte-granular machine of Interleaving,
 beside a plugin that may stand anywhere inside a read or a connection at each of its steps.
 */
module Bursts {
  import opened Protocol
  import opened Ledger
  import opened Interleaving
  import opened Discipline
  import opened EngineModel
  import EngineRuns
  import EngineTheorems

  /** The machine, and the payloads the running callback has still to write. */
  datatype System = System(m: Machine, todo: seq<seq<byte>>)

  datatype Move =
    | Complete(packets: seq<Packet>)    // libusb reports a finished IN transfer
    | NextPacket                        // the loop enters shm_ring_write with its next payload
    | Move(a: Action)                   // any step inside a write, and any step of the plugin

  const FRESH: System := System(IDLE, [])

  /** The most one completion can bring. */
  const BURST: nat := 4096

  /** libusb runs one callback at a time; a transfer has four packets of at most MAX_PACKET bytes. */
  predicate Legal(s: System, v: Move)
    requires s.m.Ordered()
  {
    match v
    case Complete(packets) =>
      && s.todo == [] && s.m.prod.Resting?
      && |packets| == PACKETS_PER_XFER && forall p <- packets :: |p.payload| <= MAX_PACKET
    case NextPacket => s.todo != [] && s.m.prod.Resting?
    case Move(a) => !a.BeginWrite?
  }

  function Play(s: System, v: Move): (t: System)
    requires s.m.Ordered()
    ensures t.m.Ordered()
  {
    match v
    case Complete(packets) => s.(todo := Payloads(packets))
    case NextPacket =>
      if s.todo == [] then s else System(Step(s.m, BeginWrite(s.todo[0])), s.todo[1..])
    case Move(a) => s.(m := Step(s.m, a))
  }

  function PlayAll(s: System, vs: seq<Move>): (t: System)
    requires s.m.Ordered()
    ensures t.m.Ordered()
  {
    if vs == [] then s else Play(PlayAll(s, vs[..|vs| - 1]), vs[|vs| - 1])
  }

  predicate AllLegal(s: System, vs: seq<Move>)
    requires s.m.Ordered()
  {
    vs == [] || (AllLegal(s, vs[..|vs| - 1]) && Legal(PlayAll(s, vs[..|vs| - 1]), vs[|vs| - 1]))
  }

  /** The payloads of the completions, in callback and packet order. */
  function Heard(vs: seq<Move>): seq<seq<byte>> {
    if vs == [] then []
    else Heard(vs[..|vs| - 1]) + if vs[|vs| - 1].Complete? then Payloads(vs[|vs| - 1].packets) else []
  }

  // ---- What holds in every legal sequence of moves ----

  predicate Small(payloads: seq<seq<byte>>) {
    forall p <- payloads :: |p| <= MAX_PACKET
  }

  /** All that has been handed to the packet loop, written or not. */
  function Committed(s: System): nat {
    |s.m.stream| + |Concat(s.todo)|
  }

  ghost predicate BurstInv(s: System) {
    Inv(s.m) && Small(s.todo) && Committed(s) <= s.m.wp + BURST
  }

  lemma {:induction false} PayloadsSmall(packets: seq<Packet>)
    requires forall p <- packets :: |p.payload| <= MAX_PACKET
    ensures Small(Payloads(packets))
  {
    if packets != [] {
      PayloadsSmall(packets[..|packets| - 1]);
    }
  }

  lemma FirstOf(parts: seq<seq<byte>>)
    requires parts != []
    ensures Concat(parts) == parts[0] + Concat(parts[1..])
  {
    assert [parts[0]] + parts[1..] == parts;
    ConcatJoin([parts[0]], parts[1..]);
    ConcatOne([], parts[0]);
  }

  lemma WriteBegins(m: Machine, data: seq<byte>)
    requires m.Ordered() && m.prod.Resting? && |data| <= MAX_PACKET
    ensures Step(m, BeginWrite(data)) == m.(prod := Copying(m.wp, data, 0), stream := m.stream + data)
  {
  }

  /** The next payload joins the stream and leaves the rest of the transfer. */
  lemma TakePayload(s: System)
    requires s.m.Ordered() && s.m.prod.Resting? && s.todo != [] && Small(s.todo)
    ensures var t := Play(s, NextPacket);
            && t.m == s.m.(prod := Copying(s.m.wp, s.todo[0], 0), stream := s.m.stream + s.todo[0])
            && Small(t.todo)
            && t.m.stream + Concat(t.todo) == s.m.stream + Concat(s.todo)
  {
    assert s.todo[0] in s.todo;
    WriteBegins(s.m, s.todo[0]);
    FirstOf(s.todo);
    Associative(s.m.stream, s.todo[0], Concat(s.todo[1..]));
  }

  lemma OtherStep(m: Machine, a: Action)
    requires m.Ordered() && !a.BeginWrite?
    ensures Step(m, a).stream == m.stream && m.wp <= Step(m, a).wp && m.rp <= Step(m, a).rp
  {
  }

  lemma PlayKeepsInv(s: System, v: Move)
    requires BurstInv(s) && Legal(s, v)
    ensures BurstInv(Play(s, v))
  {
    match v
    case Complete(packets) =>
      PayloadsSmall(packets);
      BurstBound(packets);
    case NextPacket =>
      TakePayload(s);
      StepKeepsInv(s.m, BeginWrite(s.todo[0]));
    case Move(a) =>
      OtherStep(s.m, a);
      StepKeepsInv(s.m, a);
  }

  lemma {:induction false} MovesKeepInv(s: System, vs: seq<Move>)
    requires BurstInv(s) && AllLegal(s, vs)
    ensures BurstInv(PlayAll(s, vs))
  {
    if vs != [] {
      MovesKeepInv(s, vs[..|vs| - 1]);
      PlayKeepsInv(PlayAll(s, vs[..|vs| - 1]), vs[|vs| - 1]);
    }
  }

  lemma FreshInv()
    ensures BurstInv(FRESH)
  {
    Reachable([]);
    assert Run(IDLE, []) == IDLE;
  }

  /** What was written, what is being written and what is still to be written is all libusb delivered. */
  lemma {:induction false} StreamIsHeard(vs: seq<Move>)
    requires AllLegal(FRESH, vs)
    ensures var t := PlayAll(FRESH, vs); t.m.stream + Concat(t.todo) == Concat(Heard(vs))
  {
    if vs != [] {
      var front, v := vs[..|vs| - 1], vs[|vs| - 1];
      StreamIsHeard(front);
      FreshInv();
      MovesKeepInv(FRESH, front);
      HeardStep(PlayAll(FRESH, front), v, Heard(front));
    }
  }

  lemma HeardStep(s: System, v: Move, heard: seq<seq<byte>>)
    requires BurstInv(s) && Legal(s, v) && s.m.stream + Concat(s.todo) == Concat(heard)
    ensures var t := Play(s, v);
            t.m.stream + Concat(t.todo) == Concat(heard + if v.Complete? then Payloads(v.packets) else [])
  {
    assert heard + [] == heard;
    match v
    case Complete(packets) =>
      assert s.m.stream + [] == s.m.stream;
      ConcatJoin(heard, Payloads(packets));
    case NextPacket => TakePayload(s);
    case Move(a) => OtherStep(s.m, a);
  }

  // ---- A plugin that keeps up ----

  /** What the ring holds beside the largest burst. */
  const SLACK: nat := 512

  /** How far the plugin is behind; while it connects, from where it is about to start. */
  function Behind(m: Machine): nat
    requires m.Ordered()
  {
    m.wp - if m.cons.Syncing? then m.cons.seen else m.rp
  }

  /** The plugin is down to SLACK unread bytes whenever a completion arrives, and does not connect again. */
  predicate Prompt(s: System, vs: seq<Move>)
    requires s.m.Ordered()
  {
    vs == [] ||
    (&& Prompt(s, vs[..|vs| - 1])
     && var m, v := PlayAll(s, vs[..|vs| - 1]).m, vs[|vs| - 1];
        && (v.Complete? ==> Behind(m) <= SLACK)
        && !(v.Move? && v.a.BeginSync?))
  }

  /** The plugin's reads are exact since b, or it is about to store the position they will be exact from. */
  ghost predicate KeepsUp(s: System, b: Base)
    requires s.m.Ordered()
  {
    if s.m.cons.Syncing? then
      && s.m.cons.seen == b.from && Committed(s) <= b.from + RING_BYTES
      && Delivered(s.m.log) == b.before && Laps(s.m.log) == b.laps
    else
      FifoInv(s.m, b) && Committed(s) <= s.m.rp + RING_BYTES
  }

  lemma CompleteKeepsUp(s: System, packets: seq<Packet>, b: Base)
    requires BurstInv(s) && KeepsUp(s, b) && Legal(s, Complete(packets)) && Behind(s.m) <= SLACK
    ensures KeepsUp(Play(s, Complete(packets)), b)
  {
    BurstBound(packets);
  }

  lemma NextPacketKeepsUp(s: System, b: Base)
    requires BurstInv(s) && KeepsUp(s, b) && Legal(s, NextPacket)
    ensures KeepsUp(Play(s, NextPacket), b)
  {
    TakePayload(s);
    if !s.m.cons.Syncing? {
      StepKeepsFifo(s.m, BeginWrite(s.todo[0]), b);
    }
  }

  /** Connecting ends: the plugin starts from the position it saw. */
  lemma EndSyncKeepsUp(s: System, b: Base)
    requires BurstInv(s) && KeepsUp(s, b) && s.m.cons.Syncing?
    ensures KeepsUp(Play(s, Move(EndSync)), b)
  {
    Append(s.m.log, Resync(s.m.rp, s.m.cons.seen));
  }

  lemma MoveKeepsUp(s: System, a: Action, b: Base)
    requires BurstInv(s) && KeepsUp(s, b) && !a.BeginWrite? && !a.BeginSync?
    ensures KeepsUp(Play(s, Move(a)), b)
  {
    OtherStep(s.m, a);
    if !s.m.cons.Syncing? {
      StepKeepsFifo(s.m, a, b);
    } else if a.EndSync? {
      EndSyncKeepsUp(s, b);
    }
  }

  lemma {:induction false} PromptKeepsUp(s: System, vs: seq<Move>, b: Base)
    requires BurstInv(s) && KeepsUp(s, b) && AllLegal(s, vs) && Prompt(s, vs)
    ensures KeepsUp(PlayAll(s, vs), b)
  {
    if vs != [] {
      var front, v := vs[..|vs| - 1], vs[|vs| - 1];
      PromptKeepsUp(s, front, b);
      MovesKeepInv(s, front);
      var m := PlayAll(s, front);
      match v
      case Complete(packets) => CompleteKeepsUp(m, packets, b);
      case NextPacket => NextPacketKeepsUp(m, b);
      case Move(a) => MoveKeepsUp(m, a, b);
    }
  }

  /**
   A plugin that is down to SLACK unread bytes whenever an IN completion arrives, and otherwise stands anywhere:
   it is never lapped, never reads a slot that is being written, and receives exactly what libusb delivered, up
   to its read position.
   */
  lemma PromptPluginIsExact(vs: seq<Move>)
    requires AllLegal(FRESH, vs) && Prompt(FRESH, vs)
    ensures var m, stream := PlayAll(FRESH, vs).m, Concat(Heard(vs));
            && Laps(m.log) == 0 && !Collide(m)
            && m.rp <= m.wp <= |stream|
            && Delivered(m.log) == stream[..m.rp]
  {
    FreshInv();
    PromptKeepsUp(FRESH, vs, Here(IDLE));
    MovesKeepInv(FRESH, vs);
    StreamIsHeard(vs);
    var t := PlayAll(FRESH, vs);
    StillReading(FRESH, vs);
    RoomPreventsCollision(t.m);
    SliceOfPrefix(t.m.stream, Concat(t.todo), 0, t.m.rp);
    assert [] + t.m.stream[0..t.m.rp] == Concat(Heard(vs))[..t.m.rp];
  }

  /** Nobody is about to connect if nobody was and nobody began to. */
  lemma {:induction false} StillReading(s: System, vs: seq<Move>)
    requires s.m.Ordered() && !s.m.cons.Syncing? && Prompt(s, vs)
    ensures !PlayAll(s, vs).m.cons.Syncing?
  {
    if vs != [] {
      StillReading(s, vs[..|vs| - 1]);
    }
  }

  // ---- From a connection on ----

  /** The plugin, outside any call, has loaded the write position it will start from. */
  function Connecting(before: seq<Move>): (s: System)
    ensures s.m.Ordered()
  {
    Play(PlayAll(FRESH, before), Move(BeginSync))
  }

  /** The base of what it receives from then on. */
  function FromHere(s: System): Base {
    Base(s.m.wp, Delivered(s.m.log), Laps(s.m.log))
  }

  lemma BeginSyncKeepsUp(s: System)
    requires BurstInv(s) && s.m.cons.Waiting?
    ensures BurstInv(Play(s, Move(BeginSync))) && KeepsUp(Play(s, Move(BeginSync)), FromHere(s))
  {
    PlayKeepsInv(s, Move(BeginSync));
  }

  lemma ConnectingKeepsUp(before: seq<Move>)
    requires AllLegal(FRESH, before) && PlayAll(FRESH, before).m.cons.Waiting?
    ensures BurstInv(Connecting(before)) && KeepsUp(Connecting(before), FromHere(PlayAll(FRESH, before)))
  {
    FreshInv();
    MovesKeepInv(FRESH, before);
    BeginSyncKeepsUp(PlayAll(FRESH, before));
  }

  /** Moves one after the other. */
  lemma {:induction false} PlayOn(s: System, a: seq<Move>, b: seq<Move>)
    requires s.m.Ordered() && AllLegal(s, a) && AllLegal(PlayAll(s, a), b)
    ensures AllLegal(s, a + b) && PlayAll(s, a + b) == PlayAll(PlayAll(s, a), b)
  {
    if b == [] {
      assert a + b == a;
    } else {
      assert (a + b)[..|a + b| - 1] == a + b[..|b| - 1];
      PlayOn(s, a, b[..|b| - 1]);
    }
  }

  /** A whole session: anything, a connection, and what follows it. */
  function Session(before: seq<Move>, after: seq<Move>): seq<Move> {
    before + [Move(BeginSync)] + after
  }

  lemma SessionPlays(before: seq<Move>, after: seq<Move>)
    requires AllLegal(FRESH, before) && AllLegal(Connecting(before), after)
    ensures AllLegal(FRESH, Session(before, after))
    ensures PlayAll(FRESH, Session(before, after)) == PlayAll(Connecting(before), after)
  {
    var sync := [Move(BeginSync)];
    assert sync[..0] == [] && PlayAll(PlayAll(FRESH, before), []) == PlayAll(FRESH, before);
    assert AllLegal(PlayAll(FRESH, before), sync);
    PlayOn(FRESH, before, sync);
    PlayOn(FRESH, before + sync, after);
  }

  /**
   From the USB to CoreAudio: connect at any step of any byte-granular run, in the middle of a packet if need
   be, and be prompt from then on. Once the read position is stored, the plugin has since then received exactly
   what libusb delivered from the position it connected at to its read position, without a lap and without
   touching a slot that is being written.
   */
  lemma PluginHearsTheDevice(before: seq<Move>, after: seq<Move>)
    requires AllLegal(FRESH, before) && PlayAll(FRESH, before).m.cons.Waiting?
    requires AllLegal(Connecting(before), after) && Prompt(Connecting(before), after)
    requires !PlayAll(Connecting(before), after).m.cons.Syncing?
    ensures var s, m := PlayAll(FRESH, before).m, PlayAll(Connecting(before), after).m;
            var stream := Concat(Heard(Session(before, after)));
            && s.wp <= m.rp <= m.wp <= |stream|
            && Laps(m.log) == Laps(s.log) && !Collide(m)
            && Delivered(m.log) == Delivered(s.log) + stream[s.wp..m.rp]
  {
    var b := FromHere(PlayAll(FRESH, before));
    ConnectingKeepsUp(before);
    PromptKeepsUp(Connecting(before), after, b);
    MovesKeepInv(Connecting(before), after);
    SessionPlays(before, after);
    StreamIsHeard(Session(before, after));
    var t := PlayAll(Connecting(before), after);
    RoomPreventsCollision(t.m);
    SliceOfPrefix(t.m.stream, Concat(t.todo), b.from, t.m.rp);
  }

  // ---- The completions are the engine's ----

  /** The transfers an engine run stores, in callback order. */
  function StoredBy(es: seq<EngineRuns.Event>): seq<seq<Packet>> {
    if es == [] then []
    else
      var ev := es[|es| - 1];
      StoredBy(es[..|es| - 1]) + if ev.InDone? && ev.status.Done() then [ev.packets] else []
  }

  function Completions(vs: seq<Move>): seq<seq<Packet>> {
    if vs == [] then []
    else Completions(vs[..|vs| - 1]) + if vs[|vs| - 1].Complete? then [vs[|vs| - 1].packets] else []
  }

  function AllPayloads(transfers: seq<seq<Packet>>): seq<seq<byte>> {
    if transfers == [] then [] else AllPayloads(transfers[..|transfers| - 1]) + Payloads(transfers[|transfers| - 1])
  }

  lemma PayloadsOneMore(transfers: seq<seq<Packet>>, packets: seq<Packet>)
    ensures AllPayloads(transfers + [packets]) == AllPayloads(transfers) + Payloads(packets)
  {
    assert (transfers + [packets])[..|transfers + [packets]| - 1] == transfers;
  }

  lemma {:induction false} HeardIsCompletions(vs: seq<Move>)
    ensures Heard(vs) == AllPayloads(Completions(vs))
  {
    if vs != [] {
      HeardIsCompletions(vs[..|vs| - 1]);
      if vs[|vs| - 1].Complete? {
        PayloadsOneMore(Completions(vs[..|vs| - 1]), vs[|vs| - 1].packets);
      } else {
        assert Completions(vs) == Completions(vs[..|vs| - 1]);
      }
    }
  }

  lemma {:induction false} PublishedIsStored(es: seq<EngineRuns.Event>)
    ensures EngineTheorems.Published(es) == AllPayloads(StoredBy(es))
  {
    if es != [] {
      var ev := es[|es| - 1];
      PublishedIsStored(es[..|es| - 1]);
      if ev.InDone? && ev.status.Done() {
        PayloadsOneMore(StoredBy(es[..|es| - 1]), ev.packets);
      } else {
        assert StoredBy(es) == StoredBy(es[..|es| - 1]);
      }
    }
  }

  /** Moves whose completions are those of an engine run bring exactly what the run publishes. */
  lemma HeardIsPublished(vs: seq<Move>, es: seq<EngineRuns.Event>)
    requires Completions(vs) == StoredBy(es)
    ensures Heard(vs) == EngineTheorems.Published(es)
  {
    HeardIsCompletions(vs);
    PublishedIsStored(es);
  }
}
