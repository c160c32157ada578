/**
 What each entry point of the isochronous engine does to the transfers, the counters and the two rings.
 IsoEngine.dfy implements these functions; EngineRuns.dfy proves what holds over whole runs.
 */
module EngineModel {
  import opened Protocol
  import opened RingModel
  import opened Fills

  /** Completion status; Failed stands for ERROR, STALL and OVERFLOW, which are handled alike. */
  datatype Status = Completed | TimedOut | Cancelled | NoDevice | Failed
  {
    predicate Done() {
      Completed? || TimedOut?
    }
  }

  /** One isochronous packet of a finished IN transfer: its status and actual_length bytes. */
  datatype Packet = Packet(status: Status, payload: seq<byte>)

  /** How libusb answers a submission, and the retry if there is one. */
  datatype Submit = Submit(first: bool, retry: bool)
  {
    predicate Ok() {
      first || retry
    }
  }

  /** What libusb holds, and the history of the traffic with it. */
  datatype Usb = Usb(
    inFlight: set<nat>, outFlight: set<nat>,     // indices of submitted, not yet completed transfers
    stopped: bool,                               // Stop has requested cancellation since the last Start
    starts: nat,
    inSubmitted: nat, outSubmitted: nat,         // successful submissions
    inDropped: nat, outDropped: nat,             // callbacks that returned early: cancelled or disconnected
    fills: seq<Fill>)                            // every filling of an OUT transfer, in order

  datatype Engine = Engine(
    running: bool,
    inCompletions: nat, outCompletions: nat, inErrors: nat, outErrors: nat,
    sampleCount: nat,
    inRing: Stream, outRing: Stream,
    usb: Usb)
  {
    predicate Ok() {
      inRing.Ok() && outRing.Ok()
    }
  }

  const INITIAL: Engine := Engine(false, 0, 0, 0, 0, 0, EMPTY, EMPTY,
                                   Usb({}, {}, false, 0, 0, 0, 0, 0, []))

  // ---- Submitting ----

  function SubmitIn(e: Engine, i: nat, answer: Submit): (r: Engine)
    requires e.Ok()
    ensures r.Ok()
  {
    if !e.running then e
    else if answer.Ok() then
      e.(usb := e.usb.(inFlight := e.usb.inFlight + {i}, inSubmitted := e.usb.inSubmitted + 1))
    else
      e.(running := false)
  }

  /** The plugin writes on while the engine does something that does not read the OUT ring. */
  function Meanwhile(e: Engine, gaps: Gaps): (r: Engine)
    requires e.Ok()
    ensures r.Ok()
  {
    e.(outRing := e.outRing.Publish(Flat(gaps)))
  }

  /** libusb is asked to take a filled transfer. */
  function OfferOut(e: Engine, fill: Fill): (r: Engine)
    requires e.Ok()
    ensures r.Ok()
  {
    var usb := e.usb.(fills := e.usb.fills + [fill]);
    if fill.accepted then
      e.(usb := usb.(outFlight := usb.outFlight + {fill.i}, outSubmitted := usb.outSubmitted + 1))
    else
      e.(running := false, usb := usb)
  }

  /**
   gaps is what the plugin writes before each of the packet reads. The transfer's bytes leave the ring before
   libusb is asked, so they are gone even if it refuses.
   */
  function SubmitOut(e: Engine, i: nat, answer: Submit, gaps: Gaps): (r: Engine)
    requires e.Ok()
    ensures r.Ok()
  {
    if !e.running then Meanwhile(e, gaps)
    else OfferOut(e.(outRing := AfterFill(e.outRing, gaps)), FillFrom(e.outRing, i, gaps, answer.Ok()))
  }

  /** Both submissions of transfer i. */
  function SubmitPair(e: Engine, i: nat, answer: (Submit, Submit), gaps: Gaps): (r: Engine)
    requires e.Ok()
    ensures r.Ok()
  {
    SubmitOut(SubmitIn(e, i, answer.0), i, answer.1, gaps)
  }

  /** The first k pairs; plugin[j] is what the plugin writes while OUT transfer j is filled. */
  function SubmitAll(e: Engine, k: nat, answers: seq<(Submit, Submit)>, plugin: seq<Gaps>): (r: Engine)
    requires e.Ok() && k <= |answers| && k <= |plugin|
    ensures r.Ok()
  {
    if k == 0 then e else SubmitPair(SubmitAll(e, k - 1, answers, plugin), k - 1, answers[k - 1], plugin[k - 1])
  }

  // ---- Start and Stop ----

  /** Start makes four allocations for each pair of transfers. */
  const ALLOCATIONS: nat := 16

  /** What Start returns: it does not look at the answers to the submissions. */
  predicate StartResult(e: Engine, allocs: nat) {
    e.running || allocs >= ALLOCATIONS
  }

  /** allocs is how many allocations succeed. */
  function Start(e: Engine, allocs: nat, answers: seq<(Submit, Submit)>, plugin: seq<Gaps>): (r: Engine)
    requires e.Ok() && |answers| == NUM_XFERS && |plugin| == NUM_XFERS
    ensures r.Ok()
  {
    if e.running || allocs < ALLOCATIONS then e.(outRing := e.outRing.Publish(FlatAll(plugin)))
    else SubmitAll(Opened(e), NUM_XFERS, answers, plugin)
  }

  /** A start whose allocations succeeded, before its submissions. */
  function Opened(e: Engine): (r: Engine)
    requires e.Ok()
    ensures r.Ok()
  {
    e.(running := true, usb := e.usb.(stopped := false, starts := e.usb.starts + 1))
  }

  function Stop(e: Engine): (r: Engine)
    requires e.Ok()
    ensures r.Ok()
  {
    if e.running then e.(running := false, usb := e.usb.(stopped := true)) else e
  }

  // ---- Completions ----

  function StorePacket(e: Engine, p: Packet): (r: Engine)
    requires e.Ok()
    ensures r.Ok()
  {
    if p.status.Completed? && |p.payload| > 0 then
      e.(inRing := e.inRing.Publish(p.payload), sampleCount := e.sampleCount + |p.payload| / FRAME_SIZE)
    else e
  }

  /** turns[p] is what the plugin does at its end of the IN ring before packet p is looked at. */
  function StorePackets(e: Engine, packets: seq<Packet>, turns: seq<seq<Op>>): (r: Engine)
    requires e.Ok() && |turns| == |packets|
    ensures r.Ok()
  {
    if packets == [] then e
    else
      var m := StorePackets(e, packets[..|packets| - 1], turns[..|packets| - 1]);
      StorePacket(m.(inRing := Run(m.inRing, turns[|packets| - 1])), packets[|packets| - 1])
  }

  /** An IN transfer is back and counted, or dropped. */
  function InBack(e: Engine, i: nat, status: Status): (r: Engine)
    requires e.Ok()
    ensures r.Ok()
  {
    var back := e.(usb := e.usb.(inFlight := e.usb.inFlight - {i}));
    match status
    case Completed => back.(inCompletions := e.inCompletions + 1)
    case TimedOut => back.(inCompletions := e.inCompletions + 1)
    case Cancelled => back.(usb := back.usb.(inDropped := e.usb.inDropped + 1))
    case NoDevice => back.(running := false, usb := back.usb.(inDropped := e.usb.inDropped + 1))
    case Failed => back.(inErrors := e.inErrors + 1)
  }

  function HandleIn(e: Engine, i: nat, status: Status, packets: seq<Packet>, turns: seq<seq<Op>>, answer: Submit)
    : (r: Engine)
    requires e.Ok() && |turns| == |packets|
    ensures r.Ok()
  {
    var back := InBack(e, i, status);
    if status.Cancelled? || status.NoDevice? then back
    else SubmitIn(if status.Done() then StorePackets(back, packets, turns) else back, i, answer)
  }

  /** An OUT transfer is back and counted, or dropped. */
  function OutBack(e: Engine, i: nat, status: Status): (r: Engine)
    requires e.Ok()
    ensures r.Ok()
  {
    var back := e.(usb := e.usb.(outFlight := e.usb.outFlight - {i}));
    match status
    case Completed => back.(outCompletions := e.outCompletions + 1)
    case TimedOut => back.(outCompletions := e.outCompletions + 1)
    case Cancelled => back.(usb := back.usb.(outDropped := e.usb.outDropped + 1))
    case NoDevice => back.(running := false, usb := back.usb.(outDropped := e.usb.outDropped + 1))
    case Failed => back.(outErrors := e.outErrors + 1)
  }

  function HandleOut(e: Engine, i: nat, status: Status, answer: Submit, gaps: Gaps): (r: Engine)
    requires e.Ok()
    ensures r.Ok()
  {
    if status.Cancelled? || status.NoDevice? then Meanwhile(OutBack(e, i, status), gaps)
    else SubmitOut(OutBack(e, i, status), i, answer, gaps)
  }

  // ---- The payloads of a transfer ----

  /** What reaches the IN ring of one packet: the payload of a completed, non-empty one. */
  function Payload(p: Packet): seq<seq<byte>> {
    if p.status.Completed? && |p.payload| > 0 then [p.payload] else []
  }

  function Payloads(packets: seq<Packet>): seq<seq<byte>> {
    if packets == [] then []
    else Payloads(packets[..|packets| - 1]) + Payload(packets[|packets| - 1])
  }

  /** The whole frames in each payload, added up. */
  function Frames(payloads: seq<seq<byte>>): nat {
    if payloads == [] then 0
    else Frames(payloads[..|payloads| - 1]) + |payloads[|payloads| - 1]| / FRAME_SIZE
  }

  lemma FramesOne(parts: seq<seq<byte>>, part: seq<byte>)
    ensures Frames(parts + [part]) == Frames(parts) + |part| / FRAME_SIZE
  {
    assert (parts + [part])[..|parts + [part]| - 1] == parts;
  }

  lemma {:induction false} FramesJoin(a: seq<seq<byte>>, b: seq<seq<byte>>)
    ensures Frames(a + b) == Frames(a) + Frames(b)
  {
    if b == [] {
      assert a + b == a;
    } else {
      assert a + b == a + b[..|b| - 1] + [b[|b| - 1]];
      FramesJoin(a, b[..|b| - 1]);
      FramesOne(a + b[..|b| - 1], b[|b| - 1]);
    }
  }

  function PacketOps(p: Packet): seq<Op> {
    if p.status.Completed? && |p.payload| > 0 then [Write(p.payload)] else []
  }

  /** The IN ring during a completion: the plugin's operations and the packet writes, in their order. */
  function Weave(packets: seq<Packet>, turns: seq<seq<Op>>): seq<Op>
    requires |turns| == |packets|
  {
    if packets == [] then []
    else
      var n := |packets| - 1;
      Weave(packets[..n], turns[..n]) + turns[n] + PacketOps(packets[n])
  }

  predicate OnlyReads(ops: seq<Op>) {
    forall op <- ops :: !op.Write?
  }

  predicate AllOnlyReads(turns: seq<seq<Op>>) {
    forall ops <- turns :: OnlyReads(ops)
  }

  lemma StoreOne(e: Engine, p: Packet)
    requires e.Ok()
    ensures StorePacket(e, p)
         == e.(inRing := Run(e.inRing, PacketOps(p)), sampleCount := e.sampleCount + Frames(Payload(p)))
  {
    if p.status.Completed? && |p.payload| > 0 {
      RunOne(e.inRing, Write(p.payload));
      FramesOne([], p.payload);
    }
  }

  /** One packet after some of them. */
  lemma StoreNext(s: Stream, woven: seq<Op>, turn: seq<Op>, p: Packet)
    requires s.Ok()
    ensures Run(s, woven + turn + PacketOps(p)) == Run(Run(Run(s, woven), turn), PacketOps(p))
  {
    RunJoin(s, woven + turn, PacketOps(p));
    RunJoin(s, woven, turn);
  }

  /** Storing a transfer runs the woven operations on the IN ring, counts whole frames, and touches nothing else. */
  lemma {:induction false} StoreEffect(e: Engine, packets: seq<Packet>, turns: seq<seq<Op>>)
    requires e.Ok() && |turns| == |packets|
    ensures StorePackets(e, packets, turns)
         == e.(inRing := Run(e.inRing, Weave(packets, turns)), sampleCount := e.sampleCount + Frames(Payloads(packets)))
  {
    if packets != [] {
      var n := |packets| - 1;
      var m := StorePackets(e, packets[..n], turns[..n]);
      StoreEffect(e, packets[..n], turns[..n]);
      StoreOne(m.(inRing := Run(m.inRing, turns[n])), packets[n]);
      StoreNext(e.inRing, Weave(packets[..n], turns[..n]), turns[n], packets[n]);
      FramesJoin(Payloads(packets[..n]), Payload(packets[n]));
    }
  }

  lemma {:induction false} OnlyReadsWriteNothing(ops: seq<Op>)
    requires OnlyReads(ops)
    ensures Written(ops) == []
  {
    if ops != [] {
      OnlyReadsWriteNothing(ops[..|ops| - 1]);
    }
  }

  lemma PacketWrites(p: Packet)
    ensures Written(PacketOps(p)) == Concat(Payload(p))
  {
    if p.status.Completed? && |p.payload| > 0 {
      RunOne(EMPTY, Write(p.payload));
      ConcatOne([], p.payload);
    }
  }

  lemma WrittenNext(woven: seq<Op>, turn: seq<Op>, p: Packet)
    requires OnlyReads(turn)
    ensures Written(woven + turn + PacketOps(p)) == Written(woven) + Concat(Payload(p))
  {
    OnlyReadsWriteNothing(turn);
    PacketWrites(p);
    WrittenJoin(woven, turn);
    assert Written(woven) + [] == Written(woven);
    WrittenJoin(woven + turn, PacketOps(p));
  }

  /** Whatever the plugin reads meanwhile, what is published is the payloads in packet order. */
  lemma {:induction false} WeaveWrites(packets: seq<Packet>, turns: seq<seq<Op>>)
    requires |turns| == |packets| && AllOnlyReads(turns)
    ensures Written(Weave(packets, turns)) == Concat(Payloads(packets))
  {
    if packets != [] {
      var n := |packets| - 1;
      WeaveWrites(packets[..n], turns[..n]);
      WrittenNext(Weave(packets[..n], turns[..n]), turns[n], packets[n]);
      ConcatJoin(Payloads(packets[..n]), Payload(packets[n]));
    }
  }

  lemma {:induction false} BurstBound(packets: seq<Packet>)
    requires forall p <- packets :: |p.payload| <= MAX_PACKET
    ensures |Concat(Payloads(packets))| <= MAX_PACKET * |packets|
  {
    if packets != [] {
      var front, p := packets[..|packets| - 1], packets[|packets| - 1];
      BurstBound(front);
      PacketBound(p);
      ConcatJoin(Payloads(front), Payload(p));
    }
  }

  lemma PacketBound(p: Packet)
    requires |p.payload| <= MAX_PACKET
    ensures |Concat(Payload(p))| <= MAX_PACKET
  {
    if p.status.Completed? && |p.payload| > 0 {
      ConcatOne([], p.payload);
    }
  }
}
