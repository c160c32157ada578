/**
 The isochronous engine: its fields, its transfer buffers and its callbacks. What the plugin does to the rings
 while a method runs is a parameter of that method, and happens between the ring calls where it is said to.
 */
module IsoEngine {
  import opened Protocol
  import opened RingModel
  import opened Fills
  import opened EngineModel
  import opened Environment
  import Ring
  import SharedMemory

  /** A read into a buffer at `at` followed by zero fill leaves the padded packet there. */
  lemma PaddedInPlace(before: seq<byte>, mid: seq<byte>, at: nat, received: seq<byte>, size: nat)
    requires |received| <= size && at + size <= |before|
    requires mid == before[..at] + received + before[at + |received|..]
    ensures mid[..at + |received|] + Silence(size - |received|) + mid[at + size..]
         == before[..at] + Padded(received, size) + before[at + size..]
    ensures |received| == size ==> mid == before[..at] + Padded(received, size) + before[at + size..]
  {
  }

  lemma PacketStep(s: Stream, front: seq<seq<byte>>, gap: seq<byte>)
    requires s.Ok()
    ensures var ready := AfterPackets(s, front).Publish(gap);
            && AfterPackets(s, front + [gap]) == ready.Consume(PACKET_SIZE)
            && Concat(Packets(s, front + [gap])) == Concat(Packets(s, front)) + PacketOf(ready)
  {
    assert (front + [gap])[..|front|] == front;
    ConcatOne(Packets(s, front), PacketOf(AfterPackets(s, front).Publish(gap)));
  }

  lemma GapsFitNext(s: Stream, gaps: Gaps, p: nat, wp: nat)
    requires s.Ok() && GapsFit(s.Wp(), gaps) && p < |gaps| && wp == AfterFill(s, gaps[..p]).Wp()
    ensures WritesFit(wp, gaps[p])
  {
    FillBytes(s, gaps[..p]);
    assert wp == s.Wp() + |Flat(gaps[..p])|;
    GapFits(s.Wp(), gaps, p);
  }

  /** The next packet of a transfer. */
  lemma FillStep(s: Stream, gaps: Gaps, p: nat)
    requires s.Ok() && p < |gaps|
    ensures var ready := AfterFill(s, gaps[..p]).Publish(Concat(gaps[p]));
            && AfterFill(s, gaps[..p + 1]) == ready.Consume(PACKET_SIZE)
            && Concat(Packets(s, Joined(gaps[..p + 1]))) == Concat(Packets(s, Joined(gaps[..p]))) + PacketOf(ready)
  {
    FlatNext(gaps, p);
    PacketStep(s, Joined(gaps[..p]), Concat(gaps[p]));
  }

  lemma SubmitOutBytes(e: Engine, i: nat, answer: Submit, gaps: Gaps)
    requires e.Ok()
    ensures EngineModel.SubmitOut(e, i, answer, gaps).outRing.Wp() == e.outRing.Wp() + |Flat(gaps)|
  {
    FillBytes(e.outRing, gaps);
  }

  class IsoEngine {
    const shm: SharedMemory.Segment
    var running: bool
    var inCompletions: nat
    var outCompletions: nat
    var inErrors: nat
    var outErrors: nat
    var outBufs: seq<array<byte>>
    ghost var usb: Usb                            // what libusb holds for this engine
    ghost var handed: map<nat, array<byte>>       // the buffer libusb was last given for each OUT transfer

    ghost predicate Valid()
      reads this, shm.Repr, handed.Values
    {
      this !in shm.Repr && shm.Valid() && OwnState()
    }

    /** What does not depend on the rings. */
    ghost predicate OwnState()
      reads this, handed.Values
    {
      && Buffers(outBufs) && (running ==> |outBufs| == NUM_XFERS)
      && Handed() && InHands(usb.outFlight)
    }

    /** One buffer per OUT transfer, none shared with another transfer or with a ring. */
    ghost predicate Buffers(bufs: seq<array<byte>>) {
      && (forall i :: 0 <= i < |bufs| ==> bufs[i].Length == XFER_SIZE && bufs[i] !in shm.Repr)
      && forall i, j :: 0 <= i < j < |bufs| ==> bufs[i] != bufs[j]
    }

    /** A buffer given to libusb is no ring and no other transfer's. */
    ghost predicate Handed()
      reads this
    {
      && (forall b <- handed.Values :: b !in shm.Repr)
      && forall i, j :: i in handed && 0 <= j < |outBufs| && handed[i] == outBufs[j] ==> i == j
    }

    /** The buffer of each of these transfers holds its last accepted filling. */
    ghost predicate InHands(flight: set<nat>)
      reads this, handed.Values
    {
      forall i <- flight :: i in handed && handed[i][..] == InHand(usb.fills, i)
    }

    /** libusb does not have the buffer of transfer idx. */
    ghost predicate Idle(idx: nat)
      reads this
    {
      idx in usb.outFlight && idx in handed && idx < |outBufs| ==> handed[idx] != outBufs[idx]
    }

    /** The state EngineModel speaks about. */
    ghost function Model(): Engine
      reads this, shm.Repr
    {
      Engine(running, inCompletions, outCompletions, inErrors, outErrors, shm.sampleCount,
             shm.inRing.history, shm.outRing.history, usb)
    }

    constructor (shm: SharedMemory.Segment)
      requires shm.Valid()
      ensures Valid() && this.shm == shm && !running && outBufs == []
      ensures usb == INITIAL.usb
      ensures inCompletions == outCompletions == inErrors == outErrors == 0
    {
      this.shm := shm;
      running := false;
      inCompletions, outCompletions, inErrors, outErrors := 0, 0, 0, 0;
      outBufs := [];
      usb := INITIAL.usb;
      handed := map[];
    }

    method SubmitIn(idx: nat, answer: Submit)
      requires Valid()
      modifies this`running, this`usb
      ensures Valid() && Model() == EngineModel.SubmitIn(old(Model()), idx, answer)
      ensures running <==> old(running) && (answer.first || answer.retry)
    {
      if !running {
        return;
      }
      var accepted := answer.first;
      if !accepted {
        accepted := answer.retry;
      }
      if accepted {
        usb := usb.(inFlight := usb.inFlight + {idx}, inSubmitted := usb.inSubmitted + 1);
      } else {
        running := false;
      }
    }

    /** One packet of an OUT transfer: what the ring delivers, padded with silence. */
    method FillPacket(buf: array<byte>, at: nat)
      requires shm.Valid() && buf !in shm.Repr && at + PACKET_SIZE <= buf.Length
      modifies shm.outRing`readPos, shm.outRing`history, buf
      ensures shm.Valid() && shm.outRing.history == old(shm.outRing.history).Consume(PACKET_SIZE)
      ensures buf[..] == old(buf[..])[..at] + PacketOf(old(shm.outRing.history)) + old(buf[..])[at + PACKET_SIZE..]
    {
      ghost var before := buf[..];
      ghost var received := shm.outRing.history.Received(PACKET_SIZE);
      var got := shm.outRing.Read(buf, at, PACKET_SIZE);
      ghost var mid := buf[..];
      if got < PACKET_SIZE {
        Ring.Memset(buf, at + got, PACKET_SIZE - got);
      }
      PaddedInPlace(before, mid, at, received, PACKET_SIZE);
    }

    /** One packet, after the plugin's writes that fall before it. */
    method FillNext(buf: array<byte>, at: nat, gap: Writes)
      requires shm.Valid() && buf !in shm.Repr && at + PACKET_SIZE <= buf.Length
      requires WritesFit(shm.outRing.writePos, gap)
      modifies shm.outRing, shm.outRing.data, buf
      ensures shm.Valid()
      ensures var ready := old(shm.outRing.history).Publish(Concat(gap));
              && shm.outRing.history == ready.Consume(PACKET_SIZE)
              && buf[..at + PACKET_SIZE] == old(buf[..at]) + PacketOf(ready)
    {
      ghost var before := buf[..];
      WriteGap(shm.outRing, gap);
      ghost var packet := PacketOf(shm.outRing.history);
      FillPacket(buf, at);
      assert before[..at] == old(buf[..at]);
      assert buf[..at + PACKET_SIZE] == buf[..][..at + PACKET_SIZE] == before[..at] + packet;
    }

    /** Fills the whole buffer; the plugin writes gaps[p] before packet p is read. */
    method FillTransfer(buf: array<byte>, gaps: Gaps)
      requires shm.Valid() && buf !in shm.Repr && buf.Length == XFER_SIZE
      requires |gaps| == PACKETS_PER_XFER && GapsFit(shm.outRing.writePos, gaps)
      modifies shm.outRing, shm.outRing.data, buf
      ensures shm.Valid()
      ensures shm.outRing.history == AfterFill(old(shm.outRing.history), gaps)
      ensures buf[..] == Concat(Packets(old(shm.outRing.history), Joined(gaps)))
    {
      ghost var s := shm.outRing.history;
      var p := 0;
      while p < PACKETS_PER_XFER
        invariant p <= PACKETS_PER_XFER && shm.Valid()
        invariant shm.outRing.history == AfterFill(s, gaps[..p])
        invariant buf[..p * PACKET_SIZE] == Concat(Packets(s, Joined(gaps[..p])))
      {
        GapsFitNext(s, gaps, p, shm.outRing.writePos);
        FillStep(s, gaps, p);
        FillNext(buf, p * PACKET_SIZE, gaps[p]);
        p := p + 1;
      }
      assert gaps[..PACKETS_PER_XFER] == gaps;
    }

    /** The first half of SubmitOut: the transfer's bytes leave the ring. */
    method FillOut(idx: nat, gaps: Gaps)
      requires Valid() && running && idx < NUM_XFERS && Idle(idx)
      requires |gaps| == PACKETS_PER_XFER && GapsFit(shm.outRing.writePos, gaps)
      modifies shm.outRing, shm.outRing.data, outBufs[idx]
      ensures Valid() && shm.outRing.history == AfterFill(old(shm.outRing.history), gaps)
      ensures outBufs[idx][..] == Concat(Packets(old(shm.outRing.history), Joined(gaps)))
    {
      FillTransfer(outBufs[idx], gaps);
    }

    /** The second half: the buffer is offered to libusb, twice if need be. */
    method OfferOut(idx: nat, answer: Submit, ghost fill: Fill)
      requires Valid() && running && idx < NUM_XFERS && Idle(idx)
      requires outBufs[idx][..] == fill.Buffer() && fill.i == idx && fill.accepted == answer.Ok()
      modifies this`running, this`usb, this`handed
      ensures Valid() && Model() == EngineModel.OfferOut(old(Model()), fill)
      ensures running <==> answer.first || answer.retry
      ensures handed == old(handed) || handed == old(handed)[idx := outBufs[idx]]
    {
      var accepted := answer.first;
      if !accepted {
        accepted := answer.retry;
      }
      OneMore(usb.fills, fill);
      usb := usb.(fills := usb.fills + [fill]);
      if accepted {
        usb := usb.(outFlight := usb.outFlight + {idx}, outSubmitted := usb.outSubmitted + 1);
        handed := handed[idx := outBufs[idx]];
      } else {
        running := false;
      }
    }

    /** Fills the transfer's buffer from the OUT ring, then hands it to libusb. */
    method SubmitOut(idx: nat, answer: Submit, gaps: Gaps)
      requires Valid() && idx < NUM_XFERS && Idle(idx)
      requires |gaps| == PACKETS_PER_XFER && GapsFit(shm.outRing.writePos, gaps)
      modifies this`running, this`usb, this`handed
      modifies shm.outRing, shm.outRing.data, if running then {outBufs[idx]} else {}
      ensures Valid() && Model() == EngineModel.SubmitOut(old(Model()), idx, answer, gaps)
      ensures running <==> old(running) && (answer.first || answer.retry)
      ensures if old(running) then Filled(idx, old(shm.outRing.history), gaps, old(handed)) else handed == old(handed)
    {
      if !running {
        WriteGaps(shm.outRing, gaps);
        return;
      }
      ghost var fill := FillFrom(shm.outRing.history, idx, gaps, answer.Ok());
      FillOut(idx, gaps);
      OfferOut(idx, answer, fill);
    }

    /** The transfer's buffer has what the ring, as it was, delivers during these gaps; libusb may have it now. */
    ghost predicate Filled(idx: nat, was: Stream, gaps: Gaps, before: map<nat, array<byte>>)
      requires was.Ok()
      reads this, outBufs
    {
      && idx < |outBufs|
      && outBufs[idx][..] == Concat(Packets(was, Joined(gaps)))
      && (handed == before || handed == before[idx := outBufs[idx]])
    }

    /** The buffers of all OUT transfers, unless one of the allocations fails. */
    method Allocate(allocs: nat) returns (ok: bool, bufs: seq<array<byte>>)
      requires shm.Valid()
      ensures ok <==> allocs >= ALLOCATIONS
      ensures fresh(bufs) && Buffers(bufs) && (ok ==> |bufs| == NUM_XFERS)
    {
      bufs := [];
      var used := 0;
      while |bufs| < NUM_XFERS
        invariant |bufs| <= NUM_XFERS && used == 4 * |bufs| <= allocs
        invariant Buffers(bufs) && fresh(bufs)
        decreases NUM_XFERS - |bufs|
      {
        if allocs < used + 4 {
          return false, bufs;
        }
        var buf := new byte[XFER_SIZE](_ => 0);
        bufs := bufs + [buf];
        used := used + 4;
      }
      return true, bufs;
    }

    method Open(bufs: seq<array<byte>>)
      requires Valid() && Buffers(bufs) && |bufs| == NUM_XFERS
      requires forall i <- handed, j | 0 <= j < |bufs| :: handed[i] != bufs[j]
      modifies this`running, this`usb, this`outBufs
      ensures Valid() && Model() == Opened(old(Model())) && outBufs == bufs && running
    {
      outBufs := bufs;
      running := true;
      usb := usb.(stopped := false, starts := usb.starts + 1);
    }

    /** allocs is how many of the allocations succeed; plugin is what the plugin writes while transfers are filled. */
    method Start(allocs: nat, answers: seq<(Submit, Submit)>, plugin: seq<Gaps>) returns (ok: bool)
      requires Valid() && |answers| == NUM_XFERS
      requires |plugin| == NUM_XFERS && PlanFits(shm.outRing.writePos, plugin)
      modifies this, shm.outRing, shm.outRing.data
      ensures Valid() && Model() == EngineModel.Start(old(Model()), allocs, answers, plugin)
      ensures ok == StartResult(old(Model()), allocs)
      ensures InHands(usb.outFlight)
      ensures outBufs == old(outBufs) || fresh(outBufs)
    {
      if running {
        WritePlan(shm.outRing, plugin);
        return true;
      }
      var enough, bufs := Allocate(allocs);
      if !enough {
        WritePlan(shm.outRing, plugin);
        return false;
      }
      Open(bufs);
      SubmitEach(answers, plugin);
      return true;
    }

    /** libusb was never given the buffer that transfer j has now. */
    ghost predicate Unused(j: nat)
      reads this
    {
      j in handed && j < |outBufs| ==> handed[j] != outBufs[j]
    }

    ghost predicate UnusedFrom(i: nat)
      reads this
    {
      forall j :: i <= j < NUM_XFERS ==> Unused(j)
    }

    method SubmitBoth(i: nat, answer: (Submit, Submit), gaps: Gaps)
      requires Valid() && |outBufs| == NUM_XFERS && i < NUM_XFERS && UnusedFrom(i)
      requires |gaps| == PACKETS_PER_XFER && GapsFit(shm.outRing.writePos, gaps)
      modifies this`running, this`usb, this`handed, shm.outRing, shm.outRing.data, outBufs[i]
      ensures Valid() && Model() == SubmitPair(old(Model()), i, answer, gaps)
      ensures UnusedFrom(i + 1)
      ensures shm.outRing.writePos == old(shm.outRing.writePos) + |Flat(gaps)|
    {
      assert Unused(i);
      SubmitIn(i, answer.0);
      SubmitOutBytes(Model(), i, answer.1, gaps);
      SubmitOut(i, answer.1, gaps);
      forall j | i + 1 <= j < NUM_XFERS
        ensures Unused(j)
      {
        assert old(Unused(j));
      }
    }

    /** The first i pairs were submitted, starting from state e. */
    ghost predicate Progress(e: Engine, i: nat, answers: seq<(Submit, Submit)>, plugin: seq<Gaps>)
      requires e.Ok() && i <= |answers| && i <= |plugin|
      reads this, shm.Repr, handed.Values
    {
      && Valid() && |outBufs| == NUM_XFERS && UnusedFrom(i)
      && Model() == SubmitAll(e, i, answers, plugin)
      && PlanAt(e.outRing.Wp(), plugin, i, shm.outRing.writePos)
    }

    method SubmitNext(ghost e: Engine, i: nat, answers: seq<(Submit, Submit)>, plugin: seq<Gaps>)
      requires e.Ok() && i < NUM_XFERS == |answers| == |plugin| && Progress(e, i, answers, plugin)
      requires PlanFits(e.outRing.Wp(), plugin)
      modifies this`running, this`usb, this`handed, shm.outRing, shm.outRing.data, outBufs[i]
      ensures Progress(e, i + 1, answers, plugin)
    {
      PlanNext(e.outRing.Wp(), plugin, i, shm.outRing.writePos);
      SubmitBoth(i, answers[i], plugin[i]);
    }

    method SubmitEach(answers: seq<(Submit, Submit)>, plugin: seq<Gaps>)
      requires Valid() && |answers| == NUM_XFERS && |outBufs| == NUM_XFERS
      requires |plugin| == NUM_XFERS && PlanFits(shm.outRing.writePos, plugin)
      requires UnusedFrom(0)
      modifies this`running, this`usb, this`handed, shm.outRing, shm.outRing.data, outBufs
      ensures Valid() && Model() == SubmitAll(old(Model()), NUM_XFERS, answers, plugin)
    {
      ghost var e := Model();
      var i := 0;
      while i < NUM_XFERS
        invariant i <= NUM_XFERS && Progress(e, i, answers, plugin)
      {
        SubmitNext(e, i, answers, plugin);
        i := i + 1;
      }
    }

    /** Requests cancellation of every transfer, unless the engine has already stopped running. */
    method Stop()
      requires Valid()
      modifies this`running, this`usb
      ensures Valid() && Model() == EngineModel.Stop(old(Model()))
    {
      if !running {
        return;
      }
      running := false;
      usb := usb.(stopped := true);
    }

    method StorePacket(packet: Packet, turn: seq<Op>)
      requires Valid() && |packet.payload| <= MAX_PACKET && OnlyReads(turn)
      modifies shm`sampleCount, shm.inRing, shm.inRing.data
      ensures Valid()
      ensures var e := old(Model());
              Model() == EngineModel.StorePacket(e.(inRing := Run(e.inRing, turn)), packet)
    {
      ReadTurn(shm.inRing, turn);
      if packet.status.Completed? && |packet.payload| > 0 {
        shm.inRing.Write(packet.payload);
        shm.sampleCount := shm.sampleCount + |packet.payload| / FRAME_SIZE;
      }
    }

    /** Stores the packets; the plugin does turns[p] at its end of the IN ring before packet p. */
    method StorePackets(packets: seq<Packet>, turns: seq<seq<Op>>)
      requires Valid() && (forall p <- packets :: |p.payload| <= MAX_PACKET)
      requires |turns| == |packets| && AllOnlyReads(turns)
      modifies shm`sampleCount, shm.inRing, shm.inRing.data
      ensures Valid() && Model() == EngineModel.StorePackets(old(Model()), packets, turns)
    {
      var p := 0;
      while p < |packets|
        invariant p <= |packets| && Valid()
        invariant Model() == EngineModel.StorePackets(old(Model()), packets[..p], turns[..p])
      {
        assert packets[..p + 1][..p] == packets[..p] && turns[..p + 1][..p] == turns[..p];
        assert packets[p] in packets && turns[p] in turns;
        StorePacket(packets[p], turns[p]);
        p := p + 1;
      }
      assert packets[..|packets|] == packets && turns[..|turns|] == turns;
    }

    /** Counts what came back of IN transfer idx. */
    method ReturnIn(idx: nat, status: Status)
      requires Valid()
      modifies this`running, this`usb, this`inCompletions, this`inErrors
      ensures Valid() && Model() == InBack(old(Model()), idx, status)
    {
      usb := usb.(inFlight := usb.inFlight - {idx});
      if status.Completed? || status.TimedOut? {
        inCompletions := inCompletions + 1;
      } else if status.Cancelled? {
        usb := usb.(inDropped := usb.inDropped + 1);
      } else if status.NoDevice? {
        running := false;
        usb := usb.(inDropped := usb.inDropped + 1);
      } else {
        inErrors := inErrors + 1;
      }
    }

    method HandleInCompletion(idx: nat, status: Status, packets: seq<Packet>, turns: seq<seq<Op>>, answer: Submit)
      requires Valid() && (forall p <- packets :: |p.payload| <= MAX_PACKET)
      requires |turns| == |packets| && AllOnlyReads(turns)
      modifies this`running, this`usb, this`inCompletions, this`inErrors
      modifies shm`sampleCount, shm.inRing, shm.inRing.data
      ensures Valid() && Model() == HandleIn(old(Model()), idx, status, packets, turns, answer)
    {
      ReturnIn(idx, status);
      if status.Cancelled? || status.NoDevice? {
        return;
      }
      if status.Completed? || status.TimedOut? {
        StorePackets(packets, turns);
      }
      SubmitIn(idx, answer);
    }

    /** Counts what came back of OUT transfer idx. */
    method ReturnOut(idx: nat, status: Status)
      requires Valid()
      modifies this`running, this`usb, this`outCompletions, this`outErrors
      ensures Valid() && Model() == OutBack(old(Model()), idx, status)
    {
      usb := usb.(outFlight := usb.outFlight - {idx});
      if status.Completed? || status.TimedOut? {
        outCompletions := outCompletions + 1;
      } else if status.Cancelled? {
        usb := usb.(outDropped := usb.outDropped + 1);
      } else if status.NoDevice? {
        running := false;
        usb := usb.(outDropped := usb.outDropped + 1);
      } else {
        outErrors := outErrors + 1;
      }
    }

    method HandleOutCompletion(idx: nat, status: Status, answer: Submit, gaps: Gaps)
      requires Valid() && idx < NUM_XFERS
      requires |gaps| == PACKETS_PER_XFER && GapsFit(shm.outRing.writePos, gaps)
      modifies this`running, this`usb, this`handed, this`outCompletions, this`outErrors
      modifies shm.outRing, shm.outRing.data, if running then {outBufs[idx]} else {}
      ensures Valid() && Model() == HandleOut(old(Model()), idx, status, answer, gaps)
      ensures old(running) && !status.Cancelled? && !status.NoDevice? ==>
                Filled(idx, old(shm.outRing.history), gaps, old(handed))
      ensures InHands(usb.outFlight)
    {
      ReturnOut(idx, status);
      if status.Cancelled? || status.NoDevice? {
        WriteGaps(shm.outRing, gaps);
        return;
      }
      SubmitOut(idx, answer, gaps);
    }
  }
}
