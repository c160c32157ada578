/**
 The runs of EngineRuns told from their events alone, in terms of statuses, answers and packets: what keeps an engine
 going, what is submitted and filled, and which device bytes reach the IN ring.
 */
module EventLaws {
  import opened Protocol
  import opened Ledger
  import opened RingModel
  import opened Fills
  import opened EngineModel
  import opened EngineRuns
  import opened EngineTheorems

  // ---- The second try is enough ----

  /** Every answer of the event takes the second try, whatever the first one gives. */
  predicate SecondTryTaken(ev: Event) {
    match ev
    case Begin(_, answers, _) => forall j :: 0 <= j < |answers| ==> answers[j].0.retry && answers[j].1.retry
    case InDone(_, status, _, _, answer) => answer.retry && status != NoDevice
    case OutDone(_, status, answer, _) => answer.retry && status != NoDevice
    case Halt => false
    case _ => true
  }

  /** An engine whose every first try is refused, but no second one, runs on until it is stopped or unplugged. */
  lemma SecondTriesKeepItGoing(es: seq<Event>)
    requires Feasible(INITIAL, es) && es != [] && es[0].Begin? && es[0].allocs >= ALLOCATIONS
    requires forall ev <- es :: SecondTryTaken(ev)
    ensures Final(INITIAL, es).running
  {
    FirstIsEnabled(INITIAL, es);
    RunsIff(es);
    assert SecondTryTaken(es[0]);
    forall j | 0 < j < |es|
      ensures !Ends(es[j])
    {
      assert SecondTryTaken(es[j]);
    }
    assert Starts(es[0]) && NoneEnds(es, 0);
  }

  lemma {:induction false} FirstIsEnabled(e: Engine, es: seq<Event>)
    requires e.Ok() && Feasible(e, es) && es != []
    ensures Enabled(e, es[0])
  {
    if |es| == 1 {
      assert es[..0] == [];
      assert Final(e, []) == e;
    } else {
      FirstIsEnabled(e, es[..|es| - 1]);
    }
  }

  // ---- How many OUT transfers are filled ----

  /** How many OUT transfers a start fills: it stops at the first refusal, after filling the one that is refused. */
  function OutAttempts(answers: seq<(Submit, Submit)>): nat {
    if answers == [] then 0
    else if !answers[0].0.first && !answers[0].0.retry then 0
    else if !answers[0].1.first && !answers[0].1.retry then 1
    else 1 + OutAttempts(answers[1..])
  }

  /** The first pair with a refusal. */
  lemma {:induction false} FirstRefusal(answers: seq<(Submit, Submit)>) returns (k: nat)
    ensures k <= |answers| && AllTaken(answers, k)
    ensures k == |answers| ==> OutAttempts(answers) == k
    ensures k < |answers| ==> !Took(answers[k].0) || !Took(answers[k].1)
    ensures k < |answers| ==> OutAttempts(answers) == if Took(answers[k].0) then k + 1 else k
  {
    if answers == [] || !Took(answers[0].0) || !Took(answers[0].1) {
      k := 0;
    } else {
      var rest := FirstRefusal(answers[1..]);
      k := rest + 1;
      forall j | 0 <= j < k
        ensures Took(answers[j].0) && Took(answers[j].1)
      {
        if j > 0 {
          assert answers[j] == answers[1..][j - 1];
        }
      }
    }
  }

  /** How many OUT transfers an event fills; going tells whether the engine ran before it. */
  function FilledBy(going: bool, ev: Event): nat {
    match ev
    case Begin(allocs, answers, _) => if going || allocs < 16 then 0 else OutAttempts(answers)
    case OutDone(_, status, _, _) => if going && status != Cancelled && status != NoDevice then 1 else 0
    case _ => 0
  }

  function StartedBy(going: bool, ev: Event): nat {
    if ev.Begin? && ev.allocs >= 16 && !going then 1 else 0
  }

  lemma StartFills(e: Engine, allocs: nat, answers: seq<(Submit, Submit)>, plugin: seq<Gaps>)
    requires e.Ok() && Enabled(e, Begin(allocs, answers, plugin))
    ensures var t := Start(e, allocs, answers, plugin);
            && |t.usb.fills| == |e.usb.fills| + FilledBy(e.running, Begin(allocs, answers, plugin))
            && t.usb.starts == e.usb.starts + StartedBy(e.running, Begin(allocs, answers, plugin))
  {
    if e.running || allocs < ALLOCATIONS {
      IdleStart(e, allocs, answers, plugin);
    } else {
      var k := FirstRefusal(answers);
      StartSubmits(e, allocs, answers, plugin, k);
    }
  }

  lemma OutFills(e: Engine, i: nat, status: Status, answer: Submit, gaps: Gaps)
    requires e.Ok()
    ensures var t := HandleOut(e, i, status, answer, gaps);
            && |t.usb.fills| == |e.usb.fills| + FilledBy(e.running, OutDone(i, status, answer, gaps))
            && t.usb.starts == e.usb.starts
  {
    if status != Cancelled && status != NoDevice && e.running {
      OutTriesTwice(OutBack(e, i, status), i, answer, gaps);
    }
  }

  lemma EventFills(e: Engine, ev: Event)
    requires e.Ok() && Enabled(e, ev)
    ensures |Next(e, ev).usb.fills| == |e.usb.fills| + FilledBy(e.running, ev)
    ensures Next(e, ev).usb.starts == e.usb.starts + StartedBy(e.running, ev)
  {
    match ev
    case Begin(allocs, answers, plugin) => StartFills(e, allocs, answers, plugin);
    case InDone(i, status, packets, turns, answer) => HandleInOut(e, i, status, packets, turns, answer);
    case OutDone(i, status, answer, gaps) => OutFills(e, i, status, answer, gaps);
    case _ =>
  }

  function FilledOver(es: seq<Event>): nat {
    if es == [] then 0
    else FilledOver(es[..|es| - 1]) + FilledBy(StillGoing(es[..|es| - 1]), es[|es| - 1])
  }

  function StartedOver(es: seq<Event>): nat {
    if es == [] then 0
    else StartedOver(es[..|es| - 1]) + StartedBy(StillGoing(es[..|es| - 1]), es[|es| - 1])
  }

  /**
   In every run the OUT ring is read for exactly one transfer per attempt: one per completion or error of a running
   engine, and for a start those up to and including the first OUT refusal, or before the first IN refusal. Starts
   are the calls with all allocations on an engine that does not run.
   */
  lemma {:induction false} FillsAreAttempts(es: seq<Event>)
    requires Feasible(INITIAL, es)
    ensures |Final(INITIAL, es).usb.fills| == FilledOver(es)
    ensures Final(INITIAL, es).usb.starts == StartedOver(es)
  {
    if es != [] {
      FillsAreAttempts(es[..|es| - 1]);
      RunsIff(es[..|es| - 1]);
      EventFills(Final(INITIAL, es[..|es| - 1]), es[|es| - 1]);
    }
  }

  // ---- Which device bytes reach the IN ring ----

  function PacketBytes(p: Packet): seq<byte> {
    if p.status == Completed then p.payload else []
  }

  function TransferBytes(packets: seq<Packet>): seq<byte> {
    if packets == [] then []
    else TransferBytes(packets[..|packets| - 1]) + PacketBytes(packets[|packets| - 1])
  }

  function TransferFrames(packets: seq<Packet>): nat {
    if packets == [] then 0
    else TransferFrames(packets[..|packets| - 1]) + |PacketBytes(packets[|packets| - 1])| / 18
  }

  /** The bytes of the completed packets of completed and timed-out IN transfers, in callback and packet order. */
  function DeviceBytes(es: seq<Event>): seq<byte> {
    if es == [] then []
    else
      var ev := es[|es| - 1];
      DeviceBytes(es[..|es| - 1]) +
      if ev.InDone? && (ev.status == Completed || ev.status == TimedOut) then TransferBytes(ev.packets) else []
  }

  function DeviceFrames(es: seq<Event>): nat {
    if es == [] then 0
    else
      var ev := es[|es| - 1];
      DeviceFrames(es[..|es| - 1]) +
      if ev.InDone? && (ev.status == Completed || ev.status == TimedOut) then TransferFrames(ev.packets) else 0
  }

  lemma PacketPayload(p: Packet)
    ensures Concat(Payload(p)) == PacketBytes(p) && Frames(Payload(p)) == |PacketBytes(p)| / 18
  {
    if p.status.Completed? && |p.payload| > 0 {
      ConcatOne([], p.payload);
      FramesOne([], p.payload);
    }
  }

  lemma {:induction false} PayloadsAreBytes(packets: seq<Packet>)
    ensures Concat(Payloads(packets)) == TransferBytes(packets)
    ensures Frames(Payloads(packets)) == TransferFrames(packets)
  {
    if packets != [] {
      var front, p := packets[..|packets| - 1], packets[|packets| - 1];
      PayloadsAreBytes(front);
      PacketPayload(p);
      ConcatJoin(Payloads(front), Payload(p));
      FramesJoin(Payloads(front), Payload(p));
    }
  }

  lemma {:induction false} PublishedIsDevice(es: seq<Event>)
    ensures Concat(Published(es)) == DeviceBytes(es) && Frames(Published(es)) == DeviceFrames(es)
  {
    if es != [] {
      var front, ev := es[..|es| - 1], es[|es| - 1];
      PublishedIsDevice(front);
      ConcatJoin(Published(front), Brought(ev));
      FramesJoin(Published(front), Brought(ev));
      if ev.InDone? {
        PayloadsAreBytes(ev.packets);
      }
    }
  }

  /** In every run the IN stream is the device's bytes, and sample_count the frames in them. */
  lemma DeviceStream(es: seq<Event>)
    requires Feasible(INITIAL, es)
    ensures Final(INITIAL, es).inRing.bytes == DeviceBytes(es)
    ensures Final(INITIAL, es).sampleCount == DeviceFrames(es)
  {
    InStream(es);
    PublishedIsDevice(es);
  }
}
