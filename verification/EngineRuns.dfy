/**
 Runs of the whole system: the engine, libusb answering in any way it may, and the plugin at the other end of
 both rings. Calls on a ring are taken whole, but the plugin's fall anywhere between the engine's: between
 callbacks, and between the packets of one callback.
 */
module EngineRuns {
  import opened Protocol
  import opened RingModel
  import opened Fills
  import opened EngineModel

  datatype Event =
    | Begin(allocs: nat, answers: seq<(Submit, Submit)>, plugin: seq<Gaps>)     // Start
    | Halt                                                                      // Stop
    | InDone(i: nat, status: Status, packets: seq<Packet>, turns: seq<seq<Op>>, answer: Submit)
    | OutDone(i: nat, status: Status, answer: Submit, gaps: Gaps)
    | PluginConnect
    | PluginRead(max: nat)                                                      // OnReadClientInput
    | PluginWrite(data: seq<byte>)                                              // OnWriteMixedOutput
  {
    predicate Callback() {
      InDone? || OutDone?
    }
  }

  /**
   What may happen next. libusb completes only transfers it holds, with four packets of at most MAX_PACKET
   bytes, and reports CANCELLED only after Stop asked for it; the engine is not restarted before all
   transfers are back; the plugin only reads the IN ring and only writes the OUT ring, and its writes fit the
   two-chunk copy.
   */
  predicate Enabled(e: Engine, ev: Event)
    requires e.Ok()
  {
    match ev
    case Begin(_, answers, plugin) =>
      && |answers| == NUM_XFERS && |plugin| == NUM_XFERS && PlanFits(e.outRing.Wp(), plugin)
      && (e.running || (e.usb.inFlight == {} && e.usb.outFlight == {}))
    case Halt => true
    case InDone(i, status, packets, turns, _) =>
      && i in e.usb.inFlight && (status.Cancelled? ==> e.usb.stopped)
      && |packets| == PACKETS_PER_XFER && (forall p <- packets :: |p.payload| <= MAX_PACKET)
      && |turns| == PACKETS_PER_XFER && AllOnlyReads(turns)
    case OutDone(i, status, _, gaps) =>
      && i in e.usb.outFlight && (status.Cancelled? ==> e.usb.stopped)
      && |gaps| == PACKETS_PER_XFER && GapsFit(e.outRing.Wp(), gaps)
    case PluginConnect => true
    case PluginRead(_) => true
    case PluginWrite(data) => |data| <= 2 * RING_BYTES - Slot(e.outRing.Wp())
  }

  function Next(e: Engine, ev: Event): (t: Engine)
    requires e.Ok() && Enabled(e, ev)
    ensures t.Ok()
  {
    match ev
    case Begin(allocs, answers, plugin) => Start(e, allocs, answers, plugin)
    case Halt => Stop(e)
    case InDone(i, status, packets, turns, answer) => HandleIn(e, i, status, packets, turns, answer)
    case OutDone(i, status, answer, gaps) => HandleOut(e, i, status, answer, gaps)
    case PluginConnect => e.(inRing := e.inRing.Reconnect())
    case PluginRead(max) => e.(inRing := e.inRing.Consume(max))
    case PluginWrite(data) => e.(outRing := e.outRing.Publish(data))
  }

  /** Each event of the run may happen where it does. */
  predicate Feasible(e: Engine, es: seq<Event>)
    requires e.Ok()
    decreases es, 0
  {
    es == [] || (Feasible(e, es[..|es| - 1]) && Enabled(Final(e, es[..|es| - 1]), es[|es| - 1]))
  }

  function Final(e: Engine, es: seq<Event>): (t: Engine)
    requires e.Ok() && Feasible(e, es)
    ensures t.Ok()
    decreases es, 1
  {
    if es == [] then e else Next(Final(e, es[..|es| - 1]), es[|es| - 1])
  }

  // ---- The transfer machine ----

  function Below(k: nat): (s: set<nat>)
    ensures forall i: nat :: i in s <==> i < k
  {
    if k == 0 then {} else Below(k - 1) + {k - 1}
  }

  /** All transfers below k are in flight while the engine runs; none above k ever is. */
  predicate Flights(e: Engine, k: nat) {
    && e.usb.inFlight <= Below(k) && e.usb.outFlight <= Below(k)
    && (e.running ==> e.usb.inFlight == Below(k) && e.usb.outFlight == Below(k) && !e.usb.stopped)
  }

  /** Every successful submission is in flight, completed, failed or dropped. */
  predicate Accounts(e: Engine) {
    && e.usb.inSubmitted == |e.usb.inFlight| + e.inCompletions + e.inErrors + e.usb.inDropped
    && e.usb.outSubmitted == |e.usb.outFlight| + e.outCompletions + e.outErrors + e.usb.outDropped
  }

  /** A first session that is still running has dropped nothing, and before it there was nothing. */
  predicate Sessions(e: Engine) {
    && (e.running && e.usb.starts == 1 ==> e.usb.inDropped == 0 && e.usb.outDropped == 0)
    && (e.running ==> e.usb.starts > 0)
    && (e.usb.starts == 0 ==>
          e.usb.inFlight == {} && e.usb.outFlight == {} && e.usb.inDropped == 0 && e.usb.outDropped == 0)
  }

  predicate Transfers(e: Engine, k: nat) {
    Flights(e, k) && Accounts(e)
  }

  /** Each ring's ledger is complete and true, and the OUT ring was read by the fillings alone. */
  predicate Rings(e: Engine)
    requires e.Ok()
  {
    e.inRing.Sound(0) && e.outRing.Sound(0) && ReadBy(e.outRing, e.usb.fills)
  }

  /** Submissions of OUT transfers attempted: four per Start and one per completion or error, at the most. */
  function Credit(e: Engine): nat {
    NUM_XFERS * e.usb.starts + e.outCompletions + e.outErrors
  }

  /** A refused submission ends the session, and the accepted ones are counted. */
  predicate Refusals(e: Engine) {
    && |Refused(e.usb.fills)| + (if e.running then 1 else 0) <= e.usb.starts
    && |Accepted(e.usb.fills)| == e.usb.outSubmitted
  }

  predicate Inv(e: Engine) {
    && e.Ok() && Transfers(e, NUM_XFERS) && Sessions(e) && Rings(e)
    && Refusals(e) && |e.usb.fills| <= Credit(e)
  }

  // One lemma per entry point and concern: first the transfers, then the rings.

  lemma SubmitInTransfers(e: Engine, i: nat, answer: Submit)
    requires e.Ok() && Accounts(e) && i !in e.usb.inFlight
    ensures var t := SubmitIn(e, i, answer);
            && Accounts(t)
            && t.running == (e.running && answer.Ok())
            && t.usb.inFlight == (if t.running then e.usb.inFlight + {i} else e.usb.inFlight)
            && t == e.(running := t.running,
                       usb := e.usb.(inFlight := t.usb.inFlight, inSubmitted := t.usb.inSubmitted))
  {
  }

  lemma SubmitOutTransfers(e: Engine, i: nat, answer: Submit, gaps: Gaps)
    requires e.Ok() && Accounts(e) && i !in e.usb.outFlight
    ensures var t := SubmitOut(e, i, answer, gaps);
            && Accounts(t)
            && t.running == (e.running && answer.Ok())
            && t.usb.outFlight == (if t.running then e.usb.outFlight + {i} else e.usb.outFlight)
            && t == e.(running := t.running, outRing := t.outRing,
                       usb := e.usb.(outFlight := t.usb.outFlight, outSubmitted := t.usb.outSubmitted,
                                     fills := t.usb.fills))
  {
  }

  /** t is e after some submissions. */
  predicate Submitted(e: Engine, t: Engine) {
    t == e.(running := t.running, outRing := t.outRing,
            usb := e.usb.(inFlight := t.usb.inFlight, outFlight := t.usb.outFlight, fills := t.usb.fills,
                          inSubmitted := t.usb.inSubmitted, outSubmitted := t.usb.outSubmitted))
  }

  /** t is e after the first k pairs of submissions. */
  predicate Opening(e: Engine, t: Engine, k: nat) {
    Transfers(t, k) && Submitted(e, t)
  }

  lemma PairTransfers(e: Engine, m: Engine, k: nat, answer: (Submit, Submit), gaps: Gaps)
    requires m.Ok() && Opening(e, m, k)
    ensures Opening(e, SubmitPair(m, k, answer, gaps), k + 1)
  {
    SubmitInTransfers(m, k, answer.0);
    SubmitOutTransfers(SubmitIn(m, k, answer.0), k, answer.1, gaps);
  }

  lemma NothingSubmitted(e: Engine)
    requires e.running && !e.usb.stopped && Accounts(e) && e.usb.inFlight == {} && e.usb.outFlight == {}
    ensures Opening(e, e, 0)
  {
  }

  /**
   After the first k pairs of submissions, whatever libusb answers and whatever the plugin writes: a running
   engine has the transfers below k in flight.
   */
  lemma {:induction false} SubmitAllTransfers(e: Engine, k: nat, answers: seq<(Submit, Submit)>, plugin: seq<Gaps>)
    requires e.Ok() && e.running && !e.usb.stopped && Accounts(e) && k <= |answers| && k <= |plugin|
    requires e.usb.inFlight == {} && e.usb.outFlight == {}
    ensures Opening(e, SubmitAll(e, k, answers, plugin), k)
  {
    if k == 0 {
      NothingSubmitted(e);
    } else {
      SubmitAllTransfers(e, k - 1, answers, plugin);
      PairTransfers(e, SubmitAll(e, k - 1, answers, plugin), k - 1, answers[k - 1], plugin[k - 1]);
    }
  }

  lemma ReturnOne(s: set<nat>, i: nat)
    requires i in s
    ensures |s - {i}| == |s| - 1 && s - {i} + {i} == s
  {
    assert s - {i} + {i} == s;
  }

  /** A transfer that came back from libusb and was counted goes out again, or the engine stops. */
  lemma ResubmitIn(e: Engine, counted: Engine, i: nat, answer: Submit)
    requires e.Ok() && Transfers(e, NUM_XFERS) && i in e.usb.inFlight
    requires counted.Ok() && counted.running == e.running
    requires counted.usb == e.usb.(inFlight := e.usb.inFlight - {i})
    requires counted.inCompletions + counted.inErrors == e.inCompletions + e.inErrors + 1
    requires counted.outCompletions == e.outCompletions && counted.outErrors == e.outErrors
    ensures Transfers(SubmitIn(counted, i, answer), NUM_XFERS)
  {
    ReturnOne(e.usb.inFlight, i);
    SubmitInTransfers(counted, i, answer);
  }

  lemma ResubmitOut(e: Engine, counted: Engine, i: nat, answer: Submit, gaps: Gaps)
    requires e.Ok() && Transfers(e, NUM_XFERS) && i in e.usb.outFlight
    requires counted.Ok() && counted.running == e.running
    requires counted.usb == e.usb.(outFlight := e.usb.outFlight - {i})
    requires counted.outCompletions + counted.outErrors == e.outCompletions + e.outErrors + 1
    requires counted.inCompletions == e.inCompletions && counted.inErrors == e.inErrors
    ensures Transfers(SubmitOut(counted, i, answer, gaps), NUM_XFERS)
  {
    ReturnOne(e.usb.outFlight, i);
    SubmitOutTransfers(counted, i, answer, gaps);
  }

  /** The engine once the packets of a completed transfer are stored. */
  function Stored(e: Engine, i: nat, packets: seq<Packet>, turns: seq<seq<Op>>): (t: Engine)
    requires e.Ok() && |turns| == |packets|
    ensures t.Ok()
  {
    e.(inCompletions := e.inCompletions + 1, usb := e.usb.(inFlight := e.usb.inFlight - {i}),
       inRing := Run(e.inRing, Weave(packets, turns)), sampleCount := e.sampleCount + Frames(Payloads(packets)))
  }

  lemma HandleInDone(e: Engine, i: nat, status: Status, packets: seq<Packet>, turns: seq<seq<Op>>, answer: Submit)
    requires e.Ok() && |turns| == |packets| && status.Done()
    ensures HandleIn(e, i, status, packets, turns, answer) == SubmitIn(Stored(e, i, packets, turns), i, answer)
  {
    var back := e.(usb := e.usb.(inFlight := e.usb.inFlight - {i}));
    StoreEffect(back.(inCompletions := e.inCompletions + 1), packets, turns);
  }

  /**
   One IN callback with any status and any answer to the resubmission. It keeps "running means every
   transfer is in flight" exactly when it is not a cancellation nobody asked for.
   */
  lemma HandleInTransfers(e: Engine, i: nat, status: Status, packets: seq<Packet>, turns: seq<seq<Op>>, answer: Submit)
    requires e.Ok() && Transfers(e, NUM_XFERS) && i in e.usb.inFlight && |turns| == |packets|
    ensures var t := HandleIn(e, i, status, packets, turns, answer);
            Accounts(t) && (Flights(t, NUM_XFERS) <==> !(e.running && status.Cancelled?))
  {
    if status.Done() {
      HandleInDone(e, i, status, packets, turns, answer);
      ResubmitIn(e, Stored(e, i, packets, turns), i, answer);
    } else if status.Failed? {
      ResubmitIn(e, e.(inErrors := e.inErrors + 1, usb := e.usb.(inFlight := e.usb.inFlight - {i})), i, answer);
    }
  }

  lemma HandleOutTransfers(e: Engine, i: nat, status: Status, answer: Submit, gaps: Gaps)
    requires e.Ok() && Transfers(e, NUM_XFERS) && i in e.usb.outFlight
    ensures var t := HandleOut(e, i, status, answer, gaps);
            Accounts(t) && (Flights(t, NUM_XFERS) <==> !(e.running && status.Cancelled?))
  {
    if status.Cancelled? || status.NoDevice? {
      DroppedOut(e, i, status);
    } else {
      ResubmitOut(e, OutBack(e, i, status), i, answer, gaps);
    }
  }

  lemma DroppedOut(e: Engine, i: nat, status: Status)
    requires e.Ok() && Transfers(e, NUM_XFERS) && i in e.usb.outFlight && (status.Cancelled? || status.NoDevice?)
    ensures var t := OutBack(e, i, status);
            Accounts(t) && (Flights(t, NUM_XFERS) <==> !(e.running && status.Cancelled?))
  {
    ReturnOne(e.usb.outFlight, i);
  }

  // ---- The rings under the same entry points ----

  lemma OutWriteKeepsRings(e: Engine, data: seq<byte>)
    requires e.Ok() && Rings(e)
    ensures Rings(e.(outRing := e.outRing.Publish(data)))
  {
    WriteEffect(e.outRing, data, 0);
    PublishKeepsReadBy(e.outRing, data, e.usb.fills);
  }

  /** What one submission of an OUT transfer keeps: at most one filling, and a refused one stops the engine. */
  lemma SubmitOutRings(e: Engine, i: nat, answer: Submit, gaps: Gaps)
    requires e.Ok() && Rings(e) && Refusals(e) && |gaps| == PACKETS_PER_XFER
    ensures var t := SubmitOut(e, i, answer, gaps);
            && Rings(t) && Refusals(t) && |t.usb.fills| <= |e.usb.fills| + 1
            && t.outRing.bytes == e.outRing.bytes + Flat(gaps)
  {
    if e.running {
      FillKeepsReadBy(e.outRing, e.usb.fills, i, gaps, answer.Ok());
      OneMore(e.usb.fills, FillFrom(e.outRing, i, gaps, answer.Ok()));
    } else {
      OutWriteKeepsRings(e, Flat(gaps));
    }
  }

  /** The rings after some pairs of submissions during which the plugin wrote `written`. */
  predicate Advanced(e: Engine, t: Engine, n: nat, written: seq<byte>)
    requires e.Ok() && t.Ok()
  {
    && Rings(t) && Refusals(t) && |t.usb.fills| <= |e.usb.fills| + n
    && t.outRing.bytes == e.outRing.bytes + written
  }

  lemma AdvancePair(e: Engine, m: Engine, n: nat, written: seq<byte>, i: nat, answer: (Submit, Submit), gaps: Gaps)
    requires e.Ok() && m.Ok() && Advanced(e, m, n, written) && |gaps| == PACKETS_PER_XFER
    ensures Advanced(e, SubmitPair(m, i, answer, gaps), n + 1, written + Flat(gaps))
  {
    SubmitOutRings(SubmitIn(m, i, answer.0), i, answer.1, gaps);
    Associative(e.outRing.bytes, written, Flat(gaps));
  }

  lemma {:induction false} SubmitAllRings(e: Engine, k: nat, answers: seq<(Submit, Submit)>, plugin: seq<Gaps>)
    requires e.Ok() && Rings(e) && Refusals(e) && k <= |answers| && k <= |plugin|
    requires forall gaps <- plugin :: |gaps| == PACKETS_PER_XFER
    ensures Advanced(e, SubmitAll(e, k, answers, plugin), k, FlatAll(plugin[..k]))
  {
    if k == 0 {
      assert e.outRing.bytes + [] == e.outRing.bytes;
    } else {
      var i, written := k - 1, FlatAll(plugin[..k - 1]);
      SubmitAllRings(e, i, answers, plugin);
      FlatAllOneMore(plugin, i);
      AdvancePair(e, SubmitAll(e, i, answers, plugin), i, written, i, answers[i], plugin[i]);
    }
  }

  lemma {:induction false} PlanOfTransfers(wp: nat, plugin: seq<Gaps>)
    requires PlanFits(wp, plugin)
    ensures forall gaps <- plugin :: |gaps| == PACKETS_PER_XFER
  {
    if plugin != [] {
      PlanOfTransfers(wp, plugin[..|plugin| - 1]);
    }
  }

  /** An IN callback leaves the OUT side alone. */
  predicate SameOut(e: Engine, t: Engine) {
    && t.outRing == e.outRing && t.outCompletions == e.outCompletions && t.outErrors == e.outErrors
    && t.usb.starts == e.usb.starts && t.usb.fills == e.usb.fills && t.usb.outSubmitted == e.usb.outSubmitted
    && (t.running ==> e.running)
  }

  lemma HandleInOut(e: Engine, i: nat, status: Status, packets: seq<Packet>, turns: seq<seq<Op>>, answer: Submit)
    requires e.Ok() && |turns| == |packets|
    ensures SameOut(e, HandleIn(e, i, status, packets, turns, answer))
  {
    if status.Done() {
      HandleInDone(e, i, status, packets, turns, answer);
    }
  }

  lemma HandleInData(e: Engine, i: nat, status: Status, packets: seq<Packet>, turns: seq<seq<Op>>, answer: Submit)
    requires e.Ok() && |turns| == |packets|
    ensures var t := HandleIn(e, i, status, packets, turns, answer);
            && t.inRing == (if status.Done() then Run(e.inRing, Weave(packets, turns)) else e.inRing)
            && t.sampleCount == e.sampleCount + (if status.Done() then Frames(Payloads(packets)) else 0)
  {
    if status.Done() {
      HandleInDone(e, i, status, packets, turns, answer);
    }
  }

  lemma HandleInRings(e: Engine, i: nat, status: Status, packets: seq<Packet>, turns: seq<seq<Op>>, answer: Submit)
    requires e.Ok() && Rings(e) && Refusals(e) && |turns| == |packets|
    ensures Rings(HandleIn(e, i, status, packets, turns, answer))
    ensures Refusals(HandleIn(e, i, status, packets, turns, answer))
  {
    HandleInOut(e, i, status, packets, turns, answer);
    HandleInData(e, i, status, packets, turns, answer);
    if status.Done() {
      RunEffect(e.inRing, Weave(packets, turns), 0);
    }
  }

  lemma HandleOutRings(e: Engine, i: nat, status: Status, answer: Submit, gaps: Gaps)
    requires e.Ok() && Rings(e) && Refusals(e) && |gaps| == PACKETS_PER_XFER && |e.usb.fills| <= Credit(e)
    ensures var t := HandleOut(e, i, status, answer, gaps);
            && Rings(t) && Refusals(t) && |t.usb.fills| <= Credit(t)
            && t.outRing.bytes == e.outRing.bytes + Flat(gaps)
            && t.inRing == e.inRing && t.sampleCount == e.sampleCount && t.usb.starts == e.usb.starts
  {
    if status.Cancelled? || status.NoDevice? {
      OutWriteKeepsRings(OutBack(e, i, status), Flat(gaps));
    } else {
      SubmitOutRings(OutBack(e, i, status), i, answer, gaps);
    }
  }

  // ---- Every event keeps the invariant ----

  /** The plugin's side of the OUT ring. */
  lemma OutWriteKeepsInv(e: Engine, data: seq<byte>)
    requires Inv(e)
    ensures Inv(e.(outRing := e.outRing.Publish(data)))
  {
    OutWriteKeepsRings(e, data);
  }

  lemma StartKeepsInv(e: Engine, allocs: nat, answers: seq<(Submit, Submit)>, plugin: seq<Gaps>)
    requires Inv(e) && Enabled(e, Begin(allocs, answers, plugin))
    ensures Inv(Start(e, allocs, answers, plugin))
  {
    if e.running || allocs < ALLOCATIONS {
      OutWriteKeepsInv(e, FlatAll(plugin));
    } else {
      OpenedKeepsInv(e, answers, plugin);
    }
  }

  lemma OpenedKeepsInv(e: Engine, answers: seq<(Submit, Submit)>, plugin: seq<Gaps>)
    requires Inv(e) && !e.running && Enabled(e, Begin(ALLOCATIONS, answers, plugin))
    ensures Inv(SubmitAll(Opened(e), NUM_XFERS, answers, plugin))
  {
    PlanOfTransfers(e.outRing.Wp(), plugin);
    SubmitAllTransfers(Opened(e), NUM_XFERS, answers, plugin);
    SubmitAllRings(Opened(e), NUM_XFERS, answers, plugin);
  }

  lemma InDoneKeepsInv(e: Engine, i: nat, status: Status, packets: seq<Packet>, turns: seq<seq<Op>>, answer: Submit)
    requires Inv(e) && Enabled(e, InDone(i, status, packets, turns, answer))
    ensures Inv(HandleIn(e, i, status, packets, turns, answer))
  {
    HandleInTransfers(e, i, status, packets, turns, answer);
    HandleInRings(e, i, status, packets, turns, answer);
    HandleInSessions(e, i, status, packets, turns, answer);
    HandleInOut(e, i, status, packets, turns, answer);
  }

  lemma HandleInSessions(e: Engine, i: nat, status: Status, packets: seq<Packet>, turns: seq<seq<Op>>, answer: Submit)
    requires e.Ok() && Sessions(e) && i in e.usb.inFlight && |turns| == |packets|
    requires e.running ==> !status.Cancelled?
    ensures Sessions(HandleIn(e, i, status, packets, turns, answer))
  {
    if status.Done() {
      HandleInDone(e, i, status, packets, turns, answer);
    }
  }

  lemma OutDoneKeepsInv(e: Engine, i: nat, status: Status, answer: Submit, gaps: Gaps)
    requires Inv(e) && Enabled(e, OutDone(i, status, answer, gaps))
    ensures Inv(HandleOut(e, i, status, answer, gaps))
  {
    HandleOutTransfers(e, i, status, answer, gaps);
    HandleOutRings(e, i, status, answer, gaps);
  }

  /** The plugin's side of the IN ring. */
  lemma InOpKeepsInv(e: Engine, op: Op)
    requires Inv(e)
    ensures Inv(e.(inRing := Apply(e.inRing, op)))
  {
    ApplyKeepsSound(e.inRing, op, 0);
  }

  lemma StopKeepsInv(e: Engine)
    requires Inv(e)
    ensures Inv(Stop(e))
  {
  }

  lemma NextKeepsInv(e: Engine, ev: Event)
    requires Inv(e) && Enabled(e, ev)
    ensures Inv(Next(e, ev))
  {
    match ev
    case Begin(allocs, answers, plugin) => StartKeepsInv(e, allocs, answers, plugin);
    case Halt => StopKeepsInv(e);
    case InDone(i, status, packets, turns, answer) => InDoneKeepsInv(e, i, status, packets, turns, answer);
    case OutDone(i, status, answer, gaps) => OutDoneKeepsInv(e, i, status, answer, gaps);
    case PluginConnect => InOpKeepsInv(e, Sync);
    case PluginRead(max) => InOpKeepsInv(e, Read(max));
    case PluginWrite(data) => OutWriteKeepsInv(e, data);
  }

  lemma {:induction false} RunKeepsInv(e: Engine, es: seq<Event>)
    requires Inv(e) && Feasible(e, es)
    ensures Inv(Final(e, es))
  {
    if es != [] {
      RunKeepsInv(e, es[..|es| - 1]);
      NextKeepsInv(Final(e, es[..|es| - 1]), es[|es| - 1]);
    }
  }

  lemma InitialInv()
    ensures Inv(INITIAL)
  {
  }
}
