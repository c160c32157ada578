/** From the samples the device sends to the samples the plugin can decode, byte by byte through the IN ring. */
module EndToEnd {
  import opened Protocol
  import opened Ledger
  import opened Interleaving
  import opened Discipline
  import opened EngineModel
  import opened EngineRuns
  import opened EngineTheorems
  import opened Bursts
  import opened Codec

  /** Every packet that arrives and every plugin buffer is a whole number of frames. */
  predicate FramedMove(v: Move) {
    match v
    case Complete(packets) => AllWhole(Payloads(packets))
    case NextPacket => true
    case Move(a) => a.BeginRead? ==> WholeFrames(a.max)
  }

  predicate FramedMoves(vs: seq<Move>) {
    vs == [] || (FramedMoves(vs[..|vs| - 1]) && FramedMove(vs[|vs| - 1]))
  }

  predicate FramedSystem(s: System) {
    FrameInv(s.m) && AllWhole(s.todo)
  }

  lemma FramedStep(s: System, v: Move)
    requires s.m.Ordered() && FramedSystem(s) && Legal(s, v) && FramedMove(v)
    ensures FramedSystem(Play(s, v))
  {
    match v
    case Complete(_) =>
    case NextPacket =>
      assert s.todo[0] in s.todo;
      StepKeepsFrames(s.m, BeginWrite(s.todo[0]));
    case Move(a) =>
      StepKeepsFrames(s.m, a);
  }

  /** Both counters of the IN ring stay on frame boundaries through every interleaving, laps and connections. */
  lemma {:induction false} FramedRun(s: System, vs: seq<Move>)
    requires s.m.Ordered() && FramedSystem(s) && AllLegal(s, vs) && FramedMoves(vs)
    ensures FramedSystem(PlayAll(s, vs))
  {
    if vs != [] {
      FramedRun(s, vs[..|vs| - 1]);
      FramedStep(PlayAll(s, vs[..|vs| - 1]), vs[|vs| - 1]);
    }
  }

  lemma FramedSession(before: seq<Move>, after: seq<Move>)
    requires AllLegal(FRESH, before) && FramedMoves(before)
    requires AllLegal(Connecting(before), after) && FramedMoves(after)
    ensures FramedSystem(PlayAll(FRESH, before)) && FramedSystem(PlayAll(Connecting(before), after))
  {
    FramedRun(FRESH, before);
    FramedStep(PlayAll(FRESH, before), Move(BeginSync));
    FramedRun(Connecting(before), after);
  }

  /** The position in samples of a byte position on a frame boundary. */
  function SamplePosition(bytes: nat): (n: nat)
    requires WholeFrames(bytes)
    ensures 3 * n == bytes
  {
    bytes / FRAME_SIZE * CHANNELS
  }

  /**
   Let the device send `samples` in whole-frame packets, so that the engine run es makes them its IN stream. Let
   the plugin, against the same completions taken apart byte by byte, connect anywhere, read whole frames and be
   prompt from the connection on. What it then receives decodes to exactly the samples from the connection to
   its read position.
   */
  lemma SamplesArriveIntact(es: seq<Event>, before: seq<Move>, after: seq<Move>, samples: seq<int>)
    returns (received: seq<byte>)
    requires Feasible(INITIAL, es) && Completions(Session(before, after)) == StoredBy(es)
    requires Final(INITIAL, es).inRing.bytes == Encode(samples) && forall v <- samples :: InRange(v)
    requires AllLegal(FRESH, before) && FramedMoves(before) && PlayAll(FRESH, before).m.cons.Waiting?
    requires AllLegal(Connecting(before), after) && FramedMoves(after) && Prompt(Connecting(before), after)
    requires !PlayAll(Connecting(before), after).m.cons.Syncing?
    ensures var s, m := PlayAll(FRESH, before).m, PlayAll(Connecting(before), after).m;
            && Delivered(m.log) == Delivered(s.log) + received
            && WholeFrames(s.wp) && WholeFrames(m.rp) && |received| % 3 == 0
            && var lo, hi := SamplePosition(s.wp), SamplePosition(m.rp);
               lo <= hi <= |samples| && Decode(received) == samples[lo..hi]
  {
    var s, m := PlayAll(FRESH, before).m, PlayAll(Connecting(before), after).m;
    InStream(es);
    HeardIsPublished(Session(before, after), es);
    FramedSession(before, after);
    PluginHearsTheDevice(before, after);
    var lo, hi := SamplePosition(s.wp), SamplePosition(m.rp);
    DecodeSlice(samples, lo, hi);
    received := Encode(samples[lo..hi]);
  }
}
