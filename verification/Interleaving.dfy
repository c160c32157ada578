/**
 One producer and one consumer on one ring, taken apart into the steps that can interleave: loads and
 stores of the counters, and single byte copies. A schedule is any sequence of actions; an action whose
 thread is not at that point of its call, or that begins a write too long for the two-chunk copy, leaves the
 machine unchanged.
 */
module Interleaving {
  import opened Protocol
  import opened Ledger
  import opened Window

  datatype Producer =
    | Resting
    | Copying(start: nat, data: seq<byte>, done: nat)    // inside shm_ring_write, done bytes copied

  datatype Consumer =
    | Waiting
    | SawWp(seen: nat, max: nat)                          // loaded write_pos
    | SawBoth(seen: nat, at: nat, max: nat)               // loaded read_pos too
    | Reading(at: nat, n: nat, dst: seq<byte>, fronts: seq<nat>)
    | Syncing(seen: nat)                                  // loaded write_pos, about to store it as read_pos

  /**
   stream is every byte handed to a producer call that has begun, in-flight ones included. sources runs
   beside log: for each byte of a read, the producer's copy frontier at the step that copied it out.
   */
  datatype Machine = Machine(
    ring: seq<byte>, wp: nat, rp: nat, prod: Producer, cons: Consumer,
    stream: seq<byte>, log: seq<Entry>, sources: seq<seq<nat>>)
  {
    /** How far the producer has copied, published or not. */
    function Frontier(): nat {
      if prod.Copying? then prod.start + prod.done else wp
    }

    /** The counters are ordered and what a thread has loaded is still a sound bound. */
    predicate Ordered() {
      && |ring| == RING_BYTES && rp <= wp
      && (prod.Copying? ==> prod.start == wp && prod.done <= |prod.data| <= 2 * RING_BYTES - Slot(wp))
      && match cons
         case Waiting => true
         case SawWp(seen, _) => rp <= seen <= wp
         case SawBoth(seen, at, _) => at == rp <= seen <= wp
         case Reading(at, n, dst, fronts) =>
           at == rp && rp + n <= wp && |dst| == |fronts| <= n <= RING_BYTES
         case Syncing(seen) => rp <= seen <= wp
    }
  }

  datatype Action =
    | BeginWrite(data: seq<byte>) | CopyIn | Publish
    | BeginRead(max: nat) | LoadRp | Check | CopyOut | Retire
    | BeginSync | EndSync
  {
    predicate OfProducer() {
      BeginWrite? || CopyIn? || Publish?
    }
  }

  const IDLE: Machine := Machine(Silence(RING_BYTES), 0, 0, Resting, Waiting, [], [], [])

  function ProducerStep(m: Machine, a: Action): (t: Machine)
    requires m.Ordered() && a.OfProducer()
    ensures t.Ordered() && t.cons == m.cons && t.rp == m.rp && m.wp <= t.wp
  {
    match (a, m.prod)
    case (BeginWrite(data), Resting) =>
      if |data| <= 2 * RING_BYTES - Slot(m.wp) then
        m.(prod := Copying(m.wp, data, 0), stream := m.stream + data)
      else m
    case (CopyIn, Copying(start, data, done)) =>
      if done < |data| then
        CopySlotIsSlot(start, |data|, done);
        m.(ring := m.ring[CopySlot(start, |data|, done) := data[done]], prod := m.prod.(done := done + 1))
      else m
    case (Publish, Copying(start, data, done)) =>
      if done == |data| then m.(wp := start + |data|, prod := Resting) else m
    case _ => m
  }

  function ConsumerStep(m: Machine, a: Action): (t: Machine)
    requires m.Ordered() && !a.OfProducer()
    ensures t.Ordered() && t.prod == m.prod && t.wp == m.wp && m.rp <= t.rp
    ensures t.ring == m.ring && t.stream == m.stream
  {
    match (a, m.cons)
    case (BeginRead(max), Waiting) => m.(cons := SawWp(m.wp, max))
    case (LoadRp, SawWp(seen, max)) => m.(cons := SawBoth(seen, m.rp, max))
    case (Check, SawBoth(seen, at, max)) =>
      var available := seen - at;
      if available > RING_BYTES then
        m.(rp := seen, cons := Waiting, log := m.log + [Lap(at, seen)], sources := m.sources + [[]])
      else if available == 0 then
        m.(cons := Waiting)
      else
        m.(cons := Reading(at, Min(available, max), [], []))
    case (CopyOut, Reading(at, n, dst, fronts)) =>
      if |dst| < n then
        CopySlotIsSlot(at, n, |dst|);
        m.(cons := Reading(at, n, dst + [m.ring[CopySlot(at, n, |dst|)]], fronts + [m.Frontier()]))
      else m
    case (Retire, Reading(at, n, dst, fronts)) =>
      if |dst| == n then
        m.(rp := at + n, cons := Waiting, log := m.log + [Got(at, dst)], sources := m.sources + [fronts])
      else m
    case (BeginSync, Waiting) => m.(cons := Syncing(m.wp))
    case (EndSync, Syncing(seen)) =>
      m.(rp := seen, cons := Waiting, log := m.log + [Resync(m.rp, seen)], sources := m.sources + [[]])
    case _ => m
  }

  function Step(m: Machine, a: Action): (t: Machine)
    requires m.Ordered()
    ensures t.Ordered()
  {
    if a.OfProducer() then ProducerStep(m, a) else ConsumerStep(m, a)
  }

  function Run(m: Machine, schedule: seq<Action>): (t: Machine)
    requires m.Ordered()
    ensures t.Ordered()
  {
    if schedule == [] then m else Step(Run(m, schedule[..|schedule| - 1]), schedule[|schedule| - 1])
  }

  // ---- What holds in every schedule ----

  /** Each byte is the latest stream byte its slot had received when it was copied out. */
  ghost predicate Sourced(stream: seq<byte>, from: nat, bytes: seq<byte>, fronts: seq<nat>) {
    && |fronts| == |bytes|
    && forall j :: 0 <= j < |bytes| ==>
         from + j < fronts[j] <= |stream| && bytes[j] == stream[Latest(from + j, fronts[j])]
  }

  ghost predicate LogSourced(stream: seq<byte>, log: seq<Entry>, sources: seq<seq<nat>>) {
    && |sources| == |log|
    && forall i :: 0 <= i < |log| && log[i].Got? ==> Sourced(stream, log[i].from, log[i].bytes, sources[i])
  }

  ghost predicate ProducerInv(m: Machine)
    requires m.Ordered()
  {
    && |m.stream| == m.wp + (if m.prod.Copying? then |m.prod.data| else 0)
    && (m.prod.Copying? ==> m.prod.data == m.stream[m.wp..])
    && Holds(m.ring, m.stream, m.Frontier())
  }

  ghost predicate ConsumerInv(m: Machine)
    requires m.Ordered()
  {
    && Tiles(m.log, 0, m.rp)
    && LogSourced(m.stream, m.log, m.sources)
    && (m.cons.Reading? ==> Sourced(m.stream, m.cons.at, m.cons.dst, m.cons.fronts))
  }

  ghost predicate Inv(m: Machine) {
    m.Ordered() && ProducerInv(m) && ConsumerInv(m)
  }

  lemma SourcedGrows(stream: seq<byte>, more: seq<byte>, from: nat, bytes: seq<byte>, fronts: seq<nat>)
    requires Sourced(stream, from, bytes, fronts)
    ensures Sourced(stream + more, from, bytes, fronts)
  {
  }

  lemma LogSourcedGrows(stream: seq<byte>, more: seq<byte>, log: seq<Entry>, sources: seq<seq<nat>>)
    requires LogSourced(stream, log, sources)
    ensures LogSourced(stream + more, log, sources)
  {
    forall i | 0 <= i < |log| && log[i].Got?
      ensures Sourced(stream + more, log[i].from, log[i].bytes, sources[i])
    {
      SourcedGrows(stream, more, log[i].from, log[i].bytes, sources[i]);
    }
  }

  lemma BeginWriteKeepsInv(m: Machine, data: seq<byte>)
    requires Inv(m) && m.prod.Resting?
    ensures Inv(ProducerStep(m, BeginWrite(data)))
  {
    StreamGrows(m.ring, m.stream, m.wp, data);
    LogSourcedGrows(m.stream, data, m.log, m.sources);
    if m.cons.Reading? {
      SourcedGrows(m.stream, data, m.cons.at, m.cons.dst, m.cons.fronts);
    }
  }

  lemma CopyInKeepsInv(m: Machine)
    requires Inv(m) && m.prod.Copying? && m.prod.done < |m.prod.data|
    ensures Inv(ProducerStep(m, CopyIn))
  {
    CopySlotIsSlot(m.prod.start, |m.prod.data|, m.prod.done);
    CopyByte(m.ring, m.stream, m.Frontier());
  }

  lemma ProducerStepKeepsInv(m: Machine, a: Action)
    requires Inv(m) && a.OfProducer()
    ensures Inv(ProducerStep(m, a))
  {
    if a.BeginWrite? && m.prod.Resting? {
      BeginWriteKeepsInv(m, a.data);
    } else if a.CopyIn? && m.prod.Copying? && m.prod.done < |m.prod.data| {
      CopyInKeepsInv(m);
    }
  }

  /** The consumer never touches what the producer's half of the invariant speaks of. */
  lemma ConsumerStepKeepsProducerInv(m: Machine, a: Action)
    requires m.Ordered() && ProducerInv(m) && !a.OfProducer()
    ensures ProducerInv(ConsumerStep(m, a))
  {
  }

  /** Closing one read, lap or resync keeps the ledger in order. */
  lemma LogStep(m: Machine, e: Entry, fronts: seq<nat>)
    requires m.Ordered() && ConsumerInv(m) && e.from == m.rp <= e.Upto()
    requires e.Lap? ==> e.upto > e.from + RING_BYTES
    requires e.Got? ==> Sourced(m.stream, e.from, e.bytes, fronts)
    ensures Tiles(m.log + [e], 0, e.Upto())
    ensures LogSourced(m.stream, m.log + [e], m.sources + [fronts])
  {
    AppendTiles(m.log, e, 0);
  }

  lemma SourcedOneMore(stream: seq<byte>, from: nat, bytes: seq<byte>, fronts: seq<nat>, value: byte, front: nat)
    requires Sourced(stream, from, bytes, fronts)
    requires from + |bytes| < front <= |stream| && value == stream[Latest(from + |bytes|, front)]
    ensures Sourced(stream, from, bytes + [value], fronts + [front])
  {
  }

  lemma CopyOutKeepsInv(m: Machine)
    requires Inv(m) && m.cons.Reading? && |m.cons.dst| < m.cons.n
    ensures ConsumerInv(ConsumerStep(m, CopyOut))
  {
    var q := m.cons.at + |m.cons.dst|;
    CopySlotIsSlot(m.cons.at, m.cons.n, |m.cons.dst|);
    SlotHoldsLatest(m.ring, m.stream, m.Frontier(), q);
    SourcedOneMore(m.stream, m.cons.at, m.cons.dst, m.cons.fronts, m.ring[Slot(q)], m.Frontier());
  }

  /** Every consumer step but the byte copy, which looks at the ring. */
  lemma BookkeepingKeepsInv(m: Machine, a: Action)
    requires m.Ordered() && ConsumerInv(m) && !a.OfProducer() && !a.CopyOut?
    ensures ConsumerInv(ConsumerStep(m, a))
  {
    match (a, m.cons)
    case (Check, SawBoth(seen, at, max)) =>
      if seen - at > RING_BYTES {
        LogStep(m, Lap(at, seen), []);
      }
    case (Retire, Reading(at, n, dst, fronts)) =>
      LogStep(m, Got(at, dst), fronts);
    case (EndSync, Syncing(seen)) =>
      LogStep(m, Resync(m.rp, seen), []);
    case _ =>
  }

  lemma ConsumerStepKeepsInv(m: Machine, a: Action)
    requires Inv(m) && !a.OfProducer()
    ensures Inv(ConsumerStep(m, a))
  {
    ConsumerStepKeepsProducerInv(m, a);
    if !a.CopyOut? {
      BookkeepingKeepsInv(m, a);
    } else if m.cons.Reading? && |m.cons.dst| < m.cons.n {
      CopyOutKeepsInv(m);
    }
  }

  lemma StepKeepsInv(m: Machine, a: Action)
    requires Inv(m)
    ensures Inv(Step(m, a))
  {
    if a.OfProducer() {
      ProducerStepKeepsInv(m, a);
    } else {
      ConsumerStepKeepsInv(m, a);
    }
  }

  lemma {:induction false} InvKept(m: Machine, schedule: seq<Action>)
    requires Inv(m)
    ensures Inv(Run(m, schedule))
  {
    if schedule != [] {
      InvKept(m, schedule[..|schedule| - 1]);
      StepKeepsInv(Run(m, schedule[..|schedule| - 1]), schedule[|schedule| - 1]);
    }
  }

  lemma Reachable(schedule: seq<Action>)
    ensures Inv(Run(IDLE, schedule))
  {
    InvKept(IDLE, schedule);
  }

  /**
   Byte j of a read at `from`, meant to be stream position q, is the byte of position q + laps * RING_BYTES:
   the latest of q's slot that the producer had copied in. It is q's own byte exactly when the producer's
   frontier was not yet past q + RING_BYTES at the step that copied it out.
   */
  ghost predicate FromLap(stream: seq<byte>, from: nat, bytes: seq<byte>, fronts: seq<nat>, j: nat, laps: nat)
    requires j < |bytes| == |fronts|
  {
    var q, front := from + j, fronts[j];
    && q + laps * RING_BYTES < front <= q + (laps + 1) * RING_BYTES && front <= |stream|
    && bytes[j] == stream[q + laps * RING_BYTES]
    && (laps == 0 <==> front <= q + RING_BYTES)
  }

  ghost predicate ByteFromSomeLap(stream: seq<byte>, from: nat, bytes: seq<byte>, fronts: seq<nat>, j: nat)
    requires j < |bytes| == |fronts|
  {
    exists laps: nat :: FromLap(stream, from, bytes, fronts, j, laps)
  }

  ghost predicate FromSomeLap(stream: seq<byte>, from: nat, bytes: seq<byte>, fronts: seq<nat>) {
    && |fronts| == |bytes|
    && forall j :: 0 <= j < |bytes| ==> ByteFromSomeLap(stream, from, bytes, fronts, j)
  }

  lemma SourcedFromSomeLap(stream: seq<byte>, from: nat, bytes: seq<byte>, fronts: seq<nat>)
    requires Sourced(stream, from, bytes, fronts)
    ensures FromSomeLap(stream, from, bytes, fronts)
  {
    forall j | 0 <= j < |bytes|
      ensures ByteFromSomeLap(stream, from, bytes, fronts, j)
    {
      var q, f := from + j, fronts[j];
      var laps := LatestFacts(q, f);
      assert FromLap(stream, from, bytes, fronts, j, laps);
    }
  }

  /**
   What a torn read can and cannot return: in every schedule, each byte a read delivered for stream
   position q comes from q's slot on this lap or a later one, and m.sources[i][j] says which.
   */
  lemma TornReads(schedule: seq<Action>, i: nat)
    requires i < |Run(IDLE, schedule).log| && Run(IDLE, schedule).log[i].Got?
    ensures var m := Run(IDLE, schedule);
            i < |m.sources| && FromSomeLap(m.stream, m.log[i].from, m.log[i].bytes, m.sources[i])
  {
    Reachable(schedule);
    var m := Run(IDLE, schedule);
    assert LogSourced(m.stream, m.log, m.sources);
    SourcedFromSomeLap(m.stream, m.log[i].from, m.log[i].bytes, m.sources[i]);
  }

  /** Under any interleaving no published byte is lost unaccounted, and laps stay rare. */
  lemma ConservationUnderInterleaving(schedule: seq<Action>)
    ensures var m := Run(IDLE, schedule);
            && |Delivered(m.log)| + Skipped(m.log) + (m.wp - m.rp) == m.wp
            && Laps(m.log) * (RING_BYTES + 1) <= m.rp <= m.wp <= |m.stream|
  {
    Reachable(schedule);
    var m := Run(IDLE, schedule);
    Conservation(m.log, 0, m.rp);
    LapBound(m.log, 0, m.rp);
  }

  // ---- What the consumer takes ----

  /** The limits of all reads a schedule begins, added up. */
  function Asked(m: Machine, schedule: seq<Action>): nat
    requires m.Ordered()
  {
    if schedule == [] then 0
    else
      var t, a := Run(m, schedule[..|schedule| - 1]), schedule[|schedule| - 1];
      Asked(m, schedule[..|schedule| - 1]) + if a.BeginRead? && t.cons.Waiting? then a.max else 0
  }

  /** What the read under way may still deliver. */
  function Pending(c: Consumer): nat {
    match c
    case SawWp(_, max) => max
    case SawBoth(_, _, max) => max
    case Reading(_, n, _, _) => n
    case _ => 0
  }

  lemma StepTakes(m: Machine, a: Action)
    requires m.Ordered()
    ensures var t := Step(m, a);
            |Delivered(t.log)| + Pending(t.cons)
            <= |Delivered(m.log)| + Pending(m.cons) + if a.BeginRead? && m.cons.Waiting? then a.max else 0
  {
    match (a, m.cons)
    case (Check, SawBoth(seen, at, _)) => Append(m.log, Lap(at, seen));
    case (Retire, Reading(at, _, dst, _)) => Append(m.log, Got(at, dst));
    case (EndSync, Syncing(seen)) => Append(m.log, Resync(m.rp, seen));
    case _ =>
  }

  lemma {:induction false} DeliveredWithinAsked(schedule: seq<Action>)
    ensures var m := Run(IDLE, schedule); |Delivered(m.log)| + Pending(m.cons) <= Asked(IDLE, schedule)
  {
    if schedule != [] {
      DeliveredWithinAsked(schedule[..|schedule| - 1]);
      StepTakes(Run(IDLE, schedule[..|schedule| - 1]), schedule[|schedule| - 1]);
    }
  }

  /** Under any interleaving the read position, apart from skips, moves by at most what the reads asked for. */
  lemma ConsumptionUnderInterleaving(schedule: seq<Action>)
    ensures var m := Run(IDLE, schedule); m.rp - Skipped(m.log) <= Asked(IDLE, schedule)
  {
    Reachable(schedule);
    DeliveredWithinAsked(schedule);
    var m := Run(IDLE, schedule);
    Conservation(m.log, 0, m.rp);
  }

  /** The reads a schedule begins. */
  function ReadsBegun(m: Machine, schedule: seq<Action>): nat
    requires m.Ordered()
  {
    if schedule == [] then 0
    else
      var t, a := Run(m, schedule[..|schedule| - 1]), schedule[|schedule| - 1];
      ReadsBegun(m, schedule[..|schedule| - 1]) + if a.BeginRead? && t.cons.Waiting? then 1 else 0
  }

  lemma {:induction false} AskedForPackets(m: Machine, schedule: seq<Action>)
    requires m.Ordered() && forall a <- schedule :: a.BeginRead? ==> a.max == PACKET_SIZE
    ensures Asked(m, schedule) == PACKET_SIZE * ReadsBegun(m, schedule)
  {
    if schedule != [] {
      AskedForPackets(m, schedule[..|schedule| - 1]);
    }
  }

  /** So an engine that has begun the packet reads of n OUT transfers has taken at most n transfers. */
  lemma TransfersUnderInterleaving(schedule: seq<Action>, n: nat)
    requires forall a <- schedule :: a.BeginRead? ==> a.max == PACKET_SIZE
    requires ReadsBegun(IDLE, schedule) <= PACKETS_PER_XFER * n
    ensures var m := Run(IDLE, schedule); m.rp - Skipped(m.log) <= XFER_SIZE * n
  {
    ConsumptionUnderInterleaving(schedule);
    AskedForPackets(IDLE, schedule);
  }
}
