/** The two counters as other code sees them while calls are in progress. */
module Observers {
  import opened Protocol
  import opened Ledger
  import opened Interleaving

  /** Both counters only grow, and the read position never passes the write position. */
  lemma {:induction false} PositionsGrow(m: Machine, schedule: seq<Action>)
    requires m.Ordered()
    ensures var t := Run(m, schedule);
            && m.wp <= t.wp && m.rp <= t.rp <= t.wp
            && ((forall a <- schedule :: !a.OfProducer()) ==> t.wp == m.wp)
            && ((forall a <- schedule :: a.OfProducer()) ==> t.rp == m.rp)
  {
    if schedule != [] {
      PositionsGrow(m, schedule[..|schedule| - 1]);
    }
  }

  /** shm_ring_available loads write_pos at one instant and read_pos at a later one. */
  function Observed(first: Machine, second: Machine): int {
    first.wp - second.rp
  }

  /**
   Called on the producer's thread, only consumer steps fall between the two loads: the result is the
   fill level at the second load, so it never underflows.
   */
  lemma {:induction false} ProducerObserves(before: seq<Action>, during: seq<Action>)
    requires forall a <- during :: !a.OfProducer()
    ensures var first := Run(IDLE, before);
            var second := Run(first, during);
            0 <= Observed(first, second) == second.wp - second.rp
  {
    PositionsGrow(Run(IDLE, before), during);
  }

  /** Called on the consumer's thread, the result is the fill level at the first load. */
  lemma {:induction false} ConsumerObserves(before: seq<Action>, during: seq<Action>)
    requires forall a <- during :: a.OfProducer()
    ensures var first := Run(IDLE, before);
            var second := Run(first, during);
            0 <= Observed(first, second) == first.wp - first.rp
  {
    PositionsGrow(Run(IDLE, before), during);
  }

  // ---- A request for what the query found ----

  predicate OnlyProducer(schedule: seq<Action>) {
    forall a <- schedule :: a.OfProducer()
  }

  /** While only the producer moves, the consumer stands where it stood and the ring only fills. */
  lemma {:induction false} ConsumerStands(m: Machine, schedule: seq<Action>)
    requires m.Ordered() && OnlyProducer(schedule)
    ensures var t := Run(m, schedule); t.cons == m.cons && t.rp == m.rp && t.log == m.log && m.wp <= t.wp
  {
    if schedule != [] {
      ConsumerStands(m, schedule[..|schedule| - 1]);
    }
  }

  /** The state of a read whose check is next, the producer having moved before each of its two loads and its check. */
  function CheckNext(m: Machine, a: seq<Action>, max: nat, b: seq<Action>, c: seq<Action>): (t: Machine)
    requires m.Ordered()
    ensures t.Ordered()
  {
    Run(Step(Run(Step(Run(m, a), BeginRead(max)), b), LoadRp), c)
  }

  /**
   A consumer that asks for no more than its query found is given all of it or, if it was lapped meanwhile, nothing:
   whatever the producer does between the query and the two loads and the check of the read, the read skips to the
   write position it saw or goes on to copy exactly max bytes.
   */
  lemma RequestIsWhole(m: Machine, a: seq<Action>, max: nat, b: seq<Action>, c: seq<Action>)
    requires m.Ordered() && m.cons.Waiting? && 0 < max <= m.wp - m.rp
    requires OnlyProducer(a) && OnlyProducer(b) && OnlyProducer(c)
    ensures var before, t := CheckNext(m, a, max, b, c), Step(CheckNext(m, a, max, b, c), Check);
            var seen := Run(m, a).wp;
            if seen - m.rp > RING_BYTES then
              t == before.(rp := seen, cons := Waiting, log := before.log + [Lap(m.rp, seen)],
                           sources := before.sources + [[]])
            else
              t == before.(cons := Reading(m.rp, max, [], []))
  {
    var start := Run(m, a);
    ConsumerStands(m, a);
    var loaded := Step(start, BeginRead(max));
    ConsumerStands(loaded, b);
    var both := Step(Run(loaded, b), LoadRp);
    ConsumerStands(both, c);
  }
}
