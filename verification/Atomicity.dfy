/**
 Ties the two views of the ring together: a call of RingModel is a schedule of the interleaving machine in
 which nothing of the other thread falls between the steps of the call.
 */
module Atomicity {
  import opened Protocol
  import opened Window
  import opened Interleaving
  import RM = RingModel

  ghost predicate Represents(m: Machine, s: RM.Stream) {
    && Inv(m) && m.prod.Resting? && m.cons.Waiting?
    && s.Ok() && m.stream == s.bytes && m.rp == s.rp && m.log == s.log
  }

  function Times(a: Action, n: nat): (r: seq<Action>)
    ensures |r| == n
  {
    seq(n, _ => a)
  }

  function WriteCall(data: seq<byte>): seq<Action> {
    [BeginWrite(data)] + Times(CopyIn, |data|) + [Publish]
  }

  /** n is the number of bytes the read turns out to copy. */
  function ReadCall(max: nat, n: nat): seq<Action> {
    [BeginRead(max), LoadRp, Check] + Times(CopyOut, n) + [Retire]
  }

  const SYNC_CALL: seq<Action> := [BeginSync, EndSync]

  function Call(s: RM.Stream, op: RM.Op): seq<Action>
    requires s.Ok()
  {
    match op
    case Write(data) => WriteCall(data)
    case Read(max) => ReadCall(max, s.Count(max))
    case Sync => SYNC_CALL
  }

  lemma {:induction false} RunConcat(m: Machine, a: seq<Action>, b: seq<Action>)
    requires m.Ordered()
    ensures Run(m, a + b) == Run(Run(m, a), b)
  {
    if b == [] {
      assert a + b == a;
    } else {
      var front := b[..|b| - 1];
      assert (a + b)[..|a + b| - 1] == a + front;
      RunConcat(m, a, front);
    }
  }

  lemma RunOne(m: Machine, a: Action)
    requires m.Ordered()
    ensures Run(m, [a]) == Step(m, a)
  {
    assert [a][..0] == [];
    assert Run(m, []) == m;
  }

  lemma RunThree(m: Machine, a: Action, b: Action, c: Action)
    requires m.Ordered()
    ensures Run(m, [a, b, c]) == Step(Step(Step(m, a), b), c)
  {
    RunOne(m, a);
    RunConcat(m, [a], [b]);
    RunOne(Step(m, a), b);
    RunConcat(m, [a, b], [c]);
    RunOne(Step(Step(m, a), b), c);
    assert [a] + [b] == [a, b] && [a, b] + [c] == [a, b, c];
  }

  lemma TimesNext(a: Action, n: nat)
    ensures Times(a, n + 1)[..n] == Times(a, n)
  {
  }

  /** t is m after k byte copies into the ring. */
  ghost predicate AfterCopyIn(m: Machine, t: Machine, k: nat)
    requires m.prod.Copying?
  {
    Inv(t) && t == m.(ring := t.ring, prod := m.prod.(done := k))
  }

  lemma {:induction false} CopyInAll(m: Machine, k: nat)
    requires Inv(m) && m.prod.Copying? && m.prod.done == 0 && k <= |m.prod.data|
    ensures AfterCopyIn(m, Run(m, Times(CopyIn, k)), k)
  {
    if k == 0 {
      assert Times(CopyIn, 0) == [];
    } else {
      CopyInAll(m, k - 1);
      TimesNext(CopyIn, k - 1);
      CopyInOne(m, Run(m, Times(CopyIn, k - 1)), k - 1);
    }
  }

  lemma CopyInOne(m: Machine, t: Machine, k: nat)
    requires m.prod.Copying? && AfterCopyIn(m, t, k) && k < |m.prod.data|
    ensures AfterCopyIn(m, Step(t, CopyIn), k + 1)
  {
    CopyInKeepsInv(t);
  }

  /** t is m after k byte copies out of a ring nobody is writing: each is the latest byte of its slot. */
  ghost predicate AfterCopyOut(m: Machine, t: Machine, k: nat)
    requires m.Ordered() && t.Ordered() && m.cons.Reading?
  {
    && Inv(t) && t.cons.Reading? && |t.cons.dst| == k && m.rp + k <= m.wp <= |m.stream|
    && t == m.(cons := m.cons.(dst := t.cons.dst, fronts := t.cons.fronts))
    && forall j :: 0 <= j < k ==> t.cons.dst[j] == m.stream[Latest(m.rp + j, m.wp)]
  }

  lemma CopyOutOne(m: Machine, t: Machine, k: nat)
    requires Inv(m) && m.prod.Resting? && m.cons.Reading?
    requires t.Ordered() && AfterCopyOut(m, t, k) && k < m.cons.n
    ensures AfterCopyOut(m, Step(t, CopyOut), k + 1)
  {
    StepKeepsInv(t, CopyOut);
    CopySlotIsSlot(m.cons.at, m.cons.n, k);
    SlotHoldsLatest(t.ring, t.stream, t.wp, m.rp + k);
  }

  lemma {:induction false} CopyOutAll(m: Machine, k: nat)
    requires Inv(m) && m.prod.Resting? && m.cons.Reading? && m.cons.dst == []
    requires k <= m.cons.n
    ensures AfterCopyOut(m, Run(m, Times(CopyOut, k)), k)
  {
    if k > 0 {
      CopyOutAll(m, k - 1);
      TimesNext(CopyOut, k - 1);
      CopyOutOne(m, Run(m, Times(CopyOut, k - 1)), k - 1);
    }
  }

  lemma WriteCallSplit(m: Machine, data: seq<byte>)
    requires m.Ordered()
    ensures Run(m, WriteCall(data)) == Step(Run(Step(m, BeginWrite(data)), Times(CopyIn, |data|)), Publish)
  {
    RunOne(m, BeginWrite(data));
    RunConcat(m, [BeginWrite(data)], Times(CopyIn, |data|));
    RunConcat(m, [BeginWrite(data)] + Times(CopyIn, |data|), [Publish]);
    RunOne(Run(m, [BeginWrite(data)] + Times(CopyIn, |data|)), Publish);
  }

  /** A whole write, whatever the consumer is in the middle of. */
  lemma WriteRuns(m: Machine, data: seq<byte>)
    requires Inv(m) && m.prod.Resting? && |data| <= 2 * RING_BYTES - Slot(m.wp)
    ensures var t := Run(m, WriteCall(data));
            Inv(t) && t == m.(ring := t.ring, wp := m.wp + |data|, stream := m.stream + data)
  {
    WriteCallSplit(m, data);
    BeginWriteKeepsInv(m, data);
    var begun := Step(m, BeginWrite(data));
    CopyInAll(begun, |data|);
    PublishedInv(Run(begun, Times(CopyIn, |data|)));
  }

  lemma WriteCallRuns(m: Machine, s: RM.Stream, data: seq<byte>)
    requires Represents(m, s) && |data| <= 2 * RING_BYTES - Slot(m.wp)
    ensures Represents(Run(m, WriteCall(data)), s.Publish(data))
  {
    WriteRuns(m, data);
  }

  lemma PublishedInv(m: Machine)
    requires Inv(m) && m.prod.Copying? && m.prod.done == |m.prod.data|
    ensures Inv(Step(m, Publish))
  {
  }

  /** The consumer up to its decision: lapped, nothing to read, or about to copy. */
  lemma ReadStarts(m: Machine, max: nat)
    requires Inv(m) && m.cons.Waiting?
    ensures var t := Run(m, [BeginRead(max), LoadRp, Check]);
            && Inv(t)
            && t == Step(m.(cons := SawBoth(m.wp, m.rp, max)), Check)
  {
    var a, b := Step(m, BeginRead(max)), m.(cons := SawBoth(m.wp, m.rp, max));
    RunThree(m, BeginRead(max), LoadRp, Check);
    StepKeepsInv(m, BeginRead(max));
    StepKeepsInv(a, LoadRp);
    StepKeepsInv(b, Check);
  }

  lemma ReadCallSplit(m: Machine, max: nat, n: nat)
    requires Inv(m) && m.cons.Waiting?
    ensures var started := Step(m.(cons := SawBoth(m.wp, m.rp, max)), Check);
            Inv(started) && Run(m, ReadCall(max, n)) == Step(Run(started, Times(CopyOut, n)), Retire)
  {
    ReadStarts(m, max);
    RunConcat(m, [BeginRead(max), LoadRp, Check], Times(CopyOut, n));
    RunConcat(m, [BeginRead(max), LoadRp, Check] + Times(CopyOut, n), [Retire]);
    RunOne(Run(m, [BeginRead(max), LoadRp, Check] + Times(CopyOut, n)), Retire);
  }

  /** A consumer that is lapped, or finds nothing, is done at its check. */
  lemma EmptyHandedCheck(m: Machine, s: RM.Stream, max: nat)
    requires Represents(m, s) && (s.Lapped() || s.Unread() == 0)
    ensures Represents(Step(m.(cons := SawBoth(m.wp, m.rp, max)), Check), s.Consume(max))
  {
    ReadStarts(m, max);
  }

  lemma NothingToCopy(m: Machine)
    requires m.Ordered() && m.cons.Waiting?
    ensures Step(Run(m, Times(CopyOut, 0)), Retire) == m
  {
    assert Times(CopyOut, 0) == [];
    assert Run(m, []) == m;
  }

  lemma EmptyHandedRead(m: Machine, s: RM.Stream, max: nat)
    requires Represents(m, s) && (s.Lapped() || s.Unread() == 0)
    ensures Represents(Run(m, ReadCall(max, 0)), s.Consume(max))
  {
    ReadCallSplit(m, max, 0);
    EmptyHandedCheck(m, s, max);
    NothingToCopy(Step(m.(cons := SawBoth(m.wp, m.rp, max)), Check));
  }

  lemma ReadBegins(m: Machine, s: RM.Stream, max: nat)
    requires Represents(m, s) && 0 < s.Unread() <= RING_BYTES
    ensures Step(m.(cons := SawBoth(m.wp, m.rp, max)), Check) == m.(cons := Reading(m.rp, s.Count(max), [], []))
  {
  }

  /** With at most a ring unread, the latest bytes are the reader's own. */
  lemma OwnBytes(m: Machine, t: Machine, k: nat)
    requires m.Ordered() && t.Ordered() && m.cons.Reading? && AfterCopyOut(m, t, k) && m.wp <= m.rp + RING_BYTES
    ensures t.cons.dst == m.stream[m.rp..m.rp + k]
  {
  }

  lemma ReadEnds(m: Machine, copied: Machine, s: RM.Stream, max: nat)
    requires Represents(m, s) && 0 < s.Unread() <= RING_BYTES
    requires var started := m.(cons := Reading(m.rp, s.Count(max), [], []));
             copied.Ordered() && started.Ordered() && AfterCopyOut(started, copied, s.Count(max))
    ensures Represents(Step(copied, Retire), s.Consume(max))
  {
    OwnBytes(m.(cons := Reading(m.rp, s.Count(max), [], [])), copied, s.Count(max));
    StepKeepsInv(copied, Retire);
  }

  lemma CopyingRead(m: Machine, s: RM.Stream, max: nat)
    requires Represents(m, s) && 0 < s.Unread() <= RING_BYTES
    ensures Represents(Run(m, ReadCall(max, s.Count(max))), s.Consume(max))
  {
    var n := s.Count(max);
    ReadCallSplit(m, max, n);
    ReadBegins(m, s, max);
    var started := m.(cons := Reading(m.rp, n, [], []));
    CopyOutAll(started, n);
    ReadEnds(m, Run(started, Times(CopyOut, n)), s, max);
  }

  lemma ReadCallRuns(m: Machine, s: RM.Stream, max: nat)
    requires Represents(m, s)
    ensures Represents(Run(m, ReadCall(max, s.Count(max))), s.Consume(max))
  {
    if s.Lapped() || s.Unread() == 0 {
      EmptyHandedRead(m, s, max);
    } else {
      CopyingRead(m, s, max);
    }
  }

  lemma SyncCallRuns(m: Machine, s: RM.Stream)
    requires Represents(m, s)
    ensures Represents(Run(m, SYNC_CALL), s.Reconnect())
  {
    var a := Step(m, BeginSync);
    RunOne(m, BeginSync);
    RunConcat(m, [BeginSync], [EndSync]);
    RunOne(a, EndSync);
    assert [BeginSync] + [EndSync] == SYNC_CALL;
    StepKeepsInv(m, BeginSync);
    StepKeepsInv(a, EndSync);
  }

  /** Every write of the run fits the two-chunk copy. */
  predicate CallsFit(ops: seq<RM.Op>) {
    ops == [] ||
    (&& CallsFit(ops[..|ops| - 1])
     && var op := ops[|ops| - 1];
        op.Write? ==> |op.data| <= 2 * RING_BYTES - Slot(RM.Run(RM.EMPTY, ops[..|ops| - 1]).Wp()))
  }

  function Schedule(ops: seq<RM.Op>): seq<Action> {
    if ops == [] then []
    else Schedule(ops[..|ops| - 1]) + Call(RM.Run(RM.EMPTY, ops[..|ops| - 1]), ops[|ops| - 1])
  }

  lemma InitialRepresents()
    ensures Represents(IDLE, RM.EMPTY)
  {
  }

  /** Every run of whole calls is a schedule of the step machine, and the two agree on all they share. */
  lemma {:induction false} CallsAreSchedules(ops: seq<RM.Op>)
    requires CallsFit(ops)
    ensures Represents(Run(IDLE, Schedule(ops)), RM.Run(RM.EMPTY, ops))
  {
    if ops == [] {
      InitialRepresents();
    } else {
      var front, op := ops[..|ops| - 1], ops[|ops| - 1];
      CallsAreSchedules(front);
      var m, s := Run(IDLE, Schedule(front)), RM.Run(RM.EMPTY, front);
      RunConcat(IDLE, Schedule(front), Call(s, op));
      match op
      case Write(data) => WriteCallRuns(m, s, data);
      case Read(max) => ReadCallRuns(m, s, max);
      case Sync => SyncCallRuns(m, s);
    }
  }
}
