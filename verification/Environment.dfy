/** The plugin's end of both rings, for what it does while the engine is inside one of its methods. */
module Environment {
  import opened Protocol
  import opened RingModel
  import opened Fills
  import opened EngineModel
  import Ring

  /** One gap: the writes that fall before one packet read. */
  method WriteGap(ring: Ring.Ring, writes: Writes)
    requires ring.Valid() && WritesFit(ring.writePos, writes)
    modifies ring`writePos, ring`history, ring.data
    ensures ring.Valid() && ring.history == old(ring.history).Publish(Concat(writes))
  {
    ghost var s := ring.history;
    ghost var wp := ring.writePos;
    var i := 0;
    assert s.bytes + [] == s.bytes;
    while i < |writes|
      invariant i <= |writes| && ring.Valid()
      invariant ring.history == s.Publish(Concat(writes[..i]))
    {
      GapWriteFits(wp, writes, i);
      ring.Write(writes[i]);
      PublishTwice(s, Concat(writes[..i]), writes[i]);
      i := i + 1;
    }
    assert writes[..|writes|] == writes;
  }

  lemma {:induction false} GapWriteFits(wp: nat, writes: Writes, i: nat)
    requires WritesFit(wp, writes) && i < |writes|
    ensures |writes[i]| <= 2 * RING_BYTES - Slot(wp + |Concat(writes[..i])|)
    ensures Concat(writes[..i + 1]) == Concat(writes[..i]) + writes[i]
  {
    var front := writes[..|writes| - 1];
    if i < |front| {
      GapWriteFits(wp, front, i);
      assert front[..i] == writes[..i] && front[..i + 1] == writes[..i + 1];
    } else {
      assert writes[..i + 1] == writes;
    }
  }

  lemma {:induction false} GapFits(wp: nat, gaps: Gaps, p: nat)
    requires GapsFit(wp, gaps) && p < |gaps|
    ensures WritesFit(wp + |Flat(gaps[..p])|, gaps[p])
  {
    var front := gaps[..|gaps| - 1];
    if p < |front| {
      GapFits(wp, front, p);
      assert front[p] == gaps[p] && front[..p] == gaps[..p];
    }
  }

  lemma FlatNext(gaps: Gaps, p: nat)
    requires p < |gaps|
    ensures Joined(gaps[..p + 1]) == Joined(gaps[..p]) + [Concat(gaps[p])]
    ensures Flat(gaps[..p + 1]) == Flat(gaps[..p]) + Concat(gaps[p])
  {
    assert gaps[..p + 1][..p] == gaps[..p];
    ConcatOne(Joined(gaps[..p]), Concat(gaps[p]));
  }

  /** All gaps, with nobody reading in between. */
  method WriteGaps(ring: Ring.Ring, gaps: Gaps)
    requires ring.Valid() && GapsFit(ring.writePos, gaps)
    modifies ring`writePos, ring`history, ring.data
    ensures ring.Valid() && ring.history == old(ring.history).Publish(Flat(gaps))
  {
    ghost var s := ring.history;
    var p := 0;
    assert s.bytes + [] == s.bytes;
    while p < |gaps|
      invariant p <= |gaps| && ring.Valid()
      invariant ring.history == s.Publish(Flat(gaps[..p]))
    {
      GapFits(s.Wp(), gaps, p);
      FlatNext(gaps, p);
      WriteGap(ring, gaps[p]);
      PublishTwice(s, Flat(gaps[..p]), Concat(gaps[p]));
      p := p + 1;
    }
    assert gaps[..|gaps|] == gaps;
  }

  lemma {:induction false} PlanGapsFit(wp: nat, plugin: seq<Gaps>, k: nat)
    requires PlanFits(wp, plugin) && k < |plugin|
    ensures |plugin[k]| == PACKETS_PER_XFER && GapsFit(wp + |FlatAll(plugin[..k])|, plugin[k])
  {
    var front := plugin[..|plugin| - 1];
    if k < |front| {
      PlanGapsFit(wp, front, k);
      assert front[k] == plugin[k] && front[..k] == plugin[..k];
    }
  }

  /** The write position wp once the plugin has written its part of the first k transfers. */
  predicate PlanAt(from: nat, plugin: seq<Gaps>, k: nat, wp: nat)
    requires k <= |plugin|
  {
    wp == from + |FlatAll(plugin[..k])|
  }

  lemma PlanNext(from: nat, plugin: seq<Gaps>, k: nat, wp: nat)
    requires k < |plugin| && PlanFits(from, plugin) && PlanAt(from, plugin, k, wp)
    ensures |plugin[k]| == PACKETS_PER_XFER && GapsFit(wp, plugin[k])
    ensures PlanAt(from, plugin, k + 1, wp + |Flat(plugin[k])|)
  {
    PlanGapsFit(from, plugin, k);
    FlatAllOneMore(plugin, k);
  }

  /** The next transfer's writes, where nothing is filled from the ring. */
  lemma PlanPublishes(s: Stream, plugin: seq<Gaps>, k: nat, now: Stream)
    requires s.Ok() && k < |plugin| && PlanFits(s.Wp(), plugin) && now == s.Publish(FlatAll(plugin[..k]))
    ensures GapsFit(now.Wp(), plugin[k])
    ensures now.Publish(Flat(plugin[k])) == s.Publish(FlatAll(plugin[..k + 1]))
  {
    PlanNext(s.Wp(), plugin, k, now.Wp());
    FlatAllOneMore(plugin, k);
    PublishTwice(s, FlatAll(plugin[..k]), Flat(plugin[k]));
  }

  /** What the plugin writes during a start that submits nothing. */
  method WritePlan(ring: Ring.Ring, plugin: seq<Gaps>)
    requires ring.Valid() && PlanFits(ring.writePos, plugin)
    modifies ring`writePos, ring`history, ring.data
    ensures ring.Valid() && ring.history == old(ring.history).Publish(FlatAll(plugin))
  {
    ghost var s := ring.history;
    var k := 0;
    assert s.bytes + [] == s.bytes;
    while k < |plugin|
      invariant k <= |plugin| && ring.Valid()
      invariant ring.history == s.Publish(FlatAll(plugin[..k]))
    {
      PlanPublishes(s, plugin, k, ring.history);
      WriteGaps(ring, plugin[k]);
      k := k + 1;
    }
    assert plugin[..|plugin|] == plugin;
  }

  /** Reads and connections that fall before one packet is stored. */
  method ReadTurn(ring: Ring.Ring, turn: seq<Op>)
    requires ring.Valid() && OnlyReads(turn)
    modifies ring`readPos, ring`history
    ensures ring.Valid() && ring.history == Run(old(ring.history), turn)
  {
    ghost var s := ring.history;
    var i := 0;
    while i < |turn|
      invariant i <= |turn| && ring.Valid()
      invariant ring.history == Run(s, turn[..i])
    {
      assert turn[..i + 1][..i] == turn[..i];
      assert turn[i] in turn;
      match turn[i] {
        case Read(max) =>
          var dst := new byte[max](_ => 0);
          var got := ring.Read(dst, 0, max);
        case Sync =>
          ring.Resync();
      }
      i := i + 1;
    }
    assert turn[..|turn|] == turn;
  }
}
